/**
 * The query front end's staging step: a parsed EDN value becomes a raw
 * query tree.  Nothing is resolved here; lists are kept whole for the
 * analyzer, whatever their head or arity.
 */
module QueryParser {
  import opened Errors
  import opened Value
  import opened Ast

  /** Stage one EDN value.  The source's result type admits an error, but no value produces one. */
  function EdnToExpr(v: EdnValue): (r: Result<Expr>)
    ensures r.Ok?
    ensures v.Symbol? <==> r.value.Symbol?
    ensures v.List? <==> r.value.List?
    ensures !v.Symbol? && !v.List? <==> r.value.Literal?
  {
    if v.Symbol? then Ok(Expr.Symbol(v.name))
    else if v.Keyword? then Ok(Literal(Keyword(v.name)))
    else if v.List? then Ok(Expr.List(v.items))
    else Ok(Literal(v))
  }

  /** The EDN value a staged tree came from. */
  function Unstage(e: Expr): Option<EdnValue>
  {
    if e.Symbol? then Some(EdnValue.Symbol(e.name))
    else if e.List? then Some(EdnValue.List(e.elements))
    else if e.Literal? then Some(e.value)
    else None
  }

  /** Staging loses nothing: the value can always be recovered from the tree. */
  lemma StageRoundTrip(v: EdnValue)
    ensures Unstage(EdnToExpr(v).value) == Some(v)
  {
  }

  /** Hence two different values never stage to the same tree. */
  lemma StageInjective(v: EdnValue, w: EdnValue)
    requires EdnToExpr(v) == EdnToExpr(w)
    ensures v == w
  {
    StageRoundTrip(v);
    StageRoundTrip(w);
  }

  /** Each shape of value stages to its own kind of tree, with the payload unchanged; an empty
      list, an unknown head and a wrong arity are all accepted as raw lists. */
  lemma StageShapes(v: EdnValue)
    ensures v.Symbol? ==> EdnToExpr(v) == Ok(Expr.Symbol(v.name))
    ensures v.Keyword? ==> EdnToExpr(v) == Ok(Literal(v))
    ensures v.List? ==> EdnToExpr(v) == Ok(Expr.List(v.items))
    ensures !v.Symbol? && !v.List? ==> EdnToExpr(v) == Ok(Literal(v))
  {
  }
}
