/**
 * The older macro expander, which rewrites a query tree before evaluation:
 * `->` and `->>` thread a value through their stages, `when` becomes an
 * `if` with a `nil` else branch, and every other node is rebuilt with its
 * children expanded.
 *
 * It works on the tree of the revision it was written against, in which
 * the collection operations and predicates take no operand, `take`, `drop`
 * and `nth` take one, and `=` takes two.  That tree is declared here.
 */
module MacroExpansion {
  import opened Errors
  import opened Value

  datatype Expr =
    | Identity
    | Get(key: EdnValue)
    | GetIn(path: seq<EdnValue>)
    | KeywordAccess(name: string)
    | KeywordGet(name: string, inner: Expr)
    | First | Last | Rest | Count | Keys | Vals
    | Take(inner: Expr)
    | Drop(inner: Expr)
    | Nth(inner: Expr)
    | Map(inner: Expr)
    | Remove(inner: Expr)
    | SelectKeys(keys: seq<EdnValue>)
    | Select(inner: Expr)
    | IsNil | IsEmpty | IsNumber | IsString | IsKeyword | IsBoolean
    | Contains(inner: Expr)
    | Equal(left: Expr, right: Expr)
    | LessThan(inner: Expr)
    | GreaterThan(inner: Expr)
    | LessEqual(inner: Expr)
    | GreaterEqual(inner: Expr)
    | ThreadFirst(stages: seq<Expr>)
    | ThreadLast(stages: seq<Expr>)
    | Comp(stages: seq<Expr>)
    | If(test: Expr, thenExpr: Expr, elseExpr: Option<Expr>)
    | When(test: Expr, body: Expr)
    | Reduce(func: Expr, init: Option<Expr>)
    | Apply(inner: Expr)
    | GroupBy(inner: Expr)
    | Frequencies
    | Literal(value: EdnValue)

  /** The nodes with exactly one sub-expression, held in `inner`. */
  predicate HasInner(e: Expr)
  {
    e.KeywordGet? || e.Take? || e.Drop? || e.Nth? || e.Map? || e.Remove? || e.Select? ||
    e.Contains? || e.LessThan? || e.GreaterThan? || e.LessEqual? || e.GreaterEqual? ||
    e.Apply? || e.GroupBy?
  }

  /** The operand-free operations the threading macros apply by name. */
  predicate IsNullary(e: Expr)
  {
    e.First? || e.Last? || e.Rest? || e.Count? || e.Keys? || e.Vals? ||
    e.IsNil? || e.IsEmpty? || e.IsNumber? || e.IsString? || e.IsKeyword? || e.IsBoolean? ||
    e.Frequencies?
  }

  // ---------------------------------------------------------------------
  // Expansion

  function ExpandMacros(e: Expr): Expr
    decreases e, 1
  {
    if e.ThreadFirst? || e.ThreadLast? then
      (if e.stages == [] then Identity else ThreadRest(e, 1, ExpandMacros(e.stages[0])))
    else if e.When? then If(ExpandMacros(e.test), ExpandMacros(e.body), Some(Literal(Nil)))
    else if HasInner(e) then e.(inner := ExpandMacros(e.inner))
    else if e.Equal? then Equal(ExpandMacros(e.left), ExpandMacros(e.right))
    else if e.Comp? then Comp(ExpandEach(e, 0))
    else if e.If? then
      If(ExpandMacros(e.test), ExpandMacros(e.thenExpr),
         if e.elseExpr.Some? then Some(ExpandMacros(e.elseExpr.value)) else None)
    else if e.Reduce? then
      Reduce(ExpandMacros(e.func), if e.init.Some? then Some(ExpandMacros(e.init.value)) else None)
    else e
  }

  /** The threading loop: thread the running result into each remaining stage, each expanded first. */
  function ThreadRest(e: Expr, i: nat, result: Expr): Expr
    requires (e.ThreadFirst? || e.ThreadLast?) && 1 <= i <= |e.stages|
    decreases e, 0, |e.stages| - i
  {
    if i == |e.stages| then result
    else ThreadRest(e, i + 1, ThreadInto(result, ExpandMacros(e.stages[i]), e.ThreadFirst?))
  }

  /** The stages of a composition from index `i` on, each expanded. */
  function ExpandEach(e: Expr, i: nat): seq<Expr>
    requires e.Comp? && i <= |e.stages|
    decreases e, 0, |e.stages| - i
  {
    if i == |e.stages| then [] else [ExpandMacros(e.stages[i])] + ExpandEach(e, i + 1)
  }

  /** Thread `value` into the stage `func`, in first or last argument position. */
  function ThreadInto(value: Expr, func: Expr, firstPosition: bool): Expr
  {
    if func.First? then ApplyFunctionToValue("first", value)
    else if func.Last? then ApplyFunctionToValue("last", value)
    else if func.Rest? then ApplyFunctionToValue("rest", value)
    else if func.Count? then ApplyFunctionToValue("count", value)
    else if func.Keys? then ApplyFunctionToValue("keys", value)
    else if func.Vals? then ApplyFunctionToValue("vals", value)
    else if func.IsNil? then ApplyFunctionToValue("nil?", value)
    else if func.IsEmpty? then ApplyFunctionToValue("empty?", value)
    else if func.IsNumber? then ApplyFunctionToValue("number?", value)
    else if func.IsString? then ApplyFunctionToValue("string?", value)
    else if func.IsKeyword? then ApplyFunctionToValue("keyword?", value)
    else if func.IsBoolean? then ApplyFunctionToValue("boolean?", value)
    else if func.Frequencies? then ApplyFunctionToValue("frequencies", value)
    else if func.KeywordAccess? then Get(Keyword(func.name))
    else if func.Take? then (if firstPosition then Take(value) else CreateTakeWithThreadedValue(func.inner, value))
    else if func.Drop? then (if firstPosition then Drop(value) else CreateDropWithThreadedValue(func.inner, value))
    else if func.Nth? then (if firstPosition then Nth(value) else CreateNthWithThreadedValue(func.inner, value))
    else CreateFunctionApplication(func, value)
  }

  /** The operand-free node of the given name; an unknown name falls back to the value. */
  function ApplyFunctionToValue(name: string, value: Expr): Expr
  {
    match name
    case "first" => First
    case "last" => Last
    case "rest" => Rest
    case "count" => Count
    case "keys" => Keys
    case "vals" => Vals
    case "nil?" => IsNil
    case "empty?" => IsEmpty
    case "number?" => IsNumber
    case "string?" => IsString
    case "keyword?" => IsKeyword
    case "boolean?" => IsBoolean
    case "frequencies" => Frequencies
    case _ => value
  }

  function CreateTakeWithThreadedValue(n: Expr, collection: Expr): Expr { Take(n) }

  function CreateDropWithThreadedValue(n: Expr, collection: Expr): Expr { Drop(n) }

  function CreateNthWithThreadedValue(n: Expr, collection: Expr): Expr { Nth(n) }

  function CreateFunctionApplication(func: Expr, value: Expr): Expr { Comp([func, value]) }

  /** The expansion of a non-empty `->` or `->>`, as the loop over its stages computes it. */
  method ExpandThreading(stages: seq<Expr>, firstPosition: bool) returns (result: Expr)
    requires stages != []
    ensures result == ExpandMacros(if firstPosition then ThreadFirst(stages) else ThreadLast(stages))
  {
    var e := if firstPosition then ThreadFirst(stages) else ThreadLast(stages);
    result := ExpandMacros(stages[0]);
    var i := 1;
    while i < |stages|
      invariant 1 <= i <= |stages|
      invariant ExpandMacros(e) == ThreadRest(e, i, result)
      decreases |stages| - i
    {
      result := ThreadInto(result, ExpandMacros(stages[i]), firstPosition);
      i := i + 1;
    }
  }

  // ---------------------------------------------------------------------
  // Macro nodes

  /** Whether a macro node occurs anywhere in the tree. */
  predicate ContainsMacros(e: Expr)
    decreases e, 1
  {
    if e.ThreadFirst? || e.ThreadLast? || e.When? then true
    else if HasInner(e) then ContainsMacros(e.inner)
    else if e.Equal? then ContainsMacros(e.left) || ContainsMacros(e.right)
    else if e.Comp? then AnyContainsMacros(e, 0)
    else if e.If? then
      ContainsMacros(e.test) || ContainsMacros(e.thenExpr) ||
      (e.elseExpr.Some? && ContainsMacros(e.elseExpr.value))
    else if e.Reduce? then ContainsMacros(e.func) || (e.init.Some? && ContainsMacros(e.init.value))
    else false
  }

  /** Whether a macro node occurs in a stage of the composition from index `i` on. */
  predicate AnyContainsMacros(e: Expr, i: nat)
    requires e.Comp? && i <= |e.stages|
    decreases e, 0, |e.stages| - i
  {
    i < |e.stages| && (ContainsMacros(e.stages[i]) || AnyContainsMacros(e, i + 1))
  }

  // ---------------------------------------------------------------------
  // Properties

  /** Threading into a stage that has no macro node, a value that has none, keeps it that way. */
  lemma ThreadIntoMacroFree(value: Expr, func: Expr, firstPosition: bool)
    requires !ContainsMacros(value) && !ContainsMacros(func)
    ensures !ContainsMacros(ThreadInto(value, func, firstPosition))
  {
    if IsNullary(func) {
      NullaryStage(value, func, firstPosition);
    } else if func.Take? || func.Drop? || func.Nth? {
      ArgumentStage(value, func);
    } else if !func.KeywordAccess? {
      OtherStage(value, func, firstPosition);
      var c := Comp([func, value]);
      assert c.stages[0] == func && c.stages[1] == value;
      assert !AnyContainsMacros(c, 2);
      assert !AnyContainsMacros(c, 1);
      assert !AnyContainsMacros(c, 0);
    } else {
      KeywordStage(value, func.name, firstPosition);
    }
  }

  /** No `->`, `->>` or `when` node survives expansion, at any depth. */
  lemma {:induction false} ExpansionMacroFree(e: Expr)
    ensures !ContainsMacros(ExpandMacros(e))
    decreases e, 2
  {
    if e.ThreadFirst? || e.ThreadLast? {
      if e.stages != [] {
        ExpansionMacroFree(e.stages[0]);
        ThreadRestMacroFree(e, 1, ExpandMacros(e.stages[0]));
      }
    } else if e.When? || HasInner(e) || e.Equal? {
      ChildrenMacroFree(e);
    } else if e.Comp? || e.If? || e.Reduce? {
      BranchesMacroFree(e);
    }
  }

  lemma {:induction false} ChildrenMacroFree(e: Expr)
    requires e.When? || HasInner(e) || e.Equal?
    ensures !ContainsMacros(ExpandMacros(e))
    decreases e, 1
  {
    if e.When? {
      ExpansionMacroFree(e.test);
      ExpansionMacroFree(e.body);
    } else if HasInner(e) {
      ExpansionMacroFree(e.inner);
    } else {
      ExpansionMacroFree(e.left);
      ExpansionMacroFree(e.right);
    }
  }

  lemma {:induction false} BranchesMacroFree(e: Expr)
    requires e.Comp? || e.If? || e.Reduce?
    ensures !ContainsMacros(ExpandMacros(e))
    decreases e, 1
  {
    if e.Comp? {
      ExpandEachMacroFree(e, 0);
    } else if e.If? {
      ExpansionMacroFree(e.test);
      ExpansionMacroFree(e.thenExpr);
      if e.elseExpr.Some? {
        ExpansionMacroFree(e.elseExpr.value);
      }
    } else {
      ExpansionMacroFree(e.func);
      if e.init.Some? {
        ExpansionMacroFree(e.init.value);
      }
    }
  }

  lemma {:induction false} ThreadRestMacroFree(e: Expr, i: nat, result: Expr)
    requires (e.ThreadFirst? || e.ThreadLast?) && 1 <= i <= |e.stages|
    requires !ContainsMacros(result)
    ensures !ContainsMacros(ThreadRest(e, i, result))
    decreases e, 0, |e.stages| - i
  {
    if i < |e.stages| {
      var stage := ExpandMacros(e.stages[i]);
      ExpansionMacroFree(e.stages[i]);
      ThreadIntoMacroFree(result, stage, e.ThreadFirst?);
      ThreadRestMacroFree(e, i + 1, ThreadInto(result, stage, e.ThreadFirst?));
    }
  }

  /** The expanded stages of a composition from `i` on, as a composition of their own, hold no macro. */
  lemma {:induction false} ExpandEachMacroFree(e: Expr, i: nat)
    requires e.Comp? && i <= |e.stages|
    ensures !AnyContainsMacros(Comp(ExpandEach(e, i)), 0)
    decreases e, 0, |e.stages| - i
  {
    if i < |e.stages| {
      ExpansionMacroFree(e.stages[i]);
      ExpandEachMacroFree(e, i + 1);
      AnyShift(ExpandMacros(e.stages[i]), ExpandEach(e, i + 1), 0);
    }
  }

  /** Prepending a stage shifts the indices of the later stages by one. */
  lemma {:induction false} AnyShift(head: Expr, tail: seq<Expr>, j: nat)
    requires j <= |tail|
    ensures AnyContainsMacros(Comp([head] + tail), j + 1) == AnyContainsMacros(Comp(tail), j)
    decreases |tail| - j
  {
    var c := Comp([head] + tail);
    if j < |tail| {
      assert c.stages[j + 1] == tail[j];
      AnyShift(head, tail, j + 1);
    }
  }

  /** A tree without macro nodes is left exactly as it is. */
  lemma {:induction false} MacroFreeUnchanged(e: Expr)
    requires !ContainsMacros(e)
    ensures ExpandMacros(e) == e
    decreases e, 1
  {
    if HasInner(e) {
      MacroFreeUnchanged(e.inner);
    } else if e.Equal? {
      MacroFreeUnchanged(e.left);
      MacroFreeUnchanged(e.right);
    } else if e.Comp? {
      ExpandEachUnchanged(e, 0);
    } else if e.If? {
      MacroFreeUnchanged(e.test);
      MacroFreeUnchanged(e.thenExpr);
      if e.elseExpr.Some? {
        MacroFreeUnchanged(e.elseExpr.value);
      }
    } else if e.Reduce? {
      MacroFreeUnchanged(e.func);
      if e.init.Some? {
        MacroFreeUnchanged(e.init.value);
      }
    }
  }

  lemma {:induction false} ExpandEachUnchanged(e: Expr, i: nat)
    requires e.Comp? && i <= |e.stages| && !AnyContainsMacros(e, i)
    ensures ExpandEach(e, i) == e.stages[i..]
    decreases e, 0, |e.stages| - i
  {
    if i < |e.stages| {
      MacroFreeUnchanged(e.stages[i]);
      ExpandEachUnchanged(e, i + 1);
      assert e.stages[i..] == [e.stages[i]] + e.stages[i + 1..];
    }
  }

  /** Expanding twice is expanding once. */
  lemma ExpandIdempotent(e: Expr)
    ensures ExpandMacros(ExpandMacros(e)) == ExpandMacros(e)
  {
    ExpansionMacroFree(e);
    MacroFreeUnchanged(ExpandMacros(e));
  }

  /** An empty `->` or `->>` is the identity. */
  lemma EmptyThreading()
    ensures ExpandMacros(ThreadFirst([])) == Identity
    ensures ExpandMacros(ThreadLast([])) == Identity
  {
  }

  /** `when` becomes an `if` whose else branch is the literal `nil`. */
  lemma WhenExpansion(test: Expr, body: Expr)
    ensures ExpandMacros(When(test, body)) == If(ExpandMacros(test), ExpandMacros(body), Some(Literal(Nil)))
  {
  }

  /** An `if` keeps an absent else branch absent, and expands a present one. */
  lemma IfExpansion(test: Expr, thenExpr: Expr, elseExpr: Option<Expr>)
    ensures ExpandMacros(If(test, thenExpr, elseExpr)).If?
    ensures ExpandMacros(If(test, thenExpr, elseExpr)).elseExpr.None? <==> elseExpr.None?
    ensures elseExpr.Some? ==> ExpandMacros(If(test, thenExpr, elseExpr)).elseExpr == Some(ExpandMacros(elseExpr.value))
  {
  }

  /** A node with one child keeps its constructor and its other fields. */
  lemma InnerRebuilt(e: Expr)
    requires HasInner(e)
    ensures HasInner(ExpandMacros(e)) && ExpandMacros(e) == e.(inner := ExpandMacros(e.inner))
    ensures e.KeywordGet? ==> ExpandMacros(e).KeywordGet? && ExpandMacros(e).name == e.name
  {
  }

  /** An operand-free stage replaces the threaded value: the stage itself is the result. */
  lemma NullaryStage(value: Expr, func: Expr, firstPosition: bool)
    requires IsNullary(func)
    ensures ThreadInto(value, func, firstPosition) == func
  {
    if func.First? || func.Last? || func.Rest? || func.Count? || func.Keys? || func.Vals? {
      CollectionStage(value, func, firstPosition);
    } else {
      PredicateStage(value, func, firstPosition);
    }
  }

  lemma CollectionStage(value: Expr, func: Expr, firstPosition: bool)
    requires func.First? || func.Last? || func.Rest? || func.Count? || func.Keys? || func.Vals?
    ensures ThreadInto(value, func, firstPosition) == func
  {
  }

  lemma PredicateStage(value: Expr, func: Expr, firstPosition: bool)
    requires func.IsNil? || func.IsEmpty? || func.IsNumber? || func.IsString? || func.IsKeyword? ||
             func.IsBoolean? || func.Frequencies?
    ensures ThreadInto(value, func, firstPosition) == func
  {
  }

  /** A keyword stage becomes a `get` of that keyword. */
  lemma KeywordStage(value: Expr, name: string, firstPosition: bool)
    ensures ThreadInto(value, KeywordAccess(name), firstPosition) == Get(Keyword(name))
  {
  }

  /** `take`, `drop` and `nth` take the threaded value as their argument under `->`, and keep
      their own argument under `->>`. */
  lemma ArgumentStage(value: Expr, func: Expr)
    requires func.Take? || func.Drop? || func.Nth?
    ensures ThreadInto(value, func, true) == func.(inner := value)
    ensures ThreadInto(value, func, false) == func
  {
  }

  /** Any other stage is composed with the threaded value. */
  lemma OtherStage(value: Expr, func: Expr, firstPosition: bool)
    requires !IsNullary(func) && !func.KeywordAccess? && !func.Take? && !func.Drop? && !func.Nth?
    ensures ThreadInto(value, func, firstPosition) == Comp([func, value])
  {
  }

  /** `(-> . first :name)`: the nullary stage and the keyword stage each replace what came before. */
  lemma ThreadFirstExample()
    ensures ExpandMacros(ThreadFirst([Identity, First, KeywordAccess("name")])) == Get(Keyword("name"))
  {
    var e := ThreadFirst([Identity, First, KeywordAccess("name")]);
    assert ThreadRest(e, 1, Identity) == ThreadRest(e, 2, First);
  }
}
