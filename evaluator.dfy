/**
 * The tree-walking evaluator: every query node is a function from one
 * context value to a result.  There is no environment; `map`, `remove` and
 * `comp` re-enter the evaluator with a different context.
 */
module Evaluator {
  import opened Errors
  import opened Value
  import opened Ast
  import CoreOps

  const UnexpandedMacro := "Unexpanded macro found - macros should be expanded before evaluation"
  const UnanalyzedList := "Unanalyzed list expression found - analysis phase should handle all lists"
  const UnanalyzedSymbol := "Unanalyzed symbol found - analysis phase should resolve all symbols"

  function OrNil(r: Option<EdnValue>): EdnValue
  {
    if r.Some? then r.value else Nil
  }

  /** A list, possibly under metadata wrappers. */
  predicate IsListKind(v: EdnValue)
  {
    if v.List? then true
    else if v.WithMetadata? then IsListKind(v.value)
    else false
  }

  // ---------------------------------------------------------------------
  // Collection operations on an evaluated collection

  /** `rest` that keeps the vector or list kind. */
  function RestOf(coll: EdnValue): (r: EdnValue)
    ensures r.Vector? || r.List?
    ensures r.List? <==> IsListKind(coll)
    ensures r.items == Value.Rest(coll).items
  {
    if coll.Vector? then (if coll.items == [] then Vector([]) else Vector(coll.items[1..]))
    else if coll.List? then (if coll.items == [] then EdnValue.List([]) else EdnValue.List(coll.items[1..]))
    else if coll.WithMetadata? then RestOf(coll.value)
    else Vector([])
  }

  /** The first `n` elements, keeping the vector or list kind. */
  function TakeColl(coll: EdnValue, n: nat): (r: EdnValue)
    ensures r.Vector? || r.List?
    ensures r.List? <==> IsListKind(coll)
    ensures r.items == Value.Take(coll, n).items
  {
    if coll.Vector? then Vector(if n <= |coll.items| then coll.items[..n] else coll.items)
    else if coll.List? then EdnValue.List(if n <= |coll.items| then coll.items[..n] else coll.items)
    else if coll.WithMetadata? then TakeColl(coll.value, n)
    else Vector([])
  }

  /** Everything after the first `n` elements, keeping the vector or list kind. */
  function DropColl(coll: EdnValue, n: nat): (r: EdnValue)
    ensures r.Vector? || r.List?
    ensures r.List? <==> IsListKind(coll)
    ensures r.items == Value.Drop(coll, n).items
  {
    if coll.Vector? then Vector(if n <= |coll.items| then coll.items[n..] else [])
    else if coll.List? then EdnValue.List(if n <= |coll.items| then coll.items[n..] else [])
    else if coll.WithMetadata? then DropColl(coll.value, n)
    else Vector([])
  }

  /** `take` once both operands are evaluated: the count must be an integer; a negative one takes nothing. */
  function TakeOf(n: EdnValue, coll: EdnValue): Result<EdnValue>
  {
    if !n.Integer? then Err(TypeError("integer", TypeName(n)))
    else if n.i < 0 then Ok(Vector([]))
    else Ok(TakeColl(coll, n.i))
  }

  /** `drop` once both operands are evaluated: a negative count leaves the collection as it is. */
  function DropOf(n: EdnValue, coll: EdnValue): Result<EdnValue>
  {
    if !n.Integer? then Err(TypeError("integer", TypeName(n)))
    else if n.i < 0 then Ok(coll)
    else Ok(DropColl(coll, n.i))
  }

  function NthOf(n: EdnValue, coll: EdnValue): Result<EdnValue>
  {
    if n.Integer? then Ok(OrNil(Value.Get(coll, n))) else Err(TypeError("integer", TypeName(n)))
  }

  function CountOr0(coll: EdnValue): nat
  {
    match Value.Count(coll)
    case Some(n) => n
    case None => 0
  }

  function KeysOf(coll: EdnValue): EdnValue
  {
    if coll.Map? then Vector(MapKeys(coll.entries)) else Vector([])
  }

  function ValsOf(coll: EdnValue): EdnValue
  {
    if coll.Map? then Vector(MapValues(coll.entries)) else Vector([])
  }

  /** `contains?`: a key of a map or an element of a set; false for anything else. */
  predicate ContainsKey(coll: EdnValue, key: EdnValue)
  {
    if coll.Map? then key in MapKeys(coll.entries)
    else if coll.Set? then key in coll.elements
    else false
  }

  function SelectKeysOf(ctx: EdnValue, keys: seq<EdnValue>): EdnValue
  {
    if ctx.Map? then EdnValue.Map(CoreOps.SelectKeys(ctx.entries, keys)) else EdnValue.Map([])
  }

  function FrequenciesOf(ctx: EdnValue): EdnValue
  {
    if ctx.Vector? || ctx.List? then EdnValue.Map(CoreOps.Frequencies(ctx.items))
    else EdnValue.Map([])
  }

  /** The four ordering tests; each compares the context with its evaluated operand. */
  datatype Order = Less | Greater | LessOrEqual | GreaterOrEqual

  /** `ctx op other`, through the shared three-way comparison. */
  function Ordered(op: Order, ctx: EdnValue, other: EdnValue): (r: Result<EdnValue>)
    ensures r.Ok? <==> CoreOps.CompareValues(ctx, other).Ok?
    ensures r.Ok? ==> r.value.Bool?
    ensures r.Err? ==> r.error == CoreOps.CompareValues(ctx, other).error
  {
    var c :- CoreOps.CompareValues(ctx, other);
    Ok(Bool(match op
       case Less => c < 0
       case Greater => c > 0
       case LessOrEqual => c <= 0
       case GreaterOrEqual => c >= 0))
  }

  /** Integers are ordered by value under every test. */
  lemma OrderedIntegers(a: int, b: int)
    ensures Ordered(Less, Integer(a), Integer(b)) == Ok(Bool(a < b))
    ensures Ordered(Greater, Integer(a), Integer(b)) == Ok(Bool(a > b))
    ensures Ordered(LessOrEqual, Integer(a), Integer(b)) == Ok(Bool(a <= b))
    ensures Ordered(GreaterOrEqual, Integer(a), Integer(b)) == Ok(Bool(a >= b))
  {
  }

  /** Strings are ordered lexicographically: a proper prefix comes first, and `<=` is `<` or equal. */
  lemma OrderedStrings(a: string, b: string)
    ensures Ordered(Less, Str(a), Str(b)) == Ok(Bool(CoreOps.CompareStrings(a, b) < 0))
    ensures a < b ==> Ordered(Less, Str(a), Str(b)) == Ok(Bool(true))
    ensures Ordered(LessOrEqual, Str(a), Str(b)) ==
      Ok(Bool(a == b || CoreOps.CompareStrings(a, b) < 0))
  {
    if a < b {
      CoreOps.CompareStringsPrefix(a, b);
    }
  }

  /** `<` and `>` swap with their operands, on every pair that can be ordered. */
  lemma OrderedConverse(x: EdnValue, y: EdnValue)
    ensures Ordered(Less, x, y).Ok? <==> Ordered(Greater, y, x).Ok?
    ensures Ordered(Less, x, y).Ok? ==> Ordered(Less, x, y) == Ordered(Greater, y, x)
  {
    CoreOps.CompareValuesAntisymmetric(x, y);
  }

  /** A context that is neither a number nor a string cannot be ordered, whatever the test. */
  lemma OrderedIncomparable(op: Order, ctx: EdnValue, other: EdnValue)
    requires !CoreOps.IsNumber(ctx) && !ctx.Str?
    ensures Ordered(op, ctx, other) == Err(TypeError("comparable types", TypeName(ctx) + " and " + TypeName(other)))
  {
  }

  /** Floats cannot be ordered in this model. */
  lemma OrderedFloat(op: Order, ctx: EdnValue, other: EdnValue)
    requires CoreOps.IsNumber(ctx) && CoreOps.IsNumber(other) && (ctx.Float? || other.Float?)
    ensures Ordered(op, ctx, other) == Err(Unmodelled("float comparison"))
  {
  }

  // ---------------------------------------------------------------------
  // The evaluator

  /** The nodes that re-enter the evaluator on a sub-expression. */
  predicate Reenters(e: Expr)
  {
    e.GetInOf? || e.KeywordGet? || e.KeywordGetWithDefault? ||
    e.First? || e.Last? || e.Rest? || e.Count? || e.Keys? || e.Vals? ||
    e.Take? || e.Drop? || e.Nth? || e.Map? || e.Remove? ||
    e.Select? || e.Contains? || e.Equal? || e.LessThan? || e.GreaterThan? || e.LessEqual? || e.GreaterEqual? ||
    e.Comp? || e.If?
  }

  /** The evaluator: one context value in, one result out.  The source's single match is split
      into the nodes that only look at the context and those that re-enter the evaluator, and the
      latter by kind; each arm keeps its own behaviour. */
  function Evaluate(e: Expr, ctx: EdnValue): Result<EdnValue>
    decreases e, 3
  {
    if Reenters(e) then EvalNode(e, ctx) else EvalLeaf(e, ctx)
  }

  /** A node that re-enters the evaluator is evaluated by its kind. */
  lemma Dispatch(e: Expr, ctx: EdnValue)
    requires Reenters(e)
    ensures Evaluate(e, ctx) == EvalNode(e, ctx)
  {
  }

  function EvalNode(e: Expr, ctx: EdnValue): Result<EdnValue>
    requires Reenters(e)
    decreases e, 2
  {
    match e
    case GetInOf(_, _) => EvalAccess(e, ctx)
    case KeywordGet(_, _) => EvalAccess(e, ctx)
    case KeywordGetWithDefault(_, _, _) => EvalAccess(e, ctx)
    case First(_) => EvalColl(e, ctx)
    case Last(_) => EvalColl(e, ctx)
    case Rest(_) => EvalColl(e, ctx)
    case Take(_, _) => EvalIndexed(e, ctx)
    case Drop(_, _) => EvalIndexed(e, ctx)
    case Nth(_, _) => EvalIndexed(e, ctx)
    case Count(_) => EvalColl(e, ctx)
    case Keys(_) => EvalColl(e, ctx)
    case Vals(_) => EvalColl(e, ctx)
    case Map(_) => EvalEach(e, ctx)
    case Remove(_) => EvalEach(e, ctx)
    case Select(_) => EvalTest(e, ctx)
    case Contains(_) => EvalTest(e, ctx)
    case Equal(_, _) => EvalTest(e, ctx)
    case LessThan(_) => EvalTest(e, ctx)
    case GreaterThan(_) => EvalTest(e, ctx)
    case LessEqual(_) => EvalTest(e, ctx)
    case GreaterEqual(_) => EvalTest(e, ctx)
    case Comp(_) => EvalControl(e, ctx)
    case If(_, _, _) => EvalControl(e, ctx)
  }

  /** The nodes that only look at the context. */
  function EvalLeaf(e: Expr, ctx: EdnValue): Result<EdnValue>
    requires !Reenters(e)
  {
    match e
    case Identity => Ok(ctx)
    case Get(key) => Ok(OrNil(Value.Get(ctx, key)))
    case GetIn(path) => Ok(OrNil(Value.GetIn(ctx, path)))
    case KeywordAccess(name) => Ok(OrNil(Value.Get(ctx, Keyword(name))))
    case SelectKeys(keys) => Ok(SelectKeysOf(ctx, keys))
    case IsNil => Ok(Bool(ctx.Nil?))
    case IsEmpty => Ok(Bool(Value.Count(ctx) == Some(0)))
    case IsNumber => Ok(Bool(ctx.Integer? || ctx.Float?))
    case IsString => Ok(Bool(ctx.Str?))
    case IsKeyword => Ok(Bool(ctx.Keyword?))
    case IsBoolean => Ok(Bool(ctx.Bool?))
    case Reduce(_, _) => Err(QueryError("reduce not yet implemented"))
    case Apply(_) => Err(QueryError("apply not yet implemented"))
    case GroupBy(_) => Err(QueryError("group-by not yet implemented"))
    case Frequencies => Ok(FrequenciesOf(ctx))
    case Literal(value) => Ok(value)
    case List(_) => Err(QueryError(UnanalyzedList))
    case Symbol(_) => Err(QueryError(UnanalyzedSymbol))
    case ThreadFirst(_) => Err(QueryError(UnexpandedMacro))
    case ThreadLast(_) => Err(QueryError(UnexpandedMacro))
    case When(_, _) => Err(QueryError(UnexpandedMacro))
  }

  /** Path and keyword access on an evaluated target. */
  function EvalAccess(e: Expr, ctx: EdnValue): Result<EdnValue>
    requires e.GetInOf? || e.KeywordGet? || e.KeywordGetWithDefault?
    decreases e, 1
  {
    match e
    case GetInOf(input, path) =>
      var v :- Evaluate(input, ctx);
      Ok(OrNil(Value.GetIn(v, path)))
    case KeywordGet(name, target) =>
      var t :- Evaluate(target, ctx);
      Ok(OrNil(Value.Get(t, Keyword(name))))
    case KeywordGetWithDefault(name, target, default) =>
      var t :- Evaluate(target, ctx);
      var found := Value.Get(t, Keyword(name));
      if found.Some? then Ok(found.value) else Evaluate(default, ctx)
  }

  /** One-collection operations: the operand is evaluated first. */
  function EvalColl(e: Expr, ctx: EdnValue): Result<EdnValue>
    requires e.First? || e.Last? || e.Rest? || e.Count? || e.Keys? || e.Vals?
    decreases e, 1
  {
    match e
    case First(c) =>
      var coll :- Evaluate(c, ctx);
      Ok(OrNil(Value.First(coll)))
    case Last(c) =>
      var coll :- Evaluate(c, ctx);
      Ok(OrNil(Value.Last(coll)))
    case Rest(c) =>
      var coll :- Evaluate(c, ctx);
      Ok(RestOf(coll))
    case Count(c) =>
      var coll :- Evaluate(c, ctx);
      Ok(Integer(CountOr0(coll)))
    case Keys(c) =>
      var coll :- Evaluate(c, ctx);
      Ok(KeysOf(coll))
    case Vals(c) =>
      var coll :- Evaluate(c, ctx);
      Ok(ValsOf(coll))
  }

  /** `take`, `drop` and `nth`: the count or index is evaluated before the collection. */
  function EvalIndexed(e: Expr, ctx: EdnValue): Result<EdnValue>
    requires e.Take? || e.Drop? || e.Nth?
    decreases e, 1
  {
    match e
    case Take(n, c) =>
      var count :- Evaluate(n, ctx);
      var coll :- Evaluate(c, ctx);
      TakeOf(count, coll)
    case Drop(n, c) =>
      var count :- Evaluate(n, ctx);
      var coll :- Evaluate(c, ctx);
      DropOf(count, coll)
    case Nth(n, c) =>
      var index :- Evaluate(n, ctx);
      var coll :- Evaluate(c, ctx);
      NthOf(index, coll)
  }

  /** `map` and `remove` re-enter the evaluator on every item of a vector or list. */
  function EvalEach(e: Expr, ctx: EdnValue): Result<EdnValue>
    requires e.Map? || e.Remove?
    decreases e, 1
  {
    match e
    case Map(f) =>
      if ctx.Vector? || ctx.List? then
        var results :- MapItems(f, ctx.items);
        Ok(if ctx.Vector? then Vector(results) else EdnValue.List(results))
      else Ok(ctx)
    case Remove(f) =>
      if ctx.Vector? || ctx.List? then
        var kept :- RemoveItems(f, ctx.items);
        Ok(if ctx.Vector? then Vector(kept) else EdnValue.List(kept))
      else Ok(ctx)
  }

  /** Tests that evaluate an operand against the context. */
  function EvalTest(e: Expr, ctx: EdnValue): Result<EdnValue>
    requires e.Select? || e.Contains? || e.Equal? || e.LessThan? || e.GreaterThan? || e.LessEqual? || e.GreaterEqual?
    decreases e, 1
  {
    match e
    case Select(f) =>
      var p :- Evaluate(f, ctx);
      Ok(if IsTruthy(p) then ctx else Nil)
    case Contains(probe) =>
      var key :- Evaluate(probe, ctx);
      Ok(Bool(ContainsKey(ctx, key)))
    case Equal(l, r) =>
      var a :- Evaluate(l, ctx);
      var b :- Evaluate(r, ctx);
      Ok(Bool(a == b))
    case LessThan(o) =>
      var other :- Evaluate(o, ctx);
      Ordered(Less, ctx, other)
    case GreaterThan(o) =>
      var other :- Evaluate(o, ctx);
      Ordered(Greater, ctx, other)
    case LessEqual(o) =>
      var other :- Evaluate(o, ctx);
      Ordered(LessOrEqual, ctx, other)
    case GreaterEqual(o) =>
      var other :- Evaluate(o, ctx);
      Ordered(GreaterOrEqual, ctx, other)
  }

  /** Composition and the conditional. */
  function EvalControl(e: Expr, ctx: EdnValue): Result<EdnValue>
    requires e.Comp? || e.If?
    decreases e, 1
  {
    match e
    case Comp(stages) => EvalStages(e, 0, ctx)
    case If(test, thenExpr, elseExpr) =>
      var t :- Evaluate(test, ctx);
      if IsTruthy(t) then Evaluate(thenExpr, ctx)
      else if elseExpr.Some? then Evaluate(elseExpr.value, ctx)
      else Ok(Nil)
  }

  /** `f` applied to every item in order; the first failure is the result. */
  function MapItems(f: Expr, items: seq<EdnValue>): Result<seq<EdnValue>>
    decreases f, 4, |items|
  {
    if items == [] then Ok([])
    else
      var head :- Evaluate(f, items[0]);
      var tail :- MapItems(f, items[1..]);
      Ok([head] + tail)
  }

  /** The items whose predicate result is falsy, in order; the first failure is the result. */
  function RemoveItems(f: Expr, items: seq<EdnValue>): Result<seq<EdnValue>>
    decreases f, 4, |items|
  {
    if items == [] then Ok([])
    else
      var p :- Evaluate(f, items[0]);
      var tail :- RemoveItems(f, items[1..]);
      Ok(Kept(p, items[0]) + tail)
  }

  /** What `remove` keeps of one item whose predicate gave `p`. */
  function Kept(p: EdnValue, x: EdnValue): seq<EdnValue>
  {
    if IsTruthy(p) then [] else [x]
  }

  /** The stages of the `Comp` node `e` from index `i` on, threading the running value. */
  function EvalStages(e: Expr, i: nat, v: EdnValue): Result<EdnValue>
    requires e.Comp? && i <= |e.stages|
    decreases e, 0, |e.stages| - i
  {
    if i == |e.stages| then Ok(v)
    else
      var next :- Evaluate(e.stages[i], v);
      EvalStages(e, i + 1, next)
  }

  // ---------------------------------------------------------------------
  // The source's loops

  /** The `map` loop: push the result for every item, return on the first error. */
  method MapLoop(f: Expr, items: seq<EdnValue>) returns (r: Result<seq<EdnValue>>)
    ensures r == MapItems(f, items)
  {
    var results: seq<EdnValue> := [];
    var i := 0;
    assert items[0..] == items;
    PrependEmpty(MapItems(f, items));
    while i < |items|
      invariant 0 <= i <= |items|
      invariant MapItems(f, items) == Prepend(results, MapItems(f, items[i..]))
    {
      MapItemsAt(f, items, i);
      var result := Evaluate(f, items[i]);
      if result.Err? {
        return Err(result.error);
      }
      PrependPrepend(results, [result.value], MapItems(f, items[i + 1..]));
      results := results + [result.value];
      i := i + 1;
    }
    assert items[i..] == [];
    assert results + [] == results;
    r := Ok(results);
  }

  function Prepend(done: seq<EdnValue>, rest: Result<seq<EdnValue>>): Result<seq<EdnValue>>
  {
    if rest.Ok? then Ok(done + rest.value) else rest
  }

  /** The `remove` loop: keep every item whose predicate is falsy, return on the first error. */
  method RemoveLoop(f: Expr, items: seq<EdnValue>) returns (r: Result<seq<EdnValue>>)
    ensures r == RemoveItems(f, items)
  {
    var results: seq<EdnValue> := [];
    var i := 0;
    assert items[0..] == items;
    PrependEmpty(RemoveItems(f, items));
    while i < |items|
      invariant 0 <= i <= |items|
      invariant RemoveItems(f, items) == Prepend(results, RemoveItems(f, items[i..]))
    {
      RemoveItemsAt(f, items, i);
      var p := Evaluate(f, items[i]);
      if p.Err? {
        return Err(p.error);
      }
      var keep := Kept(p.value, items[i]);
      PrependPrepend(results, keep, RemoveItems(f, items[i + 1..]));
      results := results + keep;
      i := i + 1;
    }
    assert items[i..] == [];
    assert results + [] == results;
    r := Ok(results);
  }

  /** `map` on the suffix from `i` evaluates item `i` first. */
  lemma MapItemsAt(f: Expr, items: seq<EdnValue>, i: nat)
    requires i < |items|
    ensures Evaluate(f, items[i]).Err? ==> MapItems(f, items[i..]) == Err(Evaluate(f, items[i]).error)
    ensures Evaluate(f, items[i]).Ok? ==>
      MapItems(f, items[i..]) == Prepend([Evaluate(f, items[i]).value], MapItems(f, items[i + 1..]))
  {
    var rest := items[i..];
    assert rest[0] == items[i] && rest[1..] == items[i + 1..];
    MapItemsHead(f, rest);
  }

  /** One step of `MapItems` at the head of a non-empty sequence. */
  lemma MapItemsHead(f: Expr, items: seq<EdnValue>)
    requires items != []
    ensures Evaluate(f, items[0]).Err? ==> MapItems(f, items) == Err(Evaluate(f, items[0]).error)
    ensures Evaluate(f, items[0]).Ok? ==>
      MapItems(f, items) == Prepend([Evaluate(f, items[0]).value], MapItems(f, items[1..]))
  {
  }

  /** `remove` on the suffix from `i` decides item `i` by its own predicate. */
  lemma RemoveItemsAt(f: Expr, items: seq<EdnValue>, i: nat)
    requires i < |items|
    ensures Evaluate(f, items[i]).Err? ==> RemoveItems(f, items[i..]) == Err(Evaluate(f, items[i]).error)
    ensures Evaluate(f, items[i]).Ok? ==>
      RemoveItems(f, items[i..]) == Prepend(Kept(Evaluate(f, items[i]).value, items[i]), RemoveItems(f, items[i + 1..]))
  {
    var rest := items[i..];
    assert rest[0] == items[i] && rest[1..] == items[i + 1..];
    RemoveItemsHead(f, rest);
  }

  lemma PrependEmpty(r: Result<seq<EdnValue>>)
    ensures Prepend([], r) == r
  {
    if r.Ok? {
      assert [] + r.value == r.value;
    }
  }

  lemma PrependPrepend(a: seq<EdnValue>, b: seq<EdnValue>, r: Result<seq<EdnValue>>)
    ensures Prepend(a, Prepend(b, r)) == Prepend(a + b, r)
  {
    if r.Ok? {
      assert a + (b + r.value) == (a + b) + r.value;
    }
  }

  /** The `comp` loop: the running value is replaced by each stage's result in turn. */
  method CompLoop(stages: seq<Expr>, ctx: EdnValue) returns (r: Result<EdnValue>)
    ensures r == Evaluate(Comp(stages), ctx)
  {
    var result := ctx;
    var i := 0;
    CompStarts(stages, ctx);
    while i < |stages|
      invariant 0 <= i <= |stages|
      invariant Evaluate(Comp(stages), ctx) == EvalStages(Comp(stages), i, result)
    {
      var next := Evaluate(stages[i], result);
      if next.Err? {
        return Err(next.error);
      }
      result := next.value;
      i := i + 1;
    }
    r := Ok(result);
  }

  // ---------------------------------------------------------------------
  // Properties

  lemma IdentityAndLiteral(ctx: EdnValue, v: EdnValue)
    ensures Evaluate(Identity, ctx) == Ok(ctx)
    ensures Evaluate(Literal(v), ctx) == Ok(v)
  {
  }

  /** A missing keyword yields nil. */
  lemma KeywordMissIsNil(name: string, ctx: EdnValue)
    requires Value.Get(ctx, Keyword(name)).None?
    ensures Evaluate(KeywordAccess(name), ctx) == Ok(Nil)
  {
  }

  lemma KeywordGetMissIsNil(name: string, target: Expr, ctx: EdnValue)
    requires Evaluate(target, ctx).Ok? && Value.Get(Evaluate(target, ctx).value, Keyword(name)).None?
    ensures Evaluate(KeywordGet(name, target), ctx) == Ok(Nil)
  {
    Dispatch(KeywordGet(name, target), ctx);
  }

  /** On a hit the default expression is not consulted: any two defaults give the same result. */
  lemma KeywordDefaultOnHit(name: string, target: Expr, default: Expr, default': Expr, ctx: EdnValue)
    requires Evaluate(target, ctx).Ok? && Value.Get(Evaluate(target, ctx).value, Keyword(name)).Some?
    ensures Evaluate(KeywordGetWithDefault(name, target, default), ctx) == Ok(Value.Get(Evaluate(target, ctx).value, Keyword(name)).value)
    ensures Evaluate(KeywordGetWithDefault(name, target, default), ctx) == Evaluate(KeywordGetWithDefault(name, target, default'), ctx)
  {
    Dispatch(KeywordGetWithDefault(name, target, default), ctx);
    Dispatch(KeywordGetWithDefault(name, target, default'), ctx);
  }

  /** On a miss the result is the default, evaluated against the original context. */
  lemma KeywordDefaultOnMiss(name: string, target: Expr, default: Expr, ctx: EdnValue)
    requires Evaluate(target, ctx).Ok? && Value.Get(Evaluate(target, ctx).value, Keyword(name)).None?
    ensures Evaluate(KeywordGetWithDefault(name, target, default), ctx) == Evaluate(default, ctx)
  {
    Dispatch(KeywordGetWithDefault(name, target, default), ctx);
  }

  /** `take` and `drop` evaluate the count, then the collection, and only then look at the count. */
  lemma TakeOperandOrder(n: Expr, c: Expr, ctx: EdnValue)
    ensures Evaluate(n, ctx).Err? ==> Evaluate(Take(n, c), ctx) == Err(Evaluate(n, ctx).error)
    ensures Evaluate(n, ctx).Ok? && Evaluate(c, ctx).Err? ==> Evaluate(Take(n, c), ctx) == Err(Evaluate(c, ctx).error)
  {
    Dispatch(Take(n, c), ctx);
  }

  lemma TakeOperands(n: Expr, c: Expr, ctx: EdnValue)
    requires Evaluate(n, ctx).Ok? && Evaluate(c, ctx).Ok?
    ensures Evaluate(Take(n, c), ctx) == TakeOf(Evaluate(n, ctx).value, Evaluate(c, ctx).value)
  {
    Dispatch(Take(n, c), ctx);
  }

  lemma DropOperands(n: Expr, c: Expr, ctx: EdnValue)
    requires Evaluate(n, ctx).Ok? && Evaluate(c, ctx).Ok?
    ensures Evaluate(Drop(n, c), ctx) == DropOf(Evaluate(n, ctx).value, Evaluate(c, ctx).value)
  {
    Dispatch(Drop(n, c), ctx);
  }

  /** `take` on evaluated operands: the count must be an integer, a negative count takes nothing,
      otherwise a prefix of the same kind; a non-sequence gives an empty vector. */
  lemma TakeOfSpec(count: EdnValue, coll: EdnValue)
    ensures !count.Integer? ==> TakeOf(count, coll) == Err(TypeError("integer", TypeName(count)))
    ensures count.Integer? && count.i < 0 ==> TakeOf(count, coll) == Ok(Vector([]))
    ensures count.Integer? && count.i >= 0 ==> (TakeOf(count, coll).Ok? &&
      TakeOf(count, coll).value.items <= AsSlice(coll) &&
      |TakeOf(count, coll).value.items| == Text.Min(count.i, |AsSlice(coll)|) &&
      (TakeOf(count, coll).value.List? <==> IsListKind(coll)))
    ensures count.Integer? && !IsSequential(coll) ==> TakeOf(count, coll) == Ok(Vector([]))
  {
  }

  /** `drop` on evaluated operands: a negative count returns the collection unchanged; otherwise the
      suffix that `take` leaves, of the same kind. */
  lemma DropOfSpec(count: EdnValue, coll: EdnValue)
    ensures !count.Integer? ==> DropOf(count, coll) == Err(TypeError("integer", TypeName(count)))
    ensures count.Integer? && count.i < 0 ==> DropOf(count, coll) == Ok(coll)
    ensures count.Integer? && count.i >= 0 ==> (DropOf(count, coll).Ok? &&
      (DropOf(count, coll).value.List? <==> IsListKind(coll)) &&
      TakeOf(count, coll).value.items + DropOf(count, coll).value.items == AsSlice(coll))
  {
    if count.Integer? && count.i >= 0 {
      TakeDropSplit(coll, count.i);
    }
  }

  /** A `Comp` node starts its stages at the first one. */
  lemma CompStarts(stages: seq<Expr>, v: EdnValue)
    ensures Evaluate(Comp(stages), v) == EvalStages(Comp(stages), 0, v)
  {
    Dispatch(Comp(stages), v);
  }

  /** The stages of a `Comp` split at any point compose. */
  lemma {:induction false} EvalStagesSuffix(e: Expr, i: nat, v: EdnValue)
    requires e.Comp? && i <= |e.stages|
    ensures EvalStages(e, i, v) == Evaluate(Comp(e.stages[i..]), v)
    decreases |e.stages| - i
  {
    var tail := Comp(e.stages[i..]);
    CompStarts(e.stages[i..], v);
    if i == |e.stages| {
      assert tail.stages == [];
    } else {
      assert tail.stages[0] == e.stages[i];
      var next := Evaluate(e.stages[i], v);
      if next.Ok? {
        EvalStagesSuffix(e, i + 1, next.value);
        EvalStagesSuffix(tail, 1, next.value);
        assert tail.stages[1..] == e.stages[i + 1..];
      }
    }
  }

  /** `comp` runs its stages left to right: the empty composition is the identity, and one stage
      feeds the next. */
  lemma CompThreads(stages: seq<Expr>, ctx: EdnValue)
    ensures stages == [] ==> Evaluate(Comp(stages), ctx) == Ok(ctx)
    ensures stages != [] ==> (Evaluate(Comp(stages), ctx) ==
      match Evaluate(stages[0], ctx)
      case Ok(v) => Evaluate(Comp(stages[1..]), v)
      case Err(err) => Err(err))
  {
    CompStarts(stages, ctx);
    if stages != [] {
      var next := Evaluate(stages[0], ctx);
      if next.Ok? {
        EvalStagesSuffix(Comp(stages), 1, next.value);
      }
    }
  }

  /** Composition of two stage lists is sequencing. */
  lemma {:induction false} CompAppend(a: seq<Expr>, b: seq<Expr>, ctx: EdnValue)
    ensures Evaluate(Comp(a + b), ctx) ==
      match Evaluate(Comp(a), ctx)
      case Ok(v) => Evaluate(Comp(b), v)
      case Err(err) => Err(err)
  {
    CompThreads(a + b, ctx);
    CompThreads(a, ctx);
    if a == [] {
      assert a + b == b;
    } else {
      assert (a + b)[0] == a[0] && (a + b)[1..] == a[1..] + b;
      var next := Evaluate(a[0], ctx);
      if next.Ok? {
        CompAppend(a[1..], b, next.value);
      }
    }
  }

  /** `if` evaluates only the branch it takes; a missing else gives nil. */
  lemma IfTruthy(test: Expr, a: Expr, b: Option<Expr>, ctx: EdnValue)
    requires Evaluate(test, ctx).Ok? && IsTruthy(Evaluate(test, ctx).value)
    ensures Evaluate(If(test, a, b), ctx) == Evaluate(a, ctx)
  {
    Dispatch(If(test, a, b), ctx);
  }

  lemma IfFalsy(test: Expr, a: Expr, b: Expr, ctx: EdnValue)
    requires Evaluate(test, ctx).Ok? && !IsTruthy(Evaluate(test, ctx).value)
    ensures Evaluate(If(test, a, Some(b)), ctx) == Evaluate(b, ctx)
  {
    Dispatch(If(test, a, Some(b)), ctx);
  }

  lemma IfFalsyNoElse(test: Expr, a: Expr, ctx: EdnValue)
    requires Evaluate(test, ctx).Ok? && !IsTruthy(Evaluate(test, ctx).value)
    ensures Evaluate(If(test, a, None), ctx) == Ok(Nil)
  {
    Dispatch(If(test, a, None), ctx);
  }

  /** `map` over a vector or list keeps its length and kind; any other context is returned as it is. */
  lemma MapShape(f: Expr, ctx: EdnValue)
    ensures (ctx.Vector? || ctx.List?) && Evaluate(Expr.Map(f), ctx).Ok? ==>
      var r := Evaluate(Expr.Map(f), ctx).value;
      (r.Vector? <==> ctx.Vector?) && (r.List? <==> ctx.List?) && |r.items| == |ctx.items| &&
      forall i :: 0 <= i < |ctx.items| ==> Evaluate(f, ctx.items[i]) == Ok(r.items[i])
    ensures !ctx.Vector? && !ctx.List? ==> Evaluate(Expr.Map(f), ctx) == Ok(ctx)
  {
    Dispatch(Expr.Map(f), ctx);
    if (ctx.Vector? || ctx.List?) && MapItems(f, ctx.items).Ok? {
      MapItemsValues(f, ctx.items);
    }
  }

  /** `remove` keeps exactly the falsy items in order: it distributes over concatenation and
      decides each item by its own predicate. */
  lemma {:induction false} RemoveItemsAppend(f: Expr, a: seq<EdnValue>, b: seq<EdnValue>)
    requires RemoveItems(f, a).Ok?
    ensures RemoveItems(f, a + b) == Prepend(RemoveItems(f, a).value, RemoveItems(f, b))
  {
    if a == [] {
      assert a + b == b;
      PrependEmpty(RemoveItems(f, b));
    } else {
      var ab := a + b;
      assert ab[0] == a[0] && ab[1..] == a[1..] + b;
      RemoveItemsHead(f, a);
      RemoveItemsHead(f, ab);
      var kept := Kept(Evaluate(f, a[0]).value, a[0]);
      var tail := RemoveItems(f, a[1..]);
      assert tail.Ok? && RemoveItems(f, a).value == kept + tail.value;
      RemoveItemsAppend(f, a[1..], b);
      PrependPrepend(kept, tail.value, RemoveItems(f, b));
    }
  }

  /** One step of `RemoveItems` at the head of a non-empty sequence. */
  lemma RemoveItemsHead(f: Expr, items: seq<EdnValue>)
    requires items != []
    ensures Evaluate(f, items[0]).Err? ==> RemoveItems(f, items) == Err(Evaluate(f, items[0]).error)
    ensures Evaluate(f, items[0]).Ok? ==>
      RemoveItems(f, items) == Prepend(Kept(Evaluate(f, items[0]).value, items[0]), RemoveItems(f, items[1..]))
  {
  }

  lemma RemoveSingle(f: Expr, x: EdnValue)
    ensures RemoveItems(f, [x]) ==
      match Evaluate(f, x)
      case Ok(p) => Ok(Kept(p, x))
      case Err(err) => Err(err)
  {
    assert [x][1..] == [];
    if Evaluate(f, x).Ok? {
      assert Kept(Evaluate(f, x).value, x) + [] == Kept(Evaluate(f, x).value, x);
    }
  }

  lemma RemoveShape(f: Expr, ctx: EdnValue)
    ensures (ctx.Vector? || ctx.List?) ==> (Evaluate(Remove(f), ctx) ==
      match RemoveItems(f, ctx.items)
      case Ok(kept) => Ok(if ctx.Vector? then Vector(kept) else EdnValue.List(kept))
      case Err(err) => Err(err))
    ensures !ctx.Vector? && !ctx.List? ==> Evaluate(Remove(f), ctx) == Ok(ctx)
  {
    Dispatch(Remove(f), ctx);
  }

  /** `map` succeeds exactly when `f` succeeds on every item. */
  lemma {:induction false} MapItemsOk(f: Expr, items: seq<EdnValue>)
    ensures MapItems(f, items).Ok? <==> forall i :: 0 <= i < |items| ==> Evaluate(f, items[i]).Ok?
  {
    if items != [] {
      MapItemsOk(f, items[1..]);
      assert forall i :: 1 <= i < |items| ==> items[i] == items[1..][i - 1];
    }
  }

  /** A successful `map` holds, at every index, the result of `f` on the item there. */
  lemma {:induction false} MapItemsValues(f: Expr, items: seq<EdnValue>)
    requires MapItems(f, items).Ok?
    ensures |MapItems(f, items).value| == |items|
    ensures forall i :: 0 <= i < |items| ==> Evaluate(f, items[i]) == Ok(MapItems(f, items).value[i])
  {
    if items != [] {
      MapItemsValues(f, items[1..]);
      assert forall i :: 1 <= i < |items| ==> items[i] == items[1..][i - 1];
    }
  }

  /** A failed `map` fails with the error of the first item on which `f` fails. */
  lemma {:induction false} MapItemsFirstError(f: Expr, items: seq<EdnValue>)
    requires MapItems(f, items).Err?
    ensures exists i :: (0 <= i < |items| && Evaluate(f, items[i]) == Err(MapItems(f, items).error) &&
      forall j :: 0 <= j < i ==> Evaluate(f, items[j]).Ok?)
  {
    if Evaluate(f, items[0]).Err? {
      assert Evaluate(f, items[0]) == Err(MapItems(f, items).error);
    } else {
      MapItemsFirstError(f, items[1..]);
      var i :| 0 <= i < |items[1..]| && Evaluate(f, items[1..][i]) == Err(MapItems(f, items[1..]).error) &&
        forall j :: 0 <= j < i ==> Evaluate(f, items[1..][j]).Ok?;
      assert Evaluate(f, items[i + 1]) == Err(MapItems(f, items).error);
      forall j | 0 <= j < i + 1
        ensures Evaluate(f, items[j]).Ok?
      {
        if j > 0 {
          assert items[j] == items[1..][j - 1];
        }
      }
    }
  }

  /** `remove` succeeds exactly when the predicate succeeds on every item. */
  lemma {:induction false} RemoveItemsOk(f: Expr, items: seq<EdnValue>)
    ensures RemoveItems(f, items).Ok? <==> forall i :: 0 <= i < |items| ==> Evaluate(f, items[i]).Ok?
  {
    if items != [] {
      RemoveItemsOk(f, items[1..]);
      assert forall i :: 1 <= i < |items| ==> items[i] == items[1..][i - 1];
    }
  }

  /** A successful `remove` keeps exactly the items whose predicate is falsy, and never more items than it was given. */
  lemma {:induction false} RemoveItemsKept(f: Expr, items: seq<EdnValue>)
    requires RemoveItems(f, items).Ok?
    ensures |RemoveItems(f, items).value| <= |items|
    ensures forall x :: x in RemoveItems(f, items).value <==>
      x in items && Evaluate(f, x).Ok? && !IsTruthy(Evaluate(f, x).value)
  {
    if items != [] {
      RemoveItemsKept(f, items[1..]);
      assert forall x :: x in items <==> x == items[0] || x in items[1..];
    }
  }

  /** Nodes the evaluator refuses: unexpanded macros, raw lists and the unimplemented aggregations. */
  lemma RejectedNodes(e: Expr, ctx: EdnValue)
    requires e.ThreadFirst? || e.ThreadLast? || e.When? || e.List? || e.Reduce? || e.Apply? || e.GroupBy?
    ensures Evaluate(e, ctx).Err? && Evaluate(e, ctx).error.QueryError?
    ensures (e.ThreadFirst? || e.ThreadLast? || e.When?) ==> Evaluate(e, ctx) == Err(QueryError(UnexpandedMacro))
  {
  }

  /** `select-keys` keeps exactly the listed keys the context holds, with their values. */
  lemma SelectKeysSpec(keys: seq<EdnValue>, ctx: EdnValue, k: EdnValue)
    ensures Evaluate(SelectKeys(keys), ctx).Ok? && Evaluate(SelectKeys(keys), ctx).value.Map?
    ensures var r := Evaluate(SelectKeys(keys), ctx).value.entries;
      MapLookup(r, k) == (if ctx.Map? && k in keys then MapLookup(ctx.entries, k) else None) &&
      UniqueKeys(r) &&
      (ctx.Map? ==> MapKeys(r) == CoreOps.Distinct(CoreOps.PresentKeys(ctx.entries, keys)))
  {
    if ctx.Map? {
      CoreOps.SelectKeysLookup(ctx.entries, keys, k);
      CoreOps.SelectKeysUnique(ctx.entries, keys);
      CoreOps.SelectKeysOrder(ctx.entries, keys);
    }
  }

  /** `frequencies` counts each distinct item of a vector or list, keys in first-occurrence order,
      counts adding up to the length; anything else gives an empty map. */
  lemma FrequenciesSpec(ctx: EdnValue, x: EdnValue)
    ensures Evaluate(Frequencies, ctx) == Ok(FrequenciesOf(ctx))
    ensures !ctx.Vector? && !ctx.List? ==> FrequenciesOf(ctx) == EdnValue.Map([])
    ensures ctx.Vector? || ctx.List? ==> FrequenciesOf(ctx) == EdnValue.Map(CoreOps.Frequencies(ctx.items))
  {
  }

  lemma FrequenciesOfSpec(items: seq<EdnValue>, x: EdnValue)
    ensures MapLookup(CoreOps.Frequencies(items), x) ==
      (if x in items then Some(Integer(CoreOps.Occurrences(items, x))) else None)
    ensures MapKeys(CoreOps.Frequencies(items)) == CoreOps.Distinct(items)
    ensures CoreOps.SumCounts(CoreOps.Frequencies(items)) == |items|
  {
    CoreOps.FrequenciesCount(items, x);
    CoreOps.FrequenciesKeys(items);
    CoreOps.FrequenciesSum(items);
  }

  /** The ordering tests evaluate their operand, then order the context against it. */
  lemma IntegerLess(o: Expr, ctx: EdnValue)
    requires ctx.Integer? && Evaluate(o, ctx).Ok? && Evaluate(o, ctx).value.Integer?
    ensures Evaluate(LessThan(o), ctx) == Ok(Bool(ctx.i < Evaluate(o, ctx).value.i))
  {
    Dispatch(LessThan(o), ctx);
    OrderedIntegers(ctx.i, Evaluate(o, ctx).value.i);
  }

  lemma IntegerGreaterEqual(o: Expr, ctx: EdnValue)
    requires ctx.Integer? && Evaluate(o, ctx).Ok? && Evaluate(o, ctx).value.Integer?
    ensures Evaluate(GreaterEqual(o), ctx) == Ok(Bool(ctx.i >= Evaluate(o, ctx).value.i))
  {
    Dispatch(GreaterEqual(o), ctx);
    OrderedIntegers(ctx.i, Evaluate(o, ctx).value.i);
  }

  /** A context that is neither a number nor a string cannot be ordered. */
  lemma IncomparableContext(o: Expr, ctx: EdnValue)
    requires !CoreOps.IsNumber(ctx) && !ctx.Str? && Evaluate(o, ctx).Ok?
    ensures Evaluate(LessThan(o), ctx) ==
      Err(TypeError("comparable types", TypeName(ctx) + " and " + TypeName(Evaluate(o, ctx).value)))
  {
    Dispatch(LessThan(o), ctx);
    OrderedIncomparable(Less, ctx, Evaluate(o, ctx).value);
  }

  /** The composition of the evaluator's own unit tests: first, then count. */
  lemma CompExample()
    ensures Evaluate(Comp([First(Identity), Count(Identity)]),
      Vector([Vector([Integer(1), Integer(2)]), Vector([Integer(3), Integer(4)])])) == Ok(Integer(2))
  {
    var input := Vector([Vector([Integer(1), Integer(2)]), Vector([Integer(3), Integer(4)])]);
    var firstRow := Vector([Integer(1), Integer(2)]);
    var stages := [First(Identity), Count(Identity)];
    assert Evaluate(First(Identity), input) == Ok(firstRow);
    assert Evaluate(Count(Identity), firstRow) == Ok(Integer(2));
    CompStarts(stages, input);
    assert EvalStages(Comp(stages), 2, Integer(2)) == Ok(Integer(2));
  }
}
