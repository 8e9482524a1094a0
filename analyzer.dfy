/**
 * The analyzer: a fixed-point rewrite that turns raw lists into typed
 * query nodes.  One pass (`AnalyzeOnce`) expands the macros `->`, `->>`
 * and `when` into new raw lists, resolves a symbol or keyword head into the
 * node it names, checking the arity, and re-analyzes the children of
 * compound nodes; `Analyze` repeats passes until a pass changes nothing.
 *
 * The source loop is unbounded, so every analysis here takes `fuel`: a
 * pass consumes one unit, and running out yields `Err(OutOfFuel)`.
 */
module Analyzer {
  import opened Errors
  import opened Value
  import opened Ast
  import opened Text

  // ---------------------------------------------------------------------
  // Conversions between raw values and expressions

  /** Staging of an argument: `.` is the identity, a list stays raw, anything else is a literal. */
  function EdnToExpr(v: EdnValue): Expr
  {
    if v.Symbol? && v.name == "." then Identity
    else if v.List? then Expr.List(v.items)
    else Literal(v)
  }

  /** The inverse staging used when a macro re-embeds an expression into a raw list. */
  function EdnValueFromExpr(e: Expr): Result<EdnValue>
  {
    if e.Identity? then Ok(EdnValue.Symbol("."))
    else if e.Literal? then Ok(e.value)
    else if e.List? then Ok(EdnValue.List(e.elements))
    else Err(QueryError("Cannot convert complex expression to EDN value"))
  }

  /** Staging loses nothing: converting back gives the original value. */
  lemma EdnRoundTrip(v: EdnValue)
    ensures EdnValueFromExpr(EdnToExpr(v)) == Ok(v)
  {
  }

  lemma EdnToExprCases(v: EdnValue)
    ensures v == EdnValue.Symbol(".") ==> EdnToExpr(v) == Identity
    ensures v.List? ==> EdnToExpr(v) == Expr.List(v.items)
    ensures v != EdnValue.Symbol(".") && !v.List? ==> EdnToExpr(v) == Literal(v)
  {
  }

  // ---------------------------------------------------------------------
  // Macros

  predicate IsMacro(name: string)
  {
    name == "->" || name == "->>" || name == "when"
  }

  /** One threading step. `first` selects `->` (insert as first argument) or `->>` (append). */
  function ThreadInto(threaded: Expr, form: EdnValue, first: bool): Result<Expr>
  {
    if form.Symbol? || form.Keyword? then
      var v :- EdnValueFromExpr(threaded);
      Ok(Expr.List([form, v]))
    else if form.List? && form.items != [] then
      var v :- EdnValueFromExpr(threaded);
      Ok(Expr.List(if first then [form.items[0], v] + form.items[1..] else form.items + [v]))
    else Err(QueryError(if first then "Invalid form in -> macro" else "Invalid form in ->> macro"))
  }

  function ThreadFold(acc: Expr, forms: seq<EdnValue>, first: bool): Result<Expr>
    decreases |forms|
  {
    if forms == [] then Ok(acc)
    else
      var next :- ThreadInto(acc, forms[0], first);
      ThreadFold(next, forms[1..], first)
  }

  /** Expansion of `->` (`first`) or `->>`: stage the first argument, then thread it through the rest. */
  function ExpandThreading(args: seq<EdnValue>, first: bool): Result<Expr>
  {
    if args == [] then
      Err(QueryError(if first then "-> macro requires at least one argument" else "->> macro requires at least one argument"))
    else ThreadFold(EdnToExpr(args[0]), args[1..], first)
  }

  /** The loop of the threading expanders: `result` is replaced by one threading step per form. */
  method ExpandThreadingLoop(args: seq<EdnValue>, first: bool) returns (r: Result<Expr>)
    ensures r == ExpandThreading(args, first)
  {
    if args == [] {
      return Err(QueryError(if first then "-> macro requires at least one argument" else "->> macro requires at least one argument"));
    }
    var result := EdnToExpr(args[0]);
    var i := 1;
    while i < |args|
      invariant 1 <= i <= |args|
      invariant ThreadFold(result, args[i..], first) == ExpandThreading(args, first)
    {
      assert args[i..][0] == args[i] && args[i..][1..] == args[i + 1..];
      var step := ThreadInto(result, args[i], first);
      if step.Err? {
        return Err(step.error);
      }
      result := step.value;
      i := i + 1;
    }
    assert args[i..] == [];
    return Ok(result);
  }

  function ExpandWhen(args: seq<EdnValue>): Result<Expr>
  {
    if |args| != 2 then Err(QueryError("when macro requires exactly 2 arguments"))
    else Ok(Expr.List([EdnValue.Symbol("if"), args[0], args[1], Nil]))
  }

  function ExpandMacro(name: string, args: seq<EdnValue>): Result<Expr>
  {
    if name == "->" then ExpandThreading(args, true)
    else if name == "->>" then ExpandThreading(args, false)
    else if name == "when" then ExpandWhen(args)
    else Err(QueryError("Unknown macro: " + name))
  }

  // ---------------------------------------------------------------------
  // The threading macros, stated on raw values

  /** A stage the threading macros accept: a symbol, a keyword or a non-empty list. */
  predicate ValidStage(form: EdnValue)
  {
    form.Symbol? || form.Keyword? || (form.List? && form.items != [])
  }

  /** The raw form a threading step builds: the threaded value becomes the first or the last argument. */
  function Insert(x: EdnValue, form: EdnValue, first: bool): EdnValue
    requires ValidStage(form)
  {
    if form.Symbol? || form.Keyword? then EdnValue.List([form, x])
    else if first then EdnValue.List([form.items[0], x] + form.items[1..])
    else EdnValue.List(form.items + [x])
  }

  function Nest(x: EdnValue, forms: seq<EdnValue>, first: bool): EdnValue
    requires forall i :: 0 <= i < |forms| ==> ValidStage(forms[i])
    decreases |forms|
  {
    if forms == [] then x else Nest(Insert(x, forms[0], first), forms[1..], first)
  }

  lemma {:induction false} ThreadFoldNests(x: EdnValue, forms: seq<EdnValue>, first: bool)
    requires forall i :: 0 <= i < |forms| ==> ValidStage(forms[i])
    ensures ThreadFold(EdnToExpr(x), forms, first) == Ok(EdnToExpr(Nest(x, forms, first)))
    decreases |forms|
  {
    if forms != [] {
      EdnRoundTrip(x);
      var y := Insert(x, forms[0], first);
      assert ThreadInto(EdnToExpr(x), forms[0], first) == Ok(EdnToExpr(y));
      ThreadFoldNests(y, forms[1..], first);
    }
  }

  /** A threading step on a staged value succeeds exactly on a valid stage, and builds a raw list. */
  lemma ThreadIntoShape(acc: Expr, form: EdnValue, first: bool)
    requires acc.Identity? || acc.Literal? || acc.List?
    ensures ThreadInto(acc, form, first).Ok? <==> ValidStage(form)
    ensures ThreadInto(acc, form, first).Ok? ==> ThreadInto(acc, form, first).value.List?
  {
    assert EdnValueFromExpr(acc).Ok?;
    if !ValidStage(form) {
      assert ThreadInto(acc, form, first).Err?;
    }
  }

  lemma {:induction false} ThreadFoldRejects(acc: Expr, forms: seq<EdnValue>, first: bool, j: nat)
    requires acc.Identity? || acc.Literal? || acc.List?
    requires j < |forms| && !ValidStage(forms[j])
    ensures ThreadFold(acc, forms, first).Err?
    decreases |forms|
  {
    var next := ThreadInto(acc, forms[0], first);
    ThreadIntoShape(acc, forms[0], first);
    if ValidStage(forms[0]) {
      assert forms[1..][j - 1] == forms[j];
      ThreadFoldRejects(next.value, forms[1..], first, j - 1);
      assert ThreadFold(acc, forms, first) == ThreadFold(next.value, forms[1..], first);
    } else {
      assert next.Err?;
    }
  }

  /**
   * `->` and `->>` with valid stages nest the first argument through the
   * stages, placing it first (`->`) or last (`->>`) in each; an invalid
   * stage or no argument at all is an error.
   */
  lemma ExpandThreadingSpec(args: seq<EdnValue>, first: bool)
    ensures args == [] ==> ExpandThreading(args, first).Err?
    ensures args != [] && (forall i :: 1 <= i < |args| ==> ValidStage(args[i])) ==>
      ExpandThreading(args, first) == Ok(EdnToExpr(Nest(args[0], args[1..], first)))
    ensures (exists j :: 1 <= j < |args| && !ValidStage(args[j])) ==> ExpandThreading(args, first).Err?
  {
    if args != [] {
      if forall i :: 1 <= i < |args| ==> ValidStage(args[i]) {
        ThreadFoldNests(args[0], args[1..], first);
      }
      if exists j :: 1 <= j < |args| && !ValidStage(args[j]) {
        var j :| 1 <= j < |args| && !ValidStage(args[j]);
        ThreadFoldRejects(EdnToExpr(args[0]), args[1..], first, j - 1);
      }
    }
  }

  // ---------------------------------------------------------------------
  // One pass and the fixed-point loop

  /** Passes until a pass changes nothing; each pass consumes one unit of fuel. */
  function Analyze(e: Expr, fuel: nat): Result<Expr>
    decreases fuel, 0
  {
    if fuel == 0 then Err(OutOfFuel)
    else
      var analyzed :- AnalyzeOnce(e, fuel - 1);
      if analyzed == e then Ok(e) else Analyze(analyzed, fuel - 1)
  }

  /** One pass: a raw list is resolved, any other node has its children analyzed. */
  function AnalyzeOnce(e: Expr, fuel: nat): Result<Expr>
    decreases fuel, 5
  {
    if e.List? then AnalyzeList(e.elements, fuel) else AnalyzeNested(e, fuel)
  }

  /** A raw list: a macro is expanded, a symbol or keyword head is resolved to its node. */
  function AnalyzeList(elements: seq<EdnValue>, fuel: nat): Result<Expr>
    decreases fuel, 4
  {
    if elements == [] then Err(QueryError("Empty list expression"))
    else if elements[0].Symbol? then
      if IsMacro(elements[0].name) then ExpandMacro(elements[0].name, elements[1..])
      else AnalyzeFunctionCall(elements[0].name, elements[1..], fuel)
    else if elements[0].Keyword? then AnalyzeKeywordCall(elements[0].name, elements[1..], fuel)
    else Err(QueryError("First element of list must be a symbol or keyword"))
  }

  lemma ListDispatch(elements: seq<EdnValue>, fuel: nat)
    ensures AnalyzeOnce(Expr.List(elements), fuel) == AnalyzeList(elements, fuel)
  {
  }

  function AnalyzeNested(e: Expr, fuel: nat): Result<Expr>
    requires !e.List?
    decreases fuel, 4
  {
    match e
    case KeywordGet(name, target) =>
      var t :- Analyze(target, fuel);
      Ok(KeywordGet(name, t))
    case KeywordGetWithDefault(name, target, default) =>
      var t :- Analyze(target, fuel);
      var d :- Analyze(default, fuel);
      Ok(KeywordGetWithDefault(name, t, d))
    case First(c) => var a :- Analyze(c, fuel); Ok(Expr.First(a))
    case Last(c) => var a :- Analyze(c, fuel); Ok(Expr.Last(a))
    case Rest(c) => var a :- Analyze(c, fuel); Ok(Expr.Rest(a))
    case Count(c) => var a :- Analyze(c, fuel); Ok(Expr.Count(a))
    case Keys(c) => var a :- Analyze(c, fuel); Ok(Keys(a))
    case Vals(c) => var a :- Analyze(c, fuel); Ok(Vals(a))
    case Take(n, c) => var a :- Analyze(n, fuel); var b :- Analyze(c, fuel); Ok(Expr.Take(a, b))
    case Drop(n, c) => var a :- Analyze(n, fuel); var b :- Analyze(c, fuel); Ok(Expr.Drop(a, b))
    case Nth(n, c) => var a :- Analyze(n, fuel); var b :- Analyze(c, fuel); Ok(Nth(a, b))
    case Map(f) => var a :- Analyze(f, fuel); Ok(Expr.Map(a))
    case Remove(f) => var a :- Analyze(f, fuel); Ok(Remove(a))
    case Select(f) => var a :- Analyze(f, fuel); Ok(Select(a))
    case Contains(k) => var a :- Analyze(k, fuel); Ok(Contains(a))
    case Equal(l, r) => var a :- Analyze(l, fuel); var b :- Analyze(r, fuel); Ok(Equal(a, b))
    case LessThan(o) => var a :- Analyze(o, fuel); Ok(LessThan(a))
    case GreaterThan(o) => var a :- Analyze(o, fuel); Ok(GreaterThan(a))
    case LessEqual(o) => var a :- Analyze(o, fuel); Ok(LessEqual(a))
    case GreaterEqual(o) => var a :- Analyze(o, fuel); Ok(GreaterEqual(a))
    case Comp(stages) => var ss :- AnalyzeAll(stages, fuel); Ok(Comp(ss))
    case If(test, thenExpr, elseExpr) =>
      var t :- Analyze(test, fuel);
      var th :- Analyze(thenExpr, fuel);
      var el :- AnalyzeOption(elseExpr, fuel);
      Ok(If(t, th, el))
    case Reduce(func, init) =>
      var f :- Analyze(func, fuel);
      var i :- AnalyzeOption(init, fuel);
      Ok(Reduce(f, i))
    case Apply(f) => var a :- Analyze(f, fuel); Ok(Apply(a))
    case GroupBy(f) => var a :- Analyze(f, fuel); Ok(GroupBy(a))
    case ThreadFirst(_) => Err(QueryError("Macro variants should not appear after expansion"))
    case ThreadLast(_) => Err(QueryError("Macro variants should not appear after expansion"))
    case When(_, _) => Err(QueryError("Macro variants should not appear after expansion"))
    case _ => Ok(e)
  }

  /** Analysis of each expression in turn, stopping at the first error. */
  function AnalyzeAll(es: seq<Expr>, fuel: nat): Result<seq<Expr>>
    decreases fuel, 1, |es|
  {
    if es == [] then Ok([])
    else
      var head :- Analyze(es[0], fuel);
      var tail :- AnalyzeAll(es[1..], fuel);
      Ok([head] + tail)
  }

  function AnalyzeOption(o: Option<Expr>, fuel: nat): Result<Option<Expr>>
    decreases fuel, 1
  {
    match o
    case None => Ok(None)
    case Some(e) => var a :- Analyze(e, fuel); Ok(Some(a))
  }

  // ---------------------------------------------------------------------
  // Resolution of list heads

  predicate IsNullaryName(name: string)
  {
    name == "frequencies" || name == "nil?" || name == "empty?" || name == "number?"
    || name == "string?" || name == "keyword?" || name == "boolean?"
  }

  predicate IsUnaryName(name: string)
  {
    name == "first" || name == "last" || name == "rest" || name == "count" || name == "keys" || name == "vals"
    || name == "map" || name == "remove" || name == "select" || name == "contains?"
    || name == "<" || name == ">" || name == "<=" || name == ">="
  }

  predicate IsBinaryName(name: string)
  {
    name == "take" || name == "drop" || name == "nth" || name == "="
  }

  /** The head names `analyze_function_call` resolves. */
  predicate IsKnownFunction(name: string)
  {
    IsNullaryName(name) || IsUnaryName(name) || IsBinaryName(name)
    || name == "get" || name == "get-in" || name == "select-keys" || name == "if"
  }

  function AnalyzeFunctionCall(name: string, args: seq<EdnValue>, fuel: nat): Result<Expr>
    decreases fuel, 3
  {
    if name == "get" then AnalyzeGet(args)
    else if name == "get-in" then AnalyzeGetIn(args)
    else if name == "first" then AnalyzeUnary(name, args, x => Expr.First(x), fuel)
    else if name == "last" then AnalyzeUnary(name, args, x => Expr.Last(x), fuel)
    else if name == "rest" then AnalyzeUnary(name, args, x => Expr.Rest(x), fuel)
    else if name == "count" then AnalyzeUnary(name, args, x => Expr.Count(x), fuel)
    else if name == "keys" then AnalyzeUnary(name, args, x => Keys(x), fuel)
    else if name == "vals" then AnalyzeUnary(name, args, x => Vals(x), fuel)
    else if name == "take" then AnalyzeBinary(name, args, (x, y) => Expr.Take(x, y), fuel)
    else if name == "drop" then AnalyzeBinary(name, args, (x, y) => Expr.Drop(x, y), fuel)
    else if name == "nth" then AnalyzeBinary(name, args, (x, y) => Nth(x, y), fuel)
    else if name == "map" then AnalyzeUnary(name, args, x => Expr.Map(x), fuel)
    else if name == "remove" then AnalyzeUnary(name, args, x => Remove(x), fuel)
    else if name == "select" then AnalyzeUnary(name, args, x => Select(x), fuel)
    else if name == "select-keys" then AnalyzeSelectKeys(args)
    else if name == "frequencies" then AnalyzeNullary(name, args, Frequencies)
    else if name == "nil?" then AnalyzeNullary(name, args, IsNil)
    else if name == "empty?" then AnalyzeNullary(name, args, IsEmpty)
    else if name == "number?" then AnalyzeNullary(name, args, IsNumber)
    else if name == "string?" then AnalyzeNullary(name, args, IsString)
    else if name == "keyword?" then AnalyzeNullary(name, args, IsKeyword)
    else if name == "boolean?" then AnalyzeNullary(name, args, IsBoolean)
    else if name == "contains?" then AnalyzeUnary(name, args, x => Contains(x), fuel)
    else if name == "=" then AnalyzeBinary(name, args, (x, y) => Equal(x, y), fuel)
    else if name == "<" then AnalyzeUnary(name, args, x => LessThan(x), fuel)
    else if name == ">" then AnalyzeUnary(name, args, x => GreaterThan(x), fuel)
    else if name == "<=" then AnalyzeUnary(name, args, x => LessEqual(x), fuel)
    else if name == ">=" then AnalyzeUnary(name, args, x => GreaterEqual(x), fuel)
    else if name == "if" then AnalyzeIf(args, fuel)
    else Err(QueryError("Unknown function: " + name))
  }

  function AnalyzeKeywordCall(name: string, args: seq<EdnValue>, fuel: nat): Result<Expr>
    decreases fuel, 3
  {
    if |args| == 0 then Err(QueryError("Keyword :" + name + " requires at least 1 argument"))
    else if |args| == 1 then
      var t :- Analyze(EdnToExpr(args[0]), fuel);
      Ok(KeywordGet(name, t))
    else if |args| == 2 then
      var t :- Analyze(EdnToExpr(args[0]), fuel);
      var d :- Analyze(EdnToExpr(args[1]), fuel);
      Ok(KeywordGetWithDefault(name, t, d))
    else Err(QueryError("Keyword :" + name + " takes 1 or 2 arguments, got " + NatToString(|args|)))
  }

  function AnalyzeNullary(name: string, args: seq<EdnValue>, e: Expr): Result<Expr>
  {
    if args != [] then Err(QueryError(name + " takes no arguments")) else Ok(e)
  }

  function AnalyzeUnary(name: string, args: seq<EdnValue>, build: Expr -> Expr, fuel: nat): Result<Expr>
    decreases fuel, 2
  {
    if |args| != 1 then Err(QueryError(name + " takes exactly one argument"))
    else
      var a :- Analyze(EdnToExpr(args[0]), fuel);
      Ok(build(a))
  }

  function AnalyzeBinary(name: string, args: seq<EdnValue>, build: (Expr, Expr) -> Expr, fuel: nat): Result<Expr>
    decreases fuel, 2
  {
    if |args| != 2 then Err(QueryError(name + " takes exactly two arguments"))
    else
      var a :- Analyze(EdnToExpr(args[0]), fuel);
      var b :- Analyze(EdnToExpr(args[1]), fuel);
      Ok(build(a, b))
  }

  /** `(get k)`: the key is kept raw, not analyzed. */
  function AnalyzeGet(args: seq<EdnValue>): Result<Expr>
  {
    if |args| != 1 then Err(QueryError("get takes exactly one argument")) else Ok(Expr.Get(args[0]))
  }

  /** `(get-in input [path])`: the input is staged but not analyzed. */
  function AnalyzeGetIn(args: seq<EdnValue>): Result<Expr>
  {
    if |args| != 2 then Err(QueryError("get-in takes exactly two arguments"))
    else if args[1].Vector? then Ok(GetInOf(EdnToExpr(args[0]), args[1].items))
    else Err(QueryError("get-in requires a vector as second argument"))
  }

  function AnalyzeSelectKeys(args: seq<EdnValue>): Result<Expr>
  {
    if |args| != 1 then Err(QueryError("select-keys takes exactly one argument"))
    else if args[0].Vector? then Ok(SelectKeys(args[0].items))
    else Err(QueryError("select-keys requires a vector argument"))
  }

  function AnalyzeIf(args: seq<EdnValue>, fuel: nat): Result<Expr>
    decreases fuel, 2
  {
    if |args| == 2 then
      var t :- Analyze(EdnToExpr(args[0]), fuel);
      var th :- Analyze(EdnToExpr(args[1]), fuel);
      Ok(If(t, th, None))
    else if |args| == 3 then
      var t :- Analyze(EdnToExpr(args[0]), fuel);
      var th :- Analyze(EdnToExpr(args[1]), fuel);
      var el :- Analyze(EdnToExpr(args[2]), fuel);
      Ok(If(t, th, Some(el)))
    else Err(QueryError("if takes 2 or 3 arguments"))
  }

  /** The loop of `analyze`: `current` is replaced by one pass until the pass changes nothing. */
  method AnalyzeLoop(e: Expr, fuel: nat) returns (r: Result<Expr>)
    ensures r == Analyze(e, fuel)
  {
    var current := e;
    var k := fuel;
    while true
      invariant Analyze(current, k) == Analyze(e, fuel)
      decreases k
    {
      if k == 0 {
        return Err(OutOfFuel);
      }
      var analyzed := AnalyzeOnce(current, k - 1);
      if analyzed.Err? {
        return Err(analyzed.error);
      }
      if analyzed.value == current {
        return Ok(current);
      }
      current := analyzed.value;
      k := k - 1;
    }
  }

  // ---------------------------------------------------------------------
  // Properties of the analysis

  /** The result of `analyze` is a fixed point of one pass (given the fuel that pass had). */
  lemma {:induction false} AnalyzeFixedPoint(e: Expr, fuel: nat)
    requires Analyze(e, fuel).Ok?
    ensures exists k: nat :: k < fuel && AnalyzeOnce(Analyze(e, fuel).value, k) == Ok(Analyze(e, fuel).value)
    decreases fuel
  {
    var analyzed := AnalyzeOnce(e, fuel - 1);
    if analyzed.value != e {
      AnalyzeFixedPoint(analyzed.value, fuel - 1);
    }
  }

  /** Analyzing a result again returns it unchanged. */
  lemma AnalyzeIdempotent(e: Expr, fuel: nat)
    requires Analyze(e, fuel).Ok?
    ensures exists k: nat :: 0 < k <= fuel && Analyze(Analyze(e, fuel).value, k) == Analyze(e, fuel)
  {
    AnalyzeFixedPoint(e, fuel);
    var x := Analyze(e, fuel).value;
    var k: nat :| k < fuel && AnalyzeOnce(x, k) == Ok(x);
    assert Analyze(x, k + 1) == Ok(x);
  }

  lemma EmptyListRejected(fuel: nat)
    ensures AnalyzeOnce(Expr.List([]), fuel) == Err(QueryError("Empty list expression"))
  {
  }

  lemma BadHeadRejected(elements: seq<EdnValue>, fuel: nat)
    requires elements != [] && !elements[0].Symbol? && !elements[0].Keyword?
    ensures AnalyzeOnce(Expr.List(elements), fuel) == Err(QueryError("First element of list must be a symbol or keyword"))
  {
  }

  /** A macro call is replaced by its expansion, still raw, without analyzing anything. */
  lemma MacroExpandsRaw(name: string, args: seq<EdnValue>, fuel: nat)
    requires IsMacro(name)
    ensures AnalyzeOnce(Expr.List([EdnValue.Symbol(name)] + args), fuel) == ExpandMacro(name, args)
    ensures ExpandMacro(name, args).Ok? ==>
      (ExpandMacro(name, args).value.Identity? || ExpandMacro(name, args).value.Literal? || ExpandMacro(name, args).value.List?)
  {
    var elements := [EdnValue.Symbol(name)] + args;
    assert elements[1..] == args;
    if name != "when" {
      var first := name == "->";
      if args != [] {
        if forall i :: 1 <= i < |args| ==> ValidStage(args[i]) {
          ExpandThreadingSpec(args, first);
        } else {
          ExpandThreadingSpec(args, first);
        }
      }
    }
  }

  lemma WhenExpansion(test: EdnValue, body: EdnValue, args: seq<EdnValue>, fuel: nat)
    ensures AnalyzeOnce(Expr.List([EdnValue.Symbol("when"), test, body]), fuel)
         == Ok(Expr.List([EdnValue.Symbol("if"), test, body, Nil]))
    ensures |args| != 2 ==> AnalyzeOnce(Expr.List([EdnValue.Symbol("when")] + args), fuel).Err?
  {
    assert ([EdnValue.Symbol("when")] + args)[1..] == args;
  }

  lemma KeywordCallArity(name: string, args: seq<EdnValue>, fuel: nat)
    ensures |args| == 0 ==>
      AnalyzeOnce(Expr.List([Keyword(name)] + args), fuel)
        == Err(QueryError("Keyword :" + name + " requires at least 1 argument"))
    ensures |args| >= 3 ==>
      AnalyzeOnce(Expr.List([Keyword(name)] + args), fuel)
        == Err(QueryError("Keyword :" + name + " takes 1 or 2 arguments, got " + NatToString(|args|)))
    ensures |args| == 1 && Analyze(EdnToExpr(args[0]), fuel).Ok? ==>
      AnalyzeOnce(Expr.List([Keyword(name)] + args), fuel) == Ok(KeywordGet(name, Analyze(EdnToExpr(args[0]), fuel).value))
    ensures |args| == 2 && Analyze(EdnToExpr(args[0]), fuel).Ok? && Analyze(EdnToExpr(args[1]), fuel).Ok? ==>
      AnalyzeOnce(Expr.List([Keyword(name)] + args), fuel)
        == Ok(KeywordGetWithDefault(name, Analyze(EdnToExpr(args[0]), fuel).value, Analyze(EdnToExpr(args[1]), fuel).value))
  {
    ListDispatch([Keyword(name)] + args, fuel);
    assert ([Keyword(name)] + args)[1..] == args;
  }

  lemma UnknownFunctionRejected(name: string, args: seq<EdnValue>, fuel: nat)
    requires !IsKnownFunction(name) && !IsMacro(name)
    ensures AnalyzeOnce(Expr.List([EdnValue.Symbol(name)] + args), fuel) == Err(QueryError("Unknown function: " + name))
  {
    ListDispatch([EdnValue.Symbol(name)] + args, fuel);
    assert ([EdnValue.Symbol(name)] + args)[1..] == args;
  }

  /** The arity helpers reject every other argument count. */
  lemma NullaryArityChecked(name: string, args: seq<EdnValue>, fuel: nat)
    requires IsNullaryName(name) && args != []
    ensures AnalyzeFunctionCall(name, args, fuel) == Err(QueryError(name + " takes no arguments"))
  {
  }

  lemma UnaryArityChecked(name: string, args: seq<EdnValue>, fuel: nat)
    requires IsUnaryName(name) && |args| != 1
    ensures AnalyzeFunctionCall(name, args, fuel) == Err(QueryError(name + " takes exactly one argument"))
  {
  }

  lemma BinaryArityChecked(name: string, args: seq<EdnValue>, fuel: nat)
    requires IsBinaryName(name) && |args| != 2
    ensures AnalyzeFunctionCall(name, args, fuel) == Err(QueryError(name + " takes exactly two arguments"))
  {
  }

  /** `(-> . first)` analyzes to the first of the context. */
  lemma ThreadFirstExample()
    ensures Analyze(Expr.List([EdnValue.Symbol("->"), EdnValue.Symbol("."), EdnValue.Symbol("first")]), 4)
         == Ok(Expr.First(Identity))
  {
    var e := Expr.List([EdnValue.Symbol("->"), EdnValue.Symbol("."), EdnValue.Symbol("first")]);
    var raw := Expr.List([EdnValue.Symbol("first"), EdnValue.Symbol(".")]);
    assert AnalyzeOnce(e, 3) == Ok(raw);
    assert Analyze(Identity, 1) == Ok(Identity);
    assert AnalyzeOnce(raw, 2) == Ok(Expr.First(Identity));
    assert AnalyzeOnce(Expr.First(Identity), 1) == Ok(Expr.First(Identity));
  }
}
