/**
 * The builtin function table: every builtin takes its argument values and
 * the context value.  The collection operations and the type predicates
 * take an optional target (the context when no argument is given); the
 * operations over the context (`take`, `drop`, `nth`, `contains?`, the
 * comparisons, `select-keys`) take exactly one argument; `map`, `remove`
 * and `select` are placeholders that always fail.
 *
 * The registry type the table is stored in is not part of this model; it
 * is modelled as a class holding a map from names to builtin functions,
 * whose `Register` binds or rebinds one name.
 */
module Builtins {
  import opened Errors
  import opened Value
  import CoreOps
  import Evaluator

  /** The builtins the registry can hold, one per function of the table. */
  datatype Builtin =
    | First | Last | Rest | Take | Drop | Nth | Count | Keys | Vals
    | IsNil | IsEmpty | Contains | IsNumber | IsString | IsKeyword | IsBoolean
    | Equal | LessThan | GreaterThan | LessEqual | GreaterEqual
    | MapFn | RemoveFn | SelectKeys | Select | Frequencies

  /** Calling a registered builtin on its arguments and the context. */
  function Apply(b: Builtin, args: seq<EdnValue>, ctx: EdnValue): Result<EdnValue>
  {
    match b
    case First => BuiltinFirst(args, ctx)
    case Last => BuiltinLast(args, ctx)
    case Rest => BuiltinRest(args, ctx)
    case Take => BuiltinTake(args, ctx)
    case Drop => BuiltinDrop(args, ctx)
    case Nth => BuiltinNth(args, ctx)
    case Count => BuiltinCount(args, ctx)
    case Keys => BuiltinKeys(args, ctx)
    case Vals => BuiltinVals(args, ctx)
    case IsNil => BuiltinIsNil(args, ctx)
    case IsEmpty => BuiltinIsEmpty(args, ctx)
    case Contains => BuiltinContains(args, ctx)
    case IsNumber => BuiltinIsNumber(args, ctx)
    case IsString => BuiltinIsString(args, ctx)
    case IsKeyword => BuiltinIsKeyword(args, ctx)
    case IsBoolean => BuiltinIsBoolean(args, ctx)
    case Equal => BuiltinEqual(args, ctx)
    case LessThan => BuiltinLessThan(args, ctx)
    case GreaterThan => BuiltinGreaterThan(args, ctx)
    case LessEqual => BuiltinLessEqual(args, ctx)
    case GreaterEqual => BuiltinGreaterEqual(args, ctx)
    case MapFn => BuiltinMap(args, ctx)
    case RemoveFn => BuiltinRemove(args, ctx)
    case SelectKeys => BuiltinSelectKeys(args, ctx)
    case Select => BuiltinSelect(args, ctx)
    case Frequencies => BuiltinFrequencies(args, ctx)
  }

  class Registry {
    var functions: map<string, Builtin>

    constructor()
      ensures functions == map[]
    {
      functions := map[];
    }

    method Register(name: string, f: Builtin)
      modifies this
      ensures functions == old(functions)[name := f]
    {
      functions := functions[name := f];
    }

    /** The builtin bound to `name`, if any. */
    function Get(name: string): (r: Option<Builtin>)
      reads this
      ensures r.Some? <==> name in functions
      ensures r.Some? ==> r.value == functions[name]
    {
      if name in functions then Some(functions[name]) else None
    }
  }

  /** The 26 names the table binds. */
  function BuiltinNames(): set<string>
  {
    {"first", "last", "rest", "take", "drop", "nth", "count", "keys", "vals",
     "nil?", "empty?", "contains?", "number?", "string?", "keyword?", "boolean?",
     "=", "<", ">", "<=", ">=",
     "map", "remove", "select-keys", "select",
     "frequencies"}
  }

  /** The table `create_builtin_registry` builds. */
  function BuiltinTable(): map<string, Builtin>
  {
    map["first" := First, "last" := Last, "rest" := Rest,
        "take" := Take, "drop" := Drop, "nth" := Nth,
        "count" := Count, "keys" := Keys, "vals" := Vals,
        "nil?" := IsNil, "empty?" := IsEmpty, "contains?" := Contains,
        "number?" := IsNumber, "string?" := IsString,
        "keyword?" := IsKeyword, "boolean?" := IsBoolean,
        "=" := Equal, "<" := LessThan, ">" := GreaterThan,
        "<=" := LessEqual, ">=" := GreaterEqual,
        "map" := MapFn, "remove" := RemoveFn,
        "select-keys" := SelectKeys, "select" := Select,
        "frequencies" := Frequencies]
  }

  /** Registration of every builtin, one `Register` call per name in the source's order. */
  method CreateBuiltinRegistry() returns (registry: Registry)
    ensures fresh(registry)
    ensures registry.functions == BuiltinTable()
  {
    registry := new Registry();
    registry.Register("first", First);
    registry.Register("last", Last);
    registry.Register("rest", Rest);
    registry.Register("take", Take);
    registry.Register("drop", Drop);
    registry.Register("nth", Nth);
    registry.Register("count", Count);
    registry.Register("keys", Keys);
    registry.Register("vals", Vals);
    registry.Register("nil?", IsNil);
    registry.Register("empty?", IsEmpty);
    registry.Register("contains?", Contains);
    registry.Register("number?", IsNumber);
    registry.Register("string?", IsString);
    registry.Register("keyword?", IsKeyword);
    registry.Register("boolean?", IsBoolean);
    registry.Register("=", Equal);
    registry.Register("<", LessThan);
    registry.Register(">", GreaterThan);
    registry.Register("<=", LessEqual);
    registry.Register(">=", GreaterEqual);
    registry.Register("map", MapFn);
    registry.Register("remove", RemoveFn);
    registry.Register("select-keys", SelectKeys);
    registry.Register("select", Select);
    registry.Register("frequencies", Frequencies);
  }

  // ---------------------------------------------------------------------
  // Argument conventions

  /** The optional target: the context with no argument, the argument with one, an error otherwise. */
  function Target(name: string, args: seq<EdnValue>, ctx: EdnValue): (r: Result<EdnValue>)
    ensures |args| == 0 ==> r == Ok(ctx)
    ensures |args| == 1 ==> r == Ok(args[0])
    ensures |args| > 1 ==> r == Err(QueryError(name + " expects 0 or 1 argument"))
  {
    if args == [] then Ok(ctx)
    else if |args| == 1 then Ok(args[0])
    else Err(QueryError(name + " expects 0 or 1 argument"))
  }

  /** Exactly one argument, or the error the operations over the context report. */
  function Single(name: string, args: seq<EdnValue>): (r: Result<EdnValue>)
    ensures r.Ok? <==> |args| == 1
    ensures r.Ok? ==> r.value == args[0]
    ensures r.Err? ==> r.error == QueryError(name + " expects 1 argument")
  {
    if |args| != 1 then Err(QueryError(name + " expects 1 argument")) else Ok(args[0])
  }

  // ---------------------------------------------------------------------
  // Collection operations

  function BuiltinFirst(args: seq<EdnValue>, ctx: EdnValue): Result<EdnValue>
  {
    var target :- Target("first", args, ctx);
    Ok(Evaluator.OrNil(Value.First(target)))
  }

  function BuiltinLast(args: seq<EdnValue>, ctx: EdnValue): Result<EdnValue>
  {
    var target :- Target("last", args, ctx);
    Ok(Evaluator.OrNil(Value.Last(target)))
  }

  function BuiltinRest(args: seq<EdnValue>, ctx: EdnValue): Result<EdnValue>
  {
    var target :- Target("rest", args, ctx);
    Ok(Evaluator.RestOf(target))
  }

  function BuiltinTake(args: seq<EdnValue>, ctx: EdnValue): Result<EdnValue>
  {
    var count :- Single("take", args);
    Evaluator.TakeOf(count, ctx)
  }

  function BuiltinDrop(args: seq<EdnValue>, ctx: EdnValue): Result<EdnValue>
  {
    var count :- Single("drop", args);
    Evaluator.DropOf(count, ctx)
  }

  function BuiltinNth(args: seq<EdnValue>, ctx: EdnValue): Result<EdnValue>
  {
    var index :- Single("nth", args);
    Evaluator.NthOf(index, ctx)
  }

  function BuiltinCount(args: seq<EdnValue>, ctx: EdnValue): Result<EdnValue>
  {
    var target :- Target("count", args, ctx);
    Ok(Integer(Evaluator.CountOr0(target)))
  }

  function BuiltinKeys(args: seq<EdnValue>, ctx: EdnValue): Result<EdnValue>
  {
    var target :- Target("keys", args, ctx);
    Ok(Evaluator.KeysOf(target))
  }

  function BuiltinVals(args: seq<EdnValue>, ctx: EdnValue): Result<EdnValue>
  {
    var target :- Target("vals", args, ctx);
    Ok(Evaluator.ValsOf(target))
  }

  // ---------------------------------------------------------------------
  // Predicates

  function BuiltinIsNil(args: seq<EdnValue>, ctx: EdnValue): Result<EdnValue>
  {
    var target :- Target("nil?", args, ctx);
    Ok(Bool(target.Nil?))
  }

  function BuiltinIsEmpty(args: seq<EdnValue>, ctx: EdnValue): Result<EdnValue>
  {
    var target :- Target("empty?", args, ctx);
    var count := Value.Count(target);
    Ok(Bool(count.Some? && count.value == 0))
  }

  function BuiltinContains(args: seq<EdnValue>, ctx: EdnValue): Result<EdnValue>
  {
    var key :- Single("contains?", args);
    Ok(Bool(Evaluator.ContainsKey(ctx, key)))
  }

  function BuiltinIsNumber(args: seq<EdnValue>, ctx: EdnValue): Result<EdnValue>
  {
    var target :- Target("number?", args, ctx);
    Ok(Bool(target.Integer? || target.Float?))
  }

  function BuiltinIsString(args: seq<EdnValue>, ctx: EdnValue): Result<EdnValue>
  {
    var target :- Target("string?", args, ctx);
    Ok(Bool(target.Str?))
  }

  function BuiltinIsKeyword(args: seq<EdnValue>, ctx: EdnValue): Result<EdnValue>
  {
    var target :- Target("keyword?", args, ctx);
    Ok(Bool(target.Keyword?))
  }

  function BuiltinIsBoolean(args: seq<EdnValue>, ctx: EdnValue): Result<EdnValue>
  {
    var target :- Target("boolean?", args, ctx);
    Ok(Bool(target.Bool?))
  }

  // ---------------------------------------------------------------------
  // Comparison: the context against the single argument

  function BuiltinEqual(args: seq<EdnValue>, ctx: EdnValue): Result<EdnValue>
  {
    var other :- Single("=", args);
    Ok(Bool(ctx == other))
  }

  function BuiltinLessThan(args: seq<EdnValue>, ctx: EdnValue): Result<EdnValue>
  {
    var other :- Single("<", args);
    Evaluator.Ordered(Evaluator.Less, ctx, other)
  }

  function BuiltinGreaterThan(args: seq<EdnValue>, ctx: EdnValue): Result<EdnValue>
  {
    var other :- Single(">", args);
    Evaluator.Ordered(Evaluator.Greater, ctx, other)
  }

  function BuiltinLessEqual(args: seq<EdnValue>, ctx: EdnValue): Result<EdnValue>
  {
    var other :- Single("<=", args);
    Evaluator.Ordered(Evaluator.LessOrEqual, ctx, other)
  }

  function BuiltinGreaterEqual(args: seq<EdnValue>, ctx: EdnValue): Result<EdnValue>
  {
    var other :- Single(">=", args);
    Evaluator.Ordered(Evaluator.GreaterOrEqual, ctx, other)
  }

  // ---------------------------------------------------------------------
  // Higher-order operations and aggregation

  function BuiltinMap(args: seq<EdnValue>, ctx: EdnValue): Result<EdnValue>
  {
    Err(QueryError("map not yet implemented with new function system"))
  }

  function BuiltinRemove(args: seq<EdnValue>, ctx: EdnValue): Result<EdnValue>
  {
    Err(QueryError("remove not yet implemented with new function system"))
  }

  function BuiltinSelect(args: seq<EdnValue>, ctx: EdnValue): Result<EdnValue>
  {
    Err(QueryError("select not yet implemented with new function system"))
  }

  function BuiltinSelectKeys(args: seq<EdnValue>, ctx: EdnValue): Result<EdnValue>
  {
    var keys :- Single("select-keys", args);
    if keys.Vector? || keys.List? then Ok(Evaluator.SelectKeysOf(ctx, keys.items))
    else Err(TypeError("vector or list", TypeName(keys)))
  }

  function BuiltinFrequencies(args: seq<EdnValue>, ctx: EdnValue): Result<EdnValue>
  {
    var target :- Target("frequencies", args, ctx);
    Ok(Evaluator.FrequenciesOf(target))
  }

  // ---------------------------------------------------------------------
  // Properties of the table

  /** The name each builtin reports in its errors. */
  function Name(b: Builtin): string
  {
    match b
    case First => "first"
    case Last => "last"
    case Rest => "rest"
    case Take => "take"
    case Drop => "drop"
    case Nth => "nth"
    case Count => "count"
    case Keys => "keys"
    case Vals => "vals"
    case IsNil => "nil?"
    case IsEmpty => "empty?"
    case Contains => "contains?"
    case IsNumber => "number?"
    case IsString => "string?"
    case IsKeyword => "keyword?"
    case IsBoolean => "boolean?"
    case Equal => "="
    case LessThan => "<"
    case GreaterThan => ">"
    case LessEqual => "<="
    case GreaterEqual => ">="
    case MapFn => "map"
    case RemoveFn => "remove"
    case SelectKeys => "select-keys"
    case Select => "select"
    case Frequencies => "frequencies"
  }

  /** Every builtin is bound to its own name, so no registration overwrites another; one lemma per
      section of the table. */
  lemma CollectionNames(b: Builtin)
    requires b.First? || b.Last? || b.Rest? || b.Take? || b.Drop? || b.Nth? || b.Count? || b.Keys? || b.Vals?
    ensures Name(b) in BuiltinTable() && BuiltinTable()[Name(b)] == b
  {
  }

  lemma PredicateNames(b: Builtin)
    requires b.IsNil? || b.IsEmpty? || b.Contains? || b.IsNumber? || b.IsString? || b.IsKeyword? || b.IsBoolean?
    ensures Name(b) in BuiltinTable() && BuiltinTable()[Name(b)] == b
  {
  }

  lemma ComparisonNames(b: Builtin)
    requires b.Equal? || b.LessThan? || b.GreaterThan? || b.LessEqual? || b.GreaterEqual?
    ensures Name(b) in BuiltinTable() && BuiltinTable()[Name(b)] == b
  {
  }

  lemma AggregationNames(b: Builtin)
    requires b.MapFn? || b.RemoveFn? || b.SelectKeys? || b.Select? || b.Frequencies?
    ensures Name(b) in BuiltinTable() && BuiltinTable()[Name(b)] == b
  {
  }

  /** The table binds exactly the 26 names. */
  lemma TableKeys()
    ensures BuiltinTable().Keys == BuiltinNames()
  {
  }

  /** The builtins that take an optional target. */
  predicate TakesOptionalTarget(b: Builtin)
  {
    b.First? || b.Last? || b.Rest? || b.Count? || b.Keys? || b.Vals? || b.IsNil? || b.IsEmpty? ||
    b.IsNumber? || b.IsString? || b.IsKeyword? || b.IsBoolean? || b.Frequencies?
  }

  /** The builtins that demand exactly one argument. */
  predicate TakesOneArgument(b: Builtin)
  {
    b.Take? || b.Drop? || b.Nth? || b.Contains? || b.Equal? ||
    b.LessThan? || b.GreaterThan? || b.LessEqual? || b.GreaterEqual? || b.SelectKeys?
  }

  /**
   * An optional-target builtin with no argument acts on the context exactly
   * as it acts on a single argument equal to the context (whatever the
   * context then is); more than one argument is a query error.
   */
  lemma OptionalTarget(b: Builtin, args: seq<EdnValue>, ctx: EdnValue, other: EdnValue)
    requires TakesOptionalTarget(b)
    ensures Apply(b, [], ctx) == Apply(b, [ctx], other)
  {
  }

  lemma TooManyTargets(b: Builtin, args: seq<EdnValue>, ctx: EdnValue)
    requires TakesOptionalTarget(b) && |args| > 1
    ensures Apply(b, args, ctx) == Err(QueryError(Name(b) + " expects 0 or 1 argument"))
  {
  }

  /** The operations over the context reject any other number of arguments. */
  lemma OneArgument(b: Builtin, args: seq<EdnValue>, ctx: EdnValue)
    requires TakesOneArgument(b) && |args| != 1
    ensures Apply(b, args, ctx) == Err(QueryError(Name(b) + " expects 1 argument"))
  {
  }

  /** The placeholders fail with a query error whatever they are given. */
  lemma PlaceholdersFail(b: Builtin, args: seq<EdnValue>, ctx: EdnValue)
    requires b.MapFn? || b.RemoveFn? || b.Select?
    ensures Apply(b, args, ctx).Err? && Apply(b, args, ctx).error.QueryError?
  {
  }

  /** Every builtin takes an optional target, exactly one argument, or is a placeholder. */
  lemma ArityClasses(b: Builtin)
    ensures TakesOptionalTarget(b) || TakesOneArgument(b) || b.MapFn? || b.RemoveFn? || b.Select?
    ensures !(TakesOptionalTarget(b) && TakesOneArgument(b))
  {
  }

  /** `first` and `last` of a sequential target are its end elements, `nil` when there are none. */
  lemma FirstLastOfTarget(v: EdnValue, ctx: EdnValue)
    ensures BuiltinFirst([v], ctx) == Ok(if AsSlice(v) == [] then Nil else AsSlice(v)[0])
    ensures BuiltinLast([v], ctx) == Ok(if AsSlice(v) == [] then Nil else AsSlice(v)[|AsSlice(v)| - 1])
  {
  }

  /**
   * `take` demands one integer argument; a negative count gives an empty
   * vector, and otherwise the first `min(n, len)` elements of the context,
   * in a list exactly when the context is a list.
   */
  lemma TakeSpec(n: EdnValue, ctx: EdnValue)
    ensures !n.Integer? ==> BuiltinTake([n], ctx) == Err(TypeError("integer", TypeName(n)))
    ensures n.Integer? && n.i < 0 ==> BuiltinTake([n], ctx) == Ok(Vector([]))
    ensures n.Integer? && n.i >= 0 ==>
      var r := BuiltinTake([n], ctx);
      r.Ok? && r.value.items == AsSlice(ctx)[..Text.Min(n.i, |AsSlice(ctx)|)] &&
      (r.value.List? <==> Evaluator.IsListKind(ctx))
  {
    Evaluator.TakeOfSpec(n, ctx);
    if n.Integer? && n.i >= 0 {
      var t := Evaluator.TakeOf(n, ctx).value.items;
      assert t == AsSlice(ctx)[..|t|];
    }
  }

  /**
   * `drop` with a negative count returns the context itself; otherwise what
   * it keeps completes what `take` keeps to the whole sequence.
   */
  lemma DropSpec(n: EdnValue, ctx: EdnValue)
    ensures !n.Integer? ==> BuiltinDrop([n], ctx) == Err(TypeError("integer", TypeName(n)))
    ensures n.Integer? && n.i < 0 ==> BuiltinDrop([n], ctx) == Ok(ctx)
    ensures n.Integer? && n.i >= 0 ==>
      BuiltinDrop([n], ctx).Ok? && BuiltinTake([n], ctx).Ok? &&
      BuiltinTake([n], ctx).value.items + BuiltinDrop([n], ctx).value.items == AsSlice(ctx)
  {
    Evaluator.DropOfSpec(n, ctx);
  }

  /** `nth` is integer `get`: negative indices count from the end, and a miss is `nil`. */
  lemma NthSpec(v: EdnValue, i: int)
    requires v.Vector? || v.List?
    ensures 0 <= i < |v.items| ==> BuiltinNth([Integer(i)], v) == Ok(v.items[i])
    ensures i < 0 && |v.items| + i >= 0 ==> BuiltinNth([Integer(i)], v) == Ok(v.items[|v.items| + i])
    ensures (i >= |v.items| || |v.items| + i < 0) ==> BuiltinNth([Integer(i)], v) == Ok(Nil)
  {
    GetIndex(v, i);
  }

  /** `count` is the element count of a collection or the length of a string, and 0 for anything else. */
  lemma CountSpec(v: EdnValue, ctx: EdnValue)
    ensures (v.Vector? || v.List?) ==> BuiltinCount([v], ctx) == Ok(Integer(|v.items|))
    ensures v.Map? ==> BuiltinCount([v], ctx) == Ok(Integer(|v.entries|))
    ensures v.Str? ==> BuiltinCount([v], ctx) == Ok(Integer(|v.s|))
    ensures v.Set? ==> BuiltinCount([v], ctx) == Ok(Integer(|v.elements|))
    ensures v.WithMetadata? ==> BuiltinCount([v], ctx) == BuiltinCount([v.value], ctx)
    ensures Value.Count(v).None? ==> BuiltinCount([v], ctx) == Ok(Integer(0))
    ensures v.Nil? || v.Integer? || v.Keyword? ==> BuiltinCount([v], ctx) == Ok(Integer(0))
  {
  }

  /**
   * `select-keys` takes a vector or list of keys; on a map the result maps
   * exactly the listed keys that are present to their values, once each.
   */
  lemma SelectKeysBuiltinSpec(keys: EdnValue, ctx: EdnValue, k: EdnValue)
    ensures !keys.Vector? && !keys.List? ==>
      BuiltinSelectKeys([keys], ctx) == Err(TypeError("vector or list", TypeName(keys)))
    ensures keys.Vector? || keys.List? ==>
      var r := BuiltinSelectKeys([keys], ctx);
      r.Ok? && r.value.Map? &&
      MapLookup(r.value.entries, k) == (if ctx.Map? && k in keys.items then MapLookup(ctx.entries, k) else None) &&
      UniqueKeys(r.value.entries)
  {
    if (keys.Vector? || keys.List?) && ctx.Map? {
      CoreOps.SelectKeysLookup(ctx.entries, keys.items, k);
      CoreOps.SelectKeysUnique(ctx.entries, keys.items);
    }
  }

  /** `frequencies` of a vector or list counts every element; anything else gives an empty map. */
  lemma FrequenciesBuiltinSpec(v: EdnValue, ctx: EdnValue, x: EdnValue)
    ensures !v.Vector? && !v.List? ==> BuiltinFrequencies([v], ctx) == Ok(EdnValue.Map([]))
    ensures v.Vector? || v.List? ==>
      BuiltinFrequencies([v], ctx).Ok? && BuiltinFrequencies([v], ctx).value.Map? &&
      MapLookup(BuiltinFrequencies([v], ctx).value.entries, x) ==
        (if x in v.items then Some(Integer(multiset(v.items)[x])) else None) &&
      CoreOps.SumCounts(BuiltinFrequencies([v], ctx).value.entries) == |v.items|
  {
    if v.Vector? || v.List? {
      CoreOps.FrequenciesCount(v.items, x);
      CoreOps.FrequenciesSum(v.items);
    }
  }

  /** `=` is structural equality of the context with the argument; the orderings need one argument. */
  lemma ComparisonSpec(other: EdnValue, ctx: EdnValue)
    ensures BuiltinEqual([other], ctx) == Ok(Bool(ctx == other))
    ensures ctx.Integer? && other.Integer? ==>
      BuiltinLessThan([other], ctx) == Ok(Bool(ctx.i < other.i)) &&
      BuiltinGreaterThan([other], ctx) == Ok(Bool(ctx.i > other.i)) &&
      BuiltinLessEqual([other], ctx) == Ok(Bool(ctx.i <= other.i)) &&
      BuiltinGreaterEqual([other], ctx) == Ok(Bool(ctx.i >= other.i))
    ensures !CoreOps.IsNumber(ctx) && !ctx.Str? ==>
      BuiltinLessThan([other], ctx) == Err(TypeError("comparable types", TypeName(ctx) + " and " + TypeName(other)))
  {
    if ctx.Integer? && other.Integer? {
      Evaluator.OrderedIntegers(ctx.i, other.i);
    }
  }

  /** `empty?` holds exactly for a collection or string with nothing in it. */
  lemma IsEmptySpec(v: EdnValue, ctx: EdnValue)
    ensures (v.Vector? || v.List?) ==> BuiltinIsEmpty([v], ctx) == Ok(Bool(v.items == []))
    ensures v.Str? ==> BuiltinIsEmpty([v], ctx) == Ok(Bool(v.s == []))
    ensures v.Map? ==> BuiltinIsEmpty([v], ctx) == Ok(Bool(v.entries == []))
    ensures v.Set? ==> BuiltinIsEmpty([v], ctx) == Ok(Bool(v.elements == []))
    ensures v.WithMetadata? ==> BuiltinIsEmpty([v], ctx) == BuiltinIsEmpty([v.value], ctx)
    ensures Value.Count(v).None? ==> BuiltinIsEmpty([v], ctx) == Ok(Bool(false))
    ensures v.Nil? || v.Integer? ==> BuiltinIsEmpty([v], ctx) == Ok(Bool(false))
  {
  }
}
