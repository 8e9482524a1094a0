/**
 * The EDN value type and its capability operations: the sequential view
 * (first, last, rest, take, drop over the slice of a vector or list),
 * associative lookup (get, get-in), count, truthiness and value iteration.
 * Metadata wrappers are transparent to all of them.
 *
 * A map is an insertion-ordered sequence of key/value pairs whose insert
 * replaces the value of an existing key in place; a set is a sequence of
 * distinct elements whose order carries no meaning.  Integers are the
 * 64-bit integers of the source, kept unbounded here; a float is kept
 * opaque, represented by the text it was read from.
 */
module Value {
  import opened Errors
  import opened Text

  datatype EdnValue =
    | Nil
    | Bool(b: bool)
    | Str(s: string)
    | Keyword(name: string)
    | Symbol(name: string)
    | Character(c: char)
    | Integer(i: int)
    | Float(text: string)
    | Vector(items: seq<EdnValue>)
    | List(items: seq<EdnValue>)
    | Map(entries: seq<(EdnValue, EdnValue)>)
    | Set(elements: seq<EdnValue>)
    | Tagged(tag: string, value: EdnValue)
    | WithMetadata(metadata: EdnValue, value: EdnValue)
    | Instant(s: string)
    | Uuid(s: string)
      /** Only the printers know this variant; every value operation treats it as a scalar. */
    | Lambda(params: seq<string>, body: EdnValue)

  function TypeName(v: EdnValue): string
  {
    match v
    case Nil => "nil"
    case Bool(_) => "boolean"
    case Str(_) => "string"
    case Keyword(_) => "keyword"
    case Symbol(_) => "symbol"
    case Character(_) => "character"
    case Integer(_) => "integer"
    case Float(_) => "float"
    case Vector(_) => "vector"
    case List(_) => "list"
    case Map(_) => "map"
    case Set(_) => "set"
    case Tagged(_, _) => "tagged"
    case WithMetadata(_, _) => "with-metadata"
    case Instant(_) => "instant"
    case Uuid(_) => "uuid"
    case Lambda(_, _) => "lambda"
  }

  predicate IsTruthy(v: EdnValue)
  {
    if v.Nil? then false else if v.Bool? then v.b else true
  }

  lemma TruthyExactly(v: EdnValue)
    ensures !IsTruthy(v) <==> v == Nil || v == Bool(false)
    ensures IsTruthy(Integer(0)) && IsTruthy(Str(""))
  {
  }

  // ---------------------------------------------------------------------
  // Maps as insertion-ordered pair sequences

  function MapKeys(es: seq<(EdnValue, EdnValue)>): (ks: seq<EdnValue>)
    ensures |ks| == |es|
    ensures forall i :: 0 <= i < |es| ==> ks[i] == es[i].0
  {
    if es == [] then [] else [es[0].0] + MapKeys(es[1..])
  }

  function MapValues(es: seq<(EdnValue, EdnValue)>): (vs: seq<EdnValue>)
    ensures |vs| == |es|
    ensures forall i :: 0 <= i < |es| ==> vs[i] == es[i].1
  {
    if es == [] then [] else [es[0].1] + MapValues(es[1..])
  }

  predicate UniqueKeys(es: seq<(EdnValue, EdnValue)>)
  {
    forall i, j :: 0 <= i < j < |es| ==> es[i].0 != es[j].0
  }

  /** The value stored under `k`: the first entry whose key equals `k`. */
  function MapLookup(es: seq<(EdnValue, EdnValue)>, k: EdnValue): (r: Option<EdnValue>)
  {
    if es == [] then None
    else if es[0].0 == k then Some(es[0].1)
    else MapLookup(es[1..], k)
  }

  /** A lookup misses exactly the absent keys, and a hit is a stored pair. */
  lemma {:induction false} MapLookupSpec(es: seq<(EdnValue, EdnValue)>, k: EdnValue)
    ensures MapLookup(es, k).None? <==> k !in MapKeys(es)
    ensures MapLookup(es, k).Some? ==> (k, MapLookup(es, k).value) in es
  {
    if es != [] && es[0].0 != k {
      MapLookupSpec(es[1..], k);
      assert MapKeys(es) == [es[0].0] + MapKeys(es[1..]);
    }
  }

  /** With distinct keys, a lookup finds exactly the stored pair. */
  lemma {:induction false} MapLookupUnique(es: seq<(EdnValue, EdnValue)>, i: nat)
    requires UniqueKeys(es) && i < |es|
    ensures MapLookup(es, es[i].0) == Some(es[i].1)
  {
    if i > 0 {
      assert es[0].0 != es[i].0;
      assert UniqueKeys(es[1..]) by {
        forall a, b | 0 <= a < b < |es[1..]| ensures es[1..][a].0 != es[1..][b].0 {
          assert es[1..][a] == es[a + 1] && es[1..][b] == es[b + 1];
        }
      }
      MapLookupUnique(es[1..], i - 1);
    }
  }

  /** IndexMap insert: replace the value of an existing key in place, or append a new entry. */
  function MapInsert(es: seq<(EdnValue, EdnValue)>, k: EdnValue, v: EdnValue): (r: seq<(EdnValue, EdnValue)>)
  {
    if es == [] then [(k, v)]
    else if es[0].0 == k then [(k, v)] + es[1..]
    else [es[0]] + MapInsert(es[1..], k, v)
  }

  /** An insert keeps the length when the key is present and appends the pair when it is absent. */
  lemma {:induction false} MapInsertSpec(es: seq<(EdnValue, EdnValue)>, k: EdnValue, v: EdnValue)
    ensures k in MapKeys(es) ==> |MapInsert(es, k, v)| == |es|
    ensures k !in MapKeys(es) ==> MapInsert(es, k, v) == es + [(k, v)]
  {
    if es != [] && es[0].0 != k {
      MapInsertSpec(es[1..], k, v);
      assert MapKeys(es) == [es[0].0] + MapKeys(es[1..]);
      if k !in MapKeys(es) {
        assert MapInsert(es, k, v) == [es[0]] + (es[1..] + [(k, v)]);
        assert [es[0]] + (es[1..] + [(k, v)]) == es + [(k, v)];
      }
    }
  }

  lemma {:induction false} MapInsertKeys(es: seq<(EdnValue, EdnValue)>, k: EdnValue, v: EdnValue)
    ensures MapKeys(MapInsert(es, k, v)) == if k in MapKeys(es) then MapKeys(es) else MapKeys(es) + [k]
  {
    if es != [] && es[0].0 != k {
      MapInsertKeys(es[1..], k, v);
      assert MapKeys(es) == [es[0].0] + MapKeys(es[1..]);
    }
  }

  lemma {:induction false} MapInsertLookup(es: seq<(EdnValue, EdnValue)>, k: EdnValue, v: EdnValue, k': EdnValue)
    ensures MapLookup(MapInsert(es, k, v), k') == if k' == k then Some(v) else MapLookup(es, k')
  {
    var r := MapInsert(es, k, v);
    if es == [] {
      assert r[0] == (k, v) && r[1..] == [];
    } else if es[0].0 == k {
      assert r[0] == (k, v) && r[1..] == es[1..];
    } else {
      assert r[0] == es[0] && r[1..] == MapInsert(es[1..], k, v);
      MapInsertLookup(es[1..], k, v, k');
    }
  }

  lemma MapInsertUnique(es: seq<(EdnValue, EdnValue)>, k: EdnValue, v: EdnValue)
    requires UniqueKeys(es)
    ensures UniqueKeys(MapInsert(es, k, v))
  {
    var r := MapInsert(es, k, v);
    MapInsertKeys(es, k, v);
    var ks := MapKeys(r);
    forall i, j | 0 <= i < j < |r| ensures r[i].0 != r[j].0 {
      assert ks[i] == r[i].0 && ks[j] == r[j].0;
      if k in MapKeys(es) {
        assert ks == MapKeys(es);
      } else {
        assert ks == MapKeys(es) + [k];
        if j == |es| {
          assert ks[i] == MapKeys(es)[i];
        }
      }
    }
  }

  // ---------------------------------------------------------------------
  // The sequential view

  /** A vector or a list, possibly under metadata wrappers. */
  predicate IsSequential(v: EdnValue)
  {
    if v.Vector? || v.List? then true
    else if v.WithMetadata? then IsSequential(v.value)
    else false
  }

  /** The elements of a vector or list, seen through metadata; empty for anything else. */
  function AsSlice(v: EdnValue): (s: seq<EdnValue>)
    ensures !IsSequential(v) ==> s == []
  {
    if v.Vector? || v.List? then v.items
    else if v.WithMetadata? then AsSlice(v.value)
    else []
  }

  function First(v: EdnValue): (r: Option<EdnValue>)
    ensures r == if AsSlice(v) == [] then None else Some(AsSlice(v)[0])
  {
    if v.Vector? || v.List? then (if v.items == [] then None else Some(v.items[0]))
    else if v.WithMetadata? then First(v.value)
    else None
  }

  function Last(v: EdnValue): (r: Option<EdnValue>)
    ensures r == if AsSlice(v) == [] then None else Some(AsSlice(v)[|AsSlice(v)| - 1])
  {
    if v.Vector? || v.List? then (if v.items == [] then None else Some(v.items[|v.items| - 1]))
    else if v.WithMetadata? then Last(v.value)
    else None
  }

  /** Everything after the first element, always as a vector. */
  function Rest(v: EdnValue): (r: EdnValue)
    ensures r.Vector?
    ensures AsSlice(v) == [] ==> r.items == []
    ensures AsSlice(v) != [] ==> [AsSlice(v)[0]] + r.items == AsSlice(v)
  {
    var slice := AsSlice(v);
    if slice == [] then Vector([]) else Vector(slice[1..])
  }

  /** The first `min(n, len)` elements, always as a vector. */
  function Take(v: EdnValue, n: nat): (r: EdnValue)
    ensures r.Vector?
    ensures |r.items| == Min(n, |AsSlice(v)|) && r.items <= AsSlice(v)
  {
    var slice := AsSlice(v);
    Vector(if n <= |slice| then slice[..n] else slice)
  }

  /** All elements after the first `n`, always as a vector. */
  function Drop(v: EdnValue, n: nat): (r: EdnValue)
    ensures r.Vector?
    ensures |r.items| == |AsSlice(v)| - Min(n, |AsSlice(v)|)
    ensures forall i :: 0 <= i < |r.items| ==> r.items[i] == AsSlice(v)[Min(n, |AsSlice(v)|) + i]
  {
    var slice := AsSlice(v);
    Vector(if n <= |slice| then slice[n..] else [])
  }

  lemma TakeDropSplit(v: EdnValue, n: nat)
    ensures Take(v, n).items + Drop(v, n).items == AsSlice(v)
  {
    var s := AsSlice(v);
    var t := Take(v, n).items;
    var d := Drop(v, n).items;
    assert |t + d| == |s|;
    forall i | 0 <= i < |s| ensures (t + d)[i] == s[i] {
      if i >= |t| {
        assert (t + d)[i] == d[i - |t|];
      }
    }
  }

  lemma RestIsDropOne(v: EdnValue)
    ensures Rest(v) == Drop(v, 1)
  {
  }

  /** The values a collection yields: elements in order, map values in insertion order. */
  function IterValues(v: EdnValue): (r: seq<EdnValue>)
    ensures IsSequential(v) ==> r == AsSlice(v)
    ensures v.Map? ==> r == MapValues(v.entries)
    ensures v.Set? ==> r == v.elements
  {
    if v.Vector? || v.List? then v.items
    else if v.Map? then MapValues(v.entries)
    else if v.Set? then v.elements
    else if v.WithMetadata? then IterValues(v.value)
    else []
  }

  lemma IterValuesOfScalar(v: EdnValue)
    requires !v.Vector? && !v.List? && !v.Map? && !v.Set? && !v.WithMetadata?
    ensures IterValues(v) == []
  {
  }

  /** Number of elements of a collection, of characters of a string; none for anything else. */
  function Count(v: EdnValue): (r: Option<nat>)
    ensures IsSequential(v) ==> r == Some(|AsSlice(v)|)
    ensures v.Map? ==> r == Some(|v.entries|)
    ensures v.Set? ==> r == Some(|v.elements|)
    ensures v.Str? ==> r == Some(|v.s|)
    ensures v.WithMetadata? ==> r == Count(v.value)
  {
    if v.Vector? || v.List? then Some(|v.items|)
    else if v.Map? then Some(|v.entries|)
    else if v.Set? then Some(|v.elements|)
    else if v.Str? then Some(|v.s|)
    else if v.WithMetadata? then Count(v.value)
    else None
  }

  lemma CountOfScalar(v: EdnValue)
    requires !v.Vector? && !v.List? && !v.Map? && !v.Set? && !v.Str? && !v.WithMetadata?
    ensures Count(v) == None
  {
  }

  /** The value under any number of metadata wrappers. */
  function StripMetadata(v: EdnValue): (r: EdnValue)
    ensures !r.WithMetadata?
  {
    if v.WithMetadata? then StripMetadata(v.value) else v
  }

  /** A value counts as the value under all its metadata wrappers, whatever kind that is. */
  lemma {:induction false} CountThroughMetadata(v: EdnValue)
    ensures Count(v) == Count(StripMetadata(v))
    ensures var u := StripMetadata(v);
      (u.Vector? || u.List? ==> Count(v) == Some(|u.items|)) &&
      (u.Map? ==> Count(v) == Some(|u.entries|)) &&
      (u.Set? ==> Count(v) == Some(|u.elements|)) &&
      (u.Str? ==> Count(v) == Some(|u.s|)) &&
      (!u.Vector? && !u.List? && !u.Map? && !u.Set? && !u.Str? ==> Count(v) == None)
  {
    if v.WithMetadata? {
      CountThroughMetadata(v.value);
    }
  }

  // ---------------------------------------------------------------------
  // Associative access

  /** Position an integer names in a sequence of length `len`: negative counts from the end. */
  function IndexFor(len: nat, i: int): (r: Option<nat>)
    ensures r.Some? ==> r.value < len
    ensures r.Some? <==> -(len as int) <= i < len
  {
    if i >= 0 then (if i < len then Some(i) else None)
    else if len + i >= 0 then Some(len + i)
    else None
  }

  function NthOf(items: seq<EdnValue>, i: int): Option<EdnValue>
  {
    var idx := IndexFor(|items|, i);
    if idx.Some? then Some(items[idx.value]) else None
  }

  function Get(v: EdnValue, key: EdnValue): (r: Option<EdnValue>)
    ensures v.Map? ==> r == MapLookup(v.entries, key)
    ensures v.WithMetadata? ==> r == Get(v.value, key)
  {
    if v.Map? then MapLookup(v.entries, key)
    else if v.Vector? || v.List? then (if key.Integer? then NthOf(v.items, key.i) else None)
    else if v.WithMetadata? then Get(v.value, key)
    else None
  }

  /** Integer lookup on a vector or list, in each of its three cases. */
  lemma GetIndex(v: EdnValue, i: int)
    requires v.Vector? || v.List?
    ensures 0 <= i < |v.items| ==> Get(v, Integer(i)) == Some(v.items[i])
    ensures i < 0 && |v.items| + i >= 0 ==> Get(v, Integer(i)) == Some(v.items[|v.items| + i])
    ensures (i >= |v.items| || |v.items| + i < 0) ==> Get(v, Integer(i)) == None
  {
  }

  /** Index -1 is the last element, through any number of metadata wrappers. */
  lemma {:induction false} GetMinusOneIsLast(v: EdnValue)
    requires IsSequential(v) && AsSlice(v) != []
    ensures Get(v, Integer(-1)) == Last(v)
  {
    if v.WithMetadata? {
      GetMinusOneIsLast(v.value);
    }
  }

  lemma GetNonAssociative(v: EdnValue, key: EdnValue)
    requires !v.Map? && !v.WithMetadata?
    requires (v.Vector? || v.List?) ==> !key.Integer?
    ensures Get(v, key) == None
  {
  }

  /** Fold of `get` along a path, starting from an optional value. */
  function GetInFrom(current: Option<EdnValue>, path: seq<EdnValue>): Option<EdnValue>
    decreases |path|
  {
    if path == [] then current
    else GetInFrom(if current.Some? then Get(current.value, path[0]) else None, path[1..])
  }

  function GetIn(v: EdnValue, path: seq<EdnValue>): Option<EdnValue>
  {
    GetInFrom(Some(v), path)
  }

  /** The loop of `get_in`: `current` is replaced by `current.and_then(get)` for every key. */
  method GetInLoop(v: EdnValue, path: seq<EdnValue>) returns (current: Option<EdnValue>)
    ensures current == GetIn(v, path)
  {
    current := Some(v);
    var i := 0;
    while i < |path|
      invariant 0 <= i <= |path|
      invariant GetInFrom(current, path[i..]) == GetIn(v, path)
    {
      assert path[i..][0] == path[i] && path[i..][1..] == path[i + 1..];
      current := if current.Some? then Get(current.value, path[i]) else None;
      i := i + 1;
    }
    assert path[i..] == [];
  }

  lemma GetInEmpty(v: EdnValue)
    ensures GetIn(v, []) == Some(v)
  {
  }

  /** Once a step misses, every longer path misses too. */
  lemma {:induction false} GetInNoneAbsorbs(path: seq<EdnValue>)
    ensures GetInFrom(None, path) == None
  {
    if path != [] {
      GetInNoneAbsorbs(path[1..]);
    }
  }

  /** A path can be followed in two halves. */
  lemma {:induction false} GetInAppend(current: Option<EdnValue>, p: seq<EdnValue>, q: seq<EdnValue>)
    ensures GetInFrom(current, p + q) == GetInFrom(GetInFrom(current, p), q)
    decreases |p|
  {
    if p == [] {
      assert p + q == q;
    } else {
      assert (p + q)[0] == p[0] && (p + q)[1..] == p[1..] + q;
      GetInAppend(if current.Some? then Get(current.value, p[0]) else None, p[1..], q);
    }
  }

  lemma GetInSingle(v: EdnValue, k: EdnValue)
    ensures GetIn(v, [k]) == Get(v, k)
  {
    assert [k][1..] == [];
    assert GetIn(v, [k]) == GetInFrom(Get(v, k), []);
  }
}
