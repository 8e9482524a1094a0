/**
 * Operations the tree-walking evaluator, the builtin table and the virtual
 * machine each carry an identical copy of: the ordering used by `<`, `>`,
 * `<=` and `>=`, the `select-keys` loop and the `frequencies` loop.
 */
module CoreOps {
  import opened Errors
  import opened Value

  // ---------------------------------------------------------------------
  // Ordering

  /** Lexicographic order on strings, by code point, as -1, 0 or 1. */
  function CompareStrings(a: string, b: string): (c: int)
    ensures c == -1 || c == 0 || c == 1
    ensures c == 0 <==> a == b
  {
    if a == [] then (if b == [] then 0 else -1)
    else if b == [] then 1
    else if a[0] < b[0] then -1
    else if a[0] > b[0] then 1
    else CompareStrings(a[1..], b[1..])
  }

  lemma {:induction false} CompareStringsAntisymmetric(a: string, b: string)
    ensures CompareStrings(a, b) == -CompareStrings(b, a)
  {
    if a != [] && b != [] && a[0] == b[0] {
      CompareStringsAntisymmetric(a[1..], b[1..]);
    }
  }

  /** A proper prefix sorts first. */
  lemma {:induction false} CompareStringsPrefix(a: string, b: string)
    requires a < b
    ensures CompareStrings(a, b) == -1
  {
    if a != [] {
      assert a[1..] < b[1..];
      CompareStringsPrefix(a[1..], b[1..]);
    }
  }

  lemma {:induction false} CompareStringsTransitive(a: string, b: string, c: string)
    requires CompareStrings(a, b) == -1 && CompareStrings(b, c) == -1
    ensures CompareStrings(a, c) == -1
  {
    if a != [] && b != [] && c != [] && a[0] == b[0] && b[0] == c[0] {
      CompareStringsTransitive(a[1..], b[1..], c[1..]);
    }
  }

  predicate IsNumber(v: EdnValue)
  {
    v.Integer? || v.Float?
  }

  /**
   * `compare_values`: integers by value, strings lexicographically; a pair
   * with a float, which this model keeps opaque, is not ordered here; any
   * other pair is a type error naming both types.
   */
  function CompareValues(l: EdnValue, r: EdnValue): (res: Result<int>)
    ensures res.Ok? ==> res.value == -1 || res.value == 0 || res.value == 1
    ensures res.Ok? <==> (l.Integer? && r.Integer?) || (l.Str? && r.Str?)
    ensures l.Integer? && r.Integer? ==> (res.value < 0 <==> l.i < r.i) && (res.value == 0 <==> l.i == r.i)
    ensures l.Str? && r.Str? ==> res.value == CompareStrings(l.s, r.s)
    ensures IsNumber(l) && IsNumber(r) && (l.Float? || r.Float?) ==> res == Err(Unmodelled("float comparison"))
    ensures !(IsNumber(l) && IsNumber(r)) && !(l.Str? && r.Str?) ==>
      res == Err(TypeError("comparable types", TypeName(l) + " and " + TypeName(r)))
  {
    if l.Integer? && r.Integer? then Ok(if l.i < r.i then -1 else if l.i > r.i then 1 else 0)
    else if l.Str? && r.Str? then Ok(CompareStrings(l.s, r.s))
    else if IsNumber(l) && IsNumber(r) then Err(Unmodelled("float comparison"))
    else Err(TypeError("comparable types", TypeName(l) + " and " + TypeName(r)))
  }

  /** Swapping the operands negates the outcome; an error stays an error. */
  lemma CompareValuesAntisymmetric(l: EdnValue, r: EdnValue)
    ensures CompareValues(l, r).Ok? <==> CompareValues(r, l).Ok?
    ensures CompareValues(l, r).Ok? ==> CompareValues(l, r).value == -CompareValues(r, l).value
  {
    if l.Str? && r.Str? {
      CompareStringsAntisymmetric(l.s, r.s);
    }
  }

  /** An ordered pair compares as equal exactly when the values are equal. */
  lemma CompareValuesZeroIffEqual(l: EdnValue, r: EdnValue)
    requires CompareValues(l, r).Ok?
    ensures CompareValues(l, r).value == 0 <==> l == r
  {
  }

  // ---------------------------------------------------------------------
  // First occurrences

  /** The elements of `s` in order of first occurrence, each once. */
  function Distinct(s: seq<EdnValue>): seq<EdnValue>
  {
    if s == [] then []
    else
      var d := Distinct(s[..|s| - 1]);
      if s[|s| - 1] in d then d else d + [s[|s| - 1]]
  }

  /** Extending a prefix by one item appends that item unless it was seen before. */
  lemma DistinctPrefix(items: seq<EdnValue>, n: nat)
    requires 0 < n <= |items|
    ensures Distinct(items[..n]) == if items[n - 1] in Distinct(items[..n - 1]) then Distinct(items[..n - 1])
      else Distinct(items[..n - 1]) + [items[n - 1]]
  {
    assert items[..n][..n - 1] == items[..n - 1];
  }

  /** `Distinct` keeps exactly the elements of `s`, with no repetition. */
  lemma {:induction false} DistinctSpec(s: seq<EdnValue>)
    ensures forall x :: x in Distinct(s) <==> x in s
    ensures forall i, j :: 0 <= i < j < |Distinct(s)| ==> Distinct(s)[i] != Distinct(s)[j]
  {
    if s != [] {
      DistinctSpec(s[..|s| - 1]);
      assert s == s[..|s| - 1] + [s[|s| - 1]];
    }
  }

  /** The listed keys that occur in `source`, in list order. */
  function PresentKeys(source: seq<(EdnValue, EdnValue)>, keys: seq<EdnValue>): (p: seq<EdnValue>)
    ensures forall k :: k in p <==> k in keys && k in MapKeys(source)
  {
    if keys == [] then []
    else
      var k := keys[|keys| - 1];
      assert keys == keys[..|keys| - 1] + [k];
      PresentKeys(source, keys[..|keys| - 1]) + (if k in MapKeys(source) then [k] else [])
  }

  // ---------------------------------------------------------------------
  // select-keys

  /** The map `select-keys` builds: each listed key found in `source` is inserted, in list order. */
  function SelectKeys(source: seq<(EdnValue, EdnValue)>, keys: seq<EdnValue>): seq<(EdnValue, EdnValue)>
  {
    if keys == [] then []
    else
      var prefix := SelectKeys(source, keys[..|keys| - 1]);
      var k := keys[|keys| - 1];
      match MapLookup(source, k)
      case Some(v) => MapInsert(prefix, k, v)
      case None => prefix
  }

  /** The source's loop over the key list. */
  method SelectKeysLoop(source: seq<(EdnValue, EdnValue)>, keys: seq<EdnValue>) returns (result: seq<(EdnValue, EdnValue)>)
    ensures result == SelectKeys(source, keys)
  {
    result := [];
    var i := 0;
    while i < |keys|
      invariant 0 <= i <= |keys|
      invariant result == SelectKeys(source, keys[..i])
    {
      assert keys[..i + 1][..i] == keys[..i];
      var found := MapLookup(source, keys[i]);
      if found.Some? {
        result := MapInsert(result, keys[i], found.value);
      }
      i := i + 1;
    }
    assert keys[..i] == keys;
  }

  /** A key is in the selection exactly when it is listed and present, and it keeps its value. */
  lemma {:induction false} SelectKeysLookup(source: seq<(EdnValue, EdnValue)>, keys: seq<EdnValue>, k: EdnValue)
    ensures MapLookup(SelectKeys(source, keys), k) == if k in keys then MapLookup(source, k) else None
  {
    if keys != [] {
      var init := keys[..|keys| - 1];
      var last := keys[|keys| - 1];
      assert keys == init + [last];
      SelectKeysLookup(source, init, k);
      var found := MapLookup(source, last);
      if found.Some? {
        MapInsertLookup(SelectKeys(source, init), last, found.value, k);
      }
    }
  }

  /** The selected keys are the listed keys that are present, in first-listed order. */
  lemma {:induction false} SelectKeysOrder(source: seq<(EdnValue, EdnValue)>, keys: seq<EdnValue>)
    ensures MapKeys(SelectKeys(source, keys)) == Distinct(PresentKeys(source, keys))
  {
    if keys != [] {
      var init := keys[..|keys| - 1];
      var last := keys[|keys| - 1];
      SelectKeysOrder(source, init);
      var prefix := SelectKeys(source, init);
      var found := MapLookup(source, last);
      MapLookupSpec(source, last);
      var p := PresentKeys(source, keys);
      if found.Some? {
        MapInsertKeys(prefix, last, found.value);
        assert p == PresentKeys(source, init) + [last];
        assert p[..|p| - 1] == PresentKeys(source, init);
      } else {
        assert p == PresentKeys(source, init);
      }
    }
  }

  lemma {:induction false} SelectKeysUnique(source: seq<(EdnValue, EdnValue)>, keys: seq<EdnValue>)
    ensures UniqueKeys(SelectKeys(source, keys))
  {
    if keys != [] {
      var init := keys[..|keys| - 1];
      SelectKeysUnique(source, init);
      var found := MapLookup(source, keys[|keys| - 1]);
      if found.Some? {
        MapInsertUnique(SelectKeys(source, init), keys[|keys| - 1], found.value);
      }
    }
  }

  // ---------------------------------------------------------------------
  // frequencies

  /** The count recorded for `x`, read with default 0 as the source does. */
  function CountOr0(freq: seq<(EdnValue, EdnValue)>, x: EdnValue): EdnValue
  {
    var found := MapLookup(freq, x);
    if found.Some? then found.value else Integer(0)
  }

  /** One step of the loop: an integer count for `x` is replaced by itself plus one. */
  function Bump(freq: seq<(EdnValue, EdnValue)>, x: EdnValue): seq<(EdnValue, EdnValue)>
  {
    var count := CountOr0(freq, x);
    if count.Integer? then MapInsert(freq, x, Integer(count.i + 1)) else freq
  }

  /** The table after the first `n` items, one `Bump` per item in order. */
  function CountsUpTo(items: seq<EdnValue>, n: nat): seq<(EdnValue, EdnValue)>
    requires n <= |items|
  {
    if n == 0 then [] else Bump(CountsUpTo(items, n - 1), items[n - 1])
  }

  /** The map `frequencies` builds. */
  function Frequencies(items: seq<EdnValue>): seq<(EdnValue, EdnValue)>
  {
    CountsUpTo(items, |items|)
  }

  /** The source's loop over the items. */
  method FrequenciesLoop(items: seq<EdnValue>) returns (freq: seq<(EdnValue, EdnValue)>)
    ensures freq == Frequencies(items)
  {
    freq := [];
    var i := 0;
    while i < |items|
      invariant 0 <= i <= |items|
      invariant freq == CountsUpTo(items, i)
    {
      var count := match MapLookup(freq, items[i]) case Some(c) => c case None => Integer(0);
      if count.Integer? {
        freq := MapInsert(freq, items[i], Integer(count.i + 1));
      }
      i := i + 1;
    }
  }

  /** Sum of the integer values of a map. */
  function SumCounts(es: seq<(EdnValue, EdnValue)>): int
  {
    if es == [] then 0 else (if es[0].1.Integer? then es[0].1.i else 0) + SumCounts(es[1..])
  }

  /** A table whose every value is an integer. */
  predicate AllIntegers(es: seq<(EdnValue, EdnValue)>)
  {
    forall i :: 0 <= i < |es| ==> es[i].1.Integer?
  }

  /** In a table of integer counts, the count of any key is an integer, zero when absent. */
  lemma CountIsInteger(freq: seq<(EdnValue, EdnValue)>, x: EdnValue)
    requires AllIntegers(freq)
    ensures CountOr0(freq, x).Integer?
    ensures MapLookup(freq, x).None? ==> CountOr0(freq, x) == Integer(0)
  {
    MapLookupSpec(freq, x);
    if MapLookup(freq, x).Some? {
      var i :| 0 <= i < |freq| && freq[i] == (x, MapLookup(freq, x).value);
    }
  }

  /** A step over an integer count of `x` records one more for `x` and changes no other count. */
  lemma BumpLookup(freq: seq<(EdnValue, EdnValue)>, x: EdnValue, y: EdnValue)
    requires CountOr0(freq, x).Integer?
    ensures MapLookup(Bump(freq, x), y) == if y == x then Some(Integer(CountOr0(freq, x).i + 1)) else MapLookup(freq, y)
  {
    MapInsertLookup(freq, x, Integer(CountOr0(freq, x).i + 1), y);
  }

  /** A step over an integer count inserts that count plus one. */
  lemma BumpInteger(freq: seq<(EdnValue, EdnValue)>, x: EdnValue)
    requires CountOr0(freq, x).Integer?
    ensures Bump(freq, x) == MapInsert(freq, x, Integer(CountOr0(freq, x).i + 1))
  {
  }

  /** Each entry after an insert is the new pair or an old entry. */
  lemma {:induction false} MapInsertShape(es: seq<(EdnValue, EdnValue)>, k: EdnValue, v: EdnValue, i: nat)
    requires i < |MapInsert(es, k, v)|
    ensures MapInsert(es, k, v)[i] == (k, v) || MapInsert(es, k, v)[i] in es
  {
    if es != [] && es[0].0 != k && i > 0 {
      MapInsertShape(es[1..], k, v, i - 1);
    }
  }

  /** A step keeps a table of integer counts a table of integer counts. */
  lemma BumpIntegers(freq: seq<(EdnValue, EdnValue)>, x: EdnValue)
    requires AllIntegers(freq)
    ensures AllIntegers(Bump(freq, x))
  {
    CountIsInteger(freq, x);
    var v := Integer(CountOr0(freq, x).i + 1);
    var r := MapInsert(freq, x, v);
    forall i | 0 <= i < |r| ensures r[i].1.Integer? {
      MapInsertShape(freq, x, v, i);
    }
  }

  lemma {:induction false} SumCountsInsert(es: seq<(EdnValue, EdnValue)>, k: EdnValue, n: int)
    requires AllIntegers(es)
    ensures MapLookup(es, k).Some? ==> (MapLookup(es, k).value.Integer? &&
      SumCounts(MapInsert(es, k, Integer(n))) == SumCounts(es) - MapLookup(es, k).value.i + n)
    ensures MapLookup(es, k).None? ==> SumCounts(MapInsert(es, k, Integer(n))) == SumCounts(es) + n
  {
    if es != [] {
      if es[0].0 == k {
        assert MapInsert(es, k, Integer(n))[1..] == es[1..];
      } else {
        SumCountsInsert(es[1..], k, n);
        assert MapInsert(es, k, Integer(n))[1..] == MapInsert(es[1..], k, Integer(n));
      }
    }
  }

  /** A step over a table of integer counts adds one to their sum. */
  lemma SumBump(freq: seq<(EdnValue, EdnValue)>, x: EdnValue)
    requires AllIntegers(freq)
    ensures SumCounts(Bump(freq, x)) == SumCounts(freq) + 1
  {
    CountIsInteger(freq, x);
    SumCountsInsert(freq, x, CountOr0(freq, x).i + 1);
  }

  /** Number of occurrences of `x` among the first `n` items. */
  function OccurrencesUpTo(items: seq<EdnValue>, n: nat, x: EdnValue): nat
    requires n <= |items|
  {
    if n == 0 then 0 else OccurrencesUpTo(items, n - 1, x) + (if items[n - 1] == x then 1 else 0)
  }

  function Occurrences(items: seq<EdnValue>, x: EdnValue): nat
  {
    OccurrencesUpTo(items, |items|, x)
  }

  /** The count is the multiplicity of `x`, and positive exactly for the items present. */
  lemma {:induction false} OccurrencesMeaning(items: seq<EdnValue>, n: nat, x: EdnValue)
    requires n <= |items|
    ensures OccurrencesUpTo(items, n, x) == multiset(items[..n])[x]
    ensures OccurrencesUpTo(items, n, x) > 0 <==> x in items[..n]
  {
    if n > 0 {
      OccurrencesMeaning(items, n - 1, x);
      assert items[..n] == items[..n - 1] + [items[n - 1]];
    }
  }

  /** The induction behind `FrequenciesCount`, phrased through the count alone. */
  lemma {:induction false} CountsLookup(items: seq<EdnValue>, n: nat, x: EdnValue)
    requires n <= |items|
    ensures MapLookup(CountsUpTo(items, n), x) ==
      if OccurrencesUpTo(items, n, x) > 0 then Some(Integer(OccurrencesUpTo(items, n, x))) else None
  {
    if n > 0 {
      CountsLookup(items, n - 1, x);
      CountsLookup(items, n - 1, items[n - 1]);
      BumpLookup(CountsUpTo(items, n - 1), items[n - 1], x);
    }
  }

  /** Every distinct item maps to its number of occurrences; nothing else is a key. */
  lemma FrequenciesCount(items: seq<EdnValue>, x: EdnValue)
    ensures MapLookup(Frequencies(items), x) == if x in items then Some(Integer(Occurrences(items, x))) else None
    ensures Occurrences(items, x) == multiset(items)[x]
  {
    CountsLookup(items, |items|, x);
    OccurrencesMeaning(items, |items|, x);
    assert items[..|items|] == items;
  }

  /** The keys are the distinct items in order of first occurrence. */
  lemma {:induction false} CountsKeys(items: seq<EdnValue>, n: nat)
    requires n <= |items|
    ensures MapKeys(CountsUpTo(items, n)) == Distinct(items[..n])
  {
    if n > 0 {
      var prefix := CountsUpTo(items, n - 1);
      var last := items[n - 1];
      CountsKeys(items, n - 1);
      CountsIntegers(items, n - 1);
      CountIsInteger(prefix, last);
      var v := Integer(CountOr0(prefix, last).i + 1);
      BumpInteger(prefix, last);
      MapInsertKeys(prefix, last, v);
      DistinctPrefix(items, n);
    }
  }

  lemma FrequenciesKeys(items: seq<EdnValue>)
    ensures MapKeys(Frequencies(items)) == Distinct(items)
  {
    CountsKeys(items, |items|);
    assert items[..|items|] == items;
  }

  lemma {:induction false} CountsIntegers(items: seq<EdnValue>, n: nat)
    requires n <= |items|
    ensures AllIntegers(CountsUpTo(items, n))
  {
    if n > 0 {
      CountsIntegers(items, n - 1);
      BumpIntegers(CountsUpTo(items, n - 1), items[n - 1]);
    }
  }

  /** The counts add up to the number of items. */
  lemma {:induction false} CountsSum(items: seq<EdnValue>, n: nat)
    requires n <= |items|
    ensures SumCounts(CountsUpTo(items, n)) == n
  {
    if n > 0 {
      CountsSum(items, n - 1);
      CountsIntegers(items, n - 1);
      SumBump(CountsUpTo(items, n - 1), items[n - 1]);
    }
  }

  lemma FrequenciesSum(items: seq<EdnValue>)
    ensures SumCounts(Frequencies(items)) == |items|
  {
    CountsSum(items, |items|);
  }
}
