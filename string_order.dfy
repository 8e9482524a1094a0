/**
 * The ordering of Rust's `String` and the sort `Vec<String>::sort`
 * performs, which the compact printer applies to the texts of a set's
 * elements.  Strings compare lexicographically by code point, which is the
 * byte order of their UTF-8 encodings.  Sorting by a total order has only
 * one result, so the sort is modelled as an insertion sort.
 */
module StringOrder {

  predicate Le(a: string, b: string)
  {
    a == [] || (b != [] && (a[0] < b[0] || (a[0] == b[0] && Le(a[1..], b[1..]))))
  }

  lemma {:induction false} LeTotal(a: string, b: string)
    ensures Le(a, b) || Le(b, a)
  {
    if a != [] && b != [] && a[0] == b[0] {
      LeTotal(a[1..], b[1..]);
    }
  }

  lemma {:induction false} LeTrans(a: string, b: string, c: string)
    requires Le(a, b) && Le(b, c)
    ensures Le(a, c)
  {
    if a != [] && a[0] == b[0] && b[0] == c[0] {
      LeTrans(a[1..], b[1..], c[1..]);
    }
  }

  lemma {:induction false} LeAntisymmetric(a: string, b: string)
    requires Le(a, b) && Le(b, a)
    ensures a == b
  {
    if a != [] {
      LeAntisymmetric(a[1..], b[1..]);
      assert a == [a[0]] + a[1..] && b == [b[0]] + b[1..];
    }
  }

  /** Each element is at most the next one. */
  predicate Sorted(xs: seq<string>)
  {
    |xs| < 2 || (Le(xs[0], xs[1]) && Sorted(xs[1..]))
  }

  /** The first element of a sorted sequence is at most every element. */
  lemma {:induction false} SortedHead(xs: seq<string>, k: nat)
    requires Sorted(xs) && k < |xs|
    ensures Le(xs[0], xs[k])
  {
    if k == 0 {
      LeReflexive(xs[0]);
    } else if k > 1 {
      SortedHead(xs[1..], k - 1);
      LeTrans(xs[0], xs[1], xs[k]);
    }
  }

  lemma {:induction false} LeReflexive(a: string)
    ensures Le(a, a)
  {
    if a != [] {
      LeReflexive(a[1..]);
    }
  }

  function Insert(x: string, xs: seq<string>): seq<string>
  {
    if xs == [] then [x]
    else if Le(x, xs[0]) then [x] + xs
    else [xs[0]] + Insert(x, xs[1..])
  }

  function Sort(xs: seq<string>): seq<string>
  {
    if xs == [] then [] else Insert(xs[0], Sort(xs[1..]))
  }

  /** Inserting adds exactly the new element. */
  lemma {:induction false} InsertElements(x: string, xs: seq<string>)
    ensures multiset(Insert(x, xs)) == multiset(xs) + multiset{x}
  {
    if xs != [] && !Le(x, xs[0]) {
      InsertElements(x, xs[1..]);
      assert xs == [xs[0]] + xs[1..];
    }
  }

  /** Inserting into a sorted sequence keeps it sorted. */
  lemma {:induction false} InsertSorted(x: string, xs: seq<string>)
    requires Sorted(xs)
    ensures Sorted(Insert(x, xs)) && |Insert(x, xs)| == |xs| + 1
    ensures Insert(x, xs)[0] == x || Insert(x, xs)[0] == xs[0]
  {
    if xs != [] && !Le(x, xs[0]) {
      InsertSorted(x, xs[1..]);
      LeTotal(x, xs[0]);
      assert Insert(x, xs) == [xs[0]] + Insert(x, xs[1..]);
    }
  }

  /** The sort orders its input and keeps every element as often as it occurs. */
  lemma {:induction false} SortSpec(xs: seq<string>)
    ensures Sorted(Sort(xs)) && multiset(Sort(xs)) == multiset(xs)
  {
    if xs != [] {
      var rest := Sort(xs[1..]);
      SortSpec(xs[1..]);
      InsertSorted(xs[0], rest);
      InsertElements(xs[0], rest);
      assert Sort(xs) == Insert(xs[0], rest);
      assert multiset(xs) == multiset(xs[1..]) + multiset{xs[0]} by {
        assert xs == [xs[0]] + xs[1..];
      }
    }
  }

  /** Two sorted sequences holding the same elements are equal. */
  lemma {:induction false} SortedUnique(xs: seq<string>, ys: seq<string>)
    requires Sorted(xs) && Sorted(ys) && multiset(xs) == multiset(ys)
    ensures xs == ys
  {
    if xs == [] {
      assert |ys| == |multiset(ys)|;
    } else {
      SameHead(xs, ys);
      SameTail(xs, ys);
      SortedUnique(xs[1..], ys[1..]);
      assert xs == [xs[0]] + xs[1..] && ys == [ys[0]] + ys[1..];
    }
  }

  lemma SameHead(xs: seq<string>, ys: seq<string>)
    requires Sorted(xs) && Sorted(ys) && multiset(xs) == multiset(ys) && xs != []
    ensures ys != [] && xs[0] == ys[0]
  {
    assert xs[0] in multiset(ys);
    assert ys[0] in multiset(xs);
    var i :| 0 <= i < |ys| && ys[i] == xs[0];
    var j :| 0 <= j < |xs| && xs[j] == ys[0];
    SortedHead(ys, i);
    SortedHead(xs, j);
    LeAntisymmetric(xs[0], ys[0]);
  }

  lemma SameTail(xs: seq<string>, ys: seq<string>)
    requires xs != [] && ys != [] && xs[0] == ys[0] && multiset(xs) == multiset(ys)
    ensures multiset(xs[1..]) == multiset(ys[1..])
  {
    assert xs == [xs[0]] + xs[1..] && ys == [ys[0]] + ys[1..];
    assert multiset(xs) == multiset{xs[0]} + multiset(xs[1..]);
    assert multiset(ys) == multiset{ys[0]} + multiset(ys[1..]);
    assert forall z :: multiset(xs[1..])[z] == multiset(xs)[z] - (if z == xs[0] then 1 else 0);
    assert forall z :: multiset(ys[1..])[z] == multiset(ys)[z] - (if z == ys[0] then 1 else 0);
  }

  /** The sort's result depends only on the elements, not on the order they come in. */
  lemma SortDeterministic(xs: seq<string>, ys: seq<string>)
    requires multiset(xs) == multiset(ys)
    ensures Sort(xs) == Sort(ys)
  {
    SortSpec(xs);
    SortSpec(ys);
    SortedUnique(Sort(xs), Sort(ys));
  }
}
