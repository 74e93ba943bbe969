/** Python's `sorted` and `list.sort`: a stable sort by a given order, and the order of strings. */
module Sorting {
  /** Lexicographic order by code point. */
  predicate AtMost(a: string, b: string)
    decreases |a|
  {
    a == [] || (b != [] && (a[0] < b[0] || (a[0] == b[0] && AtMost(a[1..], b[1..]))))
  }

  /** One string comes before another when it begins it, or is smaller where they first differ. */
  lemma {:induction false} AtMostIff(a: string, b: string)
    ensures AtMost(a, b) <==>
            a <= b || exists i :: DiffersAt(a, b, i)
    decreases |a|
  {
    if a != [] && b != [] {
      if a[0] == b[0] {
        AtMostIff(a[1..], b[1..]);
        DiffersLater(a, b);
      } else {
        DiffersAtOnce(a, b);
      }
    }
  }

  predicate DiffersAt(a: string, b: string, i: int) {
    0 <= i < |a| && i < |b| && a[..i] == b[..i] && a[i] < b[i]
  }

  lemma DiffersAtOnce(a: string, b: string)
    requires a != [] && b != [] && a[0] != b[0]
    ensures (exists i :: DiffersAt(a, b, i)) <==> a[0] < b[0]
  {
    if a[0] < b[0] {
      assert DiffersAt(a, b, 0);
    }
  }

  lemma DiffersLater(a: string, b: string)
    requires a != [] && b != [] && a[0] == b[0]
    ensures a <= b <==> a[1..] <= b[1..]
    ensures (exists i :: DiffersAt(a, b, i)) <==> exists i :: DiffersAt(a[1..], b[1..], i)
  {
    assert a == [a[0]] + a[1..] && b == [b[0]] + b[1..];
    if i :| DiffersAt(a, b, i) {
      assert a[1..][..i - 1] == a[..i][1..] == b[..i][1..] == b[1..][..i - 1];
      assert DiffersAt(a[1..], b[1..], i - 1);
    }
    if i :| DiffersAt(a[1..], b[1..], i) {
      assert a[..i + 1] == [a[0]] + a[1..][..i] && b[..i + 1] == [b[0]] + b[1..][..i];
      assert DiffersAt(a, b, i + 1);
    }
  }

  lemma {:induction false} Total(a: string, b: string)
    ensures AtMost(a, b) || AtMost(b, a)
    decreases |a|
  {
    if a != [] && b != [] && a[0] == b[0] {
      Total(a[1..], b[1..]);
    }
  }

  lemma {:induction false} Transitive(a: string, b: string, c: string)
    requires AtMost(a, b) && AtMost(b, c)
    ensures AtMost(a, c)
    decreases |a|
  {
    if a != [] && a[0] == b[0] && b[0] == c[0] {
      Transitive(a[1..], b[1..], c[1..]);
    }
  }

  function Placed<T>(le: (T, T) -> bool, x: T, sorted: seq<T>): seq<T>
    decreases |sorted|
  {
    if sorted == [] || le(x, sorted[0]) then [x] + sorted else [sorted[0]] + Placed(le, x, sorted[1..])
  }

  function SortedBy<T>(le: (T, T) -> bool, xs: seq<T>): seq<T>
    decreases |xs|
  {
    if xs == [] then [] else Placed(le, xs[0], SortedBy(le, xs[1..]))
  }

  function Sorted(ids: seq<string>): seq<string> { SortedBy(AtMost, ids) }

  predicate InOrder<T>(le: (T, T) -> bool, xs: seq<T>) { forall i, j :: 0 <= i < j < |xs| ==> le(xs[i], xs[j]) }

  ghost predicate IsTotalOrder<T(!new)>(le: (T, T) -> bool) {
    && (forall a, b :: le(a, b) || le(b, a))
    && (forall a, b, c :: le(a, b) && le(b, c) ==> le(a, c))
  }

  lemma {:induction false} PlacedIsAPermutation<T>(le: (T, T) -> bool, x: T, sorted: seq<T>)
    ensures multiset(Placed(le, x, sorted)) == multiset(sorted) + multiset{x}
    decreases |sorted|
  {
    if sorted != [] {
      assert sorted == [sorted[0]] + sorted[1..];
      PlacedIsAPermutation(le, x, sorted[1..]);
    }
  }

  /** Sorting keeps every element exactly as often as it was there. */
  lemma {:induction false} SortedIsAPermutation<T>(le: (T, T) -> bool, xs: seq<T>)
    ensures multiset(SortedBy(le, xs)) == multiset(xs)
    decreases |xs|
  {
    if xs != [] {
      assert xs == [xs[0]] + xs[1..];
      SortedIsAPermutation(le, xs[1..]);
      PlacedIsAPermutation(le, xs[0], SortedBy(le, xs[1..]));
    }
  }

  lemma SortedHasTheSame<T>(le: (T, T) -> bool, xs: seq<T>)
    ensures |SortedBy(le, xs)| == |xs|
    ensures forall x :: x in SortedBy(le, xs) <==> x in xs
  {
    SortedIsAPermutation(le, xs);
    assert |multiset(SortedBy(le, xs))| == |multiset(xs)|;
    forall x ensures x in SortedBy(le, xs) <==> x in xs {
      assert x in SortedBy(le, xs) <==> x in multiset(SortedBy(le, xs));
      assert x in xs <==> x in multiset(xs);
    }
  }

  lemma {:induction false} PlacedKeepsOrder<T(!new)>(le: (T, T) -> bool, x: T, sorted: seq<T>)
    requires IsTotalOrder(le) && InOrder(le, sorted)
    ensures InOrder(le, Placed(le, x, sorted))
    decreases |sorted|
  {
    if sorted != [] && !le(x, sorted[0]) {
      var rest := sorted[1..];
      PlacedKeepsOrder(le, x, rest);
      PlacedIsAPermutation(le, x, rest);
      var placed := Placed(le, x, rest);
      forall k | 0 <= k < |placed| ensures le(sorted[0], placed[k]) {
        assert placed[k] in multiset(placed);
        assert placed[k] == x || placed[k] in rest;
      }
    }
  }

  /** Under a total order the result is in order. */
  lemma {:induction false} SortedIsInOrder<T(!new)>(le: (T, T) -> bool, xs: seq<T>)
    requires IsTotalOrder(le)
    ensures InOrder(le, SortedBy(le, xs))
    decreases |xs|
  {
    if xs != [] {
      SortedIsInOrder(le, xs[1..]);
      PlacedKeepsOrder(le, xs[0], SortedBy(le, xs[1..]));
    }
  }

  lemma StringsAreTotallyOrdered()
    ensures IsTotalOrder(AtMost)
  {
    forall a, b ensures AtMost(a, b) || AtMost(b, a) {
      Total(a, b);
    }
    forall a, b, c | AtMost(a, b) && AtMost(b, c) ensures AtMost(a, c) {
      Transitive(a, b, c);
    }
  }
}
