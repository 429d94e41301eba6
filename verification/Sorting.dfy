/** Sorting as the library does it: a sorted rearrangement, with no promise about ties. */
module Sorting {

  /** What a comparator looks at, most significant first; smaller ranks come first. */
  datatype Rank = Rank(first: int, second: int, third: int)

  datatype Ranked<T> = Ranked(rank: Rank, item: T)

  predicate Leq(a: Rank, b: Rank) {
    || a.first < b.first
    || (a.first == b.first && a.second < b.second)
    || (a.first == b.first && a.second == b.second && a.third <= b.third)
  }

  ghost predicate Sorted<T>(xs: seq<Ranked<T>>) {
    forall i, j | 0 <= i < j < |xs| :: Leq(xs[i].rank, xs[j].rank)
  }

  ghost predicate NoDuplicates<T>(xs: seq<T>) {
    forall i, j | 0 <= i < j < |xs| :: xs[i] != xs[j]
  }

  lemma RearrangedNoDuplicates<T>(xs: seq<T>, ys: seq<T>)
    requires multiset(xs) == multiset(ys) && NoDuplicates(xs)
    ensures NoDuplicates(ys)
  {
    forall i, j | 0 <= i < j < |ys|
      ensures ys[i] != ys[j]
    {
      if ys[i] == ys[j] {
        assert ys == ys[..i] + [ys[i]] + ys[i + 1..j] + [ys[j]] + ys[j + 1..];
        assert multiset(ys)[ys[i]] >= 2;
        CountsOnce(xs, ys[i]);
      }
    }
  }

  lemma {:induction false} CountsOnce<T>(xs: seq<T>, x: T)
    requires NoDuplicates(xs)
    ensures multiset(xs)[x] <= 1
  {
    if xs != [] {
      var last := |xs| - 1;
      CountsOnce(xs[..last], x);
      assert xs == xs[..last] + [xs[last]];
    }
  }

  lemma InsertSorted<T>(ys: seq<Ranked<T>>, i: nat, x: Ranked<T>)
    requires Sorted(ys) && i <= |ys|
    requires forall k | 0 <= k < i :: Leq(ys[k].rank, x.rank)
    requires i < |ys| ==> !Leq(ys[i].rank, x.rank)
    ensures Sorted(ys[..i] + [x] + ys[i..])
  {
    assert forall k | i <= k < |ys| :: Leq(ys[i].rank, ys[k].rank) && Leq(x.rank, ys[k].rank);
  }

  method Sort<T>(xs: seq<Ranked<T>>) returns (ys: seq<Ranked<T>>)
    ensures Sorted(ys) && multiset(ys) == multiset(xs)
    ensures forall x :: x in ys <==> x in xs
    ensures NoDuplicates(xs) ==> NoDuplicates(ys)
  {
    ys := [];
    for n := 0 to |xs|
      invariant Sorted(ys) && multiset(ys) == multiset(xs[..n])
    {
      var i := 0;
      while i < |ys| && Leq(ys[i].rank, xs[n].rank)
        invariant i <= |ys| && forall k | 0 <= k < i :: Leq(ys[k].rank, xs[n].rank)
      {
        i := i + 1;
      }
      InsertSorted(ys, i, xs[n]);
      assert ys == ys[..i] + ys[i..] && xs[..n + 1] == xs[..n] + [xs[n]];
      ys := ys[..i] + [xs[n]] + ys[i..];
    }
    assert xs[..|xs|] == xs;
    if NoDuplicates(xs) {
      RearrangedNoDuplicates(xs, ys);
    }
    assert forall x :: x in ys <==> x in multiset(ys);
    assert forall x :: x in xs <==> x in multiset(xs);
  }

  /** The positions from which a rearrangement takes its elements. */
  ghost predicate Takes<T>(items: seq<T>, ranks: seq<Rank>, x: T, r: Rank)
    requires |items| == |ranks|
  {
    exists k :: 0 <= k < |items| && items[k] == x && ranks[k] == r
  }

  /** Sorts distinct items by their ranks. */
  method SortItems<T>(items: seq<T>, ranks: seq<Rank>) returns (sorted: seq<T>, ghost order: seq<Rank>)
    requires |items| == |ranks| && NoDuplicates(items)
    ensures |sorted| == |order| && NoDuplicates(sorted)
    ensures forall x | x in items :: x in sorted
    ensures forall i | 0 <= i < |sorted| :: Takes(items, ranks, sorted[i], order[i])
    ensures forall i, j | 0 <= i < j < |order| :: Leq(order[i], order[j])
  {
    var ranked := seq(|items|, k requires 0 <= k < |items| => Ranked(ranks[k], items[k]));
    var ys := Sort(ranked);
    sorted := seq(|ys|, k requires 0 <= k < |ys| => ys[k].item);
    order := seq(|ys|, k requires 0 <= k < |ys| => ys[k].rank);
    forall i | 0 <= i < |ys|
      ensures Takes(items, ranks, sorted[i], order[i])
    {
      assert ys[i] in ys && ys[i] in ranked;
      var k :| 0 <= k < |ranked| && ranked[k] == ys[i];
      assert items[k] == sorted[i] && ranks[k] == order[i];
    }
    forall x | x in items
      ensures x in sorted
    {
      var k :| 0 <= k < |items| && items[k] == x;
      assert ranked[k] in ranked && ranked[k] in ys;
      var i :| 0 <= i < |ys| && ys[i] == ranked[k];
      assert sorted[i] == x;
    }
    ItemsDistinct(ranked, items, ys, sorted);
  }

  lemma ItemsDistinct<T>(ranked: seq<Ranked<T>>, items: seq<T>, ys: seq<Ranked<T>>, sorted: seq<T>)
    requires |ranked| == |items| && forall k | 0 <= k < |items| :: ranked[k].item == items[k]
    requires |sorted| == |ys| && forall k | 0 <= k < |ys| :: sorted[k] == ys[k].item
    requires NoDuplicates(items) && multiset(ys) == multiset(ranked)
    ensures NoDuplicates(sorted)
  {
    RearrangedNoDuplicates(ranked, ys);
    forall i, j | 0 <= i < j < |sorted|
      ensures sorted[i] != sorted[j]
    {
      assert ys[i] in multiset(ranked) && ys[j] in multiset(ranked);
      var k :| 0 <= k < |ranked| && ranked[k] == ys[i];
      var m :| 0 <= m < |ranked| && ranked[m] == ys[j];
      assert k != m;
      assert items[k] != items[m];
    }
  }
}
