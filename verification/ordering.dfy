/**
  The precomputation of Solve::new in rust/src/lib.rs: which objects enter
  the search, in which order, and the suffix sums of their values that bound
  what the rest of the search can still add.
 */
module Ordering {
  import opened Packing

  /** Indices of the objects whose every extent fits the container, in input order. */
  function Feasible(items: seq<Item>, lim: Limit): (r: seq<nat>)
    ensures StrictlyIncreasing(r) && IndicesBelow(r, |items|)
    ensures forall j: nat :: j in r <==> j < |items| && FitsIn(lim, items[j])
  {
    Ascending(|items|, (j: nat) => j < |items| && FitsIn(lim, items[j]))
  }

  /** Object i is searched before object j: higher value first, equal values in input order. */
  predicate Precedes(items: seq<Item>, i: nat, j: nat)
    requires i < |items| && j < |items|
  {
    items[i].value > items[j].value || (items[i].value == items[j].value && i < j)
  }

  predicate RankSorted(items: seq<Item>, s: seq<nat>)
    requires IndicesBelow(s, |items|)
  {
    forall p, q :: 0 <= p < q < |s| ==> Precedes(items, s[p], s[q])
  }

  /** Inserts i, larger than every index in s, after every entry of s whose value is at least i's. */
  function Insert(items: seq<Item>, s: seq<nat>, i: nat): (r: seq<nat>)
    requires IndicesBelow(s, |items|) && i < |items|
    requires RankSorted(items, s)
    requires forall k :: 0 <= k < |s| ==> s[k] < i
    ensures IndicesBelow(r, |items|) && |r| == |s| + 1
    ensures forall j :: j in r <==> j in s || j == i
    ensures RankSorted(items, r)
  {
    if |s| == 0 then [i]
    else if items[s[0]].value >= items[i].value then
      var rest := Insert(items, s[1..], i);
      forall k | 0 <= k < |rest|
        ensures Precedes(items, s[0], rest[k])
      {
        assert rest[k] in s[1..] || rest[k] == i;
        assert forall m :: 1 <= m < |s| ==> Precedes(items, s[0], s[m]);
      }
      [s[0]] + rest
    else [i] + s
  }

  /**
    Stable sort of s by non-increasing value. Because s is in increasing
    index order, stability means equal values stay in index order.
   */
  function SortByValue(items: seq<Item>, s: seq<nat>): (r: seq<nat>)
    requires IndicesBelow(s, |items|) && StrictlyIncreasing(s)
    ensures IndicesBelow(r, |items|) && |r| == |s|
    ensures forall j :: j in r <==> j in s
    ensures RankSorted(items, r)
  {
    if |s| == 0 then []
    else
      var init := s[..|s| - 1];
      var sorted := SortByValue(items, init);
      assert forall k :: 0 <= k < |sorted| ==> sorted[k] in init;
      Insert(items, sorted, s[|s| - 1])
  }

  /** The order in which the branch-and-bound search considers objects. */
  function SearchOrder(items: seq<Item>, lim: Limit): (r: seq<nat>)
    ensures IndicesBelow(r, |items|)
    ensures forall j: nat :: j in r <==> j < |items| && FitsIn(lim, items[j])
    ensures RankSorted(items, r)
  {
    SortByValue(items, Feasible(items, lim))
  }

  lemma RankSortedDistinct(items: seq<Item>, s: seq<nat>)
    requires IndicesBelow(s, |items|) && RankSorted(items, s)
    ensures Distinct(s)
  {
  }

  /**
    A value-ranked sequence is determined by its elements: any stable sort of
    the feasible indices yields exactly the search order.
   */
  lemma {:induction false} RankSortedUnique(items: seq<Item>, r1: seq<nat>, r2: seq<nat>)
    requires IndicesBelow(r1, |items|) && IndicesBelow(r2, |items|)
    requires RankSorted(items, r1) && RankSorted(items, r2)
    requires forall j :: j in r1 <==> j in r2
    ensures r1 == r2
    decreases |r1| + |r2|
  {
    if |r1| == 0 || |r2| == 0 {
      SameEmpty(r1, r2);
    } else {
      var a, b := r1[0], r2[0];
      assert a in r1 && b in r2;
      var q :| 0 <= q < |r2| && r2[q] == a;
      var p :| 0 <= p < |r1| && r1[p] == b;
      assert a == b;
      RankSortedDistinct(items, r1);
      RankSortedDistinct(items, r2);
      forall j
        ensures j in r1[1..] <==> j in r2[1..]
      {
        assert j in r1[1..] <==> j in r1 && j != a;
        assert j in r2[1..] <==> j in r2 && j != b;
      }
      RankSortedUnique(items, r1[1..], r2[1..]);
      assert r1 == [a] + r1[1..] && r2 == [b] + r2[1..];
    }
  }

  lemma SameEmpty(r1: seq<nat>, r2: seq<nat>)
    requires forall j :: j in r1 <==> j in r2
    ensures |r1| == 0 <==> |r2| == 0
  {
    if |r1| > 0 {
      assert r1[0] in r2;
    }
    if |r2| > 0 {
      assert r2[0] in r1;
    }
  }

  /**
    suffix_values: entry p is the total value of the objects at positions p
    and beyond of the search order; the last entry is 0.
   */
  method SuffixValues(items: seq<Item>, order: seq<nat>) returns (suffix: seq<nat>)
    requires IndicesBelow(order, |items|)
    ensures |suffix| == |order| + 1
    ensures suffix[|order|] == 0
    ensures forall p :: 0 <= p <= |order| ==> suffix[p] == SumOf(items, order[p..])
  {
    suffix := seq(|order| + 1, _ => 0);
    var pos := |order|;
    while pos > 0
      invariant 0 <= pos <= |order| && |suffix| == |order| + 1
      invariant forall p :: pos <= p <= |order| ==> suffix[p] == SumOf(items, order[p..])
    {
      pos := pos - 1;
      assert order[pos..][1..] == order[pos + 1..];
      suffix := suffix[pos := suffix[pos + 1] + items[order[pos]].value];
    }
  }
}
