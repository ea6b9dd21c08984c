/**
  Geometry of the 3-D knapsack: boxes, the container, unit cells, and what it
  means for a choice of boxes and origins to be a valid packing of maximum
  value. Both solvers (the branch-and-bound search and the exhaustive
  reference search) are proved against the definitions here.
 */
module Packing {

  datatype Option<T> = None | Some(value: T)

  /** A box as the search sees it: its extents along x, y, z and its value. */
  datatype Item = Item(x: nat, y: nat, z: nat, value: nat)

  /** The container; its cells are [0, x) × [0, y) × [0, z). */
  datatype Limit = Limit(x: nat, y: nat, z: nat)

  /** A unit cell, also used for the origin (minimum corner) of a placed box. */
  datatype Cell = Cell(x: nat, y: nat, z: nat)

  /** One entry per object: None when it is left out, Some(origin) when it is placed. */
  type Assignment = seq<Option<Cell>>

  predicate InContainer(lim: Limit, c: Cell) {
    c.x < lim.x && c.y < lim.y && c.z < lim.z
  }

  /** Box b with origin o covers cell c. */
  predicate Covers(b: Item, o: Cell, c: Cell) {
    o.x <= c.x < o.x + b.x && o.y <= c.y < o.y + b.y && o.z <= c.z < o.z + b.z
  }

  /** Box b with origin o lies inside the container. */
  predicate InLimit(lim: Limit, b: Item, o: Cell) {
    o.x + b.x <= lim.x && o.y + b.y <= lim.y && o.z + b.z <= lim.z
  }

  /** No extent of b exceeds the container's, so b fits at the origin (0, 0, 0). */
  predicate FitsIn(lim: Limit, b: Item) {
    b.x <= lim.x && b.y <= lim.y && b.z <= lim.z
  }

  /** Every extent is at least one, so the box covers at least its origin cell. */
  predicate Solid(b: Item) {
    b.x > 0 && b.y > 0 && b.z > 0
  }

  /** Every object that packing a places has positive extents. */
  predicate SolidPlaced(items: seq<Item>, a: Assignment) {
    forall i :: 0 <= i < |a| && i < |items| && a[i].Some? ==> Solid(items[i])
  }

  /** Every object small enough for the container has positive extents. */
  predicate FittingSolid(items: seq<Item>, lim: Limit) {
    forall i :: 0 <= i < |items| && FitsIn(lim, items[i]) ==> Solid(items[i])
  }

  /** Cell c comes before cell o in the x-major, then y, then z order in which both searches scan origins. */
  predicate LexBefore(c: Cell, o: Cell) {
    c.x < o.x || (c.x == o.x && (c.y < o.y || (c.y == o.y && c.z < o.z)))
  }

  /** No unit cell is covered by both boxes. */
  ghost predicate Disjoint(b1: Item, o1: Cell, b2: Item, o2: Cell) {
    forall c :: !(Covers(b1, o1, c) && Covers(b2, o2, c))
  }

  /** Every placed box lies inside the container and no two placed boxes share a cell. */
  ghost predicate Valid(items: seq<Item>, lim: Limit, a: Assignment) {
    && |a| == |items|
    && (forall i :: 0 <= i < |a| && a[i].Some? ==> InLimit(lim, items[i], a[i].value))
    && (forall i, j :: 0 <= i < |a| && 0 <= j < |a| && i != j && a[i].Some? && a[j].Some? ==>
          Disjoint(items[i], a[i].value, items[j], a[j].value))
  }

  /** Object v's box in packing a covers cell c. */
  ghost predicate Owns(items: seq<Item>, a: Assignment, v: int, c: Cell) {
    0 <= v < |a| && |a| == |items| && a[v].Some? && Covers(items[v], a[v].value, c)
  }

  /** Total value of the objects placed at index k and beyond. */
  function ValueFrom(items: seq<Item>, a: Assignment, k: nat): nat
    requires |a| == |items| && k <= |a|
    decreases |a| - k
  {
    if k == |a| then 0
    else (if a[k].Some? then items[k].value else 0) + ValueFrom(items, a, k + 1)
  }

  /** Total value of the placed objects. */
  function Value(items: seq<Item>, a: Assignment): nat
    requires |a| == |items|
  {
    ValueFrom(items, a, 0)
  }

  /** `v` is the largest value of any valid packing, and some valid packing reaches it. */
  ghost predicate Optimal(items: seq<Item>, lim: Limit, v: nat) {
    && (exists a :: Valid(items, lim, a) && Value(items, a) == v)
    && (forall a :: Valid(items, lim, a) ==> Value(items, a) <= v)
  }

  /** The optimum is unique. */
  lemma OptimalUnique(items: seq<Item>, lim: Limit, v: nat, w: nat)
    requires Optimal(items, lim, v) && Optimal(items, lim, w)
    ensures v == w
  {
    var a :| Valid(items, lim, a) && Value(items, a) == v;
    var b :| Valid(items, lim, b) && Value(items, b) == w;
  }

  /** The packing that places nothing. */
  function Nothing(n: nat): (a: Assignment)
    ensures |a| == n && forall i :: 0 <= i < n ==> a[i].None?
  {
    seq(n, _ => None)
  }

  predicate IndicesBelow(s: seq<nat>, n: nat) {
    forall k :: 0 <= k < |s| ==> s[k] < n
  }

  predicate Distinct(s: seq<nat>) {
    forall p, q :: 0 <= p < q < |s| ==> s[p] != s[q]
  }

  predicate StrictlyIncreasing(s: seq<nat>) {
    forall p, q :: 0 <= p < q < |s| ==> s[p] < s[q]
  }

  /** Sum of the values of the objects listed in s. */
  function SumOf(items: seq<Item>, s: seq<nat>): nat
    requires IndicesBelow(s, |items|)
  {
    if |s| == 0 then 0 else items[s[0]].value + SumOf(items, s[1..])
  }

  /** The entries of idxs whose object `a` places, in the order of idxs. */
  function Picked(a: Assignment, idxs: seq<nat>): (r: seq<nat>)
    requires IndicesBelow(idxs, |a|)
    ensures IndicesBelow(r, |a|)
    ensures forall k :: 0 <= k < |r| ==> r[k] in idxs && a[r[k]].Some?
  {
    if |idxs| == 0 then []
    else (if a[idxs[0]].Some? then [idxs[0]] else []) + Picked(a, idxs[1..])
  }

  /** The numbers below n for which `present` holds, in increasing order. */
  function Ascending(n: nat, present: nat -> bool): (r: seq<nat>)
    ensures StrictlyIncreasing(r)
    ensures IndicesBelow(r, n)
    ensures forall j: nat :: j in r <==> j < n && present(j)
  {
    if n == 0 then []
    else Ascending(n - 1, present) + (if present(n - 1) then [n - 1] else [])
  }

  /** Two conditions that agree below n select the same numbers. */
  lemma {:induction false} AscendingSame(n: nat, p: nat -> bool, q: nat -> bool)
    requires forall j: nat :: j < n ==> p(j) == q(j)
    ensures Ascending(n, p) == Ascending(n, q)
  {
    if n > 0 {
      AscendingSame(n - 1, p, q);
    }
  }

  // ---------------------------------------------------------------------------
  // Drawing a packing as a [z][x][y] grid of positions in a name list

  /** The objects of packing a that cover at least one cell of the container, ascending. */
  ghost function Visible(items: seq<Item>, lim: Limit, a: Assignment): (r: seq<nat>)
    ensures StrictlyIncreasing(r) && IndicesBelow(r, |items|)
    ensures forall j: nat :: j in r <==> j < |items| && exists c :: InContainer(lim, c) && Owns(items, a, j, c)
  {
    Ascending(|items|, (j: nat) => exists c :: InContainer(lim, c) && Owns(items, a, j, c))
  }

  /** A [z][x][y] grid with the container's extents. */
  predicate ZxyShape(grid: seq<seq<seq<int>>>, lim: Limit) {
    && |grid| == lim.z
    && (forall z :: 0 <= z < lim.z ==> |grid[z]| == lim.x)
    && (forall z, x :: 0 <= z < lim.z && 0 <= x < lim.x ==> |grid[z][x]| == lim.y)
  }

  /**
    grid draws packing a: each cell holds -1 when no box covers it, or else
    the position, among a's visible objects, of the object whose box does.
   */
  ghost predicate DrawsZxy(items: seq<Item>, lim: Limit, a: Assignment, grid: seq<seq<seq<int>>>) {
    var shown := Visible(items, lim, a);
    && ZxyShape(grid, lim)
    && forall c :: InContainer(lim, c) ==>
         (grid[c.z][c.x][c.y] == -1 && forall j :: !Owns(items, a, j, c)) ||
         (0 <= grid[c.z][c.x][c.y] < |shown| && Owns(items, a, shown[grid[c.z][c.x][c.y]], c))
  }

  // ---------------------------------------------------------------------------
  // Facts about Value

  /** Dropping object j from a packing removes exactly its value. */
  lemma {:induction false} ValueClear(items: seq<Item>, a: Assignment, j: nat)
    requires |a| == |items| && j < |a|
    ensures Value(items, a[j := None]) + (if a[j].Some? then items[j].value else 0) == Value(items, a)
  {
    ValueFromClear(items, a, j, 0);
  }

  lemma {:induction false} ValueFromClear(items: seq<Item>, a: Assignment, j: nat, k: nat)
    requires |a| == |items| && j < |a| && k <= |a|
    ensures ValueFrom(items, a[j := None], k) + (if k <= j && a[j].Some? then items[j].value else 0)
            == ValueFrom(items, a, k)
    decreases |a| - k
  {
    if k < |a| {
      ValueFromClear(items, a, j, k + 1);
    }
  }

  /** A packing that places nothing at or after index k has no value from k on. */
  lemma {:induction false} ValueFromNone(items: seq<Item>, a: Assignment, k: nat)
    requires |a| == |items| && k <= |a|
    requires forall i :: k <= i < |a| ==> a[i].None?
    ensures ValueFrom(items, a, k) == 0
    decreases |a| - k
  {
    if k < |a| {
      ValueFromNone(items, a, k + 1);
    }
  }

  /**
    When every placed object is listed in the duplicate-free sequence idxs,
    the packing is worth at most the sum of the listed values.
   */
  lemma {:induction false} ValueWithin(items: seq<Item>, a: Assignment, idxs: seq<nat>)
    requires |a| == |items|
    requires Distinct(idxs) && IndicesBelow(idxs, |items|)
    requires forall i :: 0 <= i < |a| && a[i].Some? ==> i in idxs
    ensures Value(items, a) <= SumOf(items, idxs)
    decreases |idxs|
  {
    if |idxs| == 0 {
      ValueFromNone(items, a, 0);
    } else {
      var h := idxs[0];
      var rest := idxs[1..];
      var a' := a[h := None];
      forall i | 0 <= i < |a'| && a'[i].Some?
        ensures i in rest
      {
        assert i != h && i in idxs;
        var p :| 0 <= p < |idxs| && idxs[p] == i;
        assert p != 0;
        assert rest[p - 1] == i;
      }
      ValueWithin(items, a', rest);
      ValueClear(items, a, h);
    }
  }

  /** Leaving an object out of a valid packing keeps it valid. */
  lemma ValidDrop(items: seq<Item>, lim: Limit, a: Assignment, j: nat)
    requires Valid(items, lim, a) && j < |a|
    ensures Valid(items, lim, a[j := None])
  {
  }

  /** A placed box lies inside the container, so it fits; when every fitting object is solid, a valid packing places only solid ones. */
  lemma FittingSolidPlaced(items: seq<Item>, lim: Limit, a: Assignment)
    requires Valid(items, lim, a) && FittingSolid(items, lim)
    ensures SolidPlaced(items, a)
  {
    forall i | 0 <= i < |a| && a[i].Some?
      ensures FitsIn(lim, items[i])
    {
      assert InLimit(lim, items[i], a[i].value);
    }
  }

  // ---------------------------------------------------------------------------
  // Facts about SumOf and Picked

  lemma {:induction false} SumOfAppend(items: seq<Item>, s: seq<nat>, j: nat)
    requires IndicesBelow(s, |items|) && j < |items|
    ensures SumOf(items, s + [j]) == SumOf(items, s) + items[j].value
  {
    if |s| > 0 {
      assert (s + [j])[1..] == s[1..] + [j];
      SumOfAppend(items, s[1..], j);
    }
  }

  lemma {:induction false} PickedAppend(a: Assignment, s: seq<nat>, t: seq<nat>)
    requires IndicesBelow(s, |a|) && IndicesBelow(t, |a|)
    ensures Picked(a, s + t) == Picked(a, s) + Picked(a, t)
  {
    if |s| > 0 {
      assert (s + t)[1..] == s[1..] + t;
      PickedAppend(a, s[1..], t);
    } else {
      assert s + t == t;
    }
  }

  /** Entries whose object is not placed contribute nothing. */
  lemma {:induction false} PickedNone(a: Assignment, s: seq<nat>)
    requires IndicesBelow(s, |a|)
    requires forall k :: 0 <= k < |s| ==> a[s[k]].None?
    ensures Picked(a, s) == []
  {
    if |s| > 0 {
      PickedNone(a, s[1..]);
    }
  }

  /** Changing an object that s does not list does not change what is picked from s. */
  lemma {:induction false} PickedUpdate(a: Assignment, s: seq<nat>, j: nat, v: Option<Cell>)
    requires IndicesBelow(s, |a|) && j < |a| && j !in s
    ensures Picked(a[j := v], s) == Picked(a, s)
  {
    if |s| > 0 {
      PickedUpdate(a, s[1..], j, v);
    }
  }
}
