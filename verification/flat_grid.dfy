/**
  The occupancy grid of the branch-and-bound solver (rust/src/lib.rs): one
  integer per unit cell of the container, stored flat with x varying slowest
  and z fastest; -1 marks an empty cell, any other value is the index of the
  object occupying it.
 */
module FlatGrid {
  import opened Packing
  import opened Counting

  /** Number of unit cells of the container, which is the length of the grid. */
  function Cells(lim: Limit): nat {
    lim.x * lim.y * lim.z
  }

  /** Flat position of cell c. */
  function Idx(lim: Limit, c: Cell): nat {
    (c.x * lim.y + c.y) * lim.z + c.z
  }

  /** The cell stored at flat position k: the inverse of Idx on [0, Cells(lim)). */
  function Decode(lim: Limit, k: nat): Cell {
    if lim.y == 0 || lim.z == 0 then Cell(k, 0, 0)
    else Cell(k / lim.z / lim.y, (k / lim.z) % lim.y, k % lim.z)
  }

  lemma MulAtLeast(a: int, d: nat)
    requires a >= 1
    ensures a * d >= d
  {
  }

  lemma DivMod(q: nat, r: nat, d: nat)
    requires r < d
    ensures (q * d + r) / d == q && (q * d + r) % d == r
  {
    var k := q * d + r;
    var q', r' := k / d, k % d;
    assert k == q' * d + r' && 0 <= r' < d;
    assert q * d - q' * d == (q - q') * d;
    assert q' < q ==> (q - q') * d >= d by {
      if q' < q { MulAtLeast(q - q', d); }
    }
    assert q' > q ==> (q' - q) * d >= d by {
      if q' > q { MulAtLeast(q' - q, d); }
    }
  }

  /** A position in an n-by-m block laid out row by row lies inside the block. */
  lemma RowMajorBound(a: nat, b: nat, n: nat, m: nat)
    requires a < n && b < m
    ensures a * m + b < n * m
  {
    assert a * m <= (n - 1) * m;
  }

  /** Every cell of the container has a position in the grid, and Decode recovers the cell from it. */
  lemma IdxDecode(lim: Limit, c: Cell)
    requires InContainer(lim, c)
    ensures Idx(lim, c) < Cells(lim)
    ensures Decode(lim, Idx(lim, c)) == c
  {
    var row := c.x * lim.y + c.y;
    RowMajorBound(c.x, c.y, lim.x, lim.y);
    RowMajorBound(row, c.z, lim.x * lim.y, lim.z);
    DivMod(row, c.z, lim.z);
    DivMod(c.x, c.y, lim.y);
  }

  /** Every grid position is the position of exactly the cell Decode names. */
  lemma {:induction false} DecodeIdx(lim: Limit, k: nat)
    requires k < Cells(lim)
    ensures InContainer(lim, Decode(lim, k))
    ensures Idx(lim, Decode(lim, k)) == k
  {
    assert lim.y == 0 || lim.z == 0 ==> Cells(lim) == 0;
    var row := k / lim.z;
    assert k == row * lim.z + k % lim.z;
    assert row == (row / lim.y) * lim.y + row % lim.y;
    var x := row / lim.y;
    assert row >= lim.x * lim.y ==> row * lim.z >= lim.x * lim.y * lim.z;
    assert x >= lim.x ==> x * lim.y >= lim.x * lim.y;
  }

  lemma IdxDecodeAll(lim: Limit)
    ensures forall c {:trigger Idx(lim, c)} :: InContainer(lim, c) ==>
      Idx(lim, c) < Cells(lim) && Decode(lim, Idx(lim, c)) == c
  {
    forall c | InContainer(lim, c)
      ensures Idx(lim, c) < Cells(lim) && Decode(lim, Idx(lim, c)) == c
    {
      IdxDecode(lim, c);
    }
  }

  /** Distinct cells of the container have distinct grid positions. */
  lemma IdxInjective(lim: Limit, c1: Cell, c2: Cell)
    requires InContainer(lim, c1) && InContainer(lim, c2)
    requires Idx(lim, c1) == Idx(lim, c2)
    ensures c1 == c2
  {
    IdxDecode(lim, c1);
    IdxDecode(lim, c2);
  }

  /** Occupant of cell c (-1 when empty); positions outside the grid read as empty. */
  function At(g: seq<int>, lim: Limit, c: Cell): int {
    if Idx(lim, c) < |g| then g[Idx(lim, c)] else -1
  }

  predicate Free(g: seq<int>, lim: Limit, c: Cell) {
    At(g, lim, c) == -1
  }

  /** The grid a fresh solver starts from: every cell empty. */
  function Empty(lim: Limit): (g: seq<int>)
    ensures |g| == Cells(lim)
    ensures forall k :: 0 <= k < |g| ==> g[k] == -1
  {
    seq(Cells(lim), _ => -1)
  }

  /**
    Whether box b fits at origin o: inside the container on every axis, and
    every cell it would cover is empty.
   */
  function CanPlace(g: seq<int>, lim: Limit, b: Item, o: Cell): (r: bool)
    requires |g| == Cells(lim)
    ensures r <==> InLimit(lim, b, o) && forall c :: Covers(b, o, c) ==> Free(g, lim, c)
  {
    if o.x + b.x > lim.x || o.y + b.y > lim.y || o.z + b.z > lim.z then false
    else
      forall x: nat, y: nat, z: nat | o.x <= x < o.x + b.x && o.y <= y < o.y + b.y && o.z <= z < o.z + b.z ::
        Free(g, lim, Cell(x, y, z))
  }

  /**
    Writes v into every cell box b covers at origin o; all other cells keep
    their contents. The box must lie inside the container, as can_place
    guarantees before every place and remove: on the flat grid a z-run that
    overran the top would spill into the next (x, y) column.
   */
  function Fill(g: seq<int>, lim: Limit, v: int, b: Item, o: Cell): (r: seq<int>)
    requires |g| == Cells(lim) && InLimit(lim, b, o)
    ensures |r| == |g|
    ensures forall c :: InContainer(lim, c) ==>
      At(r, lim, c) == if Covers(b, o, c) then v else At(g, lim, c)
  {
    IdxDecodeAll(lim);
    seq(|g|, k requires 0 <= k < |g| => if Covers(b, o, Decode(lim, k)) then v else g[k])
  }

  /** Filling a placeable box and then clearing it gives back the original grid. */
  lemma FillRestore(g: seq<int>, lim: Limit, v: int, b: Item, o: Cell)
    requires |g| == Cells(lim) && CanPlace(g, lim, b, o)
    ensures Fill(Fill(g, lim, v, b, o), lim, -1, b, o) == g
  {
    var r := Fill(Fill(g, lim, v, b, o), lim, -1, b, o);
    forall k | 0 <= k < |g|
      ensures r[k] == g[k]
    {
      DecodeIdx(lim, k);
      var c := Decode(lim, k);
      assert At(r, lim, c) == r[k] && At(g, lim, c) == g[k];
    }
  }

  // ---------------------------------------------------------------------------
  // Counting occupied cells

  function OccupiedAt(g: seq<int>, lim: Limit): Cell -> int {
    c => if Free(g, lim, c) then 0 else 1
  }

  function BoxAt(b: Item, o: Cell): Cell -> int {
    c => if Covers(b, o, c) then 1 else 0
  }

  /** Number of non-empty cells of the container. */
  function Occupied(g: seq<int>, lim: Limit): int {
    Total(lim, OccupiedAt(g, lim))
  }

  /** At most every cell is occupied; when all are counted, no cell is empty. */
  lemma OccupiedRange(g: seq<int>, lim: Limit)
    ensures 0 <= Occupied(g, lim) <= Cells(lim)
    ensures Occupied(g, lim) == Cells(lim) ==> forall c :: InContainer(lim, c) ==> !Free(g, lim, c)
  {
    TotalRange(lim, OccupiedAt(g, lim));
    if Occupied(g, lim) == Cells(lim) {
      forall c | InContainer(lim, c)
        ensures !Free(g, lim, c)
      {
        assert OccupiedAt(g, lim)(c) == 1;
      }
    }
  }

  lemma EmptyOccupied(lim: Limit)
    ensures Occupied(Empty(lim), lim) == 0
  {
    var g := Empty(lim);
    forall c | InContainer(lim, c)
      ensures OccupiedAt(g, lim)(c) == 0
    {
      IdxDecode(lim, c);
    }
    TotalZero(lim, OccupiedAt(g, lim));
  }

  /** Placing a box into empty cells occupies exactly as many new cells as its volume. */
  lemma FillOccupied(g: seq<int>, lim: Limit, v: int, b: Item, o: Cell)
    requires |g| == Cells(lim) && CanPlace(g, lim, b, o) && v >= 0
    ensures Occupied(Fill(g, lim, v, b, o), lim) == Occupied(g, lim) + b.x * b.y * b.z
  {
    var r := Fill(g, lim, v, b, o);
    forall c | InContainer(lim, c)
      ensures OccupiedAt(r, lim)(c) == OccupiedAt(g, lim)(c) + BoxAt(b, o)(c)
    {
    }
    TotalAdd(lim, OccupiedAt(r, lim), OccupiedAt(g, lim), BoxAt(b, o));
    TotalBox(lim, BoxAt(b, o), b, o);
  }

  // ---------------------------------------------------------------------------
  // The grid as a record of a packing

  /** The grid records packing a: every cell holds the object covering it, or -1 when none does. */
  ghost predicate Represents(items: seq<Item>, lim: Limit, g: seq<int>, a: Assignment) {
    && |g| == Cells(lim)
    && |a| == |items|
    && (forall i, c :: 0 <= i < |a| && InContainer(lim, c) && Owns(items, a, i, c) ==> At(g, lim, c) == i)
    && (forall c :: InContainer(lim, c) && !Free(g, lim, c) ==> Owns(items, a, At(g, lim, c), c))
  }

  lemma EmptyRepresents(items: seq<Item>, lim: Limit)
    ensures Represents(items, lim, Empty(lim), Nothing(|items|))
  {
    IdxDecodeAll(lim);
  }

  /** Every entry of a grid that records a packing is -1 or an object index. */
  lemma RepresentsEntries(items: seq<Item>, lim: Limit, g: seq<int>, a: Assignment)
    requires Represents(items, lim, g, a)
    ensures forall k :: 0 <= k < |g| ==> g[k] == -1 || 0 <= g[k] < |items|
  {
    forall k | 0 <= k < |g|
      ensures g[k] == -1 || 0 <= g[k] < |items|
    {
      DecodeIdx(lim, k);
      assert At(g, lim, Decode(lim, k)) == g[k];
    }
  }

  /**
    On a grid that records a valid packing, a box can be placed exactly when
    it lies inside the container and shares no cell with any placed box.
   */
  lemma CanPlaceIffDisjoint(items: seq<Item>, lim: Limit, g: seq<int>, a: Assignment, b: Item, o: Cell)
    requires Valid(items, lim, a) && Represents(items, lim, g, a)
    ensures CanPlace(g, lim, b, o) <==>
      InLimit(lim, b, o) && forall j :: 0 <= j < |a| && a[j].Some? ==> Disjoint(items[j], a[j].value, b, o)
  {
    if CanPlace(g, lim, b, o) {
      forall j, c | 0 <= j < |a| && a[j].Some? && Covers(items[j], a[j].value, c)
        ensures !Covers(b, o, c)
      {
        assert InContainer(lim, c);
        assert Owns(items, a, j, c);
        assert At(g, lim, c) == j;
      }
    }
    if InLimit(lim, b, o) && forall j :: 0 <= j < |a| && a[j].Some? ==> Disjoint(items[j], a[j].value, b, o) {
      forall j, c | 0 <= j < |a| && a[j].Some? && Covers(items[j], a[j].value, c)
        ensures !Covers(b, o, c)
      {
        assert Disjoint(items[j], a[j].value, b, o);
      }
      forall c | Covers(b, o, c)
        ensures Free(g, lim, c)
      {
        assert InContainer(lim, c);
      }
    }
  }

  /**
    Placing object i into a grid that records a valid packing in which i is
    absent yields a grid recording the packing extended by i, which is valid.
   */
  lemma FillRepresents(items: seq<Item>, lim: Limit, g: seq<int>, a: Assignment, i: nat, o: Cell)
    requires Valid(items, lim, a) && Represents(items, lim, g, a)
    requires i < |a| && a[i].None? && CanPlace(g, lim, items[i], o)
    ensures Valid(items, lim, a[i := Some(o)])
    ensures Represents(items, lim, Fill(g, lim, i, items[i], o), a[i := Some(o)])
  {
    CanPlaceIffDisjoint(items, lim, g, a, items[i], o);
    var a' := a[i := Some(o)];
    var r := Fill(g, lim, i, items[i], o);
    forall j, k | 0 <= j < |a'| && 0 <= k < |a'| && j != k && a'[j].Some? && a'[k].Some?
      ensures Disjoint(items[j], a'[j].value, items[k], a'[k].value)
    {
      if j == i {
        assert Disjoint(items[k], a[k].value, items[i], o);
      } else if k == i {
        assert Disjoint(items[j], a[j].value, items[i], o);
      } else {
        assert Disjoint(items[j], a[j].value, items[k], a[k].value);
      }
    }
    forall j, c | 0 <= j < |a'| && InContainer(lim, c) && Owns(items, a', j, c)
      ensures At(r, lim, c) == j
    {
      if j != i {
        assert Owns(items, a, j, c);
        assert Disjoint(items[j], a[j].value, items[i], o);
      }
    }
    forall c | InContainer(lim, c) && !Free(r, lim, c)
      ensures Owns(items, a', At(r, lim, c), c)
    {
      if !Covers(items[i], o, c) {
        assert Owns(items, a, At(g, lim, c), c);
      }
    }
  }
}
