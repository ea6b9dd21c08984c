/**
  The occupancy grid of the exhaustive reference search in
  rust/src/instance/discrete_backpack_3d.rs: a nested [x][y][z] array whose
  cells are empty or hold the index of the object that covers them.
 */
module NestedGrid {
  import opened Packing

  type Grid = seq<seq<seq<Option<nat>>>>

  /** g has the container's extents on every axis. */
  predicate Shaped(g: Grid, lim: Limit) {
    && |g| == lim.x
    && (forall x :: 0 <= x < lim.x ==> |g[x]| == lim.y)
    && (forall x, y :: 0 <= x < lim.x && 0 <= y < lim.y ==> |g[x][y]| == lim.z)
  }

  /** Contents of cell c; a cell outside the array reads as empty. */
  function Get(g: Grid, c: Cell): Option<nat> {
    if c.x < |g| && c.y < |g[c.x]| && c.z < |g[c.x][c.y]| then g[c.x][c.y][c.z] else None
  }

  predicate FreeAt(g: Grid, c: Cell) {
    Get(g, c).None?
  }

  /** The grid Solve::new starts from. */
  function EmptyGrid(lim: Limit): (g: Grid)
    ensures Shaped(g, lim)
    ensures forall c :: FreeAt(g, c)
  {
    seq(lim.x, _ => seq(lim.y, _ => seq(lim.z, _ => None)))
  }

  /**
    can_place_object: every cell box b covers at origin o is empty. The
    caller only asks about origins at which the box lies inside the container.
   */
  function CanPlace(g: Grid, lim: Limit, b: Item, o: Cell): (r: bool)
    requires Shaped(g, lim) && InLimit(lim, b, o)
    ensures r <==> forall c :: Covers(b, o, c) ==> FreeAt(g, c)
  {
    forall x: nat, y: nat, z: nat | o.x <= x < o.x + b.x && o.y <= y < o.y + b.y && o.z <= z < o.z + b.z ::
      FreeAt(g, Cell(x, y, z))
  }

  /** Writes v into every cell box b covers at origin o (place with Some(i), remove with None). */
  function Fill(g: Grid, lim: Limit, v: Option<nat>, b: Item, o: Cell): (r: Grid)
    requires Shaped(g, lim)
    ensures Shaped(r, lim)
    ensures forall c :: InContainer(lim, c) ==> Get(r, c) == if Covers(b, o, c) then v else Get(g, c)
    ensures forall c :: !InContainer(lim, c) ==> FreeAt(r, c)
  {
    seq(lim.x, x requires 0 <= x < lim.x =>
      seq(lim.y, y requires 0 <= y < lim.y =>
        seq(lim.z, z requires 0 <= z < lim.z =>
          if Covers(b, o, Cell(x, y, z)) then v else g[x][y][z])))
  }

  /** Two grids of the container's shape that agree on every cell are equal. */
  lemma GridExt(g: Grid, h: Grid, lim: Limit)
    requires Shaped(g, lim) && Shaped(h, lim)
    requires forall c :: InContainer(lim, c) ==> Get(g, c) == Get(h, c)
    ensures g == h
  {
    forall x | 0 <= x < lim.x
      ensures g[x] == h[x]
    {
      forall y | 0 <= y < lim.y
        ensures g[x][y] == h[x][y]
      {
        forall z | 0 <= z < lim.z
          ensures g[x][y][z] == h[x][y][z]
        {
          assert InContainer(lim, Cell(x, y, z));
        }
      }
    }
  }

  /** Filling a placeable box and then clearing it gives back the original grid. */
  lemma FillRestore(g: Grid, lim: Limit, v: Option<nat>, b: Item, o: Cell)
    requires Shaped(g, lim) && InLimit(lim, b, o) && CanPlace(g, lim, b, o)
    ensures Fill(Fill(g, lim, v, b, o), lim, None, b, o) == g
  {
    GridExt(Fill(Fill(g, lim, v, b, o), lim, None, b, o), g, lim);
  }

  /** The grid records packing a: every cell holds the object covering it, or nothing when none does. */
  ghost predicate Represents(items: seq<Item>, lim: Limit, g: Grid, a: Assignment) {
    && Shaped(g, lim)
    && |a| == |items|
    && (forall i, c :: 0 <= i < |a| && InContainer(lim, c) && Owns(items, a, i, c) ==> Get(g, c) == Some(i))
    && (forall c :: InContainer(lim, c) && !FreeAt(g, c) ==> Owns(items, a, Get(g, c).value, c))
  }

  lemma EmptyRepresents(items: seq<Item>, lim: Limit)
    ensures Represents(items, lim, EmptyGrid(lim), Nothing(|items|))
  {
  }

  /** A box placed in a recorded packing shares no cell with a box that fits on empty cells. */
  lemma FreeDisjoint(items: seq<Item>, lim: Limit, g: Grid, a: Assignment, b: Item, o: Cell)
    requires Valid(items, lim, a) && Represents(items, lim, g, a)
    requires forall c :: Covers(b, o, c) ==> FreeAt(g, c)
    ensures forall j :: 0 <= j < |a| && a[j].Some? ==> Disjoint(items[j], a[j].value, b, o)
  {
    forall j, c | 0 <= j < |a| && a[j].Some? && Covers(items[j], a[j].value, c)
      ensures !Covers(b, o, c)
    {
      assert InContainer(lim, c);
      assert Owns(items, a, j, c);
    }
  }

  /**
    Placing object i into a grid that records a valid packing in which i is
    absent yields a grid recording the packing extended by i, which is valid.
   */
  lemma FillRepresents(items: seq<Item>, lim: Limit, g: Grid, a: Assignment, i: nat, o: Cell)
    requires Valid(items, lim, a) && Represents(items, lim, g, a)
    requires i < |a| && a[i].None? && InLimit(lim, items[i], o) && CanPlace(g, lim, items[i], o)
    ensures Valid(items, lim, a[i := Some(o)])
    ensures Represents(items, lim, Fill(g, lim, Some(i), items[i], o), a[i := Some(o)])
  {
    FreeDisjoint(items, lim, g, a, items[i], o);
    var a' := a[i := Some(o)];
    var r := Fill(g, lim, Some(i), items[i], o);
    forall j, k | 0 <= j < |a'| && 0 <= k < |a'| && j != k && a'[j].Some? && a'[k].Some?
      ensures Disjoint(items[j], a'[j].value, items[k], a'[k].value)
    {
      if j == i {
        assert Disjoint(items[k], a[k].value, items[i], o);
      } else if k == i {
        assert Disjoint(items[j], a[j].value, items[i], o);
      } else {
        assert Disjoint(items[j], a[j].value, items[k], a[k].value);
      }
    }
    forall j, c | 0 <= j < |a'| && InContainer(lim, c) && Owns(items, a', j, c)
      ensures Get(r, c) == Some(j)
    {
      if j != i {
        assert Owns(items, a, j, c);
        assert Disjoint(items[j], a[j].value, items[i], o);
      }
    }
    forall c | InContainer(lim, c) && !FreeAt(r, c)
      ensures Owns(items, a', Get(r, c).value, c)
    {
      if !Covers(items[i], o, c) {
        assert Owns(items, a, Get(g, c).value, c);
      }
    }
  }
}
