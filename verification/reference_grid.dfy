/**
  solve_to_grid_zxy in rust/src/instance/discrete_backpack_3d.rs: run the
  exhaustive search from a fresh solver, then turn the best nested grid into
  the names of the objects that appear, a [z][x][y] grid of positions in that
  name list, the chosen objects and the best value.
 */
module ReferenceGrid {
  import opened Packing
  import opened NestedGrid
  import opened Exhaustive

  /** The object indices that appear in some container cell of g, ascending (the BTreeSet of lines 240-249). */
  ghost function UsedIndices(g: Grid, lim: Packing.Limit, n: nat): (r: seq<nat>)
    ensures StrictlyIncreasing(r) && IndicesBelow(r, n)
    ensures forall j: nat :: j in r <==> j < n && exists c :: InContainer(lim, c) && Get(g, c) == Some(j)
  {
    Ascending(n, (j: nat) => exists c :: InContainer(lim, c) && Get(g, c) == Some(j))
  }

  /** The scan of lines 240-249, cell by cell in x, y, z order, collecting every index met. */
  method CollectUsed(g: Grid, lim: Packing.Limit) returns (used: set<nat>)
    requires Shaped(g, lim)
    ensures forall j :: j in used <==> exists c :: InContainer(lim, c) && Get(g, c) == Some(j)
  {
    used := {};
    var x := 0;
    while x < lim.x
      invariant x <= lim.x
      invariant forall j :: j in used <==> exists c :: InContainer(lim, c) && c.x < x && Get(g, c) == Some(j)
    {
      var y := 0;
      while y < lim.y
        invariant y <= lim.y
        invariant forall j :: j in used <==> exists c :: InContainer(lim, c) && (c.x < x || (c.x == x && c.y < y)) && Get(g, c) == Some(j)
      {
        var z := 0;
        while z < lim.z
          invariant z <= lim.z
          invariant forall j :: j in used <==>
            exists c :: InContainer(lim, c) && (c.x < x || (c.x == x && (c.y < y || (c.y == y && c.z < z)))) && Get(g, c) == Some(j)
        {
          ghost var here := Cell(x, y, z);
          if g[x][y][z].Some? {
            assert Get(g, here) == g[x][y][z];
            used := used + {g[x][y][z].value};
          }
          z := z + 1;
        }
        y := y + 1;
      }
      x := x + 1;
    }
  }

  /** idx_to_namepos (lines 257-261): each used index mapped to its position in the used list. */
  method NamePositions(used: seq<nat>) returns (m: map<nat, int>)
    requires StrictlyIncreasing(used)
    ensures forall j :: j in m <==> j in used
    ensures forall k :: 0 <= k < |used| ==> m[used[k]] == k
  {
    m := map[];
    var pos := 0;
    while pos < |used|
      invariant pos <= |used|
      invariant forall j :: j in m <==> j in used[..pos]
      invariant forall k :: 0 <= k < pos ==> used[k] in m && m[used[k]] == k
    {
      m := m[used[pos] := pos];
      assert used[..pos + 1] == used[..pos] + [used[pos]];
      pos := pos + 1;
    }
    assert used[..pos] == used;
  }

  /** What the output grid shows at cell c: the name position of the object there, or -1. */
  function Shown(g: Grid, m: map<nat, int>, c: Cell): int {
    match Get(g, c)
    case None => -1
    case Some(i) => if i in m then m[i] else -1
  }

  /** grid_zxy (lines 263-275): the nested grid re-indexed as [z][x][y] through the position map. */
  function GridZxy(g: Grid, lim: Packing.Limit, m: map<nat, int>): (r: seq<seq<seq<int>>>)
    ensures ZxyShape(r, lim)
    ensures forall c :: InContainer(lim, c) ==> r[c.z][c.x][c.y] == Shown(g, m, c)
  {
    seq(lim.z, z requires 0 <= z < lim.z =>
      seq(lim.x, x requires 0 <= x < lim.x =>
        seq(lim.y, y requires 0 <= y < lim.y => Shown(g, m, Cell(x, y, z)))))
  }

  /** names (lines 251-255): the label of each listed object, in list order. */
  function Names(objects: seq<Object>, idx: seq<nat>): (r: seq<nat>)
    requires IndicesBelow(idx, |objects|)
    ensures |r| == |idx| && forall k :: 0 <= k < |idx| ==> r[k] == objects[idx[k]].name
  {
    seq(|idx|, k requires 0 <= k < |idx| => objects[idx[k]].name)
  }

  /** The indices appearing in a grid that records W are exactly W's visible objects. */
  lemma UsedAreVisible(items: seq<Item>, lim: Packing.Limit, g: Grid, W: Assignment)
    requires Represents(items, lim, g, W)
    ensures UsedIndices(g, lim, |items|) == Visible(items, lim, W)
  {
    var p := (j: nat) => exists c :: InContainer(lim, c) && Get(g, c) == Some(j);
    var q := (j: nat) => exists c :: InContainer(lim, c) && Owns(items, W, j, c);
    forall j: nat | j < |items|
      ensures p(j) == q(j)
    {
      if exists c :: InContainer(lim, c) && Get(g, c) == Some(j) {
        var c :| InContainer(lim, c) && Get(g, c) == Some(j);
        assert Owns(items, W, j, c);
      }
    }
    AscendingSame(|items|, p, q);
  }

  /** names lists the names of W's visible objects in index order, and grid draws W. */
  ghost predicate Drawn(objects: seq<Object>, items: seq<Item>, lim: Packing.Limit, W: Assignment,
                        names: seq<nat>, grid: seq<seq<seq<int>>>)
    requires |items| == |objects|
  {
    && names == Names(objects, Visible(items, lim, W))
    && DrawsZxy(items, lim, W, grid)
  }

  /** The extraction of lines 240-275 draws the packing the grid records. */
  lemma ExtractionDraws(objects: seq<Object>, items: seq<Item>, lim: Packing.Limit, g: Grid, W: Assignment,
                        m: map<nat, int>)
    requires |items| == |objects| && Represents(items, lim, g, W)
    requires forall k :: 0 <= k < |UsedIndices(g, lim, |items|)| ==>
      UsedIndices(g, lim, |items|)[k] in m && m[UsedIndices(g, lim, |items|)[k]] == k
    ensures Drawn(objects, items, lim, W, Names(objects, UsedIndices(g, lim, |items|)), GridZxy(g, lim, m))
  {
    var used := UsedIndices(g, lim, |items|);
    UsedAreVisible(items, lim, g, W);
    var grid := GridZxy(g, lim, m);
    forall c | InContainer(lim, c)
      ensures (grid[c.z][c.x][c.y] == -1 && forall j :: !Owns(items, W, j, c)) ||
              (0 <= grid[c.z][c.x][c.y] < |used| && Owns(items, W, used[grid[c.z][c.x][c.y]], c))
    {
      if Get(g, c).Some? {
        var v := Get(g, c).value;
        assert Owns(items, W, v, c);
        assert v in used;
        var k :| 0 <= k < |used| && used[k] == v;
        assert grid[c.z][c.x][c.y] == k;
      } else {
        assert forall j :: !Owns(items, W, j, c);
      }
    }
  }

  /**
    The output describes packing W: W is valid and worth best, names and grid
    draw it, and selected lists its objects in input order.
   */
  ghost predicate Reports(limit: Exhaustive.Limit, objects: seq<Object>, names: seq<nat>, grid: seq<seq<seq<int>>>,
                          selected: seq<Object>, best: nat, W: Assignment)
  {
    var s := Solver(limit, objects);
    && Valid(s.Items(), limit.Space(), W)
    && Value(s.Items(), W) == best
    && Drawn(objects, s.Items(), limit.Space(), W, names, grid)
    && selected == Placed(objects, W, |objects|)
  }

  /** Lines 232-233: a fresh solver and a search from object 0 with value 0. */
  method Search(limit: Exhaustive.Limit, objects: seq<Object>) returns (s: Solver, b: Best)
    ensures s == Solver(limit, objects)
    ensures BestOk(s, b)
    ensures forall A: Assignment :: Valid(s.Items(), limit.Space(), A) ==> Value(s.Items(), A) <= b.cost
  {
    var cur, start;
    s, cur, start := New(limit, objects);
    Start(s, cur.grid);
    EmptyRepresents(s.Items(), limit.Space());
    cur, b := Dfs(s, 0, 0, cur, start, Nothing(|objects|));
  }

  /**
    solve_to_grid_zxy. The value reported is the largest value of any valid
    packing, and it is the value of a packing which the names and grid draw
    and whose objects the selected list gives in input order.
   */
  method SolveToGridZxy(limit: Exhaustive.Limit, objects: seq<Object>)
    returns (names: seq<nat>, grid: seq<seq<seq<int>>>, selected: seq<Object>, best: nat)
    ensures Worth(selected) == best
    ensures exists W: Assignment :: Reports(limit, objects, names, grid, selected, best, W)
    ensures Optimal(Solver(limit, objects).Items(), limit.Space(), best)
  {
    var s, b := Search(limit, objects);
    var lim := limit.Space();
    ghost var W :| Records(s, b.grid, b.selected, b.cost, W);

    var found := CollectUsed(b.grid, lim);
    CollectedBelow(s.Items(), lim, b.grid, W, found);
    var used := UsedList(found, |objects|);
    UsedListIsUsedIndices(b.grid, lim, |objects|, found);
    names := Names(objects, used);
    var m := NamePositions(used);
    grid := GridZxy(b.grid, lim, m);
    selected := b.selected;
    best := b.cost;
    BestReported(s, b, W, m);
  }

  /** Every index the scan collects from a grid recording a packing is an object index. */
  lemma CollectedBelow(items: seq<Item>, lim: Packing.Limit, g: Grid, W: Assignment, found: set<nat>)
    requires Represents(items, lim, g, W)
    requires forall j :: j in found <==> exists c :: InContainer(lim, c) && Get(g, c) == Some(j)
    ensures forall j :: j in found ==> j < |items|
  {
    forall j | j in found
      ensures j < |items|
    {
      var c :| InContainer(lim, c) && Get(g, c) == Some(j);
      assert Owns(items, W, j, c);
    }
  }

  /** The ascending list of the members of a set of indices below n. */
  function UsedList(found: set<nat>, n: nat): (r: seq<nat>)
    requires forall j :: j in found ==> j < n
    ensures StrictlyIncreasing(r) && IndicesBelow(r, n)
    ensures forall j: nat :: j in r <==> j in found
  {
    Ascending(n, (j: nat) => j in found)
  }

  /** Listing the scanned set in ascending order gives the used indices of the grid. */
  lemma UsedListIsUsedIndices(g: Grid, lim: Packing.Limit, n: nat, found: set<nat>)
    requires forall j :: j in found <==> exists c :: InContainer(lim, c) && Get(g, c) == Some(j)
    requires forall j :: j in found ==> j < n
    ensures UsedList(found, n) == UsedIndices(g, lim, n)
  {
    AscendingSame(n, (j: nat) => j in found, (j: nat) => exists c :: InContainer(lim, c) && Get(g, c) == Some(j));
  }

  /**
    A best result of the search, pushed through the extraction, reports its
    packing, its chosen objects are worth its value, and it is optimal.
   */
  lemma BestReported(s: Solver, b: Best, W: Assignment, m: map<nat, int>)
    requires Records(s, b.grid, b.selected, b.cost, W)
    requires forall A: Assignment :: Valid(s.Items(), s.limit.Space(), A) ==> Value(s.Items(), A) <= b.cost
    requires forall k :: 0 <= k < |UsedIndices(b.grid, s.limit.Space(), |s.objects|)| ==>
      UsedIndices(b.grid, s.limit.Space(), |s.objects|)[k] in m &&
      m[UsedIndices(b.grid, s.limit.Space(), |s.objects|)[k]] == k
    ensures Reports(s.limit, s.objects, Names(s.objects, UsedIndices(b.grid, s.limit.Space(), |s.objects|)),
                    GridZxy(b.grid, s.limit.Space(), m), b.selected, b.cost, W)
    ensures Worth(b.selected) == b.cost
    ensures Optimal(s.Items(), s.limit.Space(), b.cost)
  {
    ExtractionDraws(s.objects, s.Items(), s.limit.Space(), b.grid, W, m);
    WorthPlaced(s, W, |s.objects|);
    ValueFromNone(s.Items(), W, |s.objects|);
  }
}
