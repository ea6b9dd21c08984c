/**
  solve_to_grid_zxy in rust/src/lib.rs: run the branch-and-bound search from
  a fresh solver, then turn the best flat grid into the output a renderer
  draws: the names of the objects that appear, a [z][x][y] grid of positions
  in that name list, the chosen objects and the best value.
 */
module SolveGrid {
  import opened Packing
  import opened FlatGrid
  import opened Ordering
  import opened BranchBound

  /** The object indices that appear in the grid, ascending (the BTreeSet of lines 231-241). */
  function UsedIndices(g: seq<int>, n: nat): (r: seq<nat>)
    ensures StrictlyIncreasing(r) && IndicesBelow(r, n)
    ensures forall j: nat :: j in r <==> j < n && (j as int) in g
  {
    Ascending(n, (j: nat) => (j as int) in g)
  }

  /** idx_to_pos: position of each used index in the used list, -1 for the others. */
  method PositionTable(n: nat, used: seq<nat>) returns (table: seq<int>)
    requires IndicesBelow(used, n) && StrictlyIncreasing(used)
    ensures |table| == n
    ensures forall k :: 0 <= k < |used| ==> table[used[k]] == k
    ensures forall j :: 0 <= j < n && j !in used ==> table[j] == -1
  {
    table := seq(n, _ => -1);
    var pos := 0;
    while pos < |used|
      invariant pos <= |used| && |table| == n
      invariant forall k :: 0 <= k < pos ==> table[used[k]] == k
      invariant forall j :: 0 <= j < n && j !in used[..pos] ==> table[j] == -1
    {
      table := table[used[pos] := pos];
      assert used[..pos + 1] == used[..pos] + [used[pos]];
      pos := pos + 1;
    }
    assert used[..pos] == used;
  }

  /** What the output grid shows at cell c: the table entry of the object there, or -1. */
  function Shown(g: seq<int>, lim: Limit, table: seq<int>, c: Cell): int
    requires |g| == Cells(lim) && forall k :: 0 <= k < |g| ==> g[k] < |table|
  {
    var v := At(g, lim, c);
    if v >= 0 then table[v] else -1
  }

  /** grid_zxy (lines 253-265): the flat grid re-indexed as [z][x][y] through the position table. */
  function GridZxy(g: seq<int>, lim: Limit, table: seq<int>): (r: seq<seq<seq<int>>>)
    requires |g| == Cells(lim) && forall k :: 0 <= k < |g| ==> g[k] < |table|
    ensures ZxyShape(r, lim)
    ensures forall c :: InContainer(lim, c) ==> r[c.z][c.x][c.y] == Shown(g, lim, table, c)
  {
    seq(lim.z, z requires 0 <= z < lim.z =>
      seq(lim.x, x requires 0 <= x < lim.x =>
        seq(lim.y, y requires 0 <= y < lim.y => Shown(g, lim, table, Cell(x, y, z)))))
  }

  /** names (lines 243-246): the label of each listed object, in list order. */
  function Names(objects: seq<Object>, idx: seq<nat>): (r: seq<string>)
    requires IndicesBelow(idx, |objects|)
    ensures |r| == |idx| && forall k :: 0 <= k < |idx| ==> r[k] == objects[idx[k]].name
  {
    seq(|idx|, k requires 0 <= k < |idx| => objects[idx[k]].name)
  }

  /** The objects a list of indices names, in that order (lines 268-272). */
  function Listed(objects: seq<Object>, idx: seq<nat>): (r: seq<Object>)
    requires IndicesBelow(idx, |objects|)
    ensures |r| == |idx| && forall k :: 0 <= k < |idx| ==> r[k] == objects[idx[k]]
  {
    seq(|idx|, k requires 0 <= k < |idx| => objects[idx[k]])
  }

  /** Total value of a list of objects. */
  function Worth(objs: seq<Object>): nat {
    if |objs| == 0 then 0 else objs[0].value + Worth(objs[1..])
  }

  lemma {:induction false} WorthListed(objects: seq<Object>, idx: seq<nat>)
    requires IndicesBelow(idx, |objects|)
    ensures Worth(Listed(objects, idx)) == SumOf(Items(objects), idx)
  {
    if |idx| > 0 {
      assert Listed(objects, idx)[1..] == Listed(objects, idx[1..]);
      WorthListed(objects, idx[1..]);
    }
  }

  /** names lists the names of W's visible objects in index order, and grid draws W. */
  ghost predicate Drawn(objects: seq<Object>, lim: Limit, W: Assignment, names: seq<string>, grid: seq<seq<seq<int>>>)
  {
    var shown := Visible(Items(objects), lim, W);
    && names == Names(objects, shown)
    && DrawsZxy(Items(objects), lim, W, grid)
  }

  /** The indices appearing in a grid that records W are exactly W's visible objects. */
  lemma UsedAreVisible(items: seq<Item>, lim: Limit, g: seq<int>, W: Assignment)
    requires Represents(items, lim, g, W)
    ensures UsedIndices(g, |items|) == Visible(items, lim, W)
  {
    var p := (j: nat) => (j as int) in g;
    var q := (j: nat) => exists c :: InContainer(lim, c) && Owns(items, W, j, c);
    forall j: nat | j < |items|
      ensures p(j) == q(j)
    {
      if (j as int) in g {
        var k :| 0 <= k < |g| && g[k] == j;
        DecodeIdx(lim, k);
        var c := Decode(lim, k);
        assert At(g, lim, c) == j;
      }
      if exists c :: InContainer(lim, c) && Owns(items, W, j, c) {
        var c :| InContainer(lim, c) && Owns(items, W, j, c);
        IdxDecode(lim, c);
        assert g[Idx(lim, c)] == j;
      }
    }
    AscendingSame(|items|, p, q);
  }

  /** The extraction of lines 231-265 draws the packing the grid records. */
  lemma ExtractionDraws(objects: seq<Object>, lim: Limit, g: seq<int>, W: Assignment, table: seq<int>)
    requires Represents(Items(objects), lim, g, W)
    requires |table| == |objects|
    requires forall k :: 0 <= k < |UsedIndices(g, |objects|)| ==>
      table[UsedIndices(g, |objects|)[k]] == k
    requires forall k :: 0 <= k < |g| ==> g[k] < |table|
    ensures Drawn(objects, lim, W,
                  Names(objects, UsedIndices(g, |objects|)),
                  GridZxy(g, lim, table))
  {
    var items := Items(objects);
    var used := UsedIndices(g, |objects|);
    UsedAreVisible(items, lim, g, W);
    var grid := GridZxy(g, lim, table);
    forall c | InContainer(lim, c)
      ensures (grid[c.z][c.x][c.y] == -1 && forall j :: !Owns(items, W, j, c)) ||
              (0 <= grid[c.z][c.x][c.y] < |used| && Owns(items, W, used[grid[c.z][c.x][c.y]], c))
    {
      var v := At(g, lim, c);
      assert Free(g, lim, c) ==> forall j :: !Owns(items, W, j, c);
      assert !Free(g, lim, c) ==> Owns(items, W, v, c) && 0 <= v < |objects|;
      assert 0 <= v < |objects| && Owns(items, W, v, c) ==> v in used;
      assert forall k :: 0 <= k < |used| && used[k] == v ==> grid[c.z][c.x][c.y] == k;
    }
  }

  /**
    The output describes packing W: W is valid and worth best, names and grid
    draw it, and selected lists its objects in search order.
   */
  ghost predicate Reports(objects: seq<Object>, limit: Limit, names: seq<string>, grid: seq<seq<seq<int>>>,
                          selected: seq<Object>, best: nat, W: Assignment)
  {
    && Valid(Items(objects), limit, W)
    && Value(Items(objects), W) == best
    && Drawn(objects, limit, W, names, grid)
    && selected == Listed(objects, Picked(W, SearchOrder(Items(objects), limit)))
  }

  /** A best result of a solver over objects, pushed through the extraction, reports its packing. */
  lemma BestReported(s: Solver, b: Best, W: Assignment, table: seq<int>)
    requires s.Wf() && s.order == SearchOrder(Items(s.objects), s.limit)
    requires Records(s, b.grid, b.selected, b.cost, W)
    requires |table| == |s.objects|
    requires forall k :: 0 <= k < |UsedIndices(b.grid, |s.objects|)| ==>
      table[UsedIndices(b.grid, |s.objects|)[k]] == k
    requires forall k :: 0 <= k < |b.grid| ==> b.grid[k] < |table|
    ensures Reports(s.objects, s.limit,
                    Names(s.objects, UsedIndices(b.grid, |s.objects|)),
                    GridZxy(b.grid, s.limit, table), Listed(s.objects, b.selected), b.cost, W)
  {
    ExtractionDraws(s.objects, s.limit, b.grid, W, table);
  }

  /**
    A recorded best that bounds every solid finish from the start of the
    search is at least as good as every valid packing of solid objects, and
    optimal when every object that fits the container is solid.
   */
  lemma SearchOptimal(s: Solver, b: Best, W: Assignment)
    requires s.Wf() && Records(s, b.grid, b.selected, b.cost, W)
    requires Dominated(s, 0, 0, Empty(s.limit), b.cost)
    ensures forall A: Assignment :: Valid(Items(s.objects), s.limit, A) && SolidPlaced(Items(s.objects), A) ==>
      Value(Items(s.objects), A) <= b.cost
    ensures FittingSolid(Items(s.objects), s.limit) ==> Optimal(Items(s.objects), s.limit, b.cost)
  {
    StartExtends(s);
    if FittingSolid(Items(s.objects), s.limit) {
      forall A: Assignment | Valid(Items(s.objects), s.limit, A)
        ensures Value(Items(s.objects), A) <= b.cost
      {
        FittingSolidPlaced(Items(s.objects), s.limit, A);
      }
    }
  }

  /** Lines 224-225: a fresh solver and a search from position 0 with value 0. */
  method Search(limit: Limit, objects: seq<Object>) returns (s: Solver, b: Best)
    ensures s.Wf() && s.limit == limit && s.objects == objects
    ensures s.order == SearchOrder(Items(objects), limit)
    ensures BestOk(s, b)
    ensures Dominated(s, 0, 0, Empty(limit), b.cost)
  {
    var cur, start;
    s, cur, start := New(limit, objects);
    assert cur == Current(Empty(limit), 0, []);
    assert start == Best(0, Empty(limit), []);
    Start(s);
    cur, b := Dfs(s, 0, 0, cur, start, Nothing(|objects|));
  }

  /**
    solve_to_grid_zxy. The value reported is that of a valid packing which
    the names and grid draw and whose objects the selected list gives in
    search order. It is at least the value of every valid packing of
    objects with positive extents, and so the largest value of any valid
    packing when every object that fits the container has positive extents.
   */
  method SolveToGridZxy(limit: Limit, objects: seq<Object>)
    returns (names: seq<string>, grid: seq<seq<seq<int>>>, selected: seq<Object>, best: nat)
    ensures Worth(selected) == best
    ensures exists W: Assignment :: Reports(objects, limit, names, grid, selected, best, W)
    ensures forall A: Assignment :: Valid(Items(objects), limit, A) && SolidPlaced(Items(objects), A) ==>
      Value(Items(objects), A) <= best
    ensures FittingSolid(Items(objects), limit) ==> Optimal(Items(objects), limit, best)
  {
    var s, b := Search(limit, objects);
    ghost var W :| Records(s, b.grid, b.selected, b.cost, W);
    RepresentsEntries(Items(objects), limit, b.grid, W);

    var used := UsedIndices(b.grid, |objects|);
    names := Names(objects, used);
    var table := PositionTable(|objects|, used);
    grid := GridZxy(b.grid, limit, table);
    selected := Listed(objects, b.selected);
    best := b.cost;

    BestReported(s, b, W, table);
    assert Reports(objects, limit, names, grid, selected, best, W);
    WorthListed(objects, b.selected);
    SearchOptimal(s, b, W);
  }
}
