/**
  The exhaustive reference search of rust/src/instance/discrete_backpack_3d.rs:
  objects are decided in input order, each is first left out and then tried
  at every origin where it fits, with no pruning. Length runs along x, width
  along y and height along z.

  As in the branch-and-bound model, the state is threaded through immutable
  values and the ghost argument P of Dfs is the packing the state stands for.
 */
module Exhaustive {
  import opened Packing
  import opened NestedGrid

  /** An input object: a numeric label, its extents and its value. */
  datatype Object = Object(name: nat, width: nat, length: nat, height: nat, value: nat)
  {
    function AsItem(): Item {
      Item(length, width, height, value)
    }
  }

  /** The container's extents. */
  datatype Limit = Limit(width: nat, length: nat, height: nat)
  {
    function Space(): Packing.Limit {
      Packing.Limit(length, width, height)
    }
  }

  /** The search's inputs; grids and results live in Current and Best. */
  datatype Solver = Solver(limit: Limit, objects: seq<Object>)
  {
    function Items(): (r: seq<Item>)
      ensures |r| == |objects|
      ensures forall i :: 0 <= i < |objects| ==> r[i] == objects[i].AsItem()
    {
      seq(|objects|, i requires 0 <= i < |objects| => objects[i].AsItem())
    }
  }

  /** The grid and the stack of chosen objects. */
  datatype Current = Current(grid: Grid, selected: seq<Object>)

  /** The best result recorded so far: value, a copy of its grid and its chosen objects. */
  datatype Best = Best(cost: nat, grid: Grid, selected: seq<Object>)

  /** The objects among the first k that packing a places, in index order. */
  function Placed(objects: seq<Object>, a: Assignment, k: nat): (r: seq<Object>)
    requires |a| == |objects| && k <= |a|
    ensures |r| <= k
  {
    if k == 0 then [] else Placed(objects, a, k - 1) + (if a[k - 1].Some? then [objects[k - 1]] else [])
  }

  /** Total value of a list of objects. */
  function Worth(objs: seq<Object>): nat {
    if |objs| == 0 then 0 else Worth(objs[..|objs| - 1]) + objs[|objs| - 1].value
  }

  /** The chosen objects are worth what the packing is worth. */
  lemma {:induction false} WorthPlaced(s: Solver, a: Assignment, k: nat)
    requires |a| == |s.objects| && k <= |a|
    ensures Worth(Placed(s.objects, a, k)) + ValueFrom(s.Items(), a, k) == Value(s.Items(), a)
  {
    if k > 0 {
      WorthPlaced(s, a, k - 1);
      var p := Placed(s.objects, a, k - 1);
      if a[k - 1].Some? {
        assert (p + [s.objects[k - 1]])[..|p|] == p;
      } else {
        assert p + [] == p;
      }
    }
  }

  /** Changing an object at index k or later leaves the first k unchanged. */
  lemma {:induction false} PlacedUpdate(objects: seq<Object>, a: Assignment, k: nat, j: nat, v: Option<Cell>)
    requires |a| == |objects| && k <= j < |a|
    ensures Placed(objects, a[j := v], k) == Placed(objects, a, k)
  {
    if k > 0 {
      PlacedUpdate(objects, a, k - 1, j, v);
    }
  }

  method New(limit: Limit, objects: seq<Object>) returns (s: Solver, cur: Current, best: Best)
    ensures s.limit == limit && s.objects == objects
    ensures Shaped(cur.grid, limit.Space()) && forall c :: FreeAt(cur.grid, c)
    ensures cur.selected == [] && best == Best(0, cur.grid, [])
  {
    s := Solver(limit, objects);
    var empty := EmptyGrid(limit.Space());
    cur := Current(empty, []);
    best := Best(0, empty, []);
  }

  // ---------------------------------------------------------------------------
  // What the search state stands for

  /**
    The state at object k: the grid records packing P, which places only
    objects before k, is worth cost, and whose objects the stack lists.
   */
  ghost predicate CurrentOk(s: Solver, k: nat, cost: nat, cur: Current, P: Assignment) {
    && k <= |s.objects|
    && Valid(s.Items(), s.limit.Space(), P)
    && Represents(s.Items(), s.limit.Space(), cur.grid, P)
    && Value(s.Items(), P) == cost
    && (forall i :: 0 <= i < |P| && P[i].Some? ==> i < k)
    && cur.selected == Placed(s.objects, P, k)
  }

  /** W is a valid packing of value cost, recorded by grid, whose objects selected lists. */
  ghost predicate Records(s: Solver, grid: Grid, selected: seq<Object>, cost: nat, W: Assignment) {
    && Valid(s.Items(), s.limit.Space(), W)
    && Represents(s.Items(), s.limit.Space(), grid, W)
    && Value(s.Items(), W) == cost
    && selected == Placed(s.objects, W, |s.objects|)
  }

  ghost predicate BestOk(s: Solver, best: Best) {
    exists W :: Records(s, best.grid, best.selected, best.cost, W)
  }

  /** The best result changes only to a strictly larger value. */
  predicate Improves(best: Best, best': Best) {
    best'.cost >= best.cost && (best'.cost == best.cost ==> best' == best)
  }

  /** A is a way to finish from object k: a valid packing of objects k and later on empty cells of grid. */
  ghost predicate Extends(s: Solver, k: nat, grid: Grid, A: Assignment) {
    && Valid(s.Items(), s.limit.Space(), A)
    && (forall i :: 0 <= i < |A| && A[i].Some? ==> k <= i)
    && (forall i, c :: 0 <= i < |A| && A[i].Some? && Covers(s.Items()[i], A[i].value, c) ==> FreeAt(grid, c))
  }

  /** Every way to finish from object k, added to cost, is worth at most bound. */
  ghost predicate Dominated(s: Solver, k: nat, cost: nat, grid: Grid, bound: nat) {
    forall A: Assignment :: Extends(s, k, grid, A) ==> cost + Value(s.Items(), A) <= bound
  }

  /** Every finish that puts object k at an origin scanned before o is worth at most bound. */
  ghost predicate TriedBefore(s: Solver, k: nat, cost: nat, grid: Grid, o: Cell, bound: nat)
    requires k < |s.objects|
  {
    forall A: Assignment :: Extends(s, k, grid, A) && A[k].Some? && LexBefore(A[k].value, o) ==>
      cost + Value(s.Items(), A) <= bound
  }

  // ---------------------------------------------------------------------------
  // Steps of the search

  /** The state Solve::new sets up is correct at object 0, for the packing that places nothing. */
  lemma Start(s: Solver, grid: Grid)
    requires Shaped(grid, s.limit.Space()) && forall c :: FreeAt(grid, c)
    ensures CurrentOk(s, 0, 0, Current(grid, []), Nothing(|s.objects|))
    ensures BestOk(s, Best(0, grid, []))
    ensures forall A: Assignment :: Valid(s.Items(), s.limit.Space(), A) ==> Extends(s, 0, grid, A)
  {
    var P := Nothing(|s.objects|);
    ValueFromNone(s.Items(), P, 0);
    PlacedNone(s.objects, P, |s.objects|);
    assert Records(s, grid, [], 0, P);
  }

  lemma {:induction false} PlacedNone(objects: seq<Object>, a: Assignment, k: nat)
    requires |a| == |objects| && k <= |a| && forall i :: 0 <= i < |a| ==> a[i].None?
    ensures Placed(objects, a, k) == []
  {
    if k > 0 {
      PlacedNone(objects, a, k - 1);
    }
  }

  /** The update of lines 49-53: keep the current state when it is strictly better. */
  function Record(cost: nat, cur: Current, best: Best): (r: Best)
    ensures r.cost >= cost && Improves(best, r)
    ensures cost <= best.cost ==> r == best
    ensures cost > best.cost ==> r.cost == cost && r.grid == cur.grid && r.selected == cur.selected
  {
    if cost > best.cost then Best(cost, cur.grid, cur.selected) else best
  }

  /** Once every object is decided, the current state is a packing a best result may record. */
  lemma RecordSound(s: Solver, cost: nat, cur: Current, best: Best, P: Assignment)
    requires CurrentOk(s, |s.objects|, cost, cur, P) && BestOk(s, best)
    ensures BestOk(s, Record(cost, cur, best))
  {
    if cost > best.cost {
      assert Records(s, cur.grid, cur.selected, cost, P);
    }
  }

  /** With every object decided, nothing is left to add. */
  lemma EndBound(s: Solver, grid: Grid)
    ensures forall A: Assignment :: Extends(s, |s.objects|, grid, A) ==> Value(s.Items(), A) == 0
  {
    forall A: Assignment | Extends(s, |s.objects|, grid, A)
      ensures Value(s.Items(), A) == 0
    {
      ValueFromNone(s.Items(), A, 0);
    }
  }

  /** An object larger than the container on some axis is in no finish. */
  lemma Oversized(s: Solver, k: nat, grid: Grid)
    requires k < |s.objects| && !FitsIn(s.limit.Space(), s.Items()[k])
    ensures forall A: Assignment :: Extends(s, k, grid, A) ==> A[k].None?
  {
  }

  /** Leaving object k out keeps the state correct at k + 1. */
  lemma StepSkip(s: Solver, k: nat, cost: nat, cur: Current, P: Assignment)
    requires k < |s.objects| && CurrentOk(s, k, cost, cur, P)
    ensures CurrentOk(s, k + 1, cost, cur, P)
    ensures forall A: Assignment :: Extends(s, k, cur.grid, A) && A[k].None? ==> Extends(s, k + 1, cur.grid, A)
  {
    assert P[k].None?;
  }

  /** Placing object k where it fits and pushing it gives a correct state at k + 1. */
  lemma StepPlace(s: Solver, k: nat, cost: nat, cur: Current, P: Assignment, o: Cell)
    requires k < |s.objects| && CurrentOk(s, k, cost, cur, P)
    requires InLimit(s.limit.Space(), s.Items()[k], o)
    requires CanPlace(cur.grid, s.limit.Space(), s.Items()[k], o)
    ensures CurrentOk(s, k + 1, cost + s.objects[k].value,
                      Current(Fill(cur.grid, s.limit.Space(), Some(k), s.Items()[k], o), cur.selected + [s.objects[k]]),
                      P[k := Some(o)])
  {
    var items := s.Items();
    var P' := P[k := Some(o)];
    assert P[k].None?;
    FillRepresents(items, s.limit.Space(), cur.grid, P, k, o);
    ValueClear(items, P', k);
    assert P'[k := None] == P;
    PlacedUpdate(s.objects, P, k, k, Some(o));
  }

  /** A finish that puts object k at o is, without it, a finish of the state that has it placed there. */
  lemma StepExtends(s: Solver, k: nat, grid: Grid, o: Cell)
    requires k < |s.objects| && Shaped(grid, s.limit.Space())
    ensures forall A: Assignment :: Extends(s, k, grid, A) && A[k] == Some(o) ==> Finishes(s, k, grid, o, A)
  {
    forall A: Assignment | Extends(s, k, grid, A) && A[k] == Some(o)
      ensures Finishes(s, k, grid, o, A)
    {
      StepExtendsOne(s, k, grid, o, A);
    }
  }

  /** Without object k, A finishes the state that has k placed at o, for its value less k's. */
  ghost predicate Finishes(s: Solver, k: nat, grid: Grid, o: Cell, A: Assignment)
    requires k < |s.objects| && Shaped(grid, s.limit.Space()) && |A| == |s.objects|
  {
    && Extends(s, k + 1, Fill(grid, s.limit.Space(), Some(k), s.Items()[k], o), A[k := None])
    && Value(s.Items(), A) == Value(s.Items(), A[k := None]) + s.objects[k].value
  }

  lemma StepExtendsOne(s: Solver, k: nat, grid: Grid, o: Cell, A: Assignment)
    requires k < |s.objects| && Shaped(grid, s.limit.Space())
    requires Extends(s, k, grid, A) && A[k] == Some(o)
    ensures Finishes(s, k, grid, o, A)
  {
    var items := s.Items();
    var lim := s.limit.Space();
    var grid' := Fill(grid, lim, Some(k), items[k], o);
    var A' := A[k := None];
    ValidDrop(items, lim, A, k);
    ValueClear(items, A, k);
    forall j, c | 0 <= j < |A'| && A'[j].Some? && Covers(items[j], A'[j].value, c)
      ensures FreeAt(grid', c)
    {
      assert A[j] == A'[j];
      assert Disjoint(items[j], A[j].value, items[k], o);
      assert InLimit(lim, items[j], A[j].value);
      assert InContainer(lim, c);
      assert FreeAt(grid, c);
    }
  }

  /** What the search below a placement at o achieves bounds every finish that puts object k at o. */
  lemma PlaceBound(s: Solver, k: nat, cost: nat, grid: Grid, o: Cell, b: nat)
    requires k < |s.objects| && Shaped(grid, s.limit.Space())
    requires Dominated(s, k + 1, cost + s.objects[k].value, Fill(grid, s.limit.Space(), Some(k), s.Items()[k], o), b)
    ensures forall A: Assignment :: Extends(s, k, grid, A) && A[k] == Some(o) ==> cost + Value(s.Items(), A) <= b
  {
    StepExtends(s, k, grid, o);
  }

  // ---------------------------------------------------------------------------
  // The search

  /**
    dfs(current_object_index, prev_cost). It hands back the state it was
    given, keeps the best result a genuine packing that only ever improves,
    and leaves a best result at least as good as any way to finish the
    current state.
   */
  method Dfs(s: Solver, k: nat, cost: nat, cur: Current, best: Best, ghost P: Assignment)
    returns (cur': Current, best': Best)
    requires CurrentOk(s, k, cost, cur, P) && BestOk(s, best)
    ensures cur' == cur
    ensures BestOk(s, best') && Improves(best, best')
    ensures Dominated(s, k, cost, cur.grid, best'.cost)
    decreases |s.objects| - k, 4
  {
    if k == |s.objects| {
      best' := Record(cost, cur, best);
      RecordSound(s, cost, cur, best, P);
      EndBound(s, cur.grid);
      return cur, best';
    }
    var obj := s.objects[k];
    StepSkip(s, k, cost, cur, P);
    cur', best' := Dfs(s, k + 1, cost, cur, best, P);
    if obj.length > s.limit.length || obj.width > s.limit.width || obj.height > s.limit.height {
      Oversized(s, k, cur.grid);
      return;
    }
    best' := PlaceAll(s, k, cost, cur, best', P);
  }

  /** The placement loop of dfs (lines 78-101): every origin in x, then y, then z order where the object fits. */
  method PlaceAll(s: Solver, k: nat, cost: nat, cur: Current, best: Best, ghost P: Assignment)
    returns (best': Best)
    requires k < |s.objects| && FitsIn(s.limit.Space(), s.Items()[k])
    requires CurrentOk(s, k, cost, cur, P) && BestOk(s, best)
    ensures BestOk(s, best') && Improves(best, best')
    ensures forall A: Assignment :: Extends(s, k, cur.grid, A) && A[k].Some? ==> cost + Value(s.Items(), A) <= best'.cost
    decreases |s.objects| - k, 3
  {
    var maxX: nat := s.limit.length - s.objects[k].length + 1;
    best' := best;
    var x := 0;
    while x < maxX
      invariant x <= maxX
      invariant BestOk(s, best') && Improves(best, best')
      invariant TriedBefore(s, k, cost, cur.grid, Cell(x, 0, 0), best'.cost)
    {
      best' := PlaceRow(s, k, cost, cur, best', P, x);
      x := x + 1;
    }
    AllTried(s, k, cost, cur.grid, best'.cost);
  }

  /** One x-slice of the placement loop. */
  method PlaceRow(s: Solver, k: nat, cost: nat, cur: Current, best: Best, ghost P: Assignment, x: nat)
    returns (best': Best)
    requires k < |s.objects| && FitsIn(s.limit.Space(), s.Items()[k]) && x + s.objects[k].length <= s.limit.length
    requires CurrentOk(s, k, cost, cur, P) && BestOk(s, best)
    requires TriedBefore(s, k, cost, cur.grid, Cell(x, 0, 0), best.cost)
    ensures BestOk(s, best') && Improves(best, best')
    ensures TriedBefore(s, k, cost, cur.grid, Cell(x + 1, 0, 0), best'.cost)
    decreases |s.objects| - k, 2
  {
    var maxY: nat := s.limit.width - s.objects[k].width + 1;
    best' := best;
    var y := 0;
    while y < maxY
      invariant y <= maxY
      invariant BestOk(s, best') && Improves(best, best')
      invariant TriedBefore(s, k, cost, cur.grid, Cell(x, y, 0), best'.cost)
    {
      best' := PlaceColumn(s, k, cost, cur, best', P, x, y);
      y := y + 1;
    }
    RowTried(s, k, cost, cur.grid, x, best'.cost);
  }

  /** One (x, y) column of the placement loop. */
  method PlaceColumn(s: Solver, k: nat, cost: nat, cur: Current, best: Best, ghost P: Assignment, x: nat, y: nat)
    returns (best': Best)
    requires k < |s.objects| && FitsIn(s.limit.Space(), s.Items()[k])
    requires x + s.objects[k].length <= s.limit.length && y + s.objects[k].width <= s.limit.width
    requires CurrentOk(s, k, cost, cur, P) && BestOk(s, best)
    requires TriedBefore(s, k, cost, cur.grid, Cell(x, y, 0), best.cost)
    ensures BestOk(s, best') && Improves(best, best')
    ensures TriedBefore(s, k, cost, cur.grid, Cell(x, y + 1, 0), best'.cost)
    decreases |s.objects| - k, 1
  {
    var maxZ: nat := s.limit.height - s.objects[k].height + 1;
    best' := best;
    var z := 0;
    while z < maxZ
      invariant z <= maxZ
      invariant BestOk(s, best') && Improves(best, best')
      invariant TriedBefore(s, k, cost, cur.grid, Cell(x, y, z), best'.cost)
    {
      ghost var before := best'.cost;
      best' := TryAt(s, k, cost, cur, best', P, Cell(x, y, z));
      TriedStep(s, k, cost, cur.grid, Cell(x, y, z), before, best'.cost);
      z := z + 1;
    }
    ColumnTried(s, k, cost, cur.grid, x, y, best'.cost);
  }

  /** The body of the innermost loop: if object k fits at o, place and push it, search on, then pop and remove it. */
  method TryAt(s: Solver, k: nat, cost: nat, cur: Current, best: Best, ghost P: Assignment, o: Cell)
    returns (best': Best)
    requires k < |s.objects| && InLimit(s.limit.Space(), s.Items()[k], o)
    requires CurrentOk(s, k, cost, cur, P) && BestOk(s, best)
    ensures BestOk(s, best') && Improves(best, best')
    ensures forall A: Assignment :: Extends(s, k, cur.grid, A) && A[k] == Some(o) ==> cost + Value(s.Items(), A) <= best'.cost
    decreases |s.objects| - k, 0
  {
    var lim := s.limit.Space();
    var item := s.objects[k].AsItem();
    if CanPlace(cur.grid, lim, item, o) {
      var placed := Current(Fill(cur.grid, lim, Some(k), item, o), cur.selected + [s.objects[k]]);
      StepPlace(s, k, cost, cur, P, o);
      var after;
      after, best' := Dfs(s, k + 1, cost + s.objects[k].value, placed, best, P[k := Some(o)]);
      var restored := Current(Fill(after.grid, lim, None, item, o), after.selected[..|after.selected| - 1]);
      FillRestore(cur.grid, lim, Some(k), item, o);
      assert restored == cur;
      PlaceBound(s, k, cost, cur.grid, o, best'.cost);
    } else {
      best' := best;
    }
  }

  /** Trying origin o, with the bound raised from b to b', extends the tried region past o. */
  lemma TriedStep(s: Solver, k: nat, cost: nat, grid: Grid, o: Cell, b: nat, b': nat)
    requires k < |s.objects| && b <= b'
    requires TriedBefore(s, k, cost, grid, o, b)
    requires forall A: Assignment :: Extends(s, k, grid, A) && A[k] == Some(o) ==> cost + Value(s.Items(), A) <= b'
    ensures TriedBefore(s, k, cost, grid, Cell(o.x, o.y, o.z + 1), b')
  {
  }

  /** After the last z of column (x, y), the tried region reaches the start of column (x, y + 1). */
  lemma ColumnTried(s: Solver, k: nat, cost: nat, grid: Grid, x: nat, y: nat, b: nat)
    requires k < |s.objects| && FitsIn(s.limit.Space(), s.Items()[k])
    requires TriedBefore(s, k, cost, grid, Cell(x, y, s.limit.height - s.objects[k].height + 1), b)
    ensures TriedBefore(s, k, cost, grid, Cell(x, y + 1, 0), b)
  {
  }

  /** After the last y of slice x, the tried region reaches the start of slice x + 1. */
  lemma RowTried(s: Solver, k: nat, cost: nat, grid: Grid, x: nat, b: nat)
    requires k < |s.objects| && FitsIn(s.limit.Space(), s.Items()[k])
    requires TriedBefore(s, k, cost, grid, Cell(x, s.limit.width - s.objects[k].width + 1, 0), b)
    ensures TriedBefore(s, k, cost, grid, Cell(x + 1, 0, 0), b)
  {
  }

  /** After the last x every origin inside the container has been tried. */
  lemma AllTried(s: Solver, k: nat, cost: nat, grid: Grid, b: nat)
    requires k < |s.objects| && FitsIn(s.limit.Space(), s.Items()[k])
    requires TriedBefore(s, k, cost, grid, Cell(s.limit.length - s.objects[k].length + 1, 0, 0), b)
    ensures forall A: Assignment :: Extends(s, k, grid, A) && A[k].Some? ==> cost + Value(s.Items(), A) <= b
  {
  }
}
