/**
  The branch-and-bound search of rust/src/lib.rs (struct Solve): a depth-first
  search over the value-ranked feasible objects on a flat occupancy grid,
  pruned by the suffix value bound, by the remaining free volume and by a full
  container, which tries every placement of the current object before trying
  to leave it out.

  The search state is threaded through immutable values: `Current` is the
  grid, the used-volume counter and the stack of chosen objects; `Best` is the
  best result recorded so far. The ghost argument P of Dfs is the packing the
  current state stands for.
 */
module BranchBound {
  import opened Packing
  import opened FlatGrid
  import opened Ordering

  /** An input object: a label, its extents along x, y, z and its value. */
  datatype Object = Object(name: string, x: nat, y: nat, z: nat, value: nat)
  {
    function AsItem(): Item {
      Item(x, y, z, value)
    }

    function Volume(): nat {
      x * y * z
    }
  }

  function Items(objects: seq<Object>): (r: seq<Item>)
    ensures |r| == |objects|
    ensures forall i :: 0 <= i < |objects| ==> r[i] == objects[i].AsItem()
  {
    seq(|objects|, i requires 0 <= i < |objects| => objects[i].AsItem())
  }

  /** What Solve::new precomputes; the grid and the best result live in Current and Best. */
  datatype Solver = Solver(limit: Limit, objects: seq<Object>, order: seq<nat>,
                           suffix: seq<nat>, volumes: seq<nat>, capacity: nat)
  {
    ghost predicate Wf() {
      && IndicesBelow(order, |objects|)
      && Distinct(order)
      && (forall k :: 0 <= k < |order| ==> FitsIn(limit, objects[order[k]].AsItem()))
      && (forall j :: 0 <= j < |objects| && FitsIn(limit, objects[j].AsItem()) ==> j in order)
      && |suffix| == |order| + 1
      && (forall p :: 0 <= p <= |order| ==> suffix[p] == SumOf(Items(objects), order[p..]))
      && |volumes| == |objects|
      && (forall i :: 0 <= i < |objects| ==> volumes[i] == objects[i].Volume())
      && capacity == Cells(limit)
    }
  }

  /** The part of the solver that the search changes and restores: grid, used volume, chosen objects. */
  datatype Current = Current(grid: seq<int>, used: nat, selected: seq<nat>)

  /** The best result recorded so far: its value, a copy of its grid and its chosen objects. */
  datatype Best = Best(cost: nat, grid: seq<int>, selected: seq<nat>)

  /**
    Solve::new: volumes, the value-ranked feasible order, the suffix value
    sums, an all-empty grid and a best result of 0.
   */
  method New(limit: Limit, objects: seq<Object>) returns (s: Solver, cur: Current, best: Best)
    ensures s.Wf() && s.limit == limit && s.objects == objects
    ensures s.order == SearchOrder(Items(objects), limit)
    ensures forall j: nat :: j in s.order <==> j < |objects| && FitsIn(limit, objects[j].AsItem())
    ensures Distinct(s.order)
    ensures forall p, q :: 0 <= p < q < |s.order| ==> Precedes(Items(objects), s.order[p], s.order[q])
    ensures s.suffix[|s.order|] == 0
    ensures forall p :: 0 <= p <= |s.order| ==> s.suffix[p] == SumOf(Items(objects), s.order[p..])
    ensures s.capacity == limit.x * limit.y * limit.z
    ensures |cur.grid| == s.capacity && forall k :: 0 <= k < |cur.grid| ==> cur.grid[k] == -1
    ensures cur.grid == Empty(limit)
    ensures cur.used == 0 && cur.selected == []
    ensures best.cost == 0 && best.grid == cur.grid && best.selected == []
  {
    var items := Items(objects);
    var volumes := seq(|objects|, i requires 0 <= i < |objects| => objects[i].Volume());
    var order := SortByValue(items, Feasible(items, limit));
    RankSortedDistinct(items, order);
    var suffix := SuffixValues(items, order);
    var empty := Empty(limit);
    s := Solver(limit, objects, order, suffix, volumes, Cells(limit));
    cur := Current(empty, 0, []);
    best := Best(0, empty, []);
  }

  // ---------------------------------------------------------------------------
  // place / remove

  /** place: writes object i into the cells of its box at origin o and adds its volume. */
  function Place(s: Solver, cur: Current, i: nat, o: Cell): (r: Current)
    requires s.Wf() && i < |s.objects| && |cur.grid| == Cells(s.limit)
    requires InLimit(s.limit, s.objects[i].AsItem(), o)
    ensures |r.grid| == |cur.grid| && r.selected == cur.selected
    ensures r.used == cur.used + s.objects[i].x * s.objects[i].y * s.objects[i].z
    ensures forall c :: InContainer(s.limit, c) ==>
      At(r.grid, s.limit, c) == if Covers(s.objects[i].AsItem(), o, c) then i else At(cur.grid, s.limit, c)
  {
    Current(Fill(cur.grid, s.limit, i, s.objects[i].AsItem(), o), cur.used + s.volumes[i], cur.selected)
  }

  /** remove: clears the cells of the box and subtracts its volume. */
  function Remove(s: Solver, cur: Current, i: nat, o: Cell): (r: Current)
    requires s.Wf() && i < |s.objects| && |cur.grid| == Cells(s.limit) && s.volumes[i] <= cur.used
    requires InLimit(s.limit, s.objects[i].AsItem(), o)
    ensures |r.grid| == |cur.grid| && r.selected == cur.selected
    ensures r.used + s.objects[i].x * s.objects[i].y * s.objects[i].z == cur.used
    ensures forall c :: InContainer(s.limit, c) ==>
      At(r.grid, s.limit, c) == if Covers(s.objects[i].AsItem(), o, c) then -1 else At(cur.grid, s.limit, c)
  {
    Current(Fill(cur.grid, s.limit, -1, s.objects[i].AsItem(), o), cur.used - s.volumes[i], cur.selected)
  }

  /** Removing a box just placed where it fitted restores the grid and the counter exactly. */
  lemma RemoveAfterPlace(s: Solver, cur: Current, i: nat, o: Cell)
    requires s.Wf() && i < |s.objects| && |cur.grid| == Cells(s.limit)
    requires CanPlace(cur.grid, s.limit, s.objects[i].AsItem(), o)
    ensures Remove(s, Place(s, cur, i, o), i, o) == cur
  {
    FillRestore(cur.grid, s.limit, i, s.objects[i].AsItem(), o);
  }

  /** Placing a box where it fits keeps the counter equal to the number of occupied cells. */
  lemma PlaceCounts(s: Solver, cur: Current, i: nat, o: Cell)
    requires s.Wf() && i < |s.objects| && |cur.grid| == Cells(s.limit)
    requires CanPlace(cur.grid, s.limit, s.objects[i].AsItem(), o)
    requires cur.used == Occupied(cur.grid, s.limit)
    ensures Place(s, cur, i, o).used == Occupied(Place(s, cur, i, o).grid, s.limit)
  {
    FillOccupied(cur.grid, s.limit, i, s.objects[i].AsItem(), o);
  }

  // ---------------------------------------------------------------------------
  // What the search state stands for

  /**
    The state at search position pos: the grid records packing P, P places
    only objects from the first pos positions of the order, the counter
    counts the occupied cells, and the chosen-object stack lists P's objects
    in search order with total value cost.
   */
  ghost predicate CurrentOk(s: Solver, pos: nat, cost: nat, cur: Current, P: Assignment)
    requires s.Wf()
  {
    && pos <= |s.order|
    && Valid(Items(s.objects), s.limit, P)
    && Represents(Items(s.objects), s.limit, cur.grid, P)
    && Value(Items(s.objects), P) == cost
    && (forall i :: 0 <= i < |P| && P[i].Some? ==> i in s.order[..pos])
    && cur.used == Occupied(cur.grid, s.limit)
    && cur.selected == Picked(P, s.order[..pos])
    && SumOf(Items(s.objects), cur.selected) == cost
  }

  /** W is a valid packing of value cost, recorded by grid, whose objects selected lists in search order. */
  ghost predicate Records(s: Solver, grid: seq<int>, selected: seq<nat>, cost: nat, W: Assignment)
    requires s.Wf()
  {
    && Valid(Items(s.objects), s.limit, W)
    && Represents(Items(s.objects), s.limit, grid, W)
    && Value(Items(s.objects), W) == cost
    && selected == Picked(W, s.order)
    && SumOf(Items(s.objects), selected) == cost
  }

  /** The best result describes an actual valid packing. */
  ghost predicate BestOk(s: Solver, best: Best)
    requires s.Wf()
  {
    exists W :: Records(s, best.grid, best.selected, best.cost, W)
  }

  /** The best result changes only to a strictly larger value. */
  predicate Improves(best: Best, best': Best) {
    best'.cost >= best.cost && (best'.cost == best.cost ==> best' == best)
  }

  /**
    A is a way to finish the search from position pos: a valid packing of
    objects not yet decided whose boxes all lie on empty cells of grid.
   */
  ghost predicate Extends(s: Solver, pos: nat, grid: seq<int>, A: Assignment)
    requires s.Wf()
  {
    && pos <= |s.order|
    && Valid(Items(s.objects), s.limit, A)
    && (forall i :: 0 <= i < |A| && A[i].Some? ==> i in s.order[pos..])
    && (forall i, c :: 0 <= i < |A| && A[i].Some? && Covers(Items(s.objects)[i], A[i].value, c) ==>
          Free(grid, s.limit, c))
  }

  /**
    Every way to finish the search from pos that places only objects of
    positive extents, added to cost, is worth at most bound. Finishes that
    place a flat object are left out: the full-container stop of dfs (lines
    116-124) never tries them.
   */
  ghost predicate Dominated(s: Solver, pos: nat, cost: nat, grid: seq<int>, bound: nat)
    requires s.Wf()
  {
    forall A: Assignment :: Extends(s, pos, grid, A) && SolidPlaced(Items(s.objects), A) ==>
      cost + Value(Items(s.objects), A) <= bound
  }

  /** Every solid finish that puts the object at position pos at an origin scanned before o is worth at most bound. */
  ghost predicate TriedBefore(s: Solver, pos: nat, cost: nat, grid: seq<int>, o: Cell, bound: nat)
    requires s.Wf() && pos < |s.order|
  {
    forall A: Assignment ::
      Extends(s, pos, grid, A) && SolidPlaced(Items(s.objects), A) &&
      A[s.order[pos]].Some? && LexBefore(A[s.order[pos]].value, o) ==>
        cost + Value(Items(s.objects), A) <= bound
  }

  /** The state Solve::new sets up is correct at position 0, for the packing that places nothing. */
  lemma Start(s: Solver)
    requires s.Wf()
    ensures CurrentOk(s, 0, 0, Current(Empty(s.limit), 0, []), Nothing(|s.objects|))
    ensures BestOk(s, Best(0, Empty(s.limit), []))
  {
    var items := Items(s.objects);
    var P := Nothing(|s.objects|);
    assert Valid(items, s.limit, P);
    EmptyRepresents(items, s.limit);
    EmptyOccupied(s.limit);
    ValueFromNone(items, P, 0);
    assert s.order[..0] == [];
    assert Picked(P, []) == [];
    PickedNone(P, s.order);
    assert Records(s, Empty(s.limit), [], 0, P);
  }

  /** Every valid packing is a way to finish the search from its start. */
  lemma StartExtends(s: Solver)
    requires s.Wf()
    ensures forall A: Assignment :: Valid(Items(s.objects), s.limit, A) ==> Extends(s, 0, Empty(s.limit), A)
  {
    assert s.order[0..] == s.order;
  }

  // ---------------------------------------------------------------------------
  // Recording a result

  /** The update of lines 118-122 and 128-132: keep the current state when it is strictly better. */
  function Record(cost: nat, cur: Current, best: Best): (r: Best)
    ensures r.cost >= cost && Improves(best, r)
    ensures cost <= best.cost ==> r == best
    ensures cost > best.cost ==> r.cost == cost && r.grid == cur.grid && r.selected == cur.selected
  {
    if cost > best.cost then Best(cost, cur.grid, cur.selected) else best
  }

  /** The packing of the current state is a valid packing the search order lists completely. */
  lemma RecordSound(s: Solver, pos: nat, cost: nat, cur: Current, best: Best, P: Assignment)
    requires s.Wf() && CurrentOk(s, pos, cost, cur, P) && BestOk(s, best)
    ensures BestOk(s, Record(cost, cur, best))
  {
    if cost > best.cost {
      var items := Items(s.objects);
      forall k | 0 <= k < |s.order[pos..]|
        ensures P[s.order[pos..][k]].None?
      {
        assert s.order[pos..][k] == s.order[pos + k];
        assert s.order[pos + k] !in s.order[..pos];
      }
      PickedNone(P, s.order[pos..]);
      PickedAppend(P, s.order[..pos], s.order[pos..]);
      assert s.order[..pos] + s.order[pos..] == s.order;
      assert Records(s, cur.grid, cur.selected, cost, P);
    }
  }

  // ---------------------------------------------------------------------------
  // The pruning rules are safe

  /** Nothing still undecided is worth more than the suffix sum of the remaining order. */
  lemma SuffixBound(s: Solver, pos: nat, grid: seq<int>)
    requires s.Wf() && pos <= |s.order|
    ensures forall A: Assignment :: Extends(s, pos, grid, A) ==> Value(Items(s.objects), A) <= s.suffix[pos]
  {
    forall A: Assignment | Extends(s, pos, grid, A)
      ensures Value(Items(s.objects), A) <= s.suffix[pos]
    {
      ValueWithin(Items(s.objects), A, s.order[pos..]);
    }
  }

  /** The counter never exceeds the capacity. */
  lemma UsedWithin(s: Solver, pos: nat, cost: nat, cur: Current, P: Assignment)
    requires s.Wf() && CurrentOk(s, pos, cost, cur, P)
    ensures cur.used <= s.capacity
  {
    OccupiedRange(cur.grid, s.limit);
  }

  /** A placed box of positive extents occupies its own origin, a cell of the container the grid leaves empty. */
  lemma OriginFree(s: Solver, pos: nat, grid: seq<int>, A: Assignment, j: nat)
    requires s.Wf() && Extends(s, pos, grid, A) && SolidPlaced(Items(s.objects), A) && j < |A|
    ensures A[j].Some? ==> InContainer(s.limit, A[j].value) && Free(grid, s.limit, A[j].value)
  {
    if A[j].Some? {
      var items := Items(s.objects);
      var o := A[j].value;
      assert Solid(items[j]);
      assert Covers(items[j], o, o);
      assert InLimit(s.limit, items[j], o);
    }
  }

  /**
    With a full container no box of positive extents can still be placed,
    so every finish that places only such boxes is worth 0.
   */
  lemma SaturatedBound(s: Solver, pos: nat, grid: seq<int>)
    requires s.Wf()
    requires forall c :: InContainer(s.limit, c) ==> !Free(grid, s.limit, c)
    ensures forall A: Assignment :: Extends(s, pos, grid, A) && SolidPlaced(Items(s.objects), A) ==>
      Value(Items(s.objects), A) == 0
  {
    forall A: Assignment | Extends(s, pos, grid, A) && SolidPlaced(Items(s.objects), A)
      ensures Value(Items(s.objects), A) == 0
    {
      forall j | 0 <= j < |A|
        ensures A[j].None?
      {
        SaturatedNone(s, pos, grid, A, j);
      }
      ValueFromNone(Items(s.objects), A, 0);
    }
  }

  /** In a full container a finish of solid objects places no object j. */
  lemma SaturatedNone(s: Solver, pos: nat, grid: seq<int>, A: Assignment, j: nat)
    requires s.Wf() && Extends(s, pos, grid, A) && SolidPlaced(Items(s.objects), A) && j < |A|
    requires forall c :: InContainer(s.limit, c) ==> !Free(grid, s.limit, c)
    ensures A[j].None?
  {
    OriginFree(s, pos, grid, A, j);
  }

  /** A finish that places the current object needs a spot where the grid can take it. */
  lemma ExtensionPlaceable(s: Solver, pos: nat, grid: seq<int>)
    requires s.Wf() && pos < |s.order| && |grid| == Cells(s.limit)
    ensures forall A: Assignment :: Extends(s, pos, grid, A) && A[s.order[pos]].Some? ==>
      CanPlace(grid, s.limit, s.objects[s.order[pos]].AsItem(), A[s.order[pos]].value)
  {
  }

  /** A finish that places the current object needs at least its volume of free cells. */
  lemma VolumeGuard(s: Solver, pos: nat, cost: nat, cur: Current, P: Assignment)
    requires s.Wf() && pos < |s.order| && CurrentOk(s, pos, cost, cur, P)
    ensures forall A: Assignment :: Extends(s, pos, cur.grid, A) && A[s.order[pos]].Some? ==>
      s.volumes[s.order[pos]] <= s.capacity - cur.used
  {
    var i := s.order[pos];
    var item := s.objects[i].AsItem();
    ExtensionPlaceable(s, pos, cur.grid);
    forall A: Assignment | Extends(s, pos, cur.grid, A) && A[i].Some?
      ensures s.volumes[i] <= s.capacity - cur.used
    {
      FillOccupied(cur.grid, s.limit, i, item, A[i].value);
      OccupiedRange(Fill(cur.grid, s.limit, i, item, A[i].value), s.limit);
    }
  }

  // ---------------------------------------------------------------------------
  // One step of the search

  lemma OrderSplit(s: Solver, pos: nat)
    requires s.Wf() && pos < |s.order|
    ensures s.order[..pos + 1] == s.order[..pos] + [s.order[pos]]
    ensures s.order[pos..] == [s.order[pos]] + s.order[pos + 1..]
    ensures s.order[pos] !in s.order[..pos] && s.order[pos] !in s.order[pos + 1..]
  {
  }

  /** Placing the current object where it fits and pushing it gives a correct state one position on. */
  lemma StepPlace(s: Solver, pos: nat, cost: nat, cur: Current, P: Assignment, o: Cell)
    requires s.Wf() && pos < |s.order| && CurrentOk(s, pos, cost, cur, P)
    requires CanPlace(cur.grid, s.limit, s.objects[s.order[pos]].AsItem(), o)
    ensures var i := s.order[pos];
      var placed := Place(s, cur, i, o);
      CurrentOk(s, pos + 1, cost + s.objects[i].value, placed.(selected := placed.selected + [i]), P[i := Some(o)])
  {
    StepPlaceGrid(s, pos, cost, cur, P, o);
    StepPlaceStack(s, pos, cost, cur, P, o);
  }

  lemma StepPlaceGrid(s: Solver, pos: nat, cost: nat, cur: Current, P: Assignment, o: Cell)
    requires s.Wf() && pos < |s.order| && CurrentOk(s, pos, cost, cur, P)
    requires CanPlace(cur.grid, s.limit, s.objects[s.order[pos]].AsItem(), o)
    ensures var i := s.order[pos];
      var P' := P[i := Some(o)];
      && Valid(Items(s.objects), s.limit, P')
      && Represents(Items(s.objects), s.limit, Place(s, cur, i, o).grid, P')
      && Value(Items(s.objects), P') == cost + s.objects[i].value
      && (forall j :: 0 <= j < |P'| && P'[j].Some? ==> j in s.order[..pos + 1])
      && Place(s, cur, i, o).used == Occupied(Place(s, cur, i, o).grid, s.limit)
  {
    var items := Items(s.objects);
    var i := s.order[pos];
    var P' := P[i := Some(o)];
    OrderSplit(s, pos);
    assert P[i].None?;
    FillRepresents(items, s.limit, cur.grid, P, i, o);
    ValueClear(items, P', i);
    assert P'[i := None] == P;
    PlaceCounts(s, cur, i, o);
  }

  lemma StepPlaceStack(s: Solver, pos: nat, cost: nat, cur: Current, P: Assignment, o: Cell)
    requires s.Wf() && pos < |s.order| && CurrentOk(s, pos, cost, cur, P)
    ensures var i := s.order[pos];
      var P' := P[i := Some(o)];
      && cur.selected + [i] == Picked(P', s.order[..pos + 1])
      && SumOf(Items(s.objects), cur.selected + [i]) == cost + s.objects[i].value
  {
    var items := Items(s.objects);
    var i := s.order[pos];
    var P' := P[i := Some(o)];
    OrderSplit(s, pos);
    PickedAppend(P', s.order[..pos], [i]);
    PickedUpdate(P, s.order[..pos], i, Some(o));
    SumOfAppend(items, cur.selected, i);
  }

  /** A finish that puts the current object at o is, without it, a finish of the state after placing it. */
  lemma StepExtends(s: Solver, pos: nat, grid: seq<int>, o: Cell)
    requires s.Wf() && pos < |s.order| && |grid| == Cells(s.limit)
    ensures forall A: Assignment :: Extends(s, pos, grid, A) && A[s.order[pos]] == Some(o) ==>
      Finishes(s, pos, grid, o, A)
  {
    forall A: Assignment | Extends(s, pos, grid, A) && A[s.order[pos]] == Some(o)
      ensures Finishes(s, pos, grid, o, A)
    {
      StepExtendsOne(s, pos, grid, o, A);
    }
  }

  /** Without the current object, A finishes the state that has it placed at o, for its value less the object's. */
  ghost predicate Finishes(s: Solver, pos: nat, grid: seq<int>, o: Cell, A: Assignment)
    requires s.Wf() && pos < |s.order| && |grid| == Cells(s.limit) && |A| == |s.objects|
    requires InLimit(s.limit, s.objects[s.order[pos]].AsItem(), o)
  {
    var i := s.order[pos];
    && Extends(s, pos + 1, Fill(grid, s.limit, i, s.objects[i].AsItem(), o), A[i := None])
    && Value(Items(s.objects), A) == Value(Items(s.objects), A[i := None]) + s.objects[i].value
  }

  lemma StepExtendsOne(s: Solver, pos: nat, grid: seq<int>, o: Cell, A: Assignment)
    requires s.Wf() && pos < |s.order| && |grid| == Cells(s.limit)
    requires Extends(s, pos, grid, A) && A[s.order[pos]] == Some(o)
    ensures Finishes(s, pos, grid, o, A)
  {
    var items := Items(s.objects);
    var i := s.order[pos];
    var grid' := Fill(grid, s.limit, i, s.objects[i].AsItem(), o);
    var A' := A[i := None];
    OrderSplit(s, pos);
    ValidDrop(items, s.limit, A, i);
    ValueClear(items, A, i);
    forall j | 0 <= j < |A'| && A'[j].Some?
      ensures j in s.order[pos + 1..]
    {
      assert j != i && j in s.order[pos..];
    }
    forall j, c | 0 <= j < |A'| && A'[j].Some? && Covers(items[j], A'[j].value, c)
      ensures Free(grid', s.limit, c)
    {
      assert A[j] == A'[j];
      assert Disjoint(items[j], A[j].value, items[i], o);
      assert !Covers(items[i], o, c);
      assert InLimit(s.limit, items[j], A[j].value);
      assert InContainer(s.limit, c);
      assert Free(grid, s.limit, c);
    }
  }

  /** Leaving the current object out keeps the state correct one position on. */
  lemma StepSkip(s: Solver, pos: nat, cost: nat, cur: Current, P: Assignment)
    requires s.Wf() && pos < |s.order| && CurrentOk(s, pos, cost, cur, P)
    ensures CurrentOk(s, pos + 1, cost, cur, P)
    ensures forall A: Assignment :: Extends(s, pos, cur.grid, A) && A[s.order[pos]].None? ==> Extends(s, pos + 1, cur.grid, A)
  {
    var i := s.order[pos];
    OrderSplit(s, pos);
    assert P[i].None?;
    PickedAppend(P, s.order[..pos], [i]);
    forall A: Assignment | Extends(s, pos, cur.grid, A) && A[i].None?
      ensures Extends(s, pos + 1, cur.grid, A)
    {
      forall j | 0 <= j < |A| && A[j].Some?
        ensures j in s.order[pos + 1..]
      {
        assert j != i && j in s.order[pos..];
      }
    }
  }

  // ---------------------------------------------------------------------------
  // The search

  /**
    dfs(order_pos, prev_cost). It hands back the state it was given, keeps
    the best result a genuine packing that only ever improves, and leaves a
    best result at least as good as any way to finish the current state
    that places only objects of positive extents.
   */
  method Dfs(s: Solver, pos: nat, cost: nat, cur: Current, best: Best, ghost P: Assignment)
    returns (cur': Current, best': Best)
    requires s.Wf() && CurrentOk(s, pos, cost, cur, P) && BestOk(s, best)
    ensures cur' == cur
    ensures BestOk(s, best') && Improves(best, best')
    ensures Dominated(s, pos, cost, cur.grid, best'.cost)
    decreases |s.order| - pos, 5
  {
    if cost + s.suffix[pos] <= best.cost {
      SuffixBound(s, pos, cur.grid);
      return cur, best;
    }
    if cur.used == s.capacity {
      best' := Record(cost, cur, best);
      RecordSound(s, pos, cost, cur, best, P);
      OccupiedRange(cur.grid, s.limit);
      SaturatedBound(s, pos, cur.grid);
      return cur, best';
    }
    if pos == |s.order| {
      best' := Record(cost, cur, best);
      RecordSound(s, pos, cost, cur, best, P);
      SuffixBound(s, pos, cur.grid);
      return cur, best';
    }
    var i := s.order[pos];
    UsedWithin(s, pos, cost, cur, P);
    var remaining := s.capacity - cur.used;
    var c, b := cur, best;
    if s.volumes[i] <= remaining {
      c, b := PlaceAll(s, pos, cost, cur, best, P);
    } else {
      VolumeGuard(s, pos, cost, cur, P);
    }
    StepSkip(s, pos, cost, cur, P);
    cur', best' := Dfs(s, pos + 1, cost, c, b, P);
  }

  /**
    The placement loop of dfs (lines 143-164): every origin in x, then y,
    then z order at which the object fits the current grid.
   */
  method PlaceAll(s: Solver, pos: nat, cost: nat, cur: Current, best: Best, ghost P: Assignment)
    returns (cur': Current, best': Best)
    requires s.Wf() && pos < |s.order| && CurrentOk(s, pos, cost, cur, P) && BestOk(s, best)
    ensures cur' == cur
    ensures BestOk(s, best') && Improves(best, best')
    ensures forall A: Assignment ::
      Extends(s, pos, cur.grid, A) && SolidPlaced(Items(s.objects), A) && A[s.order[pos]].Some? ==>
        cost + Value(Items(s.objects), A) <= best'.cost
    decreases |s.order| - pos, 4
  {
    var obj := s.objects[s.order[pos]];
    var maxX: nat := s.limit.x - obj.x + 1;
    cur', best' := cur, best;
    var x := 0;
    while x < maxX
      invariant x <= maxX
      invariant cur' == cur && BestOk(s, best') && Improves(best, best')
      invariant TriedBefore(s, pos, cost, cur.grid, Cell(x, 0, 0), best'.cost)
    {
      assert Searching(s, pos, cost, cur, P, best');
      best' := PlaceRow(s, pos, cost, cur, best', P, x);
      x := x + 1;
    }
    AllTried(s, pos, cost, cur.grid, best'.cost);
  }

  /**
    The search at position pos, before the object there is decided: the
    solver is well formed, the current state is correct and the best result
    is genuine.
   */
  ghost predicate Searching(s: Solver, pos: nat, cost: nat, cur: Current, P: Assignment, best: Best) {
    s.Wf() && pos < |s.order| && CurrentOk(s, pos, cost, cur, P) && BestOk(s, best)
  }

  /** One x-slice of the placement loop: every y, then z. */
  method PlaceRow(s: Solver, pos: nat, cost: nat, cur: Current, best: Best, ghost P: Assignment, x: nat)
    returns (best': Best)
    requires Searching(s, pos, cost, cur, P, best)
    requires TriedBefore(s, pos, cost, cur.grid, Cell(x, 0, 0), best.cost)
    ensures Searching(s, pos, cost, cur, P, best') && Improves(best, best')
    ensures TriedBefore(s, pos, cost, cur.grid, Cell(x + 1, 0, 0), best'.cost)
    decreases |s.order| - pos, 3
  {
    var obj := s.objects[s.order[pos]];
    var maxY: nat := s.limit.y - obj.y + 1;
    best' := best;
    var y := 0;
    while y < maxY
      invariant y <= maxY
      invariant Searching(s, pos, cost, cur, P, best') && Improves(best, best')
      invariant TriedBefore(s, pos, cost, cur.grid, Cell(x, y, 0), best'.cost)
    {
      best' := PlaceColumn(s, pos, cost, cur, best', P, x, y);
      y := y + 1;
    }
    RowTried(s, pos, cost, cur.grid, x, best'.cost);
  }

  /** One (x, y) column of the placement loop: every z. */
  method PlaceColumn(s: Solver, pos: nat, cost: nat, cur: Current, best: Best, ghost P: Assignment, x: nat, y: nat)
    returns (best': Best)
    requires Searching(s, pos, cost, cur, P, best)
    requires TriedBefore(s, pos, cost, cur.grid, Cell(x, y, 0), best.cost)
    ensures Searching(s, pos, cost, cur, P, best') && Improves(best, best')
    ensures TriedBefore(s, pos, cost, cur.grid, Cell(x, y + 1, 0), best'.cost)
    decreases |s.order| - pos, 2
  {
    var obj := s.objects[s.order[pos]];
    var maxZ: nat := s.limit.z - obj.z + 1;
    best' := best;
    var z := 0;
    while z < maxZ
      invariant z <= maxZ
      invariant Searching(s, pos, cost, cur, P, best') && Improves(best, best')
      invariant TriedBefore(s, pos, cost, cur.grid, Cell(x, y, z), best'.cost)
    {
      best' := TryNext(s, pos, cost, cur, best', P, Cell(x, y, z));
      z := z + 1;
    }
    ColumnTried(s, pos, cost, cur.grid, x, y, best'.cost);
  }

  /** One turn of the innermost loop: try origin o and extend the tried region past it. */
  method TryNext(s: Solver, pos: nat, cost: nat, cur: Current, best: Best, ghost P: Assignment, o: Cell)
    returns (best': Best)
    requires Searching(s, pos, cost, cur, P, best)
    requires TriedBefore(s, pos, cost, cur.grid, o, best.cost)
    ensures Searching(s, pos, cost, cur, P, best') && Improves(best, best')
    ensures TriedBefore(s, pos, cost, cur.grid, Cell(o.x, o.y, o.z + 1), best'.cost)
    decreases |s.order| - pos, 1
  {
    best' := TryAt(s, pos, cost, cur, best, P, o);
    TriedStep(s, pos, cost, cur.grid, o, best.cost, best'.cost);
  }

  /**
    The body of the innermost loop: if the object fits at o, place it, push
    it, search on, then pop and remove it.
   */
  method TryAt(s: Solver, pos: nat, cost: nat, cur: Current, best: Best, ghost P: Assignment, o: Cell)
    returns (best': Best)
    requires s.Wf() && pos < |s.order| && CurrentOk(s, pos, cost, cur, P) && BestOk(s, best)
    ensures BestOk(s, best') && Improves(best, best')
    ensures forall A: Assignment ::
      Extends(s, pos, cur.grid, A) && SolidPlaced(Items(s.objects), A) && A[s.order[pos]] == Some(o) ==>
        cost + Value(Items(s.objects), A) <= best'.cost
    decreases |s.order| - pos, 0
  {
    var i := s.order[pos];
    var obj := s.objects[i];
    if CanPlace(cur.grid, s.limit, obj.AsItem(), o) {
      var placed := Place(s, cur, i, o);
      placed := placed.(selected := placed.selected + [i]);
      StepPlace(s, pos, cost, cur, P, o);
      var after;
      after, best' := Dfs(s, pos + 1, cost + obj.value, placed, best, P[i := Some(o)]);
      after := after.(selected := after.selected[..|after.selected| - 1]);
      RemoveAfterPlace(s, cur, i, o);
      assert Remove(s, after, i, o) == cur;
      PlaceBound(s, pos, cost, cur.grid, o, best'.cost);
    } else {
      best' := best;
      ExtensionPlaceable(s, pos, cur.grid);
    }
  }

  /** What the search below a placement at o achieves bounds every finish that puts the object at o. */
  lemma PlaceBound(s: Solver, pos: nat, cost: nat, grid: seq<int>, o: Cell, b: nat)
    requires s.Wf() && pos < |s.order| && |grid| == Cells(s.limit)
    requires InLimit(s.limit, s.objects[s.order[pos]].AsItem(), o)
    requires Dominated(s, pos + 1, cost + s.objects[s.order[pos]].value,
                       Fill(grid, s.limit, s.order[pos], s.objects[s.order[pos]].AsItem(), o), b)
    ensures forall A: Assignment ::
      Extends(s, pos, grid, A) && SolidPlaced(Items(s.objects), A) && A[s.order[pos]] == Some(o) ==>
        cost + Value(Items(s.objects), A) <= b
  {
    StepExtends(s, pos, grid, o);
  }

  /** Trying origin o, with the bound raised from b to b', extends the tried region past o. */
  lemma TriedStep(s: Solver, pos: nat, cost: nat, grid: seq<int>, o: Cell, b: nat, b': nat)
    requires s.Wf() && pos < |s.order| && b <= b'
    requires TriedBefore(s, pos, cost, grid, o, b)
    requires forall A: Assignment ::
      Extends(s, pos, grid, A) && SolidPlaced(Items(s.objects), A) && A[s.order[pos]] == Some(o) ==>
        cost + Value(Items(s.objects), A) <= b'
    ensures TriedBefore(s, pos, cost, grid, Cell(o.x, o.y, o.z + 1), b')
  {
  }

  /** After the last z of column (x, y), the tried region reaches the start of column (x, y + 1). */
  lemma ColumnTried(s: Solver, pos: nat, cost: nat, grid: seq<int>, x: nat, y: nat, b: nat)
    requires s.Wf() && pos < |s.order|
    requires TriedBefore(s, pos, cost, grid, Cell(x, y, s.limit.z - s.objects[s.order[pos]].z + 1), b)
    ensures TriedBefore(s, pos, cost, grid, Cell(x, y + 1, 0), b)
  {
  }

  /** After the last y of slice x, the tried region reaches the start of slice x + 1. */
  lemma RowTried(s: Solver, pos: nat, cost: nat, grid: seq<int>, x: nat, b: nat)
    requires s.Wf() && pos < |s.order|
    requires TriedBefore(s, pos, cost, grid, Cell(x, s.limit.y - s.objects[s.order[pos]].y + 1, 0), b)
    ensures TriedBefore(s, pos, cost, grid, Cell(x + 1, 0, 0), b)
  {
  }

  /** After the last x every origin inside the container has been tried. */
  lemma AllTried(s: Solver, pos: nat, cost: nat, grid: seq<int>, b: nat)
    requires s.Wf() && pos < |s.order|
    requires TriedBefore(s, pos, cost, grid, Cell(s.limit.x - s.objects[s.order[pos]].x + 1, 0, 0), b)
    ensures forall A: Assignment ::
      Extends(s, pos, grid, A) && SolidPlaced(Items(s.objects), A) && A[s.order[pos]].Some? ==>
        cost + Value(Items(s.objects), A) <= b
  {
  }

  // ---------------------------------------------------------------------------
  // What the full-container stop misses

  /**
    The example: a 1 x 1 x 1 container with a cube A worth 2 and a flat
    object B (extents 0, 1, 1) worth 1, with the order, suffix sums, volumes
    and capacity New computes for them.
   */
  predicate FlatExample(s: Solver) {
    && s.limit == Limit(1, 1, 1) && |s.objects| == 2
    && s.objects[0].AsItem() == Item(1, 1, 1, 2) && s.objects[1].AsItem() == Item(0, 1, 1, 1)
    && s.order == [0, 1] && s.suffix == [3, 1, 0] && s.volumes == [1, 0] && s.capacity == 1
  }

  function FlatSolver(): (s: Solver)
    ensures FlatExample(s)
  {
    Solver(Limit(1, 1, 1), [Object("A", 1, 1, 1, 2), Object("B", 0, 1, 1, 1)], [0, 1], [3, 1, 0], [1, 0], 1)
  }

  /** The example's solver is well formed. */
  lemma FlatWf(s: Solver)
    requires FlatExample(s)
    ensures s.Wf()
  {
    FlatSuffix(s);
  }

  /** The example's order is the value-ranked feasible order New computes. */
  lemma FlatOrder(s: Solver)
    requires FlatExample(s)
    ensures s.order == SearchOrder(Items(s.objects), s.limit)
  {
    var items := Items(s.objects);
    RankSortedUnique(items, s.order, SearchOrder(items, s.limit));
  }

  lemma FlatSuffix(s: Solver)
    requires FlatExample(s)
    ensures forall p :: 0 <= p <= |s.order| ==> s.suffix[p] == SumOf(Items(s.objects), s.order[p..])
  {
    var items := Items(s.objects);
    assert s.order[2..] == [] && s.order[1..] == [1] && s.order[0..] == [0, 1];
    assert SumOf(items, [1]) == 1;
    assert SumOf(items, [0, 1]) == 3;
  }

  /** The state after placing A at the origin: correct at position 1 with A's value, and full. */
  lemma FlatFull(s: Solver)
    requires FlatExample(s)
    ensures s.Wf() && s.order[0] == 0 && s.objects[0].value == 2
    ensures var full := Place(s, Current(Empty(s.limit), 0, []), 0, Cell(0, 0, 0));
      CurrentOk(s, 1, s.objects[0].value, full.(selected := full.selected + [0]), Nothing(2)[0 := Some(Cell(0, 0, 0))])
  {
    FlatWf(s);
    Start(s);
    FlatPlaceable(s);
    StepPlace(s, 0, 0, Current(Empty(s.limit), 0, []), Nothing(2), Cell(0, 0, 0));
  }

  /** A fits at the origin of the empty container. */
  lemma FlatPlaceable(s: Solver)
    requires FlatExample(s)
    ensures CanPlace(Empty(s.limit), s.limit, s.objects[0].AsItem(), Cell(0, 0, 0))
  {
    assert Free(Empty(s.limit), s.limit, Cell(0, 0, 0));
  }

  /** Once placed, A fills the container. */
  lemma FlatFills(s: Solver)
    requires FlatExample(s)
    ensures s.Wf() && Place(s, Current(Empty(s.limit), 0, []), 0, Cell(0, 0, 0)).used == s.capacity
  {
    FlatWf(s);
    var a := s.objects[0];
    assert a.x == 1 && a.y == 1 && a.z == 1;
    assert a.x * a.y * a.z == 1;
  }

  /** From the full state, placing the flat B at the origin is a finish worth 1 more. */
  lemma FlatFinish(s: Solver)
    requires FlatExample(s)
    ensures s.Wf()
    ensures var full := Place(s, Current(Empty(s.limit), 0, []), 0, Cell(0, 0, 0));
      var missed: Assignment := [None, Some(Cell(0, 0, 0))];
      Extends(s, 1, full.grid, missed) && !SolidPlaced(Items(s.objects), missed) &&
      Value(Items(s.objects), missed) == 1
  {
    FlatWf(s);
    var items := Items(s.objects);
    var o := Cell(0, 0, 0);
    var missed: Assignment := [None, Some(o)];
    assert ValueFrom(items, missed, 1) == 1;
    assert forall c :: !Covers(items[1], o, c);
    assert s.order[1..] == [1];
  }

  /** A and B both at the origin form a valid packing worth 3, so 2 is not the optimum. */
  lemma FlatBoth(s: Solver)
    requires FlatExample(s)
    ensures var both: Assignment := [Some(Cell(0, 0, 0)), Some(Cell(0, 0, 0))];
      Valid(Items(s.objects), s.limit, both) && Value(Items(s.objects), both) == 3 &&
      !Optimal(Items(s.objects), s.limit, 2)
  {
    var items := Items(s.objects);
    var o := Cell(0, 0, 0);
    var both: Assignment := [Some(o), Some(o)];
    assert ValueFrom(items, both, 1) == 1;
    assert forall c :: !Covers(items[1], o, c);
    assert Valid(items, s.limit, both);
  }

  /**
    On the example the search places A at the origin first; the state it
    passes to dfs(1, 2) is correct and full, so lines 116-124 record 2 and
    return. Yet B, covering no cell, still fits beside A, and the packing of
    both, worth 3, is valid: the value the search returns is not the
    optimum, and the finish it misses places a flat object.
   */
  lemma FlatObjectMissed(s: Solver)
    requires FlatExample(s)
    ensures s.Wf() && s.order == SearchOrder(Items(s.objects), s.limit)
    ensures var full := Place(s, Current(Empty(s.limit), 0, []), 0, Cell(0, 0, 0));
      var missed: Assignment := [None, Some(Cell(0, 0, 0))];
      && CurrentOk(s, 1, 2, full.(selected := full.selected + [0]), Nothing(2)[0 := Some(Cell(0, 0, 0))])
      && full.used == s.capacity
      && Record(2, full, Best(0, Empty(s.limit), [])).cost == 2
      && Extends(s, 1, full.grid, missed) && !SolidPlaced(Items(s.objects), missed)
      && 2 + Value(Items(s.objects), missed) == 3
    ensures !Optimal(Items(s.objects), s.limit, 2)
  {
    FlatWf(s);
    FlatOrder(s);
    FlatFills(s);
    FlatFull(s);
    FlatFinish(s);
    FlatBoth(s);
  }
}
