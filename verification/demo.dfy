/**
  The example of run_demo in rust/src/instance/discrete_backpack_3d.rs: a
  container 4 long, 3 wide and 3 high and four objects. Its optimum is 21,
  every object packed, and both searches report it.
 */
module Demo {
  import opened Packing
  import Exhaustive
  import ReferenceGrid
  import BranchBound
  import SolveGrid
  import FlatGrid

  /** The container, length along x, width along y, height along z. */
  function Space(): Packing.Limit {
    Packing.Limit(4, 3, 3)
  }

  /** The four objects as boxes (length, width, height, value). */
  function Boxes(): seq<Item> {
    [Item(2, 2, 1, 6), Item(1, 3, 1, 5), Item(1, 2, 2, 7), Item(2, 1, 1, 3)]
  }

  /** The objects of run_demo as the reference search takes them (name, width, length, height, value). */
  function ReferenceObjects(): seq<Exhaustive.Object> {
    [Exhaustive.Object(1, 2, 2, 1, 6), Exhaustive.Object(2, 3, 1, 1, 5),
     Exhaustive.Object(3, 2, 1, 2, 7), Exhaustive.Object(4, 1, 2, 1, 3)]
  }

  /** The same objects as the branch-and-bound search takes them (name, x, y, z, value). */
  function SearchObjects(): seq<BranchBound.Object> {
    [BranchBound.Object("1", 2, 2, 1, 6), BranchBound.Object("2", 1, 3, 1, 5),
     BranchBound.Object("3", 1, 2, 2, 7), BranchBound.Object("4", 2, 1, 1, 3)]
  }

  /** All four objects fit at once: the first two side by side on the floor, the third against the far wall, the fourth along the near wall. */
  function Packed(): (a: Assignment)
    ensures Valid(Boxes(), Space(), a) && Value(Boxes(), a) == 21
  {
    var a := [Some(Cell(0, 0, 0)), Some(Cell(2, 0, 0)), Some(Cell(3, 0, 0)), Some(Cell(0, 2, 0))];
    assert ValueFrom(Boxes(), a, 4) == 0;
    assert ValueFrom(Boxes(), a, 3) == 3;
    assert ValueFrom(Boxes(), a, 2) == 10;
    assert ValueFrom(Boxes(), a, 1) == 15;
    a
  }

  /** The best value of the example is 21. */
  lemma DemoOptimal()
    ensures Optimal(Boxes(), Space(), 21)
  {
    var all: seq<nat> := [0, 1, 2, 3];
    assert SumOf(Boxes(), all[3..]) == 3;
    assert SumOf(Boxes(), all[2..]) == 10;
    assert SumOf(Boxes(), all[1..]) == 15;
    assert SumOf(Boxes(), all) == 21;
    forall a | Valid(Boxes(), Space(), a)
      ensures Value(Boxes(), a) <= 21
    {
      ValueWithin(Boxes(), a, all);
    }
    assert Valid(Boxes(), Space(), Packed());
  }

  /** The example's container and objects as the reference search is given them. */
  function ReferenceSolver(): Exhaustive.Solver {
    Exhaustive.Solver(Exhaustive.Limit(3, 4, 3), ReferenceObjects())
  }

  /** A best result of the reference search on the example that bounds every valid packing is worth 21, in objects and in value. */
  lemma ReferenceBest(b: Exhaustive.Best)
    requires Exhaustive.BestOk(ReferenceSolver(), b)
    requires forall A: Assignment :: Valid(ReferenceSolver().Items(), Space(), A) ==> Value(ReferenceSolver().Items(), A) <= b.cost
    ensures b.cost == 21 && Exhaustive.Worth(b.selected) == 21
  {
    var s := ReferenceSolver();
    assert s.Items() == Boxes();
    var W :| Exhaustive.Records(s, b.grid, b.selected, b.cost, W);
    DemoOptimal();
    assert Value(Boxes(), Packed()) <= b.cost;
    Exhaustive.WorthPlaced(s, W, 4);
  }

  /** run_demo (lines 185-188): a fresh reference solver searched from object 0 finds 21 with objects worth 21. */
  method RunDemo() returns (best: nat, selected: seq<Exhaustive.Object>)
    ensures best == 21 && Exhaustive.Worth(selected) == 21
  {
    var s, b := ReferenceGrid.Search(Exhaustive.Limit(3, 4, 3), ReferenceObjects());
    assert s == ReferenceSolver() && s.limit.Space() == Space();
    ReferenceBest(b);
    best, selected := b.cost, b.selected;
  }

  /** A best result of the branch-and-bound search on the example is worth 21. */
  lemma SearchBest(s: BranchBound.Solver, b: BranchBound.Best)
    requires s.Wf() && s.limit == Space() && s.objects == SearchObjects()
    requires BranchBound.BestOk(s, b)
    requires BranchBound.Dominated(s, 0, 0, FlatGrid.Empty(Space()), b.cost)
    ensures b.cost == 21
  {
    SearchBoxes();
    DemoOptimal();
    var W :| BranchBound.Records(s, b.grid, b.selected, b.cost, W);
    SolveGrid.SearchOptimal(s, b, W);
    OptimalUnique(Boxes(), Space(), b.cost, 21);
  }

  /** The branch-and-bound search, run on the same example, finds the same value. */
  method RunSearch() returns (best: nat)
    ensures best == 21
  {
    var s, b := SolveGrid.Search(Space(), SearchObjects());
    SearchBest(s, b);
    best := b.cost;
  }

  /** The branch-and-bound objects are the same boxes, all of positive extent. */
  lemma SearchBoxes()
    ensures BranchBound.Items(SearchObjects()) == Boxes() && FittingSolid(Boxes(), Space())
  {
  }
}
