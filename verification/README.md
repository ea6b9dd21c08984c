# CargoGrid packing search in Dafny

CargoGrid picks the most valuable set of axis-aligned boxes that fit together,
without rotation and without overlap, in a box-shaped container, on an integer
grid. The Rust crate contains two exact searches for this problem:

- `rust/src/lib.rs` is the branch-and-bound solver. `Solve::new` keeps the
  objects that fit the container, ranks them by value (a stable descending sort)
  and precomputes suffix value sums and volumes. `dfs` walks this order. It
  prunes on the suffix bound, stops as soon as the container is full, tries
  every origin in x, then y, then z order, and then skips the object. The
  occupancy grid is one flat `i32` vector indexed by `(x * Y + y) * Z + z`, kept
  next to a `used_volume` counter. `solve_to_grid_zxy` runs the search and
  converts the best grid into a list of names and a `[z][x][y]` grid of positions
  in that list.
- `rust/src/instance/discrete_backpack_3d.rs` is the exhaustive reference. Its
  `dfs` takes the objects in input order, first skips each one and then tries
  it at every origin. It keeps a nested `[length][width][height]` grid of
  `Option<usize>` and has its own `solve_to_grid_zxy`.

The model keeps each search as close to its source as it can. It uses immutable
values (`Current` for the state the search changes and restores, and `Best` for
the best result) in place of the mutable `Solve` struct. Each search is proved
against one shared specification, module `Packing`:

- an `Assignment` gives each object either no origin or one origin;
- `Valid` says every placed box lies inside the container and no two placed
  boxes share a unit cell;
- `Value` sums the values of the placed objects;
- `Optimal(items, lim, v)` says some valid assignment is worth `v` and none is
  worth more.

Each search's `dfs` carries a ghost argument `P`, the assignment its current
grid records. Its contract says four things:

- it hands back the state it was given;
- the best result only ever grows, and it changes only on a strict improvement;
- the best result is always a genuine valid packing;
- the best value bounds every way of finishing the current state.

Starting from an empty grid, this last point gives optimality. For the
branch-and-bound search the bound covers only the finishes that place objects of
positive extent on all three axes (`SolidPlaced`). Its stop at a full container
never tries a flat object, and `BranchBound.FlatObjectMissed` proves on a
concrete instance that this loses value. So that search is optimal whenever
every object that fits the container has positive extents (`FittingSolid`).

Modules:

| module | file | models |
|---|---|---|
| `Packing` | packing.dfy | boxes, cells, assignments, validity, value, optimality, the drawn `[z][x][y]` output |
| `Counting` | counting.dfy | sums over the cells of the container (number of occupied cells, volume of a box) |
| `FlatGrid` | flat_grid.dfy | the flat grid of `lib.rs`: `idx`, `can_place_object`, `place`/`remove` cell writes, occupied-cell count |
| `Ordering` | ordering.dfy | the feasible filter, the stable value sort and the suffix sums of `Solve::new` in `lib.rs` |
| `BranchBound` | branch_bound.dfy | `Solve::new`, `place`, `remove` and `dfs` of `lib.rs` |
| `SolveGrid` | solve_grid.dfy | `solve_to_grid_zxy` of `lib.rs` |
| `NestedGrid` | nested_grid.dfy | the nested `Option` grid of the reference: `can_place_object`, `place`/`remove` |
| `Exhaustive` | exhaustive.dfy | `Solve::new` and `dfs` of the reference |
| `ReferenceGrid` | reference_grid.dfy | `solve_to_grid_zxy` of the reference |
| `Demo` | demo.dfy | the instance of `run_demo`, whose optimum is 21 |

In the reference file, length is x, width is y and height is z, as
`solve_to_grid_zxy` there labels them (discrete_backpack_3d.rs:235-237). The
`run_demo` container is 4 long, 3 wide and 3 high, as lines 147-151 set it. The
comment on line 146 calls it 4x4x2; the model follows the code.

## Model

| member | source | states |
|---|---|---|
| Packing.ValueWithin | rust/src/lib.rs:111-114 | a valid packing that places only objects from a list of distinct indices is worth at most the sum of their values, which is what makes the suffix bound safe |
| Packing.FittingSolidPlaced | rust/src/lib.rs:68-73 | a placed box lies inside the container, so it fits; when every fitting object has positive extents, a valid packing places only such objects |
| Packing.OptimalUnique | rust/src/lib.rs:218-222 | the best value of an instance is a single number, so two searches that both reach it report the same value |
| FlatGrid.IdxDecode | rust/src/lib.rs:105-108 | every cell inside the container gets a flat position below X*Y*Z, and decoding that position gives back the cell |
| FlatGrid.DecodeIdx | rust/src/lib.rs:105-108 | every flat position below X*Y*Z is the position of exactly one cell inside the container |
| FlatGrid.IdxInjective | rust/src/lib.rs:105-108 | distinct cells of the container have distinct flat positions |
| FlatGrid.Empty | rust/src/lib.rs:84-85 | the starting grid has X*Y*Z entries, all -1 |
| FlatGrid.CanPlace | rust/src/lib.rs:170-189 | a box can be placed exactly when it lies inside the container on all three axes and every cell it would cover holds -1 |
| FlatGrid.Fill | rust/src/lib.rs:191-200 | writing a box that lies inside the container changes exactly the cells it covers to the given value and leaves every other cell of the container unchanged; `can_place_object` establishes that the box is inside before every call |
| FlatGrid.FillRestore | rust/src/lib.rs:204-213 | clearing a box right after writing it where it fitted gives back the original grid |
| FlatGrid.OccupiedRange | rust/src/lib.rs:116 | at most X*Y*Z cells are occupied, and when that many are, no cell of the container is empty |
| FlatGrid.FillOccupied | rust/src/lib.rs:197-201 | writing an object index into empty cells raises the number of occupied cells by exactly the box's volume |
| FlatGrid.EmptyOccupied | rust/src/lib.rs:85-98 | the empty grid has no occupied cell, matching `used_volume` starting at 0 |
| FlatGrid.CanPlaceIffDisjoint | rust/src/lib.rs:170-189 | on a grid that records a valid packing, a box can be placed exactly when it is inside the container and overlaps no placed box |
| FlatGrid.FillRepresents | rust/src/lib.rs:191-200 | placing an absent object where it can be placed gives a grid that records the packing extended by that object, and that packing is valid |
| FlatGrid.RepresentsEntries | rust/src/lib.rs:35 | every entry of a grid that records a packing is -1 or an object index |
| Ordering.Feasible | rust/src/lib.rs:68-73 | the filtered indices are strictly increasing, and an index is present exactly when its object fits the container on each axis |
| Ordering.Insert | rust/src/lib.rs:75 | inserting an index after all equal-valued ones keeps the list ranked by descending value and then by input position, with the same members plus the new one |
| Ordering.SortByValue | rust/src/lib.rs:75 | sorting keeps exactly the same indices and ranks them by descending value, with ties in input order as a stable sort leaves them |
| Ordering.RankSortedUnique | rust/src/lib.rs:75 | two ranked lists with the same members are the same list, so the stable sort's result is fully determined |
| Ordering.SuffixValues | rust/src/lib.rs:77-82 | the suffix table has one more entry than the order, and entry p is the total value of the order from position p on, the last one being 0 |
| BranchBound.New | rust/src/lib.rs:55-103 | the order holds each fitting object exactly once, ranked by value with ties in input order; the suffix sums and volumes are as precomputed; capacity is X*Y*Z; the grid is all -1; nothing is selected and the best value is 0 |
| BranchBound.Place | rust/src/lib.rs:191-202 | for a box inside the container, the object's index is written into exactly the covered cells, all other cells keep their contents, and `used_volume` grows by the box's volume |
| BranchBound.Remove | rust/src/lib.rs:204-215 | for a box inside the container, exactly the covered cells become -1, all other cells keep their contents, and `used_volume` shrinks by the box's volume |
| BranchBound.RemoveAfterPlace | rust/src/lib.rs:191-215 | removing a box right after placing it where it fitted restores both the grid and `used_volume` |
| BranchBound.PlaceCounts | rust/src/lib.rs:191-202 | after placing a box where it fits, `used_volume` still equals the number of occupied cells |
| BranchBound.Start | rust/src/lib.rs:92-98 | the initial state records the empty packing, correctly for position 0, and the initial best result is a genuine packing worth 0 |
| BranchBound.StartExtends | rust/src/lib.rs:224-225 | every valid packing is a way to finish the search that starts from position 0 on the empty grid |
| BranchBound.Record | rust/src/lib.rs:116-134 | when the current value is not larger than the best, the best is kept unchanged; when it is strictly larger, the best becomes the current value, with a copy of the current grid and selection |
| BranchBound.RecordSound | rust/src/lib.rs:116-134 | the state recorded as best is a valid packing of that value, the best grid records it, and the selected list gives its objects in search order |
| BranchBound.SuffixBound | rust/src/lib.rs:111-114 | no finish from position pos adds more than the suffix sum at pos, so the prune discards no state that could beat the best |
| BranchBound.UsedWithin | rust/src/lib.rs:140 | `used_volume` never exceeds the capacity, so the subtraction giving the remaining free cells does not underflow |
| BranchBound.SaturatedBound | rust/src/lib.rs:116-124 | when every cell is occupied, no finish that places only boxes of positive extents adds any value |
| BranchBound.VolumeGuard | rust/src/lib.rs:136-142 | an object larger than the number of free cells is placed in no finish |
| BranchBound.ExtensionPlaceable | rust/src/lib.rs:147-149 | any finish that places the current object puts it at an origin where `can_place_object` succeeds |
| BranchBound.StepPlace | rust/src/lib.rs:147-152 | placing the current object where it fits and pushing it gives a correct state at the next position |
| BranchBound.StepExtends | rust/src/lib.rs:147-157 | a finish that puts the current object at o is, without that object, a finish of the state where it is placed at o, and it is worth exactly the object's value more |
| BranchBound.StepSkip | rust/src/lib.rs:166-167 | skipping the current object keeps the state correct at the next position, and every finish that leaves it out is a finish from there |
| BranchBound.PlaceBound | rust/src/lib.rs:147-157 | what the recursive call after a placement at o achieves bounds every finish of positive-extent boxes that puts the current object at o |
| BranchBound.Dfs | rust/src/lib.rs:110-168 | `dfs` hands back the state it got unchanged; the best result grows only on strict improvement and is always a genuine packing; the best value bounds every finish of the current state that places only boxes of positive extents |
| BranchBound.PlaceAll | rust/src/lib.rs:143-164 | after trying every origin, the best value bounds every finish of positive-extent boxes that places the current object, and the state is unchanged |
| BranchBound.PlaceRow | rust/src/lib.rs:143-164 | after slice x, every finish of positive-extent boxes that puts the object at an origin before slice x + 1 is bounded |
| BranchBound.PlaceColumn | rust/src/lib.rs:145-163 | after column (x, y), every finish of positive-extent boxes that puts the object at an origin before column (x, y + 1) is bounded |
| BranchBound.TryNext | rust/src/lib.rs:146-162 | after trying origin o, every finish of positive-extent boxes that puts the object at an origin up to o is bounded |
| BranchBound.TryAt | rust/src/lib.rs:147-157 | after place, push, recursive search, pop and remove, every finish of positive-extent boxes that puts the object at o is bounded, and the best result stays genuine |
| BranchBound.AllTried | rust/src/lib.rs:143-145 | once x reaches max_x, every origin at which the object fits inside the container has been tried, so every finish of positive-extent boxes that places it is bounded |
| BranchBound.FlatObjectMissed | rust/src/lib.rs:116-124 | in a 1x1x1 container holding a cube worth 2 and a flat object worth 1, the state after placing the cube is correct and full, so the stop records 2 and returns; yet a finish placing the flat object adds 1, and the packing of both is valid, so 2 is not the optimum |
| SolveGrid.UsedIndices | rust/src/lib.rs:231-241 | the collected indices are strictly increasing, and an index is present exactly when some grid entry holds it |
| SolveGrid.PositionTable | rust/src/lib.rs:248-251 | each used index maps to its position in the used list, and every other index maps to -1 |
| SolveGrid.GridZxy | rust/src/lib.rs:253-265 | the output grid has shape [Z][X][Y]; cell (x, y, z) holds the position table's entry for the object there, or -1 when the cell is empty |
| SolveGrid.Names | rust/src/lib.rs:243-246 | names has one entry per listed index: that object's name |
| SolveGrid.Listed | rust/src/lib.rs:268-272 | the selected objects are the objects the best selection lists, in its order |
| SolveGrid.WorthListed | rust/src/lib.rs:267-274 | the listed objects are worth the sum of the values of the listed indices |
| SolveGrid.UsedAreVisible | rust/src/lib.rs:231-241 | the indices found in a grid that records a packing are exactly the objects of that packing that cover some cell |
| SolveGrid.ExtractionDraws | rust/src/lib.rs:231-265 | names lists the visible objects in ascending index order, and each output cell is -1 exactly when no box covers it, and otherwise the position in names of the object covering it |
| SolveGrid.BestReported | rust/src/lib.rs:243-272 | a recorded best, put through the extraction, is reported as a valid packing of that value, drawn by names and grid, with the selected objects in search order |
| SolveGrid.SearchOptimal | rust/src/lib.rs:224-225 | a recorded best that bounds every finish from the start is at least as valuable as every valid packing of positive-extent boxes, and is the optimum when every object that fits the container has positive extents |
| SolveGrid.Search | rust/src/lib.rs:224-225 | a fresh solver searched from position 0 with value 0 ends with a genuine best that bounds every finish of positive-extent boxes from the empty grid |
| SolveGrid.SolveToGridZxy | rust/src/lib.rs:223-276 | the selected objects are worth best; some valid packing worth best is drawn by names and grid and listed by selected; best is at least the value of every valid packing of positive-extent boxes, and is the optimum when every object that fits the container has positive extents |
| NestedGrid.EmptyGrid | rust/src/instance/discrete_backpack_3d.rs:28-33 | the starting grid has the container's shape and every cell is empty |
| NestedGrid.CanPlace | rust/src/instance/discrete_backpack_3d.rs:104-118 | for a box inside the container, it can be placed exactly when every cell it covers is empty |
| NestedGrid.Fill | rust/src/instance/discrete_backpack_3d.rs:120-142 | place and remove write Some(index) or None into exactly the covered cells, leave every other cell unchanged, and keep the grid's shape |
| NestedGrid.FillRestore | rust/src/instance/discrete_backpack_3d.rs:132-142 | removing a box right after placing it where it fitted gives back the original grid |
| NestedGrid.FreeDisjoint | rust/src/instance/discrete_backpack_3d.rs:104-118 | a box on empty cells of a grid that records a valid packing overlaps no placed box |
| NestedGrid.FillRepresents | rust/src/instance/discrete_backpack_3d.rs:120-130 | placing an absent object where it can be placed records the packing extended by it, and that packing is valid |
| Exhaustive.New | rust/src/instance/discrete_backpack_3d.rs:28-43 | the solver keeps its inputs; the grid has the container's shape and is empty; nothing is selected; the best value is 0 |
| Exhaustive.WorthPlaced | rust/src/instance/discrete_backpack_3d.rs:88-93 | the objects pushed for the first k indices, plus what the rest of the packing is worth, add up to the packing's value |
| Exhaustive.PlacedUpdate | rust/src/instance/discrete_backpack_3d.rs:88-97 | deciding object k or a later one leaves the pushed list for the first k objects unchanged |
| Exhaustive.Start | rust/src/instance/discrete_backpack_3d.rs:185-188 | the fresh state is correct at object 0 for the empty packing, the initial best is genuine, and every valid packing is a finish from there |
| Exhaustive.Record | rust/src/instance/discrete_backpack_3d.rs:48-53 | when the current value is not larger than the best, the best is kept unchanged; when it is strictly larger, the best becomes the current value, with a copy of the current grid and selection |
| Exhaustive.RecordSound | rust/src/instance/discrete_backpack_3d.rs:48-53 | once every object is decided, the recorded state is a valid packing of that value, recorded by the best grid, with the selected objects in input order |
| Exhaustive.EndBound | rust/src/instance/discrete_backpack_3d.rs:48-54 | with every object decided, nothing is left to add |
| Exhaustive.Oversized | rust/src/instance/discrete_backpack_3d.rs:68-75 | an object longer, wider or higher than the container is placed in no finish |
| Exhaustive.StepSkip | rust/src/instance/discrete_backpack_3d.rs:65-66 | skipping object k keeps the state correct at k + 1, and every finish that leaves k out is a finish from there |
| Exhaustive.StepPlace | rust/src/instance/discrete_backpack_3d.rs:85-93 | placing object k where it fits and pushing it gives a correct state at k + 1, worth the object's value more |
| Exhaustive.StepExtends | rust/src/instance/discrete_backpack_3d.rs:85-97 | a finish that puts object k at o is, without k, a finish of the state where k is placed at o, and is worth k's value more |
| Exhaustive.PlaceBound | rust/src/instance/discrete_backpack_3d.rs:85-97 | what the recursive call after a placement at o achieves bounds every finish that puts object k at o |
| Exhaustive.Dfs | rust/src/instance/discrete_backpack_3d.rs:46-102 | `dfs` hands back the state it got unchanged; the best result grows only on strict improvement and is always a genuine packing; the best value bounds every finish of the current state |
| Exhaustive.PlaceAll | rust/src/instance/discrete_backpack_3d.rs:77-101 | after trying every origin, the best value bounds every finish that places object k |
| Exhaustive.PlaceRow | rust/src/instance/discrete_backpack_3d.rs:82-101 | after slice x, every finish that puts object k at an origin before slice x + 1 is bounded |
| Exhaustive.PlaceColumn | rust/src/instance/discrete_backpack_3d.rs:83-100 | after column (x, y), every finish that puts object k at an origin before column (x, y + 1) is bounded |
| Exhaustive.TryAt | rust/src/instance/discrete_backpack_3d.rs:85-98 | after place, push, recursive search, pop and remove, every finish that puts object k at o is bounded, and the best result stays genuine |
| Exhaustive.AllTried | rust/src/instance/discrete_backpack_3d.rs:78-82 | once x reaches max_x, every origin at which the object fits inside the container has been tried |
| ReferenceGrid.UsedIndices | rust/src/instance/discrete_backpack_3d.rs:239-249 | the used indices are strictly increasing, and an index is present exactly when some cell of the container holds it |
| ReferenceGrid.CollectUsed | rust/src/instance/discrete_backpack_3d.rs:240-249 | the scan over every cell collects exactly the indices that some cell holds |
| ReferenceGrid.CollectedBelow | rust/src/instance/discrete_backpack_3d.rs:252-255 | every collected index is an object index, so looking up its name is in bounds |
| ReferenceGrid.UsedList | rust/src/instance/discrete_backpack_3d.rs:252-259 | iterating the collected set gives its members in strictly increasing order |
| ReferenceGrid.UsedListIsUsedIndices | rust/src/instance/discrete_backpack_3d.rs:240-259 | the ascending iteration of the scanned set is the list of used indices |
| ReferenceGrid.NamePositions | rust/src/instance/discrete_backpack_3d.rs:257-261 | the map's keys are exactly the used indices, and each maps to its position in the used list |
| ReferenceGrid.GridZxy | rust/src/instance/discrete_backpack_3d.rs:263-275 | the output grid has shape [Z][X][Y]; cell (x, y, z) holds the mapped position of the object there, or -1 when it is empty or unmapped |
| ReferenceGrid.Names | rust/src/instance/discrete_backpack_3d.rs:251-255 | names has one entry per used index: that object's name |
| ReferenceGrid.UsedAreVisible | rust/src/instance/discrete_backpack_3d.rs:239-249 | the indices found in a grid that records a packing are exactly the objects of that packing that cover some cell |
| ReferenceGrid.ExtractionDraws | rust/src/instance/discrete_backpack_3d.rs:239-275 | names lists the visible objects in ascending index order, and each output cell is -1 exactly when no box covers it, and otherwise the position in names of the object covering it |
| ReferenceGrid.BestReported | rust/src/instance/discrete_backpack_3d.rs:277-282 | the recorded best, put through the extraction, is reported as a valid packing of that value drawn by names and grid; its selected objects are worth that value; it is optimal |
| ReferenceGrid.Search | rust/src/instance/discrete_backpack_3d.rs:232-233 | a fresh solver searched from object 0 with value 0 ends with a genuine best at least as valuable as every valid packing |
| ReferenceGrid.SolveToGridZxy | rust/src/instance/discrete_backpack_3d.rs:227-283 | the selected objects are worth best; some valid packing worth best is drawn by names and grid and listed by selected in input order; best is the largest value of any valid packing |
| Demo.Packed | rust/src/instance/discrete_backpack_3d.rs:147-183 | all four demo objects fit together in the 4 by 3 by 3 container, for a value of 21 |
| Demo.DemoOptimal | rust/src/instance/discrete_backpack_3d.rs:147-183 | the best value of the demo instance is 21 |
| Demo.ReferenceBest | rust/src/instance/discrete_backpack_3d.rs:185-191 | a best result that the reference search can end with on the demo is worth 21, and its selected objects are worth 21 |
| Demo.RunDemo | rust/src/instance/discrete_backpack_3d.rs:185-191 | the demo's search reports a best value of 21 and selected objects worth 21 |
| Demo.SearchBest | rust/src/lib.rs:223-225 | a best result of the branch-and-bound search on the demo instance is worth 21 |
| Demo.RunSearch | rust/src/lib.rs:223-225 | the branch-and-bound search, run on the demo instance, also reports 21 |

## Left out

- The wasm boundary `solve_to_grid_zxy_js` and `SolveOutput` (rust/src/lib.rs:278-311) are left out. They only marshal values through serde and `JsValue`, including the `isize` to `i32` cast.
- The printing in `run_demo` (discrete_backpack_3d.rs:190-217) is left out, because it is console output. Its instance is modelled in `Demo`.
- src/main.ts and forge.config.cjs are not part of this model. They hold the user interface and the packaging configuration.
- All sizes, values and counters are unbounded naturals. The model does not cover `usize` overflow in volumes, cell counts and value sums, or in `prev_cost + suffix`. It also does not cover `i32` truncation of object indices in the flat grid. `saturating_mul` at rust/src/lib.rs:64 is modelled as a plain product, which is the same thing whenever no overflow happens.
- Object names are opaque labels: a `string` in `lib.rs` and a `nat` in the reference. The extraction copies them and nothing depends on their contents.
- The contiguous z-run loops of `can_place_object`, `place` and `remove` (rust/src/lib.rs:177-213) are modelled by what they do cell by cell. The same holds for the x/y/z loops of the reference (discrete_backpack_3d.rs:107-141).
- FlatGrid.Fill: the model requires the box to lie inside the container. `place` and `remove` write `base + dz` into the flat vector, and a z-run past the top would spill into the next (x, y) column. Every call in `lib.rs` comes after `can_place_object` succeeded, so this never happens there. `BranchBound.Place` and `BranchBound.Remove` carry the same precondition.
- BranchBound.Dfs: the bound covers only finishes that place objects of positive extent on all three axes. The stop at a full container (rust/src/lib.rs:116-124) returns even if a flat object with a positive value is still undecided. Example: a 1x1x1 container with objects A(1,1,1, value 2) and B(0,1,1, value 1). The search fills the cell with A and stops at 2, yet A and B together are valid and worth 3. `BranchBound.FlatObjectMissed` proves this.
- BranchBound.PlaceAll: its bound covers only finishes of positive-extent objects, because it rests on the bound of the recursive `dfs` and carries the same limit.
- BranchBound.PlaceRow: its bound covers only finishes of positive-extent objects, for the same reason as PlaceAll.
- BranchBound.PlaceColumn: its bound covers only finishes of positive-extent objects, for the same reason as PlaceAll.
- BranchBound.TryNext: its bound covers only finishes of positive-extent objects, for the same reason as PlaceAll.
- BranchBound.TryAt: its bound covers only finishes of positive-extent objects, because the bound after the recursive `dfs` carries that limit.
- BranchBound.AllTried: its bound covers only finishes of positive-extent objects, the region the origin loop tracks.
- BranchBound.PlaceBound: its bound covers only finishes of positive-extent objects, as the recursive `dfs` bound it starts from.
- BranchBound.SaturatedBound: a full container still admits flat objects, so only finishes of positive-extent objects are shown to add nothing.
- SolveGrid.SolveToGridZxy: optimality holds when every object that fits the container has positive extents. Otherwise the result bounds only packings of positive-extent objects, for the reason given under BranchBound.Dfs. The reference solver has no such stop, so `ReferenceGrid.SolveToGridZxy` states optimality for every input.
- SolveGrid.Search: its bound covers only finishes of positive-extent objects.
- SolveGrid.SearchOptimal: it concludes optimality only when every object that fits the container has positive extents.
- The `Solve` structs are not mutated in place. Each search threads immutable `Current` and `Best` values through the recursion. `dfs`'s restore-on-return appears as the postcondition `cur' == cur`.
