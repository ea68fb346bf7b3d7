# fastiron core, modelled in Dafny

fastiron is a Rust port of the Quicksilver Monte Carlo particle transport
mini-app. This project models the integer, index, table and collection
code around its floating-point physics:

- the random-number state: the 64-bit LCG step, seed spawning, and the `pseudo_des` hash with its 32-bit word split;
- the index maps of the FCC mesh and of the grid-assignment object, including the flood fill behind `nearest_center`;
- the domain decomposition;
- the mesh facet tables, the boundary conditions, and the first-match material lookup;
- the facet-crossing state machine and the segment-outcome distance tracker;
- the energy-group search and the reaction distribution of the nuclear data;
- the balance tallies and the scalar-flux indexing;
- the particle collections: send queue, material database, particle container and vault container;
- the parsing and validation of parameter blocks.

Each core file is one Dafny module. A collection or object that the source
updates in place is a `class` whose methods state its new state. Each such
class comes with value-level functions that specify the new state, and
lemmas about those functions. Particles and facets are the exception: the
model treats them as immutable records, and an operation that updates one
through `&mut` returns the new record instead (see "## Left out").

Conventions of the model:

- In the random-number state, `u64` and `u32` are bounded `nat` types, and wrap-around is written out as `% 2^64` and `% 2^32`. The XOR of the `pseudo_des` rounds is a bitwise XOR on `nat`s, defined bit by bit. Elsewhere counters and index products are unbounded (see "## Left out").
- Floating-point numbers are exact `real`s, except the `u64`-to-`f64` conversion in `rng_sample`, which is modelled with its rounding.
- `f64` parsing, `ln` and `exp` are parameters of the operations that use them.
- Random decisions are parameters: survival, splitting and the low-weight roulette.
- `HashMap`s are Dafny `map`s, and loops over them pick keys in any order.

Panics split into two kinds:

- A panic that only a caller breaking its contract can reach (an index out of range, `unreachable!()`) becomes a `requires`.
- A panic that input data can reach is an explicit outcome: `Result`, `Outcome.Panicked` or `UpdateOutcome.Panicked`.

## Model

| member | source | states |
|---|---|---|
| RngState.LcgStepIsAffine | src/mc/mc_rng_state.rs:9-13 | the state step is seed := (2862933555777941757 * seed + 3037000493) mod 2^64 |
| RngState.LcgStepInvertible | src/mc/mc_rng_state.rs:9-13 | the step has an inverse (the multiplier is odd), so no two seeds share a successor |
| RngState.LcgStepInjective | src/mc/mc_rng_state.rs:9-13 | two seeds step to the same state exactly when they are equal |
| RngState.RngSample | src/mc/mc_rng_state.rs:7-19 | rng_sample advances the seed one LCG step and returns the new state converted to f64 and scaled by 2^-64; the sample is in [0, 1] (the "[0;1]" of its doc comment), and it is exactly 1 for the states from 2^64 - 2^10 on |
| RngState.ScaleLiteralsAreTwoToMinus64 | src/mc/mc_rng_state.rs:15-17 | the scale literal 5.421010862427522e-20 and the C reference's 5.4210108624275222e-20 (unit_test_c/MC_RNG_State.hh) both lie within half an f64 step of 2^-64, so both are the double 2^-64 |
| RngState.Split | src/mc/mc_rng_state.rs:17 | the exponent step of `as f64`: a power of two p and the 53-bit significand n / p, at least 2^52 unless p is 1 |
| RngState.SplitFor | src/mc/mc_rng_state.rs:17 | every n between 2^52 * p and 2^53 * p, p a power of two, gets the step p |
| RngState.ToF64Top | src/mc/mc_rng_state.rs:17 | a u64 converted to f64 is at most 2^64, and exactly 2^64 precisely from 2^64 - 2^10 on |
| RngState.ToF64BelowTwo63 | src/mc/mc_rng_state.rs:17 | below 2^63 the conversion stays below 2^63 + 2^11 |
| RngState.ToF64FromTwo63 | src/mc/mc_rng_state.rs:17 | from 2^63 on the step is 2^11, and the tie at 2^64 - 2^10 rounds to the even significand 2^53 |
| RngState.SpawnRnSeed | src/mc/mc_rng_state.rs:23-27 | spawn_rn_seed returns hash_state of the parent taken before the parent moves, then advances the parent exactly one LCG step, which the inverse step undoes |
| RngState.FromBeBytesOfBeBytes | src/mc/mc_rng_state.rs:38-43 | reading back k big-endian bytes of n gives n mod 256^k |
| RngState.BeBytesOfFromBeBytes | src/mc/mc_rng_state.rs:71-77 | writing a byte string's value back as that many big-endian bytes gives the string |
| RngState.RebuildValue | src/mc/mc_rng_state.rs:71-77 | rebuild_u64(front, back) is front * 2^32 + back |
| RngState.RebuildBreakup | src/mc/mc_rng_state.rs:38-43 | rebuild_u64(breakup_u64(n)) == n |
| RngState.BreakupRebuild | src/mc/mc_rng_state.rs:71-77 | breakup_u64(rebuild_u64(front, back)) == (front, back) |
| RngState.BreakupHighFirst | src/mc/mc_rng_state.rs:38-43 | breakup_u64 yields the high 32 bits first, then the low 32 bits |
| RngState.XorCancel | src/mc/mc_rng_state.rs:51-68 | xoring twice with the same value gives back the original, which makes a round undoable |
| RngState.DesRound | src/mc/mc_rng_state.rs:51-68 | one round sets the new lword to the old irword, and the old lword is recovered from the new pair |
| RngState.UndoDesRounds | src/mc/mc_rng_state.rs:45-69 | the rounds of pseudo_des are undone by running their inverses backwards, so the mix is a bijection on word pairs |
| RngState.PseudoDes | src/mc/mc_rng_state.rs:45-69 | the loop on the two words computes exactly DES_ROUNDS = 2 rounds |
| RngState.HashStateInjective | src/mc/mc_rng_state.rs:30-36 | hash_state is deterministic, and distinct seeds hash to distinct seeds |
| FccGrid.CornerOffsetsDistinct | fastiron/src/geometry/mod.rs:36-51 | the 14 corner offsets are pairwise distinct, and there are 6 face offsets |
| FccGrid.GlobalFccGrid.CellIdxRoundTrip | src/geometry/global_fcc_grid.rs:81-92 | for every index below nx*ny*nz, its tuple is in the grid and cell_tuple_to_idx(cell_idx_to_tuple(i)) == i |
| FccGrid.GlobalFccGrid.CellTupleRoundTrip | src/geometry/global_fcc_grid.rs:81-92 | every in-grid tuple has an index below nx*ny*nz that converts back to it |
| FccGrid.GlobalFccGrid.NodeTupleRoundTrip | src/geometry/global_fcc_grid.rs:95-112 | node_idx_to_tuple inverts node_tuple_to_idx on in-range node tuples |
| FccGrid.GlobalFccGrid.NodeIdxRoundTrip | src/geometry/global_fcc_grid.rs:95-112 | every node index converts to an in-range tuple that converts back to it |
| FccGrid.GlobalFccGrid.GetNodeGids | src/geometry/global_fcc_grid.rs:115-131 | get_node_gids yields 14 ids, the i-th being the node at the cell's corner plus CORNER_OFFSET[i], and all 14 are distinct |
| FccGrid.GlobalFccGrid.SnapTurtle | src/geometry/global_fcc_grid.rs:190-197 | snap_turtle lands in the grid, leaves in-grid tuples unchanged, and picks on each axis the nearest coordinate in [0, n-1] |
| FccGrid.GlobalFccGrid.GetFaceNbrGids | src/geometry/global_fcc_grid.rs:134-150 | get_face_nbr_gids yields 6 ids below nx*ny*nz; a face neighbour inside the grid gives its own id, and one outside gives the cell itself |
| FccGrid.GlobalFccGrid.SnapOfFaceNeighbour | src/geometry/global_fcc_grid.rs:134-150 | snapping a face neighbour gives back the cell exactly when that neighbour lies outside the grid |
| FccGrid.SnapTurtleExamples | src/geometry/global_fcc_grid.rs:208-215 | the two snap_turtle cases of the unit test on a 3x3x3 grid |
| Decomposition.New | fastiron/src/utils/decomposition_object.rs:26-47 | rank and index have n_ranks*dom_per_rank entries; domain d has rank d / dom_per_rank and index d % dom_per_rank; assigned_gids lists dom_per_rank*my_rank + ii in order |
| Decomposition.RankIndexOfDomain | fastiron/src/utils/decomposition_object.rs:32-35 | for every rank r and local index i, domain dom_per_rank*r + i has rank r and index i |
| Decomposition.AssignedAreOwnDomains | fastiron/src/utils/decomposition_object.rs:37-40 | a domain is assigned to this process exactly when its rank is my_rank |
| GridAssignment.ScanIsLeastNearest | fastiron/src/geometry/grid_assignment_object.rs:124-134 | the corrected scan of candidate centres finds the nearest centre below the starting radius, the smallest index among equally near ones |
| GridAssignment.LeastNearestUnique | fastiron/src/geometry/grid_assignment_object.rs:124-134 | the least nearest centre of a candidate set is unique |
| GridAssignment.ScanOrderIndependent | fastiron/src/geometry/grid_assignment_object.rs:124-134 | the corrected scan gives the same answer whatever the order of the candidates |
| GridAssignment.AsWrittenTieCounterexample | fastiron/src/geometry/grid_assignment_object.rs:127-129 | as written, a tie keeps whichever centre came first (1 before 0 gives 1, 0 before 1 gives 0); the corrected scan gives 0 |
| GridAssignment.BurnsOffer | fastiron/src/geometry/grid_assignment_object.rs:208-216 | offering one cell to the flood keeps the flood's bookkeeping relation: queued once, marked burned, recorded as wet |
| GridAssignment.BurnsKeepsWet | fastiron/src/geometry/grid_assignment_object.rs:208-216 | every burned cell stays listed in wet_list across any number of offers |
| GridAssignment.GridAssignmentObject.TupleToIndexIs | fastiron/src/geometry/grid_assignment_object.rs:176-178 | tuple_to_index is the FCC grid's x-fastest cell index |
| GridAssignment.GridAssignmentObject.TupleIndexRoundTrip | fastiron/src/geometry/grid_assignment_object.rs:176-187 | index_to_tuple(tuple_to_index(t)) == t on the grid |
| GridAssignment.GridAssignmentObject.IndexTupleRoundTrip | fastiron/src/geometry/grid_assignment_object.rs:176-187 | tuple_to_index(index_to_tuple(i)) == i for every cell index |
| GridAssignment.GridAssignmentObject.TupleToIndexInjective | fastiron/src/geometry/grid_assignment_object.rs:176-178 | distinct grid tuples have distinct indices |
| GridAssignment.GridAssignmentObject.WhichCellTuple | fastiron/src/geometry/grid_assignment_object.rs:147-168 | which_cell_tuple always returns a tuple in the grid (clamped on each axis) |
| GridAssignment.GridAssignmentObject.WhichCellTupleSpec | fastiron/src/geometry/grid_assignment_object.rs:147-168 | which_cell_tuple(r) is t exactly when, on each axis, r lies in t's slab (outer slabs extended to infinity) |
| GridAssignment.GridAssignmentObject.WhichCell | fastiron/src/geometry/grid_assignment_object.rs:171-173 | which_cell is a valid cell index whose tuple is which_cell_tuple |
| GridAssignment.GridAssignmentObject.MinDist2NearZero | fastiron/src/geometry/grid_assignment_object.rs:191-205 | min_dist2 is >= 0, and it is 0 when the cell is within one step of r's cell on every axis |
| GridAssignment.GridAssignmentObject.MinDist2LowerBound | fastiron/src/geometry/grid_assignment_object.rs:191-205 | min_dist2(r, cell of p) never exceeds the squared distance from r to p, so it is safe for pruning |
| GridAssignment.GridAssignmentObject.MinDist2Monotone | fastiron/src/geometry/grid_assignment_object.rs:191-205 | a cell between r's cell and another cell is no farther from r by min_dist2 |
| GridAssignment.GridAssignmentObject.NbrTuplesSpec | fastiron/src/geometry/grid_assignment_object.rs:219-254 | the neighbour tuples are exactly the in-grid tuples at Manhattan distance 1, at most 6 of them |
| GridAssignment.GridAssignmentObject.NbrIndicesInGrid | fastiron/src/geometry/grid_assignment_object.rs:219-254 | add_nbrs_to_queue considers at most 6 cells, each a valid face neighbour |
| GridAssignment.GridAssignmentObject.NbrIndicesComplete | fastiron/src/geometry/grid_assignment_object.rs:219-254 | every in-grid face neighbour of the cell is considered |
| GridAssignment.GridAssignmentObject.OfferNbrsBurns | fastiron/src/geometry/grid_assignment_object.rs:219-254 | offering the neighbours keeps the flood's relation for exactly the neighbour indices |
| GridAssignment.GridAssignmentObject.MembersSpec | fastiron/src/geometry/grid_assignment_object.rs:98-101 | a centre is listed in cell i exactly when which_cell puts it there |
| GridAssignment.GridAssignmentObject.constructor | fastiron/src/geometry/grid_assignment_object.rs:53-104 | new takes the corner as the lower corner of the centres' bounding box; with l the box's sides raised to 1 and dim the cube root of n / (5 * lx * ly * lz), each axis gets max(1, floor(dim * l)) cells of length l / cells; it builds one unburned cell per grid index, each listing the centres that fall in it, with empty queue and wet list |
| GridAssignment.GridAssignmentObject.ListCenters | fastiron/src/geometry/grid_assignment_object.rs:98-101 | every centre is listed, in order, in exactly the cell which_cell gives it, and the flood state is idle and valid |
| GridAssignment.LowCorner | fastiron/src/geometry/grid_assignment_object.rs:58-67 | min_coords: on each axis no centre lies below it, and some centre attains it |
| GridAssignment.HighCorner | fastiron/src/geometry/grid_assignment_object.rs:58-67 | max_coords: on each axis no centre lies above it, and some centre attains it |
| GridAssignment.BoundingBox | fastiron/src/geometry/grid_assignment_object.rs:58-67 | the loop from centers[0] over all centres leaves exactly the lower and the upper corner |
| GridAssignment.Extents | fastiron/src/geometry/grid_assignment_object.rs:69-71 | each side is max(1, max - min): at least 1, at least the spread of the centres, and equal to one of the two |
| GridAssignment.CellsAlong | fastiron/src/geometry/grid_assignment_object.rs:73-75 | max(1, floor(dim * l)): at least one cell, and when more than one, the integer part of dim * l |
| GridAssignment.CellLength | fastiron/src/geometry/grid_assignment_object.rs:76-78 | the cell length is positive and n cells of it cover the side exactly |
| GridAssignment.GridAssignmentObject.AddTupleToQueue | fastiron/src/geometry/grid_assignment_object.rs:208-216 | add_tuple_to_queue queues, burns and records as wet a cell that was not burned, and changes nothing otherwise |
| GridAssignment.GridAssignmentObject.AddNbrsToQueue | fastiron/src/geometry/grid_assignment_object.rs:219-254 | add_nbrs_to_queue offers the six face neighbours in source order, skipping those outside the grid |
| GridAssignment.GridAssignmentObject.ScanCell | fastiron/src/geometry/grid_assignment_object.rs:124-134 | the inner loop over a cell's centres computes the corrected scan of their distances |
| GridAssignment.GridAssignmentObject.ClearWet | fastiron/src/geometry/grid_assignment_object.rs:138-140 | the wet reset empties wet_list and unburns every cell, leaving the centre lists untouched |
| McVector.Dist2 | fastiron/src/geometry/grid_assignment_object.rs:126 | the squared distance `(rr - center_r).dot(&(rr - center_r))` that nearest_center compares: the sum of the squared coordinate differences, never negative |
| GridAssignment.GridAssignmentObject.NearestCenter | fastiron/src/geometry/grid_assignment_object.rs:111-144 | nearest_center returns the nearest centre to r (least index on ties); None exactly when every centre is at least R2_START away; the grid is left unburned with empty queue and wet list |
| McDomain.NodeIndirectShape | fastiron/src/geometry/mc_domain.rs:37-62 | NODE_INDIRECT has 24 rows of three node numbers < 14, and the third is 8 + facet/4 |
| McDomain.FacetsCloseAroundFace | fastiron/src/geometry/mc_domain.rs:37-62 | the four facets of a face go around it: each facet's second corner is the next facet's first |
| McDomain.OpposingFacetInvolution | fastiron/src/geometry/mc_domain.rs:64-66 | OPPOSING_FACET is an involution on 0..23 that maps a facet to one of the opposite face |
| McDomain.MakeFacet | fastiron/src/geometry/mc_domain.rs:366-393 | make_facet takes the event and adjacency from face facet/4 and its nodes from NODE_INDIRECT; a boundary event makes adjacent.facet the current facet, and a transit makes it OPPOSING_FACET of the current one |
| McDomain.GetBoundaryConditions | fastiron/src/geometry/mc_domain.rs:396-412 | "reflect" and "escape" give six equal boundary events, "octant" alternates Escape and Reflection, and any other string is None |
| McDomain.FirstInside | fastiron/src/geometry/mc_domain.rs:191-222 | the first geometry, in list order, that contains the point, or None when none does |
| McDomain.FindMaterial | fastiron/src/geometry/mc_domain.rs:191-202 | find_material's loop returns the material of the first geometry containing the point, or "" when none does |
| McDomain.FirstIs | fastiron/src/geometry/mc_domain.rs:191-202 | a containing geometry with no containing geometry before it is the one found |
| McDomainExamples.TestGeometriesAt | fastiron/src/geometry/mc_domain.rs:423-511 | a point is inside a test brick exactly when each coordinate is within the inclusive bounds, and inside a test sphere exactly when its squared distance to the centre is at most r^2 |
| McDomainExamples.InsideMaterialExamples | fastiron/src/geometry/mc_domain.rs:512-517 | the five materials the unit test expects at its five points |
| FacetCrossing.FacetCrossingEvent | fastiron/src/simulation/mc_facet_crossing_event.rs:19-49 | a transit copies the adjacent domain, cell and facet and records TransitExit (on processor) or Communication (off processor); escape and reflection change only last_event; an undefined adjacency or a missing adjacent location is an error |
| FacetCrossing.CrossingTallyInjective | fastiron/src/simulation/mc_facet_crossing_event.rs:24-46 | each defined adjacency event leaves a different last_event |
| FacetCrossing.CrossBack | fastiron/src/simulation/mc_facet_crossing_event.rs:24-46 | crossing a transit facet and then its mirror adjacency brings the particle back to its location |
| SegmentOutcome.StepStores | fastiron/src/simulation/mc_segment_outcome.rs:55-66 | update stores the distance of its outcome, keeps the others, and sets min_dist to min(old, new) |
| SegmentOutcome.RunPicksEarliestMinimum | fastiron/src/simulation/mc_segment_outcome.rs:55-66 | after any run of updates, min_dist is the least distance, and the outcome is that of the earliest update reaching it, or the starting one |
| SegmentOutcome.DistanceHandler.constructor | fastiron/src/simulation/mc_segment_outcome.rs:77-88 | the default has every distance huge and outcome Collision |
| SegmentOutcome.DistanceHandler.Update | fastiron/src/simulation/mc_segment_outcome.rs:55-66 | update is one Step of the value model, and keeps min_dist at or below every stored distance |
| SegmentOutcome.DistanceHandler.ForceCollision | fastiron/src/simulation/mc_segment_outcome.rs:68-74 | force_collision makes Collision the outcome with min_dist and the collision distance tiny, and the others huge |
| SegmentOutcome.PickOutcome | fastiron/src/simulation/mc_segment_outcome.rs:157-177 | outcome's three updates (collision, census, facet) pick the least distance, capped at huge, with ties going to collision, then census; forcing gives Collision at a tiny distance |
| SegmentOutcome.PickOutcomeIsRun | fastiron/src/simulation/mc_segment_outcome.rs:157-171 | the three updates of outcome are a run of the value model from the default |
| NuclearData.PolynomialExpanded | fastiron/src/data/nuclear_data.rs:41-43 | val is the quartic polynomial a*x^4 + b*x^3 + c*x^2 + d*x + e |
| NuclearData.GridIncreasing | fastiron/src/data/nuclear_data.rs:158-171 | for low < high with monotone ln and exp, the energy levels of new are strictly increasing |
| NuclearData.BracketIsLinearGroup | fastiron/src/data/nuclear_data.rs:258-284 | on a sorted grid, the group whose bracket holds the energy is the group found |
| NuclearData.LinearGroupBrackets | fastiron/src/data/nuclear_data.rs:271-283 | the group found satisfies energies[g] <= energy < energies[g+1], or it is the last bracket |
| NuclearData.ReactionCountsAddUp | fastiron/src/data/nuclear_data.rs:204-219 | the scatter, fission and absorption counts add up to n_reactions |
| NuclearData.CountTypeRoundRobin | fastiron/src/data/nuclear_data.rs:230-253 | giving reaction ii the type of ii % 3 yields exactly those per-type counts |
| NuclearData.SharesAddUp | fastiron/src/data/nuclear_data.rs:220-225 | with at least 3 reactions, the per-reaction cross sections, times their counts, add up to the total cross section |
| NuclearData.ShareTimesCount | fastiron/src/data/nuclear_data.rs:220-225 | count times the per-reaction share is total * weight / total_weight |
| NuclearData.ReactionSharesDefined | fastiron/src/data/nuclear_data.rs:220-253 | every reaction built gets a defined cross section when the weights do not sum to zero |
| NuclearData.NuclearData.constructor | fastiron/src/data/nuclear_data.rs:158-179 | new has num_groups + 1 energies ending at high, starting at low when there is a group, with the log-spaced levels in between, and no isotope |
| NuclearData.NuclearData.GetEnergyGroups | fastiron/src/data/nuclear_data.rs:258-284 | 0 for energy <= energies[0], len - 1 above the last level, otherwise the bracketing group; on a sorted grid it agrees with the linear search |
| NuclearData.NuclearData.AddIsotope | fastiron/src/data/nuclear_data.rs:185-255 | add_isotope appends exactly one isotope holding one species, returns its index, and builds n_reactions reactions typed round-robin with their shares |
| Tallies.IndexBijective | fastiron/src/data/tallies.rs:78-96 | the 14 tallied events and the slots 0..13 are in bijection |
| Tallies.IndexInjective | fastiron/src/data/tallies.rs:126-138 | indexing reads a distinct slot for each event |
| Tallies.AddCommutative | fastiron/src/data/tallies.rs:142-150 | Add is commutative |
| Tallies.AddAssociative | fastiron/src/data/tallies.rs:142-150 | Add is associative |
| Tallies.AddZero | fastiron/src/data/tallies.rs:142-150 | the zero balance is a neutral element of Add |
| Tallies.SumEmpty | fastiron/src/data/tallies.rs:152-156 | the sum of no balances is the zero balance |
| Tallies.SumConcat | fastiron/src/data/tallies.rs:152-156 | the sum of two lists of balances is the Add of their sums |
| Tallies.SumIsSlotwise | fastiron/src/data/tallies.rs:152-156 | each counter of a sum is the sum of that counter over the balances |
| Tallies.Balance.constructor | fastiron/src/data/tallies.rs:104-107 | a default balance has 14 zero counters |
| Tallies.Balance.Set | fastiron/src/data/tallies.rs:134-138 | writing through IndexMut changes exactly the event's counter |
| Tallies.Balance.Reset | fastiron/src/data/tallies.rs:111-113 | reset zeroes all 14 counters |
| Tallies.Balance.AddToSelf | fastiron/src/data/tallies.rs:116-121 | add_to_self adds the other balance counter by counter and leaves it unchanged |
| Tallies.ScalarFluxDomain.constructor | fastiron/src/data/tallies.rs:171-177 | new allocates n_cells * num_groups zero fluxes |
| Tallies.ScalarFluxDomain.Reset | fastiron/src/data/tallies.rs:180-184 | reset zeroes every flux |
| Tallies.FlatIndexRoundTrip | fastiron/src/data/tallies.rs:188-200 | (c, g) maps to c*num_groups + g, which is in range and gives back c and g |
| Tallies.FlatIndexOnto | fastiron/src/data/tallies.rs:188-200 | every flat index is the image of one (cell, group) pair |
| Tallies.Tallies.constructor | fastiron/src/data/tallies.rs:208-213 | default tallies hold a zero balance and an empty flux array |
| Tallies.Tallies.InitializeTallies | fastiron/src/data/tallies.rs:217-219 | initialize_tallies installs a zero flux array of n_cells * num_energy_groups and keeps the balance |
| Tallies.Tallies.CycleFinalize | fastiron/src/data/tallies.rs:338-344 | cycle_finalize leaves Start equal to the old End, every other counter 0, and the flux zeroed |
| SendQueue.CountNeighborIsPositions | src/send_queue.rs:32-34 | the neighbor count is the number of positions holding that neighbor |
| SendQueue.CountNeighborConcat | src/send_queue.rs:32-34 | counting distributes over concatenation |
| SendQueue.PushCounts | src/send_queue.rs:43-45 | a push adds one to its neighbor's count and leaves every other count unchanged |
| SendQueue.PushThenGet | src/send_queue.rs:38-45 | after a push the new tuple is at the old size and the earlier tuples are where they were |
| SendQueue.VecReserve | src/send_queue.rs:25-29 | Vec::reserve keeps the capacity when it suffices, and otherwise reaches at least len + additional |
| SendQueue.ReserveAsWrittenFallsShort | src/send_queue.rs:25-29 | as written, when len + size <= 2*capacity and capacity < size, the capacity stays below size |
| SendQueue.ReserveAsWrittenCounterexample | src/send_queue.rs:25-29 | an empty queue with capacity 4 that reserves 6 keeps capacity 4 |
| SendQueue.ReserveCapacity | src/send_queue.rs:25-29 | the corrected reserve reaches at least size and never shrinks |
| SendQueue.SendQueue.constructor | src/send_queue.rs:13-16 | a new queue is empty with the given capacity |
| SendQueue.SendQueue.Size | src/send_queue.rs:20-22 | size is the number of queued tuples: get_tuple finds a tuple exactly below it, and no neighbor's count exceeds it |
| SendQueue.SendQueue.NeighborSize | src/send_queue.rs:32-34 | neighbor_size is the number of positions whose tuple goes to that neighbor |
| SendQueue.SendQueue.GetTuple | src/send_queue.rs:38-40 | get_tuple is the tuple at the index, and None exactly past the end |
| SendQueue.SendQueue.Reserve | src/send_queue.rs:25-29 | reserve keeps the contents and, as intended, leaves a capacity of at least size |
| SendQueue.SendQueue.Push | src/send_queue.rs:43-45 | push appends (neighbor, index) at the end; the size and the neighbor's count grow by one, and no other count changes |
| SendQueue.SendQueue.Clear | src/send_queue.rs:48-50 | clear leaves size 0 and every neighbor count 0, and keeps the capacity |
| MaterialDatabase.Material.constructor | src/data/material_database.rs:20-27 | a material starts with its name and mass and no isotope |
| MaterialDatabase.Material.AddIsotope | src/data/material_database.rs:31-33 | add_isotope appends the isotope and keeps the name, the mass and the earlier isotopes |
| MaterialDatabase.Position | src/data/material_database.rs:52-54 | the first index holding the name, and None exactly when no index holds it |
| MaterialDatabase.PositionAppend | src/data/material_database.rs:45-54 | appending a name does not move a name already found; a name that was absent is found at the end when it is the one appended |
| MaterialDatabase.MaterialDatabase.constructor | src/data/material_database.rs:38-41 | a new database holds no material |
| MaterialDatabase.MaterialDatabase.Names | src/data/material_database.rs:52-54 | the names of the materials, one per material, in order |
| MaterialDatabase.MaterialDatabase.AddMaterial | src/data/material_database.rs:45-47 | add_material appends at the end and keeps the earlier entries; the first material of a name keeps being the one found |
| MaterialDatabase.MaterialDatabase.FindMaterial | src/data/material_database.rs:52-54 | find_material is the first index whose name matches, and None exactly when no name matches |
| ParticleContainer.Insert | fastiron/src/particles/particle_container.rs:171-178 | inserting into a list sorted by (cell, energy group) keeps it sorted and adds exactly that particle |
| ParticleContainer.SortByPlace | fastiron/src/particles/particle_container.rs:171-178 | the particles sorted lexicographically by (cell, energy group), as a permutation of the input |
| ParticleContainer.Rejected | fastiron/src/particles/particle_container.rs:56-70 | the number of particles removed is at most the number there were |
| ParticleContainer.Retained | fastiron/src/particles/particle_container.rs:56-70 | retain_mut keeps count minus removed particles, each one the update of a particle it kept |
| ParticleContainer.RetainedKeepsSurvivors | fastiron/src/particles/particle_container.rs:56-70 | every particle that survives is kept, in its updated form |
| ParticleContainer.KnownOf | fastiron/src/particles/particle_container.rs:164-167 | the kept particles are exactly the Known ones, with their multiplicities |
| ParticleContainer.SplitParents | fastiron/src/particles/particle_container.rs:74-92 | each particle replaced in place by its split version |
| ParticleContainer.SplitEach | fastiron/src/particles/particle_container.rs:77-84 | the split loop yields the split parents and their offspring in order |
| ParticleContainer.SplitStep | fastiron/src/particles/particle_container.rs:77-84 | one loop step adds one split parent and its offspring |
| ParticleContainer.ParticleContainer.constructor | fastiron/src/particles/particle_container.rs:35-41 | new starts with three empty lists |
| ParticleContainer.ParticleContainer.SwapProcessingProcessed | fastiron/src/particles/particle_container.rs:45-52 | processing becomes processing ++ processed, processed is empty, and no particle is lost |
| ParticleContainer.ParticleContainer.RegulatePopulation | fastiron/src/particles/particle_container.rs:56-70 | processing keeps the particles surviving the roulettes, and OverRr is exactly the number removed |
| ParticleContainer.ParticleContainer.SplitPopulation | fastiron/src/particles/particle_container.rs:74-92 | the split particles, the extra ones and the offspring, after the low-weight roulette, become the processing list; Split counts the particles added and WeightRr those removed |
| ParticleContainer.ParticleContainer.FinishProcessing | fastiron/src/particles/particle_container.rs:164-167 | after processing, processing is empty and every Known particle has moved to the end of processed |
| ParticleContainer.ParticleContainer.SortProcessing | fastiron/src/particles/particle_container.rs:171-178 | sort_processing leaves a permutation of processing ordered by (cell, energy group) |
| ParticleContainer.ParticleContainer.CleanExtraVaults | fastiron/src/particles/particle_container.rs:200-202 | clean_extra_vaults appends extra to processing and empties extra; the processed list is kept |
| ParticleContainer.CleanExtraKeepsParticles | fastiron/src/particles/particle_container.rs:200-202 | the lists clean_extra_vaults leaves hold the same particles, with multiplicity, as before |
| ParticleContainer.ParticleContainer.IsDoneProcessing | fastiron/src/particles/particle_container.rs:208-210 | is_done_processing holds exactly when both the processing and the extra lists are empty |
| VaultContainer.VaultSizeUpdate | src/particles/particle_vault_container.rs:207-234 | filling or emptying one slot changes a vault's size by one |
| VaultContainer.TotalSizeUpdate | src/particles/particle_vault_container.rs:105-133 | replacing one vault changes the total by the difference of the two sizes |
| VaultContainer.TotalSizeAppend | src/particles/particle_vault_container.rs:83-97 | appending a vault adds its size to the total |
| VaultContainer.FirstFree | src/particles/particle_vault_container.rs:226-230 | the first free slot of a vault, and None exactly when every slot is full |
| VaultContainer.Place | src/particles/particle_vault_container.rs:226-231 | putting a particle in the first free slot adds one particle and keeps the length, and fails exactly when no slot is free |
| VaultContainer.FirstEmpty | src/particles/particle_vault_container.rs:83-97 | the first empty vault, and None exactly when none is empty |
| VaultContainer.CountParticles | src/particles/particle_vault_container.rs:105-133 | the summing loop yields the sum of the vault sizes |
| VaultContainer.FindFillVault | src/particles/particle_vault_container.rs:207-262 | the fill index advances past full vaults to the first non-full one, appending a fresh vault when it runs off the end |
| VaultContainer.PutInFillVault | src/particles/particle_vault_container.rs:207-262 | the particle lands in the first free slot of the fill vault, adding one to the total, or the unwrap on a missing free slot panics and nothing is added |
| VaultContainer.ExtraVaultInRange | src/particles/particle_vault_container.rs:266-277 | with index <= size*count, index/size names an existing extra vault or the next one to append |
| VaultContainer.PushExtra | src/particles/particle_vault_container.rs:266-277 | the particle is appended to the chosen extra vault, which is created when missing, and the total grows by one |
| VaultContainer.ParticleVaultContainer.constructor | src/particles/particle_vault_container.rs:31-55 | new creates num_vaults empty processing and processed vaults and num_extra_vaults empty extra vaults |
| VaultContainer.ParticleVaultContainer.ParticlesProcessingSize | src/particles/particle_vault_container.rs:105-113 | the sum of the processing vault sizes |
| VaultContainer.ParticleVaultContainer.ParticlesProcessedSize | src/particles/particle_vault_container.rs:116-124 | the sum of the processed vault sizes |
| VaultContainer.ParticleVaultContainer.ParticlesExtraSize | src/particles/particle_vault_container.rs:127-133 | the sum of the extra vault sizes |
| VaultContainer.ParticleVaultContainer.GetFirstEmptyProcessedVault | src/particles/particle_vault_container.rs:83-97 | the first empty processed vault, or a new empty one appended at the end |
| VaultContainer.ParticleVaultContainer.SetAsProcessed | src/particles/particle_vault_container.rs:207-234 | the particle moves from its processing slot to the first free slot of the first non-full processed vault; one particle fewer in processing and one more in processed, unless the free-slot unwrap panics; the processed vaults and the index are PutStep's from fill index 0 |
| VaultContainer.ParticleVaultContainer.AddProcessingParticle | src/particles/particle_vault_container.rs:237-262 | the particle lands in the first non-full processing vault at or after the fill index, and the total grows by one; the outcome, vaults and new fill index are exactly PutStep's |
| VaultContainer.ParticleVaultContainer.AddExtraParticle | src/particles/particle_vault_container.rs:266-277 | extra_vault_index grows by one, an extra vault is added when index/vault_size reaches num_extra_vaults, and the total grows by one |
| VaultContainer.ParticleVaultContainer.CleanExtraVaults | src/particles/particle_vault_container.rs:280-298 | with no extra particle nothing changes; otherwise the outcome and the processing vaults are AddAll of the extra particles in vault-then-slot order from fill index 0; on success the processing vaults hold their old particles plus the extra ones (as multisets and in count) and every extra vault is empty; on a panic the extra vaults are untouched |
| VaultContainer.ParticleVaultContainer.AddExtraParticles | src/particles/particle_vault_container.rs:286-295 | the two nested loops over the extra vaults leave exactly AddAll's outcome and processing vaults |
| VaultContainer.ParticleVaultContainer.AddVaultParticles | src/particles/particle_vault_container.rs:288-294 | the loop over one extra vault's slots leaves exactly AddAll's outcome, vaults and fill index for that vault's particles |
| VaultContainer.ParticleVaultContainer.ClearExtraVaults | src/particles/particle_vault_container.rs:297 | every extra vault is emptied, their number is kept, nothing else changes |
| VaultContainer.VaultSizeFront | src/particles/particle_vault_container.rs:105-133 | a vault's size counted from its first slot equals its size counted from its last |
| VaultContainer.TotalSizeFront | src/particles/particle_vault_container.rs:105-133 | the same for the total over a list of vaults |
| VaultContainer.SlotParticlesCount | src/particles/particle_vault_container.rs:105-133 | a vault holds exactly as many particles as its size |
| VaultContainer.ParticlesCount | src/particles/particle_vault_container.rs:127-133 | a list of vaults holds exactly as many particles as particles_extra_size-style summing gives |
| VaultContainer.EmptyVaultNoParticles | src/particles/particle_vault_container.rs:286 | a vault of size 0 holds no particle, so skipping it (the size filter) skips nothing |
| VaultContainer.EmptyListNoParticles | src/particles/particle_vault_container.rs:281-284 | extra vaults of total size 0 hold no particle, so the early return loses none |
| VaultContainer.SlotParticlesFill | src/particles/particle_vault_container.rs:256-261 | filling an empty slot adds exactly that particle to the vault's multiset |
| VaultContainer.ParticlesFill | src/particles/particle_vault_container.rs:256-261 | filling an empty slot of one vault adds exactly that particle to the list's multiset |
| VaultContainer.ParticlesAppendEmpty | src/particles/particle_vault_container.rs:247-254 | appending a fresh vault adds no particle |
| VaultContainer.FillAt | src/particles/particle_vault_container.rs:243-255 | the vault the search stops at: every vault before it from `fill` on is full, and it has room or is the one appended past the end |
| VaultContainer.PutStep | src/particles/particle_vault_container.rs:237-262 | one add: the index used is at or after `fill` and inside the new list, which grows by at most the one vault appended at the end |
| VaultContainer.PutStepKeepsParticles | src/particles/particle_vault_container.rs:237-262 | one add puts exactly the particle in (multiset), or on a panic changes no particle |
| VaultContainer.AddAll | src/particles/particle_vault_container.rs:286-295 | the fill index stays inside the processing vaults through all the adds |
| VaultContainer.AddAllCons | src/particles/particle_vault_container.rs:286-295 | adding p then the rest is one PutStep, then the rest from where it left off unless it panicked |
| VaultContainer.AddAllAppend | src/particles/particle_vault_container.rs:286-295 | adding a + b is adding a, then b from the vaults and fill index a leaves, unless a panicked |
| VaultContainer.AddAllKeepsParticles | src/particles/particle_vault_container.rs:286-295 | when no add panics the vaults hold their particles plus exactly the added ones |
| VaultContainer.MoveKeepsParticles | src/particles/particle_vault_container.rs:280-298 | moving the extra vaults' particles, when no add panics, keeps every particle and adds the extra total to the processing total |
| Parameters.DecimalRoundTrip | src/parameters.rs:586-593 | an unsigned field parses back the decimal text of any value below 2^64, with or without '+' |
| Parameters.ParseUnsignedRejects | src/parameters.rs:586-593 | the empty string, a lone '+' and a negative number are not unsigned values |
| Parameters.GeometryKeyRoundTrip | src/parameters.rs:101-134 | each geometry field has one key that names it |
| Parameters.SetGeometryFieldOk | src/parameters.rs:101-134 | a geometry value is accepted exactly when it parses for its field (for shape: only "brick" or "sphere") |
| Parameters.GeometryFromBlock | src/parameters.rs:101-137 | from_block accepts a geometry block exactly when every key is known and every value parses, and then sets exactly the given fields over the defaults; otherwise BadGeometryBlock |
| Parameters.MaterialKeyRoundTrip | src/parameters.rs:179-209 | each material field has one key that names it |
| Parameters.SetMaterialFieldOk | src/parameters.rs:179-209 | a material value is accepted exactly when it parses for its field |
| Parameters.MaterialFromBlock | src/parameters.rs:179-209 | from_block accepts a material block exactly when every key is known and every value parses, and then sets exactly the given fields over the defaults; otherwise BadMaterialBlock |
| Parameters.CrossSectionKeyRoundTrip | src/parameters.rs:263-288 | each cross-section field has one key that names it |
| Parameters.SetCrossSectionFieldOk | src/parameters.rs:263-288 | a cross-section value is accepted exactly when it parses for its field |
| Parameters.CrossSectionFromBlock | src/parameters.rs:263-288 | from_block accepts a cross-section block exactly when every key is known and every value parses, and then sets exactly the given fields over the defaults; otherwise BadCrossSectionBlock |
| Parameters.SimulationKeyRoundTrip | src/parameters.rs:604-640 | each simulation field has one key that names it |
| Parameters.SetSimulationFieldOk | src/parameters.rs:595-640 | a simulation value is accepted exactly when it parses; boolean fields take only '0'/'1' first, and coralBenchmark only '0'/'1'/'2' |
| Parameters.LegacyKeysSetNothing | src/parameters.rs:643-649 | the listed legacy keys name no field and are ignored |
| Parameters.PanicsAreNotAccepted | src/parameters.rs:611-627 | an empty value for a boolean or benchmark key, which panics on chars[0], is never an accepted entry |
| Parameters.ApplySimulationEntry | src/parameters.rs:603-652 | one entry either updates its field (legacy keys change nothing), panics on an empty first character, or is rejected with BadSimulationBlock and changes nothing |
| Parameters.ApplySimulationBlock | src/parameters.rs:586-655 | the block is applied exactly when every entry is accepted; otherwise the run stops at a panicking or rejected entry, with the entries before it applied |
| Parameters.SimulationFromCli | src/parameters.rs:374-405 | from_cli overrides a default only for the options given as Some, takes the two switches as given, and keeps every other field at its default |
| Parameters.IntegrityOkIffNoErrors | src/parameters.rs:531-579 | a problem passes exactly when no error is found: there is a geometry, no shape is Undefined, and every referenced material and cross section exists |
| Parameters.SourceGeometry | src/parameters.rs:515-522 | the default geometry is a brick of source_material from the origin to (lx, ly, lz) |
| Parameters.WithDefaultsIdempotent | src/parameters.rs:485-523 | supply_defaults leaves a problem with geometries alone, always leaves a geometry, and is idempotent |
| Parameters.SuppliedDefaultsIntegrity | src/parameters.rs:485-523 | after defaults are supplied to a problem without geometry, it passes exactly when every other material names only existing or "flat" cross sections |
| Parameters.DefaultProblemPasses | tests/io_and_parameters.rs:88-106 | a problem with a simulation block only fails with NoGeometry, and passes once defaults are supplied |
| Parameters.Parameters.constructor | src/parameters.rs:457-462 | new parameters hold the simulation parameters and empty geometry, material and cross-section tables |
| Parameters.Parameters.AddGeometryParameter | src/parameters.rs:657-659 | add_geometry_parameter appends the geometry and changes nothing else |
| Parameters.Parameters.AddMaterialParameter | src/parameters.rs:661-664 | add_material_parameter maps the material's name to it and changes nothing else |
| Parameters.Parameters.AddCrossSectionParameter | src/parameters.rs:666-669 | add_cross_section_parameter maps the cross section's name to it and changes nothing else |
| Parameters.Parameters.SupplyDefaults | src/parameters.rs:485-523 | supply_defaults does what WithDefaults specifies |
| Parameters.Parameters.ScanGeometries | src/parameters.rs:537-546 | the geometry loop's list is GeometryErrorList: for each geometry in list order, UndefinedGeometry when its shape is Undefined, then MissingMaterial(name) when its material is missing; as a set, exactly the geometry errors |
| Parameters.Parameters.ScanMaterials | src/parameters.rs:547-573 | the material loop's list is MaterialErrorList for some enumeration of the material names (the map's order): for each material its missing absorption, scattering and fission cross sections in that order, as "material:cross section"; as a set, exactly the cross-section errors |
| Parameters.GeometryErrorListSet | src/parameters.rs:537-546 | the geometry error list holds exactly the geometry errors |
| Parameters.MaterialEntryErrorsSet | src/parameters.rs:548-572 | one material's error entries are exactly its missing cross sections |
| Parameters.MaterialErrorListSet | src/parameters.rs:547-573 | whatever the order of the materials, the error list holds exactly their cross-section errors |
| Parameters.ErrorSetConcat | src/parameters.rs:531-579 | the errors of two lists pushed one after the other are the union of their errors |
| Parameters.Parameters.CheckParametersIntegrity | src/parameters.rs:531-579 | check_parameters_integrity is Ok exactly when the problem passes; otherwise its list is NoGeometry (when there is no geometry), then the geometry error list, then the material error list in the map's order, and as a set it is every error found |
| Parameters.Parameters.UpdateSimulationParameters | src/parameters.rs:586-655 | update_simulation_parameters sets exactly the fields of an accepted block; otherwise it panics or returns BadSimulationBlock with only the earlier entries applied; the other tables are unchanged |

## Left out

- Floating-point physics: tracking, collisions, facet distances and cross-section tables. Real numbers stand in for `f64`, and rounding is not modelled.
- Parsing of `f64` text is a parameter `parseFloat`. `ln` and `exp` in `NuclearData::new` are parameters, and only their monotonicity is assumed in the lemma that uses it.
- The concurrent paths (rayon, atomics, the cross-section cache) and the body of `process_particles`, which tracks particles. Only its tail is modelled, by `FinishProcessing`.
- Population control: the decisions of the roulettes and of splitting are functions passed in. They come from the particles' random streams.
- `get_total_cross_section`, `NuclearDataReaction::new` and the species' cross-section tables. These are float code.
- `get_parameters`: it reads the input file (I/O). Its remaining steps are `from_cli`, `supply_defaults` and `check_parameters_integrity`, which are modelled.
- The getters that hand out the send queue or a vault (`get_send_queue`, `get_task_processing_vault`, `get_task_processed_vault`). They return references and compute nothing.
- `processing_size` and `processed_size`: they return vector lengths, which are visible directly in the model's vault lists.
- `collapse_processing`, `collapse_processed` and `swap_processing_processed_vaults`. They depend on `ParticleVault`'s collapse and swap, and src/particles/particle_vault.rs is not part of this model.
- A vault is a list of optional slots. `size` counts the filled slots, and `reserve` does not add slots.
- The capacities given to `ParticleContainer::new` and `ParticleVault::reserve` are not modelled.
- The sorts: `sort_processing` is stated as sorted and a permutation. Its stability is not stated.
- `Vec::reserve`'s growth is modelled as max(2 * capacity, len + additional). The standard library's minimum non-zero capacity is not modelled.
- Casts of counts to `u64` (as in `neighbor_size`) are not modelled, because counts never reach 2^64.
- Integer widths outside the random-number state are not modelled. The `u64` counters of `Balance` (`data: [u64; 14]`) and the `usize` index products are unbounded `nat`s: `nx * ny * nz` in the FCC grid and the grid-assignment object, `n_ranks * dom_per_rank` in the decomposition, and `c * num_groups + g` in the scalar flux. In the source an overflow there panics in a debug build and wraps in a release build. Reaching it takes more than 2^64 - 1 tallied events of one kind, or an index space past 2^64 cells, domains or fluxes, which no mesh the simulation can allocate comes near.
- Tallies.Balance.AddToSelf: the counter-by-counter `+=` is on unbounded counters, so the overflow of a `u64` counter past 2^64 - 1 is not stated.
- Mesh building (`MCDomain::new`, node maps, cell volumes), timers and summary printing.
- GridAssignment.GridAssignmentObject.constructor: the cube root is a parameter `cbrt`, and the floating-point rounding of the bounding box, of `floor` and of the divisions is not modelled. `new` indexes `centers[0]`, so it panics when there is no centre; the model requires at least one. The `max(1, ·)` of each axis is what makes every grid dimension at least 1 and every cell length positive.
- GridAssignment.GridAssignmentObject.NearestCenter: the source asserts that a centre was found and unwraps it. The model returns None there and states when that happens.
- GridAssignment.GridAssignmentObject.NearestCenter: it uses the corrected tie rule of the findings below. The as-written rule is modelled by `ScanAsWritten`.
- McDomain.MakeFacet: it returns the new facet value instead of mutating the facet in place.
- FacetCrossing.FacetCrossingEvent: `facet_crossing_event` updates the particle in place through `&mut MCParticle`. The model returns the updated particle inside a `Result`, so the in-place update, and any alias of the particle that would see it, is not captured.
- The vault operations require `vault_size > 0`. With a vault size of 0 the source's search for a vault with room never ends and `add_extra_particle` divides by zero. The only caller passes `batch_size` as the vault size (src/montecarlo.rs:103) right after `assert_ne!(batch_size, 0)` (src/montecarlo.rs:83), so the requirement holds there. That caller is not part of this model.
- A panic of `add_processing_particle` aborts the thread in the source. `Outcome.Panicked` stands in for that abort, and the state it reports is the state at the panic.
- RngState.RngSample: `rng_sample` is generic over its float type. For `f32` the `f64` sample is rounded once more by `from_f64`, which is not modelled.
- NuclearData.NuclearData.AddIsotope: `reserve` on the reaction list is not modelled.

## Findings

| source | as written | input that shows it | evidently intended | confidence | as-written member | corrected member |
|---|---|---|---|---|---|---|
| fastiron/src/geometry/grid_assignment_object.rs:127-129 | on a tie with the best distance so far, `center_min.map(\|m\| m.min(*center_idx))` computes the smaller index and discards it, so the centre met first stays | centres 1 then 0, both at squared distance 4.0: the result is 1 | the smallest index among equally near centres (the `std::min` of the C++ original), independent of the scan order | not executed | GridAssignment.AsWrittenTieCounterexample | GridAssignment.ScanIsLeastNearest |
| src/send_queue.rs:25-29 | `reserve(size)` asks `Vec::reserve` for `size - capacity` more elements than the current length | an empty queue of capacity 4 reserving 6: the capacity stays 4 | a capacity of at least `size`, by asking for `size - len` | not executed | SendQueue.ReserveAsWrittenCounterexample | SendQueue.SendQueue.Reserve |
