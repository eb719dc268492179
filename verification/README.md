# ModelNet: partitioner, hop emulator, pipe hand-over and routes

ModelNet emulates a wide-area network on a few core machines. This project models the algorithms it
depends on and proves what they promise. There are two groups.

**Assigning the network to cores.** The tools carry a multilevel graph partitioner (METIS) in C, a
greedy assigner of their own (kcluster) and a small graph library that produces routes. METIS matches
and contracts a graph, partitions the coarsest one, projects the partition back and refines it by
single moves. While it does so it keeps redundant state - internal and external degrees, degree lists
per part, part weights, boundary lists, gain queues, the cut - and never recomputes it. The proofs say
that all of it agrees with a plain recomputation after every step.

**Emulating the network.** Inside the kernel a packet crosses each link of its route through a
bandwidth queue (a ring of exit ticks) and a circular calendar of one slot per clock tick. A second
protocol moves the ownership of links (pipes) from core to core, in three stages, while packets flow.

## How the model is built

A module stands for a source file or for one of its ideas. Arrays that the source overwrites are
arrays here, loops are loops, objects updated in place are classes. Each method is tied by its
`ensures` to functions of mathematical sequences, sets and maps, and the properties are lemmas about
those.

| modules | model |
|---|---|
| `Finite`, `Csrs`, `Digraphs` | sets and permutations; compressed adjacency rows; directed graphs with edge indices |
| `Weighted`, `Boundary` | degrees, cut and part weights by definition, and how one move changes them; the boundary list |
| `Bisection`, `Greedy`, `Fm`, `Balance`, `General` | two-way refinement and forced balancing; `Greedy` says which vertices they move and when they stop |
| `Kway`, `KwayState`, `KwayGreedy`, `KwayFm`, `KwayRefine`, `Overlooked`, `BndChecks` | k-way refinement, its choices, its degree lists in a shared pool, their computation and projection, a pass that overlooks a gain, and the check of its boundary list |
| `Volume`, `VolumeGains` | communication volume and the gains stored for it |
| `Match`, `BucketSort`, `CoarseRows`, `CoarseGraph`, `Contraction`, `Coarsen`, `Collisions` | matching, contraction with a direct or a hashed table, the chain of coarser graphs, and where the hashed table leaves its lists |
| `MinCover`, `Compress`, `MeshDual` and `Dual` | minimum vertex cover; merging indistinguishable vertices; the dual graph of a mesh |
| `Hops`, `Links`, `Calendars`, `Runs`, `Emulator` | transmission times, one link and its ring, the calendar, the runs of a core, the core |
| `Reassign` | the staged hand-over of pipes |
| `Blobs`, `Chases`, `ShortestPaths`, `Routes` | kcluster and a run of it that does not end; shortest paths, breadth-first search and routes |

Graph modules require what METIS requires of its callers: symmetric rows, no self loops, positive edge
weights, non-negative vertex weights (`WellFormed`), and for k-way work and volumes no duplicate
neighbours (`Simple`). Random choices (`RandomPermute`, `random`) are methods of which only the range
of results is known, so every theorem holds for every choice.

## What came out

- `MinCover.MinCover` returns a minimum cover, with a matching of the same size as evidence. Its phases
  are weaker than they look: once a free column has been found no deeper row is scanned, all columns
  recorded in a phase hang on one row, and the phase grows the matching by exactly one
  (`MinCover.AugmentAll`).
- The masked table of `CreateCoarseGraph` gives the same coarse graph as the direct one, entry for entry
  (`CoarseGraph.TablesAgree`), as long as it stays inside its lists. When a pair is not joined by an edge and
  a neighbour's class shares its table slot, line 162 of tools/assignment/metis/ccgraph.c looks at the cell
  behind the list; should that happen to hold the pair's own number, a live entry is lost
  (`CoarseGraph.RemoveOwnMasked`). That is the exact condition (`Collisions.LeavesExactly`). It never arises
  after random or heavy-edge matching (`CoarseGraph.JoinedStaysInside`), and it does arise after sorted
  heavy-edge matching, which pairs islands (`Collisions.LeavesOnce`).
- A pass of `Random_KWayEdgeRefine` that leaves the cut unchanged met no vertex that could have gained
  (`KwayGreedy.QuietSweep`); if no vertex moved in it, none on the boundary could (`KwayGreedy.StillSweep`).
  Otherwise some may: moves renumber the boundary list while it is being visited, so a vertex can be visited
  twice, there and back, and another never (`Overlooked.GainOverlooked`).
- A packet leaves its calendar slot at the very tick it was queued for if and only if that tick was less than
  one turn of the calendar ahead (`Runs.OnTimeExactly`, with `Runs.LeavesATurnEarly`). It is, if a full queue of
  slowest packets plus the delay fit into one turn (`WithinHorizon`); the source does not check it.
- A change that names the same core twice ends with a pipe that nobody emulates
  (`Reassign.SelfChangeLosesPipe`). The hand-over keeps an owner if and only if it moves the pipe
  (`Reassign.OwnedIffMoved`).
- `shortest_paths` also relaxes the edges out of vertices it cannot reach, with distance 0. Its result is
  right if and only if every such edge leads to a vertex with a path no heavier than that edge
  (`ShortestPaths.ShortestPaths`, counterexample `ShortestPaths.HarmExists`); in particular when every vertex
  can be reached. The walk that turns its result into a route can then go round for ever
  (`Routes.RoundAndRound`); where links go both ways it ends if and only if the destination can be reached or
  has no links (`Routes.EndsExactly`).
- The early exit of kcluster's loop needs every edge to be counted as assigned, but the seeds are not
  counted: it never happens (`Blobs.SeedsUncounted`). With positive weights the loop ends all the same
  (`Blobs.Assign`); with edges of weight 0 it may not (`Chases.GoesOnForEver`).
- Vertices without edges are on the boundary list after `ComputeKWayPartitionParams` and not on it after
  `ProjectKWayPartition`. The source's own assertion about that list, `CheckBnd2`, counts vertices with edges
  only, so it fails after the former if and only if there are vertices without edges
  (`BndChecks.AfterComputing`).

## Model

| member | source | states |
|---|---|---|
| `MinCover.MinCover` | tools/assignment/metis/mincover.c:42-120 | the listed vertices touch every edge, each listed once; no other cover is smaller; a matching of the same size exists; the main loop ends |
| `MinCover.CoverAtLeastMatching` | tools/assignment/metis/mincover.c:38-41 | any cover has at least as many vertices as any matching has edges |
| `MinCover.Phase` | tools/assignment/metis/mincover.c:67-114 | a phase either grows the matching by exactly one or leaves it alone and yields a set that no alternating path leaves, separating free rows from free columns |
| `MinCover.AugmentAll` | tools/assignment/metis/mincover.c:111-113 | of all columns recorded in a phase the first is matched and no other: matched columns grow by that one |
| `MinCover.Augment` | tools/assignment/metis/mincover.c:126-154 | restricted depth-first search: success re-matches along a path and adds exactly the starting column; failure changes no partner and happens only when no candidate row is left |
| `MinCover.AugmentThrough` | tools/assignment/metis/mincover.c:136-149 | below a candidate row the search always succeeds |
| `MinCover.OnThePath` | tools/assignment/metis/mincover.c:144-148 | re-matching one column on the way back leaves a matching that has gained the starting column |
| `MinCover.FirstWins` | tools/assignment/metis/mincover.c:111-113 | the first recorded column is matched, and its row is used up |
| `MinCover.OthersLose` | tools/assignment/metis/mincover.c:111-113 | afterwards every other recorded column is still free and has no candidate |
| `MinCover.Bfs` | tools/assignment/metis/mincover.c:84-106 | search state at the end of the queue: levels form an alternating forest from the free rows, every scanned row's columns are flagged, all free columns found share one row |
| `MinCover.ScanRow` | tools/assignment/metis/mincover.c:88-105 | scanning one row keeps that state |
| `MinCover.ScanColumn` | tools/assignment/metis/mincover.c:90-103 | so does each column met: recorded when free, its row enqueued when matched |
| `MinCover.ExhaustedSeparates` | tools/assignment/metis/mincover.c:108-109 | a search that found no free column has reached a closed set with all free rows and no free column |
| `MinCover.HitsAreCandidates` | tools/assignment/metis/mincover.c:93-96 | otherwise every recorded column has the one hit row, on the last level, as its only candidate |
| `MinCover.CheapMatching` | tools/assignment/metis/mincover.c:55-64 | the greedy start is a matching |
| `MinCover.Decompose` | tools/assignment/metis/mincover.c:163-205 | whichever alternative is taken, the result is a cover with as many vertices as the matching has edges |
| `MinCover.ColDFS` | tools/assignment/metis/mincover.c:212-231 | marks the root and everything reached on alternating paths from it, nothing outside a closed set around it |
| `MinCover.RowDFS` | tools/assignment/metis/mincover.c:237-256 | the same from free columns |
| `MinCover.SearchesDecompose` | tools/assignment/metis/mincover.c:178-183 | the two searches never meet, so each vertex keeps one of the six classes and edges join only compatible classes |
| `MinCover.BothAreCovers` | tools/assignment/metis/mincover.c:189-200 | both alternatives touch every edge and have the size of the matching |
| `MinCover.CoverSize` | tools/assignment/metis/mincover.c:189-200 | a set with exactly one end of every matching edge and nothing else has the size of the matching |
| `Weighted.EdAfterMove` | tools/assignment/metis/fm.c:111-120 | what moving one vertex does to the recomputed external degree of every vertex |
| `Weighted.CutAfterMove` | tools/assignment/metis/debug.c:20-40 | the recomputed cut falls by degree into the new side minus internal degree |
| `Weighted.EdSumAfterMove` | tools/assignment/metis/debug.c:31-39 | over any prefix of the vertices the mover's row mirrors the changes of its neighbours |
| `Weighted.WeightAfterMove` | tools/assignment/metis/fm.c:87 | part weights shift by the weight of the moved vertex |
| `Boundary.InsertValid` | tools/assignment/metis/macros.h:102-107 | the list and its index stay inverse to each other, and exactly the inserted vertex is new |
| `Boundary.DeleteValid` | tools/assignment/metis/macros.h:109-115 | the same for removal with the last entry moved into the gap, also when it is the last one |
| `Boundary.Enumerates` | tools/assignment/metis/debug.c:46-75 | the list holds every member once and nothing else |
| `Bisection.MoveStarts` | tools/assignment/metis/fm.c:111-113 | swapping the mover's degrees and refiling it starts the update of its neighbours |
| `Bisection.MidStep` | tools/assignment/metis/fm.c:115-141 | one entry of the mover's row: each vertex has been credited with exactly the entries read so far, its boundary membership follows |
| `Bisection.MidBounds` | tools/assignment/metis/fm.c:119-120 | halfway through a move no degree is negative or exceeds the row sum |
| `Bisection.MoveEnds` | tools/assignment/metis/fm.c:115-143 | after the whole row every degree and membership equals its recomputation |
| `Bisection.RequeueOk` | tools/assignment/metis/fm.c:122-140 | the gain queue holds exactly the waiting vertices, each with its current gain, after each neighbour |
| `Fm.Arrays.BNDInsert` | tools/assignment/metis/macros.h:102-107 | the arrays show the list with the vertex inserted |
| `Fm.Arrays.BNDDelete` | tools/assignment/metis/macros.h:109-115 | the arrays show the list with the vertex deleted |
| `Fm.UpdateNeighbour` | tools/assignment/metis/fm.c:115-141 | degrees, boundary list and queues after one neighbour, with every queue operation naming the gain on record |
| `Fm.MoveVertex` | tools/assignment/metis/fm.c:101-143 | after a move id, ed and boundary are exact, and the queues hold exactly the unmoved boundary vertices with exact gains |
| `Fm.MoveBooks` | tools/assignment/metis/fm.c:86-87 | what is booked for a move before it is made is what it does to recomputed cut and weights |
| `Fm.UndoMove` | tools/assignment/metis/fm.c:151-173 | undoing a move keeps everything exact, weights included |
| `Fm.FillQueues` | tools/assignment/metis/fm.c:68-76 | in any order of insertion the queues end up with exactly the eligible boundary vertices |
| `Fm.QueueBest` | tools/assignment/metis/fm.c:82-84 | the queues tell what the graph tells: a greatest entry is a best unmoved boundary vertex of its side, an empty queue means that there is none |
| `Fm.Next` | tools/assignment/metis/fm.c:79-83 | the side further above its target is asked; its best vertex is extracted, or it has none |
| `Fm.Track` | tools/assignment/metis/fm.c:89-99 | with the best move booked: it makes a new best state, or is tolerated, or the climb has reason to stop; it stops exactly when the limit is passed without improvement |
| `Greedy.RecordedNext` | tools/assignment/metis/fm.c:89-94 | how one more move is recorded: as the best state, with its cut and distance, or not at all |
| `Greedy.ClimbGrows` | tools/assignment/metis/fm.c:78-106 | one more best move, recorded or within the limit, continues a climb |
| `Fm.BestPrefixStep` | tools/assignment/metis/fm.c:89-94 | the recorded prefix of moves is not beaten by any other prefix: none within the allowance cuts less, none with the same cut is better balanced |
| `Fm.Commit` | tools/assignment/metis/fm.c:101-141 | carries out the booked move and records it in `moved` and `swaps` |
| `Fm.Climb` | tools/assignment/metis/fm.c:78-143 | every vertex moved was, when moved, a boundary vertex of the side further above its target, not moved before, and none of those had a greater gain; it stops only when all were moved, none is left, or the next one makes no best state beyond the limit; undoing the later swaps leads back to the best prefix |
| `Fm.RollBack` | tools/assignment/metis/fm.c:146-173 | undoes exactly the swaps after the best one; cut, weights and sides are those recorded |
| `Fm.Pass` | tools/assignment/metis/fm.c:57-183 | a pass is such a climb cut back to its best prefix; exact, with cut and balance lexicographically no worse; it is the last one exactly if nothing was kept or the cut is unchanged |
| `Fm.FM_2WayEdgeRefine` | tools/assignment/metis/fm.c:20-190 | its passes, each from where the one before ended: `npasses` of them, or the last one kept or gained nothing and none before did so; cut smaller, or equal with no worse balance; distance from the target at most the first one plus the average weight allowance |
| `Greedy.LegsGrow` | tools/assignment/metis/fm.c:57-190 | a pass is added to a run only behind one that kept and gained something |
| `Greedy.DrainGrows` | tools/assignment/metis/balance.c:85-97 | one more best vertex of the heavy side, within the light side's target, continues the balancing |
| `Balance.Drain` | tools/assignment/metis/balance.c:85-152 | each vertex moved was, when moved, an unmoved boundary vertex of the heavy side, light enough and of greatest gain, and left the light side within its target; it stops only when all were moved, none is left, or a greatest one no longer fits; all arrays and the queue stay exact |
| `Balance.Bnd2WayBalance` | tools/assignment/metis/balance.c:48-163 | balancing from the heavy side by that rule, for vertices no heavier than the first distance; exact at the end; with targets that add up to the total weight the distance from them has not grown |
| `General.UpdateNeighbour` | tools/assignment/metis/balance.c:249-266 | the same update with a queue that also holds interior vertices |
| `General.MoveVertex` | tools/assignment/metis/balance.c:233-267 | exact after the move; the queue holds exactly the waiting light vertices of the heavy side with their gains |
| `General.FillQueue` | tools/assignment/metis/balance.c:214-220 | whatever the permutation, all of them are inserted |
| `General.Drain` | tools/assignment/metis/balance.c:222-267 | the same with all vertices of the heavy side for those on the boundary |
| `General.General2WayBalance` | tools/assignment/metis/balance.c:174-278 | balancing from the heavy side by that rule, for vertices no heavier than the first distance; exact at the end; with targets that add up to the total weight the distance from them has not grown |
| `CoarseRows.AddTotal` | tools/assignment/metis/ccgraph.c:259-269 | adding an entry to a coarse list changes its weight into any set by that entry |
| `CoarseRows.CoarseRowTotal` | tools/assignment/metis/ccgraph.c:257-304 | the finished list weighs into any set of coarse vertices what the pair's rows weigh into their members |
| `CoarseRows.CoarseRowNoLoop` | tools/assignment/metis/ccgraph.c:296-303 | it does not lead back to its own vertex, also when nothing was removed because the vertex stayed alone |
| `CoarseGraph.HashAppend` | tools/assignment/metis/ccgraph.c:93-113 | appending an entry keeps the table in order, whether its slot was free or taken by a colliding one: an empty slot means that nothing in the list hashes to it |
| `CoarseGraph.AddDirect` | tools/assignment/metis/ccgraph.c:260-268 | the entry is added to the list, found through its own slot |
| `CoarseGraph.AddMasked` | tools/assignment/metis/ccgraph.c:92-113 | the same list although slots are shared |
| `CoarseGraph.OverreadsExactly` | tools/assignment/metis/ccgraph.c:155-161 | the search for the vertex's own entry runs past the list exactly when there is no such entry and some other entry shares its slot |
| `CoarseGraph.SearchOwn` | tools/assignment/metis/ccgraph.c:155-161 | the search as it stands: no entry, its position, or, exactly in that case, the cell behind the list |
| `CoarseGraph.RemoveOwnMasked` | tools/assignment/metis/ccgraph.c:154-166 | the lines as they stand, for every content of the memory behind the list: inside the list and exact if and only if the search is; otherwise nothing happens or, if the cell behind holds the vertex's number, the last entry is lost |
| `CoarseGraph.RemoveOwnInside` | tools/assignment/metis/ccgraph.c:154-166 | up to leaving the list, and with a guard in front of line 162 always, the entry for the vertex itself is removed if there is one and its weight reported |
| `CoarseGraph.PairOverreadsExactly` | tools/assignment/metis/ccgraph.c:89-161 | told from the fine graph: the pair is not joined and a neighbour's class shares the slot of its own |
| `CoarseGraph.RemoveOwnDirect` | tools/assignment/metis/ccgraph.c:296-303 | the same with the direct table |
| `CoarseGraph.CleanTable` | tools/assignment/metis/ccgraph.c:171-173 | afterwards every slot is empty |
| `CoarseGraph.BuildRow` | tools/assignment/metis/ccgraph.c:86-173 | stays inside its list exactly when the pair is not of that kind, and then either table yields the specified list and is all empty again |
| `CoarseGraph.ContractPair` | tools/assignment/metis/ccgraph.c:71-179 | the new list joins the earlier ones within the room available; weight and adjacency sum are those of the pair |
| `CoarseGraph.Room` | tools/assignment/metis/ccgraph.c:311-314 | all lists together need no more cells than the fine graph has entries |
| `CoarseGraph.CreateCoarseGraph` | tools/assignment/metis/ccgraph.c:22-189 | as it stands stays inside its lists if and only if no pair is of that kind, with the direct table or a guard always; then the result is the contraction by the given matching: symmetric, loop-free, no duplicates, `adjwgtsum` the row sums, classes in order of first appearance |
| `CoarseGraph.JoinedStaysInside` | tools/assignment/metis/ccgraph.c:162 | it stays inside whenever every pair is joined by an edge |
| `Collisions.LeavesExactly` | tools/assignment/metis/ccgraph.c:154-166 | read off the matching: it stays inside if and only if no pair without an edge has a neighbour in another class with the same low bits |
| `Collisions.LeavesOnce` | tools/assignment/metis/ccgraph.c:154-166 | a graph of 32769 vertices with one island and a matching with everything that Match_SHEM guarantees, for which the shared table is chosen and the list is left |
| `CoarseGraph.TablesAgree` | tools/assignment/metis/ccgraph.c:195-324 | graphs built from the same matching and order are equal, order of entries included, whichever table was used; for pairs joined by edges, as Match_RM and Match_HEM make them, that is the code as it stands |
| `Contraction.CoarseDeg` | tools/assignment/metis/ccgraph.c:257-304 | weight between coarse vertices is the fine weight between their members |
| `Contraction.CoarseSymmetric` | tools/assignment/metis/ccgraph.c:195-324 | the coarse graph is symmetric |
| `Contraction.CoarseWellFormed` | tools/assignment/metis/ccgraph.c:195-324 | it is well formed again and no row names a neighbour twice |
| `Contraction.CoarseEd` | tools/assignment/metis/ccgraph.c:195-324 | the external degree of a coarse vertex is that of its members together, for every partition |
| `Contraction.ContractionPreserves` | tools/assignment/metis/ccgraph.c:195-324 | for every coarse partition cut and all part weights equal those of the induced fine partition |
| `Match.PairStep` | tools/assignment/metis/match.c:57-59 | pairing an unmatched vertex with an unmatched one, possibly itself, opens the next class and keeps the matching an involution |
| `Match.PartialDone` | tools/assignment/metis/match.c:43-61 | when all are visited `cmap` agrees exactly on partners, and classes are numbered by first appearance |
| `Match.ScanRandom` | tools/assignment/metis/match.c:47-55 | the first free neighbour that fits, or the vertex itself when none does |
| `Match.ScanHeavy` | tools/assignment/metis/match.c:152-162 | the free fitting neighbour behind a heaviest edge, the first of those |
| `Match.ChoiceMade` | tools/assignment/metis/match.c:155-166 | a choice made when visited stays explained by the finished matching |
| `Match.MaximalMatching` | tools/assignment/metis/match.c:43-61 | no two adjacent vertices left alone would fit together |
| `Match.PairFits` | tools/assignment/metis/match.c:51 | every pair joined along an edge respects `maxvwgt` |
| `Match.MatchFrom` | tools/assignment/metis/match.c:236-255 | matching the rest of a permutation finishes what was begun and never undoes a pair |
| `Match.FinishedMatching` | tools/assignment/metis/match.c:22-266 | every matcher leaves a valid, numbered, maximal matching within the weight bound |
| `Match.Match_RM` | tools/assignment/metis/match.c:22-69 | so random matching does, and every pair is joined by an edge |
| `Match.Match_HEM` | tools/assignment/metis/match.c:127-176 | so heavy-edge matching does, choosing heaviest edges, and every pair is joined by an edge |
| `Match.MatchIslands` | tools/assignment/metis/match.c:212-233 | islands in front of the order are given the last free vertices with neighbours |
| `Match.IslandsComeFirst` | tools/assignment/metis/match.c:212-233 | an island stays alone only if every vertex with neighbours went to some island |
| `Match.Match_SHEM` | tools/assignment/metis/match.c:183-266 | valid, numbered, maximal, within the bound; the order is the random one sorted stably by capped degree; where the cap is at least 1, islands are served first |
| `BucketSort.MakeCsr` | tools/assignment/metis/macros.h:91-96 | turns counts into bucket starts in place |
| `BucketSort.PlaceStep` | tools/assignment/metis/bucketsort.c:36-39 | each entry goes behind the earlier ones of its bucket |
| `BucketSort.SortedPermutation` | tools/assignment/metis/bucketsort.c:25-42 | buckets in order make a permutation sorted by key |
| `BucketSort.BucketSortKeysInc` | tools/assignment/metis/bucketsort.c:25-42 | the result is sorted, a permutation, and stable: each bucket keeps the order of the input |
| `Coarsen.LinkPreserves` | tools/assignment/metis/coarsen.c:37-73 | one link of the chain preserves cut and part weights for every partition |
| `Coarsen.ChainPreserves` | tools/assignment/metis/coarsen.c:37-73 | so does the whole chain, for every partition of the coarsest graph |
| `Coarsen.MatchLevel` | tools/assignment/metis/coarsen.c:42-65 | random matching on the first level unless the type is for k-way, then by type: every choice is of that kind, the sorted matching visits by increasing capped degree; a matching fit for contraction, random and heavy-edge ones with joined pairs only |
| `Coarsen.LevelsGrow` | tools/assignment/metis/coarsen.c:67-73 | contracting the last graph by its level's matching adds a level to the chain |
| `Coarsen.Coarsen2Way` | tools/assignment/metis/coarsen.c:19-82 | a chain of contractions, each by the matching of its level, that goes on exactly while the graph is large, shrank by more than a tenth and has edges left; fails exactly on an unknown type; ends; contraction keeps inside its lists for random and heavy-edge matching, for all matchings if guarded, and on graphs that are small or dense |
| `Kway.NeighbourOk` | tools/assignment/metis/kwayfm.c:149-184 | updating a neighbour's id, ed and list with one edge weight makes its record exact for the new partition |
| `Kway.StrangerOk` | tools/assignment/metis/kwayfm.c:140-144 | all other records are still exact untouched |
| `Kway.MoverOk` | tools/assignment/metis/kwayfm.c:122-130 | swapping id with the list entry makes the mover's own record exact |
| `Kway.ListFits` | tools/assignment/metis/kwayfm.c:186 | a list never needs more entries than the vertex has neighbours |
| `KwayState.MidStart` | tools/assignment/metis/kwayfm.c:119-133 | the state after the mover's own record |
| `KwayState.MidStep` | tools/assignment/metis/kwayfm.c:135-187 | one neighbour: its record and boundary membership become exact, its new list fits its slice |
| `KwayState.MidEnd` | tools/assignment/metis/kwayfm.c:135-188 | after the whole row every record, list and membership is exact |
| `KwayState.GainOk` | tools/assignment/metis/kwayfm.c:115 | the cut falls by the entry's degree minus the internal one, and the target part is another part that some neighbour lies in |
| `KwayState.AllocateOk` | tools/assignment/metis/kwayfm.c:140-143 | a new slice overlaps no other and stays within the pool |
| `KwayState.AllocatedRoom` | tools/assignment/metis/kwayfm.c:140-143 | slices handed out once per vertex never exceed the number of edges |
| `KwayState.SliceChange` | tools/assignment/metis/kwayfm.c:161-184 | writing inside one's own slice leaves all other lists alone |
| `KwayFm.Arrays.Allocate` | tools/assignment/metis/kwayfm.c:140-143 | a vertex gets a slice once, of the length of its row |
| `KwayFm.Arrays.TakeFrom` | tools/assignment/metis/kwayfm.c:161-172 | weight is taken off the list, the entry dropped when it is used up |
| `KwayFm.Arrays.GiveTo` | tools/assignment/metis/kwayfm.c:174-184 | weight is added to the list, a new entry appended when there is none |
| `KwayFm.Arrays.ShiftNeighbour` | tools/assignment/metis/kwayfm.c:149-160 | id, ed and boundary of a neighbour |
| `KwayFm.Arrays.UpdateNeighbour` | tools/assignment/metis/kwayfm.c:135-187 | the arrays show the state after one more neighbour |
| `KwayFm.Arrays.MoveSelfRecord` | tools/assignment/metis/kwayfm.c:119-133 | the arrays show the mover's new record |
| `KwayFm.MoveBooks` | tools/assignment/metis/kwayfm.c:115-121 | booked weights and cut are the recomputed ones of the new partition |
| `KwayFm.Arrays.MoveVertex` | tools/assignment/metis/kwayfm.c:112-189 | after a move records, lists, boundary, weights and cut are all exact; the new state is the specified one, entry for entry |
| `KwayFm.Arrays.Choose` | tools/assignment/metis/kwayfm.c:73-113 | a vertex goes if its part can spare it, to a near part such that no part with room offers more gain, nor as much while being relatively lighter, and with gain or for balance or one in eight; it stays only for lack of one of these |
| `KwayFm.Arrays.FirstCandidate` | tools/assignment/metis/kwayfm.c:84-93 | the first part that the move may be made to, gain taken into account; or no part allows it |
| `KwayFm.Arrays.BestCandidate` | tools/assignment/metis/kwayfm.c:95-102 | scanning on from there ends at a best target |
| `KwayGreedy.BestOfNext` | tools/assignment/metis/kwayfm.c:95-102 | one more entry of the list: a better one replaces the best, any other leaves it the best |
| `KwayGreedy.NotLighter` | tools/assignment/metis/kwayfm.c:99-100 | being lighter relative to the share is an order |
| `KwayGreedy.StayReason` | tools/assignment/metis/kwayfm.c:79-113 | whoever stays is held back or sees no part with room that would lower the cut |
| `KwayFm.Arrays.VisitPosition` | tools/assignment/metis/kwayfm.c:68-194 | a visit carries out what was chosen: the vertex stays, with reason and nothing changed, or moves, with reason |
| `KwayFm.Arrays.Pass` | tools/assignment/metis/kwayfm.c:60-201 | a pass is one such visit for each position the boundary list had, in random order; it keeps everything exact and does not raise the cut |
| `KwayGreedy.SweepCut` | tools/assignment/metis/kwayfm.c:67-195 | no visit raises the cut |
| `KwayGreedy.QuietSweep` | tools/assignment/metis/kwayfm.c:60-204 | a pass that leaves the cut unchanged met no vertex that could leave its part and lower the cut by going to one with room |
| `KwayGreedy.StillSweep` | tools/assignment/metis/kwayfm.c:60-204 | a pass in which no vertex moves shows the same of the whole boundary list |
| `Overlooked.GainOverlooked` | tools/assignment/metis/kwayfm.c:57-70 | a pass that ends with the parts it began with, though a vertex on the list all along could move with gain 3: it was not visited, another was twice |
| `KwayFm.Arrays.Random_KWayEdgeRefine` | tools/assignment/metis/kwayfm.c:19-212 | its passes: `npasses` of them, or the last one left the cut unchanged and none before did; the cut never rises |
| `KwayRefine.ListStep` | tools/assignment/metis/kwayrefine.c:191-205 | one entry of a row read into the list |
| `KwayRefine.ListDone` | tools/assignment/metis/kwayrefine.c:174-208 | a row read to the end gives an exact record |
| `KwayRefine.FillVertex` | tools/assignment/metis/kwayrefine.c:166-208 | one vertex's record and boundary membership, computed exactly; it has a slice exactly if it has external degree |
| `KwayRefine.ComputeKWayPartitionParams` | tools/assignment/metis/kwayrefine.c:141-214 | every record, list, weight and the cut equal their definitions; on the boundary exactly where ed >= id |
| `KwayRefine.HashedGive` | tools/assignment/metis/kwayrefine.c:278-290 | looking the part up in the table does what scanning the list would |
| `KwayRefine.CleanTable` | tools/assignment/metis/kwayrefine.c:304-305 | the table is empty again |
| `KwayRefine.ProjectList` | tools/assignment/metis/kwayrefine.c:276-290 | a row read through the table gives the exact list |
| `KwayRefine.ProjectVertex` | tools/assignment/metis/kwayrefine.c:269-307 | exact record of an interface vertex; the slice is handed back exactly when it turns out interior |
| `KwayRefine.InteriorStays` | tools/assignment/metis/kwayrefine.c:269 | no external degree of the coarse vertex means none of the fine one |
| `KwayRefine.SkipOk` | tools/assignment/metis/kwayrefine.c:254-269 | so skipping loses nothing |
| `KwayRefine.ProjectedBooks` | tools/assignment/metis/kwayrefine.c:310-311 | the copied cut and part weights are those of the fine partition |
| `KwayRefine.ProjectKWayPartition` | tools/assignment/metis/kwayrefine.c:222-321 | the fine partition is the induced one and every record, list, weight, the cut and the boundary are exact, shortcuts and all |
| `BndChecks.PassesExactly` | tools/assignment/metis/debug.c:82-112 | an exact state passes the check if and only if no vertex without edges is on its list |
| `BndChecks.AfterComputing` | tools/assignment/metis/debug.c:82-112 | after ComputeKWayPartitionParams it passes if and only if there are no such vertices |
| `BndChecks.AfterProjecting` | tools/assignment/metis/debug.c:82-112 | after ProjectKWayPartition it always passes |
| `Volume.NeighbourDelta` | tools/assignment/metis/kwayvolrefine.c:254-278 | what moving a vertex does to the number of parts a neighbour sends to, case by case as the code distinguishes them |
| `Volume.MoverDelta` | tools/assignment/metis/kwayvolrefine.c:292-293 | the mover itself sends to one part less exactly when it leaves no neighbour behind |
| `Volume.StrangerDelta` | tools/assignment/metis/kwayvolrefine.c:244-283 | nobody else's set of parts changes |
| `Volume.VolumeAfterMove` | tools/assignment/metis/kwayvolfm.c:1180-1210 | the change of the total volume is the sum over the mover's row plus its own share |
| `VolumeGains.ComputeVolume` | tools/assignment/metis/kwayvolfm.c:1180-1210 | marking parts vertex by vertex computes the volume |
| `VolumeGains.Mark` | tools/assignment/metis/kwayvolrefine.c:250-252 | the table answers for each part where the neighbour's list has it |
| `VolumeGains.Unmark` | tools/assignment/metis/kwayvolrefine.c:280-282 | and is empty again |
| `VolumeGains.Credit` | tools/assignment/metis/kwayvolrefine.c:254-278 | one neighbour credits or debits every listed part by what it would really change |
| `VolumeGains.GainsExact` | tools/assignment/metis/kwayvolrefine.c:244-293 | gain plus the mover's own share is volume before minus volume after the move |
| `VolumeGains.GainRecord` | tools/assignment/metis/kwayvolrefine.c:234-293 | this for every adjacent part of one vertex; its best gain is the largest of its list, with its own share when it has no internal edge |
| `VolumeGains.ComputeKWayVolGains` | tools/assignment/metis/kwayvolrefine.c:209-301 | this for every vertex; `minvol` is the volume; on the boundary list, once each, are exactly the vertices with a gain of at least 0 or ed >= id |
| `VolumeGains.ComputeVolKWayPartitionParams` | tools/assignment/metis/kwayvolrefine.c:129-202 | the records it starts from (id, ed, number of internal neighbours, lists), part weights and cut are exact too |
| `Compress.KeySuffices` | tools/assignment/metis/compress.c:56-65 | equal index sum, equal degree and one-sided inclusion force equal closed neighbourhoods |
| `Compress.JoinClass` | tools/assignment/metis/compress.c:65-68 | a vertex that passes joins the open class, everything else stays |
| `Compress.FillClass` | tools/assignment/metis/compress.c:44-73 | one class is completed and closed, its first vertex mapped |
| `Compress.FindClasses` | tools/assignment/metis/compress.c:42-74 | every vertex lies in exactly one class of vertices with the same closed neighbourhood |
| `Compress.MergedAreIdentical` | tools/assignment/metis/compress.c:42-74 | vertices share a class only if their closed neighbourhoods are equal |
| `Compress.AdjacencyPreserved` | tools/assignment/metis/compress.c:122-135 | vertices of different classes are adjacent exactly when their classes are |
| `Compress.RowRoom` | tools/assignment/metis/compress.c:104-108 | a compressed row never needs more room than its first member's row |
| `Compress.ScanMember` | tools/assignment/metis/compress.c:127-132 | stamps keep a row free of duplicates and of its own class while it covers the member's neighbours |
| `Compress.CompressRow` | tools/assignment/metis/compress.c:123-134 | a row lists exactly the adjacent classes, each once |
| `Compress.CompressRows` | tools/assignment/metis/compress.c:120-135 | so do all rows, and weights are class sizes |
| `Compress.SizesAddUp` | tools/assignment/metis/compress.c:123 | class sizes sum to the number of vertices |
| `Compress.CompressGraph` | tools/assignment/metis/compress.c:21-149 | merged exactly when the classes are fewer than the fraction of the vertices: adjacency and total size preserved, else the graph as it was with unit weights; either way `adjwgtsum` counts neighbours and `label` is the identity |
| `MeshDual.SharedIsCommon` | tools/assignment/metis/mesh.c:108-136 | counting node by node gives the number of common nodes |
| `MeshDual.SortedGivesLists` | tools/assignment/metis/mesh.c:89-102 | a stable sort of the element list by node gives, for every node, its elements in increasing order |
| `MeshDual.BuildNodeLists` | tools/assignment/metis/mesh.c:89-102 | the lists built in place are those |
| `Dual.Table.Count` | tools/assignment/metis/mesh.c:114-134 | one more common node is counted for a candidate, found by hash or by search |
| `Dual.Table.Clear` | tools/assignment/metis/mesh.c:143 | the hash table is empty again |
| `Dual.CountStep` | tools/assignment/metis/mesh.c:110-135 | counters hold exactly the nodes met so far, and 200 of them are enough |
| `Dual.CountNext` | tools/assignment/metis/mesh.c:110-112 | stopping at the element itself misses no later element |
| `Dual.CountElement` | tools/assignment/metis/mesh.c:108-136 | for every later element the number of shared nodes, no candidate missing |
| `Dual.EmitEdges` | tools/assignment/metis/mesh.c:137-144 | both rows of every pair with the right number are extended once, within their room |
| `Dual.ElementFinished` | tools/assignment/metis/mesh.c:107-145 | after an element all its pairs with later elements are recorded |
| `Dual.Consolidate` | tools/assignment/metis/mesh.c:147-155 | sliding the rows together in place loses and overwrites nothing |
| `Dual.PackedRows` | tools/assignment/metis/mesh.c:147-155 | each packed row is a duplicate-free list of exactly the adjacent elements |
| `Dual.BuildDual` | tools/assignment/metis/mesh.c:89-155 | two elements are neighbours exactly when they share `mgcnum` nodes, for any element size |
| `Dual.GENDUALMETIS` | tools/assignment/metis/mesh.c:74-161 | the same for the four element types with their sizes and numbers |
| `Dual.DualSymmetric` | tools/assignment/metis/mesh.c:140-141 | the rows mirror each other |
| `Hops.TransmitBounds` | emulator/freebsd6.4/module/ip_modelnet.c:180-211 | the ticks charged are at least 0 and at most those of the slowest packet; the left-over stays below one tick's bytes |
| `Hops.TransmitCharges` | emulator/freebsd6.4/module/ip_modelnet.c:180-205 | the specified cost is what `Links.Hop.Charge` is said to charge |
| `Hops.SlowTicks` | emulator/freebsd6.4/module/ip_modelnet.c:201 | the ticks of a slow link are those in which len bytes fit at KBps, rounded down |
| `Hops.SlowLink` | emulator/freebsd6.4/module/ip_modelnet.c:165-205 | on links of at most 50 bytes a tick the last exit is the start plus the ticks of each packet, nothing is left over |
| `Hops.IdealLink` | emulator/freebsd6.4/module/ip_modelnet.c:165-211 | on links above 50 bytes a tick the last exit is start plus floor(bytes/rate) less one for each packet that exactly filled a left-over |
| `Links.NeverLate` | emulator/freebsd6.4/module/ip_modelnet.c:165-211 | so in every reachable state a busy link is never later than an ideal one |
| `Links.SlowExit` | emulator/freebsd6.4/module/ip_modelnet.c:165-205 | so in every reachable state of a slow link |
| `Links.ExitBound` | emulator/freebsd6.4/module/ip_modelnet.c:165-217 | exits grow from head to tail and entry i leaves within i+1 slowest transmissions |
| `Links.JoinedOk` | emulator/freebsd6.4/module/ip_modelnet.c:165-217 | a packet leaves after all before it, not in the past, and within qsize slowest transmissions |
| `Links.DroppedOk` | emulator/freebsd6.4/module/ip_modelnet.c:102-113 | draining the queue keeps the link in order |
| `Links.ExpireExactly` | emulator/freebsd6.4/module/ip_modelnet.c:102-113 | what is drained is a prefix of packets whose exit has passed, up to the first whose exit has not |
| `Links.WrapIsRemainder` | emulator/freebsd6.4/module/ip_modelnet.c:133 | the ring positions of the model are the remainders the program computes |
| `Links.Hop.Pop` | emulator/freebsd6.4/module/ip_modelnet.c:106-111 | the head leaves the ring; byte depth is the sum of the lengths still queued; the slot behind the tail does not move |
| `Links.Hop.UpdateBwq` | emulator/freebsd6.4/module/ip_modelnet.c:102-113 | exactly the packets that have left are taken off, and the slot computed before is still the one behind the tail |
| `Links.Hop.Push` | emulator/freebsd6.4/module/ip_modelnet.c:213-217 | the packet joins the ring at its tail |
| `Links.Hop.Charge` | emulator/freebsd6.4/module/ip_modelnet.c:180-205 | told without computing it: left-over bytes are used first; on a fast link the ticks carry exactly what is sent and newly left over; on a slow one they are len*hz/(1000*KBps), rounded down |
| `Links.Hop.StartOrTail` | emulator/freebsd6.4/module/ip_modelnet.c:165-172 | transmission starts behind the tail packet, or now with no left-over |
| `Links.Hop.Enqueue` | emulator/freebsd6.4/module/ip_modelnet.c:152-217 | the packet has joined the queue and the statistics |
| `Links.Hop.EmulateHop` | emulator/freebsd6.4/module/ip_modelnet.c:131-235 | with loss rate 0 or a draw of at least the rate a packet is never lost, below a nonzero rate always; it is dropped only when the queue is full of packets yet to leave; otherwise queued last, for the specified exit; counters follow |
| `Calendars.OneTurn` | emulator/freebsd6.4/module/ip_modelnet.c:475 | slot arithmetic: between now and the next visit no other tick has the slot of a due tick, and that visit is the due tick exactly when it is less than one turn ahead |
| `Calendars.TakeHeadOk` | emulator/freebsd6.4/module/ip_modelnet.c:476-480 | whatever is in the current slot is due now, and taking it leaves the calendar in order |
| `Calendars.PutOk` | emulator/freebsd6.4/module/ip_modelnet.c:219-226 | a packet that crossed its next hop fits into the calendar within one turn and behind its predecessors |
| `Calendars.PutPair` | emulator/freebsd6.4/module/ip_modelnet.c:225-226 | packets that share a next hop stay in the order of their exits, also within one slot |
| `Calendars.DeliverOk` | emulator/freebsd6.4/module/ip_modelnet.c:354-358 | a packet at the end of its route leaves after all earlier ones of that route |
| `Calendars.TickOk` | emulator/freebsd6.4/module/ip_modelnet.c:490 | when the slot is empty nothing is overdue and the clock may tick |
| `Calendars.ArriveOk` | emulator/freebsd6.4/module/ip_modelnet.c:408-453 | a new packet is behind everything of its route |
| `Calendars.PutAll` | emulator/freebsd6.4/module/ip_modelnet.c:153 | the calendar gains exactly the packet put in |
| `Calendars.TakeHeadAll` | emulator/freebsd6.4/module/ip_modelnet.c:478-479 | and loses exactly the packet taken out |
| `Calendars.WorkAppend` | emulator/freebsd6.4/module/ip_modelnet.c:476-481 | the remaining path lengths in a slot measure the draining loop |
| `Runs.CrossOk` | emulator/freebsd6.4/module/ip_modelnet.c:131-235 | within the horizon, link and calendar stay in order together when a packet crosses |
| `Runs.ClockTicks` | emulator/freebsd6.4/module/ip_modelnet.c:490 | they do when the clock ticks |
| `Runs.StepBasic` | emulator/freebsd6.4/module/ip_modelnet.c:467-491 | whatever the parameters, each arrival, dispatch and tick keeps every link in order, every packet in the slot of its due tick and not overdue, and the books of the calendar |
| `Runs.RunBasic` | emulator/freebsd6.4/module/ip_modelnet.c:467-491 | so in every state of every run |
| `Runs.RunTimed` | emulator/freebsd6.4/module/ip_modelnet.c:467-491 | in every state of every run within the horizon the packets of each route are in order and all dispatches were on time |
| `Runs.WaitsForTheVisit` | emulator/freebsd6.4/module/ip_modelnet.c:475-481 | in every run a packet in the calendar stays in its slot until the clock next looks there and is taken out at that tick |
| `Runs.OnTimeExactly` | emulator/freebsd6.4/module/ip_modelnet.c:219-226 | so, packet by packet and in every run, it is next taken out at its due tick if and only if that was less than one turn ahead; otherwise whole turns early |
| `Runs.LeavesATurnEarly` | emulator/freebsd6.4/module/ip_modelnet.c:225-226 | a link with a delay of one turn, and a run of two steps in which a packet leaves one turn early |
| `Runs.WorkFalls` | emulator/freebsd6.4/module/ip_modelnet.c:476-481 | dispatching a packet shortens the routes left in its slot even if it comes back there |
| `Runs.EveryRun` | test/Readme.txt:59-64 | in every run and at any moment: no queue exceeds its slots, `pkts_queued` counts the calendar, nothing is taken out that was not put in; within the horizon every packet queued for a past tick was dispatched exactly then and each route delivers in order of arrival |
| `Emulator.Core.Cross` | emulator/freebsd6.4/module/ip_modelnet.c:131-235 | one link changes as specified and no other |
| `Emulator.Core.EmulateNexthop` | emulator/freebsd6.4/module/ip_modelnet.c:294-399 | the new state is exactly what the draw and the queue decide: forwarded at the end of the route, else lost, dropped or queued for exit plus delay |
| `Emulator.Core.EmulatePath` | emulator/freebsd6.4/module/ip_modelnet.c:408-453 | an arrival is one step of the run |
| `Emulator.Core.DispatchHead` | emulator/freebsd6.4/module/ip_modelnet.c:477-480 | a dispatch is one step of the run; the slot's remaining work falls |
| `Emulator.Core.Tick` | emulator/freebsd6.4/module/ip_modelnet.c:490 | a tick is one step of the run |
| `Emulator.Core.HopClock` | emulator/freebsd6.4/module/ip_modelnet.c:467-491 | ends, reaches `ticks` by steps of the run and, within the horizon, has dispatched every packet due before at its very tick |
| `Reassign.MakeStages` | tools/reassign.cpp:218-241 | each core's three lists hold one entry per change, in order: local for the new owner first, the new owner's address for the old one second, for everybody else last |
| `Reassign.AddChange` | tools/reassign.cpp:225-239 | one more change adds its entry to exactly one list of every core |
| `Reassign.ApplyInv` | tools/reassign.cpp:272-290 | a core applying an entry, in any order among cores, keeps the invariant |
| `Reassign.BarrierInv` | tools/reassign.cpp:284-288 | so does starting the next stage when all have answered |
| `Reassign.RunInv` | tools/reassign.cpp:323-329 | every state of every run satisfies it |
| `Reassign.StagesAdvance` | tools/reassign.cpp:326-329 | stages never go back |
| `Reassign.NeverStuck` | tools/reassign.cpp:272-290 | until the last stage is over some step is possible |
| `Reassign.AlwaysAnOwner` | tools/reassign.cpp:218-241 | at every moment the old or the new core emulates the pipe |
| `Reassign.WhereTo` | emulator/freebsd6.4/module/ip_modelnet.c:379-380 | a forward goes to the old core, or to the new one once that is ready for good |
| `Reassign.TwoForwardsSuffice` | emulator/freebsd6.4/module/ip_modelnet.c:379-380 | a packet finds the pipe local after at most two forwards, even if entries change while it is under way |
| `Reassign.FinalOwner` | tools/reassign.cpp:323-332 | in the end the new core is the only owner and every core named in the file forwards straight to it |
| `Reassign.SelfChangeLosesPipe` | tools/reassign.cpp:230-238 | a change from a core to itself ends with no owner |
| `Reassign.OwnedIffMoved` | tools/reassign.cpp:230-238 | an owner is left exactly when the two cores of the change differ |
| `Reassign.OthersUntouched` | tools/reassign.cpp:218-241 | pipes not in the file keep their entries everywhere |
| `Blobs.StealEvens` | tools/assignment/assignment.cpp:414-416 | each steal lowers the sum of squared blob sizes |
| `Blobs.StealBack` | tools/assignment/assignment.cpp:414-416 | the size test would allow the reverse steal at once exactly when the edge weighs nothing and the blobs are equal |
| `Blobs.TakesExactly` | tools/assignment/assignment.cpp:414-416 | the test allows a free edge always, any other exactly if it may be stolen |
| `Blobs.TakeImproves` | tools/assignment/assignment.cpp:417-426 | taking a free edge makes progress and books its weight |
| `Blobs.StealMoves` | tools/assignment/assignment.cpp:417-424 | stealing moves the weight between the two blobs and leaves the others |
| `Blobs.StealImproves` | tools/assignment/assignment.cpp:414-426 | stealing an edge that weighs something makes progress |
| `Blobs.BetterIsCloser` | tools/assignment/assignment.cpp:403-442 | progress cannot go on for ever: fewer assignments remain ahead |
| `Blobs.EveryoneReached` | tools/assignment/assignment.cpp:403-442 | in a connected mirrored graph a pass without change leaves no edge over |
| `Blobs.Consider` | tools/assignment/assignment.cpp:412-428 | takes the edge exactly when it is another part's or free and the test allows it, keeps the books, makes progress for positive weights |
| `Blobs.ScanEnd` | tools/assignment/assignment.cpp:410-432 | afterwards every edge leaving that end is assigned |
| `Blobs.ScanEdge` | tools/assignment/assignment.cpp:408-432 | both ends of a frontier edge |
| `Blobs.Pass` | tools/assignment/assignment.cpp:403-434 | a pass does what its edges do one after the other in some order; it is progress for positive weights or shows every frontier edge surrounded |
| `Blobs.Seed` | tools/assignment/assignment.cpp:391-399 | a different random edge for each part; these are the first frontier and the blob sizes |
| `Blobs.TargetSize` | tools/assignment/assignment.cpp:383-390 | the average blob size, 1 when that is 0 |
| `Blobs.SeedsUncounted` | tools/assignment/assignment.cpp:402-441 | the number counted as assigned stays below the number of edges by the number of parts, so the early exit is never taken |
| `Blobs.Extremes` | tools/assignment/assignment.cpp:435-439 | smallest and largest blob |
| `Blobs.Assign` | tools/assignment/assignment.cpp:370-444 | the result is the last of a sequence of fields: the first has one different edge for each part, each next one is a pass over the frontier left by the one before, for the average size (1 if that is 0), every pass but the last changed something and the last nothing; it ends for positive weights; blob sizes equal the weight assigned; on a connected mirrored graph every edge is assigned |
| `Chases.GoesOnForEver` | tools/assignment/assignment.cpp:403-442 | with edges of weight 0 it need not end: on a ring two blobs chase each other, every pass changes something, and everything repeats every four passes |
| `Chases.BeginsWithSeeds` | tools/assignment/assignment.cpp:391-402 | that run starts from a choice of seeds and the average blob size |
| `ShortestPaths.SpCompareTotal` | tools/graph.h:156-165 | the heap order is a strict total order |
| `ShortestPaths.FirstPop` | tools/graph.h:182-186 | the next vertex popped has its final distance, at least that of all before it |
| `ShortestPaths.FirstRelax` | tools/graph.h:188-195 | relaxing an edge keeps the tree of the popped vertices and settles the edge |
| `ShortestPaths.NoShorter` | tools/graph.h:182-196 | no path is shorter than the distance of a settled vertex |
| `ShortestPaths.DoneIsReachable` | tools/graph.h:182-196 | the vertices popped with finite distance are exactly the reachable ones |
| `ShortestPaths.SecondRelax` | tools/graph.h:188-195 | what relaxing edges out of unreachable vertices does: predecessors of reachable vertices change only through undercutting edges |
| `ShortestPaths.SettledIsCorrect` | tools/graph.h:167-198 | settled distances make `pred` a tree of lightest paths to exactly the reachable vertices |
| `ShortestPaths.EndEnters` | tools/graph.h:188-195 | at the end a vertex has a predecessor, an edge that enters it, exactly if it is not the source and some edge enters it |
| `ShortestPaths.EndReached` | tools/graph.h:182-196 | reachable vertices keep lightest paths if no edge from an unreachable vertex undercuts one of them |
| `ShortestPaths.HarmShows` | tools/graph.h:188-195 | one undercutting edge suffices for a wrong predecessor |
| `ShortestPaths.AllReachable` | tools/graph.h:167-198 | with every vertex reachable no edge can undercut |
| `ShortestPaths.HarmExists` | tools/graph.h:188-195 | there are inputs with an undercutting edge |
| `ShortestPaths.PopBest` | tools/graph.h:183-185 | heap building and popping together move a least vertex behind the rest and permute the others |
| `ShortestPaths.ShortestPaths` | tools/graph.h:167-198 | the result is a tree of lightest paths to exactly the reachable vertices if and only if every edge out of an unreachable vertex leads to a vertex with a path no heavier than that edge; it is right for the reachable ones if that holds of the edges that enter them |
| `Routes.BreadthFirstSearch` | tools/graph.h:130-154 | distances are the least numbers of hops, -1 where there is no path; following `pred` back gives a path of that length, no predecessor where there is none |
| `Routes.Walk` | tools/routes.cpp:36-42 | whenever the walk along predecessors ends the loop does, listing the edges met |
| `Routes.WalkIsTreePath` | tools/routes.cpp:36-42 | for a tree path these are its edges, backwards |
| `Routes.NeverEnds` | tools/routes.cpp:39-42 | for a destination out of reach the loop goes on for ever if the destination and all vertices that lead to it are entered by edges |
| `Routes.EndsWithoutCycles` | tools/routes.cpp:39-42 | it ends whenever no cycle leads to the destination |
| `Routes.EndsExactly` | tools/routes.cpp:39-42 | in a graph whose links go both ways the loop ends if and only if the destination can be reached or has no links |
| `Routes.RoundAndRound` | tools/routes.cpp:39-42 | two linked vertices apart from the source: the guard passes and the loop never ends |
| `Routes.Emit` | tools/routes.cpp:43-44 | the hops are written from last to first |
| `Routes.RouteLength` | tools/routes.cpp:31-42 | with unit costs a lightest path has as many hops as breadth-first search counts |
| `Routes.Route` | tools/routes.cpp:33-47 | if the walk ends: the hops written are a contiguous path from source to destination of that length; without a path, nothing exactly if no edge enters the destination, else a path from elsewhere |

## Left out

- KwayFm.Arrays.Random_KWayEdgeRefine: the weight limits per part are floating-point products in the source and parameters here; no balance bound is stated, because the move rule itself allows exceeding a limit by `ffactor` times the gain.
- Fm.FM_2WayEdgeRefine: `limit`, a floating-point product in the source, is a parameter; the theorem holds for every limit.
- Match.Match_SHEM: the average degree is a parameter; `Coarsen.AverageDegree` takes 7/10 of it exactly, where double rounding may give one less.
- Coarsen.Coarsen2Way: the stopping fraction is an exact rational; the initial partition of the coarsest graph is not modelled. Once contraction looks outside a list nothing more is said of the program as it stands; with a guard everything is.
- Compress.CompressGraph: the fraction that decides between keeping and merging is an exact rational, the layout of the arrays in one block is not modelled, and `ikeysort` is any permutation of the keys, since nothing depends on the order being sorted.
- CoarseGraph.CreateCoarseGraph: one constraint per vertex (`ncon` 1) and no `vsize`; memory re-adjustment is not modelled.
- Dual.GENDUALMETIS: requires distinct nodes per element, at most `esize` neighbours per element and at most 200 candidates, the sizes of the source's buffers; numbering from 1 is not modelled.
- Links.Hop.EmulateHop: links with `KBps` 0, whose queue is never drained, the queueing disciplines (XTQ, XCP) and 32-bit tick wrap-around are not modelled.
- Emulator.Core.EmulateNexthop: hops on other cores, packet caching and separate scheduling of bandwidth and delay are not modelled.
- Emulator.Core.HopClock: the hop calendar, used by queueing disciplines only, and the flushing of remote packets are not modelled.
- Reassign.RunInv: the daemon that applies the lists is not part of the repository; the model lets a core apply its entries of a stage in list order and answer when done. Sockets and failures are not modelled. A core that no change names keeps forwarding to the old owner.
- Blobs.Assign: weights are positive reals without rounding. Which choices of seeds make the loop go on for ever when some edges weigh nothing is not stated.
- ShortestPaths.ShortestPaths: weights are integers, not negative; the heap is modelled by what building and popping it guarantee.
- VolumeGains.ComputeVolKWayPartitionParams: the slices of the shared pool are not modelled here; they are for cut refinement.
- Routes.NeverEnds: in a graph with one-way links a destination out of reach may be led to by a cycle and by vertices that no edge enters; then the numbering of the vertices decides whether the walk ends, and no condition is stated.
- Greedy_KWayEdgeRefine and Greedy_KWayEdgeBalance (tools/assignment/metis/kwayfm.c:222-672) repeat the move of Random_KWayEdgeRefine with another choice of vertex.
- Balance2Way (tools/assignment/metis/balance.c:21-42) only chooses between the two balancers by a floating-point test.
- Graphs without weights (`_NVW` variants), several constraints, separators, initial partitioning and command lines.
- `PQueue` is modelled by its contract: a finite map with extraction of a maximum, whose callers must name the gain on record.
- Integers are unbounded: sums of weights do not overflow.
- The Linux emulator, whose lock is released between reading the tick and inserting, and the tunnel between cores.
- Adding vertices and edges to the graph library, XML parsing and the tools that generate configurations.
