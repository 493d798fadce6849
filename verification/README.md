# Verified model of gStore's query engine, store and cluster log

gStore is a triple store that answers basic graph patterns of SPARQL 1.1. This project models its
most intricate parts in Dafny 4.11 and proves what they promise. `dafny verify dfyconfig.toml` checks
the whole project.

**Query engine.** A graph is a set of triples of ids, a query a list of triple patterns. Candidate
lists are filled from triples with constants, a planner chooses a tree over the join nodes, the tree
becomes a plan of scans, extensions by one or two variables, checks and table joins, and an executor
runs it over tables of rows. `QueryEngine.AnswerQuery` puts these together: for every connected query
of two or more triples with constant predicates and no edge from a variable to itself, the steps are
computed from the query, variables with one edge are placed as satellites behind the join nodes, and
the table returned is the set of solutions (section 18.3.1 of SPARQL 1.1 Query), each once, projected
to the columns kept, whatever the cost estimates, the scores and the strategy are. Beside it stand the
meaning of every plan (`Solutions`), table join as the bag Join of section 18.5 (`Solutions`),
satellites as projection (`Satellites`), depth-first execution under a LIMIT as a prefix of
breadth-first execution (`DepthFirst`), list intersection in three ways (`IdLists`), how often a
candidate comes (`CandidateCounts`), which columns the
caches reach (`CacheCoverage`), and the planners: levels, optimality, lossless splits, the greedy
frontier (`Planner`, `PlanGenerators`, `HeuristicPlans`, `JoinGraphs`). Queries with predicate
variables have their exact condition for greedy plans (`PredicatePlans`, `PredicateSteps`,
`PredicateBuilds`, `PredicateSatellites`, `PredicateQueries`, `PredicateColumns`).

**Older multi-way join.** One table extended in place behind a moving sentinel, the stack loop that
chooses the next node, and the product of satellite values written into one shared record
(`MultiJoins`, `JoinTwo`, `JoinInPlace`, `MultiJoinLoop`, `Cartesian`).

**Store.** Three redundant indexes updated from one batch in three orders, ids from a limit and a
free list, dictionaries, the in-place duplicate removal of a build, the compressed adjacency index and
the choice of cached lists (`IdTuples`, `TripleIndexes`, `IdPools`, `Store`, `StoreRemoval`,
`Databases`, `Csr`, `CacheSelect`). A database refines one set of triples of terms.

**Cluster log.** Adding, committing and cancelling entries, and the walk a follower catches up with
(`ClusterLogs`).

`Collections`, `Rdf`, `Tables`, `Plans`, `Executor`, `Engine`, `CandidateCaches`, `QueryPlans`,
`QueryGraphs`, `FilterPlans`, `SatellitePlans` and `PlanMeanings` hold the vocabulary, the store
lookups, the plans as values, the executor's loops, the candidate caches, the way from a query to its
plan, and what it is for a plan to mean its query.

## Where the code and a promise part

- A leaf that lists all triples ignores the candidate caches (`src/Database/Executor.cpp:1416-1451`).
  A plan answers its query on every graph exactly when each triple it leaves to a cache has its variable
  on a column some step cuts down to the cache: `CacheCoverage.CachesExact`. The leaf is made for join
  nodes that only a predicate variable links (`src/Database/PlanTree.cpp:409-420`). On the query and
  the graph of `LeafExample` the dynamic program takes it, and a row is returned that is no solution.
- An edge from a variable to itself is never used when a node is placed
  (`src/Database/PlanTree.cpp:140-148`); the candidate lists only ask for its predicate at the variable.
  Plans mean the query exactly when there is no such edge: `SelfEdges.SelfEdgesExact`.
- A node can be placed together with a predicate variable. Further triples of the node through the same
  variable are then passed over (`src/Database/PlanTree.cpp:82-83` and `206-207`). Greedy plans mean the
  query exactly when no triple is passed over: `PredicateQueries.PredicatesExact`.
- A triple that a removal batch skips leaves its id tuple unset
  (`src/Database/Database.cpp:3245-3268`), and the tuple is removed with the others. The batch removes
  exactly its own triples, whatever the tuple holds, if and only if all its triples have ids or it
  holds the whole store: `StoreRemoval.RemovableExact`.
- A failing allocation raises the limit (`src/Database/Database.cpp:355-361`), and freeing an id that
  is not live spoils the pool: `IdPools.AllocInStep`, `IdPools.FreeExact`. A batch runs without one
  exactly when the ids left are enough for its new terms: `Store.EncodeBatch`.
- A log entry is linked only when it is added, to the entry committed last. Of entries that overlap,
  one committed out of order is on no walk. Followers catch up exactly when each commit but the first
  is of the entry added last since the commit before it: `ClusterLogs.CatchUpExact`.
- `src/Database/Executor.cpp:774` erases from the result list with an iterator of the source list, so
  the sizes of both lists are off, which later loops and the copy to the result read. The model removes
  the row from the source, as lines 802-803 do. Plans reach that line exactly when they list the pairs
  of one of several parallel triples, and greedy plans never: `QueryPlans.ChecksAtPairs`,
  `QueryPlans.GreedyChecksNothing`. For all other plans nothing depends on it.

## Model

| member | source | states |
|---|---|---|
| QueryEngine.AnswerQuery | src/Database/Optimizer.cpp:283-316 | for every graph and every connected query of two or more triples with constant predicates and no self edge: candidate steps, planner, satellites and executor together return the answer over all variables, each solution once and nothing else, projected to the selected variables and all that have not exactly one edge; row for row without distinct, each row once with it; whatever costs, scores, strategy and order of satellites are |
| QueryEngine.PlacedAnswers | src/Database/PlanGenerator.cpp:953-984 | the plan of a tree with all satellites placed: keeping every satellite it answers the query, and as it is it gives the projection of that answer |
| QueryEngine.RowsAreSolutions | src/Database/Optimizer.cpp:283-316 | a row is in the table if and only if some solution of the whole query agrees with it |
| QueryEngine.CachesReady | src/Database/Optimizer.cpp:289-301 | the steps computed from the query leave caches that are ordered, sound, and enforce every triple with one variable |
| QueryEngine.CandidateSteps | src/Database/Optimizer.cpp:289-301 | the two rounds of steps use only triples of the query, and list every triple of a join node with constants otherwise |
| FilterPlans.OnlyConstFilter | src/Query/FilterPlan.cpp:165-186 | exactly the variables with an edge to a constant have a step, with exactly those edges, except variables of a single edge that are not selected; no step for a query of one triple |
| FilterPlans.FilterNodeOnConstantEdge | src/Query/FilterPlan.cpp:14-83 | exactly the edges of the variable to constants, each listing it from both others, or from the constant alone where the predicate is a variable |
| FilterPlans.CompleteCandidate | src/Database/PlanGenerator.cpp:806-852 | exactly the join nodes with a wanted edge have a step, with exactly the wanted edges: to a variable, through a constant predicate that lists the node; an edge of a variable to itself can give two |
| QueryGraphs.SplitNodes | src/Database/PlanGenerator.cpp:808-819 | a variable is a satellite if and only if one triple touches it, at one end, and no other triple does; all others are join nodes; both keep the order of the variables |
| QueryGraphs.SatelliteExact | src/Query/BGPQuery.cpp:678-682 | degree one means one triple and no self edge, and the other way round |
| QueryGraphs.NodesConnected | src/Query/BGPQuery.cpp:678-682 | the join nodes of a connected query are connected among themselves |
| QueryGraphs.HangsOn | src/Query/BGPQuery.cpp:678-682 | every satellite of a connected query of two or more triples hangs on a join node |
| QueryGraphs.ConstantAtNode | src/Query/FilterPlan.cpp:165-186 | so a triple with a constant end is of a join node |
| SatellitePlans.AddSatelliteNodes | src/Database/PlanGenerator.cpp:953-984 | in any order, every satellite is placed once; the plan keeps the selected ones, and with all of them kept it enforces exactly the triples between variables |
| SatellitePlans.SatelliteEdge | src/Database/PlanTree.cpp:499-523 | the one edge of a satellite is its edge to the placed nodes, whatever else is placed |
| SatellitePlans.DistinctRows | src/Database/Executor.cpp:57-66 | with distinct satellites no row comes twice, through joins as well |
| QueryEngine.ChoosePlan | src/Database/PlanGenerator.cpp:1220-1231 | dynamic program and greedy planner both return a lossless tree over exactly the join nodes of a connected query; the one a cheapest tree, the other the tree of the greedy order |
| Solutions.EvalExact | src/Database/Optimizer.cpp:586-658 | for every well-formed plan, whatever its mix of extend, check and join nodes, breadth-first evaluation returns a row if and only if it is an answer, and no row twice |
| Solutions.EvalSolutions | src/Database/Optimizer.cpp:586-658 | the multiplicity of a mapping in the result is 1 if it satisfies every covered pattern and list, else 0 |
| Solutions.EvalRight | src/Database/Optimizer.cpp:586-658 | as a set the result is right for every well-formed plan, also where an extension can list an id twice |
| Engine.ExecutionBreadthFirst | src/Database/Optimizer.cpp:586-658 | the recursive execution with all its table loops computes exactly the value the theorems are about |
| Engine.InitialTable | src/Database/Optimizer.cpp:820-865 | a leaf returns the first rows of its full table that the limit allows |
| Engine.GetAllTriple | src/Database/Executor.cpp:1416-1451 | listing all triples predicate by predicate stops at the limit with exactly the first rows of the whole list |
| Engine.ConvertToTable | src/Database/Executor.cpp:455-470 | one row per candidate id, cut at the limit |
| Engine.RunStep | src/Database/Optimizer.cpp:883-938 | each inner node does to its table what its step means, up to the limit |
| Solutions.AllTriplesExact | src/Database/Executor.cpp:1416-1451 | the all-triples leaf has exactly the triples of the graph as rows, each once |
| Solutions.ScanExact | src/Database/Executor.cpp:93-130 | a scan has exactly the ids of the cache, or of the whole list, as rows |
| Executor.AffectANode | src/Database/Executor.cpp:18-82 | extension or satellite step over a whole table: the limit's prefix of the full result, the same whether the old rows are consumed or kept; the last row may carry surplus ids once the limit is reached |
| Executor.AffectRecords | src/Database/Executor.cpp:34-73 | the row loop: what it has after i rows is the step on those rows, cut at the limit, with the counter exact |
| Executor.InsertExtended | src/Database/Executor.cpp:47-55 | copies of a record with one candidate each; after the limit no row is added, and only the last row gets surplus ids behind its width |
| Executor.InsertCopies | src/Database/Executor.cpp:57-66 | satellite: as many plain copies as matches, or one when distinct |
| Executor.CheckedInsert | src/Database/Executor.cpp:1453-1471 | inserts while the limit allows and counts down; without a limit the counter stays |
| Executor.JoinTwoNode | src/Database/Executor.cpp:171-220 | a two-variable step: exactly the first rows the limit allows of all rows followed by their pairs |
| Executor.ExtendRecordOneNode | src/Database/Executor.cpp:977-1182 | the candidates of one record are the edge lists intersected in order and cut to the cache; an empty list ends the work early without changing the result |
| Executor.ExtendRecordTwoNode | src/Database/Executor.cpp:1195-1302 | the pairs of the edge whose two ids both caches accept |
| Executor.ANodeEdgesConstraintFilter | src/Database/Executor.cpp:380-400 | filtering edge by edge leaves exactly the rows that pass all edges, in order |
| Executor.OneEdgeConstraintFilter | src/Database/Executor.cpp:480-810 | exactly the rows whose value is in the edge's list, also when constants let one list serve all rows |
| Executor.JoinTable | src/Database/Executor.cpp:231-370 | hash join: the bigger table is indexed on the shared variables and probed; the table is the specified join in the specified order |
| Executor.BuildIndex | src/Database/Executor.cpp:293-312 | the hash index maps each key to exactly the rows with that key, in table order |
| Solutions.JoinTablesExact | src/Database/Executor.cpp:231-370 | the joined table is the Join of section 18.5 of SPARQL 1.1 Query: a row is in it if and only if its parts are rows of both tables, whichever table is bigger |
| Solutions.JoinTablesBag | src/Database/Executor.cpp:231-370 | as a bag: a row is in the join as often as its part is in the one table times as often as its part is in the other |
| Solutions.JoinRowsNoDup | src/Database/Executor.cpp:231-370 | joining tables without duplicate rows gives none |
| Solutions.JoinExact | src/Database/Optimizer.cpp:940-952 | the join of two exact plan results is exact for the union of their patterns |
| Solutions.ApplyExact | src/Database/Optimizer.cpp:883-938 | a step on an exact result is exact for the patterns of both |
| Solutions.ExtsExact | src/Database/Executor.cpp:977-1302 | what a step appends to a row are exactly the values with which its patterns and caches hold |
| Tables.CandidatesExact | src/Database/Executor.cpp:977-1182 | an id is a candidate if and only if every edge lists it and the cache has it |
| CandidateCounts.EdgeListCount | src/Database/Executor.cpp:996-1162 | an edge lists an id as often as triples complete it where repeated ids are asked for, and otherwise once if any does |
| CandidateCounts.CandidatesCount | src/Database/Executor.cpp:977-1182 | an id is a candidate at least n times if and only if every edge lists it at least n times and the cache has it as often |
| Tables.IntersectMember | src/Query/IDList.cpp:134-262 | an id survives intersection if and only if both sorted lists have it |
| Tables.IntersectIncreasing | src/Query/IDList.cpp:134-262 | intersecting with a duplicate-free sorted list leaves a duplicate-free sorted list |
| IdLists.IdList.IntersectList | src/Query/IDList.cpp:134-262 | whichever of the three ways is taken, the list becomes the same intersection, and the number of ids removed is returned |
| IdLists.IdList.Merge | src/Query/IDList.cpp:214-245 | merging over its own front leaves the intersection |
| IdLists.BSearchMerge | src/Query/IDList.cpp:143-180 | searching the longer list for each run of the shorter one gives the intersection, repeated ids included |
| IdLists.CheckSizeInsert | src/Query/IDList.cpp:155-164 | a run adds its id as often as both lists have it |
| IdLists.IntersectCount | src/Query/IDList.cpp:134-262 | an id is in the intersection as often as in both lists |
| IdLists.SortedByCounts | src/Query/IDList.cpp:134-262 | sorted lists with the same ids equally often are the same list |
| Rdf.EdgeListMember | src/Database/Executor.cpp:996-1162 | each of the nine join methods lists exactly the ids that complete its edge to a triple |
| Rdf.PairsExact | src/Database/Executor.cpp:1211-1284 | a pair list holds exactly the pairs at the two other places of the triples with the given id |
| Rdf.List1Count | src/KVstore/KVstore.cpp:3056-3095 | the list of one given id holds an id once per triple, or once if it is asked for without duplicates or lists predicates |
| Satellites.SatelliteProjection | src/Database/Executor.cpp:33-81 | for every plan whose satellites are not distinct, the result is row for row the projection of the plan that keeps all satellite columns |
| Satellites.SatelliteSet | src/Database/Executor.cpp:33-81 | with any mix of distinct and counting satellites, the rows as a set are the solutions of all patterns with the satellite values dropped |
| Satellites.SatelliteCounts | src/Database/Executor.cpp:57-66 | a satellite repeats a row as often as keeping its variable would have candidates, or with distinct once, and lets it through if and only if there is one |
| CandidateCaches.CacheConstantCandidates | src/Database/Executor.cpp:402-410 | one list per constant edge, intersected into the cache in turn |
| CandidateCaches.AddEdgesExact | src/Database/Executor.cpp:815-927 | the cache of a variable becomes exactly the ids it held that satisfy all its constant edges |
| CandidateCaches.AddStepsSound | src/Database/Executor.cpp:402-453 | any sequence of candidate steps keeps every value of every solution in the caches |
| CandidateCaches.AddStepsEnforces | src/Database/Executor.cpp:402-453 | a triple with one variable that some step uses is enforced by the caches from then on |
| CandidateCaches.SolutionsInLists | src/Database/Executor.cpp:1175-1182 | intersecting extensions with sound caches never loses a solution |
| CandidateCaches.QuerySolutions | src/Database/Optimizer.cpp:586-658 | a plan that leaves to the caches only triples they enforce returns each solution of the whole query once |
| CacheCoverage.CachesExact | src/Database/Executor.cpp:1416-1451 | over the caches its candidate steps compute, a plan answers the query on every graph if and only if every triple it leaves to a cache has its variable on a column the plan cuts down to the cache |
| CacheCoverage.LeftOut | src/Database/Executor.cpp:1416-1451 | where one has not, a graph made from the other triples gives a row that is no solution |
| LeafExample.AllTriplesIgnoresCaches | src/Database/Executor.cpp:1416-1451 | a query of five variables whose join nodes only a predicate variable links, and a graph: the plan with the all-triples leaf returns a row whose subject is no candidate, and its constant triple is not in the graph |
| LeafExample.SampleCosts | src/Database/PlanGenerator.cpp:757-794 | why the dynamic program takes that leaf there: 120 and 8 candidates, 378 triples, three for each candidate subject, every object a candidate |
| DepthFirst.LimitedResult | src/Database/Optimizer.cpp:95-258 | depth-first execution under a limit and the copy to the result give exactly the first min(L, N) selected rows of the breadth-first result, in order |
| DepthFirst.ExecutionDepthFirst | src/Database/Optimizer.cpp:95-155 | the limit's prefix of the breadth-first table; surplus ids can only sit behind the width of a row |
| DepthFirst.DepthSearchOneLayer | src/Database/Optimizer.cpp:168-258 | at every recursion level the counter has grown by exactly the rows returned, which are the first rows the remaining steps make of the record |
| DepthFirst.DeeperRecords | src/Database/Optimizer.cpp:226-257 | the loop over a layer's records stops at the limit with the first rows of all of them |
| DepthFirst.SearchCandidates | src/Database/Optimizer.cpp:117-138 | the loop over the first node's candidates keeps the non-empty results, whose concatenation is the limit's prefix |
| DepthFirst.MergeResults | src/Database/Optimizer.cpp:146-153 | the break leaves only the inner loop, and still nothing is lost or added |
| DepthFirst.CopyToResult | src/Database/Optimizer.cpp:413-450 | each record is overwritten by its selected values and cut to them, surplus ids included |
| DepthFirst.LinearEval | src/Database/Optimizer.cpp:50-93 | a join order evaluated step after step is the evaluation of the tree of those steps, with the template's columns |
| DepthFirst.RunAllDeep | src/Database/Optimizer.cpp:226-257 | breadth first over all rows is the concatenation of depth first over each |
| PlanGenerators.PlanGenerator.DPPlan | src/Database/PlanGenerator.cpp:1201-1218 | the chosen tree is over all join nodes, in the search space, and no dearer than any tree of it: every mix of scans, pair lists, extensions by a neighbour and the binary joins the code tries, at every depth, for every additive cost |
| PlanGenerators.NoOrderCheaper | src/Database/PlanGenerator.cpp:1201-1218 | so it costs no more than any order of all join nodes with connected prefixes |
| PlanGenerators.PlanGenerator.FillCache | src/Database/PlanGenerator.cpp:1201-1211 | after the loop, for every k, level k has exactly the sorted connected k-subsets as keys, and each keeps a plan no dearer than any tree of the search space over its nodes |
| PlanGenerators.PlanGenerator.ConsiderWCOJoin | src/Database/PlanGenerator.cpp:871-899 | adds one level: its keys are exactly the sorted connected sets, its plans are sound, and no scan, pair list or extension is cheaper; lower levels are untouched |
| PlanGenerators.PlanGenerator.ConsiderBinaryJoin | src/Database/PlanGenerator.cpp:903-945 | makes the last level whole: afterwards no tree of the search space, binary joins included, is cheaper than the plans kept; no key comes or goes and lower levels are untouched |
| PlanGenerators.PlanGenerator.TryBinaryJoin | src/Database/PlanGenerator.cpp:914-940 | afterwards joining this small plan with the rest of the key, whichever plans are taken, is no cheaper than a plan kept; at most one sound plan is added |
| PlanGenerators.PlanGenerator.SplitKey | src/Database/PlanGenerator.cpp:915-923 | gives the halves of the key, which cover it and meet exactly in the join nodes; gives none exactly when there are none |
| PlanGenerators.PlanGenerator.ConsiderVarScan | src/Database/PlanGenerator.cpp:1075-1098 | level 1 has exactly the single join nodes |
| PlanGenerators.PlanGenerator.GetNeighborBySubPlanNodes | src/Database/PlanGenerator.cpp:855-868 | exactly the join nodes outside that are next to one inside |
| PlanGenerators.PlanGenerator.GetJoinNodes | src/Database/PlanGenerator.cpp:672-682 | exactly the nodes of the plan next to one of the other nodes |
| PlanGenerators.PlanGenerator.GetBestPlanByNum | src/Database/PlanGenerator.cpp:654-670 | the cheapest plan of the level, none only if all costs are out of range |
| PlanGenerators.PlanGenerator.GetBestPlanByNodes | src/Database/PlanGenerator.cpp:639-651 | the cheapest plan of a key |
| PlanGenerators.PlanGenerator.InsertThisPlanToCache | src/Database/PlanGenerator.cpp:684-700 | begins a level, a key or extends a key's list; nothing else changes |
| PlanGenerators.JoinsCovered | src/Database/PlanGenerator.cpp:903-945 | once every split of every key has been tried, every binary join of the search space has a plan within its cost, whatever trees its halves are |
| Planner.SpaceOk | src/Database/PlanGenerator.cpp:903-945 | every tree of the search space joins losslessly throughout |
| Planner.HalvesLossless | src/Database/PlanGenerator.cpp:903-945 | any part of a node set and the others with the join nodes meet exactly in the join nodes, and no edge runs between what is only in one side |
| Planner.LosslessEdge | src/Database/PlanGenerator.cpp:903-945 | every query edge inside the whole lies wholly in one side of a lossless split |
| PlanGenerators.WholeLevel | src/Database/PlanGenerator.cpp:1201-1218 | the cheapest plan of the last level is a cheapest tree of the search space over all join nodes |
| PlanGenerators.UnionExact | src/Util/OrderedVector.cpp:41-49 | vector and set united and sorted: increasing, exactly the union |
| PlanGenerators.SubtractExact | src/Util/OrderedVector.cpp:30-36 | subtraction keeps the order and leaves exactly the difference |
| Planner.NextLevel | src/Database/PlanGenerator.cpp:871-899 | serving every neighbour of every key makes the next level complete, and optimal among all trees but binary joins |
| JoinGraphs.RemovableNode | src/Database/PlanGenerator.cpp:871-899 | every connected set of two or more nodes has a node whose removal keeps it connected |
| JoinGraphs.ConnectedGrow | src/Database/PlanGenerator.cpp:855-899 | a connected set stays connected when a neighbour joins |
| JoinGraphs.ConnectedUnion | src/Database/PlanGenerator.cpp:914-924 | two connected sets that share a node are connected together |
| HeuristicPlans.HeuristicPlanner.HeuristicPlan | src/Database/PlanGenerator.cpp:1163-1199 | the order begins with a node of highest score and goes on with a frontier node of highest score, scored against the nodes placed before it, until the frontier is empty, and the plan is the left-deep tree of it; the loop ends, no node is placed twice, and all join nodes are placed if and only if the query is connected |
| HeuristicPlans.GreedyUnique | src/Database/PlanGenerator.cpp:1163-1199 | graph and scores leave one such order, ties included |
| HeuristicPlans.HeuristicPlanner.RemoveNodeAddNeighbor | src/Database/PlanGenerator.cpp:1148-1157 | the neighbour set is again exactly the unplaced frontier |
| HeuristicPlans.HeuristicPlanner.HeuristicFirstNode | src/Database/PlanGenerator.cpp:1100-1112 | the first join node of highest score |
| HeuristicPlans.HeuristicPlanner.HeuristicNextNodeFromVec | src/Database/PlanGenerator.cpp:1135-1146 | the least of the nodes of highest score |
| QueryPlans.CompileExact | src/Database/PlanTree.cpp:124-262 | the plan of every tree the planner builds is well formed, places each node once, and enforces exactly the query's triples between distinct nodes |
| QueryPlans.PairCompiles | src/Database/PlanTree.cpp:340-455 | listing one edge's pairs and checking the parallel edges enforces exactly the triples between the two nodes |
| QueryPlans.JoinCompiles | src/Database/PlanTree.cpp:463-487 | the join of two plans over a lossless split enforces exactly the triples inside the union |
| QueryPlans.NeighborsExact | src/Query/BGPQuery.cpp:311-370 | the edge lists of the variables make two variables neighbours exactly when a triple links them |
| QueryPlans.PlannedSolutions | src/Database/Optimizer.cpp:586-658 | the plan of any tree over all join nodes returns each solution of the query once |
| SelfEdges.SelfEdgesExact | src/Database/PlanTree.cpp:140-148 | for every connected query with constant predicates, its satellites placed, and any candidate steps for it: on every graph, over the caches the steps compute there, the rows are the parts of the solutions if and only if no edge leads from a variable to itself |
| SelfEdges.Lost | src/Database/PlanTree.cpp:140-148 | for every self edge, a graph with two triples through a fresh id gives a row that is no solution, although the candidate steps of the edge itself have been taken |
| SelfEdges.LoopAnswered | src/Database/PlanTree.cpp:140-148 | one query and one graph: whatever tree is planned, a row is returned whose self edge is no triple |
| QueryPlans.ChecksAtPairs | src/Database/PlanTree.cpp:366-382 | a plan filters rows by further edges if and only if it lists the pairs of one of several parallel triples |
| QueryPlans.GreedyChecksNothing | src/Database/PlanTree.cpp:124-262 | greedy plans never do |
| PredicateQueries.PredicatesExact | src/Database/PlanTree.cpp:204-230 | for every connected query without self edges whose predicates are constants or variables, every order of its join nodes with connected prefixes and every order of its satellites: on every graph, over the caches of its candidate steps, the rows of the greedy plan are the parts of the solutions if and only if no triple is passed over |
| PredicateColumns.GreedyColumns | src/Database/PlanTree.cpp:124-262 | a variable is a column of the greedy plan if and only if it is selected or occurs at more than one place |
| PredicateColumns.OccursExact | src/Database/PlanTree.cpp:165-175 | a variable occurs once exactly when it is at one place of one triple |
| PredicateQueries.PassedLost | src/Database/PlanTree.cpp:204-208 | for every triple passed over, a graph on which the plan returns a row that is no solution |
| PredicateQueries.BackNotChecked | src/Database/PlanTree.cpp:204-208 | one query and one graph: two triples with one predicate variable between the same nodes, the second never looked at |
| PredicateQueries.CompletedSolution | src/Database/PlanTree.cpp:165-175 | an answer in which variables that occur once are left out extends to a solution of all triples |
| PredicateSatellites.GreedyPlanBuilt | src/Database/PlanGenerator.cpp:1163-1199 | the greedy plan with its satellites is well formed and deals with every triple between its variables except those passed over |
| PredicateSatellites.AddOne | src/Database/PlanTree.cpp:499-580 | a satellite is placed or counted by its one triple; behind a predicate variable to be kept an unselected one is left out and the predicate variable placed |
| PredicateBuilds.NextBuilt | src/Database/PlanTree.cpp:124-262 | one more node deals with all its triples to what is placed, whichever of the ways to place it applies, except those passed over |
| PredicateBuilds.FirstBuilt | src/Database/PlanTree.cpp:27-115 | the first node deals with its triples to constants through predicate variables, except those passed over |
| PredicateBuilds.JoinAll | src/Database/PlanTree.cpp:204-230 | the loop deals with every triple whose predicate variable was not placed when it began |
| PredicateBuilds.CountAll | src/Database/PlanTree.cpp:249-260 | light predicate variables are only counted |
| Databases.Database.BatchInsert | src/Database/Database.cpp:3034-3222 | no allocation fails if and only if, for each kind of term, the new terms of the batch are no more than the ids left; then the store means exactly the old triples and the batch, indexes, counts, ids, dictionary and string index in step; the result is the number of new triples |
| Databases.Database.BatchRemove | src/Database/Database.cpp:3224-3387 | the indexes agree whatever the unset tuples hold; if all triples of the batch have ids, or it holds the whole store, exactly the batch is removed and dictionary, ids and counts are in step; otherwise exactly if the unset tuples do no harm |
| Databases.Database.ResetWhenEmpty | src/Database/Database.cpp:3026-3029 | with no triple left all three pools start over and the store stays valid; otherwise nothing changes |
| Databases.ResetSafe | src/Database/Database.cpp:128-149 | with no triple, no name is live, so the pools may start over |
| Databases.Database.LoadCsr | src/Database/Database.cpp:797-885 | over every run of batches the adjacency index holds all triples between entities: each predicate is below the number the string index gives |
| Databases.ChangePredicates | src/StringIndex/StringIndex.cpp:265-282 | the string index grows to one above the largest new predicate id, or stays if that is covered |
| Databases.MeaningSize | src/Database/Database.cpp:3213-3214 | the triple count is the number of triples of terms |
| StoreRemoval.SlotsExact | src/Database/Database.cpp:3245-3268 | for given contents of the unset tuples: a batch removes exactly its own tuples if and only if none of them is a stored triple outside the batch |
| StoreRemoval.RemovableExact | src/Database/Database.cpp:3245-3268 | a batch removes exactly its own triples, whatever unset tuples hold, if and only if all its triples have ids or it holds the whole store |
| StoreRemoval.SkippedRemoves | src/Database/Database.cpp:3245-3268 | otherwise a stored triple outside the batch goes with it when an unset tuple holds that triple |
| StoreRemoval.DropUnused | src/Database/Database.cpp:3309-3370 | exactly the given ids that occur no more lose their name and are freed, none twice |
| StoreRemoval.RemoveExactness | src/Database/Database.cpp:3307-3372 | after the clean-up the dictionary has exactly the terms of the remaining triples |
| StoreRemoval.RemoveMeaning | src/Database/Database.cpp:3224-3387 | in terms, the store has lost exactly the batch |
| Store.EncodeBatch | src/Database/Database.cpp:3055-3143 | succeeds if and only if the distinct new terms of each kind are no more than the ids left; then every triple has ids, and exactly the new terms got new ones |
| Store.EncodeOne | src/Database/Database.cpp:3057-3139 | one triple: succeeds if and only if its new terms have ids left, the object may be the subject; known terms keep their ids |
| Store.InsertExactness | src/Database/Database.cpp:3145-3163 | after a batch the dictionary has exactly the terms of all triples |
| Store.InsertMeaning | src/Database/Database.cpp:3034-3222 | in terms, the store has gained exactly the batch |
| Store.EncodeSpell | src/Database/Database.cpp:3055-3143 | encoding a triple of known terms and spelling it again gives the triple |
| Store.SpellEncode | src/Database/Database.cpp:3055-3143 | spelling a tuple and encoding it again gives the tuple |
| Store.KindsApart | src/Database/Database.cpp:346-439 | entity and literal ids never overlap |
| IdPools.AllocExact | src/Database/Database.cpp:346-374 | an id handed out was not live and exactly it becomes live; a freed id is reused while there is one; allocation fails exactly when the free list is empty and the limit is reached |
| IdPools.AllocInStep | src/Database/Database.cpp:355-361 | count, limit and free list stay in step, and an id is given, if and only if free list and limit leave one |
| IdPools.FreeExact | src/Database/Database.cpp:377-391 | freeing keeps the pool right if and only if the id is live |
| IdPools.FreeAlloc | src/Database/Database.cpp:346-391 | allocating gives back the id freed last and restores the pool, if and only if it was not the highest id or no other was free |
| IdPools.PoolCount | src/Database/Database.cpp:346-489 | the count is limit minus free-list length, and the number of live ids |
| IdPools.Name | src/Database/Database.cpp:3062-3089 | a known term keeps its id, an unknown one gets a fresh one, failing if and only if there is none |
| IdPools.CommitOk | src/Database/Database.cpp:3145-3160 | writing a batch's names in both directions keeps a bijection with the live ids |
| IdPools.ForgetOk | src/Database/Database.cpp:3316-3320 | removing a name and freeing its id keeps the bijection |
| IdPools.ResetExact | src/Database/Database.cpp:128-149 | resetting a pool is right if and only if nothing is live |
| TripleIndexes.SubBatchUpdate | src/Database/Database.cpp:3389-3516 | the grouping loop over one sort order changes the index by exactly the batch and counts exactly the triples really changed |
| TripleIndexes.UpdateIndexes | src/Database/Database.cpp:3184-3214 | the three indexes still represent one triple set, and the three counts agree |
| TripleIndexes.BuildIndexes | src/Database/BuildDatabase.cpp:108-140 | a build establishes it: the indexes represent exactly the input tuples, the count is their number without duplicates |
| TripleIndexes.InsertExact | src/Database/Database.cpp:3398-3424 | a group inserted under its key adds exactly its triples and counts the new ones |
| TripleIndexes.RemoveExact | src/Database/Database.cpp:3398-3424 | a group removed under its key removes exactly its triples and counts them |
| IdTuples.DedupInPlace | src/Database/BuildDatabase.cpp:114-125 | the in-place loop with two indices leaves exactly the deduplicated prefix |
| IdTuples.SortedUniqueExact | src/Database/Database.cpp:3165-3168 | sort and unique leave the distinct tuples in strict order |
| JoinInPlace.JoinTable.JoinNode | src/Database/Join.cpp:1050-1259 | in place, every old row is followed by each id that joins to it, unmatched rows are gone and appended rows are never visited; an empty ready candidate list changes nothing |
| JoinInPlace.JoinedBag | src/Database/Join.cpp:1050-1259 | the table becomes exactly the bag of each old row followed by each of its ids |
| JoinInPlace.JoinedOnce | src/Database/Join.cpp:1050-1259 | rows that come once, with each id once, give rows that come once |
| JoinInPlace.JoinTable.Append | src/Database/Join.cpp:1221-1246 | the first id goes into the row, the others into copies behind the sentinel, which the first of them sets |
| JoinInPlace.JoinTable.AddNewToResults | src/Database/Join.cpp:1001-1007 | a copy with another id in the new column |
| JoinTwo.RowAnswers | src/Database/Join.cpp:1080-1219 | the nested loops with their early exits compute the intersection of all the row's lists |
| JoinTwo.KnownEdges | src/Database/Join.cpp:1098-1180 | known predicates are intersected as they come, others only noted |
| MultiJoins.AnswersExact | src/Database/Join.cpp:1011-1219 | an id joins if and only if every edge to a column accepts it and, where ready, the candidate list has it; each id once |
| MultiJoinLoop.MultiJoin.Run | src/Database/Join.cpp:1286-1448 | for queries without self edges the stack loop ends; every column is the best neighbour of the latest column that has an open edge; on success no edge is open, id2pos and pos2id are inverse, exactly the triples between columns are dealt, and the table has exactly the satisfying rows, each once; on failure no row satisfies the columns tried |
| MultiJoinLoop.DeepFirstUnique | src/Database/Join.cpp:1322-1430 | query, scores and start node leave one such order of the columns |
| MultiJoinLoop.MultiJoin.JoinNextNode | src/Database/Join.cpp:1349-1430 | the next node is never a column already, and the undealt triples shrink |
| MultiJoinLoop.MultiJoin.ChooseNextNode | src/Database/Join.cpp:933-974 | the first undealt wanted edge whose other end scores best, none only if there is none |
| MultiJoinLoop.LoopNext | src/Database/Join.cpp:1262-1267 | one more column keeps positions inverse and exactly the triples between columns dealt |
| MultiJoinLoop.RowInExact | src/Database/Join.cpp:1286-1448 | a row is in the table if and only if it is a start candidate whose columns satisfy every edge between them and every ready candidate list |
| Cartesian.CartesianJoin.Cartesian | src/Database/Join.cpp:722-741 | one fresh record per combination although all calls overwrite one record; other columns are as they were |
| Cartesian.CombosAreTuples | src/Database/Join.cpp:722-741 | the k-th record is the k-th combination |
| Cartesian.TuplesMember | src/Database/Join.cpp:722-741 | every combination of satellite values occurs |
| Cartesian.TuplesInOrder | src/Database/Join.cpp:722-741 | combinations come in strict lexicographic order |
| Cartesian.FillExact | src/Database/Join.cpp:722-741 | a record holds its combination in the satellite columns and the row elsewhere |
| ClusterLogs.CatchUp | src/Cluster/ClusterLog.cpp:342-357 | after any orderly run, entries overlapping or not, the walk from a committed index lists all later committed indices in commit order, then at most one uncommitted one, each with the file of the entry before it |
| ClusterLogs.CatchUpExact | src/Cluster/ClusterEntity.cpp:93-145 | over all runs in which entries begin while others are pending and any of them is committed: every walk lists all indices committed later if and only if each commit but the first is of the entry added last since the commit before |
| ClusterLogs.OutOfOrder | src/Cluster/ClusterEntity.cpp:93-145 | the first entry committed out of order is listed by no walk from anywhere, then and after any further steps |
| ClusterLogs.AloneOrderly | src/Cluster/ClusterEntity.cpp:93-145 | runs with nothing pending when an entry is added are orderly |
| ClusterLogs.PendingExact | src/Cluster/ClusterEntity.cpp:93-145 | over all runs, from the steps alone: the pending index is that of the entry begun last, if no commit, cancel or failure came after it, and 0 otherwise |
| ClusterLogs.AlonePending | src/Cluster/ClusterEntity.cpp:93-145 | with one entry at a time the pending index is the one entry begun and not yet committed, cancelled or failed, and 0 exactly when there is none |
| ClusterLogs.MayBegin | src/Cluster/ClusterEntity.cpp:105-112 | so a new entry may begin exactly when every entry begun has been committed, cancelled or failed |
| ClusterLogs.IndexExact | src/Cluster/ClusterEntity.cpp:117-138 | over all runs the committed index is that of the last commit, and 0 exactly before the first |
| ClusterLogs.LinksExact | src/Cluster/ClusterLog.cpp:162-190 | over all runs, whatever overlaps, a committed entry is linked to the entry added last before the next commit, and to nothing if there is none |
| ClusterLogs.EntriesExact | src/Cluster/ClusterLog.cpp:162-205 | over all runs the last step that names an entry tells its state and its file |
| ClusterLogs.EntriesNamed | src/Cluster/ClusterLog.cpp:162-205 | and there is no entry that no step names |
| ClusterLogs.RunChain | src/Cluster/ClusterEntity.cpp:93-145 | committed entries form one chain in commit order over every orderly run |
| ClusterLogs.StepChain | src/Cluster/ClusterEntity.cpp:93-145 | adding, progressing, cancelling and committing in order each keep the chain, whatever is pending |
| ClusterLogs.GetNextIndexL | src/Cluster/ClusterLog.cpp:342-357 | the walk ends on every log whose links go forward; each pair is the link and the file of a committed entry, which the pair before leads to, and the entry at the end is not committed, not linked or has no file |
| ClusterLogs.AddForward | src/Cluster/ClusterLog.cpp:162-190 | adding an entry, even while others are pending, keeps every link from an older to a newer entry |
| ClusterLogs.UpdateForward | src/Cluster/ClusterLog.cpp:192-205 | changing an entry's state keeps every link forward |
| ClusterLogs.OverlapLoses | src/Cluster/ClusterEntity.cpp:93-115 | two entries begun together from the start: the one committed second is on no walk |
| ClusterLogs.DatabaseLog.AddLog | src/Cluster/ClusterEntity.cpp:93-115 | term record and log change together and links stay forward; a known index changes no entry, a new one only the link of the committed or built entry the record names |
| ClusterLogs.DatabaseLog.AddCommitLog | src/Cluster/ClusterEntity.cpp:117-126 | the same for an entry committed at once |
| ClusterLogs.DatabaseLog.UpdateLogOperation | src/Cluster/ClusterEntity.cpp:128-145 | commit, cancel and failure clear the pending index; a known entry has the new state, and the new file if one is given, nothing else changes; a commit keeps term record and log coupled if and only if the log has the entry |
| Csr.LoadCsr | src/Database/Database.cpp:803-885 | for every predicate below the bound and both directions: exactly the vertices with an entity neighbour, in increasing order, with inverse vertex numbers; each slice is exactly the entity neighbours of its vertex, each once in increasing order; m is the number of triples between entities |
| Csr.Transposed | src/Database/Database.cpp:803-880 | a slice holds exactly the entity neighbours, and the in-edges are the transpose of the out-edges |
| Csr.AllEdges | src/Database/Database.cpp:797-800 | m counts all triples between entities if and only if every predicate of one is below the bound, which Database.LoadCsr shows of every database |
| Csr.OutPart | src/Database/Database.cpp:805-845 | the index of the out-edges of one predicate: literals are left out, every other object comes once |
| Csr.InPart | src/Database/Database.cpp:851-880 | the index of the in-edges of one predicate, and the number of its triples |
| CacheSelect.GetCandidatePreID | src/Database/Database.cpp:967-1028 | the total is the sum of the chosen sizes and below the budget, in 32 bits without wrap-around; only eligible lists are chosen; and every eligible list that fits together with all eligible lists at least as valuable is chosen, whatever order they come in |
| CacheSelect.AllChosen | src/Database/Database.cpp:967-1028 | so all eligible lists are chosen when they fit together |
| CacheSelect.EligibleExact | src/Database/Database.cpp:976-993 | a list is eligible once, under its predicate, with its size and its count |
| CacheSelect.Consider | src/Database/Database.cpp:985-1026 | a list is let in if and only if it fits, or fits beside the chosen lists at least as valuable; then exactly it is added and only less valuable lists go, each of which does not fit beside the lists now chosen that are at least as valuable as it; otherwise the choice is as before |
| CacheSelect.MakeRoom | src/Database/Database.cpp:999-1007 | throws out only lists less valuable than the new one and no more valuable than any left, stops as soon as the new one fits or the least valuable left is as valuable, and never pops an empty queue |
| CacheSelect.RoomExact | src/Database/Database.cpp:999-1012 | room is made if and only if the new list fits beside the lists at least as valuable |
| CacheSelect.PutBack | src/Database/Database.cpp:1013-1022 | what was thrown out comes back while it fits, the most valuable first; a list left out did not fit beside what came back that is at least as valuable; if nothing was added, all of it comes back |

## Left out

- QueryEngine.AnswerQuery: predicates are constants; a query of one triple is planned by a separate
  function (`src/Database/PlanGenerator.cpp:1232-1374`), which is not part of this model.
- QueryEngine.PlacedAnswers: predicates are constants.
- QueryEngine.CachesReady: predicates are constants.
- SatellitePlans.AddSatelliteNodes: predicates are constants; `PredicateSatellites` has them as variables.
- QueryPlans.CompileExact: predicates are constants; `PredicatePlans` has greedy plans with predicate
  variables. Pair leaves and table joins of plans with predicate variables are not part of this model,
  except for the leaf that lists all triples.
- QueryPlans.PairCompiles: predicates are constants.
- QueryPlans.PlannedSolutions: predicates are constants, and all variables are nodes of the tree;
  satellites are added by `SatellitePlans`.
- PredicateQueries.PredicatesExact: rows as a set; how often a row comes when a predicate variable is
  only counted is not stated.
- FilterPlans.CompleteCandidate: which edges are wanted depends on counts in the code; here any may be.
- Executor.OneEdgeConstraintFilter: line 774 is taken as the removal from the source list, as lines
  802-803 have it.
- Cardinality estimates, sampling and random numbers: any non-negative step costs, any positive scores.
- PlanGenerators.PlanGenerator.DPPlan: does not model wrap-around of 64-bit costs; the cost of every
  connected order is taken to be in range.
- Csr.LoadCsr: does not model wrap-around of 32-bit offsets and edge counts.
- Databases.Database.BatchInsert: says when an allocation fails, and nothing about the store afterwards.
- Databases.Database.Build: the parsing that names the ids of a build is a parameter.
- MultiJoinLoop.MultiJoin.Run: predicate variables are joined by any predicate here, as in the code;
  their later binding is not part of this model.
- DepthFirst.LimitedResult: a LIMIT of at least one row.
- Candidate lists with duplicates, which one given id without distinct yields: `Solutions.EvalExact`
  excludes extensions that could repeat an id.
- Ids of a query's terms, the key-value store and its lists on disk: lookups are functions of the graph.
- Threads, locks and transactions: the three index updates run one after another, log operations are
  atomic; transactional batches, multi-version reads and top-k execution are not part of this model.
- Persistence of id information, indexes and logs; dropping and rebuilding a database in a cluster.
- `sub_num`, the texts of the string index, statistics and update logs of a batch, and single-triple insertion and removal.
- HTTP, gRPC and console interfaces, users, backups and schema generation.
