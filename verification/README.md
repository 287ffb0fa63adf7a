# Verified model of the mission core

A maritime search mission is planned by a language model, and a deterministic core decides what
the model may not: how many searches are owed and to whom, how the sea is cut into search boxes,
where a vessel may move, which agent job runs, which observation belongs to which contact, and how
much of the sea counts as covered. This project models that core in Dafny and proves what the core
is for.

To check the project, run `dafny verify dfyconfig.toml` in this directory.

## Parts

**Search budget** (`Matching`, `ShortestPaths`, `MinCostFlow`, `QuotaNetwork`, `QuotaConservation`,
`QuotaAssignment`, `CoverageConstraint`). Zone quotas are a minimum-cost maximum flow found by
Bellman-Ford augmentation. The proof carries prices: residual arcs never have negative reduced cost,
so labels settle one node a pass, predecessors form a tree, and the finished network certifies itself
twice, by a closed cut and by prices. From that follow, for every request, the most zones served and
the least transit among all ways to serve as many. The witnesses are then extended by augmenting
searches, and one dead region that no later success can wake certifies the maximum. The published
obligations can always be met together.

**Candidates** (`CandidateWindow`). The bounded window of candidates: greedy reserve, rotation over
zones, and filling up, with what a window that has room left leaves out.

**Partition of the search mask** (`Rectangles`, `Tilings`, `Partition`, `Merging`, `SearchPartition`).
The stack scan finds a largest rectangle for every mask; peeling, splitting, bounding and merging keep
exact tilings or say what is lost. How many parts each box gets, and which boxes are halved, is determined.

**Vessels** (`SegmentClip`, `SegmentSafety`, `Inflation`, `ShipMotion`, `ShipPlanner`, `Vessels`). Turning,
travel, guidance, path search and distances are functions the world supplies, and so are the tests of
segments and places, which have to say what the chart says: `ShipMotion.World.KnowsChart` ties them to the
land, the islands, the clearance and the gate, and `SegmentSafety.SegmentIsSafe` shows that the code's loops
compute that. On top of them: the planner that splices detours into a rolled-out reference, the braking
route, and the loop that executes a route against the chart in force. Every planned and every executed
segment keeps clear of land and islands, and leaves the chart through the gate only.

**Agent protocol** (`AgentQueue`, `Broker`, `BrokerRuns`, `FeedbackProtocol`, `Redaction`). The broker
is a class whose methods are proved against functions on its state, and those functions against all
interleavings. Feedback is a state machine over a channel that loses and repeats messages, from the
first arrival to the jobs a finished run leaves behind. Redaction of streamed text is compared with redaction of the whole text.

**Contacts** (`ContactRecords`, `ContactViews`, `ContactStore`, `ContactRuns`). The contact store with its
histories, archive, aliases, matches and reservations; every operation keeps the invariants, and a record of
matches kept beside the store says what every merge rests on. Over whole runs a UAV stays reserved for one
contact, up to one kind of operation that is given exactly.

**Coverage figures** (`CoverageZones`, `ZoneQuotas`, `CoverageMetrics`, `Responsibility`). Tiles, prefix
sums, quota lists, the matrix of last scans, and the agreement of the three places that count fresh cells.

`Finite` holds facts about finite sets and maps.

## Where the code does not do what one would expect

- Redacting streamed text piece by piece equals redacting the whole text only if the credential is no
  part of the text that replaces it, or does not occur (`Redaction.StreamingAgrees` gives both
  directions, and `Redaction.OneLetter` a run that differs): the published piece is redacted a second time.
- A contact that is not listed yet becomes tracked when a violation is confirmed for it, and the test for
  a UAV that is already reserved looks at listed contacts only. Without such a confirmation every state of
  every run reserves a UAV for one contact (`ContactRuns.Run`); after one, two reservations later it need not
  (`ContactRuns.Breach`, and `ContactRuns.DoubleBooking` from an empty store).
- A negative search limit makes the desired number of searches negative; building the constraint then
  fails in the checks of its own result. `CoverageConstraint.BuildConstraint` states this as the only
  refusal beside the listed ones, and `CoverageConstraint.NegativeLimitRefused` gives a request.

## Model

| member | source | states |
|---|---|---|
| Matching.Matcher.Visit | src/mission/coverage_policy.py:450-459 | one search from a task: on success the placed tasks are the old ones and this one, each on one UAV, and a dead region is left alone; on failure nothing changed and every UAV of the task is taken by tasks confined to the UAVs seen |
| Matching.Matcher.MatchAll | src/mission/coverage_policy.py:606-609 | one search per unplaced task gives a maximum matching along real edges, and no task placed before is unplaced |
| Matching.TakeOver | src/mission/coverage_policy.py:450-459 | when the blocking task finds a new place, its UAV passes on and the matching grows by exactly this task |
| Matching.Backtrack | src/mission/coverage_policy.py:450-459 | a blocking task that finds no place adds its UAV to the taken and confined ones |
| Matching.AfterSuccess | src/mission/coverage_policy.py:606-609 | a later success never wakes a dead region: a task that failed once can never be placed later |
| Matching.AfterFailure | src/mission/coverage_policy.py:606-609 | a failed search turns what it saw into a dead region that its task is confined to |
| Matching.DeadRegionBounds | src/mission/coverage_policy.py:448-459 | if all unplaced tasks are confined to one dead region, no other matching is larger |
| Matching.DeadRegionIsMaximum | src/mission/coverage_policy.py:606-609 | so the matching after the searches is maximum |
| ShortestPaths.DescendantsAreFarther | src/mission/coverage_policy.py:555-569 | labels reduced by prices only grow along predecessor links |
| ShortestPaths.RerankedIsRanked | src/mission/coverage_policy.py:565-567 | re-hanging a node keeps the predecessor links free of cycles unless it hangs above its new parent |
| ShortestPaths.RelaxKeepsTree | src/mission/coverage_policy.py:561-567 | improving one label keeps the predecessors a tree rooted at the source |
| ShortestPaths.RelaxKeepsFrontier | src/mission/coverage_policy.py:561-567 | improving one label touches neither a settled node nor the next one |
| ShortestPaths.ScanNode | src/mission/coverage_policy.py:557-567 | after scanning a node all its residual arcs are relaxed, and an unchanged scan changed nothing |
| ShortestPaths.Pass | src/mission/coverage_policy.py:555-569 | each pass settles one more node for good; a pass without change leaves every residual arc relaxed |
| ShortestPaths.NextExists | src/mission/coverage_policy.py:555-569 | while a node is unsettled, a closest one of those left exists |
| ShortestPaths.AlmostAllSettled | src/mission/coverage_policy.py:555-569 | one pass fewer than there are nodes is enough |
| ShortestPaths.Search | src/mission/coverage_policy.py:551-571 | the pass loop ends with every residual arc relaxed and the predecessors a tree over exactly the labelled nodes, for arcs of either sign |
| MinCostFlow.PushKeeps | src/mission/coverage_policy.py:575-577 | pushing a unit along an arc of no reduced cost keeps arcs paired, keeps prices valid, and moves one unit from tail to head |
| MinCostFlow.LabelPricesArePrices | src/mission/coverage_policy.py:551-571 | the labels of a finished search are prices that leave no residual arc with negative reduced cost |
| MinCostFlow.TreeLinksAreTight | src/mission/coverage_policy.py:572-578 | under those prices the predecessor links have no reduced cost |
| MinCostFlow.LabelledIsClosed | src/mission/coverage_policy.py:570-571 | if the sink is not labelled, no residual arc leaves the labelled nodes |
| MinCostFlow.Augment | src/mission/coverage_policy.py:572-578 | walking back from the sink pushes one unit along a path to the source, and the walk ends |
| MinCostFlow.AugmentKeepsFlow | src/mission/coverage_policy.py:572-578 | an augmentation keeps a priced flow and uses up capacity at the source |
| MinCostFlow.CutStopsWalks | src/mission/coverage_policy.py:570-571 | across a closed cut no residual walk leads from source to sink |
| MinCostFlow.Saturate | src/mission/coverage_policy.py:551-578 | the augmentation loop ends with valid prices, a closed cut and no residual walk left from source to sink |
| QuotaNetwork.QuotaOrderIsOrdered | src/mission/coverage_policy.py:434-446 | candidates are tried in the order of their least transit; the sort keeps all of them |
| QuotaNetwork.LabelsAreDistinct | src/mission/coverage_policy.py:494-508 | source, zones, task entries and exits, UAVs and sink are different nodes |
| QuotaNetwork.MakeNodes | src/mission/coverage_policy.py:494-508 | the node numbers handed out are exactly the positions of those nodes |
| QuotaNetwork.AddEdge | src/mission/coverage_policy.py:473-492 | an edge is added with its reverse, and its handle finds it |
| QuotaNetwork.AddEdgeKeepsBuilt | src/mission/coverage_policy.py:473-492 | adding an edge keeps the graph an image of the edges recorded so far |
| QuotaNetwork.BuildNetwork | src/mission/coverage_policy.py:494-549 | the graph has exactly the edges of the quota problem, each reachable from its recorded handle |
| QuotaConservation.OneIn | src/mission/coverage_policy.py:572-605 | a node with one incoming edge passes on exactly one unit if that edge is used, and none otherwise |
| QuotaConservation.OneOut | src/mission/coverage_policy.py:572-605 | a node with one outgoing edge takes in exactly one unit if that edge is used, and none otherwise |
| QuotaConservation.BalancedTurn | src/mission/coverage_policy.py:572-578 | unit changes that cancel out pair up: one entry turned means exactly one other turned |
| QuotaAssignment.SolvedConserves | src/mission/coverage_policy.py:551-578 | the used edges conserve flow at every zone, entry, exit and UAV |
| QuotaAssignment.FollowedIsAssignment | src/mission/coverage_policy.py:580-605 | following used edges serves zones with different tasks from their own lists on different UAVs |
| QuotaAssignment.UsedAreItsPaths | src/mission/coverage_policy.py:580-605 | the used edges are exactly the paths of that assignment: each saturated zone edge is one complete zone, task and UAV triple |
| QuotaAssignment.PricesGiveSlack | src/mission/coverage_policy.py:551-578 | under the final prices used edges cost at most nothing and unused ones at least nothing |
| QuotaAssignment.CutGivesSlack | src/mission/coverage_policy.py:570-571 | the same holds for the zero-one prices of the cut, with transit taken as free |
| QuotaAssignment.LightestEdges | src/mission/coverage_policy.py:551-578 | edges with that slack weigh no more than any other set |
| QuotaAssignment.SlackBounds | src/mission/coverage_policy.py:551-605 | hence no assignment has less priced cost than the one followed |
| QuotaAssignment.AtMostAsMany | src/mission/coverage_policy.py:551-605 | no assignment serves more zones |
| QuotaAssignment.AtLeastAsDear | src/mission/coverage_policy.py:551-605 | no assignment that serves as many costs less transit |
| QuotaAssignment.FlowIsOptimal | src/mission/coverage_policy.py:464-605 | the assignment read off a saturated network is maximum, and cheapest among the maximum ones |
| QuotaAssignment.LevelPricesArePrices | src/mission/coverage_policy.py:511-549 | the network before the first augmentation has no negative cycle, for costs of either sign |
| QuotaAssignment.FindCraft | src/mission/coverage_policy.py:583-596 | the UAV found is one whose edge is used; none is found only if no edge of the task is |
| QuotaAssignment.FindForZone | src/mission/coverage_policy.py:580-596 | the task and UAV found for a zone carry its unit; none is found only if the zone is not served |
| QuotaAssignment.Extract | src/mission/coverage_policy.py:580-605 | reading zone by zone follows the used edges exactly |
| QuotaAssignment.SolveQuotas | src/mission/coverage_policy.py:464-605 | the whole computation returns an optimal assignment for every quota problem |
| CoverageConstraint.CollectTransits | src/mission/coverage_policy.py:392-432 | per task and UAV the shortest transit of the feasible edges in scope, and per task with a known transit the least of them |
| CoverageConstraint.OrderIsByTransit | src/mission/coverage_policy.py:434-446 | with those least transits an earlier candidate offers a transit no longer than any of a later one, and one without a known transit comes after all with one |
| CoverageConstraint.UnknownTransitCost | src/mission/coverage_policy.py:511-516 | an edge of unknown transit costs a million more than any known one |
| CoverageConstraint.Prepare | src/mission/coverage_policy.py:386-432 | the quota problem has exactly the feasible edges between representatives and available UAVs |
| CoverageConstraint.CostMeans | src/mission/coverage_policy.py:511-547 | a pair costs the shortest transit reported for it, and one without a report more than every reported one |
| CoverageConstraint.WitnessesMatch | src/mission/coverage_policy.py:597-605 | the witnesses of an assignment are a matching that places the served tasks |
| CoverageConstraint.Publish | src/mission/coverage_policy.py:580-605 | requirements, unserved zones, must-service tasks and witnesses are those of the assignment, in zone order |
| CoverageConstraint.BuildConstraint | src/mission/coverage_policy.py:306-638 | a request is refused exactly if some listed number is bad, the zones considered repeat, or the count wanted is negative; otherwise the count wanted is the fraction of the fleet rounded up, or the limit if smaller, required is what is missing of it as far as tasks can be placed, the diverted part is rounded down, tasks come in the order first listed, served zones and unserved ones in zone order, and the answer rests on an optimal quota assignment of the first zones and a maximum matching that keeps its witnesses |
| CoverageConstraint.WantedIs | src/mission/coverage_policy.py:378-381 | the count wanted is the one integer that rounds the share of the fleet up, cut off at the limit; the fleet are the different available UAVs unless counted |
| CoverageConstraint.RefusedMeans | src/mission/coverage_policy.py:319-386 | refused for no other reason than those, stated over the fields of the request |
| CoverageConstraint.AnswerMeans | src/mission/coverage_policy.py:378-638 | the numbers, the order of tasks, the zones and the must-service tasks of an answer, stated over the request, the assignment and the matching alone |
| CoverageConstraint.NegativeLimitRefused | src/mission/coverage_policy.py:374-381 | a request with nothing listed against it, and a limit of minus one: its desired count is negative |
| CoverageConstraint.AnswersAccepted | src/mission/contracts.py:649-716 | every check the constraint makes of itself passes |
| CoverageConstraint.MustServiceFits | src/mission/coverage_policy.py:617-621 | must-service tasks are distinct, placed together, and no more than the searches required |
| CoverageConstraint.ObligationsAreSatisfiable | src/mission/coverage_policy.py:609-638 | some matching covers exactly the required number of representatives and includes every must-service task |
| CoverageConstraint.FeasibleMeansBudgetMet | src/mission/coverage_policy.py:609-616 | no reason for infeasibility is given if and only if the residual budget is required in full |
| CandidateWindow.Firsts | src/mission/coverage_policy.py:166-173 | one candidate per non-empty ID, the first |
| CandidateWindow.GroupByZone | src/mission/coverage_policy.py:194-200 | one group per zone, in the order the zones come up, with the tasks of the zone in order; nothing with a zone is lost |
| CandidateWindow.PreferredByKey | src/mission/coverage_policy.py:200-204 | a group is sorted by intent and then containment |
| CandidateWindow.ByKeyMeans | src/mission/coverage_policy.py:200-204 | what is intended comes first, and among equals what the zone contains entirely |
| CandidateWindow.PickNext | src/mission/coverage_policy.py:208-216 | the next task of a group that overlaps nothing taken; the ones passed over all overlap |
| CandidateWindow.RestAdvance | src/mission/coverage_policy.py:207-216 | moving an index on takes exactly the tasks passed out of what is left |
| CandidateWindow.Rotate | src/mission/coverage_policy.py:205-217 | the rotation ends; what it takes is pairwise disjoint, what it leaves overlaps what it takes, rounds visit groups in order with one pick each, and a group picked from in a round was picked from in every round before |
| CandidateWindow.RotateZones | src/mission/coverage_policy.py:187-217 | the same over the zones of the ordinary work: taken and left together are all of it that has a zone |
| CandidateWindow.TakeRepresentatives | src/mission/coverage_policy.py:219-231 | the reserve is what taking the pool in its order yields: pairwise disjoint and within its limit; below the limit every task has been settled |
| CandidateWindow.ReserveLeftOut | src/mission/coverage_policy.py:219-231 | a task of the pool that was left out overlaps one taken before it in that order, or comes after all that were taken |
| CandidateWindow.LeftOut | src/mission/coverage_policy.py:241-267 | the same for the two fills: what is left out did not fit beside what was taken before it, or came when the window was full |
| CandidateWindow.FillOrdinary | src/mission/coverage_policy.py:241-259 | ordinary work is added only where it overlaps nothing; with room left none that fits is missing |
| CandidateWindow.FillUrgent | src/mission/coverage_policy.py:261-267 | with room left no urgent task is missing, and no ordinary one was added |
| CandidateWindow.Represent | src/mission/coverage_policy.py:269-282 | the last overlap filter drops no ordinary task of the window |
| CandidateWindow.TakenAll | src/mission/coverage_policy.py:219-231 | of a pool without overlaps nothing is refused but for the limit |
| CandidateWindow.SelectWindow | src/mission/coverage_policy.py:142-293 | the window is the first urgent tasks, then the reserve taken from the pool in ranking or rotation order, then ordinary and urgent work taken as ranked: at most capacity tasks, unique, ordinary ones pairwise disjoint and all of them representatives; a window with room left has every urgent task and every ordinary one that has a box overlapping nothing in it; both kinds keep their share; the checks of the window pass |
| Rectangles.BetterIsTotal | src/mission/coverage_partition.py:43-52 | the comparison of rectangles is a strict total order, so the best one is determined |
| Rectangles.ContainerIsNoWorse | src/mission/coverage_partition.py:37-52 | a rectangle is at least as good as any it contains |
| Rectangles.Popped | src/mission/coverage_partition.py:41-50 | offering a popped bar keeps the best at least as good as every rectangle ending before this column |
| Rectangles.NextOpen | src/mission/coverage_partition.py:41-52 | after a push every bar that can still grow is on the stack |
| Rectangles.ScanRow | src/mission/coverage_partition.py:37-52 | one row of the stack scan is at least as good as every free rectangle standing on the row |
| Rectangles.LargestRectangle | src/mission/coverage_partition.py:33-54 | for every mask with a free cell, a free rectangle of maximum area with ties resolved by shorter side and coordinates; none only if no cell is free |
| Tilings.IntersectsIsSharing | src/mission/coverage_partition.py:101-102 | the comparison decides exactly whether two rectangles share a cell |
| Tilings.TilesOnce | src/mission/coverage_partition.py:33-56 | in a tiling a cell lies in one box only |
| Tilings.JoinSeparate | src/mission/coverage_partition.py:152-175 | families inside separate boxes are separate together |
| Tilings.SortIsSorted | src/mission/coverage_partition.py:57 | the final orders are orders, and keep all boxes |
| Tilings.SortedMeans | src/mission/coverage_partition.py:33-56 | larger boxes first and then by corners, or by corners alone |
| Partition.Peel | src/mission/coverage_partition.py:33-56 | each peeled box is the largest of what the ones before it left, and peeling ends with nothing left |
| Partition.PeelingTiles | src/mission/coverage_partition.py:33-56 | such a peeling has every free cell in exactly one box and no blocked cell |
| Partition.ChooseCut | src/mission/coverage_partition.py:160-170 | the cut chosen is the best legal one; none is chosen only if there is none |
| Partition.BestCutMeans | src/mission/coverage_partition.py:160-170 | the best cut leaves its first part closest to its share of the cells; of equally close ones it takes the longer side, then the first axis, then the first offset |
| Partition.PartsHaveRoom | src/mission/coverage_partition.py:155-159 | either part of a legal cut has a cell for each of its pieces |
| Partition.Split | src/mission/coverage_partition.py:152-175 | the parts are those of the recursive best cuts, and the recursion ends |
| Partition.SplitDissects | src/mission/coverage_partition.py:152-175 | the parts dissect the box exactly, at least one and at most as many as asked |
| Partition.SplitIsUnique | src/mission/coverage_partition.py:152-175 | a box and a count have one splitting |
| SearchPartition.GrowCounts | src/mission/coverage_partition.py:83-89 | slots are handed out to the neediest box, ties to the earlier one, until none is left or no box has room: no slot would have been worth more in another box |
| SearchPartition.FairMeans | src/mission/coverage_partition.py:83-89 | the cells per slot of a box that got several are no fewer than another box with room would have with one slot more |
| SearchPartition.FairCountsAreUnique | src/mission/coverage_partition.py:83-89 | handing out to the neediest, the number of slots determines how many each box gets |
| SearchPartition.SplitAll | src/mission/coverage_partition.py:90-92 | the parts are the splittings of the boxes one after the other; they refine the boxes and are no more than the slots handed out |
| SearchPartition.PartsAreUnique | src/mission/coverage_partition.py:90-92 | boxes and counts determine the parts |
| SearchPartition.RefinedTiles | src/mission/coverage_partition.py:83-93 | parts that refine a tiling tile the same cells |
| SearchPartition.BoundedParts | src/mission/coverage_partition.py:58-66 | each box is split for the number of parts the bounds demand; the parts refine the boxes and are no more than those numbers add up to |
| SearchPartition.NeededIsLeast | src/mission/coverage_partition.py:60-64 | that number is the least with which the parts keep the area bound and are at most twice as long as wide, on average |
| SearchPartition.WholeStays | src/mission/coverage_partition.py:58-66 | a box that needs one part stays whole |
| SearchPartition.CeilDivIsCeiling | src/mission/coverage_partition.py:61-63 | negated floor division of the negated area rounds up |
| SearchPartition.HalveLargest | src/mission/coverage_partition.py:71-80 | each step halves the first of the largest boxes, until the slots are used, no box is large enough, or that box cannot be halved; boxes stay disjoint, inside the mask and within the bounds |
| SearchPartition.RefinedCount | src/mission/coverage_partition.py:83-93 | a refinement has at least as many parts as boxes |
| SearchPartition.PartitionSearchMask | src/mission/coverage_partition.py:9-93 | refused for exactly the bad parameters; without bounds an exact tiling by splitting the peeled boxes for slots handed out to the neediest, or a merge from the peeled boxes; with bounds disjoint boxes inside the mask within the bounds, by splitting, dropping what is out of bounds, and halving or merging |
| SearchPartition.MergedPartition | src/mission/coverage_partition.py:112-149 | a merged partition has exactly one box per slot, pairwise apart, and loses no cell except with a dropped box |
| Merging.FindSmallest | src/mission/coverage_partition.py:123-126 | the smallest box by area and coordinates |
| Merging.SmallestMeans | src/mission/coverage_partition.py:123-126 | no box has fewer cells; ties go to the first by corners, then by place |
| Merging.FindTarget | src/mission/coverage_partition.py:127-142 | the best neighbour to merge with; none only if every union would overlap a third box |
| Merging.BestTargetMeans | src/mission/coverage_partition.py:127-140 | the union takes in the fewest other cells, ties to the last box |
| Merging.MergeToSlots | src/mission/coverage_partition.py:112-149 | merging ends with exactly the slots, by steps that unite two boxes or drop one without a legal neighbour |
| Merging.AppendSeparate | src/mission/coverage_partition.py:143-146 | a box apart from all boxes of a list joins them |
| Merging.StepKeeps | src/mission/coverage_partition.py:112-149 | each step keeps boxes apart, and covered cells covered unless their box is dropped |
| Merging.RunKeeps | src/mission/coverage_partition.py:112-149 | so does a whole run, one box fewer per step |
| SegmentClip.IntersectsBox | src/env/ship_navigation.py:162-177 | the clipping loop decides exactly whether a point of the closed segment lies in the closed box, displacements below the tolerance taken as zero |
| SegmentClip.IntersectsSegment | src/env/obstacle.py:63-87 | the clipping loop over four sides decides exactly the same for an island |
| SegmentClip.StraightenedIsSame | src/env/ship_navigation.py:167-170 | a displacement that is zero or above the tolerance on each axis is not changed |
| SegmentSafety.MetInWindow | src/env/ship_navigation.py:194-202 | a land cell whose box the segment meets lies in the scanned window |
| SegmentSafety.ExitGate | src/env/ship_navigation.py:139-150 | the gate is that of the border the open route ends on, on water |
| SegmentSafety.GateOfFits | src/env/ship_navigation.py:139-150 | a gate lies on the side of the chart it is for |
| SegmentSafety.ExitedMeans | src/env/ship_navigation.py:139-161 | a vessel has left when it is beyond the border of the end point, less than half a cell from it along the border |
| SegmentSafety.LandClear | src/env/ship_navigation.py:194-202 | scanning the window gives the verdict of scanning the whole mask |
| SegmentSafety.LeavingMoves | src/env/ship_navigation.py:184-187 | a segment that leaves the chart moves along the axis of the gate, so the crossing is defined |
| SegmentSafety.CrossingMeans | src/env/ship_navigation.py:185-189 | the crossing is where the line through both ends meets the border |
| SegmentSafety.SegmentIsSafe | src/env/ship_navigation.py:139-203 | safe if and only if both ends are on the chart or through the gate, leaving crosses the gate, and islands and land are cleared |
| Inflation.GrownIsNear | src/env/ship_navigation.py:213-218 | the grown land is exactly the cells within the radius of a land cell along both axes |
| Inflation.InflatedMask | src/env/ship_navigation.py:205-218 | the loops draw the islands in and grow the land by the clearance rounded up |
| ShipMotion.SafeIsClear | src/env/ship_navigation.py:179-203 | in a world that knows its chart, states joined by safe segments keep the clearance from land and islands, and leave through the gate only |
| ShipMotion.NoPointNear | src/env/ship_navigation.py:189-203 | no point of a clear leg comes as near as the clearance to a land cell or an island |
| ShipMotion.OpenWaterIsSafe | src/env/ship_navigation.py:179-203 | on a chart without land and islands every way that stays on the chart is safe |
| ShipMotion.BrakingSlows | src/env/ship_navigation.py:58-79 | braking takes off a full step of speed or stops the vessel |
| ShipMotion.NextSpeedMeans | src/env/ship_navigation.py:58-79 | the speed changes by no more than the acceleration allows, or the vessel stops |
| ShipMotion.SpeedReached | src/env/ship_navigation.py:58-79 | a speed within reach is reached, in full on a straight way and less the loss in the tightest turn |
| ShipMotion.CanStop | src/env/ship_navigation.py:460-470 | true if and only if braking straight ahead is safe until the vessel stands or has left; the loop ends |
| ShipMotion.CanBrakeMeans | src/env/ship_navigation.py:460-470 | the vessel can brake if and only if some number of safe braking steps brings it to a stop or off the chart |
| ShipMotion.ChainAppend | src/env/ship_navigation.py:310-322 | obeying one more command continues a chain |
| ShipMotion.SafeAppend | src/env/ship_navigation.py:472-500 | one more safe segment keeps all segments safe |
| ShipMotion.ChainSplice | src/env/ship_navigation.py:434-441 | a chain cut at a state and continued by a chain from that state is a chain |
| ShipMotion.StepTaken | src/env/ship_navigation.py:310-322 | a step is never shorter than the resolution of the clock, and takes one off those left |
| ShipPlanner.ReferenceIsSound | src/env/ship_navigation.py:310-322 | however far the reference is rolled out, it is a chain with one cursor per state |
| ShipPlanner.ReferenceFollows | src/env/ship_navigation.py:310-350 | every step of the reference follows the orders at its time: heading, speed, duration and next cursor |
| ShipPlanner.FindCollision | src/env/ship_navigation.py:355-356 | the first unsafe segment; none only if all are safe |
| ShipPlanner.ExtendedStep | src/env/ship_navigation.py:373-385 | a step of the look-ahead is safe or its end is the first collision |
| ShipPlanner.Preview | src/env/ship_navigation.py:367-386 | a clear look-ahead changes nothing and reaches the approach time or the end of the reference; otherwise the lists grow by exactly what was looked at, up to the first collision |
| ShipPlanner.TurningRadiusMeans | src/env/ship_navigation.py:355-360 | the radius adds up the tightest turn, the way sailed while it sets in and that while the heading settles |
| ShipPlanner.ApproachTimeMeans | src/env/ship_navigation.py:367-374 | the look-ahead covers three radii and the clearance twice, once rounded up |
| ShipPlanner.Approach | src/env/ship_navigation.py:392-395 | the anchor is the first state, going back, with room to turn |
| ShipPlanner.Candidates | src/env/ship_navigation.py:401-402 | exactly the states behind the collision with room around them, in order |
| ShipPlanner.ExtendUntilRoomy | src/env/ship_navigation.py:403-410 | the lists grow along the reference until a candidate is far enough away or the reference ends |
| ShipPlanner.Goals | src/env/ship_navigation.py:416-420 | the first, middle and last of the far candidates in order, or of all candidates, the furthest first, if none is far |
| ShipPlanner.Corner | src/env/ship_navigation.py:484-489 | progress along the path never goes back, and the target is the first corner out of reach ahead |
| ShipPlanner.FollowGeometry | src/env/ship_navigation.py:472-500 | the drive along the path: in whole steps at one speed, each towards the first corner out of reach, safe all along, ending at the first state near the end of the path; none if and only if there is no such drive |
| ShipPlanner.DrivesOnce | src/env/ship_navigation.py:472-500 | a path has at most one drive |
| ShipPlanner.NoDrive | src/env/ship_navigation.py:472-500 | a course that cannot go on safely, or has used up its steps, leads to no drive |
| ShipPlanner.ResumedIsSound | src/env/ship_navigation.py:442-452 | resuming keeps the chain, keeps what came before, and repeats the durations and speeds of the commands resumed |
| ShipPlanner.ResumedFollows | src/env/ship_navigation.py:442-452 | every resumed step steers as ordered at its time |
| ShipPlanner.Resume | src/env/ship_navigation.py:442-452 | the loop computes exactly that continuation |
| ShipPlanner.StitchedIsSound | src/env/ship_navigation.py:434-441 | approach and detour together are a safe chain with one cursor per state |
| ShipPlanner.SpliceIsSound | src/env/ship_navigation.py:421-452 | a splice keeps a chain a chain from the same state, is safe up to its rejoin, and keeps the pace of what it rejoins |
| ShipPlanner.DetouredIsSound | src/env/ship_navigation.py:354-458 | so does any number of nested splices |
| ShipPlanner.Detour | src/env/ship_navigation.py:421-452 | one attempt gives the splice by the drive along the path found, if the path is found and its drive arrives, and nothing otherwise |
| ShipPlanner.DetourOnce | src/env/ship_navigation.py:421-452 | anchor and goal determine the splice |
| ShipPlanner.Repair | src/env/ship_navigation.py:352-457 | a line is repaired if and only if it can be: it is safe, or around its first unsafe segment one of the chosen goals has a path whose drive arrives and whose splice can be repaired one level deeper; the result is that of the first such goal, safe, with at most eight splices; safe lists come back themselves after looking ahead, and lists given to a nested repair are not extended |
| ShipPlanner.MendsToOnce | src/env/ship_navigation.py:352-457 | what a line is repaired to is determined, and only a line that can be repaired is repaired to anything |
| ShipPlanner.RollReference | src/env/ship_navigation.py:281-288 | the nominal reference is rolled out until its horizon or off the chart |
| ShipPlanner.ChainIsRollout | src/env/ship_navigation.py:272-308 | motion is deterministic: a chain is the rollout of its commands |
| ShipPlanner.RolloutPrefix | src/env/ship_navigation.py:272-308 | a rollout of fewer commands is the beginning of the rollout of all |
| ShipPlanner.Brake | src/env/ship_navigation.py:502-521 | a safe chain of full steps with the wheel held and no speed asked, for the whole time unless the next step is not safe |
| Vessels.SafeRouteIsClear | src/env/ship_navigation.py:272-308 | every leg of a safe route is clear of the land and islands of the chart |
| Vessels.FindLine | src/env/ship_navigation.py:281-302 | the line followed is what the reference is repaired to, if it ends where the vessel can brake; none is found if and only if the reference cannot be repaired or ends where braking is not safe; it is clear of land and islands |
| Vessels.Navigator.BrakingRoute | src/env/ship_navigation.py:502-521 | a safe and clear route that only brakes, stamped with chart and generation, without cursors |
| Vessels.Navigator.Plan | src/env/ship_navigation.py:272-308 | ready if and only if the reference can be repaired to a line that ends where the vessel can brake, and then it is that line; otherwise it brakes. Every route is a safe rollout from the given state, clear of the land and islands of the chart in force; a later generation makes every earlier route stale |
| Vessels.PlannedStep | src/env/ship.py:384-387 | one more command of a safe route is safe |
| Vessels.NextFits | src/env/ship.py:382-383 | while time is left of whole commands, the next command fits whole |
| Vessels.WholeOrShort | src/env/ship.py:370-383 | commands that fill a time up to the clock resolution fill it exactly |
| Vessels.FreshIsCurrent | src/env/ship.py:352-361 | a route planned for the vessel as it is passes the stale check |
| Vessels.Ship.Guard | src/env/ship.py:345-351 | which navigator guards an execution |
| Vessels.TripIsClear | src/env/ship.py:384-412 | a trip keeps the clearance from land and islands, stays on the chart until the vessel departs, and is then beyond the gate |
| Vessels.Ship.Adopt | src/env/ship.py:345-364 | a route from another state, of another generation or ship, planned earlier, or on another chart than the one in force is not ready and replaced by braking; a fresh one is kept |
| Vessels.Ship.Execute | src/env/ship.py:364-413 | the loop ends; the vessel moves along checked safe segments only, stops where it leaves the chart, uses the time unless braking on is not safe, never reads a cursor out of range, follows a followable route command by command, and otherwise only brakes |
| Vessels.HeadingHeld | src/env/ship.py:370-404 | braking holds the old heading for the whole time if and only if it is never given up, or given up at a state of the same heading; it is given up only where a braking step on that heading is not safe |
| Vessels.Ship.Advance | src/env/ship.py:341-417 | an out-of-date route, by its fields, leaves the vessel not ready: every command executed asks for no speed, with the heading held until braking on that heading is not safe, and no cursor moves; the trip is clear of the land and islands of the chart in force and leaves it through the gate only; a fresh route for whole commands is reproduced pose by pose with its cursor |
| Vessels.Ship.Step | src/env/ship.py:423-439 | a vessel that plans and goes follows its own plan exactly for whole commands, clear of the land and islands it is given |
| Broker.AgentBroker.Enqueue | adapter/broker.py:174-230 | the queue after enqueueing: merged into a queued job of the same kind, or appended within the list limit |
| Broker.EnqueuedMeans | adapter/broker.py:174-230 | operator jobs and the first waiting one of a kind are appended, the oldest beyond forty fall off; any other replaces the text of the first waiting one of its kind |
| Broker.AgentBroker.QueueHuman | adapter/broker.py:232-255 | empty text refused; feedback for the active run, or a job of its own; a full feedback list refused |
| Broker.HumanMeans | adapter/broker.py:232-255 | text goes to the run still running unless eight messages wait or were accepted there, and becomes an operator job if nothing runs |
| Broker.AgentBroker.ExpireLeases | adapter/broker.py:267-282 | exactly the running jobs whose lease is over fail |
| Broker.AgentBroker.FindNext | adapter/broker.py:297-307 | the first of the highest-ranking eligible jobs; none only if no job is eligible |
| Broker.AgentBroker.ClaimNext | adapter/broker.py:284-319 | a poll starts the next eligible job only if nothing runs and no plan is pending |
| Broker.AgentBroker.ActiveRun | adapter/broker.py:321-327 | accepted if and only if the run is listed, running and of this episode |
| Broker.AgentBroker.Heartbeat | adapter/broker.py:329-356 | an accepted heartbeat renews the lease and acknowledges; any other changes nothing |
| Broker.AgentBroker.Cancel | adapter/broker.py:358-379 | exactly the targeted queued and running jobs are cancelled |
| Broker.AgentBroker.Complete | adapter/broker.py:381-432 | a run ends once; feedback left over becomes jobs of its own |
| Broker.AgentBroker.SubmitPlan | adapter/broker.py:469-525 | the new plan is approved at once if and only if the caller said yes, or said nothing in mode full, or a grant has its kind and domain, and waits for approval otherwise; it carries what was submitted, and nothing else changes |
| Broker.AgentBroker.SetAutonomyMode | adapter/broker.py:447-460 | an unknown mode is refused; a new one ends every grant |
| Broker.AgentBroker.ExpirePlans | adapter/broker.py:527-542 | exactly the pending plans past their time expire |
| Broker.AgentBroker.DecidePlan | adapter/broker.py:544-601 | refused without a comment, for an unknown plan or one not pending; otherwise decided once |
| Broker.DecidedMeans | adapter/broker.py:544-601 | what a decision does to the plan, the grants and the job, stated over their fields |
| BrokerRuns.StepSound | adapter/broker.py:174-601 | every step of the broker keeps its invariants and undoes nothing |
| BrokerRuns.RunSound | adapter/broker.py:174-601 | so every state of every run has them |
| BrokerRuns.RunOnward | adapter/broker.py:174-601 | and later states only continue earlier ones |
| BrokerRuns.ReachableQueue | adapter/broker.py:174-319 | in every interleaving one listed job runs at most, each run starts at most once, and each material kind has one queued job at most |
| BrokerRuns.StoppedStaysStopped | adapter/broker.py:321-386 | a run that stopped is never accepted again |
| BrokerRuns.DecidedStaysDecided | adapter/broker.py:527-601 | a plan leaves pending approval once, and its record never changes again |
| BrokerRuns.GrantsRest | adapter/broker.py:447-601 | in every run a grant is in force if and only if a plan of its kind and domain was approved for the session, with no change of mode since and no later such approval of that kind |
| BrokerRuns.ApprovalRests | adapter/broker.py:469-525 | so a plan is approved at once if and only if asked for, or by mode full, or by such an approval before it |
| BrokerRuns.NothingClaimedWhilePending | adapter/broker.py:284-296 | no poll starts anything while a plan is pending |
| BrokerRuns.ClaimMeans | adapter/broker.py:284-319 | a claimed job is an operator job whenever one waits, and no routine job while routine work is deferred; it is claimed for fifteen seconds; with nothing in the way something is claimed while an operator job waits |
| BrokerRuns.FirstComeFirst | adapter/broker.py:297-307 | of waiting jobs of a kind and source the first listed is claimed |
| BrokerRuns.BeatRenews | adapter/broker.py:329-356 | an accepted heartbeat makes the run last fifteen seconds more |
| BrokerRuns.LeaseHolds | adapter/broker.py:267-282 | a run looked at only before its lease is over, and neither cancelled nor completed, keeps running |
| FeedbackProtocol.FeedbackDelivery.Deliver | harness/agent/bridge.ts:124-133 | items not delivered yet go to the session in order; a session that fails stops the delivery |
| FeedbackProtocol.FeedbackDelivery.ConfirmAcknowledged | harness/agent/bridge.ts:135-136 | exactly the confirmed items are no longer pending |
| FeedbackProtocol.DeliverKeeps | harness/agent/bridge.ts:124-133 | delivering keeps the session free of repetitions and what was confirmed confirmed |
| FeedbackProtocol.AcknowledgeConserves | adapter/broker.py:329-356 | acknowledging moves items and loses none |
| FeedbackProtocol.MoveGood | harness/agent/bridge.ts:117-137 | every loss, repetition or answer keeps the protocol invariant |
| FeedbackProtocol.FeedbackSafety | harness/agent/bridge.ts:117-137 | over any loss or repetition no item reaches the session twice, an accepted one was delivered, and pending and accepted together are all that arrived |
| FeedbackProtocol.InboxHeld | harness/agent/worker.ts:95-105 | only an answered heartbeat changes what the worker keeps |
| FeedbackProtocol.FinalHeartbeat | harness/agent/worker.ts:95-105 | in every history, once the last answered heartbeat has found the session idle nothing is left to acknowledge, whatever is lost, repeated or arrives before or after |
| FeedbackProtocol.CompletionRequeues | adapter/broker.py:415-432 | then a successful run requeues exactly what never reached the session and a failed one everything, in order |
| FeedbackProtocol.RequeuedJobs | adapter/broker.py:415-432 | requeueing makes one operator job per item, in order |
| FeedbackProtocol.LeavesWhatIsMissing | adapter/broker.py:415-432 | what is requeued is in order of arrival and is exactly what never reached the session, or after a failure all that arrived, once each |
| FeedbackProtocol.FinishedMakes | adapter/broker.py:415-432 | completing a run makes one new operator job per item left and touches no other job |
| FeedbackProtocol.RunEnds | adapter/broker.py:415-432 | so a run completed at any time after that heartbeat makes a job of its own for each item that never reached the session, and after a failure for each other one too |
| FeedbackProtocol.HeartbeatRun | harness/agent/worker.ts:95-105 | a heartbeat that nothing disturbs is the moves of the protocol one after the other: sent with what is to be acknowledged, processed by the broker, answered |
| Redaction.HeldLength | harness/agent/bridge.ts:51-57 | the longest end that may be the start of a credential |
| Redaction.HeldIsUnique | harness/agent/bridge.ts:51-57 | that length is determined |
| Redaction.PublicEventProjector.ProjectDelta | harness/agent/bridge.ts:49-61 | one piece in: the redacted text less what is held back is published, redacted once more |
| Redaction.CutIsFinal | harness/agent/bridge.ts:49-61 | what is cut off before the held end is the same whatever text follows |
| Redaction.CutsAndHeldAddUp | harness/agent/bridge.ts:49-61 | pieces and held end add up to the redaction of the whole text, for every way of cutting it |
| Redaction.NoneLeft | harness/agent/config.ts:16-18 | redacted text has no occurrence left if the credential is no part of the marker |
| Redaction.SecondPassIdle | harness/agent/bridge.ts:107 | the second redaction then changes nothing |
| Redaction.SecondPassAdds | harness/agent/bridge.ts:107 | otherwise it only adds text |
| Redaction.StreamingAgrees | harness/agent/bridge.ts:49-61 | what is published and held adds up to the redaction of the whole text if and only if the credential is no part of the marker or does not occur |
| Redaction.OneLetter | harness/agent/bridge.ts:49-61 | a credential that is a letter of the marker, and a text of that letter: what is published is not the redacted text |
| ContactRecords.TrimSplits | src/mission/contact_store.py:509-515 | trimming a history of distinct samples splits it into what is retained and what is archived, nothing lost or doubled |
| ContactRecords.RetainedAreLatest | src/mission/contact_store.py:509-514 | what is retained is in time order, in the window, at most so many, and the latest of those |
| ContactRecords.VelocityOnCourse | src/mission/contact_store.py:517-534 | on a straight course the estimated velocity is the true one |
| ContactRecords.PredictedOnCourse | src/mission/contact_store.py:446-450 | and the vessel is predicted where it will be |
| ContactRecords.ObservedMeans | src/mission/contact_store.py:487-507 | a sample spreads the times over it, finds a lost contact if recent, and changes nothing else but the estimate |
| ContactRecords.MergedMeans | src/mission/contact_store.py:536-571 | a merge keeps the later assessment with its conclusions, the earliest and latest times, and the UAV of the AIS contact or else the other; a harmless vessel is cleared and freed |
| ContactViews.Revised | src/mission/contact_store.py:573-586 | rewriting a contact and archiving part of its history keeps every invariant |
| ContactViews.Appended | src/mission/contact_store.py:487-507 | so does a new sample |
| ContactViews.Archived | src/mission/contact_store.py:488-491 | and a sample too old for a history |
| ContactViews.Created | src/mission/contact_store.py:314-322 | and a new contact |
| ContactViews.PairsBroken | src/mission/contact_store.py:468-470 | and the end of matches |
| ContactViews.PairMatched | src/mission/contact_store.py:474-484 | and a first match |
| ContactViews.SecondMatch | src/mission/contact_store.py:481-485 | the second match is of the same pair, later and within the gap, with nothing about the visual contact in between |
| ContactViews.PairMerged | src/mission/contact_store.py:536-571 | so does a merge: the alias ends at a contact with an MMSI and the samples of both are kept |
| ContactViews.OrderlyMerged | src/mission/contact_store.py:538-560 | a merge keeps UAVs exclusive |
| ContactViews.AcceptedOnce | src/mission/contact_store.py:487-515 | an accepted sample is once in the archive and in no history, or once in exactly one history and not in the archive; others are nowhere |
| ContactViews.AliasDepth | src/mission/contact_store.py:285-288 | an alias leads in one step to a live contact with an MMSI, after two matches at increasing times within the gap |
| ContactViews.MmsiExclusive | src/mission/contact_store.py:337-343 | an MMSI belongs to one contact |
| ContactStore.ContactStore.Resolve | src/mission/contact_store.py:285-288 | following aliases ends, after at most one step, at a contact for every known ID |
| ContactStore.ContactStore.FindNearest | src/mission/contact_store.py:452-472 | a contact is found if and only if it is inside the gate and first in line with the next one further off than the margin; ambiguous if and only if some contact is inside the gate but none so; then exactly the matches of the contacts within reach end |
| ContactStore.ContactStore.Trim | src/mission/contact_store.py:509-515 | the history kept and the archive after trimming |
| ContactStore.ContactStore.Create | src/mission/contact_store.py:314-322 | a contact that is not listed, found by its MMSI if it has one |
| ContactStore.ContactStore.Append | src/mission/contact_store.py:487-507 | a sample enters one history, or the archive if and only if it is older than the window |
| ContactStore.ContactStore.Report | src/mission/contact_store.py:336-356 | a new report goes to the contact with its MMSI, made if there is none, and to the archive if too old |
| ContactStore.ContactStore.MergeContacts | src/mission/contact_store.py:536-571 | the merged contact, its history and what is archived; the other contact becomes an alias |
| ContactStore.ContactStore.Match | src/mission/contact_store.py:477-485 | a contact is merged if and only if this is the second match of the pair within the gap |
| ContactStore.ContactStore.Confirm | src/mission/contact_store.py:474-485 | no match ends the pair; a match not later than the last changes nothing; the second of a pair in time merges the contacts as stated; any other is recorded |
| ContactStore.ContactStore.BreakOthers | src/mission/contact_store.py:361-363 | exactly the matches that others had with the AIS contact end |
| ContactStore.ContactStore.IngestAis | src/mission/contact_store.py:328-372 | malformed reports refused; a repeated one changes nothing; a new one joins the history of the contact of its MMSI, and if in time is matched with the one unidentified contact clearly meant when the reporting contact is clearly meant in turn: merged if and only if the pair was matched earlier within the gap, else recorded; otherwise that contact loses its match, and no other keeps one with this vessel; every invariant is kept |
| ContactStore.ContactStore.IngestVisual | src/mission/contact_store.py:374-444 | a repeated detection changes nothing; a new one joins the associated contact if expected there, else the one sighted contact clearly meant, else a new one; if in time, without MMSI, not the associated one and not ambiguous, it is matched with the one identified contact clearly meant, merged if and only if the pair was matched earlier within the gap and else recorded; otherwise its match ends; every invariant is kept |
| ContactStore.ContactStore.IngestPassive | src/mission/contact_store.py:141-234 | a repeated position changes nothing; a new one moves the contact of its track and is no sample; every invariant is kept |
| ContactStore.ContactStore.Expire | src/mission/contact_store.py:573-586 | every listed history is trimmed and exactly the contacts unseen for too long are lost, with their reservations |
| ContactStore.ContactStore.Reserve | src/mission/contact_store.py:588-605 | granted if and only if the contact is open, past its cooldown, not reserved otherwise and the UAV is free among listed contacts; UAVs stay exclusive |
| ContactStore.ContactStore.TransitionReservation | src/mission/contact_store.py:607-628 | granted to the owner of the reservation only |
| ContactStore.ContactStore.Release | src/mission/contact_store.py:630-647 | the reservation ends, with a cooldown for the listed reasons |
| ContactStore.ContactStore.ApplyAssessment | src/mission/contact_store.py:664-726 | accepted if and only if it fits the present history and probe; a harmless vessel is cleared and released |
| ContactStore.ContactStore.ApplyDimensions | src/mission/contact_store.py:728-793 | no reservation changes, so UAVs stay exclusive at once; the order that keeps them exclusive later (exclusive, and unlisted contacts idle) survives if and only if the contact is listed or no violation is confirmed |
| ContactStore.BookTwice | src/mission/contact_store.py:588-605 | with a tracked contact that is not listed, one UAV can be reserved twice |
| ContactRuns.Operate | src/mission/contact_store.py:328-793 | every operation keeps every invariant, and keeps the order of reservations unless it confirms a violation of a contact that is not listed |
| ContactRuns.Run | src/mission/contact_store.py:328-793 | in every run a UAV is reserved for at most one contact, in every state before which no violation was confirmed of a contact that is not listed |
| ContactRuns.Breach | src/mission/contact_store.py:588-793 | from any orderly state, a violation confirmed of a contact that is not listed leads to one UAV reserved twice: by a report of a new vessel and two reservations |
| ContactRuns.DoubleBooking | src/mission/contact_store.py:328-793 | the whole run from an empty store: a report older than the window, a confirmed violation, a second vessel, and one UAV reserved for both |
| ContactRuns.SeenTwice | src/mission/contact_store.py:328-485 | from an empty store: a vessel heard over AIS and sighted twice where it lies; the first sighting is a contact of its own, the second merges it into the AIS contact |
| ContactRuns.ReleasedIsAvailable | src/mission/contact_store.py:588-647 | a released contact can be reserved again unless closed, for a probe only after the cooldown if the mission failed |
| ContactRuns.LostAndFound | src/mission/contact_store.py:487-586 | a contact unseen for too long is lost and its UAV freed, and a recent sample opens it again |
| ContactRuns.AssessedMeans | src/mission/contact_store.py:664-726 | a harmless vessel is closed and freed until the recheck, a suspect one tracked with its UAV |
| ContactRuns.FitsOnce | src/mission/contact_store.py:664-726 | an assessment is refused once the contact has one more sample or its mission has ended; it rests on samples the contact has, a verdict on one not heard over AIS |
| ContactRuns.MayReserveMeans | src/mission/contact_store.py:588-605 | a free contact may be reserved if and only if available and the UAV has no other listed contact |
| CoverageZones.TilesPartition | src/mission/coverage_zones.py:90-97 | every cell is in one and only one tile, for any mask and any numbers of tiles |
| CoverageZones.TileFits | src/mission/coverage_zones.py:91-95 | a tile lies on the chart |
| CoverageZones.BoxFromCorners | src/mission/coverage_zones.py:128-137 | four corners of the prefix sums count the fixed cells of a box |
| CoverageZones.PrefixSums | src/mission/coverage_zones.py:85-87 | adding up along both axes counts the cells before every corner |
| CoverageZones.ListZones | src/mission/coverage_zones.py:91-104 | the zones are exactly the tiles with a fixed cell, ordered by name |
| CoverageZones.NewPartition | src/mission/coverage_zones.py:75-104 | refused for exactly an empty mask or a number of tiles that is not positive; else the prefix sums and the zones are those of the mask |
| CoverageZones.ZonePartition.CountCommon | src/mission/coverage_zones.py:128-137 | the count from the prefix sums is the number of fixed cells that box and zone share |
| CoverageZones.ZonePartition.ZoneOfBox | src/mission/coverage_zones.py:125-142 | the zone with the largest overlap, the first by name among equals; none if and only if the box has no fixed cell |
| CoverageZones.ZonePartition.ContainsBox | src/mission/coverage_zones.py:120-123 | true if and only if the box lies in the tile |
| CoverageZones.FixedCellHasZone | src/mission/coverage_zones.py:125-142 | a box overlaps no zone if and only if it has no fixed cell |
| CoverageZones.ContainedMapsBack | src/mission/coverage_zones.py:120-142 | a box inside a zone with a fixed cell maps back to that zone and no other |
| CoverageZones.NoBoxInTwoZones | src/mission/coverage_zones.py:120-123 | no box lies in two zones |
| ZoneQuotas.RankedInOrder | src/mission/coverage_zones.py:247-250 | exactly the zones from the threshold on, larger gaps first and then by name |
| ZoneQuotas.RankedMeans | src/mission/coverage_zones.py:247-250 | the largest gap first, equal gaps by name |
| ZoneQuotas.Contained | src/mission/coverage_zones.py:251-263 | exactly the searches that lie in the tile, each ID once |
| ZoneQuotas.BuildQuotas | src/mission/coverage_zones.py:225-264 | refused for exactly the bad parameters; else one quota per ranked zone up to the slots, with its own candidates |
| ZoneQuotas.QuotasShareNoTask | src/mission/coverage_zones.py:251-264 | quota lists of different zones share no task |
| ZoneQuotas.LeftOutIsNotNeedier | src/mission/coverage_zones.py:247-264 | a zone in deficit is left out only when all slots are used by zones no less needy |
| CoverageMetrics.LastScanTells | src/mission/coverage_metrics.py:112-120 | the last scan of a cell tells whether any scan of it falls into a window that reaches to now |
| CoverageMetrics.CoverageMetrics.RecordSar | src/mission/coverage_metrics.py:71-94 | a scan out of time order or off the map is refused as a whole; else the matrix holds the last scan of every fixed cell |
| CoverageMetrics.CountTrue | src/mission/coverage_metrics.py:108-122 | counting a mask counts its cells |
| CoverageMetrics.CoverageMetrics.CountWindow | src/mission/coverage_metrics.py:118-133 | the covered and the searchable cells of a window |
| CoverageMetrics.CoverageMetrics.TakeSnapshot | src/mission/coverage_metrics.py:100-155 | refused before the last scan or for another shape; else the counts are those of the last-scan matrix |
| CoverageMetrics.WindowsNest | src/mission/coverage_metrics.py:112-120 | a longer window covers at least what a shorter one does |
| CoverageMetrics.MatrixIsHistory | scripts/evaluate_persistent_coverage.py:533-547 | the last-scan matrix gives the same covered cells as the full history of scans |
| CoverageMetrics.SnapshotIsHistory | scripts/evaluate_persistent_coverage.py:533-548 | every window count of a snapshot is that of the full history, and the windows grow |
| Responsibility.Classify | src/mission/coverage_policy.py:80-122 | every fixed cell is in exactly one of the five classes, and the fresh ones are those within the primary window |
| Responsibility.Peeled | src/mission/coverage_policy.py:107-114 | taking the classes off one after the other partitions the fixed cells |
| Responsibility.Summarize | src/mission/coverage_zones.py:172-200 | each zone row counts the fixed, unseen and overdue cells of its tile |
| Responsibility.ZonesCountOnce | src/mission/coverage_zones.py:172-222 | adding up over the zones counts every fixed cell once |
| Responsibility.ThreeStates | src/mission/coverage_zones.py:176-177 | every fixed cell is unseen, overdue or fresh, and only one of them |
| Responsibility.ZoneRowsGiveFresh | src/mission/coverage_zones.py:173-222 | fixed less unseen less overdue over all zones is what is fresh |
| Responsibility.FreshCountsAgree | src/mission/coverage_zones.py:172-222 | after any scans, the fresh count of the snapshot, that of the classes, and fixed less unseen less overdue over all zones are the same number |
| Responsibility.RecordedTimesFit | src/mission/coverage_metrics.py:71-98 | the recorded matrix satisfies what the other two demand of it |

## Left out

- Web routes, sockets, logs, configuration files, replay, user interface, events, operator messages and the evidence and state kernels: plumbing around the core.
- The language model, its prompts and tools, the plan validators, the reasoning record, and the contents of jobs, plans and results.
- Floating-point rounding: times, costs and coordinates are exact reals, and the tolerance of the label comparison is zero.
- MinCostFlow.Saturate: assumes valid starting prices, which `QuotaAssignment.LevelPricesArePrices` provides for every quota network; transit times are arbitrary reals.
- Types of inputs (booleans for numbers, malformed mappings, not-a-number): inputs have their Dafny types.
- SearchPartition.PartitionSearchMask: cells are given as a mask of booleans; the conversion from an image is not modelled.
- SegmentClip.IntersectsBox: displacements below the tolerance are taken as zero, as the code takes them.
- Turning, travel, headings, path search, and the choice of the next point of the normal route: functions the vessel's world supplies, the same whenever asked; so are the weaving heading of a command and the direction of a leg.
- ShipPlanner.Repair: the path search is that of the world.
- ShipPlanner.Track.Extend: the three parallel lists of states, commands and cursors are one line of three sequences; other references a caller holds to the lists are not modelled.
- Vessels.Ship.Advance: the deviation figure of a route, the trail, the speed in cells and the change of activity over time are not part of the model; a route has a cursor per pose or none, as every planned route has.
- Vessels.Navigator.Plan: assumes a world with positive acceleration, turn rate, cell size and steering gain, a clearance that is not negative, and a step longer than the resolution of the clock; the end of the normal route and whether the vessel may leave are fixed for a world.
- Broker.AgentBroker.Complete: what the worker's result holds and the record it leaves are not modelled.
- Broker.AgentBroker.DecidePlan: the rejection sent to the operator job carries the comment without the plan's name.
- Broker.AgentBroker.Enqueue: text is taken as stripped already; which queued jobs fall off the end of a full list is modelled, that they are lost is not claimed to be right.
- FeedbackProtocol.CompletionRequeues: feedback of a run that ends by lease expiry or cancellation is not kept by the code and nothing is claimed for it.
- Redaction.StreamingAgrees: for one credential without brackets; the pattern for keys of a fixed shape, several credentials at once and the length limit are not part of it.
- ContactStore.ContactStore.IngestAis: the velocity derived from speed and heading is given with the report; sample names are numbered in their order.
- ContactStore.ContactStore.IngestPassive: bursts of a track and the radiation evidence drawn from them are not modelled.
- ContactStore.ContactStore.Create: contacts are numbered; names beyond four digits would sort differently, which matters only between equal distances.
- ContactStore.ContactStore.ApplyDimensions: evidence names and the confidences stored with a contact are not kept.
- Capturing and restoring reservations around a failed batch: it rests on callers that are not part of this model.
- CandidateWindow.SelectWindow: the zone of a box and containment are functions here; `CoverageZones` models them, for boxes of positive area.
- CandidateWindow.Rotate: which usable task a round takes from a group is the next one, as `CandidateWindow.PickNext` states.
- CoverageMetrics.CoverageMetrics.TakeSnapshot: areas and percentages are the counts times or over constants and are not modelled.
- Responsibility.Summarize: searches in flight and the gap fractions made of the counts are not modelled.
- ZoneQuotas.BuildQuotas: boxes of tasks have positive area, and the gap of a zone is given.
- The ranking of search candidates, the search fraction and the expiry summary: single expressions without state.
- Handoff, coverage service, intents, evidence, base station and emitters: small ledgers that would add only easy members.
