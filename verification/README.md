# Verified model of the axiom-mcp query core

`axiom-mcp` answers questions about pinned snapshots of several projects' code graphs, and
coordinates readers and publishers of those snapshots through two lock files. This project models
the parts of it that make claims reaching beyond what one call looks at, and proves those claims for
all inputs and all runs.

- **Graph questions** (`GraphModel`, `Incidence`, `Selectors`, `BoundedWalk`, `PathSearch`,
  `PathFinding`, `PathQuery`, `Impact`, `Exhaustive`, `BlindScopes`). A breadth-first search bounded
  by depth, nodes and edges answers with verdicts about the unbounded graph: truncated or not, a
  shortest path, a proven absence, an exhaustive reverse closure. `Traversal` defines reachability without any search
  (trails, balls, repairs of unresolved edges), and `WalkTheorems`, `WalkDetails` and the others
  tie the searches to it.
- **The reader and writer guard** (`RetrySchedule`, `GuardPlatform`, `GuardEngine`,
  `GuardProtocol`, `ReadSession`, `SnapshotIsolation`, `Lifecycle`, `Shutdowns`). `GuardEngine` is
  one process's guard object with its handles and its clock; `GuardProtocol` is any number of
  processes as a transition system that uses the very same request check; `ReadSession` is the copy of a generation under the
  guard, and `SnapshotIsolation` the same copy in a run of many processes; `Lifecycle` is the
  interleaving of queries and drains, `Shutdowns` what its shutdowns answer.
- **The response packer** (`Packer`): a binary search under a hard byte cap, against a reference
  that drops one item at a time.
- **Indexes, caches and diffs that must agree with something simpler** (`SymbolIndex`, `Recency`,
  `SnapshotCache`, `Retention`, `Changes`).

`Ordering` and `Wrappers` hold sorting, filtering and the two result shapes. Run
`dafny verify dfyconfig.toml` to check everything.

## How the model stands to the program

- Methods with loops carry out what the program carries out; each is proved against a function of
  its inputs or of the old state, and the theorems are lemmas about those functions.
- Edge ids are checked unique only inside one generation (model.py:481-485), while the searches
  deduplicate by id across the scope. `UniqueEdgeIds(scope.Edges())` is therefore an explicit
  hypothesis of the search theorems; `Incidence.BothHeadingIsComplete` says exactly what it buys.
- The walk fails when it meets an id the scope does not pin (model.py:974, model.py:684-688): a
  `Failure` carrying that id.
- Sorted tuples of distinct ids are modelled as sets, except where their order matters (the path,
  the candidates, the symbol index, the diffs). Ids are ordered as their text.
- `fold` stands for `str.casefold`, `strip` for `str.strip`, `digest` for SHA-256 (any function;
  injective only where a theorem says so), and a `Codec` for JSON parsing. The clock, the cancel
  callback, the lock primitive and the store are `Platform` and `Lane` objects that answer
  arbitrarily within their contracts: the clock does not go back, a sleep lasts as asked.
- `ReadSession.Lane` may change at any moment while the process does not hold data, and not while
  it does. `SnapshotIsolation.SeparateReadsAreOne` proves that of `GuardProtocol`, under the rule
  that contents change only under data exclusive.
- Automatic induction is switched off on every lemma, so each proof by induction is the one written.
- A JSON document is measured as compact JSON, section 5 of RFC 8259.

## What does not hold, and exactly when it does

- **`exhaustive` can be wrong.** The depth probe compares node counts and ignores that it may itself
  have been truncated (impact.py:233). With nothing else short, the claim is wrong exactly when some
  admitted edge enters the closure and the closure fills the node budget or the edge budget kept the
  probe from recording any such edge: `Exhaustive.ExhaustiveIsWrongExactly`. `Impact.ProbeBlindSpot`
  is a case of the first, `BlindScopes.EdgeBlindSpot` of the second. With room in both budgets the
  claim is right (`Impact.ExhaustiveWithRoom`); without, every possible combination of depth, closure
  size, edges and budgets has a scope for which it is wrong (`BlindScopes.NoRoomMisleads`), and no
  other combination has one (`BlindScopes.MisleadingHasNoRoom`).
- **`exhaustive` is never claimed for published members.** The code asks for coverage `complete`
  (impact.py:280), which is not one of the manifest's statuses (manifest.py:80).
- **The packer's cap** holds for every document that flagging cannot lengthen, and for every other
  shape some document breaks it: `Packer.PackedObeysCap`, `Packer.GrowthOverflows`.
- **`truncated` in a symbol search** stays silent in two cases: when exact hits fill the limit to the
  last place and weaker hits exist, and when the scan was cut and only hits it did not come to go
  past the limit. `SymbolIndex.TruncatedIsRightExactly` says that there are no others, and
  `SymbolIndex.EveryCutScanCanHideHits` that no cut scan is safe from the second.
- **Raising a cache limit** never turns a hit into a miss, unless an entry is too large for the lower
  limit and not for the higher: `Recency.LargerNeverMissesMore`, `Recency.BetweenLimitsMayMiss`.
- **`shutdown`** says repeated calls return the first outcome and cannot count twice; overlapping
  calls can do both (`Shutdowns.OverlappingShutdownsDisagree`). Repeated calls agree in every
  continuation exactly when no pending shutdown can still store another outcome:
  `Shutdowns.LaterShutdownsAgree`.
- **`drained` alone does not mean that no lock is held**: a reader that fails after taking
  admission, with an error other than a timeout or cancel, leaves it held (guard/engine.py:309-312).
  `Lifecycle.DrainedReportsLeftovers` says that nothing else can, `Lifecycle.DrainedButHeld` is a
  case; after a drained shutdown nothing is held.

## Model

| member | source | states |
|---|---|---|
| `GraphModel.BuildGraph` | src/axiom_mcp/query/model.py:460-502 | A generation is accepted exactly when its nodes belong to it, node and edge ids do not repeat, and every edge source is pinned |
| `GraphModel.BuildGraphSet` | src/axiom_mcp/query/model.py:621-655 | The set is accepted exactly when each project is pinned once, no id is pinned by two projects and no member is both pinned and missing; its outgoing and incoming indexes then equal a filter over all edges, in order |
| `GraphModel.SourcesPinned` | src/axiom_mcp/query/model.py:486-497 | Walking an edge backwards never leaves the pinned nodes of the scope |
| `GraphModel.BoundedInt` | src/axiom_mcp/query/model.py:166-188 | A bound is refused exactly when it is outside its range, never clamped; absent means the default |
| `Incidence.IncidentSound` | src/axiom_mcp/query/model.py:833-857 | No edge is invented: an incident edge is an admitted edge of the scope that touches the node |
| `Incidence.BothHeadingIsComplete` | src/axiom_mcp/query/model.py:849-857 | The merge by id under heading both loses no edge if and only if the edges at the node have different ids |
| `Incidence.IncidentExact` | src/axiom_mcp/query/model.py:833-857 | With edge ids unique in the scope, the incident edges are exactly the admitted edges touching the node |
| `Incidence.IncidentForgetsOrder` | src/axiom_mcp/query/model.py:833-857 | The incident edges and their order do not depend on the order of members or of their edge tuples |
| `Incidence.RearrangedMembers` | src/axiom_mcp/query/model.py:621-655 | Permuting the members, and the tuples inside each, pins the same facts |
| `Traversal.BallIsShortTrails` | src/axiom_mcp/query/model.py:787-799 | The k-ball around a root is exactly the set of ends of trails of at most k hops under the heading |
| `Traversal.SettledBallIsEverything` | src/axiom_mcp/query/model.py:929-975 | A ball that one more hop does not enlarge is everything reachable by trails of any length |
| `Traversal.RepairKeepsClosed` | src/axiom_mcp/query/model.py:738-762 | A set no open edge leaves and no unresolved edge names stays closed under every naming-consistent repair |
| `Selectors.ResolveMeaning` | src/axiom_mcp/query/model.py:710-735 | A selector resolves to the one best-ranked node, lists all of them when several tie, and finds nothing only when none matches |
| `Selectors.Resolve` | src/axiom_mcp/query/model.py:726-735 | The resolution as computed is that function of the pinned nodes alone, so permuting members cannot change it |
| `Selectors.UnresolvedReferences` | src/axiom_mcp/query/model.py:738-762 | The references found for a node are exactly the pinned unresolved edges whose folded text is its name, its qualified name or a dotted suffix of it |
| `Walks.BoundedWalk` | src/axiom_mcp/query/model.py:889-989 | The imperative walk, level by level, computes the specification the theorems are about, failures included |
| `WalkTheorems.WalkIsExact` | src/axiom_mcp/query/model.py:929-989 | Untruncated if and only if the depth-ball fits the node budget and the edges at the (depth-1)-ball fit the edge budget; then nodes and edges are exactly those. Each truncation reason is true of the whole graph, and failure means an unpinned node really is in the ball |
| `WalkTheorems.ClosedScopeIsAnswered` | src/axiom_mcp/query/model.py:929-989 | A walk whose ball is pinned always gets an answer |
| `WalkTheorems.WalkForgetsOrder` | src/axiom_mcp/query/model.py:929-989 | Permuting members and their tuples leaves the whole walk unchanged |
| `WalkDetails.FrontierIsHonest` | src/axiom_mcp/query/model.py:936-989 | The frontier is empty if and only if the walk is not truncated, and each node in it is a root that did not fit, or one where an edge was left for want of edges or a neighbour for want of nodes |
| `WalkDetails.DepthReachedIsExact` | src/axiom_mcp/query/model.py:944-975 | Every node lies within the depth reached; untruncated, the nodes are exactly that ball, and unless the depth reached is 0 it is larger than the ball before it |
| `WalkDetails.DeeperWalk` | src/axiom_mcp/query/model.py:944-975 | A walk one level deeper keeps all nodes and edges of the other, each node it adds lies one recorded hop from a node of the other, and unless nodes were cut both ends of every recorded edge are nodes |
| `PathSearch.StepKeeps` | src/axiom_mcp/query/path.py:257-286 | Every step of the search keeps the tree, the level bounds and the finished nodes, and settles the edge it examined unless it stops the search |
| `PathFinding.ShortTrailInside` | src/axiom_mcp/query/path.py:251-294 | While a level is scanned every shorter trail from the start already ends inside the search tree, no deeper than it is long |
| `PathFinding.FoundIsShortest` | src/axiom_mcp/query/path.py:277-281 | When the goal is met at a level no trail of the whole filtered graph is shorter, whatever the budgets dropped |
| `PathFinding.Rebuild` | src/axiom_mcp/query/path.py:296-309 | The parent chain ends, and yields a trail from start to goal as long as the goal is deep, without a repeated node |
| `PathFinding.FindPath` | src/axiom_mcp/query/path.py:239-311 | Found: a shortest trail within the depth. Not found and not cut: none within the depth; with an empty frontier everything reachable was seen and every open edge kept; a left-over frontier means the reachable set still grows there. Cut: a budget really was too small |
| `PathQuery.RelevantIsLoose` | src/axiom_mcp/query/path.py:340-348 | The relevant unresolved edges are exactly those that leave, or name, a reachable node |
| `PathQuery.NothingLooseIsAbsence` | src/axiom_mcp/query/path.py:340-382 | With none of them, no trail of any length exists now or after any naming-consistent repair of unresolved edges |
| `PathQuery.Search` | src/axiom_mcp/query/path.py:239-402 | `proven_absent` holds if and only if nothing was cut, nothing is missing, the frontier is empty and no edge is loose, and it then means absence for good; with ample budgets it holds exactly when there is no trail and nothing is missing or loose |
| `PathQuery.Path` | src/axiom_mcp/query/path.py:173-402 | Bounds are refused exactly when out of range; each selector refusal is given exactly when `resolve` comes to it, source first; otherwise the answer is that of the search for the two resolved nodes at exactly the depth, kinds and budgets asked for |
| `Impact.ReverseWalkAnswers` | src/axiom_mcp/query/impact.py:199-207 | A reverse walk always gets an answer: it never meets an unpinned node |
| `Impact.StricterWalkFits` | src/axiom_mcp/query/impact.py:199-217 | If the unfiltered walk is untruncated so is the static-only one, and it finds no more |
| `Impact.ProbeVerdict` | src/axiom_mcp/query/impact.py:219-233 | An untruncated probe grows if and only if the closure goes on; where the closure fills the node budget the probe cannot grow at all |
| `Impact.ClosureIsEverything` | src/axiom_mcp/query/impact.py:219-233 | Walk and probe untruncated with equal counts: the closure is exactly reverse reachability by trails of any length |
| `Impact.ClosureSurvivesRepair` | src/axiom_mcp/query/impact.py:239-247 | If no unresolved edge names a closure node, no naming-consistent repair changes that set |
| `Impact.Close` | src/axiom_mcp/query/impact.py:199-329 | The report as assembled is the one specified: three walks, the split, the collected references and the reasons |
| `Impact.ReportIsSound` | src/axiom_mcp/query/impact.py:235-238 | Truncated or not, every listed node reaches the target within the depth and is listed once, as proven or as potential |
| `Impact.ReportIsExact` | src/axiom_mcp/query/impact.py:235-238 | Untruncated: the closure is exactly the nodes reaching the target within the depth, proven exactly those with such a trail of exact or annotated edges, potential the rest |
| `Impact.ExhaustiveIsEverything` | src/axiom_mcp/query/impact.py:254-282 | Exhaustive with an uncut probe: the closure is everything, and stays so under every repair |
| `Impact.ExhaustiveWithRoom` | src/axiom_mcp/query/impact.py:219-233 | When the closure leaves room in both budgets for the probe, exhaustive needs no further condition |
| `Impact.ExhaustiveWithoutRoom` | src/axiom_mcp/query/impact.py:219-233 | When the closure fills the node budget and nothing else is short, exhaustive is claimed whatever lies beyond, and is right if and only if no admitted edge enters the closure from outside |
| `Impact.GoesOnIffEntered` | src/axiom_mcp/query/impact.py:219-233 | The closure goes on beyond its depth if and only if some admitted edge enters it from outside |
| `Exhaustive.ExhaustiveIsWrongExactly` | src/axiom_mcp/query/impact.py:219-282 | Below the depth cap, untruncated and with nothing else short, exhaustive is claimed and wrong if and only if some admitted edge enters the closure from outside and either the closure fills the node budget or the probe recorded none of those edges |
| `BlindScopes.NoRoomMisleads` | src/axiom_mcp/query/impact.py:219-282 | For every depth below the cap, closure size, number of edges one hop further and pair of budgets that leave the probe no room, some scope has an exhaustive answer that is wrong |
| `BlindScopes.MisleadingHasNoRoom` | src/axiom_mcp/query/impact.py:219-282 | Conversely every exhaustive answer that is wrong has such a depth, size, number of edges and pair of budgets |
| `BlindScopes.EdgeBlindSpot` | src/axiom_mcp/query/impact.py:219-233 | A concrete scope in which the edge budget alone hides a caller of the target from an exhaustive answer, with nodes to spare |
| `Impact.ProbeBlindSpot` | src/axiom_mcp/query/impact.py:219-233 | A concrete scope whose exhaustive answer misses a caller of the target |
| `Impact.NeverExhaustiveFromManifests` | src/axiom_mcp/query/impact.py:279-282 | No status a manifest may pin is the one the code asks for, so an answer over such a member is never exhaustive |
| `Impact.Impact` | src/axiom_mcp/query/impact.py:135-329 | Bounds are refused exactly when out of range, each selector refusal is given exactly when `resolve` comes to it, and an answer is the specified report for the resolved node at exactly the depth, kinds and budgets asked for |
| `RetrySchedule.WaitedClosedForm` | src/axiom_mcp/guard/protocol.py:63-68 | The delays 25, 50, 100, 200, 250, 250 ... add up to 375 + 250 per try after the fourth |
| `RetrySchedule.AttemptBoundIsExact` | src/axiom_mcp/guard/protocol.py:63-68 | The closed-form number of tries is exact: one fewer leaves time, and by the last the delays have used the timeout up |
| `RetrySchedule.ProtocolLimits` | src/axiom_mcp/guard/protocol.py:63-68 | At most 24 tries by default and never more than 244 |
| `GuardEngine.ResolveTimeout` | src/axiom_mcp/guard/engine.py:157-181 | A timeout is refused exactly when outside 1 to 60000 ms, never clamped |
| `GuardEngine.RefusalIsExact` | src/axiom_mcp/guard/engine.py:349-381 | The unknown, closed, upgrade, recursion and order checks let a request through if and only if the guard is open and taking the lock keeps the acquisition order |
| `GuardEngine.SolutionGuard.OpenVerified` | src/axiom_mcp/guard/engine.py:413-437 | Returns a new verified handle or has closed every handle it opened |
| `GuardEngine.SolutionGuard.TryUntil` | src/axiom_mcp/guard/engine.py:383-408 | The wait ends for every clock that does not go back; sleeps total at most the timeout, tries obey the closed form, a timeout is real, and a failure has closed the handle |
| `GuardEngine.SolutionGuard.AcquireOne` | src/axiom_mcp/guard/engine.py:349-411 | A refused request changes nothing; any other failure leaves the held locks as they were with nothing opened left open; success appends exactly the wanted lock |
| `GuardEngine.SolutionGuard.Release` | src/axiom_mcp/guard/engine.py:248-253 | Exactly the named lock goes, even when unlocking reports an error; a name not held is an error and changes nothing |
| `GuardEngine.SolutionGuard.ReleaseAll` | src/axiom_mcp/guard/engine.py:255-269 | Afterwards nothing is held, every handle is closed, each lock ever taken was given up exactly once, and these went in reverse acquisition order |
| `GuardEngine.SolutionGuard.Close` | src/axiom_mcp/guard/engine.py:271-273 | As above; a guard whose release failed is not marked closed |
| `GuardEngine.SolutionGuard.Attempt` | src/axiom_mcp/guard/engine.py:303-312 | One attempt takes locks in the order asked; a timeout or cancel gives up all that is held, latest first; a full one makes the early releases in turn; any other failure leaves what was taken |
| `GuardEngine.SolutionGuard.Enter` | src/axiom_mcp/guard/engine.py:282-320 | Only timeout and cancel are retried, at most `attempts` times; the locks given up are, attempt by attempt, that attempt's in reverse order of acquisition, then the early releases of the last; success holds the specs less those; a request blocked at once is passed on with nothing changed |
| `GuardEngine.SolutionGuard.Ordered` | src/axiom_mcp/guard/engine.py:282-320 | Over the whole block, whatever the number of attempts: every attempt's locks go once, in reverse order of acquisition except that the declared early ones of the attempt that entered go first, and at the end nothing is held and everything taken was given up |
| `GuardEngine.RoundOrderIsEach` | src/axiom_mcp/guard/engine.py:303-318 | Early releases first and the rest in reverse gives up each lock of the attempt exactly once |
| `GuardEngine.SolutionGuard.Exit` | src/axiom_mcp/guard/engine.py:315-318 | However the body ended nothing stays held and everything taken was given up once |
| `GuardEngine.SolutionGuard.Reader` | src/axiom_mcp/guard/engine.py:322-337 | On entry a reader holds data shared and nothing else |
| `GuardEngine.SolutionGuard.Publisher` | src/axiom_mcp/guard/engine.py:339-347 | On entry a publisher holds both locks exclusively |
| `GuardEngine.LeavesMeans` | src/axiom_mcp/guard/engine.py:307-308 | What is left after the early releases is the specs whose names were not released |
| `GuardProtocol.StepKeepsInv` | src/axiom_mcp/guard/engine.py:349-411 | Every step of any of N processes, crashes included, keeps the acquisition order of each and the exclusion between all |
| `GuardProtocol.ExclusiveHolderIsAlone` | src/axiom_mcp/guard/protocol.py:57-61 | In every state of every run an exclusive holder of a lock is its only holder |
| `GuardProtocol.WaitChainsAreShort` | src/axiom_mcp/guard/engine.py:372-381 | Every wait chain is at most two waits long, so none is circular |
| `GuardProtocol.SomeoneCanMove` | src/axiom_mcp/guard/engine.py:372-381 | While anyone waits a grant or a release is possible without any timeout, by another process if the waiter is blocked |
| `GuardProtocol.RunKeepsInv` | src/axiom_mcp/guard/engine.py:349-411 | So do whole runs, from any state in which the invariant holds |
| `GuardProtocol.EveryWaitCanBeServed` | src/axiom_mcp/guard/engine.py:383-411 | From every reachable state grants and releases alone lead to the grant of any given waiter |
| `GuardProtocol.NoOvertaking` | src/axiom_mcp/guard/engine.py:322-347 | While a publisher holds admission exclusively and waits for data, along every run nobody takes data: the holders only become fewer |
| `GuardProtocol.PublisherGoesWhenReadersGone` | src/axiom_mcp/guard/engine.py:322-347 | That wait can end if and only if no process holds data |
| `GuardProtocol.ReadersAndPublishersAreDisciplined` | src/axiom_mcp/guard/engine.py:322-347 | The lock lists of reader and publisher ask for data only behind admission, which is the discipline those two theorems assume |
| `GuardProtocol.LaneStandsStill` | src/axiom_mcp/guard/engine.py:322-337 | Over any stretch of any run in which one process holds data shared, what the locks protect stays as it was at the start of the stretch |
| `ReadSession.CopyEach` | src/axiom_mcp/shards.py:254-308 | Shards read at different moments under the lock equal one read of the contents at the start, errors included |
| `ReadSession.CopyGeneration` | src/axiom_mcp/read_session.py:195-246 | Pointer, manifest and shards read at different moments equal one atomic read |
| `ReadSession.CopyIsBoundedAndWhole` | src/axiom_mcp/read_session.py:195-246 | A copy holds whole files, byte for byte, of the one generation given by the lane pointer or pinned by the caller, within the three byte budgets together |
| `ReadSession.CopyUnderGuard` | src/axiom_mcp/read_session.py:248-282 | The copy made inside the reader block is that of one instant while data was held; after it, and after a timeout, a cancel or a failed release, no lock is held |
| `ReadSession.Load` | src/axiom_mcp/read_session.py:248-282 | The answer is that of one look at the store at one instant during the call, whatever was published meanwhile; no lock is held when it is given, nor after a timeout, a cancel or a failed release |
| `SnapshotIsolation.SeparateReadsAreOne` | src/axiom_mcp/read_session.py:195-246 | In every run of any number of processes, a copy whose reads happen at any states of a stretch in which one process holds data shared equals one look at the store at the start of the stretch |
| `Lifecycle.AdmittedIsAccounted` | src/axiom_mcp/lifecycle.py:253-278 | In every interleaving what was admitted is in flight or finished |
| `Lifecycle.DrainAdmitsNothing` | src/axiom_mcp/lifecycle.py:262-268 | Once a drain has started nothing is admitted in any continuation |
| `Lifecycle.OutcomeIsTrue` | src/axiom_mcp/lifecycle.py:300-336 | finished <= admitted <= finished + remaining; drained means none in flight, and a lock it still reports was left behind by a failed reader |
| `Lifecycle.DrainedReportsLeftovers` | src/axiom_mcp/lifecycle.py:326-336 | A drain that saw no query left reports held locks if and only if a failed reader left some behind |
| `Lifecycle.DrainedButHeld` | src/axiom_mcp/lifecycle.py:311-336 | A concrete run whose complete drain still reports a lock |
| `Lifecycle.DrainedShutdownLeavesNothing` | src/axiom_mcp/lifecycle.py:338-363 | After a drained shutdown no query runs and no lock is held, then and ever after |
| `Shutdowns.StepKeepsAgreed` | src/axiom_mcp/lifecycle.py:338-363 | No step of any thread can make a pending shutdown store another outcome once none can |
| `Shutdowns.LaterShutdownsAgree` | src/axiom_mcp/lifecycle.py:344-363 | Every shutdown called in every continuation is answered with the stored outcome if and only if each pending one, left to run by itself, would store that outcome and nothing another thread may still do can change that |
| `Shutdowns.ShutdownEnds` | src/axiom_mcp/lifecycle.py:311-363 | From every state, also with locks held by it or by others, a shutdown past its wait comes to its end by its own steps |
| `Shutdowns.OverlappingShutdownsDisagree` | src/axiom_mcp/lifecycle.py:338-363 | A concrete run of two overlapping shutdowns after which a later call is answered differently from the first and one query counts as cancelled twice |
| `Packer.LongestPrefix` | src/axiom_mcp/query/budget.py:104-112 | The binary search finds the longest prefix that fits with the later collections intact |
| `Packer.CutAtOnce` | src/axiom_mcp/query/budget.py:93-113 | Cutting at once to that prefix comes to the same document as dropping one item at a time |
| `Packer.Trim` | src/axiom_mcp/query/budget.py:92-116 | One pass over the collections equals the reference that drops one item at a time, with the losses counted exactly |
| `Packer.TrimmedKeepsTheMost` | src/axiom_mcp/query/budget.py:93-113 | Kept and dropped make up each list; the kept part is a prefix; a list loses items only once all earlier ones are empty; the last list cut kept the longest prefix that fits |
| `Packer.TrimmedFitsIff` | src/axiom_mcp/query/budget.py:115-119 | Trimming succeeds if and only if the document with every trimmable list empty fits |
| `Packer.PackedIsTrimmed` | src/axiom_mcp/query/budget.py:121-152 | Flagged exactly when something was dropped; then only the flag and notes after the kept warnings differ from the trimmed document |
| `Packer.PackedObeysCap` | src/axiom_mcp/query/budget.py:121-152 | The result obeys the cap whenever flagging cannot lengthen the document, so for every document already carrying a boolean `truncated` and a list of `warnings` |
| `Packer.GrowthOverflows` | src/axiom_mcp/query/budget.py:121-142 | Conversely, every shape that flagging lengthens has a document that ends over the cap |
| `Packer.PackResponse` | src/axiom_mcp/query/budget.py:77-152 | Out-of-range caps are refused, and every other call returns the specified result or the specified error |
| `Recency.EvictsShortestRun` | src/axiom_mcp/cache.py:269-275 | Eviction removes the shortest least-recent run whose removal restores both limits |
| `Recency.NewestSurvives` | src/axiom_mcp/cache.py:219-225 | A just-stored entry that can fit always survives, as the most recent |
| `Recency.LargerNeverMissesMore` | src/axiom_mcp/cache.py:278-294 | Over every run of lookups in which no load falls between the two byte limits, the smaller cache is the most recent part of the larger one: raising a limit never turns a hit into a miss |
| `Recency.BetweenLimitsMayMiss` | src/axiom_mcp/cache.py:201-225 | For every pair of byte limits, a run with one load between them turns a hit into a miss by raising the limit |
| `SnapshotCache.Cache.Evict` | src/axiom_mcp/cache.py:269-275 | The loop ends with both limits holding, the byte total exact and every eviction counted |
| `SnapshotCache.Cache.Put` | src/axiom_mcp/cache.py:201-225 | Mislabelled bytes are refused; bytes that can never fit change nothing; any other entry ends up most recent with the limits restored |
| `SnapshotCache.Cache.Get` | src/axiom_mcp/cache.py:227-248 | Only bytes hashing to the key are returned; a hit becomes most recent, a corrupt entry is dropped and counted as a miss |
| `SnapshotCache.Cache.TakeOut` | src/axiom_mcp/cache.py:250-256 | Exactly the named entry goes, and the answer says whether it was there |
| `SnapshotCache.Cache.EvictGeneration` | src/axiom_mcp/cache.py:258-263 | Exactly the entries of that generation go, the rest keep their order, and the count is right |
| `SnapshotCache.Lookup` | src/axiom_mcp/cache.py:278-294 | On every run a truthful loader is answered as if there were no cache; a wrong label is refused without changing the stock |
| `Retention.Sizer.Retained` | src/axiom_mcp/retention.py:47-60 | One recursive call counts exactly once each object not seen before and reachable from it, on cyclic graphs too |
| `Retention.RetainedSize` | src/axiom_mcp/retention.py:47-60 | The measure of a value is the sum over exactly the objects reachable from it, each once |
| `Retention.OneMeasure` | src/axiom_mcp/retention.py:47-60 | That measure does not depend on the order in which the objects are met |
| `Retention.GenerationRetention.Get` | src/axiom_mcp/retention.py:76-84 | A hit returns the stored value and makes it most recent; hits and misses are counted |
| `Retention.GenerationRetention.Put` | src/axiom_mcp/retention.py:86-105 | A value over budget before or after freezing changes nothing; any other ends up most recent, with the shortest least-recent run gone |
| `SymbolIndex.BuildIndex` | src/axiom_mcp/query/search.py:141-181 | Every key lists exactly the nodes that have it, in scan order |
| `SymbolIndex.Exact` | src/axiom_mcp/query/search.py:109-138 | The exact hits are exactly the nodes a full scan ranks 0 to 4, each once, at that rank |
| `SymbolIndex.SearchSymbols` | src/axiom_mcp/query/search.py:232-304 | Empty queries and bounds out of range are refused; otherwise the answer is the specified one |
| `SymbolIndex.SearchIsTopRanked` | src/axiom_mcp/query/search.py:257-304 | The answer is the true best of a full ranking of every node, when the scan is not cut or exact hits fill the limit |
| `SymbolIndex.TruncatedIsRightExactly` | src/axiom_mcp/query/search.py:262-288 | For all inputs `truncated` is right if and only if neither exact hits exactly fill the limit while weaker hits exist nor the scan was cut and only hits it did not come to go past the limit |
| `SymbolIndex.EveryCutScanCanHideHits` | src/axiom_mcp/query/search.py:262-288 | For every limit, every bound on the scan and every number of nodes beyond that bound, some scope of that size hides hits in the second way |
| `SymbolIndex.SearchIsSound` | src/axiom_mcp/query/search.py:274-288 | Whatever was cut, each candidate is a node in scope at its true rank |
| `SymbolIndex.TruncatedIsNoFalseAlarm` | src/axiom_mcp/query/search.py:288-304 | Never more candidates than the limit, and `truncated` implies that hits were left out |
| `Changes.DiffKind` | src/axiom_mcp/query/changes.py:57-68 | The diff as computed is the specified one |
| `Changes.PatchRestoresHead` | src/axiom_mcp/query/changes.py:57-68 | The baseline without the removed, with the added and the modified put in, is exactly the head |
| `Changes.DiffTurnsAround` | src/axiom_mcp/query/changes.py:57-68 | Swapping the arguments swaps added with removed and before with after, and nothing else |
| `Changes.EmptyDiffMeansEqual` | src/axiom_mcp/query/changes.py:44-68 | The diff is empty if and only if the two sides are the same, fact for fact |
| `Changes.DiffersIsReal` | src/axiom_mcp/query/changes.py:44-47 | Comparing without the identity fields finds a difference exactly when the documents differ |
| `Changes.Compare` | src/axiom_mcp/query/changes.py:102-215 | Each refusal is given exactly in its case, and a comparison made has the diffs and totals of every project |
| `Changes.ScopesPatchBack` | src/axiom_mcp/query/changes.py:183-215 | Applying a comparison turns every project of the baseline into the head's |
| `Changes.ChangeFactsAreHeadDocuments` | src/axiom_mcp/tools/query.py:448-470 | The facts an answer carries are exactly the head's documents that are new or different, as the head holds them |

## Left out

- Graph.outgoing and Graph.incoming of one generation: the scope's own indexes are modelled instead.
- Narrowing a scope to chosen projects, response projections, counts per kind and per project, warning texts: rendering around the modelled answers.
- The operations `context`, `neighbors`, `callers` and `dependencies`: thin uses of the bounded walk.
- Field-by-field validation of documents, selectors and keys; the argument checks of constructors appear as `requires` (cache and retention limits at least 1), except the guard's timeout, which is `GuardEngine.ResolveTimeout`.
- Platform lock primitives, file identity, symbolic-link checks and path resolution: a try succeeds, is busy or breaks, and an identity matches, differs or is unreadable. A failing close of a handle is not modelled.
- One guard object used by several threads at once: `GuardEngine` is one thread's use of it; `Lifecycle` models the sharing only as who put a lock there, and takes the guard in one step, so acquisitions interleaved on one guard object are not modelled.
- Lifecycle.Next: the condition variable's wait is one step that ends when nothing is in flight or the time is up; wake-ups in between, readiness and elapsed times are not modelled.
- Lock emptiness after a drain that timed out: a query still inside its bounded wait can take the guard after the release, as the code allows.
- Fairness: that a blocked waiter is eventually granted depends on the others releasing; `GuardProtocol.EveryWaitCanBeServed` says that it always remains possible.
- The `kinds` filter of the symbol search: exact hits of unselected kinds count toward the limit there; the modelled search is the unfiltered one.
- Streaming and rendering of a loaded snapshot; parsing, hashing and JSON encoding themselves.
- Freezing of retained documents is an arbitrary function; `Retention.RetainedSize` measures an abstract object graph, not CPython's own sizes.
- Changes.Compare: restricting the comparison to chosen projects is not modelled.
