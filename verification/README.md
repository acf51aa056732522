# Verified model of the job graphs, the diamond invoicing and the statutory numbering

This project models the parts of the Odoo add-ons whose correctness rests on several
functions working together, and proves what they promise. `dafny verify dfyconfig.toml`
checks all of it.

**Job graphs and their execution (`queue_job`).** `chain`, `group` and `on_done` build nested
terms of jobs. `Delayables` gives a term its meaning as a partial order of jobs, stated without
heads, tails or edges. `Preservation` says when a term's flat graph orders the jobs as the term
does. `Webs` models the objects, the graphs they own and the successors `on_done` gives them,
`Connect` the worklist that flattens such a web, `Flattening` what the flat graph of any web is
and when it means what its chains and `on_done` calls mean together, `NestedOnDone` the graph of
nested `on_done`, `OnDoneOrder` when it means what such a nesting means, and `ChainsAsOnDone` when
a chain has the same effect as its members handed on by `on_done`. `Graphs` and `GraphWalks` hold reachability,
`topological_sort` and `paths`. `Delaying` stores a flat graph as jobs; `JobProtocol` and
`JobRuns` are the dependency protocol, one atomic step per method of `Job`; `JobSteps`
says what each step does and that nothing is lost for good, `RetryLimits` when jobs keep to their
number of tries, `IdentityKeys` what a second `delay()` with the same keys does; `Guarantees` joins both ends: what a caller of `delay()` can rely on when the jobs run.

**Invoicing against parcels (`contact_stage_bar`).** `Invoicing` holds orders, stones, parcels
and invoices, with every action that touches them and the write hooks as part of the actions;
`InvoicingRuns` proves what every run keeps and what a handover does, `Handovers` what any
number of handovers do in turn, `MemoReturns` what recording a memo return bills, `ReturnedStones`
which event bills which stone, `ReturnedRuns` which runs bill no returned stone,
`InvoiceGuards` when a write is refused; `InvoiceDesk` is the same actions as code over mutable fields. `Parcelling` makes up parcels by destination.

**Statutory numbering (`contact_stage_bar`).** `Numerals` and `DocSeries` model the format and
the counters, `NumberingRuns` what any run of draws, edits and year rolls issues, `IssuedFormats`
what those numbers look like, and `NumberingRepair` with `RepairRun` the three-pass repair, `NumberingIdempotence` when one run of
it is enough. Rule 46(b) of the Central Goods and
Services Tax Rules, 2017, asks for consecutive, unique numbers of at most sixteen characters
over letters, digits, `-` and `/`.

**Matching and arithmetic.** `OfflinePush` and `OfflineAnswers` group an offline order's lines
into payload entries and file the website's answers; `QuotePricing` prices an RFQ and expands it
into order lines; `AgedBalance`, `GeneralLedger` and `SlipRows` are the reports' bookkeeping.

## Where the code and its documentation part

- `DelayableChain._head` answers with its first member's *tail* and `_tail` with its last
  member's *head* (queue_job/delay.py:330-334). A nested chain can therefore lose an ordering
  the documentation promises (queue_job/README.rst:221-230).
  `Preservation.GraphMeansTermExactlyWhenSeamsHold` says for which terms the graph is right, for
  those and no others; `NestedChainLosesItsFirstJob` is the smallest loss.
- "Using `chain()` has the same effect as using several nested `on_done()`"
  (queue_job/README.rst:221-230). Members handed on by `on_done` always mean what the chain of them
  means (`ChainsAsOnDone.LineMeansTheChain`), and it has the same effect for jobs and groups that
  are not empty (`JobsAndGroupsAlwaysDo`), but not for every chain among the members: over distinct
  jobs the two graphs are equal if and only if nothing with a job follows an empty group and every
  member with something to hold back behind it shows as its tail what `on_done` waits for
  (`OnDoneActsAsChainExactlyWhen`; `ChainInTheMiddleDiffers` is an input).
  Against chains nested the way the `on_done` calls are, the exact condition is another one
  (`NestedOnDone.NestedOnDoneActsAsChainExactlyWhenHeadsKept`, `GroupInTheMiddleDiffers`).
- What is passed to `on_done` "will be executed when the current Chain", or Group, "is done"
  (queue_job/delay.py:343-344, 395-396). On an empty group it is dropped: an object's own graph leads
  to its successors, and their jobs are delayed with it, if and only if it has an exit
  (`Flattening.GraphLeadsToSuccessorsExactlyWhenThereIsAnExit`,
  `NestedOnDone.SuccessorIsDelayedExactlyWhenThereIsAnExit`; `EmptyGroupDropsItsSuccessor` is an
  input). And the heads and tails above lose orderings here as well:
  `OnDoneOrder.NestedOnDoneMeansItsOrderExactlyWhen` is the exact condition over distinct jobs.
- `max_retries` is the number of tries "before giving up" (queue_job/README.rst:298-300). A
  serialisation failure of the database, or the death of the worker, is counted but put back without
  a look at the limit (queue_job/controllers/main.py:112-131, queue_job/jobrunner/runner.py:319-361):
  `RetryLimits.RunKeepsLimitsExactlyWhen` says when a run keeps to the limits,
  `LastTryIsNotTheLast` is an input, and by `ConflictsNeverFail` there is no bound at all.
- With identity keys, `delay()` stores nothing once every job that has a key is queued
  (queue_job/delay.py:264-288). The graph's jobs without a key are then lost, and only those
  (`Delaying.LostExactlyWhenUnkeyed`).
- The repair's docstring calls it idempotent. It advances the counters only after renumbering,
  so a counter that is behind can hand a document the very number it had.
  `NumberingIdempotence.IdempotentExactlyWhenNothingComesAgain` is the exact condition on the
  series, the counters and the numbers in circulation, `NumberingRepair.LaggingCounterClashes` an
  input that needs a second run, and `TwoRunsConverge` holds from every state from which neither
  run is refused.
- A handover marks every stone of the parcel dispatched, dead ones included, which makes an
  unbilled dead stone count as live again. `InvoicingRuns.HandOverBillsAllUnlessItRevives` gives
  the exact condition under which a handover leaves nothing unbilled,
  `Handovers.HandoverRevivesUnbilledStone` an input where it leaves something.
- "Nothing is ever invoiced for a returned stone"
  (contact_stage_bar/models/lgd_customer_invoice.py:542, 590). When a round closes the parcel as a
  sale, a returned stone still in inspection looks unsold, and the next hook that finds the order
  ready drafts it: the round's own (`MemoReturns.NothingReturnedIsBilledExactlyWhen`,
  `ReturnedStoneIsBilled`) or a later one (`ReturnedRuns.ReturnedStoneIsBilledLater`).
  `ReturnedStones.EventBillsExactlyWhen` says which event bills a stone,
  `ReturnedRuns.NoReturnedStoneIsBilledExactlyWhen` when a run bills no returned one, and
  `CarefulRunsBillNoReturnedStone` what a run has to keep away from so that none can be.
- The offline push matches answers by line reference "never by position". A reference that names
  no line of the order falls through to the certificate, and then the order of the entries does
  matter: `OfflineAnswers.OrderFreeExactlyWhenNoneCompete`, `StrayReferenceMakesOrderMatter`.
- A parcel's entry is "pinned" to the line that holds its number
  (contact_stage_bar/models/lgd_offline_push.py:383-386). While payloads go out line by line, which
  is the default, a live slice that comes before that line can be numbered and take the parcel over:
  `OfflineAnswers.HeadCanBeLostExactlyWhen`. No number ever changes (`IdentityIsForLife`).
- The RFQ's order total is said to be the sum of its lines by construction. It is, exactly when
  every row keeps its weight; half a carat rounds to no stone (`QuotePricing.HalfCaratIsLost`).
- `_rfq_stone_count` "mirrors `_build_offline_order_lines` exactly"
  (contact_stage_bar/models/customer_rfq.py:672-681). It does unless the RFQ is a melee parcel whose
  header still holds a quantity above one (`QuotePricing.StoneCountMirrorsExactlyWhen`,
  `StaleQuantityIsCounted`).

## Model

| member | source | states |
|---|---|---|
| `Delayables.BeforeIsStrictOrder` | queue_job/README.rst:221-230 | a chain/group term over distinct jobs means a strict partial order of its jobs |
| `Delayables.HeadAndTailAreJobs` | queue_job/delay.py:330-386 | heads and tails, as the code computes them for the three classes, are jobs of the term |
| `Delayables.BeforeAcrossMembers` | queue_job/README.rst:221-230 | two jobs of different members of a term are ordered exactly when it is a chain and the members are |
| `Preservation.TermGraphIsSound` | queue_job/delay.py:172-212 | for every term over distinct jobs the flat graph is acyclic and orders nothing the term does not order |
| `Preservation.GraphMeansTermExactlyWhenSeamsHold` | queue_job/delay.py:172-212 | reachability in the flat graph is the term's order if and only if, at every seam of every chain inside it, the left tail comes last and the right head comes first |
| `Preservation.SeamsSuffice` | queue_job/delay.py:319-334 | terms whose seams hold lose no ordering |
| `Preservation.SeamsAreNeeded` | queue_job/delay.py:319-334 | a seam that does not hold loses an ordering |
| `Preservation.WalkCrossesSeam` | queue_job/delay.py:319-328 | any walk over a seam passes from the tail of the member before it to the head of the member after it |
| `Preservation.PlainEndsSuffice` | queue_job/delay.py:376-386 | non-empty groups, and nested chains that begin and end with a job or a group of jobs, are enough for the graph to mean the term |
| `Preservation.NestedChainLosesItsFirstJob` | queue_job/delay.py:330-334 | in chain(x, chain(chain(a, b), c)) the job a does not wait for x, though the term says so |
| `Connect.ConnectTails` | queue_job/delay.py:172-186 | every tail gains an edge to every head, and no other edge appears |
| `Connect.MergeGraph` | queue_job/delay.py:172-186 | merging one object's graph adds exactly what its vertices contribute |
| `Connect.ConnectGraphs` | queue_job/delay.py:188-212 | the worklist terminates on any finite web, cyclic links included, and returns the union of the contributions of exactly the graphs reachable from the root |
| `Connect.UnionIsUnique` | queue_job/delay.py:188-212 | that union is one graph, whatever the order of visiting |
| `Flattening.FlatGraphIsClosed` | queue_job/delay.py:188-212 | in the flat graph of any web every neighbour is a vertex, and every vertex is a job |
| `Flattening.LinkedWebFlattens` | queue_job/delay.py:188-212 | however on_done was used, the flat graph has the jobs of the objects that can be reached, and exactly the edges of those objects and of their handovers to successors |
| `Flattening.LinkedWebMeansItsOrder` | queue_job/delay.py:188-212 | the flat graph of any web orders nothing its chains and on_done calls do not mean together, is acyclic if they do not contradict each other, and orders all they mean where every seam and every handover holds |
| `NestedOnDone.PlanFlattens` | queue_job/delay.py:340-401 | on_done nested to any depth: the flat graph read off the nesting |
| `ChainsAsOnDone.OnDoneActsAsChainExactlyWhen` | queue_job/README.rst:221-230 | over distinct jobs, m1.on_done(m2.on_done(...)) flattens to the graph of chain(m1, m2, ...) if and only if nothing with a job follows an empty group and, wherever something is held back, the member before it shows as its tail what on_done waits for |
| `ChainsAsOnDone.LineMeansTheChain` | queue_job/README.rst:221-230 | members handed on to each other by on_done mean the order the chain of them means, whatever their shape |
| `ChainsAsOnDone.OnlyChainsShowAnotherTail` | queue_job/delay.py:330-386 | an object shows as its tail what on_done waits for unless it is a chain whose last member shows other jobs at its head than at its tail |
| `ChainsAsOnDone.JobsAndGroupsAlwaysDo` | queue_job/README.rst:221-230 | so jobs and non-empty groups in a line, whatever the groups hold, meet the condition |
| `ChainsAsOnDone.ChainInTheMiddleDiffers` | queue_job/delay.py:330-353 | with chain(a, group(chain(b, c))) between x and y, on_done makes y wait for c, the chain for b alone |
| `OnDoneOrder.NestedOnDoneMeansItsOrderExactlyWhen` | queue_job/delay.py:340-401 | nested on_done over distinct jobs: the flat graph orders nothing not meant, and has every job and orders all that is meant if and only if no empty group was given a job, every seam holds, and every handover with jobs on both sides waits for jobs that come last and holds back jobs that come first |
| `OnDoneOrder.WalkCrossesHandover` | queue_job/delay.py:340-401 | any walk from an object to something behind it passes from what on_done waits for to the head of what it was given |
| `NestedOnDone.NestedOnDoneActsAsChain` | queue_job/delay.py:330-401 | against chains nested the way the on_done calls are: on_done flattens to their graph where heads are kept |
| `NestedOnDone.NestedOnDoneActsAsChainExactlyWhenHeadsKept` | queue_job/delay.py:330-401 | over distinct jobs it flattens to the graph of those nested chains if and only if no group that shows other heads than tails is given successors behind something to wait for |
| `NestedOnDone.GroupInTheMiddleDiffers` | queue_job/delay.py:330-386 | in x.on_done(group(chain(a, b)).on_done(c)) on_done makes a wait for x, and the chains nested the same way do not |
| `NestedOnDone.JobsInARow` | queue_job/README.rst:208-218 | job1.on_done(job2.on_done(job3)) keeps its heads, its seams hold, and it puts the three in a row |
| `Flattening.GraphLeadsToSuccessorsExactlyWhenThereIsAnExit` | queue_job/delay.py:340-401 | an object's own graph leads to what on_done gave it if and only if the object is no empty group |
| `NestedOnDone.SuccessorIsDelayedExactlyWhenThereIsAnExit` | queue_job/delay.py:392-401 | a job of a successor is a vertex of the flat graph if and only if the object has an exit |
| `NestedOnDone.EmptyGroupDropsItsSuccessor` | queue_job/delay.py:392-401 | after group().on_done(j), j is no vertex of the flat graph |
| `NestedOnDone.UntouchedTermFlattens` | queue_job/delay.py:188-212 | a term nobody called on_done on flattens to exactly the graph of the term |
| `Webs.Objects.Create` | queue_job/delay.py:319-328 | each new job, chain or group gets the graph its class builds and no successors, the others keep theirs, and an empty chain is refused |
| `Webs.Objects.OnDone` | queue_job/delay.py:340-401 | the children join the successors of the object; every object owns the graph it was born with and an edge from each exit to each successor, after any number of calls |
| `GraphWalks.WithEdgeAddsOneEdge` | queue_job/delay.py:76-82 | an added edge is the only new edge, and the graph stays closed |
| `GraphWalks.Graph.AddEdge` | queue_job/delay.py:76-82 | the graph with that edge and both its ends |
| `GraphWalks.Graph.RootVertices` | queue_job/delay.py:147-155 | exactly the vertices no edge points to |
| `GraphWalks.Graph.CountDependencies` | queue_job/delay.py:125-145 | each vertex's count is the number of its parents |
| `GraphWalks.Graph.TopologicalSort` | queue_job/delay.py:125-145 | no vertex twice, parents before children, and left out exactly the vertices on or below a cycle |
| `GraphWalks.ScheduleEnds` | queue_job/delay.py:125-145 | when the queue runs dry, everything not on or below a cycle has been issued |
| `GraphWalks.AncestorsFirst` | queue_job/delay.py:125-145 | with parents first, every ancestor through any number of steps comes first |
| `GraphWalks.PathSearch.Search` | queue_job/delay.py:98-123 | backtracking yields each maximal cycle-free continuation once and restores path and seen |
| `GraphWalks.Graph.Paths` | queue_job/delay.py:98-123 | exactly the maximal cycle-free paths from the vertex, each once |
| `Graphs.WalkBackFindsCycle` | queue_job/delay.py:125-145 | in a finite set where everyone has a parent, walking back runs into a cycle |
| `Delaying.EnsureSameGraphUuid` | queue_job/delay.py:227-246 | one common graph uuid: the known one, a new one for several jobs, none for a single job; two different ones are refused |
| `Delaying.RecordEdges` | queue_job/job.py:477-486 | every edge is recorded on both of its jobs and the dependent waits; a job depending on itself is refused |
| `Delaying.LookUpTwins` | queue_job/delay.py:248-291 | whether every, or any, job's identity key is already queued |
| `Delaying.Delay` | queue_job/delay.py:248-291 | all of the graph is stored, or nothing: refused, or left alone because some job has an identity key and every job that has one is already queued |
| `Delaying.LostExactlyWhenUnkeyed` | queue_job/delay.py:264-288 | a job of the graph is neither stored nor stood for by a queued one if and only if the graph is left alone and the job has no key |
| `Delaying.GeneratedJobs` | queue_job/delay.py:248-262 | the job of a vertex depends on the vertices with an edge to it and waits if there is one, shares a graph with the others, untried, with its own limit and key |
| `IdentityKeys.SecondDelayFindsTheFirst` | queue_job/job.py:338-350 | after a graph with keys was stored and any run since, a second one with the same keys is answered as queued as long as each keyed job is neither started nor ended |
| `IdentityKeys.SpentKeyIsDelayedAgain` | queue_job/delay.py:264-291 | once one of its keys is held only by jobs that are started or ended, all of the second graph is stored |
| `IdentityKeys.UnkeyedIsAlwaysStored` | queue_job/delay.py:264-291 | a graph without keys is stored whatever is queued |
| `Delaying.GeneratedIsValid` | queue_job/delay.py:248-291 | the store delay() leaves satisfies the protocol's invariant |
| `Delaying.GeneratedIsAcyclic` | queue_job/delay.py:248-291 | a store without dependency cycles stays without, if the graph has none |
| `Guarantees.DelayObject` | queue_job/delay.py:248-291 | delaying an object of any web stores its flat graph or nothing, and keeps the invariant; for an untouched term that graph is the term's |
| `Guarantees.NoJobRunsEarly` | queue_job/README.rst:221-230 | for a delayed term whose seams hold: over any run without manual completion, whatever fails or is retried, no job is released or done before every job the term puts before it is done |
| `Guarantees.NoJobOfAWebRunsEarly` | queue_job/README.rst:208-230 | the same for any web, with on_done at any depth: before everything its chains and on_done calls together put before a job |
| `Guarantees.DelayedTermRunsInOrder` | queue_job/README.rst:221-230 | over any run of successes the jobs finish once each and in the term's order, and a run that cannot go on has done them all |
| `Guarantees.DelayedWebRunsInOrder` | queue_job/README.rst:208-230 | the same for any web whose chains and on_done calls do not contradict each other, in the order they mean together |
| `Guarantees.ExecuteGraphDirect` | queue_job/delay.py:293-295 | direct execution performs each job of an acyclic graph once and in its order, which for a term whose seams hold is the term's |
| `JobProtocol.JobStore.EnqueueWaiting` | queue_job/job.py:515-548 | on any store: of the waiting children exactly those whose joined parents are all done become pending |
| `JobProtocol.JobStore.CancelDependentJobs` | queue_job/job.py:550-553 | of the waiting children exactly those whose joined parents are all cancelled are cancelled, one level deep |
| `JobProtocol.JobStore.Advance` | queue_job/job.py:488-513 | one step of the protocol, from start and outcome through retry counting to done, pending or failed, and the requeuing of a job whose worker died |
| `JobProtocol.MovesWhenLinked` | queue_job/job.py:515-543 | on symmetric links inside one graph the parents the query joins are the parents |
| `JobProtocol.MovesWhenReady` | queue_job/job.py:515-543 | on any store a waiting child of the same graph moves exactly when the stored parents of that graph, of which there is one, are all in the required state |
| `JobSteps.EndOfTry` | queue_job/job.py:488-513 | a success is done and releases the last ones waiting for it; a retryable error counts and puts the job back, or fails it on its last allowed try; an ignored one counts nothing; a conflict puts it back; any other error fails it; nothing else changes |
| `JobSteps.OtherStepsDo` | queue_job/job.py:768-813 | what enqueuing, starting, setting to done, cancelling, requeuing and putting back a dead job do to every job |
| `JobSteps.StateDiagram` | queue_job/models/queue_job.py:302-345 | the states a job can get to in one step from each state, and from no other |
| `JobSteps.FailsOnTheLastTry` | queue_job/job.py:488-513 | a job that meets nothing but retryable errors fails on the try that reaches its limit and on no earlier one, and never without a limit |
| `JobSteps.EverythingCanStillBeDone` | queue_job/README.rst:240-251 | from any sound store without circular dependencies, failures and cancellations included, some run without manual completion brings every job to done |
| `JobProtocol.StepKeepsInv` | queue_job/job.py:768-813 | every step, conflicts and dead workers included, keeps links symmetric and inside one graph, and gives every waiting job an unfinished parent and every released job none |
| `RetryLimits.StepKeepsLimitsExactlyWhen` | queue_job/controllers/main.py:112-131 | a step keeps every job within its number of tries if and only if it is no conflict and no dead worker on a job's last allowed try |
| `RetryLimits.RunKeepsLimitsExactlyWhen` | queue_job/job.py:488-513 | the same over any run |
| `RetryLimits.GeneratedIsWithin` | queue_job/delay.py:248-291 | what delay() stores starts within its limits |
| `RetryLimits.ConflictsNeverFail` | queue_job/controllers/main.py:112-131 | whatever its limit, a job that runs into conflicts alone is tried any number of times and still pending |
| `RetryLimits.LastTryIsNotTheLast` | queue_job/controllers/main.py:112-131 | the fifth try of five ends in a conflict and the job is pending with five tries |
| `JobProtocol.RequeuingDoneIsSafeOnlyBeforeRelease` | queue_job/job.py:768-781 | requeuing a done job keeps the invariant if and only if none of its children has been released |
| `JobRuns.RunKeepsInv` | queue_job/job.py:768-813 | the same over any run |
| `JobRuns.RunKeepsDoneOnDone` | queue_job/job.py:795-801 | without manual completion, done jobs stand on done jobs over any run |
| `JobRuns.ParentsOfReleasedAreDone` | queue_job/README.rst:240-251 | what is released, running or done has every parent done |
| `JobRuns.WaitingJobHasABlocker` | queue_job/README.rst:240-251 | a waiting job of an acyclic store is held up by an ancestor that is runnable, failed or cancelled |
| `JobRuns.SomethingCanRun` | queue_job/job.py:515-548 | while nothing is failed or cancelled and something is not done, some job is runnable |
| `JobRuns.SuccessfulRunFinishesInOrder` | queue_job/job.py:795-801 | in a run of successes every job finishes at most once and after its parents |
| `JobRuns.RunUsesItsLength` | queue_job/job.py:783-801 | each successful step uses up exactly one of the steps left |
| `JobRuns.AllSucceedAllDone` | queue_job/README.rst:221-230 | a run of successes is no longer than the work there is, and it cannot go on exactly when every job is done |
| `Numerals.PaddedReadsBack` | contact_stage_bar/models/lgd_doc_series.py:96-100 | a zero-padded number reads back as itself |
| `Numerals.PaddedLength` | contact_stage_bar/models/lgd_doc_series.py:96-100 | it is as long as its width exactly while it fits |
| `Numerals.SplitUndoesFormat` | contact_stage_bar/models/lgd_doc_series.py:348-351 | splitting at the last slash recovers the prefix and the running number of any formatted number |
| `DocSeries.LastNumberDecides` | contact_stage_bar/models/lgd_doc_series.py:128-158 | a series passes its check if and only if every number it has digits for is legal under Rule 46(b) |
| `DocSeries.CheckPassesExactlyWhen` | contact_stage_bar/models/lgd_doc_series.py:128-158 | the check passes if and only if the parts are in bounds and every number in capacity is one to sixteen capitals, digits, dashes and slashes |
| `DocSeries.FyCodeNamesTheYear` | contact_stage_bar/models/lgd_doc_series.py:89-93 | within a century two dates have the same code exactly when they fall in the same April-to-March year |
| `DocSeries.YearRunsFromAprilToMarch` | contact_stage_bar/models/lgd_doc_series.py:89-93 | the twelve months from April on share a code that reads as the two years it spans, and the next April begins another |
| `DocSeries.FurthestIsFirst` | contact_stage_bar/models/lgd_doc_series.py:168-178 | of several counters of a prefix equally far ahead the first is used |
| `DocSeries.DrawAdvances` | contact_stage_bar/models/lgd_doc_series.py:239-262 | a draw hands out the next running number under the series' own prefix, moves that counter past it and no other |
| `NumberingRuns.Numbering.Sequence` | contact_stage_bar/models/lgd_doc_series.py:161-190 | the counter of the full prefix that is furthest along, created on first use |
| `NumberingRuns.Numbering.Next` | contact_stage_bar/models/lgd_doc_series.py:239-262 | the drawn number is issued, or everything stays as it was |
| `NumberingRuns.Numbering.RollFinancialYear` | contact_stage_bar/models/lgd_doc_series.py:193-210 | of the series chosen, or of all when none is, those that are behind move to the year's code; refused when none is behind |
| `NumberingRuns.RollAlwaysPasses` | contact_stage_bar/models/lgd_doc_series.py:193-210 | rolling the year never makes a series fail its check |
| `NumberingRuns.StepKeepsInv` | contact_stage_bar/models/lgd_doc_series.py:161-262 | every action keeps one counter per prefix standing right after an unbroken row of issued numbers |
| `NumberingRuns.IssuedNumbersAreStatutory` | contact_stage_bar/models/lgd_doc_series.py:161-262 | over any run the issued numbers are pairwise distinct even across series that share a prefix, legal, and gapless per full prefix |
| `IssuedFormats.IssuedInTheFoundersFormat` | contact_stage_bar/models/lgd_doc_series.py:96-100 | over any run the numbers issued under a prefix are, one after the other, the format of the series that drew under it first, from its Start No on; equally long within its digits |
| `IssuedFormats.NextDrawIsDue` | contact_stage_bar/models/lgd_doc_series.py:239-262 | wherever a run has got to, a draw is refused if and only if the number due has more than sixteen characters, and hands out that number otherwise |
| `IssuedFormats.FirstDraw` | contact_stage_bar/models/lgd_doc_series.py:161-190 | without a counter of its prefix a series draws its own format at Start No, never below one |
| `NumberingRepair.MergedStandsFurthest` | contact_stage_bar/models/lgd_doc_series.py:299-314 | after merging there is one counter per prefix, standing where the furthest of its group stood |
| `NumberingRepair.MergedKeepsOldest` | contact_stage_bar/models/lgd_doc_series.py:299-314 | every row that stays is, prefix and padding, the first row of its group |
| `NumberingRepair.RenumberLeaves` | contact_stage_bar/models/lgd_doc_series.py:316-338 | from any counters, renumbering leaves a number twice exactly when a fresh number met one already seen, and then in the hands of a series that has a counter |
| `NumberingRepair.OneRunSettles` | contact_stage_bar/models/lgd_doc_series.py:277-366 | one run from any state leaves one counter per prefix and each past every number issued under it |
| `NumberingRepair.TwoRunsConverge` | contact_stage_bar/models/lgd_doc_series.py:277-366 | after two runs that are not refused no field holds a number twice, every counter is past every issued number, and a third run changes nothing |
| `NumberingIdempotence.IdempotentExactlyWhenNothingComesAgain` | contact_stage_bar/models/lgd_doc_series.py:277-366 | for any series, counters and numbers held: one run is enough for every registry over them if and only if no series repaired can still render, with the counter it has after merging or would create, one of those numbers |
| `NumberingIdempotence.OneRunWhenNothingComesAgain` | contact_stage_bar/models/lgd_doc_series.py:316-361 | then the earliest holder keeps each number, later ones get numbers nobody held, and a second run changes nothing |
| `NumberingRepair.OneRunFromCountersAhead` | contact_stage_bar/models/lgd_doc_series.py:277-366 | with counters ahead one run suffices, the earliest holder keeps each number and later ones get numbers no document had |
| `NumberingRepair.CleanIsLeftAlone` | contact_stage_bar/models/lgd_doc_series.py:277-366 | a registry with nothing to repair is left exactly as it is |
| `NumberingRepair.LaggingCounterClashes` | contact_stage_bar/models/lgd_doc_series.py:316-361 | a counter behind hands the second document the number it already had, and a second run is needed |
| `RepairRun.Desk.MergeCounters` | contact_stage_bar/models/lgd_doc_series.py:299-314 | pass 1 in place, equal to its specification |
| `RepairRun.Desk.RenumberField` | contact_stage_bar/models/lgd_doc_series.py:316-338 | pass 2 on one field, equal to its specification |
| `RepairRun.Desk.AdvanceCounters` | contact_stage_bar/models/lgd_doc_series.py:340-361 | pass 3 on one field, equal to its specification |
| `RepairRun.Desk.RepairNumbering` | contact_stage_bar/models/lgd_doc_series.py:277-366 | the three passes together, or nothing when a draw is refused |
| `Invoicing.OpenDraft` | contact_stage_bar/models/lgd_customer_invoice.py:335-340 | an open draft of the order, if there is one |
| `Invoicing.PreparedBills` | contact_stage_bar/models/lgd_customer_invoice.py:343-376 | preparing bills exactly the invoiceable stones, on one draft, and touches no other bill |
| `Invoicing.WithdrawRestores` | contact_stage_bar/models/lgd_customer_invoice.py:416-466 | whatever a write put out on approval is off the order's draft afterwards |
| `Invoicing.NarrowKeepsInv` | contact_stage_bar/models/lgd_customer_invoice.py:390-413 | cutting the draft down to a parcel keeps the books sound |
| `Invoicing.MoveKeepsInv` | contact_stage_bar/models/lgd_customer_invoice.py:528-596 | the write on the stones' parcel link, guard and hooks included, keeps the books sound |
| `Invoicing.ParcelWriteKeepsInv` | contact_stage_bar/models/lgd_customer_invoice.py:565-615 | the write on a parcel's type or state, guard and hooks included, keeps the books sound |
| `InvoiceGuards.MoveRefusedExactlyWhen` | contact_stage_bar/models/lgd_customer_invoice.py:528-547 | moving stones is refused if and only if the parcel is a memo and one of them is on a posted invoice |
| `InvoiceGuards.SwitchRefusedExactlyWhen` | contact_stage_bar/models/lgd_customer_invoice.py:578-611 | a change of type is refused if and only if a sale becomes a memo with a stone of it on a posted invoice |
| `InvoiceGuards.DraftedStoneGoesOutOnMemo` | contact_stage_bar/models/lgd_customer_invoice.py:549-563 | a stone that moves onto a live memo parcel is moved and is on no standing invoice afterwards |
| `InvoiceGuards.PostingPossibleExactlyWhen` | contact_stage_bar/models/lgd_customer_invoice.py:470-520 | posting from the order is possible if and only if it is confirmed and has a draft, or is ready with something unbilled |
| `InvoiceGuards.HandOverRefusedExactlyWhen` | contact_stage_bar/models/lgd_dispatch.py:306-370 | a draft parcel's handover is refused if and only if it is the sale of a quotation with a stone of it on a draft |
| `InvoiceGuards.RoundAcceptedExactlyWhen` | contact_stage_bar/wizard/lgd_dispatch_wizards.py:224-300 | what a round of a memo return may record |
| `InvoiceGuards.RoundLeavesParcel` | contact_stage_bar/wizard/lgd_dispatch_wizards.py:392-408 | a round that leaves nothing undecided closes the parcel, as a sale if and only if some stone of it was kept; any other leaves it as it was |
| `InvoiceGuards.OthersRefusedExactlyWhen` | contact_stage_bar/models/lgd_dispatch.py:600-665 | when the remaining actions are refused |
| `InvoiceGuards.ParcelDiagram` | contact_stage_bar/models/lgd_dispatch.py:600-665 | the states a parcel can get to in one action from each state, and from no other |
| `InvoicingRuns.StepKeepsInv` | contact_stage_bar/models/lgd_customer_invoice.py:301-615 | every action keeps: no stone billed twice, one open draft per order, nothing out on approval billed |
| `InvoicingRuns.MemoReturnKeepsInv` | contact_stage_bar/wizard/lgd_dispatch_wizards.py:224-456 | so does recording a memo return |
| `MemoReturns.MemoReturnBills` | contact_stage_bar/wizard/lgd_dispatch_wizards.py:367-408 | every stone the client keeps is on a posted invoice afterwards; an unbilled stone that came back becomes billed if and only if the round closes the parcel as a sale into a ready order and that stone is alive on it |
| `MemoReturns.NothingReturnedIsBilledExactlyWhen` | contact_stage_bar/models/lgd_customer_invoice.py:578-596 | of the round's own write: it bills nothing that came back if and only if it does not close the parcel into a ready order, or leaves no unbilled returned stone alive |
| `ReturnedStones.EventBillsExactlyWhen` | contact_stage_bar/models/lgd_customer_invoice.py:343-387 | any action bills a stone no standing invoice bears, other than by keeping it, if and only if it runs the invoice hook on the stone's order, the order is ready after the write, and the stone is live and not out on memo there |
| `ReturnedRuns.StepBillsNoReturnedExactlyWhen` | contact_stage_bar/models/lgd_customer_invoice.py:548-576 | an action leaves every returned stone unbilled if and only if its hook finds none of them to bill in a ready order |
| `ReturnedRuns.NoReturnedStoneIsBilledExactlyWhen` | contact_stage_bar/models/lgd_customer_invoice.py:578-596 | the same over any run |
| `ReturnedRuns.StepKeepsAtRestExactlyWhen` | contact_stage_bar/models/lgd_dispatch.py:380-405 | an action leaves every returned stone dead or out on memo if and only if it closes no parcel as a sale over a returned stone that is alive, revives none off memo and takes no live one off its memo |
| `ReturnedRuns.CarefulRunsBillNoReturnedStone` | contact_stage_bar/models/lgd_customer_invoice.py:578-596 | over any run they stay so if and only if every action is as careful, and then none is ever billed |
| `ReturnedRuns.ReturnedStoneIsBilledLater` | contact_stage_bar/models/lgd_inventory_sale_line.py:270-302 | a round that bills nothing, the order not being ready, and the vault action that then bills the returned stone |
| `MemoReturns.ReturnedStoneIsBilled` | contact_stage_bar/wizard/lgd_dispatch_wizards.py:392-408 | two stones on memo, one kept, one returned to inspection: the returned one is billed |
| `InvoicingRuns.NeverBilledTwiceNorOnApproval` | contact_stage_bar/models/lgd_customer_invoice.py:315-376 | over any run from an empty system no stone is on two standing invoices, no order has two open drafts, and no undecided stone on a live memo is on a standing invoice |
| `InvoicingRuns.NarrowAndPost` | contact_stage_bar/models/lgd_customer_invoice.py:390-413 | narrowing then posting posts the draft's stones of the parcel, takes the others off and leaves no draft |
| `InvoicingRuns.TryCreateBills` | contact_stage_bar/models/lgd_customer_invoice.py:379-387 | on a ready order it posts nothing and bills all there is to bill |
| `InvoicingRuns.HandOverBillsTheParcel` | contact_stage_bar/models/lgd_dispatch.py:346-380 | handing over a sale parcel of a ready order newly posts only stones of the parcel and all of its stones still to bill; the rest are re-drafted, each stone on one invoice |
| `InvoicingRuns.HandOverBillsAllUnlessItRevives` | contact_stage_bar/models/lgd_dispatch.py:380-405 | afterwards every live stone not out on memo is billed if and only if the parcel held no dead unbilled stone |
| `Handovers.HandoverRevivesUnbilledStone` | contact_stage_bar/models/lgd_dispatch.py:380-405 | a ready order whose parcel holds a live stone and one that died unbilled: after the handover the latter is live and on no invoice |
| `Handovers.ConsecutiveHandoversLoseNone` | contact_stage_bar/models/lgd_dispatch.py:346-380 | over any number of handovers of one ready order, in turn, whose parcels' dead stones are posted and in the vault: every stone then to bill is on exactly one standing invoice, all the parcels carried to bill is posted, and nothing else newly is |
| `InvoiceDesk.Desk.PrepareInvoiceForLines` | contact_stage_bar/models/lgd_customer_invoice.py:343-376 | the new books are those of `Prepared`; a quotation is refused |
| `InvoiceDesk.Desk.TryCreateInvoice` | contact_stage_bar/models/lgd_customer_invoice.py:379-387 | the new books are those of `TryCreated` |
| `InvoiceDesk.Desk.NarrowDraftToParcel` | contact_stage_bar/models/lgd_customer_invoice.py:390-413 | the new books are those of `Narrowed` |
| `InvoiceDesk.Desk.WithdrawMemoLinesFromDraft` | contact_stage_bar/models/lgd_customer_invoice.py:416-466 | the new books are those of `Withdrawn` |
| `InvoiceDesk.Desk.PostDraft` | contact_stage_bar/models/lgd_customer_invoice.py:107-168 | the order's draft is posted; a quotation is refused |
| `InvoiceDesk.Desk.SyncInvoiceScope` | contact_stage_bar/models/lgd_customer_invoice.py:565-576 | the new books are those of `Synced` |
| `InvoiceDesk.Desk.MoveToParcel` | contact_stage_bar/models/lgd_customer_invoice.py:528-605 | the new books are those of `Moved`, or the write is refused |
| `InvoiceDesk.Desk.HandOver` | contact_stage_bar/models/lgd_dispatch.py:306-405 | the new books are those of `HandedOut`, or nothing happens |
| `Parcelling.Destinations` | contact_stage_bar/models/lgd_inventory_sale_line.py:345-347 | the destinations of the selection, each once |
| `Parcelling.Dispatch.MakeParcels` | contact_stage_bar/models/lgd_inventory_sale_line.py:309-386 | refuses exactly the unsendable selections and then changes nothing; otherwise makes the groups' parcels one by one |
| `Parcelling.GroupsAreIndependent` | contact_stage_bar/models/lgd_dispatch.py:260-269 | in whatever order the groups are taken, each parcel and its approval are what the stones at the start call for |
| `Parcelling.OnePressOneParcelPerDestination` | contact_stage_bar/models/lgd_inventory_sale_line.py:309-386 | non-empty parcels, one per destination, each selected stone in the one of its destination; no approval needed exactly when no live unparcelled stone of the order remains for it, else approved or pending as the order allows sending in part |
| `OfflinePush.FirstIsFirst` | contact_stage_bar/models/lgd_offline_push.py:986-994 | of the lines that suit, the one the form lists first |
| `OfflinePush.MatchIsFor` | contact_stage_bar/models/lgd_offline_push.py:978-994 | a reference to a line of the order wins; otherwise the first unnumbered line of the certificate; only without one that of the stock number |
| `OfflinePush.FiledExactlyWhen` | contact_stage_bar/models/lgd_offline_push.py:1000-1031 | an entry with an id numbers the line it is for unless that one has a number or another holds the id, and touches nothing else |
| `OfflinePush.GroupReads` | contact_stage_bar/models/lgd_offline_push.py:375-419 | which lines a payload entry holds, and that its head is the lowest with a number, failing that the lowest that lives |
| `OfflinePush.Order.MatchEntry` | contact_stage_bar/models/lgd_offline_push.py:978-994 | by reference, else by certificate, else by stock number, the last two among unnumbered lines |
| `OfflinePush.Order.StoreIds` | contact_stage_bar/models/lgd_offline_push.py:940-1037 | files a response entry by entry; the result counts the lines newly numbered |
| `OfflinePush.Order.OfflineGroups` | contact_stage_bar/models/lgd_offline_push.py:375-419 | one complete group for every entry some live line belongs to, none twice, in order of first live line, each with its pinned head |
| `OfflinePush.Order.NeedsPush` | contact_stage_bar/models/lgd_offline_push.py:1051-1072 | an unpushed offline order is due exactly while some live line's entry holds no number anywhere in its kin |
| `OfflineAnswers.NeverOverwrites` | contact_stage_bar/models/lgd_offline_push.py:940-1037 | whatever arrives, no number is overwritten and nothing but numbers of the order's lines changes |
| `OfflineAnswers.IdsStayUnique` | contact_stage_bar/models/lgd_offline_push.py:1014-1031 | whatever arrives, no two lines come to hold one id |
| `OfflineAnswers.OrderFreeExactlyWhenNoneCompete` | contact_stage_bar/models/lgd_offline_push.py:970-1033 | with distinct ids, every arrangement of the response leaves every database the same if and only if no two entries compete for a line |
| `OfflineAnswers.DistinctReferencesSuffice` | contact_stage_bar/models/lgd_offline_push.py:970-1033 | entries that name distinct lines of the order store the same in any order |
| `OfflineAnswers.StrayReferenceMakesOrderMatter` | contact_stage_bar/models/lgd_offline_push.py:981-990 | a reference to no line of the order may take the line another entry names |
| `OfflineAnswers.PushEndsExactlyWhenAllAreAnswered` | contact_stage_bar/models/lgd_offline_push.py:1051-1072 | after usable answers nothing waits exactly when every live line's entry was numbered before or is answered |
| `OfflineAnswers.AnsweredPayloadEndsThePush` | contact_stage_bar/models/lgd_offline_push.py:1051-1072 | a payload of either shape whose every entry is answered leaves nothing waiting |
| `OfflineAnswers.OneNumberPerEntry` | contact_stage_bar/models/lgd_offline_push.py:378-388 | as long as payloads go out parcel by parcel no parcel's entry ever holds two numbers |
| `OfflineAnswers.UnansweredIsSentAgain` | contact_stage_bar/models/lgd_offline_push.py:1051-1072 | a payload lost, or answered without an id, leaves the lines as they were and goes out again with the same heads |
| `OfflineAnswers.IdentityIsForLife` | contact_stage_bar/models/lgd_offline_push.py:378-388 | over any run of payloads of either shape sent, answered and lost, and of slices dying and coming back in between, a number stays with its line; and the line a parcel is pinned to stays its head as long as no payload line by line goes out while a live slice comes before it |
| `OfflineAnswers.HeadCanBeLostExactlyWhen` | contact_stage_bar/models/lgd_offline_push.py:334-338 | some answer to a payload takes the parcel from the line it is pinned to if and only if the payload is line by line and a live slice of the parcel comes before that line |
| `OfflineAnswers.DeadHeadStillAnswered` | contact_stage_bar/models/lgd_offline_push.py:960-968 | a head that dies between the push and the answer is numbered and stays the head |
| `QuotePricing.Quote.CountStones` | contact_stage_bar/models/customer_rfq.py:672-691 | the stone count of the RFQ |
| `QuotePricing.Quote.ComputePricingTotals` | contact_stage_bar/models/customer_rfq.py:699-822 | rate, order total and price per stone |
| `QuotePricing.Quote.BuildOfflineOrderLines` | contact_stage_bar/models/customer_rfq.py:1376-1470 | the expansion into lines, or an error past the threshold |
| `QuotePricing.Quote.CreateOfflineOrder` | contact_stage_bar/models/customer_rfq.py:1254-1305 | the pricing guard, the unit price and the expansion together |
| `QuotePricing.LinesWorth` | contact_stage_bar/models/customer_rfq.py:1390-1440 | the lines come to the rate times the weight of the generated stones, as many as counted |
| `QuotePricing.OrderTotalIsPricePlusMargin` | contact_stage_bar/models/customer_rfq.py:699-822 | the order total is the price of the weight, or of the size lines at their own costing, plus the margin, times the quantity of a header without size lines |
| `QuotePricing.OneMoreRowAdds` | contact_stage_bar/models/customer_rfq.py:722-750 | what a size line adds to the weight, in carats or in pieces, and to the costing |
| `QuotePricing.WeightOfQuote` | contact_stage_bar/models/customer_rfq.py:722-750 | the size lines' weight counts first, then the header's carats, then the total carats |
| `QuotePricing.RateIsPricePerCarat` | contact_stage_bar/models/customer_rfq.py:776-822 | rate times weight and price per stone times count are the order total |
| `QuotePricing.TooManyStonesAreRefused` | contact_stage_bar/models/customer_rfq.py:1390-1460 | a priced RFQ makes no order if and only if it counts no stone, or more than fifty from one line or from its header |
| `QuotePricing.LinesAddUpExactlyWhenRowsKeepTheirWeight` | contact_stage_bar/models/customer_rfq.py:1254-1470 | when the order is created, that it has the priced number of lines, and that their prices add up to the order total if and only if every row keeps its weight |
| `QuotePricing.StoneCountMirrorsExactlyWhen` | contact_stage_bar/models/customer_rfq.py:672-691 | any order created has as many lines as the stone count unless the RFQ is a melee parcel with a quantity above one |
| `QuotePricing.StaleQuantityIsCounted` | contact_stage_bar/models/customer_rfq.py:1446-1452 | a melee parcel that kept a quantity of three: three counted, one line made |
| `QuotePricing.HalfCaratIsLost` | contact_stage_bar/models/customer_rfq.py:1390-1397 | a row of half a carat makes the lines fall short of the order total |
| `AgedBalance.Periods` | accounting_pdf_reports/report/report_aged_partner.py:26-40 | five adjoining periods ending the day before the report's date |
| `AgedBalance.BucketsPartitionTheDates` | accounting_pdf_reports/report/report_aged_partner.py:26-40 | every due date is found by exactly one of the six queries |
| `AgedBalance.BucketsAreDaysOverdue` | accounting_pdf_reports/report/report_aged_partner.py:26-40 | each query finds what is overdue by so many periods, the last what is not overdue |
| `AgedBalance.SettledItemsAddNothing` | accounting_pdf_reports/report/report_aged_partner.py:102-131 | an item settled on or before the date adds nothing, one settled later all of its balance |
| `AgedBalance.ReconcilingMovesNothing` | accounting_pdf_reports/report/report_aged_partner.py:102-131 | reconciling two items moves the amount between them and leaves their sum |
| `AgedBalance.BucketsLoseNothing` | accounting_pdf_reports/report/report_aged_partner.py:90-188 | a partner's six amounts add up to all of the partner's items |
| `AgedBalance.PartnerLines` | accounting_pdf_reports/report/report_aged_partner.py:84-232 | rows, column totals and grand total; each row's total is all the partner's items, and the grand total is the not-due total plus the five columns |
| `GeneralLedger.RunningBalances` | accounting_pdf_reports/report/report_general_ledger.py:63-116 | for any interleaving, each row's balance is its own account's debit less credit up to and including it, opening row included |
| `GeneralLedger.LastBalanceIsTheTotal` | accounting_pdf_reports/report/report_general_ledger.py:118-129 | an account's last balance is its total debit less its total credit |
| `GeneralLedger.AccountTotals` | accounting_pdf_reports/report/report_general_ledger.py:118-129 | an account's debit, credit and last balance, the last their difference |
| `SlipRows.GroupSlipRows` | contact_stage_bar/models/lgd_inventory_sale_line.py:48-91 | the rows are the classes of stones that share one, each standing where its first stone stood and summing its class |
| `SlipRows.SharesExactlyWhen` | contact_stage_bar/models/lgd_inventory_sale_line.py:72-76 | two stones share a row if and only if neither is certified and they agree in all seven attributes, the shape whatever its case |
| `SlipRows.GroupingLosesNothing` | contact_stage_bar/models/lgd_inventory_sale_line.py:48-91 | certified stones are never merged, no two uncertified rows are of one kind, and all four totals are kept |

## Left out

- HTTP, the ORM, SQL text, access groups, chatter, stock pickings and report rendering: input and output without a property to decide.
- The job runner and the controllers: beyond how a try may end and how a dead job is put back, their part is stated as when a step may be taken; steps are serialised, a job starts only once enqueued, done is followed by releasing the children.
- Delaying.Delay: models jobs built for the first time; delaying the same objects again, which reuses their jobs, and which queued job is handed back on an identity match, are not modelled.
- `JobProtocol`: no deletion of old jobs, no dates, results or error texts; requeuing a done job is not a step, and its lemma says when it would be safe. Cancelling a done job, which only the form's buttons keep a user from, is not a step either.
- Guarantees.DelayObject: the same; a web with a job that is already stored is not delayed again.
- Transitive cancellation: the code cancels one level, and nothing more is claimed.
- Float rounding, currency conversion and carat texts: money and weights are exact reals, a carat text is read elsewhere.
- Unicode: digits and upper case are ASCII, where the code's string methods know more.
- Counters of `ir.sequence` that are inactive, dated or step by more than one: a counter is a prefix, a width and a next number.
- The numbers on posted invoices: the repair reports duplicates there and leaves them, so there is nothing to prove.
- Writes that move stones onto another order's parcel, bring a cancelled parcel back, or reset a posted invoice to draft: not among the actions of `Invoicing`.
- Bulk writes over several orders: one action per order, in any order.
- InvoiceDesk.Desk.PostDraft: the statutory number drawn while posting, and its fallback, are not modelled; a refused draw is a refused posting.
- Stones that die after being drafted: nothing takes them off the draft, and no property is claimed of it.
- QuotePricing.Quote.CreateOfflineOrder: the guards on the RFQ's stage, customer and exchange rate, which refuse before anything is priced, are not modelled.
- InvoiceDesk.Desk.HandOver: the approval, paperwork and stock refusals, which come before anything is written, are not modelled.
- MemoReturns.MemoReturnBills: which returned stones can enter inspection depends on their purchase lines and is an argument of the round.
- The margin percentage of a quote: any number; the lookup by weight band would only add a table.
- OfflineAnswers.IdentityIsForLife: one answer is out at a time, as a push stores its answer before it returns.
- OfflinePush.Order.OfflineGroups: the type and size line of a line are fixed; editing them while a push is under way is not modelled.
- AgedBalance.PartnerLines: the list of items behind each partner's row is not built, and all-zero rows are not dropped.
- SlipRows.GroupSlipRows: the carats text of a merged row, a formatted number, is not built.
- Job argument encoding, payment roll-ups, margins, menus, telephony and analytics: they would only add easy members.
