# Uniface workflow engine, routing and balancing: a verified model

This project models four parts of the Uniface library in Dafny and proves what they promise.

* **The in-memory DAG workflow engine.** An engine drives instances through validated graphs. Each
  instance has a status, a current node, a sequence number, a snapshot, an append-only journal, a
  saga stack and a waiting record. Callers start instances, deliver signals, cancel, tick
  (`RunOnce`) and drain. Every hop goes through `CommitHop`, which ignores a commit whose
  (idempotency key, journal kind) is already in the journal.
* **Graph validation and priority routing.** A three-colour cycle search, a reachability search with
  shared marks, and the choice of the first matching transition.
* **Smooth weighted round robin.**
* **The consistent hash ring.**

## How it is built

Code that works step by step stays imperative: `LineStores.LineStore`, `Engines.Engine`,
`GraphSearch`, `WeightedRoundRobin.WeightedBalancer` and `ConsistentHash.Ring` hold the source's
fields and change them in the source's order. Each method of the store and the engine is proved equal,
error included, to a function on the value `Lines.Store` (modules `Lines`, `Scheduling`, `Draining`).
What those functions guarantee is then proved in layers:

* `History` reads a journal (`Trail`: the nodes it committed, `Frames`: the saga frames it pushed,
  `Undone`: its compensations) and states the record invariant; `Preservation`, `Steps`,
  `InstanceSteps` show that every step of the scheduler keeps it.
* `Effects` says, for any store, which journal entries each function may append; `Chronicles` builds
  on it what a run leaves on record.
* `Runs` defines a run as any sequence of public calls from the empty store. A tick happens in a
  `World`: an arbitrary clock, an arbitrary order for every map range, and arbitrary answers of all
  units and compensators. `Ticks` isolates what one tick does to one instance.
* What one call has to leave behind is said a second time, field by field and without those functions:
  `Conditions` tells by the conditions themselves which transition routing takes, `Outcomes` gives the
  record after a turn for every answer of a unit and every kind of node, `Deliveries` after a signal,
  `Spawns` for newborn children, `Lifecycles` for starting and cancelling, and `Guarantees.TimedOut`
  after a timeout.
* `Guarantees`, `Joins`, `Hops`, `Compensation`, `Undoing`, `Retries`, `DrainBudget`, `DrainFinish`,
  `DrainFamilies` and `DeadEnds` hold the results over whole runs. `Collisions`, `Witnesses`, `Families`,
  `Chains`, `Approvals` and `GoldenPath` exhibit concrete runs, on the small graphs of `Samples`.

A run is a sequence of atomic public calls. Instances are pinned to the graph version they started
with, and the registry does not change during a run. Payloads are opaque; field predicates and payload
merging are arbitrary functions that may fail.

## Where the code differs from its documentation

The requirements quoted here are the documents under `openspec/specs`, one directory per capability.

* The runtime requirements say a unit with `max_attempts` 5 fails at its fifth failure.
  The code compares before it counts: the error comes at failure `max_attempts` + 1
  (`Retries.FailingTicks`; a run for every budget: `Witnesses.ErrorComesOneLate`). The instance then
  stays RUNNING, and every later turn calls the unit and fails again. The same off-by-one holds for
  compensators (`Retries.FailingCompensator`).
* The saga requirements put the error of the frame limit at stacks deeper than 100. It
  already comes at exactly 100: the frames are all undone, but the instance is still COMPENSATING
  (`Compensation.TurnUndoesInReverse`; a run for every height: `Chains.ChainCompensates`).
* The same requirements say a finished compensation ends COMPENSATED or in a failure terminal. If routing
  from the current node leads to a success terminal the instance ends COMPLETED
  (`Compensation.CompensatedUnlessTerminal`; the runs of `Chains.ChainCompensates` up to height 99).
* Repeated ticks are meant to bring a compensation to its end. They do if its instance gets enough turns
  (`Compensation.CompensationEnds`). But the first error ends a tick, so another instance that fails in
  every tick can keep it from its turn for ever (`Ticks.TickReaches`, `Witnesses.Starvation`); and a frame
  whose compensator is not registered is never undone (`Retries.UnregisteredCompensator`,
  `Chains.ChainIsOrphaned`). If no compensator fails, a compensation ends exactly if all are registered,
  and h frames take h / 100 + 1 turns (`Undoing.EndsIffRegistered`, `Undoing.UnwindingRun`).
* The graph requirements say JOIN_ANY_SUCCESS is met by one completed child. The code
  waits until every child has ended (`Joins.AnySuccessWaitsForAll`, `Families.AnySuccessWaitsOn`).
* With one failed and one unfinished child, a barrier that counts children and lets failures fail the
  parent answers by map order: the parent fails, or it waits (`Joins.OrderMattersIff`, `Families.OrderDecides`).
  So does a barrier that names a correlation id which two children share
  (`Joins.NamedOrderMattersIff`, `Families.LookupOrderDecides`).
* The signal requirements say a due wait takes its timeout route. Nothing happens, for good, when the
  timeout has no target, when the target is no node of the graph, which the validator accepts
  (`Witnesses.GhostTarget`), or when an earlier signal had the name of the waiting node and the printed
  sequence as its delivery id (`Collisions.TimeoutCanBeLost`); and in no other case
  (`Guarantees.TimeoutIsSwallowedIff`, over a whole tick `Guarantees.TickEndsDueWaits`). A target that is
  no terminal ends the instance there instead of routing on: COMPLETED if that node carries the outcome
  SUCCESS, and else FAILED (`Guarantees.TimeoutEndsAnywhere`, `Witnesses.EndsAtNoTerminal`).
* A delivery is committed exactly when merging does not fail and routing takes a transition
  (`Deliveries.DeliveredIff`). One that fails is recorded all the same; repeating its id, even with
  another payload, reports success and does nothing (`Deliveries.FailedDeliveryIsSpent`,
  `Witnesses.LostDelivery`).
* The signal requirements say that repeating a delivery returns success. The name is checked before the
  repetition is recognised: it reports a mismatch exactly if the instance by then waits for other signals
  (`Deliveries.RepetitionReports`, `Collisions.RepetitionIsRefused`). It changes nothing in any case.
* The entity requirements say an invalid spawn specification creates no child, and that a mutation is not
  visible before its hop commits. A spawn that fails at a later specification leaves the children before
  it behind (`Spawns.SpawnStopsAt`); it is clean exactly when the first one is bad
  (`Spawns.FailedSpawnIsClean`). A unit that repeats its answer then gets the error that the first child
  exists, in every turn (`Spawns.FailedSpawnIsStuck`, `Witnesses.HalfASpawn`).
* `pkg/dag/README.md` says a tick runs at most one hop per instance. That is so for every instance that
  does not compensate (`Hops.TickIsOneHop`). A compensating one gets one journal entry for each call of a
  compensator that succeeds, and one more if a terminal follows (`Hops.CompensatingTick`): if none fails,
  h entries for h frames, but 100 for taller stacks, so at most one hop exactly for no frame, or one frame
  and no terminal behind it (`Hops.UnwindingTick`).
* The validator asks for a terminal that can be reached from the entry node, not from every node: it
  accepts graphs with dead ends (`DeadEnds.DeadEndIsAccepted`, `DeadEnds.DeadEndsAreSinks`). And it goes
  on from the target of a WAIT timeout, where a run ends: it accepts graphs that are all dead end
  (`DeadEnds.TimeoutHidesDeadEnd`). If timeouts lead to terminals only, its reachability and that of runs
  agree (`DeadEnds.DeadEndsAreUnreachable`).
* The cycle search ignores WAIT timeout edges. Runs stay acyclic all the same, because a timeout always
  ends the instance.
* The branch of the scheduler that resumes an already committed hop is never taken in serial runs
  (`InstanceSteps.NeverResumed`); what it would do is in `Outcomes.ResumedTurn`.

## Model

| member | source | states |
|---|---|---|
| Outcomes.ComputeTurn | pkg/dag/memory/engine.go:296-508 | for every answer of a unit the exact record, error, children and executions that the turn leaves: an update or no intent is checked, routed on and kept as the new snapshot at the target; a spawn keeps the payload; complete, fail and wait give that status or waiting record; without a transition the instance fails; an error changes nothing of it |
| Outcomes.ComputeTick | pkg/dag/memory/engine.go:178-190 | over a whole tick with any other instances, a reached instance that has its turn is left with exactly that record, and the turn's error is the tick's |
| Outcomes.UpdateIsKept | pkg/dag/memory/engine.go:378-379 | an update of an admitted type is the new snapshot and the one journaled, one sequence further, at the target of the transition that routing takes on the update |
| Outcomes.UnansweredTurn | pkg/dag/memory/engine.go:296-336 | without a registered unit, with a payload of another type, or with a nil mutation the turn reports that error and changes no instance |
| Outcomes.StandingTurn | pkg/dag/memory/engine.go:284-288 | at a wait node an instance begins to wait as the node says; at a terminal it ends with the terminal's outcome and one entry |
| Outcomes.JoinTurn | pkg/dag/memory/engine.go:543-579 | at a join node an instance moves on exactly when every barrier is met, to the target of the transition that routing takes and with its payload; a failed child fails it, a child that cannot be found is an error, and else nothing changes |
| Outcomes.FinishTurn | pkg/dag/memory/engine.go:834-866 | a turn that finds nothing left to undo leaves the instance as it was but COMPENSATED, or at the terminal that routing leads to, with that outcome and one entry |
| Outcomes.ResumedTurn | pkg/dag/memory/engine.go:902-924 | on any store, an instance whose hop is already committed is taken to the target that routing finds from its current snapshot, without a call of its unit or an entry for its node |
| Lifecycles.StartMeans | pkg/dag/memory/engine.go:40-63 | a start is refused for the first of its defects, changing nothing, or adds exactly one instance: RUNNING at the entry node with the payload it brought |
| Lifecycles.CancelMeans | pkg/dag/memory/engine.go:69-71 | cancelling makes an existing instance CANCELLED and changes nothing else; for a missing one it is an error |
| Lifecycles.CancelIsFinal | pkg/dag/memory/engine.go:69-71 | a cancelled instance stays as it was but for its status, whatever is called afterwards |
| Guarantees.ActivePath | pkg/dag/memory/engine.go:262-508 | in every reachable store an active instance has walked a path of transitions from the entry node to its current node, no node twice |
| Guarantees.JournalIsBounded | pkg/dag/memory/linestore.go:143-212 | no instance ever commits a node twice or journals more than two entries per node |
| Guarantees.NoHopIsSwallowed | pkg/dag/memory/linestore.go:143-150 | a hop of the current node or of a node behind it is always written, never taken for a repetition |
| Guarantees.TimeoutIsSwallowedIff | pkg/dag/memory/engine.go:230-260 | processing a due timeout of a waiting instance never fails; it changes nothing exactly when there is no target, the target is no node of the graph, or an earlier signal entry was named like the current node with the printed sequence as delivery id; else the instance has ended at the target, with that node's outcome, its payload, no wait and one entry more |
| Guarantees.TickEndsDueWaits | pkg/dag/memory/engine.go:164-177 | in a store with any number of instances one tick ends every due wait whose timeout is not void, whatever else fails in it, and leaves the void ones as they were |
| Guarantees.TimeoutEndsAnywhere | pkg/dag/memory/engine.go:926-938 | a timeout whose target is no terminal ends the instance there too: COMPLETED exactly for outcome SUCCESS, else FAILED |
| Witnesses.EndsAtNoTerminal | pkg/dag/memory/engine.go:926-938 | a concrete run for every outcome: the wait times out at a WAIT node and the instance ends there |
| Collisions.TimeoutCanBeLost | pkg/dag/memory/engine.go:249-259 | a concrete run on a valid graph after which an instance waits past its deadline in every world, for ever |
| Witnesses.GhostTarget | pkg/dag/graph/graph.go:45-48 | an accepted graph whose WAIT node has an unknown timeout target, and a run on it that waits past its deadline in every world |
| Guarantees.RepeatedCommitIsNoOp | pkg/dag/memory/linestore.go:143-150 | repeating any journaled commit of any kind leaves the whole store unchanged; a repeated compensation pops no second frame |
| Outcomes.RepetitionReconciles | pkg/dag/memory/linestore.go:143-150 | on any store a repeated compensation takes its frame off the stack if that is still on top, and any other repeated commit changes nothing |
| Guarantees.EntriesAreOrdered | pkg/dag/memory/linestore.go:189-206 | journal sequences are 1..n, output sequences never fall and climb by at most one, no two entries share key and kind |
| Guarantees.JournalTellsState | pkg/dag/memory/linestore.go:151-206 | instance sequence, snapshot sequence and snapshot are those of the last journal entry |
| Guarantees.CommittedIsJournaled | pkg/dag/memory/linestore.go:207-210 | a committed execution is always in the journal of its entity |
| Guarantees.AttemptsAreBounded | pkg/dag/memory/engine.go:341-364 | the attempt counter of a hop stays within its unit's retry budget |
| Guarantees.WaitingHasRecord | pkg/dag/memory/linestore.go:275-289 | RUNNING and COMPENSATING imply no waiting record, WAITING implies one |
| Guarantees.SignalsCommitOnce | pkg/dag/memory/engine.go:104-147 | each (entity, signal, delivery id) causes at most one SIGNAL_RECEIVED entry |
| Deliveries.DeliveredIff | pkg/dag/memory/engine.go:104-147 | a new delivery that the waiting instance accepts is committed exactly when merging does not fail and routing on the merged snapshot takes a transition: the instance then runs at that transition's target, and a payload that the node takes is in its snapshot and in the one new entry, one sequence further, and else both are unchanged; otherwise the delivery only counts as received, and the error says why |
| Deliveries.OtherDeliveries | pkg/dag/memory/engine.go:80-110 | every other delivery changes nothing: no such instance, not waiting, waiting for other signals, received before |
| Approvals.SignalDecides | pkg/dag/graph/predicate.go:15-26 | a concrete run: of two transitions of equal priority the delivered signal takes the one that asks for it, even if the other comes first |
| Deliveries.FailedDeliveryIsSpent | pkg/dag/memory/engine.go:104-131 | a delivery that is not committed changes no instance; after any further calls the same delivery id, with whatever payload, changes nothing |
| Witnesses.LostDelivery | pkg/dag/memory/engine.go:104-131 | a concrete run: the answer that would have been committed is ignored because a refused one had the same delivery id |
| Deliveries.RepetitionReports | pkg/dag/memory/engine.go:91-107 | an accepted delivery that is repeated after any further calls changes nothing, and reports a mismatch exactly if the instance then waits for other signals, else success |
| Collisions.RepetitionIsRefused | pkg/dag/memory/engine.go:91-107 | a concrete run: a committed delivery is refused when it is repeated at the next wait |
| Guarantees.SnapshotsFitTypes | pkg/dag/memory/engine.go:405-420 | an instance's snapshot is always of its own type or of one declared compatible |
| Guarantees.SagaIsReplay | pkg/dag/memory/engine.go:437-454 | the saga stack is a replay of the journal less one frame from the top per compensation; forward sequences strictly climb; the k-th compensation undid the k-th frame from the top; while active, every commit or spawn entry of a compute node with a compensator has pushed a frame, and no other entry has |
| Guarantees.CallsAreJournaled | pkg/dag/memory/engine.go:757-818 | the successful compensator calls of an entity are exactly the compensations in its journal, in order |
| Guarantees.CallsAreBounded | pkg/dag/memory/engine.go:820-832 | over a whole run a frame's compensator is called at most retry budget + 1 times and never after a success |
| Guarantees.EndedIsFinal | pkg/dag/memory/engine.go:69-71 | over whole runs CANCELLED is absorbing, and COMPLETED, FAILED and COMPENSATED are unless the instance is cancelled |
| Guarantees.JournalsOnlyGrow | pkg/dag/memory/linestore.go:206 | over any further calls journals are append-only and instances keep type, graph, parent and correlation id |
| Guarantees.JoinsAreEarned | pkg/dag/memory/engine.go:543-579 | every JOIN_COMMITTED entry of a run is backed by ended children, completed ones where the policy asks, and for a dynamic barrier by at least the expected number, or the number spawned last |
| Guarantees.SpawnedAreBorn | pkg/dag/memory/engine.go:455-500 | every child a journal names exists and has the instance as its parent |
| Guarantees.NamedBarriersStayReady | pkg/dag/memory/engine.go:606-643 | in runs without cancellation, barriers that name children by id stay ready once they are |
| Joins.StaticMeaning | pkg/dag/memory/engine.go:606-643 | the counting loop says ready exactly when every named child has ended and, by policy, all or one completed |
| Joins.StaticFailMeaning | pkg/dag/memory/engine.go:628-634 | a failed child fails the parent exactly when no child named before it is unfinished |
| Joins.DynamicMeaning | pkg/dag/memory/engine.go:645-700 | a dynamic barrier is ready exactly when enough children match the prefix, all have ended and, by policy, all or one completed |
| Joins.DynamicFailMeaning | pkg/dag/memory/engine.go:679-695 | a failed child fails the parent through a dynamic barrier exactly when failures count, there are enough children, and every child the range visits before it has completed |
| Joins.ReadyMeaning | pkg/dag/memory/engine.go:581-604 | the whole barrier check is ready exactly when every barrier is met |
| Joins.CheckMeaning | pkg/dag/memory/engine.go:581-604 | the whole check has exactly four answers: ready, failed by a child, an error for a named child that nobody is, and else not ready |
| Joins.BarrierChildIs | pkg/dag/memory/engine.go:610-627 | the child a barrier names is the one with that id, or the first with that correlation id that the range meets |
| Joins.EnoughMeans | pkg/dag/memory/engine.go:645-678 | a dynamic barrier asks for its expected count, or for as many children as the last spawn named with its prefix |
| Joins.LastNamedIs | pkg/dag/memory/linestore.go:336-358 | the children of the last spawn are those of the last SPAWNED entry that names any |
| Joins.NamedOrderMattersIff | pkg/dag/memory/linestore.go:301-313 | readiness of a whole join depends on map order exactly when all counting barriers are met and the candidates of the barriers that name children can be chosen so that those are met, and also so that they are not |
| Joins.OrderDoesNotMatter | pkg/dag/memory/linestore.go:301-334 | so readiness does not depend on map order if the correlation ids asked for are unambiguous |
| Joins.OrderMattersIff | pkg/dag/memory/linestore.go:316-334 | some map order gives a dynamic barrier another answer exactly when failures count, there are enough children, one has failed and one is unfinished; it then decides between failing the parent and waiting |
| Families.OrderDecides | pkg/dag/memory/engine.go:679-695 | a concrete run: the next tick fails the parent in one order and changes nothing in another |
| Families.LookupOrderDecides | pkg/dag/memory/engine.go:606-643 | a concrete run: two children share a correlation id, and the next tick joins in one order and changes nothing in another |
| Joins.AnySuccessWaitsForAll | pkg/dag/memory/engine.go:680-695 | under ANY_SUCCESS too, one unfinished child keeps the barrier closed |
| Families.AnySuccessWaitsOn | pkg/dag/memory/engine.go:680-695 | a concrete run: under ANY_SUCCESS one child has completed, one waits, and no tick moves the parent |
| Joins.ChildrenAreFamily | pkg/dag/memory/linestore.go:316-334 | the listing of children by prefix holds each matching child exactly once |
| Hops.TurnIsOneHop | pkg/dag/memory/engine.go:262-294 | on any store a turn of an instance that does not compensate appends at most one journal entry |
| Hops.TickIsOneHop | pkg/dag/memory/engine.go:164-191 | in every reachable store a tick appends at most one entry for an instance that does not compensate, whatever the others do, and none for one that has ended |
| Hops.WaitingTick | pkg/dag/memory/engine.go:164-177 | a waiting instance gets its entry exactly if its wait is over and its timeout is not void, else it stays as it is |
| Hops.CompensatingTick | pkg/dag/memory/engine.go:736-866 | a compensating instance gets exactly one entry per successful compensator call of the tick, and one more if the compensation finishes and leads straight to a terminal |
| Hops.UnwindingTick | pkg/dag/memory/engine.go:736-866 | with successful compensators that is h entries for h frames up to 99 and 100 for taller stacks, plus the terminal's if it finishes; at most one exactly for no frame, or one and no terminal |
| Compensation.TurnUndoesInReverse | pkg/dag/memory/engine.go:736-755 | if compensators succeed, one turn calls them once per frame from the top down with the stored payload; it finishes exactly for stacks of at most 99 frames, COMPENSATED or with the terminal's status, and undoes exactly 100 of taller ones |
| Compensation.CompensatedUnlessTerminal | pkg/dag/memory/engine.go:834-866 | however compensators answer, a turn that ends a compensation without failing it leaves an empty stack and the status COMPENSATED exactly when routing from the current node does not lead straight to a terminal, else that terminal's status |
| Chains.ChainCompensates | pkg/dag/memory/engine.go:736-755 | for every height h a run that compensates h frames: up to 99 one tick undoes all and the instance ends COMPLETED; from 100 on that tick undoes 100 and reports the frame limit, even if none is left |
| Compensation.TickSpendsBudget | pkg/dag/memory/engine.go:736-832 | in a store with any number of instances a tick with a turn ends the compensation or uses up at least 100 calls of its budget; without one another instance's error came first and nothing of it changed |
| Compensation.CompensationEnds | pkg/dag/memory/engine.go:736-832 | in any store and whatever else is called, the compensation has ended once 100 calls per turn exceed its budget, the sum over its frames of (retry budget + 1 - attempts) |
| Undoing.UnwindingRun | pkg/dag/memory/engine.go:736-866 | over any calls short of a cancellation with successful compensators: each turn undoes the next 100 frames from the top, one call each; h frames take exactly h / 100 + 1 turns, and then the instance is COMPENSATED or has the terminal's status |
| Undoing.EndsIffRegistered | pkg/dag/memory/engine.go:757-791 | given those turns and no failing compensator, the compensation ends exactly if the compensator of every frame is registered |
| Witnesses.Starvation | pkg/dag/memory/engine.go:178-190 | a concrete run: an instance one turn away from its end stays COMPENSATING through any number of ticks, because the error of another one comes first in each |
| Registries.BudgetIs | pkg/dag/memory/engine.go:351-364 | a unit's own retry budget counts if it is positive, else the engine's, else 3 |
| Retries.FailingTurn | pkg/dag/memory/engine.go:341-349 | a failing unit costs one attempt, and reports its error only when the attempts are spent |
| Retries.FailingTicks | pkg/dag/memory/engine.go:341-349 | over any calls and with any other instances, a unit that keeps failing costs one attempt per turn up to its budget; the instance stays RUNNING where it is, and exactly the turns after budget failures report the error |
| Witnesses.ErrorComesOneLate | pkg/dag/memory/engine.go:341-349 | for every budget a run in which that many failing ticks report nothing and the next one reports the error |
| Retries.FailingCompensator | pkg/dag/memory/engine.go:820-832 | over any calls without a cancellation, a compensator that keeps failing is called at most 100 times per turn, budget + 1 times in all if it was never called before; then, and not before, the instance is FAILED with its stack untouched |
| Retries.UnregisteredCompensator | pkg/dag/memory/engine.go:757-791 | short of a cancellation an instance whose top frame has no registered compensator stays COMPENSATING as it is, and each of its turns reports that error |
| Chains.ChainIsOrphaned | pkg/dag/memory/engine.go:757-791 | for every height from 1 a run that stays COMPENSATING for ever because no compensator is registered |
| Spawns.SpawnStopsAt | pkg/dag/memory/engine.go:455-480 | a spawn leaves exactly the newborn children of the specifications before the first bad one, and fails with the error of that one; bad means incomplete, of an unknown graph, or with an id that is taken |
| Spawns.FailedSpawnIsClean | pkg/dag/memory/engine.go:455-480 | a failed spawn leaves the store as it was exactly when its first specification is bad |
| Spawns.FailedSpawnTurn | pkg/dag/memory/engine.go:455-500 | a turn whose spawn fails leaves its own instance as it was and the children before the bad specification behind |
| Spawns.FailedSpawnIsStuck | pkg/dag/memory/engine.go:455-480 | if a unit repeats a spawn whose first child is fine and some other is not, then after the first failing turn the instance never moves again short of a cancellation, and every turn of it fails because that child exists |
| Witnesses.HalfASpawn | pkg/dag/memory/engine.go:455-480 | a concrete run: the tick is refused for a specification without a graph, and the other child exists |
| DrainBudget.TickGetsCloser | pkg/dag/memory/engine.go:164-191 | on a graph without JOIN nodes every error-free tick brings an instance that is not done closer to the end |
| DrainBudget.DrainNeedsRetries | pkg/dag/memory/drain.go:33-61 | with a limit of nodes * (budget + 1) a drain of an instance on a graph without JOIN nodes finishes or stops at a tick that fails, but never exceeds its limit, whatever the units do |
| DrainBudget.DrainNeedsNodes | pkg/dag/memory/drain.go:33-61 | the same with a limit of one hop per node, if the units of the instance answer without errors |
| DrainFinish.DrainFinishes | pkg/dag/memory/drain.go:33-61 | a lone instance whose units are registered and answer without spawning or compensating, whose types fit and whose predicates evaluate, is drained to a terminal or WAITING status within one hop per node, and no tick fails |
| DrainFinish.DefaultDrainFinishes | pkg/dag/memory/drain.go:77-117 | so with default options on graphs of up to 1000 nodes |
| DrainFamilies.FamilyDrains | pkg/dag/memory/drain.go:33-61 | in a store with any number of instances, nobody waiting or compensating, whose units are registered and answer without spawning, waiting or compensating, whose types fit, and whose JOIN nodes name existing children further down in some ranking and fail with them: draining any member takes at most one hop for each node of all their graphs, no tick fails, and the member has ended |
| GoldenPath.ParentIsDrained | pkg/dag/memory/drain.go:33-61 | a concrete run: a parent spawns two children, stands at the JOIN node that names them, and is drained to its end with default options, whatever gentle answers the units give |
| DrainBudget.DefaultDrainIsEnough | pkg/dag/memory/drain.go:77-117 | default options cannot exceed on up to 250 nodes with the default budget, or 1000 nodes if units answer |
| DrainBudget.DrainIsTicks | pkg/dag/memory/drain.go:33-61 | a drain makes one tick after the other while the instance is RUNNING or COMPENSATING, and no longer: it finishes as soon as the instance is done, exceeds only when its limit is used up, stops at the first error, and hands back the record it read last |
| DrainBudget.TicksAreRuns | pkg/dag/memory/drain.go:33-61 | those ticks are a run, so all that holds over runs holds over drains |
| DrainBudget.TerminalOffTrail | pkg/dag/graph/graph.go:65-70 | some terminal and the current node are not on the trail of an active instance, so the trail leaves out at least two nodes unless it stands at a terminal |
| Draining.DerivedLimit | pkg/dag/memory/drain.go:77-117 | the derived limit is nodes * factor, clamped to least and absolute limit, which are 4, 1 and 1000 if the options do not say; 100 without a graph |
| Ticks.TickReaches | pkg/dag/memory/engine.go:164-191 | a tick in which a runnable instance has its turn processes it exactly once, at a store where it is as it was before the tick, and leaves it so; in any other tick another instance's error comes first and it stays as it was |
| Ticks.TickEndsWaits | pkg/dag/memory/engine.go:166-177 | a tick processes each due wait exactly once, and afterwards the instance is as its own timeout left it |
| Ticks.LoneTick | pkg/dag/memory/engine.go:164-191 | with one instance a tick is its due timeout or its turn |
| Runs.RunnableAreListed | pkg/dag/memory/linestore.go:247-258 | the listing holds exactly the runnable instances, each once |
| Runs.DuesAreListed | pkg/dag/memory/linestore.go:260-273 | the listing holds exactly the due waits, each once |
| Runs.ApplyStep | pkg/dag/memory/engine.go:40-191 | each public call keeps the store invariant, and none but cancel touches what has ended |
| Runs.ReachableInv | pkg/dag/memory/engine.go:40-191 | every store reachable by any sequence of public calls meets the invariant |
| Chronicles.ReachableChronicle | pkg/dag/memory/engine.go:40-191 | every reachable store has only earned joins, named children that exist, calls that match journals, and fitting snapshots; CANCELLED comes from cancelling only |
| InstanceSteps.NeverResumed | pkg/dag/memory/engine.go:313-331 | an active instance never finds its own hop already committed |
| InstanceSteps.ProcessInstanceStep | pkg/dag/memory/engine.go:262-294 | processing an instance keeps the invariant and touches no other instance but its new children |
| InstanceSteps.ProcessComputeStep | pkg/dag/memory/engine.go:296-339 | a compute turn, whatever the unit answers, keeps the record agreeing with its journal |
| InstanceSteps.CompensationLoopStep | pkg/dag/memory/engine.go:736-755 | so does the compensation loop, call log included |
| InstanceSteps.OneFrameUnfolds | pkg/dag/memory/engine.go:757-818 | on a reachable store the frame on top is never found journaled or committed: the next iteration calls its compensator |
| Preservation.MovingCommitKeeps | pkg/dag/memory/linestore.go:151-211 | a forward commit along an edge keeps the record invariant |
| Preservation.UndoCommitKeeps | pkg/dag/memory/linestore.go:171-172 | a compensation commit for the top frame keeps it |
| Effects.ProcessJoinWrites | pkg/dag/memory/engine.go:543-579 | JOIN_COMMITTED is written only by a join whose barriers are ready, for the resolved target |
| Effects.ProcessComputeWrites | pkg/dag/memory/engine.go:296-508 | on any store a compute turn appends only forward entries, changes no identity, cancels nobody and admits no foreign type |
| Engines.Engine.constructor | pkg/dag/memory/engine.go:29-38 | an engine starts with an empty store |
| Engines.Engine.StartInstance | pkg/dag/memory/engine.go:40-63 | store and error after the call, as the function says, and a copy of the created instance |
| Engines.Engine.CancelInstance | pkg/dag/memory/engine.go:69-71 | store and error after the call, which are in Lifecycles.CancelMeans |
| Engines.Engine.DeliverSignal | pkg/dag/memory/engine.go:80-147 | store and error after the call, recorded deliveries of failed calls included; what they are is in Deliveries.DeliveredIff and Deliveries.OtherDeliveries |
| Engines.Engine.RunOnce | pkg/dag/memory/engine.go:164-191 | store and error after the call, whatever was written before an error |
| Engines.Engine.DrainInstance | pkg/dag/memory/drain.go:18-62 | store, returned instance and error of the drain loop |
| Engines.Engine.DeriveDrainMaxHops | pkg/dag/memory/drain.go:77-117 | the clamped limit |
| Engines.Engine.ProcessTimeouts | pkg/dag/memory/engine.go:166-177 | the loop over the due waits stops at the first error |
| Engines.Engine.ProcessAll | pkg/dag/memory/engine.go:178-190 | the loop over the runnable instances stops at the first error |
| Engines.Engine.ProcessTimeout | pkg/dag/memory/engine.go:230-260 | the timeout hop keyed by current node and sequence |
| Engines.Engine.ProcessInstance | pkg/dag/memory/engine.go:262-294 | dispatch on status and node kind |
| Engines.Engine.ProcessCompute | pkg/dag/memory/engine.go:296-339 | lookup, type check, execution record, unit call, mutation |
| Engines.Engine.HandleExecuteError | pkg/dag/memory/engine.go:341-349 | one more attempt, or the error |
| Engines.Engine.ApplyMutation | pkg/dag/memory/engine.go:366-385 | dispatch on the mutation's intent; what each leaves is in Outcomes.ComputeTurn |
| Engines.Engine.CommitCompute | pkg/dag/memory/engine.go:387-508 | output checks, routing, frame, children and commit in order |
| Engines.Engine.SpawnAll | pkg/dag/memory/engine.go:455-480 | the loop that creates the children one by one and stops at the first error; what it leaves is in Spawns.SpawnStopsAt |
| Engines.Engine.EnterWait | pkg/dag/memory/engine.go:510-541 | the waiting record merged from intent and node configuration |
| Engines.Engine.ProcessJoin | pkg/dag/memory/engine.go:543-579 | the join step; what it leaves is in Outcomes.JoinTurn |
| Engines.Engine.CheckJoinBarriers | pkg/dag/memory/engine.go:581-604 | the barrier check |
| Engines.Engine.CheckStaticBarriers | pkg/dag/memory/engine.go:606-643 | the loop over named barriers |
| Engines.Engine.CheckDynamicBarrier | pkg/dag/memory/engine.go:645-700 | the count over matching children |
| Engines.Engine.FailNoTransition | pkg/dag/memory/engine.go:702-719 | the failing commit with its reason |
| Engines.Engine.ProcessCompensation | pkg/dag/memory/engine.go:736-755 | the loop of at most 100 frames |
| Engines.Engine.CompensateOneFrame | pkg/dag/memory/engine.go:757-818 | one frame: journal search, execution record, call, commit |
| Engines.Engine.HandleCompensationError | pkg/dag/memory/engine.go:820-832 | one more attempt, or FAILED |
| Engines.Engine.FinishCompensation | pkg/dag/memory/engine.go:834-866 | COMPENSATED, and the terminal behind it |
| Engines.Engine.CommitTerminal | pkg/dag/memory/engine.go:868-883 | the terminal commit |
| Engines.Engine.CommitOutcome | pkg/dag/memory/engine.go:885-900 | the commit of a complete intent |
| Engines.Engine.AdvanceAfterCommit | pkg/dag/memory/engine.go:902-924 | resuming after a committed hop |
| LineStores.LineStore.constructor | pkg/dag/memory/linestore.go:33-39 | an empty store |
| LineStores.LineStore.CreateInstance | pkg/dag/memory/linestore.go:41-78 | a new record and a copy of it, or an error for a missing id or a duplicate |
| LineStores.LineStore.CreateExecution | pkg/dag/memory/linestore.go:102-121 | an existing execution record wins over the new one |
| LineStores.LineStore.CommitHop | pkg/dag/memory/linestore.go:133-212 | deduplication, the update by journal kind, stack, journal and execution |
| LineStores.LineStore.RecordSignalDelivery | pkg/dag/memory/linestore.go:236-245 | true exactly for a delivery not seen before, which is then remembered |
| LineStores.LineStore.ListRunnableInstances | pkg/dag/memory/linestore.go:247-258 | running and compensating instances, in range order |
| LineStores.LineStore.ListWaitingTimeouts | pkg/dag/memory/linestore.go:260-273 | waits whose deadline is not in the future, in range order |
| LineStores.LineStore.SetWaiting | pkg/dag/memory/linestore.go:275-289 | waiting record, status and node, or an error for a missing instance |
| LineStores.LineStore.FindChildByCorrelation | pkg/dag/memory/linestore.go:301-313 | the first matching child of the range |
| LineStores.LineStore.ListChildrenByCorrelationPrefix | pkg/dag/memory/linestore.go:316-334 | all matching children of the range |
| LineStores.LineStore.ListSpawnedFromJournal | pkg/dag/memory/linestore.go:336-358 | the children of the last spawn entry that names any, or an error for a missing instance |
| LineStores.LineStore.UpdateExecutionAttempt | pkg/dag/memory/linestore.go:387-399 | the attempt of an existing execution |
| LineStores.LineStore.AdvanceInstanceNode | pkg/dag/memory/linestore.go:401-415 | node and status, or an error for a missing instance |
| LineStores.LineStore.UpdateInstanceStatus | pkg/dag/memory/linestore.go:417-427 | status only, or an error for a missing instance |
| GraphSearch.HasCycle | pkg/dag/graph/graph.go:116-142 | true exactly on graphs with a cycle; false comes with a rank that falls along every transition |
| GraphSearch.CycleSearch.Visit | pkg/dag/graph/graph.go:119-135 | the coloured search: true only if there is a cycle, else the node is ranked |
| GraphSearch.ReachableTerminal | pkg/dag/graph/graph.go:144-167 | true exactly when a terminal is reachable over transitions and WAIT timeout edges, although marks are shared |
| GraphSearch.ReachSearch.Visit | pkg/dag/graph/graph.go:144-167 | true with a route; else everything newly marked leads only to marked nodes |
| DeadEnds.DeadEndsAreSinks | pkg/dag/graph/graph.go:68-70 | from a node of an accepted graph a dead end, from which no terminal and no WAIT node that times out to one can be reached, can be reached exactly when a node without transitions can that is neither |
| DeadEnds.DeadEndIsAccepted | pkg/dag/graph/graph.go:68-70 | an accepted graph with such a dead end |
| DeadEnds.DeadEndsAreUnreachable | pkg/dag/graph/graph.go:144-167 | if timeouts lead to terminals only, a node is a dead end exactly when no terminal can be reached from it in the validator's sense |
| DeadEnds.TimeoutHidesDeadEnd | pkg/dag/graph/graph.go:161-164 | an accepted graph whose entry node is a dead end, because its only terminal lies behind a timeout that ends the run |
| GraphSearch.ValidateNode | pkg/dag/graph/graph.go:25-63 | a node passes exactly when it obeys every rule: its own id, existing targets, a unit, signals, barriers or an outcome by kind, no transitions from a terminal, and an always edge if a computing node asks for a field or a signal |
| GraphSearch.NeedsFallback | pkg/dag/graph/graph.go:84-101 | the loop finds whether a node must have a fallback |
| GraphSearch.FindsAlways | pkg/dag/graph/graph.go:103-113 | the loop finds whether it has one |
| GraphSearch.ValidateNodes | pkg/dag/graph/graph.go:25-64 | all nodes meet the rules; missing node ids are filled in |
| GraphSearch.ValidateGraphSpec | pkg/dag/graph/graph.go:18-72 | a specification is accepted exactly when its entry node exists and, with missing ids filled in, every node obeys the rules, no transitions form a cycle, and a terminal can be reached from the entry; the ids are then filled in |
| Graphs.RankedIsAcyclic | pkg/dag/graph/graph.go:65-67 | a graph with such a rank has no cycle |
| Graphs.ChainsAreDistinct | pkg/dag/graph/graph.go:65-67 | on an accepted graph no path meets a node twice |
| Routing.StableOrderIsOrdered | pkg/dag/graph/graph.go:210-213 | the sorted copy is in order of falling priority, then position, and complete |
| Conditions.RoutingMeans | pkg/dag/graph/predicate.go:15-42 | routing answers with a target exactly when some transition holds (always true, a field predicate that matches on a payload that is there, or a signal condition that asks for this signal or any and whose predicate matches) and none of higher priority, or of the same and an earlier position, holds or cannot be evaluated; it is the target of that one; the errors likewise |
| Conditions.OneIsTaken | pkg/dag/graph/graph.go:206-227 | routing never takes two transitions |
| Routing.RunTransitions | pkg/dag/graph/graph.go:206-227 | the evaluation loop over the sorted copy; which transition it finds is in Conditions.RoutingMeans |
| Routing.ResolveMeaning | pkg/dag/graph/graph.go:206-227 | the answer is that of the first transition by priority and position whose condition does not fail: its target, or its error; no transition exactly when all fail; when a condition fails is in Conditions.VerdictMeans |
| Conditions.VerdictMeans | pkg/dag/graph/graph.go:229-245 | a condition matches exactly when it holds, and its evaluation errs exactly when its field predicate cannot be evaluated on a payload that is there |
| Routing.StuckWithoutAlways | pkg/dag/graph/graph.go:61-63 | a validated computing node is stuck exactly when it has no always edge, so never where a fallback is demanded |
| Idempotency.HashParts | pkg/dag/runtime/idempotency.go:24-33 | the bytes written to the hasher: the parts separated by single NULs |
| Idempotency.PreimageRoundTrip | pkg/dag/runtime/idempotency.go:24-33 | NUL-free parts are recovered from those bytes exactly |
| Idempotency.HopPreimage | pkg/dag/runtime/idempotency.go:10-12 | hop keys are equal exactly for equal entity, node and sequence |
| Idempotency.CompensationPreimage | pkg/dag/runtime/idempotency.go:15-17 | compensation keys are equal exactly for equal entity, forward sequence and compensator |
| Idempotency.CompensationPreimageApart | pkg/dag/runtime/idempotency.go:10-22 | a compensation key is never a hop key or a signal key |
| Idempotency.SignalMeetsHop | pkg/dag/runtime/idempotency.go:10-22 | a signal key equals a hop key exactly when the signal is named like the node and the delivery id is the printed sequence |
| Idempotency.NulMakesHopKeysCollide | pkg/dag/runtime/idempotency.go:24-33 | ids that contain NUL bytes can collide |
| WeightedRoundRobin.WholeCyclesAreExact | pkg/rpc/governance/loadbalancer/implementations/weighted/balancer.go:163-179 | m * T Selects from zero pick each instance exactly m * weight times and return all current weights to zero, for every tie-break |
| WeightedRoundRobin.CurrentIsBalance | pkg/rpc/governance/loadbalancer/implementations/weighted/balancer.go:163-179 | after k Selects from zero the current weight is k * weight - T * picks |
| WeightedRoundRobin.CurrentIsBounded | pkg/rpc/governance/loadbalancer/implementations/weighted/balancer.go:163-179 | and never falls below 1 - T |
| WeightedRoundRobin.PicksAreBounded | pkg/rpc/governance/loadbalancer/implementations/weighted/balancer.go:163-179 | an instance is picked at most ceil(k * weight / T) times |
| WeightedRoundRobin.SelectConserves | pkg/rpc/governance/loadbalancer/implementations/weighted/balancer.go:140-179 | a Select, filtered or not, leaves the sum of current weights unchanged |
| WeightedRoundRobin.HistoryConserves | pkg/rpc/governance/loadbalancer/implementations/weighted/balancer.go:48-181 | over any mixed history the sum changes only by what Remove takes away |
| WeightedRoundRobin.HistoryConfigures | pkg/rpc/governance/loadbalancer/implementations/weighted/balancer.go:54-57 | in every table that Add, Remove, Update and Select make from the empty one, a slot holds the instance given last under its id, with its configured weight if that is positive and else 1 |
| WeightedRoundRobin.ServesConfigured | pkg/rpc/governance/loadbalancer/implementations/weighted/balancer.go:163-179 | on such a table with current weights at zero, m cycles pick every instance exactly m times its configured weight, and k Selects never more than its proportional share rounded up |
| WeightedRoundRobin.StartsAtZero | pkg/rpc/governance/loadbalancer/implementations/weighted/balancer.go:48-69 | before the first Select all current weights are zero |
| WeightedRoundRobin.WeightedBalancer.constructor | pkg/rpc/governance/loadbalancer/implementations/weighted/balancer.go:39-44 | an empty, open balancer |
| WeightedRoundRobin.WeightedBalancer.Add | pkg/rpc/governance/loadbalancer/implementations/weighted/balancer.go:48-69 | a new instance with its configured weight, or 1, and current weight zero, or the error and nothing changed |
| WeightedRoundRobin.WeightedBalancer.Remove | pkg/rpc/governance/loadbalancer/implementations/weighted/balancer.go:73-84 | the instance and its current weight are gone, or the error and nothing changed |
| WeightedRoundRobin.WeightedBalancer.Update | pkg/rpc/governance/loadbalancer/implementations/weighted/balancer.go:88-115 | the newly configured weight, or 1, with the current weight preserved, or the error and nothing changed |
| WeightedRoundRobin.WeightedBalancer.Close | pkg/rpc/governance/loadbalancer/base/balancer.go:228-248 | the balancer is closed for good and forgets its instances, but keeps the weights |
| WeightedRoundRobin.WeightedBalancer.RaiseAll | pkg/rpc/governance/loadbalancer/implementations/weighted/balancer.go:164-174 | the loop raises every candidate by its weight, adds the total and keeps one with the highest result |
| WeightedRoundRobin.WeightedBalancer.Select | pkg/rpc/governance/loadbalancer/implementations/weighted/balancer.go:129-181 | one smooth round-robin step among the matching instances, or the error and nothing changed |
| ConsistentHash.Ring.constructor | pkg/rpc/governance/loadbalancer/implementations/consistenthash/ring.go:31-45 | an empty ring, with 50 replicas unless told otherwise |
| ConsistentHash.Ring.Add | pkg/rpc/governance/loadbalancer/implementations/consistenthash/ring.go:49-71 | the points of the instance's virtual nodes are its own afterwards (how many there are is in ConsistentHash.EachOwnsItsReplicas); the sorted slice is one entry per replica longer and agrees with the map; a present instance changes nothing |
| ConsistentHash.Ring.Remove | pkg/rpc/governance/loadbalancer/implementations/consistenthash/ring.go:74-102 | all its points are gone, whoever owned them; the slice is rebuilt from the map, strictly ascending; an absent instance changes nothing |
| ConsistentHash.Ring.Get | pkg/rpc/governance/loadbalancer/implementations/consistenthash/ring.go:105-127 | binary search with wrap-around answers the owner of the clockwise successor |
| ConsistentHash.KeysApart | pkg/rpc/governance/loadbalancer/implementations/consistenthash/ring.go:143-147 | no two virtual nodes have the same key, whatever the ids contain |
| ConsistentHash.ApartIsCollisionFree | pkg/rpc/governance/loadbalancer/implementations/consistenthash/ring.go:143-147 | so if the hash function tells the keys apart, no two instances share a point |
| ConsistentHash.PointsAreMany | pkg/rpc/governance/loadbalancer/implementations/consistenthash/ring.go:143-147 | and every instance has one point per replica |
| ConsistentHash.EachOwnsItsReplicas | pkg/rpc/governance/loadbalancer/implementations/consistenthash/ring.go:49-102 | then after any history each present instance owns exactly as many points as there are replicas, and nobody else owns any |
| ConsistentHash.NewcomerGetsItsKeys | pkg/rpc/governance/loadbalancer/implementations/consistenthash/ring.go:49-71 | after Add a key that hashes to one of the newcomer's points goes to it, whatever collides |
| ConsistentHash.TwoShareTheRing | pkg/rpc/governance/loadbalancer/implementations/consistenthash/ring.go:105-127 | a concrete ring of two instances with one virtual node each |
| ConsistentHash.OwnerIsPresent | pkg/rpc/governance/loadbalancer/implementations/consistenthash/ring.go:105-127 | after any history a lookup never answers with a removed instance |
| ConsistentHash.AddMovesKeysOnlyToNewcomer | pkg/rpc/governance/loadbalancer/implementations/consistenthash/ring.go:49-71 | adding an instance moves keys only to it, whatever collides |
| ConsistentHash.RemoveDisruption | pkg/rpc/governance/loadbalancer/implementations/consistenthash/ring.go:74-102 | removing x disturbs no key of another exactly when every colliding point it takes away is covered by that owner's next point |
| ConsistentHash.RemoveOfUncollidedInstance | pkg/rpc/governance/loadbalancer/implementations/consistenthash/ring.go:74-102 | in particular when x owns all its points |
| ConsistentHash.AddDisruption | pkg/rpc/governance/loadbalancer/implementations/consistenthash/ring.go:49-71 | so over any history |
| ConsistentHash.RemovalDisturbsIff | pkg/rpc/governance/loadbalancer/implementations/consistenthash/ring.go:74-102 | over any history, removing a present instance disturbs no key of another exactly when behind every point it takes from another owner the next point left is that owner's |
| ConsistentHash.RemoveCanDisturb | pkg/rpc/governance/loadbalancer/implementations/consistenthash/ring.go:83-87 | with a collision, removing one instance takes every key from another that is still there |
| ConsistentHash.HistoryDoesNotMatter | pkg/rpc/governance/loadbalancer/implementations/consistenthash/ring.go:49-127 | without collisions lookups depend only on the set of instances |
| ConsistentHash.RemoveUndoesAdd | pkg/rpc/governance/loadbalancer/implementations/consistenthash/ring.go:49-102 | without collisions between instances Remove brings the map and the instance set before Add back |
| ConsistentHash.SliceComesBackIff | pkg/rpc/governance/loadbalancer/implementations/consistenthash/ring.go:49-102 | the rebuilt slice equals the one before exactly if that one listed no point twice; replicas of one instance may collide with each other |

## Left out

- Runs.ApplyStep: public calls are atomic; entity locks, goroutine interleavings inside a call and context cancellation are not modelled.
- Guarantees.ActivePath: instances are pinned to one graph version; GRAPH_PIN_ON_NODE and registering graphs during a run are not modelled.
- Compensation.CompensationEnds: assumes registered compensators, and counts the ticks in which the instance has its turn; Retries.UnregisteredCompensator and Witnesses.Starvation show what happens otherwise.
- DrainBudget.DrainNeedsRetries: says nothing about graphs with JOIN nodes, where an instance may wait for children for any number of ticks; families that join are in DrainFamilies.FamilyDrains.
- DrainFinish.DrainFinishes: of an instance that is alone in the store; with others, one of their errors can stop a drain. DrainFamilies.FamilyDrains is for stores in which nobody errs.
- DrainFamilies.FamilyDrains: JOIN nodes with barriers that count children or look them up by correlation id are not covered, nor families that go on spawning.
- Guarantees.JoinsAreEarned: speaks of the children as they are later; that a barrier without expected count and without spawned children asks for all children of the moment is in Joins.DynamicMeaning only. In runs with cancellations a completed child may since have been cancelled.
- Idempotency.HashParts: SHA-256 and hex encoding are treated as injective; a key is modelled as its list of parts.
- LineStores.LineStore.CommitHop: records are values; references shared between callers are not modelled, nor are timestamps and the saga's record list.
- WeightedRoundRobin.WeightedBalancer.Select: integer overflow of weights, and of sequences and counters elsewhere, is not modelled.
- The closed flags of store and engine, `Scheduler.Tick`, `PopSagaFrame` and `PushSagaFrame`: unused by the engine's calls or easy.
- Nil protobuf messages and an update intent without a snapshot: the types exclude them.
- The second check for a committed execution after it was created: in a serial run it repeats the first.
- Graph registration itself, the textual key of a graph version, and type and unit registration: lookups in maps.
- Field predicates, payload merging and output payloads: arbitrary functions; protobuf reflection is not part of this model.
- HTTP units, resolvers, YAML loaders, invocation facades, the other balancers, client caching, key-value stores, configuration and queues: wrappers and I/O.
