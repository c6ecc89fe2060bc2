/**
 What one turn leaves of an instance, field by field: at a computing node for every answer of its
 unit, and at wait, terminal and join nodes.
 */
module Outcomes {
  import opened Wrappers
  import opened Entities
  import opened Graphs
  import opened Routing
  import opened Conditions
  import opened Idempotency
  import opened Lines
  import opened Registries
  import opened Scheduling
  import opened History
  import opened Steps
  import opened InstanceSteps
  import opened Joins
  import opened Runs
  import opened Compensation
  import opened Ticks
  import opened Guarantees
  import opened Retries
  import opened Spawns

  // ---------- records ----------

  /** The snapshot under the instance's next sequence number. */
  function Stamped(rec: Record, snap: Snapshot): Snapshot
  {
    Snapshot(snap.typeKey, rec.sequence + 1, snap.payload)
  }

  /** What the instance waits for: the unit's deadline and signal name come before the node's, but the
      node's accepted signals and timeout target come before the unit's. */
  predicate WaitsFor(node: Node, wait: Option<WaitSignal>, now: int, r: WaitRecord)
  {
    && r.deadline == (if wait.Some? && wait.value.deadline.Some? then wait.value.deadline
                      else if node.waitConfig.Some? && node.waitConfig.value.defaultDeadlineSeconds > 0
                      then Some(now + node.waitConfig.value.defaultDeadlineSeconds) else None)
    && r.signalName == (if wait.Some? && wait.value.signalName != "" then wait.value.signalName
                        else if node.waitConfig.Some? then node.waitConfig.value.signalName else "")
    && r.acceptedSignals == (if node.waitConfig.Some? then node.waitConfig.value.acceptedSignals
                             else if wait.Some? then wait.value.acceptedSignals else [])
    && r.onTimeoutTarget == (if node.waitConfig.Some? then node.waitConfig.value.onTimeoutTarget
                             else if wait.Some? then wait.value.onTimeoutTarget else "")
  }

  /** Nothing changed but that the instance waits where it is. */
  predicate NowWaits(node: Node, wait: Option<WaitSignal>, now: int, rec: Record, rec': Record)
  {
    && rec'.waiting.Some? && WaitsFor(node, wait, now, rec'.waiting.value)
    && rec' == rec.(status := Waiting, waiting := rec'.waiting)
  }

  /** The instance has ended at the node, with its payload and sequence. */
  predicate EndedAt(id: string, rec: Record, at: string, status: Status, rec': Record)
  {
    rec' == rec.(status := status, currentNode := at,
                 journal := rec.journal + [Entry(|rec.journal| + 1, NodeCommitted, at, rec.sequence, rec.sequence,
                                                 rec.snapshot, HopKey(id, at, rec.sequence), "", "", "", [])])
  }

  predicate Ended(id: string, rec: Record, status: Status, rec': Record)
  {
    EndedAt(id, rec, rec.currentNode, status, rec')
  }

  /** The instance has failed where it is for want of a transition. */
  predicate Stuck(id: string, rec: Record, rec': Record)
  {
    rec' == rec.(status := Failed, sequence := rec.sequence + 1, snapshot := Stamped(rec, rec.snapshot),
                 journal := rec.journal + [Entry(|rec.journal| + 1, NodeCommitted, rec.currentNode, rec.sequence,
                                                 rec.sequence + 1, Stamped(rec, rec.snapshot),
                                                 HopKey(id, rec.currentNode, rec.sequence), "", "",
                                                 "no matching transition", [])])
  }

  /** The status of an instance that has come to the node. */
  function StatusThere(there: Node): Status
  {
    match there.kind
    case Terminal => if there.outcome == Success then Completed else Failed
    case Wait => Waiting
    case _ => Running
  }

  /** The hop from the node has been committed with this snapshot: the instance is at the target, and
      the frame of a node with a compensator is on the stack. */
  predicate Arrived(now: int, id: string, rec: Record, g: GraphSpec, node: Node, out: Snapshot, target: string,
          kind: JournalKind, spawned: seq<string>, rec': Record)
  {
    && target in g.nodes
    && rec' == Record(rec.typeKey, StatusThere(g.nodes[target]), rec.sequence + 1, target, rec.graph, rec.parent,
                      rec.correlationId, out, rec'.stack, rec'.journal, rec'.waiting)
    && rec'.stack == rec.stack + (if node.kind == Compute && node.compensatorUnitId != ""
                                  then [Frame(rec.currentNode, node.unitId, node.compensatorUnitId, rec.sequence + 1,
                                              out.payload)]
                                  else [])
    && rec'.journal == rec.journal + [Entry(|rec.journal| + 1, kind, rec.currentNode, rec.sequence, rec.sequence + 1,
                                            out, HopKey(id, rec.currentNode, rec.sequence), "", "", "", spawned)]
    && if g.nodes[target].kind == Wait
       then rec'.waiting.Some? && WaitsFor(g.nodes[target], None, now, rec'.waiting.value)
       else rec'.waiting == None
  }

  // ---------- outcomes of a computing turn ----------

  /** Routing on the new snapshot decides: the hop along the transition it takes, an error that
      changes nothing, or a failure. */
  ghost predicate Routed(reg: Registry, now: int, id: string, rec: Record, g: GraphSpec, node: Node, out: Snapshot,
          rec': Record, error: Option<DagError>)
  {
    var ts := node.transitions;
    && (forall i :: Takes(reg.eval, ts, out, None, i) ==>
          error.None? && Arrived(now, id, rec, g, node, out, ts[i].target, NodeCommitted, [], rec'))
    && ((exists i :: Stops(reg.eval, ts, out, None, i)) ==> error == Some(EvaluationFailed) && rec' == rec)
    && (TakesNone(reg.eval, ts, out, None) ==> error.None? && Stuck(id, rec, rec'))
  }

  /** The unit gave this snapshot back: it must be of a type the unit declares and the instance admits,
      and is then routed on and kept. */
  ghost predicate Produced(reg: Registry, now: int, id: string, rec: Record, g: GraphSpec, node: Node, given: Snapshot,
          rec': Record, error: Option<DagError>)
    requires node.unitId in reg.units
  {
    var outputs, key := reg.units[node.unitId].outputTypes, given.typeKey;
    if outputs != {} && key !in outputs then error == Some(TypeMismatch) && rec' == rec
    else if rec.typeKey.entityType == "" || rec.typeKey.schemaVersion == "" || rec.typeKey !in reg.types
    then error == Some(InvalidEntityType) && rec' == rec
    else if key != rec.typeKey && key !in reg.types[rec.typeKey].compatibleInputs
    then error == Some(IncompatibleSchema) && rec' == rec
    else Routed(reg, now, id, rec, g, node, Stamped(rec, given), rec', error)
  }

  /** The ids of the children. */
  function IdsOf(specs: seq<SpawnSpec>): seq<string>
  {
    if specs == [] then [] else [specs[0].entityId] + IdsOf(specs[1..])
  }

  /** The unit spawned: the payload is kept whatever its type, and the hop is committed if all children
      could be started. */
  ghost predicate Spawned(reg: Registry, now: int, st: Store, id: string, rec: Record, g: GraphSpec, node: Node,
          specs: seq<SpawnSpec>, k: int, rec': Record, error: Option<DagError>)
  {
    var ts, out := node.transitions, Stamped(rec, rec.snapshot);
    && (forall i :: Takes(reg.eval, ts, out, None, i) ==>
          && StopsAt(reg, st, specs, k)
          && if k < |specs| then error == Some(SpecError(reg, specs[k])) && rec' == rec
             else
               && error.None?
               && Arrived(now, id, rec, g, node, out, ts[i].target, SpawnedChildren, IdsOf(specs), rec'))
    && ((exists i :: Stops(reg.eval, ts, out, None, i)) ==> k == 0 && error == Some(EvaluationFailed) && rec' == rec)
    && (TakesNone(reg.eval, ts, out, None) ==> k == 0 && error.None? && Stuck(id, rec, rec'))
  }

  /** The record and the error that the answer of the unit leads to; k children are born. */
  ghost predicate Outcome(reg: Registry, now: int, st: Store, id: string, rec: Record, g: GraphSpec, node: Node,
          m: Mutation, k: int, rec': Record, error: Option<DagError>)
    requires node.unitId in reg.units
  {
    match m
    case UpdateIntent(update) => k == 0 && Produced(reg, now, id, rec, g, node, update, rec', error)
    case NoIntent => k == 0 && Produced(reg, now, id, rec, g, node, rec.snapshot, rec', error)
    case SpawnIntent(specs) => Spawned(reg, now, st, id, rec, g, node, specs, k, rec', error)
    case CompleteIntent(outcome) =>
      k == 0 && error.None? && Ended(id, rec, if outcome == Failure then Failed else Completed, rec')
    case FailIntent(trigger) =>
      k == 0 && error.None? && rec' == rec.(status := if trigger then Compensating else Failed)
    case WaitIntent(wait) => k == 0 && error.None? && NowWaits(node, wait, now, rec, rec')
  }

  /** Beside the instance itself the turn has written only its newborn children, and of its executions
      only that of the current hop, which is committed exactly if the hop was journaled. */
  ghost predicate TouchedOnly(reg: Registry, st: Store, st': Store, id: string, m: Mutation, k: int)
    requires id in st.instances && id in st'.instances
  {
    var key := HopKey(id, st.instances[id].currentNode, st.instances[id].sequence);
    && st' == st.(instances := st'.instances, executions := st'.executions)
    && Born(reg, st, st.(instances := st'.instances[id := st.instances[id]]), id,
            if m.SpawnIntent? then m.specs else [], k)
    && st'.executions.Keys == st.executions.Keys + {key}
    && (forall x :: x in st.executions && x != key ==> st'.executions[x] == st.executions[x])
    && (st'.executions[key].status == ExecutionCommitted <==> st'.instances[id].journal != st.instances[id].journal)
    && st'.executions[key].attempt == if key in st.executions then st.executions[key].attempt else 0
  }

  // ---------- commits ----------

  function OwnKey(st: Store, id: string): Key
    requires id in st.instances
  {
    HopKey(id, st.instances[id].currentNode, st.instances[id].sequence)
  }

  /** The instance runs at this node of its graph, and the hop from there is not in its journal. */
  ghost predicate Unhopped(st: Store, id: string, g: GraphSpec, node: Node)
  {
    && id in st.instances && st.instances[id].status == Running && st.instances[id].waiting.None?
    && node.nodeId in g.nodes && g.nodes[node.nodeId] == node && st.instances[id].currentNode == node.nodeId
    && (forall n :: n in g.nodes ==> g.nodes[n].nodeId == n)
    && (forall k: JournalKind :: k in {NodeCommitted, SpawnedChildren, JoinCommitted} ==>
          !IsJournaled(st.instances[id].journal, OwnKey(st, id), k))
  }

  /** The step has replaced the record by one with one more entry, and committed the execution of the hop. */
  ghost predicate Hopped(st: Store, s: Step, id: string, rec': Record)
    requires id in st.instances
  {
    && s == Done(WithRecord(st, id, rec').(executions := MarkCommitted(st.executions, OwnKey(st, id))))
    && |rec'.journal| == |st.instances[id].journal| + 1
  }

  /** The step has left the store alone, or replaced the record, or committed the hop. */
  ghost predicate Wrote(st: Store, s: Step, id: string, rec': Record)
    requires id in st.instances
  {
    || (s.store == st && rec' == st.instances[id])
    || (s == Done(WithRecord(st, id, rec')) && rec'.journal == st.instances[id].journal)
    || Hopped(st, s, id, rec')
  }

  lemma EndsHere(st: Store, id: string, g: GraphSpec, node: Node, status: Status)
    requires Unhopped(st, id, g, node)
    ensures var st' := CommitHop(st, id, TerminalCommit(st, id, node.nodeId, status, None, ""));
            Hopped(st, Done(st'), id, st'.instances[id]) && Ended(id, st.instances[id], status, st'.instances[id])
  {
    hide IsJournaled;
  }

  lemma StuckHere(st: Store, id: string, g: GraphSpec, node: Node)
    requires Unhopped(st, id, g, node)
    ensures var s := FailNoTransition(st, id, node);
            Hopped(st, s, id, s.store.instances[id]) && Stuck(id, st.instances[id], s.store.instances[id])
  {
    hide IsJournaled;
  }

  /** The record between the commit of a hop and the wait that may follow it. */
  function Landed(rec: Record, id: string, g: GraphSpec, node: Node, out: Snapshot, target: string, kind: JournalKind,
          spawned: seq<string>): Record
  {
    rec.(status := StatusAt(g, target), sequence := rec.sequence + 1, currentNode := target, snapshot := out,
         stack := rec.stack + FramesFor(node, rec.sequence + 1, out),
         journal := rec.journal + [Entry(|rec.journal| + 1, kind, rec.currentNode, rec.sequence, rec.sequence + 1, out,
                                         HopKey(id, rec.currentNode, rec.sequence), "", "", "", spawned)])
  }

  lemma Lands(st0: Store, st: Store, id: string, g: GraphSpec, node: Node, out: Snapshot, target: string, m: Mutation)
    requires Unhopped(st, id, g, node) && id in st0.instances && st0.instances[id] == st.instances[id]
    requires out == Stamped(st.instances[id], out)
    ensures var c := ComputeCommit(st0, id, g, node, out, target, m, OwnKey(st, id));
            Hopped(st, Done(CommitHop(st, id, c)), id,
                   Landed(st.instances[id], id, g, node, out, target, c.kind, c.spawned))
  {
    hide IsJournaled, FramesFor, StatusAt;
    var rec := st.instances[id];
    var c := ComputeCommit(st0, id, g, node, out, target, m, OwnKey(st, id));
    assert c.kind in {NodeCommitted, SpawnedChildren, JoinCommitted};
    assert Committed(rec, c) == Landed(rec, id, g, node, out, target, c.kind, c.spawned);
  }

  lemma ArrivesThere(w: World, st0: Store, st: Store, id: string, g: GraphSpec, node: Node, out: Snapshot,
          target: string, m: Mutation)
    requires Unhopped(st, id, g, node) && id in st0.instances && st0.instances[id] == st.instances[id]
    requires out == Stamped(st.instances[id], out) && target in g.nodes
    ensures var c := ComputeCommit(st0, id, g, node, out, target, m, OwnKey(st, id));
            var s := WaitIfWaitNode(w, CommitHop(st, id, c), id, g, target);
            && Hopped(st, s, id, s.store.instances[id])
            && Arrived(w.now, id, st.instances[id], g, node, out, target, c.kind, c.spawned, s.store.instances[id])
  {
    hide CommitHop, MarkCommitted, IsJournaled;
    Lands(st0, st, id, g, node, out, target, m);
  }

  // ---------- the answers that commit the node ----------

  /** Committing the compute node and moving on to the target. */
  function Move(w: World, st0: Store, st: Store, id: string, g: GraphSpec, node: Node, out: Snapshot, target: string,
          m: Mutation): Step
    requires id in st.instances && id in st0.instances
  {
    WaitIfWaitNode(w, CommitHop(st, id, ComputeCommit(st0, id, g, node, out, target, m, OwnKey(st, id))), id, g, target)
  }

  lemma OneWay(reg: Registry, node: Node, out: Snapshot)
    ensures var ts, r := node.transitions, ResolveTransitions(reg.eval, node, out, None);
            match r
            case Ok(target) =>
              && (exists i :: Takes(reg.eval, ts, out, None, i))
              && (forall i :: Takes(reg.eval, ts, out, None, i) ==> 0 <= i < |ts| && ts[i].target == target)
              && (forall i :: !Stops(reg.eval, ts, out, None, i)) && !TakesNone(reg.eval, ts, out, None)
            case Err(e) =>
              && (forall i :: !Takes(reg.eval, ts, out, None, i))
              && (e == EvaluationFailed <==> exists i :: Stops(reg.eval, ts, out, None, i))
              && (e == NoTransition <==> TakesNone(reg.eval, ts, out, None))
              && e in {EvaluationFailed, NoTransition}
  {
    hide ResolveTransitions, Stops, TakesNone, Holds, Breaks, NoneBefore;
    RoutingMeans(reg.eval, node, out, None);
  }

  lemma TargetIsThere(g: GraphSpec, node: Node, i: int)
    requires TargetsExist(g) && node.nodeId in g.nodes && g.nodes[node.nodeId] == node && 0 <= i < |node.transitions|
    ensures node.transitions[i].target in g.nodes
  {
  }

  /** What routing on the new snapshot leads to, if the step is what the route says. */
  lemma RoutedHere(reg: Registry, w: World, st: Store, id: string, g: GraphSpec, node: Node, out: Snapshot, m: Mutation,
          s: Step)
    requires Unhopped(st, id, g, node) && TargetsExist(g) && out == Stamped(st.instances[id], out) && !m.SpawnIntent?
    requires s == match ResolveTransitions(reg.eval, node, out, None)
                  case Ok(target) => Move(w, st, st, id, g, node, out, target, m)
                  case Err(e) => if e == NoTransition then FailNoTransition(st, id, node) else Fail(st, e)
    ensures id in s.store.instances
    ensures var rec' := s.store.instances[id];
            && Routed(reg, w.now, id, st.instances[id], g, node, out, rec', s.error)
            && Wrote(st, s, id, rec')
  {
    hide ResolveTransitions, Takes, Stops, TakesNone, IsJournaled, FailNoTransition, CommitHop, WaitIfWaitNode,
         Arrived, Stuck, TargetsExist, ComputeCommit, Hopped;
    OneWay(reg, node, out);
    var r := ResolveTransitions(reg.eval, node, out, None);
    if r.Ok? {
      var i :| Takes(reg.eval, node.transitions, out, None, i);
      TargetIsThere(g, node, i);
      ArrivesThere(w, st, st, id, g, node, out, r.value, m);
      PlainKind(st, id, g, node, out, r.value, m);
      HoppedHas(st, s, id);
    } else {
      StuckHere(st, id, g, node);
      HoppedHas(st, FailNoTransition(st, id, node), id);
    }
  }

  lemma HoppedHas(st: Store, s: Step, id: string)
    requires id in st.instances
    ensures id in s.store.instances && Hopped(st, s, id, s.store.instances[id]) ==> s.error.None?
  {
  }

  lemma PlainKind(st: Store, id: string, g: GraphSpec, node: Node, out: Snapshot, target: string, m: Mutation)
    requires id in st.instances && !m.SpawnIntent?
    ensures var c := ComputeCommit(st, id, g, node, out, target, m, OwnKey(st, id));
            c.kind == NodeCommitted && c.spawned == []
  {
  }

  lemma ProducedHere(reg: Registry, w: World, st: Store, id: string, g: GraphSpec, node: Node, given: Snapshot,
          m: Mutation)
    requires Unhopped(st, id, g, node) && TargetsExist(g) && Computing(node) && node.unitId in reg.units
    requires !m.SpawnIntent?
    ensures var s := CommitCompute(reg, w, st, id, g, node, given, m, OwnKey(st, id));
            && id in s.store.instances
            && var rec' := s.store.instances[id];
               && Produced(reg, w.now, id, st.instances[id], g, node, given, rec', s.error)
               && Wrote(st, s, id, rec')
  {
    hide ResolveTransitions, IsJournaled, FailNoTransition, CommitHop, WaitIfWaitNode, TargetsExist, ComputeCommit,
         SpawnAll, Hopped, Routed;
    var s := CommitCompute(reg, w, st, id, g, node, given, m, OwnKey(st, id));
    var out := Stamped(st.instances[id], given);
    if CheckOutput(reg, st.instances[id].typeKey, reg.units[node.unitId], out).None? {
      RoutedHere(reg, w, st, id, g, node, out, m, s);
    }
  }

  /** What a spawn leaves if the step is what the route says. */
  lemma SpawnedHere(reg: Registry, w: World, st: Store, id: string, g: GraphSpec, node: Node, specs: seq<SpawnSpec>)
    returns (k: nat, born: Store)
    requires Unhopped(st, id, g, node) && TargetsExist(g) && Computing(node) && node.unitId in reg.units
    ensures var rec := st.instances[id];
            var s := CommitCompute(reg, w, st, id, g, node, rec.snapshot, SpawnIntent(specs), OwnKey(st, id));
            && id in s.store.instances && id in born.instances && Born(reg, st, born, id, specs, k)
            && var rec' := s.store.instances[id];
               && Spawned(reg, w.now, st, id, rec, g, node, specs, k, rec', s.error)
               && Wrote(born, s, id, rec')
  {
    hide ResolveTransitions, Takes, Stops, TakesNone, IsJournaled, FailNoTransition, CommitHop, WaitIfWaitNode,
         Arrived, Stuck, TargetsExist, ComputeCommit, Hopped, SpawnAll, Born, StopsAt, SpecError;
    var rec := st.instances[id];
    var out := Stamped(rec, rec.snapshot);
    OneWay(reg, node, out);
    var r := ResolveTransitions(reg.eval, node, out, None);
    NoneBorn(reg, st, id, specs);
    k, born := 0, st;
    if r.Ok? {
      k := SpawnStopsAt(reg, st, id, specs);
      born := SpawnAll(reg, st, id, specs).store;
      ParentStays(reg, st, born, id, specs, k);
      var i :| Takes(reg.eval, node.transitions, out, None, i);
      TargetIsThere(g, node, i);
      ArrivesThere(w, st, born, id, g, node, out, r.value, SpawnIntent(specs));
      SpawnKind(st, id, g, node, out, r.value, specs);
      var moved := Move(w, st, born, id, g, node, out, r.value, SpawnIntent(specs));
      HoppedHas(born, moved, id);
      assert CommitCompute(reg, w, st, id, g, node, rec.snapshot, SpawnIntent(specs), OwnKey(st, id))
             == if k < |specs| then Fail(born, SpecError(reg, specs[k])) else moved;
    } else {
      StuckHere(st, id, g, node);
      HoppedHas(st, FailNoTransition(st, id, node), id);
    }
  }

  lemma NoneBorn(reg: Registry, st: Store, id: string, specs: seq<SpawnSpec>)
    ensures Born(reg, st, st, id, specs, 0)
  {
  }

  lemma ParentStays(reg: Registry, st: Store, born: Store, id: string, specs: seq<SpawnSpec>, k: int)
    requires Born(reg, st, born, id, specs, k) && id in st.instances
    ensures id in born.instances && born.instances[id] == st.instances[id] && OwnKey(born, id) == OwnKey(st, id)
    ensures 0 <= k <= |specs|
  {
  }

  lemma {:induction false} SameIds(specs: seq<SpawnSpec>)
    ensures EntityIds(specs) == IdsOf(specs)
  {
    if specs != [] {
      SameIds(specs[1..]);
      assert EntityIds(specs) == [specs[0].entityId] + EntityIds(specs[1..]);
    }
  }

  lemma SpawnKind(st: Store, id: string, g: GraphSpec, node: Node, out: Snapshot, target: string,
          specs: seq<SpawnSpec>)
    requires id in st.instances
    ensures var c := ComputeCommit(st, id, g, node, out, target, SpawnIntent(specs), OwnKey(st, id));
            c.kind == SpawnedChildren && c.spawned == IdsOf(specs)
  {
    SameIds(specs);
  }

  // ---------- the turn ----------

  /** The execution of the current hop is there, and nothing else has changed. */
  function Begun(st: Store, id: string): (r: Store)
    requires id in st.instances
    ensures OwnKey(st, id) in r.executions && r.instances == st.instances
  {
    var rec := st.instances[id];
    CreateExecution(st, OwnKey(st, id), Execution(rec.currentNode, rec.sequence, ExecutionRunning, 0))
  }

  lemma TurnUnfolds(reg: Registry, w: World, st: Store, id: string, g: GraphSpec, node: Node, m: Mutation)
    requires ReadyToCompute(reg, st, id, g, node)
    requires w.execute(id, node.unitId, st.instances[id].snapshot) == Executed(Some(m))
    ensures ProcessInstance(reg, w, st, id) == ApplyMutation(reg, w, Begun(st, id), id, g, node, m, OwnKey(st, id))
    ensures Unhopped(Begun(st, id), id, g, node) && TargetsExist(g)
    ensures OwnKey(st, id) in st.executions ==> st.executions[OwnKey(st, id)].status != ExecutionCommitted
  {
    hide Sound, ValidRegistry, WellFormed, IsJournaled, ApplyMutation, AdvanceAfterCommit;
    HopIsFresh(reg, st, id, g, node);
    ActiveFacts(reg, st, id);
    GraphIsGood(reg, st.instances[id].graph);
  }

  /** The answers that do not commit the compute node, and the store they leave. */
  lemma PlainAnswer(reg: Registry, w: World, st: Store, id: string, g: GraphSpec, node: Node, m: Mutation)
    requires Unhopped(st, id, g, node) && Computing(node) && node.unitId in reg.units
    requires m.CompleteIntent? || m.FailIntent? || m.WaitIntent?
    ensures var s := ApplyMutation(reg, w, st, id, g, node, m, OwnKey(st, id));
            && id in s.store.instances
            && var rec' := s.store.instances[id];
               && Outcome(reg, w.now, st, id, st.instances[id], g, node, m, 0, rec', s.error)
               && Wrote(st, s, id, rec')
  {
    hide IsJournaled, CommitHop, CommitCompute;
    match m
    case CompleteIntent(outcome) => EndsHere(st, id, g, node, if outcome == Failure then Failed else Completed);
    case FailIntent(trigger) =>
    case WaitIntent(wait) => EnterWaitStore(w, st, id, node, wait);
  }

  lemma AnyAnswer(reg: Registry, w: World, st: Store, id: string, g: GraphSpec, node: Node, m: Mutation)
    returns (k: nat, born: Store)
    requires Unhopped(st, id, g, node) && TargetsExist(g) && Computing(node) && node.unitId in reg.units
    ensures var s := ApplyMutation(reg, w, st, id, g, node, m, OwnKey(st, id));
            && id in s.store.instances && id in born.instances
            && Born(reg, st, born, id, if m.SpawnIntent? then m.specs else [], k)
            && var rec' := s.store.instances[id];
               && Outcome(reg, w.now, st, id, st.instances[id], g, node, m, k, rec', s.error)
               && Wrote(born, s, id, rec')
  {
    hide IsJournaled, CommitHop, CommitCompute, Born, TargetsExist, Produced, Spawned, Hopped;
    k, born := 0, st;
    NoneBorn(reg, st, id, []);
    match m
    case UpdateIntent(update) => ProducedHere(reg, w, st, id, g, node, update, m);
    case NoIntent => ProducedHere(reg, w, st, id, g, node, st.instances[id].snapshot, m);
    case SpawnIntent(specs) => k, born := SpawnedHere(reg, w, st, id, g, node, specs);
    case _ => PlainAnswer(reg, w, st, id, g, node, m);
  }

  lemma SameOutcome(reg: Registry, now: int, st: Store, st': Store, id: string, rec: Record, g: GraphSpec, node: Node,
          m: Mutation, k: int, rec': Record, error: Option<DagError>)
    requires node.unitId in reg.units && st'.instances == st.instances
    requires Outcome(reg, now, st', id, rec, g, node, m, k, rec', error)
    ensures Outcome(reg, now, st, id, rec, g, node, m, k, rec', error)
  {
    hide Produced, Arrived, Stuck, Ended, NowWaits, Takes, Stops, TakesNone, StopsAt, SpecError;
    if m.SpawnIntent? && StopsAt(reg, st', m.specs, k) {
      SameSpecs(reg, st, st', m.specs, k);
    }
  }

  lemma TouchedByTurn(reg: Registry, st: Store, id: string, m: Mutation, k: int, born: Store, s: Step)
    requires id in st.instances && id in s.store.instances && id in born.instances
    requires OwnKey(st, id) in st.executions ==> st.executions[OwnKey(st, id)].status != ExecutionCommitted
    requires Born(reg, Begun(st, id), born, id, if m.SpawnIntent? then m.specs else [], k)
    requires Wrote(born, s, id, s.store.instances[id])
    ensures TouchedOnly(reg, st, s.store, id, m, k)
  {
    hide Startable, ChildRecord, IsJournaled;
    var specs := if m.SpawnIntent? then m.specs else [];
    ParentStays(reg, Begun(st, id), born, id, specs, k);
    SameBirths(reg, st, Begun(st, id), born, id, specs, k);
    assert s.store.instances[id := st.instances[id]] == born.instances;
    assert st.(instances := s.store.instances[id := st.instances[id]]) == born.(executions := st.executions);
  }

  /** The turn of an instance whose unit answers. */
  lemma ComputeTurn(reg: Registry, w: World, st: Store, id: string, g: GraphSpec, node: Node, m: Mutation)
    returns (k: nat)
    requires ReadyToCompute(reg, st, id, g, node)
    requires w.execute(id, node.unitId, st.instances[id].snapshot) == Executed(Some(m))
    ensures var s := ProcessInstance(reg, w, st, id);
            && id in s.store.instances
            && Outcome(reg, w.now, st, id, st.instances[id], g, node, m, k, s.store.instances[id], s.error)
            && TouchedOnly(reg, st, s.store, id, m, k)
  {
    hide ProcessInstance, ApplyMutation, Unhopped, Outcome, Born, TouchedOnly, Wrote, Sound, ValidRegistry,
         TargetsExist, CreateExecution;
    TurnUnfolds(reg, w, st, id, g, node, m);
    var born;
    k, born := AnyAnswer(reg, w, Begun(st, id), id, g, node, m);
    var s := ProcessInstance(reg, w, st, id);
    SameOutcome(reg, w.now, st, Begun(st, id), id, st.instances[id], g, node, m, k, s.store.instances[id], s.error);
    TouchedByTurn(reg, st, id, m, k, born, s);
  }

  /** A reached instance is ready to compute, and its unit gives this answer. */
  ghost predicate Answered(reg: Registry, calls: seq<Call>, w: World, st: Store, id: string, rec: Record, g: GraphSpec,
          node: Node, m: Mutation)
  {
    && Reaches(reg, calls, st, id, rec, g) && rec.status == Running
    && rec.currentNode in g.nodes && node == g.nodes[rec.currentNode] && node.kind in {Compute, KindUnspecified}
    && node.unitId in reg.units && node.unitId in reg.unitImpls
    && rec.snapshot.typeKey == reg.units[node.unitId].inputType
    && w.execute(id, node.unitId, rec.snapshot) == Executed(Some(m))
  }

  lemma AnsweredIsReady(reg: Registry, calls: seq<Call>, w: World, st: Store, id: string, rec: Record, g: GraphSpec,
          node: Node, m: Mutation)
    requires Answered(reg, calls, w, st, id, rec, g, node, m)
    ensures Inv(reg, st) && ReadyToCompute(reg, st, id, g, node) && Runnable(st, id)
  {
    hide ValidRegistry, RunFrom, Sound, Inv;
    ReachedIsSound(reg, calls, id);
    GraphIsGood(reg, rec.graph);
  }

  /** One tick, whatever else happens in it, leaves an instance that has its turn with the record that
      the answer of its unit leads to; and an error that this answer leads to is the tick's.  `at` is
      the store that the turn finds, where the instance is still as it was before the tick. */
  lemma ComputeTick(reg: Registry, calls: seq<Call>, w: World, st: Store, id: string, rec: Record, g: GraphSpec,
          node: Node, m: Mutation)
    returns (at: Store, k: nat, error: Option<DagError>)
    requires Answered(reg, calls, w, st, id, rec, g, node, m) && ValidWorld(w) && HasTurn(reg, w, st, id)
    ensures SameOwn(st, at, id)
    ensures var s := RunOnce(reg, w, st);
            && id in s.store.instances
            && Outcome(reg, w.now, at, id, rec, g, node, m, k, s.store.instances[id], error)
            && (error.Some? ==> s.error == error)
  {
    hide Inv, Sound, ValidRegistry, ValidWorld, RunOnce, RunFrom, ProcessInstance, HasTurn, SameExecutions, Outcome,
         TouchedOnly;
    AnsweredIsReady(reg, calls, w, st, id, rec, g, node, m);
    at := TickReaches(reg, w, st, id);
    StillReady(reg, st, at, id, g, node);
    k := ComputeTurn(reg, w, at, id, g, node, m);
    error := ProcessInstance(reg, w, at, id).error;
  }

  /** What the unit made of the instance is kept: an update of an admitted type is the new snapshot and
      the one in the journal, one sequence further, and it is the update that routing has looked at. */
  lemma UpdateIsKept(reg: Registry, calls: seq<Call>, w: World, st: Store, id: string, rec: Record, g: GraphSpec,
          node: Node, u: Snapshot, i: int)
    requires Answered(reg, calls, w, st, id, rec, g, node, UpdateIntent(u)) && ValidWorld(w) && HasTurn(reg, w, st, id)
    requires var outputs := reg.units[node.unitId].outputTypes; outputs == {} || u.typeKey in outputs
    requires rec.typeKey.entityType != "" && rec.typeKey.schemaVersion != "" && rec.typeKey in reg.types
    requires u.typeKey == rec.typeKey || u.typeKey in reg.types[rec.typeKey].compatibleInputs
    requires Takes(reg.eval, node.transitions, u.(sequence := rec.sequence + 1), None, i)
    ensures var st', target := RunOnce(reg, w, st).store, node.transitions[i].target;
            && id in st'.instances && target in g.nodes
            && var rec', n := st'.instances[id], |rec.journal|;
               && rec'.snapshot == u.(sequence := rec.sequence + 1) && rec'.sequence == rec.sequence + 1
               && |rec'.journal| == n + 1 && rec'.journal[..n] == rec.journal
               && rec'.journal[n].outputSnapshot == rec'.snapshot && rec'.journal[n].kind == NodeCommitted
               && rec'.currentNode == target
               && (rec'.status == Waiting <==> g.nodes[target].kind == Wait)
               && (rec'.status == Running <==> g.nodes[target].kind !in {Wait, Terminal})
               && (rec'.status == Completed <==> g.nodes[target].kind == Terminal && g.nodes[target].outcome == Success)
  {
    hide ValidRegistry, ValidWorld, RunOnce, RunFrom, HasTurn, SameOwn, Takes;
    var at, k, error := ComputeTick(reg, calls, w, st, id, rec, g, node, UpdateIntent(u));
  }

  /** Turns at a computing node that get no answer. */
  lemma UnansweredTurn(reg: Registry, w: World, st: Store, id: string, g: GraphSpec, node: Node)
    requires At(reg, st, id, g, node) && st.instances[id].status == Running && Computing(node)
    ensures var s := ProcessInstance(reg, w, st, id);
            var known := node.unitId in reg.units;
            var fits := known && st.instances[id].snapshot.typeKey == reg.units[node.unitId].inputType;
            && (!known ==> s == Fail(st, UnitNotFound))
            && (known && !fits ==> s == Fail(st, TypeMismatch))
            && (fits && node.unitId !in reg.unitImpls ==> s.error == Some(UnitNotFound))
            && (fits && node.unitId in reg.unitImpls
                && w.execute(id, node.unitId, st.instances[id].snapshot) == Executed(None) ==>
                  s.error == Some(NilMutation))
            && (!fits || node.unitId !in reg.unitImpls
                || w.execute(id, node.unitId, st.instances[id].snapshot) == Executed(None) ==>
                  s.store.instances == st.instances && s.store.calls == st.calls && s.store.signals == st.signals)
  {
    hide Sound, ValidRegistry, ApplyMutation, AdvanceAfterCommit;
    NeverResumed(reg, st, id, g, node);
  }

  // ---------- a hop that is committed already ----------

  /** The execution of the hop is committed, and yet the instance is still at its node. */
  ghost predicate Interrupted(reg: Registry, st: Store, id: string, g: GraphSpec, node: Node)
  {
    && id in st.instances && st.instances[id].status == Running && st.instances[id].waiting.None?
    && GetGraph(reg, st.instances[id].graph) == Ok(g) && TargetsExist(g)
    && (forall n :: n in g.nodes ==> g.nodes[n].nodeId == n)
    && st.instances[id].currentNode in g.nodes && node == g.nodes[st.instances[id].currentNode] && Computing(node)
    && node.unitId in reg.units && st.instances[id].snapshot.typeKey == reg.units[node.unitId].inputType
    && OwnKey(st, id) in st.executions && st.executions[OwnKey(st, id)].status == ExecutionCommitted
  }

  /** Where such an instance is taken: to the target with its payload, its sequence and its journal; only
      a terminal adds its own entry. */
  predicate Resumed(now: int, id: string, rec: Record, g: GraphSpec, target: string, rec': Record)
    requires target in g.nodes
  {
    match g.nodes[target].kind
    case Terminal => EndedAt(id, rec, target, if g.nodes[target].outcome == Success then Completed else Failed, rec')
    case Wait => NowWaits(g.nodes[target], None, now, rec.(currentNode := target), rec')
    case _ => rec' == rec.(currentNode := target)
  }

  /** Its turn does not call the unit again, but routes on from the snapshot that is there. */
  lemma ResumedTurn(reg: Registry, w: World, st: Store, id: string, g: GraphSpec, node: Node, i: int)
    requires Interrupted(reg, st, id, g, node)
    requires Takes(reg.eval, node.transitions, st.instances[id].snapshot, None, i)
    requires !IsJournaled(st.instances[id].journal,
                          HopKey(id, node.transitions[i].target, st.instances[id].sequence), NodeCommitted)
    ensures var s, target := ProcessInstance(reg, w, st, id), node.transitions[i].target;
            && target in g.nodes && s.error.None? && id in s.store.instances && s.store.calls == st.calls
            && Resumed(w.now, id, st.instances[id], g, target, s.store.instances[id])
  {
    hide IsJournaled, ResolveTransitions, Stops, TakesNone, NoneBefore, Holds, Breaks;
    RoutingMeans(reg.eval, node, st.instances[id].snapshot, None);
    TargetIsThere(g, node, i);
  }

  // ---------- the other nodes ----------

  /** A reached instance runs at this node. */
  ghost predicate StandsAt(reg: Registry, calls: seq<Call>, st: Store, id: string, rec: Record, g: GraphSpec,
          node: Node)
  {
    Reaches(reg, calls, st, id, rec, g) && rec.status == Running && rec.currentNode in g.nodes
    && node == g.nodes[rec.currentNode]
  }

  lemma StandsUnhopped(reg: Registry, calls: seq<Call>, st: Store, id: string, rec: Record, g: GraphSpec, node: Node)
    requires StandsAt(reg, calls, st, id, rec, g, node)
    ensures At(reg, st, id, g, node) && Unhopped(st, id, g, node) && TargetsExist(g)
    ensures OwnKey(st, id) in st.executions ==> st.executions[OwnKey(st, id)].status != ExecutionCommitted
  {
    hide ValidRegistry, RunFrom, Sound, IsJournaled;
    ReachedIsSound(reg, calls, id);
    GraphIsGood(reg, rec.graph);
    ActiveFacts(reg, st, id);
    HopIsFresh(reg, st, id, g, node);
  }

  /** Only the record has changed, and the execution of its hop is committed if there is one. */
  ghost predicate Marked(st: Store, st': Store, id: string)
    requires id in st.instances && id in st'.instances
  {
    var key := HopKey(id, st.instances[id].currentNode, st.instances[id].sequence);
    && st' == st.(instances := st.instances[id := st'.instances[id]], executions := st'.executions)
    && st'.executions == if key in st.executions
                         then st.executions[key := st.executions[key].(status := ExecutionCommitted)]
                         else st.executions
  }

  /** At a wait node an instance begins to wait as the node says; at a terminal it ends with the
      terminal's outcome. */
  lemma StandingTurn(reg: Registry, calls: seq<Call>, w: World, st: Store, id: string, rec: Record, g: GraphSpec,
          node: Node)
    requires StandsAt(reg, calls, st, id, rec, g, node) && node.kind in {Wait, Terminal}
    ensures var s := ProcessInstance(reg, w, st, id);
            && s.error.None? && id in s.store.instances
            && var rec' := s.store.instances[id];
               if node.kind == Wait
               then s.store == st.(instances := st.instances[id := rec']) && NowWaits(node, None, w.now, rec, rec')
               else
                 && Marked(st, s.store, id)
                 && Ended(id, rec, if node.outcome == Success then Completed else Failed, rec')
  {
    hide ValidRegistry, RunFrom, Sound, IsJournaled, CommitHop;
    StandsUnhopped(reg, calls, st, id, rec, g, node);
    if node.kind == Terminal {
      EndsHere(st, id, g, node, TerminalStatus(node));
    } else {
      EnterWaitStore(w, st, id, node, None);
    }
  }

  /** The join has been committed: the instance runs at the target with its payload. */
  predicate Joined(id: string, rec: Record, target: string, rec': Record)
  {
    rec' == rec.(sequence := rec.sequence + 1, snapshot := Stamped(rec, rec.snapshot), currentNode := target,
                 journal := rec.journal + [Entry(|rec.journal| + 1, JoinCommitted, rec.currentNode, rec.sequence,
                                                 rec.sequence + 1, Stamped(rec, rec.snapshot),
                                                 HopKey(id, rec.currentNode, rec.sequence), "", "", "", [])])
  }

  lemma JoinsHere(st: Store, id: string, g: GraphSpec, node: Node, target: string)
    requires Unhopped(st, id, g, node)
    ensures var st' := CommitHop(st, id, JoinCommit(st, id, node, target));
            Hopped(st, Done(st'), id, st'.instances[id]) && Joined(id, st.instances[id], target, st'.instances[id])
  {
    hide IsJournaled;
    assert JoinCommitted in {NodeCommitted, SpawnedChildren, JoinCommitted};
  }

  /** At a join node an instance moves on only when the join is ready, along the transition that
      routing takes; a failed child fails it; a child that cannot be found is an error; and else it stays. */
  lemma JoinTurn(reg: Registry, calls: seq<Call>, w: World, st: Store, id: string, rec: Record, g: GraphSpec,
          node: Node)
    requires StandsAt(reg, calls, st, id, rec, g, node) && node.kind == Join && ValidWorld(w)
    ensures var s := ProcessInstance(reg, w, st, id);
            && id in s.store.instances
            && var rec', ts, snap := s.store.instances[id], node.transitions, rec.snapshot;
               if node.joinSpec.None? then s == Fail(st, InvalidGraph)
               else if Ready(w, st, id, node.joinSpec.value) then
                 && (forall i :: Takes(reg.eval, ts, snap, None, i) ==>
                       s.error.None? && Joined(id, rec, ts[i].target, rec') && Marked(st, s.store, id))
                 && ((exists i :: Stops(reg.eval, ts, snap, None, i)) ==> s == Fail(st, EvaluationFailed))
                 && (TakesNone(reg.eval, ts, snap, None) ==>
                       s.error.None? && Stuck(id, rec, rec') && Marked(st, s.store, id))
               else if FailsParent(w, st, id, node.joinSpec.value) then
                 s == Done(st.(instances := st.instances[id := rec.(status := Failed)]))
               else if exists k :: MissesChild(w, st, id, node.joinSpec.value, k) then s == Fail(st, InstanceNotFound)
               else s == Done(st)
  {
    hide ValidRegistry, RunFrom, Sound, IsJournaled, CommitHop, CheckJoinBarriers, Ready, FailsParent, MissesChild,
         ResolveTransitions, FailNoTransition, Stops, TakesNone, NoneBefore, Holds, Breaks, ValidWorld, TargetsExist,
         GetGraph;
    StandsUnhopped(reg, calls, st, id, rec, g, node);
    if node.joinSpec.Some? {
      CheckMeaning(w, st, id, node.joinSpec.value);
      if FailsParent(w, st, id, node.joinSpec.value) {
        OnlyIfFailuresCount(w, st, id, node.joinSpec.value);
      }
      OneWay(reg, node, rec.snapshot);
      StuckHere(st, id, g, node);
      var next := ResolveTransitions(reg.eval, node, rec.snapshot, None);
      if next.Ok? {
        JoinsHere(st, id, g, node, next.value);
      }
    }
  }

  // ---------- the end of a compensation ----------

  lemma EndsThere(reg: Registry, st: Store, id: string, g: GraphSpec, t: Node)
    requires ValidRegistry(reg) && id in st.instances && Sound(reg, st, id) && st.instances[id].status == Compensating
    requires GraphAt(reg, st, id) == Ok(g) && Edge(g, st.instances[id].currentNode, t.nodeId)
    ensures var finished := SetStatus(st, id, Compensated);
            var s := CommitTerminal(finished, id, t);
            && s.error.None? && s.store.calls == st.calls
            && EndedAt(id, st.instances[id], t.nodeId, if t.outcome == Success then Completed else Failed,
                        s.store.instances[id])
  {
    hide Sound, ValidRegistry, IsJournaled, WellFormed, Trail, Acyclic;
    var rec := st.instances[id];
    ActiveFacts(reg, st, id);
    GraphIsGood(reg, rec.graph);
    AheadIsNew(g, rec.journal, rec.currentNode);
    HopIsNew(id, rec.journal, st.signals, t.nodeId, rec.sequence, NodeCommitted);
  }

  /** A turn that finds nothing left to undo ends the compensation: the instance is COMPENSATED and else
      as it was; or, where routing from its node takes a transition to a terminal, it is there, has the
      terminal's status, and one entry more. */
  lemma FinishTurn(reg: Registry, calls: seq<Call>, w: World, st: Store, id: string, rec: Record, g: GraphSpec)
    requires Reaches(reg, calls, st, id, rec, g) && rec.status == Compensating && rec.stack == []
    ensures rec.currentNode in g.nodes
    ensures var s, ts := ProcessInstance(reg, w, st, id), g.nodes[rec.currentNode].transitions;
            && s.error.None? && s.store.calls == st.calls && id in s.store.instances
            && (forall t :: LeadsToTerminal(reg, g, rec.currentNode, rec.snapshot, t) ==>
                  EndedAt(id, rec, t, if g.nodes[t].outcome == Success then Completed else Failed,
                          s.store.instances[id]))
            && ((forall t :: !LeadsToTerminal(reg, g, rec.currentNode, rec.snapshot, t)) ==>
                  s.store == st.(instances := st.instances[id := rec.(status := Compensated)]))
  {
    hide ValidRegistry, RunFrom, Sound, LeadsToTerminal, ResolveTransitions, CommitTerminal, EndedAt, WellFormed;
    ReachedIsSound(reg, calls, id);
    ActiveFacts(reg, st, id);
    GraphIsGood(reg, rec.graph);
    var node := g.nodes[rec.currentNode];
    forall t: string
      ensures LeadsToTerminal(reg, g, rec.currentNode, rec.snapshot, t) <==>
                && ResolveTransitions(reg.eval, node, rec.snapshot, None) == Ok(t)
                && t in g.nodes && g.nodes[t].kind == Terminal
    {
      LeadingIsResolved(reg, g, rec.currentNode, rec.snapshot, t);
    }
    if node.transitions == [] {
      NoTransitionsNoTarget(reg, node, rec.snapshot);
    } else {
      var next := ResolveTransitions(reg.eval, node, rec.snapshot, None);
      if next.Ok? && next.value in g.nodes && g.nodes[next.value].kind == Terminal {
        ResolvedEdge(reg, g, node, rec.snapshot, None);
        EndsThere(reg, st, id, g, g.nodes[next.value]);
      }
    }
  }

  /** On any store, repeating a journaled compensation takes its frame off the stack if that is still on
      top, and any other repetition changes nothing. */
  lemma RepetitionReconciles(st: Store, id: string, c: HopCommit, i: nat)
    requires id in st.instances && i < |st.instances[id].journal|
    requires st.instances[id].journal[i].key == c.key && st.instances[id].journal[i].kind == c.kind
    ensures var rec, n := st.instances[id], |st.instances[id].stack| - 1;
            var left := n >= 0 && rec.stack[n].nodeId == c.nodeId && rec.stack[n].forwardSequence == c.inputSequence;
            CommitHop(st, id, c)
            == if c.kind == CompensationCommitted && left
               then st.(instances := st.instances[id := rec.(stack := rec.stack[..n])]) else st
  {
    assert IsJournaled(st.instances[id].journal, c.key, c.kind);
    assert st.instances[id := st.instances[id]] == st.instances;
  }
}
