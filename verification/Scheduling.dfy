/**
 What the engine does (pkg/dag/memory/engine.go), as functions from store to store.

 Every function returns the store it leaves behind and the error it ends with; an error does not
 undo what was already written.
 */
module Scheduling {
  import opened Wrappers
  import opened Entities
  import opened Graphs
  import opened Routing
  import opened Idempotency
  import opened Lines
  import opened Registries

  datatype Step = Step(store: Store, error: Option<DagError>)

  function Done(st: Store): Step
  {
    Step(st, None)
  }

  function Fail(st: Store, e: DagError): Step
  {
    Step(st, Some(e))
  }

  function TerminalStatus(node: Node): Status
  {
    if node.outcome == Success then Completed else Failed
  }

  function HopKeyOf(st: Store, id: string, nodeId: string): Key
    requires id in st.instances
  {
    HopKey(id, nodeId, st.instances[id].sequence)
  }

  // ---------- waiting ----------

  function WaitSignalOf(node: Node): Option<WaitSignal>
  {
    if node.waitConfig.None? then None
    else
      var cfg := node.waitConfig.value;
      Some(WaitSignal(cfg.signalName, cfg.acceptedSignals, None, cfg.onTimeoutTarget))
  }

  function WaitRecordFor(now: int, node: Node, wait: Option<WaitSignal>): WaitRecord
  {
    var base := if wait.Some?
                then WaitRecord(wait.value.deadline, wait.value.onTimeoutTarget,
                                wait.value.signalName, wait.value.acceptedSignals)
                else WaitRecord(None, "", "", []);
    if node.waitConfig.None? then base
    else
      var cfg := node.waitConfig.value;
      WaitRecord(
        if cfg.defaultDeadlineSeconds > 0 && base.deadline.None? then Some(now + cfg.defaultDeadlineSeconds)
        else base.deadline,
        cfg.onTimeoutTarget,
        if base.signalName == "" then cfg.signalName else base.signalName,
        cfg.acceptedSignals)
  }

  function EnterWait(w: World, st: Store, id: string, node: Node, wait: Option<WaitSignal>): (s: Step)
    requires id in st.instances
    ensures s.store.instances.Keys == st.instances.Keys
  {
    Done(SetWaiting(st, id, node.nodeId, WaitRecordFor(w.now, node, wait)))
  }

  // ---------- terminal commits ----------

  function TerminalCommit(st: Store, id: string, nodeId: string, status: Status, snap: Option<Snapshot>,
          reason: string): HopCommit
    requires id in st.instances
  {
    HopCommit(nodeId, st.instances[id].sequence, HopKeyOf(st, id, nodeId), snap, nodeId, status, [], [],
              NodeCommitted, "", "", reason)
  }

  function CommitTerminal(st: Store, id: string, node: Node): (s: Step)
    requires id in st.instances
    ensures s.store.instances.Keys == st.instances.Keys
  {
    Done(CommitHop(st, id, TerminalCommit(st, id, node.nodeId, TerminalStatus(node), None, "")))
  }

  function CommitOutcome(st: Store, id: string, node: Node, outcome: TerminalOutcome): Step
    requires id in st.instances
  {
    var status := if outcome == Failure then Failed else Completed;
    Done(CommitHop(st, id, TerminalCommit(st, id, node.nodeId, status, None, "")))
  }

  const NO_TRANSITION := "no matching transition"

  function FailNoTransition(st: Store, id: string, node: Node): (s: Step)
    requires id in st.instances
    ensures s.store.instances.Keys == st.instances.Keys
  {
    Done(CommitHop(st, id, TerminalCommit(st, id, node.nodeId, Failed, Some(st.instances[id].snapshot), NO_TRANSITION)))
  }

  // ---------- timeouts ----------

  function TimeoutCommit(st: Store, id: string, target: string, status: Status): HopCommit
    requires id in st.instances
  {
    var rec := st.instances[id];
    HopCommit(rec.currentNode, rec.sequence, HopKeyOf(st, id, rec.currentNode), None, target, status, [], [],
              SignalReceived, "", "", "")
  }

  function ProcessTimeout(reg: Registry, st: Store, due: Due): Step
  {
    var id := due.entityId;
    if due.waiting.onTimeoutTarget == "" then Done(st)
    else if id !in st.instances then Fail(st, InstanceNotFound)
    else
      var g := GetGraph(reg, st.instances[id].graph);
      if g.Err? then Fail(st, g.error)
      else if due.waiting.onTimeoutTarget !in g.value.nodes then Done(st)
      else
        var target := g.value.nodes[due.waiting.onTimeoutTarget];
        Done(CommitHop(st, id, TimeoutCommit(st, id, due.waiting.onTimeoutTarget, TerminalStatus(target))))
  }

  // ---------- compute nodes ----------

  function HandleExecuteError(reg: Registry, st: Store, node: Node, key: Key): Step
    requires key in st.executions
  {
    var attempt := st.executions[key].attempt;
    if attempt >= MaxAttempts(reg, node.unitId) then Fail(st, ExecutionFailed)
    else Done(SetAttempt(st, key, attempt + 1))
  }

  function HandleFail(st: Store, id: string, triggerCompensation: bool): Step
    requires id in st.instances
  {
    Done(SetStatus(st, id, if triggerCompensation then Compensating else Failed))
  }

  predicate OutputTypeAllowed(u: UnitDef, key: TypeKey)
  {
    u.outputTypes == {} || key in u.outputTypes
  }

  /** The type checks on a new snapshot; None if it passes. */
  function CheckOutput(reg: Registry, instanceType: TypeKey, u: UnitDef, snap: Snapshot): Option<DagError>
  {
    if !OutputTypeAllowed(u, snap.typeKey) then Some(TypeMismatch)
    else if !ValidTypeKey(instanceType) || instanceType !in reg.types then Some(InvalidEntityType)
    else if snap.typeKey != instanceType && snap.typeKey !in reg.types[instanceType].compatibleInputs
    then Some(IncompatibleSchema)
    else None
  }

  function ChildRequest(parent: string, spec: SpawnSpec): StartRequest
  {
    StartRequest(spec.entityId, spec.typeKey, spec.payload, spec.graph, Some(parent), spec.correlationId)
  }

  function CheckSpawn(spec: SpawnSpec): Option<DagError>
  {
    if spec.entityId == "" then Some(InvalidSpawn)
    else if !ValidTypeKey(spec.typeKey) then Some(InvalidEntityType)
    else if spec.graph.graphId == "" || spec.graph.version == "" then Some(InvalidSpawn)
    else None
  }

  /** Children are created one by one; an error leaves the earlier ones behind. */
  function SpawnAll(reg: Registry, st: Store, parent: string, specs: seq<SpawnSpec>): Step
    decreases |specs|
  {
    if specs == [] then Done(st)
    else
      var spec := specs[0];
      var bad := CheckSpawn(spec);
      if bad.Some? then Fail(st, bad.value)
      else if GetGraph(reg, spec.graph).Err? then Fail(st, InvalidGraph)
      else if spec.entityId in st.instances then Fail(st, InstanceAlreadyExists)
      else
        var child := NewRecord(ChildRequest(parent, spec), reg.graphs[spec.graph].entryNodeId);
        SpawnAll(reg, WithRecord(st, spec.entityId, child), parent, specs[1..])
  }

  function FramesFor(node: Node, sequence: int, snap: Snapshot): seq<Frame>
  {
    if node.compensatorUnitId != "" && node.kind == Compute
    then [Frame(node.nodeId, node.unitId, node.compensatorUnitId, sequence, snap.payload)]
    else []
  }

  function StatusAt(g: GraphSpec, nodeId: string): Status
  {
    if nodeId in g.nodes && g.nodes[nodeId].kind == Terminal then TerminalStatus(g.nodes[nodeId]) else Running
  }

  function EntityIds(specs: seq<SpawnSpec>): seq<string>
  {
    seq(|specs|, i requires 0 <= i < |specs| => specs[i].entityId)
  }

  function ComputeCommit(st: Store, id: string, g: GraphSpec, node: Node, snap: Snapshot, next: string,
          mutation: Mutation, key: Key): HopCommit
    requires id in st.instances
  {
    var rec := st.instances[id];
    HopCommit(node.nodeId, rec.sequence, key, Some(snap), next, StatusAt(g, next),
              FramesFor(node, rec.sequence + 1, snap),
              if mutation.SpawnIntent? then EntityIds(mutation.specs) else [],
              if mutation.SpawnIntent? then SpawnedChildren else NodeCommitted, "", "", "")
  }

  /** A hop that lands on a WAIT node starts waiting there at once. */
  function WaitIfWaitNode(w: World, st: Store, id: string, g: GraphSpec, next: string): (s: Step)
    requires id in st.instances
    ensures s.store.instances.Keys == st.instances.Keys
  {
    if st.instances[id].status == Running && next in g.nodes && g.nodes[next].kind == Wait
    then EnterWait(w, st, id, g.nodes[next], WaitSignalOf(g.nodes[next]))
    else Done(st)
  }

  function CommitCompute(reg: Registry, w: World, st: Store, id: string, g: GraphSpec, node: Node, snap: Snapshot,
          mutation: Mutation, key: Key): Step
    requires id in st.instances
  {
    var rec := st.instances[id];
    var out := snap.(sequence := rec.sequence + 1);
    if node.unitId !in reg.units then Fail(st, UnitNotFound)
    else
      var bad := if mutation.SpawnIntent? then None else CheckOutput(reg, rec.typeKey, reg.units[node.unitId], out);
      if bad.Some? then Fail(st, bad.value)
      else
        var next := Resolve(reg.eval, g, node.nodeId, out);
        if next == Err(NoTransition) then FailNoTransition(st, id, node)
        else if next.Err? then Fail(st, next.error)
        else
          var spawned := if mutation.SpawnIntent? then SpawnAll(reg, st, id, mutation.specs) else Done(st);
          if spawned.error.Some? || id !in spawned.store.instances then spawned
          else
            var committed := CommitHop(spawned.store, id,
                                         ComputeCommit(st, id, g, node, out, next.value, mutation, key));
            WaitIfWaitNode(w, committed, id, g, next.value)
  }

  function ApplyMutation(reg: Registry, w: World, st: Store, id: string, g: GraphSpec, node: Node,
          mutation: Mutation, key: Key): Step
    requires id in st.instances
  {
    match mutation
    case WaitIntent(wait) => EnterWait(w, st, id, node, wait)
    case FailIntent(trigger) => HandleFail(st, id, trigger)
    case CompleteIntent(outcome) => CommitOutcome(st, id, node, outcome)
    case UpdateIntent(update) => CommitCompute(reg, w, st, id, g, node, update, mutation, key)
    case _ => CommitCompute(reg, w, st, id, g, node, st.instances[id].snapshot, mutation, key)
  }

  /** Resumes an instance whose hop is already committed. */
  function AdvanceAfterCommit(reg: Registry, w: World, st: Store, id: string, g: GraphSpec, node: Node): Step
    requires id in st.instances
  {
    var next := Resolve(reg.eval, g, node.nodeId, st.instances[id].snapshot);
    if next == Err(NoTransition) then FailNoTransition(st, id, node)
    else if next.Err? then Fail(st, next.error)
    else
      var moved := AdvanceNode(st, id, next.value, Running);
      if next.value in g.nodes && g.nodes[next.value].kind == Terminal
      then CommitTerminal(moved, id, g.nodes[next.value])
      else WaitIfWaitNode(w, moved, id, g, next.value)
  }

  function ProcessCompute(reg: Registry, w: World, st: Store, id: string, g: GraphSpec, node: Node): Step
    requires id in st.instances
  {
    var rec := st.instances[id];
    if node.unitId !in reg.units then Fail(st, UnitNotFound)
    else if rec.snapshot.typeKey != reg.units[node.unitId].inputType then Fail(st, TypeMismatch)
    else
      var key := HopKeyOf(st, id, node.nodeId);
      if key in st.executions && st.executions[key].status == ExecutionCommitted
      then AdvanceAfterCommit(reg, w, st, id, g, node)
      else
        var started := CreateExecution(st, key, Execution(node.nodeId, rec.sequence, ExecutionRunning, 0));
        if node.unitId !in reg.unitImpls then Fail(started, UnitNotFound)
        else match w.execute(id, node.unitId, rec.snapshot)
          case ExecuteFailed => HandleExecuteError(reg, started, node, key)
          case Executed(None) => Fail(started, NilMutation)
          case Executed(Some(mutation)) => ApplyMutation(reg, w, started, id, g, node, mutation, key)
  }

  // ---------- join nodes ----------

  datatype JoinCheck = JoinReady | JoinNotReady | JoinChildFailed | JoinError(error: DagError)

  predicate IsFailure(s: Status)
  {
    s == Failed || s == Compensated
  }

  function BarrierChild(w: World, st: Store, id: string, join: JoinSpec, k: nat): Result<string, DagError>
    requires k < |join.barriers|
  {
    match join.barriers[k]
    case NoTarget => Ok("")
    case ChildEntity(child) => Ok(child)
    case ChildCorrelation(corr) =>
      var child := ChildIn(st, w.order(CorrelationSite(id, k), st.instances.Keys), id, corr);
      if child.Some? then Ok(child.value) else Err(InstanceNotFound)
  }

  function CheckStaticBarriers(w: World, st: Store, id: string, join: JoinSpec, k: nat, completed: nat): JoinCheck
    requires k <= |join.barriers|
    decreases |join.barriers| - k
  {
    if k == |join.barriers| then
      if join.policy == AnySuccess then (if completed > 0 then JoinReady else JoinNotReady)
      else if completed == |join.barriers| then JoinReady else JoinNotReady
    else
      var child := BarrierChild(w, st, id, join, k);
      if child.Err? then JoinError(child.error)
      else if child.value == "" || child.value !in st.instances then JoinNotReady
      else
        var status := st.instances[child.value].status;
        if status == Completed then CheckStaticBarriers(w, st, id, join, k + 1, completed + 1)
        else if IsFailure(status) then
          if join.failParentOnChildFailure then JoinChildFailed
          else CheckStaticBarriers(w, st, id, join, k + 1, completed)
        else JoinNotReady
  }

  function SpawnedWithPrefix(st: Store, refs: seq<string>, prefix: string): nat
  {
    if refs == [] then 0
    else
      SpawnedWithPrefix(st, refs[..|refs| - 1], prefix) +
      var ref := refs[|refs| - 1];
      if ref in st.instances && HasPrefix(st.instances[ref].correlationId, prefix) then 1 else 0
  }

  function ExpectedChildren(st: Store, id: string, b: DynamicBarrier, children: nat): int
    requires id in st.instances
  {
    if b.expectedCount != 0 then b.expectedCount
    else
      var spawned := SpawnedWithPrefix(st, SpawnedFromJournal(st.instances[id].journal), b.correlationPrefix);
      if spawned == 0 then children else spawned
  }

  function BarrierPolicy(join: JoinSpec, b: DynamicBarrier): JoinPolicy
  {
    if b.policy == PolicyUnspecified then join.policy else b.policy
  }

  /** The count over the children of a dynamic barrier: completed ones and failed ones so far. */
  function CountChildren(st: Store, join: JoinSpec, b: DynamicBarrier, children: seq<string>, expected: int,
          completed: nat, failed: nat): JoinCheck
    decreases |children|
  {
    if children == [] then
      if BarrierPolicy(join, b) == AnySuccess then (if completed > 0 then JoinReady else JoinNotReady)
      else if completed >= expected && failed == 0 then JoinReady else JoinNotReady
    else if children[0] !in st.instances then JoinNotReady
    else
      var status := st.instances[children[0]].status;
      if status == Completed then CountChildren(st, join, b, children[1..], expected, completed + 1, failed)
      else if IsFailure(status) then
        if join.failParentOnChildFailure then JoinChildFailed
        else CountChildren(st, join, b, children[1..], expected, completed, failed + 1)
      else JoinNotReady
  }

  function PrefixChildren(w: World, st: Store, id: string, join: JoinSpec, k: nat): seq<string>
    requires k < |join.dynamicBarriers|
  {
    ChildrenIn(st, w.order(PrefixSite(id, k), st.instances.Keys), id, join.dynamicBarriers[k].correlationPrefix)
  }

  function CheckDynamicBarrier(w: World, st: Store, id: string, join: JoinSpec, k: nat): JoinCheck
    requires id in st.instances && k < |join.dynamicBarriers|
  {
    var b := join.dynamicBarriers[k];
    var children := PrefixChildren(w, st, id, join, k);
    var expected := ExpectedChildren(st, id, b, |children|);
    if |children| < expected then JoinNotReady
    else CountChildren(st, join, b, children, expected, 0, 0)
  }

  function CheckDynamicBarriers(w: World, st: Store, id: string, join: JoinSpec, k: nat): JoinCheck
    requires id in st.instances && k <= |join.dynamicBarriers|
    decreases |join.dynamicBarriers| - k
  {
    if k == |join.dynamicBarriers| then JoinReady
    else
      var c := CheckDynamicBarrier(w, st, id, join, k);
      if c == JoinReady then CheckDynamicBarriers(w, st, id, join, k + 1) else c
  }

  function CheckJoinBarriers(w: World, st: Store, id: string, join: JoinSpec): JoinCheck
    requires id in st.instances
  {
    var named := if join.barriers == [] then JoinReady else CheckStaticBarriers(w, st, id, join, 0, 0);
    if named == JoinReady then CheckDynamicBarriers(w, st, id, join, 0) else named
  }

  function JoinCommit(st: Store, id: string, node: Node, next: string): HopCommit
    requires id in st.instances
  {
    var rec := st.instances[id];
    HopCommit(node.nodeId, rec.sequence, HopKeyOf(st, id, node.nodeId), Some(rec.snapshot), next, Running, [], [],
              JoinCommitted, "", "", "")
  }

  function ProcessJoin(reg: Registry, w: World, st: Store, id: string, node: Node): Step
    requires id in st.instances
  {
    if node.joinSpec.None? then Fail(st, InvalidGraph)
    else match CheckJoinBarriers(w, st, id, node.joinSpec.value)
      case JoinError(e) => Fail(st, e)
      case JoinNotReady => Done(st)
      case JoinChildFailed =>
        if node.joinSpec.value.failParentOnChildFailure then Done(SetStatus(st, id, Failed)) else Done(st)
      case JoinReady =>
        var next := ResolveTransitions(reg.eval, node, st.instances[id].snapshot, None);
        if next == Err(NoTransition) then FailNoTransition(st, id, node)
        else if next.Err? then Fail(st, next.error)
        else Done(CommitHop(st, id, JoinCommit(st, id, node, next.value)))
  }

  // ---------- compensation ----------

  const MAX_FRAMES: nat := 100

  function CompensationKeyOf(id: string, f: Frame): Key
  {
    CompensationKey(id, f.forwardSequence, f.compensatorUnitId)
  }

  function CompensationCommit(st: Store, id: string, f: Frame): HopCommit
    requires id in st.instances
  {
    HopCommit(f.nodeId, f.forwardSequence, CompensationKeyOf(id, f), None, st.instances[id].currentNode, Compensating,
              [], [], CompensationCommitted, "", "", "")
  }

  function HandleCompensationError(reg: Registry, st: Store, id: string, f: Frame, key: Key): Step
    requires id in st.instances && key in st.executions
  {
    var attempt := st.executions[key].attempt;
    if attempt >= MaxAttempts(reg, f.compensatorUnitId) then Fail(SetStatus(st, id, Failed), CompensationFailed)
    else Done(SetAttempt(st, key, attempt + 1))
  }

  /** The compensator gets the payload stored with the frame, or else the current one. */
  function CompensationPayload(rec: Record, f: Frame): Option<Payload>
  {
    if f.forwardSnapshot.Some? then f.forwardSnapshot else rec.snapshot.payload
  }

  function CompensateOneFrame(reg: Registry, w: World, st: Store, id: string): (s: Step)
    requires id in st.instances
    ensures id in s.store.instances
  {
    var rec := st.instances[id];
    if rec.stack == [] then Done(st)
    else
      var f := rec.stack[|rec.stack| - 1];
      var key := CompensationKeyOf(id, f);
      if IsJournaled(rec.journal, key, CompensationCommitted) then Done(st)
      else
        var started := CreateExecution(st, key, Execution(f.nodeId, f.forwardSequence, ExecutionRunning, 0));
        var e := started.executions[key];
        if e.status == ExecutionCommitted then Done(started)
        else if f.compensatorUnitId !in reg.compensators then Fail(started, CompensatorNotFound)
        else
          var payload := CompensationPayload(rec, f);
          var ok := w.compensate(id, f, e.attempt, payload);
          var called := started.(calls := started.calls + [CompensatorCall(id, key, f, e.attempt, payload, ok)]);
          if ok then Done(CommitHop(called, id, CompensationCommit(called, id, f)))
          else HandleCompensationError(reg, called, id, f, key)
  }

  /** After the last frame the instance is COMPENSATED; if its node leads to a terminal, that
      terminal is committed as well. */
  function FinishCompensation(reg: Registry, st: Store, id: string): Step
    requires id in st.instances
  {
    var finished := SetStatus(st, id, Compensated);
    var rec := st.instances[id];
    var g := GetGraph(reg, rec.graph);
    if g.Err? then Fail(finished, g.error)
    else if rec.currentNode !in g.value.nodes || g.value.nodes[rec.currentNode].transitions == [] then Done(finished)
    else
      var next := ResolveTransitions(reg.eval, g.value.nodes[rec.currentNode], rec.snapshot, None);
      if next.Err? || next.value !in g.value.nodes || g.value.nodes[next.value].kind != Terminal then Done(finished)
      else CommitTerminal(finished, id, g.value.nodes[next.value])
  }

  /** `left` iterations of the compensation loop remain. */
  function CompensationLoop(reg: Registry, w: World, st: Store, id: string, left: nat): Step
    requires id in st.instances
    decreases left
  {
    if left == 0 then Fail(st, FramesExceeded)
    else if st.instances[id].stack == [] then FinishCompensation(reg, st, id)
    else
      var s := CompensateOneFrame(reg, w, st, id);
      if s.error.Some? then s else CompensationLoop(reg, w, s.store, id, left - 1)
  }

  // ---------- the scheduler ----------

  function ProcessInstance(reg: Registry, w: World, st: Store, id: string): Step
  {
    if id !in st.instances then Fail(st, InstanceNotFound)
    else
      var rec := st.instances[id];
      if rec.status == Cancelled || rec.status == Failed then Done(st)
      else if rec.status == Compensating then CompensationLoop(reg, w, st, id, MAX_FRAMES)
      else
        var g := GetGraph(reg, rec.graph);
        if g.Err? then Fail(st, g.error)
        else if rec.currentNode !in g.value.nodes then Fail(st, InvalidGraph)
        else
          var node := g.value.nodes[rec.currentNode];
          match node.kind
          case Terminal => CommitTerminal(st, id, node)
          case Wait => EnterWait(w, st, id, node, None)
          case Join => ProcessJoin(reg, w, st, id, node)
          case _ => ProcessCompute(reg, w, st, id, g.value, node)
  }

  function ProcessTimeouts(reg: Registry, st: Store, dues: seq<Due>): Step
    decreases |dues|
  {
    if dues == [] then Done(st)
    else
      var s := ProcessTimeout(reg, st, dues[0]);
      if s.error.Some? then s else ProcessTimeouts(reg, s.store, dues[1..])
  }

  function ProcessAll(reg: Registry, w: World, st: Store, ids: seq<string>): Step
    decreases |ids|
  {
    if ids == [] then Done(st)
    else
      var s := ProcessInstance(reg, w, st, ids[0]);
      if s.error.Some? then s else ProcessAll(reg, w, s.store, ids[1..])
  }

  function TimeoutsOf(w: World, st: Store): seq<Due>
  {
    DueIn(st, w.order(TimeoutSite, st.instances.Keys), w.now)
  }

  function RunnableOf(w: World, st: Store): seq<string>
  {
    RunnableIn(st, w.order(RunnableSite, st.instances.Keys))
  }

  /** One RunOnce: due timeouts first, then every runnable instance; the first error ends it. */
  function RunOnce(reg: Registry, w: World, st: Store): Step
  {
    var s := ProcessTimeouts(reg, st, TimeoutsOf(w, st));
    if s.error.Some? then s else ProcessAll(reg, w, s.store, RunnableOf(w, s.store))
  }

  // ---------- the other public calls ----------

  function StartInstance(reg: Registry, st: Store, req: StartRequest): Step
  {
    if !ValidTypeKey(req.typeKey) || req.typeKey !in reg.types then Fail(st, InvalidEntityType)
    else if req.payload.Some? && req.payload.value.typeUrl != reg.types[req.typeKey].payloadTypeUrl
    then Fail(st, InvalidEntityType)
    else if GetGraph(reg, req.graph).Err? then Fail(st, InvalidGraph)
    else if req.entityId == "" then Fail(st, InstanceNotFound)
    else if req.entityId in st.instances then Fail(st, InstanceAlreadyExists)
    else Done(WithRecord(st, req.entityId, NewRecord(req, reg.graphs[req.graph].entryNodeId)))
  }

  function CancelInstance(st: Store, id: string): Step
  {
    if id !in st.instances then Fail(st, InstanceNotFound) else Done(SetStatus(st, id, Cancelled))
  }

  datatype Delivery = Delivery(entityId: string, signalName: string, deliveryId: string, payload: Option<Payload>)

  predicate SignalAccepted(waiting: Option<WaitRecord>, name: string)
  {
    && waiting.Some? && name != ""
    && (waiting.value.signalName == name || name in waiting.value.acceptedSignals)
  }

  function ShouldMerge(cfg: Option<WaitConfig>): bool
  {
    cfg.None? || cfg.value.mergeSignalPayload.None? || cfg.value.mergeSignalPayload.value
  }

  /** None if merging fails. */
  function MergedPayload(reg: Registry, snap: Snapshot, name: string, payload: Payload): Option<Payload>
  {
    if snap.payload.None? then Some(payload) else reg.merge(snap.payload.value, name, payload)
  }

  /** The snapshot a signal leaves: None if unchanged, an error if merging fails. */
  function SignalSnapshot(reg: Registry, node: Node, snap: Snapshot, d: Delivery): Result<Option<Snapshot>, DagError>
  {
    if !ShouldMerge(node.waitConfig) || d.payload.None? then Ok(None)
    else
      var merged := MergedPayload(reg, snap, d.signalName, d.payload.value);
      if merged.None? then Err(MergeFailed) else Ok(Some(snap.(payload := merged)))
  }

  function SignalCommit(st: Store, d: Delivery, snap: Option<Snapshot>, next: string): HopCommit
    requires d.entityId in st.instances
  {
    var rec := st.instances[d.entityId];
    HopCommit(rec.currentNode, rec.sequence, SignalKey(d.entityId, d.signalName, d.deliveryId), snap, next, Running,
              [], [], SignalReceived, d.signalName, d.deliveryId, "")
  }

  function DeliverSignal(reg: Registry, st: Store, d: Delivery): Step
  {
    var id := d.entityId;
    var key := SignalKey(id, d.signalName, d.deliveryId);
    if id !in st.instances then Fail(st, InstanceNotFound)
    else
      var rec := st.instances[id];
      if rec.status != Waiting then Done(st)
      else if !SignalAccepted(rec.waiting, d.signalName) then Fail(st, SignalMismatch)
      else if key in st.signals then Done(st)
      else
        var recorded := st.(signals := st.signals + {key});
        var g := GetGraph(reg, rec.graph);
        if g.Err? then Fail(recorded, g.error)
        else if rec.currentNode !in g.value.nodes then Fail(recorded, InvalidGraph)
        else
          var node := g.value.nodes[rec.currentNode];
          var snap := SignalSnapshot(reg, node, rec.snapshot, d);
          if snap.Err? then Fail(recorded, snap.error)
          else
            var seen := if snap.value.Some? then snap.value.value else rec.snapshot;
            var next := ResolveTransitions(reg.eval, node, seen, Some(d.signalName));
            if next.Err? then Fail(recorded, next.error)
            else Done(CommitHop(recorded, id, SignalCommit(recorded, d, snap.value, next.value)))
  }
}
