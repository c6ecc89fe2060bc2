/**
 The engine and its scheduler (pkg/dag/memory/engine.go, pkg/dag/memory/drain.go) in the source's
 form: methods that change the line store step by step.

 Every method is proved to do exactly what its function in `Scheduling` says, error included; what
 those functions guarantee over whole runs is proved in the modules that follow.  The entity locks
 are not modelled: one public call runs at a time.
 */
module Engines {
  import opened Wrappers
  import opened Entities
  import opened Graphs
  import opened Routing
  import opened Idempotency
  import opened Lines
  import opened LineStores
  import opened Registries
  import opened Scheduling
  import opened Draining
  import S = Scheduling
  import D = Draining
  import R = Routing

  class Engine {
    const reg: Registry
    const store: LineStore

    constructor (reg: Registry)
      ensures this.reg == reg && fresh(store) && store.State() == EMPTY_STORE
    {
      this.reg := reg;
      store := new LineStore();
    }

    /** Returns a copy of the new instance. */
    method StartInstance(req: StartRequest) returns (inst: Option<Record>, err: Option<DagError>)
      modifies store
      ensures Step(store.State(), err) == S.StartInstance(reg, old(store.State()), req)
      ensures err.None? ==> req.entityId in store.instances && inst == Some(store.instances[req.entityId])
      ensures err.Some? ==> inst == None
    {
      if !ValidTypeKey(req.typeKey) || req.typeKey !in reg.types {
        return None, Some(InvalidEntityType);
      }
      if req.payload.Some? && req.payload.value.typeUrl != reg.types[req.typeKey].payloadTypeUrl {
        return None, Some(InvalidEntityType);
      }
      var g := GetGraph(reg, req.graph);
      if g.Err? {
        return None, Some(g.error);
      }
      inst, err := store.CreateInstance(req, g.value.entryNodeId);
    }

    method CancelInstance(id: string) returns (err: Option<DagError>)
      modifies store
      ensures Step(store.State(), err) == S.CancelInstance(old(store.State()), id)
    {
      err := store.UpdateInstanceStatus(id, Cancelled);
    }

    method DeliverSignal(d: Delivery) returns (err: Option<DagError>)
      modifies store
      ensures Step(store.State(), err) == S.DeliverSignal(reg, old(store.State()), d)
    {
      if d.entityId !in store.instances {
        return Some(InstanceNotFound);
      }
      var rec := store.instances[d.entityId];
      if rec.status != Waiting {
        return None;
      }
      if !SignalAccepted(rec.waiting, d.signalName) {
        return Some(SignalMismatch);
      }
      var newDelivery := store.RecordSignalDelivery(d.entityId, d.signalName, d.deliveryId);
      if !newDelivery {
        return None;
      }
      var g := GetGraph(reg, rec.graph);
      if g.Err? {
        return Some(g.error);
      }
      if rec.currentNode !in g.value.nodes {
        return Some(InvalidGraph);
      }
      var node := g.value.nodes[rec.currentNode];
      var outSnap: Option<Snapshot> := None;
      if ShouldMerge(node.waitConfig) && d.payload.Some? {
        var merged := MergedPayload(reg, rec.snapshot, d.signalName, d.payload.value);
        if merged.None? {
          return Some(MergeFailed);
        }
        outSnap := Some(rec.snapshot.(payload := merged));
      }
      var seen := if outSnap.Some? then outSnap.value else rec.snapshot;
      var next := RunTransitions(reg.eval, node, seen, Some(d.signalName));
      if next.Err? {
        return Some(next.error);
      }
      err := store.CommitHop(d.entityId,
        HopCommit(rec.currentNode, rec.sequence, SignalKey(d.entityId, d.signalName, d.deliveryId), outSnap, next.value,
                  Running, [], [], SignalReceived, d.signalName, d.deliveryId, ""));
    }

    method RunOnce(w: World) returns (err: Option<DagError>)
      modifies store
      ensures Step(store.State(), err) == S.RunOnce(reg, w, old(store.State()))
    {
      var dues := store.ListWaitingTimeouts(w.order(TimeoutSite, store.instances.Keys), w.now);
      err := ProcessTimeouts(dues);
      if err.Some? {
        return;
      }
      var refs := store.ListRunnableInstances(w.order(RunnableSite, store.instances.Keys));
      err := ProcessAll(w, refs);
    }

    /** A world per hop.  Returns the instance as it was read before the last tick. */
    method DrainInstance(worlds: nat -> World, id: string, o: DrainOptions) returns (inst: Option<Record>,
            err: Option<DagError>)
      modifies store
      ensures var d := D.DrainInstance(reg, worlds, old(store.State()), id, o);
              store.State() == d.store && inst == d.instance && err == OutcomeError(d.outcome)
    {
      hide S.RunOnce, D.DeriveDrainMaxHops;
      if id == "" {
        return None, Some(InstanceNotFound);
      }
      var maxHops := o.maxHops;
      if maxHops <= 0 {
        maxHops := DeriveDrainMaxHops(id, o);
      }
      var hops := 0;
      while true
        invariant DrainFrom(reg, worlds, store.State(), id, maxHops, hops)
                  == DrainFrom(reg, worlds, old(store.State()), id, maxHops, 0)
        decreases maxHops - hops
      {
        if id !in store.instances {
          return None, Some(InstanceNotFound);
        }
        var rec := store.instances[id];
        if DrainDone(rec.status) {
          return Some(rec), None;
        }
        if hops >= maxHops {
          return Some(rec), Some(DrainExceeded);
        }
        err := RunOnce(worlds(hops));
        if err.Some? {
          return Some(rec), err;
        }
        hops := hops + 1;
      }
    }

    method DeriveDrainMaxHops(id: string, o: DrainOptions) returns (n: int)
      ensures n == D.DeriveDrainMaxHops(reg, store.State(), id, o)
    {
      var absoluteMax := o.absoluteMax;
      if absoluteMax <= 0 {
        absoluteMax := DEFAULT_DRAIN_ABSOLUTE_MAX;
      }
      var factor := o.factor;
      if factor <= 0 {
        factor := DEFAULT_DRAIN_FACTOR;
      }
      var minHops := o.minHops;
      if minHops <= 0 {
        minHops := DEFAULT_DRAIN_MIN_HOPS;
      }
      var fallback := DRAIN_FALLBACK_MAX_HOPS;
      if fallback > absoluteMax {
        fallback := absoluteMax;
      }
      if id !in store.instances {
        return fallback;
      }
      var g := GetGraph(reg, store.instances[id].graph);
      if g.Err? {
        return fallback;
      }
      var nodeCount := |g.value.nodes|;
      if nodeCount <= 0 {
        return fallback;
      }
      n := nodeCount * factor;
      if n < minHops {
        n := minHops;
      }
      if n > absoluteMax {
        n := absoluteMax;
      }
    }

    method ProcessTimeouts(dues: seq<Due>) returns (err: Option<DagError>)
      modifies store
      ensures Step(store.State(), err) == S.ProcessTimeouts(reg, old(store.State()), dues)
    {
      for i := 0 to |dues|
        invariant S.ProcessTimeouts(reg, store.State(), dues[i..]) == S.ProcessTimeouts(reg, old(store.State()), dues)
      {
        assert dues[i..][0] == dues[i] && dues[i..][1..] == dues[i + 1..];
        err := ProcessTimeout(dues[i]);
        if err.Some? {
          return;
        }
      }
      return None;
    }

    method ProcessAll(w: World, refs: seq<string>) returns (err: Option<DagError>)
      modifies store
      ensures Step(store.State(), err) == S.ProcessAll(reg, w, old(store.State()), refs)
    {
      for i := 0 to |refs|
        invariant S.ProcessAll(reg, w, store.State(), refs[i..]) == S.ProcessAll(reg, w, old(store.State()), refs)
      {
        assert refs[i..][0] == refs[i] && refs[i..][1..] == refs[i + 1..];
        err := ProcessInstance(w, refs[i]);
        if err.Some? {
          return;
        }
      }
      return None;
    }

    method ProcessTimeout(due: Due) returns (err: Option<DagError>)
      modifies store
      ensures Step(store.State(), err) == S.ProcessTimeout(reg, old(store.State()), due)
    {
      if due.waiting.onTimeoutTarget == "" {
        return None;
      }
      var id := due.entityId;
      if id !in store.instances {
        return Some(InstanceNotFound);
      }
      var rec := store.instances[id];
      var g := GetGraph(reg, rec.graph);
      if g.Err? {
        return Some(g.error);
      }
      if due.waiting.onTimeoutTarget !in g.value.nodes {
        return None;
      }
      var status := TerminalStatus(g.value.nodes[due.waiting.onTimeoutTarget]);
      err := store.CommitHop(id,
        HopCommit(rec.currentNode, rec.sequence, HopKey(id, rec.currentNode, rec.sequence), None,
                  due.waiting.onTimeoutTarget, status, [], [], SignalReceived, "", "", ""));
    }

    method ProcessInstance(w: World, id: string) returns (err: Option<DagError>)
      modifies store
      ensures Step(store.State(), err) == S.ProcessInstance(reg, w, old(store.State()), id)
    {
      if id !in store.instances {
        return Some(InstanceNotFound);
      }
      var rec := store.instances[id];
      if rec.status == Cancelled {
        return None;
      }
      if rec.status == Compensating {
        err := ProcessCompensation(w, id);
        return;
      }
      if rec.status == Failed {
        return None;
      }
      var g := GetGraph(reg, rec.graph);
      if g.Err? {
        return Some(g.error);
      }
      if rec.currentNode !in g.value.nodes {
        return Some(InvalidGraph);
      }
      var node := g.value.nodes[rec.currentNode];
      match node.kind {
        case Terminal => err := CommitTerminal(id, node);
        case Wait => err := EnterWait(w, id, node, None);
        case Join => err := ProcessJoin(w, id, node);
        case _ => err := ProcessCompute(w, id, g.value, node);
      }
    }

    method CommitTerminal(id: string, node: Node) returns (err: Option<DagError>)
      requires id in store.instances
      modifies store
      ensures Step(store.State(), err) == S.CommitTerminal(old(store.State()), id, node)
    {
      var seqNo := store.instances[id].sequence;
      err := store.CommitHop(id,
        HopCommit(node.nodeId, seqNo, HopKey(id, node.nodeId, seqNo), None, node.nodeId, TerminalStatus(node),
                  [], [], NodeCommitted, "", "", ""));
    }

    method CommitOutcome(id: string, node: Node, outcome: TerminalOutcome) returns (err: Option<DagError>)
      requires id in store.instances
      modifies store
      ensures Step(store.State(), err) == S.CommitOutcome(old(store.State()), id, node, outcome)
    {
      var status := Completed;
      if outcome == Failure {
        status := Failed;
      }
      var seqNo := store.instances[id].sequence;
      err := store.CommitHop(id,
        HopCommit(node.nodeId, seqNo, HopKey(id, node.nodeId, seqNo), None, node.nodeId, status,
                  [], [], NodeCommitted, "", "", ""));
    }

    method FailNoTransition(id: string, node: Node) returns (err: Option<DagError>)
      requires id in store.instances
      modifies store
      ensures Step(store.State(), err) == S.FailNoTransition(old(store.State()), id, node)
    {
      var rec := store.instances[id];
      err := store.CommitHop(id,
        HopCommit(node.nodeId, rec.sequence, HopKey(id, node.nodeId, rec.sequence), Some(rec.snapshot),
                  node.nodeId, Failed,
                  [], [], NodeCommitted, "", "", NO_TRANSITION));
    }

    method EnterWait(w: World, id: string, node: Node, wait: Option<WaitSignal>) returns (err: Option<DagError>)
      requires id in store.instances
      modifies store
      ensures Step(store.State(), err) == S.EnterWait(w, old(store.State()), id, node, wait)
    {
      var signalName, onTimeout, accepted := "", "", [];
      var deadline: Option<int> := None;
      if wait.Some? {
        signalName := wait.value.signalName;
        accepted := wait.value.acceptedSignals;
        onTimeout := wait.value.onTimeoutTarget;
        deadline := wait.value.deadline;
      }
      if node.waitConfig.Some? {
        var cfg := node.waitConfig.value;
        if signalName == "" {
          signalName := cfg.signalName;
        }
        accepted := cfg.acceptedSignals;
        onTimeout := cfg.onTimeoutTarget;
        if cfg.defaultDeadlineSeconds > 0 && deadline.None? {
          deadline := Some(w.now + cfg.defaultDeadlineSeconds);
        }
      }
      err := store.SetWaiting(id, node.nodeId, WaitRecord(deadline, onTimeout, signalName, accepted));
    }

    method ProcessCompute(w: World, id: string, g: GraphSpec, node: Node) returns (err: Option<DagError>)
      requires id in store.instances
      modifies store
      ensures Step(store.State(), err) == S.ProcessCompute(reg, w, old(store.State()), id, g, node)
    {
      var rec := store.instances[id];
      if node.unitId !in reg.units {
        return Some(UnitNotFound);
      }
      if rec.snapshot.typeKey != reg.units[node.unitId].inputType {
        return Some(TypeMismatch);
      }
      var key := HopKey(id, node.nodeId, rec.sequence);
      if key in store.executions && store.executions[key].status == ExecutionCommitted {
        err := AdvanceAfterCommit(w, id, g, node);
        return;
      }
      // CreateExecution returns an uncommitted record: the case of a committed one was handled above.
      var record := store.CreateExecution(key, Execution(node.nodeId, rec.sequence, ExecutionRunning, 0));
      if node.unitId !in reg.unitImpls {
        return Some(UnitNotFound);
      }
      match w.execute(id, node.unitId, rec.snapshot) {
        case ExecuteFailed => err := HandleExecuteError(node, key);
        case Executed(mutation) =>
          if mutation.None? {
            return Some(NilMutation);
          }
          err := ApplyMutation(w, id, g, node, mutation.value, key);
      }
    }

    method HandleExecuteError(node: Node, key: Key) returns (err: Option<DagError>)
      requires key in store.executions
      modifies store
      ensures Step(store.State(), err) == S.HandleExecuteError(reg, old(store.State()), node, key)
    {
      var attempt := store.executions[key].attempt;
      if attempt >= MaxAttempts(reg, node.unitId) {
        return Some(ExecutionFailed);
      }
      store.UpdateExecutionAttempt(key, attempt + 1);
      return None;
    }

    method ApplyMutation(w: World, id: string, g: GraphSpec, node: Node, mutation: Mutation, key: Key)
      returns (err: Option<DagError>)
      requires id in store.instances
      modifies store
      ensures Step(store.State(), err) == S.ApplyMutation(reg, w, old(store.State()), id, g, node, mutation, key)
    {
      match mutation {
        case WaitIntent(wait) => err := EnterWait(w, id, node, wait);
        case FailIntent(trigger) =>
          err := store.UpdateInstanceStatus(id, if trigger then Compensating else Failed);
        case CompleteIntent(outcome) => err := CommitOutcome(id, node, outcome);
        case UpdateIntent(update) => err := CommitCompute(w, id, g, node, update, mutation, key);
        case _ => err := CommitCompute(w, id, g, node, store.instances[id].snapshot, mutation, key);
      }
    }

    method SpawnAll(parent: string, specs: seq<SpawnSpec>) returns (err: Option<DagError>)
      requires parent in store.instances
      modifies store
      ensures parent in store.instances
      ensures Step(store.State(), err) == S.SpawnAll(reg, old(store.State()), parent, specs)
    {
      for i := 0 to |specs|
        invariant parent in store.instances
        invariant S.SpawnAll(reg, store.State(), parent, specs[i..])
                  == S.SpawnAll(reg, old(store.State()), parent, specs)
      {
        var spec := specs[i];
        assert specs[i..][0] == spec && specs[i..][1..] == specs[i + 1..];
        err := CheckSpawn(spec);
        if err.Some? {
          return;
        }
        var childGraph := GetGraph(reg, spec.graph);
        if childGraph.Err? {
          return Some(childGraph.error);
        }
        var child: Option<Record>;
        child, err := store.CreateInstance(ChildRequest(parent, spec), childGraph.value.entryNodeId);
        if err.Some? {
          return;
        }
      }
      return None;
    }

    method CommitCompute(w: World, id: string, g: GraphSpec, node: Node, snap: Snapshot, mutation: Mutation, key: Key)
      returns (err: Option<DagError>)
      requires id in store.instances
      modifies store
      ensures Step(store.State(), err) == S.CommitCompute(reg, w, old(store.State()), id, g, node, snap, mutation, key)
    {
      hide S.SpawnAll, Lines.CommitHop, WaitIfWaitNode, R.Resolve;
      var rec := store.instances[id];
      var outSnap := snap.(sequence := rec.sequence + 1);
      if node.unitId !in reg.units {
        return Some(UnitNotFound);
      }
      if !mutation.SpawnIntent? {
        err := CheckOutput(reg, rec.typeKey, reg.units[node.unitId], outSnap);
        if err.Some? {
          return;
        }
      }
      var next := ResolveNext(g, node.nodeId, outSnap);
      if next.Err? {
        if next.error == NoTransition {
          err := FailNoTransition(id, node);
          return;
        }
        return Some(next.error);
      }
      var nextStatus := Running;
      if next.value in g.nodes && g.nodes[next.value].kind == Terminal {
        nextStatus := TerminalStatus(g.nodes[next.value]);
      }
      var frames := [];
      if node.compensatorUnitId != "" && node.kind == Compute {
        frames := [Frame(node.nodeId, node.unitId, node.compensatorUnitId, rec.sequence + 1, outSnap.payload)];
      }
      var spawned, kind := [], NodeCommitted;
      if mutation.SpawnIntent? {
        err := SpawnAll(id, mutation.specs);
        if err.Some? {
          return;
        }
        spawned := EntityIds(mutation.specs);
        kind := SpawnedChildren;
      }
      var c := HopCommit(node.nodeId, rec.sequence, key, Some(outSnap), next.value, nextStatus,
                         frames, spawned, kind, "", "", "");
      assert c == ComputeCommit(old(store.State()), id, g, node, outSnap, next.value, mutation, key);
      err := store.CommitHop(id, c);
      err := EnterWaitNode(w, id, g, next.value);
    }

    method EnterWaitNode(w: World, id: string, g: GraphSpec, next: string) returns (err: Option<DagError>)
      requires id in store.instances
      modifies store
      ensures Step(store.State(), err) == WaitIfWaitNode(w, old(store.State()), id, g, next)
    {
      if store.instances[id].status == Running && next in g.nodes && g.nodes[next].kind == Wait {
        err := EnterWait(w, id, g.nodes[next], WaitSignalOf(g.nodes[next]));
        return;
      }
      return None;
    }

    method ResolveNext(g: GraphSpec, nodeId: string, snap: Snapshot) returns (r: Result<string, DagError>)
      ensures r == R.Resolve(reg.eval, g, nodeId, snap)
    {
      if nodeId !in g.nodes {
        return Err(InvalidGraph);
      }
      match g.nodes[nodeId].kind {
        case Terminal => return Ok("");
        case Wait => return Ok(nodeId);
        case Join => return Ok(nodeId);
        case _ => r := RunTransitions(reg.eval, g.nodes[nodeId], snap, None);
      }
    }

    method AdvanceAfterCommit(w: World, id: string, g: GraphSpec, node: Node) returns (err: Option<DagError>)
      requires id in store.instances
      modifies store
      ensures Step(store.State(), err) == S.AdvanceAfterCommit(reg, w, old(store.State()), id, g, node)
    {
      var next := ResolveNext(g, node.nodeId, store.instances[id].snapshot);
      if next.Err? {
        if next.error == NoTransition {
          err := FailNoTransition(id, node);
          return;
        }
        return Some(next.error);
      }
      err := store.AdvanceInstanceNode(id, next.value, Running);
      if err.Some? {
        return;
      }
      if next.value in g.nodes && g.nodes[next.value].kind == Terminal {
        err := CommitTerminal(id, g.nodes[next.value]);
        return;
      }
      err := EnterWaitNode(w, id, g, next.value);
    }

    // ---------- joins ----------

    method ResolveBarrier(w: World, id: string, join: JoinSpec, k: nat) returns (r: Result<string, DagError>)
      requires k < |join.barriers|
      ensures r == BarrierChild(w, store.State(), id, join, k)
    {
      match join.barriers[k] {
        case NoTarget => return Ok("");
        case ChildEntity(child) => return Ok(child);
        case ChildCorrelation(corr) =>
          var child := store.FindChildByCorrelation(w.order(CorrelationSite(id, k), store.instances.Keys), id, corr);
          if child.None? {
            return Err(InstanceNotFound);
          }
          return Ok(child.value);
      }
    }

    method CheckStaticBarriers(w: World, id: string, join: JoinSpec) returns (r: JoinCheck)
      ensures r == S.CheckStaticBarriers(w, store.State(), id, join, 0, 0)
    {
      var completed := 0;
      for k := 0 to |join.barriers|
        invariant S.CheckStaticBarriers(w, store.State(), id, join, k, completed)
                  == S.CheckStaticBarriers(w, store.State(), id, join, 0, 0)
      {
        var child := ResolveBarrier(w, id, join, k);
        if child.Err? {
          return JoinError(child.error);
        }
        if child.value == "" || child.value !in store.instances {
          return JoinNotReady;
        }
        var status := store.instances[child.value].status;
        if status == Completed {
          completed := completed + 1;
        } else if IsFailure(status) {
          if join.failParentOnChildFailure {
            return JoinChildFailed;
          }
        } else {
          return JoinNotReady;
        }
      }
      if join.policy == AnySuccess {
        return if completed > 0 then JoinReady else JoinNotReady;
      }
      return if completed == |join.barriers| then JoinReady else JoinNotReady;
    }

    method CountSpawned(refs: seq<string>, prefix: string) returns (n: nat)
      ensures n == SpawnedWithPrefix(store.State(), refs, prefix)
    {
      n := 0;
      for i := 0 to |refs|
        invariant n == SpawnedWithPrefix(store.State(), refs[..i], prefix)
      {
        assert refs[..i + 1][..i] == refs[..i];
        if refs[i] !in store.instances {
          continue;
        }
        if prefix == "" || HasPrefix(store.instances[refs[i]].correlationId, prefix) {
          n := n + 1;
        }
      }
      assert refs[..|refs|] == refs;
    }

    method CheckDynamicBarrier(w: World, id: string, join: JoinSpec, k: nat) returns (r: JoinCheck)
      requires id in store.instances && k < |join.dynamicBarriers|
      ensures r == S.CheckDynamicBarrier(w, store.State(), id, join, k)
    {
      var b := join.dynamicBarriers[k];
      var policy := b.policy;
      if policy == PolicyUnspecified {
        policy := join.policy;
      }
      var children := store.ListChildrenByCorrelationPrefix(
        w.order(PrefixSite(id, k), store.instances.Keys), id, b.correlationPrefix);
      var expected := b.expectedCount;
      if expected == 0 {
        var spawned, err := store.ListSpawnedFromJournal(id);
        if err.Some? {
          return JoinError(InstanceNotFound);
        }
        expected := CountSpawned(spawned, b.correlationPrefix);
        if expected == 0 {
          expected := |children|;
        }
      }
      if |children| < expected {
        return JoinNotReady;
      }
      var completed, failed := 0, 0;
      for i := 0 to |children|
        invariant CountChildren(store.State(), join, b, children[i..], expected, completed, failed)
                  == CountChildren(store.State(), join, b, children, expected, 0, 0)
      {
        assert children[i..][0] == children[i] && children[i..][1..] == children[i + 1..];
        if children[i] !in store.instances {
          return JoinNotReady;
        }
        var status := store.instances[children[i]].status;
        if status == Completed {
          completed := completed + 1;
        } else if IsFailure(status) {
          failed := failed + 1;
          if join.failParentOnChildFailure {
            return JoinChildFailed;
          }
        } else {
          return JoinNotReady;
        }
      }
      if policy == AnySuccess {
        return if completed > 0 then JoinReady else JoinNotReady;
      }
      return if completed >= expected && failed == 0 then JoinReady else JoinNotReady;
    }

    method CheckJoinBarriers(w: World, id: string, join: JoinSpec) returns (r: JoinCheck)
      requires id in store.instances
      ensures r == S.CheckJoinBarriers(w, store.State(), id, join)
    {
      if |join.barriers| > 0 {
        r := CheckStaticBarriers(w, id, join);
        if r != JoinReady {
          return;
        }
      }
      for k := 0 to |join.dynamicBarriers|
        invariant CheckDynamicBarriers(w, store.State(), id, join, k)
                  == CheckDynamicBarriers(w, store.State(), id, join, 0)
      {
        r := CheckDynamicBarrier(w, id, join, k);
        if r != JoinReady {
          return;
        }
      }
      return JoinReady;
    }

    method ProcessJoin(w: World, id: string, node: Node) returns (err: Option<DagError>)
      requires id in store.instances
      modifies store
      ensures Step(store.State(), err) == S.ProcessJoin(reg, w, old(store.State()), id, node)
    {
      if node.joinSpec.None? {
        return Some(InvalidGraph);
      }
      var check := CheckJoinBarriers(w, id, node.joinSpec.value);
      if check.JoinError? {
        return Some(check.error);
      }
      if check == JoinChildFailed && node.joinSpec.value.failParentOnChildFailure {
        err := store.UpdateInstanceStatus(id, Failed);
        return;
      }
      if check != JoinReady {
        return None;
      }
      var rec := store.instances[id];
      var next := RunTransitions(reg.eval, node, rec.snapshot, None);
      if next.Err? {
        if next.error == NoTransition {
          err := FailNoTransition(id, node);
          return;
        }
        return Some(next.error);
      }
      err := store.CommitHop(id,
        HopCommit(node.nodeId, rec.sequence, HopKey(id, node.nodeId, rec.sequence), Some(rec.snapshot),
                  next.value, Running,
                  [], [], JoinCommitted, "", "", ""));
    }

    // ---------- compensation ----------

    method ProcessCompensation(w: World, id: string) returns (err: Option<DagError>)
      requires id in store.instances
      modifies store
      ensures Step(store.State(), err) == CompensationLoop(reg, w, old(store.State()), id, MAX_FRAMES)
    {
      for i := 0 to MAX_FRAMES
        invariant id in store.instances
        invariant CompensationLoop(reg, w, store.State(), id, MAX_FRAMES - i)
                  == CompensationLoop(reg, w, old(store.State()), id, MAX_FRAMES)
      {
        if |store.instances[id].stack| == 0 {
          err := FinishCompensation(id);
          return;
        }
        err := CompensateOneFrame(w, id);
        if err.Some? {
          return;
        }
      }
      return Some(FramesExceeded);
    }

    method CompensateOneFrame(w: World, id: string) returns (err: Option<DagError>)
      requires id in store.instances
      modifies store
      ensures Step(store.State(), err) == S.CompensateOneFrame(reg, w, old(store.State()), id)
      ensures id in store.instances
    {
      var rec := store.instances[id];
      if |rec.stack| == 0 {
        return None;
      }
      var frame := rec.stack[|rec.stack| - 1];
      var key := CompensationKey(id, frame.forwardSequence, frame.compensatorUnitId);
      for i := 0 to |rec.journal|
        invariant forall k :: 0 <= k < i ==>
            !(rec.journal[k].key == key && rec.journal[k].kind == CompensationCommitted)
      {
        if rec.journal[i].key == key && rec.journal[i].kind == CompensationCommitted {
          return None;
        }
      }
      var record := store.CreateExecution(key, Execution(frame.nodeId, frame.forwardSequence, ExecutionRunning, 0));
      if record.status == ExecutionCommitted {
        return None;
      }
      if frame.compensatorUnitId !in reg.compensators {
        return Some(CompensatorNotFound);
      }
      var payload := if frame.forwardSnapshot.Some? then frame.forwardSnapshot else rec.snapshot.payload;
      var ok := w.compensate(id, frame, record.attempt, payload);
      store.LogCall(CompensatorCall(id, key, frame, record.attempt, payload, ok));
      if !ok {
        err := HandleCompensationError(id, frame, key);
        return;
      }
      err := store.CommitHop(id,
        HopCommit(frame.nodeId, frame.forwardSequence, key, None, rec.currentNode, Compensating,
                  [], [], CompensationCommitted, "", "", ""));
    }

    method HandleCompensationError(id: string, frame: Frame, key: Key) returns (err: Option<DagError>)
      requires id in store.instances && key in store.executions
      modifies store
      ensures Step(store.State(), err) == S.HandleCompensationError(reg, old(store.State()), id, frame, key)
    {
      var attempt := store.executions[key].attempt;
      if attempt >= MaxAttempts(reg, frame.compensatorUnitId) {
        err := store.UpdateInstanceStatus(id, Failed);
        return Some(CompensationFailed);
      }
      store.UpdateExecutionAttempt(key, attempt + 1);
      return None;
    }

    method FinishCompensation(id: string) returns (err: Option<DagError>)
      requires id in store.instances
      modifies store
      ensures Step(store.State(), err) == S.FinishCompensation(reg, old(store.State()), id)
    {
      var rec := store.instances[id];
      err := store.UpdateInstanceStatus(id, Compensated);
      var g := GetGraph(reg, rec.graph);
      if g.Err? {
        return Some(g.error);
      }
      if rec.currentNode !in g.value.nodes || |g.value.nodes[rec.currentNode].transitions| == 0 {
        return None;
      }
      var next := RunTransitions(reg.eval, g.value.nodes[rec.currentNode], rec.snapshot, None);
      if next.Err? {
        return None;
      }
      if next.value !in g.value.nodes {
        return None;
      }
      var nextNode := g.value.nodes[next.value];
      if nextNode.kind != Terminal {
        return None;
      }
      err := CommitTerminal(id, nextNode);
    }
  }
}
