/** What happens when a unit or a compensator keeps failing. */
module Retries {
  import opened Wrappers
  import opened Entities
  import opened Graphs
  import opened Idempotency
  import opened Lines
  import opened Registries
  import opened Scheduling
  import opened History
  import opened Steps
  import opened InstanceSteps
  import opened Runs
  import opened Ticks
  import opened Compensation
  import opened DrainBudget
  import opened Guarantees

  // ---------- a failing unit ----------

  /** The instance stands at a compute node whose unit is registered and takes its snapshot. */
  ghost predicate ReadyToCompute(reg: Registry, st: Store, id: string, g: GraphSpec, node: Node)
  {
    && At(reg, st, id, g, node) && st.instances[id].status == Running && Computing(node)
    && node.unitId in reg.units && node.unitId in reg.unitImpls
    && st.instances[id].snapshot.typeKey == reg.units[node.unitId].inputType
  }

  lemma FailingTurn(reg: Registry, w: World, st: Store, id: string, g: GraphSpec, node: Node)
    requires ReadyToCompute(reg, st, id, g, node)
    requires w.execute(id, node.unitId, st.instances[id].snapshot) == ExecuteFailed
    ensures var s := ProcessInstance(reg, w, st, id);
            var spent := OwnAttempt(st, id) >= MaxAttempts(reg, node.unitId);
            && s.store.instances == st.instances
            && s.error == (if spent then Some(ExecutionFailed) else None)
            && OwnAttempt(s.store, id) == OwnAttempt(st, id) + if spent then 0 else 1
  {
    hide Sound, ValidRegistry, ApplyMutation, AdvanceAfterCommit;
    NeverResumed(reg, st, id, g, node);
  }

  function Least(a: int, b: int): int
  {
    if a < b then a else b
  }

  /** In every tick among the calls the unit fails on this snapshot. */
  ghost predicate UnitFails(calls: seq<Call>, id: string, unitId: string, snap: Snapshot)
  {
    forall i :: 0 <= i < |calls| && calls[i].Tick? ==> calls[i].w.execute(id, unitId, snap) == ExecuteFailed
  }

  lemma ComputingAttempt(reg: Registry, st: Store, id: string, g: GraphSpec, node: Node)
    requires At(reg, st, id, g, node)
    ensures OwnAttempt(st, id) <= MaxAttempts(reg, node.unitId)
  {
    hide Sound, ValidRegistry;
    AttemptWithin(reg, st, id, g);
  }

  lemma StillReady(reg: Registry, st: Store, st': Store, id: string, g: GraphSpec, node: Node)
    requires ReadyToCompute(reg, st, id, g, node) && Inv(reg, st') && id in st'.instances
    requires st'.instances[id] == st.instances[id]
    ensures ReadyToCompute(reg, st', id, g, node) && Runnable(st', id)
  {
    hide Inv, ValidRegistry, RecordInv;
    InvIsSound(reg, st', id);
  }

  lemma SameAttempt(st: Store, st': Store, id: string)
    requires SameOwn(st, st', id)
    ensures OwnAttempt(st', id) == OwnAttempt(st, id)
  {
    assert Owned(id, HopKeyOf(st, id, st.instances[id].currentNode));
  }

  /** A tick while the unit fails: the turn costs one attempt, or, once they are spent, ends the tick
      with the unit's error; without a turn nothing happens to the instance. */
  lemma FailingTick(reg: Registry, w: World, st: Store, id: string, g: GraphSpec, node: Node) returns (at: Store)
    requires ReadyToCompute(reg, st, id, g, node) && Inv(reg, st) && ValidWorld(w)
    requires w.execute(id, node.unitId, st.instances[id].snapshot) == ExecuteFailed
    ensures var s := RunOnce(reg, w, st);
            var spent := OwnAttempt(st, id) >= MaxAttempts(reg, node.unitId);
            && id in s.store.instances && s.store.instances[id] == st.instances[id]
            && OwnAttempt(s.store, id) == OwnAttempt(st, id) + (if HasTurn(reg, w, st, id) && !spent then 1 else 0)
            && if HasTurn(reg, w, st, id) then
                 && SameOwn(st, at, id) && (spent ==> s.error == Some(ExecutionFailed))
                 && ProcessInstance(reg, w, at, id).error == if spent then Some(ExecutionFailed) else None
               else Starved(st, s, id)
  {
    hide Inv, Sound, ValidRegistry, ValidWorld, RunOnce, ProcessInstance, MaxAttempts, OwnAttempt, HasTurn,
         SameExecutions;
    assert ValidRegistry(reg);
    at := TickReaches(reg, w, st, id);
    var s := RunOnce(reg, w, st);
    if HasTurn(reg, w, st, id) {
      StillReady(reg, st, at, id, g, node);
      FailingTurn(reg, w, at, id, g, node);
      SameAttempt(st, at, id);
      SameAttempt(ProcessInstance(reg, w, at, id).store, s.store, id);
    } else {
      SameAttempt(st, s.store, id);
    }
  }

  lemma {:induction false} FailingRun(reg: Registry, st: Store, more: seq<Call>, id: string, g: GraphSpec, node: Node)
    requires Inv(reg, st) && ValidCalls(more) && ReadyToCompute(reg, st, id, g, node) && Cancel(id) !in more
    requires UnitFails(more, id, node.unitId, st.instances[id].snapshot)
    ensures var st' := RunFrom(reg, st, more);
            && Inv(reg, st') && id in st'.instances && st'.instances[id] == st.instances[id]
            && OwnAttempt(st', id)
               == Least(OwnAttempt(st, id) + Turns(reg, st, more, id), MaxAttempts(reg, node.unitId))
    decreases |more|
  {
    hide Inv, Sound, ValidRegistry, ValidWorld, RunOnce, Apply, MaxAttempts, OwnAttempt, HasTurn, SameExecutions;
    assert ValidRegistry(reg);
    if more == [] {
      ComputingAttempt(reg, st, id, g, node);
    } else {
      var n := |more| - 1;
      assert forall i :: 0 <= i < n ==> more[..n][i] == more[i];
      FailingRun(reg, st, more[..n], id, g, node);
      var st' := RunFrom(reg, st, more[..n]);
      StillReady(reg, st, st', id, g, node);
      ApplyStep(reg, st', more[n]);
      FailingCall(reg, st', more[n], id, g, node);
    }
  }

  /** One more call of any kind but a cancellation. */
  lemma FailingCall(reg: Registry, st: Store, call: Call, id: string, g: GraphSpec, node: Node)
    requires Inv(reg, st) && ReadyToCompute(reg, st, id, g, node) && call != Cancel(id)
    requires call.Tick? ==>
              ValidWorld(call.w) && call.w.execute(id, node.unitId, st.instances[id].snapshot) == ExecuteFailed
    ensures var st' := Apply(reg, st, call).store;
            var spent := OwnAttempt(st, id) >= MaxAttempts(reg, node.unitId);
            && id in st'.instances && st'.instances[id] == st.instances[id]
            && OwnAttempt(st', id)
               == OwnAttempt(st, id) + if call.Tick? && HasTurn(reg, call.w, st, id) && !spent then 1 else 0
  {
    hide Inv, Sound, ValidRegistry, ValidWorld, RunOnce, MaxAttempts, OwnAttempt, HasTurn, SameExecutions,
         StartInstance, DeliverSignal, CancelInstance;
    if call.Tick? {
      var at := FailingTick(reg, call.w, st, id, g, node);
    } else {
      CallPasses(reg, st, call, id);
      SameAttempt(st, Apply(reg, st, call).store, id);
    }
  }

  /** A unit that keeps failing, in a store with any number of instances and whatever else is called:
      its instance stays where it is and RUNNING, and its attempts climb by one with each turn up to
      the retry budget and no further.  The turn after that many failures, the (budget + 1)-st, is the
      first to report the error, and every later turn calls the unit again and fails again. */
  lemma FailingTicks(reg: Registry, calls: seq<Call>, more: seq<Call>, st: Store, id: string, g: GraphSpec,
          node: Node, w: World)
    returns (at: Store)
    requires ValidCalls(calls) && st == Run(reg, calls) && ReadyToCompute(reg, st, id, g, node)
    requires ValidCalls(more) && Cancel(id) !in more && UnitFails(more, id, node.unitId, st.instances[id].snapshot)
    requires ValidWorld(w) && w.execute(id, node.unitId, st.instances[id].snapshot) == ExecuteFailed
    ensures var st', budget := RunFrom(reg, st, more), MaxAttempts(reg, node.unitId);
            var failures := OwnAttempt(st, id) + Turns(reg, st, more, id);
            && id in st'.instances && st'.instances[id] == st.instances[id]
            && OwnAttempt(st', id) == Least(failures, budget)
            && if HasTurn(reg, w, st', id) then
                 && SameOwn(st', at, id) && (failures >= budget ==> RunOnce(reg, w, st').error == Some(ExecutionFailed))
                 && ProcessInstance(reg, w, at, id).error == if failures >= budget then Some(ExecutionFailed) else None
               else Starved(st', RunOnce(reg, w, st'), id)
  {
    hide Inv, Sound, ValidRegistry, ValidWorld, RunOnce, ProcessInstance, RunFrom, MaxAttempts, OwnAttempt, HasTurn,
         Turns, SameOwn, Starved;
    assert ValidRegistry(reg);
    ReachableInv(reg, calls);
    FailingRun(reg, st, more, id, g, node);
    var st' := RunFrom(reg, st, more);
    StillReady(reg, st, st', id, g, node);
    at := FailingTick(reg, w, st', id, g, node);
  }

  // ---------- a failing compensator ----------

  ghost predicate KeepsFailing(w: World, id: string, f: Frame)
  {
    forall attempt, payload :: !w.compensate(id, f, attempt, payload)
  }

  ghost predicate CompensatorFails(calls: seq<Call>, id: string, f: Frame)
  {
    forall i :: 0 <= i < |calls| && calls[i].Tick? ==> KeepsFailing(calls[i].w, id, f)
  }

  /** The calls that are left for the frame on top. */
  function TopBudget(reg: Registry, st: Store, id: string): int
    requires id in st.instances && st.instances[id].stack != []
  {
    FrameBudget(reg, id, TopFrame(st, id), st.executions)
  }

  /** How often a compensator has been called for the frame. */
  function Made(st: Store, id: string, f: Frame): nat
  {
    CallCount(OwnCalls(st.calls, id), CompensationKeyOf(id, f))
  }

  lemma OneMoreMade(calls: seq<CompensatorCall>, c: CompensatorCall, id: string, key: Key)
    requires c.entityId == id && c.key == key
    ensures CallCount(OwnCalls(calls + [c], id), key) == CallCount(OwnCalls(calls, id), key) + 1
  {
    assert (calls + [c])[..|calls|] == calls;
    var own := OwnCalls(calls, id);
    assert (own + [c])[..|own|] == own;
  }

  lemma FailedCall(reg: Registry, w: World, st: Store, id: string)
    requires MidUnwinding(reg, st, id) && TopFrame(st, id).compensatorUnitId in reg.compensators
    requires KeepsFailing(w, id, TopFrame(st, id))
    ensures var s, f := CompensateOneFrame(reg, w, st, id), TopFrame(st, id);
            && UnwindKeeps(reg, st, s, id)
            && Made(s.store, id, f) == Made(st, id, f) + 1 && s.store.instances[id].stack == st.instances[id].stack
            && (s.error.Some? <==> TopBudget(reg, st, id) <= 1)
            && (s.error.Some? ==> s.error == Some(CompensationFailed) && s.store.instances[id].status == Failed)
            && (s.error.None? ==>
                  s.store.instances == st.instances && TopBudget(reg, s.store, id) == TopBudget(reg, st, id) - 1)
  {
    hide Sound, Evolves, ValidRegistry, CallsSound, CommitHop, CompensateOneFrame, CallCount, OwnCalls;
    OneFrameUnfolds(reg, w, st, id);
    UndoFailedStep(reg, w, st, id);
    OpenedKeepsAttempts(w, st, id);
    OneMoreMade(st.calls, NextCall(w, st, id), id, CompensationKeyOf(id, TopFrame(st, id)));
  }

  /** How far a compensator that keeps failing for the frame on top has got after so many further
      iterations: the instance still waits for it, or has failed; its stack is untouched. */
  ghost predicate KeptFailing(reg: Registry, st: Store, st': Store, id: string, iterations: int)
  {
    && id in st.instances && st.instances[id].stack != [] && id in st'.instances
    && st'.instances[id].stack == st.instances[id].stack
    && var f, budget := TopFrame(st, id), TopBudget(reg, st, id);
       if iterations < budget then
         && st'.instances[id] == st.instances[id] && TopBudget(reg, st', id) == budget - iterations
         && Made(st', id, f) == Made(st, id, f) + iterations
       else st'.instances[id].status == Failed && Made(st', id, f) == Made(st, id, f) + budget
  }

  /** A compensator that keeps failing is called once per iteration until its budget is used up; the
      instance then fails with its stack untouched. */
  lemma {:induction false} FailingLoop(reg: Registry, w: World, st: Store, id: string, left: nat)
    requires MidUnwinding(reg, st, id) && TopFrame(st, id).compensatorUnitId in reg.compensators
    requires KeepsFailing(w, id, TopFrame(st, id)) && TopBudget(reg, st, id) >= 1
    ensures var s := CompensationLoop(reg, w, st, id, left);
            && KeptFailing(reg, st, s.store, id, left)
            && s.error == Some(if left < TopBudget(reg, st, id) then FramesExceeded else CompensationFailed)
    decreases left
  {
    hide Sound, Evolves, ValidRegistry, CallsSound, CompensateOneFrame, FinishCompensation, KeepsFailing, FrameBudget,
         Made;
    if left > 0 {
      FailedCall(reg, w, st, id);
      var s := CompensateOneFrame(reg, w, st, id);
      if s.error.None? {
        FailingLoop(reg, w, s.store, id, left - 1);
      }
    }
  }

  lemma SameFailing(reg: Registry, st: Store, st': Store, id: string)
    requires SameOwn(st, st', id) && st.instances[id].stack != []
    ensures TopBudget(reg, st', id) == TopBudget(reg, st, id)
    ensures Made(st', id, TopFrame(st, id)) == Made(st, id, TopFrame(st, id))
  {
    assert Owned(id, CompensationKeyOf(id, TopFrame(st, id)));
  }

  lemma FailingTurnOf(reg: Registry, w: World, st: Store, id: string)
    requires ValidRegistry(reg) && Inv(reg, st) && id in st.instances && st.instances[id].status == Compensating
    requires st.instances[id].stack != [] && TopFrame(st, id).compensatorUnitId in reg.compensators
    requires KeepsFailing(w, id, TopFrame(st, id)) && TopBudget(reg, st, id) >= 1
    ensures KeptFailing(reg, st, ProcessInstance(reg, w, st, id).store, id, 100)
  {
    hide Inv, Sound, ValidRegistry, CallsSound, CompensationLoop, KeepsFailing, KeptFailing, TopBudget;
    InvIsSound(reg, st, id);
    InvHasCalls(reg, st);
    FailingLoop(reg, w, st, id, MAX_FRAMES);
  }

  lemma TopBudgetPositive(reg: Registry, st: Store, id: string)
    requires id in st.instances && Sound(reg, st, id) && st.instances[id].stack != []
    ensures TopBudget(reg, st, id) >= 1
  {
    hide Sound;
    SoundIsWithinBudget(reg, st, id);
  }

  /** One call of any kind but a cancellation, while the instance still waits for the compensator. */
  lemma FailingCompensatorCall(reg: Registry, st: Store, call: Call, id: string)
    requires ValidRegistry(reg) && Inv(reg, st) && call != Cancel(id) && (call.Tick? ==> ValidWorld(call.w))
    requires id in st.instances && st.instances[id].status == Compensating && st.instances[id].stack != []
    requires TopFrame(st, id).compensatorUnitId in reg.compensators
    requires call.Tick? ==> KeepsFailing(call.w, id, TopFrame(st, id))
    ensures var turn := call.Tick? && HasTurn(reg, call.w, st, id);
            KeptFailing(reg, st, Apply(reg, st, call).store, id, if turn then 100 else 0)
  {
    hide Inv, Sound, ValidRegistry, ValidWorld, RunOnce, ProcessInstance, HasTurn, SameExecutions, KeepsFailing,
         StartInstance, DeliverSignal, CancelInstance, Made, TopBudget;
    InvIsSound(reg, st, id);
    TopBudgetPositive(reg, st, id);
    var st' := Apply(reg, st, call).store;
    if call.Tick? {
      var at := TickReaches(reg, call.w, st, id);
      if HasTurn(reg, call.w, st, id) {
        SameFailing(reg, st, at, id);
        FailingTurnOf(reg, call.w, at, id);
        SameFailing(reg, ProcessInstance(reg, call.w, at, id).store, st', id);
      } else {
        SameFailing(reg, st, st', id);
      }
    } else {
      CallPasses(reg, st, call, id);
      SameFailing(reg, st, st', id);
    }
  }

  lemma FailedStays(reg: Registry, st: Store, call: Call, id: string)
    requires ValidRegistry(reg) && Inv(reg, st) && call != Cancel(id) && (call.Tick? ==> ValidWorld(call.w))
    requires id in st.instances && !Active(st.instances[id].status)
    ensures SameOwn(st, Apply(reg, st, call).store, id)
  {
    hide Inv, ValidRegistry, ValidWorld, RunOnce, StartInstance, DeliverSignal, CancelInstance, SameOwn;
    if call.Tick? {
      IdlePasses(reg, call.w, st, id);
    } else {
      CallPasses(reg, st, call, id);
    }
  }

  lemma KeptFailingThen(reg: Registry, a: Store, b: Store, c: Store, id: string, n: int, m: int)
    requires KeptFailing(reg, a, b, id, n) && 0 <= n < TopBudget(reg, a, id) && KeptFailing(reg, b, c, id, m) && m >= 0
    ensures KeptFailing(reg, a, c, id, n + m)
  {
    hide Made, TopBudget;
  }

  lemma {:induction false} FailingCompensatorRun(reg: Registry, st: Store, more: seq<Call>, id: string)
    requires ValidRegistry(reg) && Inv(reg, st) && ValidCalls(more) && Cancel(id) !in more
    requires id in st.instances && st.instances[id].status == Compensating && st.instances[id].stack != []
    requires TopFrame(st, id).compensatorUnitId in reg.compensators && CompensatorFails(more, id, TopFrame(st, id))
    ensures KeptFailing(reg, st, RunFrom(reg, st, more), id, 100 * Turns(reg, st, more, id))
    decreases |more|
  {
    hide Inv, Sound, ValidRegistry, ValidWorld, Apply, HasTurn, SameExecutions, KeepsFailing, Made, TopBudget;
    InvIsSound(reg, st, id);
    TopBudgetPositive(reg, st, id);
    if more != [] {
      var n := |more| - 1;
      assert forall i :: 0 <= i < n ==> more[..n][i] == more[i];
      FailingCompensatorRun(reg, st, more[..n], id);
      RunsKeepInv(reg, st, more[..n]);
      var st' := RunFrom(reg, st, more[..n]);
      var done := 100 * Turns(reg, st, more[..n], id);
      if done < TopBudget(reg, st, id) {
        FailingCompensatorCall(reg, st', more[n], id);
        var turn := more[n].Tick? && HasTurn(reg, more[n].w, st', id);
        KeptFailingThen(reg, st, st', Apply(reg, st', more[n]).store, id, done, if turn then 100 else 0);
      } else {
        FailedStays(reg, st', more[n], id);
        SameFailing(reg, st', Apply(reg, st', more[n]).store, id);
      }
    }
  }

  lemma FreshFrame(reg: Registry, st: Store, id: string)
    requires Inv(reg, st) && id in st.instances && st.instances[id].stack != []
    requires CompensationKeyOf(id, TopFrame(st, id)) !in st.executions
    ensures Made(st, id, TopFrame(st, id)) == 0
    ensures TopBudget(reg, st, id) == MaxAttempts(reg, TopFrame(st, id).compensatorUnitId) + 1
  {
    hide Sound, MaxAttempts;
    var key := CompensationKeyOf(id, TopFrame(st, id));
    forall i | 0 <= i < |st.calls|
      ensures st.calls[i].key != key
    {
      assert CallSound(reg, st, st.calls[i]);
    }
    NoneMade(st.calls, id, key);
  }

  lemma {:induction false} NoneMade(calls: seq<CompensatorCall>, id: string, key: Key)
    requires forall i :: 0 <= i < |calls| ==> calls[i].key != key
    ensures CallCount(OwnCalls(calls, id), key) == 0
  {
    if calls != [] {
      var n := |calls| - 1;
      NoneMade(calls[..n], id, key);
      var own := OwnCalls(calls[..n], id);
      assert calls[n].key != key;
      if calls[n].entityId == id {
        assert OwnCalls(calls, id) == own + [calls[n]] && (own + [calls[n]])[..|own|] == own;
      } else {
        assert OwnCalls(calls, id) == own;
      }
    }
  }

  /** A compensator that keeps failing, over any run without a cancellation: it is called once for
      each of at most 100 iterations per turn.  When its turns have used up the budget of the frame on
      top, retry budget + 1 calls in all if it was never called before, the instance is FAILED with
      its stack untouched; until then it waits where it is. */
  lemma FailingCompensator(reg: Registry, calls: seq<Call>, more: seq<Call>, st: Store, id: string)
    requires ValidRegistry(reg) && ValidCalls(calls) && st == Run(reg, calls) && ValidCalls(more) && Cancel(id) !in more
    requires id in st.instances && st.instances[id].status == Compensating && st.instances[id].stack != []
    requires TopFrame(st, id).compensatorUnitId in reg.compensators && CompensatorFails(more, id, TopFrame(st, id))
    ensures var st', f := RunFrom(reg, st, more), TopFrame(st, id);
            var iterations, retries := 100 * Turns(reg, st, more, id), MaxAttempts(reg, f.compensatorUnitId);
            && KeptFailing(reg, st, st', id, iterations)
            && (CompensationKeyOf(id, f) !in st.executions ==>
                  && Made(st', id, f) == (if iterations < retries + 1 then iterations else retries + 1)
                  && (st'.instances[id].status == Failed <==> iterations >= retries + 1))
  {
    hide Inv, ValidRegistry, RunFrom, Turns, Made, TopBudget, MaxAttempts;
    ReachableInv(reg, calls);
    FailingCompensatorRun(reg, st, more, id);
    if CompensationKeyOf(id, TopFrame(st, id)) !in st.executions {
      FreshFrame(reg, st, id);
    }
  }

  // ---------- a compensator nobody registered ----------

  ghost predicate Orphaned(reg: Registry, st: Store, id: string)
  {
    && id in st.instances && st.instances[id].status == Compensating && st.instances[id].stack != []
    && TopFrame(st, id).compensatorUnitId !in reg.compensators
  }

  lemma OrphanedTurn(reg: Registry, w: World, st: Store, id: string)
    requires ValidRegistry(reg) && Inv(reg, st) && Orphaned(reg, st, id)
    ensures var s := ProcessInstance(reg, w, st, id);
            s.error == Some(CompensatorNotFound) && s.store.instances == st.instances
  {
    hide Inv, Sound, ValidRegistry, CallsSound, CompensateOneFrame;
    InvIsSound(reg, st, id);
    InvHasCalls(reg, st);
    OneFrameUnfolds(reg, w, st, id);
  }

  lemma OrphanedTick(reg: Registry, w: World, st: Store, id: string)
    requires ValidRegistry(reg) && Inv(reg, st) && ValidWorld(w) && Orphaned(reg, st, id)
    ensures var s := RunOnce(reg, w, st);
            && id in s.store.instances && s.store.instances[id] == st.instances[id]
            && if HasTurn(reg, w, st, id) then s.error == Some(CompensatorNotFound) else Starved(st, s, id)
  {
    hide Inv, ValidRegistry, ValidWorld, RunOnce, ProcessInstance, HasTurn, SameExecutions;
    var at := TickReaches(reg, w, st, id);
    if HasTurn(reg, w, st, id) {
      OrphanedTurn(reg, w, at, id);
    }
  }

  lemma {:induction false} OrphanedRun(reg: Registry, st: Store, more: seq<Call>, id: string)
    requires ValidRegistry(reg) && Inv(reg, st) && ValidCalls(more) && Cancel(id) !in more && Orphaned(reg, st, id)
    ensures var st' := RunFrom(reg, st, more); id in st'.instances && st'.instances[id] == st.instances[id]
    decreases |more|
  {
    hide Inv, ValidRegistry, ValidWorld, RunOnce, StartInstance, DeliverSignal, CancelInstance, HasTurn, Starved,
         SameExecutions;
    if more != [] {
      var n := |more| - 1;
      OrphanedRun(reg, st, more[..n], id);
      RunsKeepInv(reg, st, more[..n]);
      var st' := RunFrom(reg, st, more[..n]);
      if more[n].Tick? {
        OrphanedTick(reg, more[n].w, st', id);
      } else {
        CallPasses(reg, st', more[n], id);
      }
    }
  }

  /** A frame whose compensator nobody registered is never undone: short of a cancellation the
      instance stays COMPENSATING as it is, and each of its turns ends the tick with that error. */
  lemma UnregisteredCompensator(reg: Registry, calls: seq<Call>, more: seq<Call>, st: Store, id: string, w: World)
    requires ValidRegistry(reg) && ValidCalls(calls) && st == Run(reg, calls) && Orphaned(reg, st, id)
    requires ValidCalls(more) && Cancel(id) !in more && ValidWorld(w)
    ensures var st' := RunFrom(reg, st, more);
            && id in st'.instances && st'.instances[id] == st.instances[id]
            && if HasTurn(reg, w, st', id) then RunOnce(reg, w, st').error == Some(CompensatorNotFound)
               else Starved(st', RunOnce(reg, w, st'), id)
  {
    hide Inv, ValidRegistry, ValidWorld, RunOnce, RunFrom, HasTurn, Starved;
    ReachableInv(reg, calls);
    OrphanedRun(reg, st, more, id);
    RunsKeepInv(reg, st, more);
    OrphanedTick(reg, w, RunFrom(reg, st, more), id);
  }
}
