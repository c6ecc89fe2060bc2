/** Whole runs in which every compensator succeeds: exactly what is undone, and after how many turns. */
module Undoing {
  import opened Wrappers
  import opened Entities
  import opened Graphs
  import opened Lines
  import opened Registries
  import opened Scheduling
  import opened History
  import opened Steps
  import opened InstanceSteps
  import opened Runs
  import opened Ticks
  import opened Compensation
  import opened Guarantees

  /** In every tick among the calls all compensators of the instance succeed. */
  ghost predicate TicksSucceed(calls: seq<Call>, id: string)
  {
    forall i :: 0 <= i < |calls| && calls[i].Tick? ==> AllSucceed(calls[i].w, id)
  }

  lemma UndoCallsAppend(rec: Record, rec': Record, id: string, made: seq<CompensatorCall>, more: seq<CompensatorCall>)
    requires UndoCalls(rec, id, made) && rec'.stack == rec.stack[..|rec.stack| - |made|]
    requires rec'.snapshot == rec.snapshot
    requires UndoCalls(rec', id, more)
    ensures UndoCalls(rec, id, made + more)
  {
    var all := made + more;
    forall k | 0 <= k < |all|
      ensures all[k].entityId == id && all[k].frame == rec.stack[|rec.stack| - 1 - k] && all[k].ok
              && all[k].key == CompensationKeyOf(id, all[k].frame)
              && all[k].payload == CompensationPayload(rec, all[k].frame)
    {
      if k >= |made| {
        assert all[k] == more[k - |made|];
      }
    }
  }

  /** Where the instance is after n turns: 100 frames a turn are undone, from the top down; after the
      turn that finds less than 100 of them it has ended. */
  ghost predicate UnwoundTo(reg: Registry, g: GraphSpec, st: Store, st': Store, id: string, n: nat)
  {
    && id in st.instances && id in st'.instances && OwnCalls(st.calls, id) <= OwnCalls(st'.calls, id)
    && var rec, rec', h := st.instances[id], st'.instances[id], |st.instances[id].stack|;
       var made := OwnCalls(st'.calls, id)[|OwnCalls(st.calls, id)|..];
       && UndoCalls(rec, id, made) && |made| == (if 100 * n <= h then 100 * n else h)
       && if 100 * n <= h then
            && rec'.status == Compensating && rec'.stack == rec.stack[..h - 100 * n] && rec'.graph == rec.graph
            && rec'.currentNode == rec.currentNode && rec'.snapshot == rec.snapshot
          else
            rec'.stack == [] && EndsAs(reg, g, rec.currentNode, rec.snapshot, rec'.status)
  }

  lemma NothingUndone(reg: Registry, g: GraphSpec, st: Store, id: string)
    requires id in st.instances && st.instances[id].status == Compensating
    ensures UnwoundTo(reg, g, st, st, id, 0)
  {
    assert OwnCalls(st.calls, id)[|OwnCalls(st.calls, id)|..] == [];
  }

  lemma SameUndone(reg: Registry, g: GraphSpec, st: Store, a: Store, b: Store, id: string, n: nat)
    requires UnwoundTo(reg, g, st, a, id, n) && SameOwn(a, b, id)
    ensures UnwoundTo(reg, g, st, b, id, n)
  {
  }

  lemma OneTurnMore(reg: Registry, g: GraphSpec, st: Store, a: Store, at: Store, s: Step, b: Store, id: string, n: nat)
    requires UnwoundTo(reg, g, st, a, id, n) && 100 * n <= |st.instances[id].stack|
    requires SameOwn(a, at, id) && TurnUnwinds(reg, g, at, s, id) && CallsFor(at, s.store, id)
    requires SameOwn(s.store, b, id)
    ensures UnwoundTo(reg, g, st, b, id, n + 1)
  {
    hide EndsAs, UndoCalls, SameExecutions;
    var rec, rec' := st.instances[id], at.instances[id];
    var before, between := OwnCalls(st.calls, id), OwnCalls(at.calls, id);
    var made, more := between[|before|..], s.store.calls[|at.calls|..];
    OwnAppend(at.calls, s.store.calls, id);
    UndoCallsAppend(rec, rec', id, made, more);
    assert OwnCalls(b.calls, id)[|before|..] == made + more;
  }

  lemma EndedIsNotActive(reg: Registry, g: GraphSpec, nodeId: string, snap: Snapshot, status: Status)
    requires EndsAs(reg, g, nodeId, snap, status)
    ensures !Active(status)
  {
  }

  lemma UndoneEnded(reg: Registry, g: GraphSpec, st: Store, st': Store, id: string, n: nat)
    requires UnwoundTo(reg, g, st, st', id, n)
    ensures id in st.instances && id in st'.instances
    ensures 100 * n <= |st.instances[id].stack| <==> st'.instances[id].status == Compensating
    ensures 100 * n > |st.instances[id].stack| ==> !Active(st'.instances[id].status)
  {
    hide EndsAs, UndoCalls;
    if 100 * n > |st.instances[id].stack| {
      EndedIsNotActive(reg, g, st.instances[id].currentNode, st.instances[id].snapshot, st'.instances[id].status);
    }
  }

  /** One more call of any kind but a cancellation. */
  lemma UndoneOnce(reg: Registry, g: GraphSpec, st: Store, a: Store, call: Call, id: string, n: nat)
    requires ValidRegistry(reg) && Inv(reg, a) && (call.Tick? ==> ValidWorld(call.w) && AllSucceed(call.w, id))
    requires call != Cancel(id) && UnwoundTo(reg, g, st, a, id, n)
    requires GetGraph(reg, st.instances[id].graph) == Ok(g) && Registered(reg, st.instances[id].stack)
    ensures var turn := call.Tick? && HasTurn(reg, call.w, a, id);
            UnwoundTo(reg, g, st, Apply(reg, a, call).store, id, n + if turn then 1 else 0)
  {
    hide Inv, ValidRegistry, ValidWorld, RunOnce, ProcessInstance, HasTurn, SameExecutions, UnwoundTo, AllSucceed,
         EndsAs, StartInstance, DeliverSignal, CancelInstance, GetGraph;
    UndoneEnded(reg, g, st, a, id, n);
    var b := Apply(reg, a, call).store;
    if !call.Tick? {
      CallPasses(reg, a, call, id);
      SameUndone(reg, g, st, a, b, id, n);
    } else if 100 * n <= |st.instances[id].stack| {
      UndoneTick(reg, g, st, a, call.w, id, n);
    } else {
      IdlePasses(reg, call.w, a, id);
      IdleHasNoTurn(reg, call.w, a, id);
      SameUndone(reg, g, st, a, b, id, n);
    }
  }

  lemma UndoneTick(reg: Registry, g: GraphSpec, st: Store, a: Store, w: World, id: string, n: nat)
    requires ValidRegistry(reg) && Inv(reg, a) && ValidWorld(w) && AllSucceed(w, id)
    requires UnwoundTo(reg, g, st, a, id, n) && 100 * n <= |st.instances[id].stack|
    requires GetGraph(reg, st.instances[id].graph) == Ok(g) && Registered(reg, st.instances[id].stack)
    ensures UnwoundTo(reg, g, st, RunOnce(reg, w, a).store, id, n + if HasTurn(reg, w, a, id) then 1 else 0)
  {
    hide Inv, ValidRegistry, ValidWorld, RunOnce, ProcessInstance, HasTurn, SameExecutions, AllSucceed, EndsAs,
         GetGraph, UndoCalls, TurnUnwinds;
    var at := TickReaches(reg, w, a, id);
    if HasTurn(reg, w, a, id) {
      TurnUndoes(reg, w, at, id, g);
      TurnCalls(reg, w, at, id);
      OneTurnMore(reg, g, st, a, at, ProcessInstance(reg, w, at, id), RunOnce(reg, w, a).store, id, n);
    } else {
      SameUndone(reg, g, st, a, RunOnce(reg, w, a).store, id, n);
    }
  }

  lemma {:induction false} UndoneRun(reg: Registry, st: Store, more: seq<Call>, id: string, g: GraphSpec)
    requires ValidRegistry(reg) && Inv(reg, st) && ValidCalls(more) && Cancel(id) !in more && TicksSucceed(more, id)
    requires id in st.instances && st.instances[id].status == Compensating
    requires GetGraph(reg, st.instances[id].graph) == Ok(g) && Registered(reg, st.instances[id].stack)
    ensures UnwoundTo(reg, g, st, RunFrom(reg, st, more), id, Turns(reg, st, more, id))
    decreases |more|
  {
    hide Inv, ValidRegistry, ValidWorld, Apply, HasTurn, UnwoundTo, AllSucceed, Registered, GetGraph;
    if more == [] {
      NothingUndone(reg, g, st, id);
    } else {
      var n := |more| - 1;
      assert forall i :: 0 <= i < n ==> more[..n][i] == more[i];
      UndoneRun(reg, st, more[..n], id, g);
      RunsKeepInv(reg, st, more[..n]);
      UndoneOnce(reg, g, st, RunFrom(reg, st, more[..n]), more[n], id, Turns(reg, st, more[..n], id));
    }
  }

  /** With registered and successful compensators, over any calls short of a cancellation: every turn
      undoes 100 frames from the top down, each by one call, and h frames take exactly h / 100 + 1 turns;
      then the instance is COMPENSATED, or has the status of the terminal that routing leads to. */
  lemma UnwindingRun(reg: Registry, calls: seq<Call>, more: seq<Call>, st: Store, id: string, rec: Record, g: GraphSpec)
    requires Reaches(reg, calls, st, id, rec, g) && rec.status == Compensating && Registered(reg, rec.stack)
    requires ValidCalls(more) && Cancel(id) !in more && TicksSucceed(more, id)
    ensures var st', turns := RunFrom(reg, st, more), Turns(reg, st, more, id);
            && UnwoundTo(reg, g, st, st', id, turns)
            && (st'.instances[id].status != Compensating <==> turns >= |rec.stack| / 100 + 1)
  {
    hide Inv, ValidRegistry, RunFrom, UnwoundTo, Registered, Turns, GetGraph;
    ReachableInv(reg, calls);
    UndoneRun(reg, st, more, id, g);
    UndoneEnded(reg, g, st, RunFrom(reg, st, more), id, Turns(reg, st, more, id));
  }

  // ---------- frames whose compensator is not registered ----------

  /** It compensates, and some frame of its stack has no registered compensator. */
  ghost predicate Stranded(reg: Registry, st: Store, id: string)
  {
    && id in st.instances && st.instances[id].status == Compensating
    && !Registered(reg, st.instances[id].stack)
  }

  lemma PoppedIsStranded(reg: Registry, st: Store, st': Store, id: string)
    requires Stranded(reg, st, id) && TopFrame(st, id).compensatorUnitId in reg.compensators
    requires id in st'.instances && st'.instances[id].status == Compensating
    requires st'.instances[id].stack == st.instances[id].stack[..|st.instances[id].stack| - 1]
    ensures Stranded(reg, st', id)
  {
    var stack, rest := st.instances[id].stack, st'.instances[id].stack;
    var i :| 0 <= i < |stack| && stack[i].compensatorUnitId !in reg.compensators;
    assert rest[i] == stack[i];
  }

  lemma {:induction false} LoopStrands(reg: Registry, w: World, st: Store, id: string, left: nat)
    requires Unwinding(reg, st, id) && Stranded(reg, st, id) && AllSucceed(w, id)
    ensures Stranded(reg, CompensationLoop(reg, w, st, id, left).store, id)
    decreases left
  {
    hide Sound, Evolves, ValidRegistry, CallsSound, CommitHop, FinishCompensation, CompensateOneFrame;
    if left > 0 {
      assert st.instances[id].stack != [];
      OneFrameUnfolds(reg, w, st, id);
      if TopFrame(st, id).compensatorUnitId in reg.compensators {
        UndoneStep(reg, w, st, id);
        var s := CompensateOneFrame(reg, w, st, id);
        PoppedIsStranded(reg, st, s.store, id);
        LoopStrands(reg, w, s.store, id, left - 1);
      }
    }
  }

  lemma TurnStrands(reg: Registry, w: World, st: Store, id: string)
    requires ValidRegistry(reg) && Inv(reg, st) && Stranded(reg, st, id) && AllSucceed(w, id)
    ensures Stranded(reg, ProcessInstance(reg, w, st, id).store, id)
  {
    hide Inv, Sound, ValidRegistry, CallsSound, CompensationLoop;
    InvIsSound(reg, st, id);
    InvHasCalls(reg, st);
    LoopStrands(reg, w, st, id, MAX_FRAMES);
  }

  lemma StrandedOnce(reg: Registry, st: Store, call: Call, id: string)
    requires ValidRegistry(reg) && Inv(reg, st) && call != Cancel(id) && Stranded(reg, st, id)
    requires call.Tick? ==> ValidWorld(call.w) && AllSucceed(call.w, id)
    ensures Stranded(reg, Apply(reg, st, call).store, id)
  {
    hide Inv, ValidRegistry, ValidWorld, RunOnce, ProcessInstance, HasTurn, SameExecutions, AllSucceed, Registered,
         StartInstance, DeliverSignal, CancelInstance;
    if call.Tick? {
      var at := TickReaches(reg, call.w, st, id);
      if HasTurn(reg, call.w, st, id) {
        TurnStrands(reg, call.w, at, id);
      }
    } else {
      CallPasses(reg, st, call, id);
    }
  }

  lemma {:induction false} StrandedRun(reg: Registry, st: Store, more: seq<Call>, id: string)
    requires ValidRegistry(reg) && Inv(reg, st) && ValidCalls(more) && Cancel(id) !in more && TicksSucceed(more, id)
    requires Stranded(reg, st, id)
    ensures Stranded(reg, RunFrom(reg, st, more), id)
    decreases |more|
  {
    hide Inv, ValidRegistry, ValidWorld, Apply, Stranded, AllSucceed;
    if more != [] {
      var n := |more| - 1;
      assert forall i :: 0 <= i < n ==> more[..n][i] == more[i];
      StrandedRun(reg, st, more[..n], id);
      RunsKeepInv(reg, st, more[..n]);
      StrandedOnce(reg, RunFrom(reg, st, more[..n]), more[n], id);
    }
  }

  /** If no compensator fails and the instance gets its h / 100 + 1 turns, then its compensation ends
      exactly if the compensator of every frame is registered. */
  lemma EndsIffRegistered(reg: Registry, calls: seq<Call>, more: seq<Call>, st: Store, id: string, rec: Record,
          g: GraphSpec)
    requires Reaches(reg, calls, st, id, rec, g) && rec.status == Compensating
    requires ValidCalls(more) && Cancel(id) !in more && TicksSucceed(more, id)
    requires Turns(reg, st, more, id) >= |rec.stack| / 100 + 1
    ensures var st' := RunFrom(reg, st, more);
            && id in st'.instances
            && (st'.instances[id].status != Compensating <==> Registered(reg, rec.stack))
            && (Registered(reg, rec.stack) ==> !Active(st'.instances[id].status))
  {
    hide Inv, ValidRegistry, RunFrom, UnwoundTo, Registered, Turns, GetGraph;
    ReachableInv(reg, calls);
    if Registered(reg, rec.stack) {
      UnwindingRun(reg, calls, more, st, id, rec, g);
      UndoneEnded(reg, g, st, RunFrom(reg, st, more), id, Turns(reg, st, more, id));
    } else {
      StrandedRun(reg, st, more, id);
    }
  }
}
