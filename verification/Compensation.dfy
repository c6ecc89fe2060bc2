/**
 Compensation: an exact reverse undo when every compensator succeeds, and an end in any case.
 */
module Compensation {
  import opened Wrappers
  import opened Entities
  import opened Graphs
  import opened Routing
  import opened Conditions
  import opened Idempotency
  import opened Lines
  import opened Registries
  import opened Scheduling
  import opened History
  import opened Preservation
  import opened Steps
  import opened InstanceSteps
  import opened Runs
  import opened Ticks

  ghost predicate Registered(reg: Registry, stack: seq<Frame>)
  {
    forall i :: 0 <= i < |stack| ==> stack[i].compensatorUnitId in reg.compensators
  }

  // ---------- when every compensator succeeds ----------

  ghost predicate AllSucceed(w: World, id: string)
  {
    forall f, attempt, payload :: w.compensate(id, f, attempt, payload)
  }

  /** The new calls undo the frames of the stack from the top down, each once, each with the payload
      the frame stored, or else the instance's current one. */
  ghost predicate UndoCalls(rec: Record, id: string, made: seq<CompensatorCall>)
  {
    && |made| <= |rec.stack|
    && forall k :: 0 <= k < |made| ==>
         var f := rec.stack[|rec.stack| - 1 - k];
         && made[k].entityId == id && made[k].key == CompensationKey(id, f.forwardSequence, f.compensatorUnitId)
         && made[k].frame == f && made[k].ok
         && made[k].payload == if f.forwardSnapshot.Some? then f.forwardSnapshot else rec.snapshot.payload
  }

  lemma UndoCallsPrepend(rec: Record, rec': Record, id: string, call: CompensatorCall, made: seq<CompensatorCall>)
    requires rec.stack != [] && rec'.stack == rec.stack[..|rec.stack| - 1] && rec'.snapshot == rec.snapshot
    requires UndoCalls(rec', id, made)
    requires call.entityId == id && call.frame == rec.stack[|rec.stack| - 1] && call.ok
    requires call.key == CompensationKeyOf(id, call.frame) && call.payload == CompensationPayload(rec, call.frame)
    ensures UndoCalls(rec, id, [call] + made)
  {
    var all := [call] + made;
    forall k | 0 <= k < |all|
      ensures all[k].entityId == id && all[k].frame == rec.stack[|rec.stack| - 1 - k] && all[k].ok
              && all[k].key == CompensationKeyOf(id, all[k].frame)
              && all[k].payload == CompensationPayload(rec, all[k].frame)
    {
      if k > 0 {
        assert all[k] == made[k - 1];
      }
    }
  }

  lemma FinishKeepsStack(reg: Registry, st: Store, id: string)
    requires id in st.instances && st.instances[id].stack == []
    ensures FinishCompensation(reg, st, id).store.instances.Keys == st.instances.Keys
    ensures FinishCompensation(reg, st, id).store.instances[id].stack == []
  {
    hide ResolveTransitions;
  }

  lemma UndoneKeepsSnapshot(w: World, st: Store, id: string)
    requires id in st.instances && st.instances[id].stack != []
    ensures var called := Called(w, st, id);
            Committed(st.instances[id], CompensationCommit(called, id, TopFrame(st, id))).snapshot
            == st.instances[id].snapshot
  {
  }

  /** What one run of the loop does if every compensator succeeds. */
  ghost predicate Unwinds(st: Store, id: string, s: Step, left: nat)
  {
    && id in st.instances && id in s.store.instances
    && var rec, rec' := st.instances[id], s.store.instances[id];
       var h := |rec.stack|;
       && st.calls <= s.store.calls && UndoCalls(rec, id, s.store.calls[|st.calls|..])
       && if h < left then
            && s.error.None? && rec'.stack == [] && |s.store.calls| == |st.calls| + h
            && rec'.status in {Compensated, Completed, Failed}
          else
            && s.error == Some(FramesExceeded) && rec'.stack == rec.stack[..h - left]
            && |s.store.calls| == |st.calls| + left
            && rec'.status == Compensating
  }

  lemma UnwindsOneMore(w: World, st: Store, id: string, st': Store, s: Step, left: nat)
    requires id in st.instances && st.instances[id].stack != [] && left > 0 && id in st'.instances
    requires var rec, rec' := st.instances[id], st'.instances[id];
             rec'.stack == rec.stack[..|rec.stack| - 1] && rec'.snapshot == rec.snapshot
    requires st'.calls == st.calls + [NextCall(w, st, id)] && NextCall(w, st, id).ok
    requires Unwinds(st', id, s, left - 1)
    ensures Unwinds(st, id, s, left)
  {
    var call := NextCall(w, st, id);
    var made := s.store.calls[|st'.calls|..];
    UndoCallsPrepend(st.instances[id], st'.instances[id], id, call, made);
    assert s.store.calls[|st.calls|..] == [call] + made;
  }

  lemma {:induction false} LoopUnwinds(reg: Registry, w: World, st: Store, id: string, left: nat)
    requires Unwinding(reg, st, id) && st.instances[id].status == Compensating
    requires AllSucceed(w, id) && Registered(reg, st.instances[id].stack)
    ensures Unwinds(st, id, CompensationLoop(reg, w, st, id, left), left)
    decreases left
  {
    hide Sound, Evolves, ValidRegistry, CallsSound, CommitHop, FinishCompensation, CompensateOneFrame, Unwinds,
         UndoCalls, Committed;
    var rec := st.instances[id];
    if left == 0 {
      NoneLeft(st, id);
    } else if rec.stack == [] {
      FinishCompensationStep(reg, st, id);
      FinishKeepsStack(reg, st, id);
      NothingToUndo(st, id, FinishCompensation(reg, st, id), left);
    } else {
      OneFrameUnfolds(reg, w, st, id);
      UndoneStep(reg, w, st, id);
      UndoneKeepsSnapshot(w, st, id);
      var s := CompensateOneFrame(reg, w, st, id);
      LoopUnwinds(reg, w, s.store, id, left - 1);
      UnwindsOneMore(w, st, id, s.store, CompensationLoop(reg, w, s.store, id, left - 1), left);
    }
  }

  lemma NoneLeft(st: Store, id: string)
    requires id in st.instances && st.instances[id].status == Compensating
    ensures Unwinds(st, id, Fail(st, FramesExceeded), 0)
  {
    assert st.instances[id].stack[..|st.instances[id].stack|] == st.instances[id].stack;
  }

  lemma NothingToUndo(st: Store, id: string, s: Step, left: nat)
    requires id in st.instances && st.instances[id].stack == [] && left > 0 && s.error.None?
    requires id in s.store.instances && s.store.instances[id].stack == [] && s.store.calls == st.calls
    requires s.store.instances[id].status in {Compensated, Completed, Failed}
    ensures Unwinds(st, id, s, left)
  {
  }

  // ---------- how a finished compensation ends ----------

  /** Does routing from the current node take a transition straight to this terminal? */
  ghost predicate LeadsToTerminal(reg: Registry, g: GraphSpec, nodeId: string, snap: Snapshot, terminal: string)
  {
    && nodeId in g.nodes && terminal in g.nodes && g.nodes[terminal].kind == Terminal
    && var ts := g.nodes[nodeId].transitions;
       exists i :: Takes(reg.eval, ts, snap, None, i) && ts[i].target == terminal
  }

  lemma LeadingIsResolved(reg: Registry, g: GraphSpec, nodeId: string, snap: Snapshot, terminal: string)
    ensures LeadsToTerminal(reg, g, nodeId, snap, terminal) <==>
              && nodeId in g.nodes && ResolveTransitions(reg.eval, g.nodes[nodeId], snap, None) == Ok(terminal)
              && terminal in g.nodes && g.nodes[terminal].kind == Terminal
  {
    hide ResolveTransitions, Stops, TakesNone, Holds, Breaks, NoneBefore;
    if nodeId in g.nodes {
      RoutingMeans(reg.eval, g.nodes[nodeId], snap, None);
    }
  }

  /** COMPENSATED exactly when routing does not lead straight to a terminal, and else the terminal's
      status. */
  ghost predicate EndsAs(reg: Registry, g: GraphSpec, nodeId: string, snap: Snapshot, status: Status)
  {
    && (status == Compensated <==> !exists t :: LeadsToTerminal(reg, g, nodeId, snap, t))
    && forall t :: LeadsToTerminal(reg, g, nodeId, snap, t) ==>
         status == if g.nodes[t].outcome == Success then Completed else Failed
  }

  lemma NoTransitionsNoTarget(reg: Registry, node: Node, snap: Snapshot)
    requires node.transitions == []
    ensures ResolveTransitions(reg.eval, node, snap, None).Err?
  {
    ResolvedIsTarget(reg.eval, node, snap, None);
  }

  lemma FinishEndsAs(reg: Registry, st: Store, id: string, g: GraphSpec)
    requires ValidRegistry(reg) && id in st.instances && Sound(reg, st, id) && st.instances[id].status == Compensating
    requires GetGraph(reg, st.instances[id].graph) == Ok(g)
    ensures var s, rec := FinishCompensation(reg, st, id), st.instances[id];
            id in s.store.instances && EndsAs(reg, g, rec.currentNode, rec.snapshot, s.store.instances[id].status)
  {
    hide Sound, ValidRegistry, CommitHop, ResolveTransitions, StepKeeps, LeadsToTerminal;
    var rec := st.instances[id];
    forall t: string
      ensures LeadsToTerminal(reg, g, rec.currentNode, rec.snapshot, t) <==>
                && rec.currentNode in g.nodes
                && ResolveTransitions(reg.eval, g.nodes[rec.currentNode], rec.snapshot, None) == Ok(t)
                && t in g.nodes && g.nodes[t].kind == Terminal
    {
      LeadingIsResolved(reg, g, rec.currentNode, rec.snapshot, t);
    }
    if rec.currentNode in g.nodes {
      if g.nodes[rec.currentNode].transitions == [] {
        NoTransitionsNoTarget(reg, g.nodes[rec.currentNode], rec.snapshot);
      } else {
        var next := ResolveTransitions(reg.eval, g.nodes[rec.currentNode], rec.snapshot, None);
        if next.Ok? && next.value in g.nodes && g.nodes[next.value].kind == Terminal {
          GraphIsGood(reg, rec.graph);
          ResolvedEdge(reg, g, g.nodes[rec.currentNode], rec.snapshot, None);
          EndAfterUnwinding(reg, st, id, g, g.nodes[next.value]);
          assert LeadsToTerminal(reg, g, rec.currentNode, rec.snapshot, next.value);
        }
      }
    }
  }

  lemma OneFrameStays(reg: Registry, w: World, st: Store, id: string)
    requires id in st.instances
    ensures var rec, rec' := st.instances[id], CompensateOneFrame(reg, w, st, id).store.instances[id];
            rec'.graph == rec.graph && rec'.currentNode == rec.currentNode && rec'.snapshot == rec.snapshot
  {
  }

  /** How a run of the loop can end, whatever the compensators answer: finished, failed, or still
      compensating. */
  ghost predicate LoopOutcome(reg: Registry, g: GraphSpec, rec: Record, s: Step, rec': Record)
  {
    match s.error
    case None => rec'.stack == [] && EndsAs(reg, g, rec.currentNode, rec.snapshot, rec'.status)
    case Some(e) =>
      && rec'.graph == rec.graph && rec'.currentNode == rec.currentNode && rec'.snapshot == rec.snapshot
      && (rec'.status == Compensating || (rec'.status == Failed && e == CompensationFailed))
  }

  lemma OneFrameErrors(reg: Registry, w: World, st: Store, id: string)
    requires MidUnwinding(reg, st, id)
    ensures var s := CompensateOneFrame(reg, w, st, id);
            && id in s.store.instances
            && (s.error.Some? ==> s.store.instances[id].status == Compensating
                                  || (s.store.instances[id].status == Failed && s.error == Some(CompensationFailed)))
  {
    hide Sound, Evolves, ValidRegistry, CallsSound, CommitHop, CompensateOneFrame;
    OneFrameUnfolds(reg, w, st, id);
    OpenedStep(reg, st, id);
  }

  lemma {:induction false} LoopEndsAs(reg: Registry, w: World, st: Store, id: string, g: GraphSpec, left: nat)
    requires Unwinding(reg, st, id) && st.instances[id].status == Compensating
    requires GetGraph(reg, st.instances[id].graph) == Ok(g)
    ensures var s := CompensationLoop(reg, w, st, id, left);
            id in s.store.instances && LoopOutcome(reg, g, st.instances[id], s, s.store.instances[id])
    decreases left
  {
    hide Sound, Evolves, ValidRegistry, CallsSound, CompensateOneFrame, FinishCompensation, GetGraph, EndsAs;
    if left > 0 {
      if st.instances[id].stack == [] {
        FinishCompensationStep(reg, st, id);
        FinishKeepsStack(reg, st, id);
        FinishEndsAs(reg, st, id, g);
      } else {
        CompensateOneFrameStep(reg, w, st, id);
        OneFrameErrors(reg, w, st, id);
        OneFrameStays(reg, w, st, id);
        var s := CompensateOneFrame(reg, w, st, id);
        if s.error.None? {
          LoopEndsAs(reg, w, s.store, id, g, left - 1);
        }
      }
    }
  }

  /** However the compensators answer, a turn that ends a compensation either fails the instance with
      the compensator's error, or returns without error and an empty stack; then the instance is
      COMPENSATED exactly when routing from its current node does not lead straight to a terminal,
      and else it takes that terminal's status, even COMPLETED. */
  lemma CompensatedUnlessTerminal(reg: Registry, calls: seq<Call>, w: World, st: Store, id: string, g: GraphSpec)
    requires ValidRegistry(reg) && ValidCalls(calls) && st == Run(reg, calls)
    requires id in st.instances && st.instances[id].status == Compensating
    requires GetGraph(reg, st.instances[id].graph) == Ok(g)
    ensures var s := ProcessInstance(reg, w, st, id);
            && id in s.store.instances
            && var rec, rec' := st.instances[id], s.store.instances[id];
               rec'.status != Compensating ==>
                 || (s.error == Some(CompensationFailed) && rec'.status == Failed)
                 || (s.error.None? && rec'.stack == []
                     && (rec'.status == Compensated <==>
                           !exists t :: LeadsToTerminal(reg, g, rec.currentNode, rec.snapshot, t))
                     && forall t :: LeadsToTerminal(reg, g, rec.currentNode, rec.snapshot, t) ==>
                          rec'.status == if g.nodes[t].outcome == Success then Completed else Failed)
  {
    hide Inv, ValidRegistry, CallsSound, CompensationLoop, LeadsToTerminal, RunFrom, Sound;
    ReachableInv(reg, calls);
    InvIsSound(reg, st, id);
    InvHasCalls(reg, st);
    LoopEndsAs(reg, w, st, id, g, MAX_FRAMES);
  }

  // ---------- a turn in which every compensator succeeds ----------

  /** What a turn with successful compensators does: it undoes the frames one by one from the top of the
      stack: all of them if there are at most 99, and then the compensation is finished; else exactly
      100, and the next turn goes on with the rest. */
  ghost predicate TurnUnwinds(reg: Registry, g: GraphSpec, st: Store, s: Step, id: string)
  {
    && id in st.instances && id in s.store.instances
    && var rec, rec', h := st.instances[id], s.store.instances[id], |st.instances[id].stack|;
       && st.calls <= s.store.calls && UndoCalls(rec, id, s.store.calls[|st.calls|..])
       && |s.store.calls| == |st.calls| + (if h <= 99 then h else 100)
       && (h <= 99 <==> rec'.status != Compensating)
       && (h <= 99 ==> s.error.None? && rec'.stack == [] && EndsAs(reg, g, rec.currentNode, rec.snapshot, rec'.status))
       && (h >= 100 ==>
             && s.error == Some(FramesExceeded) && rec'.stack == rec.stack[..h - 100] && rec'.graph == rec.graph
             && rec'.currentNode == rec.currentNode && rec'.snapshot == rec.snapshot)
  }

  lemma TurnUndoes(reg: Registry, w: World, st: Store, id: string, g: GraphSpec)
    requires ValidRegistry(reg) && Inv(reg, st) && id in st.instances && st.instances[id].status == Compensating
    requires GetGraph(reg, st.instances[id].graph) == Ok(g)
    requires AllSucceed(w, id) && Registered(reg, st.instances[id].stack)
    ensures TurnUnwinds(reg, g, st, ProcessInstance(reg, w, st, id), id)
  {
    hide Inv, Sound, ValidRegistry, CallsSound, CompensationLoop, UndoCalls, EndsAs;
    InvIsSound(reg, st, id);
    InvHasCalls(reg, st);
    LoopUnwinds(reg, w, st, id, MAX_FRAMES);
    LoopEndsAs(reg, w, st, id, g, MAX_FRAMES);
  }

  lemma TurnUndoesInReverse(reg: Registry, calls: seq<Call>, w: World, st: Store, id: string, g: GraphSpec)
    requires ValidRegistry(reg) && ValidCalls(calls) && st == Run(reg, calls)
    requires id in st.instances && st.instances[id].status == Compensating
    requires GetGraph(reg, st.instances[id].graph) == Ok(g)
    requires AllSucceed(w, id) && Registered(reg, st.instances[id].stack)
    ensures TurnUnwinds(reg, g, st, ProcessInstance(reg, w, st, id), id)
  {
    hide ValidRegistry, RunFrom, Inv, ProcessInstance, TurnUnwinds, Registered;
    ReachableInv(reg, calls);
    TurnUndoes(reg, w, st, id, g);
  }

  // ---------- the budget ----------

  function AttemptOf(executions: map<Key, Execution>, key: Key): int
  {
    if key in executions then executions[key].attempt else 0
  }

  /** The calls a frame may still cost. */
  function FrameBudget(reg: Registry, id: string, f: Frame, executions: map<Key, Execution>): int
  {
    MaxAttempts(reg, f.compensatorUnitId) + 1 - AttemptOf(executions, CompensationKeyOf(id, f))
  }

  function Budget(reg: Registry, id: string, stack: seq<Frame>, executions: map<Key, Execution>): int
  {
    if stack == [] then 0
    else Budget(reg, id, stack[..|stack| - 1], executions) + FrameBudget(reg, id, stack[|stack| - 1], executions)
  }

  function BudgetAt(reg: Registry, st: Store, id: string): int
    requires id in st.instances
  {
    Budget(reg, id, st.instances[id].stack, st.executions)
  }

  /** More attempts leave less budget. */
  lemma {:induction false} BudgetShrinks(reg: Registry, id: string, stack: seq<Frame>, executions: map<Key,
          Execution>, executions': map<Key, Execution>)
    requires forall k :: AttemptOf(executions, k) <= AttemptOf(executions', k)
    ensures Budget(reg, id, stack, executions') <= Budget(reg, id, stack, executions)
  {
    if stack != [] {
      BudgetShrinks(reg, id, stack[..|stack| - 1], executions, executions');
    }
  }

  ghost predicate WithinBudget(reg: Registry, id: string, executions: map<Key, Execution>)
  {
    forall f: Frame :: AttemptOf(executions, CompensationKeyOf(id, f)) <= MaxAttempts(reg, f.compensatorUnitId)
  }

  lemma SoundIsWithinBudget(reg: Registry, st: Store, id: string)
    requires id in st.instances && Sound(reg, st, id)
    ensures WithinBudget(reg, id, st.executions)
  {
    hide Sound;
    forall f: Frame
      ensures AttemptOf(st.executions, CompensationKeyOf(id, f)) <= MaxAttempts(reg, f.compensatorUnitId)
    {
      var key := CompensationKeyOf(id, f);
      MaxAttemptsPositive(reg, f.compensatorUnitId);
      if key in st.executions {
        ExecutionFacts(reg, st, id, key);
      }
    }
  }

  lemma {:induction false} BudgetIsPositive(reg: Registry, id: string, stack: seq<Frame>, executions: map<Key,
          Execution>)
    requires WithinBudget(reg, id, executions)
    ensures Budget(reg, id, stack, executions) >= |stack|
  {
    if stack != [] {
      BudgetIsPositive(reg, id, stack[..|stack| - 1], executions);
    }
  }

  lemma OpenedKeepsAttempts(w: World, st: Store, id: string)
    requires id in st.instances && st.instances[id].stack != []
    ensures forall k :: AttemptOf(Called(w, st, id).executions, k) == AttemptOf(st.executions, k)
  {
  }

  /** An iteration that ends without error costs at least one call of the budget. */
  lemma OneFrameCosts(reg: Registry, w: World, st: Store, id: string)
    requires MidUnwinding(reg, st, id) && Registered(reg, st.instances[id].stack)
    ensures var s := CompensateOneFrame(reg, w, st, id);
            && id in s.store.instances
            && (s.error.Some? ==> s.store.instances[id].status == Failed)
            && (s.error.None? ==>
                  BudgetAt(reg, s.store, id) < BudgetAt(reg, st, id) && Registered(reg, s.store.instances[id].stack))
  {
    hide Sound, Evolves, ValidRegistry, CallsSound, CommitHop, CompensateOneFrame, HandleCompensationError;
    OneFrameUnfolds(reg, w, st, id);
    SoundIsWithinBudget(reg, st, id);
    OpenedKeepsAttempts(w, st, id);
    var s := CompensateOneFrame(reg, w, st, id);
    if NextCall(w, st, id).ok {
      UndoneStep(reg, w, st, id);
      BudgetShrinks(reg, id, s.store.instances[id].stack, st.executions, s.store.executions);
    } else {
      UndoFailedStep(reg, w, st, id);
      FailedCallCosts(reg, w, st, id);
    }
  }

  lemma FailedCallCosts(reg: Registry, w: World, st: Store, id: string)
    requires id in st.instances && st.instances[id].stack != []
    ensures var key := CompensationKeyOf(id, TopFrame(st, id));
            var s := HandleCompensationError(reg, Called(w, st, id), id, TopFrame(st, id), key);
            s.error.None? ==> id in s.store.instances && s.store.instances[id].stack == st.instances[id].stack
                              && BudgetAt(reg, s.store, id) < BudgetAt(reg, st, id)
  {
    hide Budget;
    var stack, key := st.instances[id].stack, CompensationKeyOf(id, TopFrame(st, id));
    var s := HandleCompensationError(reg, Called(w, st, id), id, TopFrame(st, id), key);
    OpenedKeepsAttempts(w, st, id);
    if s.error.None? {
      BudgetShrinks(reg, id, stack[..|stack| - 1], st.executions, s.store.executions);
      BudgetOfTop(reg, id, stack, st.executions);
      BudgetOfTop(reg, id, stack, s.store.executions);
    }
  }

  lemma BudgetOfTop(reg: Registry, id: string, stack: seq<Frame>, executions: map<Key, Execution>)
    requires stack != []
    ensures Budget(reg, id, stack, executions)
            == Budget(reg, id, stack[..|stack| - 1], executions) + FrameBudget(reg, id, stack[|stack| - 1], executions)
  {
  }

  /** A turn of the loop ends the compensation, or costs as many calls as it had iterations. */
  lemma {:induction false} LoopCosts(reg: Registry, w: World, st: Store, id: string, left: nat)
    requires Unwinding(reg, st, id) && st.instances[id].status == Compensating
    requires Registered(reg, st.instances[id].stack)
    ensures var s := CompensationLoop(reg, w, st, id, left);
            && id in s.store.instances
            && (s.store.instances[id].status != Compensating ==> !Active(s.store.instances[id].status))
            && (s.store.instances[id].status == Compensating ==>
                  && s.error == Some(FramesExceeded) && Registered(reg, s.store.instances[id].stack)
                  && BudgetAt(reg, s.store, id) <= BudgetAt(reg, st, id) - left)
    decreases left
  {
    hide Sound, Evolves, ValidRegistry, CallsSound, FinishCompensation, CompensateOneFrame, Registered, BudgetAt;
    if left > 0 {
      if st.instances[id].stack == [] {
        FinishCompensationStep(reg, st, id);
      } else {
        CompensateOneFrameStep(reg, w, st, id);
        OneFrameCosts(reg, w, st, id);
        var s := CompensateOneFrame(reg, w, st, id);
        if s.error.None? {
          LoopCosts(reg, w, s.store, id, left - 1);
        }
      }
    }
  }

  lemma BudgetNotNegative(reg: Registry, st: Store, id: string)
    requires id in st.instances && Sound(reg, st, id)
    ensures BudgetAt(reg, st, id) >= 0
  {
    hide Sound, WithinBudget;
    SoundIsWithinBudget(reg, st, id);
    BudgetIsPositive(reg, id, st.instances[id].stack, st.executions);
  }

  /** The instance has ended, or it is still being compensated with so many calls of the budget spent. */
  ghost predicate Spent(reg: Registry, st: Store, st': Store, id: string, calls: int)
  {
    && id in st.instances && id in st'.instances
    && (|| !Active(st'.instances[id].status)
        || (st'.instances[id].status == Compensating && Registered(reg, st'.instances[id].stack)
            && 0 <= BudgetAt(reg, st', id) <= BudgetAt(reg, st, id) - calls))
  }

  lemma TickSpends(reg: Registry, w: World, st: Store, id: string)
    requires ValidRegistry(reg) && Inv(reg, st) && ValidWorld(w) && id in st.instances
    requires st.instances[id].status == Compensating && Registered(reg, st.instances[id].stack)
    ensures Spent(reg, st, RunOnce(reg, w, st).store, id, if HasTurn(reg, w, st, id) then 100 else 0)
    ensures !HasTurn(reg, w, st, id) ==> Starved(st, RunOnce(reg, w, st), id)
  {
    hide Sound, Inv, CallsSound, ValidRegistry, ValidWorld, CompensationLoop, RunOnce, Registered, HasTurn,
         SameExecutions;
    var s := RunOnce(reg, w, st);
    var at := TickReaches(reg, w, st, id);
    RunOnceStep(reg, w, st);
    InvIsSound(reg, s.store, id);
    BudgetNotNegative(reg, s.store, id);
    if HasTurn(reg, w, st, id) {
      InvIsSound(reg, at, id);
      InvHasCalls(reg, at);
      LoopCosts(reg, w, at, id, MAX_FRAMES);
      SameBudget(reg, st, at, id);
      SameBudget(reg, ProcessInstance(reg, w, at, id).store, s.store, id);
    } else {
      SameBudget(reg, st, s.store, id);
    }
  }

  /** Whatever the compensators answer, a tick in which the instance has its turn either ends its
      compensation or uses up at least 100 calls of its budget; in any other tick another instance's
      error comes first, and the instance stays as it was. */
  lemma TickSpendsBudget(reg: Registry, calls: seq<Call>, w: World, st: Store, id: string)
    requires ValidRegistry(reg) && ValidCalls(calls) && st == Run(reg, calls) && ValidWorld(w)
    requires id in st.instances && st.instances[id].status == Compensating && Registered(reg, st.instances[id].stack)
    ensures Spent(reg, st, RunOnce(reg, w, st).store, id, if HasTurn(reg, w, st, id) then 100 else 0)
    ensures !HasTurn(reg, w, st, id) ==> Starved(st, RunOnce(reg, w, st), id)
  {
    hide Inv, ValidRegistry, ValidWorld, RunOnce, Registered, RunFrom, HasTurn, Spent, Starved;
    ReachableInv(reg, calls);
    TickSpends(reg, w, st, id);
  }

  lemma SameBudget(reg: Registry, st: Store, st': Store, id: string)
    requires SameOwn(st, st', id)
    ensures BudgetAt(reg, st', id) == BudgetAt(reg, st, id)
  {
    BudgetReadsOwn(reg, id, st.instances[id].stack, st.executions, st'.executions);
  }

  lemma {:induction false} BudgetReadsOwn(reg: Registry, id: string, stack: seq<Frame>, executions: map<Key,
          Execution>, executions': map<Key, Execution>)
    requires forall k :: Owned(id, k) ==>
               (k in executions <==> k in executions') && (k in executions ==> executions'[k] == executions[k])
    ensures Budget(reg, id, stack, executions') == Budget(reg, id, stack, executions)
  {
    if stack != [] {
      BudgetReadsOwn(reg, id, stack[..|stack| - 1], executions, executions');
      assert Owned(id, CompensationKeyOf(id, stack[|stack| - 1]));
    }
  }

  // ---------- whole runs ----------

  /** One more call of any kind. */
  lemma CallSpends(reg: Registry, st: Store, call: Call, id: string)
    requires ValidRegistry(reg) && Inv(reg, st) && (call.Tick? ==> ValidWorld(call.w)) && id in st.instances
    requires st.instances[id].status == Compensating && Registered(reg, st.instances[id].stack)
    ensures var turn := call.Tick? && HasTurn(reg, call.w, st, id);
            Spent(reg, st, Apply(reg, st, call).store, id, if turn then 100 else 0)
  {
    hide Inv, ValidRegistry, ValidWorld, RunOnce, Registered, HasTurn, BudgetAt, SameExecutions, StartInstance,
         DeliverSignal;
    InvIsSound(reg, st, id);
    BudgetNotNegative(reg, st, id);
    if call.Tick? {
      TickSpends(reg, call.w, st, id);
    } else if call != Cancel(id) {
      CallPasses(reg, st, call, id);
      SameBudget(reg, st, Apply(reg, st, call).store, id);
    }
  }

  lemma EndedStays(reg: Registry, st: Store, call: Call, id: string)
    requires ValidRegistry(reg) && Inv(reg, st) && (call.Tick? ==> ValidWorld(call.w))
    requires id in st.instances && !Active(st.instances[id].status)
    ensures var st' := Apply(reg, st, call).store; id in st'.instances && !Active(st'.instances[id].status)
  {
    hide Inv, ValidRegistry, ValidWorld, RunOnce, StartInstance, DeliverSignal;
    ApplyStep(reg, st, call);
  }

  lemma {:induction false} RunSpends(reg: Registry, st: Store, more: seq<Call>, id: string)
    requires ValidRegistry(reg) && Inv(reg, st) && ValidCalls(more) && id in st.instances
    requires st.instances[id].status == Compensating && Registered(reg, st.instances[id].stack)
    ensures Spent(reg, st, RunFrom(reg, st, more), id, 100 * Turns(reg, st, more, id))
    decreases |more|
  {
    hide Inv, ValidRegistry, ValidWorld, Apply, Registered, HasTurn, BudgetAt, Active;
    if more == [] {
      InvIsSound(reg, st, id);
      BudgetNotNegative(reg, st, id);
    } else {
      var n := |more| - 1;
      RunSpends(reg, st, more[..n], id);
      var st' := RunFrom(reg, st, more[..n]);
      RunsKeepInv(reg, st, more[..n]);
      if !Active(st'.instances[id].status) {
        EndedStays(reg, st', more[n], id);
      } else {
        CallSpends(reg, st', more[n], id);
      }
    }
  }

  /** In a store with any number of instances, and whatever else is called meanwhile: once 100 calls
      for each of its turns exceed the budget of a compensating instance, the sum over its frames of
      (retry budget + 1 - attempts so far), its compensation has ended. */
  lemma CompensationEnds(reg: Registry, calls: seq<Call>, more: seq<Call>, st: Store, id: string)
    requires ValidRegistry(reg) && ValidCalls(calls) && st == Run(reg, calls) && ValidCalls(more)
    requires id in st.instances && st.instances[id].status == Compensating && Registered(reg, st.instances[id].stack)
    requires 100 * Turns(reg, st, more, id) > BudgetAt(reg, st, id)
    ensures var st' := RunFrom(reg, st, more); id in st'.instances && !Active(st'.instances[id].status)
  {
    hide Inv, ValidRegistry, RunFrom, Registered, BudgetAt, Turns;
    ReachableInv(reg, calls);
    RunSpends(reg, st, more, id);
  }
}
