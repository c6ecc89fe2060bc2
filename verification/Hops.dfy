/** How many journal entries one tick adds to an instance. */
module Hops {
  import opened Wrappers
  import opened Entities
  import opened Graphs
  import opened Routing
  import opened Idempotency
  import opened Lines
  import opened Registries
  import opened Scheduling
  import opened History
  import opened Steps
  import opened InstanceSteps
  import opened Runs
  import opened Ticks
  import opened Compensation
  import opened Guarantees

  // ---------- instances that do not compensate ----------

  /** The instance's journal has grown by at most one entry. */
  ghost predicate OneMore(st: Store, st': Store, id: string)
  {
    && id in st.instances && id in st'.instances
    && var j, j' := st.instances[id].journal, st'.instances[id].journal;
       j <= j' && |j'| <= |j| + 1
  }

  ghost predicate SameJournal(st: Store, st': Store, id: string)
  {
    id in st.instances && id in st'.instances && st'.instances[id].journal == st.instances[id].journal
  }

  lemma CommitAddsOne(st: Store, id: string, c: HopCommit)
    requires id in st.instances
    ensures OneMore(st, CommitHop(st, id, c), id)
  {
  }

  lemma WaitAddsNone(w: World, st: Store, id: string, node: Node, wait: Option<WaitSignal>)
    requires id in st.instances
    ensures SameJournal(st, EnterWait(w, st, id, node, wait).store, id)
  {
  }

  lemma {:induction false} SpawnAddsNone(reg: Registry, st: Store, parent: string, specs: seq<SpawnSpec>, id: string)
    requires id in st.instances
    ensures SameJournal(st, SpawnAll(reg, st, parent, specs).store, id)
    decreases |specs|
  {
    if specs != [] {
      var spec := specs[0];
      if CheckSpawn(spec).None? && GetGraph(reg, spec.graph).Ok? && spec.entityId !in st.instances {
        var child := NewRecord(ChildRequest(parent, spec), reg.graphs[spec.graph].entryNodeId);
        SpawnAddsNone(reg, WithRecord(st, spec.entityId, child), parent, specs[1..], id);
      }
    }
  }

  lemma NextWaitAddsNone(w: World, st: Store, id: string, g: GraphSpec, next: string)
    requires id in st.instances
    ensures SameJournal(st, WaitIfWaitNode(w, st, id, g, next).store, id)
  {
    hide EnterWait;
    if next in g.nodes {
      WaitAddsNone(w, st, id, g.nodes[next], WaitSignalOf(g.nodes[next]));
    }
  }

  lemma CommitComputeAddsOne(reg: Registry, w: World, st: Store, id: string, g: GraphSpec, node: Node, snap: Snapshot,
          mutation: Mutation, key: Key)
    requires id in st.instances
    ensures OneMore(st, CommitCompute(reg, w, st, id, g, node, snap, mutation, key).store, id)
  {
    hide CommitHop, WaitIfWaitNode, SpawnAll, CheckOutput, Resolve;
    var out := snap.(sequence := st.instances[id].sequence + 1);
    CommitAddsOne(st, id,
                  TerminalCommit(st, id, node.nodeId, Failed, Some(st.instances[id].snapshot), NO_TRANSITION));
    var next := Resolve(reg.eval, g, node.nodeId, out);
    if next.Ok? {
      var spawned := if mutation.SpawnIntent? then SpawnAll(reg, st, id, mutation.specs) else Done(st);
      if mutation.SpawnIntent? {
        SpawnAddsNone(reg, st, id, mutation.specs, id);
      }
      var c := ComputeCommit(st, id, g, node, out, next.value, mutation, key);
      CommitAddsOne(spawned.store, id, c);
      NextWaitAddsNone(w, CommitHop(spawned.store, id, c), id, g, next.value);
    }
  }

  lemma AdvanceAddsOne(reg: Registry, w: World, st: Store, id: string, g: GraphSpec, node: Node)
    requires id in st.instances
    ensures OneMore(st, AdvanceAfterCommit(reg, w, st, id, g, node).store, id)
  {
    hide CommitHop, WaitIfWaitNode, Resolve;
    CommitAddsOne(st, id,
                  TerminalCommit(st, id, node.nodeId, Failed, Some(st.instances[id].snapshot), NO_TRANSITION));
    var next := Resolve(reg.eval, g, node.nodeId, st.instances[id].snapshot);
    if next.Ok? {
      var moved := AdvanceNode(st, id, next.value, Running);
      NextWaitAddsNone(w, moved, id, g, next.value);
      if next.value in g.nodes {
        var t := g.nodes[next.value];
        CommitAddsOne(moved, id, TerminalCommit(moved, id, t.nodeId, TerminalStatus(t), None, ""));
      }
    }
  }

  lemma MutationAddsOne(reg: Registry, w: World, st: Store, id: string, g: GraphSpec, node: Node, mutation: Mutation,
          key: Key)
    requires id in st.instances
    ensures OneMore(st, ApplyMutation(reg, w, st, id, g, node, mutation, key).store, id)
  {
    hide CommitHop, CommitCompute, EnterWait;
    match mutation
    case WaitIntent(wait) => WaitAddsNone(w, st, id, node, wait);
    case FailIntent(trigger) =>
    case CompleteIntent(outcome) =>
      CommitAddsOne(st, id,
                    TerminalCommit(st, id, node.nodeId, if outcome == Failure then Failed else Completed, None, ""));
    case UpdateIntent(update) => CommitComputeAddsOne(reg, w, st, id, g, node, update, mutation, key);
    case SpawnIntent(specs) => CommitComputeAddsOne(reg, w, st, id, g, node, st.instances[id].snapshot, mutation, key);
    case NoIntent => CommitComputeAddsOne(reg, w, st, id, g, node, st.instances[id].snapshot, mutation, key);
  }

  lemma ComputeAddsOne(reg: Registry, w: World, st: Store, id: string, g: GraphSpec, node: Node)
    requires id in st.instances
    ensures OneMore(st, ProcessCompute(reg, w, st, id, g, node).store, id)
  {
    hide AdvanceAfterCommit, ApplyMutation;
    var rec, key := st.instances[id], HopKeyOf(st, id, node.nodeId);
    AdvanceAddsOne(reg, w, st, id, g, node);
    var started := CreateExecution(st, key, Execution(node.nodeId, rec.sequence, ExecutionRunning, 0));
    var answer := w.execute(id, node.unitId, rec.snapshot);
    if answer.Executed? && answer.mutation.Some? {
      MutationAddsOne(reg, w, started, id, g, node, answer.mutation.value, key);
    }
  }

  lemma JoinAddsOne(reg: Registry, w: World, st: Store, id: string, node: Node)
    requires id in st.instances
    ensures OneMore(st, ProcessJoin(reg, w, st, id, node).store, id)
  {
    hide CommitHop, CheckJoinBarriers, ResolveTransitions;
    CommitAddsOne(st, id,
                  TerminalCommit(st, id, node.nodeId, Failed, Some(st.instances[id].snapshot), NO_TRANSITION));
    var next := ResolveTransitions(reg.eval, node, st.instances[id].snapshot, None);
    if next.Ok? {
      CommitAddsOne(st, id, JoinCommit(st, id, node, next.value));
    }
  }

  /** On any store the turn of an instance that does not compensate is at most one hop. */
  lemma TurnIsOneHop(reg: Registry, w: World, st: Store, id: string)
    requires id in st.instances && st.instances[id].status != Compensating
    ensures OneMore(st, ProcessInstance(reg, w, st, id).store, id)
  {
    hide ProcessCompute, ProcessJoin, EnterWait, CommitHop;
    var rec := st.instances[id];
    var g := GetGraph(reg, rec.graph);
    if g.Ok? && rec.currentNode in g.value.nodes {
      var node := g.value.nodes[rec.currentNode];
      CommitAddsOne(st, id, TerminalCommit(st, id, node.nodeId, TerminalStatus(node), None, ""));
      WaitAddsNone(w, st, id, node, None);
      JoinAddsOne(reg, w, st, id, node);
      ComputeAddsOne(reg, w, st, id, g.value, node);
    }
  }

  // ---------- instances that compensate ----------

  function OkCount(calls: seq<CompensatorCall>): nat
  {
    if calls == [] then 0 else (if calls[0].ok then 1 else 0) + OkCount(calls[1..])
  }

  /** The finished compensation goes on to a terminal. */
  ghost predicate EndsAtTerminal(reg: Registry, g: GraphSpec, rec: Record)
  {
    exists t :: LeadsToTerminal(reg, g, rec.currentNode, rec.snapshot, t)
  }

  lemma FinishAddsTerminal(reg: Registry, st: Store, id: string, g: GraphSpec)
    requires ValidRegistry(reg) && id in st.instances && Sound(reg, st, id) && st.instances[id].status == Compensating
    requires GetGraph(reg, st.instances[id].graph) == Ok(g)
    ensures var s, rec := FinishCompensation(reg, st, id), st.instances[id];
            && id in s.store.instances && rec.journal <= s.store.instances[id].journal
            && |s.store.instances[id].journal| == |rec.journal| + if EndsAtTerminal(reg, g, rec) then 1 else 0
  {
    hide Sound, ValidRegistry, CommitHop, ResolveTransitions, LeadsToTerminal;
    var rec := st.instances[id];
    FinishEndsAs(reg, st, id, g);
    forall t: string
      ensures LeadsToTerminal(reg, g, rec.currentNode, rec.snapshot, t) <==>
                && rec.currentNode in g.nodes
                && ResolveTransitions(reg.eval, g.nodes[rec.currentNode], rec.snapshot, None) == Ok(t)
                && t in g.nodes && g.nodes[t].kind == Terminal
    {
      LeadingIsResolved(reg, g, rec.currentNode, rec.snapshot, t);
    }
    if rec.currentNode in g.nodes {
      var node := g.nodes[rec.currentNode];
      if node.transitions == [] {
        NoTransitionsNoTarget(reg, node, rec.snapshot);
      } else {
        var next := ResolveTransitions(reg.eval, node, rec.snapshot, None);
        if next.Ok? && next.value in g.nodes && g.nodes[next.value].kind == Terminal {
          assert LeadsToTerminal(reg, g, rec.currentNode, rec.snapshot, next.value);
          var t := g.nodes[next.value];
          EndingIsWritten(SetStatus(st, id, Compensated), id, t);
        }
      }
    }
  }

  /** A terminal commit that changes the status has been written. */
  lemma EndingIsWritten(st: Store, id: string, t: Node)
    requires id in st.instances && st.instances[id].status == Compensated
    ensures var rec, rec' := st.instances[id], CommitTerminal(st, id, t).store.instances[id];
            && rec.journal <= rec'.journal
            && |rec'.journal| == |rec.journal| + if rec'.status != Compensated then 1 else 0
  {
  }

  lemma OneFrameAdds(reg: Registry, w: World, st: Store, id: string)
    requires MidUnwinding(reg, st, id)
    ensures var s, rec := CompensateOneFrame(reg, w, st, id), st.instances[id];
            && id in s.store.instances && rec.journal <= s.store.instances[id].journal && st.calls <= s.store.calls
            && |s.store.instances[id].journal| == |rec.journal| + OkCount(s.store.calls[|st.calls|..])
            && (s.error.Some? ==> s.store.instances[id].stack == rec.stack)
  {
    hide Sound, Evolves, ValidRegistry, CallsSound, CompensateOneFrame, MaxAttempts;
    OneFrameUnfolds(reg, w, st, id);
    TopIsNew(reg, st, id);
  }

  /** What a run of the loop adds: one entry for each call that succeeds, and the terminal's. */
  ghost predicate LoopAdds(reg: Registry, g: GraphSpec, st: Store, s: Step, id: string)
  {
    && id in st.instances && id in s.store.instances && st.calls <= s.store.calls
    && var rec, rec' := st.instances[id], s.store.instances[id];
       && rec.journal <= rec'.journal
       && |rec'.journal| == |rec.journal| + OkCount(s.store.calls[|st.calls|..])
                            + if s.error.None? && EndsAtTerminal(reg, g, rec) then 1 else 0
  }

  lemma NothingAdded(reg: Registry, g: GraphSpec, st: Store, id: string)
    requires id in st.instances
    ensures LoopAdds(reg, g, st, Fail(st, FramesExceeded), id)
  {
    assert st.calls[|st.calls|..] == [];
  }

  lemma {:induction false} OkCountAdds(a: seq<CompensatorCall>, b: seq<CompensatorCall>)
    ensures OkCount(a + b) == OkCount(a) + OkCount(b)
  {
    if a == [] {
      assert a + b == b;
    } else {
      OkCountAdds(a[1..], b);
      assert (a + b)[1..] == a[1..] + b;
    }
  }

  lemma AddsOneMore(reg: Registry, g: GraphSpec, st: Store, st': Store, s: Step, id: string)
    requires id in st.instances && id in st'.instances && st.calls <= st'.calls
    requires var rec, rec' := st.instances[id], st'.instances[id];
             && rec.journal <= rec'.journal && |rec'.journal| == |rec.journal| + OkCount(st'.calls[|st.calls|..])
             && rec'.currentNode == rec.currentNode && rec'.snapshot == rec.snapshot
    requires LoopAdds(reg, g, st', s, id)
    ensures LoopAdds(reg, g, st, s, id)
  {
    hide LeadsToTerminal;
    var first, rest := st'.calls[|st.calls|..], s.store.calls[|st'.calls|..];
    OkCountAdds(first, rest);
    assert s.store.calls[|st.calls|..] == first + rest;
  }

  lemma {:induction false} LoopAddsEntries(reg: Registry, w: World, st: Store, id: string, g: GraphSpec, left: nat)
    requires Unwinding(reg, st, id) && st.instances[id].status == Compensating
    requires GetGraph(reg, st.instances[id].graph) == Ok(g)
    ensures var s := CompensationLoop(reg, w, st, id, left);
            LoopAdds(reg, g, st, s, id) && (s.error.None? || s.store.instances[id].status == Compensating
                                            || s.store.instances[id].stack != [])
    decreases left
  {
    hide Sound, Evolves, ValidRegistry, CallsSound, CompensateOneFrame, FinishCompensation, GetGraph, LeadsToTerminal,
         EndsAtTerminal;
    if left == 0 {
      NothingAdded(reg, g, st, id);
    } else if st.instances[id].stack == [] {
      FinishCompensationStep(reg, st, id);
      FinishAddsTerminal(reg, st, id, g);
      assert st.calls[|st.calls|..] == [];
    } else {
      CompensateOneFrameStep(reg, w, st, id);
      OneFrameAdds(reg, w, st, id);
      OneFrameStays(reg, w, st, id);
      var s := CompensateOneFrame(reg, w, st, id);
      if s.error.None? {
        LoopAddsEntries(reg, w, s.store, id, g, left - 1);
        AddsOneMore(reg, g, st, s.store, CompensationLoop(reg, w, s.store, id, left - 1), id);
      }
    }
  }

  // ---------- one tick ----------

  /** Has the compensation run to its end, not into an error? */
  predicate Finished(rec: Record)
  {
    rec.status != Compensating && rec.stack == []
  }

  /** A turn of a compensating instance adds one entry for each of its compensator calls that
      succeeded, and one more if it finishes and routing leads straight to a terminal. */
  lemma CompensatingTurn(reg: Registry, w: World, st: Store, id: string, g: GraphSpec)
    returns (made: seq<CompensatorCall>)
    requires ValidRegistry(reg) && Inv(reg, st) && id in st.instances && st.instances[id].status == Compensating
    requires GetGraph(reg, st.instances[id].graph) == Ok(g)
    ensures var s, rec := ProcessInstance(reg, w, st, id), st.instances[id];
            && id in s.store.instances && OwnCalls(s.store.calls, id) == OwnCalls(st.calls, id) + made
            && var rec' := s.store.instances[id];
               && rec.journal <= rec'.journal && s.store.calls == st.calls + made
               && |rec'.journal|
                  == |rec.journal| + OkCount(made) + if Finished(rec') && EndsAtTerminal(reg, g, rec) then 1 else 0
  {
    hide Inv, Sound, ValidRegistry, CallsSound, CompensationLoop, GetGraph, LeadsToTerminal, EndsAtTerminal, EndsAs;
    InvIsSound(reg, st, id);
    InvHasCalls(reg, st);
    TurnCalls(reg, w, st, id);
    LoopAddsEntries(reg, w, st, id, g, MAX_FRAMES);
    LoopEndsAs(reg, w, st, id, g, MAX_FRAMES);
    var s := ProcessInstance(reg, w, st, id);
    if s.error.None? {
      EndsAsIsEnd(reg, g, st.instances[id].currentNode, st.instances[id].snapshot, s.store.instances[id].status);
    }
    made := s.store.calls[|st.calls|..];
    OwnAppend(st.calls, s.store.calls, id);
  }

  lemma EndsAsIsEnd(reg: Registry, g: GraphSpec, nodeId: string, snap: Snapshot, status: Status)
    requires EndsAs(reg, g, nodeId, snap, status)
    ensures status != Compensating
  {
  }

  lemma OneMoreBetween(a: Store, b: Store, c: Store, d: Store, id: string)
    requires SameOwn(a, b, id) && OneMore(b, c, id) && SameOwn(c, d, id)
    ensures OneMore(a, d, id)
  {
  }

  lemma SameIsOneMore(st: Store, st': Store, id: string)
    requires SameOwn(st, st', id)
    ensures OneMore(st, st', id) && SameJournal(st, st', id)
  {
  }

  lemma TimeoutAddsOne(reg: Registry, st: Store, d: Due)
    requires d.entityId in st.instances
    ensures OneMore(st, ProcessTimeout(reg, st, d).store, d.entityId)
  {
    hide CommitHop, GetGraph;
    var target := d.waiting.onTimeoutTarget;
    var g := GetGraph(reg, st.instances[d.entityId].graph);
    if g.Ok? && target in g.value.nodes {
      CommitAddsOne(st, d.entityId, TimeoutCommit(st, d.entityId, target, TerminalStatus(g.value.nodes[target])));
    }
  }

  /** A tick is at most one hop for every instance that does not compensate, be it running, waiting or
      ended, and whatever the others do. */
  lemma TickIsOneHop(reg: Registry, calls: seq<Call>, w: World, st: Store, id: string)
    requires ValidRegistry(reg) && ValidCalls(calls) && st == Run(reg, calls) && ValidWorld(w)
    requires id in st.instances && st.instances[id].status != Compensating
    ensures OneMore(st, RunOnce(reg, w, st).store, id)
    ensures !Active(st.instances[id].status) ==> SameJournal(st, RunOnce(reg, w, st).store, id)
  {
    hide Inv, ValidRegistry, ValidWorld, RunFrom, RunOnce, ProcessInstance, ProcessTimeout, HasTurn, OneMore,
         SameJournal, SameExecutions;
    ReachableInv(reg, calls);
    var st', rec := RunOnce(reg, w, st).store, st.instances[id];
    if rec.status == Running {
      var at := TickReaches(reg, w, st, id);
      if HasTurn(reg, w, st, id) {
        TurnIsOneHop(reg, w, at, id);
        OneMoreBetween(st, at, ProcessInstance(reg, w, at, id).store, st', id);
      } else {
        SameIsOneMore(st, st', id);
      }
    } else if IsDue(rec, w.now) {
      var at := TickEndsWaits(reg, w, st, id);
      var d := Due(id, rec.waiting.value);
      TimeoutAddsOne(reg, at, d);
      OneMoreBetween(st, at, ProcessTimeout(reg, at, d).store, st', id);
    } else {
      IdlePasses(reg, w, st, id);
      SameIsOneMore(st, st', id);
    }
  }

  /** A wait gets its one entry exactly if it is over and its timeout is not void. */
  lemma WaitingTick(reg: Registry, calls: seq<Call>, w: World, st: Store, id: string, rec: Record, g: GraphSpec)
    requires Reaches(reg, calls, st, id, rec, g) && ValidWorld(w) && rec.status == Waiting
    ensures var st' := RunOnce(reg, w, st).store;
            && id in st'.instances
            && (|st'.instances[id].journal| == |rec.journal| + 1 <==>
                  Overdue(rec, w.now) && !TimeoutIsVoid(g, rec, rec.waiting.value.onTimeoutTarget))
            && (st'.instances[id] == rec <==> |st'.instances[id].journal| == |rec.journal|)
  {
    hide ValidRegistry, ValidWorld, RunFrom, RunOnce, TimeoutIsVoid, Inv, SameExecutions;
    ReachableInv(reg, calls);
    TickIsOneHop(reg, calls, w, st, id);
    if Overdue(rec, w.now) {
      TickEndsDueWaits(reg, calls, w, st, id, rec, g);
      var j' := RunOnce(reg, w, st).store.instances[id].journal;
      assert |j'| == |rec.journal| ==> j' == rec.journal;
    } else {
      IdlePasses(reg, w, st, id);
    }
  }

  /** What a tick adds to a compensating instance. */
  ghost predicate CompensatingAdds(reg: Registry, g: GraphSpec, st: Store, st': Store, id: string,
          made: seq<CompensatorCall>)
  {
    && id in st.instances && id in st'.instances && OwnCalls(st'.calls, id) == OwnCalls(st.calls, id) + made
    && var rec, rec' := st.instances[id], st'.instances[id];
       && rec.journal <= rec'.journal
       && |rec'.journal|
          == |rec.journal| + OkCount(made) + if Finished(rec') && EndsAtTerminal(reg, g, rec) then 1 else 0
  }

  /** A compensating instance gets one entry for each of its compensator calls in the tick that
      succeeded, and one for the terminal if the compensation finishes and leads straight to one. */
  lemma CompensatingTick(reg: Registry, calls: seq<Call>, w: World, st: Store, id: string, rec: Record, g: GraphSpec)
    returns (made: seq<CompensatorCall>)
    requires Reaches(reg, calls, st, id, rec, g) && ValidWorld(w) && rec.status == Compensating
    ensures CompensatingAdds(reg, g, st, RunOnce(reg, w, st).store, id, made)
    ensures !HasTurn(reg, w, st, id) ==> made == [] && RunOnce(reg, w, st).store.instances[id] == rec
  {
    hide Inv, ValidRegistry, ValidWorld, RunFrom, RunOnce, ProcessInstance, HasTurn, SameExecutions, GetGraph,
         EndsAtTerminal;
    ReachableInv(reg, calls);
    var at := TickReaches(reg, w, st, id);
    made := [];
    if HasTurn(reg, w, st, id) {
      made := CompensatingTurn(reg, w, at, id, g);
    }
  }

  /** With registered and successful compensators a turn undoes h frames with exactly h entries if there
      are at most 99, and with exactly 100 of taller stacks.  So it is at most one hop exactly if there is
      no frame, or one and no terminal behind it. */
  lemma UnwindingTick(reg: Registry, calls: seq<Call>, w: World, st: Store, id: string, rec: Record, g: GraphSpec)
    requires Reaches(reg, calls, st, id, rec, g) && ValidWorld(w) && rec.status == Compensating
    requires AllSucceed(w, id) && Registered(reg, rec.stack) && HasTurn(reg, w, st, id)
    ensures var st', h := RunOnce(reg, w, st).store, |rec.stack|;
            && id in st'.instances && rec.journal <= st'.instances[id].journal
            && |st'.instances[id].journal| - |rec.journal|
               == (if h <= 99 then h else 100) + (if h <= 99 && EndsAtTerminal(reg, g, rec) then 1 else 0)
            && (OneMore(st, st', id) <==> h == 0 || (h == 1 && !EndsAtTerminal(reg, g, rec)))
  {
    hide Inv, ValidRegistry, ValidWorld, RunFrom, RunOnce, ProcessInstance, HasTurn, SameExecutions, GetGraph,
         EndsAtTerminal, EndsAs;
    ReachableInv(reg, calls);
    var at := TickReaches(reg, w, st, id);
    var made := CompensatingTurn(reg, w, at, id, g);
    TurnUndoes(reg, w, at, id, g);
    assert ProcessInstance(reg, w, at, id).store.calls[|at.calls|..] == made;
    AllOk(made);
  }

  lemma {:induction false} AllOk(made: seq<CompensatorCall>)
    requires forall i :: 0 <= i < |made| ==> made[i].ok
    ensures OkCount(made) == |made|
  {
    if made != [] {
      AllOk(made[1..]);
    }
  }
}
