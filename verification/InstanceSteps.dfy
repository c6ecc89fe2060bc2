/** Processing one instance keeps the store invariant. */
module InstanceSteps {
  import opened Wrappers
  import opened Entities
  import opened Graphs
  import opened Routing
  import opened Idempotency
  import opened Lines
  import opened Registries
  import opened Scheduling
  import opened History
  import opened Preservation
  import opened Steps

  // ---------- compute, join, terminal, wait ----------

  /** A running instance never finds its own hop committed: the resume branch of the scheduler is
      never taken. */
  lemma NeverResumed(reg: Registry, st: Store, id: string, g: GraphSpec, node: Node)
    requires At(reg, st, id, g, node) && Active(st.instances[id].status)
    ensures var key := HopKeyOf(st, id, node.nodeId);
            key in st.executions ==> st.executions[key].status != ExecutionCommitted
  {
    var rec, key := st.instances[id], HopKeyOf(st, id, node.nodeId);
    GraphIsGood(reg, rec.graph);
    AheadIsNew(g, rec.journal, rec.currentNode);
    if key in st.executions {
      assert Owned(id, key);
      assert ExecutionSound(reg, g, true, rec.journal, rec.currentNode, key, st.executions[key]);
    }
  }

  /** Neither its execution is committed nor is it in the journal, whatever kind of hop it is. */
  lemma HopIsFresh(reg: Registry, st: Store, id: string, g: GraphSpec, node: Node)
    requires At(reg, st, id, g, node) && Active(st.instances[id].status)
    ensures var key := HopKey(id, st.instances[id].currentNode, st.instances[id].sequence);
            && (key in st.executions ==> st.executions[key].status != ExecutionCommitted)
            && !IsJournaled(st.instances[id].journal, key, NodeCommitted)
            && !IsJournaled(st.instances[id].journal, key, SpawnedChildren)
            && !IsJournaled(st.instances[id].journal, key, JoinCommitted)
  {
    hide Sound, ValidRegistry, Trail, WellFormed, IsJournaled;
    var rec := st.instances[id];
    NeverResumed(reg, st, id, g, node);
    ActiveFacts(reg, st, id);
    GraphIsGood(reg, rec.graph);
    AheadIsNew(g, rec.journal, rec.currentNode);
    HopIsNew(id, rec.journal, st.signals, rec.currentNode, rec.sequence, NodeCommitted);
    HopIsNew(id, rec.journal, st.signals, rec.currentNode, rec.sequence, SpawnedChildren);
    HopIsNew(id, rec.journal, st.signals, rec.currentNode, rec.sequence, JoinCommitted);
  }

  lemma StillAt(reg: Registry, st: Store, st': Store, id: string, g: GraphSpec, node: Node)
    requires At(reg, st, id, g, node) && id in st'.instances && st'.instances[id] == st.instances[id]
    requires Sound(reg, st', id)
    ensures At(reg, st', id, g, node)
  {
  }

  lemma HandleExecuteErrorStep(reg: Registry, st: Store, id: string, g: GraphSpec, node: Node)
    requires At(reg, st, id, g, node) && HopKeyOf(st, id, node.nodeId) in st.executions
    ensures StepKeeps(reg, st, HandleExecuteError(reg, st, node, HopKeyOf(st, id, node.nodeId)), id)
  {
    hide Sound, Evolves, ValidRegistry;
    var key := HopKeyOf(st, id, node.nodeId);
    EvolvesRefl(reg, st, id);
    if st.executions[key].attempt < MaxAttempts(reg, node.unitId) {
      AttemptStep(reg, st, id, key);
    }
  }

  lemma ApplyMutationStep(reg: Registry, w: World, st: Store, id: string, g: GraphSpec, node: Node, mutation: Mutation)
    requires At(reg, st, id, g, node) && st.instances[id].status == Running && Computing(node)
    ensures StepKeeps(reg, st, ApplyMutation(reg, w, st, id, g, node, mutation, HopKeyOf(st, id, node.nodeId)), id)
  {
    hide Sound, Evolves, ValidRegistry, CommitHop, CommitCompute;
    match mutation
    case WaitIntent(wait) => EnterWaitStep(reg, w, st, id, node, wait);
    case FailIntent(trigger) => StatusStep(reg, st, id, if trigger then Compensating else Failed);
    case CompleteIntent(outcome) =>
      CommitTerminalStep(reg, st, id, g, node, if outcome == Failure then Failed else Completed);
    case UpdateIntent(update) => CommitComputeStep(reg, w, st, id, g, node, update, mutation);
    case _ => CommitComputeStep(reg, w, st, id, g, node, st.instances[id].snapshot, mutation);
  }

  lemma ProcessComputeStep(reg: Registry, w: World, st: Store, id: string, g: GraphSpec, node: Node)
    requires At(reg, st, id, g, node) && st.instances[id].status == Running && Computing(node)
    ensures StepKeeps(reg, st, ProcessCompute(reg, w, st, id, g, node), id)
  {
    hide Sound, Evolves, ValidRegistry, ApplyMutation, AdvanceAfterCommit;
    var rec, key := st.instances[id], HopKeyOf(st, id, node.nodeId);
    EvolvesRefl(reg, st, id);
    NeverResumed(reg, st, id, g, node);
    var started := CreateExecution(st, key, Execution(node.nodeId, rec.sequence, ExecutionRunning, 0));
    StartExecutionStep(reg, st, id, key, Execution(node.nodeId, rec.sequence, ExecutionRunning, 0));
    StillAt(reg, st, started, id, g, node);
    var result := w.execute(id, node.unitId, rec.snapshot);
    if result == ExecuteFailed {
      HandleExecuteErrorStep(reg, started, id, g, node);
      EvolvesTrans(reg, st, started, HandleExecuteError(reg, started, node, key).store, id);
    } else if result.mutation.Some? {
      ApplyMutationStep(reg, w, started, id, g, node, result.mutation.value);
      EvolvesTrans(reg, st, started, ApplyMutation(reg, w, started, id, g, node, result.mutation.value, key).store, id);
    }
  }

  /** A join commit is a forward commit along an edge. */
  lemma JoinCommitStep(reg: Registry, st: Store, id: string, g: GraphSpec, node: Node, next: string)
    requires At(reg, st, id, g, node) && st.instances[id].status == Running && Edge(g, node.nodeId, next)
    ensures StepKeeps(reg, st, Done(CommitHop(st, id, JoinCommit(st, id, node, next))), id)
    ensures CommitHop(st, id, JoinCommit(st, id, node, next)).instances[id]
            == Committed(st.instances[id], JoinCommit(st, id, node, next))
  {
    hide Sound, Evolves, ValidRegistry;
    var rec := st.instances[id];
    var c := JoinCommit(st, id, node, next);
    JoinCommitFits(reg, st, id, g, node, next);
    GraphIsGood(reg, rec.graph);
    MovingCommit(reg, st, id, g, c);
    CommitEvolves(reg, st, id, c);
  }

  lemma JoinCommitFits(reg: Registry, st: Store, id: string, g: GraphSpec, node: Node, next: string)
    requires At(reg, st, id, g, node) && st.instances[id].status == Running
    ensures var rec, c := st.instances[id], JoinCommit(st, id, node, next);
            ForwardCommit(g, id, rec, c) && ForwardEntry(id, NewEntry(rec, c), st.signals)
            && Active(Committed(rec, c).status)
  {
    hide Sound, ValidRegistry;
    var rec := st.instances[id];
    var c := JoinCommit(st, id, node, next);
    ActiveFacts(reg, st, id);
    GraphIsGood(reg, rec.graph);
    AheadIsNew(g, rec.journal, rec.currentNode);
    HopIsNew(id, rec.journal, st.signals, node.nodeId, rec.sequence, JoinCommitted);
    CommittedFields(rec, c);
    assert NewEntry(rec, c).outputSequence == rec.sequence + 1;
  }

  lemma ProcessJoinStep(reg: Registry, w: World, st: Store, id: string, g: GraphSpec, node: Node)
    requires At(reg, st, id, g, node) && st.instances[id].status == Running
    ensures StepKeeps(reg, st, ProcessJoin(reg, w, st, id, node), id)
  {
    hide Sound, Evolves, ValidRegistry, CommitHop, CheckJoinBarriers;
    EvolvesRefl(reg, st, id);
    StatusStep(reg, st, id, Failed);
    var next := ResolveTransitions(reg.eval, node, st.instances[id].snapshot, None);
    if next == Err(NoTransition) {
      FailNoTransitionStep(reg, st, id, g, node);
    } else if next.Ok? {
      ResolvedEdge(reg, g, node, st.instances[id].snapshot, None);
      JoinCommitStep(reg, st, id, g, node, next.value);
    }
  }

  // ---------- compensation ----------

  /** The state of an instance that is being compensated. */
  ghost predicate Unwinding(reg: Registry, st: Store, id: string)
  {
    ValidRegistry(reg) && id in st.instances && Sound(reg, st, id) && CallsSound(reg, st)
  }

  ghost predicate UnwindKeeps(reg: Registry, st: Store, s: Step, id: string)
  {
    && id in st.instances && id in s.store.instances
    && Sound(reg, s.store, id) && Evolves(reg, st, s.store, id) && CallsSound(reg, s.store)
  }

  function TopFrame(st: Store, id: string): Frame
    requires id in st.instances && st.instances[id].stack != []
  {
    st.instances[id].stack[|st.instances[id].stack| - 1]
  }

  /** The store after the execution of the top frame's compensation was opened. */
  function Opened(st: Store, id: string): (r: Store)
    requires id in st.instances && st.instances[id].stack != []
    ensures CompensationKeyOf(id, TopFrame(st, id)) in r.executions && r.instances == st.instances
  {
    var f := TopFrame(st, id);
    CreateExecution(st, CompensationKeyOf(id, f), Execution(f.nodeId, f.forwardSequence, ExecutionRunning, 0))
  }

  /** The call that the next iteration makes. */
  function NextCall(w: World, st: Store, id: string): CompensatorCall
    requires id in st.instances && st.instances[id].stack != []
  {
    var f := TopFrame(st, id);
    var key := CompensationKeyOf(id, f);
    var attempt := Opened(st, id).executions[key].attempt;
    var payload := CompensationPayload(st.instances[id], f);
    CompensatorCall(id, key, f, attempt, payload, w.compensate(id, f, attempt, payload))
  }

  function Called(w: World, st: Store, id: string): (r: Store)
    requires id in st.instances && st.instances[id].stack != []
    ensures CompensationKeyOf(id, TopFrame(st, id)) in r.executions && r.instances == st.instances
  {
    Opened(st, id).(calls := st.calls + [NextCall(w, st, id)])
  }

  /** An instance in the middle of its compensation. */
  ghost predicate MidUnwinding(reg: Registry, st: Store, id: string)
  {
    && id in st.instances && st.instances[id].stack != [] && st.instances[id].status == Compensating
    && Unwinding(reg, st, id)
  }

  lemma TopIsNew(reg: Registry, st: Store, id: string)
    requires id in st.instances && st.instances[id].stack != [] && Sound(reg, st, id)
    ensures var key := CompensationKeyOf(id, TopFrame(st, id));
            && !IsJournaled(st.instances[id].journal, key, CompensationCommitted)
            && (key in st.executions ==> st.executions[key].status != ExecutionCommitted)
  {
    UndoIsNew(reg, GraphAt(reg, st, id).value, id, st.instances[id], st.executions, st.signals);
  }

  lemma OpenedStep(reg: Registry, st: Store, id: string)
    requires MidUnwinding(reg, st, id)
    ensures Sound(reg, Opened(st, id), id) && Evolves(reg, st, Opened(st, id), id) && CallsSound(reg, Opened(st, id))
    ensures Opened(st, id).calls == st.calls
    ensures var key := CompensationKeyOf(id, TopFrame(st, id));
            && !IsJournaled(st.instances[id].journal, key, CompensationCommitted)
            && Opened(st, id).executions[key].status != ExecutionCommitted
            && 0 <= Opened(st, id).executions[key].attempt <= MaxAttempts(reg, TopFrame(st, id).compensatorUnitId)
  {
    hide Sound, Evolves, ValidRegistry, CallsSound;
    var f := TopFrame(st, id);
    var key := CompensationKeyOf(id, f);
    TopIsNew(reg, st, id);
    StartExecutionStep(reg, st, id, key, Execution(f.nodeId, f.forwardSequence, ExecutionRunning, 0));
    EvolvesKeepsCalls(reg, st, Opened(st, id), id);
    ExecutionFacts(reg, Opened(st, id), id, key);
  }

  /** The next iteration, unfolded: on a sound store no branch but these is taken. */
  lemma OneFrameUnfolds(reg: Registry, w: World, st: Store, id: string)
    requires MidUnwinding(reg, st, id)
    ensures var f, called := TopFrame(st, id), Called(w, st, id);
            CompensateOneFrame(reg, w, st, id) ==
              if f.compensatorUnitId !in reg.compensators then Fail(Opened(st, id), CompensatorNotFound)
              else if NextCall(w, st, id).ok then Done(CommitHop(called, id, CompensationCommit(called, id, f)))
              else HandleCompensationError(reg, called, id, f, CompensationKeyOf(id, f))
  {
    hide Sound, Evolves, ValidRegistry, CommitHop, CallsSound;
    OpenedStep(reg, st, id);
  }

  /** The new call is apart from all earlier ones. */
  lemma NextCallIsNew(reg: Registry, w: World, st: Store, id: string)
    requires MidUnwinding(reg, st, id)
    ensures CallsApart(st.calls + [NextCall(w, st, id)])
  {
    hide Sound, Evolves, ValidRegistry;
    OpenedStep(reg, st, id);
    var c := NextCall(w, st, id);
    forall i | 0 <= i < |st.calls|
      ensures st.calls[i].key == c.key ==> st.calls[i].attempt != c.attempt && !st.calls[i].ok
    {
      assert CallSound(reg, Opened(st, id), st.calls[i]);
      if st.calls[i].key == c.key {
        CompensationKeyInjective(id, c.frame.forwardSequence, c.frame.compensatorUnitId,
          st.calls[i].entityId, st.calls[i].frame.forwardSequence, st.calls[i].frame.compensatorUnitId);
      }
    }
  }

  /** Once the called store has moved on, all calls are sound, the new one included. */
  lemma CallSettles(reg: Registry, w: World, st: Store, id: string, st': Store)
    requires MidUnwinding(reg, st, id)
    requires Evolves(reg, Opened(st, id), st', id) && st'.calls == Called(w, st, id).calls
    requires CallSound(reg, st', NextCall(w, st, id))
    ensures CallsSound(reg, st')
  {
    hide Sound, Evolves, ValidRegistry;
    OpenedStep(reg, st, id);
    NextCallIsNew(reg, w, st, id);
    forall i | 0 <= i < |st'.calls|
      ensures CallSound(reg, st', st'.calls[i])
    {
      if i < |st.calls| {
        assert CallSound(reg, Opened(st, id), st.calls[i]);
        EvolvesKeepsCall(reg, Opened(st, id), st', id, st.calls[i]);
      }
    }
  }

  lemma CallsDoNotMatter(reg: Registry, st: Store, id: string, calls: seq<CompensatorCall>)
    requires id in st.instances && Sound(reg, st, id)
    ensures Sound(reg, st.(calls := calls), id) && Evolves(reg, st, st.(calls := calls), id)
  {
  }

  lemma UndoCommitSound(reg: Registry, st: Store, id: string, c: HopCommit)
    requires id in st.instances && st.instances[id].status == Compensating && st.instances[id].stack != []
    requires Sound(reg, st, id) && c == CompensationCommit(st, id, TopFrame(st, id))
    ensures var st' := CommitHop(st, id, c);
            && Sound(reg, st', id) && Evolves(reg, st, st', id)
            && st'.instances[id] == Committed(st.instances[id], c)
            && st'.executions == MarkCommitted(st.executions, c.key) && st'.calls == st.calls
            && st'.instances[id].stack == st.instances[id].stack[..|st.instances[id].stack| - 1]
            && st'.instances[id].status == Compensating
  {
    var g := GraphAt(reg, st, id).value;
    UndoIsNew(reg, g, id, st.instances[id], st.executions, st.signals);
    UndoCommitKeeps(reg, g, id, st.instances[id], c, st.executions, st.signals);
    CommittedFields(st.instances[id], c);
    CommitEvolves(reg, st, id, c);
  }

  /** A successful call: the frame is popped and its compensation journaled. */
  lemma UndoneStep(reg: Registry, w: World, st: Store, id: string)
    requires MidUnwinding(reg, st, id)
    ensures var rec := st.instances[id];
            var called := Called(w, st, id);
            var c := CompensationCommit(called, id, TopFrame(st, id));
            var st' := CommitHop(called, id, c);
            && UnwindKeeps(reg, st, Done(st'), id) && st'.instances[id] == Committed(rec, c)
            && st'.instances[id].stack == rec.stack[..|rec.stack| - 1] && st'.instances[id].status == Compensating
            && st'.calls == called.calls && st'.executions == MarkCommitted(called.executions, c.key)
  {
    hide Sound, Evolves, ValidRegistry, CallsSound, CommitHop;
    var called := Called(w, st, id);
    var c := CompensationCommit(called, id, TopFrame(st, id));
    var st' := CommitHop(called, id, c);
    OpenedStep(reg, st, id);
    CallsDoNotMatter(reg, Opened(st, id), id, called.calls);
    UndoCommitSound(reg, called, id, c);
    EvolvesTrans(reg, Opened(st, id), called, st', id);
    EvolvesTrans(reg, st, Opened(st, id), st', id);
    assert CallSound(reg, st', NextCall(w, st, id));
    CallSettles(reg, w, st, id, st');
  }

  /** A failed call: one more attempt is noted, or the instance fails. */
  lemma UndoFailedStep(reg: Registry, w: World, st: Store, id: string)
    requires MidUnwinding(reg, st, id) && !NextCall(w, st, id).ok
    ensures var s := HandleCompensationError(reg, Called(w, st, id), id, TopFrame(st, id),
                                         CompensationKeyOf(id, TopFrame(st, id)));
            && UnwindKeeps(reg, st, s, id)
            && (s.error.None? ==> s.store.instances == st.instances)
            && (s.error.Some? ==> s.store.instances[id].status == Failed)
  {
    hide Sound, Evolves, ValidRegistry, CallsSound;
    var f, called := TopFrame(st, id), Called(w, st, id);
    var key := CompensationKeyOf(id, f);
    var s := HandleCompensationError(reg, called, id, f, key);
    OpenedStep(reg, st, id);
    CallsDoNotMatter(reg, Opened(st, id), id, called.calls);
    if called.executions[key].attempt >= MaxAttempts(reg, f.compensatorUnitId) {
      StatusStep(reg, called, id, Failed);
    } else {
      AttemptStep(reg, called, id, key);
    }
    EvolvesTrans(reg, Opened(st, id), called, s.store, id);
    EvolvesTrans(reg, st, Opened(st, id), s.store, id);
    assert CallSound(reg, s.store, NextCall(w, st, id));
    CallSettles(reg, w, st, id, s.store);
  }

  lemma CompensateOneFrameStep(reg: Registry, w: World, st: Store, id: string)
    requires MidUnwinding(reg, st, id)
    ensures var s := CompensateOneFrame(reg, w, st, id);
            && UnwindKeeps(reg, st, s, id)
            && (s.error.None? ==> s.store.instances[id].status == Compensating)
  {
    hide Sound, Evolves, ValidRegistry, CommitHop, CallsSound, HandleCompensationError, CompensateOneFrame;
    OneFrameUnfolds(reg, w, st, id);
    OpenedStep(reg, st, id);
    if NextCall(w, st, id).ok {
      UndoneStep(reg, w, st, id);
    } else {
      UndoFailedStep(reg, w, st, id);
    }
  }

  lemma FinishCompensationStep(reg: Registry, st: Store, id: string)
    requires ValidRegistry(reg) && id in st.instances && Sound(reg, st, id) && st.instances[id].status == Compensating
    ensures StepKeeps(reg, st, FinishCompensation(reg, st, id), id)
    ensures FinishCompensation(reg, st, id).store.instances[id].status in {Compensated, Completed, Failed}
    ensures FinishCompensation(reg, st, id).error.None?
  {
    hide Sound, Evolves, ValidRegistry, CommitHop, ResolveTransitions;
    var finished := SetStatus(st, id, Compensated);
    StatusStep(reg, st, id, Compensated);
    assert GraphAt(reg, st, id).Ok? by {
      ActiveFacts(reg, st, id);
    }
    var rec, g := st.instances[id], GraphAt(reg, st, id).value;
    if rec.currentNode in g.nodes && g.nodes[rec.currentNode].transitions != [] {
      var next := ResolveTransitions(reg.eval, g.nodes[rec.currentNode], rec.snapshot, None);
      GraphIsGood(reg, rec.graph);
      if next.Ok? && next.value in g.nodes {
        ResolvedEdge(reg, g, g.nodes[rec.currentNode], rec.snapshot, None);
        EndAfterUnwinding(reg, st, id, g, g.nodes[next.value]);
        EvolvesTrans(reg, st, finished, CommitTerminal(finished, id, g.nodes[next.value]).store, id);
      }
    }
  }

  /** The terminal that follows a finished compensation is new on the trail. */
  lemma EndAfterUnwinding(reg: Registry, st: Store, id: string, g: GraphSpec, terminal: Node)
    requires ValidRegistry(reg) && id in st.instances && Sound(reg, st, id) && st.instances[id].status == Compensating
    requires GraphAt(reg, st, id) == Ok(g) && Edge(g, st.instances[id].currentNode, terminal.nodeId)
    requires terminal.nodeId in g.nodes
    ensures var finished := SetStatus(st, id, Compensated);
            && StepKeeps(reg, finished, CommitTerminal(finished, id, terminal), id)
            && CommitTerminal(finished, id, terminal).store.instances[id].status == TerminalStatus(terminal)
  {
    hide Sound, Evolves, ValidRegistry;
    var rec := st.instances[id];
    ActiveFacts(reg, st, id);
    GraphIsGood(reg, rec.graph);
    AheadIsNew(g, rec.journal, rec.currentNode);
    StatusStep(reg, st, id, Compensated);
    TerminalCommitStep(reg, SetStatus(st, id, Compensated), id, g, terminal.nodeId, TerminalStatus(terminal), None, "");
  }

  lemma {:induction false} CompensationLoopStep(reg: Registry, w: World, st: Store, id: string, left: nat)
    requires Unwinding(reg, st, id) && st.instances[id].status == Compensating
    ensures UnwindKeeps(reg, st, CompensationLoop(reg, w, st, id, left), id)
    decreases left
  {
    hide Sound, Evolves, ValidRegistry, CallsSound, CompensateOneFrame, FinishCompensation;
    EvolvesRefl(reg, st, id);
    if left > 0 {
      if st.instances[id].stack == [] {
        FinishCompensationStep(reg, st, id);
        EvolvesKeepsCalls(reg, st, FinishCompensation(reg, st, id).store, id);
      } else {
        CompensateOneFrameStep(reg, w, st, id);
        var s := CompensateOneFrame(reg, w, st, id);
        if s.error.None? {
          CompensationLoopStep(reg, w, s.store, id, left - 1);
          EvolvesTrans(reg, st, s.store, CompensationLoop(reg, w, s.store, id, left - 1).store, id);
        }
      }
    }
  }

  // ---------- one instance ----------

  lemma ProcessRunningStep(reg: Registry, w: World, st: Store, id: string)
    requires ValidRegistry(reg) && id in st.instances && Sound(reg, st, id) && st.instances[id].status == Running
    ensures StepKeeps(reg, st, ProcessInstance(reg, w, st, id), id)
  {
    hide Sound, Evolves, ValidRegistry, ProcessCompute, ProcessJoin, CommitHop, OnPath, ForwardEntries, Trail, Undone;
    var rec := st.instances[id];
    EvolvesRefl(reg, st, id);
    ActiveFacts(reg, st, id);
    var g := GraphAt(reg, st, id).value;
    GraphIsGood(reg, rec.graph);
    var node := g.nodes[rec.currentNode];
    assert At(reg, st, id, g, node);
    match node.kind
    case Terminal => CommitTerminalStep(reg, st, id, g, node, TerminalStatus(node));
    case Wait => EnterWaitStep(reg, w, st, id, node, None);
    case Join => ProcessJoinStep(reg, w, st, id, g, node);
    case _ => ProcessComputeStep(reg, w, st, id, g, node);
  }

  /** Processing a runnable instance keeps the invariant and touches nothing else. */
  lemma ProcessInstanceStep(reg: Registry, w: World, st: Store, id: string)
    requires ValidRegistry(reg) && Inv(reg, st) && id in st.instances
    requires st.instances[id].status == Running || st.instances[id].status == Compensating
    ensures var s := ProcessInstance(reg, w, st, id); Inv(reg, s.store) && Evolves(reg, st, s.store, id)
  {
    hide Sound, Evolves, ValidRegistry, CallsSound;
    assert Sound(reg, st, id);
    var s := ProcessInstance(reg, w, st, id);
    if st.instances[id].status == Running {
      ProcessRunningStep(reg, w, st, id);
      EvolvesKeepsInv(reg, st, s.store, id);
    } else {
      CompensationLoopStep(reg, w, st, id, MAX_FRAMES);
      EvolvesKeepsRecords(reg, st, s.store, id);
    }
  }
}
