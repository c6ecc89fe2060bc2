/** Why a drain ends: every tick that the instance survives without an error brings it closer to the
    end of an acyclic graph. */
module DrainBudget {
  import opened Wrappers
  import opened Entities
  import opened Graphs
  import opened Routing
  import opened Lines
  import opened Registries
  import opened Scheduling
  import opened History
  import opened Preservation
  import opened Steps
  import opened InstanceSteps
  import opened Effects
  import opened Runs
  import opened Ticks
  import opened Draining

  // ---------- one turn ----------

  function OwnAttempt(st: Store, id: string): int
    requires id in st.instances
  {
    var key := HopKeyOf(st, id, st.instances[id].currentNode);
    if key in st.executions then st.executions[key].attempt else 0
  }

  /** How a turn without error moves a running instance. */
  ghost predicate Moves(w: World, st: Store, st': Store, id: string, unitId: string)
  {
    && id in st.instances && id in st'.instances
    && var rec, rec' := st.instances[id], st'.instances[id];
       || DrainDone(rec'.status)
       || rec'.status == Compensating
       || |Trail(rec'.journal)| == |Trail(rec.journal)| + 1
       || (rec' == rec && OwnAttempt(st', id) == OwnAttempt(st, id) + 1
           && w.execute(id, unitId, rec.snapshot) == ExecuteFailed)
  }

  lemma CommitComputeMoves(reg: Registry, w: World, st: Store, id: string, g: GraphSpec, node: Node, snap: Snapshot,
          mutation: Mutation)
    requires At(reg, st, id, g, node) && st.instances[id].status == Running && Computing(node)
    ensures var s := CommitCompute(reg, w, st, id, g, node, snap, mutation, HopKeyOf(st, id, node.nodeId));
            s.error.None? ==> Moves(w, st, s.store, id, node.unitId)
  {
    hide Sound, Evolves, ValidRegistry, CommitHop, WaitIfWaitNode, SpawnAll, ResolveTransitions, CheckOutput, Trail;
    var rec := st.instances[id];
    var out := snap.(sequence := rec.sequence + 1);
    var next := Resolve(reg.eval, g, node.nodeId, out);
    if next == Err(NoTransition) {
      FailNoTransitionStep(reg, st, id, g, node);
    } else if next.Ok? {
      ResolvedEdge(reg, g, node, out, None);
      EvolvesRefl(reg, st, id);
      if mutation.SpawnIntent? {
        SpawnAllStep(reg, st, id, mutation.specs);
        CommitAndWait(reg, w, st, SpawnAll(reg, st, id, mutation.specs).store, id, g, node, out, next.value, mutation);
      } else {
        CommitAndWait(reg, w, st, st, id, g, node, out, next.value, mutation);
      }
    }
  }

  lemma MutationMoves(reg: Registry, w: World, st: Store, id: string, g: GraphSpec, node: Node, mutation: Mutation)
    requires At(reg, st, id, g, node) && st.instances[id].status == Running && Computing(node)
    ensures var s := ApplyMutation(reg, w, st, id, g, node, mutation, HopKeyOf(st, id, node.nodeId));
            s.error.None? ==> Moves(w, st, s.store, id, node.unitId)
  {
    hide Sound, Evolves, ValidRegistry, CommitHop, CommitCompute, Trail;
    match mutation
    case WaitIntent(wait) => EnterWaitStep(reg, w, st, id, node, wait);
    case FailIntent(trigger) => StatusStep(reg, st, id, if trigger then Compensating else Failed);
    case CompleteIntent(outcome) =>
      CommitTerminalStep(reg, st, id, g, node, if outcome == Failure then Failed else Completed);
    case UpdateIntent(update) => CommitComputeMoves(reg, w, st, id, g, node, update, mutation);
    case _ => CommitComputeMoves(reg, w, st, id, g, node, st.instances[id].snapshot, mutation);
  }

  lemma ComputeMoves(reg: Registry, w: World, st: Store, id: string, g: GraphSpec, node: Node)
    requires At(reg, st, id, g, node) && st.instances[id].status == Running && Computing(node)
    ensures var s := ProcessCompute(reg, w, st, id, g, node);
            s.error.None? ==> Moves(w, st, s.store, id, node.unitId)
  {
    hide Sound, Evolves, ValidRegistry, ApplyMutation, AdvanceAfterCommit, Trail;
    var rec, key := st.instances[id], HopKeyOf(st, id, node.nodeId);
    NeverResumed(reg, st, id, g, node);
    var started := CreateExecution(st, key, Execution(node.nodeId, rec.sequence, ExecutionRunning, 0));
    StartExecutionStep(reg, st, id, key, Execution(node.nodeId, rec.sequence, ExecutionRunning, 0));
    StillAt(reg, st, started, id, g, node);
    var result := w.execute(id, node.unitId, rec.snapshot);
    if result.Executed? && result.mutation.Some? {
      MutationMoves(reg, w, started, id, g, node, result.mutation.value);
    }
  }

  lemma RunningMoves(reg: Registry, w: World, st: Store, id: string, g: GraphSpec)
    requires ValidRegistry(reg) && id in st.instances && Sound(reg, st, id) && st.instances[id].status == Running
    requires GraphAt(reg, st, id) == Ok(g) && st.instances[id].currentNode in g.nodes
    requires g.nodes[st.instances[id].currentNode].kind != Join
    ensures var s := ProcessInstance(reg, w, st, id);
            s.error.None? ==> Moves(w, st, s.store, id, g.nodes[st.instances[id].currentNode].unitId)
  {
    hide Sound, Evolves, ValidRegistry, ProcessCompute, CommitHop, Trail;
    var rec := st.instances[id];
    GraphIsGood(reg, rec.graph);
    var node := g.nodes[rec.currentNode];
    assert At(reg, st, id, g, node);
    match node.kind
    case Terminal => CommitTerminalStep(reg, st, id, g, node, TerminalStatus(node));
    case Wait => EnterWaitStep(reg, w, st, id, node, None);
    case Join =>
    case _ => ComputeMoves(reg, w, st, id, g, node);
  }

  /** The compensation loop returns without error only when it has finished. */
  lemma {:induction false} LoopEnds(reg: Registry, w: World, st: Store, id: string, left: nat)
    requires Unwinding(reg, st, id) && st.instances[id].status == Compensating
    ensures var s := CompensationLoop(reg, w, st, id, left);
            id in s.store.instances && (s.error.None? ==> DrainDone(s.store.instances[id].status))
    decreases left
  {
    hide Sound, Evolves, ValidRegistry, CallsSound, CompensateOneFrame, FinishCompensation;
    if left > 0 {
      if st.instances[id].stack == [] {
        FinishCompensationStep(reg, st, id);
      } else {
        CompensateOneFrameStep(reg, w, st, id);
        if CompensateOneFrame(reg, w, st, id).error.None? {
          LoopEnds(reg, w, CompensateOneFrame(reg, w, st, id).store, id, left - 1);
        }
      }
    }
  }

  // ---------- how far it is to the end ----------

  function Times(n: int, cost: nat): int
  {
    n * cost
  }

  lemma TimesOneLess(n: int, cost: nat)
    ensures Times(n - 1, cost) == Times(n, cost) - cost
  {
  }

  lemma TimesGrows(n: int, m: int, cost: nat)
    requires n <= m
    ensures Times(n, cost) <= Times(m, cost)
  {
  }

  lemma TimesSmall(cost: nat)
    ensures Times(1, cost) == cost && Times(2, cost) == cost + cost
  {
  }

  /** Hops that an active instance may still need, at `cost` ticks per node. */
  function HopsLeft(st: Store, id: string, g: GraphSpec, cost: nat): int
    requires id in st.instances
  {
    var rec := st.instances[id];
    if rec.status == Running then
      Times(|g.nodes| - |Trail(rec.journal)|, cost) - (if cost == 1 then 0 else OwnAttempt(st, id))
    else if rec.status == Compensating then 1
    else 0
  }

  ghost predicate Fits(reg: Registry, g: GraphSpec, cost: nat)
  {
    cost >= 1 && forall n :: n in g.nodes && cost > 1 ==> MaxAttempts(reg, g.nodes[n].unitId) + 1 <= cost
  }

  /** Some terminal of the graph is not on the trail of an instance.  So while the instance is not at a
      terminal, the trail leaves out at least two nodes: its current one and that terminal. */
  lemma TerminalOffTrail(g: GraphSpec, j: seq<Entry>, currentNode: string)
    requires WellFormed(g) && OnPath(g, j, currentNode)
    ensures exists t :: t in g.nodes && g.nodes[t].kind == Terminal && t !in Trail(j)
    ensures currentNode !in Trail(j)
    ensures |Trail(j)| + (if g.nodes[currentNode].kind == Terminal then 1 else 2) <= |g.nodes|
  {
    hide Trail;
    var trail := Trail(j);
    var path := trail + [currentNode];
    AheadIsNew(g, j, currentNode);
    forall i | 0 <= i < |trail|
      ensures trail[i] in g.nodes && g.nodes[trail[i]].kind != Terminal
    {
      assert EdgeAt(g, path, i) && path[i] == trail[i];
      assert NodeValid(g, trail[i], g.nodes[trail[i]]);
    }
    var p :| RouteTo(g, p, g.entryNodeId);
    var t := p[|p| - 1];
    assert t in g.nodes && g.nodes[t].kind == Terminal && t !in trail;
    DistinctFits(if g.nodes[currentNode].kind == Terminal then path else path + [t], g.nodes.Keys);
  }

  lemma HopsArePositive(reg: Registry, st: Store, id: string, g: GraphSpec, cost: nat)
    requires ValidRegistry(reg) && id in st.instances && Sound(reg, st, id) && GraphAt(reg, st, id) == Ok(g)
    requires Fits(reg, g, cost)
    ensures var rec := st.instances[id];
            && HopsLeft(st, id, g, cost) >= 0
            && (!DrainDone(rec.status) ==> HopsLeft(st, id, g, cost) >= 1)
            && (rec.status == Running ==>
                  && rec.currentNode in g.nodes
                  && (g.nodes[rec.currentNode].kind != Terminal ==> HopsLeft(st, id, g, cost) >= 2))
  {
    hide Sound, ValidRegistry, Trail, WellFormed, Times, ForwardEntries, OwnAttempt;
    var rec := st.instances[id];
    if rec.status == Running {
      ActiveFacts(reg, st, id);
      GraphIsGood(reg, rec.graph);
      TerminalOffTrail(g, rec.journal, rec.currentNode);
      AttemptWithin(reg, st, id, g);
      var least := if g.nodes[rec.currentNode].kind == Terminal then 1 else 2;
      TimesSmall(cost);
      TimesGrows(least, |g.nodes| - |Trail(rec.journal)|, cost);
    }
  }

  lemma AttemptWithin(reg: Registry, st: Store, id: string, g: GraphSpec)
    requires id in st.instances && Sound(reg, st, id) && GraphAt(reg, st, id) == Ok(g)
    requires st.instances[id].currentNode in g.nodes
    ensures 0 <= OwnAttempt(st, id) <= MaxAttempts(reg, g.nodes[st.instances[id].currentNode].unitId)
  {
    hide Sound;
    var key := HopKeyOf(st, id, st.instances[id].currentNode);
    MaxAttemptsPositive(reg, g.nodes[st.instances[id].currentNode].unitId);
    if key in st.executions {
      ExecutionFacts(reg, st, id, key);
    }
  }

  ghost predicate NoJoins(g: GraphSpec)
  {
    forall n :: n in g.nodes ==> g.nodes[n].kind != Join
  }

  /** The instance's units answer, with whatever they like, but without an error. */
  ghost predicate UnitsAnswer(w: World, id: string)
  {
    forall unitId, snap :: w.execute(id, unitId, snap) != ExecuteFailed
  }

  /** A turn that moves the instance and leaves it active has brought it closer to the end. */
  lemma MovingGetsCloser(reg: Registry, w: World, st: Store, st': Store, id: string, g: GraphSpec, cost: nat)
    requires ValidRegistry(reg) && id in st.instances && Sound(reg, st, id) && GraphAt(reg, st, id) == Ok(g)
    requires Fits(reg, g, cost)
    requires id in st'.instances && Sound(reg, st', id) && GraphAt(reg, st', id) == Ok(g)
    requires st.instances[id].status == Running
    requires st.instances[id].currentNode in g.nodes
    requires Moves(w, st, st', id, g.nodes[st.instances[id].currentNode].unitId)
    requires cost == 1 ==> UnitsAnswer(w, id)
    requires g.nodes[st.instances[id].currentNode].kind == Terminal ==> DrainDone(st'.instances[id].status)
    ensures !DrainDone(st'.instances[id].status) ==> HopsLeft(st', id, g, cost) < HopsLeft(st, id, g, cost)
  {
    hide Sound, ValidRegistry, Trail, Times, OwnAttempt;
    HopsArePositive(reg, st, id, g, cost);
    HopsArePositive(reg, st', id, g, cost);
    AttemptWithin(reg, st, id, g);
    var rec, rec' := st.instances[id], st'.instances[id];
    if rec'.status == Running {
      AttemptWithin(reg, st', id, g);
      TimesOneLess(|g.nodes| - |Trail(rec.journal)|, cost);
    }
  }

  lemma RunningKeepsGraph(reg: Registry, w: World, st: Store, id: string)
    requires id in st.instances && st.instances[id].status == Running
    requires GraphAt(reg, st, id).Ok? && st.instances[id].currentNode in GraphAt(reg, st, id).value.nodes
    requires GraphAt(reg, st, id).value.nodes[st.instances[id].currentNode].kind != Join
    ensures var st' := ProcessInstance(reg, w, st, id).store;
            id in st'.instances && st'.instances[id].graph == st.instances[id].graph
  {
    hide ProcessCompute, CommitHop, EnterWait, GetGraph, TouchesOnly, Plain;
    var g := GraphAt(reg, st, id).value;
    var node := g.nodes[st.instances[id].currentNode];
    CommitIsPlain(reg, st, id, TerminalCommit(st, id, node.nodeId, TerminalStatus(node), None, ""));
    WaitingWrites(reg, w, st, id, node, None);
    ProcessComputeWrites(reg, w, st, id, g, node);
    PlainKeepsGraph(reg, st, ProcessInstance(reg, w, st, id).store, id);
  }

  lemma PlainKeepsGraph(reg: Registry, st: Store, st': Store, id: string)
    requires Plain(reg, st, st') && id in st.instances
    ensures id in st'.instances && st'.instances[id].graph == st.instances[id].graph
  {
    assert RecordWrites(reg, st.instances[id], st'.instances[id], PLAIN);
  }

  lemma OneFrameKeepsGraph(reg: Registry, w: World, st: Store, id: string)
    requires id in st.instances
    ensures CompensateOneFrame(reg, w, st, id).store.instances[id].graph == st.instances[id].graph
  {
  }

  lemma {:induction false} LoopKeepsGraph(reg: Registry, w: World, st: Store, id: string, left: nat)
    requires id in st.instances
    ensures var st' := CompensationLoop(reg, w, st, id, left).store;
            id in st'.instances && st'.instances[id].graph == st.instances[id].graph
    decreases left
  {
    hide FinishCompensation, CompensateOneFrame;
    if left > 0 {
      if st.instances[id].stack == [] {
        FinishWrites(reg, st, id);
        PlainKeepsGraph(reg, st, FinishCompensation(reg, st, id).store, id);
      } else {
        OneFrameKeepsGraph(reg, w, st, id);
        LoopKeepsGraph(reg, w, CompensateOneFrame(reg, w, st, id).store, id, left - 1);
      }
    }
  }

  lemma RunningTurn(reg: Registry, w: World, st: Store, id: string, g: GraphSpec, cost: nat)
    requires ValidRegistry(reg) && id in st.instances && Sound(reg, st, id) && st.instances[id].status == Running
    requires GraphAt(reg, st, id) == Ok(g) && Fits(reg, g, cost) && NoJoins(g) && (cost == 1 ==> UnitsAnswer(w, id))
    requires ProcessInstance(reg, w, st, id).error.None?
    ensures var st' := ProcessInstance(reg, w, st, id).store;
            && id in st'.instances && GraphAt(reg, st', id) == Ok(g)
            && (DrainDone(st'.instances[id].status) || HopsLeft(st', id, g, cost) < HopsLeft(st, id, g, cost))
  {
    hide Sound, Evolves, ValidRegistry, ProcessInstance, HopsLeft, Moves, Fits, UnitsAnswer, OnPath, ForwardEntries,
         GetGraph;
    ActiveFacts(reg, st, id);
    ProcessRunningStep(reg, w, st, id);
    RunningKeepsGraph(reg, w, st, id);
    RunningMoves(reg, w, st, id, g);
    TerminalEnds(reg, w, st, id, g);
    MovingGetsCloser(reg, w, st, ProcessInstance(reg, w, st, id).store, id, g, cost);
  }

  lemma TerminalEnds(reg: Registry, w: World, st: Store, id: string, g: GraphSpec)
    requires ValidRegistry(reg) && id in st.instances && Sound(reg, st, id) && st.instances[id].status == Running
    requires GraphAt(reg, st, id) == Ok(g) && st.instances[id].currentNode in g.nodes
    ensures g.nodes[st.instances[id].currentNode].kind == Terminal ==>
              var st' := ProcessInstance(reg, w, st, id).store;
              id in st'.instances && DrainDone(st'.instances[id].status)
  {
    hide Sound, Evolves, ValidRegistry, CommitHop;
    GraphIsGood(reg, st.instances[id].graph);
    var node := g.nodes[st.instances[id].currentNode];
    assert At(reg, st, id, g, node);
    CommitTerminalStep(reg, st, id, g, node, TerminalStatus(node));
  }

  /** A tick without error gets a drained instance closer to the end, wherever it is. */
  lemma TickGetsCloser(reg: Registry, w: World, st: Store, id: string, g: GraphSpec, cost: nat)
    requires ValidRegistry(reg) && Inv(reg, st) && ValidWorld(w) && id in st.instances && GraphAt(reg, st, id) == Ok(g)
    requires Fits(reg, g, cost) && NoJoins(g) && (cost == 1 ==> UnitsAnswer(w, id))
    requires !DrainDone(st.instances[id].status) && RunOnce(reg, w, st).error.None?
    ensures var st' := RunOnce(reg, w, st).store;
            && id in st'.instances && GraphAt(reg, st', id) == Ok(g)
            && (DrainDone(st'.instances[id].status) || HopsLeft(st', id, g, cost) < HopsLeft(st, id, g, cost))
  {
    hide Sound, Inv, CallsSound, ValidRegistry, ValidWorld, CompensationLoop, RunOnce, HopsLeft, GetGraph, Moves,
         Fits, UnitsAnswer;
    var s := RunOnce(reg, w, st);
    var at := TickReaches(reg, w, st, id);
    InvIsSound(reg, at, id);
    SameHops(st, at, id, g, cost);
    var own := ProcessInstance(reg, w, at, id);
    ProcessInstanceStep(reg, w, at, id);
    InvIsSound(reg, own.store, id);
    SameGraph(reg, st, at, id);
    SameGraph(reg, own.store, s.store, id);
    if at.instances[id].status == Running {
      RunningTurn(reg, w, at, id, g, cost);
    } else {
      InvHasCalls(reg, at);
      LoopEnds(reg, w, at, id, MAX_FRAMES);
      LoopKeepsGraph(reg, w, at, id, MAX_FRAMES);
    }
    SameHops(own.store, s.store, id, g, cost);
  }

  lemma SameGraph(reg: Registry, st: Store, st': Store, id: string)
    requires SameOwn(st, st', id)
    ensures GraphAt(reg, st', id) == GraphAt(reg, st, id)
  {
  }

  lemma SameHops(st: Store, st': Store, id: string, g: GraphSpec, cost: nat)
    requires SameOwn(st, st', id)
    ensures HopsLeft(st', id, g, cost) == HopsLeft(st, id, g, cost)
  {
    assert Owned(id, HopKeyOf(st, id, st.instances[id].currentNode));
  }

  // ---------- drains ----------

  /** With at least as many hops as the instance may need, the limit is never what ends a drain. */
  lemma {:induction false} DrainFits(reg: Registry, worlds: nat -> World, st: Store, id: string, g: GraphSpec,
          cost: nat, maxHops: int, hops: nat)
    requires ValidRegistry(reg) && Inv(reg, st) && (forall i :: ValidWorld(worlds(i)))
    requires id in st.instances && GraphAt(reg, st, id) == Ok(g) && Fits(reg, g, cost) && NoJoins(g)
    requires cost == 1 ==> forall i :: UnitsAnswer(worlds(i), id)
    requires DrainDone(st.instances[id].status) || HopsLeft(st, id, g, cost) <= maxHops - hops
    ensures var d := DrainFrom(reg, worlds, st, id, maxHops, hops); d.outcome == Finished || d.outcome.Interrupted?
    decreases maxHops - hops
  {
    hide Inv, ValidRegistry, ValidWorld, RunOnce, HopsLeft, GraphAt, Fits, NoJoins, UnitsAnswer;
    if !DrainDone(st.instances[id].status) {
      InvIsSound(reg, st, id);
      HopsArePositive(reg, st, id, g, cost);
      var s := RunOnce(reg, worlds(hops), st);
      if s.error.None? {
        TickGetsCloser(reg, worlds(hops), st, id, g, cost);
        RunOnceStep(reg, worlds(hops), st);
        DrainFits(reg, worlds, s.store, id, g, cost, maxHops, hops + 1);
      }
    }
  }

  lemma HopsAtMost(reg: Registry, st: Store, id: string, g: GraphSpec, cost: nat)
    requires ValidRegistry(reg) && id in st.instances && Sound(reg, st, id) && GraphAt(reg, st, id) == Ok(g)
    requires Fits(reg, g, cost)
    ensures DrainDone(st.instances[id].status) || HopsLeft(st, id, g, cost) <= Times(|g.nodes|, cost)
  {
    hide Sound, ValidRegistry, Trail, WellFormed, Times, ForwardEntries, OwnAttempt;
    var rec := st.instances[id];
    if !DrainDone(rec.status) {
      ActiveFacts(reg, st, id);
      GraphIsGood(reg, rec.graph);
      TerminalOffTrail(g, rec.journal, rec.currentNode);
      AttemptWithin(reg, st, id, g);
      TimesGrows(|g.nodes| - |Trail(rec.journal)|, |g.nodes|, cost);
      TimesSmall(cost);
      TimesGrows(1, |g.nodes|, cost);
    }
  }

  /** On a graph without JOIN nodes a drain never exceeds nodes * (retry budget + 1) hops, whatever
      the units do: it finishes, or some tick fails. */
  lemma DrainNeedsRetries(reg: Registry, calls: seq<Call>, worlds: nat -> World, id: string, g: GraphSpec,
          attempts: nat, o: DrainOptions)
    requires ValidRegistry(reg) && ValidCalls(calls) && (forall i :: ValidWorld(worlds(i)))
    requires id in Run(reg, calls).instances && GraphAt(reg, Run(reg, calls), id) == Ok(g) && NoJoins(g)
    requires attempts >= 1 && forall n :: n in g.nodes ==> MaxAttempts(reg, g.nodes[n].unitId) <= attempts
    requires DrainLimit(reg, Run(reg, calls), id, o) >= |g.nodes| * (attempts + 1)
    ensures var d := DrainInstance(reg, worlds, Run(reg, calls), id, o);
            id == "" || d.outcome == Finished || d.outcome.Interrupted?
  {
    hide ValidRegistry, RunFrom, DrainFrom, Inv, Sound, HopsLeft, DrainLimit;
    var st := Run(reg, calls);
    ReachableInv(reg, calls);
    InvIsSound(reg, st, id);
    HopsAtMost(reg, st, id, g, attempts + 1);
    DrainFits(reg, worlds, st, id, g, attempts + 1, DrainLimit(reg, st, id, o), 0);
  }

  /** If the units of the instance answer without errors, one hop per node is enough: asking to
      wait, fail, spawn or compensate included. */
  lemma DrainNeedsNodes(reg: Registry, calls: seq<Call>, worlds: nat -> World, id: string, g: GraphSpec,
          o: DrainOptions)
    requires ValidRegistry(reg) && ValidCalls(calls)
    requires forall i :: ValidWorld(worlds(i)) && UnitsAnswer(worlds(i), id)
    requires id in Run(reg, calls).instances && GraphAt(reg, Run(reg, calls), id) == Ok(g) && NoJoins(g)
    requires DrainLimit(reg, Run(reg, calls), id, o) >= |g.nodes|
    ensures var d := DrainInstance(reg, worlds, Run(reg, calls), id, o);
            id == "" || d.outcome == Finished || d.outcome.Interrupted?
  {
    hide ValidRegistry, RunFrom, DrainFrom, Inv, Sound, HopsLeft, DrainLimit, UnitsAnswer, ValidWorld;
    var st := Run(reg, calls);
    ReachableInv(reg, calls);
    InvIsSound(reg, st, id);
    HopsAtMost(reg, st, id, g, 1);
    DrainFits(reg, worlds, st, id, g, 1, DrainLimit(reg, st, id, o), 0);
  }

  const DEFAULTS := DrainOptions(0, 0, 0, 0)

  /** With the default options a drain cannot exceed its limit on graphs of up to 250 nodes with the
      default retry budget, and on graphs of up to 1000 nodes if the units answer. */
  lemma DefaultDrainIsEnough(reg: Registry, calls: seq<Call>, worlds: nat -> World, id: string, g: GraphSpec)
    requires ValidRegistry(reg) && ValidCalls(calls) && (forall i :: ValidWorld(worlds(i)))
    requires id in Run(reg, calls).instances && GraphAt(reg, Run(reg, calls), id) == Ok(g) && NoJoins(g)
    requires || (|g.nodes| <= 250 && forall n :: n in g.nodes ==> MaxAttempts(reg, g.nodes[n].unitId) <= 3)
             || (|g.nodes| <= 1000 && forall i :: UnitsAnswer(worlds(i), id))
    ensures DrainInstance(reg, worlds, Run(reg, calls), id, DEFAULTS).outcome != Exceeded
  {
    hide ValidRegistry, RunFrom, DrainFrom, UnitsAnswer, ValidWorld;
    var st := Run(reg, calls);
    DerivedLimit(reg, st, id, DEFAULTS);
    assert g.entryNodeId in g.nodes.Keys by {
      GraphIsGood(reg, st.instances[id].graph);
    }
    if |g.nodes| <= 250 && forall n :: n in g.nodes ==> MaxAttempts(reg, g.nodes[n].unitId) <= 3 {
      DrainNeedsRetries(reg, calls, worlds, id, g, 3, DEFAULTS);
    } else {
      DrainNeedsNodes(reg, calls, worlds, id, g, DEFAULTS);
    }
  }

  // ---------- drains are ticks ----------

  function WorldTicks(worlds: nat -> World, hops: nat, n: nat): seq<Call>
  {
    seq(n, i requires 0 <= i < n => Tick(worlds(hops + i)))
  }

  lemma {:induction false} RunFromFront(reg: Registry, st: Store, call: Call, calls: seq<Call>)
    ensures RunFrom(reg, st, [call] + calls) == RunFrom(reg, Apply(reg, st, call).store, calls)
    decreases |calls|
  {
    hide Apply;
    var all := [call] + calls;
    if calls == [] {
      assert all[..0] == [];
    } else {
      var n := |calls| - 1;
      assert all[..n + 1] == [call] + calls[..n];
      RunFromFront(reg, st, call, calls[..n]);
    }
  }

  /** The store after k ticks. */
  function Ticked(reg: Registry, worlds: nat -> World, st: Store, hops: nat, k: nat): Store
    decreases k
  {
    if k == 0 then st else Ticked(reg, worlds, RunOnce(reg, worlds(hops), st).store, hops + 1, k - 1)
  }

  /** What holds over runs holds over ticks. */
  lemma {:induction false} TicksAreRuns(reg: Registry, worlds: nat -> World, st: Store, hops: nat, k: nat)
    ensures Ticked(reg, worlds, st, hops, k) == RunFrom(reg, st, WorldTicks(worlds, hops, k))
    decreases k
  {
    hide RunOnce;
    if k > 0 {
      TicksAreRuns(reg, worlds, RunOnce(reg, worlds(hops), st).store, hops + 1, k - 1);
      assert WorldTicks(worlds, hops, k) == [Tick(worlds(hops))] + WorldTicks(worlds, hops + 1, k - 1);
      RunFromFront(reg, st, Tick(worlds(hops)), WorldTicks(worlds, hops + 1, k - 1));
    }
  }

  /** The instance has more to do by itself. */
  predicate Busy(st: Store, id: string)
  {
    id in st.instances && st.instances[id].status in {Running, Compensating}
  }

  /** The k-th tick is made because the instance is busy, and it ends with this. */
  ghost predicate TickEnds(reg: Registry, worlds: nat -> World, st: Store, id: string, hops: nat, k: nat,
          error: Option<DagError>)
  {
    var before := Ticked(reg, worlds, st, hops, k);
    Busy(before, id) && RunOnce(reg, worlds(hops + k), before).error == error
  }

  /** Only the last tick of an interrupted drain has an error. */
  function ErrorAt(o: Outcome, n: nat, k: nat): Option<DagError>
  {
    if o.Interrupted? && k + 1 == n then Some(o.error) else None
  }

  /** n ticks were made, and they ended like this. */
  ghost predicate TicksMade(reg: Registry, worlds: nat -> World, st: Store, id: string, hops: nat, n: nat, d: Drained)
  {
    && d.store == Ticked(reg, worlds, st, hops, n)
    && (d.outcome.Interrupted? ==> n > 0)
    && forall k: nat :: k < n ==> TickEnds(reg, worlds, st, id, hops, k, ErrorAt(d.outcome, n, k))
  }

  /** Why a drain ends, and which record it hands back: the last one read. */
  ghost predicate DrainEnds(st: Store, id: string, last: Store, spent: bool, d: Drained)
  {
    match d.outcome
    case Finished => id in st.instances && !Busy(st, id) && d.instance == Some(st.instances[id])
    case Missing => id !in st.instances && d.instance.None?
    case Exceeded => spent && Busy(st, id) && d.instance == Some(st.instances[id])
    case Interrupted(_) => id in last.instances && d.instance == Some(last.instances[id])
  }

  /** A drain ticks while its instance is busy and ticks are left, and no longer: it finishes as soon as
      the instance is done, exceeds its limit only when that is used up, and stops at the first error. */
  lemma {:induction false} DrainIsTicks(reg: Registry, worlds: nat -> World, st: Store, id: string, maxHops: int,
          hops: nat) returns (n: nat)
    ensures n == 0 || hops + n <= maxHops
    ensures var d := DrainFrom(reg, worlds, st, id, maxHops, hops);
            && TicksMade(reg, worlds, st, id, hops, n, d)
            && DrainEnds(d.store, id, Ticked(reg, worlds, st, hops, if n == 0 then 0 else n - 1), hops + n >= maxHops,
                         d)
    decreases maxHops - hops
  {
    hide RunOnce;
    n := 0;
    if Busy(st, id) && hops < maxHops {
      var s := RunOnce(reg, worlds(hops), st);
      var d := DrainFrom(reg, worlds, st, id, maxHops, hops);
      if s.error.None? {
        var more := DrainIsTicks(reg, worlds, s.store, id, maxHops, hops + 1);
        n := more + 1;
        forall k: nat | k < n
          ensures TickEnds(reg, worlds, st, id, hops, k, ErrorAt(d.outcome, n, k))
        {
          if k > 0 {
            assert TickEnds(reg, worlds, s.store, id, hops + 1, k - 1, ErrorAt(d.outcome, more, k - 1));
            LaterTick(reg, worlds, st, id, hops, k, ErrorAt(d.outcome, n, k));
          }
        }
      } else {
        n := 1;
        assert Ticked(reg, worlds, st, hops, 1) == Ticked(reg, worlds, s.store, hops + 1, 0);
      }
    }
  }

  lemma LaterTick(reg: Registry, worlds: nat -> World, st: Store, id: string, hops: nat, k: nat,
          error: Option<DagError>)
    requires k > 0
    requires TickEnds(reg, worlds, RunOnce(reg, worlds(hops), st).store, id, hops + 1, k - 1, error)
    ensures TickEnds(reg, worlds, st, id, hops, k, error)
  {
    hide RunOnce;
  }
}
