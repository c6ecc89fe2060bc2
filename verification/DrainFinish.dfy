/** When a drain finishes: a lone instance on a graph without JOIN nodes whose units answer and whose
    types and predicates are in order. */
module DrainFinish {
  import opened Wrappers
  import opened Entities
  import opened Graphs
  import opened Routing
  import opened Idempotency
  import opened Lines
  import opened Registries
  import opened Scheduling
  import opened History
  import opened Steps
  import opened InstanceSteps
  import opened Runs
  import opened Ticks
  import opened Draining
  import opened DrainBudget

  /** The units of the instance answer, and neither spawn nor ask for compensation nor change the type. */
  predicate Gentle(m: Mutation, typeKey: TypeKey)
  {
    !m.SpawnIntent? && m != FailIntent(true) && (m.UpdateIntent? ==> m.update.typeKey == typeKey)
  }

  ghost predicate GentleUnits(w: World, id: string, typeKey: TypeKey)
  {
    forall unitId, snap ::
      var r := w.execute(id, unitId, snap);
      r.Executed? && r.mutation.Some? && Gentle(r.mutation.value, typeKey)
  }

  /** Every computing node has a registered unit with an implementation, from the type to the type. */
  ghost predicate UnitsFit(reg: Registry, g: GraphSpec, typeKey: TypeKey)
  {
    && ValidTypeKey(typeKey) && typeKey in reg.types
    && forall n :: n in g.nodes && Computing(g.nodes[n]) ==> UnitFits(reg, g.nodes[n].unitId, typeKey)
  }

  predicate UnitFits(reg: Registry, unitId: string, typeKey: TypeKey)
  {
    && unitId in reg.units && unitId in reg.unitImpls
    && reg.units[unitId].inputType == typeKey && OutputTypeAllowed(reg.units[unitId], typeKey)
  }

  ghost predicate Evaluates(reg: Registry)
  {
    forall p, payload :: reg.eval(p, payload) != Errs
  }

  lemma RoutingEvaluates(reg: Registry, node: Node, snap: Snapshot, signal: Option<string>)
    requires Evaluates(reg)
    ensures var r := ResolveTransitions(reg.eval, node, snap, signal); r.Err? ==> r.error == NoTransition
  {
    ResolveMeaning(reg.eval, node, snap, signal);
    var ts := node.transitions;
    if exists i :: Decides(reg.eval, ts, snap, signal, i) {
      var i :| Decides(reg.eval, ts, snap, signal, i);
      VerdictEvaluates(reg, ts[i], snap, signal);
    }
  }

  lemma VerdictEvaluates(reg: Registry, t: Transition, snap: Snapshot, signal: Option<string>)
    requires Evaluates(reg)
    ensures VerdictOf(reg.eval, t, snap, signal) != Errs
  {
    hide EvalFieldPredicate, Evaluates;
    if t.condition.Some? {
      var c := t.condition.value;
      if c.OnField? {
        FieldEvaluates(reg, c.field, snap);
      } else if c.OnSignal? && c.payloadPredicate.Some? {
        FieldEvaluates(reg, c.payloadPredicate.value, snap);
      }
    }
  }

  lemma FieldEvaluates(reg: Registry, p: FieldPredicate, snap: Snapshot)
    requires Evaluates(reg)
    ensures EvalFieldPredicate(reg.eval, p, snap) != Errs
  {
  }

  /** The setting: a running instance whose snapshot is of its own type. */
  ghost predicate InOrder(reg: Registry, st: Store, id: string, g: GraphSpec)
  {
    && id in st.instances && GraphAt(reg, st, id) == Ok(g)
    && st.instances[id].status != Compensating
    && (st.instances[id].status == Running ==> st.instances[id].snapshot.typeKey == st.instances[id].typeKey)
  }

  /** What a turn without error leaves: the same instances, this one in order. */
  ghost predicate GoesOn(reg: Registry, st: Store, s: Step, id: string, g: GraphSpec)
  {
    && s.error.None? && s.store.instances.Keys == st.instances.Keys && InOrder(reg, s.store, id, g)
    && s.store.instances[id].typeKey == st.instances[id].typeKey
    && s.store.instances[id].graph == st.instances[id].graph
  }

  lemma CommitGoesOn(reg: Registry, st: Store, id: string, g: GraphSpec, c: HopCommit)
    requires InOrder(reg, st, id, g) && c.nextStatus != Compensating
    requires c.outputSnapshot.Some? ==> c.outputSnapshot.value.typeKey == st.instances[id].typeKey
    requires st.instances[id].status == Running && c.kind != CompensationCommitted
    ensures GoesOn(reg, st, Done(CommitHop(st, id, c)), id, g)
  {
  }

  lemma WaitGoesOn(reg: Registry, w: World, st: Store, id: string, g: GraphSpec, node: Node, wait: Option<WaitSignal>)
    requires InOrder(reg, st, id, g)
    ensures GoesOn(reg, st, EnterWait(w, st, id, node, wait), id, g)
  {
  }

  lemma NextWaitGoesOn(reg: Registry, w: World, st: Store, id: string, g: GraphSpec, next: string)
    requires InOrder(reg, st, id, g)
    ensures GoesOn(reg, st, WaitIfWaitNode(w, st, id, g, next), id, g)
  {
  }

  lemma ComputeCommitGoesOn(reg: Registry, w: World, st: Store, id: string, g: GraphSpec, node: Node, snap: Snapshot,
          m: Mutation, key: Key)
    requires id in st.instances && InOrder(reg, st, id, g) && st.instances[id].status == Running && Evaluates(reg)
    requires node.nodeId in g.nodes && g.nodes[node.nodeId] == node && Computing(node)
    requires UnitFits(reg, node.unitId, st.instances[id].typeKey)
    requires ValidTypeKey(st.instances[id].typeKey) && st.instances[id].typeKey in reg.types
    requires snap.typeKey == st.instances[id].typeKey && !m.SpawnIntent?
    ensures GoesOn(reg, st, CommitCompute(reg, w, st, id, g, node, snap, m, key), id, g)
  {
    hide CommitHop, WaitIfWaitNode, ResolveTransitions, InOrder, Evaluates, GraphAt;
    var out := snap.(sequence := st.instances[id].sequence + 1);
    RoutingEvaluates(reg, node, out, None);
    var next := Resolve(reg.eval, g, node.nodeId, out);
    RunningIsTyped(reg, st, id, g);
    CommitGoesOn(reg, st, id, g,
                 TerminalCommit(st, id, node.nodeId, Failed, Some(st.instances[id].snapshot), NO_TRANSITION));
    if next.Ok? {
      var c := ComputeCommit(st, id, g, node, out, next.value, m, key);
      CommitGoesOn(reg, st, id, g, c);
      NextWaitGoesOn(reg, w, CommitHop(st, id, c), id, g, next.value);
    }
  }

  lemma RunningIsTyped(reg: Registry, st: Store, id: string, g: GraphSpec)
    requires InOrder(reg, st, id, g) && st.instances[id].status == Running
    ensures st.instances[id].snapshot.typeKey == st.instances[id].typeKey
  {
  }

  lemma MutationGoesOn(reg: Registry, w: World, st: Store, id: string, g: GraphSpec, node: Node, m: Mutation, key: Key)
    requires InOrder(reg, st, id, g) && st.instances[id].status == Running && Evaluates(reg)
    requires node.nodeId in g.nodes && g.nodes[node.nodeId] == node && Computing(node)
    requires UnitFits(reg, node.unitId, st.instances[id].typeKey)
    requires ValidTypeKey(st.instances[id].typeKey) && st.instances[id].typeKey in reg.types
    requires Gentle(m, st.instances[id].typeKey)
    ensures GoesOn(reg, st, ApplyMutation(reg, w, st, id, g, node, m, key), id, g)
  {
    hide CommitHop, CommitCompute, EnterWait, Evaluates;
    match m
    case WaitIntent(wait) => WaitGoesOn(reg, w, st, id, g, node, wait);
    case FailIntent(trigger) =>
    case CompleteIntent(outcome) =>
      CommitGoesOn(reg, st, id, g,
                   TerminalCommit(st, id, node.nodeId, if outcome == Failure then Failed else Completed, None, ""));
    case UpdateIntent(update) => ComputeCommitGoesOn(reg, w, st, id, g, node, update, m, key);
    case SpawnIntent(specs) =>
    case NoIntent => ComputeCommitGoesOn(reg, w, st, id, g, node, st.instances[id].snapshot, m, key);
  }

  lemma ComputeGoesOn(reg: Registry, w: World, st: Store, id: string, g: GraphSpec, node: Node)
    requires At(reg, st, id, g, node) && InOrder(reg, st, id, g) && st.instances[id].status == Running && Evaluates(reg)
    requires Computing(node) && UnitFits(reg, node.unitId, st.instances[id].typeKey)
    requires ValidTypeKey(st.instances[id].typeKey) && st.instances[id].typeKey in reg.types
    requires GentleUnits(w, id, st.instances[id].typeKey)
    ensures GoesOn(reg, st, ProcessCompute(reg, w, st, id, g, node), id, g)
  {
    hide Sound, ValidRegistry, ApplyMutation, AdvanceAfterCommit, Evaluates;
    NeverResumed(reg, st, id, g, node);
    var rec, key := st.instances[id], HopKeyOf(st, id, node.nodeId);
    var started := CreateExecution(st, key, Execution(node.nodeId, rec.sequence, ExecutionRunning, 0));
    var result := w.execute(id, node.unitId, rec.snapshot);
    assert Gentle(result.mutation.value, rec.typeKey);
    MutationGoesOn(reg, w, started, id, g, node, result.mutation.value, key);
  }

  predicate AtJoin(st: Store, id: string, g: GraphSpec)
    requires id in st.instances
  {
    st.instances[id].currentNode in g.nodes && g.nodes[st.instances[id].currentNode].kind == Join
  }

  /** A turn of such an instance never fails, as long as it does not stand at a JOIN node. */
  lemma TurnGoesOn(reg: Registry, w: World, st: Store, id: string, g: GraphSpec)
    requires ValidRegistry(reg) && id in st.instances && Sound(reg, st, id) && InOrder(reg, st, id, g)
    requires st.instances[id].status == Running && !AtJoin(st, id, g) && Evaluates(reg)
    requires UnitsFit(reg, g, st.instances[id].typeKey) && GentleUnits(w, id, st.instances[id].typeKey)
    ensures GoesOn(reg, st, ProcessInstance(reg, w, st, id), id, g)
  {
    hide Sound, ValidRegistry, ProcessCompute, CommitHop, EnterWait, Evaluates, GentleUnits, OnPath, ForwardEntries;
    var rec := st.instances[id];
    ActiveFacts(reg, st, id);
    GraphIsGood(reg, rec.graph);
    var node := g.nodes[rec.currentNode];
    assert At(reg, st, id, g, node);
    match node.kind
    case Terminal => CommitGoesOn(reg, st, id, g, TerminalCommit(st, id, node.nodeId, TerminalStatus(node), None, ""));
    case Wait => WaitGoesOn(reg, w, st, id, g, node, None);
    case Join =>
    case _ => ComputeGoesOn(reg, w, st, id, g, node);
  }

  // ---------- drains ----------

  lemma GentleUnitsAnswer(w: World, id: string, typeKey: TypeKey)
    requires GentleUnits(w, id, typeKey)
    ensures UnitsAnswer(w, id)
  {
    forall unitId, snap
      ensures w.execute(id, unitId, snap) != ExecuteFailed
    {
      assert w.execute(id, unitId, snap).Executed?;
    }
  }

  lemma TickGoesOn(reg: Registry, w: World, st: Store, id: string, g: GraphSpec)
    requires ValidRegistry(reg) && Inv(reg, st) && ValidWorld(w) && Lone(st, id) && InOrder(reg, st, id, g)
    requires st.instances[id].status == Running && NoJoins(g) && Evaluates(reg)
    requires UnitsFit(reg, g, st.instances[id].typeKey) && GentleUnits(w, id, st.instances[id].typeKey)
    ensures GoesOn(reg, st, RunOnce(reg, w, st), id, g) && Lone(RunOnce(reg, w, st).store, id)
  {
    hide Inv, Sound, ValidRegistry, ValidWorld, ProcessInstance, RunOnce, Evaluates, GentleUnits, InOrder, UnitsFit;
    InvIsSound(reg, st, id);
    LoneTick(reg, w, st, id);
    TurnGoesOn(reg, w, st, id, g);
  }

  lemma {:induction false} DrainFinishesFrom(reg: Registry, worlds: nat -> World, st: Store, id: string, g: GraphSpec,
          maxHops: int, hops: nat)
    requires ValidRegistry(reg) && Inv(reg, st) && Lone(st, id) && InOrder(reg, st, id, g)
    requires NoJoins(g) && Evaluates(reg) && UnitsFit(reg, g, st.instances[id].typeKey)
    requires forall i :: ValidWorld(worlds(i)) && GentleUnits(worlds(i), id, st.instances[id].typeKey)
    requires DrainDone(st.instances[id].status) || HopsLeft(st, id, g, 1) <= maxHops - hops
    ensures var d := DrainFrom(reg, worlds, st, id, maxHops, hops);
            && d.outcome == Finished && id in d.store.instances
            && DrainDone(d.store.instances[id].status) && d.instance == Some(d.store.instances[id])
    decreases maxHops - hops
  {
    hide Inv, Sound, ValidRegistry, ValidWorld, RunOnce, HopsLeft, Evaluates, GentleUnits, NoJoins, UnitsFit,
         UnitsAnswer;
    if !DrainDone(st.instances[id].status) {
      InvIsSound(reg, st, id);
      FitsOne(reg, g);
      HopsArePositive(reg, st, id, g, 1);
      GentleUnitsAnswer(worlds(hops), id, st.instances[id].typeKey);
      TickGoesOn(reg, worlds(hops), st, id, g);
      TickGetsCloser(reg, worlds(hops), st, id, g, 1);
      RunOnceStep(reg, worlds(hops), st);
      DrainFinishesFrom(reg, worlds, RunOnce(reg, worlds(hops), st).store, id, g, maxHops, hops + 1);
    }
  }

  lemma FitsOne(reg: Registry, g: GraphSpec)
    ensures Fits(reg, g, 1)
  {
  }

  /** A lone instance on a graph without JOIN nodes, whose units answer gently and whose types match
      and predicates evaluate, is drained to a terminal or WAITING status within one hop per node. */
  lemma DrainFinishes(reg: Registry, calls: seq<Call>, worlds: nat -> World, st: Store, id: string, g: GraphSpec,
          o: DrainOptions)
    requires ValidRegistry(reg) && ValidCalls(calls) && st == Run(reg, calls) && id != "" && Lone(st, id)
    requires InOrder(reg, st, id, g) && NoJoins(g) && Evaluates(reg) && UnitsFit(reg, g, st.instances[id].typeKey)
    requires forall i :: ValidWorld(worlds(i)) && GentleUnits(worlds(i), id, st.instances[id].typeKey)
    requires DrainLimit(reg, st, id, o) >= |g.nodes|
    ensures var d := DrainInstance(reg, worlds, st, id, o);
            && d.outcome == Finished && id in d.store.instances
            && d.store.instances[id].status in {Completed, Failed, Compensated, Cancelled, Waiting}
            && d.instance == Some(d.store.instances[id])
  {
    hide Inv, Sound, ValidRegistry, ValidWorld, RunFrom, DrainFrom, HopsLeft, Evaluates, GentleUnits, DrainLimit,
         InOrder, NoJoins, UnitsFit;
    ReachableInv(reg, calls);
    assert GraphAt(reg, st, id) == Ok(g) by {
      OrderedGraph(reg, st, id, g);
    }
    InvIsSound(reg, st, id);
    FitsOne(reg, g);
    HopsAtMost(reg, st, id, g, 1);
    DrainFinishesFrom(reg, worlds, st, id, g, DrainLimit(reg, st, id, o), 0);
  }

  lemma OrderedGraph(reg: Registry, st: Store, id: string, g: GraphSpec)
    requires InOrder(reg, st, id, g)
    ensures GraphAt(reg, st, id) == Ok(g)
  {
  }

  /** So with the default options it finishes on graphs of up to 1000 nodes. */
  lemma DefaultDrainFinishes(reg: Registry, calls: seq<Call>, worlds: nat -> World, st: Store, id: string, g: GraphSpec)
    requires ValidRegistry(reg) && ValidCalls(calls) && st == Run(reg, calls) && id != "" && Lone(st, id)
    requires InOrder(reg, st, id, g) && NoJoins(g) && Evaluates(reg) && UnitsFit(reg, g, st.instances[id].typeKey)
    requires forall i :: ValidWorld(worlds(i)) && GentleUnits(worlds(i), id, st.instances[id].typeKey)
    requires 0 < |g.nodes| <= 1000
    ensures DrainInstance(reg, worlds, st, id, DEFAULTS).outcome == Finished
  {
    hide ValidRegistry, ValidWorld, RunFrom, DrainFrom, Evaluates, GentleUnits, NoJoins, UnitsFit;
    DerivedLimit(reg, st, id, DEFAULTS);
    DrainFinishes(reg, calls, worlds, st, id, g, DEFAULTS);
  }
}
