/**
 When a whole family is drained: parents that join children they name, in any depth.

 The setting is a store in which nobody waits or compensates, the units of every instance answer
 gently, and every JOIN node names children that lie below their parent in some ranking.
 */
module DrainFamilies {
  import opened Wrappers
  import opened Entities
  import opened Graphs
  import opened Routing
  import opened Idempotency
  import opened Lines
  import opened Registries
  import opened Scheduling
  import opened History
  import opened Preservation
  import opened Steps
  import opened InstanceSteps
  import opened Runs
  import opened Ticks
  import opened Draining
  import opened DrainBudget
  import opened DrainFinish

  type Ranking = string -> nat

  // ---------- the setting ----------

  predicate NoWaits(g: GraphSpec)
  {
    forall n :: n in g.nodes ==> g.nodes[n].kind != Wait
  }

  /** The barriers name known children of lower rank, and a failed child fails the parent. */
  predicate Decisive(keys: set<string>, id: string, join: JoinSpec, rank: Ranking)
  {
    && join.dynamicBarriers == [] && join.failParentOnChildFailure
    && forall k :: 0 <= k < |join.barriers| ==>
         && join.barriers[k].ChildEntity? && join.barriers[k].childId != ""
         && join.barriers[k].childId in keys && rank(join.barriers[k].childId) < rank(id)
  }

  ghost predicate JoinsDecisive(keys: set<string>, id: string, g: GraphSpec, rank: Ranking)
  {
    forall n :: n in g.nodes && g.nodes[n].kind == Join && g.nodes[n].joinSpec.Some? ==>
      Decisive(keys, id, g.nodes[n].joinSpec.value, rank)
  }

  predicate Awake(s: Status)
  {
    s == Running || s == Completed || s == Failed || s == Compensated
  }

  ghost predicate Fine(reg: Registry, st: Store, id: string, rank: Ranking)
  {
    && id in st.instances && GraphAt(reg, st, id).Ok? && Awake(st.instances[id].status)
    && var g := GraphAt(reg, st, id).value;
       && InOrder(reg, st, id, g) && NoWaits(g) && UnitsFit(reg, g, st.instances[id].typeKey)
       && JoinsDecisive(st.instances.Keys, id, g, rank)
  }

  ghost predicate AllFine(reg: Registry, st: Store, rank: Ranking)
  {
    Evaluates(reg) && forall id {:trigger Fine(reg, st, id, rank)} :: id in st.instances ==> Fine(reg, st, id, rank)
  }

  /** Units that answer gently and never ask to wait. */
  ghost predicate Restless(w: World, id: string, typeKey: TypeKey)
  {
    && GentleUnits(w, id, typeKey)
    && forall unitId, snap :: w.execute(id, unitId, snap).Executed? && w.execute(id, unitId, snap).mutation.Some? ==>
         !w.execute(id, unitId, snap).mutation.value.WaitIntent?
  }

  ghost predicate AllRestless(w: World, st: Store)
  {
    forall id {:trigger Restless(w, id, st.instances[id].typeKey)} :: id in st.instances ==>
      Restless(w, id, st.instances[id].typeKey)
  }

  // ---------- nobody starts to wait ----------

  lemma CommitStaysAwake(st: Store, id: string, c: HopCommit)
    requires id in st.instances && Awake(st.instances[id].status) && Awake(c.nextStatus)
    requires c.kind != CompensationCommitted
    ensures Awake(CommitHop(st, id, c).instances[id].status)
  {
  }

  lemma CommitComputeStaysAwake(reg: Registry, w: World, st: Store, id: string, g: GraphSpec, node: Node,
          snap: Snapshot, m: Mutation, key: Key)
    requires id in st.instances && Awake(st.instances[id].status) && NoWaits(g) && !m.SpawnIntent?
    ensures var st' := CommitCompute(reg, w, st, id, g, node, snap, m, key).store;
            id in st'.instances && Awake(st'.instances[id].status)
  {
    hide CommitHop, CheckOutput, Resolve;
    var out := snap.(sequence := st.instances[id].sequence + 1);
    CommitStaysAwake(st, id,
                     TerminalCommit(st, id, node.nodeId, Failed, Some(st.instances[id].snapshot), NO_TRANSITION));
    var next := Resolve(reg.eval, g, node.nodeId, out);
    if next.Ok? {
      CommitStaysAwake(st, id, ComputeCommit(st, id, g, node, out, next.value, m, key));
    }
  }

  lemma MutationStaysAwake(reg: Registry, w: World, st: Store, id: string, g: GraphSpec, node: Node, m: Mutation,
          key: Key)
    requires id in st.instances && Awake(st.instances[id].status) && NoWaits(g)
    requires !m.SpawnIntent? && !m.WaitIntent? && m != FailIntent(true)
    ensures var st' := ApplyMutation(reg, w, st, id, g, node, m, key).store;
            id in st'.instances && Awake(st'.instances[id].status)
  {
    hide CommitHop, CommitCompute;
    match m
    case WaitIntent(wait) =>
    case SpawnIntent(specs) =>
    case FailIntent(trigger) =>
    case CompleteIntent(outcome) =>
      CommitStaysAwake(st, id,
                       TerminalCommit(st, id, node.nodeId, if outcome == Failure then Failed else Completed, None, ""));
    case UpdateIntent(update) => CommitComputeStaysAwake(reg, w, st, id, g, node, update, m, key);
    case NoIntent => CommitComputeStaysAwake(reg, w, st, id, g, node, st.instances[id].snapshot, m, key);
  }

  lemma ComputeStaysAwake(reg: Registry, w: World, st: Store, id: string, g: GraphSpec, node: Node)
    requires At(reg, st, id, g, node) && st.instances[id].status == Running && NoWaits(g) && Computing(node)
    requires Restless(w, id, st.instances[id].typeKey)
    ensures var st' := ProcessCompute(reg, w, st, id, g, node).store;
            id in st'.instances && Awake(st'.instances[id].status)
  {
    hide Sound, ValidRegistry, ApplyMutation, AdvanceAfterCommit;
    NeverResumed(reg, st, id, g, node);
    var rec, key := st.instances[id], HopKeyOf(st, id, node.nodeId);
    var started := CreateExecution(st, key, Execution(node.nodeId, rec.sequence, ExecutionRunning, 0));
    var result := w.execute(id, node.unitId, rec.snapshot);
    assert Gentle(result.mutation.value, rec.typeKey);
    MutationStaysAwake(reg, w, started, id, g, node, result.mutation.value, key);
  }

  lemma TurnStaysAwake(reg: Registry, w: World, st: Store, id: string, g: GraphSpec)
    requires ValidRegistry(reg) && id in st.instances && Sound(reg, st, id) && InOrder(reg, st, id, g)
    requires st.instances[id].status == Running && NoWaits(g) && !AtJoin(st, id, g)
    requires Restless(w, id, st.instances[id].typeKey)
    ensures var st' := ProcessInstance(reg, w, st, id).store;
            id in st'.instances && Awake(st'.instances[id].status)
  {
    hide Sound, ValidRegistry, ProcessCompute, CommitHop, Restless, OnPath, ForwardEntries;
    var rec := st.instances[id];
    ActiveFacts(reg, st, id);
    GraphIsGood(reg, rec.graph);
    var node := g.nodes[rec.currentNode];
    assert At(reg, st, id, g, node);
    match node.kind
    case Terminal => CommitStaysAwake(st, id, TerminalCommit(st, id, node.nodeId, TerminalStatus(node), None, ""));
    case Wait =>
    case Join =>
    case _ => ComputeStaysAwake(reg, w, st, id, g, node);
  }

  // ---------- joins ----------

  /** The children that the join names have ended. */
  ghost predicate ChildrenEnded(st: Store, join: JoinSpec)
  {
    forall k :: 0 <= k < |join.barriers| && join.barriers[k].ChildEntity? ==>
      join.barriers[k].childId in st.instances && st.instances[join.barriers[k].childId].status != Running
  }

  ghost predicate ChildrenAwake(st: Store, join: JoinSpec)
  {
    forall k :: 0 <= k < |join.barriers| && join.barriers[k].ChildEntity? ==>
      join.barriers[k].childId in st.instances && Awake(st.instances[join.barriers[k].childId].status)
  }

  lemma {:induction false} NamedDecide(w: World, st: Store, id: string, join: JoinSpec, rank: Ranking, k: nat,
          completed: nat)
    requires k <= |join.barriers| && Decisive(st.instances.Keys, id, join, rank) && ChildrenAwake(st, join)
    ensures var c := CheckStaticBarriers(w, st, id, join, k, completed);
            && !c.JoinError?
            && (ChildrenEnded(st, join) && completed == k && join.barriers != [] ==> c != JoinNotReady)
    decreases |join.barriers| - k
  {
    if k < |join.barriers| {
      NamedDecide(w, st, id, join, rank, k + 1, completed + 1);
      NamedDecide(w, st, id, join, rank, k + 1, completed);
    }
  }

  lemma JoinDecides(w: World, st: Store, id: string, join: JoinSpec, rank: Ranking)
    requires id in st.instances && Decisive(st.instances.Keys, id, join, rank) && ChildrenAwake(st, join)
    requires join.barriers != []
    ensures var c := CheckJoinBarriers(w, st, id, join);
            !c.JoinError? && (ChildrenEnded(st, join) ==> c != JoinNotReady)
  {
    NamedDecide(w, st, id, join, rank, 0, 0);
  }

  /** The instance has ended, or has one more node behind it. */
  ghost predicate Progresses(st: Store, st': Store, id: string)
  {
    && id in st.instances && id in st'.instances
    && (|| st'.instances[id].status != Running
        || |Trail(st'.instances[id].journal)| > |Trail(st.instances[id].journal)|)
  }

  lemma JoinCommitProgresses(reg: Registry, st: Store, id: string, g: GraphSpec, node: Node, next: string)
    requires At(reg, st, id, g, node) && st.instances[id].status == Running && Edge(g, node.nodeId, next)
    ensures Progresses(st, CommitHop(st, id, JoinCommit(st, id, node, next)), id)
  {
    hide Sound, ValidRegistry, CommitHop, Trail;
    var rec, c := st.instances[id], JoinCommit(st, id, node, next);
    JoinCommitStep(reg, st, id, g, node, next);
    CommittedFields(rec, c);
    TrailWithOne(rec.journal, NewEntry(rec, c));
  }

  lemma TrailWithOne(j: seq<Entry>, e: Entry)
    requires e.kind != CompensationCommitted
    ensures |Trail(j + [e])| == |Trail(j)| + 1
  {
    assert (j + [e])[..|j|] == j;
  }

  /** What the turn of an instance leaves in such a store. */
  ghost predicate TurnIsFine(reg: Registry, st: Store, s: Step, id: string, g: GraphSpec)
  {
    && GoesOn(reg, st, s, id, g) && Awake(s.store.instances[id].status)
    && (Progresses(st, s.store, id) || s.store.instances[id] == st.instances[id])
  }

  lemma ReadyTurn(reg: Registry, w: World, st: Store, id: string, g: GraphSpec, node: Node)
    requires At(reg, st, id, g, node) && InOrder(reg, st, id, g) && Awake(st.instances[id].status)
    requires st.instances[id].status == Running && Evaluates(reg) && node.joinSpec.Some?
    requires CheckJoinBarriers(w, st, id, node.joinSpec.value) == JoinReady
    ensures var s := ProcessJoin(reg, w, st, id, node);
            GoesOn(reg, st, s, id, g) && Awake(s.store.instances[id].status) && Progresses(st, s.store, id)
  {
    hide Sound, ValidRegistry, CommitHop, CheckJoinBarriers, ResolveTransitions, Evaluates, GoesOn, Trail, Progresses,
         GetGraph, WellFormed, Edge;
    var rec := st.instances[id];
    RoutingEvaluates(reg, node, rec.snapshot, None);
    var next := ResolveTransitions(reg.eval, node, rec.snapshot, None);
    var failing := TerminalCommit(st, id, node.nodeId, Failed, Some(rec.snapshot), NO_TRANSITION);
    RunningIsTyped(reg, st, id, g);
    if next == Err(NoTransition) {
      CommitGoesOn(reg, st, id, g, failing);
      CommitStaysAwake(st, id, failing);
      FailNoTransitionStep(reg, st, id, g, node);
      EndedProgresses(st, CommitHop(st, id, failing), id);
    } else {
      var c := JoinCommit(st, id, node, next.value);
      ResolvedEdge(reg, g, node, rec.snapshot, None);
      CommitGoesOn(reg, st, id, g, c);
      CommitStaysAwake(st, id, c);
      JoinCommitProgresses(reg, st, id, g, node, next.value);
    }
  }

  lemma EndedProgresses(st: Store, st': Store, id: string)
    requires id in st.instances && id in st'.instances && st'.instances[id].status == Failed
    ensures Progresses(st, st', id)
  {
  }

  lemma JoinTurn(reg: Registry, w: World, st: Store, id: string, g: GraphSpec, node: Node, rank: Ranking)
    requires At(reg, st, id, g, node) && InOrder(reg, st, id, g) && st.instances[id].status == Running
    requires Evaluates(reg) && node.joinSpec.Some? && node.joinSpec.value.barriers != []
    requires Decisive(st.instances.Keys, id, node.joinSpec.value, rank) && ChildrenAwake(st, node.joinSpec.value)
    ensures var s := ProcessJoin(reg, w, st, id, node);
            TurnIsFine(reg, st, s, id, g) && (ChildrenEnded(st, node.joinSpec.value) ==> Progresses(st, s.store, id))
  {
    hide Sound, ValidRegistry, CommitHop, CheckJoinBarriers, ResolveTransitions, Evaluates, ChildrenEnded, Trail;
    JoinDecides(w, st, id, node.joinSpec.value, rank);
    if CheckJoinBarriers(w, st, id, node.joinSpec.value) == JoinReady {
      ReadyTurn(reg, w, st, id, g, node);
    }
  }

  // ---------- one turn ----------

  /** It runs, and if it stands at a JOIN node then the children that one names have ended. */
  ghost predicate Ripe(reg: Registry, st: Store, id: string)
  {
    && id in st.instances && GraphAt(reg, st, id).Ok? && st.instances[id].status == Running
    && var g := GraphAt(reg, st, id).value;
       AtJoin(st, id, g) && g.nodes[st.instances[id].currentNode].joinSpec.Some? ==>
         ChildrenEnded(st, g.nodes[st.instances[id].currentNode].joinSpec.value)
  }

  lemma MovesProgresses(w: World, st: Store, st': Store, id: string, unitId: string)
    requires Moves(w, st, st', id, unitId) && UnitsAnswer(w, id) && Awake(st'.instances[id].status)
    ensures Progresses(st, st', id)
  {
    hide Trail;
  }

  lemma JoinIsSpecified(reg: Registry, st: Store, id: string, g: GraphSpec, node: Node, rank: Ranking)
    requires AllFine(reg, st, rank) && id in st.instances && At(reg, st, id, g, node) && node.kind == Join
    ensures node.joinSpec.Some? && node.joinSpec.value.barriers != []
    ensures Decisive(st.instances.Keys, id, node.joinSpec.value, rank) && ChildrenAwake(st, node.joinSpec.value)
  {
    hide Sound, ValidRegistry, Acyclic, UnitsFit, InOrder, Evaluates, RequiresFallbackEdge;
    GraphIsGood(reg, st.instances[id].graph);
    assert Fine(reg, st, id, rank);
    assert NodeValid(g, node.nodeId, node);
    var join := node.joinSpec.value;
    assert Decisive(st.instances.Keys, id, join, rank);
    forall k | 0 <= k < |join.barriers|
      ensures Awake(st.instances[join.barriers[k].childId].status)
    {
      assert Fine(reg, st, join.barriers[k].childId, rank);
    }
  }

  lemma FineTurn(reg: Registry, w: World, st: Store, id: string, rank: Ranking)
    requires ValidRegistry(reg) && Inv(reg, st) && AllFine(reg, st, rank)
    requires id in st.instances && st.instances[id].status == Running && Restless(w, id, st.instances[id].typeKey)
    ensures GraphAt(reg, st, id).Ok?
    ensures var s, g := ProcessInstance(reg, w, st, id), GraphAt(reg, st, id).value;
            TurnIsFine(reg, st, s, id, g) && (Ripe(reg, st, id) ==> Progresses(st, s.store, id))
  {
    hide Inv, Sound, ValidRegistry, ProcessCompute, ProcessJoin, EnterWait, CommitHop, Restless, Evaluates, UnitsFit,
         NoWaits, JoinsDecisive, InOrder, GoesOn, Progresses, Decisive, ChildrenEnded, ChildrenAwake, OnPath,
         ForwardEntries, WellFormed;
    InvIsSound(reg, st, id);
    assert Fine(reg, st, id, rank);
    var g := GraphAt(reg, st, id).value;
    ActiveFacts(reg, st, id);
    GraphIsGood(reg, st.instances[id].graph);
    var node := g.nodes[st.instances[id].currentNode];
    assert At(reg, st, id, g, node);
    if node.kind == Join {
      JoinIsSpecified(reg, st, id, g, node, rank);
      JoinTurn(reg, w, st, id, g, node, rank);
    } else {
      RestlessIsGentle(w, id, st.instances[id].typeKey);
      TurnGoesOn(reg, w, st, id, g);
      TurnStaysAwake(reg, w, st, id, g);
      RunningMoves(reg, w, st, id, g);
      NoError(reg, st, ProcessInstance(reg, w, st, id), id, g);
      MovesProgresses(w, st, ProcessInstance(reg, w, st, id).store, id, node.unitId);
    }
  }

  lemma NoError(reg: Registry, st: Store, s: Step, id: string, g: GraphSpec)
    requires GoesOn(reg, st, s, id, g)
    ensures s.error.None?
  {
  }

  lemma RestlessIsGentle(w: World, id: string, typeKey: TypeKey)
    requires Restless(w, id, typeKey)
    ensures GentleUnits(w, id, typeKey) && UnitsAnswer(w, id)
  {
    GentleUnitsAnswer(w, id, typeKey);
  }

  // ---------- how much is left ----------

  /** The nodes a running instance has not committed yet; nothing for one that has ended. */
  function Left(reg: Registry, st: Store, id: string): int
  {
    if id in st.instances && st.instances[id].status == Running && GraphAt(reg, st, id).Ok?
    then |GraphAt(reg, st, id).value.nodes| - |Trail(st.instances[id].journal)|
    else 0
  }

  lemma LeftIsPositive(reg: Registry, st: Store, id: string)
    requires ValidRegistry(reg) && Inv(reg, st) && id in st.instances
    ensures Left(reg, st, id) >= if st.instances[id].status == Running then 1 else 0
  {
    hide Inv, Sound, ValidRegistry, Trail, ForwardEntries, OnPath, WellFormed;
    if st.instances[id].status == Running {
      InvIsSound(reg, st, id);
      ActiveFacts(reg, st, id);
      GraphIsGood(reg, st.instances[id].graph);
      TerminalOffTrail(GraphAt(reg, st, id).value, st.instances[id].journal, st.instances[id].currentNode);
    }
  }

  /** The same family, every member fine and none further from its end. */
  ghost predicate GoesOnFine(reg: Registry, st: Store, st': Store, rank: Ranking)
  {
    && Inv(reg, st') && AllFine(reg, st', rank) && st'.instances.Keys == st.instances.Keys
    && forall x :: x in st.instances ==>
         && st'.instances[x].typeKey == st.instances[x].typeKey && st'.instances[x].graph == st.instances[x].graph
         && Left(reg, st', x) <= Left(reg, st, x)
  }

  lemma GoesOnFineTrans(reg: Registry, a: Store, b: Store, c: Store, rank: Ranking)
    requires GoesOnFine(reg, a, b, rank) && GoesOnFine(reg, b, c, rank)
    ensures GoesOnFine(reg, a, c, rank)
  {
    hide Inv, AllFine, Left;
  }

  lemma OthersStayFine(reg: Registry, st: Store, st': Store, id: string, x: string, rank: Ranking)
    requires Fine(reg, st, x, rank) && x in st'.instances && st'.instances[x] == st.instances[x]
    requires st'.instances.Keys == st.instances.Keys
    ensures Fine(reg, st', x, rank) && Left(reg, st', x) == Left(reg, st, x)
  {
  }

  lemma OwnStaysFine(reg: Registry, st: Store, s: Step, id: string, rank: Ranking)
    requires Fine(reg, st, id, rank) && TurnIsFine(reg, st, s, id, GraphAt(reg, st, id).value)
    ensures Fine(reg, s.store, id, rank)
  {
  }

  lemma ProgressIsLess(reg: Registry, st: Store, st': Store, id: string)
    requires ValidRegistry(reg) && Inv(reg, st) && Progresses(st, st', id) && st.instances[id].status == Running
    requires st'.instances[id].graph == st.instances[id].graph
    ensures Left(reg, st', id) < Left(reg, st, id)
  {
    hide Inv, ValidRegistry, Trail;
    LeftIsPositive(reg, st, id);
  }

  lemma TurnKeepsFamily(reg: Registry, w: World, st: Store, id: string, rank: Ranking)
    requires ValidRegistry(reg) && Inv(reg, st) && AllFine(reg, st, rank)
    requires id in st.instances && st.instances[id].status == Running && Restless(w, id, st.instances[id].typeKey)
    ensures var s := ProcessInstance(reg, w, st, id);
            && s.error.None? && GoesOnFine(reg, st, s.store, rank)
            && (forall x :: x in st.instances && x != id ==> s.store.instances[x] == st.instances[x])
            && (Ripe(reg, st, id) ==> Left(reg, s.store, id) < Left(reg, st, id))
  {
    hide Inv, ValidRegistry, ProcessInstance, Restless, Ripe, Fine, Left, Progresses, InOrder;
    FineTurn(reg, w, st, id, rank);
    ProcessInstanceStep(reg, w, st, id);
    var s := ProcessInstance(reg, w, st, id);
    forall x | x in st.instances
      ensures Fine(reg, s.store, x, rank) && Left(reg, s.store, x) <= Left(reg, st, x)
    {
      assert Fine(reg, st, x, rank);
      if x == id {
        OwnStaysFine(reg, st, s, id, rank);
        if Progresses(st, s.store, id) {
          ProgressIsLess(reg, st, s.store, id);
        } else {
          OthersStayFine(reg, st, s.store, id, id, rank);
        }
      } else {
        OthersStayFine(reg, st, s.store, id, x, rank);
      }
    }
    if Ripe(reg, st, id) {
      ProgressIsLess(reg, st, s.store, id);
    }
  }

  // ---------- one tick ----------

  lemma RestlessStays(w: World, st: Store, st': Store)
    requires AllRestless(w, st) && st'.instances.Keys == st.instances.Keys
    requires forall x :: x in st.instances ==> st'.instances[x].typeKey == st.instances[x].typeKey
    ensures AllRestless(w, st')
  {
    hide Restless;
    forall x | x in st'.instances
      ensures Restless(w, x, st'.instances[x].typeKey)
    {
      assert Restless(w, x, st.instances[x].typeKey);
    }
  }

  /** The turn of another running instance leaves it ripe: whoever has ended is not touched. */
  lemma StaysRipe(reg: Registry, st: Store, st': Store, other: string, id: string)
    requires Ripe(reg, st, id) && other != id && other in st.instances && st.instances[other].status == Running
    requires st'.instances.Keys == st.instances.Keys
    requires forall x :: x in st.instances && x != other ==> st'.instances[x] == st.instances[x]
    ensures Ripe(reg, st', id)
  {
  }

  lemma NobodyCompensates(reg: Registry, st: Store, ids: seq<string>, rank: Ranking)
    requires AllFine(reg, st, rank) && AllRunnable(st, ids)
    ensures forall i :: 0 <= i < |ids| ==> ids[i] in st.instances && st.instances[ids[i]].status == Running
  {
    forall i | 0 <= i < |ids|
      ensures ids[i] in st.instances && st.instances[ids[i]].status == Running
    {
      assert Runnable(st, ids[i]) && Fine(reg, st, ids[i], rank);
    }
  }

  /** The loop over the runnable instances, with one among them that is ripe. */
  lemma {:induction false} TurnsKeepFamily(reg: Registry, w: World, st: Store, ids: seq<string>, ripe: string,
          rank: Ranking)
    requires ValidRegistry(reg) && Inv(reg, st) && AllFine(reg, st, rank) && AllRunnable(st, ids)
    requires AllRestless(w, st)
    ensures var s := ProcessAll(reg, w, st, ids);
            && s.error.None? && GoesOnFine(reg, st, s.store, rank)
            && (ripe in ids && Ripe(reg, st, ripe) ==> Left(reg, s.store, ripe) < Left(reg, st, ripe))
    decreases |ids|
  {
    hide Inv, ValidRegistry, ProcessInstance, Restless, Ripe, AllFine, Left, Evolves, Distinct;
    if ids != [] {
      var id := ids[0];
      NobodyCompensates(reg, st, ids, rank);
      assert Restless(w, id, st.instances[id].typeKey);
      TurnKeepsFamily(reg, w, st, id, rank);
      ProcessInstanceStep(reg, w, st, id);
      var s := ProcessInstance(reg, w, st, id);
      RestRunnable(reg, st, s.store, ids);
      RestlessStays(w, st, s.store);
      TurnsKeepFamily(reg, w, s.store, ids[1..], ripe, rank);
      GoesOnFineTrans(reg, st, s.store, ProcessAll(reg, w, s.store, ids[1..]).store, rank);
      if ripe in ids && Ripe(reg, st, ripe) && ripe != id {
        StaysRipe(reg, st, s.store, id, ripe);
        assert ids == [ids[0]] + ids[1..];
      }
    }
  }

  lemma NobodyWaits(reg: Registry, st: Store, now: int, rank: Ranking)
    requires AllFine(reg, st, rank)
    ensures forall x :: x in st.instances ==> !IsDue(st.instances[x], now)
  {
    forall x | x in st.instances
      ensures !IsDue(st.instances[x], now)
    {
      assert Fine(reg, st, x, rank);
    }
  }

  lemma TickKeepsFamily(reg: Registry, w: World, st: Store, ripe: string, rank: Ranking)
    requires ValidRegistry(reg) && Inv(reg, st) && AllFine(reg, st, rank) && ValidWorld(w) && AllRestless(w, st)
    requires Ripe(reg, st, ripe)
    ensures var s := RunOnce(reg, w, st);
            && s.error.None? && GoesOnFine(reg, st, s.store, rank) && Left(reg, s.store, ripe) < Left(reg, st, ripe)
  {
    hide Inv, ValidRegistry, ProcessAll, AllFine, AllRestless, Left, RunOnce, IsDue;
    NobodyWaits(reg, st, w.now, rank);
    NoWaitIsOver(reg, w, st);
    RunnableAreListed(st, w.order(RunnableSite, st.instances.Keys));
    assert Enumerates(w.order(RunnableSite, st.instances.Keys), st.instances.Keys);
    TurnsKeepFamily(reg, w, st, RunnableOf(w, st), ripe, rank);
  }

  // ---------- somebody is ripe ----------

  lemma {:induction false} LowestRunning(st: Store, ids: set<string>, rank: Ranking) returns (low: string)
    requires ids <= st.instances.Keys && exists x :: x in ids && st.instances[x].status == Running
    ensures low in ids && st.instances[low].status == Running
    ensures forall x :: x in ids && st.instances[x].status == Running ==> rank(low) <= rank(x)
    decreases |ids|
  {
    var x :| x in ids && st.instances[x].status == Running;
    var rest := ids - {x};
    low := x;
    if exists y :: y in rest && st.instances[y].status == Running {
      var y := LowestRunning(st, rest, rank);
      low := if rank(x) <= rank(y) then x else y;
    }
    forall z | z in ids && st.instances[z].status == Running
      ensures rank(low) <= rank(z)
    {
      assert z == x || z in rest;
    }
  }

  /** As long as somebody runs, somebody is ripe: whoever ranks lowest names nobody that still runs. */
  lemma SomebodyIsRipe(reg: Registry, st: Store, id: string, rank: Ranking) returns (ripe: string)
    requires AllFine(reg, st, rank) && id in st.instances && st.instances[id].status == Running
    ensures Ripe(reg, st, ripe)
  {
    hide InOrder, UnitsFit, Evaluates, NoWaits;
    ripe := LowestRunning(st, st.instances.Keys, rank);
    assert Fine(reg, st, ripe, rank);
    var g := GraphAt(reg, st, ripe).value;
    if AtJoin(st, ripe, g) && g.nodes[st.instances[ripe].currentNode].joinSpec.Some? {
      assert Decisive(st.instances.Keys, ripe, g.nodes[st.instances[ripe].currentNode].joinSpec.value, rank);
    }
  }

  // ---------- the drain ----------

  /** The nodes of all graphs, an instance at a time. */
  function NodeSum(reg: Registry, st: Store, ids: seq<string>): int
  {
    if ids == [] then 0
    else
      var n := |ids| - 1;
      NodeSum(reg, st, ids[..n])
      + if ids[n] in st.instances && GraphAt(reg, st, ids[n]).Ok? then |GraphAt(reg, st, ids[n]).value.nodes| else 0
  }

  function LeftSum(reg: Registry, st: Store, ids: seq<string>): int
  {
    if ids == [] then 0 else LeftSum(reg, st, ids[..|ids| - 1]) + Left(reg, st, ids[|ids| - 1])
  }

  lemma {:induction false} LeftSumFalls(reg: Registry, st: Store, st': Store, ids: seq<string>, x: string)
    requires forall i :: 0 <= i < |ids| ==> Left(reg, st', ids[i]) <= Left(reg, st, ids[i])
    ensures LeftSum(reg, st', ids) <= LeftSum(reg, st, ids)
    ensures x in ids && Left(reg, st', x) < Left(reg, st, x) ==> LeftSum(reg, st', ids) < LeftSum(reg, st, ids)
  {
    hide Left;
    if ids != [] {
      var n := |ids| - 1;
      LeftSumFalls(reg, st, st', ids[..n], x);
      assert ids == ids[..n] + [ids[n]];
    }
  }

  lemma {:induction false} LeftSumIsWithin(reg: Registry, st: Store, ids: seq<string>)
    requires ValidRegistry(reg) && Inv(reg, st) && forall i :: 0 <= i < |ids| ==> ids[i] in st.instances
    ensures 0 <= LeftSum(reg, st, ids) <= NodeSum(reg, st, ids)
  {
    hide Inv, ValidRegistry;
    if ids != [] {
      var n := |ids| - 1;
      LeftSumIsWithin(reg, st, ids[..n]);
      LeftIsPositive(reg, st, ids[n]);
    }
  }

  lemma MembersAreListed(st: Store, ids: seq<string>)
    requires Enumerates(ids, st.instances.Keys)
    ensures forall i :: 0 <= i < |ids| ==> ids[i] in st.instances
    ensures forall x :: x in st.instances ==> x in ids
  {
    forall i | 0 <= i < |ids|
      ensures ids[i] in st.instances
    {
      assert ids[i] in ids;
    }
  }

  /** A tick while a member still runs. */
  lemma FamilyTick(reg: Registry, w: World, st: Store, id: string, ids: seq<string>, rank: Ranking)
    requires ValidRegistry(reg) && Inv(reg, st) && AllFine(reg, st, rank) && ValidWorld(w) && AllRestless(w, st)
    requires Enumerates(ids, st.instances.Keys) && id in st.instances && st.instances[id].status == Running
    ensures var s := RunOnce(reg, w, st);
            && s.error.None? && GoesOnFine(reg, st, s.store, rank)
            && 0 <= LeftSum(reg, s.store, ids) < LeftSum(reg, st, ids)
  {
    hide Inv, ValidRegistry, ValidWorld, RunOnce, AllRestless, AllFine, Left, LeftSum, Enumerates;
    var ripe := SomebodyIsRipe(reg, st, id, rank);
    TickKeepsFamily(reg, w, st, ripe, rank);
    var st' := RunOnce(reg, w, st).store;
    MembersAreListed(st, ids);
    LeftSumFalls(reg, st, st', ids, ripe);
    LeftSumIsWithin(reg, st', ids);
  }

  lemma {:induction false} FamilyDrainsFrom(reg: Registry, worlds: nat -> World, st: Store, id: string,
          ids: seq<string>, rank: Ranking, maxHops: int, hops: nat)
    requires ValidRegistry(reg) && Inv(reg, st) && AllFine(reg, st, rank) && id in st.instances
    requires Enumerates(ids, st.instances.Keys)
    requires forall i :: ValidWorld(worlds(i)) && AllRestless(worlds(i), st)
    requires LeftSum(reg, st, ids) <= maxHops - hops
    ensures var d := DrainFrom(reg, worlds, st, id, maxHops, hops);
            && d.outcome == Finished && id in d.store.instances && d.instance == Some(d.store.instances[id])
            && d.store.instances[id].status in {Completed, Failed, Compensated}
    decreases maxHops - hops
  {
    hide Inv, ValidRegistry, ValidWorld, RunOnce, AllRestless, Left, LeftSum, Enumerates;
    assert Fine(reg, st, id, rank);
    if st.instances[id].status == Running {
      FamilyTick(reg, worlds(hops), st, id, ids, rank);
      var st' := RunOnce(reg, worlds(hops), st).store;
      forall i
        ensures AllRestless(worlds(i), st')
      {
        RestlessStays(worlds(i), st, st');
      }
      FamilyDrainsFrom(reg, worlds, st', id, ids, rank, maxHops, hops + 1);
    }
  }

  /** A family in which nobody waits or compensates, whose units answer gently, whose types match and
      predicates evaluate, and whose JOIN nodes name children further down: draining any member brings
      it to its end within one hop for each node of all the graphs together, and no tick fails. */
  lemma FamilyDrains(reg: Registry, calls: seq<Call>, worlds: nat -> World, st: Store, id: string, ids: seq<string>,
          rank: Ranking, o: DrainOptions)
    requires ValidRegistry(reg) && ValidCalls(calls) && st == Run(reg, calls) && id != "" && id in st.instances
    requires AllFine(reg, st, rank) && Enumerates(ids, st.instances.Keys)
    requires forall i :: ValidWorld(worlds(i)) && AllRestless(worlds(i), st)
    requires DrainLimit(reg, st, id, o) >= NodeSum(reg, st, ids)
    ensures var d := DrainInstance(reg, worlds, st, id, o);
            && d.outcome == Finished && id in d.store.instances && d.instance == Some(d.store.instances[id])
            && d.store.instances[id].status in {Completed, Failed, Compensated}
  {
    hide Inv, ValidRegistry, ValidWorld, RunFrom, DrainFrom, AllFine, AllRestless, DrainLimit, Enumerates;
    ReachableInv(reg, calls);
    MembersAreListed(st, ids);
    LeftSumIsWithin(reg, st, ids);
    FamilyDrainsFrom(reg, worlds, st, id, ids, rank, DrainLimit(reg, st, id, o), 0);
  }
}
