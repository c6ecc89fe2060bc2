/**
 Runs that compensate a whole chain of nodes.

 A chain of height h has h nodes whose unit succeeds and has a compensator, then a node whose unit
 fails and asks for compensation, and then a terminal.
 */
module Chains {
  import opened Wrappers
  import opened Entities
  import opened Graphs
  import opened Routing
  import opened Idempotency
  import opened Lines
  import opened Registries
  import opened Scheduling
  import opened Steps
  import opened InstanceSteps
  import opened Runs
  import opened Ticks
  import opened Compensation
  import opened Retries
  import opened Samples

  // ---------- the graph ----------

  function Name(i: nat): (r: string)
    ensures |r| == i + 1
  {
    seq(i + 1, _ => 'n')
  }

  function Link(i: nat): Node
  {
    if i == 0 then Via(Name(0), Compute, "v", Always(true), "T")
    else Via(Name(i), Compute, "u", Always(true), Name(i - 1)).(compensatorUnitId := "c")
  }

  function Links(h: nat): map<string, Node>
  {
    if h == 0 then map["T" := LAST, Name(0) := Link(0)] else Links(h - 1)[Name(h) := Link(h)]
  }

  function ChainGraph(h: nat): GraphSpec
  {
    GraphSpec(Name(h), Links(h))
  }

  ghost predicate IsName(id: string, h: nat)
  {
    1 <= |id| <= h + 1 && id == Name(|id| - 1)
  }

  function LinkNamed(id: string): Node
  {
    if id == "T" then LAST else if |id| == 0 then Link(0) else Link(|id| - 1)
  }

  lemma {:induction false} Members(h: nat)
    ensures forall id :: id in Links(h) <==> id == "T" || IsName(id, h)
    ensures forall id :: id in Links(h) ==> Links(h)[id] == LinkNamed(id)
  {
    hide Link;
    TIsNoName(0);
    if h > 0 {
      Members(h - 1);
      TIsNoName(h);
    }
  }

  lemma Member(h: nat, i: nat)
    requires i <= h
    ensures Name(i) in Links(h) && Links(h)[Name(i)] == Link(i) && Name(i) != "T"
  {
    hide Link, Name, Links;
    Members(h);
    TIsNoName(i);
  }

  /** Where the link leads. */
  function After(i: nat): string
  {
    if i == 0 then "T" else Name(i - 1)
  }

  lemma OneWayOn(i: nat)
    ensures |Link(i).transitions| == 1 && Link(i).transitions[0].target == After(i)
  {
    hide Name;
  }

  lemma TIsNoName(i: nat)
    ensures Name(i) != "T"
  {
    assert Name(i)[0] == 'n' && "T"[0] == 'T';
  }

  lemma AfterIsThere(h: nat, i: nat)
    requires i <= h
    ensures After(i) in Links(h) && After(i) != ""
  {
    hide Link, Links, Name;
    Members(h);
    if i > 0 {
      Member(h, i - 1);
    }
  }

  lemma LinkIsValid(h: nat, i: nat)
    requires i <= h
    ensures NodeValid(ChainGraph(h), Name(i), Link(i))
  {
    hide Name, Links;
    OneWayOn(i);
    AfterIsThere(h, i);
  }

  function Path(h: nat): (p: seq<string>)
    ensures |p| >= 2 && p[0] == Name(h) && p[1] == After(h)
  {
    if h == 0 then [Name(0), "T"] else [Name(h)] + Path(h - 1)
  }

  lemma LinkEdge(h: nat, i: nat)
    requires i <= h
    ensures Edge(ChainGraph(h), Name(i), After(i))
  {
    hide Name, Links, Link;
    Member(h, i);
    OneWayOn(i);
  }

  lemma {:induction false} PathLeadsToT(h: nat, i: nat)
    requires i <= h
    ensures RouteTo(ChainGraph(h), Path(i), Name(i))
  {
    hide Name, Links, Link;
    var g, p := ChainGraph(h), Path(i);
    Member(h, i);
    Members(h);
    LinkEdge(h, i);
    assert RouteAt(g, p, 0);
    if i > 0 {
      var rest := Path(i - 1);
      PathLeadsToT(h, i - 1);
      forall k | 0 < k < |p| - 1
        ensures RouteAt(g, p, k)
      {
        assert RouteAt(g, rest, k - 1);
      }
    }
  }

  lemma ChainIsRanked(h: nat)
    ensures Acyclic(ChainGraph(h))
  {
    hide Name, Links, Link;
    var g := ChainGraph(h);
    Members(h);
    var rank: map<string, nat> := map id | id in g.nodes :: if id == "T" then 0 else |id|;
    forall a, b | a in rank && Edge(g, a, b)
      ensures b in rank && rank[b] < rank[a]
    {
      if a != "T" {
        OneWayOn(|a| - 1);
        AfterIsThere(h, |a| - 1);
      }
    }
    assert Ranks(g, rank);
    RankedIsAcyclic(g, rank);
  }

  lemma ChainIsValid(h: nat)
    ensures WellFormed(ChainGraph(h))
  {
    hide Name, Links, Link, Acyclic, RouteTo, Path;
    var g := ChainGraph(h);
    Members(h);
    Member(h, h);
    ChainIsRanked(h);
    PathLeadsToT(h, h);
    forall id | id in g.nodes
      ensures NodeValid(g, id, g.nodes[id])
    {
      if id != "T" {
        LinkIsValid(h, |id| - 1);
      }
    }
  }

  // ---------- the run ----------

  function ChainRegistry(h: nat, compensators: set<string>): Registry
  {
    Registry(map[KIND := TypeRegistration("", {})], map[VERSION := ChainGraph(h)],
             map["u" := UnitDef(KIND, {}, 1), "v" := UnitDef(KIND, {}, 1)], {"u", "v"}, compensators, 0,
             NO_EVAL, (before: Payload, signal: string, now: Payload) => None)
  }

  /** "u" succeeds, "v" fails and asks for compensation, and every compensator succeeds. */
  function Working(w: World): World
  {
    w.(execute := (id: string, unitId: string, snap: Snapshot) =>
         Executed(Some(if unitId == "u" then NoIntent else FailIntent(true))),
       compensate := (id: string, f: Frame, attempt: int, payload: Option<Payload>) => true)
  }

  /** What a hop without an intent to the next computing node makes of the instance. */
  ghost predicate Hopped(st: Store, s: Step, id: string, node: Node, next: string)
  {
    && id in st.instances && s.error.None? && s.store.calls == st.calls && s.store.instances.Keys == st.instances.Keys
    && var rec, rec' := st.instances[id], s.store.instances[id];
       && rec'.status == Running && rec'.currentNode == next && rec'.typeKey == rec.typeKey
       && rec'.graph == rec.graph && rec'.snapshot.typeKey == rec.snapshot.typeKey
       && rec'.stack == rec.stack + FramesFor(node, rec.sequence + 1, rec.snapshot.(sequence := rec.sequence + 1))
  }

  lemma PlainCommit(reg: Registry, w: World, st: Store, id: string, g: GraphSpec, node: Node, next: string, key: Key)
    requires id in st.instances && node.unitId in reg.units && node.nodeId in g.nodes && g.nodes[node.nodeId] == node
    requires Computing(node) && next in g.nodes && Computing(g.nodes[next])
    requires !IsJournaled(st.instances[id].journal, key, NodeCommitted)
    requires var rec := st.instances[id];
             var out := rec.snapshot.(sequence := rec.sequence + 1);
             && ResolveTransitions(reg.eval, node, out, None) == Ok(next)
             && CheckOutput(reg, rec.typeKey, reg.units[node.unitId], out).None?
    ensures Hopped(st, CommitCompute(reg, w, st, id, g, node, st.instances[id].snapshot, NoIntent, key), id, node, next)
  {
    hide SpawnAll, ResolveTransitions, CheckOutput, FramesFor;
  }

  lemma PlainHop(reg: Registry, w: World, st: Store, id: string, g: GraphSpec, node: Node, next: string)
    requires ReadyToCompute(reg, st, id, g, node) && next in g.nodes && Computing(g.nodes[next])
    requires w.execute(id, node.unitId, st.instances[id].snapshot) == Executed(Some(NoIntent))
    requires var rec := st.instances[id];
             var out := rec.snapshot.(sequence := rec.sequence + 1);
             && ResolveTransitions(reg.eval, node, out, None) == Ok(next)
             && CheckOutput(reg, rec.typeKey, reg.units[node.unitId], out).None?
    ensures Hopped(st, ProcessInstance(reg, w, st, id), id, node, next)
  {
    hide Sound, ValidRegistry, WellFormed, AdvanceAfterCommit, CommitCompute, ResolveTransitions, CheckOutput,
         FramesFor;
    HopIsFresh(reg, st, id, g, node);
    var rec, key := st.instances[id], HopKeyOf(st, id, node.nodeId);
    PlainCommit(reg, w, CreateExecution(st, key, Execution(node.nodeId, rec.sequence, ExecutionRunning, 0)),
                id, g, node, next, key);
  }

  lemma ChainRegistryIsValid(h: nat, cs: set<string>)
    ensures ValidRegistry(ChainRegistry(h, cs))
  {
    hide WellFormed, ChainGraph;
    ChainIsValid(h);
  }

  /** n nodes of the chain are behind the instance. */
  ghost predicate Climbed(h: nat, cs: set<string>, st: Store, n: nat)
  {
    && n <= h && Lone(st, "e") && ReadyToCompute(ChainRegistry(h, cs), st, "e", ChainGraph(h), Link(h - n))
    && st.calls == []
    && var rec := st.instances["e"];
       && rec.typeKey == KIND && rec.snapshot.typeKey == KIND && |rec.stack| == n
       && forall i :: 0 <= i < n ==> rec.stack[i].compensatorUnitId == "c"
  }

  lemma ChainStarts(h: nat, cs: set<string>)
    ensures Climbed(h, cs, Run(ChainRegistry(h, cs), BEGUN), 0)
  {
    hide ReadyToCompute, WellFormed, Name, Links;
    ChainRegistryIsValid(h, cs);
    Member(h, h);
    assert ChainGraph(h).entryNodeId == Name(h);
    StartsReady(ChainRegistry(h, cs), Request("e", VERSION), ChainGraph(h));
    StartsSingle(ChainRegistry(h, cs), Request("e", VERSION));
  }

  lemma LinkResolves(h: nat, cs: set<string>, i: nat, snap: Snapshot)
    ensures ResolveTransitions(ChainRegistry(h, cs).eval, Link(i), snap, None) == Ok(After(i))
  {
    hide ResolveTransitions, ChainGraph, Name;
    RoutesByOne(NO_EVAL, Link(i), snap, None);
  }

  lemma ClimbsOne(h: nat, cs: set<string>, w: World, st: Store, n: nat)
    requires ValidWorld(w) && Climbed(h, cs, st, n) && n < h
    requires Inv(ChainRegistry(h, cs), RunOnce(ChainRegistry(h, cs), Working(w), st).store)
    ensures Climbed(h, cs, RunOnce(ChainRegistry(h, cs), Working(w), st).store, n + 1)
  {
    hide Sound, Inv, ValidRegistry, WellFormed, ProcessInstance, RunOnce, ResolveTransitions, Name, Links;
    var reg, g := ChainRegistry(h, cs), ChainGraph(h);
    var rec := st.instances["e"];
    LoneTick(reg, Working(w), st, "e");
    LinkResolves(h, cs, h - n, rec.snapshot.(sequence := rec.sequence + 1));
    Member(h, h - n - 1);
    PlainHop(reg, Working(w), st, "e", g, Link(h - n), Name(h - n - 1));
    var st' := RunOnce(reg, Working(w), st).store;
    InvIsSound(reg, st', "e");
  }

  lemma {:induction false} ChainClimbs(h: nat, cs: set<string>, w: World, n: nat)
    requires ValidWorld(w) && n <= h
    ensures Climbed(h, cs, Run(ChainRegistry(h, cs), Ticking(BEGUN, Working(w), n)), n)
    decreases n
  {
    hide Inv, ValidRegistry, RunOnce, Climbed, ChainRegistry;
    var reg := ChainRegistry(h, cs);
    if n == 0 {
      ChainStarts(h, cs);
    } else {
      ChainClimbs(h, cs, w, n - 1);
      var before := Ticking(BEGUN, Working(w), n - 1);
      RunOneMore(reg, EMPTY_STORE, before, Tick(Working(w)));
      ChainRegistryIsValid(h, cs);
      TickingIsValid(BEGUN, Working(w), n);
      ReachableInv(reg, Ticking(BEGUN, Working(w), n));
      ClimbsOne(h, cs, w, Run(reg, before), n - 1);
    }
  }

  /** The instance stands at the last computing node and compensates h frames. */
  ghost predicate AtTheTop(h: nat, st: Store)
  {
    && Lone(st, "e") && st.calls == []
    && var rec := st.instances["e"];
       && rec.status == Compensating && rec.graph == VERSION && rec.currentNode == Name(0) && |rec.stack| == h
       && forall i :: 0 <= i < h ==> rec.stack[i].compensatorUnitId == "c"
  }

  lemma AsksToCompensate(h: nat, cs: set<string>, w: World, st: Store)
    requires ValidWorld(w) && Climbed(h, cs, st, h)
    ensures AtTheTop(h, RunOnce(ChainRegistry(h, cs), Working(w), st).store)
  {
    hide Sound, ValidRegistry, WellFormed, RunOnce, ResolveTransitions, AdvanceAfterCommit, CommitCompute, ChainGraph,
         Name;
    var reg := ChainRegistry(h, cs);
    assert Link(0).unitId == "v" && Link(0).nodeId == Name(0);
    LoneTick(reg, Working(w), st, "e");
    NeverResumed(reg, st, "e", ChainGraph(h), Link(0));
  }

  lemma TopIsReached(h: nat, cs: set<string>, w: World)
    requires ValidWorld(w)
    ensures var reg, calls := ChainRegistry(h, cs), Ticking(BEGUN, Working(w), h + 1);
            ValidRegistry(reg) && ValidCalls(calls) && ValidWorld(Working(w)) && AtTheTop(h, Run(reg, calls))
  {
    hide ValidRegistry, RunOnce, Climbed, AtTheTop, ChainRegistry;
    ChainRegistryIsValid(h, cs);
    ChainClimbs(h, cs, w, h);
    TickingIsValid(BEGUN, Working(w), h + 1);
    AsksToCompensate(h, cs, w, Run(ChainRegistry(h, cs), Ticking(BEGUN, Working(w), h)));
    RunOneMore(ChainRegistry(h, cs), EMPTY_STORE, Ticking(BEGUN, Working(w), h), Tick(Working(w)));
  }

  lemma EndsCompleted(h: nat, cs: set<string>, snap: Snapshot, status: Status)
    requires EndsAs(ChainRegistry(h, cs), ChainGraph(h), Name(0), snap, status)
    ensures status == Completed
  {
    hide Name, Links, Link, ResolveTransitions, LeadsToTerminal;
    Member(h, 0);
    Members(h);
    LinkResolves(h, cs, 0, snap);
    LeadingIsResolved(ChainRegistry(h, cs), ChainGraph(h), Name(0), snap, "T");
    assert LeadsToTerminal(ChainRegistry(h, cs), ChainGraph(h), Name(0), snap, "T");
  }

  /** For every height there is a run that compensates that many frames.  Up to 99 of them are undone
      in one tick, and the instance ends COMPLETED, not COMPENSATED.  From 100 on the tick undoes 100
      of them and reports an error, even if none is left. */
  lemma ChainCompensates(h: nat, w: World)
    requires ValidWorld(w)
    ensures var reg, calls := ChainRegistry(h, {"c"}), Ticking(BEGUN, Working(w), h + 1);
            var st := Run(reg, calls);
            var s := RunOnce(reg, Working(w), st);
            && ValidRegistry(reg) && ValidCalls(calls) && "e" in st.instances && "e" in s.store.instances
            && st.instances["e"].status == Compensating && |st.instances["e"].stack| == h && st.calls == []
            && |s.store.calls| == (if h <= 99 then h else 100)
            && (h <= 99 ==> s.error.None? && s.store.instances["e"].status == Completed)
            && (h >= 100 ==> s.error == Some(FramesExceeded) && s.store.instances["e"].status == Compensating
                             && |s.store.instances["e"].stack| == h - 100)
  {
    hide ValidRegistry, RunOnce, RunFrom, ProcessInstance, EndsAs, UndoCalls, ChainGraph, Name;
    var reg, calls := ChainRegistry(h, {"c"}), Ticking(BEGUN, Working(w), h + 1);
    TopIsReached(h, {"c"}, w);
    var st := Run(reg, calls);
    LoneTick(reg, Working(w), st, "e");
    TurnUndoesInReverse(reg, calls, Working(w), st, "e", ChainGraph(h));
    if h <= 99 {
      EndsCompleted(h, {"c"}, st.instances["e"].snapshot,
                    ProcessInstance(reg, Working(w), st, "e").store.instances["e"].status);
    }
  }

  /** The same run with no compensator registered: with one frame or more the instance stays
      COMPENSATING whatever else is called, short of a cancellation, and every turn fails. */
  lemma ChainIsOrphaned(h: nat, w: World, more: seq<Call>, late: World)
    requires ValidWorld(w) && h >= 1 && ValidCalls(more) && Cancel("e") !in more && ValidWorld(late)
    ensures var reg, calls := ChainRegistry(h, {}), Ticking(BEGUN, Working(w), h + 1);
            var st := Run(reg, calls);
            var st' := RunFrom(reg, st, more);
            && ValidRegistry(reg) && ValidCalls(calls) && Orphaned(reg, st, "e")
            && "e" in st'.instances && st'.instances["e"] == st.instances["e"]
            && if HasTurn(reg, late, st', "e") then RunOnce(reg, late, st').error == Some(CompensatorNotFound)
               else Starved(st', RunOnce(reg, late, st'), "e")
  {
    hide ValidRegistry, ValidWorld, RunOnce, RunFrom, ChainGraph, Name, HasTurn, Starved, Working;
    var reg, calls := ChainRegistry(h, {}), Ticking(BEGUN, Working(w), h + 1);
    TopIsReached(h, {}, w);
    UnregisteredCompensator(reg, calls, more, Run(reg, calls), "e", late);
  }
}
