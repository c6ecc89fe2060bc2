/** The golden path: a parent spawns two children, joins them, and is drained to its end. */
module GoldenPath {
  import opened Wrappers
  import opened Graphs
  import opened Routing
  import opened Idempotency
  import opened Lines
  import opened Registries
  import opened Scheduling
  import opened Runs
  import opened Ticks
  import opened Draining
  import opened DrainBudget
  import opened DrainFinish
  import opened DrainFamilies
  import opened Samples

  const MEET_BOTH: JoinSpec := JoinSpec([ChildEntity("x"), ChildEntity("y")], AllSuccess, true, [])
  const SPAWNING: Node := Via("A", Compute, "u", Always(true), "J")
  const MEETING: Node := Via("J", Join, "", Always(true), "T").(joinSpec := Some(MEET_BOTH))
  const PARENTAL := GraphSpec("A", map["A" := SPAWNING, "J" := MEETING, "T" := LAST])

  function FamilyRegistry(): Registry
  {
    SmallRegistry(map[VERSION := PARENTAL, OTHER_VERSION := OneStep(CALLING)], 3)
  }

  lemma ParentalIsValid()
    ensures WellFormed(PARENTAL)
  {
    var g, rank := PARENTAL, map["A" := 2, "J" := 1, "T" := 0];
    forall a, b | a in rank && Edge(g, a, b)
      ensures b in rank && rank[b] < rank[a]
    {
      var i :| 0 <= i < |g.nodes[a].transitions| && g.nodes[a].transitions[i].target == b;
    }
    assert Ranks(g, rank);
    RankedIsAcyclic(g, rank);
    var p := ["A", "J", "T"];
    assert SPAWNING.transitions[0].target == "J" && MEETING.transitions[0].target == "T";
    assert Edge(g, "A", "J") && Edge(g, "J", "T");
    assert RouteAt(g, p, 0) && RouteAt(g, p, 1) && RouteTo(g, p, "A");
  }

  lemma FamilyRegistryIsValid()
    ensures ValidRegistry(FamilyRegistry())
  {
    hide WellFormed;
    ParentalIsValid();
    OneStepIsValid(CALLING);
  }

  function Born(id: string): SpawnSpec
  {
    SpawnSpec(id, KIND, None, OTHER_VERSION, "")
  }

  function Spawning(w: World): World
  {
    Answering(w, Executed(Some(SpawnIntent([Born("x"), Born("y")]))))
  }

  function ChildRecord(id: string): Record
  {
    NewRecord(ChildRequest("p", Born(id)), "A")
  }

  lemma BothAreBorn(st: Store)
    requires st.instances.Keys == {"p"}
    ensures SpawnAll(FamilyRegistry(), st, "p", [Born("x"), Born("y")])
            == Done(WithRecord(WithRecord(st, "x", ChildRecord("x")), "y", ChildRecord("y")))
  {
    var reg, st' := FamilyRegistry(), WithRecord(st, "x", ChildRecord("x"));
    assert [Born("x"), Born("y")][1..] == [Born("y")] && [Born("y")][1..] == [];
    assert SpawnAll(reg, st', "p", [Born("y")]) == Done(WithRecord(st', "y", ChildRecord("y")));
  }

  /** The parent stands at its JOIN node, and its children have just been born. */
  ghost predicate Spawned(st: Store)
  {
    && st.instances.Keys == {"p", "x", "y"}
    && st.instances["x"] == ChildRecord("x") && st.instances["y"] == ChildRecord("y")
    && var rec := st.instances["p"];
       && rec.status == Running && rec.typeKey == KIND && rec.snapshot.typeKey == KIND && rec.graph == VERSION
       && rec.currentNode == "J"
  }

  lemma FirstHop(w: World)
    ensures var st := Single("p", NewRecord(Request("p", VERSION), "A"), map[], {});
            var s := ProcessInstance(FamilyRegistry(), Spawning(w), st, "p");
            s.error.None? && Spawned(s.store)
  {
    hide ResolveTransitions, SpawnAll;
    var rec := NewRecord(Request("p", VERSION), "A");
    var started := Single("p", rec, map[HopKey("p", "A", 0) := Execution("A", 0, ExecutionRunning, 0)], {});
    RoutesByOne(NO_EVAL, SPAWNING, rec.snapshot.(sequence := 1), None);
    BothAreBorn(started);
  }

  function SpawnCalls(w: World): seq<Call>
  {
    [Start(Request("p", VERSION)), Tick(Spawning(w))]
  }

  lemma Spawns(w: World)
    requires ValidWorld(w)
    ensures ValidRegistry(FamilyRegistry()) && ValidCalls(SpawnCalls(w))
    ensures Spawned(Run(FamilyRegistry(), SpawnCalls(w)))
  {
    hide RunOnce, ProcessInstance, StartInstance, ValidRegistry, Spawned;
    var reg, req, w' := FamilyRegistry(), Request("p", VERSION), Spawning(w);
    FamilyRegistryIsValid();
    PStarts();
    StartsSingle(reg, req);
    assert [Start(req)] + [Tick(w')] == SpawnCalls(w);
    RunOneMore(reg, EMPTY_STORE, [Start(req)], Tick(w'));
    LoneTick(reg, w', Single("p", NewRecord(req, "A"), map[], {}), "p");
    FirstHop(w);
  }

  lemma PStarts()
    ensures StartInstance(FamilyRegistry(), EMPTY_STORE, Request("p", VERSION)).error.None?
  {
  }

  function Rank(id: string): nat
  {
    if id == "p" then 1 else 0
  }

  lemma SpawnedIsFine(st: Store)
    requires Spawned(st)
    ensures AllFine(FamilyRegistry(), st, Rank)
  {
    hide Decisive, UnitFits;
    var reg := FamilyRegistry();
    MeetingIsDecisive(st);
    UnitIsFit();
    forall id | id in st.instances
      ensures Fine(reg, st, id, Rank)
    {
    }
  }

  lemma MeetingIsDecisive(st: Store)
    requires st.instances.Keys == {"p", "x", "y"}
    ensures Decisive(st.instances.Keys, "p", MEET_BOTH, Rank)
  {
  }

  lemma UnitIsFit()
    ensures UnitFits(FamilyRegistry(), "u", KIND)
  {
  }

  /** The parent has spawned its children and stands at the JOIN node that names them.  Whatever gentle
      answers the units give from then on, a drain with default options brings it to its end. */
  lemma ParentIsDrained(w: World, worlds: nat -> World)
    requires ValidWorld(w) && forall i :: ValidWorld(worlds(i)) && forall id :: Restless(worlds(i), id, KIND)
    ensures var reg, calls := FamilyRegistry(), SpawnCalls(w);
            var st := Run(reg, calls);
            var d := DrainInstance(reg, worlds, st, "p", DEFAULTS);
            && ValidRegistry(reg) && ValidCalls(calls) && Spawned(st)
            && d.outcome == Finished && "p" in d.store.instances
            && d.store.instances["p"].status in {Completed, Failed, Compensated}
  {
    hide ValidRegistry, ValidWorld, RunFrom, DrainFrom, AllFine, Restless;
    var reg, calls := FamilyRegistry(), SpawnCalls(w);
    var st := Run(reg, calls);
    Spawns(w);
    SpawnedIsFine(st);
    DerivedLimit(reg, st, "p", DEFAULTS);
    SevenNodes(st);
    forall i
      ensures AllRestless(worlds(i), st)
    {
      AllKinds(st);
    }
    FamilyDrains(reg, calls, worlds, st, "p", ["p", "x", "y"], Rank, DEFAULTS);
  }

  lemma AllKinds(st: Store)
    requires Spawned(st)
    ensures forall id :: id in st.instances ==> st.instances[id].typeKey == KIND
  {
  }

  lemma SevenNodes(st: Store)
    requires Spawned(st)
    ensures NodeSum(FamilyRegistry(), st, ["p", "x", "y"]) == 7
    ensures GetGraph(FamilyRegistry(), st.instances["p"].graph) == Ok(PARENTAL) && |PARENTAL.nodes| == 3
  {
    var reg := FamilyRegistry();
    assert PARENTAL.nodes.Keys == {"A", "J", "T"} && OneStep(CALLING).nodes.Keys == {"A", "T"};
    assert ["p", "x", "y"][..2] == ["p", "x"] && ["p", "x"][..1] == ["p"] && ["p"][..0] == [];
    assert NodeSum(reg, st, []) == 0;
    assert NodeSum(reg, st, ["p"]) == 3;
    assert NodeSum(reg, st, ["p", "x"]) == 5;
  }
}
