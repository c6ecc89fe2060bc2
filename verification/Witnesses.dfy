/** Concrete runs in which the engine does not do what its documentation asks for. */
module Witnesses {
  import opened Wrappers
  import opened Entities
  import opened Graphs
  import opened Routing
  import opened Conditions
  import opened Idempotency
  import opened Lines
  import opened Registries
  import opened Scheduling
  import opened Steps
  import opened Joins
  import opened Runs
  import opened Ticks
  import opened DrainBudget
  import opened Guarantees
  import opened Deliveries
  import opened Retries
  import opened Spawns
  import opened Samples

  // ---------- the retry budget ----------

  function OneUnit(budget: int): Registry
  {
    SmallRegistry(map[VERSION := OneStep(CALLING)], budget)
  }

  lemma OneUnitIsValid(budget: int)
    ensures ValidRegistry(OneUnit(budget))
  {
    OneStepIsValid(CALLING);
  }

  lemma BegunIsReady(budget: int)
    ensures var st := Run(OneUnit(budget), BEGUN);
            && ValidRegistry(OneUnit(budget)) && Inv(OneUnit(budget), st) && Lone(st, "e") && st.executions == map[]
            && ReadyToCompute(OneUnit(budget), st, "e", OneStep(CALLING), CALLING)
            && st.instances["e"].snapshot == Snapshot(KIND, 0, None)
  {
    hide ValidRegistry, Inv, ReadyToCompute, Lone, RunFrom;
    OneUnitIsValid(budget);
    StartsReady(OneUnit(budget), Request("e", VERSION), OneStep(CALLING));
  }

  lemma {:induction false} AttemptsClimb(w: World, budget: int, n: nat)
    requires ValidWorld(w) && budget >= 1 && n <= budget
    ensures var reg, st := OneUnit(budget), Run(OneUnit(budget), Ticking(BEGUN, Answering(w, ExecuteFailed), n));
            && Lone(st, "e") && ReadyToCompute(reg, st, "e", OneStep(CALLING), CALLING) && OwnAttempt(st, "e") == n
    decreases n
  {
    hide ValidRegistry, Inv, Sound, RunOnce, ProcessInstance, OwnAttempt;
    var reg, failing := OneUnit(budget), Answering(w, ExecuteFailed);
    BegunIsReady(budget);
    if n == 0 {
      NoAttemptYet(Run(reg, BEGUN), "e");
    } else {
      var before := Ticking(BEGUN, failing, n - 1);
      var st := Run(reg, before);
      AttemptsClimb(w, budget, n - 1);
      RunOneMore(reg, EMPTY_STORE, before, Tick(failing));
      LoneTick(reg, failing, st, "e");
      FailingTurn(reg, failing, st, "e", OneStep(CALLING), CALLING);
      TickingIsValid(BEGUN, failing, n);
      ReachableInv(reg, Ticking(BEGUN, failing, n));
      StillReady(reg, st, RunOnce(reg, failing, st).store, "e", OneStep(CALLING), CALLING);
    }
  }

  lemma NoAttemptYet(st: Store, id: string)
    requires id in st.instances && st.executions == map[]
    ensures OwnAttempt(st, id) == 0
  {
  }

  /** With a retry budget of 5 the first error comes with the sixth failure: in general, of the ticks
      in which the unit fails, the first `budget` ones report nothing. */
  lemma ErrorComesOneLate(w: World, budget: int, n: nat)
    requires ValidWorld(w) && budget >= 1 && n <= budget
    ensures var reg, failing := OneUnit(budget), Answering(w, ExecuteFailed);
            var calls := Ticking(BEGUN, failing, n);
            && ValidRegistry(reg) && ValidCalls(calls) && MaxAttempts(reg, "u") == budget
            && RunOnce(reg, failing, Run(reg, calls)).error == if n < budget then None else Some(ExecutionFailed)
  {
    hide ValidRegistry, Sound, RunOnce, ProcessInstance, RunFrom, OwnAttempt;
    var reg, failing := OneUnit(budget), Answering(w, ExecuteFailed);
    OneUnitIsValid(budget);
    AttemptsClimb(w, budget, n);
    TickingIsValid(BEGUN, failing, n);
    var st := Run(reg, Ticking(BEGUN, failing, n));
    LoneTick(reg, failing, st, "e");
    FailingTurn(reg, failing, st, "e", OneStep(CALLING), CALLING);
  }

  // ---------- a spawn that fails halfway ----------

  const FINE := SpawnSpec("k", KIND, None, VERSION, "")
  const GRAPHLESS := SpawnSpec("l", KIND, None, GraphVersion("", ""), "")
  const SPECS: seq<SpawnSpec> := [FINE, GRAPHLESS]

  lemma SpecsAreHalfGood(budget: int, st: Store)
    requires "k" !in st.instances
    ensures var reg := OneUnit(budget);
            && Startable(reg, SPECS[0]) && GoodSpec(reg, st, SPECS, 0) && !GoodSpec(reg, st, SPECS, 1)
            && SpecError(reg, SPECS[1]) == InvalidSpawn && forall k :: StopsAt(reg, st, SPECS, k) ==> k == 1
  {
  }

  lemma AsksForChildren(w: World, budget: int)
    requires ValidWorld(w)
    ensures var reg, first := OneUnit(budget), Answering(w, Executed(Some(SpawnIntent(SPECS))));
            && AnswersSpawn(reg, first, "e", CALLING, Snapshot(KIND, 0, None), SPECS) && ValidWorld(first)
  {
    assert Takes(NO_EVAL, CALLING.transitions, Snapshot(KIND, 1, None), None, 0);
  }

  lemma LeavesHalf(w: World)
    requires ValidWorld(w)
    ensures var reg, first := OneUnit(3), Answering(w, Executed(Some(SpawnIntent(SPECS))));
            var st := Run(reg, BEGUN);
            var failed := RunOnce(reg, first, st);
            "k" !in st.instances && "k" in failed.store.instances && failed.error == Some(InvalidSpawn)
  {
    hide ValidRegistry, Inv, Sound, ValidWorld, RunOnce, ProcessInstance, RunFrom, Startable, StopsAt, GoodSpec,
         SpecError, AnswersSpawn;
    var reg, first := OneUnit(3), Answering(w, Executed(Some(SpawnIntent(SPECS))));
    var st := Run(reg, BEGUN);
    BegunIsReady(3);
    AsksForChildren(w, 3);
    SpecsAreHalfGood(3, st);
    LoneTick(reg, first, st, "e");
    var k := FailedSpawnTurn(reg, first, st, "e", OneStep(CALLING), CALLING, SPECS);
    assert SPECS[0].entityId == "k";
  }

  /** The unit asks for the child "k" and for one without a graph.  The first tick refuses that as an
      invalid spawn, and yet "k" exists; and if the unit goes on asking for the same, then whatever
      else is called, "e" stays where it is and every turn of it fails because "k" exists. */
  lemma HalfASpawn(w: World, more: seq<Call>, late: World)
    requires ValidWorld(w) && ValidCalls(more) && Cancel("e") !in more && ValidWorld(late)
    requires KeepsSpawning(OneUnit(3), more + [Tick(late)], "e", CALLING, Snapshot(KIND, 0, None), SPECS)
    ensures var reg, first := OneUnit(3), Answering(w, Executed(Some(SpawnIntent(SPECS))));
            var st := Run(reg, BEGUN);
            var failed := RunOnce(reg, first, st);
            var st' := RunFrom(reg, failed.store, more);
            && ValidRegistry(reg) && failed.error == Some(InvalidSpawn)
            && "k" !in st.instances && "k" in failed.store.instances
            && "e" in st.instances && "e" in st'.instances && st'.instances["e"] == st.instances["e"]
            && if HasTurn(reg, late, st', "e") then RunOnce(reg, late, st').error == Some(InstanceAlreadyExists)
               else Starved(st', RunOnce(reg, late, st'), "e")
  {
    hide ValidRegistry, Inv, Sound, ValidWorld, RunOnce, RunFrom, HasTurn, Starved, Startable, StopsAt, GoodSpec,
         SpecError, AnswersSpawn;
    var reg, first := OneUnit(3), Answering(w, Executed(Some(SpawnIntent(SPECS))));
    var st := Run(reg, BEGUN);
    BegunIsReady(3);
    AsksForChildren(w, 3);
    LeavesHalf(w);
    SpecsAreHalfGood(3, st);
    LoneHasTurn(reg, first, st, "e");
    var all := [Tick(first)] + more + [Tick(late)];
    assert all == [Tick(first)] + (more + [Tick(late)]);
    FailedSpawnIsStuck(reg, BEGUN, first, more, late, st, "e", OneStep(CALLING), CALLING, SPECS);
  }

  // ---------- a timeout without a target ----------

  const GHOSTLY: Node := WaitFor(Always(true), 1, "ghost")

  function GhostRegistry(): Registry
  {
    SmallRegistry(map[VERSION := OneStep(GHOSTLY)], 0)
  }

  /** The validator accepts a WAIT node whose timeout target is no node; an instance that waits there
      waits past its deadline in every world. */
  lemma GhostTarget(w: World, late: World)
    requires ValidWorld(w) && ValidWorld(late)
    ensures WellFormed(OneStep(GHOSTLY)) && ValidRegistry(GhostRegistry()) && "ghost" !in OneStep(GHOSTLY).nodes
    ensures var reg := GhostRegistry();
            var st := Run(reg, [Start(Request("e", VERSION)), Tick(w)]);
            && "e" in st.instances && st.instances["e"].status == Waiting
            && st.instances["e"].waiting == Some(WaitRecord(Some(w.now + 1), "ghost", "go", []))
            && RunOnce(reg, late, st) == Done(st)
  {
    hide WellFormed, RunFrom, RunOnce;
    OneStepIsValid(GHOSTLY);
    var reg := GhostRegistry();
    EntersWait(reg, w, Request("e", VERSION), OneStep(GHOSTLY), GHOSTLY);
    var st := Run(reg, [Start(Request("e", VERSION)), Tick(w)]);
    VoidTimeoutSticks(reg, late, st, "e");
  }

  // ---------- a delivery that is lost ----------

  const WANTS_YES: Node := WaitFor(OnSignal("go", Some(FieldPredicate("", "", ""))), 0, "")

  /** The predicate asks whether the payload is "yes". */
  function SignalRegistry(): Registry
  {
    SmallRegistry(map[VERSION := OneStep(WANTS_YES)], 0)
    .(eval := (p: FieldPredicate, payload: Payload) => if payload.value == "yes" then Matches else Fails)
  }

  function Answer(payload: string): Delivery
  {
    Delivery("e", "go", "1", Some(Payload("", payload)))
  }

  /** The signal "go" with the answer "yes" ends the instance.  If the answer "no" comes first, it is
      refused, and the same delivery id is ignored from then on, even with "yes". */
  lemma LostDelivery(w: World, more: seq<Call>)
    requires ValidWorld(w) && ValidCalls(more)
    ensures var reg, calls := SignalRegistry(), [Start(Request("e", VERSION)), Tick(w)];
            var st := Run(reg, calls);
            var refused := DeliverSignal(reg, st, Answer("no"));
            var later := RunFrom(reg, refused.store, more);
            && ValidRegistry(reg) && "e" in st.instances && st.instances["e"].status == Waiting
            && DeliverSignal(reg, st, Answer("yes")).error == None
            && refused.error == Some(NoTransition) && refused.store.instances == st.instances
            && DeliverSignal(reg, later, Answer("yes")).store == later
  {
    hide WellFormed, RunFrom, RunOnce, DeliverSignal, Deliverable;
    OneStepIsValid(WANTS_YES);
    var reg, calls := SignalRegistry(), [Start(Request("e", VERSION)), Tick(w)];
    EntersWait(reg, w, Request("e", VERSION), OneStep(WANTS_YES), WANTS_YES);
    var st := Run(reg, calls);
    var rec, g := st.instances["e"], OneStep(WANTS_YES);
    YesIsDeliverable();
    DeliveredIff(reg, calls, st, Answer("yes"), rec, g);
    NoIsRefused(st);
    FailedDeliveryIsSpent(reg, calls, st, Answer("no"), rec, g, more, Answer("yes"));
  }

  lemma YesIsDeliverable()
    ensures var snap := Snapshot(KIND, 0, None);
            && Deliverable(SignalRegistry(), WANTS_YES, snap, Answer("yes"))
            && !Deliverable(SignalRegistry(), WANTS_YES, snap, Answer("no"))
  {
    var reg := SignalRegistry();
    var seen := SeenSnapshot(reg, WANTS_YES, Snapshot(KIND, 0, None), Answer("yes"));
    assert Takes(reg.eval, WANTS_YES.transitions, seen, Some("go"), 0);
  }

  lemma NoIsRefused(st: Store)
    requires "e" in st.instances && st.signals == {} && Accepts(st.instances["e"], "go")
    requires var rec := st.instances["e"];
             rec.status == Waiting && rec.graph == VERSION && rec.currentNode == "A"
             && rec.snapshot == Snapshot(KIND, 0, None)
    ensures DeliverSignal(SignalRegistry(), st, Answer("no")).error == Some(NoTransition)
  {
    hide ResolveTransitions;
    RoutesByOne(SignalRegistry().eval, WANTS_YES, Snapshot(KIND, 0, Some(Payload("", "no"))), Some("go"));
  }

  // ---------- starvation ----------

  const STRANGE: Node := Via("A", Compute, "unknown", Always(true), "T")

  function StrangeRegistry(): Registry
  {
    SmallRegistry(map[VERSION := OneStep(CALLING), OTHER_VERSION := OneStep(STRANGE)], 3)
  }

  const BORN_C: Record := NewRecord(Request("c", VERSION), "A")
  const BORN_A: Record := NewRecord(Request("a", OTHER_VERSION), "A")
  const BEGUN_HOP: map<Key, Execution> := map[HopKey("c", "A", 0) := Execution("A", 0, ExecutionRunning, 0)]

  /** "c" compensates, with nothing to undo, and "a" stands at a node whose unit nobody registered. */
  const BOTH: Store := Store(map["c" := BORN_C.(status := Compensating), "a" := BORN_A], BEGUN_HOP, {}, [])

  function StartBoth(w: World): seq<Call>
  {
    [Start(Request("c", VERSION)), Tick(Answering(w, Executed(Some(FailIntent(true))))),
     Start(Request("a", OTHER_VERSION))]
  }

  lemma StrangeIsValid()
    ensures ValidRegistry(StrangeRegistry())
  {
    OneStepIsValid(CALLING);
    OneStepIsValid(STRANGE);
  }

  lemma FailsAtOnce(w: World)
    requires ValidWorld(w)
    ensures var failing := Answering(w, Executed(Some(FailIntent(true))));
            Run(StrangeRegistry(), [Start(Request("c", VERSION)), Tick(failing)])
            == Single("c", BORN_C.(status := Compensating), BEGUN_HOP, {})
  {
    var reg, req, failing := StrangeRegistry(), Request("c", VERSION), Answering(w, Executed(Some(FailIntent(true))));
    StartsSingle(reg, req);
    assert [Start(req)] + [Tick(failing)] == [Start(req), Tick(failing)];
    RunOneMore(reg, EMPTY_STORE, [Start(req)], Tick(failing));
    LoneTick(reg, failing, Single("c", BORN_C, map[], {}), "c");
  }

  lemma BothStart(w: World)
    requires ValidWorld(w)
    ensures Run(StrangeRegistry(), StartBoth(w)) == BOTH
  {
    hide RunFrom;
    var reg, req := StrangeRegistry(), Request("a", OTHER_VERSION);
    FailsAtOnce(w);
    var calls := [Start(Request("c", VERSION)), Tick(Answering(w, Executed(Some(FailIntent(true)))))];
    assert StartBoth(w) == calls + [Start(req)];
    RunOneMore(reg, EMPTY_STORE, calls, Start(req));
    StartsA();
  }

  lemma StartsA()
    ensures StartInstance(StrangeRegistry(), Single("c", BORN_C.(status := Compensating), BEGUN_HOP, {}),
                          Request("a", OTHER_VERSION)) == Done(BOTH)
  {
    var compensating := BORN_C.(status := Compensating);
    assert map["c" := compensating]["a" := BORN_A] == map["c" := compensating, "a" := BORN_A];
  }

  /** A tick that visits first x and then y. */
  lemma BothInTurn(w: World, x: string, y: string)
    requires x in {"a", "c"} && y in {"a", "c"} && x != y && w.order(RunnableSite, {"a", "c"}) == [x, y]
    ensures var reg := StrangeRegistry();
            && TimeoutsOf(w, BOTH) == [] && RunnableOf(w, BOTH) == [x, y]
            && RunOnce(reg, w, BOTH) == ProcessAll(reg, w, BOTH, [x] + [y])
  {
    hide RunOnce, ProcessAll, RunnableIn;
    NoWaitIsOver(StrangeRegistry(), w, BOTH);
    assert BOTH.instances.Keys == {"a", "c"};
    AllAreListed(BOTH, [x, y]);
    assert [x] + [y] == [x, y];
  }

  lemma StrangeFails(w: World, st: Store)
    requires "a" in st.instances && st.instances["a"] == BORN_A
    ensures ProcessInstance(StrangeRegistry(), w, st, "a") == Fail(st, UnitNotFound)
  {
  }

  lemma NothingToUndo(w: World)
    ensures var s := ProcessInstance(StrangeRegistry(), w, BOTH, "c");
            && s.error.None? && "c" in s.store.instances && s.store.instances["c"].status == Completed
            && "a" in s.store.instances && s.store.instances["a"] == BORN_A
  {
    hide ResolveTransitions;
    RoutesByOne(NO_EVAL, CALLING, BORN_C.snapshot, None);
  }

  lemma StarvesTick(w: World)
    requires ValidWorld(w)
    ensures var reg, late := StrangeRegistry(), Listing(w, ["a", "c"]);
            ValidWorld(late) && RunOnce(reg, late, BOTH) == Fail(BOTH, UnitNotFound) && !HasTurn(reg, late, BOTH, "c")
  {
    hide ProcessInstance, RunOnce, ProcessAll, ValidWorld;
    var reg, late := StrangeRegistry(), Listing(w, ["a", "c"]);
    ListingIsValid(w, ["a", "c"], RunnableSite, {"a", "c"});
    BothInTurn(late, "a", "c");
    StrangeFails(late, BOTH);
    NextTurn(reg, late, BOTH, "a", ["c"]);
    NoneToDo(reg, late, BOTH);
  }

  lemma EndsIfFirst(w: World)
    requires ValidWorld(w)
    ensures var s := RunOnce(StrangeRegistry(), Listing(w, ["c", "a"]), BOTH);
            "c" in s.store.instances && s.store.instances["c"].status == Completed
  {
    hide RunOnce, ProcessAll, ProcessInstance, ValidWorld;
    var reg, late := StrangeRegistry(), Listing(w, ["c", "a"]);
    ListingIsValid(w, ["c", "a"], RunnableSite, {"a", "c"});
    BothInTurn(late, "c", "a");
    NothingToUndo(late);
    NextTurn(reg, late, BOTH, "c", ["a"]);
    var st := ProcessInstance(reg, late, BOTH, "c").store;
    StrangeFails(late, st);
    NextTurn(reg, late, st, "a", []);
    assert ["a"] + [] == ["a"];
  }

  lemma {:induction false} StaysStarved(w: World, n: nat)
    requires ValidWorld(w)
    ensures Run(StrangeRegistry(), Ticking(StartBoth(w), Listing(w, ["a", "c"]), n)) == BOTH
    decreases n
  {
    hide RunOnce, Listing, ValidWorld;
    if n == 0 {
      BothStart(w);
    } else {
      StaysStarved(w, n - 1);
      StarvesTick(w);
      RunOneMore(StrangeRegistry(), EMPTY_STORE, Ticking(StartBoth(w), Listing(w, ["a", "c"]), n - 1),
                 Tick(Listing(w, ["a", "c"])));
    }
  }

  /** One turn would end the compensation of "c".  But whenever the range over the instances visits
      "a" first, the error of "a" ends the tick before that turn, and nothing has changed: if that
      goes on, "c" stays COMPENSATING forever. */
  lemma Starvation(w: World, n: nat)
    requires ValidWorld(w)
    ensures var reg, calls, late := StrangeRegistry(), StartBoth(w), Listing(w, ["a", "c"]);
            var st := Run(reg, Ticking(calls, late, n));
            && ValidRegistry(reg) && ValidWorld(late) && st == Run(reg, calls)
            && "c" in st.instances && st.instances["c"].status == Compensating && st.instances["c"].stack == []
            && RunOnce(reg, late, st) == Fail(st, UnitNotFound) && !HasTurn(reg, late, st, "c")
            && var other := RunOnce(reg, Listing(w, ["c", "a"]), st).store;
               "c" in other.instances && other.instances["c"].status == Completed
  {
    hide ValidRegistry, RunFrom, RunOnce, HasTurn, ValidWorld, Listing;
    StrangeIsValid();
    BothStart(w);
    StaysStarved(w, n);
    StarvesTick(w);
    EndsIfFirst(w);
  }

  // ---------- a timeout target that is no terminal ----------

  /** A WAIT node that names itself as its timeout target, and carries an outcome. */
  function Recurring(outcome: TerminalOutcome): Node
  {
    WaitFor(Always(true), 1, "A").(outcome := outcome)
  }

  /** When the wait is over the instance ends at the WAIT node: COMPLETED if that carries SUCCESS, and
      else FAILED. */
  lemma EndsAtNoTerminal(w: World, late: World, outcome: TerminalOutcome)
    requires ValidWorld(w) && ValidWorld(late) && late.now > w.now
    ensures var reg, calls := SmallRegistry(map[VERSION := OneStep(Recurring(outcome))], 0),
                              [Start(Request("e", VERSION)), Tick(w)];
            var st := Run(reg, calls);
            var ended := RunOnce(reg, late, st).store;
            && WellFormed(OneStep(Recurring(outcome))) && ValidRegistry(reg) && ValidCalls(calls)
            && "e" in st.instances && st.instances["e"].status == Waiting && "e" in ended.instances
            && ended.instances["e"].currentNode == "A" && Recurring(outcome).kind == Wait
            && ended.instances["e"].status == if outcome == Success then Completed else Failed
  {
    hide WellFormed, RunFrom, RunOnce;
    OneStepIsValid(Recurring(outcome));
    var reg, calls := SmallRegistry(map[VERSION := OneStep(Recurring(outcome))], 0),
        [Start(Request("e", VERSION)), Tick(w)];
    EntersWait(reg, w, Request("e", VERSION), OneStep(Recurring(outcome)), Recurring(outcome));
    var st := Run(reg, calls);
    TickEndsDueWaits(reg, calls, late, st, "e", st.instances["e"], OneStep(Recurring(outcome)));
  }
}
