/** Concrete runs of a parent that joins two children. */
module Families {
  import opened Wrappers
  import opened Entities
  import opened Graphs
  import opened Routing
  import opened Idempotency
  import opened Lines
  import opened Registries
  import opened Scheduling
  import opened Joins
  import opened Runs
  import opened Ticks
  import opened Samples

  // ---------- a parent "p" at a JOIN node, and its children "x" and "y" ----------

  const ALL_CHILDREN := DynamicBarrier("c", 0, PolicyUnspecified)

  function Joining(join: JoinSpec): Node
  {
    Via("A", Join, "", Always(true), "T").(joinSpec := Some(join))
  }

  function JoinRegistry(join: JoinSpec): Registry
  {
    SmallRegistry(map[VERSION := OneStep(Joining(join)), OTHER_VERSION := OneStep(CALLING)], 3)
  }

  function Child(id: string): StartRequest
  {
    Request(id, OTHER_VERSION).(parent := Some("p"), correlationId := "c")
  }

  const BORN_P: Record := NewRecord(Request("p", VERSION), "A")
  const BORN_X: Record := NewRecord(Child("x"), "A")
  const BORN_Y: Record := NewRecord(Child("y"), "A")
  const WAITING_Y: Record := BORN_Y.(status := Waiting, waiting := Some(WaitRecord(None, "", "", [])))

  const THREE: Store := Store(map["p" := BORN_P, "x" := BORN_X, "y" := BORN_Y], map[], {}, [])

  const START_FAMILY: seq<Call> := [Start(Request("p", VERSION)), Start(Child("x")), Start(Child("y"))]

  /** The parent comes first; then "x" ends with this outcome, and "y" waits for a signal. */
  function Ending(w: World, outcome: TerminalOutcome): World
  {
    Listing(w, ["p", "x", "y"]).(execute := (id: string, unitId: string, snap: Snapshot) =>
      Executed(Some(if id == "x" then CompleteIntent(outcome) else WaitIntent(None))))
  }

  lemma JoinRegistryIsValid(join: JoinSpec)
    requires join.barriers != [] || join.dynamicBarriers != []
    ensures ValidRegistry(JoinRegistry(join))
  {
    OneStepIsValid(Joining(join));
    OneStepIsValid(CALLING);
  }

  lemma FamilyStarts(join: JoinSpec)
    ensures Run(JoinRegistry(join), START_FAMILY) == THREE
  {
    hide StartInstance;
    var reg, p, x, y := JoinRegistry(join), Start(Request("p", VERSION)), Start(Child("x")), Start(Child("y"));
    StartsOne(join);
    StartsTwo(join);
    StartsThree(join);
    assert [] + [p] == [p] && [p] + [x] == [p, x] && [p, x] + [y] == START_FAMILY;
    RunOneMore(reg, EMPTY_STORE, [], p);
    RunOneMore(reg, EMPTY_STORE, [p], x);
    RunOneMore(reg, EMPTY_STORE, [p, x], y);
  }

  lemma StartsOne(join: JoinSpec)
    ensures StartInstance(JoinRegistry(join), EMPTY_STORE, Request("p", VERSION))
            == Done(Single("p", BORN_P, map[], {}))
  {
  }

  lemma StartsTwo(join: JoinSpec)
    ensures StartInstance(JoinRegistry(join), Single("p", BORN_P, map[], {}), Child("x"))
            == Done(Store(map["p" := BORN_P, "x" := BORN_X], map[], {}, []))
  {
    assert map["p" := BORN_P]["x" := BORN_X] == map["p" := BORN_P, "x" := BORN_X];
  }

  lemma StartsThree(join: JoinSpec)
    ensures StartInstance(JoinRegistry(join), Store(map["p" := BORN_P, "x" := BORN_X], map[], {}, []), Child("y"))
            == Done(THREE)
  {
    var two := map["p" := BORN_P, "x" := BORN_X];
    assert two["y" := BORN_Y] == THREE.instances;
  }

  lemma TurnOfX(join: JoinSpec, w: World, outcome: TerminalOutcome, st: Store)
    requires "x" in st.instances && st.instances["x"] == BORN_X && st.executions == map[]
    ensures var s := ProcessInstance(JoinRegistry(join), Ending(w, outcome), st, "x");
            && s.error.None? && s.store.executions.Keys == {HopKey("x", "A", 0)}
            && s.store.instances.Keys == st.instances.Keys
            && s.store.instances["x"].status == (if outcome == Failure then Failed else Completed)
            && IsChild(s.store.instances["x"], "p") && s.store.instances["x"].correlationId == "c"
            && forall i :: i in st.instances && i != "x" ==> s.store.instances[i] == st.instances[i]
  {
  }

  lemma TurnOfY(join: JoinSpec, w: World, outcome: TerminalOutcome, st: Store)
    requires "y" in st.instances && st.instances["y"] == BORN_Y && HopKey("y", "A", 0) !in st.executions
    ensures var s := ProcessInstance(JoinRegistry(join), Ending(w, outcome), st, "y");
            && s.error.None? && s.store.instances.Keys == st.instances.Keys && s.store.instances["y"] == WAITING_Y
            && forall i :: i in st.instances && i != "y" ==> s.store.instances[i] == st.instances[i]
  {
  }

  /** The parent stands at its JOIN node, "x" has ended like this, and "y" waits. */
  ghost predicate OneEnded(st: Store, status: Status)
  {
    && st.instances.Keys == {"p", "x", "y"} && st.instances["p"] == BORN_P && st.instances["y"] == WAITING_Y
    && st.instances["x"].status == status && IsChild(st.instances["x"], "p")
    && st.instances["x"].correlationId == "c"
  }

  lemma NotReadyStays(join: JoinSpec, w: World, st: Store)
    requires "p" in st.instances && st.instances["p"] == BORN_P
    requires CheckJoinBarriers(w, st, "p", join) == JoinNotReady
    ensures ProcessInstance(JoinRegistry(join), w, st, "p") == Done(st)
  {
    hide CheckJoinBarriers;
  }

  lemma FamilyTicks(join: JoinSpec, w: World, outcome: TerminalOutcome)
    requires ValidWorld(w) && CheckJoinBarriers(Ending(w, outcome), THREE, "p", join) == JoinNotReady
    ensures ValidWorld(Ending(w, outcome))
    ensures OneEnded(RunOnce(JoinRegistry(join), Ending(w, outcome), THREE).store,
                     if outcome == Failure then Failed else Completed)
  {
    hide RunOnce, ProcessInstance, ProcessAll, RunnableIn, CheckJoinBarriers;
    var reg, w' := JoinRegistry(join), Ending(w, outcome);
    ListingIsValid(w, ["p", "x", "y"], RunnableSite, {"p", "x", "y"});
    NoWaitIsOver(reg, w', THREE);
    assert THREE.instances.Keys == {"p", "x", "y"};
    AllAreListed(THREE, ["p", "x", "y"]);
    NotReadyStays(join, w', THREE);
    TurnOfX(join, w, outcome, THREE);
    var st := ProcessInstance(reg, w', THREE, "x").store;
    TurnOfY(join, w, outcome, st);
    assert ["p"] + (["x"] + ["y"]) == ["p", "x", "y"];
    NextTurn(reg, w', THREE, "p", ["x"] + ["y"]);
    NextTurn(reg, w', THREE, "x", ["y"]);
    OneInstance(reg, w', st, "y");
  }

  lemma OnlyParentRuns(join: JoinSpec, w: World, st: Store, status: Status)
    requires ValidWorld(w) && OneEnded(st, status) && (status == Completed || status == Failed)
    ensures RunOnce(JoinRegistry(join), w, st) == ProcessInstance(JoinRegistry(join), w, st, "p")
  {
    hide RunOnce, ProcessInstance;
    NoWaitIsOver(JoinRegistry(join), w, st);
    RunnableAreListed(st, w.order(RunnableSite, st.instances.Keys));
    LoneOrder(RunnableOf(w, st), "p");
    OneInstance(JoinRegistry(join), w, st, "p");
  }

  lemma ChildrenAreFamilyOfP(st: Store)
    requires {"p", "x", "y"} <= st.instances.Keys
    requires forall c :: c in {"x", "y"} ==> IsChild(st.instances[c], "p") && st.instances[c].correlationId == "c"
    ensures "x" in Family(st, "p", "c") && "y" in Family(st, "p", "c")
  {
    assert HasPrefix("c", "c");
  }

  lemma CountedAreNotReady(join: JoinSpec, w: World, st: Store)
    requires ValidWorld(w) && "p" in st.instances && join.barriers == [] && join.dynamicBarriers == [ALL_CHILDREN]
    requires "y" in Family(st, "p", "c") && !Settled(st.instances["y"].status)
    requires CheckDynamicBarrier(w, st, "p", join, 0) != JoinChildFailed
    ensures CheckJoinBarriers(w, st, "p", join) == JoinNotReady
  {
    hide CheckDynamicBarrier, ValidWorld;
    AnySuccessWaitsForAll(w, st, "p", join, 0, "y");
    DynamicFailMeaning(w, st, "p", join, 0);
    assert CheckDynamicBarriers(w, st, "p", join, 1) == JoinReady;
  }

  // ---------- one success is not enough ----------

  const ANY: JoinSpec := JoinSpec([], AnySuccess, false, [ALL_CHILDREN])

  function ReachOne(w: World, outcome: TerminalOutcome): seq<Call>
  {
    START_FAMILY + [Tick(Ending(w, outcome))]
  }

  /** JOIN_ANY_SUCCESS with one completed child and one that waits for a signal that never comes: no
      tick moves the parent. */
  lemma AnySuccessWaitsOn(w: World, late: World)
    requires ValidWorld(w) && ValidWorld(late)
    ensures var reg, calls := JoinRegistry(ANY), ReachOne(w, Success);
            var st := Run(reg, calls);
            && ValidRegistry(reg) && ValidCalls(calls) && ANY.policy == AnySuccess
            && OneEnded(st, Completed) && "x" in Family(st, "p", "c") && "y" in Family(st, "p", "c")
            && RunOnce(reg, late, st) == Done(st)
  {
    hide RunOnce, RunFrom, ValidRegistry, ValidWorld, Ending, CheckJoinBarriers, ProcessInstance;
    var st := CountedReach(ANY, w, Success);
    NeverFailing(late, st);
    CountedAreNotReady(ANY, late, st);
    NotReadyStays(ANY, late, st);
    OnlyParentRuns(ANY, late, st, Completed);
  }

  /** The first tick, for a join that counts its children. */
  lemma CountedReach(join: JoinSpec, w: World, outcome: TerminalOutcome) returns (st: Store)
    requires ValidWorld(w) && join.barriers == [] && join.dynamicBarriers == [ALL_CHILDREN]
    ensures ValidRegistry(JoinRegistry(join)) && ValidCalls(ReachOne(w, outcome))
    ensures st == Run(JoinRegistry(join), ReachOne(w, outcome))
    ensures OneEnded(st, if outcome == Failure then Failed else Completed)
    ensures "x" in Family(st, "p", "c") && "y" in Family(st, "p", "c")
  {
    hide RunOnce, RunFrom, ValidRegistry, ValidWorld, Ending, CheckJoinBarriers;
    EndingIsValid(w, outcome);
    ChildrenAreFamilyOfP(THREE);
    NoneFailedYet(join, Ending(w, outcome));
    CountedAreNotReady(join, Ending(w, outcome), THREE);
    st := Reach(join, w, outcome);
    ChildrenAreFamilyOfP(st);
  }

  lemma EndingIsValid(w: World, outcome: TerminalOutcome)
    requires ValidWorld(w)
    ensures ValidWorld(Ending(w, outcome))
  {
    ListingIsValid(w, ["p", "x", "y"], RunnableSite, {"p", "x", "y"});
  }

  lemma Reach(join: JoinSpec, w: World, outcome: TerminalOutcome) returns (st: Store)
    requires ValidWorld(w) && CheckJoinBarriers(Ending(w, outcome), THREE, "p", join) == JoinNotReady
    requires join.barriers != [] || join.dynamicBarriers != []
    ensures ValidRegistry(JoinRegistry(join)) && ValidCalls(ReachOne(w, outcome))
    ensures st == Run(JoinRegistry(join), ReachOne(w, outcome))
    ensures OneEnded(st, if outcome == Failure then Failed else Completed)
  {
    hide RunOnce, RunFrom, ValidRegistry, ValidWorld, Ending, CheckJoinBarriers;
    JoinRegistryIsValid(join);
    FamilyStarts(join);
    FamilyTicks(join, w, outcome);
    RunOneMore(JoinRegistry(join), EMPTY_STORE, START_FAMILY, Tick(Ending(w, outcome)));
    st := RunOnce(JoinRegistry(join), Ending(w, outcome), THREE).store;
  }

  lemma NoneFailedYet(join: JoinSpec, w: World)
    requires ValidWorld(w) && join.barriers == [] && join.dynamicBarriers == [ALL_CHILDREN]
    ensures CheckDynamicBarrier(w, THREE, "p", join, 0) != JoinChildFailed
  {
    hide CheckDynamicBarrier, ValidWorld, PrefixChildren;
    DynamicFailMeaning(w, THREE, "p", join, 0);
    assert forall c :: !ChildFailed(THREE, c);
  }

  lemma NeverFailing(w: World, st: Store)
    requires ValidWorld(w) && "p" in st.instances
    ensures CheckDynamicBarrier(w, st, "p", ANY, 0) != JoinChildFailed
  {
    hide CheckDynamicBarrier, ValidWorld;
    DynamicFailMeaning(w, st, "p", ANY, 0);
  }

  // ---------- map order decides ----------

  const FAILING: JoinSpec := JoinSpec([], AllSuccess, true, [ALL_CHILDREN])

  lemma FirstDecides(w: World, st: Store, x: string, y: string)
    requires x in {"x", "y"} && y in {"x", "y"} && x != y && ValidWorld(w)
    requires OneEnded(st, Failed) && "x" in Family(st, "p", "c") && "y" in Family(st, "p", "c")
    ensures var late := Listing(w, [x, y, "p"]);
            && ValidWorld(late)
            && CheckJoinBarriers(late, st, "p", FAILING) == if x == "x" then JoinChildFailed else JoinNotReady
  {
    hide CheckDynamicBarrier, ValidWorld, Listing, EnoughChildren;
    var late := Listing(w, [x, y, "p"]);
    ListingIsValid(w, [x, y, "p"], PrefixSite("p", 0), st.instances.Keys);
    FirstStaysFirst(st, [x, y, "p"], "p", "c");
    DynamicFailMeaning(late, st, "p", FAILING, 0);
    var children := PrefixChildren(late, st, "p", FAILING, 0);
    if x == "x" {
      IsUndecided(st);
      assert FailsFirst(st, children, 0);
    } else {
      assert !ChildFailed(st, children[0]) && !ChildCompleted(st, children[0]);
      CountedAreNotReady(FAILING, late, st);
    }
  }

  /** With one failed and one unfinished child the next tick fails the parent or leaves everything as it
      is, as the range over the instances happens to go. */
  lemma OrderDecides(w: World)
    requires ValidWorld(w)
    ensures var reg, calls := JoinRegistry(FAILING), ReachOne(w, Failure);
            var st := Run(reg, calls);
            var xFirst, yFirst := Listing(w, ["x", "y", "p"]), Listing(w, ["y", "x", "p"]);
            && ValidRegistry(reg) && ValidCalls(calls) && ValidWorld(xFirst) && ValidWorld(yFirst)
            && OneEnded(st, Failed) && Undecided(st, "p", FAILING, 0)
            && RunOnce(reg, xFirst, st) == Done(SetStatus(st, "p", Failed)) && RunOnce(reg, yFirst, st) == Done(st)
  {
    hide RunOnce, RunFrom, ValidRegistry, ValidWorld, Ending, CheckJoinBarriers, ProcessInstance, Listing;
    var st := CountedReach(FAILING, w, Failure);
    IsUndecided(st);
    FirstDecides(w, st, "x", "y");
    FirstDecides(w, st, "y", "x");
    var xFirst, yFirst := Listing(w, ["x", "y", "p"]), Listing(w, ["y", "x", "p"]);
    OnlyParentRuns(FAILING, xFirst, st, Failed);
    OnlyParentRuns(FAILING, yFirst, st, Failed);
    NotReadyStays(FAILING, yFirst, st);
    FailedChildFails(xFirst, st);
  }

  lemma FailedChildFails(w: World, st: Store)
    requires "p" in st.instances && st.instances["p"] == BORN_P
    requires CheckJoinBarriers(w, st, "p", FAILING) == JoinChildFailed
    ensures ProcessInstance(JoinRegistry(FAILING), w, st, "p") == Done(SetStatus(st, "p", Failed))
  {
    hide CheckJoinBarriers;
  }

  lemma IsUndecided(st: Store)
    requires OneEnded(st, Failed) && "x" in Family(st, "p", "c") && "y" in Family(st, "p", "c")
    ensures Undecided(st, "p", FAILING, 0)
  {
    assert ChildFailed(st, "x") && !Settled(st.instances["y"].status);
    assert SpawnedFromJournal(BORN_P.journal) == [];
  }

  // ---------- two children under one correlation id ----------

  const NAMED: JoinSpec := JoinSpec([ChildCorrelation("c")], AllSuccess, false, [])

  lemma LookupDecides(w: World, st: Store, found: string)
    requires "p" in st.instances && found in st.instances && found != ""
    requires ChildIn(st, w.order(CorrelationSite("p", 0), st.instances.Keys), "p", "c") == Some(found)
    ensures CheckJoinBarriers(w, st, "p", NAMED)
            == if st.instances[found].status == Completed then JoinReady else JoinNotReady
  {
    assert BarrierChild(w, st, "p", NAMED, 0) == Ok(found);
    assert CheckDynamicBarriers(w, st, "p", NAMED, 0) == JoinReady;
    assert CheckStaticBarriers(w, st, "p", NAMED, 1, 1) == JoinReady;
    assert CheckStaticBarriers(w, st, "p", NAMED, 1, 0) == JoinNotReady;
  }

  lemma LookupFinds(st: Store, before: seq<string>, found: string, after: seq<string>)
    requires before == [] || before == ["p"]
    requires "p" in st.instances && st.instances["p"] == BORN_P && found in st.instances
    requires IsChild(st.instances[found], "p") && st.instances[found].correlationId == "c"
    ensures ChildIn(st, before + [found] + after, "p", "c") == Some(found)
  {
    var rest := [found] + after;
    assert ["p"] + rest == ["p"] + [found] + after && (["p"] + rest)[1..] == rest;
    assert [] + [found] + after == rest;
    assert ChildIn(st, rest, "p", "c") == Some(found);
  }

  lemma NamedReach(w: World) returns (st: Store)
    requires ValidWorld(w)
    ensures ValidRegistry(JoinRegistry(NAMED)) && ValidCalls(ReachOne(w, Success))
    ensures st == Run(JoinRegistry(NAMED), ReachOne(w, Success)) && OneEnded(st, Completed)
  {
    hide RunOnce, RunFrom, ValidRegistry, ValidWorld, CheckJoinBarriers, Listing;
    ListingIsValid(w, ["p", "x", "y"], CorrelationSite("p", 0), {"p", "x", "y"});
    assert THREE.instances.Keys == {"p", "x", "y"};
    LookupFinds(THREE, ["p"], "x", ["y"]);
    assert ["p"] + ["x"] + ["y"] == ["p", "x", "y"];
    LookupDecides(Ending(w, Success), THREE, "x");
    st := Reach(NAMED, w, Success);
  }

  /** Two children under the correlation id that a barrier asks for, one completed and one waiting: the
      next tick joins, or leaves everything as it is, as the lookup happens to go. */
  lemma LookupOrderDecides(w: World)
    requires ValidWorld(w)
    ensures var reg, calls := JoinRegistry(NAMED), ReachOne(w, Success);
            var st := Run(reg, calls);
            var xFirst, yFirst := Listing(w, ["x", "y", "p"]), Listing(w, ["y", "x", "p"]);
            && ValidRegistry(reg) && ValidCalls(calls) && ValidWorld(xFirst) && ValidWorld(yFirst)
            && OneEnded(st, Completed) && RunOnce(reg, yFirst, st) == Done(st)
            && RunOnce(reg, xFirst, st) == Done(CommitHop(st, "p", JoinCommit(st, "p", Joining(NAMED), "T")))
  {
    hide RunOnce, RunFrom, ValidRegistry, ValidWorld, Ending, CheckJoinBarriers, ProcessInstance, Listing, CommitHop;
    var st := NamedReach(w);
    var xFirst, yFirst := Listing(w, ["x", "y", "p"]), Listing(w, ["y", "x", "p"]);
    ListingIsValid(w, ["x", "y", "p"], CorrelationSite("p", 0), st.instances.Keys);
    ListingIsValid(w, ["y", "x", "p"], CorrelationSite("p", 0), st.instances.Keys);
    LookupFinds(st, [], "x", ["y", "p"]);
    LookupFinds(st, [], "y", ["x", "p"]);
    assert [] + ["x"] + ["y", "p"] == ["x", "y", "p"] && [] + ["y"] + ["x", "p"] == ["y", "x", "p"];
    LookupDecides(xFirst, st, "x");
    LookupDecides(yFirst, st, "y");
    OnlyParentRuns(NAMED, xFirst, st, Completed);
    OnlyParentRuns(NAMED, yFirst, st, Completed);
    NotReadyStays(NAMED, yFirst, st);
    ReadyJoins(xFirst, st);
  }

  lemma ReadyJoins(w: World, st: Store)
    requires "p" in st.instances && st.instances["p"] == BORN_P
    requires CheckJoinBarriers(w, st, "p", NAMED) == JoinReady
    ensures ProcessInstance(JoinRegistry(NAMED), w, st, "p")
            == Done(CommitHop(st, "p", JoinCommit(st, "p", Joining(NAMED), "T")))
  {
    hide CheckJoinBarriers, CommitHop, ResolveTransitions;
    RoutesByOne(NO_EVAL, Joining(NAMED), BORN_P.snapshot, None);
  }
}
