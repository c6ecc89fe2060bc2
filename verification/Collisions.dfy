/**
 A run that loses a timeout.

 Hop keys and signal keys share one name space.  In the graph below a signal that is named like the
 second wait node, delivered with id "0" to the first, has the key that the second node's timeout
 will use: when the deadline passes, the timeout is taken for a repetition of the signal, and the
 instance waits forever.
 */
module Collisions {
  import opened Wrappers
  import opened Entities
  import opened Graphs
  import opened Routing
  import opened Idempotency
  import opened Decimals
  import opened Lines
  import opened Registries
  import opened Scheduling
  import opened Runs
  import opened Ticks

  function WaitAt(id: string, signal: string, seconds: int, onTimeout: string, next: string): Node
  {
    Node(id, Wait, "", "", [Transition(next, Some(Always(true)), 0)], OutcomeUnspecified,
         Some(WaitConfig(signal, [], seconds, onTimeout, None)), None)
  }

  const FIRST := WaitAt("A", "B", 0, "", "B")
  const SECOND := WaitAt("B", "x", 1, "T", "T")
  const LAST := Node("T", Terminal, "", "", [], Success, None, None)
  const GRAPH := GraphSpec("A", map["A" := FIRST, "B" := SECOND, "T" := LAST])

  lemma GraphIsValid()
    ensures WellFormed(GRAPH)
  {
    var rank := map["A" := 2, "B" := 1, "T" := 0];
    forall a, b | a in rank && Edge(GRAPH, a, b)
      ensures b in rank && rank[b] < rank[a]
    {
      var i :| 0 <= i < |GRAPH.nodes[a].transitions| && GRAPH.nodes[a].transitions[i].target == b;
    }
    assert Ranks(GRAPH, rank);
    RankedIsAcyclic(GRAPH, rank);
    var p := ["A", "B", "T"];
    assert GRAPH.nodes["A"].transitions[0].target == "B" && GRAPH.nodes["B"].transitions[0].target == "T";
    assert Edge(GRAPH, "A", "B") && Edge(GRAPH, "B", "T");
    assert RouteAt(GRAPH, p, 0) && RouteAt(GRAPH, p, 1);
    assert RouteTo(GRAPH, p, "A");
  }

  const VERSION := GraphVersion("g", "1")
  const KIND := TypeKey("t", "1")

  const REGISTRY: Registry := Registry(
    map[KIND := TypeRegistration("", {})],
    map[VERSION := GRAPH],
    map[], {}, {}, 0,
    (p: FieldPredicate, payload: Payload) => Fails,
    (old_: Payload, signal: string, new_: Payload) => None)

  lemma RegistryIsValid()
    ensures ValidRegistry(REGISTRY)
  {
    GraphIsValid();
  }

  const ORDER := StartRequest("e", KIND, None, VERSION, None, "")
  const SIGNAL := Delivery("e", "B", "0", None)

  // ---------- the stores the run passes through ----------

  const BORN: Record := NewRecord(ORDER, "A")
  const AT_FIRST: Record := BORN.(status := Waiting, waiting := Some(WaitRecord(None, "", "B", [])))
  const SIGNALLED: Record :=
    BORN.(currentNode := "B",
          journal := [Entry(1, SignalReceived, "A", 0, 0, BORN.snapshot, SignalKey("e", "B", "0"), "B", "0", "", [])])
  const AT_SECOND: Record := SIGNALLED.(status := Waiting, waiting := Some(WaitRecord(Some(1), "T", "x", [])))

  function With(rec: Record, signals: set<Key>): Store
  {
    Store(map["e" := rec], map[], signals, [])
  }

  const SEEN: set<Key> := {SignalKey("e", "B", "0")}

  lemma Starts()
    ensures StartInstance(REGISTRY, EMPTY_STORE, ORDER) == Done(With(BORN, {}))
  {
  }

  lemma Waits(w: World, rec: Record, signals: set<Key>)
    requires ValidWorld(w) && rec.status == Running && rec.graph == VERSION && rec.currentNode in {"A", "B"}
    ensures RunOnce(REGISTRY, w, With(rec, signals))
            == EnterWait(w, With(rec, signals), "e", GRAPH.nodes[rec.currentNode], None)
  {
    LoneTick(REGISTRY, w, With(rec, signals), "e");
  }

  lemma EntersFirst(w: World)
    ensures EnterWait(w, With(BORN, {}), "e", FIRST, None) == Done(With(AT_FIRST, {}))
  {
    assert map["e" := BORN]["e" := AT_FIRST] == map["e" := AT_FIRST];
  }

  lemma EntersSecond(w: World)
    requires w.now == 0
    ensures EnterWait(w, With(SIGNALLED, SEEN), "e", SECOND, None) == Done(With(AT_SECOND, SEEN))
  {
    assert map["e" := SIGNALLED]["e" := AT_SECOND] == map["e" := AT_SECOND];
  }

  lemma Signals()
    ensures DeliverSignal(REGISTRY, With(AT_FIRST, {}), SIGNAL) == Done(With(SIGNALLED, SEEN))
  {
    hide ResolveTransitions, CommitHop;
    var st := With(AT_FIRST, {});
    var recorded := st.(signals := st.signals + {SignalKey("e", "B", "0")});
    assert recorded.signals == SEEN;
    ResolveMeaning(REGISTRY.eval, FIRST, AT_FIRST.snapshot, Some("B"));
    assert Decides(REGISTRY.eval, FIRST.transitions, AT_FIRST.snapshot, Some("B"), 0);
    SignalCommits();
  }

  lemma SignalCommits()
    ensures CommitHop(With(AT_FIRST, SEEN), "e", SignalCommit(With(AT_FIRST, SEEN), SIGNAL, None, "B"))
            == With(SIGNALLED, SEEN)
  {
    var st := With(AT_FIRST, SEEN);
    var c := SignalCommit(st, SIGNAL, None, "B");
    assert Committed(AT_FIRST, c).journal == SIGNALLED.journal;
    assert Committed(AT_FIRST, c).stack == SIGNALLED.stack;
    assert Committed(AT_FIRST, c) == SIGNALLED;
    assert CommitHop(st, "e", c).instances == map["e" := SIGNALLED];
  }

  lemma Swallows(d: Due)
    requires d == Due("e", AT_SECOND.waiting.value)
    ensures ProcessTimeout(REGISTRY, With(AT_SECOND, SEEN), d) == Done(With(AT_SECOND, SEEN))
  {
    assert Decimal(0) == "0";
    assert AT_SECOND.journal[0].key == HopKey("e", "B", 0);
  }

  /** However often and however late the engine ticks, nothing happens any more. */
  lemma Stuck(w: World)
    requires ValidWorld(w)
    ensures RunOnce(REGISTRY, w, With(AT_SECOND, SEEN)) == Done(With(AT_SECOND, SEEN))
  {
    hide ProcessTimeout, ProcessInstance;
    var st := With(AT_SECOND, SEEN);
    LoneTick(REGISTRY, w, st, "e");
    Swallows(Due("e", AT_SECOND.waiting.value));
    LoneOrder(w.order(RunnableSite, st.instances.Keys), "e");
    LoneLists(st, "e", w.now);
    NoneToDo(REGISTRY, w, st);
  }

  function Lost(w: World): seq<Call>
  {
    [Start(ORDER), Tick(w.(now := 0)), Deliver(SIGNAL), Tick(w.(now := 0))]
  }

  lemma LostReaches(w: World)
    requires ValidWorld(w)
    ensures ValidRegistry(REGISTRY) && ValidCalls(Lost(w)) && Run(REGISTRY, Lost(w)) == With(AT_SECOND, SEEN)
  {
    hide RunOnce, StartInstance, DeliverSignal, WellFormed, EnterWait;
    RegistryIsValid();
    var w0 := w.(now := 0);
    Starts();
    Waits(w0, BORN, {});
    EntersFirst(w0);
    Signals();
    Waits(w0, SIGNALLED, SEEN);
    EntersSecond(w0);
    assert [] + [Start(ORDER)] == [Start(ORDER)];
    RunOneMore(REGISTRY, EMPTY_STORE, [], Start(ORDER));
    assert [Start(ORDER)] + [Tick(w0)] == [Start(ORDER), Tick(w0)];
    RunOneMore(REGISTRY, EMPTY_STORE, [Start(ORDER)], Tick(w0));
    assert [Start(ORDER), Tick(w0)] + [Deliver(SIGNAL)] == [Start(ORDER), Tick(w0), Deliver(SIGNAL)];
    RunOneMore(REGISTRY, EMPTY_STORE, [Start(ORDER), Tick(w0)], Deliver(SIGNAL));
    assert [Start(ORDER), Tick(w0), Deliver(SIGNAL)] + [Tick(w0)] == Lost(w);
    RunOneMore(REGISTRY, EMPTY_STORE, [Start(ORDER), Tick(w0), Deliver(SIGNAL)], Tick(w0));
  }

  /** A reachable instance that waits past its deadline in every world. */
  lemma TimeoutCanBeLost(w: World)
    requires ValidWorld(w)
    ensures ValidRegistry(REGISTRY) && ValidCalls(Lost(w))
    ensures var st := Run(REGISTRY, Lost(w));
            && "e" in st.instances && st.instances["e"].status == Waiting
            && st.instances["e"].waiting == Some(WaitRecord(Some(1), "T", "x", []))
            && forall late: World :: ValidWorld(late) ==> RunOnce(REGISTRY, late, st) == Done(st)
  {
    hide RunOnce, RunFrom;
    LostReaches(w);
    forall late | ValidWorld(late)
      ensures RunOnce(REGISTRY, late, With(AT_SECOND, SEEN)) == Done(With(AT_SECOND, SEEN))
    {
      Stuck(late);
    }
  }

  /** The committed delivery is refused when it is repeated, because the instance waits for another
      signal by then. */
  lemma RepetitionIsRefused(w: World)
    requires ValidWorld(w)
    ensures var st := Run(REGISTRY, Lost(w));
            && ValidRegistry(REGISTRY) && ValidCalls(Lost(w)) && "e" in st.instances
            && (exists i :: 0 <= i < |st.instances["e"].journal| && st.instances["e"].journal[i].kind == SignalReceived
                            && st.instances["e"].journal[i].signalName == SIGNAL.signalName
                            && st.instances["e"].journal[i].deliveryId == SIGNAL.deliveryId)
            && DeliverSignal(REGISTRY, st, SIGNAL) == Fail(st, SignalMismatch)
  {
    hide RunFrom, RunOnce, StartInstance, WellFormed;
    LostReaches(w);
    assert AT_SECOND.journal[0].signalName == "B";
  }
}
