/** The small graphs and stores of the concrete runs. */
module Samples {
  import opened Wrappers
  import opened Entities
  import opened Graphs
  import opened Routing
  import opened Idempotency
  import opened Lines
  import opened Registries
  import opened Scheduling
  import opened Steps
  import opened Runs
  import opened Ticks
  import opened Retries

  const KIND := TypeKey("t", "1")
  const VERSION := GraphVersion("g", "1")
  const OTHER_VERSION := GraphVersion("h", "1")
  const LAST := Node("T", Terminal, "", "", [], Success, None, None)

  /** A node of which one transition leads to the next node. */
  function Via(id: string, kind: NodeKind, unitId: string, condition: Condition, next: string): Node
  {
    Node(id, kind, unitId, "", [Transition(next, Some(condition), 0)], OutcomeUnspecified, None, None)
  }

  /** A wait node that waits for the signal "go". */
  function WaitFor(condition: Condition, seconds: int, onTimeout: string): Node
  {
    Via("A", Wait, "", condition, "T").(waitConfig := Some(WaitConfig("go", [], seconds, onTimeout, None)))
  }

  const CALLING: Node := Via("A", Compute, "u", Always(true), "T")

  /** The graph A -> T. */
  function OneStep(first: Node): GraphSpec
  {
    GraphSpec("A", map["A" := first, "T" := LAST])
  }

  lemma OneStepIsValid(first: Node)
    requires first.nodeId == "A" && first.kind != Terminal && KindValid(first) && !RequiresFallbackEdge(first)
    requires |first.transitions| == 1 && first.transitions[0].target == "T"
    ensures WellFormed(OneStep(first))
  {
    var g := OneStep(first);
    var rank := map["A" := 1, "T" := 0];
    forall a, b | a in rank && Edge(g, a, b)
      ensures b in rank && rank[b] < rank[a]
    {
      assert a == "A";
    }
    assert Ranks(g, rank);
    RankedIsAcyclic(g, rank);
    var p := ["A", "T"];
    assert g.nodes["A"].transitions[0].target == "T";
    assert Edge(g, "A", "T");
    assert RouteAt(g, p, 0);
    assert RouteTo(g, p, "A");
  }

  lemma RoutesByOne(eval: Evaluator, node: Node, snap: Snapshot, signal: Option<string>)
    requires |node.transitions| == 1 && node.transitions[0].condition.Some?
    ensures var verdict := EvalCondition(eval, node.transitions[0].condition.value, snap, signal);
            ResolveTransitions(eval, node, snap, signal) ==
              match verdict
              case Matches => Ok(node.transitions[0].target)
              case Fails => Err(NoTransition)
              case Errs => Err(EvaluationFailed)
  {
    hide EvalCondition, ResolveTransitions;
    ResolveMeaning(eval, node, snap, signal);
    if EvalCondition(eval, node.transitions[0].condition.value, snap, signal) != Fails {
      assert Decides(eval, node.transitions, snap, signal, 0);
    }
  }

  /** A fresh request for the graph of this version. */
  function Request(id: string, version: GraphVersion): StartRequest
  {
    StartRequest(id, KIND, None, version, None, "")
  }

  const BEGUN: seq<Call> := [Start(Request("e", VERSION))]

  /** A store with one instance. */
  function Single(id: string, rec: Record, executions: map<Key, Execution>, signals: set<Key>): Store
  {
    Store(map[id := rec], executions, signals, [])
  }

  lemma StartsSingle(reg: Registry, req: StartRequest)
    requires StartInstance(reg, EMPTY_STORE, req).error.None?
    ensures req.graph in reg.graphs
    ensures Run(reg, [Start(req)])
            == Single(req.entityId, NewRecord(req, reg.graphs[req.graph].entryNodeId), map[], {})
  {
    assert [] + [Start(req)] == [Start(req)];
    RunOneMore(reg, EMPTY_STORE, [], Start(req));
  }

  /** An instance started on a graph whose entry node computes is ready to compute. */
  lemma StartsReady(reg: Registry, req: StartRequest, g: GraphSpec)
    requires ValidRegistry(reg) && StartInstance(reg, EMPTY_STORE, req).error.None? && GetGraph(reg, req.graph) == Ok(g)
    requires g.entryNodeId in g.nodes
    requires var node := g.nodes[g.entryNodeId];
             && Computing(node) && node.unitId in reg.units && node.unitId in reg.unitImpls
             && req.typeKey == reg.units[node.unitId].inputType
    ensures var st := Run(reg, [Start(req)]);
            && Inv(reg, st) && Lone(st, req.entityId) && st.executions == map[]
            && ReadyToCompute(reg, st, req.entityId, g, g.nodes[g.entryNodeId])
            && st.instances[req.entityId].snapshot == Snapshot(req.typeKey, 0, req.payload)
  {
    hide ValidRegistry, Inv, Sound, StartInstance;
    StartsSingle(reg, req);
    ReachableInv(reg, [Start(req)]);
    InvIsSound(reg, Run(reg, [Start(req)]), req.entityId);
    GraphIsGood(reg, req.graph);
  }

  /** The calls, and then n ticks in this world. */
  function Ticking(calls: seq<Call>, w: World, n: nat): seq<Call>
  {
    if n == 0 then calls else Ticking(calls, w, n - 1) + [Tick(w)]
  }

  lemma {:induction false} TickingIsValid(calls: seq<Call>, w: World, n: nat)
    requires ValidCalls(calls) && ValidWorld(w)
    ensures ValidCalls(Ticking(calls, w, n))
  {
    hide ValidWorld;
    if n > 0 {
      TickingIsValid(calls, w, n - 1);
    }
  }

  /** Every unit gives this answer. */
  function Answering(w: World, answer: ExecuteResult): World
  {
    w.(execute := (id: string, unitId: string, snap: Snapshot) => answer)
  }

  const NO_EVAL: Evaluator := (p: FieldPredicate, payload: Payload) => Fails

  /** One unit "u" with this retry budget, and these graphs. */
  function SmallRegistry(graphs: map<GraphVersion, GraphSpec>, budget: int): Registry
  {
    Registry(map[KIND := TypeRegistration("", {})], graphs, map["u" := UnitDef(KIND, {}, budget)], {"u"}, {}, 0,
             NO_EVAL, (before: Payload, signal: string, now: Payload) => None)
  }

  /** An instance started on a WAIT node enters its wait with the first tick. */
  lemma EntersWait(reg: Registry, w: World, req: StartRequest, g: GraphSpec, first: Node)
    requires ValidWorld(w) && first.kind == Wait && first.nodeId == "A"
    requires g.entryNodeId == "A" && "A" in g.nodes && g.nodes["A"] == first
    requires StartInstance(reg, EMPTY_STORE, req).error.None? && GetGraph(reg, req.graph) == Ok(g)
    ensures var rec := NewRecord(req, "A").(status := Waiting, waiting := Some(WaitRecordFor(w.now, first, None)));
            Run(reg, [Start(req), Tick(w)]) == Single(req.entityId, rec, map[], {})
  {
    hide StartInstance, RunOnce, WaitRecordFor;
    StartsSingle(reg, req);
    var rec := NewRecord(req, "A");
    var st := Run(reg, [Start(req)]);
    assert [Start(req)] + [Tick(w)] == [Start(req), Tick(w)];
    RunOneMore(reg, EMPTY_STORE, [Start(req)], Tick(w));
    LoneTick(reg, w, st, req.entityId);
    var entered := rec.(status := Waiting, waiting := Some(WaitRecordFor(w.now, first, None)));
    assert map[req.entityId := rec][req.entityId := entered] == map[req.entityId := entered];
  }

  /** A wait whose timeout does nothing is untouched by every tick. */
  lemma VoidTimeoutSticks(reg: Registry, w: World, st: Store, id: string)
    requires ValidWorld(w) && Lone(st, id) && st.instances[id].status == Waiting && st.instances[id].waiting.Some?
    requires ProcessTimeout(reg, st, Due(id, st.instances[id].waiting.value)) == Done(st)
    ensures RunOnce(reg, w, st) == Done(st)
  {
    hide ProcessTimeout, ProcessInstance, ProcessTimeouts, ProcessAll;
    LoneTick(reg, w, st, id);
    LoneOrder(w.order(RunnableSite, st.instances.Keys), id);
    LoneLists(st, id, w.now);
    NoneToDo(reg, w, st);
  }

  // ---------- more than one instance ----------

  lemma {:induction false} AllAreListed(st: Store, ids: seq<string>)
    requires forall i :: 0 <= i < |ids| ==> Runnable(st, ids[i])
    ensures RunnableIn(st, ids) == ids
  {
    if ids != [] {
      var n := |ids| - 1;
      AllAreListed(st, ids[..n]);
      assert ids == ids[..n] + [ids[n]];
    }
  }

  /** The turns of the loop, one after the other. */
  lemma NextTurn(reg: Registry, w: World, st: Store, id: string, rest: seq<string>)
    ensures var s := ProcessInstance(reg, w, st, id);
            ProcessAll(reg, w, st, [id] + rest) == if s.error.Some? then s else ProcessAll(reg, w, s.store, rest)
  {
    hide ProcessInstance;
    var ids := [id] + rest;
    assert ids[0] == id && ids[1..] == rest;
  }
}
