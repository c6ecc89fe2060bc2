/** A concrete run: the signal that is delivered decides between two transitions of equal priority. */
module Approvals {
  import opened Wrappers
  import opened Entities
  import opened Graphs
  import opened Conditions
  import opened Lines
  import opened Registries
  import opened Scheduling
  import opened Runs
  import opened Deliveries
  import opened Samples

  const YES := Transition("Y", Some(OnSignal("approve", None)), 0)
  const NO := Transition("N", Some(OnSignal("reject", None)), 0)

  const APPROVAL := Node("A", Wait, "", "", [YES, NO], OutcomeUnspecified,
                         Some(WaitConfig("", ["approve", "reject"], 0, "", None)), None)
  const APPROVED := Node("Y", Terminal, "", "", [], Success, None, None)
  const REJECTED := Node("N", Terminal, "", "", [], Failure, None, None)
  const DECISION := GraphSpec("A", map["A" := APPROVAL, "Y" := APPROVED, "N" := REJECTED])

  function DecisionRegistry(): Registry
  {
    SmallRegistry(map[VERSION := DECISION], 0)
  }

  lemma DecisionIsValid()
    ensures WellFormed(DECISION) && ValidRegistry(DecisionRegistry())
  {
    var g, rank := DECISION, map["A" := 1, "Y" := 0, "N" := 0];
    forall a, b | a in rank && Edge(g, a, b)
      ensures b in rank && rank[b] < rank[a]
    {
      var i :| 0 <= i < |g.nodes[a].transitions| && g.nodes[a].transitions[i].target == b;
    }
    assert Ranks(g, rank);
    RankedIsAcyclic(g, rank);
    var p := ["A", "Y"];
    assert g.nodes["A"].transitions[0].target == "Y";
    assert Edge(g, "A", "Y");
    assert RouteAt(g, p, 0) && RouteTo(g, p, "A");
  }

  function Word(name: string): Delivery
  {
    Delivery("e", name, "1", None)
  }

  /** Routing takes the one of the two transitions that asks for the signal. */
  lemma OneAsks(name: string, snap: Snapshot)
    requires name == "approve" || name == "reject"
    ensures Takes(NO_EVAL, APPROVAL.transitions, snap, Some(name), if name == "approve" then 0 else 1)
  {
  }

  /** The instance waits for either signal.  "approve" takes it to one node and "reject" to the other,
      whatever comes first among the transitions. */
  lemma SignalDecides(w: World, name: string)
    requires ValidWorld(w) && (name == "approve" || name == "reject")
    ensures ValidRegistry(DecisionRegistry())
    ensures var st := Run(DecisionRegistry(), [Start(Request("e", VERSION)), Tick(w)]);
            var s := DeliverSignal(DecisionRegistry(), st, Word(name));
            && "e" in st.instances && st.instances["e"].status == Waiting
            && s.error.None? && "e" in s.store.instances && s.store.instances["e"].status == Running
            && s.store.instances["e"].currentNode == if name == "approve" then "Y" else "N"
  {
    hide WellFormed, RunFrom, RunOnce, DeliverSignal, Takes, ValidRegistry;
    DecisionIsValid();
    var reg, calls := DecisionRegistry(), [Start(Request("e", VERSION)), Tick(w)];
    EntersWait(reg, w, Request("e", VERSION), DECISION, APPROVAL);
    var st := Run(reg, calls);
    OneAsks(name, SeenSnapshot(reg, APPROVAL, st.instances["e"].snapshot, Word(name)));
    DeliveredIff(reg, calls, st, Word(name), st.instances["e"], DECISION);
  }
}
