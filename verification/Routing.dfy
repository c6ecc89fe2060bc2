/**
 Priority routing (pkg/dag/graph/graph.go, pkg/dag/graph/predicate.go).

 Field predicates look inside opaque payloads, so their evaluation is an arbitrary function that
 may also fail.
 */
module Routing {
  import opened Wrappers
  import opened Entities
  import opened Graphs

  datatype Verdict = Matches | Fails | Errs

  type Evaluator = (FieldPredicate, Payload) -> Verdict

  function EvalFieldPredicate(eval: Evaluator, p: FieldPredicate, snap: Snapshot): Verdict
  {
    if snap.payload.None? then Fails else eval(p, snap.payload.value)
  }

  function EvalCondition(eval: Evaluator, c: Condition, snap: Snapshot, signal: Option<string>): Verdict
  {
    match c
    case Unset => Fails
    case Always(always) => if always then Matches else Fails
    case OnField(p) => EvalFieldPredicate(eval, p, snap)
    case OnSignal(name, payload) =>
      if signal.None? then Fails
      else if name != "" && name != signal.value then Fails
      else if payload.None? then Matches
      else EvalFieldPredicate(eval, payload.value, snap)
  }

  /** A transition without a condition is skipped. */
  function VerdictOf(eval: Evaluator, t: Transition, snap: Snapshot, signal: Option<string>): Verdict
  {
    if t.condition.None? then Fails else EvalCondition(eval, t.condition.value, snap, signal)
  }

  // ---------- sort.SliceStable by descending priority ----------

  /** Must transition i be looked at before transition j? */
  predicate Precedes(ts: seq<Transition>, i: int, j: int)
    requires 0 <= i < |ts| && 0 <= j < |ts|
  {
    ts[i].priority > ts[j].priority || (ts[i].priority == ts[j].priority && i < j)
  }

  ghost predicate Positions(ts: seq<Transition>, order: seq<int>)
  {
    forall k :: 0 <= k < |order| ==> 0 <= order[k] < |ts|
  }

  function InsertStable(ts: seq<Transition>, order: seq<int>, n: int): (r: seq<int>)
    requires 0 <= n < |ts| && Positions(ts, order)
    ensures Positions(ts, r)
  {
    if order == [] || ts[n].priority > ts[order[0]].priority then [n] + order
    else [order[0]] + InsertStable(ts, order[1..], n)
  }

  /** The positions 0..n of the transitions, in the order in which they are evaluated. */
  function StableOrder(ts: seq<Transition>, n: int): (r: seq<int>)
    requires 0 <= n <= |ts|
    ensures Positions(ts, r)
    decreases n
  {
    if n == 0 then [] else InsertStable(ts, StableOrder(ts, n - 1), n - 1)
  }

  ghost predicate Ordered(ts: seq<Transition>, order: seq<int>)
    requires Positions(ts, order)
  {
    forall a, b :: 0 <= a < b < |order| ==> Precedes(ts, order[a], order[b])
  }

  lemma {:induction false} InsertKeepsOrder(ts: seq<Transition>, order: seq<int>, n: int)
    requires 0 <= n < |ts| && Positions(ts, order) && Ordered(ts, order)
    requires forall k :: 0 <= k < |order| ==> order[k] < n
    ensures Ordered(ts, InsertStable(ts, order, n))
    ensures forall i :: i in InsertStable(ts, order, n) <==> i in order || i == n
  {
    var r := InsertStable(ts, order, n);
    if order != [] && ts[n].priority <= ts[order[0]].priority {
      InsertKeepsOrder(ts, order[1..], n);
      assert order == [order[0]] + order[1..];
      forall b | 0 < b < |r|
        ensures Precedes(ts, r[0], r[b])
      {
        assert r[b] in InsertStable(ts, order[1..], n);
        if r[b] != n {
          var k :| 0 <= k < |order[1..]| && order[1..][k] == r[b];
          assert Precedes(ts, order[0], order[k + 1]);
        }
      }
    } else {
      forall b | 0 < b < |r|
        ensures Precedes(ts, r[0], r[b])
      {
        assert b > 1 ==> Precedes(ts, order[0], order[b - 1]);
      }
    }
  }

  lemma {:induction false} StableOrderIsOrdered(ts: seq<Transition>, n: int)
    requires 0 <= n <= |ts|
    ensures Ordered(ts, StableOrder(ts, n))
    ensures forall i :: i in StableOrder(ts, n) <==> 0 <= i < n
  {
    if n > 0 {
      StableOrderIsOrdered(ts, n - 1);
      var order := StableOrder(ts, n - 1);
      assert forall k :: 0 <= k < |order| ==> order[k] in order;
      InsertKeepsOrder(ts, order, n - 1);
    }
  }

  // ---------- ResolveTransitions ----------

  function FirstMatch(eval: Evaluator, ts: seq<Transition>, order: seq<int>, snap: Snapshot,
          signal: Option<string>): Result<string, DagError>
    requires Positions(ts, order)
  {
    if order == [] then Err(NoTransition)
    else match VerdictOf(eval, ts[order[0]], snap, signal)
      case Matches => Ok(ts[order[0]].target)
      case Errs => Err(EvaluationFailed)
      case Fails => FirstMatch(eval, ts, order[1..], snap, signal)
  }

  function ResolveTransitions(eval: Evaluator, node: Node, snap: Snapshot, signal: Option<string>): Result<string,
          DagError>
  {
    FirstMatch(eval, node.transitions, StableOrder(node.transitions, |node.transitions|), snap, signal)
  }

  /** Resolver.Resolve: WAIT and JOIN nodes stay put, terminals go nowhere. */
  function Resolve(eval: Evaluator, g: GraphSpec, nodeId: string, snap: Snapshot): Result<string, DagError>
  {
    if nodeId !in g.nodes then Err(InvalidGraph)
    else
      var node := g.nodes[nodeId];
      match node.kind
      case Terminal => Ok("")
      case Wait => Ok(nodeId)
      case Join => Ok(nodeId)
      case _ => ResolveTransitions(eval, node, snap, None)
  }

  /** The evaluation loop over the sorted copy. */
  method RunTransitions(eval: Evaluator, node: Node, snap: Snapshot, signal: Option<string>)
    returns (r: Result<string, DagError>)
    ensures r == ResolveTransitions(eval, node, snap, signal)
  {
    var ts := node.transitions;
    var order := StableOrder(ts, |ts|);
    var i := 0;
    while i < |order|
      invariant 0 <= i <= |order|
      invariant FirstMatch(eval, ts, order[i..], snap, signal) == FirstMatch(eval, ts, order, snap, signal)
    {
      var tr := ts[order[i]];
      assert order[i..][1..] == order[i + 1..];
      i := i + 1;
      if tr.condition.None? {
        continue;
      }
      match EvalCondition(eval, tr.condition.value, snap, signal) {
        case Errs => return Err(EvaluationFailed);
        case Matches => return Ok(tr.target);
        case Fails =>
      }
    }
    return Err(NoTransition);
  }

  // ---------- what it means ----------

  /** i is the first transition, by priority and then by position, whose condition does not fail. */
  ghost predicate Decides(eval: Evaluator, ts: seq<Transition>, snap: Snapshot, signal: Option<string>, i: int)
  {
    && 0 <= i < |ts| && VerdictOf(eval, ts[i], snap, signal) != Fails
    && forall j :: 0 <= j < |ts| && Precedes(ts, j, i) ==> VerdictOf(eval, ts[j], snap, signal) == Fails
  }

  ghost predicate AllFail(eval: Evaluator, ts: seq<Transition>, snap: Snapshot, signal: Option<string>)
  {
    forall j :: 0 <= j < |ts| ==> VerdictOf(eval, ts[j], snap, signal) == Fails
  }

  /** The answer a transition gives when it is the one that decides. */
  function Answer(eval: Evaluator, t: Transition, snap: Snapshot, signal: Option<string>): Result<string, DagError>
  {
    if VerdictOf(eval, t, snap, signal) == Matches then Ok(t.target) else Err(EvaluationFailed)
  }

  /** Everything that must be looked at before the first deciding position has been looked at. */
  lemma {:induction false} FirstMatchDecides(eval: Evaluator, ts: seq<Transition>, order: seq<int>, snap: Snapshot,
          signal: Option<string>)
    returns (at: int)
    requires Positions(ts, order)
    ensures var r := FirstMatch(eval, ts, order, snap, signal);
            if at == |order| then r == Err(NoTransition)
            else 0 <= at < |order| && VerdictOf(eval, ts[order[at]], snap, signal) != Fails
                 && r == Answer(eval, ts[order[at]], snap, signal)
    ensures 0 <= at && forall k :: 0 <= k < at ==> VerdictOf(eval, ts[order[k]], snap, signal) == Fails
  {
    if order == [] {
      at := 0;
    } else if VerdictOf(eval, ts[order[0]], snap, signal) == Fails {
      at := FirstMatchDecides(eval, ts, order[1..], snap, signal);
      at := at + 1;
    } else {
      at := 0;
    }
  }

  lemma PrecedesIsTotal(ts: seq<Transition>, i: int, j: int)
    requires 0 <= i < |ts| && 0 <= j < |ts|
    ensures i == j || Precedes(ts, i, j) || Precedes(ts, j, i)
  {
  }

  lemma OneDecides(eval: Evaluator, ts: seq<Transition>, snap: Snapshot, signal: Option<string>, i: int, j: int)
    requires Decides(eval, ts, snap, signal, i) && Decides(eval, ts, snap, signal, j)
    ensures i == j
  {
    PrecedesIsTotal(ts, i, j);
  }

  /** ResolveTransitions answers with the first transition in (priority descending, position
      ascending) order whose condition does not fail: its target if it matches, its error if its
      evaluation errs; and with NoTransition exactly when every condition fails. */
  lemma ResolveMeaning(eval: Evaluator, node: Node, snap: Snapshot, signal: Option<string>)
    ensures var ts, r := node.transitions, ResolveTransitions(eval, node, snap, signal);
            && (forall i :: Decides(eval, ts, snap, signal, i) ==> r == Answer(eval, ts[i], snap, signal))
            && (r == Err(NoTransition) <==> AllFail(eval, ts, snap, signal))
            && (r != Err(NoTransition) ==> exists i :: Decides(eval, ts, snap, signal, i))
  {
    var ts := node.transitions;
    var order := StableOrder(ts, |ts|);
    StableOrderIsOrdered(ts, |ts|);
    var at := FirstMatchDecides(eval, ts, order, snap, signal);
    if at < |order| {
      var i := order[at];
      forall j | 0 <= j < |ts| && Precedes(ts, j, i)
        ensures VerdictOf(eval, ts[j], snap, signal) == Fails
      {
        assert j in order;
        var k :| 0 <= k < |order| && order[k] == j;
        assert k < at;
      }
      assert Decides(eval, ts, snap, signal, i);
      forall i' | Decides(eval, ts, snap, signal, i')
        ensures i' == i
      {
        OneDecides(eval, ts, snap, signal, i, i');
      }
    } else {
      forall j | 0 <= j < |ts|
        ensures VerdictOf(eval, ts[j], snap, signal) == Fails
      {
        assert j in order;
        var k :| 0 <= k < |order| && order[k] == j;
      }
    }
  }

  /** On a validated computing node routing gets stuck exactly when the node has no always-edge;
      so never where the validator demands a fallback. */
  lemma StuckWithoutAlways(eval: Evaluator, node: Node, snap: Snapshot)
    requires node.kind == Compute || node.kind == KindUnspecified
    requires RequiresFallbackEdge(node) ==> HasAlwaysTransition(node)
    ensures ResolveTransitions(eval, node, snap, None) == Err(NoTransition) <==> !HasAlwaysTransition(node)
    ensures RequiresFallbackEdge(node) ==> ResolveTransitions(eval, node, snap, None) != Err(NoTransition)
  {
    ResolveMeaning(eval, node, snap, None);
    if HasAlwaysTransition(node) {
      var i :| 0 <= i < |node.transitions| && node.transitions[i].condition == Some(Always(true));
      assert VerdictOf(eval, node.transitions[i], snap, None) == Matches;
    }
  }

  /** A successful answer is the target of one of the node's transitions. */
  lemma ResolvedIsTarget(eval: Evaluator, node: Node, snap: Snapshot, signal: Option<string>)
    ensures var r := ResolveTransitions(eval, node, snap, signal);
            r.Ok? ==> exists i :: 0 <= i < |node.transitions| && node.transitions[i].target == r.value
  {
    ResolveMeaning(eval, node, snap, signal);
    var r := ResolveTransitions(eval, node, snap, signal);
    if r.Ok? {
      var i :| Decides(eval, node.transitions, snap, signal, i);
      assert node.transitions[i].target == r.value;
    }
  }
}
