/**
 Where routing leads, told by the conditions themselves (pkg/dag/graph/predicate.go).

 Evaluation errors stop routing, so a condition has three fates: it holds, it breaks, or neither.
 */
module Conditions {
  import opened Wrappers
  import opened Entities
  import opened Graphs
  import opened Routing

  /** The payload is there, and this is what evaluating the field predicate on it gives. */
  predicate FieldGives(eval: Evaluator, p: FieldPredicate, snap: Snapshot, v: Verdict)
  {
    snap.payload.Some? && eval(p, snap.payload.value) == v
  }

  /** A signal is being delivered, and the condition asks for it or for any. */
  predicate AsksFor(name: string, signal: Option<string>)
  {
    signal.Some? && (name == "" || name == signal.value)
  }

  /** The transition's condition is always true, or a field predicate that matches, or it asks for this
      signal and its payload predicate, if it has one, matches. */
  predicate Holds(eval: Evaluator, t: Transition, snap: Snapshot, signal: Option<string>)
  {
    t.condition.Some? &&
    var c := t.condition.value;
    || c == Always(true)
    || (c.OnField? && FieldGives(eval, c.field, snap, Matches))
    || (c.OnSignal? && AsksFor(c.signalName, signal)
        && (c.payloadPredicate.None? || FieldGives(eval, c.payloadPredicate.value, snap, Matches)))
  }

  /** The field predicate that decides on the transition cannot be evaluated. */
  predicate Breaks(eval: Evaluator, t: Transition, snap: Snapshot, signal: Option<string>)
  {
    t.condition.Some? &&
    var c := t.condition.value;
    || (c.OnField? && FieldGives(eval, c.field, snap, Errs))
    || (c.OnSignal? && AsksFor(c.signalName, signal)
        && c.payloadPredicate.Some? && FieldGives(eval, c.payloadPredicate.value, snap, Errs))
  }

  /** j has the higher priority, or the same one and the earlier position. */
  predicate Earlier(ts: seq<Transition>, j: int, i: int)
    requires 0 <= i < |ts| && 0 <= j < |ts|
  {
    ts[j].priority > ts[i].priority || (ts[j].priority == ts[i].priority && j < i)
  }

  /** No transition earlier than i holds or breaks. */
  ghost predicate NoneBefore(eval: Evaluator, ts: seq<Transition>, snap: Snapshot, signal: Option<string>, i: int)
    requires 0 <= i < |ts|
  {
    forall j :: 0 <= j < |ts| && Earlier(ts, j, i) ==>
      !Holds(eval, ts[j], snap, signal) && !Breaks(eval, ts[j], snap, signal)
  }

  /** Routing takes transition i. */
  ghost predicate Takes(eval: Evaluator, ts: seq<Transition>, snap: Snapshot, signal: Option<string>, i: int)
  {
    0 <= i < |ts| && Holds(eval, ts[i], snap, signal) && NoneBefore(eval, ts, snap, signal, i)
  }

  /** Routing stops with an error at transition i. */
  ghost predicate Stops(eval: Evaluator, ts: seq<Transition>, snap: Snapshot, signal: Option<string>, i: int)
  {
    0 <= i < |ts| && Breaks(eval, ts[i], snap, signal) && NoneBefore(eval, ts, snap, signal, i)
  }

  /** Routing finds no transition to take. */
  ghost predicate TakesNone(eval: Evaluator, ts: seq<Transition>, snap: Snapshot, signal: Option<string>)
  {
    forall j :: 0 <= j < |ts| ==> !Holds(eval, ts[j], snap, signal) && !Breaks(eval, ts[j], snap, signal)
  }

  lemma VerdictMeans(eval: Evaluator, t: Transition, snap: Snapshot, signal: Option<string>)
    ensures VerdictOf(eval, t, snap, signal) == Matches <==> Holds(eval, t, snap, signal)
    ensures VerdictOf(eval, t, snap, signal) == Errs <==> Breaks(eval, t, snap, signal)
  {
  }

  lemma DecidesMeans(eval: Evaluator, ts: seq<Transition>, snap: Snapshot, signal: Option<string>, i: int)
    ensures Decides(eval, ts, snap, signal, i)
            <==> Takes(eval, ts, snap, signal, i) || Stops(eval, ts, snap, signal, i)
    ensures Takes(eval, ts, snap, signal, i) ==> !Stops(eval, ts, snap, signal, i)
  {
    hide VerdictOf, Holds, Breaks;
    forall j | 0 <= j < |ts|
      ensures VerdictOf(eval, ts[j], snap, signal) == Fails
              <==> !Holds(eval, ts[j], snap, signal) && !Breaks(eval, ts[j], snap, signal)
      ensures !Holds(eval, ts[j], snap, signal) || !Breaks(eval, ts[j], snap, signal)
    {
      VerdictMeans(eval, ts[j], snap, signal);
    }
  }

  /** Routing answers with a target exactly when it takes some transition, and then with the target of
      the one transition that does.  It answers with an evaluation error exactly when it stops at a
      transition, and with no transition exactly when none holds or breaks. */
  lemma RoutingMeans(eval: Evaluator, node: Node, snap: Snapshot, signal: Option<string>)
    ensures var ts, r := node.transitions, ResolveTransitions(eval, node, snap, signal);
            && (r.Ok? <==> exists i :: Takes(eval, ts, snap, signal, i))
            && (forall i :: Takes(eval, ts, snap, signal, i) ==> r == Ok(ts[i].target))
            && (r == Err(EvaluationFailed) <==> exists i :: Stops(eval, ts, snap, signal, i))
            && (r == Err(NoTransition) <==> TakesNone(eval, ts, snap, signal))
            && (r.Err? ==> r.error in {EvaluationFailed, NoTransition})
  {
    hide VerdictOf, Holds, Breaks, Decides, Takes, Stops, ResolveTransitions;
    var ts := node.transitions;
    ResolveMeaning(eval, node, snap, signal);
    forall i: int
      ensures Decides(eval, ts, snap, signal, i)
              <==> Takes(eval, ts, snap, signal, i) || Stops(eval, ts, snap, signal, i)
      ensures Takes(eval, ts, snap, signal, i) ==>
                0 <= i < |ts| && Answer(eval, ts[i], snap, signal) == Ok(ts[i].target)
      ensures Stops(eval, ts, snap, signal, i) ==>
                0 <= i < |ts| && Answer(eval, ts[i], snap, signal) == Err(EvaluationFailed)
    {
      AnswerMeans(eval, ts, snap, signal, i);
    }
    forall j | 0 <= j < |ts|
      ensures VerdictOf(eval, ts[j], snap, signal) == Fails
              <==> !Holds(eval, ts[j], snap, signal) && !Breaks(eval, ts[j], snap, signal)
    {
      VerdictMeans(eval, ts[j], snap, signal);
    }
  }

  lemma AnswerMeans(eval: Evaluator, ts: seq<Transition>, snap: Snapshot, signal: Option<string>, i: int)
    ensures Decides(eval, ts, snap, signal, i)
            <==> Takes(eval, ts, snap, signal, i) || Stops(eval, ts, snap, signal, i)
    ensures Takes(eval, ts, snap, signal, i) ==> 0 <= i < |ts| && Answer(eval, ts[i], snap, signal) == Ok(ts[i].target)
    ensures Stops(eval, ts, snap, signal, i) ==>
              0 <= i < |ts| && Answer(eval, ts[i], snap, signal) == Err(EvaluationFailed)
  {
    hide VerdictOf, Holds, Breaks, Decides, NoneBefore;
    DecidesMeans(eval, ts, snap, signal, i);
    if 0 <= i < |ts| {
      VerdictMeans(eval, ts[i], snap, signal);
    }
  }

  /** Routing never takes two. */
  lemma OneIsTaken(eval: Evaluator, ts: seq<Transition>, snap: Snapshot, signal: Option<string>, i: int, j: int)
    requires Takes(eval, ts, snap, signal, i) && Takes(eval, ts, snap, signal, j)
    ensures i == j
  {
    hide Holds, Breaks;
    EarlierIsTotal(ts, i, j);
  }

  lemma EarlierIsTotal(ts: seq<Transition>, i: int, j: int)
    requires 0 <= i < |ts| && 0 <= j < |ts|
    ensures i == j || Earlier(ts, i, j) || Earlier(ts, j, i)
  {
  }
}
