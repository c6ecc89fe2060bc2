/** Which deliveries of a signal are committed, and what becomes of the others. */
module Deliveries {
  import opened Wrappers
  import opened Entities
  import opened Graphs
  import opened Routing
  import opened Conditions
  import opened Idempotency
  import opened Lines
  import opened Registries
  import opened Scheduling
  import opened Steps
  import opened Runs
  import opened Guarantees

  /** Does the node take the payload of the delivery into the snapshot? */
  predicate TakesPayload(node: Node, d: Delivery)
  {
    d.payload.Some? && (node.waitConfig.None? || node.waitConfig.value.mergeSignalPayload != Some(false))
  }

  predicate MergeFails(reg: Registry, node: Node, snap: Snapshot, d: Delivery)
  {
    && TakesPayload(node, d) && snap.payload.Some?
    && reg.merge(snap.payload.value, d.signalName, d.payload.value).None?
  }

  /** The snapshot that routing sees. */
  function SeenSnapshot(reg: Registry, node: Node, snap: Snapshot, d: Delivery): Snapshot
  {
    if !TakesPayload(node, d) then snap
    else if snap.payload.None? then snap.(payload := d.payload)
    else snap.(payload := reg.merge(snap.payload.value, d.signalName, d.payload.value))
  }

  ghost predicate Deliverable(reg: Registry, node: Node, snap: Snapshot, d: Delivery)
  {
    && !MergeFails(reg, node, snap, d)
    && var seen := SeenSnapshot(reg, node, snap, d);
       exists i :: Takes(reg.eval, node.transitions, seen, Some(d.signalName), i)
  }

  /** The instance waits for this name, or accepts it. */
  predicate Accepts(rec: Record, name: string)
  {
    && rec.waiting.Some? && name != ""
    && (name == rec.waiting.value.signalName || name in rec.waiting.value.acceptedSignals)
  }

  lemma SeenIsSignalSnapshot(reg: Registry, node: Node, snap: Snapshot, d: Delivery)
    ensures var r := SignalSnapshot(reg, node, snap, d);
            && (r.Err? <==> MergeFails(reg, node, snap, d)) && (r.Err? ==> r.error == MergeFailed)
            && (r.Ok? ==> r.value == if TakesPayload(node, d) then Some(SeenSnapshot(reg, node, snap, d)) else None)
            && (!TakesPayload(node, d) ==> SeenSnapshot(reg, node, snap, d) == snap)
  {
  }

  function KeyOf(d: Delivery): Key
  {
    SignalKey(d.entityId, d.signalName, d.deliveryId)
  }

  /** The record after a committed delivery: it runs at the target and waits no more; a payload that the
      node takes is in the snapshot, one sequence further, and in the journal, and else both stay. */
  predicate Delivered(rec: Record, node: Node, d: Delivery, seen: Snapshot, target: string, rec': Record)
  {
    var sequence := if TakesPayload(node, d) then rec.sequence + 1 else rec.sequence;
    var snap := if TakesPayload(node, d) then seen.(sequence := sequence) else rec.snapshot;
    rec' == rec.(status := Running, sequence := sequence, currentNode := target, snapshot := snap, waiting := None,
                 journal := rec.journal + [Entry(|rec.journal| + 1, SignalReceived, rec.currentNode, rec.sequence,
                                                 sequence, snap, KeyOf(d), d.signalName, d.deliveryId, "", [])])
  }

  /** The step has replaced this record only, beside what it has to say of the hop's execution. */
  predicate Replaced(st: Store, s: Step, d: Delivery)
  {
    && s.error.None? && d.entityId in s.store.instances
    && s.store == st.(instances := st.instances[d.entityId := s.store.instances[d.entityId]],
                      signals := st.signals + {KeyOf(d)}, executions := s.store.executions)
    && s.store.executions == if KeyOf(d) in st.executions
                             then st.executions[KeyOf(d) := st.executions[KeyOf(d)].(status := ExecutionCommitted)]
                             else st.executions
  }

  /** A new delivery that the waiting instance accepts is committed exactly when merging its payload
      does not fail and routing on what comes out takes a transition; it then moves the instance along
      that transition.  Otherwise nothing changes but that the delivery counts as received. */
  lemma DeliveredIff(reg: Registry, calls: seq<Call>, st: Store, d: Delivery, rec: Record, g: GraphSpec)
    requires Reaches(reg, calls, st, d.entityId, rec, g) && rec.status == Waiting
    requires Accepts(rec, d.signalName) && KeyOf(d) !in st.signals
    ensures rec.currentNode in g.nodes
    ensures var s, node := DeliverSignal(reg, st, d), g.nodes[rec.currentNode];
            var recorded, ts := st.(signals := st.signals + {KeyOf(d)}), node.transitions;
            var seen, signal := SeenSnapshot(reg, node, rec.snapshot, d), Some(d.signalName);
            && (s.error.None? <==> Deliverable(reg, node, rec.snapshot, d))
            && (s.error.Some? ==> s.store == recorded)
            && if MergeFails(reg, node, rec.snapshot, d) then s == Fail(recorded, MergeFailed)
               else
                 && (forall i :: Takes(reg.eval, ts, seen, signal, i) ==>
                       && Replaced(st, s, d)
                       && Delivered(rec, node, d, seen, ts[i].target, s.store.instances[d.entityId]))
                 && ((exists i :: Stops(reg.eval, ts, seen, signal, i)) ==> s == Fail(recorded, EvaluationFailed))
                 && (TakesNone(reg.eval, ts, seen, signal) ==> s == Fail(recorded, NoTransition))
  {
    hide ValidRegistry, RunFrom, Sound, ResolveTransitions, SignalSnapshot, MergeFails, SeenSnapshot, Stops,
         TakesNone, NoneBefore, Holds, Breaks, TakesPayload, Delivered, Replaced, CommitHop;
    ReachedIsSound(reg, calls, d.entityId);
    ActiveFacts(reg, st, d.entityId);
    var node := g.nodes[rec.currentNode];
    SeenIsSignalSnapshot(reg, node, rec.snapshot, d);
    var snap := SignalSnapshot(reg, node, rec.snapshot, d);
    var seen := SeenSnapshot(reg, node, rec.snapshot, d);
    RoutingMeans(reg.eval, node, seen, Some(d.signalName));
    var next := ResolveTransitions(reg.eval, node, seen, Some(d.signalName));
    if snap.Ok? && next.Ok? {
      CommittedDelivery(reg, st, d, node, snap.value, seen, next.value);
    }
  }

  lemma CommittedDelivery(reg: Registry, st: Store, d: Delivery, node: Node, snap: Option<Snapshot>, seen: Snapshot,
          target: string)
    requires d.entityId in st.instances && Sound(reg, st, d.entityId) && KeyOf(d) !in st.signals
    requires st.instances[d.entityId].status == Waiting
    requires snap == if TakesPayload(node, d) then Some(seen) else None
    requires d.signalName != ""
    ensures var rec, recorded := st.instances[d.entityId], st.(signals := st.signals + {KeyOf(d)});
            var st' := CommitHop(recorded, d.entityId, SignalCommit(recorded, d, snap, target));
            && Replaced(st, Done(st'), d) && Delivered(rec, node, d, seen, target, st'.instances[d.entityId])
  {
    hide Sound, TakesPayload;
    DeliveryIsNew(reg, st, d);
  }

  /** Every other delivery changes nothing: it finds no instance, or one that does not wait, or one that
      waits for other signals, or it has been received before. */
  lemma OtherDeliveries(reg: Registry, st: Store, d: Delivery)
    ensures var s := DeliverSignal(reg, st, d);
            && (d.entityId !in st.instances ==> s == Fail(st, InstanceNotFound))
            && (d.entityId in st.instances ==>
                  var rec := st.instances[d.entityId];
                  && (rec.status != Waiting ==> s == Done(st))
                  && (rec.status == Waiting && !Accepts(rec, d.signalName) ==> s == Fail(st, SignalMismatch))
                  && (rec.status == Waiting && Accepts(rec, d.signalName) && KeyOf(d) in st.signals ==> s == Done(st)))
  {
    hide ResolveTransitions, SignalSnapshot, GetGraph;
  }

  lemma SignalsStay(reg: Registry, st: Store, call: Call)
    requires ValidRegistry(reg) && Inv(reg, st) && (call.Tick? ==> ValidWorld(call.w))
    ensures st.signals <= Apply(reg, st, call).store.signals
  {
    hide Inv, ValidRegistry, ValidWorld, StartInstance, DeliverSignal, RunOnce;
    ApplyStep(reg, st, call);
  }

  lemma {:induction false} SignalsOnlyGrow(reg: Registry, st: Store, more: seq<Call>)
    requires ValidRegistry(reg) && Inv(reg, st) && ValidCalls(more)
    ensures st.signals <= RunFrom(reg, st, more).signals
    decreases |more|
  {
    hide Inv, ValidRegistry, Apply;
    if more != [] {
      var n := |more| - 1;
      SignalsOnlyGrow(reg, st, more[..n]);
      RunsKeepInv(reg, st, more[..n]);
      SignalsStay(reg, RunFrom(reg, st, more[..n]), more[n]);
    }
  }

  lemma ReceivedIsIgnored(reg: Registry, st: Store, d: Delivery)
    requires KeyOf(d) in st.signals
    ensures DeliverSignal(reg, st, d).store == st
    ensures d.entityId in st.instances && Accepts(st.instances[d.entityId], d.signalName) ==>
              DeliverSignal(reg, st, d) == Done(st)
  {
    hide ResolveTransitions, SignalSnapshot;
  }

  /** A delivery that failed is spent: after any further calls, delivering that id again, with
      whatever payload, changes nothing; and to an instance that waits for it it reports success. */
  lemma FailedDeliveryIsSpent(reg: Registry, calls: seq<Call>, st: Store, d: Delivery, rec: Record, g: GraphSpec,
          more: seq<Call>, again: Delivery)
    requires Reaches(reg, calls, st, d.entityId, rec, g) && rec.status == Waiting && ValidCalls(more)
    requires Accepts(rec, d.signalName) && KeyOf(d) !in st.signals && KeyOf(again) == KeyOf(d)
    requires rec.currentNode in g.nodes && !Deliverable(reg, g.nodes[rec.currentNode], rec.snapshot, d)
    ensures var st' := DeliverSignal(reg, st, d).store;
            var later := RunFrom(reg, st', more);
            && st'.instances == st.instances && DeliverSignal(reg, later, again).store == later
            && (again.entityId in later.instances
                && Accepts(later.instances[again.entityId], again.signalName) ==>
                  DeliverSignal(reg, later, again) == Done(later))
  {
    hide ValidRegistry, RunFrom, Inv, Deliverable, DeliverSignal, Accepts;
    DeliveredIff(reg, calls, st, d, rec, g);
    ReachableInv(reg, calls);
    DeliverStep(reg, st, d);
    var st' := DeliverSignal(reg, st, d).store;
    SignalsOnlyGrow(reg, st', more);
    ReceivedIsIgnored(reg, RunFrom(reg, st', more), again);
  }

  /** A delivery that was accepted once, committed or not, changes nothing when it is repeated after any
      further calls.  It reports success, unless the instance then waits for other signals: the name is
      checked before the repetition is recognised. */
  lemma RepetitionReports(reg: Registry, calls: seq<Call>, st: Store, d: Delivery, rec: Record, g: GraphSpec,
          more: seq<Call>)
    requires Reaches(reg, calls, st, d.entityId, rec, g) && rec.status == Waiting && ValidCalls(more)
    requires Accepts(rec, d.signalName)
    ensures var later := RunFrom(reg, DeliverSignal(reg, st, d).store, more);
            var s := DeliverSignal(reg, later, d);
            && s.store == later && d.entityId in later.instances
            && var now := later.instances[d.entityId];
               var refused := now.status == Waiting && !Accepts(now, d.signalName);
               s.error == if refused then Some(SignalMismatch) else None
  {
    hide ValidRegistry, RunFrom, Inv, DeliverSignal, Accepts;
    ReachableInv(reg, calls);
    DeliverStep(reg, st, d);
    var st' := DeliverSignal(reg, st, d).store;
    AcceptedIsRecorded(reg, st, d);
    SignalsOnlyGrow(reg, st', more);
    InstancesStay(reg, st', more, d.entityId);
    RepetitionOf(reg, RunFrom(reg, st', more), d);
  }

  lemma AcceptedIsRecorded(reg: Registry, st: Store, d: Delivery)
    requires d.entityId in st.instances && st.instances[d.entityId].status == Waiting
    requires Accepts(st.instances[d.entityId], d.signalName)
    ensures KeyOf(d) in DeliverSignal(reg, st, d).store.signals
    ensures d.entityId in DeliverSignal(reg, st, d).store.instances
  {
    hide ResolveTransitions, SignalSnapshot, GetGraph;
  }

  lemma RepetitionOf(reg: Registry, st: Store, d: Delivery)
    requires KeyOf(d) in st.signals && d.entityId in st.instances
    ensures var rec := st.instances[d.entityId];
            DeliverSignal(reg, st, d)
            == Step(st, if rec.status == Waiting && !Accepts(rec, d.signalName) then Some(SignalMismatch)
                        else None)
  {
    hide ResolveTransitions, SignalSnapshot, GetGraph;
  }

  lemma {:induction false} InstancesStay(reg: Registry, st: Store, more: seq<Call>, id: string)
    requires ValidRegistry(reg) && Inv(reg, st) && ValidCalls(more) && id in st.instances
    ensures id in RunFrom(reg, st, more).instances
    decreases |more|
  {
    hide Inv, ValidRegistry, StartInstance, DeliverSignal, RunOnce;
    if more != [] {
      var n := |more| - 1;
      InstancesStay(reg, st, more[..n], id);
      RunsKeepInv(reg, st, more[..n]);
      ApplyStep(reg, RunFrom(reg, st, more[..n]), more[n]);
    }
  }
}
