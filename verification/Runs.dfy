/**
 Whole runs: any sequence of public calls from an empty store keeps the store invariant.

 A public call is one atomic step.  A tick is one RunOnce in an arbitrary world: any clock, any
 order of every map range, any answer of every unit and compensator.  DrainInstance is a series of
 ticks.
 */
module Runs {
  import opened Wrappers
  import opened Entities
  import opened Graphs
  import opened Routing
  import opened Idempotency
  import opened Lines
  import opened Registries
  import opened Scheduling
  import opened History
  import opened Preservation
  import opened Steps
  import opened InstanceSteps

  datatype Call = Start(req: StartRequest) | Deliver(delivery: Delivery) | Cancel(entityId: string) | Tick(w: World)

  function Apply(reg: Registry, st: Store, call: Call): Step
  {
    match call
    case Start(req) => StartInstance(reg, st, req)
    case Deliver(d) => DeliverSignal(reg, st, d)
    case Cancel(id) => CancelInstance(st, id)
    case Tick(w) => RunOnce(reg, w, st)
  }

  ghost predicate ValidCalls(calls: seq<Call>)
  {
    forall i :: 0 <= i < |calls| && calls[i].Tick? ==> ValidWorld(calls[i].w)
  }

  /** The store after the calls, whatever errors they returned. */
  function RunFrom(reg: Registry, st: Store, calls: seq<Call>): Store
  {
    if calls == [] then st
    else Apply(reg, RunFrom(reg, st, calls[..|calls| - 1]), calls[|calls| - 1]).store
  }

  function Run(reg: Registry, calls: seq<Call>): Store
  {
    RunFrom(reg, EMPTY_STORE, calls)
  }

  lemma RunOneMore(reg: Registry, st: Store, calls: seq<Call>, call: Call)
    ensures RunFrom(reg, st, calls + [call]) == Apply(reg, RunFrom(reg, st, calls), call).store
  {
    hide Apply;
    assert (calls + [call])[..|calls|] == calls;
  }

  /** Nothing is forgotten, and what has ended stays as it is. */
  ghost predicate Advances(st: Store, st': Store)
  {
    && (forall x :: x in st.instances ==>
          x in st'.instances && (!Active(st.instances[x].status) ==> st'.instances[x] == st.instances[x]))
    && (forall k :: k in st.executions ==>
          k in st'.executions && ExecutionAdvances(st.executions[k], st'.executions[k]))
    && st.signals <= st'.signals
  }

  lemma AdvancesTrans(a: Store, b: Store, c: Store)
    requires Advances(a, b) && Advances(b, c)
    ensures Advances(a, c)
  {
    forall k | k in a.executions
      ensures k in c.executions && ExecutionAdvances(a.executions[k], c.executions[k])
    {
      assert ExecutionAdvances(b.executions[k], c.executions[k]);
    }
  }

  lemma EvolvesAdvances(reg: Registry, st: Store, st': Store, id: string)
    requires Evolves(reg, st, st', id) && id in st.instances && Active(st.instances[id].status)
    ensures Advances(st, st')
  {
  }

  // ---------- what the ranges deliver ----------

  ghost predicate Runnable(st: Store, id: string)
  {
    id in st.instances && (st.instances[id].status == Running || st.instances[id].status == Compensating)
  }

  /** The runnable instances of the enumeration, each once. */
  lemma {:induction false} RunnableAreListed(st: Store, order: seq<string>)
    requires Distinct(order)
    ensures Distinct(RunnableIn(st, order))
    ensures forall id :: id in RunnableIn(st, order) <==> id in order && Runnable(st, id)
  {
    if order != [] {
      var n := |order| - 1;
      RunnableAreListed(st, order[..n]);
      assert order == order[..n] + [order[n]];
      var before := RunnableIn(st, order[..n]);
      assert forall i :: 0 <= i < |before| ==> before[i] in order[..n];
    }
  }

  ghost predicate DueAt(st: Store, d: Due)
  {
    d.entityId in st.instances && st.instances[d.entityId].status == Waiting
    && st.instances[d.entityId].waiting == Some(d.waiting)
  }

  ghost predicate AllDue(st: Store, dues: seq<Due>)
  {
    && (forall i :: 0 <= i < |dues| ==> DueAt(st, dues[i]))
    && forall i, k :: 0 <= i < k < |dues| ==> dues[i].entityId != dues[k].entityId
  }

  /** The instance waits, and its deadline has come. */
  predicate Overdue(rec: Record, now: int)
  {
    && rec.status == Waiting && rec.waiting.Some?
    && rec.waiting.value.deadline.Some? && rec.waiting.value.deadline.value <= now
  }

  ghost predicate ListsDue(st: Store, order: seq<string>, now: int, dues: seq<Due>)
  {
    && (forall i :: 0 <= i < |dues| ==>
          dues[i].entityId in order && dues[i].entityId in st.instances && Overdue(st.instances[dues[i].entityId], now))
    && forall id :: id in order && id in st.instances && Overdue(st.instances[id], now) ==>
         Due(id, st.instances[id].waiting.value) in dues
  }

  /** The waits that are over, each once. */
  lemma {:induction false} DuesAreListed(st: Store, order: seq<string>, now: int)
    requires Distinct(order)
    ensures AllDue(st, DueIn(st, order, now)) && ListsDue(st, order, now, DueIn(st, order, now))
  {
    if order != [] {
      var n := |order| - 1;
      DuesAreListed(st, order[..n], now);
      var before := DueIn(st, order[..n], now);
      assert order == order[..n] + [order[n]];
      assert forall i :: 0 <= i < |before| ==> before[i].entityId in order[..n];
    }
  }

  // ---------- timeouts ----------

  /** A timeout ends the instance, unless its entry is taken for one that is already there. */
  lemma ProcessTimeoutStep(reg: Registry, st: Store, d: Due)
    requires ValidRegistry(reg) && DueAt(st, d) && Sound(reg, st, d.entityId)
    ensures var s := ProcessTimeout(reg, st, d); StepKeeps(reg, st, s, d.entityId) && s.error.None?
  {
    hide Sound, Evolves, ValidRegistry;
    var id := d.entityId;
    var rec := st.instances[id];
    EvolvesRefl(reg, st, id);
    ActiveFacts(reg, st, id);
    var g := GraphAt(reg, st, id).value;
    GraphIsGood(reg, rec.graph);
    AheadIsNew(g, rec.journal, rec.currentNode);
    var target := d.waiting.onTimeoutTarget;
    if target in g.nodes {
      var c := TimeoutCommit(st, id, target, TerminalStatus(g.nodes[target]));
      if !IsJournaled(rec.journal, c.key, c.kind) {
        CommittedFields(rec, c);
        EndingCommit(reg, st, id, g, c);
      }
    }
  }

  lemma {:induction false} ProcessTimeoutsStep(reg: Registry, st: Store, dues: seq<Due>)
    requires ValidRegistry(reg) && Inv(reg, st) && AllDue(st, dues)
    ensures var s := ProcessTimeouts(reg, st, dues); Inv(reg, s.store) && Advances(st, s.store) && s.error.None?
    decreases |dues|
  {
    hide Sound, ValidRegistry, CallsSound, ProcessTimeout;
    if dues != [] {
      var d := dues[0];
      assert DueAt(st, d) && Sound(reg, st, d.entityId);
      ProcessTimeoutStep(reg, st, d);
      var s := ProcessTimeout(reg, st, d);
      EvolvesKeepsInv(reg, st, s.store, d.entityId);
      EvolvesAdvances(reg, st, s.store, d.entityId);
      forall i | 0 <= i < |dues[1..]|
        ensures DueAt(s.store, dues[1..][i])
      {
        assert DueAt(st, dues[i + 1]);
      }
      ProcessTimeoutsStep(reg, s.store, dues[1..]);
      AdvancesTrans(st, s.store, ProcessTimeouts(reg, s.store, dues[1..]).store);
    }
  }

  // ---------- ticks ----------

  ghost predicate AllRunnable(st: Store, ids: seq<string>)
  {
    Distinct(ids) && forall i :: 0 <= i < |ids| ==> Runnable(st, ids[i])
  }

  lemma {:induction false} ProcessAllStep(reg: Registry, w: World, st: Store, ids: seq<string>)
    requires ValidRegistry(reg) && Inv(reg, st) && AllRunnable(st, ids)
    ensures var s := ProcessAll(reg, w, st, ids); Inv(reg, s.store) && Advances(st, s.store)
    decreases |ids|
  {
    hide Inv, Sound, ValidRegistry, CallsSound, ProcessInstance;
    if ids != [] {
      assert Runnable(st, ids[0]);
      ProcessInstanceStep(reg, w, st, ids[0]);
      var s := ProcessInstance(reg, w, st, ids[0]);
      EvolvesAdvances(reg, st, s.store, ids[0]);
      if s.error.None? {
        forall i | 0 <= i < |ids[1..]|
          ensures Runnable(s.store, ids[1..][i])
        {
          assert Runnable(st, ids[i + 1]);
        }
        ProcessAllStep(reg, w, s.store, ids[1..]);
        AdvancesTrans(st, s.store, ProcessAll(reg, w, s.store, ids[1..]).store);
      }
    }
  }

  lemma RunOnceStep(reg: Registry, w: World, st: Store)
    requires ValidRegistry(reg) && Inv(reg, st) && ValidWorld(w)
    ensures var s := RunOnce(reg, w, st); Inv(reg, s.store) && Advances(st, s.store)
  {
    hide Inv, ValidRegistry, ProcessTimeouts, ProcessAll;
    DuesAreListed(st, w.order(TimeoutSite, st.instances.Keys), w.now);
    ProcessTimeoutsStep(reg, st, TimeoutsOf(w, st));
    var st' := ProcessTimeouts(reg, st, TimeoutsOf(w, st)).store;
    RunnableAreListed(st', w.order(RunnableSite, st'.instances.Keys));
    ProcessAllStep(reg, w, st', RunnableOf(w, st'));
    AdvancesTrans(st, st', ProcessAll(reg, w, st', RunnableOf(w, st')).store);
  }

  // ---------- starting, cancelling, signals ----------

  lemma BirthKeepsInv(reg: Registry, st: Store, id: string, rec: Record)
    requires ValidRegistry(reg) && Inv(reg, st) && id !in st.instances && Newborn(reg, rec)
    ensures Inv(reg, WithRecord(st, id, rec)) && Advances(st, WithRecord(st, id, rec))
  {
    hide RecordInv, Newborn, ValidRegistry, MaxAttempts;
    var st' := WithRecord(st, id, rec);
    forall k | k in st.executions
      ensures !Owned(id, k)
    {
      assert k[0] in st.instances;
    }
    NewbornSound(reg, st', id);
    forall x | x in st'.instances
      ensures Sound(reg, st', x)
    {
      assert x != id ==> Sound(reg, st, x);
    }
    forall i | 0 <= i < |st.calls|
      ensures CallSound(reg, st', st.calls[i])
    {
      assert CallSound(reg, st, st.calls[i]);
    }
  }

  lemma StartStep(reg: Registry, st: Store, req: StartRequest)
    requires ValidRegistry(reg) && Inv(reg, st)
    ensures var s := StartInstance(reg, st, req); Inv(reg, s.store) && Advances(st, s.store)
  {
    hide Inv, ValidRegistry;
    if StartInstance(reg, st, req).error.None? {
      BirthKeepsInv(reg, st, req.entityId, NewRecord(req, reg.graphs[req.graph].entryNodeId));
    }
  }

  lemma CancelStep(reg: Registry, st: Store, id: string)
    requires ValidRegistry(reg) && Inv(reg, st)
    ensures Inv(reg, CancelInstance(st, id).store)
  {
    hide CallsSound, RecordInv, Evolves, ValidRegistry;
    if id in st.instances {
      assert Sound(reg, st, id);
      StatusStep(reg, st, id, Cancelled);
      EvolvesKeepsInv(reg, st, SetStatus(st, id, Cancelled), id);
    }
  }

  lemma RecordingKeeps(reg: Registry, st: Store, key: Key)
    requires Inv(reg, st)
    ensures Inv(reg, st.(signals := st.signals + {key})) && Advances(st, st.(signals := st.signals + {key}))
  {
    hide RecordInvIn;
    var st' := st.(signals := st.signals + {key});
    forall x | x in st'.instances
      ensures Sound(reg, st', x)
    {
      assert Sound(reg, st, x);
      ElsewhereKeeps(reg, GetGraph(reg, st.instances[x].graph).value, x, st.instances[x],
                     st.executions, st.signals, st'.executions, st'.signals);
    }
    forall i | 0 <= i < |st.calls|
      ensures CallSound(reg, st', st.calls[i])
    {
      assert CallSound(reg, st, st.calls[i]);
    }
  }

  /** A delivery that was not recorded before is not in the journal either. */
  lemma DeliveryIsNew(reg: Registry, st: Store, d: Delivery)
    requires d.entityId in st.instances && Sound(reg, st, d.entityId) && st.instances[d.entityId].status == Waiting
    requires SignalKey(d.entityId, d.signalName, d.deliveryId) !in st.signals
    ensures !IsJournaled(st.instances[d.entityId].journal,
                         SignalKey(d.entityId, d.signalName, d.deliveryId), SignalReceived)
  {
    hide Sound;
    var rec := st.instances[d.entityId];
    ActiveFacts(reg, st, d.entityId);
    forall i | 0 <= i < |rec.journal| && rec.journal[i].kind == SignalReceived
      ensures rec.journal[i].key in st.signals
    {
      assert ForwardEntry(d.entityId, rec.journal[i], st.signals);
    }
  }

  lemma SignalCommitStep(reg: Registry, st: Store, d: Delivery, g: GraphSpec, node: Node, snap: Option<Snapshot>,
          next: string)
    requires At(reg, st, d.entityId, g, node) && st.instances[d.entityId].status == Waiting
    requires Edge(g, node.nodeId, next) && d.signalName != ""
    requires var key := SignalKey(d.entityId, d.signalName, d.deliveryId);
             key in st.signals && !IsJournaled(st.instances[d.entityId].journal, key, SignalReceived)
    ensures var id, c := d.entityId, SignalCommit(st, d, snap, next);
            && StepKeeps(reg, st, Done(CommitHop(st, id, c)), id)
            && CommitHop(st, id, c).instances[id] == Committed(st.instances[id], c)
  {
    hide Sound, Evolves, ValidRegistry, OnPath;
    var id := d.entityId;
    var rec, c := st.instances[id], SignalCommit(st, d, snap, next);
    ActiveFacts(reg, st, id);
    GraphIsGood(reg, rec.graph);
    AheadIsNew(g, rec.journal, rec.currentNode);
    CommittedFields(rec, c);
    MovingCommit(reg, st, id, g, c);
  }

  lemma DeliverStep(reg: Registry, st: Store, d: Delivery)
    requires ValidRegistry(reg) && Inv(reg, st)
    ensures var s := DeliverSignal(reg, st, d); Inv(reg, s.store) && Advances(st, s.store)
  {
    hide Inv, Sound, Evolves, ValidRegistry, CommitHop, ResolveTransitions, SignalSnapshot, SignalAccepted;
    var id, key := d.entityId, SignalKey(d.entityId, d.signalName, d.deliveryId);
    var recorded := st.(signals := st.signals + {key});
    RecordingKeeps(reg, st, key);
    var s := DeliverSignal(reg, st, d);
    if s.store != st && s.store != recorded {
      var rec := st.instances[id];
      var g := GetGraph(reg, rec.graph).value;
      var node := g.nodes[rec.currentNode];
      var snap := SignalSnapshot(reg, node, rec.snapshot, d).value;
      var seen := if snap.Some? then snap.value else rec.snapshot;
      var next := ResolveTransitions(reg.eval, node, seen, Some(d.signalName));
      InvIsSound(reg, st, id);
      InvIsSound(reg, recorded, id);
      DeliveryIsNew(reg, st, d);
      GraphIsGood(reg, rec.graph);
      ResolvedEdge(reg, g, node, seen, Some(d.signalName));
      AcceptedIsNamed(rec.waiting, d.signalName);
      SignalCommitStep(reg, recorded, d, g, node, snap, next.value);
      EvolvesKeepsInv(reg, recorded, s.store, id);
      EvolvesAdvances(reg, recorded, s.store, id);
      AdvancesTrans(st, recorded, s.store);
    }
  }

  lemma AcceptedIsNamed(waiting: Option<WaitRecord>, name: string)
    requires SignalAccepted(waiting, name)
    ensures name != ""
  {
  }

  lemma InvIsSound(reg: Registry, st: Store, id: string)
    requires Inv(reg, st) && id in st.instances
    ensures Sound(reg, st, id)
  {
  }

  lemma InvHasCalls(reg: Registry, st: Store)
    requires Inv(reg, st)
    ensures CallsSound(reg, st)
  {
  }

  // ---------- runs ----------

  lemma ApplyStep(reg: Registry, st: Store, call: Call)
    requires ValidRegistry(reg) && Inv(reg, st) && (call.Tick? ==> ValidWorld(call.w))
    ensures Inv(reg, Apply(reg, st, call).store)
    ensures !call.Cancel? ==> Advances(st, Apply(reg, st, call).store)
  {
    hide Inv, ValidRegistry, Advances, StartInstance, DeliverSignal, CancelInstance, RunOnce;
    match call
    case Start(req) => StartStep(reg, st, req);
    case Deliver(d) => DeliverStep(reg, st, d);
    case Cancel(id) => CancelStep(reg, st, id);
    case Tick(w) => RunOnceStep(reg, w, st);
  }

  lemma EmptyIsSound(reg: Registry)
    ensures Inv(reg, EMPTY_STORE)
  {
  }

  /** Every reachable store meets the invariant. */
  lemma {:induction false} RunsKeepInv(reg: Registry, st: Store, calls: seq<Call>)
    requires ValidRegistry(reg) && ValidCalls(calls) && Inv(reg, st)
    ensures Inv(reg, RunFrom(reg, st, calls))
  {
    hide Inv, ValidRegistry, Apply;
    if calls != [] {
      var n := |calls| - 1;
      RunsKeepInv(reg, st, calls[..n]);
      ApplyStep(reg, RunFrom(reg, st, calls[..n]), calls[n]);
    }
  }

  lemma ReachableInv(reg: Registry, calls: seq<Call>)
    requires ValidRegistry(reg) && ValidCalls(calls)
    ensures Inv(reg, Run(reg, calls))
  {
    hide Inv, ValidRegistry;
    EmptyIsSound(reg);
    RunsKeepInv(reg, EMPTY_STORE, calls);
  }
}
