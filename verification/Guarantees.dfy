/**
 What holds in every store that any sequence of public calls can reach, in the words of the
 engine's promises.
 */
module Guarantees {
  import opened Wrappers
  import opened Graphs
  import opened Idempotency
  import opened Decimals
  import opened Lines
  import opened Registries
  import opened Scheduling
  import opened History
  import opened Preservation
  import opened Steps
  import opened Effects
  import opened Joins
  import opened Runs
  import opened Ticks
  import opened Chronicles

  /** The store that the calls lead to holds the instance, and this is its record and its graph. */
  ghost predicate Reaches(reg: Registry, calls: seq<Call>, st: Store, id: string, rec: Record, g: GraphSpec)
  {
    && ValidRegistry(reg) && ValidCalls(calls) && st == Run(reg, calls)
    && id in st.instances && rec == st.instances[id] && GetGraph(reg, rec.graph) == Ok(g)
  }

  /** A reached instance is sound, and its graph is registered. */
  lemma ReachedIsSound(reg: Registry, calls: seq<Call>, id: string)
    requires ValidRegistry(reg) && ValidCalls(calls) && id in Run(reg, calls).instances
    ensures var st := Run(reg, calls);
            && Inv(reg, st) && Sound(reg, st, id) && GraphAt(reg, st, id).Ok?
            && Reaches(reg, calls, st, id, st.instances[id], GraphAt(reg, st, id).value)
  {
    hide ValidRegistry, RunFrom;
    ReachableInv(reg, calls);
    InvIsSound(reg, Run(reg, calls), id);
  }

  // ---------- where an instance has been ----------

  /** While active, an instance has walked a path of transitions from the entry node to its current
      node, never meeting a node twice. */
  lemma ActivePath(reg: Registry, calls: seq<Call>, st: Store, id: string, rec: Record, g: GraphSpec)
    requires Reaches(reg, calls, st, id, rec, g) && Active(rec.status)
    ensures var path := Trail(rec.journal) + [rec.currentNode];
            path[0] == g.entryNodeId && Chain(g, path) && Distinct(path) && |path| <= |g.nodes|
  {
    hide ValidRegistry, RunFrom, Sound, JournalSound, SagaReplays, AgreesWithJournal, ForwardEntries;
    ReachedIsSound(reg, calls, id);
    ActiveFacts(reg, st, id);
    GraphIsGood(reg, rec.graph);
    AheadIsNew(g, rec.journal, rec.currentNode);
    var path := Trail(rec.journal) + [rec.currentNode];
    PassiveFacts(reg, st, id, g);
    assert forall i :: 0 <= i < |path| ==> path[i] in g.nodes.Keys;
    DistinctFits(path, g.nodes.Keys);
  }

  lemma PassiveFacts(reg: Registry, st: Store, id: string, g: GraphSpec)
    requires id in st.instances && Sound(reg, st, id) && GraphAt(reg, st, id) == Ok(g)
    ensures var rec := st.instances[id];
            && JournalSound(id, rec.journal) && AgreesWithJournal(rec.journal, rec.sequence, rec.snapshot)
            && SagaReplays(g, id, rec.journal, rec.stack, rec.sequence) && TrailSound(g, rec.journal)
  {
  }

  /** Whatever its status, an instance never commits a node twice and journals at most two entries
      per node. */
  lemma JournalIsBounded(reg: Registry, calls: seq<Call>, st: Store, id: string, rec: Record, g: GraphSpec)
    requires Reaches(reg, calls, st, id, rec, g)
    ensures Distinct(Trail(rec.journal)) && |rec.journal| <= 2 * |g.nodes|
  {
    hide ValidRegistry, RunFrom, Sound;
    ReachedIsSound(reg, calls, id);
    PassiveFacts(reg, st, id, g);
    JournalSplits(g, rec.journal);
    DistinctFits(Trail(rec.journal), g.nodes.Keys);
  }

  // ---------- idempotency never swallows a hop ----------

  /** A hop of the current node, or of a node right behind it, is always written. */
  lemma NoHopIsSwallowed(reg: Registry, calls: seq<Call>, st: Store, id: string, rec: Record, g: GraphSpec,
          c: HopCommit)
    requires Reaches(reg, calls, st, id, rec, g) && Active(rec.status)
    requires c.nodeId == rec.currentNode || Edge(g, rec.currentNode, c.nodeId)
    requires c.kind in {NodeCommitted, SpawnedChildren, JoinCommitted} && c.key == HopKey(id, c.nodeId, rec.sequence)
    ensures CommitHop(st, id, c).instances[id].journal == rec.journal + [NewEntry(rec, c)]
  {
    hide ValidRegistry, RunFrom, Sound;
    ReachedIsSound(reg, calls, id);
    ActiveFacts(reg, st, id);
    GraphIsGood(reg, rec.graph);
    AheadIsNew(g, rec.journal, rec.currentNode);
    HopIsNew(id, rec.journal, st.signals, c.nodeId, rec.sequence, c.kind);
    CommittedFields(rec, c);
  }

  /** Signal entries of an active instance that a timeout of the current node would be taken for. */
  ghost predicate MasksTimeout(rec: Record, e: Entry)
  {
    e.kind == SignalReceived && e.signalName == rec.currentNode && e.deliveryId == Decimal(rec.sequence)
  }

  ghost predicate Masked(rec: Record)
  {
    exists i :: 0 <= i < |rec.journal| && MasksTimeout(rec, rec.journal[i])
  }

  /** What a timeout leaves of the record: it has ended at its target, COMPLETED if that node carries the
      outcome SUCCESS and else FAILED; its waiting node has been committed, and its payload kept. */
  predicate TimedOut(id: string, g: GraphSpec, rec: Record, target: string, rec': Record)
  {
    && target in g.nodes
    && rec' == rec.(status := if g.nodes[target].outcome == Success then Completed else Failed,
                    currentNode := target, waiting := None,
                    journal := rec.journal + [Entry(|rec.journal| + 1, SignalReceived, rec.currentNode, rec.sequence,
                                                    rec.sequence, rec.snapshot,
                                                    HopKey(id, rec.currentNode, rec.sequence), "", "", "", [])])
  }

  /** The three ways in which a due timeout does nothing: it has no target, its target is no node of
      the graph, or an earlier signal was named like the current node and had the printed sequence as
      its delivery id. */
  ghost predicate TimeoutIsVoid(g: GraphSpec, rec: Record, target: string)
  {
    target == "" || target !in g.nodes || Masked(rec)
  }

  /** Processing the timeout of a waiting instance never fails.  It changes nothing exactly when the
      timeout is void, and else ends the instance at its target. */
  lemma TimeoutIsSwallowedIff(reg: Registry, calls: seq<Call>, st: Store, id: string, rec: Record, g: GraphSpec)
    requires Reaches(reg, calls, st, id, rec, g) && rec.status == Waiting && rec.waiting.Some?
    ensures var target := rec.waiting.value.onTimeoutTarget;
            var s := ProcessTimeout(reg, st, Due(id, rec.waiting.value));
            && s.error.None?
            && (s.store == st <==> TimeoutIsVoid(g, rec, target))
            && (!TimeoutIsVoid(g, rec, target) ==>
                  id in s.store.instances && TimedOut(id, g, rec, target, s.store.instances[id]))
  {
    hide ValidRegistry, RunFrom, Sound;
    ReachedIsSound(reg, calls, id);
    TimeoutDecides(reg, st, id, g);
  }

  lemma TimeoutDecides(reg: Registry, st: Store, id: string, g: GraphSpec)
    requires id in st.instances && Sound(reg, st, id) && GraphAt(reg, st, id) == Ok(g)
    requires st.instances[id].status == Waiting && st.instances[id].waiting.Some?
    ensures var rec := st.instances[id];
            var target := rec.waiting.value.onTimeoutTarget;
            var s := ProcessTimeout(reg, st, Due(id, rec.waiting.value));
            && s.error.None?
            && (s.store == st <==> TimeoutIsVoid(g, rec, target))
            && (!TimeoutIsVoid(g, rec, target) ==>
                  id in s.store.instances && TimedOut(id, g, rec, target, s.store.instances[id]))
  {
    hide Sound, GetGraph, OnPath;
    var rec := st.instances[id];
    ActiveFacts(reg, st, id);
    var target := rec.waiting.value.onTimeoutTarget;
    if target in g.nodes {
      var c := TimeoutCommit(st, id, target, TerminalStatus(g.nodes[target]));
      CommittedFields(rec, c);
      assert Committed(rec, c).journal != rec.journal;
      forall i | 0 <= i < |rec.journal| && rec.journal[i].kind == SignalReceived
        ensures rec.journal[i].key == c.key <==> MasksTimeout(rec, rec.journal[i])
      {
        var e := rec.journal[i];
        assert ForwardEntry(id, e, st.signals);
        KeysMeet(id, e.signalName, e.deliveryId, rec.currentNode, rec.sequence);
      }
    }
  }

  /** One tick ends every due wait whose timeout is not void, whatever else happens in it, and leaves
      every other due wait exactly as it was. */
  lemma TickEndsDueWaits(reg: Registry, calls: seq<Call>, w: World, st: Store, id: string, rec: Record, g: GraphSpec)
    requires Reaches(reg, calls, st, id, rec, g) && ValidWorld(w) && Overdue(rec, w.now)
    ensures var target := rec.waiting.value.onTimeoutTarget;
            var st' := RunOnce(reg, w, st).store;
            && id in st'.instances
            && (TimeoutIsVoid(g, rec, target) ==> st'.instances[id] == rec)
            && (!TimeoutIsVoid(g, rec, target) ==> TimedOut(id, g, rec, target, st'.instances[id]))
  {
    hide ValidRegistry, ValidWorld, RunFrom, RunOnce, Inv, Sound, SameExecutions, ProcessTimeout, TimeoutIsVoid,
         TimedOut;
    ReachedIsSound(reg, calls, id);
    var at := TickEndsWaits(reg, w, st, id);
    var d := Due(id, rec.waiting.value);
    TimeoutDecides(reg, st, id, g);
    SameTimeout(reg, st, at, d);
  }

  lemma SameTimeout(reg: Registry, st: Store, st': Store, d: Due)
    requires SameOwn(st, st', d.entityId)
    ensures ProcessTimeout(reg, st, d).store.instances.Keys == st.instances.Keys
    ensures ProcessTimeout(reg, st', d).store.instances.Keys == st'.instances.Keys
    ensures ProcessTimeout(reg, st', d).store.instances[d.entityId]
            == ProcessTimeout(reg, st, d).store.instances[d.entityId]
  {
    hide GetGraph, SameExecutions, Committed;
  }

  /** A timeout target need be no terminal.  The instance ends there all the same: COMPLETED exactly
      when that node carries the outcome SUCCESS, and else FAILED. */
  lemma TimeoutEndsAnywhere(reg: Registry, calls: seq<Call>, st: Store, id: string, rec: Record, g: GraphSpec)
    requires Reaches(reg, calls, st, id, rec, g) && rec.status == Waiting && rec.waiting.Some?
    requires !TimeoutIsVoid(g, rec, rec.waiting.value.onTimeoutTarget)
    ensures var target := rec.waiting.value.onTimeoutTarget;
            var st' := ProcessTimeout(reg, st, Due(id, rec.waiting.value)).store;
            && id in st'.instances && target in g.nodes
            && (st'.instances[id].status == Completed <==> g.nodes[target].outcome == Success)
            && (st'.instances[id].status == Failed <==> g.nodes[target].outcome != Success)
  {
    hide ValidRegistry, RunFrom;
    TimeoutIsSwallowedIff(reg, calls, st, id, rec, g);
  }

  lemma KeysMeet(id: string, name: string, delivery: string, nodeId: string, sequence: int)
    ensures SignalKey(id, name, delivery) == HopKey(id, nodeId, sequence) <==>
              name == nodeId && delivery == Decimal(sequence)
  {
    var k, k' := SignalKey(id, name, delivery), HopKey(id, nodeId, sequence);
    assert k == k' ==> k[1] == k'[1] && k[2] == k'[2];
  }

  /** Repeating any journaled commit changes nothing; a repeated compensation in particular pops
      no second frame. */
  lemma RepeatedCommitIsNoOp(reg: Registry, calls: seq<Call>, st: Store, id: string, rec: Record, g: GraphSpec,
          i: nat, c: HopCommit)
    requires Reaches(reg, calls, st, id, rec, g) && i < |rec.journal|
    requires c.key == rec.journal[i].key && c.kind == rec.journal[i].kind
    requires c.kind == CompensationCommitted ==>
               c.nodeId == rec.journal[i].nodeId && c.inputSequence == rec.journal[i].inputSequence
    ensures CommitHop(st, id, c) == st
  {
    hide ValidRegistry, RunFrom, Sound;
    ReachedIsSound(reg, calls, id);
    PassiveFacts(reg, st, id, g);
    assert IsJournaled(rec.journal, c.key, c.kind);
    if c.kind == CompensationCommitted {
      assert UndoneAbove(rec.journal, rec.stack);
      assert ReconcilePop(rec, c) == rec;
    }
  }

  // ---------- the journal tells the state ----------

  lemma EntryFacts(id: string, j: seq<Entry>, i: nat)
    requires JournalSound(id, j) && i < |j|
    ensures j[i].journalSequence == i + 1
    ensures OutputBefore(j, i) <= j[i].outputSequence <= OutputBefore(j, i) + 1
    ensures j[i].outputSnapshot.sequence == j[i].outputSequence
    ensures forall k :: 0 <= k < |j| && k != i ==> j[k].key != j[i].key || j[k].kind != j[i].kind
  {
    assert StepsBy(j, i);
  }

  /** Journal sequences are 1..n, output sequences never fall and climb by at most one, and no other
      entry has the same key and kind. */
  lemma EntriesAreOrdered(reg: Registry, calls: seq<Call>, st: Store, id: string, rec: Record, g: GraphSpec, i: nat)
    requires Reaches(reg, calls, st, id, rec, g) && i < |rec.journal|
    ensures rec.journal[i].journalSequence == i + 1
    ensures OutputBefore(rec.journal, i) <= rec.journal[i].outputSequence <= OutputBefore(rec.journal, i) + 1
    ensures rec.journal[i].outputSnapshot.sequence == rec.journal[i].outputSequence
    ensures forall k :: 0 <= k < |rec.journal| && k != i ==>
              rec.journal[k].key != rec.journal[i].key || rec.journal[k].kind != rec.journal[i].kind
  {
    hide ValidRegistry, RunFrom, Sound, JournalSound, SagaReplays, TrailSound, AgreesWithJournal, OutputBefore;
    ReachedIsSound(reg, calls, id);
    PassiveFacts(reg, st, id, g);
    EntryFacts(id, rec.journal, i);
  }

  /** The live sequence and snapshot are those of the last entry. */
  lemma JournalTellsState(reg: Registry, calls: seq<Call>, st: Store, id: string, rec: Record, g: GraphSpec)
    requires Reaches(reg, calls, st, id, rec, g)
    ensures rec.sequence == rec.snapshot.sequence == OutputBefore(rec.journal, |rec.journal|)
    ensures rec.journal != [] ==> rec.snapshot == rec.journal[|rec.journal| - 1].outputSnapshot
  {
    hide ValidRegistry, RunFrom, Sound, JournalSound, SagaReplays, TrailSound;
    ReachedIsSound(reg, calls, id);
    PassiveFacts(reg, st, id, g);
  }

  /** A committed execution is in the journal of the instance whose id its key starts with. */
  lemma CommittedIsJournaled(reg: Registry, calls: seq<Call>, k: Key)
    requires ValidRegistry(reg) && ValidCalls(calls)
    requires k in Run(reg, calls).executions && Run(reg, calls).executions[k].status == ExecutionCommitted
    ensures |k| > 0 && k[0] in Run(reg, calls).instances
    ensures var journal := Run(reg, calls).instances[k[0]].journal;
            exists i :: 0 <= i < |journal| && journal[i].key == k
  {
    hide ValidRegistry, RunFrom, Sound;
    var st := Run(reg, calls);
    ReachableInv(reg, calls);
    ReachedIsSound(reg, calls, k[0]);
    ExecutionFacts(reg, st, k[0], k);
  }

  /** The retry counter of a hop never exceeds its unit's budget. */
  lemma AttemptsAreBounded(reg: Registry, calls: seq<Call>, st: Store, id: string, rec: Record, g: GraphSpec,
          nodeId: string, sequence: int)
    requires Reaches(reg, calls, st, id, rec, g) && HopKey(id, nodeId, sequence) in st.executions
    ensures nodeId in g.nodes
    ensures 0 <= st.executions[HopKey(id, nodeId, sequence)].attempt <= MaxAttempts(reg, g.nodes[nodeId].unitId)
  {
    hide ValidRegistry, RunFrom, Sound;
    ReachedIsSound(reg, calls, id);
    ExecutionFacts(reg, st, id, HopKey(id, nodeId, sequence));
  }

  /** RUNNING and COMPENSATING instances have no waiting record, WAITING ones have one. */
  lemma WaitingHasRecord(reg: Registry, calls: seq<Call>, st: Store, id: string, rec: Record, g: GraphSpec)
    requires Reaches(reg, calls, st, id, rec, g) && Active(rec.status)
    ensures rec.status == Waiting <==> rec.waiting.Some?
  {
    hide ValidRegistry, RunFrom, Sound;
    ReachedIsSound(reg, calls, id);
    ActiveFacts(reg, st, id);
  }

  /** Each delivery of a signal to an entity is committed at most once. */
  lemma SignalsCommitOnce(reg: Registry, calls: seq<Call>, st: Store, id: string, rec: Record, g: GraphSpec, i: nat,
          k: nat)
    requires Reaches(reg, calls, st, id, rec, g) && i < k < |rec.journal|
    requires rec.journal[i].kind == rec.journal[k].kind == SignalReceived && rec.journal[i].signalName != ""
    ensures rec.journal[i].signalName != rec.journal[k].signalName
            || rec.journal[i].deliveryId != rec.journal[k].deliveryId
  {
    hide ValidRegistry, RunFrom, Sound;
    ReachedIsSound(reg, calls, id);
    PassiveFacts(reg, st, id, g);
    assert KeyFits(id, rec.journal[i]) && KeyFits(id, rec.journal[k]);
  }

  /** Whatever units return and signals carry, an instance's snapshot is of the instance's type or of
      one that type declares compatible. */
  lemma SnapshotsFitTypes(reg: Registry, calls: seq<Call>, id: string)
    requires ValidRegistry(reg) && ValidCalls(calls) && id in Run(reg, calls).instances
    ensures var rec := Run(reg, calls).instances[id];
            || rec.snapshot.typeKey == rec.typeKey
            || (rec.typeKey in reg.types && rec.snapshot.typeKey in reg.types[rec.typeKey].compatibleInputs)
  {
    hide ValidRegistry, RunFrom, JoinsEarned, CallsJournaled;
    ReachableChronicle(reg, calls);
  }

  // ---------- the saga stack ----------

  lemma ReplayFacts(g: GraphSpec, id: string, j: seq<Entry>, stack: seq<Frame>, sequence: int)
    requires SagaReplays(g, id, j, stack, sequence)
    ensures var frames, undone := Frames(g, j), Undone(j);
            && |undone| <= |frames| && stack == frames[..|frames| - |undone|]
            && (forall i, k :: 0 <= i < k < |frames| ==> frames[i].forwardSequence < frames[k].forwardSequence)
            && (forall k :: 0 <= k < |undone| ==> Undoes(id, undone[k], frames[|frames| - 1 - k]))
  {
  }

  /** The stack is what the journal has pushed, less one frame from the top for each compensation;
      forward sequences strictly climb; and the k-th compensation undid the k-th frame from the top.
      While the instance is active the journal has pushed one frame for every NODE_COMMITTED or SPAWNED
      entry of a compute node with a compensator. */
  lemma SagaIsReplay(reg: Registry, calls: seq<Call>, st: Store, id: string, rec: Record, g: GraphSpec)
    requires Reaches(reg, calls, st, id, rec, g)
    ensures var frames, undone := Frames(g, rec.journal), Undone(rec.journal);
            && |undone| <= |frames| && rec.stack == frames[..|frames| - |undone|]
            && (forall i, k :: 0 <= i < k < |frames| ==> frames[i].forwardSequence < frames[k].forwardSequence)
            && (forall k :: 0 <= k < |undone| ==> Undoes(id, undone[k], frames[|frames| - 1 - k]))
    ensures Active(rec.status) ==> forall i :: 0 <= i < |rec.journal| ==>
              (Pushes(g, rec.journal[i]) <==> CommitsCompensable(g, rec.journal[i]))
  {
    hide ValidRegistry, RunFrom, Sound, JournalSound, SagaReplays, AgreesWithJournal, Undoes, OnPath;
    ReachedIsSound(reg, calls, id);
    PassiveFacts(reg, st, id, g);
    ReplayFacts(g, id, rec.journal, rec.stack, rec.sequence);
    if Active(rec.status) {
      ActiveFacts(reg, st, id);
      forall i | 0 <= i < |rec.journal| && CommitsCompensable(g, rec.journal[i])
        ensures Pushes(g, rec.journal[i])
      {
        assert ForwardEntry(id, rec.journal[i], st.signals);
      }
    }
  }

  /** A NODE_COMMITTED or SPAWNED entry of a compute node with a compensator. */
  predicate CommitsCompensable(g: GraphSpec, e: Entry)
  {
    && (e.kind == NodeCommitted || e.kind == SpawnedChildren)
    && e.nodeId in g.nodes && g.nodes[e.nodeId].kind == Compute && g.nodes[e.nodeId].compensatorUnitId != ""
  }

  /** The compensator calls that succeeded are exactly the compensations in the journal, in order:
      nothing was undone without its call, and no successful call went unrecorded. */
  lemma CallsAreJournaled(reg: Registry, calls: seq<Call>, st: Store, id: string, rec: Record, g: GraphSpec)
    requires Reaches(reg, calls, st, id, rec, g)
    ensures OkKeys(st.calls, id) == KeysOf(Undone(rec.journal))
  {
    hide ValidRegistry, RunFrom, JoinsEarned;
    ReachableChronicle(reg, calls);
  }

  function Attempts(calls: seq<CompensatorCall>, key: Key): set<int>
  {
    set i | 0 <= i < |calls| && calls[i].key == key :: calls[i].attempt
  }

  function CallCount(calls: seq<CompensatorCall>, key: Key): nat
  {
    if calls == [] then 0
    else CallCount(calls[..|calls| - 1], key) + if calls[|calls| - 1].key == key then 1 else 0
  }

  lemma AttemptsOfOneMore(calls: seq<CompensatorCall>, key: Key, c: CompensatorCall)
    ensures Attempts(calls + [c], key) == Attempts(calls, key) + if c.key == key then {c.attempt} else {}
  {
    var calls' := calls + [c];
    forall x | x in Attempts(calls, key)
      ensures x in Attempts(calls', key)
    {
      var i :| 0 <= i < |calls| && calls[i].key == key && calls[i].attempt == x;
      assert calls'[i].key == key && calls'[i].attempt == x;
    }
    assert calls'[|calls|] == c;
  }

  lemma {:induction false} CallsHaveOwnAttempts(calls: seq<CompensatorCall>, key: Key)
    requires CallsApart(calls)
    ensures CallCount(calls, key) == |Attempts(calls, key)|
  {
    if calls != [] {
      var n := |calls| - 1;
      CallsHaveOwnAttempts(calls[..n], key);
      assert calls == calls[..n] + [calls[n]];
      AttemptsOfOneMore(calls[..n], key, calls[n]);
    }
  }

  lemma {:induction false} SmallNumbers(s: set<int>, n: nat)
    requires forall x: int :: x in s ==> 0 <= x < n
    ensures |s| <= n
  {
    if n == 0 {
      assert forall x: int :: x !in s;
      assert s == {};
    } else {
      SmallNumbers(s - {n - 1}, n - 1);
    }
  }

  /** Over a whole run the compensator of a frame is called at most once more than its retry budget,
      and never again after it succeeded. */
  lemma CallsAreBounded(reg: Registry, calls: seq<Call>, id: string, f: Frame)
    requires ValidRegistry(reg) && ValidCalls(calls)
    ensures var made, key := Run(reg, calls).calls, CompensationKeyOf(id, f);
            && CallCount(made, key) <= MaxAttempts(reg, f.compensatorUnitId) + 1
            && forall i, k :: 0 <= i < k < |made| && made[i].key == made[k].key ==> !made[i].ok
  {
    hide ValidRegistry, RunFrom, Sound;
    var st, key := Run(reg, calls), CompensationKeyOf(id, f);
    ReachableInv(reg, calls);
    CallsHaveOwnAttempts(st.calls, key);
    MaxAttemptsPositive(reg, f.compensatorUnitId);
    forall i | 0 <= i < |st.calls| && st.calls[i].key == key
      ensures 0 <= st.calls[i].attempt < MaxAttempts(reg, f.compensatorUnitId) + 1
    {
      var call := st.calls[i];
      assert CallSound(reg, st, call);
      CompensationKeyInjective(id, f.forwardSequence, f.compensatorUnitId,
        call.entityId, call.frame.forwardSequence, call.frame.compensatorUnitId);
    }
    SmallNumbers(Attempts(st.calls, key), MaxAttempts(reg, f.compensatorUnitId) + 1);
  }

  // ---------- endings ----------

  /** No call but a cancellation touches an instance that has ended, and nothing a cancelled one. */
  lemma EndedIsUntouched(reg: Registry, st: Store, id: string, call: Call)
    requires ValidRegistry(reg) && Inv(reg, st) && (call.Tick? ==> ValidWorld(call.w))
    requires id in st.instances && !Active(st.instances[id].status)
    requires call == Cancel(id) ==> st.instances[id].status == Cancelled
    ensures var st' := Apply(reg, st, call).store; id in st'.instances && st'.instances[id] == st.instances[id]
  {
    hide Inv, ValidRegistry, StartInstance, DeliverSignal, RunOnce;
    ApplyStep(reg, st, call);
  }

  /** CANCELLED is final; COMPLETED, FAILED and COMPENSATED are final unless cancelled. */
  lemma {:induction false} EndedIsFinal(reg: Registry, calls: seq<Call>, more: seq<Call>, id: string)
    requires ValidRegistry(reg) && ValidCalls(calls) && ValidCalls(more) && id in Run(reg, calls).instances
    requires !Active(Run(reg, calls).instances[id].status)
    requires Cancel(id) in more ==> Run(reg, calls).instances[id].status == Cancelled
    ensures var st, st' := Run(reg, calls), RunFrom(reg, Run(reg, calls), more);
            id in st'.instances && st'.instances[id] == st.instances[id]
    decreases |more|
  {
    hide Inv, ValidRegistry, Apply;
    if more != [] {
      var n := |more| - 1;
      assert Cancel(id) in more[..n] ==> Cancel(id) in more;
      EndedIsFinal(reg, calls, more[..n], id);
      ReachableInv(reg, calls);
      RunsKeepInv(reg, Run(reg, calls), more[..n]);
      EndedIsUntouched(reg, RunFrom(reg, Run(reg, calls), more[..n]), id, more[n]);
    }
  }

  /** Over any further calls journals only gain entries, and instances keep their type, graph,
      parent and correlation id. */
  lemma JournalsOnlyGrow(reg: Registry, calls: seq<Call>, more: seq<Call>, id: string)
    requires ValidRegistry(reg) && ValidCalls(calls) && ValidCalls(more) && id in Run(reg, calls).instances
    ensures var st, st' := Run(reg, calls), RunFrom(reg, Run(reg, calls), more);
            && id in st'.instances && st.instances[id].journal <= st'.instances[id].journal
            && st'.instances[id].graph == st.instances[id].graph && st'.instances[id].parent == st.instances[id].parent
            && st'.instances[id].typeKey == st.instances[id].typeKey
            && st'.instances[id].correlationId == st.instances[id].correlationId
  {
    hide Inv, ValidRegistry, Chronicle;
    ReachableInv(reg, calls);
    ReachableChronicle(reg, calls);
    RunsFollow(reg, Run(reg, calls), more);
  }

  // ---------- joins ----------

  /** In a run without cancellations every join entry was earned: each barrier's child has ended,
      all of them completed under ALL_SUCCESS, at least one under ANY_SUCCESS, and each dynamic
      barrier has a family of that kind with at least its expected number of children, or the number
      spawned last before the join. */
  lemma JoinsAreEarned(reg: Registry, calls: seq<Call>, st: Store, id: string, rec: Record, g: GraphSpec, i: nat)
    requires Reaches(reg, calls, st, id, rec, g) && i < |rec.journal| && rec.journal[i].kind == JoinCommitted
    ensures var n := rec.journal[i].nodeId;
            && n in g.nodes && g.nodes[n].joinSpec.Some?
            && exists names ::
                 LastNamed(rec.journal[..i], names) && Met(st, id, g.nodes[n].joinSpec.value, names)
    ensures CancelFree(calls) ==>
              forall x :: x in st.instances ==>
                (Succeeded(st.instances[x].status) <==> st.instances[x].status == Completed)
  {
    hide ValidRegistry, RunFrom, Met;
    ReachableChronicle(reg, calls);
    assert JoinEarned(reg, st, id, i);
    LastNamedIs(rec.journal[..i], SpawnedFromJournal(rec.journal[..i]));
  }

  /** The entries of a journal name only children of the instance: every spawned reference exists and
      has the instance as its parent. */
  lemma SpawnedAreBorn(reg: Registry, calls: seq<Call>, st: Store, id: string, rec: Record, g: GraphSpec, i: nat)
    requires Reaches(reg, calls, st, id, rec, g) && i < |rec.journal|
    ensures forall y :: y in rec.journal[i].spawned ==> y in st.instances && st.instances[y].parent == Some(id)
  {
    hide ValidRegistry, RunFrom, Met;
    ReachableChronicle(reg, calls);
    assert JoinsEarned(reg, st, id) && ChildrenOf(st, id, rec.journal[i].spawned);
  }

  /** Named children are not un-joined: once barriers that name children by id are ready they stay
      ready, in whatever worlds the engine goes on, unless something is cancelled. */
  lemma {:induction false} NamedBarriersStayReady(reg: Registry, calls: seq<Call>, more: seq<Call>, id: string,
          join: JoinSpec, w: World, w': World)
    requires ValidRegistry(reg) && ValidCalls(calls) && ValidCalls(more) && CancelFree(more)
    requires forall k :: 0 <= k < |join.barriers| ==> join.barriers[k].ChildEntity?
    requires CheckStaticBarriers(w, Run(reg, calls), id, join, 0, 0) == JoinReady
    ensures CheckStaticBarriers(w', RunFrom(reg, Run(reg, calls), more), id, join, 0, 0) == JoinReady
  {
    hide ValidRegistry, Apply, Active, CheckStaticBarriers;
    var st, st' := Run(reg, calls), RunFrom(reg, Run(reg, calls), more);
    StaticMeaning(w, st, id, join);
    StaticMeaning(w', st', id, join);
    forall k: int | BarrierSettled(w, st, id, join, k)
      ensures BarrierSettled(w', st', id, join, k)
      ensures BarrierWon(w, st, id, join, k) ==> BarrierWon(w', st', id, join, k)
    {
      var x := join.barriers[k].childId;
      SettledIsEnded(st.instances[x].status);
      EndedIsFinal(reg, calls, more, x);
    }
    if join.policy == AnySuccess {
      var k :| BarrierWon(w, st, id, join, k);
      assert BarrierWon(w', st', id, join, k);
    }
  }

  lemma SettledIsEnded(s: Status)
    requires Settled(s)
    ensures !Active(s)
  {
  }
}
