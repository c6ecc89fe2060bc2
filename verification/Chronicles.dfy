/**
 What a run leaves on record: every join entry was earned, the compensator calls that succeeded are
 exactly the compensations in the journals, in the same order, and every snapshot fits its
 instance's type.
 */
module Chronicles {
  import opened Wrappers
  import opened Graphs
  import opened Routing
  import opened Idempotency
  import opened Lines
  import opened Registries
  import opened Scheduling
  import opened History
  import opened Preservation
  import opened Steps
  import opened InstanceSteps
  import opened Effects
  import opened Joins
  import opened Runs

  // ---------- joins that stay earned ----------

  /** Completed; or cancelled, which a completed instance can still be. */
  predicate Succeeded(s: Status)
  {
    s == Completed || s == Cancelled
  }

  /** Must every child succeed, if any one is enough or not? */
  predicate NeedsSuccess(join: JoinSpec, any: bool)
  {
    !any || join.failParentOnChildFailure
  }

  ghost predicate Ended(st: Store, x: string, success: bool)
  {
    x in st.instances && !Active(st.instances[x].status) && (success ==> Succeeded(st.instances[x].status))
  }

  ghost predicate Names(st: Store, id: string, b: Barrier, x: string)
  {
    match b
    case NoTarget => false
    case ChildEntity(child) => x == child
    case ChildCorrelation(corr) => Corresponds(st, id, corr, x)
  }

  ghost predicate BarrierMet(st: Store, id: string, b: Barrier, success: bool)
  {
    exists x :: Names(st, id, b, x) && Ended(st, x, success)
  }

  /** The number of children a barrier asks for: its own, or else that of the spawned children with
      its prefix. */
  function Wanted(st: Store, b: DynamicBarrier, spawned: seq<string>): int
  {
    if b.expectedCount != 0 then b.expectedCount else |NamedWith(st, spawned, b.correlationPrefix)|
  }

  ghost predicate MetBy(st: Store, id: string, join: JoinSpec, b: DynamicBarrier, spawned: seq<string>,
          family: set<string>)
  {
    && Wanted(st, b, spawned) <= |family|
    && (forall x :: x in family ==>
          x in Family(st, id, b.correlationPrefix) && Ended(st, x, NeedsSuccess(join, WantsAny(join, b))))
    && (WantsAny(join, b) ==> exists x :: x in family && Ended(st, x, true))
  }

  ghost predicate DynamicMet(st: Store, id: string, join: JoinSpec, b: DynamicBarrier, spawned: seq<string>)
  {
    exists family :: MetBy(st, id, join, b, spawned, family)
  }

  /** What a committed join can be held to ever after; `spawned` are the children of the last spawn
      before it. */
  ghost predicate Met(st: Store, id: string, join: JoinSpec, spawned: seq<string>)
  {
    && (forall b :: b in join.barriers ==> BarrierMet(st, id, b, NeedsSuccess(join, join.policy == AnySuccess)))
    && (join.barriers != [] ==> exists b :: b in join.barriers && BarrierMet(st, id, b, true))
    && (forall b :: b in join.dynamicBarriers ==> DynamicMet(st, id, join, b, spawned))
  }

  lemma ReadyIsMet(w: World, st: Store, id: string, join: JoinSpec)
    requires id in st.instances && Ready(w, st, id, join)
    ensures Met(st, id, join, SpawnedFromJournal(st.instances[id].journal))
  {
    forall k | 0 <= k < |join.barriers|
      ensures BarrierMet(st, id, join.barriers[k], NeedsSuccess(join, join.policy == AnySuccess))
      ensures BarrierWon(w, st, id, join, k) ==> BarrierMet(st, id, join.barriers[k], true)
    {
      assert BarrierSettled(w, st, id, join, k);
      ReadyBarrier(w, st, id, join, k);
    }
    if join.barriers != [] {
      var k :| 0 <= k < |join.barriers| && BarrierWon(w, st, id, join, k);
      assert join.barriers[k] in join.barriers;
    }
    forall k | 0 <= k < |join.dynamicBarriers|
      ensures DynamicMet(st, id, join, join.dynamicBarriers[k], SpawnedFromJournal(st.instances[id].journal))
    {
      assert DynamicReady(st, id, join, k);
      ReadyFamily(st, id, join, k);
    }
  }

  lemma ReadyBarrier(w: World, st: Store, id: string, join: JoinSpec, k: nat)
    requires BarrierSettled(w, st, id, join, k)
    requires join.policy != AnySuccess ==> BarrierWon(w, st, id, join, k)
    ensures BarrierMet(st, id, join.barriers[k], NeedsSuccess(join, join.policy == AnySuccess))
    ensures BarrierWon(w, st, id, join, k) ==> BarrierMet(st, id, join.barriers[k], true)
  {
    var x := BarrierChild(w, st, id, join, k).value;
    if join.barriers[k].ChildCorrelation? {
      FoundChild(st, w.order(CorrelationSite(id, k), st.instances.Keys), id, join.barriers[k].correlationId);
    }
    assert Names(st, id, join.barriers[k], x) && Ended(st, x, NeedsSuccess(join, join.policy == AnySuccess));
    assert BarrierWon(w, st, id, join, k) ==> Ended(st, x, true);
  }

  lemma ReadyFamily(st: Store, id: string, join: JoinSpec, k: nat)
    requires id in st.instances && DynamicReady(st, id, join, k)
    ensures DynamicMet(st, id, join, join.dynamicBarriers[k], SpawnedFromJournal(st.instances[id].journal))
  {
    var b := join.dynamicBarriers[k];
    var family := Family(st, id, b.correlationPrefix);
    if WantsAny(join, b) {
      var x :| x in family && ChildCompleted(st, x);
      assert Ended(st, x, true);
    }
    forall x | x in family
      ensures Ended(st, x, NeedsSuccess(join, WantsAny(join, b)))
    {
      assert ChildSettled(st, join, x);
    }
    var spawned := SpawnedFromJournal(st.instances[id].journal);
    LastNamedIs(st.instances[id].journal, spawned);
    assert MetBy(st, id, join, b, spawned, family);
  }

  /** Instances keep who they are, ended ones stay ended, successful ones successful. */
  ghost predicate Holds(st: Store, st': Store)
  {
    forall x :: x in st.instances ==>
      && x in st'.instances && SameInstance(st.instances[x], st'.instances[x])
      && (!Active(st.instances[x].status) ==> !Active(st'.instances[x].status))
      && (Succeeded(st.instances[x].status) ==> Succeeded(st'.instances[x].status))
  }

  lemma BarrierStaysMet(st: Store, st': Store, id: string, b: Barrier, success: bool)
    requires Holds(st, st') && BarrierMet(st, id, b, success)
    ensures BarrierMet(st', id, b, success)
  {
    var x :| Names(st, id, b, x) && Ended(st, x, success);
    assert Names(st', id, b, x) && Ended(st', x, success);
  }

  lemma SpawnedStays(st: Store, st': Store, id: string, spawned: seq<string>, prefix: string)
    requires Holds(st, st') && ChildrenOf(st, id, spawned)
    ensures NamedWith(st', spawned, prefix) == NamedWith(st, spawned, prefix)
  {
    forall i | 0 <= i < |spawned|
      ensures i in NamedWith(st', spawned, prefix) <==> i in NamedWith(st, spawned, prefix)
    {
      assert spawned[i] in spawned;
    }
  }

  lemma FamilyStaysMet(st: Store, st': Store, id: string, join: JoinSpec, b: DynamicBarrier, spawned: seq<string>)
    requires Holds(st, st') && DynamicMet(st, id, join, b, spawned) && ChildrenOf(st, id, spawned)
    ensures DynamicMet(st', id, join, b, spawned)
  {
    hide Family, Holds, Ended, ChildrenOf, NamedWith;
    SpawnedStays(st, st', id, spawned, b.correlationPrefix);
    var family :| MetBy(st, id, join, b, spawned, family);
    forall x, success | x in Family(st, id, b.correlationPrefix) && Ended(st, x, success)
      ensures x in Family(st', id, b.correlationPrefix) && Ended(st', x, success)
    {
      MemberStays(st, st', id, b.correlationPrefix, x, success);
    }
    assert MetBy(st', id, join, b, spawned, family);
  }

  lemma MemberStays(st: Store, st': Store, id: string, prefix: string, x: string, success: bool)
    requires Holds(st, st') && x in Family(st, id, prefix) && Ended(st, x, success)
    ensures x in Family(st', id, prefix) && Ended(st', x, success)
  {
  }

  lemma MetStays(st: Store, st': Store, id: string, join: JoinSpec, spawned: seq<string>)
    requires Holds(st, st') && Met(st, id, join, spawned) && ChildrenOf(st, id, spawned)
    ensures Met(st', id, join, spawned)
  {
    hide Holds, BarrierMet, DynamicMet, ChildrenOf;
    forall b, success | BarrierMet(st, id, b, success)
      ensures BarrierMet(st', id, b, success)
    {
      BarrierStaysMet(st, st', id, b, success);
    }
    forall b | b in join.dynamicBarriers
      ensures DynamicMet(st', id, join, b, spawned)
    {
      FamilyStaysMet(st, st', id, join, b, spawned);
    }
  }

  // ---------- the chronicle ----------

  function OkKeys(calls: seq<CompensatorCall>, id: string): seq<Key>
  {
    if calls == [] then []
    else
      var c := calls[|calls| - 1];
      OkKeys(calls[..|calls| - 1], id) + if c.entityId == id && c.ok then [c.key] else []
  }

  function KeysOf(entries: seq<Entry>): seq<Key>
  {
    seq(|entries|, i requires 0 <= i < |entries| => entries[i].key)
  }

  /** If entry i is a join, its barriers are met. */
  ghost predicate JoinEarned(reg: Registry, st: Store, id: string, i: int)
    requires id in st.instances && 0 <= i < |st.instances[id].journal|
  {
    var j := st.instances[id].journal;
    j[i].kind == JoinCommitted ==>
      var g := GraphAt(reg, st, id);
      && g.Ok? && j[i].nodeId in g.value.nodes && g.value.nodes[j[i].nodeId].joinSpec.Some?
      && Met(st, id, g.value.nodes[j[i].nodeId].joinSpec.value, SpawnedFromJournal(j[..i]))
  }

  ghost predicate JoinsEarned(reg: Registry, st: Store, id: string)
    requires id in st.instances
  {
    NamesChildren(st, id, 0) && forall i :: 0 <= i < |st.instances[id].journal| ==> JoinEarned(reg, st, id, i)
  }

  ghost predicate CallsJournaled(st: Store, id: string)
    requires id in st.instances
  {
    OkKeys(st.calls, id) == KeysOf(Undone(st.instances[id].journal))
  }

  ghost predicate Chronicle(reg: Registry, st: Store)
  {
    && (forall id :: id in st.instances ==>
          JoinsEarned(reg, st, id) && CallsJournaled(st, id) && TypeSound(reg, st.instances[id]))
    && (forall i :: 0 <= i < |st.calls| ==> st.calls[i].entityId in st.instances)
  }

  lemma {:induction false} UndoneOfAppended(j: seq<Entry>, j': seq<Entry>, kinds: set<JournalKind>)
    requires Appends(j, j', kinds) && CompensationCommitted !in kinds
    ensures Undone(j') == Undone(j)
    decreases |j'|
  {
    if |j'| > |j| {
      var n := |j'| - 1;
      UndoneOfAppended(j, j'[..n], kinds);
    } else {
      assert j' == j;
    }
  }

  lemma {:induction false} NoCallsNoKeys(calls: seq<CompensatorCall>, id: string)
    requires forall i :: 0 <= i < |calls| ==> calls[i].entityId != id
    ensures OkKeys(calls, id) == []
  {
    if calls != [] {
      NoCallsNoKeys(calls[..|calls| - 1], id);
    }
  }

  lemma {:induction false} SpawnedAreChildren(st: Store, id: string, i: nat)
    requires NamesChildren(st, id, 0) && i <= |st.instances[id].journal|
    ensures ChildrenOf(st, id, SpawnedFromJournal(st.instances[id].journal[..i]))
  {
    var j := st.instances[id].journal;
    if i > 0 {
      assert j[..i][..i - 1] == j[..i - 1] && j[..i][i - 1] == j[i - 1];
      assert ChildrenOf(st, id, j[i - 1].spawned);
      SpawnedAreChildren(st, id, i - 1);
    }
  }

  lemma JoinsStayEarned(reg: Registry, st: Store, st': Store, id: string, i: nat)
    requires Holds(st, st') && id in st.instances && JoinsEarned(reg, st, id)
    requires i < |st.instances[id].journal| && st.instances[id].journal <= st'.instances[id].journal
    ensures JoinEarned(reg, st', id, i)
  {
    hide Met, NamesChildren, ChildrenOf;
    var j, j' := st.instances[id].journal, st'.instances[id].journal;
    assert JoinEarned(reg, st, id, i) && j'[i] == j[i] && j'[..i] == j[..i];
    if j[i].kind == JoinCommitted {
      SpawnedAreChildren(st, id, i);
      MetStays(st, st', id, GraphAt(reg, st, id).value.nodes[j[i].nodeId].joinSpec.value, SpawnedFromJournal(j[..i]));
    }
  }

  lemma AppendedStayEarned(reg: Registry, st: Store, st': Store, id: string, kinds: set<JournalKind>)
    requires Holds(st, st') && id in st.instances && id in st'.instances && JoinsEarned(reg, st, id)
    requires Appends(st.instances[id].journal, st'.instances[id].journal, kinds) && JoinCommitted !in kinds
    requires NamesChildren(st', id, |st.instances[id].journal|)
    ensures JoinsEarned(reg, st', id)
  {
    hide JoinEarned, Holds, NamesChildren;
    var j, j' := st.instances[id].journal, st'.instances[id].journal;
    StillNamed(st, st', id);
    forall i | 0 <= i < |j'|
      ensures JoinEarned(reg, st', id, i)
    {
      if i < |j| {
        JoinsStayEarned(reg, st, st', id, i);
      } else {
        OtherKindsAreEarned(reg, st', id, i);
      }
    }
  }

  lemma StillNamed(st: Store, st': Store, id: string)
    requires Holds(st, st') && NamesChildren(st, id, 0) && id in st'.instances
    requires st.instances[id].journal <= st'.instances[id].journal && NamesChildren(st', id, |st.instances[id].journal|)
    ensures NamesChildren(st', id, 0)
  {
    StillNamesChildren(st, st', id, 0);
  }

  lemma NothingNamed(st: Store, id: string)
    requires id in st.instances
    ensures NamesChildren(st, id, |st.instances[id].journal|)
  {
  }

  lemma PlainKeepsChronicle(reg: Registry, st: Store, st': Store)
    requires Chronicle(reg, st) && Plain(reg, st, st') && Holds(st, st')
    ensures Chronicle(reg, st')
  {
    hide JoinsEarned, Holds;
    forall id | id in st'.instances
      ensures JoinsEarned(reg, st', id) && CallsJournaled(st', id) && TypeSound(reg, st'.instances[id])
    {
      if id in st.instances {
        assert RecordWrites(reg, st.instances[id], st'.instances[id], PLAIN);
        AppendedStayEarned(reg, st, st', id, PLAIN);
        UndoneOfAppended(st.instances[id].journal, st'.instances[id].journal, PLAIN);
      } else {
        NothingToEarn(reg, st', id);
        NoCallsNoKeys(st.calls, id);
      }
    }
  }

  lemma NothingToEarn(reg: Registry, st: Store, id: string)
    requires id in st.instances && st.instances[id].journal == []
    ensures JoinsEarned(reg, st, id)
  {
  }

  lemma OtherKindsAreEarned(reg: Registry, st: Store, id: string, i: nat)
    requires id in st.instances && i < |st.instances[id].journal| && st.instances[id].journal[i].kind != JoinCommitted
    ensures JoinEarned(reg, st, id, i)
  {
  }

  /** A join commits: its own entry is earned by the barriers that were just checked. */
  lemma JoinKeepsChronicle(reg: Registry, w: World, st: Store, st': Store, id: string, node: Node)
    requires Chronicle(reg, st) && ValidWorld(w) && JoinCommits(reg, w, st, st', id, node) && Holds(st, st')
    requires GraphAt(reg, st, id).Ok? && node.nodeId in GraphAt(reg, st, id).value.nodes
    requires node == GraphAt(reg, st, id).value.nodes[node.nodeId]
    ensures Chronicle(reg, st')
  {
    hide JoinsEarned, Holds, CommitHop, CheckJoinBarriers, ValidWorld, ResolveTransitions, CallsJournaled, SameInstance;
    var next :| st' == CommitHop(st, id, JoinCommit(st, id, node, next));
    var c := JoinCommit(st, id, node, next);
    CommitWrites(reg, st, id, c, {JoinCommitted});
    CommitTouchesOnly(st, id, c);
    EarnedByChecks(reg, w, st, st', id, node, c);
    forall x | x in st'.instances
      ensures JoinsEarned(reg, st', x) && CallsJournaled(st', x) && TypeSound(reg, st'.instances[x])
    {
      assert RecordWrites(reg, st.instances[x], st'.instances[x], {JoinCommitted});
      CallsStayJournaled(st, st', x, {JoinCommitted});
      if x != id {
        AppendedStayEarned(reg, st, st', x, {});
      }
    }
  }

  lemma CallsStayJournaled(st: Store, st': Store, id: string, kinds: set<JournalKind>)
    requires id in st.instances && id in st'.instances && CallsJournaled(st, id) && st'.calls == st.calls
    requires Appends(st.instances[id].journal, st'.instances[id].journal, kinds) && CompensationCommitted !in kinds
    ensures CallsJournaled(st', id)
  {
    UndoneOfAppended(st.instances[id].journal, st'.instances[id].journal, kinds);
  }

  lemma EarnedByChecks(reg: Registry, w: World, st: Store, st': Store, id: string, node: Node, c: HopCommit)
    requires id in st.instances && JoinsEarned(reg, st, id) && Holds(st, st') && st' == CommitHop(st, id, c)
    requires c.kind == JoinCommitted && c.nodeId == node.nodeId && c.spawned == []
    requires GraphAt(reg, st, id).Ok? && node.nodeId in GraphAt(reg, st, id).value.nodes
    requires node == GraphAt(reg, st, id).value.nodes[node.nodeId] && node.joinSpec.Some?
    requires ValidWorld(w) && CheckJoinBarriers(w, st, id, node.joinSpec.value) == JoinReady
    ensures JoinsEarned(reg, st', id)
  {
    hide Met, Holds, Ready, CheckJoinBarriers, ValidWorld, JoinEarned, NamesChildren, ChildrenOf, SpawnedFromJournal;
    var join := node.joinSpec.value;
    ReadyMeaning(w, st, id, join);
    ReadyIsMet(w, st, id, join);
    var j := st.instances[id].journal;
    assert j[..|j|] == j;
    SpawnedAreChildren(st, id, |j|);
    MetStays(st, st', id, join, SpawnedFromJournal(j));
    JoinIsEarned(reg, st, st', id, node, c);
  }

  lemma JoinIsEarned(reg: Registry, st: Store, st': Store, id: string, node: Node, c: HopCommit)
    requires id in st.instances && JoinsEarned(reg, st, id) && Holds(st, st') && st' == CommitHop(st, id, c)
    requires c.kind == JoinCommitted && c.nodeId == node.nodeId && c.spawned == []
    requires GraphAt(reg, st, id).Ok? && node.nodeId in GraphAt(reg, st, id).value.nodes
    requires node == GraphAt(reg, st, id).value.nodes[node.nodeId] && node.joinSpec.Some?
    requires Met(st', id, node.joinSpec.value, SpawnedFromJournal(st.instances[id].journal))
    ensures JoinsEarned(reg, st', id)
  {
    hide Met, Holds, NamesChildren, SpawnedFromJournal, Committed, GetGraph;
    var j, j' := st.instances[id].journal, st'.instances[id].journal;
    CommittedFields(st.instances[id], c);
    NoChildren(st, id);
    CommitNamesChildren(st, id, c);
    StillNamed(st, st', id);
    forall i | 0 <= i < |j'|
      ensures JoinEarned(reg, st', id, i)
    {
      if i < |j| {
        JoinsStayEarned(reg, st, st', id, i);
      } else {
        assert j'[..i] == j;
      }
    }
  }

  // ---------- compensations ----------

  /** One iteration of the compensation loop: a call that fails leaves no entry, one that succeeds
      leaves the entry with its key. */
  ghost predicate UndoStep(st: Store, st': Store, id: string)
  {
    && id in st.instances && TouchesOnly(st, st', id) && st'.instances.Keys == st.instances.Keys
    && SameInstance(st.instances[id], st'.instances[id]) && st'.instances[id].snapshot == st.instances[id].snapshot
    && st'.instances[id].status in {Compensating, Failed}
    && UndoLogs(st.calls, st'.calls, st.instances[id].journal, st'.instances[id].journal, id)
  }

  ghost predicate UndoLogs(calls: seq<CompensatorCall>, calls': seq<CompensatorCall>, j: seq<Entry>, j': seq<Entry>,
          id: string)
  {
    || (calls' == calls && j' == j)
    || (|calls'| > 0 && calls' == calls + [calls'[|calls'| - 1]] && calls'[|calls'| - 1].entityId == id
        && if !calls'[|calls'| - 1].ok then j' == j
           else |j'| > 0 && j' == j + [j'[|j'| - 1]] && j'[|j'| - 1].kind == CompensationCommitted
                && j'[|j'| - 1].key == calls'[|calls'| - 1].key && j'[|j'| - 1].spawned == [])
  }

  lemma OneFrameLogs(reg: Registry, w: World, st: Store, id: string)
    requires MidUnwinding(reg, st, id)
    ensures UndoStep(st, CompensateOneFrame(reg, w, st, id).store, id)
  {
    hide Sound, Evolves, ValidRegistry, CallsSound, CommitHop, CompensateOneFrame;
    OneFrameUnfolds(reg, w, st, id);
    if NextCall(w, st, id).ok {
      UndoneStep(reg, w, st, id);
      var called := Called(w, st, id);
      var c := CompensationCommit(called, id, TopFrame(st, id));
      CommittedFields(st.instances[id], c);
      CommitTouchesOnly(called, id, c);
    }
  }

  lemma CommitTouchesOnly(st: Store, id: string, c: HopCommit)
    requires id in st.instances
    ensures TouchesOnly(st, CommitHop(st, id, c), id)
    ensures SameInstance(st.instances[id], CommitHop(st, id, c).instances[id])
  {
  }

  lemma KeysOfOneMore(entries: seq<Entry>, e: Entry)
    ensures KeysOf(entries + [e]) == KeysOf(entries) + [e.key]
  {
  }

  lemma OkKeysOfOneMore(calls: seq<CompensatorCall>, c: CompensatorCall, id: string)
    ensures OkKeys(calls + [c], id) == OkKeys(calls, id) + if c.entityId == id && c.ok then [c.key] else []
  {
    assert (calls + [c])[..|calls|] == calls;
  }

  lemma UndoKeepsCalls(st: Store, st': Store, id: string, x: string)
    requires UndoStep(st, st', id) && x in st.instances && CallsJournaled(st, x)
    ensures x in st'.instances && CallsJournaled(st', x)
  {
    var calls, calls', j, j' := st.calls, st'.calls, st.instances[id].journal, st'.instances[id].journal;
    if calls' != calls {
      var c := calls'[|calls'| - 1];
      OkKeysOfOneMore(calls, c, x);
      if c.ok {
        var e := j'[|j'| - 1];
        UndoneGrows(j, e);
        KeysOfOneMore(Undone(j), e);
      }
    }
  }

  lemma UndoneGrows(j: seq<Entry>, e: Entry)
    requires e.kind == CompensationCommitted
    ensures Undone(j + [e]) == Undone(j) + [e]
  {
    assert (j + [e])[..|j|] == j;
  }

  lemma UndoKeepsTypes(reg: Registry, st: Store, st': Store, id: string)
    requires UndoStep(st, st', id)
    ensures forall x :: x in st.instances && TypeSound(reg, st.instances[x]) ==> TypeSound(reg, st'.instances[x])
  {
  }

  lemma UndoNames(st: Store, st': Store, id: string)
    requires UndoStep(st, st', id)
    ensures forall x :: x in st.instances ==> NamesChildren(st', x, |st.instances[x].journal|)
  {
  }

  lemma UndoHolds(st: Store, st': Store, id: string)
    requires UndoStep(st, st', id) && st.instances[id].status == Compensating
    ensures Holds(st, st')
    ensures forall x :: x in st.instances ==>
              Appends(st.instances[x].journal, st'.instances[x].journal, {CompensationCommitted})
    ensures forall i :: 0 <= i < |st'.calls| ==>
              (i < |st.calls| && st'.calls[i] == st.calls[i]) || st'.calls[i].entityId == id
  {
  }

  lemma UndoKeepsChronicle(reg: Registry, st: Store, st': Store, id: string)
    requires Chronicle(reg, st) && UndoStep(st, st', id) && st.instances[id].status == Compensating
    ensures Chronicle(reg, st') && Holds(st, st')
  {
    hide JoinsEarned, UndoLogs, TypeSound, Holds, CallsJournaled;
    UndoHolds(st, st', id);
    UndoKeepsTypes(reg, st, st', id);
    UndoNames(st, st', id);
    forall x | x in st'.instances
      ensures JoinsEarned(reg, st', x) && CallsJournaled(st', x) && TypeSound(reg, st'.instances[x])
    {
      UndoKeepsCalls(st, st', id, x);
      AppendedStayEarned(reg, st, st', x, {CompensationCommitted});
    }
  }

  // ---------- over ticks and runs ----------

  /** Journals are append-only, and instances keep their type, graph, parent and correlation id. */
  ghost predicate Grows(st: Store, st': Store)
  {
    forall x :: x in st.instances ==>
      x in st'.instances && SameInstance(st.instances[x], st'.instances[x])
      && st.instances[x].journal <= st'.instances[x].journal
  }

  ghost predicate NoneCancelled(st: Store)
  {
    forall x :: x in st.instances ==> st.instances[x].status != Cancelled
  }

  /** A step of the engine that the chronicle survives. */
  ghost predicate Follows(reg: Registry, st: Store, st': Store)
  {
    Chronicle(reg, st') && Grows(st, st') && (NoneCancelled(st) ==> NoneCancelled(st'))
  }

  lemma FollowsTrans(reg: Registry, a: Store, b: Store, c: Store)
    requires Follows(reg, a, b) && Follows(reg, b, c)
    ensures Follows(reg, a, c)
  {
    hide Chronicle;
  }

  lemma FollowsRefl(reg: Registry, st: Store)
    requires Chronicle(reg, st)
    ensures Follows(reg, st, st)
  {
  }

  lemma WritesGrow(reg: Registry, st: Store, st': Store, kinds: set<JournalKind>)
    requires Writes(reg, st, st', kinds)
    ensures Grows(st, st') && (NoneCancelled(st) ==> NoneCancelled(st'))
  {
  }

  lemma EvolvesHolds(reg: Registry, st: Store, st': Store, id: string, kinds: set<JournalKind>)
    requires Evolves(reg, st, st', id) && id in st.instances && Active(st.instances[id].status)
    requires Writes(reg, st, st', kinds)
    ensures Holds(st, st')
  {
    forall x | x in st.instances
      ensures SameInstance(st.instances[x], st'.instances[x])
    {
      assert RecordWrites(reg, st.instances[x], st'.instances[x], kinds);
    }
  }

  lemma PlainFollows(reg: Registry, st: Store, st': Store, id: string)
    requires Chronicle(reg, st) && Plain(reg, st, st')
    requires Evolves(reg, st, st', id) && id in st.instances && Active(st.instances[id].status)
    ensures Follows(reg, st, st')
  {
    hide Chronicle, Evolves, Writes;
    WritesGrow(reg, st, st', PLAIN);
    EvolvesHolds(reg, st, st', id, PLAIN);
    PlainKeepsChronicle(reg, st, st');
  }

  lemma JoinFollows(reg: Registry, w: World, st: Store, st': Store, id: string, g: GraphSpec, node: Node)
    requires Chronicle(reg, st) && ValidWorld(w) && JoinCommits(reg, w, st, st', id, node) && At(reg, st, id, g, node)
    requires Evolves(reg, st, st', id) && Active(st.instances[id].status)
    ensures Follows(reg, st, st')
  {
    hide Chronicle, Evolves, Writes, Sound, CheckJoinBarriers, CommitHop, ResolveTransitions, ValidWorld, ValidRegistry;
    var next :| st' == CommitHop(st, id, JoinCommit(st, id, node, next));
    CommitWrites(reg, st, id, JoinCommit(st, id, node, next), {JoinCommitted});
    WritesGrow(reg, st, st', {JoinCommitted});
    EvolvesHolds(reg, st, st', id, {JoinCommitted});
    JoinKeepsChronicle(reg, w, st, st', id, node);
  }

  lemma UndoFollows(reg: Registry, st: Store, st': Store, id: string)
    requires Chronicle(reg, st) && UndoStep(st, st', id) && st.instances[id].status == Compensating
    ensures Follows(reg, st, st')
  {
    hide Chronicle;
    UndoHolds(st, st', id);
    UndoKeepsChronicle(reg, st, st', id);
  }

  lemma {:induction false} LoopFollows(reg: Registry, w: World, st: Store, id: string, left: nat)
    requires Unwinding(reg, st, id) && st.instances[id].status == Compensating && Chronicle(reg, st)
    ensures Follows(reg, st, CompensationLoop(reg, w, st, id, left).store)
    decreases left
  {
    hide Sound, Evolves, ValidRegistry, CallsSound, CompensateOneFrame, FinishCompensation, Chronicle, Follows,
         UndoStep, Plain;
    FollowsRefl(reg, st);
    if left > 0 {
      if st.instances[id].stack == [] {
        FinishCompensationStep(reg, st, id);
        FinishWrites(reg, st, id);
        PlainFollows(reg, st, FinishCompensation(reg, st, id).store, id);
      } else {
        CompensateOneFrameStep(reg, w, st, id);
        OneFrameLogs(reg, w, st, id);
        var s := CompensateOneFrame(reg, w, st, id);
        UndoFollows(reg, st, s.store, id);
        FollowsKeeps(reg, st, s.store);
        if s.error.None? {
          LoopFollows(reg, w, s.store, id, left - 1);
          FollowsTrans(reg, st, s.store, CompensationLoop(reg, w, s.store, id, left - 1).store);
        }
      }
    }
  }

  lemma FollowsKeeps(reg: Registry, st: Store, st': Store)
    requires Follows(reg, st, st')
    ensures Chronicle(reg, st')
  {
  }

  lemma RunningFollows(reg: Registry, w: World, st: Store, id: string)
    requires ValidRegistry(reg) && id in st.instances && Sound(reg, st, id) && st.instances[id].status == Running
    requires Chronicle(reg, st) && ValidWorld(w)
    ensures Follows(reg, st, ProcessInstance(reg, w, st, id).store)
  {
    hide Sound, Evolves, ValidRegistry, ValidWorld, ProcessCompute, ProcessJoin, EnterWait, CommitHop, OnPath,
         ForwardEntries, Trail, Undone, Chronicle, Follows, Plain, JoinCommits;
    var rec := st.instances[id];
    ProcessRunningStep(reg, w, st, id);
    ActiveFacts(reg, st, id);
    var g := GraphAt(reg, st, id).value;
    GraphIsGood(reg, rec.graph);
    var node := g.nodes[rec.currentNode];
    assert At(reg, st, id, g, node);
    var st' := ProcessInstance(reg, w, st, id).store;
    match node.kind
    case Terminal =>
      CommitIsPlain(reg, st, id, TerminalCommit(st, id, node.nodeId, TerminalStatus(node), None, ""));
      PlainFollows(reg, st, st', id);
    case Wait =>
      WaitingWrites(reg, w, st, id, node, None);
      PlainFollows(reg, st, st', id);
    case Join =>
      ProcessJoinWrites(reg, w, st, id, node);
      if Plain(reg, st, st') {
        PlainFollows(reg, st, st', id);
      } else {
        JoinFollows(reg, w, st, st', id, g, node);
      }
    case _ =>
      ProcessComputeWrites(reg, w, st, id, g, node);
      PlainFollows(reg, st, st', id);
  }

  lemma InstanceFollows(reg: Registry, w: World, st: Store, id: string)
    requires ValidRegistry(reg) && Inv(reg, st) && Chronicle(reg, st) && ValidWorld(w) && Runnable(st, id)
    ensures Follows(reg, st, ProcessInstance(reg, w, st, id).store)
  {
    hide Inv, Sound, CallsSound, ValidRegistry, ValidWorld, Chronicle, Follows, CompensationLoop;
    InvIsSound(reg, st, id);
    if st.instances[id].status == Running {
      RunningFollows(reg, w, st, id);
    } else {
      InvHasCalls(reg, st);
      LoopFollows(reg, w, st, id, MAX_FRAMES);
    }
  }

  lemma {:induction false} TimeoutsFollow(reg: Registry, st: Store, dues: seq<Due>)
    requires ValidRegistry(reg) && Inv(reg, st) && AllDue(st, dues) && Chronicle(reg, st)
    ensures Follows(reg, st, ProcessTimeouts(reg, st, dues).store)
    decreases |dues|
  {
    hide Sound, ValidRegistry, CallsSound, ProcessTimeout, Chronicle, Follows, Plain;
    FollowsRefl(reg, st);
    if dues != [] {
      var d := dues[0];
      assert DueAt(st, d) && Sound(reg, st, d.entityId);
      ProcessTimeoutStep(reg, st, d);
      var s := ProcessTimeout(reg, st, d);
      EvolvesKeepsInv(reg, st, s.store, d.entityId);
      TimeoutWrites(reg, st, d);
      PlainFollows(reg, st, s.store, d.entityId);
      FollowsKeeps(reg, st, s.store);
      forall i | 0 <= i < |dues[1..]|
        ensures DueAt(s.store, dues[1..][i])
      {
        assert DueAt(st, dues[i + 1]);
      }
      TimeoutsFollow(reg, s.store, dues[1..]);
      FollowsTrans(reg, st, s.store, ProcessTimeouts(reg, s.store, dues[1..]).store);
    }
  }

  lemma {:induction false} AllFollow(reg: Registry, w: World, st: Store, ids: seq<string>)
    requires ValidRegistry(reg) && Inv(reg, st) && AllRunnable(st, ids) && Chronicle(reg, st) && ValidWorld(w)
    ensures Follows(reg, st, ProcessAll(reg, w, st, ids).store)
    decreases |ids|
  {
    hide Inv, Sound, ValidRegistry, ValidWorld, CallsSound, ProcessInstance, Chronicle, Follows;
    FollowsRefl(reg, st);
    if ids != [] {
      assert Runnable(st, ids[0]);
      ProcessInstanceStep(reg, w, st, ids[0]);
      InstanceFollows(reg, w, st, ids[0]);
      var s := ProcessInstance(reg, w, st, ids[0]);
      FollowsKeeps(reg, st, s.store);
      if s.error.None? {
        forall i | 0 <= i < |ids[1..]|
          ensures Runnable(s.store, ids[1..][i])
        {
          assert Runnable(st, ids[i + 1]);
        }
        AllFollow(reg, w, s.store, ids[1..]);
        FollowsTrans(reg, st, s.store, ProcessAll(reg, w, s.store, ids[1..]).store);
      }
    }
  }

  lemma TickFollows(reg: Registry, w: World, st: Store)
    requires ValidRegistry(reg) && Inv(reg, st) && Chronicle(reg, st) && ValidWorld(w)
    ensures Follows(reg, st, RunOnce(reg, w, st).store)
  {
    hide Inv, ValidRegistry, ProcessTimeouts, ProcessAll, Chronicle, Follows, AllDue;
    DuesAreListed(st, w.order(TimeoutSite, st.instances.Keys), w.now);
    ProcessTimeoutsStep(reg, st, TimeoutsOf(w, st));
    TimeoutsFollow(reg, st, TimeoutsOf(w, st));
    var st' := ProcessTimeouts(reg, st, TimeoutsOf(w, st)).store;
    FollowsKeeps(reg, st, st');
    RunnableAreListed(st', w.order(RunnableSite, st'.instances.Keys));
    AllFollow(reg, w, st', RunnableOf(w, st'));
    FollowsTrans(reg, st, st', ProcessAll(reg, w, st', RunnableOf(w, st')).store);
  }

  lemma DeliverFollows(reg: Registry, st: Store, d: Delivery)
    requires ValidRegistry(reg) && Inv(reg, st) && Chronicle(reg, st)
    ensures Follows(reg, st, DeliverSignal(reg, st, d).store)
  {
    hide Inv, ValidRegistry, DeliverSignal, Chronicle, Writes;
    DeliverStep(reg, st, d);
    DeliverWrites(reg, st, d);
    var st' := DeliverSignal(reg, st, d).store;
    WritesGrow(reg, st, st', PLAIN);
    AdvancesHolds(st, st');
    PlainKeepsChronicle(reg, st, st');
  }

  lemma AdvancesHolds(st: Store, st': Store)
    requires Advances(st, st') && Grows(st, st')
    ensures Holds(st, st')
  {
  }

  lemma StartFollows(reg: Registry, st: Store, req: StartRequest)
    requires Chronicle(reg, st)
    ensures Follows(reg, st, StartInstance(reg, st, req).store)
  {
    hide Chronicle;
    var st' := StartInstance(reg, st, req).store;
    FollowsRefl(reg, st);
    if StartInstance(reg, st, req).error.None? {
      PlainKeepsChronicle(reg, st, st');
    }
  }

  lemma CancelHolds(st: Store, id: string)
    ensures var st' := CancelInstance(st, id).store; Holds(st, st') && Grows(st, st')
  {
  }

  lemma CancelKeepsTypes(reg: Registry, st: Store, id: string)
    ensures var st' := CancelInstance(st, id).store;
            st'.instances.Keys == st.instances.Keys
            && forall x :: x in st.instances && TypeSound(reg, st.instances[x]) ==> TypeSound(reg, st'.instances[x])
  {
  }

  /** Cancelling keeps the chronicle too: a cancelled child still counts for what it was. */
  lemma CancelKeepsChronicle(reg: Registry, st: Store, id: string)
    requires Chronicle(reg, st)
    ensures Chronicle(reg, CancelInstance(st, id).store) && Grows(st, CancelInstance(st, id).store)
  {
    hide JoinsEarned, Holds, TypeSound;
    var st' := CancelInstance(st, id).store;
    CancelHolds(st, id);
    CancelKeepsTypes(reg, st, id);
    forall x | x in st'.instances
      ensures JoinsEarned(reg, st', x) && CallsJournaled(st', x) && TypeSound(reg, st'.instances[x])
    {
      NothingNamed(st', x);
      AppendedStayEarned(reg, st, st', x, {});
    }
  }

  lemma ApplyFollows(reg: Registry, st: Store, call: Call)
    requires ValidRegistry(reg) && Inv(reg, st) && Chronicle(reg, st) && (call.Tick? ==> ValidWorld(call.w))
    ensures Chronicle(reg, Apply(reg, st, call).store) && Grows(st, Apply(reg, st, call).store)
    ensures !call.Cancel? && NoneCancelled(st) ==> NoneCancelled(Apply(reg, st, call).store)
  {
    hide Inv, ValidRegistry, Chronicle, StartInstance, DeliverSignal, CancelInstance, RunOnce, Grows, NoneCancelled;
    match call
    case Start(req) => StartFollows(reg, st, req);
    case Deliver(d) => DeliverFollows(reg, st, d);
    case Cancel(id) => CancelKeepsChronicle(reg, st, id);
    case Tick(w) => TickFollows(reg, w, st);
  }

  ghost predicate CancelFree(calls: seq<Call>)
  {
    forall i :: 0 <= i < |calls| ==> !calls[i].Cancel?
  }

  lemma GrowsTrans(a: Store, b: Store, c: Store)
    requires Grows(a, b) && Grows(b, c)
    ensures Grows(a, c)
  {
  }

  lemma {:induction false} RunsFollow(reg: Registry, st: Store, calls: seq<Call>)
    requires ValidRegistry(reg) && ValidCalls(calls) && Inv(reg, st) && Chronicle(reg, st)
    ensures Chronicle(reg, RunFrom(reg, st, calls)) && Grows(st, RunFrom(reg, st, calls))
    ensures CancelFree(calls) && NoneCancelled(st) ==> NoneCancelled(RunFrom(reg, st, calls))
  {
    hide Inv, ValidRegistry, Apply, Chronicle, Grows, NoneCancelled;
    if calls == [] {
      assert Grows(st, st) by {
        GrowsRefl(st);
      }
    } else {
      var n := |calls| - 1;
      var st' := RunFrom(reg, st, calls[..n]);
      RunsKeepInv(reg, st, calls[..n]);
      RunsFollow(reg, st, calls[..n]);
      ApplyFollows(reg, st', calls[n]);
      GrowsTrans(st, st', Apply(reg, st', calls[n]).store);
    }
  }

  lemma GrowsRefl(st: Store)
    ensures Grows(st, st)
  {
  }

  lemma ReachableChronicle(reg: Registry, calls: seq<Call>)
    requires ValidRegistry(reg) && ValidCalls(calls)
    ensures Chronicle(reg, Run(reg, calls))
    ensures CancelFree(calls) ==> NoneCancelled(Run(reg, calls))
  {
    hide Inv, ValidRegistry;
    EmptyIsSound(reg);
    RunsFollow(reg, EMPTY_STORE, calls);
  }
}
