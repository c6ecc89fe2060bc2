/**
 What the engine's functions may write into journals, on any store: journals are only appended to,
 each function appends entries of its own kinds only, and who an instance is never changes.
 */
module Effects {
  import opened Wrappers
  import opened Entities
  import opened Graphs
  import opened Routing
  import opened Idempotency
  import opened Lines
  import opened Registries
  import opened Scheduling

  const PLAIN := {NodeCommitted, SpawnedChildren, SignalReceived}

  ghost predicate Appends(j: seq<Entry>, j': seq<Entry>, kinds: set<JournalKind>)
  {
    j <= j' && forall i :: |j| <= i < |j'| ==> j'[i].kind in kinds
  }

  ghost predicate SameInstance(rec: Record, rec': Record)
  {
    && rec'.typeKey == rec.typeKey && rec'.graph == rec.graph
    && rec'.parent == rec.parent && rec'.correlationId == rec.correlationId
  }

  /** The snapshot is of the instance's type, or of one that type declares compatible. */
  predicate TypeSound(reg: Registry, rec: Record)
  {
    || rec.snapshot.typeKey == rec.typeKey
    || (rec.typeKey in reg.types && rec.snapshot.typeKey in reg.types[rec.typeKey].compatibleInputs)
  }

  /** The commit brings no snapshot of a foreign type. */
  predicate SnapshotFits(reg: Registry, rec: Record, c: HopCommit)
  {
    c.outputSnapshot.Some? && TypeSound(reg, rec) ==> TypeSound(reg, rec.(snapshot := c.outputSnapshot.value))
  }

  ghost predicate RecordWrites(reg: Registry, rec: Record, rec': Record, kinds: set<JournalKind>)
  {
    && SameInstance(rec, rec') && Appends(rec.journal, rec'.journal, kinds)
    && (rec'.status == Cancelled ==> rec.status == Cancelled) && (TypeSound(reg, rec) ==> TypeSound(reg, rec'))
  }

  ghost predicate Blank(rec: Record)
  {
    rec.journal == [] && rec.stack == [] && rec.status == Running && rec.snapshot.typeKey == rec.typeKey
  }

  /** All of these are children of the instance. */
  ghost predicate ChildrenOf(st: Store, id: string, ids: seq<string>)
  {
    forall y :: y in ids ==> y in st.instances && IsChild(st.instances[y], id)
  }

  /** The entries from position n on name only children of the instance. */
  ghost predicate NamesChildren(st: Store, id: string, n: nat)
  {
    id in st.instances && forall i :: n <= i < |st.instances[id].journal| ==>
      ChildrenOf(st, id, st.instances[id].journal[i].spawned)
  }

  /** Between the two stores only entries of these kinds were appended. */
  ghost predicate Writes(reg: Registry, st: Store, st': Store, kinds: set<JournalKind>)
  {
    && (forall x :: x in st.instances ==>
          x in st'.instances && RecordWrites(reg, st.instances[x], st'.instances[x], kinds))
    && (forall x :: x in st'.instances && x !in st.instances ==> Blank(st'.instances[x]))
    && (forall x :: x in st.instances ==> NamesChildren(st', x, |st.instances[x].journal|))
  }

  ghost predicate Plain(reg: Registry, st: Store, st': Store)
  {
    Writes(reg, st, st', PLAIN) && st'.calls == st.calls
  }

  lemma AppendsTrans(a: seq<Entry>, b: seq<Entry>, c: seq<Entry>, kinds: set<JournalKind>)
    requires Appends(a, b, kinds) && Appends(b, c, kinds)
    ensures Appends(a, c, kinds)
  {
    forall i | |a| <= i < |c|
      ensures c[i].kind in kinds
    {
      if i < |b| {
        assert c[i] == b[i];
      }
    }
  }

  ghost predicate TouchesOnly(st: Store, st': Store, id: string)
  {
    forall x :: x in st.instances && x != id ==> x in st'.instances && st'.instances[x] == st.instances[x]
  }

  /** A step, and then one that leaves the children born in the first alone. */
  lemma PlainThen(reg: Registry, a: Store, b: Store, c: Store, id: string)
    requires Plain(reg, a, b) && Plain(reg, b, c) && TouchesOnly(b, c, id) && id in a.instances
    ensures Plain(reg, a, c)
  {
    forall x | x in a.instances
      ensures x in c.instances && RecordWrites(reg, a.instances[x], c.instances[x], PLAIN)
      ensures NamesChildren(c, x, |a.instances[x].journal|)
    {
      assert RecordWrites(reg, b.instances[x], c.instances[x], PLAIN);
      AppendsTrans(a.instances[x].journal, b.instances[x].journal, c.instances[x].journal, PLAIN);
      StillNamesChildren(b, c, x, |a.instances[x].journal|);
    }
  }

  ghost predicate SameInstances(st: Store, st': Store)
  {
    forall x :: x in st.instances ==> x in st'.instances && SameInstance(st.instances[x], st'.instances[x])
  }

  lemma StillNamesChildren(st: Store, st': Store, id: string, n: nat)
    requires SameInstances(st, st') && NamesChildren(st, id, n)
    requires st.instances[id].journal <= st'.instances[id].journal && NamesChildren(st', id, |st.instances[id].journal|)
    ensures NamesChildren(st', id, n)
  {
    var j, j' := st.instances[id].journal, st'.instances[id].journal;
    forall i | n <= i < |j'|
      ensures ChildrenOf(st', id, j'[i].spawned)
    {
      if i < |j| {
        assert j'[i] == j[i] && ChildrenOf(st, id, j[i].spawned);
      }
    }
  }

  // ---------- the store operations ----------

  lemma CommittedWrites(reg: Registry, rec: Record, c: HopCommit)
    requires c.nextStatus != Cancelled && SnapshotFits(reg, rec, c)
    ensures RecordWrites(reg, rec, Committed(rec, c), {c.kind})
    ensures RecordWrites(reg, rec, ReconcilePop(rec, c), {c.kind})
  {
  }

  lemma CommitWrites(reg: Registry, st: Store, id: string, c: HopCommit, kinds: set<JournalKind>)
    requires id in st.instances && c.kind in kinds && c.nextStatus != Cancelled
    requires SnapshotFits(reg, st.instances[id], c)
    requires ChildrenOf(st, id, c.spawned)
    ensures Writes(reg, st, CommitHop(st, id, c), kinds) && CommitHop(st, id, c).calls == st.calls
  {
    hide Committed, ReconcilePop, SnapshotFits, TypeSound;
    CommittedWrites(reg, st.instances[id], c);
    CommitNamesChildren(st, id, c);
  }

  lemma CommitNamesChildren(st: Store, id: string, c: HopCommit)
    requires id in st.instances && ChildrenOf(st, id, c.spawned)
    ensures forall x :: x in st.instances ==> NamesChildren(CommitHop(st, id, c), x, |st.instances[x].journal|)
  {
    assert Committed(st.instances[id], c).journal
           == st.instances[id].journal + [EntryFor(Moved(st.instances[id], c), c)];
  }

  lemma CommitIsPlain(reg: Registry, st: Store, id: string, c: HopCommit)
    requires id in st.instances && c.kind in PLAIN && c.nextStatus != Cancelled
    requires SnapshotFits(reg, st.instances[id], c)
    requires ChildrenOf(st, id, c.spawned)
    ensures Plain(reg, st, CommitHop(st, id, c)) && TouchesOnly(st, CommitHop(st, id, c), id)
  {
    CommitWrites(reg, st, id, c, PLAIN);
  }

  lemma StatusWrites(reg: Registry, st: Store, id: string, status: Status)
    requires id in st.instances && status != Cancelled
    ensures Plain(reg, st, SetStatus(st, id, status))
  {
  }

  lemma WaitingWrites(reg: Registry, w: World, st: Store, id: string, node: Node, wait: Option<WaitSignal>)
    requires id in st.instances
    ensures Plain(reg, st, EnterWait(w, st, id, node, wait).store)
  {
  }

  // ---------- the scheduler functions ----------

  lemma BirthIsPlain(reg: Registry, st: Store, id: string, child: Record)
    requires id !in st.instances && Blank(child)
    ensures Plain(reg, st, WithRecord(st, id, child))
  {
  }

  lemma {:induction false} SpawnAllWrites(reg: Registry, st: Store, parent: string, specs: seq<SpawnSpec>)
    requires parent in st.instances
    ensures var s := SpawnAll(reg, st, parent, specs);
            && Plain(reg, st, s.store)
            && (forall x :: x in st.instances ==> x in s.store.instances && s.store.instances[x] == st.instances[x])
            && (s.error.None? ==> ChildrenOf(s.store, parent, EntityIds(specs)))
    decreases |specs|
  {
    hide Plain;
    NothingIsPlain(reg, st);
    if specs != [] {
      var spec := specs[0];
      if CheckSpawn(spec).None? && GetGraph(reg, spec.graph).Ok? && spec.entityId !in st.instances {
        var child := NewRecord(ChildRequest(parent, spec), reg.graphs[spec.graph].entryNodeId);
        var st' := WithRecord(st, spec.entityId, child);
        BirthIsPlain(reg, st, spec.entityId, child);
        SpawnAllWrites(reg, st', parent, specs[1..]);
        PlainThen(reg, st, st', SpawnAll(reg, st', parent, specs[1..]).store, parent);
        assert EntityIds(specs) == [spec.entityId] + EntityIds(specs[1..]);
      }
    }
  }

  lemma CommitAndWaitWrites(reg: Registry, w: World, st: Store, id: string, g: GraphSpec, c: HopCommit, next: string)
    requires id in st.instances && c.kind in PLAIN && c.nextStatus != Cancelled
    requires SnapshotFits(reg, st.instances[id], c)
    requires ChildrenOf(st, id, c.spawned)
    ensures var st' := WaitIfWaitNode(w, CommitHop(st, id, c), id, g, next).store;
            Plain(reg, st, st') && TouchesOnly(st, st', id)
  {
    hide Plain, TouchesOnly, CommitHop, WaitIfWaitNode, SnapshotFits, ChildrenOf;
    var st' := CommitHop(st, id, c);
    CommitIsPlain(reg, st, id, c);
    WaitAtNode(reg, w, st', id, g, next);
    PlainThen(reg, st, st', WaitIfWaitNode(w, st', id, g, next).store, id);
    TouchesOnlyTrans(st, st', WaitIfWaitNode(w, st', id, g, next).store, id);
  }

  lemma TouchesOnlyTrans(a: Store, b: Store, c: Store, id: string)
    requires TouchesOnly(a, b, id) && TouchesOnly(b, c, id)
    ensures TouchesOnly(a, c, id)
  {
  }

  lemma NothingIsPlain(reg: Registry, st: Store)
    ensures Plain(reg, st, st)
  {
  }

  /** What passes the output checks fits the instance. */
  lemma CheckedOutputFits(reg: Registry, rec: Record, u: UnitDef, snap: Snapshot)
    requires CheckOutput(reg, rec.typeKey, u, snap).None?
    ensures TypeSound(reg, rec.(snapshot := snap))
  {
  }

  lemma CommitComputeWrites(reg: Registry, w: World, st: Store, id: string, g: GraphSpec, node: Node, snap: Snapshot,
          mutation: Mutation, key: Key)
    requires id in st.instances && (mutation.SpawnIntent? ==> snap == st.instances[id].snapshot)
    ensures Plain(reg, st, CommitCompute(reg, w, st, id, g, node, snap, mutation, key).store)
  {
    hide CommitHop, WaitIfWaitNode, SpawnAll, CheckOutput, Resolve, Plain, TouchesOnly;
    var out := snap.(sequence := st.instances[id].sequence + 1);
    NothingIsPlain(reg, st);
    CommitIsPlain(reg, st, id,
                  TerminalCommit(st, id, node.nodeId, Failed, Some(st.instances[id].snapshot), NO_TRANSITION));
    var next := Resolve(reg.eval, g, node.nodeId, out);
    if next.Ok? && mutation.SpawnIntent? {
      SpawnAllWrites(reg, st, id, mutation.specs);
      if SpawnAll(reg, st, id, mutation.specs).error.None? {
        NextCommitWrites(reg, w, st, SpawnAll(reg, st, id, mutation.specs).store,
                         id, g, node, out, next.value, mutation, key);
      }
    } else if next.Ok? && node.unitId in reg.units
          && CheckOutput(reg, st.instances[id].typeKey, reg.units[node.unitId], out).None? {
      CheckedOutputFits(reg, st.instances[id], reg.units[node.unitId], out);
      NextCommitWrites(reg, w, st, st, id, g, node, out, next.value, mutation, key);
    }
  }

  lemma NoChildren(st: Store, id: string)
    ensures ChildrenOf(st, id, [])
  {
  }

  /** The commit of a compute hop, after the children were born. */
  lemma NextCommitWrites(reg: Registry, w: World, st0: Store, st: Store, id: string, g: GraphSpec, node: Node,
          out: Snapshot, next: string, mutation: Mutation, key: Key)
    requires Plain(reg, st0, st) && id in st0.instances && id in st.instances && st.instances[id] == st0.instances[id]
    requires TypeSound(reg, st.instances[id]) ==> TypeSound(reg, st.instances[id].(snapshot := out))
    requires mutation.SpawnIntent? ==> ChildrenOf(st, id, EntityIds(mutation.specs))
    ensures var committed := CommitHop(st, id, ComputeCommit(st, id, g, node, out, next, mutation, key));
            Plain(reg, st0, WaitIfWaitNode(w, committed, id, g, next).store)
  {
    hide Plain, CommitHop, WaitIfWaitNode, TouchesOnly, ChildrenOf;
    var c := ComputeCommit(st, id, g, node, out, next, mutation, key);
    assert mutation.SpawnIntent? ==> c.spawned == EntityIds(mutation.specs);
    NoChildren(st, id);
    CommitAndWaitWrites(reg, w, st, id, g, c, next);
    PlainThen(reg, st0, st, WaitIfWaitNode(w, CommitHop(st, id, c), id, g, next).store, id);
  }

  lemma ApplyMutationWrites(reg: Registry, w: World, st: Store, id: string, g: GraphSpec, node: Node,
          mutation: Mutation, key: Key)
    requires id in st.instances
    ensures Plain(reg, st, ApplyMutation(reg, w, st, id, g, node, mutation, key).store)
  {
    hide CommitHop, CommitCompute, Plain, EnterWait;
    match mutation
    case WaitIntent(wait) => WaitingWrites(reg, w, st, id, node, wait);
    case FailIntent(trigger) => StatusWrites(reg, st, id, if trigger then Compensating else Failed);
    case CompleteIntent(outcome) =>
      CommitIsPlain(reg, st, id,
                    TerminalCommit(st, id, node.nodeId, if outcome == Failure then Failed else Completed, None, ""));
    case UpdateIntent(update) => CommitComputeWrites(reg, w, st, id, g, node, update, mutation, key);
    case _ => CommitComputeWrites(reg, w, st, id, g, node, st.instances[id].snapshot, mutation, key);
  }

  lemma AdvanceWrites(reg: Registry, w: World, st: Store, id: string, g: GraphSpec, node: Node)
    requires id in st.instances
    ensures Plain(reg, st, AdvanceAfterCommit(reg, w, st, id, g, node).store)
  {
    hide CommitHop, Resolve, Plain, TouchesOnly;
    NothingIsPlain(reg, st);
    CommitIsPlain(reg, st, id,
                  TerminalCommit(st, id, node.nodeId, Failed, Some(st.instances[id].snapshot), NO_TRANSITION));
    var next := Resolve(reg.eval, g, node.nodeId, st.instances[id].snapshot);
    if next.Ok? {
      var moved := AdvanceNode(st, id, next.value, Running);
      MoveIsPlain(reg, st, id, next.value);
      if next.value in g.nodes && g.nodes[next.value].kind == Terminal {
        var terminal := g.nodes[next.value];
        CommitIsPlain(reg, moved, id, TerminalCommit(moved, id, terminal.nodeId, TerminalStatus(terminal), None, ""));
        PlainThen(reg, st, moved, CommitTerminal(moved, id, terminal).store, id);
      } else {
        WaitAtNode(reg, w, moved, id, g, next.value);
        PlainThen(reg, st, moved, WaitIfWaitNode(w, moved, id, g, next.value).store, id);
      }
    }
  }

  lemma MoveIsPlain(reg: Registry, st: Store, id: string, nodeId: string)
    requires id in st.instances
    ensures Plain(reg, st, AdvanceNode(st, id, nodeId, Running))
  {
  }

  lemma WaitAtNode(reg: Registry, w: World, st: Store, id: string, g: GraphSpec, next: string)
    requires id in st.instances
    ensures var st' := WaitIfWaitNode(w, st, id, g, next).store; Plain(reg, st, st') && TouchesOnly(st, st', id)
  {
  }

  lemma ProcessComputeWrites(reg: Registry, w: World, st: Store, id: string, g: GraphSpec, node: Node)
    requires id in st.instances
    ensures Plain(reg, st, ProcessCompute(reg, w, st, id, g, node).store)
  {
    hide ApplyMutation, AdvanceAfterCommit, Plain, TouchesOnly;
    NothingIsPlain(reg, st);
    AdvanceWrites(reg, w, st, id, g, node);
    var key := HopKeyOf(st, id, node.nodeId);
    var started := CreateExecution(st, key, Execution(node.nodeId, st.instances[id].sequence, ExecutionRunning, 0));
    var result := w.execute(id, node.unitId, st.instances[id].snapshot);
    SameInstancesArePlain(reg, st, started);
    SameInstancesArePlain(reg, st, HandleExecuteError(reg, started, node, key).store);
    if result.Executed? && result.mutation.Some? {
      ApplyMutationWrites(reg, w, started, id, g, node, result.mutation.value, key);
      SameStart(reg, st, started, ApplyMutation(reg, w, started, id, g, node, result.mutation.value, key).store);
    }
  }

  lemma SameInstancesArePlain(reg: Registry, st: Store, st': Store)
    requires st'.instances == st.instances && st'.calls == st.calls
    ensures Plain(reg, st, st')
  {
  }

  lemma SameStart(reg: Registry, st: Store, started: Store, st': Store)
    requires started.instances == st.instances && started.calls == st.calls && Plain(reg, started, st')
    ensures Plain(reg, st, st')
  {
  }

  /** The only way a join entry is written: a join whose barriers are ready. */
  ghost predicate JoinCommits(reg: Registry, w: World, st: Store, st': Store, id: string, node: Node)
  {
    && id in st.instances && node.joinSpec.Some? && CheckJoinBarriers(w, st, id, node.joinSpec.value) == JoinReady
    && exists next :: st' == CommitHop(st, id, JoinCommit(st, id, node, next))
                      && ResolveTransitions(reg.eval, node, st.instances[id].snapshot, None) == Ok(next)
  }

  lemma ProcessJoinWrites(reg: Registry, w: World, st: Store, id: string, node: Node)
    requires id in st.instances
    ensures var st' := ProcessJoin(reg, w, st, id, node).store;
            Plain(reg, st, st') || JoinCommits(reg, w, st, st', id, node)
  {
    hide CommitHop, CheckJoinBarriers, ResolveTransitions, Plain;
    NothingIsPlain(reg, st);
    StatusWrites(reg, st, id, Failed);
    CommitIsPlain(reg, st, id,
                  TerminalCommit(st, id, node.nodeId, Failed, Some(st.instances[id].snapshot), NO_TRANSITION));
  }

  lemma TimeoutWrites(reg: Registry, st: Store, d: Due)
    ensures Plain(reg, st, ProcessTimeout(reg, st, d).store)
  {
    hide CommitHop;
    var id := d.entityId;
    if id in st.instances && GetGraph(reg, st.instances[id].graph).Ok? {
      var g := GetGraph(reg, st.instances[id].graph).value;
      var target := d.waiting.onTimeoutTarget;
      if target in g.nodes {
        CommitIsPlain(reg, st, id, TimeoutCommit(st, id, target, TerminalStatus(g.nodes[target])));
      }
    }
  }

  lemma SignalsKeepType(reg: Registry, node: Node, snap: Snapshot, d: Delivery)
    ensures var r := SignalSnapshot(reg, node, snap, d);
            r.Ok? && r.value.Some? ==> r.value.value.typeKey == snap.typeKey
  {
  }

  lemma DeliverWrites(reg: Registry, st: Store, d: Delivery)
    ensures Plain(reg, st, DeliverSignal(reg, st, d).store)
  {
    hide CommitHop, ResolveTransitions, SignalSnapshot, SignalAccepted, Plain, TouchesOnly;
    NothingIsPlain(reg, st);
    SameInstancesArePlain(reg, st, st.(signals := st.signals + {SignalKey(d.entityId, d.signalName, d.deliveryId)}));
    var id, key := d.entityId, SignalKey(d.entityId, d.signalName, d.deliveryId);
    var s := DeliverSignal(reg, st, d);
    var recorded := st.(signals := st.signals + {key});
    if s.store != st && s.store != recorded {
      var rec := st.instances[id];
      var g := GetGraph(reg, rec.graph).value;
      var node := g.nodes[rec.currentNode];
      var snap := SignalSnapshot(reg, node, rec.snapshot, d).value;
      var seen := if snap.Some? then snap.value else rec.snapshot;
      var next := ResolveTransitions(reg.eval, node, seen, Some(d.signalName));
      SignalsKeepType(reg, node, rec.snapshot, d);
      CommitIsPlain(reg, recorded, id, SignalCommit(recorded, d, snap, next.value));
      SameStart(reg, st, recorded, s.store);
    }
  }

  lemma FinishWrites(reg: Registry, st: Store, id: string)
    requires id in st.instances
    ensures Plain(reg, st, FinishCompensation(reg, st, id).store)
  {
    hide CommitHop, ResolveTransitions;
    StatusWrites(reg, st, id, Compensated);
    var finished := SetStatus(st, id, Compensated);
    var rec := st.instances[id];
    if GetGraph(reg, rec.graph).Ok? {
      var g := GetGraph(reg, rec.graph).value;
      if rec.currentNode in g.nodes {
        var next := ResolveTransitions(reg.eval, g.nodes[rec.currentNode], rec.snapshot, None);
        if next.Ok? && next.value in g.nodes {
          var terminal := g.nodes[next.value];
          CommitIsPlain(reg, finished, id,
                        TerminalCommit(finished, id, terminal.nodeId, TerminalStatus(terminal), None, ""));
          PlainThen(reg, st, finished, CommitTerminal(finished, id, terminal).store, id);
        }
      }
    }
  }
}
