/** The store invariant, and the scheduler functions that work on one instance keep it. */
module Steps {
  import opened Wrappers
  import opened Entities
  import opened Graphs
  import opened Routing
  import opened Idempotency
  import opened Lines
  import opened Registries
  import opened Scheduling
  import opened History
  import opened Preservation

  // ---------- the store ----------

  /** One instance and everything the store keeps under its id. */
  ghost predicate Sound(reg: Registry, st: Store, id: string)
  {
    id in st.instances && RecordInv(reg, id, st.instances[id], st.executions, st.signals)
  }

  ghost predicate ExecutionsOwned(st: Store)
  {
    forall k :: k in st.executions ==> |k| > 0 && k[0] in st.instances
  }

  /** A compensator call within the retry budget, which its execution record has moved past; after
      a success the record is committed. */
  ghost predicate CallSound(reg: Registry, st: Store, c: CompensatorCall)
  {
    && c.entityId in st.instances && c.key == CompensationKeyOf(c.entityId, c.frame) && c.key in st.executions
    && 0 <= c.attempt <= MaxAttempts(reg, c.frame.compensatorUnitId)
    && (c.ok ==> st.executions[c.key].status == ExecutionCommitted)
    && (|| c.attempt < st.executions[c.key].attempt
        || st.executions[c.key].status == ExecutionCommitted
        || !Active(st.instances[c.entityId].status))
  }

  /** No attempt is made twice, and none after a success. */
  ghost predicate CallsApart(calls: seq<CompensatorCall>)
  {
    forall i, k :: 0 <= i < k < |calls| && calls[i].key == calls[k].key ==>
      calls[i].attempt != calls[k].attempt && !calls[i].ok
  }

  ghost predicate CallsSound(reg: Registry, st: Store)
  {
    CallsApart(st.calls) && forall i :: 0 <= i < |st.calls| ==> CallSound(reg, st, st.calls[i])
  }

  ghost predicate Inv(reg: Registry, st: Store)
  {
    && (forall id {:trigger Sound(reg, st, id)} :: id in st.instances ==> Sound(reg, st, id))
    && ExecutionsOwned(st)
    && CallsSound(reg, st)
  }

  // ---------- steps on behalf of one instance ----------

  ghost predicate Newborn(reg: Registry, rec: Record)
  {
    && GetGraph(reg, rec.graph).Ok?
    && rec == Record(rec.typeKey, Running, 0, GetGraph(reg, rec.graph).value.entryNodeId, rec.graph, rec.parent,
                     rec.correlationId, Snapshot(rec.typeKey, 0, rec.snapshot.payload), [], [], None)
  }

  ghost predicate ExecutionAdvances(e: Execution, e': Execution)
  {
    e.attempt <= e'.attempt && (e.status == ExecutionCommitted ==> e'.status == ExecutionCommitted)
  }

  /** Only id's own record and executions changed, apart from children being born; nothing is
      forgotten. */
  ghost predicate Evolves(reg: Registry, st: Store, st': Store, id: string)
  {
    && (forall x :: x in st.instances ==> x in st'.instances && (x != id ==> st'.instances[x] == st.instances[x]))
    && (forall x :: x in st'.instances && x !in st.instances ==> Newborn(reg, st'.instances[x]))
    && (forall k :: k in st.executions ==>
          k in st'.executions && ExecutionAdvances(st.executions[k], st'.executions[k]))
    && (forall k :: k in st.executions && !Owned(id, k) ==>
          k in st'.executions && st'.executions[k] == st.executions[k])
    && (forall k :: k in st'.executions && k !in st.executions ==> Owned(id, k))
    && st.signals <= st'.signals
    && (id in st.instances && !Active(st.instances[id].status) ==> !Active(st'.instances[id].status))
  }

  lemma EvolvesTrans(reg: Registry, a: Store, b: Store, c: Store, id: string)
    requires id in a.instances && Evolves(reg, a, b, id) && Evolves(reg, b, c, id)
    ensures Evolves(reg, a, c, id)
  {
    forall x | x in c.instances && x !in a.instances
      ensures Newborn(reg, c.instances[x])
    {
      if x in b.instances {
        assert c.instances[x] == b.instances[x];
      }
    }
  }

  lemma NewbornSound(reg: Registry, st: Store, id: string)
    requires ValidRegistry(reg) && id in st.instances && Newborn(reg, st.instances[id])
    requires forall k :: k in st.executions ==> !Owned(id, k)
    ensures Sound(reg, st, id)
  {
    var rec := st.instances[id];
    var g := GetGraph(reg, rec.graph).value;
    var req := StartRequest(id, rec.typeKey, rec.snapshot.payload, rec.graph, rec.parent, rec.correlationId);
    assert rec == NewRecord(req, g.entryNodeId);
    NewRecordInv(reg, g, id, req, st.executions, st.signals);
  }

  /** A step that leaves its own instance sound leaves the whole store sound. */
  lemma EvolvesKeepsInv(reg: Registry, st: Store, st': Store, id: string)
    requires ValidRegistry(reg) && Inv(reg, st) && Evolves(reg, st, st', id)
    requires id in st.instances && Sound(reg, st', id) && st'.calls == st.calls
    ensures Inv(reg, st')
  {
    EvolvesKeepsRecords(reg, st, st', id);
    EvolvesKeepsCalls(reg, st, st', id);
  }

  lemma EvolvesKeepsCalls(reg: Registry, st: Store, st': Store, id: string)
    requires CallsSound(reg, st) && Evolves(reg, st, st', id) && id in st.instances && st'.calls == st.calls
    ensures CallsSound(reg, st')
  {
    forall i | 0 <= i < |st'.calls|
      ensures CallSound(reg, st', st'.calls[i])
    {
      EvolvesKeepsCall(reg, st, st', id, st.calls[i]);
    }
  }

  lemma EvolvesKeepsCall(reg: Registry, st: Store, st': Store, id: string, c: CompensatorCall)
    requires CallSound(reg, st, c) && Evolves(reg, st, st', id) && id in st.instances
    ensures CallSound(reg, st', c)
  {
    assert ExecutionAdvances(st.executions[c.key], st'.executions[c.key]);
  }

  lemma EvolvesKeepsRecords(reg: Registry, st: Store, st': Store, id: string)
    requires ValidRegistry(reg) && Inv(reg, st) && Evolves(reg, st, st', id)
    requires id in st.instances && Sound(reg, st', id)
    ensures ExecutionsOwned(st') && forall x :: x in st'.instances ==> Sound(reg, st', x)
  {
    forall x | x in st'.instances
      ensures Sound(reg, st', x)
    {
      if x == id {
      } else if x in st.instances {
        assert Sound(reg, st, x);
        forall k | Owned(x, k)
          ensures !Owned(id, k)
        {
        }
        ElsewhereKeeps(reg, GetGraph(reg, st.instances[x].graph).value, x, st.instances[x],
                       st.executions, st.signals, st'.executions, st'.signals);
      } else {
        forall k | k in st'.executions
          ensures !Owned(x, k)
        {
          if k in st.executions {
            assert k[0] in st.instances;
          }
        }
        NewbornSound(reg, st', x);
      }
    }
  }

  /** What a scheduler step on an instance guarantees. */
  ghost predicate StepKeeps(reg: Registry, st: Store, s: Step, id: string)
  {
    id in s.store.instances && Sound(reg, s.store, id) && Evolves(reg, st, s.store, id) && s.store.calls == st.calls
  }

  // ---------- store operations ----------

  function GraphAt(reg: Registry, st: Store, id: string): Result<GraphSpec, DagError>
    requires id in st.instances
  {
    GetGraph(reg, st.instances[id].graph)
  }

  /** The setting of a step: an instance that is sound, its graph, and its current node. */
  ghost predicate At(reg: Registry, st: Store, id: string, g: GraphSpec, node: Node)
  {
    && ValidRegistry(reg) && id in st.instances && Sound(reg, st, id) && GraphAt(reg, st, id) == Ok(g)
    && st.instances[id].currentNode in g.nodes && node == g.nodes[st.instances[id].currentNode]
    && node.nodeId == st.instances[id].currentNode
  }

  lemma GraphIsGood(reg: Registry, v: GraphVersion)
    requires ValidRegistry(reg) && GetGraph(reg, v).Ok?
    ensures var g := GetGraph(reg, v).value;
            WellFormed(g) && Acyclic(g) && TargetsExist(g) && forall n :: n in g.nodes ==> g.nodes[n].nodeId == n
  {
    var g := GetGraph(reg, v).value;
    forall a, i | a in g.nodes && 0 <= i < |g.nodes[a].transitions|
      ensures g.nodes[a].transitions[i].target in g.nodes
    {
      assert NodeValid(g, a, g.nodes[a]);
    }
    forall n | n in g.nodes
      ensures g.nodes[n].nodeId == n
    {
      assert NodeValid(g, n, g.nodes[n]);
    }
  }

  /** What soundness says of an instance that is still active. */
  lemma ActiveFacts(reg: Registry, st: Store, id: string)
    requires id in st.instances && Sound(reg, st, id)
    ensures GraphAt(reg, st, id).Ok?
    ensures var rec, g := st.instances[id], GraphAt(reg, st, id).value;
            Active(rec.status) ==>
              && OnPath(g, rec.journal, rec.currentNode) && rec.currentNode in g.nodes
              && ForwardEntries(id, rec.journal, st.signals)
              && (rec.status != Compensating ==> Undone(rec.journal) == [])
              && (rec.status == Waiting <==> rec.waiting.Some?)
  {
  }

  lemma ExecutionFacts(reg: Registry, st: Store, id: string, key: Key)
    requires id in st.instances && Sound(reg, st, id) && Owned(id, key) && key in st.executions
    ensures GraphAt(reg, st, id).Ok?
    ensures var rec := st.instances[id];
            ExecutionSound(reg, GraphAt(reg, st, id).value, Active(rec.status), rec.journal, rec.currentNode,
                           key, st.executions[key])
  {
  }

  lemma CommitEvolves(reg: Registry, st: Store, id: string, c: HopCommit)
    requires id in st.instances && Owned(id, c.key)
    requires !IsJournaled(st.instances[id].journal, c.key, c.kind)
    requires Active(Committed(st.instances[id], c).status) ==> Active(st.instances[id].status)
    ensures Evolves(reg, st, CommitHop(st, id, c), id) && CommitHop(st, id, c).calls == st.calls
    ensures CommitHop(st, id, c).instances[id] == Committed(st.instances[id], c)
    ensures CommitHop(st, id, c).executions == MarkCommitted(st.executions, c.key)
    ensures CommitHop(st, id, c).signals == st.signals
  {
  }

  lemma EndingCommit(reg: Registry, st: Store, id: string, g: GraphSpec, c: HopCommit)
    requires Sound(reg, st, id) && GraphAt(reg, st, id) == Ok(g)
    requires ForwardCommit(g, id, st.instances[id], c) && !Active(c.nextStatus)
    ensures Sound(reg, CommitHop(st, id, c), id) && Evolves(reg, st, CommitHop(st, id, c), id)
    ensures CommitHop(st, id, c).calls == st.calls && CommitHop(st, id, c).instances[id].status == c.nextStatus
    ensures CommitHop(st, id, c).instances[id] == Committed(st.instances[id], c)
  {
    EndingCommitKeeps(reg, g, id, st.instances[id], c, st.executions, st.signals);
    CommittedFields(st.instances[id], c);
    CommitEvolves(reg, st, id, c);
  }

  lemma MovingCommit(reg: Registry, st: Store, id: string, g: GraphSpec, c: HopCommit)
    requires Sound(reg, st, id) && GraphAt(reg, st, id) == Ok(g) && TargetsExist(g)
    requires var rec := st.instances[id];
             && (rec.status == Running || (rec.status == Waiting && c.kind == SignalReceived))
             && c.nextStatus == Running
             && ForwardCommit(g, id, rec, c) && c.nodeId == rec.currentNode && Edge(g, rec.currentNode, c.nextNode)
             && ForwardEntry(id, NewEntry(rec, c), st.signals)
    ensures Sound(reg, CommitHop(st, id, c), id) && Evolves(reg, st, CommitHop(st, id, c), id)
    ensures var rec' := CommitHop(st, id, c).instances[id];
            && rec' == Committed(st.instances[id], c)
            && rec'.status == Running && rec'.currentNode == c.nextNode && rec'.graph == st.instances[id].graph
    ensures CommitHop(st, id, c).calls == st.calls
  {
    MovingCommitKeeps(reg, g, id, st.instances[id], c, st.executions, st.signals);
    CommittedFields(st.instances[id], c);
    CommitEvolves(reg, st, id, c);
  }

  /** Replacing the record by a sound one. */
  lemma WithRecordStep(reg: Registry, st: Store, id: string, rec': Record)
    requires id in st.instances && RecordInv(reg, id, rec', st.executions, st.signals)
    requires Active(rec'.status) ==> Active(st.instances[id].status)
    ensures Sound(reg, WithRecord(st, id, rec'), id) && Evolves(reg, st, WithRecord(st, id, rec'), id)
  {
  }

  lemma StatusStep(reg: Registry, st: Store, id: string, status: Status)
    requires Sound(reg, st, id)
    requires !Active(status) || (st.instances[id].status == Running && status == Compensating)
    ensures Sound(reg, SetStatus(st, id, status), id) && Evolves(reg, st, SetStatus(st, id, status), id)
  {
    StatusKeeps(reg, GraphAt(reg, st, id).value, id, st.instances[id], status, st.executions, st.signals);
    WithRecordStep(reg, st, id, st.instances[id].(status := status));
  }

  lemma EnterWaitStore(w: World, st: Store, id: string, node: Node, wait: Option<WaitSignal>)
    requires id in st.instances && st.instances[id].currentNode == node.nodeId
    ensures EnterWait(w, st, id, node, wait)
            == Done(WithRecord(st, id, st.instances[id].(status := Waiting,
                                                  waiting := Some(WaitRecordFor(w.now, node, wait)))))
  {
  }

  lemma EnterWaitStep(reg: Registry, w: World, st: Store, id: string, node: Node, wait: Option<WaitSignal>)
    requires Sound(reg, st, id) && st.instances[id].status == Running && st.instances[id].currentNode == node.nodeId
    ensures var s := EnterWait(w, st, id, node, wait);
            && StepKeeps(reg, st, s, id) && s.error.None? && s.store.instances[id].status == Waiting
  {
    var rec := st.instances[id];
    var rec' := rec.(status := Waiting, waiting := Some(WaitRecordFor(w.now, node, wait)));
    EnterWaitStore(w, st, id, node, wait);
    WaitingKeeps(reg, GraphAt(reg, st, id).value, id, rec, WaitRecordFor(w.now, node, wait), st.executions, st.signals);
    WithRecordStep(reg, st, id, rec');
  }

  lemma StartExecutionStep(reg: Registry, st: Store, id: string, key: Key, e: Execution)
    requires Sound(reg, st, id) && Active(st.instances[id].status) && Owned(id, key)
    requires e.status == ExecutionRunning && e.attempt == 0
    requires |key| == 4 || (|key| == 3 && key[1] == st.instances[id].currentNode)
    ensures Sound(reg, CreateExecution(st, key, e), id) && Evolves(reg, st, CreateExecution(st, key, e), id)
  {
    if key !in st.executions {
      StartedKeeps(reg, GraphAt(reg, st, id).value, id, st.instances[id], key, e, st.executions, st.signals);
    }
  }

  lemma AttemptStep(reg: Registry, st: Store, id: string, key: Key)
    requires Sound(reg, st, id) && Owned(id, key) && key in st.executions
    requires st.executions[key].attempt < if |key| == 4 then MaxAttempts(reg, key[3])
                                          else if |key| == 3 && key[1] in GraphAt(reg, st, id).value.nodes
                                          then MaxAttempts(reg, GraphAt(reg, st, id).value.nodes[key[1]].unitId) else 0
    ensures var st' := SetAttempt(st, key, st.executions[key].attempt + 1);
            Sound(reg, st', id) && Evolves(reg, st, st', id)
  {
    var g := GraphAt(reg, st, id).value;
    assert ExecutionSound(reg, g, Active(st.instances[id].status), st.instances[id].journal,
                          st.instances[id].currentNode, key, st.executions[key]);
    AttemptKeeps(reg, g, id, st.instances[id], key, st.executions[key].attempt + 1, st.executions, st.signals);
  }

  // ---------- terminal commits ----------

  /** Ending the instance at a node that is not on its trail. */
  lemma TerminalCommitStep(reg: Registry, st: Store, id: string, g: GraphSpec, nodeId: string, status: Status,
          snap: Option<Snapshot>, reason: string)
    requires Sound(reg, st, id) && GraphAt(reg, st, id) == Ok(g)
    requires nodeId in g.nodes && nodeId !in Trail(st.instances[id].journal) && !Active(status)
    requires ForwardEntries(id, st.instances[id].journal, st.signals)
    requires snap.Some? ==> reason != ""
    ensures var c := TerminalCommit(st, id, nodeId, status, snap, reason);
            var st' := CommitHop(st, id, c);
            && Sound(reg, st', id) && Evolves(reg, st, st', id) && st'.calls == st.calls
            && st'.instances[id] == Committed(st.instances[id], c) && st'.instances[id].status == status
  {
    var rec := st.instances[id];
    var c := TerminalCommit(st, id, nodeId, status, snap, reason);
    HopIsNew(id, rec.journal, st.signals, nodeId, rec.sequence, NodeCommitted);
    CommittedFields(rec, c);
    assert snap.None? ==> NewEntry(rec, c).outputSequence == rec.sequence;
    assert !Pushes(g, NewEntry(rec, c));
    EndingCommit(reg, st, id, g, c);
    CommitEvolves(reg, st, id, c);
  }

  lemma FailNoTransitionStep(reg: Registry, st: Store, id: string, g: GraphSpec, node: Node)
    requires At(reg, st, id, g, node) && Active(st.instances[id].status)
    ensures var s := FailNoTransition(st, id, node);
            && Sound(reg, s.store, id) && Evolves(reg, st, s.store, id) && s.store.calls == st.calls
            && s.store.instances[id].status == Failed && s.error.None?
  {
    hide Sound, Evolves, ValidRegistry;
    ActiveFacts(reg, st, id);
    GraphIsGood(reg, st.instances[id].graph);
    AheadIsNew(g, st.instances[id].journal, st.instances[id].currentNode);
    TerminalCommitStep(reg, st, id, g, node.nodeId, Failed, Some(st.instances[id].snapshot), NO_TRANSITION);
  }

  lemma CommitTerminalStep(reg: Registry, st: Store, id: string, g: GraphSpec, node: Node, status: Status)
    requires At(reg, st, id, g, node) && Active(st.instances[id].status) && !Active(status)
    ensures var st' := CommitHop(st, id, TerminalCommit(st, id, node.nodeId, status, None, ""));
            && Sound(reg, st', id) && Evolves(reg, st, st', id) && st'.calls == st.calls
            && st'.instances[id].status == status
  {
    hide Sound, Evolves, ValidRegistry;
    ActiveFacts(reg, st, id);
    GraphIsGood(reg, st.instances[id].graph);
    AheadIsNew(g, st.instances[id].journal, st.instances[id].currentNode);
    TerminalCommitStep(reg, st, id, g, node.nodeId, status, None, "");
  }

  // ---------- compute ----------

  lemma BirthStep(reg: Registry, st: Store, parent: string, childId: string, child: Record)
    requires Sound(reg, st, parent) && childId !in st.instances && Newborn(reg, child)
    ensures Sound(reg, WithRecord(st, childId, child), parent)
    ensures Evolves(reg, st, WithRecord(st, childId, child), parent)
  {
  }

  lemma {:induction false} SpawnAllStep(reg: Registry, st: Store, parent: string, specs: seq<SpawnSpec>)
    requires parent in st.instances && Sound(reg, st, parent)
    ensures var s := SpawnAll(reg, st, parent, specs);
            && StepKeeps(reg, st, s, parent) && s.store.instances[parent] == st.instances[parent]
            && s.store.executions == st.executions && s.store.signals == st.signals
    decreases |specs|
  {
    hide Sound, Evolves;
    EvolvesRefl(reg, st, parent);
    if specs != [] {
      var spec := specs[0];
      if CheckSpawn(spec).None? && GetGraph(reg, spec.graph).Ok? && spec.entityId !in st.instances {
        var child := NewRecord(ChildRequest(parent, spec), reg.graphs[spec.graph].entryNodeId);
        var st' := WithRecord(st, spec.entityId, child);
        BirthStep(reg, st, parent, spec.entityId, child);
        SpawnAllStep(reg, st', parent, specs[1..]);
        EvolvesTrans(reg, st, st', SpawnAll(reg, st', parent, specs[1..]).store, parent);
      }
    }
  }

  /** The compute commit is a forward commit whose frame is the one its entry stands for. */
  lemma ComputeCommitFits(reg: Registry, st: Store, id: string, g: GraphSpec, node: Node, snap: Snapshot,
          next: string, mutation: Mutation)
    requires At(reg, st, id, g, node) && st.instances[id].status == Running
    ensures var rec := st.instances[id];
            var c := ComputeCommit(st, id, g, node, snap, next, mutation, HopKeyOf(st, id, node.nodeId));
            ForwardCommit(g, id, rec, c) && ForwardEntry(id, NewEntry(rec, c), st.signals)
  {
    hide Sound, ValidRegistry, ForwardEntries, OnPath, Trail, GetGraph, WellFormed, Acyclic, Committed;
    var rec := st.instances[id];
    var key := HopKeyOf(st, id, node.nodeId);
    var c := ComputeCommit(st, id, g, node, snap, next, mutation, key);
    ActiveFacts(reg, st, id);
    GraphIsGood(reg, rec.graph);
    AheadIsNew(g, rec.journal, rec.currentNode);
    HopIsNew(id, rec.journal, st.signals, node.nodeId, rec.sequence, c.kind);
    CommittedFields(rec, c);
    var e := NewEntry(rec, c);
    assert e.outputSequence == rec.sequence + 1 && e.outputSnapshot.payload == snap.payload;
    assert Pushes(g, e) <==> node.kind == Compute && node.compensatorUnitId != "";
  }

  lemma ResolvedEdge(reg: Registry, g: GraphSpec, node: Node, snap: Snapshot, signal: Option<string>)
    requires node.nodeId in g.nodes && g.nodes[node.nodeId] == node
    ensures var r := ResolveTransitions(reg.eval, node, snap, signal); r.Ok? ==> Edge(g, node.nodeId, r.value)
  {
    ResolvedIsTarget(reg.eval, node, snap, signal);
  }

  predicate Computing(node: Node)
  {
    node.kind == Compute || node.kind == KindUnspecified
  }

  lemma ComputeCommitStep(reg: Registry, st: Store, id: string, g: GraphSpec, node: Node, snap: Snapshot,
          next: string, mutation: Mutation)
    requires At(reg, st, id, g, node) && st.instances[id].status == Running && Edge(g, node.nodeId, next)
    ensures var c := ComputeCommit(st, id, g, node, snap, next, mutation, HopKeyOf(st, id, node.nodeId));
            var st' := CommitHop(st, id, c);
            && Sound(reg, st', id) && Evolves(reg, st, st', id) && st'.calls == st.calls
            && Trail(st'.instances[id].journal) == Trail(st.instances[id].journal) + [node.nodeId]
            && (st'.instances[id].status == Running ==> st'.instances[id].currentNode == next)
            && st'.instances[id].status == StatusAt(g, next) && st'.instances[id].graph == st.instances[id].graph
  {
    hide Sound, Evolves, ValidRegistry, ForwardCommit, ForwardEntry, Trail, Committed;
    var rec := st.instances[id];
    var c := ComputeCommit(st, id, g, node, snap, next, mutation, HopKeyOf(st, id, node.nodeId));
    GraphIsGood(reg, rec.graph);
    ComputeCommitFits(reg, st, id, g, node, snap, next, mutation);
    CommittedFields(rec, c);
    JournalGrows(g, rec.journal, NewEntry(rec, c));
    if c.nextStatus == Running {
      MovingCommit(reg, st, id, g, c);
    } else {
      EndingCommit(reg, st, id, g, c);
    }
  }

  lemma WaitIfWaitNodeStep(reg: Registry, w: World, st: Store, id: string, g: GraphSpec, next: string)
    requires Sound(reg, st, id)
    requires st.instances[id].status == Running ==> st.instances[id].currentNode == next
    requires forall n :: n in g.nodes ==> g.nodes[n].nodeId == n
    ensures StepKeeps(reg, st, WaitIfWaitNode(w, st, id, g, next), id)
    ensures WaitIfWaitNode(w, st, id, g, next).error.None?
    ensures WaitIfWaitNode(w, st, id, g, next).store.instances[id].status in {Waiting, st.instances[id].status}
    ensures WaitIfWaitNode(w, st, id, g, next).store.instances[id].journal == st.instances[id].journal
  {
    if st.instances[id].status == Running && next in g.nodes && g.nodes[next].kind == Wait {
      EnterWaitStep(reg, w, st, id, g.nodes[next], WaitSignalOf(g.nodes[next]));
      EnterWaitStore(w, st, id, g.nodes[next], WaitSignalOf(g.nodes[next]));
    }
  }

  /** The commit at the end of a compute hop, and the wait that may follow it. */
  lemma CommitAndWait(reg: Registry, w: World, st0: Store, st: Store, id: string, g: GraphSpec, node: Node,
          snap: Snapshot, next: string, mutation: Mutation)
    requires At(reg, st, id, g, node) && st.instances[id].status == Running && Edge(g, node.nodeId, next)
    requires id in st0.instances && st0.instances[id] == st.instances[id] && Evolves(reg, st0, st, id)
    ensures var c := ComputeCommit(st0, id, g, node, snap, next, mutation, HopKeyOf(st0, id, node.nodeId));
            var s := WaitIfWaitNode(w, CommitHop(st, id, c), id, g, next);
            && Sound(reg, s.store, id) && Evolves(reg, st0, s.store, id) && s.store.calls == st.calls && s.error.None?
            && Trail(s.store.instances[id].journal) == Trail(st.instances[id].journal) + [node.nodeId]
  {
    hide Sound, Evolves, ValidRegistry, CommitHop, WaitIfWaitNode, Trail, GetGraph, WellFormed;
    var c := ComputeCommit(st, id, g, node, snap, next, mutation, HopKeyOf(st, id, node.nodeId));
    var st' := CommitHop(st, id, c);
    GraphIsGood(reg, st.instances[id].graph);
    ComputeCommitStep(reg, st, id, g, node, snap, next, mutation);
    WaitIfWaitNodeStep(reg, w, st', id, g, next);
    var st'' := WaitIfWaitNode(w, st', id, g, next).store;
    EvolvesTrans(reg, st, st', st'', id);
    EvolvesTrans(reg, st0, st, st'', id);
  }

  lemma CommitComputeStep(reg: Registry, w: World, st: Store, id: string, g: GraphSpec, node: Node, snap: Snapshot,
          mutation: Mutation)
    requires At(reg, st, id, g, node) && st.instances[id].status == Running && Computing(node)
    ensures StepKeeps(reg, st,
                       CommitCompute(reg, w, st, id, g, node, snap, mutation, HopKeyOf(st, id, node.nodeId)), id)
  {
    hide Sound, Evolves, ValidRegistry, CommitHop, WaitIfWaitNode, SpawnAll, ResolveTransitions;
    var rec, key := st.instances[id], HopKeyOf(st, id, node.nodeId);
    var out := snap.(sequence := rec.sequence + 1);
    var next := Resolve(reg.eval, g, node.nodeId, out);
    if next == Err(NoTransition) {
      FailNoTransitionStep(reg, st, id, g, node);
    } else if next.Ok? {
      ResolvedEdge(reg, g, node, out, None);
      SpawnAndCommitStep(reg, w, st, id, g, node, out, next.value, mutation);
    }
    EvolvesRefl(reg, st, id);
  }

  lemma EvolvesRefl(reg: Registry, st: Store, id: string)
    ensures Evolves(reg, st, st, id)
  {
  }

  lemma SpawnAndCommitStep(reg: Registry, w: World, st: Store, id: string, g: GraphSpec, node: Node, out: Snapshot,
          next: string, mutation: Mutation)
    requires At(reg, st, id, g, node) && st.instances[id].status == Running && Edge(g, node.nodeId, next)
    ensures var key := HopKeyOf(st, id, node.nodeId);
            var spawned := if mutation.SpawnIntent? then SpawnAll(reg, st, id, mutation.specs) else Done(st);
            && StepKeeps(reg, st, spawned, id)
            && (spawned.error.None? ==>
                  var committed := CommitHop(spawned.store, id,
                                               ComputeCommit(st, id, g, node, out, next, mutation, key));
                  StepKeeps(reg, st, WaitIfWaitNode(w, committed, id, g, next), id))
  {
    hide Sound, Evolves, ValidRegistry, CommitHop, WaitIfWaitNode, SpawnAll;
    EvolvesRefl(reg, st, id);
    if mutation.SpawnIntent? {
      SpawnAllStep(reg, st, id, mutation.specs);
      var st' := SpawnAll(reg, st, id, mutation.specs).store;
      CommitAndWait(reg, w, st, st', id, g, node, out, next, mutation);
    } else {
      CommitAndWait(reg, w, st, st, id, g, node, out, next, mutation);
    }
  }
}
