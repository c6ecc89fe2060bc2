/** Which children a spawn leaves behind, and what a unit gets that repeats a failed one. */
module Spawns {
  import opened Wrappers
  import opened Entities
  import opened Graphs
  import opened Routing
  import opened Conditions
  import opened Lines
  import opened Registries
  import opened Scheduling
  import opened Steps
  import opened InstanceSteps
  import opened Runs
  import opened Ticks
  import opened Retries

  /** The specification is complete and its graph registered. */
  predicate Startable(reg: Registry, spec: SpawnSpec)
  {
    && spec.entityId != "" && spec.typeKey.entityType != "" && spec.typeKey.schemaVersion != ""
    && spec.graph.graphId != "" && spec.graph.version != "" && spec.graph in reg.graphs
  }

  /** Specification k can be started: its id is taken neither in the store nor by one before it. */
  ghost predicate GoodSpec(reg: Registry, st: Store, specs: seq<SpawnSpec>, k: int)
  {
    && 0 <= k < |specs| && Startable(reg, specs[k]) && specs[k].entityId !in st.instances
    && forall i :: 0 <= i < k ==> specs[i].entityId != specs[k].entityId
  }

  /** k specifications are good, and the next one, if any, is not. */
  ghost predicate StopsAt(reg: Registry, st: Store, specs: seq<SpawnSpec>, k: int)
  {
    0 <= k <= |specs| && (forall i :: 0 <= i < k ==> GoodSpec(reg, st, specs, i)) && !GoodSpec(reg, st, specs, k)
  }

  /** What is wrong with a bad specification. */
  function SpecError(reg: Registry, spec: SpawnSpec): DagError
  {
    if spec.entityId == "" then InvalidSpawn
    else if spec.typeKey.entityType == "" || spec.typeKey.schemaVersion == "" then InvalidEntityType
    else if spec.graph.graphId == "" || spec.graph.version == "" then InvalidSpawn
    else if spec.graph !in reg.graphs then InvalidGraph
    else InstanceAlreadyExists
  }

  function ChildRecord(reg: Registry, parent: string, spec: SpawnSpec): Record
    requires Startable(reg, spec)
  {
    Record(spec.typeKey, Running, 0, reg.graphs[spec.graph].entryNodeId, spec.graph, Some(parent), spec.correlationId,
           Snapshot(spec.typeKey, 0, spec.payload), [], [], None)
  }

  /** The store has the children of the first k specifications more, each newborn, and nothing else. */
  ghost predicate Born(reg: Registry, st: Store, st': Store, parent: string, specs: seq<SpawnSpec>, k: int)
  {
    && 0 <= k <= |specs| && st' == st.(instances := st'.instances)
    && (forall x :: x in st.instances ==> x in st'.instances && st'.instances[x] == st.instances[x])
    && (forall x :: x in st'.instances && x !in st.instances ==> exists i :: 0 <= i < k && specs[i].entityId == x)
    && (forall i :: 0 <= i < k ==>
          && Startable(reg, specs[i]) && specs[i].entityId !in st.instances && specs[i].entityId in st'.instances
          && st'.instances[specs[i].entityId] == ChildRecord(reg, parent, specs[i]))
  }

  lemma GoodAfterFirst(reg: Registry, st: Store, st': Store, parent: string, specs: seq<SpawnSpec>, k: int)
    requires GoodSpec(reg, st, specs, 0) && k >= 0
    requires st' == WithRecord(st, specs[0].entityId, ChildRecord(reg, parent, specs[0]))
    ensures GoodSpec(reg, st', specs[1..], k) <==> GoodSpec(reg, st, specs, k + 1)
  {
    if GoodSpec(reg, st', specs[1..], k) {
      forall i | 0 <= i < k + 1
        ensures specs[i].entityId != specs[k + 1].entityId
      {
        assert i > 0 ==> specs[i] == specs[1..][i - 1];
      }
    }
  }

  lemma OthersAfterFirst(reg: Registry, st: Store, st': Store, st'': Store, parent: string, specs: seq<SpawnSpec>,
          k: int)
    requires GoodSpec(reg, st, specs, 0)
    requires st' == WithRecord(st, specs[0].entityId, ChildRecord(reg, parent, specs[0]))
    requires Born(reg, st', st'', parent, specs[1..], k)
    ensures forall x :: x in st.instances ==> x in st''.instances && st''.instances[x] == st.instances[x]
    ensures forall x :: x in st''.instances && x !in st.instances ==>
              exists i :: 0 <= i < k + 1 && specs[i].entityId == x
  {
    hide Startable, ChildRecord;
    forall x | x in st''.instances && x !in st.instances
      ensures exists i :: 0 <= i < k + 1 && specs[i].entityId == x
    {
      if x in st'.instances {
        assert specs[0].entityId == x;
      } else {
        var i :| 0 <= i < k && specs[1..][i].entityId == x;
        assert specs[i + 1].entityId == x;
      }
    }
  }

  lemma BornAfterFirst(reg: Registry, st: Store, st': Store, st'': Store, parent: string, specs: seq<SpawnSpec>, k: int)
    requires GoodSpec(reg, st, specs, 0)
    requires st' == WithRecord(st, specs[0].entityId, ChildRecord(reg, parent, specs[0]))
    requires Born(reg, st', st'', parent, specs[1..], k)
    ensures Born(reg, st, st'', parent, specs, k + 1)
  {
    hide Startable;
    OthersAfterFirst(reg, st, st', st'', parent, specs, k);
    forall i | 0 <= i < k + 1
      ensures Startable(reg, specs[i]) && specs[i].entityId !in st.instances && specs[i].entityId in st''.instances
              && st''.instances[specs[i].entityId] == ChildRecord(reg, parent, specs[i])
    {
      assert i > 0 ==> specs[i] == specs[1..][i - 1];
    }
  }

  lemma SpawnFirst(reg: Registry, st: Store, parent: string, specs: seq<SpawnSpec>)
    ensures Born(reg, st, st, parent, specs, 0)
    ensures GoodSpec(reg, st, specs, 0) ==>
      SpawnAll(reg, st, parent, specs)
      == SpawnAll(reg, WithRecord(st, specs[0].entityId, ChildRecord(reg, parent, specs[0])), parent, specs[1..])
    ensures !GoodSpec(reg, st, specs, 0) ==>
      SpawnAll(reg, st, parent, specs) == if specs == [] then Done(st) else Fail(st, SpecError(reg, specs[0]))
  {
  }

  /** A spawn starts the children of its specifications up to the first bad one, and leaves them behind
      when it fails there. */
  lemma {:induction false} SpawnStopsAt(reg: Registry, st: Store, parent: string, specs: seq<SpawnSpec>)
    returns (k: nat)
    ensures var s := SpawnAll(reg, st, parent, specs);
            && StopsAt(reg, st, specs, k) && Born(reg, st, s.store, parent, specs, k)
            && s.error == if k == |specs| then None else Some(SpecError(reg, specs[k]))
    decreases |specs|
  {
    hide Born;
    k := 0;
    SpawnFirst(reg, st, parent, specs);
    if specs != [] {
      var spec := specs[0];
      if GoodSpec(reg, st, specs, 0) {
        var st' := WithRecord(st, spec.entityId, ChildRecord(reg, parent, spec));
        var rest := SpawnStopsAt(reg, st', parent, specs[1..]);
        k := rest + 1;
        BornAfterFirst(reg, st, st', SpawnAll(reg, st', parent, specs[1..]).store, parent, specs, rest);
        forall i | 0 <= i < k
          ensures GoodSpec(reg, st, specs, i)
        {
          if i > 0 {
            GoodAfterFirst(reg, st, st', parent, specs, i - 1);
          }
        }
        GoodAfterFirst(reg, st, st', parent, specs, rest);
      }
    }
  }

  /** A failed spawn leaves the store as it was exactly when its very first specification is bad. */
  lemma FailedSpawnIsClean(reg: Registry, st: Store, parent: string, specs: seq<SpawnSpec>)
    requires SpawnAll(reg, st, parent, specs).error.Some?
    ensures SpawnAll(reg, st, parent, specs).store == st <==> !GoodSpec(reg, st, specs, 0)
  {
    hide SpawnAll;
    var k := SpawnStopsAt(reg, st, parent, specs);
    if GoodSpec(reg, st, specs, 0) {
      assert k > 0 && specs[0].entityId in SpawnAll(reg, st, parent, specs).store.instances;
    }
  }

  // ---------- the turn of a unit that spawns ----------

  /** The unit answers this snapshot with the spawn, and routing from the node finds a target. */
  ghost predicate AnswersSpawn(reg: Registry, w: World, id: string, node: Node, snap: Snapshot, specs: seq<SpawnSpec>)
  {
    && w.execute(id, node.unitId, snap) == Executed(Some(SpawnIntent(specs)))
    && var out := snap.(sequence := snap.sequence + 1);
       exists i :: Takes(reg.eval, node.transitions, out, None, i)
  }

  /** If not all specifications are good, the turn fails with the error of the first bad one: its
      instance stays as it was, and the children before the bad one stay. */
  lemma FailedSpawnTurn(reg: Registry, w: World, st: Store, id: string, g: GraphSpec, node: Node, specs: seq<SpawnSpec>)
    returns (k: nat)
    requires ReadyToCompute(reg, st, id, g, node) && AnswersSpawn(reg, w, id, node, st.instances[id].snapshot, specs)
    requires exists i :: 0 <= i < |specs| && !GoodSpec(reg, st, specs, i)
    ensures var s := ProcessInstance(reg, w, st, id);
            && StopsAt(reg, st, specs, k) && k < |specs| && s.error == Some(SpecError(reg, specs[k]))
            && Born(reg, st, s.store.(executions := st.executions), id, specs, k)
  {
    hide Sound, ValidRegistry, AdvanceAfterCommit, SpawnAll, CommitHop, WaitIfWaitNode, ResolveTransitions, Born;
    NeverResumed(reg, st, id, g, node);
    SequenceAgrees(reg, st, id);
    RoutingMeans(reg.eval, node, st.instances[id].snapshot.(sequence := st.instances[id].sequence + 1), None);
    var rec, key := st.instances[id], HopKeyOf(st, id, node.nodeId);
    var started := CreateExecution(st, key, Execution(node.nodeId, rec.sequence, ExecutionRunning, 0));
    k := SpawnStopsAt(reg, started, id, specs);
    SameSpecs(reg, st, started, specs, k);
    SameBirths(reg, st, started, SpawnAll(reg, started, id, specs).store, id, specs, k);
  }

  lemma SequenceAgrees(reg: Registry, st: Store, id: string)
    requires id in st.instances && Sound(reg, st, id)
    ensures st.instances[id].snapshot.sequence == st.instances[id].sequence
  {
  }

  lemma SameSpecs(reg: Registry, st: Store, st': Store, specs: seq<SpawnSpec>, k: int)
    requires st'.instances == st.instances && StopsAt(reg, st', specs, k)
    ensures StopsAt(reg, st, specs, k)
  {
    assert forall i :: GoodSpec(reg, st, specs, i) <==> GoodSpec(reg, st', specs, i);
  }

  lemma SameBirths(reg: Registry, st: Store, started: Store, st': Store, parent: string, specs: seq<SpawnSpec>, k: int)
    requires started == st.(executions := started.executions) && Born(reg, started, st', parent, specs, k)
    ensures Born(reg, st, st'.(executions := st.executions), parent, specs, k)
    ensures parent in st.instances ==> parent in st'.instances && st'.instances[parent] == st.instances[parent]
  {
  }

  /** In every tick among the calls the unit answers with this spawn. */
  ghost predicate KeepsSpawning(reg: Registry, calls: seq<Call>, id: string, node: Node, snap: Snapshot,
          specs: seq<SpawnSpec>)
  {
    forall i :: 0 <= i < |calls| && calls[i].Tick? ==> AnswersSpawn(reg, calls[i].w, id, node, snap, specs)
  }

  /** The first specification is fine, but its child exists already: what a failed spawn has left. */
  ghost predicate ChildIsThere(reg: Registry, st: Store, specs: seq<SpawnSpec>)
  {
    specs != [] && Startable(reg, specs[0]) && specs[0].entityId in st.instances
  }

  lemma RepeatedTurn(reg: Registry, w: World, st: Store, id: string, g: GraphSpec, node: Node, specs: seq<SpawnSpec>)
    requires ReadyToCompute(reg, st, id, g, node) && AnswersSpawn(reg, w, id, node, st.instances[id].snapshot, specs)
    requires ChildIsThere(reg, st, specs)
    ensures var s := ProcessInstance(reg, w, st, id);
            s.error == Some(InstanceAlreadyExists) && s.store.instances == st.instances
  {
    hide ReadyToCompute, Startable, ProcessInstance, AnswersSpawn;
    assert !GoodSpec(reg, st, specs, 0);
    var k := FailedSpawnTurn(reg, w, st, id, g, node, specs);
    assert k == 0 by {
      assert k > 0 ==> GoodSpec(reg, st, specs, 0);
    }
    NoBirths(reg, st, ProcessInstance(reg, w, st, id).store.(executions := st.executions), id, specs);
    TakenSpec(reg, specs[0]);
  }

  lemma TakenSpec(reg: Registry, spec: SpawnSpec)
    requires Startable(reg, spec)
    ensures SpecError(reg, spec) == InstanceAlreadyExists
  {
  }

  lemma NoBirths(reg: Registry, st: Store, st': Store, parent: string, specs: seq<SpawnSpec>)
    requires Born(reg, st, st', parent, specs, 0)
    ensures st'.instances == st.instances
  {
  }

  lemma RepeatedTick(reg: Registry, w: World, st: Store, id: string, g: GraphSpec, node: Node, specs: seq<SpawnSpec>)
    requires ReadyToCompute(reg, st, id, g, node) && Inv(reg, st) && ValidWorld(w) && ChildIsThere(reg, st, specs)
    requires AnswersSpawn(reg, w, id, node, st.instances[id].snapshot, specs)
    ensures var s := RunOnce(reg, w, st);
            && id in s.store.instances && s.store.instances[id] == st.instances[id]
            && if HasTurn(reg, w, st, id) then s.error == Some(InstanceAlreadyExists) else Starved(st, s, id)
  {
    hide Inv, Sound, ValidRegistry, ValidWorld, ProcessTimeouts, ProcessAll, ProcessInstance, TurnIn, SameExecutions,
         AnswersSpawn, Startable;
    assert ValidRegistry(reg);
    var at := TickReaches(reg, w, st, id);
    if HasTurn(reg, w, st, id) {
      StillReady(reg, st, at, id, g, node);
      RepeatedTurn(reg, w, at, id, g, node, specs);
    }
  }

  /** One more call of any kind but a cancellation. */
  lemma RepeatedCall(reg: Registry, st: Store, call: Call, id: string, g: GraphSpec, node: Node, specs: seq<SpawnSpec>)
    requires ReadyToCompute(reg, st, id, g, node) && Inv(reg, st) && ChildIsThere(reg, st, specs) && call != Cancel(id)
    requires call.Tick? ==> ValidWorld(call.w) && AnswersSpawn(reg, call.w, id, node, st.instances[id].snapshot, specs)
    ensures var st' := Apply(reg, st, call).store;
            id in st'.instances && st'.instances[id] == st.instances[id] && ChildIsThere(reg, st', specs)
  {
    hide Inv, Sound, ValidRegistry, ValidWorld, RunOnce, HasTurn, SameExecutions, AnswersSpawn, Startable,
         StartInstance, DeliverSignal, CancelInstance, Starved;
    if call.Tick? {
      RepeatedTick(reg, call.w, st, id, g, node, specs);
      RunOnceStep(reg, call.w, st);
    } else {
      CallPasses(reg, st, call, id);
    }
  }

  lemma {:induction false} RepeatedRun(reg: Registry, st: Store, more: seq<Call>, id: string, g: GraphSpec, node: Node,
          specs: seq<SpawnSpec>)
    requires Inv(reg, st) && ValidCalls(more) && ReadyToCompute(reg, st, id, g, node) && Cancel(id) !in more
    requires ChildIsThere(reg, st, specs) && KeepsSpawning(reg, more, id, node, st.instances[id].snapshot, specs)
    ensures var st' := RunFrom(reg, st, more);
            && Inv(reg, st') && id in st'.instances && st'.instances[id] == st.instances[id]
            && ChildIsThere(reg, st', specs)
    decreases |more|
  {
    hide Inv, Sound, ValidRegistry, ValidWorld, Apply, AnswersSpawn, Startable;
    assert ValidRegistry(reg);
    if more != [] {
      var n := |more| - 1;
      assert forall i :: 0 <= i < n ==> more[..n][i] == more[i];
      RepeatedRun(reg, st, more[..n], id, g, node, specs);
      var st' := RunFrom(reg, st, more[..n]);
      StillReady(reg, st, st', id, g, node);
      ApplyStep(reg, st', more[n]);
      RepeatedCall(reg, st', more[n], id, g, node, specs);
    }
  }

  /** The turn in which the spawn fails leaves the first child behind, whatever was wrong. */
  lemma LeavesFirstChild(reg: Registry, w: World, st: Store, id: string, g: GraphSpec, node: Node,
          specs: seq<SpawnSpec>)
    requires ReadyToCompute(reg, st, id, g, node) && Inv(reg, st) && ValidWorld(w) && HasTurn(reg, w, st, id)
    requires AnswersSpawn(reg, w, id, node, st.instances[id].snapshot, specs)
    requires specs != [] && Startable(reg, specs[0]) && exists i :: 0 <= i < |specs| && !GoodSpec(reg, st, specs, i)
    ensures var s := RunOnce(reg, w, st);
            && s.error.Some? && id in s.store.instances && s.store.instances[id] == st.instances[id]
            && ChildIsThere(reg, s.store, specs)
  {
    hide Inv, Sound, ValidRegistry, ValidWorld, RunOnce, ProcessInstance, HasTurn, SameExecutions, AnswersSpawn,
         Startable;
    assert ValidRegistry(reg);
    var at := TickReaches(reg, w, st, id);
    StillReady(reg, st, at, id, g, node);
    var bad :| 0 <= bad < |specs| && !GoodSpec(reg, st, specs, bad);
    assert !GoodSpec(reg, at, specs, bad);
    var k := FailedSpawnTurn(reg, w, at, id, g, node, specs);
    assert GoodSpec(reg, at, specs, 0) || specs[0].entityId in at.instances;
  }

  /** A unit answers a snapshot always with the same spawn: the first child is fine, some other is not.
      The first turn fails and leaves that child behind, and from then on nothing helps: whatever
      calls follow, short of a cancellation, the parent stays as it is, and every turn it gets ends
      the tick with the error that the first child exists already. */
  lemma FailedSpawnIsStuck(reg: Registry, calls: seq<Call>, first: World, more: seq<Call>, w: World, st: Store,
          id: string, g: GraphSpec, node: Node, specs: seq<SpawnSpec>)
    requires ValidCalls(calls) && st == Run(reg, calls) && ReadyToCompute(reg, st, id, g, node)
    requires specs != [] && Startable(reg, specs[0]) && exists i :: 0 <= i < |specs| && !GoodSpec(reg, st, specs, i)
    requires ValidWorld(first) && HasTurn(reg, first, st, id) && ValidCalls(more) && Cancel(id) !in more
    requires ValidWorld(w)
    requires KeepsSpawning(reg, [Tick(first)] + more + [Tick(w)], id, node, st.instances[id].snapshot, specs)
    ensures RunOnce(reg, first, st).error.Some?
    ensures var st' := RunFrom(reg, RunOnce(reg, first, st).store, more);
            && id in st'.instances && st'.instances[id] == st.instances[id] && specs[0].entityId in st'.instances
            && if HasTurn(reg, w, st', id) then RunOnce(reg, w, st').error == Some(InstanceAlreadyExists)
               else Starved(st', RunOnce(reg, w, st'), id)
  {
    hide Inv, ValidRegistry, ValidWorld, RunOnce, RunFrom, HasTurn, AnswersSpawn, Startable, GoodSpec, Starved;
    assert ValidRegistry(reg);
    ReachableInv(reg, calls);
    var all := [Tick(first)] + more + [Tick(w)];
    assert all[0] == Tick(first) && all[|more| + 1] == Tick(w);
    LeavesFirstChild(reg, first, st, id, g, node, specs);
    var st1 := RunOnce(reg, first, st).store;
    RunOnceStep(reg, first, st);
    StillReady(reg, st, st1, id, g, node);
    assert forall i :: 0 <= i < |more| ==> all[i + 1] == more[i];
    RepeatedRun(reg, st1, more, id, g, node, specs);
    var st' := RunFrom(reg, st1, more);
    StillReady(reg, st1, st', id, g, node);
    RepeatedTick(reg, w, st', id, g, node, specs);
  }
}
