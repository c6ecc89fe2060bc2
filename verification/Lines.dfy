/**
 Instance lines: what the line store holds, and what each store operation does to it
 (pkg/dag/memory/linestore.go), as functions on the value `Store`.

 The order in which Go ranges over a map is an argument: any enumeration of the keys.
 Timestamps that are only written (created, updated, committed) are left out.
 */
module Lines {
  import opened Wrappers
  import opened Entities
  import opened Graphs
  import opened Idempotency

  datatype Status = Running | Waiting | Compensating | Completed | Failed | Compensated | Cancelled

  datatype JournalKind = NodeCommitted | SignalReceived | SpawnedChildren | JoinCommitted | CompensationCommitted

  datatype GraphVersion = GraphVersion(graphId: string, version: string)

  datatype Frame = Frame(
    nodeId: string,
    unitId: string,
    compensatorUnitId: string,
    forwardSequence: int,
    forwardSnapshot: Option<Payload>)

  datatype Entry = Entry(
    journalSequence: int,
    kind: JournalKind,
    nodeId: string,
    inputSequence: int,
    outputSequence: int,
    outputSnapshot: Snapshot,
    key: Key,
    signalName: string,
    deliveryId: string,
    failureReason: string,
    spawned: seq<string>)

  datatype WaitRecord = WaitRecord(
    deadline: Option<int>,
    onTimeoutTarget: string,
    signalName: string,
    acceptedSignals: seq<string>)

  datatype Record = Record(
    typeKey: TypeKey,
    status: Status,
    sequence: int,
    currentNode: string,
    graph: GraphVersion,
    parent: Option<string>,
    correlationId: string,
    snapshot: Snapshot,
    stack: seq<Frame>,
    journal: seq<Entry>,
    waiting: Option<WaitRecord>)

  datatype ExecutionStatus = ExecutionRunning | ExecutionCommitted

  datatype Execution = Execution(nodeId: string, inputSequence: int, status: ExecutionStatus, attempt: int)

  datatype HopCommit = HopCommit(
    nodeId: string,
    inputSequence: int,
    key: Key,
    outputSnapshot: Option<Snapshot>,
    nextNode: string,
    nextStatus: Status,
    frames: seq<Frame>,
    spawned: seq<string>,
    kind: JournalKind,
    signalName: string,
    deliveryId: string,
    failureReason: string)

  /** One call of a compensator, as the outside world saw it. */
  datatype CompensatorCall = CompensatorCall(
    entityId: string,
    key: Key,
    frame: Frame,
    attempt: int,
    payload: Option<Payload>,
    ok: bool)

  /** `calls` is no field of the source: it records the compensator calls made so far. */
  datatype Store = Store(
    instances: map<string, Record>,
    executions: map<Key, Execution>,
    signals: set<Key>,
    calls: seq<CompensatorCall>)

  const EMPTY_STORE := Store(map[], map[], {}, [])

  datatype StartRequest = StartRequest(
    entityId: string,
    typeKey: TypeKey,
    payload: Option<Payload>,
    graph: GraphVersion,
    parent: Option<string>,
    correlationId: string)

  // ---------- one record ----------

  function NewRecord(req: StartRequest, entryNode: string): Record
  {
    Record(req.typeKey, Running, 0, entryNode, req.graph, req.parent, req.correlationId,
           Snapshot(req.typeKey, 0, req.payload), [], [], None)
  }

  predicate IsJournaled(journal: seq<Entry>, key: Key, kind: JournalKind)
  {
    exists i :: 0 <= i < |journal| && journal[i].key == key && journal[i].kind == kind
  }

  function PopStack(rec: Record): Record
  {
    if rec.stack == [] then rec else rec.(stack := rec.stack[..|rec.stack| - 1])
  }

  /** A repeated compensation commit pops the frame it names if that frame is still on top. */
  function ReconcilePop(rec: Record, c: HopCommit): Record
  {
    if rec.stack != [] && rec.stack[|rec.stack| - 1].nodeId == c.nodeId
       && rec.stack[|rec.stack| - 1].forwardSequence == c.inputSequence
    then PopStack(rec)
    else rec
  }

  /** The next sequence number and a snapshot stamped with it. */
  function Advanced(rec: Record, snap: Snapshot): Record
  {
    rec.(sequence := rec.sequence + 1, snapshot := snap.(sequence := rec.sequence + 1))
  }

  function AdvancedIf(rec: Record, snap: Option<Snapshot>): Record
  {
    if snap.Some? then Advanced(rec, snap.value) else rec
  }

  /** What a commit does to the instance, by journal kind. */
  function Moved(rec: Record, c: HopCommit): Record
  {
    match c.kind
    case SignalReceived =>
      AdvancedIf(rec, c.outputSnapshot).(status := c.nextStatus, currentNode := c.nextNode, waiting := None)
    case JoinCommitted =>
      (if c.outputSnapshot.Some? then Advanced(rec, c.outputSnapshot.value) else rec.(sequence := rec.sequence + 1))
      .(status := c.nextStatus, currentNode := c.nextNode)
    case CompensationCommitted =>
      PopStack(rec)
    case _ =>
      AdvancedIf(rec, c.outputSnapshot).(status := c.nextStatus, currentNode := c.nextNode)
  }

  function EntryFor(rec: Record, c: HopCommit): Entry
  {
    Entry(|rec.journal| + 1, c.kind, c.nodeId, c.inputSequence, rec.sequence, rec.snapshot, c.key,
          c.signalName, c.deliveryId, c.failureReason, c.spawned)
  }

  function Committed(rec: Record, c: HopCommit): Record
  {
    var moved := Moved(rec, c);
    moved.(stack := moved.stack + c.frames, journal := moved.journal + [EntryFor(moved, c)])
  }

  // ---------- the store ----------

  function WithRecord(st: Store, id: string, rec: Record): Store
  {
    st.(instances := st.instances[id := rec])
  }

  function MarkCommitted(executions: map<Key, Execution>, key: Key): map<Key, Execution>
  {
    if key in executions then executions[key := executions[key].(status := ExecutionCommitted)] else executions
  }

  function CommitHop(st: Store, id: string, c: HopCommit): (r: Store)
    requires id in st.instances
    ensures r.instances.Keys == st.instances.Keys
  {
    var rec := st.instances[id];
    if IsJournaled(rec.journal, c.key, c.kind) then
      if c.kind == CompensationCommitted then WithRecord(st, id, ReconcilePop(rec, c)) else st
    else
      WithRecord(st, id, Committed(rec, c)).(executions := MarkCommitted(st.executions, c.key))
  }

  /** An existing record wins over the new one. */
  function CreateExecution(st: Store, key: Key, e: Execution): (r: Store)
    ensures key in r.executions && r.instances == st.instances
  {
    if key in st.executions then st else st.(executions := st.executions[key := e])
  }

  function SetAttempt(st: Store, key: Key, attempt: int): Store
  {
    if key in st.executions then st.(executions := st.executions[key := st.executions[key].(attempt := attempt)])
    else st
  }

  function SetStatus(st: Store, id: string, status: Status): (r: Store)
    requires id in st.instances
    ensures r.instances.Keys == st.instances.Keys
  {
    WithRecord(st, id, st.instances[id].(status := status))
  }

  function SetWaiting(st: Store, id: string, nodeId: string, w: WaitRecord): (r: Store)
    requires id in st.instances
    ensures r.instances.Keys == st.instances.Keys
  {
    var rec := st.instances[id].(waiting := Some(w), status := Waiting);
    WithRecord(st, id, if nodeId != "" then rec.(currentNode := nodeId) else rec)
  }

  function AdvanceNode(st: Store, id: string, nodeId: string, status: Status): (r: Store)
    requires id in st.instances
    ensures r.instances.Keys == st.instances.Keys
  {
    WithRecord(st, id, st.instances[id].(currentNode := nodeId, status := status))
  }

  // ---------- ranging over the instances ----------

  predicate HasPrefix(s: string, prefix: string)
  {
    prefix <= s
  }

  /** order enumerates keys: every key once. */
  ghost predicate Enumerates(order: seq<string>, keys: set<string>)
  {
    Distinct(order) && forall id {:trigger id in order} :: id in order <==> id in keys
  }

  function RunnableIn(st: Store, order: seq<string>): seq<string>
  {
    if order == [] then []
    else
      var n := |order| - 1;
      var id := order[n];
      RunnableIn(st, order[..n]) +
      if id in st.instances && (st.instances[id].status == Running || st.instances[id].status == Compensating)
      then [id] else []
  }

  datatype Due = Due(entityId: string, waiting: WaitRecord)

  predicate IsDue(rec: Record, now: int)
  {
    && rec.status == Waiting && rec.waiting.Some?
    && rec.waiting.value.deadline.Some? && now >= rec.waiting.value.deadline.value
  }

  function DueIn(st: Store, order: seq<string>, now: int): seq<Due>
  {
    if order == [] then []
    else
      var n := |order| - 1;
      var id := order[n];
      DueIn(st, order[..n], now) +
      if id in st.instances && IsDue(st.instances[id], now) then [Due(id, st.instances[id].waiting.value)] else []
  }

  predicate IsChild(rec: Record, parent: string)
  {
    rec.parent == Some(parent)
  }

  /** The first child of the parent with this correlation id, in the order of the range. */
  function ChildIn(st: Store, order: seq<string>, parent: string, correlationId: string): Option<string>
  {
    if order == [] then None
    else if order[0] in st.instances && IsChild(st.instances[order[0]], parent)
            && st.instances[order[0]].correlationId == correlationId
    then Some(order[0])
    else ChildIn(st, order[1..], parent, correlationId)
  }

  function ChildrenIn(st: Store, order: seq<string>, parent: string, prefix: string): seq<string>
  {
    if order == [] then []
    else
      var n := |order| - 1;
      var id := order[n];
      ChildrenIn(st, order[..n], parent, prefix) +
      if id in st.instances && IsChild(st.instances[id], parent) && HasPrefix(st.instances[id].correlationId, prefix)
      then [id] else []
  }

  /** The children named by the last SPAWNED entry that names any. */
  function SpawnedFromJournal(journal: seq<Entry>): seq<string>
  {
    if journal == [] then []
    else
      var e := journal[|journal| - 1];
      if e.kind == SpawnedChildren && |e.spawned| > 0 then e.spawned
      else SpawnedFromJournal(journal[..|journal| - 1])
  }
}
