/**
 What an instance's journal says about the instance.

 `Trail`, `Frames` and `Undone` read a journal: the nodes it committed, the saga frames those
 commits pushed, and the compensations.  `RecordInv` ties the live record to them.
 */
module History {
  import opened Entities
  import opened Graphs
  import opened Idempotency
  import opened Lines
  import opened Registries
  import opened Scheduling

  // ---------- reading a journal ----------

  /** The nodes of the non-compensation entries, oldest first. */
  function Trail(j: seq<Entry>): seq<string>
  {
    if j == [] then []
    else Trail(j[..|j| - 1]) + if j[|j| - 1].kind == CompensationCommitted then [] else [j[|j| - 1].nodeId]
  }

  /** The compensation entries, oldest first. */
  function Undone(j: seq<Entry>): seq<Entry>
  {
    if j == [] then []
    else Undone(j[..|j| - 1]) + if j[|j| - 1].kind == CompensationCommitted then [j[|j| - 1]] else []
  }

  /** Did this entry commit a compute node that has a compensator, and move on from it? */
  predicate Pushes(g: GraphSpec, e: Entry)
  {
    && (e.kind == NodeCommitted || e.kind == SpawnedChildren)
    && e.nodeId in g.nodes && g.nodes[e.nodeId].kind == Compute && g.nodes[e.nodeId].compensatorUnitId != ""
    && e.outputSequence == e.inputSequence + 1 && e.failureReason == ""
  }

  function FrameOf(g: GraphSpec, e: Entry): Frame
    requires e.nodeId in g.nodes
  {
    Frame(e.nodeId, g.nodes[e.nodeId].unitId, g.nodes[e.nodeId].compensatorUnitId,
          e.outputSequence, e.outputSnapshot.payload)
  }

  /** The frames the journal has pushed, oldest first. */
  function Frames(g: GraphSpec, j: seq<Entry>): seq<Frame>
  {
    if j == [] then []
    else Frames(g, j[..|j| - 1]) + if Pushes(g, j[|j| - 1]) then [FrameOf(g, j[|j| - 1])] else []
  }

  lemma JournalGrows(g: GraphSpec, j: seq<Entry>, e: Entry)
    ensures Trail(j + [e]) == Trail(j) + if e.kind == CompensationCommitted then [] else [e.nodeId]
    ensures Undone(j + [e]) == Undone(j) + if e.kind == CompensationCommitted then [e] else []
    ensures Frames(g, j + [e]) == Frames(g, j) + if Pushes(g, e) then [FrameOf(g, e)] else []
  {
    assert (j + [e])[..|j|] == j;
  }

  lemma {:induction false} TrailHolds(j: seq<Entry>, i: nat)
    requires i < |j| && j[i].kind != CompensationCommitted
    ensures j[i].nodeId in Trail(j)
  {
    if i < |j| - 1 {
      TrailHolds(j[..|j| - 1], i);
    }
  }

  /** A journal has one entry per trail node and one per compensation; frames come from trail nodes. */
  lemma {:induction false} JournalSplits(g: GraphSpec, j: seq<Entry>)
    ensures |j| == |Trail(j)| + |Undone(j)|
    ensures |Frames(g, j)| <= |Trail(j)|
  {
    if j != [] {
      JournalSplits(g, j[..|j| - 1]);
    }
  }

  // ---------- the record agrees with its journal ----------

  predicate Active(s: Status)
  {
    s == Running || s == Waiting || s == Compensating
  }

  function OutputBefore(j: seq<Entry>, i: nat): int
    requires i <= |j|
  {
    if i == 0 then 0 else j[i - 1].outputSequence
  }

  ghost predicate Numbered(j: seq<Entry>)
  {
    forall i :: 0 <= i < |j| ==> j[i].journalSequence == i + 1
  }

  /** No two entries share key and kind. */
  ghost predicate KeysApart(j: seq<Entry>)
  {
    forall i, k :: 0 <= i < k < |j| ==> j[i].key != j[k].key || j[i].kind != j[k].kind
  }

  ghost predicate StepsBy(j: seq<Entry>, i: nat)
    requires i < |j|
  {
    && OutputBefore(j, i) <= j[i].outputSequence <= OutputBefore(j, i) + 1
    && j[i].outputSnapshot.sequence == j[i].outputSequence
  }

  /** Sequences never fall and climb by at most one; every snapshot carries its entry's sequence. */
  ghost predicate SequencesStep(j: seq<Entry>)
  {
    forall i :: 0 <= i < |j| ==> StepsBy(j, i)
  }

  predicate KeyFits(id: string, e: Entry)
  {
    if e.kind == CompensationCommitted then |e.key| == 4 && e.key == CompensationKey(id, e.inputSequence, e.key[3])
    else
      && |e.key| == 3
      && (e.kind == SignalReceived && e.signalName != "" ==> e.key == SignalKey(id, e.signalName, e.deliveryId))
  }

  /** Compensation entries, and only they, have compensation keys; a delivered signal (a timeout
      has no signal name) is keyed by its delivery. */
  ghost predicate KeysFit(id: string, j: seq<Entry>)
  {
    forall i :: 0 <= i < |j| ==> KeyFits(id, j[i])
  }

  ghost predicate JournalSound(id: string, j: seq<Entry>)
  {
    Numbered(j) && KeysApart(j) && SequencesStep(j) && KeysFit(id, j)
  }

  /** The live sequence and snapshot are those of the last entry. */
  ghost predicate AgreesWithJournal(j: seq<Entry>, sequence: int, snapshot: Snapshot)
  {
    && snapshot.sequence == sequence == OutputBefore(j, |j|)
    && (j != [] ==> snapshot == j[|j| - 1].outputSnapshot)
  }

  ghost predicate Climbs(frames: seq<Frame>, top: int)
  {
    && (forall i, k :: 0 <= i < k < |frames| ==> frames[i].forwardSequence < frames[k].forwardSequence)
    && (forall i :: 0 <= i < |frames| ==> frames[i].forwardSequence <= top)
  }

  ghost predicate Undoes(id: string, e: Entry, f: Frame)
  {
    e.nodeId == f.nodeId && e.inputSequence == f.forwardSequence && e.key == CompensationKeyOf(id, f)
  }

  /** The stack is what the journal pushed, minus one frame from the top per compensation; and the
      compensations undid exactly those frames, newest first. */
  ghost predicate SagaReplays(g: GraphSpec, id: string, j: seq<Entry>, stack: seq<Frame>, sequence: int)
  {
    var frames, undone := Frames(g, j), Undone(j);
    && |undone| <= |frames|
    && stack == frames[..|frames| - |undone|]
    && UndoneInReverse(id, frames, undone)
    && UndoneAbove(j, stack)
    && Climbs(frames, sequence)
  }

  ghost predicate UndoneInReverse(id: string, frames: seq<Frame>, undone: seq<Entry>)
  {
    |undone| <= |frames| && forall k :: 0 <= k < |undone| ==> Undoes(id, undone[k], frames[|frames| - 1 - k])
  }

  /** Everything undone was committed after everything still on the stack. */
  ghost predicate UndoneAbove(j: seq<Entry>, stack: seq<Frame>)
  {
    forall i, k :: 0 <= i < |j| && j[i].kind == CompensationCommitted && 0 <= k < |stack| ==>
      stack[k].forwardSequence < j[i].inputSequence
  }

  /** No node is committed twice. */
  ghost predicate TrailSound(g: GraphSpec, j: seq<Entry>)
  {
    Distinct(Trail(j)) && forall n :: n in Trail(j) ==> n in g.nodes
  }

  /** The trail followed by the current node is a path of transitions from the entry node. */
  ghost predicate OnPath(g: GraphSpec, j: seq<Entry>, currentNode: string)
  {
    var path := Trail(j) + [currentNode];
    path[0] == g.entryNodeId && Chain(g, path) && currentNode in g.nodes
  }

  /** How a forward entry of an instance that is still active was keyed. */
  ghost predicate ForwardEntry(id: string, e: Entry, signals: set<Key>)
  {
    if e.kind == SignalReceived then e.key == SignalKey(id, e.signalName, e.deliveryId) && e.key in signals
    else e.key == HopKey(id, e.nodeId, e.inputSequence) && e.outputSequence == e.inputSequence + 1
         && e.failureReason == ""
  }

  ghost predicate ForwardEntries(id: string, j: seq<Entry>, signals: set<Key>)
  {
    forall i :: 0 <= i < |j| && j[i].kind != CompensationCommitted ==> ForwardEntry(id, j[i], signals)
  }

  ghost predicate ActiveSound(g: GraphSpec, id: string, rec: Record, signals: set<Key>)
  {
    Active(rec.status) ==>
      && OnPath(g, rec.journal, rec.currentNode)
      && (rec.status != Compensating ==> Undone(rec.journal) == [])
      && (rec.status == Waiting <==> rec.waiting.Some?)
      && ForwardEntries(id, rec.journal, signals)
  }

  predicate Owned(id: string, k: Key)
  {
    |k| > 0 && k[0] == id
  }

  ghost predicate KeyJournaled(j: seq<Entry>, k: Key)
  {
    exists i :: 0 <= i < |j| && j[i].key == k
  }

  /** Attempts stay within the retry budget; a committed execution is in the journal, and while
      the instance is active only nodes it has left are committed. */
  ghost predicate ExecutionSound(reg: Registry, g: GraphSpec, active: bool, j: seq<Entry>, currentNode: string,
          k: Key, e: Execution)
  {
    && (e.status == ExecutionCommitted ==> KeyJournaled(j, k))
    && 0 <= e.attempt
    && if |k| == 4 then e.attempt <= MaxAttempts(reg, k[3])
       else
         && |k| == 3 && k[1] in g.nodes && e.attempt <= MaxAttempts(reg, g.nodes[k[1]].unitId)
         && (active ==>
               && (k[1] in Trail(j) || k[1] == currentNode)
               && (e.status == ExecutionCommitted ==> k[1] in Trail(j)))
  }

  ghost predicate ExecutionsSound(reg: Registry, g: GraphSpec, id: string, active: bool, j: seq<Entry>,
          currentNode: string, executions: map<Key, Execution>)
  {
    forall k :: k in executions && Owned(id, k) ==> ExecutionSound(reg, g, active, j, currentNode, k, executions[k])
  }

  /** What holds of a record whatever its status. */
  ghost predicate PassiveInv(g: GraphSpec, id: string, j: seq<Entry>, sequence: int, snapshot: Snapshot,
          stack: seq<Frame>)
  {
    && JournalSound(id, j)
    && AgreesWithJournal(j, sequence, snapshot)
    && SagaReplays(g, id, j, stack, sequence)
    && TrailSound(g, j)
  }

  ghost predicate RecordInvIn(reg: Registry, g: GraphSpec, id: string, rec: Record, executions: map<Key, Execution>,
          signals: set<Key>)
  {
    && PassiveInv(g, id, rec.journal, rec.sequence, rec.snapshot, rec.stack)
    && ActiveSound(g, id, rec, signals)
    && ExecutionsSound(reg, g, id, Active(rec.status), rec.journal, rec.currentNode, executions)
  }

  ghost predicate RecordInv(reg: Registry, id: string, rec: Record, executions: map<Key, Execution>, signals: set<Key>)
  {
    && GetGraph(reg, rec.graph).Ok?
    && RecordInvIn(reg, GetGraph(reg, rec.graph).value, id, rec, executions, signals)
  }

  // ---------- consequences ----------

  /** While active, neither the current node nor any successor has been committed. */
  lemma AheadIsNew(g: GraphSpec, j: seq<Entry>, currentNode: string)
    requires Acyclic(g) && OnPath(g, j, currentNode)
    ensures currentNode !in Trail(j)
    ensures forall t :: Edge(g, currentNode, t) ==> t !in Trail(j) && t != currentNode
    ensures Distinct(Trail(j) + [currentNode])
  {
    var trail := Trail(j);
    var path := trail + [currentNode];
    ChainsAreDistinct(g, path);
    assert path[|trail|] == currentNode;
    forall t | Edge(g, currentNode, t)
      ensures t !in trail && t != currentNode
    {
      ChainExtends(g, path, t);
      ChainsAreDistinct(g, path + [t]);
      assert (path + [t])[|path|] == t;
      forall i | 0 <= i < |trail|
        ensures trail[i] != t
      {
        assert (path + [t])[i] == trail[i];
      }
      assert (path + [t])[|trail|] == currentNode;
    }
    forall i | 0 <= i < |trail|
      ensures trail[i] != currentNode
    {
      assert path[i] == trail[i];
    }
  }

  /** A hop of a node that is not on the trail is not in the journal yet. */
  lemma HopIsNew(id: string, j: seq<Entry>, signals: set<Key>, nodeId: string, sequence: int, kind: JournalKind)
    requires ForwardEntries(id, j, signals) && nodeId !in Trail(j)
    requires kind == NodeCommitted || kind == SpawnedChildren || kind == JoinCommitted
    ensures !IsJournaled(j, HopKey(id, nodeId, sequence), kind)
  {
    forall i | 0 <= i < |j| && j[i].kind == kind
      ensures j[i].key != HopKey(id, nodeId, sequence)
    {
      TrailHolds(j, i);
      HopKeyInjective(id, nodeId, sequence, id, j[i].nodeId, j[i].inputSequence);
    }
  }
}
