/** Each way the engine changes a record keeps the record's invariant. */
module Preservation {
  import opened Wrappers
  import opened Graphs
  import opened Idempotency
  import opened Lines
  import opened Registries
  import opened Scheduling
  import opened History

  // ---------- one more entry ----------

  lemma EntryKeepsSequences(j: seq<Entry>, e: Entry)
    requires SequencesStep(j) && e.outputSnapshot.sequence == e.outputSequence
    requires OutputBefore(j, |j|) <= e.outputSequence <= OutputBefore(j, |j|) + 1
    ensures SequencesStep(j + [e])
  {
    var j' := j + [e];
    forall i | 0 <= i < |j'|
      ensures StepsBy(j', i)
    {
      assert OutputBefore(j', i) == OutputBefore(j, i);
      if i < |j| {
        assert StepsBy(j, i) && j'[i] == j[i];
      }
    }
  }

  lemma EntryKeepsKeys(id: string, j: seq<Entry>, e: Entry)
    requires KeysApart(j) && KeysFit(id, j) && Numbered(j)
    requires !IsJournaled(j, e.key, e.kind) && KeyFits(id, e) && e.journalSequence == |j| + 1
    ensures KeysApart(j + [e]) && KeysFit(id, j + [e]) && Numbered(j + [e])
  {
    var j' := j + [e];
    forall i | 0 <= i < |j'|
      ensures KeyFits(id, j'[i])
    {
    }
  }

  lemma EntryKeepsJournal(id: string, j: seq<Entry>, e: Entry)
    requires JournalSound(id, j) && !IsJournaled(j, e.key, e.kind) && KeyFits(id, e)
    requires e.journalSequence == |j| + 1 && e.outputSnapshot.sequence == e.outputSequence
    requires OutputBefore(j, |j|) <= e.outputSequence <= OutputBefore(j, |j|) + 1
    ensures JournalSound(id, j + [e])
  {
    EntryKeepsSequences(j, e);
    EntryKeepsKeys(id, j, e);
  }

  /** A forward entry that pushes no frame. */
  lemma PassKeepsSaga(g: GraphSpec, id: string, j: seq<Entry>, stack: seq<Frame>, sequence: int, e: Entry)
    requires SagaReplays(g, id, j, stack, sequence)
    requires e.kind != CompensationCommitted && sequence <= e.outputSequence && !Pushes(g, e)
    ensures SagaReplays(g, id, j + [e], stack, e.outputSequence)
  {
    JournalGrows(g, j, e);
    assert Frames(g, j + [e]) == Frames(g, j) && Undone(j + [e]) == Undone(j);
    forall i, k | 0 <= i < |j + [e]| && (j + [e])[i].kind == CompensationCommitted && 0 <= k < |stack|
      ensures stack[k].forwardSequence < (j + [e])[i].inputSequence
    {
      assert (j + [e])[i] == j[i];
    }
  }

  /** A forward entry that pushes one, before anything was undone. */
  lemma PushKeepsSaga(g: GraphSpec, id: string, j: seq<Entry>, stack: seq<Frame>, sequence: int, e: Entry)
    requires SagaReplays(g, id, j, stack, sequence) && Undone(j) == []
    requires Pushes(g, e) && e.inputSequence == sequence
    ensures SagaReplays(g, id, j + [e], stack + [FrameOf(g, e)], e.outputSequence)
  {
    var frames, f := Frames(g, j), FrameOf(g, e);
    JournalGrows(g, j, e);
    assert Frames(g, j + [e]) == frames + [f];
    ClimbsOneMore(frames, sequence, f);
    NothingUndoneAbove(j + [e], stack + [f]);
  }

  lemma NothingUndoneAbove(j: seq<Entry>, stack: seq<Frame>)
    requires Undone(j) == []
    ensures UndoneAbove(j, stack)
  {
    NothingUndone(j);
  }

  lemma ClimbsOneMore(frames: seq<Frame>, top: int, f: Frame)
    requires Climbs(frames, top) && f.forwardSequence > top
    ensures Climbs(frames + [f], f.forwardSequence)
  {
  }

  lemma ForwardKeepsSaga(g: GraphSpec, id: string, j: seq<Entry>, stack: seq<Frame>, sequence: int, e: Entry)
    requires SagaReplays(g, id, j, stack, sequence) && e.kind != CompensationCommitted
    requires e.inputSequence == sequence <= e.outputSequence
    requires Undone(j) == [] || !Pushes(g, e)
    ensures SagaReplays(g, id, j + [e], stack + (if Pushes(g, e) then [FrameOf(g, e)] else []), e.outputSequence)
  {
    if Pushes(g, e) {
      PushKeepsSaga(g, id, j, stack, sequence, e);
    } else {
      PassKeepsSaga(g, id, j, stack, sequence, e);
      assert stack + [] == stack;
    }
  }

  lemma {:induction false} NothingUndone(j: seq<Entry>)
    requires Undone(j) == []
    ensures forall i :: 0 <= i < |j| ==> j[i].kind != CompensationCommitted
  {
    if j != [] {
      NothingUndone(j[..|j| - 1]);
    }
  }

  /** A compensation entry for the frame on top of the stack. */
  lemma UndoKeepsSaga(g: GraphSpec, id: string, j: seq<Entry>, stack: seq<Frame>, sequence: int, e: Entry)
    requires SagaReplays(g, id, j, stack, sequence) && stack != []
    requires e.kind == CompensationCommitted && Undoes(id, e, stack[|stack| - 1])
    ensures SagaReplays(g, id, j + [e], stack[..|stack| - 1], sequence)
  {
    JournalGrows(g, j, e);
    var frames, undone := Frames(g, j), Undone(j);
    var n := |stack| - 1;
    assert n == |frames| - |undone| - 1 && stack[n] == frames[n];
    assert stack[..n] == frames[..n];
    UndoneOneMore(id, frames, undone, e);
    forall i, k | 0 <= i < |j + [e]| && (j + [e])[i].kind == CompensationCommitted && 0 <= k < n
      ensures stack[..n][k].forwardSequence < (j + [e])[i].inputSequence
    {
      assert stack[..n][k] == stack[k] == frames[k];
    }
  }

  lemma UndoneOneMore(id: string, frames: seq<Frame>, undone: seq<Entry>, e: Entry)
    requires UndoneInReverse(id, frames, undone) && |undone| < |frames|
    requires Undoes(id, e, frames[|frames| - 1 - |undone|])
    ensures UndoneInReverse(id, frames, undone + [e])
  {
  }

  lemma EntryKeepsExecutions(reg: Registry, g: GraphSpec, id: string, was: bool, j: seq<Entry>, currentNode: string,
                             executions: map<Key, Execution>, e: Entry, still: bool, nextNode: string)
    requires ExecutionsSound(reg, g, id, was, j, currentNode, executions)
    requires still ==> was
    requires still ==>
              if e.kind == CompensationCommitted then nextNode == currentNode && |e.key| == 4
              else e.nodeId == currentNode
    ensures ExecutionsSound(reg, g, id, still, j + [e], nextNode, MarkCommitted(executions, e.key))
  {
    JournalGrows(g, j, e);
    var j' := j + [e];
    forall k | k in MarkCommitted(executions, e.key) && Owned(id, k)
      ensures ExecutionSound(reg, g, still, j', nextNode, k, MarkCommitted(executions, e.key)[k])
    {
      assert ExecutionSound(reg, g, was, j, currentNode, k, executions[k]);
      if KeyJournaled(j, k) {
        var i :| 0 <= i < |j| && j[i].key == k;
        assert j'[i].key == k;
      }
      assert j'[|j|].key == e.key;
      assert forall n :: n in Trail(j) ==> n in Trail(j');
      assert e.kind != CompensationCommitted ==> e.nodeId in Trail(j');
    }
  }

  lemma EntryKeepsTrail(g: GraphSpec, j: seq<Entry>, e: Entry)
    requires TrailSound(g, j)
    requires e.kind != CompensationCommitted ==> e.nodeId in g.nodes && e.nodeId !in Trail(j)
    ensures TrailSound(g, j + [e])
  {
    JournalGrows(g, j, e);
  }

  // ---------- forward commits ----------

  function NewEntry(rec: Record, c: HopCommit): Entry
  {
    EntryFor(Moved(rec, c), c)
  }

  /** A forward commit from the instance's own sequence, whose frames are those of its entry. */
  ghost predicate ForwardCommit(g: GraphSpec, id: string, rec: Record, c: HopCommit)
  {
    && c.kind != CompensationCommitted && KeyFits(id, NewEntry(rec, c)) && c.key[0] == id
    && c.inputSequence == rec.sequence
    && !IsJournaled(rec.journal, c.key, c.kind)
    && c.nodeId in g.nodes && c.nodeId !in Trail(rec.journal)
    && c.frames == (if Pushes(g, NewEntry(rec, c)) then [FrameOf(g, NewEntry(rec, c))] else [])
    && (Undone(rec.journal) == [] || c.frames == [])
    && (c.kind == JoinCommitted ==> c.outputSnapshot.Some?)
  }

  lemma CommittedFields(rec: Record, c: HopCommit)
    ensures var rec', e := Committed(rec, c), NewEntry(rec, c);
            && rec'.journal == rec.journal + [e] && rec'.graph == rec.graph
            && rec'.sequence == e.outputSequence && rec'.snapshot == e.outputSnapshot
            && e.journalSequence == |rec.journal| + 1 && e.kind == c.kind && e.nodeId == c.nodeId
            && e.key == c.key && e.inputSequence == c.inputSequence && e.failureReason == c.failureReason
    ensures c.kind != CompensationCommitted ==>
              var rec' := Committed(rec, c);
              rec'.stack == rec.stack + c.frames && rec'.status == c.nextStatus && rec'.currentNode == c.nextNode
    ensures rec.snapshot.sequence == rec.sequence && (c.kind == JoinCommitted ==> c.outputSnapshot.Some?) ==>
              var e := NewEntry(rec, c);
              rec.sequence <= e.outputSequence <= rec.sequence + 1 && e.outputSnapshot.sequence == e.outputSequence
  {
  }

  lemma ForwardKeepsPassive(g: GraphSpec, id: string, rec: Record, c: HopCommit)
    requires PassiveInv(g, id, rec.journal, rec.sequence, rec.snapshot, rec.stack) && ForwardCommit(g, id, rec, c)
    ensures var rec' := Committed(rec, c); PassiveInv(g, id, rec'.journal, rec'.sequence, rec'.snapshot, rec'.stack)
  {
    var e := NewEntry(rec, c);
    CommittedFields(rec, c);
    EntryKeepsJournal(id, rec.journal, e);
    ForwardKeepsSaga(g, id, rec.journal, rec.stack, rec.sequence, e);
    EntryKeepsTrail(g, rec.journal, e);
  }

  /** A commit that ends the instance. */
  lemma EndingCommitKeeps(reg: Registry, g: GraphSpec, id: string, rec: Record, c: HopCommit, executions: map<Key,
          Execution>, signals: set<Key>)
    requires RecordInvIn(reg, g, id, rec, executions, signals)
    requires ForwardCommit(g, id, rec, c) && !Active(c.nextStatus)
    ensures RecordInvIn(reg, g, id, Committed(rec, c), MarkCommitted(executions, c.key), signals)
  {
    CommittedFields(rec, c);
    ForwardKeepsPassive(g, id, rec, c);
    EntryKeepsExecutions(reg, g, id, Active(rec.status), rec.journal, rec.currentNode, executions,
                         NewEntry(rec, c), false, c.nextNode);
  }

  /** A commit that moves a running or waiting instance along an edge. */
  lemma MovingCommitKeeps(reg: Registry, g: GraphSpec, id: string, rec: Record, c: HopCommit, executions: map<Key,
          Execution>, signals: set<Key>)
    requires RecordInvIn(reg, g, id, rec, executions, signals) && TargetsExist(g)
    requires (rec.status == Running || (rec.status == Waiting && c.kind == SignalReceived)) && c.nextStatus == Running
    requires ForwardCommit(g, id, rec, c)
    requires c.nodeId == rec.currentNode && Edge(g, rec.currentNode, c.nextNode)
    requires ForwardEntry(id, NewEntry(rec, c), signals)
    ensures RecordInvIn(reg, g, id, Committed(rec, c), MarkCommitted(executions, c.key), signals)
    ensures Committed(rec, c).status == Running && Committed(rec, c).currentNode == c.nextNode
  {
    CommittedFields(rec, c);
    ForwardKeepsPassive(g, id, rec, c);
    EntryKeepsExecutions(reg, g, id, true, rec.journal, rec.currentNode, executions,
                         NewEntry(rec, c), true, c.nextNode);
    EdgeKeepsPath(g, rec.journal, rec.currentNode, NewEntry(rec, c), c.nextNode);
    EntryKeepsForward(id, rec.journal, NewEntry(rec, c), signals);
    JournalGrows(g, rec.journal, NewEntry(rec, c));
    assert Committed(rec, c).waiting.None?;
  }

  lemma EdgeKeepsPath(g: GraphSpec, j: seq<Entry>, currentNode: string, e: Entry, nextNode: string)
    requires OnPath(g, j, currentNode) && Edge(g, currentNode, nextNode) && TargetsExist(g)
    requires e.kind != CompensationCommitted && e.nodeId == currentNode
    ensures OnPath(g, j + [e], nextNode)
  {
    JournalGrows(g, j, e);
    ChainExtends(g, Trail(j) + [currentNode], nextNode);
  }

  lemma EntryKeepsForward(id: string, j: seq<Entry>, e: Entry, signals: set<Key>)
    requires ForwardEntries(id, j, signals)
    requires e.kind != CompensationCommitted ==> ForwardEntry(id, e, signals)
    ensures ForwardEntries(id, j + [e], signals)
  {
  }

  // ---------- compensation commits ----------

  /** While the frame is on the stack its compensation is not in the journal and not marked
      committed. */
  lemma UndoIsNew(reg: Registry, g: GraphSpec, id: string, rec: Record, executions: map<Key, Execution>,
          signals: set<Key>)
    requires RecordInvIn(reg, g, id, rec, executions, signals) && rec.stack != []
    ensures var key := CompensationKeyOf(id, rec.stack[|rec.stack| - 1]);
            && !KeyJournaled(rec.journal, key) && !IsJournaled(rec.journal, key, CompensationCommitted)
            && (key in executions ==> executions[key].status != ExecutionCommitted)
  {
    var f := rec.stack[|rec.stack| - 1];
    var key := CompensationKeyOf(id, f);
    forall i | 0 <= i < |rec.journal|
      ensures rec.journal[i].key != key
    {
      var e := rec.journal[i];
      if e.kind == CompensationCommitted {
        CompensationKeyInjective(id, e.inputSequence, e.key[3], id, f.forwardSequence, f.compensatorUnitId);
      }
    }
    if key in executions {
      assert Owned(id, key);
    }
  }

  lemma UndoCommitKeeps(reg: Registry, g: GraphSpec, id: string, rec: Record, c: HopCommit, executions: map<Key,
          Execution>, signals: set<Key>)
    requires RecordInvIn(reg, g, id, rec, executions, signals)
    requires rec.status == Compensating && rec.stack != []
    requires var f := rec.stack[|rec.stack| - 1];
             c.kind == CompensationCommitted && c.frames == [] && c.nodeId == f.nodeId
             && c.inputSequence == f.forwardSequence && c.key == CompensationKeyOf(id, f)
    ensures RecordInvIn(reg, g, id, Committed(rec, c), MarkCommitted(executions, c.key), signals)
    ensures Committed(rec, c).stack == rec.stack[..|rec.stack| - 1] && Committed(rec, c).status == Compensating
  {
    var e := NewEntry(rec, c);
    CommittedFields(rec, c);
    UndoIsNew(reg, g, id, rec, executions, signals);
    EntryKeepsJournal(id, rec.journal, e);
    UndoKeepsSaga(g, id, rec.journal, rec.stack, rec.sequence, e);
    EntryKeepsTrail(g, rec.journal, e);
    EntryKeepsExecutions(reg, g, id, true, rec.journal, rec.currentNode, executions, e, true, rec.currentNode);
    EntryKeepsForward(id, rec.journal, e, signals);
    JournalGrows(g, rec.journal, e);
    assert Trail(rec.journal + [e]) == Trail(rec.journal);
  }

  // ---------- changes without a commit ----------

  lemma StatusKeeps(reg: Registry, g: GraphSpec, id: string, rec: Record, status: Status, executions: map<Key,
          Execution>, signals: set<Key>)
    requires RecordInvIn(reg, g, id, rec, executions, signals)
    requires !Active(status) || (rec.status == Running && status == Compensating)
    ensures RecordInvIn(reg, g, id, rec.(status := status), executions, signals)
  {
    forall k | k in executions && Owned(id, k)
      ensures ExecutionSound(reg, g, Active(status), rec.journal, rec.currentNode, k, executions[k])
    {
      assert ExecutionSound(reg, g, Active(rec.status), rec.journal, rec.currentNode, k, executions[k]);
    }
  }

  lemma WaitingKeeps(reg: Registry, g: GraphSpec, id: string, rec: Record, w: WaitRecord, executions: map<Key,
          Execution>, signals: set<Key>)
    requires RecordInvIn(reg, g, id, rec, executions, signals) && rec.status == Running
    ensures RecordInvIn(reg, g, id, rec.(status := Waiting, waiting := Some(w)), executions, signals)
  {
  }

  lemma NewRecordInv(reg: Registry, g: GraphSpec, id: string, req: StartRequest, executions: map<Key, Execution>,
          signals: set<Key>)
    requires g.entryNodeId in g.nodes
    requires forall k :: k in executions ==> !Owned(id, k)
    ensures RecordInvIn(reg, g, id, NewRecord(req, g.entryNodeId), executions, signals)
  {
  }

  lemma MaxAttemptsPositive(reg: Registry, unitId: string)
    ensures MaxAttempts(reg, unitId) >= 1
  {
  }

  /** Starting an execution at the current node, or for the frame on top of the stack. */
  lemma StartedKeeps(reg: Registry, g: GraphSpec, id: string, rec: Record, key: Key, e: Execution,
          executions: map<Key, Execution>, signals: set<Key>)
    requires RecordInvIn(reg, g, id, rec, executions, signals) && Active(rec.status)
    requires key !in executions && e.status == ExecutionRunning && e.attempt == 0
    requires |key| == 4 || (|key| == 3 && key[1] == rec.currentNode)
    ensures RecordInvIn(reg, g, id, rec, executions[key := e], signals)
  {
    forall k | k in executions[key := e] && Owned(id, k)
      ensures ExecutionSound(reg, g, true, rec.journal, rec.currentNode, k, executions[key := e][k])
    {
      if k != key {
        assert ExecutionSound(reg, g, true, rec.journal, rec.currentNode, k, executions[k]);
      } else {
        MaxAttemptsPositive(reg, if |key| == 4 then key[3] else g.nodes[key[1]].unitId);
      }
    }
  }

  lemma AttemptKeeps(reg: Registry, g: GraphSpec, id: string, rec: Record, key: Key, attempt: int,
          executions: map<Key, Execution>, signals: set<Key>)
    requires RecordInvIn(reg, g, id, rec, executions, signals)
    requires key in executions && 0 <= attempt
    requires if |key| == 4 then attempt <= MaxAttempts(reg, key[3])
             else |key| == 3 && key[1] in g.nodes && attempt <= MaxAttempts(reg, g.nodes[key[1]].unitId)
    ensures RecordInvIn(reg, g, id, rec, executions[key := executions[key].(attempt := attempt)], signals)
  {
    var executions' := executions[key := executions[key].(attempt := attempt)];
    forall k | k in executions' && Owned(id, k)
      ensures ExecutionSound(reg, g, Active(rec.status), rec.journal, rec.currentNode, k, executions'[k])
    {
      assert ExecutionSound(reg, g, Active(rec.status), rec.journal, rec.currentNode, k, executions[k]);
    }
  }

  /** Other instances' executions and more signals do not matter. */
  lemma ElsewhereKeeps(reg: Registry, g: GraphSpec, id: string, rec: Record,
                       executions: map<Key, Execution>, signals: set<Key>,
                       executions': map<Key, Execution>, signals': set<Key>)
    requires RecordInvIn(reg, g, id, rec, executions, signals) && signals <= signals'
    requires forall k :: Owned(id, k) ==> (k in executions <==> k in executions')
    requires forall k :: k in executions && Owned(id, k) ==> executions'[k] == executions[k]
    ensures RecordInvIn(reg, g, id, rec, executions', signals')
  {
    forall k | k in executions' && Owned(id, k)
      ensures ExecutionSound(reg, g, Active(rec.status), rec.journal, rec.currentNode, k, executions'[k])
    {
      assert ExecutionSound(reg, g, Active(rec.status), rec.journal, rec.currentNode, k, executions[k]);
    }
    if Active(rec.status) {
      forall i | 0 <= i < |rec.journal| && rec.journal[i].kind != CompensationCommitted
        ensures ForwardEntry(id, rec.journal[i], signals')
      {
        assert ForwardEntry(id, rec.journal[i], signals);
      }
    }
  }
}
