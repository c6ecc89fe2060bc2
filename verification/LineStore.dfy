/**
 The in-memory line store (pkg/dag/memory/linestore.go): the source's three maps as fields, with
 methods that update them step by step and are proved against the functions of `Lines`.
 */
module LineStores {
  import opened Wrappers
  import opened Entities
  import opened Idempotency
  import opened Lines

  class LineStore {
    var instances: map<string, Record>
    var executions: map<Key, Execution>
    var signals: set<Key>
    ghost var calls: seq<CompensatorCall>

    constructor ()
      ensures State() == EMPTY_STORE
    {
      instances, executions, signals := map[], map[], {};
      calls := [];
    }

    ghost function State(): Store
      reads this
    {
      Store(instances, executions, signals, calls)
    }

    /** Returns a copy of the record that is created. */
    method CreateInstance(req: StartRequest, entryNode: string) returns (inst: Option<Record>, err: Option<DagError>)
      modifies this
      ensures err == if req.entityId == "" then Some(InstanceNotFound)
                     else if req.entityId in old(instances) then Some(InstanceAlreadyExists)
                     else None
      ensures State() == if err.Some? then old(State())
                         else WithRecord(old(State()), req.entityId, NewRecord(req, entryNode))
      ensures inst == if err.Some? then None else Some(NewRecord(req, entryNode))
    {
      if req.entityId == "" {
        return None, Some(InstanceNotFound);
      }
      if req.entityId in instances {
        return None, Some(InstanceAlreadyExists);
      }
      var rec := NewRecord(req, entryNode);
      instances := instances[req.entityId := rec];
      return Some(rec), None;
    }

    /** Returns the record that is in the store afterwards. */
    method CreateExecution(key: Key, e: Execution) returns (record: Execution)
      modifies this
      ensures State() == Lines.CreateExecution(old(State()), key, e)
      ensures key in executions && record == executions[key]
    {
      if key in executions {
        return executions[key];
      }
      executions := executions[key := e];
      return e;
    }

    method UpdateExecutionAttempt(key: Key, attempt: int)
      modifies this
      ensures State() == SetAttempt(old(State()), key, attempt)
    {
      if key in executions {
        executions := executions[key := executions[key].(attempt := attempt)];
      }
    }

    /** The journal is searched first; the instance, snapshot, stack, journal and execution are
        then updated one after the other. */
    method CommitHop(id: string, c: HopCommit) returns (err: Option<DagError>)
      modifies this
      ensures err == if id in old(instances) then None else Some(InstanceNotFound)
      ensures State() == if err.Some? then old(State()) else Lines.CommitHop(old(State()), id, c)
    {
      if id !in instances {
        return Some(InstanceNotFound);
      }
      var rec := instances[id];
      for i := 0 to |rec.journal|
        invariant forall k :: 0 <= k < i ==> !(rec.journal[k].key == c.key && rec.journal[k].kind == c.kind)
      {
        if rec.journal[i].key == c.key && rec.journal[i].kind == c.kind {
          if c.kind == CompensationCommitted {
            instances := instances[id := ReconcilePop(rec, c)];
          }
          return None;
        }
      }
      match c.kind {
        case SignalReceived =>
          rec := rec.(status := c.nextStatus, currentNode := c.nextNode, waiting := None);
          if c.outputSnapshot.Some? {
            rec := rec.(sequence := rec.sequence + 1);
            rec := rec.(snapshot := c.outputSnapshot.value.(sequence := rec.sequence));
          }
        case JoinCommitted =>
          rec := rec.(sequence := rec.sequence + 1);
          rec := rec.(status := c.nextStatus, currentNode := c.nextNode);
          if c.outputSnapshot.Some? {
            rec := rec.(snapshot := c.outputSnapshot.value.(sequence := rec.sequence));
          }
        case CompensationCommitted =>
          rec := PopStack(rec);
        case _ =>
          if c.outputSnapshot.Some? {
            rec := rec.(sequence := rec.sequence + 1);
            rec := rec.(snapshot := c.outputSnapshot.value.(sequence := rec.sequence));
          }
          rec := rec.(status := c.nextStatus, currentNode := c.nextNode);
      }
      assert rec == Moved(old(instances)[id], c);
      rec := rec.(stack := rec.stack + c.frames);
      var entry := Entry(|rec.journal| + 1, c.kind, c.nodeId, c.inputSequence, rec.sequence, rec.snapshot, c.key,
                         c.signalName, c.deliveryId, c.failureReason, c.spawned);
      rec := rec.(journal := rec.journal + [entry]);
      instances := instances[id := rec];
      if c.key in executions {
        executions := executions[c.key := executions[c.key].(status := ExecutionCommitted)];
      }
      return None;
    }

    /** True for a delivery not seen before. */
    method RecordSignalDelivery(entityId: string, signalName: string, deliveryId: string) returns (fresh_: bool)
      modifies this
      ensures var key := SignalKey(entityId, signalName, deliveryId);
              fresh_ == (key !in old(signals)) && State() == old(State()).(signals := old(signals) + {key})
    {
      var key := SignalKey(entityId, signalName, deliveryId);
      if key in signals {
        assert signals + {key} == signals;
        return false;
      }
      signals := signals + {key};
      return true;
    }

    method ListRunnableInstances(order: seq<string>) returns (refs: seq<string>)
      ensures refs == RunnableIn(State(), order)
    {
      refs := [];
      for i := 0 to |order|
        invariant refs == RunnableIn(State(), order[..i])
      {
        assert order[..i + 1][..i] == order[..i];
        var id := order[i];
        if id in instances && (instances[id].status == Running || instances[id].status == Compensating) {
          refs := refs + [id];
        }
      }
      assert order[..|order|] == order;
    }

    method ListWaitingTimeouts(order: seq<string>, now: int) returns (out: seq<Due>)
      ensures out == DueIn(State(), order, now)
    {
      out := [];
      for i := 0 to |order|
        invariant out == DueIn(State(), order[..i], now)
      {
        assert order[..i + 1][..i] == order[..i];
        var id := order[i];
        if id in instances && instances[id].status == Waiting && instances[id].waiting.Some? {
          var waiting := instances[id].waiting.value;
          if waiting.deadline.Some? && !(now < waiting.deadline.value) {
            out := out + [Due(id, waiting)];
          }
        }
      }
      assert order[..|order|] == order;
    }

    method SetWaiting(id: string, nodeId: string, w: WaitRecord) returns (err: Option<DagError>)
      modifies this
      ensures err == if id in old(instances) then None else Some(InstanceNotFound)
      ensures State() == if err.Some? then old(State()) else Lines.SetWaiting(old(State()), id, nodeId, w)
    {
      if id !in instances {
        return Some(InstanceNotFound);
      }
      var rec := instances[id].(waiting := Some(w));
      rec := rec.(status := Waiting);
      if nodeId != "" {
        rec := rec.(currentNode := nodeId);
      }
      instances := instances[id := rec];
      return None;
    }

    method UpdateInstanceStatus(id: string, status: Status) returns (err: Option<DagError>)
      modifies this
      ensures err == if id in old(instances) then None else Some(InstanceNotFound)
      ensures State() == if err.Some? then old(State()) else SetStatus(old(State()), id, status)
    {
      if id !in instances {
        return Some(InstanceNotFound);
      }
      instances := instances[id := instances[id].(status := status)];
      return None;
    }

    method AdvanceInstanceNode(id: string, nodeId: string, status: Status) returns (err: Option<DagError>)
      modifies this
      ensures err == if id in old(instances) then None else Some(InstanceNotFound)
      ensures State() == if err.Some? then old(State()) else AdvanceNode(old(State()), id, nodeId, status)
    {
      if id !in instances {
        return Some(InstanceNotFound);
      }
      instances := instances[id := instances[id].(currentNode := nodeId, status := status)];
      return None;
    }

    method FindChildByCorrelation(order: seq<string>, parent: string,
            correlationId: string) returns (child: Option<string>)
      ensures child == ChildIn(State(), order, parent, correlationId)
    {
      var i := 0;
      while i < |order|
        invariant 0 <= i <= |order|
        invariant ChildIn(State(), order[i..], parent, correlationId) == ChildIn(State(), order, parent, correlationId)
      {
        assert order[i..][1..] == order[i + 1..];
        var id := order[i];
        if id in instances && IsChild(instances[id], parent) && instances[id].correlationId == correlationId {
          return Some(id);
        }
        i := i + 1;
      }
      return None;
    }

    method ListChildrenByCorrelationPrefix(order: seq<string>, parent: string,
            prefix: string) returns (out: seq<string>)
      ensures out == ChildrenIn(State(), order, parent, prefix)
    {
      out := [];
      for i := 0 to |order|
        invariant out == ChildrenIn(State(), order[..i], parent, prefix)
      {
        assert order[..i + 1][..i] == order[..i];
        var id := order[i];
        if id !in instances || !IsChild(instances[id], parent) {
          continue;
        }
        if prefix != "" && !HasPrefix(instances[id].correlationId, prefix) {
          continue;
        }
        out := out + [id];
      }
      assert order[..|order|] == order;
    }

    method ListSpawnedFromJournal(id: string) returns (refs: seq<string>, err: Option<DagError>)
      ensures err == if id in instances then None else Some(InstanceNotFound)
      ensures refs == if id in instances then SpawnedFromJournal(instances[id].journal) else []
    {
      if id !in instances {
        return [], Some(InstanceNotFound);
      }
      var journal := instances[id].journal;
      var i := |journal| - 1;
      assert journal[..|journal|] == journal;
      while i >= 0
        invariant -1 <= i < |journal|
        invariant SpawnedFromJournal(journal[..i + 1]) == SpawnedFromJournal(journal)
      {
        var entry := journal[i];
        assert journal[..i + 1][..i] == journal[..i];
        if entry.kind == SpawnedChildren && |entry.spawned| > 0 {
          return entry.spawned, None;
        }
        i := i - 1;
      }
      return [], None;
    }

    /** Instrumentation: remembers a compensator call. */
    ghost method LogCall(call: CompensatorCall)
      modifies this`calls
      ensures calls == old(calls) + [call]
    {
      calls := calls + [call];
    }
  }
}
