/** What starting and cancelling an instance do to the store. */
module Lifecycles {
  import opened Wrappers
  import opened Entities
  import opened Lines
  import opened Registries
  import opened Scheduling
  import opened Runs
  import opened Guarantees

  /** Why the request is refused, if it is: the first of these that holds. */
  function Refusal(reg: Registry, st: Store, req: StartRequest): Option<DagError>
  {
    if req.typeKey.entityType == "" || req.typeKey.schemaVersion == "" || req.typeKey !in reg.types
    then Some(InvalidEntityType)
    else if req.payload.Some? && req.payload.value.typeUrl != reg.types[req.typeKey].payloadTypeUrl
    then Some(InvalidEntityType)
    else if req.graph.graphId == "" || req.graph.version == "" || req.graph !in reg.graphs then Some(InvalidGraph)
    else if req.entityId == "" then Some(InstanceNotFound)
    else if req.entityId in st.instances then Some(InstanceAlreadyExists)
    else None
  }

  /** A refused request changes nothing.  Any other adds one instance and nothing else: it is RUNNING at
      the entry node of the graph it asked for, with the payload it brought and an empty history. */
  lemma StartMeans(reg: Registry, st: Store, req: StartRequest)
    ensures var s, refusal := StartInstance(reg, st, req), Refusal(reg, st, req);
            && s.error == refusal
            && (refusal.Some? ==> s.store == st)
            && (refusal.None? ==>
                  && req.graph in reg.graphs && req.entityId !in st.instances
                  && s.store == st.(instances := st.instances[
                       req.entityId := Record(req.typeKey, Running, 0, reg.graphs[req.graph].entryNodeId, req.graph,
                                              req.parent, req.correlationId, Snapshot(req.typeKey, 0, req.payload),
                                              [], [], None)]))
  {
  }

  /** Cancelling makes an existing instance CANCELLED, whatever its status was, and changes nothing
      else. */
  lemma CancelMeans(st: Store, id: string)
    ensures var s := CancelInstance(st, id);
            if id in st.instances then
              && s.error.None? && id in s.store.instances && s.store.instances[id].status == Cancelled
              && s.store == st.(instances := st.instances[id := st.instances[id].(status := Cancelled)])
            else s.error == Some(InstanceNotFound) && s.store == st
  {
  }

  /** A cancelled instance stays as it was but for its status, whatever is called afterwards. */
  lemma CancelIsFinal(reg: Registry, calls: seq<Call>, more: seq<Call>, id: string)
    requires ValidRegistry(reg) && ValidCalls(calls) && ValidCalls(more) && id in Run(reg, calls).instances
    ensures var rec, st' := Run(reg, calls).instances[id], RunFrom(reg, Run(reg, calls + [Cancel(id)]), more);
            id in st'.instances && st'.instances[id] == rec.(status := Cancelled)
  {
    hide ValidRegistry, RunFrom;
    RunOneMore(reg, EMPTY_STORE, calls, Cancel(id));
    EndedIsFinal(reg, calls + [Cancel(id)], more, id);
  }
}
