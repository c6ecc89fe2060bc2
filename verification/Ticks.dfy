/** What a tick does to one instance: it is left alone until its turn comes, processed once, and
    left alone again. */
module Ticks {
  import opened Graphs
  import opened Routing
  import opened Lines
  import opened Registries
  import opened Scheduling
  import opened History
  import opened Steps
  import opened InstanceSteps
  import opened Runs

  /** The compensator calls made for one instance, oldest first. */
  function OwnCalls(calls: seq<CompensatorCall>, id: string): seq<CompensatorCall>
  {
    if calls == [] then []
    else
      var c := calls[|calls| - 1];
      OwnCalls(calls[..|calls| - 1], id) + if c.entityId == id then [c] else []
  }

  ghost predicate SameExecutions(st: Store, st': Store, id: string)
  {
    forall k :: Owned(id, k) ==>
      (k in st.executions <==> k in st'.executions) && (k in st.executions ==> st'.executions[k] == st.executions[k])
  }

  /** The instance's record, executions and compensator calls are the same in both stores, and the
      later one has lost no instance. */
  ghost predicate SameOwn(st: Store, st': Store, id: string)
  {
    && st.instances.Keys <= st'.instances.Keys && id in st.instances && st'.instances[id] == st.instances[id]
    && SameExecutions(st, st', id) && OwnCalls(st'.calls, id) == OwnCalls(st.calls, id)
  }

  lemma SameOwnTrans(a: Store, b: Store, c: Store, id: string)
    requires SameOwn(a, b, id) && SameOwn(b, c, id)
    ensures SameOwn(a, c, id)
  {
  }

  lemma {:induction false} OthersCallsAdd(calls: seq<CompensatorCall>, calls': seq<CompensatorCall>, id: string)
    requires calls <= calls' && forall i :: |calls| <= i < |calls'| ==> calls'[i].entityId != id
    ensures OwnCalls(calls', id) == OwnCalls(calls, id)
    decreases |calls'|
  {
    if |calls'| > |calls| {
      OthersCallsAdd(calls, calls'[..|calls'| - 1], id);
    } else {
      assert calls' == calls;
    }
  }

  /** Every call from position n on was made for the instance. */
  ghost predicate CallsFor(st: Store, st': Store, id: string)
  {
    st.calls <= st'.calls && forall i :: |st.calls| <= i < |st'.calls| ==> st'.calls[i].entityId == id
  }

  lemma {:induction false} OwnAppend(calls: seq<CompensatorCall>, calls': seq<CompensatorCall>, id: string)
    requires calls <= calls' && forall i :: |calls| <= i < |calls'| ==> calls'[i].entityId == id
    ensures OwnCalls(calls', id) == OwnCalls(calls, id) + calls'[|calls|..]
    decreases |calls'|
  {
    var n := |calls'| - 1;
    if |calls'| > |calls| {
      OwnAppend(calls, calls'[..n], id);
      assert calls'[|calls|..] == calls'[..n][|calls|..] + [calls'[n]];
    } else {
      assert calls' == calls && calls'[|calls|..] == [];
    }
  }

  lemma OneFrameCalls(reg: Registry, w: World, st: Store, id: string)
    requires id in st.instances
    ensures CallsFor(st, CompensateOneFrame(reg, w, st, id).store, id)
  {
  }

  lemma FinishCalls(reg: Registry, st: Store, id: string)
    requires id in st.instances
    ensures FinishCompensation(reg, st, id).store.calls == st.calls
  {
    hide ResolveTransitions;
  }

  lemma CallsForTrans(a: Store, b: Store, c: Store, id: string)
    requires CallsFor(a, b, id) && CallsFor(b, c, id)
    ensures CallsFor(a, c, id)
  {
    forall i | |a.calls| <= i < |c.calls|
      ensures c.calls[i].entityId == id
    {
      assert i < |b.calls| ==> c.calls[i] == b.calls[i];
    }
  }

  lemma {:induction false} LoopCalls(reg: Registry, w: World, st: Store, id: string, left: nat)
    requires id in st.instances
    ensures CallsFor(st, CompensationLoop(reg, w, st, id, left).store, id)
    decreases left
  {
    hide FinishCompensation, CompensateOneFrame;
    if left > 0 {
      if st.instances[id].stack == [] {
        FinishCalls(reg, st, id);
      } else {
        OneFrameCalls(reg, w, st, id);
        var s := CompensateOneFrame(reg, w, st, id);
        if s.error.None? {
          LoopCalls(reg, w, s.store, id, left - 1);
          CallsForTrans(st, s.store, CompensationLoop(reg, w, s.store, id, left - 1).store, id);
        }
      }
    }
  }

  /** A step on behalf of another instance. */
  lemma OthersStep(reg: Registry, st: Store, st': Store, other: string, id: string)
    requires Evolves(reg, st, st', other) && CallsFor(st, st', other) && other != id && id in st.instances
    ensures SameOwn(st, st', id)
  {
    OthersCallsAdd(st.calls, st'.calls, id);
  }

  lemma TurnCalls(reg: Registry, w: World, st: Store, id: string)
    requires ValidRegistry(reg) && Inv(reg, st) && Runnable(st, id)
    ensures CallsFor(st, ProcessInstance(reg, w, st, id).store, id)
  {
    hide Inv, Sound, ValidRegistry, CompensationLoop;
    InvIsSound(reg, st, id);
    if st.instances[id].status == Running {
      hide ProcessInstance;
      ProcessRunningStep(reg, w, st, id);
    } else {
      LoopCalls(reg, w, st, id, MAX_FRAMES);
    }
  }

  // ---------- timeouts ----------

  ghost predicate NotAmong(dues: seq<Due>, id: string)
  {
    forall i :: 0 <= i < |dues| ==> dues[i].entityId != id
  }

  lemma TimeoutPasses(reg: Registry, st: Store, dues: seq<Due>)
    requires ValidRegistry(reg) && Inv(reg, st) && AllDue(st, dues) && dues != []
    ensures var s := ProcessTimeout(reg, st, dues[0]);
            && s.error.None? && Inv(reg, s.store) && AllDue(s.store, dues[1..]) && NotAmong(dues[1..], dues[0].entityId)
            && dues[0].entityId in s.store.instances
            && forall x :: x in st.instances && x != dues[0].entityId ==> SameOwn(st, s.store, x)
  {
    hide Sound, Evolves, ValidRegistry, CallsSound, ProcessTimeout;
    var d := dues[0];
    assert DueAt(st, d) && Sound(reg, st, d.entityId);
    ProcessTimeoutStep(reg, st, d);
    var st' := ProcessTimeout(reg, st, d).store;
    EvolvesKeepsInv(reg, st, st', d.entityId);
    forall x | x in st.instances && x != d.entityId
      ensures SameOwn(st, st', x)
    {
      OthersStep(reg, st, st', d.entityId, x);
    }
    forall i | 0 <= i < |dues[1..]|
      ensures DueAt(st', dues[1..][i])
    {
      assert DueAt(st, dues[i + 1]);
    }
  }

  lemma {:induction false} TimeoutsPass(reg: Registry, st: Store, dues: seq<Due>, id: string)
    requires ValidRegistry(reg) && Inv(reg, st) && AllDue(st, dues)
    requires id in st.instances && NotAmong(dues, id)
    ensures SameOwn(st, ProcessTimeouts(reg, st, dues).store, id)
    decreases |dues|
  {
    hide Inv, ValidRegistry, ProcessTimeout, AllDue;
    if dues != [] {
      TimeoutPasses(reg, st, dues);
      var s := ProcessTimeout(reg, st, dues[0]);
      TimeoutsPass(reg, s.store, dues[1..], id);
      SameOwnTrans(st, s.store, ProcessTimeouts(reg, s.store, dues[1..]).store, id);
    }
  }

  /** Each due wait of the list is processed once, at a store where it is as it was. */
  lemma {:induction false} DueIsProcessed(reg: Registry, st: Store, dues: seq<Due>, i: nat) returns (at: Store)
    requires ValidRegistry(reg) && Inv(reg, st) && AllDue(st, dues) && i < |dues|
    ensures SameOwn(st, at, dues[i].entityId)
    ensures SameOwn(ProcessTimeout(reg, at, dues[i]).store, ProcessTimeouts(reg, st, dues).store, dues[i].entityId)
    decreases |dues|
  {
    hide Inv, ValidRegistry, ProcessTimeout;
    assert DueAt(st, dues[i]);
    TimeoutPasses(reg, st, dues);
    var s := ProcessTimeout(reg, st, dues[0]);
    if i == 0 {
      at := st;
      TimeoutsPass(reg, s.store, dues[1..], dues[0].entityId);
    } else {
      at := DueIsProcessed(reg, s.store, dues[1..], i - 1);
      assert dues[i].entityId != dues[0].entityId;
      SameOwnTrans(st, s.store, at, dues[i].entityId);
    }
  }

  // ---------- turns ----------

  lemma OthersTurn(reg: Registry, w: World, st: Store, other: string, id: string)
    requires ValidRegistry(reg) && Inv(reg, st) && Runnable(st, other) && other != id && id in st.instances
    ensures SameOwn(st, ProcessInstance(reg, w, st, other).store, id)
  {
    hide Inv, Evolves, ValidRegistry, ProcessInstance;
    ProcessInstanceStep(reg, w, st, other);
    TurnCalls(reg, w, st, other);
    OthersStep(reg, st, ProcessInstance(reg, w, st, other).store, other, id);
  }

  /** The instances before, after or other than id. */
  lemma {:induction false} OthersPass(reg: Registry, w: World, st: Store, ids: seq<string>, id: string)
    requires ValidRegistry(reg) && Inv(reg, st) && AllRunnable(st, ids) && id !in ids && id in st.instances
    ensures SameOwn(st, ProcessAll(reg, w, st, ids).store, id)
    decreases |ids|
  {
    hide Inv, Evolves, ValidRegistry, ProcessInstance;
    if ids != [] {
      assert Runnable(st, ids[0]);
      ProcessInstanceStep(reg, w, st, ids[0]);
      var s := ProcessInstance(reg, w, st, ids[0]);
      OthersTurn(reg, w, st, ids[0], id);
      if s.error.None? {
        RestRunnable(reg, st, s.store, ids);
        OthersPass(reg, w, s.store, ids[1..], id);
        SameOwnTrans(st, s.store, ProcessAll(reg, w, s.store, ids[1..]).store, id);
      }
    }
  }

  lemma RestRunnable(reg: Registry, st: Store, st': Store, ids: seq<string>)
    requires ids != [] && AllRunnable(st, ids) && Evolves(reg, st, st', ids[0])
    ensures AllRunnable(st', ids[1..])
  {
    forall i | 0 <= i < |ids[1..]|
      ensures Runnable(st', ids[1..][i])
    {
      assert Runnable(st, ids[i + 1]);
    }
  }

  /** Does the loop over the runnable instances get to id, before an error ends it? */
  predicate TurnIn(reg: Registry, w: World, st: Store, ids: seq<string>, id: string)
    decreases |ids|
  {
    && ids != []
    && (|| ids[0] == id
        || (var s := ProcessInstance(reg, w, st, ids[0]); s.error.None? && TurnIn(reg, w, s.store, ids[1..], id)))
  }

  /** Does id have its turn in this tick? */
  predicate HasTurn(reg: Registry, w: World, st: Store, id: string)
  {
    var s := ProcessTimeouts(reg, st, TimeoutsOf(w, st));
    s.error.None? && TurnIn(reg, w, s.store, RunnableOf(w, s.store), id)
  }

  /** `s` is what processing id at `at` left of it. */
  ghost predicate Processed(reg: Registry, w: World, st: Store, at: Store, s: Step, id: string)
  {
    && Inv(reg, at) && SameOwn(st, at, id)
    && var own := ProcessInstance(reg, w, at, id);
       SameOwn(own.store, s.store, id) && (own.error.Some? ==> s == own)
  }

  /** An error of another instance ended the tick before id's turn. */
  ghost predicate Starved(st: Store, s: Step, id: string)
  {
    s.error.Some? && SameOwn(st, s.store, id)
  }

  lemma {:induction false} AllReach(reg: Registry, w: World, st: Store, ids: seq<string>, id: string)
    returns (at: Store)
    requires ValidRegistry(reg) && Inv(reg, st) && AllRunnable(st, ids) && id in ids
    ensures var s := ProcessAll(reg, w, st, ids);
            if TurnIn(reg, w, st, ids, id) then Processed(reg, w, st, at, s, id) else Starved(st, s, id)
    decreases |ids|
  {
    hide Inv, Evolves, ValidRegistry, ProcessInstance;
    at := st;
    assert Runnable(st, ids[0]);
    ProcessInstanceStep(reg, w, st, ids[0]);
    var s := ProcessInstance(reg, w, st, ids[0]);
    if ids[0] == id {
      StillThere(reg, st, s.store, id);
      if s.error.None? {
        RestRunnable(reg, st, s.store, ids);
        OthersPass(reg, w, s.store, ids[1..], id);
      }
    } else {
      assert Runnable(st, id) by {
        var i :| 0 <= i < |ids| && ids[i] == id;
        assert Runnable(st, ids[i]);
      }
      OthersTurn(reg, w, st, ids[0], id);
      if s.error.None? {
        RestRunnable(reg, st, s.store, ids);
        assert ids == [ids[0]] + ids[1..];
        at := AllReach(reg, w, s.store, ids[1..], id);
      }
    }
  }

  lemma StillThere(reg: Registry, st: Store, st': Store, id: string)
    requires Evolves(reg, st, st', id) && id in st.instances
    ensures id in st'.instances
  {
  }

  lemma RunnableIsNotDue(st: Store, dues: seq<Due>, id: string)
    requires AllDue(st, dues) && Runnable(st, id)
    ensures NotAmong(dues, id)
  {
    forall i | 0 <= i < |dues|
      ensures dues[i].entityId != id
    {
      assert DueAt(st, dues[i]);
    }
  }

  /** A tick processes a runnable instance exactly once, at a store where it is as it was before the
      tick; or an error of another instance keeps it from its turn, and it stays as it is. */
  lemma TickReaches(reg: Registry, w: World, st: Store, id: string) returns (at: Store)
    requires ValidRegistry(reg) && Inv(reg, st) && ValidWorld(w) && Runnable(st, id)
    ensures var s := RunOnce(reg, w, st);
            if HasTurn(reg, w, st, id) then Processed(reg, w, st, at, s, id) else Starved(st, s, id)
  {
    hide Inv, ValidRegistry, ProcessTimeouts, ProcessAll, ProcessInstance, TurnIn, NotAmong;
    DuesAreListed(st, w.order(TimeoutSite, st.instances.Keys), w.now);
    ProcessTimeoutsStep(reg, st, TimeoutsOf(w, st));
    RunnableIsNotDue(st, TimeoutsOf(w, st), id);
    TimeoutsPass(reg, st, TimeoutsOf(w, st), id);
    var st' := ProcessTimeouts(reg, st, TimeoutsOf(w, st)).store;
    RunnableAreListed(st', w.order(RunnableSite, st'.instances.Keys));
    at := AllReach(reg, w, st', RunnableOf(w, st'), id);
  }

  /** The other public calls leave an instance alone that does not wait, unless they cancel it. */
  lemma CallPasses(reg: Registry, st: Store, call: Call, id: string)
    requires id in st.instances && st.instances[id].status != Waiting && !call.Tick? && call != Cancel(id)
    ensures SameOwn(st, Apply(reg, st, call).store, id)
  {
    hide ResolveTransitions, SignalSnapshot, SignalAccepted, GetGraph, Committed;
  }

  /** So does a tick an instance that has ended, or whose wait is not over. */
  lemma IdlePasses(reg: Registry, w: World, st: Store, id: string)
    requires ValidRegistry(reg) && Inv(reg, st) && ValidWorld(w) && id in st.instances
    requires !Runnable(st, id) && !IsDue(st.instances[id], w.now)
    ensures SameOwn(st, RunOnce(reg, w, st).store, id)
  {
    hide Inv, ValidRegistry, ProcessTimeouts, ProcessAll;
    var dues := TimeoutsOf(w, st);
    DuesAreListed(st, w.order(TimeoutSite, st.instances.Keys), w.now);
    ProcessTimeoutsStep(reg, st, dues);
    assert NotAmong(dues, id);
    TimeoutsPass(reg, st, dues, id);
    var st' := ProcessTimeouts(reg, st, dues).store;
    RunnableAreListed(st', w.order(RunnableSite, st'.instances.Keys));
    OthersPass(reg, w, st', RunnableOf(w, st'), id);
    SameOwnTrans(st, st', ProcessAll(reg, w, st', RunnableOf(w, st')).store, id);
  }

  lemma {:induction false} OnlyListedHaveTurns(reg: Registry, w: World, st: Store, ids: seq<string>, id: string)
    requires id !in ids
    ensures !TurnIn(reg, w, st, ids, id)
    decreases |ids|
  {
    hide ProcessInstance;
    if ids != [] {
      OnlyListedHaveTurns(reg, w, ProcessInstance(reg, w, st, ids[0]).store, ids[1..], id);
    }
  }

  lemma IdleHasNoTurn(reg: Registry, w: World, st: Store, id: string)
    requires ValidRegistry(reg) && Inv(reg, st) && ValidWorld(w) && id in st.instances
    requires !Runnable(st, id) && !IsDue(st.instances[id], w.now)
    ensures !HasTurn(reg, w, st, id)
  {
    hide Inv, ValidRegistry, ProcessTimeouts, TurnIn;
    var dues := TimeoutsOf(w, st);
    DuesAreListed(st, w.order(TimeoutSite, st.instances.Keys), w.now);
    assert NotAmong(dues, id);
    TimeoutsPass(reg, st, dues, id);
    var st' := ProcessTimeouts(reg, st, dues).store;
    RunnableAreListed(st', w.order(RunnableSite, st'.instances.Keys));
    OnlyListedHaveTurns(reg, w, st', RunnableOf(w, st'), id);
  }

  /** How often id has its turn while the calls are made. */
  function Turns(reg: Registry, st: Store, calls: seq<Call>, id: string): nat
  {
    if calls == [] then 0
    else
      var n := |calls| - 1;
      Turns(reg, st, calls[..n], id)
      + if calls[n].Tick? && HasTurn(reg, calls[n].w, RunFrom(reg, st, calls[..n]), id) then 1 else 0
  }

  // ---------- waits ----------

  /** A tick processes every due wait exactly once, whatever else happens in it: afterwards the
      instance is as its own timeout left it. */
  lemma TickEndsWaits(reg: Registry, w: World, st: Store, id: string) returns (at: Store)
    requires ValidRegistry(reg) && Inv(reg, st) && ValidWorld(w)
    requires id in st.instances && IsDue(st.instances[id], w.now)
    ensures SameOwn(st, at, id)
    ensures var s := ProcessTimeout(reg, at, Due(id, st.instances[id].waiting.value));
            SameOwn(s.store, RunOnce(reg, w, st).store, id)
  {
    hide Inv, ValidRegistry, ProcessTimeouts, ProcessAll, ProcessTimeout;
    var order := w.order(TimeoutSite, st.instances.Keys);
    DuesAreListed(st, order, w.now);
    assert id in order;
    var dues := TimeoutsOf(w, st);
    var i :| 0 <= i < |dues| && dues[i] == Due(id, st.instances[id].waiting.value);
    ProcessTimeoutsStep(reg, st, dues);
    at := DueIsProcessed(reg, st, dues, i);
    var st' := ProcessTimeouts(reg, st, dues).store;
    TimeoutLeavesUnrunnable(reg, at, dues[i]);
    RunnableAreListed(st', w.order(RunnableSite, st'.instances.Keys));
    OthersPass(reg, w, st', RunnableOf(w, st'), id);
    SameOwnTrans(ProcessTimeout(reg, at, dues[i]).store, st', RunOnce(reg, w, st).store, id);
  }

  lemma TimeoutLeavesUnrunnable(reg: Registry, st: Store, d: Due)
    requires DueAt(st, d)
    ensures !Runnable(ProcessTimeout(reg, st, d).store, d.entityId)
  {
    hide GetGraph;
  }

  lemma NoneToDo(reg: Registry, w: World, st: Store)
    ensures ProcessTimeouts(reg, st, []) == Done(st) && ProcessAll(reg, w, st, []) == Done(st)
  {
  }

  lemma {:induction false} NoneIsDue(st: Store, order: seq<string>, now: int)
    requires forall x :: x in st.instances ==> !IsDue(st.instances[x], now)
    ensures DueIn(st, order, now) == []
  {
    if order != [] {
      NoneIsDue(st, order[..|order| - 1], now);
    }
  }

  /** If no wait is over, a tick is the loop over the runnable instances. */
  lemma NoWaitIsOver(reg: Registry, w: World, st: Store)
    requires forall x :: x in st.instances ==> !IsDue(st.instances[x], w.now)
    ensures TimeoutsOf(w, st) == [] && RunOnce(reg, w, st) == ProcessAll(reg, w, st, RunnableOf(w, st))
  {
    hide ProcessAll;
    NoneIsDue(st, w.order(TimeoutSite, st.instances.Keys), w.now);
    NoneToDo(reg, w, st);
  }

  // ---------- a lone instance ----------

  ghost predicate Lone(st: Store, id: string)
  {
    st.instances.Keys == {id}
  }

  lemma LoneOrder(order: seq<string>, id: string)
    requires Enumerates(order, {id})
    ensures order == [id]
  {
    assert forall i :: 0 <= i < |order| ==> order[i] in order;
    DistinctFits(order, {id});
    assert id in order;
  }

  /** With one instance in the store a tick is that instance's timeout, if it is due, or its turn, if
      it is runnable. */
  lemma LoneTick(reg: Registry, w: World, st: Store, id: string)
    requires ValidWorld(w) && Lone(st, id)
    ensures var rec := st.instances[id];
            RunOnce(reg, w, st) ==
              if IsDue(rec, w.now) then
                var s := ProcessTimeout(reg, st, Due(id, rec.waiting.value));
                if s.error.Some? then s else ProcessAll(reg, w, s.store, RunnableOf(w, s.store))
              else if Runnable(st, id) then ProcessInstance(reg, w, st, id)
              else Done(st)
  {
    hide ProcessTimeout, ProcessInstance, ProcessTimeouts, ProcessAll;
    LoneOrder(w.order(TimeoutSite, st.instances.Keys), id);
    LoneOrder(w.order(RunnableSite, st.instances.Keys), id);
    LoneLists(st, id, w.now);
    NoneToDo(reg, w, st);
    if IsDue(st.instances[id], w.now) {
      OneTimeout(reg, st, Due(id, st.instances[id].waiting.value));
    } else if Runnable(st, id) {
      OneInstance(reg, w, st, id);
    }
  }

  lemma LoneLists(st: Store, id: string, now: int)
    requires id in st.instances
    ensures DueIn(st, [id], now)
            == if IsDue(st.instances[id], now) then [Due(id, st.instances[id].waiting.value)] else []
    ensures RunnableIn(st, [id]) == if Runnable(st, id) then [id] else []
  {
    assert [id][..0] == [];
  }

  lemma OneTimeout(reg: Registry, st: Store, d: Due)
    ensures ProcessTimeouts(reg, st, [d]) == ProcessTimeout(reg, st, d)
  {
    hide ProcessTimeout;
    assert [d][1..] == [];
  }

  lemma OneInstance(reg: Registry, w: World, st: Store, id: string)
    ensures ProcessAll(reg, w, st, [id]) == ProcessInstance(reg, w, st, id)
  {
    hide ProcessInstance;
    assert [id][1..] == [];
  }

  /** An instance that is alone in the store is never kept from its turn. */
  lemma LoneHasTurn(reg: Registry, w: World, st: Store, id: string)
    requires ValidWorld(w) && Lone(st, id) && Runnable(st, id)
    ensures HasTurn(reg, w, st, id)
  {
    hide ProcessTimeouts, ProcessInstance;
    LoneOrder(w.order(TimeoutSite, st.instances.Keys), id);
    LoneOrder(w.order(RunnableSite, st.instances.Keys), id);
    LoneLists(st, id, w.now);
    NoneToDo(reg, w, st);
  }
}
