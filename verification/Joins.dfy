/**
 When a join is ready: the barrier checks, which count their way through the children, against the
 plain meaning of the barriers.
 */
module Joins {
  import opened Wrappers
  import opened Entities
  import opened Graphs
  import opened Lines
  import opened Registries
  import opened Scheduling

  // ---------- barriers that name a child ----------

  predicate Settled(s: Status)
  {
    s == Completed || s == Failed || s == Compensated
  }

  /** The child has ended, and not in a way that fails the parent. */
  predicate ChildSettled(st: Store, join: JoinSpec, child: string)
  {
    && child in st.instances && Settled(st.instances[child].status)
    && (join.failParentOnChildFailure ==> st.instances[child].status == Completed)
  }

  predicate ChildCompleted(st: Store, child: string)
  {
    child in st.instances && st.instances[child].status == Completed
  }

  predicate ChildFailed(st: Store, child: string)
  {
    child in st.instances && st.instances[child].status in {Failed, Compensated}
  }

  ghost predicate BarrierSettled(w: World, st: Store, id: string, join: JoinSpec, k: int)
  {
    0 <= k < |join.barriers| &&
    var child := BarrierChild(w, st, id, join, k);
    child.Ok? && child.value != "" && ChildSettled(st, join, child.value)
  }

  ghost predicate BarrierWon(w: World, st: Store, id: string, join: JoinSpec, k: int)
  {
    BarrierSettled(w, st, id, join, k) && ChildCompleted(st, BarrierChild(w, st, id, join, k).value)
  }

  /** Every named child has ended; all of them completed, or for ANY_SUCCESS at least one. */
  ghost predicate StaticReady(w: World, st: Store, id: string, join: JoinSpec)
  {
    && (forall k :: 0 <= k < |join.barriers| ==> BarrierSettled(w, st, id, join, k))
    && if join.policy == AnySuccess then exists k :: BarrierWon(w, st, id, join, k)
       else forall k :: 0 <= k < |join.barriers| ==> BarrierWon(w, st, id, join, k)
  }

  lemma {:induction false} StaticFrom(w: World, st: Store, id: string, join: JoinSpec, k: nat, completed: nat)
    requires k <= |join.barriers| && completed <= k
    ensures CheckStaticBarriers(w, st, id, join, k, completed) == JoinReady <==>
              && (forall i :: k <= i < |join.barriers| ==> BarrierSettled(w, st, id, join, i))
              && if join.policy == AnySuccess then completed > 0 || exists i :: k <= i && BarrierWon(w, st, id, join, i)
                 else completed == k && forall i :: k <= i < |join.barriers| ==> BarrierWon(w, st, id, join, i)
    decreases |join.barriers| - k
  {
    if k < |join.barriers| {
      var child := BarrierChild(w, st, id, join, k);
      if BarrierSettled(w, st, id, join, k) {
        var done := if ChildCompleted(st, child.value) then completed + 1 else completed;
        StaticFrom(w, st, id, join, k + 1, done);
        assert BarrierWon(w, st, id, join, k) <==> done == completed + 1;
      }
    }
  }

  lemma StaticMeaning(w: World, st: Store, id: string, join: JoinSpec)
    ensures CheckStaticBarriers(w, st, id, join, 0, 0) == JoinReady <==> StaticReady(w, st, id, join)
  {
    StaticFrom(w, st, id, join, 0, 0);
  }

  /** A named child has failed, and every child named before it has completed. */
  ghost predicate FirstToFail(w: World, st: Store, id: string, join: JoinSpec, k: int)
  {
    && 0 <= k < |join.barriers| && (forall i :: 0 <= i < k ==> BarrierWon(w, st, id, join, i))
    && var child := BarrierChild(w, st, id, join, k);
       child.Ok? && child.value != "" && ChildFailed(st, child.value)
  }

  lemma {:induction false} StaticFailsFrom(w: World, st: Store, id: string, join: JoinSpec, k: nat, completed: nat)
    requires k <= |join.barriers| && join.failParentOnChildFailure
    requires forall i :: 0 <= i < k ==> BarrierWon(w, st, id, join, i)
    ensures CheckStaticBarriers(w, st, id, join, k, completed) == JoinChildFailed <==>
              exists i :: k <= i && FirstToFail(w, st, id, join, i)
    decreases |join.barriers| - k
  {
    if k < |join.barriers| {
      var child := BarrierChild(w, st, id, join, k);
      if BarrierWon(w, st, id, join, k) {
        StaticFailsFrom(w, st, id, join, k + 1, completed + 1);
      } else if FirstToFail(w, st, id, join, k) {
      } else {
        assert forall i :: k < i && FirstToFail(w, st, id, join, i) ==> BarrierWon(w, st, id, join, k);
      }
    }
  }

  /** A failed child fails the parent, but only once no unfinished child is named before it. */
  lemma StaticFailMeaning(w: World, st: Store, id: string, join: JoinSpec)
    ensures CheckStaticBarriers(w, st, id, join, 0, 0) == JoinChildFailed <==>
              join.failParentOnChildFailure && exists k :: FirstToFail(w, st, id, join, k)
  {
    if join.failParentOnChildFailure {
      StaticFailsFrom(w, st, id, join, 0, 0);
    } else {
      NeverFails(w, st, id, join, 0, 0);
    }
  }

  lemma {:induction false} NeverFails(w: World, st: Store, id: string, join: JoinSpec, k: nat, completed: nat)
    requires k <= |join.barriers| && !join.failParentOnChildFailure
    ensures CheckStaticBarriers(w, st, id, join, k, completed) != JoinChildFailed
    decreases |join.barriers| - k
  {
    if k < |join.barriers| {
      NeverFails(w, st, id, join, k + 1, completed);
      NeverFails(w, st, id, join, k + 1, completed + 1);
    }
  }

  // ---------- barriers that count children ----------

  /** The children whose correlation id starts with the prefix. */
  function Family(st: Store, id: string, prefix: string): set<string>
  {
    set x | x in st.instances && st.instances[x].parent == Some(id) && prefix <= st.instances[x].correlationId
  }

  /** The names come from the last SPAWNED entry that names anyone; no such entry names no one. */
  ghost predicate LastNamed(journal: seq<Entry>, names: seq<string>)
  {
    || (names == [] && forall i :: 0 <= i < |journal| ==> !NamesAny(journal[i]))
    || exists i :: 0 <= i < |journal| && NamesAny(journal[i]) && journal[i].spawned == names
                   && forall j :: i < j < |journal| ==> !NamesAny(journal[j])
  }

  predicate NamesAny(e: Entry)
  {
    e.kind == SpawnedChildren && e.spawned != []
  }

  lemma {:induction false} LastNamedIs(journal: seq<Entry>, names: seq<string>)
    ensures LastNamed(journal, names) <==> names == SpawnedFromJournal(journal)
  {
    if journal != [] {
      var n := |journal| - 1;
      assert forall i :: 0 <= i < n ==> journal[..n][i] == journal[i];
      if NamesAny(journal[n]) {
        assert LastNamed(journal, journal[n].spawned);
      } else {
        LastNamedIs(journal[..n], names);
        assert LastNamed(journal, names) <==> LastNamed(journal[..n], names);
      }
    }
  }

  /** Where the list names an instance whose correlation id starts with the prefix. */
  function NamedWith(st: Store, names: seq<string>, prefix: string): set<int>
  {
    set i | 0 <= i < |names| && names[i] in st.instances && prefix <= st.instances[names[i]].correlationId
  }

  lemma {:induction false} NamedCount(st: Store, names: seq<string>, prefix: string)
    ensures SpawnedWithPrefix(st, names, prefix) == |NamedWith(st, names, prefix)|
  {
    if names != [] {
      var n := |names| - 1;
      NamedCount(st, names[..n], prefix);
      var before, all := NamedWith(st, names[..n], prefix), NamedWith(st, names, prefix);
      assert forall i :: 0 <= i < n ==> names[..n][i] == names[i];
      assert all == before + if n in all then {n} else {};
    }
  }

  /** There are as many children as the barrier asks for; if it does not say, as many as the last spawn
      named. */
  ghost predicate EnoughChildren(st: Store, id: string, b: DynamicBarrier)
    requires id in st.instances
  {
    var n := |Family(st, id, b.correlationPrefix)|;
    if b.expectedCount != 0 then b.expectedCount <= n
    else forall names :: LastNamed(st.instances[id].journal, names) ==>
           |NamedWith(st, names, b.correlationPrefix)| <= n
  }

  lemma EnoughMeans(st: Store, id: string, b: DynamicBarrier)
    requires id in st.instances
    ensures var n := |Family(st, id, b.correlationPrefix)|;
            EnoughChildren(st, id, b) <==> ExpectedChildren(st, id, b, n) <= n
  {
    hide LastNamed, Family, NamedWith;
    var journal := st.instances[id].journal;
    LastNamedIs(journal, SpawnedFromJournal(journal));
    NamedCount(st, SpawnedFromJournal(journal), b.correlationPrefix);
    forall names | LastNamed(journal, names)
      ensures names == SpawnedFromJournal(journal)
    {
      LastNamedIs(journal, names);
    }
  }

  /** The barrier's own policy is ANY_SUCCESS, or it has none and the join's is. */
  predicate WantsAny(join: JoinSpec, b: DynamicBarrier)
  {
    b.policy == AnySuccess || (b.policy == PolicyUnspecified && join.policy == AnySuccess)
  }

  /** There are enough children, all have ended, and all completed, or for ANY_SUCCESS at least one. */
  ghost predicate DynamicReady(st: Store, id: string, join: JoinSpec, k: int)
    requires id in st.instances
  {
    0 <= k < |join.dynamicBarriers| &&
    var b := join.dynamicBarriers[k];
    var family := Family(st, id, b.correlationPrefix);
    && EnoughChildren(st, id, b)
    && (forall x :: x in family ==> ChildSettled(st, join, x))
    && if WantsAny(join, b) then exists x :: x in family && ChildCompleted(st, x)
       else forall x :: x in family ==> ChildCompleted(st, x)
  }

  lemma {:induction false} CountMeaning(st: Store, join: JoinSpec, b: DynamicBarrier, children: seq<string>,
          expected: int, completed: nat, failed: nat)
    ensures CountChildren(st, join, b, children, expected, completed, failed) == JoinReady <==>
              && (forall x :: x in children ==> ChildSettled(st, join, x))
              && if WantsAny(join, b) then
                    completed > 0 || exists x :: x in children && ChildCompleted(st, x)
                 else
                   && failed == 0 && completed + |children| >= expected
                   && forall x :: x in children ==> ChildCompleted(st, x)
    decreases |children|
  {
    if children != [] && ChildSettled(st, join, children[0]) {
      assert children == [children[0]] + children[1..];
      if ChildCompleted(st, children[0]) {
        CountMeaning(st, join, b, children[1..], expected, completed + 1, failed);
      } else {
        CountMeaning(st, join, b, children[1..], expected, completed, failed + 1);
      }
    }
  }

  lemma {:induction false} ChildrenAreFamily(st: Store, order: seq<string>, id: string, prefix: string)
    requires Distinct(order)
    ensures Distinct(ChildrenIn(st, order, id, prefix))
    ensures forall x :: x in ChildrenIn(st, order, id, prefix) <==> x in order && x in Family(st, id, prefix)
  {
    if order != [] {
      var n := |order| - 1;
      ChildrenAreFamily(st, order[..n], id, prefix);
      assert order == order[..n] + [order[n]];
      var before := ChildrenIn(st, order[..n], id, prefix);
      assert forall i :: 0 <= i < |before| ==> before[i] in order[..n];
    }
  }

  lemma {:induction false} DistinctCounts(s: seq<string>, members: set<string>)
    requires Distinct(s) && forall x :: x in s <==> x in members
    ensures |s| == |members|
  {
    if s != [] {
      var n := |s| - 1;
      assert s == s[..n] + [s[n]];
      assert forall i :: 0 <= i < n ==> s[..n][i] == s[i];
      DistinctCounts(s[..n], members - {s[n]});
    }
  }

  lemma DynamicMeaning(w: World, st: Store, id: string, join: JoinSpec, k: nat)
    requires ValidWorld(w) && id in st.instances && k < |join.dynamicBarriers|
    ensures CheckDynamicBarrier(w, st, id, join, k) == JoinReady <==> DynamicReady(st, id, join, k)
  {
    var b := join.dynamicBarriers[k];
    var family := Family(st, id, b.correlationPrefix);
    var children := PrefixChildren(w, st, id, join, k);
    ChildrenAreFamily(st, w.order(PrefixSite(id, k), st.instances.Keys), id, b.correlationPrefix);
    DistinctCounts(children, family);
    EnoughMeans(st, id, b);
    CountMeaning(st, join, b, children, ExpectedChildren(st, id, b, |children|), 0, 0);
  }

  lemma {:induction false} DynamicsMeaning(w: World, st: Store, id: string, join: JoinSpec, k: nat)
    requires ValidWorld(w) && id in st.instances && k <= |join.dynamicBarriers|
    ensures CheckDynamicBarriers(w, st, id, join, k) == JoinReady <==>
              forall i :: k <= i < |join.dynamicBarriers| ==> DynamicReady(st, id, join, i)
    decreases |join.dynamicBarriers| - k
  {
    hide DynamicReady, CheckDynamicBarrier, ValidWorld;
    if k < |join.dynamicBarriers| {
      DynamicMeaning(w, st, id, join, k);
      DynamicsMeaning(w, st, id, join, k + 1);
    }
  }

  // ---------- children that fail the parent ----------

  /** The i-th child has failed, and every child before it has completed. */
  predicate FailsFirst(st: Store, children: seq<string>, i: int)
  {
    0 <= i < |children| && ChildFailed(st, children[i]) && forall j :: 0 <= j < i ==> ChildCompleted(st, children[j])
  }

  lemma {:induction false} CountFails(st: Store, join: JoinSpec, b: DynamicBarrier, children: seq<string>,
          expected: int, completed: nat, failed: nat)
    ensures CountChildren(st, join, b, children, expected, completed, failed)
              in {JoinReady, JoinNotReady, JoinChildFailed}
    ensures CountChildren(st, join, b, children, expected, completed, failed) == JoinChildFailed <==>
              join.failParentOnChildFailure && exists i :: FailsFirst(st, children, i)
    decreases |children|
  {
    if children != [] {
      var rest := children[1..];
      CountFails(st, join, b, rest, expected, completed + 1, failed);
      CountFails(st, join, b, rest, expected, completed, failed + 1);
      if ChildCompleted(st, children[0]) {
        assert forall j :: 0 <= j < |rest| ==> rest[j] == children[j + 1];
        if exists i :: FailsFirst(st, rest, i) {
          var i :| FailsFirst(st, rest, i);
          assert FailsFirst(st, children, i + 1);
        }
        if exists i :: FailsFirst(st, children, i) {
          var i :| FailsFirst(st, children, i);
          assert FailsFirst(st, rest, i - 1);
        }
      } else if ChildFailed(st, children[0]) {
        assert FailsFirst(st, children, 0);
      }
    }
  }

  /** A failed child fails the parent exactly if every child that the range visits before it has
      completed. */
  lemma DynamicFailMeaning(w: World, st: Store, id: string, join: JoinSpec, k: nat)
    requires ValidWorld(w) && id in st.instances && k < |join.dynamicBarriers|
    ensures CheckDynamicBarrier(w, st, id, join, k) in {JoinReady, JoinNotReady, JoinChildFailed}
    ensures CheckDynamicBarrier(w, st, id, join, k) == JoinChildFailed <==>
              && join.failParentOnChildFailure && EnoughChildren(st, id, join.dynamicBarriers[k])
              && exists i :: FailsFirst(st, PrefixChildren(w, st, id, join, k), i)
  {
    var b := join.dynamicBarriers[k];
    var children := PrefixChildren(w, st, id, join, k);
    ChildrenAreFamily(st, w.order(PrefixSite(id, k), st.instances.Keys), id, b.correlationPrefix);
    DistinctCounts(children, Family(st, id, b.correlationPrefix));
    EnoughMeans(st, id, b);
    CountFails(st, join, b, children, ExpectedChildren(st, id, b, |children|), 0, 0);
  }

  lemma {:induction false} SomeFailsFirst(st: Store, children: seq<string>)
    requires forall x :: x in children ==> ChildCompleted(st, x) || ChildFailed(st, x)
    ensures (exists x :: x in children && ChildFailed(st, x)) ==> exists i :: FailsFirst(st, children, i)
  {
    if children != [] {
      var n := |children| - 1;
      SomeFailsFirst(st, children[..n]);
      assert children == children[..n] + [children[n]];
      if exists i :: FailsFirst(st, children[..n], i) {
        var i :| FailsFirst(st, children[..n], i);
        assert FailsFirst(st, children, i);
      } else {
        forall j | 0 <= j < n
          ensures ChildCompleted(st, children[j])
        {
          assert children[..n][j] == children[j];
        }
        assert ChildFailed(st, children[n]) ==> FailsFirst(st, children, n);
      }
    }
  }

  /** Failures count, there are enough children, and one of them has failed while another has not
      ended. */
  ghost predicate Undecided(st: Store, id: string, join: JoinSpec, k: int)
    requires id in st.instances && 0 <= k < |join.dynamicBarriers|
  {
    var b := join.dynamicBarriers[k];
    var family := Family(st, id, b.correlationPrefix);
    && join.failParentOnChildFailure && EnoughChildren(st, id, b)
    && (exists x :: x in family && ChildFailed(st, x)) && exists y :: y in family && !Settled(st.instances[y].status)
  }

  lemma DecidedInAnyOrder(w: World, w': World, st: Store, id: string, join: JoinSpec, k: nat)
    requires ValidWorld(w) && ValidWorld(w') && id in st.instances && k < |join.dynamicBarriers|
    requires !Undecided(st, id, join, k)
    ensures CheckDynamicBarrier(w, st, id, join, k) == CheckDynamicBarrier(w', st, id, join, k)
  {
    hide ValidWorld, CheckDynamicBarrier, PrefixChildren, EnoughChildren, DynamicReady;
    DynamicMeaning(w, st, id, join, k);
    DynamicMeaning(w', st, id, join, k);
    DynamicFailMeaning(w, st, id, join, k);
    DynamicFailMeaning(w', st, id, join, k);
    if join.failParentOnChildFailure && EnoughChildren(st, id, join.dynamicBarriers[k]) {
      FailsIfAnyFails(w, st, id, join, k);
      FailsIfAnyFails(w', st, id, join, k);
    }
  }

  lemma FailsIfAnyFails(w: World, st: Store, id: string, join: JoinSpec, k: nat)
    requires ValidWorld(w) && id in st.instances && k < |join.dynamicBarriers|
    requires var family := Family(st, id, join.dynamicBarriers[k].correlationPrefix);
             (exists x :: x in family && ChildFailed(st, x)) ==>
               forall y :: y in family ==> Settled(st.instances[y].status)
    ensures (exists i :: FailsFirst(st, PrefixChildren(w, st, id, join, k), i)) <==>
              exists x :: x in Family(st, id, join.dynamicBarriers[k].correlationPrefix) && ChildFailed(st, x)
  {
    var children := PrefixChildren(w, st, id, join, k);
    ChildrenAreFamily(st, w.order(PrefixSite(id, k), st.instances.Keys), id, join.dynamicBarriers[k].correlationPrefix);
    if exists x :: x in children && ChildFailed(st, x) {
      SomeFailsFirst(st, children);
    }
  }

  /** A world whose ranges over exactly these instances visit them in this order. */
  function Listing(w: World, ids: seq<string>): World
  {
    var members := set x | x in ids;
    w.(order := (site: Site, keys: set<string>) => if keys == members then ids else w.order(site, keys))
  }

  lemma ListingIsValid(w: World, ids: seq<string>, site: Site, keys: set<string>)
    requires ValidWorld(w) && Enumerates(ids, keys)
    ensures ValidWorld(Listing(w, ids)) && Listing(w, ids).order(site, keys) == ids
  {
    var w' := Listing(w, ids);
    forall s, ks
      ensures Enumerates(w'.order(s, ks), ks)
    {
      assert Enumerates(w.order(s, ks), ks);
    }
    assert keys == set x | x in ids;
  }

  /** Some order of the range visits this member of the family first. */
  lemma MemberFirst(w: World, st: Store, id: string, join: JoinSpec, k: nat, x: string) returns (w': World)
    requires ValidWorld(w) && id in st.instances && k < |join.dynamicBarriers|
    requires x in Family(st, id, join.dynamicBarriers[k].correlationPrefix)
    ensures ValidWorld(w')
    ensures var children := PrefixChildren(w', st, id, join, k); children != [] && children[0] == x
  {
    var order := w.order(PrefixSite(id, k), st.instances.Keys);
    assert Enumerates(order, st.instances.Keys);
    assert x in order;
    var i :| 0 <= i < |order| && order[i] == x;
    var swapped := order[0 := x][i := order[0]];
    forall y
      ensures y in swapped <==> y in st.instances.Keys
    {
      if y in order {
        var j :| 0 <= j < |order| && order[j] == y;
        assert swapped[if j == 0 then i else if j == i then 0 else j] == y;
      }
    }
    w' := Listing(w, swapped);
    ListingIsValid(w, swapped, PrefixSite(id, k), st.instances.Keys);
    FirstStaysFirst(st, swapped, id, join.dynamicBarriers[k].correlationPrefix);
  }

  lemma {:induction false} FirstStaysFirst(st: Store, order: seq<string>, id: string, prefix: string)
    requires order != [] && order[0] in Family(st, id, prefix)
    ensures var children := ChildrenIn(st, order, id, prefix); children != [] && children[0] == order[0]
  {
    var n := |order| - 1;
    if n > 0 {
      FirstStaysFirst(st, order[..n], id, prefix);
    } else {
      assert order[..n] == [];
    }
  }

  /** The order of the range decides what a barrier that counts children says exactly when it is
      undecided; then it decides between failing the parent and waiting. */
  lemma OrderMattersIff(w: World, st: Store, id: string, join: JoinSpec, k: nat)
    requires ValidWorld(w) && id in st.instances && k < |join.dynamicBarriers|
    ensures Undecided(st, id, join, k) <==>
              exists w' ::
                ValidWorld(w') && CheckDynamicBarrier(w', st, id, join, k) != CheckDynamicBarrier(w, st, id, join, k)
    ensures Undecided(st, id, join, k) ==> CheckDynamicBarrier(w, st, id, join, k) in {JoinChildFailed, JoinNotReady}
  {
    hide ValidWorld, CheckDynamicBarrier, EnoughChildren, PrefixChildren, DynamicReady;
    if Undecided(st, id, join, k) {
      var family := Family(st, id, join.dynamicBarriers[k].correlationPrefix);
      var x :| x in family && ChildFailed(st, x);
      var y :| y in family && !Settled(st.instances[y].status);
      var failing := MemberFirst(w, st, id, join, k, x);
      var waiting := MemberFirst(w, st, id, join, k, y);
      DynamicFailMeaning(failing, st, id, join, k);
      assert FailsFirst(st, PrefixChildren(failing, st, id, join, k), 0);
      DynamicFailMeaning(waiting, st, id, join, k);
      DynamicMeaning(w, st, id, join, k);
      DynamicFailMeaning(w, st, id, join, k);
      UnendedIsNotReady(st, id, join, k, y);
    } else {
      forall w' | ValidWorld(w')
        ensures CheckDynamicBarrier(w', st, id, join, k) == CheckDynamicBarrier(w, st, id, join, k)
      {
        DecidedInAnyOrder(w, w', st, id, join, k);
      }
    }
  }

  lemma UnendedIsNotReady(st: Store, id: string, join: JoinSpec, k: nat, y: string)
    requires id in st.instances && k < |join.dynamicBarriers|
    requires y in Family(st, id, join.dynamicBarriers[k].correlationPrefix) && !Settled(st.instances[y].status)
    ensures !DynamicReady(st, id, join, k)
  {
    assert !ChildSettled(st, join, y);
  }

  // ---------- the whole join ----------

  ghost predicate Corresponds(st: Store, id: string, correlationId: string, x: string)
  {
    x in st.instances && st.instances[x].parent == Some(id) && st.instances[x].correlationId == correlationId
  }

  lemma {:induction false} FoundChild(st: Store, order: seq<string>, id: string, correlationId: string)
    ensures match ChildIn(st, order, id, correlationId)
            case Some(x) => Corresponds(st, id, correlationId, x)
            case None => forall x :: x in order ==> !Corresponds(st, id, correlationId, x)
  {
    if order != [] && !Corresponds(st, id, correlationId, order[0]) {
      FoundChild(st, order[1..], id, correlationId);
      assert order == [order[0]] + order[1..];
    }
  }

  ghost predicate Ready(w: World, st: Store, id: string, join: JoinSpec)
    requires id in st.instances
  {
    && (join.barriers != [] ==> StaticReady(w, st, id, join))
    && forall k :: 0 <= k < |join.dynamicBarriers| ==> DynamicReady(st, id, join, k)
  }

  /** The checks say ready exactly when every barrier is met. */
  lemma ReadyMeaning(w: World, st: Store, id: string, join: JoinSpec)
    requires ValidWorld(w) && id in st.instances
    ensures CheckJoinBarriers(w, st, id, join) == JoinReady <==> Ready(w, st, id, join)
  {
    hide StaticReady, DynamicReady, CheckStaticBarriers, CheckDynamicBarriers;
    StaticMeaning(w, st, id, join);
    DynamicsMeaning(w, st, id, join, 0);
  }

  /** The first child with the correlation id that the range meets. */
  ghost predicate FoundFirst(st: Store, order: seq<string>, id: string, correlationId: string, x: string)
  {
    exists i :: 0 <= i < |order| && order[i] == x && Corresponds(st, id, correlationId, x)
                && forall j :: 0 <= j < i ==> !Corresponds(st, id, correlationId, order[j])
  }

  lemma {:induction false} FindsFirst(st: Store, order: seq<string>, id: string, correlationId: string, x: string)
    ensures ChildIn(st, order, id, correlationId) == Some(x) <==> FoundFirst(st, order, id, correlationId, x)
  {
    if order != [] {
      var rest := order[1..];
      assert forall j :: 0 <= j < |rest| ==> rest[j] == order[j + 1];
      FindsFirst(st, rest, id, correlationId, x);
      if Corresponds(st, id, correlationId, order[0]) {
        assert FoundFirst(st, order, id, correlationId, order[0]);
      } else {
        if FoundFirst(st, rest, id, correlationId, x) {
          var i :| 0 <= i < |rest| && rest[i] == x && Corresponds(st, id, correlationId, x)
                   && forall j :: 0 <= j < i ==> !Corresponds(st, id, correlationId, rest[j]);
          assert order[i + 1] == x;
        }
        if FoundFirst(st, order, id, correlationId, x) {
          var i :| 0 <= i < |order| && order[i] == x && Corresponds(st, id, correlationId, x)
                   && forall j :: 0 <= j < i ==> !Corresponds(st, id, correlationId, order[j]);
          assert rest[i - 1] == x;
        }
      }
    }
  }

  /** The child that a barrier names: by its id, or by its correlation id the first one the range meets. */
  lemma BarrierChildIs(w: World, st: Store, id: string, join: JoinSpec, k: nat, x: string)
    requires k < |join.barriers|
    ensures BarrierChild(w, st, id, join, k) == Ok(x) <==>
              match join.barriers[k]
              case NoTarget => x == ""
              case ChildEntity(child) => x == child
              case ChildCorrelation(corr) =>
                FoundFirst(st, w.order(CorrelationSite(id, k), st.instances.Keys), id, corr, x)
  {
    if join.barriers[k].ChildCorrelation? {
      FindsFirst(st, w.order(CorrelationSite(id, k), st.instances.Keys), id, join.barriers[k].correlationId, x);
    }
  }

  /** Barrier k names a child by a correlation id that no child has, and every barrier before it is
      settled. */
  ghost predicate MissesChild(w: World, st: Store, id: string, join: JoinSpec, k: int)
  {
    && 0 <= k < |join.barriers| && (forall i :: 0 <= i < k ==> BarrierSettled(w, st, id, join, i))
    && join.barriers[k].ChildCorrelation? && forall x :: !Corresponds(st, id, join.barriers[k].correlationId, x)
  }

  lemma {:induction false} MissesFrom(w: World, st: Store, id: string, join: JoinSpec, k: nat, completed: nat)
    requires ValidWorld(w) && k <= |join.barriers|
    requires forall i :: 0 <= i < k ==> BarrierSettled(w, st, id, join, i)
    ensures var c := CheckStaticBarriers(w, st, id, join, k, completed);
            && (c.JoinError? <==> exists i :: k <= i && MissesChild(w, st, id, join, i))
            && (c.JoinError? ==> c.error == InstanceNotFound)
    decreases |join.barriers| - k
  {
    hide BarrierChild, ValidWorld;
    if k < |join.barriers| {
      NoChildFound(w, st, id, join, k);
      if BarrierSettled(w, st, id, join, k) {
        MissesFrom(w, st, id, join, k + 1, completed);
        MissesFrom(w, st, id, join, k + 1, completed + 1);
        assert !MissesChild(w, st, id, join, k);
      } else {
        assert forall i :: k < i && MissesChild(w, st, id, join, i) ==> BarrierSettled(w, st, id, join, k);
        assert BarrierChild(w, st, id, join, k).Err? ==> MissesChild(w, st, id, join, k);
      }
    }
  }

  lemma NoChildFound(w: World, st: Store, id: string, join: JoinSpec, k: nat)
    requires ValidWorld(w) && k < |join.barriers|
    ensures var child := BarrierChild(w, st, id, join, k);
            && (child.Err? <==> join.barriers[k].ChildCorrelation?
                                && forall x :: !Corresponds(st, id, join.barriers[k].correlationId, x))
            && (child.Err? ==> child.error == InstanceNotFound)
  {
    if join.barriers[k].ChildCorrelation? {
      var order := w.order(CorrelationSite(id, k), st.instances.Keys);
      assert Enumerates(order, st.instances.Keys);
      FoundChild(st, order, id, join.barriers[k].correlationId);
    }
  }

  /** Barrier k has enough children, and one of them failed that the range visits after completed ones
      only. */
  ghost predicate FamilyFails(w: World, st: Store, id: string, join: JoinSpec, k: int)
    requires id in st.instances
  {
    && 0 <= k < |join.dynamicBarriers| && join.failParentOnChildFailure
    && EnoughChildren(st, id, join.dynamicBarriers[k])
    && exists i :: FailsFirst(st, PrefixChildren(w, st, id, join, k), i)
  }

  /** The first barrier that counts children and is not met fails the parent. */
  ghost predicate SomeFamilyFails(w: World, st: Store, id: string, join: JoinSpec, from: int)
    requires id in st.instances
  {
    exists k :: from <= k && FamilyFails(w, st, id, join, k)
                && forall i :: from <= i < k ==> DynamicReady(st, id, join, i)
  }

  lemma {:induction false} DynamicsFailFrom(w: World, st: Store, id: string, join: JoinSpec, k: nat)
    requires ValidWorld(w) && id in st.instances && k <= |join.dynamicBarriers|
    ensures CheckDynamicBarriers(w, st, id, join, k) == JoinChildFailed <==> SomeFamilyFails(w, st, id, join, k)
    ensures !CheckDynamicBarriers(w, st, id, join, k).JoinError?
    decreases |join.dynamicBarriers| - k
  {
    hide DynamicReady, CheckDynamicBarrier, ValidWorld, EnoughChildren, FailsFirst, PrefixChildren;
    if k < |join.dynamicBarriers| {
      DynamicMeaning(w, st, id, join, k);
      DynamicFailMeaning(w, st, id, join, k);
      DynamicsFailFrom(w, st, id, join, k + 1);
      assert FamilyFails(w, st, id, join, k) ==> SomeFamilyFails(w, st, id, join, k);
      if DynamicReady(st, id, join, k) {
        assert SomeFamilyFails(w, st, id, join, k + 1) ==> SomeFamilyFails(w, st, id, join, k) by {
          if i :| k + 1 <= i && FamilyFails(w, st, id, join, i)
                  && forall j :: k + 1 <= j < i ==> DynamicReady(st, id, join, j) {
            assert forall j :: k <= j < i ==> DynamicReady(st, id, join, j);
          }
        }
      }
    }
  }

  /** A child fails the parent: a named one, or if all named ones are as they should be, one of a
      family. */
  ghost predicate FailsParent(w: World, st: Store, id: string, join: JoinSpec)
    requires id in st.instances
  {
    || (join.failParentOnChildFailure && exists k :: FirstToFail(w, st, id, join, k))
    || ((join.barriers != [] ==> StaticReady(w, st, id, join)) && SomeFamilyFails(w, st, id, join, 0))
  }

  lemma OnlyIfFailuresCount(w: World, st: Store, id: string, join: JoinSpec)
    requires id in st.instances && FailsParent(w, st, id, join)
    ensures join.failParentOnChildFailure
  {
    hide EnoughChildren, FailsFirst, FirstToFail;
  }

  /** The checks have four answers: ready, failed by a child, an error for a child that cannot be found,
      and else not ready. */
  lemma CheckMeaning(w: World, st: Store, id: string, join: JoinSpec)
    requires ValidWorld(w) && id in st.instances
    ensures var c := CheckJoinBarriers(w, st, id, join);
            && (c == JoinReady <==> Ready(w, st, id, join))
            && (c == JoinChildFailed <==> FailsParent(w, st, id, join))
            && (c.JoinError? <==> exists k :: MissesChild(w, st, id, join, k))
            && (c.JoinError? ==> c.error == InstanceNotFound)
  {
    hide StaticReady, DynamicReady, CheckStaticBarriers, CheckDynamicBarriers, SomeFamilyFails, FirstToFail,
         MissesChild, ValidWorld;
    ReadyMeaning(w, st, id, join);
    DynamicsFailFrom(w, st, id, join, 0);
    StaticMeaning(w, st, id, join);
    StaticFailMeaning(w, st, id, join);
    MissesFrom(w, st, id, join, 0, 0);
    InRange(w, st, id, join);
  }

  lemma InRange(w: World, st: Store, id: string, join: JoinSpec)
    ensures forall k :: FirstToFail(w, st, id, join, k) || MissesChild(w, st, id, join, k) ==> 0 <= k < |join.barriers|
  {
  }

  /** ANY_SUCCESS still waits for everyone: while one child of the family is active the barrier is
      not met, however many others have completed. */
  lemma AnySuccessWaitsForAll(w: World, st: Store, id: string, join: JoinSpec, k: nat, x: string)
    requires ValidWorld(w) && id in st.instances && k < |join.dynamicBarriers|
    requires x in Family(st, id, join.dynamicBarriers[k].correlationPrefix) && !Settled(st.instances[x].status)
    ensures CheckJoinBarriers(w, st, id, join) != JoinReady
  {
    ReadyMeaning(w, st, id, join);
    assert !ChildSettled(st, join, x);
    assert !DynamicReady(st, id, join, k);
  }

  // ---------- the order of the map ranges ----------

  /** No two children of the instance share a correlation id that a barrier asks for. */
  ghost predicate CorrelationsApart(st: Store, id: string, join: JoinSpec)
  {
    forall k, x, y ::
      && 0 <= k < |join.barriers| && join.barriers[k].ChildCorrelation?
      && Corresponds(st, id, join.barriers[k].correlationId, x)
      && Corresponds(st, id, join.barriers[k].correlationId, y)
      ==> x == y
  }

  lemma SameChildInAnyOrder(w: World, w': World, st: Store, id: string, join: JoinSpec, k: nat)
    requires ValidWorld(w) && ValidWorld(w') && CorrelationsApart(st, id, join) && k < |join.barriers|
    ensures BarrierChild(w, st, id, join, k) == BarrierChild(w', st, id, join, k)
  {
    if join.barriers[k].ChildCorrelation? {
      var corr := join.barriers[k].correlationId;
      var order, order' := w.order(CorrelationSite(id, k), st.instances.Keys),
          w'.order(CorrelationSite(id, k), st.instances.Keys);
      FoundChild(st, order, id, corr);
      FoundChild(st, order', id, corr);
      assert forall x :: Corresponds(st, id, corr, x) ==> x in order && x in order';
    }
  }

  /** Whether a join is ready does not depend on the order of the map ranges, as long as the
      correlation ids it asks for are unambiguous. */
  lemma OrderDoesNotMatter(w: World, w': World, st: Store, id: string, join: JoinSpec)
    requires ValidWorld(w) && ValidWorld(w') && CorrelationsApart(st, id, join) && id in st.instances
    ensures CheckJoinBarriers(w, st, id, join) == JoinReady <==> CheckJoinBarriers(w', st, id, join) == JoinReady
  {
    hide DynamicReady, CheckJoinBarriers, ValidWorld, CorrelationsApart;
    ReadyMeaning(w, st, id, join);
    ReadyMeaning(w', st, id, join);
    forall k: int | 0 <= k < |join.barriers|
      ensures BarrierSettled(w, st, id, join, k) <==> BarrierSettled(w', st, id, join, k)
      ensures BarrierWon(w, st, id, join, k) <==> BarrierWon(w', st, id, join, k)
    {
      SameChildInAnyOrder(w, w', st, id, join, k);
    }
    if StaticReady(w, st, id, join) && join.policy == AnySuccess {
      var k :| BarrierWon(w, st, id, join, k);
      assert BarrierWon(w', st, id, join, k);
    }
    if StaticReady(w', st, id, join) && join.policy == AnySuccess {
      var k :| BarrierWon(w', st, id, join, k);
      assert BarrierWon(w, st, id, join, k);
    }
  }

  // ---------- correlation ids that two children share ----------

  /** What looking up the child of barrier k can find. */
  ghost predicate Candidate(st: Store, id: string, join: JoinSpec, k: int, x: string)
  {
    && 0 <= k < |join.barriers|
    && match join.barriers[k]
       case NoTarget => x == ""
       case ChildEntity(child) => x == child
       case ChildCorrelation(corr) => Corresponds(st, id, corr, x)
  }

  /** Barrier k has a candidate like this. */
  ghost predicate Has(st: Store, id: string, join: JoinSpec, k: int, ok: string -> bool)
  {
    exists x :: Candidate(st, id, join, k, x) && ok(x)
  }

  ghost predicate HasAny(st: Store, id: string, join: JoinSpec, k: int)
  {
    exists x :: Candidate(st, id, join, k, x)
  }

  ghost predicate HasGood(st: Store, id: string, join: JoinSpec, k: int)
  {
    exists x :: Candidate(st, id, join, k, x) && Good(st, join, x)
  }

  ghost predicate HasBad(st: Store, id: string, join: JoinSpec, k: int)
  {
    exists x :: Candidate(st, id, join, k, x) && !Good(st, join, x)
  }

  ghost predicate HasWinning(st: Store, id: string, join: JoinSpec, k: int)
  {
    exists x :: Candidate(st, id, join, k, x) && Winning(st, x)
  }

  ghost predicate HasLosing(st: Store, id: string, join: JoinSpec, k: int)
  {
    exists x :: Candidate(st, id, join, k, x) && !Winning(st, x)
  }

  /** A lookup for every barrier. */
  ghost predicate Picked(st: Store, id: string, join: JoinSpec, picks: seq<string>)
  {
    |picks| == |join.barriers| && forall k :: 0 <= k < |picks| ==> Candidate(st, id, join, k, picks[k])
  }

  predicate Good(st: Store, join: JoinSpec, x: string)
  {
    x != "" && ChildSettled(st, join, x)
  }

  predicate Winning(st: Store, x: string)
  {
    x != "" && ChildCompleted(st, x)
  }

  ghost predicate PicksReady(st: Store, join: JoinSpec, picks: seq<string>)
  {
    && (forall k :: 0 <= k < |picks| ==> Good(st, join, picks[k]))
    && if join.policy == AnySuccess then exists k :: 0 <= k < |picks| && Winning(st, picks[k])
       else forall k :: 0 <= k < |picks| ==> Winning(st, picks[k])
  }

  ghost predicate Finds(w: World, st: Store, id: string, join: JoinSpec, picks: seq<string>)
  {
    && |picks| == |join.barriers|
    && forall k :: 0 <= k < |picks| ==> BarrierChild(w, st, id, join, k) == Ok(picks[k])
  }

  lemma FindingIsReady(w: World, st: Store, id: string, join: JoinSpec, picks: seq<string>)
    requires Finds(w, st, id, join, picks)
    ensures StaticReady(w, st, id, join) <==> PicksReady(st, join, picks)
  {
    hide BarrierChild;
    forall k | 0 <= k < |picks|
      ensures BarrierSettled(w, st, id, join, k) <==> Good(st, join, picks[k])
      ensures BarrierWon(w, st, id, join, k) <==> Good(st, join, picks[k]) && Winning(st, picks[k])
    {
      assert BarrierChild(w, st, id, join, k) == Ok(picks[k]);
    }
    if StaticReady(w, st, id, join) && join.policy == AnySuccess {
      var k :| BarrierWon(w, st, id, join, k);
      assert Winning(st, picks[k]);
    }
    if PicksReady(st, join, picks) && join.policy == AnySuccess {
      var k :| 0 <= k < |picks| && Winning(st, picks[k]);
      assert BarrierWon(w, st, id, join, k);
    }
  }

  function IndexOf(s: seq<string>, x: string): (i: nat)
    requires x in s
    ensures i < |s| && s[i] == x
  {
    if s[0] == x then 0 else IndexOf(s[1..], x) + 1
  }

  function MoveFirst(s: seq<string>, x: string): seq<string>
  {
    if x in s then s[0 := x][IndexOf(s, x) := s[0]] else s
  }

  lemma MovedIsSame(s: seq<string>, x: string, keys: set<string>)
    requires Enumerates(s, keys)
    ensures Enumerates(MoveFirst(s, x), keys) && (x in keys ==> MoveFirst(s, x) != [] && MoveFirst(s, x)[0] == x)
  {
    if x in s {
      var i, t := IndexOf(s, x), MoveFirst(s, x);
      forall y
        ensures y in t <==> y in keys
      {
        if y in s {
          var j :| 0 <= j < |s| && s[j] == y;
          assert t[if j == 0 then i else if j == i then 0 else j] == y;
        }
      }
    }
  }

  /** A world in which the lookups find these candidates. */
  function Picking(w: World, id: string, picks: seq<string>): World
  {
    w.(order := (site: Site, keys: set<string>) =>
         if site.CorrelationSite? && site.entityId == id && site.barrier < |picks|
         then MoveFirst(w.order(site, keys), picks[site.barrier])
         else w.order(site, keys))
  }

  lemma PickingFinds(w: World, st: Store, id: string, join: JoinSpec, picks: seq<string>)
    requires ValidWorld(w) && Picked(st, id, join, picks)
    ensures ValidWorld(Picking(w, id, picks)) && Finds(Picking(w, id, picks), st, id, join, picks)
  {
    var w' := Picking(w, id, picks);
    forall site, keys
      ensures Enumerates(w'.order(site, keys), keys)
    {
      assert Enumerates(w.order(site, keys), keys);
      if site.CorrelationSite? && site.entityId == id && site.barrier < |picks| {
        MovedIsSame(w.order(site, keys), picks[site.barrier], keys);
      }
    }
    forall k | 0 <= k < |picks|
      ensures BarrierChild(w', st, id, join, k) == Ok(picks[k])
    {
      assert Candidate(st, id, join, k, picks[k]);
      if join.barriers[k].ChildCorrelation? {
        var site := CorrelationSite(id, k);
        assert Enumerates(w.order(site, st.instances.Keys), st.instances.Keys);
        MovedIsSame(w.order(site, st.instances.Keys), picks[k], st.instances.Keys);
      }
    }
  }

  /** The picks of a world, if it finds a child for every barrier. */
  lemma WorldPicks(w: World, st: Store, id: string, join: JoinSpec) returns (picks: seq<string>)
    requires ValidWorld(w) && forall k :: 0 <= k < |join.barriers| ==> HasAny(st, id, join, k)
    ensures Picked(st, id, join, picks) && Finds(w, st, id, join, picks)
  {
    hide BarrierChild, Candidate, ValidWorld, HasAny;
    forall k | 0 <= k < |join.barriers|
      ensures BarrierChild(w, st, id, join, k).Ok?
      ensures Candidate(st, id, join, k, BarrierChild(w, st, id, join, k).value)
    {
      BarrierFinds(w, st, id, join, k);
    }
    picks := seq(|join.barriers|, k requires 0 <= k < |join.barriers| => BarrierChild(w, st, id, join, k).value);
  }

  lemma BarrierFinds(w: World, st: Store, id: string, join: JoinSpec, k: nat)
    requires ValidWorld(w) && k < |join.barriers|
    ensures BarrierChild(w, st, id, join, k).Ok? <==> HasAny(st, id, join, k)
    ensures var r := BarrierChild(w, st, id, join, k); r.Ok? ==> Candidate(st, id, join, k, r.value)
  {
    match join.barriers[k]
    case NoTarget => assert Candidate(st, id, join, k, "");
    case ChildEntity(child) => assert Candidate(st, id, join, k, child);
    case ChildCorrelation(corr) =>
      var order := w.order(CorrelationSite(id, k), st.instances.Keys);
      assert Enumerates(order, st.instances.Keys);
      FoundChild(st, order, id, corr);
      var r := BarrierChild(w, st, id, join, k);
      if r.Ok? {
        assert Candidate(st, id, join, k, r.value);
      } else {
        assert forall x :: Corresponds(st, id, corr, x) ==> x in order;
      }
  }

  /** Some choice of candidates meets the named barriers. */
  ghost predicate CanBeMet(st: Store, id: string, join: JoinSpec)
  {
    if join.policy == AnySuccess then
      && (forall k :: 0 <= k < |join.barriers| ==> HasGood(st, id, join, k))
      && exists k :: HasWinning(st, id, join, k)
    else
      forall k :: 0 <= k < |join.barriers| ==> HasWinning(st, id, join, k)
  }

  /** Some choice of candidates does not: one of them has not ended well, or, for ANY_SUCCESS, none of
      them has completed. */
  ghost predicate CanBeMissed(st: Store, id: string, join: JoinSpec)
  {
    if join.policy == AnySuccess then
      || (exists k :: HasBad(st, id, join, k))
      || forall k :: 0 <= k < |join.barriers| ==> HasLosing(st, id, join, k)
    else
      exists k :: HasLosing(st, id, join, k)
  }

  lemma {:induction false} BuildPicks(st: Store, id: string, join: JoinSpec, n: nat, ok: string -> bool)
    returns (picks: seq<string>)
    requires n <= |join.barriers| && forall k :: 0 <= k < n ==> Has(st, id, join, k, ok)
    ensures |picks| == n && forall k :: 0 <= k < n ==> Candidate(st, id, join, k, picks[k]) && ok(picks[k])
  {
    hide Candidate;
    picks := [];
    if n > 0 {
      var before := BuildPicks(st, id, join, n - 1, ok);
      assert Has(st, id, join, n - 1, ok);
      var x :| Candidate(st, id, join, n - 1, x) && ok(x);
      picks := before + [x];
    }
  }

  /** Picks of this kind, among them this one. */
  lemma PicksWith(st: Store, id: string, join: JoinSpec, ok: string -> bool, k0: int, x0: string)
    returns (picks: seq<string>)
    requires forall k :: 0 <= k < |join.barriers| ==> Has(st, id, join, k, ok)
    requires Candidate(st, id, join, k0, x0)
    ensures Picked(st, id, join, picks) && 0 <= k0 < |picks| && picks[k0] == x0
    ensures forall k :: 0 <= k < |picks| && k != k0 ==> ok(picks[k])
  {
    var all := BuildPicks(st, id, join, |join.barriers|, ok);
    picks := all[k0 := x0];
  }

  lemma MetByPicks(st: Store, id: string, join: JoinSpec) returns (picks: seq<string>)
    requires CanBeMet(st, id, join)
    ensures Picked(st, id, join, picks) && PicksReady(st, join, picks)
  {
    hide Candidate, Good, Winning;
    WinningIsGood(st, join);
    var good := (x: string) => Good(st, join, x);
    var winning := (x: string) => Winning(st, x);
    if join.policy == AnySuccess {
      var k0 :| HasWinning(st, id, join, k0);
      var x0 :| Candidate(st, id, join, k0, x0) && Winning(st, x0);
      forall k | 0 <= k < |join.barriers|
        ensures Has(st, id, join, k, good)
      {
        assert HasGood(st, id, join, k);
      }
      picks := PicksWith(st, id, join, good, k0, x0);
    } else {
      forall k | 0 <= k < |join.barriers|
        ensures Has(st, id, join, k, winning)
      {
        assert HasWinning(st, id, join, k);
      }
      picks := BuildPicks(st, id, join, |join.barriers|, winning);
    }
  }

  lemma MissedByPicks(st: Store, id: string, join: JoinSpec) returns (picks: seq<string>)
    requires CanBeMissed(st, id, join) && forall k :: 0 <= k < |join.barriers| ==> HasAny(st, id, join, k)
    ensures Picked(st, id, join, picks) && !PicksReady(st, join, picks)
  {
    hide Candidate, Good, Winning;
    var losing := (x: string) => !Winning(st, x);
    var any := (x: string) => true;
    if join.policy == AnySuccess && !exists k :: HasBad(st, id, join, k) {
      forall k | 0 <= k < |join.barriers|
        ensures Has(st, id, join, k, losing)
      {
        assert HasLosing(st, id, join, k);
      }
      picks := BuildPicks(st, id, join, |join.barriers|, losing);
    } else {
      var k0 :| if join.policy == AnySuccess then HasBad(st, id, join, k0) else HasLosing(st, id, join, k0);
      var x0 :| && Candidate(st, id, join, k0, x0)
                && !(if join.policy == AnySuccess then Good(st, join, x0) else Winning(st, x0));
      forall k | 0 <= k < |join.barriers|
        ensures Has(st, id, join, k, any)
      {
        assert HasAny(st, id, join, k);
      }
      picks := PicksWith(st, id, join, any, k0, x0);
    }
  }

  lemma PicksMeet(st: Store, id: string, join: JoinSpec, picks: seq<string>)
    requires Picked(st, id, join, picks)
    ensures PicksReady(st, join, picks) ==> CanBeMet(st, id, join)
    ensures !PicksReady(st, join, picks) ==> CanBeMissed(st, id, join)
  {
    hide Candidate, Good, Winning;
    WinningIsGood(st, join);
    forall k | 0 <= k < |picks|
      ensures Good(st, join, picks[k]) ==> HasGood(st, id, join, k)
      ensures !Good(st, join, picks[k]) ==> HasBad(st, id, join, k)
      ensures Winning(st, picks[k]) ==> HasWinning(st, id, join, k)
      ensures !Winning(st, picks[k]) ==> HasLosing(st, id, join, k)
    {
      assert Candidate(st, id, join, k, picks[k]);
    }
  }

  lemma WinningIsGood(st: Store, join: JoinSpec)
    ensures forall x :: Winning(st, x) ==> Good(st, join, x)
  {
  }

  lemma ReadyHasCandidates(w: World, st: Store, id: string, join: JoinSpec)
    requires ValidWorld(w) && StaticReady(w, st, id, join)
    ensures forall k :: 0 <= k < |join.barriers| ==> HasAny(st, id, join, k)
  {
    hide Candidate, BarrierChild, ValidWorld, HasAny;
    forall k | 0 <= k < |join.barriers|
      ensures HasAny(st, id, join, k)
    {
      assert BarrierSettled(w, st, id, join, k);
      BarrierFinds(w, st, id, join, k);
    }
  }

  /** One world in which the named barriers are met, and one in which they are not. */
  lemma DiffersIsMixed(w: World, w': World, st: Store, id: string, join: JoinSpec)
    requires ValidWorld(w) && ValidWorld(w') && StaticReady(w, st, id, join) && !StaticReady(w', st, id, join)
    ensures CanBeMet(st, id, join) && CanBeMissed(st, id, join)
  {
    hide StaticReady, Candidate, ValidWorld, Finds, Picked, PicksReady, CanBeMet, CanBeMissed;
    ReadyHasCandidates(w, st, id, join);
    var picks := WorldPicks(w, st, id, join);
    var picks' := WorldPicks(w', st, id, join);
    FindingIsReady(w, st, id, join, picks);
    FindingIsReady(w', st, id, join, picks');
    PicksMeet(st, id, join, picks);
    PicksMeet(st, id, join, picks');
  }

  lemma MixedDiffers(w: World, st: Store, id: string, join: JoinSpec) returns (met: World, missed: World)
    requires ValidWorld(w) && CanBeMet(st, id, join) && CanBeMissed(st, id, join)
    ensures ValidWorld(met) && StaticReady(met, st, id, join)
    ensures ValidWorld(missed) && !StaticReady(missed, st, id, join)
  {
    hide StaticReady, Candidate, ValidWorld, Finds, PicksReady, CanBeMissed, CanBeMet, Picking;
    var picks := MetByPicks(st, id, join);
    forall k | 0 <= k < |join.barriers|
      ensures HasAny(st, id, join, k)
    {
      assert Candidate(st, id, join, k, picks[k]);
    }
    var picks' := MissedByPicks(st, id, join);
    PickingFinds(w, st, id, join, picks);
    PickingFinds(w, st, id, join, picks');
    met, missed := Picking(w, id, picks), Picking(w, id, picks');
    FindingIsReady(met, st, id, join, picks);
    FindingIsReady(missed, st, id, join, picks');
  }

  /** The order of the ranges decides whether a join is ready exactly when every barrier that counts
      children is met, and the candidates of the barriers that name them can be chosen so that those are
      met and also so that they are not. */
  lemma NamedOrderMattersIff(w: World, st: Store, id: string, join: JoinSpec)
    requires ValidWorld(w) && id in st.instances
    ensures (exists w' :: ValidWorld(w') && (CheckJoinBarriers(w', st, id, join) == JoinReady)
                                            != (CheckJoinBarriers(w, st, id, join) == JoinReady)) <==>
              && join.barriers != [] && CanBeMet(st, id, join) && CanBeMissed(st, id, join)
              && forall k :: 0 <= k < |join.dynamicBarriers| ==> DynamicReady(st, id, join, k)
  {
    hide StaticReady, DynamicReady, CheckJoinBarriers, ValidWorld, CanBeMet, CanBeMissed;
    ReadyMeaning(w, st, id, join);
    if w' :| ValidWorld(w') && (CheckJoinBarriers(w', st, id, join) == JoinReady)
                               != (CheckJoinBarriers(w, st, id, join) == JoinReady) {
      ReadyMeaning(w', st, id, join);
      if Ready(w, st, id, join) {
        DiffersIsMixed(w, w', st, id, join);
      } else {
        DiffersIsMixed(w', w, st, id, join);
      }
    }
    if join.barriers != [] && CanBeMet(st, id, join) && CanBeMissed(st, id, join) {
      var met, missed := MixedDiffers(w, st, id, join);
      ReadyMeaning(met, st, id, join);
      ReadyMeaning(missed, st, id, join);
    }
  }
}
