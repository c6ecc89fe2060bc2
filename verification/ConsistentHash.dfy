/**
 The consistent hash ring (consistenthash/ring.go).

 `Ring` is the source's structure: a sorted slice of hashes, a map from hash to instance, and the
 set of instances.  Its methods are proved against `PointMap`, the map from ring points to owners,
 and against the naive reading of ownership: the owner of the first point at or after the hash,
 wrapping to the smallest point.  Two virtual nodes may hash to the same point; the later Add then
 overwrites the earlier owner, and Remove deletes the point whoever owns it.
 */
module ConsistentHash {
  import opened Decimals

  type Hash = h: int | 0 <= h < 0x1_0000_0000

  type HashFunc = string -> Hash

  type PointMap = map<Hash, string>

  function VirtualNodeKey(instanceId: string, replica: nat): string
  {
    instanceId + "#" + Decimal(replica)
  }

  function PointAt(f: HashFunc, instanceId: string, replica: nat): Hash
  {
    f(VirtualNodeKey(instanceId, replica))
  }

  function Points(f: HashFunc, replicas: nat, instanceId: string): set<Hash>
  {
    set i | 0 <= i < replicas :: PointAt(f, instanceId, i)
  }

  // ---------- virtual node keys ----------

  lemma NumberHasNoHash(n: nat)
    ensures |Decimal(n)| > 0 && forall i :: 0 <= i < |Decimal(n)| ==> Decimal(n)[i] != '#'
  {
    ParseDecimalNat(n);
  }

  /** The last '#' of a key is the one behind the id. */
  lemma HashEndsId(x: string, i: nat)
    ensures var key := VirtualNodeKey(x, i);
            |x| < |key| && key[|x|] == '#' && forall k :: |x| < k < |key| ==> key[k] != '#'
  {
    NumberHasNoHash(i);
    var key := VirtualNodeKey(x, i);
    assert forall k :: |x| < k < |key| ==> key[k] == Decimal(i)[k - |x| - 1];
  }

  /** No two virtual nodes have the same key, even of instances whose ids contain a '#': the last '#'
      ends the id, for a number has none. */
  lemma KeysApart(x: string, i: nat, y: string, j: nat)
    ensures VirtualNodeKey(x, i) == VirtualNodeKey(y, j) <==> x == y && i == j
  {
    if VirtualNodeKey(x, i) == VirtualNodeKey(y, j) {
      HashEndsId(x, i);
      HashEndsId(y, j);
      assert x == VirtualNodeKey(x, i)[..|x|] == VirtualNodeKey(y, j)[..|x|] == y;
      assert Decimal(i) == VirtualNodeKey(x, i)[|x| + 1..] == Decimal(j);
      DecimalInjective(i, j);
    }
  }

  /** The hash function tells the virtual nodes of these instances apart. */
  ghost predicate TellsApart(f: HashFunc, replicas: nat, ids: set<string>)
  {
    forall x, i: nat, y, j: nat ::
      x in ids && y in ids && i < replicas && j < replicas && PointAt(f, x, i) == PointAt(f, y, j) ==>
        VirtualNodeKey(x, i) == VirtualNodeKey(y, j)
  }

  /** Then no two instances share a point. */
  lemma ApartIsCollisionFree(f: HashFunc, replicas: nat, ids: set<string>)
    requires TellsApart(f, replicas, ids)
    ensures CollisionFree(f, replicas, ids)
  {
    hide VirtualNodeKey, PointAt;
    forall x, y, p | x in ids && y in ids && x != y && p in Points(f, replicas, x) && p in Points(f, replicas, y)
      ensures false
    {
      var i: nat :| i < replicas && PointAt(f, x, i) == p;
      var j: nat :| j < replicas && PointAt(f, y, j) == p;
      KeysApart(x, i, y, j);
    }
  }

  /** And every instance has a point for each of its replicas. */
  lemma {:induction false} PointsAreMany(f: HashFunc, replicas: nat, n: nat, x: string)
    requires TellsApart(f, replicas, {x}) && n <= replicas
    ensures |Points(f, n, x)| == n
  {
    hide VirtualNodeKey, PointAt;
    if n == 0 {
      NoPoints(f, x);
    } else {
      PointsAreMany(f, replicas, n - 1, x);
      PointsGrow(f, n - 1, x);
      if PointAt(f, x, n - 1) in Points(f, n - 1, x) {
        var i: nat :| i < n - 1 && PointAt(f, x, i) == PointAt(f, x, n - 1);
        KeysApart(x, i, x, n - 1);
        assert false;
      }
    }
  }

  // ---------- the naive definition of ownership ----------

  /** p is the first point at or after h, or the smallest point if there is none. */
  ghost predicate IsSuccessor(points: set<Hash>, h: Hash, p: Hash)
  {
    && p in points
    && (|| (h <= p && forall q :: q in points && h <= q ==> p <= q)
        || (forall q :: q in points ==> p <= q < h))
  }

  lemma {:induction false} LeastExists(points: set<Hash>) returns (p: Hash)
    requires points != {}
    ensures p in points && forall q :: q in points ==> p <= q
  {
    var first :| first in points;
    var rest := points - {first};
    assert forall q :: q in points ==> q == first || q in rest;
    p := first;
    if rest != {} {
      var r := LeastExists(rest);
      p := if first <= r then first else r;
    }
  }

  lemma SuccessorExists(points: set<Hash>, h: Hash)
    requires points != {}
    ensures exists p :: IsSuccessor(points, h, p)
  {
    var above := set q | q in points && h <= q;
    var p := LeastExists(if above == {} then points else above);
    forall q | q in points
      ensures q in above <==> h <= q
    {
    }
    assert IsSuccessor(points, h, p);
  }

  ghost function Successor(points: set<Hash>, h: Hash): (p: Hash)
    requires points != {}
    ensures IsSuccessor(points, h, p)
  {
    SuccessorExists(points, h);
    var p :| IsSuccessor(points, h, p);
    p
  }

  /** The owner of the keys that hash to h; the empty string on an empty ring. */
  ghost function Owner(m: PointMap, h: Hash): string
  {
    if m == map[] then "" else m[Successor(m.Keys, h)]
  }

  // ---------- what Add and Remove do to the points ----------

  datatype RingState = RingState(points: PointMap, instances: set<string>)

  const EMPTY_RING := RingState(map[], {})

  function AddPoints(m: PointMap, points: set<Hash>, instanceId: string): PointMap
  {
    m + map p | p in points :: instanceId
  }

  datatype RingOp = AddOp(instanceId: string) | RemoveOp(instanceId: string)

  function ApplyOp(f: HashFunc, replicas: nat, s: RingState, op: RingOp): RingState
  {
    match op
    case AddOp(x) =>
      if x in s.instances then s
      else RingState(AddPoints(s.points, Points(f, replicas, x), x), s.instances + {x})
    case RemoveOp(x) =>
      if x !in s.instances then s
      else RingState(s.points - Points(f, replicas, x), s.instances - {x})
  }

  function ApplyOps(f: HashFunc, replicas: nat, ops: seq<RingOp>): RingState
  {
    if ops == [] then EMPTY_RING
    else ApplyOp(f, replicas, ApplyOps(f, replicas, ops[..|ops| - 1]), ops[|ops| - 1])
  }

  /** Every point is held by a present instance, and is one of that instance's points. */
  ghost predicate PointsHeld(f: HashFunc, replicas: nat, s: RingState)
  {
    forall p :: p in s.points ==> s.points[p] in s.instances && p in Points(f, replicas, s.points[p])
  }

  lemma OpKeepsPointsHeld(f: HashFunc, replicas: nat, s: RingState, op: RingOp)
    requires PointsHeld(f, replicas, s)
    ensures PointsHeld(f, replicas, ApplyOp(f, replicas, s, op))
  {
  }

  lemma {:induction false} HistoryKeepsPointsHeld(f: HashFunc, replicas: nat, ops: seq<RingOp>)
    ensures PointsHeld(f, replicas, ApplyOps(f, replicas, ops))
  {
    if ops != [] {
      HistoryKeepsPointsHeld(f, replicas, ops[..|ops| - 1]);
      OpKeepsPointsHeld(f, replicas, ApplyOps(f, replicas, ops[..|ops| - 1]), ops[|ops| - 1]);
    }
  }

  /** A lookup never answers with an instance that is not (or no longer) in the ring. */
  lemma OwnerIsPresent(f: HashFunc, replicas: nat, ops: seq<RingOp>, h: Hash)
    ensures var s := ApplyOps(f, replicas, ops);
            s.points != map[] ==> Owner(s.points, h) in s.instances
  {
    HistoryKeepsPointsHeld(f, replicas, ops);
  }

  // ---------- disruption ----------

  /** Adding an instance moves keys only to that instance, whatever collides. */
  lemma AddMovesKeysOnlyToNewcomer(m: PointMap, points: set<Hash>, x: string, h: Hash)
    requires m != map[]
    ensures Owner(AddPoints(m, points, x), h) in {Owner(m, h), x}
  {
    var m' := AddPoints(m, points, x);
    assert m'.Keys == m.Keys + points;
    var p, p' := Successor(m.Keys, h), Successor(m'.Keys, h);
    if p' !in points {
      assert p' in m;
      assert p == p';
    }
  }

  /** Every point of x that another instance owns is followed, once x's points are gone, by a
      point of that same owner. */
  ghost predicate StolenPointsCovered(m: PointMap, points: set<Hash>, x: string)
  {
    forall p :: p in points && p in m && m[p] != x ==> Owner(m - points, p) == m[p]
  }

  /** Removing x leaves every key that x did not own where it was. */
  ghost predicate UndisturbedByRemove(m: PointMap, points: set<Hash>, x: string)
  {
    forall h: Hash :: Owner(m, h) != x ==> Owner(m - points, h) == Owner(m, h)
  }

  lemma SuccessorOfGone(points: set<Hash>, fewer: set<Hash>, h: Hash, p: Hash)
    requires fewer <= points && fewer != {}
    requires IsSuccessor(points, h, p) && p !in fewer
    ensures Successor(fewer, h) == Successor(fewer, p)
  {
    var a, b := Successor(fewer, h), Successor(fewer, p);
    assert a in points && b in points;
  }

  /** Remove(x) disturbs no key of another instance exactly when every colliding point it takes
      from another owner is covered by that owner's next point. */
  lemma RemoveDisruption(m: PointMap, points: set<Hash>, x: string)
    ensures UndisturbedByRemove(m, points, x) <==> StolenPointsCovered(m, points, x)
  {
    var m' := m - points;
    if StolenPointsCovered(m, points, x) {
      forall h: Hash | Owner(m, h) != x
        ensures Owner(m', h) == Owner(m, h)
      {
        if m != map[] {
          var p := Successor(m.Keys, h);
          if p !in points {
            assert p in m';
            assert IsSuccessor(m'.Keys, h, Successor(m'.Keys, h));
            assert Successor(m'.Keys, h) in m;
          } else if m' != map[] {
            SuccessorOfGone(m.Keys, m'.Keys, h, p);
          } else {
            assert Owner(m', p) == m[p];
          }
        }
      }
    }
    if UndisturbedByRemove(m, points, x) {
      forall p | p in points && p in m && m[p] != x
        ensures Owner(m', p) == m[p]
      {
        assert IsSuccessor(m.Keys, p, Successor(m.Keys, p));
        assert Owner(m, p) == m[p];
      }
    }
  }

  /** In particular when x owns all of its own points. */
  lemma RemoveOfUncollidedInstance(m: PointMap, points: set<Hash>, x: string)
    requires forall p :: p in points && p in m ==> m[p] == x
    ensures UndisturbedByRemove(m, points, x)
  {
    RemoveDisruption(m, points, x);
  }

  /** Over histories: adding an instance moves keys only to that instance. */
  lemma AddDisruption(f: HashFunc, replicas: nat, ops: seq<RingOp>, x: string, h: Hash)
    requires ApplyOps(f, replicas, ops).points != map[]
    ensures Owner(ApplyOps(f, replicas, ops + [AddOp(x)]).points, h) in {Owner(ApplyOps(f, replicas, ops).points, h), x}
  {
    assert (ops + [AddOp(x)])[..|ops|] == ops;
    AddMovesKeysOnlyToNewcomer(ApplyOps(f, replicas, ops).points, Points(f, replicas, x), x, h);
  }

  /** The point of virtual node i of x belongs to another instance. */
  ghost predicate Steals(f: HashFunc, replicas: nat, s: RingState, x: string, i: nat)
  {
    i < replicas && f(VirtualNodeKey(x, i)) in s.points && s.points[f(VirtualNodeKey(x, i))] != x
  }

  /** Removing a present instance disturbs no key of another exactly when, behind every point it takes
      from another owner, the next point that is left belongs to that owner. */
  lemma RemovalDisturbsIff(f: HashFunc, replicas: nat, ops: seq<RingOp>, x: string)
    requires x in ApplyOps(f, replicas, ops).instances
    ensures var s, t := ApplyOps(f, replicas, ops), ApplyOps(f, replicas, ops + [RemoveOp(x)]);
            (forall h: Hash :: Owner(s.points, h) != x ==> Owner(t.points, h) == Owner(s.points, h)) <==>
              forall i: nat :: Steals(f, replicas, s, x, i) ==>
                Owner(t.points, f(VirtualNodeKey(x, i))) == s.points[f(VirtualNodeKey(x, i))]
  {
    hide VirtualNodeKey, ApplyOps;
    var s, points := ApplyOps(f, replicas, ops), Points(f, replicas, x);
    Removed(f, replicas, ops, x);
    RemoveDisruption(s.points, points, x);
    forall i: nat | Steals(f, replicas, s, x, i)
      ensures f(VirtualNodeKey(x, i)) in points
    {
      assert PointAt(f, x, i) in points;
    }
    forall p | p in points && p in s.points && s.points[p] != x
      ensures exists i: nat :: Steals(f, replicas, s, x, i) && f(VirtualNodeKey(x, i)) == p
    {
      var i: nat :| i < replicas && PointAt(f, x, i) == p;
      assert Steals(f, replicas, s, x, i);
    }
  }

  /** Removing takes every point of the instance away, whoever owns it. */
  lemma Removed(f: HashFunc, replicas: nat, ops: seq<RingOp>, x: string)
    requires x in ApplyOps(f, replicas, ops).instances
    ensures ApplyOps(f, replicas, ops + [RemoveOp(x)]).points
            == ApplyOps(f, replicas, ops).points - Points(f, replicas, x)
  {
    assert (ops + [RemoveOp(x)])[..|ops|] == ops;
  }

  /** With a collision the promise fails: removing `a` takes the only point away from `b`, which is still
      there. */
  lemma RemoveCanDisturb(f: HashFunc)
    requires forall s :: f(s) == 7
    ensures var s, t := ApplyOps(f, 1, [AddOp("a"), AddOp("b")]),
                        ApplyOps(f, 1, [AddOp("a"), AddOp("b")] + [RemoveOp("a")]);
            "b" in t.instances && Owner(s.points, 7) == "b" && Owner(t.points, 7) == ""
  {
    var ops := [AddOp("a"), AddOp("b")];
    assert ops[..1] == [AddOp("a")] && ops[..1][..0] == [];
    assert (ops + [RemoveOp("a")])[..2] == ops;
    assert PointAt(f, "a", 0) == 7 && PointAt(f, "b", 0) == 7;
    assert Points(f, 1, "a") == {7} && Points(f, 1, "b") == {7};
    var s := ApplyOps(f, 1, ops);
    assert ApplyOps(f, 1, ops[..1]) == RingState(AddPoints(map[], {7}, "a"), {"a"});
    assert "b" !in {"a"};
    assert s.points == AddPoints(AddPoints(map[], {7}, "a"), {7}, "b") == map[7 := "b"];
    Removed(f, 1, ops, "a");
    assert ApplyOps(f, 1, ops + [RemoveOp("a")]).points == map[];
  }

  // ---------- the ring as a function of its instances ----------

  ghost predicate CollisionFree(f: HashFunc, replicas: nat, ids: set<string>)
  {
    forall x, y :: x in ids && y in ids && x != y ==> Points(f, replicas, x) !! Points(f, replicas, y)
  }

  ghost function Mentioned(ops: seq<RingOp>): set<string>
  {
    set i | 0 <= i < |ops| :: ops[i].instanceId
  }

  /** p is a point of x, and x is present: exactly then x owns p. */
  ghost predicate OwnsExactlyItsPoints(f: HashFunc, replicas: nat, s: RingState)
  {
    && PointsHeld(f, replicas, s)
    && (forall x, p :: x in s.instances && p in Points(f, replicas, x) ==> p in s.points && s.points[p] == x)
  }

  lemma CollisionFreeStep(f: HashFunc, replicas: nat, s: RingState, op: RingOp, ids: set<string>)
    requires CollisionFree(f, replicas, ids) && s.instances <= ids && op.instanceId in ids
    requires OwnsExactlyItsPoints(f, replicas, s)
    ensures OwnsExactlyItsPoints(f, replicas, ApplyOp(f, replicas, s, op))
  {
    var t := ApplyOp(f, replicas, s, op);
    OpKeepsPointsHeld(f, replicas, s, op);
    forall x, p | x in t.instances && p in Points(f, replicas, x)
      ensures p in t.points && t.points[p] == x
    {
      if x in s.instances && x != op.instanceId {
        assert Points(f, replicas, x) !! Points(f, replicas, op.instanceId);
      }
    }
  }

  lemma {:induction false} CollisionFreeHistory(f: HashFunc, replicas: nat, ops: seq<RingOp>)
    requires CollisionFree(f, replicas, Mentioned(ops))
    ensures OwnsExactlyItsPoints(f, replicas, ApplyOps(f, replicas, ops))
    ensures ApplyOps(f, replicas, ops).instances <= Mentioned(ops)
  {
    if ops != [] {
      var before := ops[..|ops| - 1];
      assert forall i :: 0 <= i < |before| ==> before[i] == ops[i];
      assert Mentioned(before) <= Mentioned(ops);
      assert ops[|ops| - 1].instanceId in Mentioned(ops);
      CollisionFreeHistory(f, replicas, before);
      CollisionFreeStep(f, replicas, ApplyOps(f, replicas, before), ops[|ops| - 1], Mentioned(ops));
    }
  }

  /** The points that x owns. */
  function OwnedBy(m: PointMap, x: string): set<Hash>
  {
    set p | p in m && m[p] == x
  }

  /** If the hash function tells the virtual nodes apart, every present instance owns as many points as
      there are replicas, and nobody else owns any. */
  lemma EachOwnsItsReplicas(f: HashFunc, replicas: nat, ops: seq<RingOp>, x: string)
    requires TellsApart(f, replicas, Mentioned(ops))
    ensures var s := ApplyOps(f, replicas, ops);
            |OwnedBy(s.points, x)| == if x in s.instances then replicas else 0
  {
    hide Points, PointAt, ApplyOps;
    var s := ApplyOps(f, replicas, ops);
    ApartIsCollisionFree(f, replicas, Mentioned(ops));
    CollisionFreeHistory(f, replicas, ops);
    if x in s.instances {
      PointsAreMany(f, replicas, replicas, x);
      assert OwnedBy(s.points, x) == Points(f, replicas, x);
    } else {
      assert OwnedBy(s.points, x) == {};
    }
  }

  /** A newcomer gets every key that hashes to one of its points, whatever collides. */
  lemma NewcomerGetsItsKeys(f: HashFunc, replicas: nat, ops: seq<RingOp>, x: string, i: nat)
    requires x !in ApplyOps(f, replicas, ops).instances && i < replicas
    ensures Owner(ApplyOps(f, replicas, ops + [AddOp(x)]).points, f(VirtualNodeKey(x, i))) == x
  {
    var s, h := ApplyOps(f, replicas, ops), PointAt(f, x, i);
    assert (ops + [AddOp(x)])[..|ops|] == ops;
    assert h in Points(f, replicas, x);
    var m := AddPoints(s.points, Points(f, replicas, x), x);
    assert h in m;
    assert IsSuccessor(m.Keys, h, Successor(m.Keys, h));
    assert Successor(m.Keys, h) == h;
  }

  lemma OnePoint(f: HashFunc, id: string)
    ensures VirtualNodeKey(id, 0) == id + "#0" && Points(f, 1, id) == {f(id + "#0")}
  {
    assert Decimal(0) == "0";
    assert id + "#" + "0" == id + "#0";
    NoPoints(f, id);
    PointsGrow(f, 0, id);
  }

  lemma TwoAdds(f: HashFunc, a: string, b: string)
    requires a != b && f(a + "#0") != f(b + "#0")
    ensures ApplyOps(f, 1, [AddOp(a), AddOp(b)]).points == map[f(a + "#0") := a, f(b + "#0") := b]
  {
    hide Points, VirtualNodeKey;
    var ops := [AddOp(a), AddOp(b)];
    assert ops[..1] == [AddOp(a)] && ops[..1][..0] == [];
    OnePoint(f, a);
    OnePoint(f, b);
    assert ApplyOps(f, 1, ops[..1]) == RingState(AddPoints(map[], Points(f, 1, a), a), {a});
  }

  /** Two instances with one virtual node each share the ring between them. */
  lemma TwoShareTheRing(f: HashFunc)
    requires f("a#0") == 10 && f("b#0") == 20 && f("k") == 5 && f("l") == 15
    ensures var m := ApplyOps(f, 1, [AddOp("a"), AddOp("b")]).points;
            Owner(m, f("k")) == "a" && Owner(m, f("l")) == "b"
  {
    hide ApplyOps;
    assert "a" + "#0" == "a#0" && "b" + "#0" == "b#0";
    TwoAdds(f, "a", "b");
    var m: PointMap := map[10 := "a", 20 := "b"];
    OwnerBetween(m, 5, 10);
    OwnerBetween(m, 15, 20);
  }

  lemma OwnerBetween(m: PointMap, h: Hash, p: Hash)
    requires IsSuccessor(m.Keys, h, p)
    ensures Owner(m, h) == m[p]
  {
    assert IsSuccessor(m.Keys, h, Successor(m.Keys, h));
  }

  lemma SameInstancesSamePoints(f: HashFunc, replicas: nat, s: RingState, t: RingState)
    requires OwnsExactlyItsPoints(f, replicas, s) && OwnsExactlyItsPoints(f, replicas, t)
    requires s.instances == t.instances
    ensures s.points == t.points
  {
    forall p
      ensures p in s.points <==> p in t.points
      ensures p in s.points ==> s.points[p] == t.points[p]
    {
      if p in s.points {
        var x := s.points[p];
        assert x in t.instances && p in Points(f, replicas, x);
      }
      if p in t.points {
        var x := t.points[p];
        assert x in s.instances && p in Points(f, replicas, x);
      }
    }
  }

  /** Two histories that end with the same instances answer every lookup alike: the order of
      Adds does not matter, and neither do instances that came and went. */
  lemma HistoryDoesNotMatter(f: HashFunc, replicas: nat, ops: seq<RingOp>, ops': seq<RingOp>, h: Hash)
    requires CollisionFree(f, replicas, Mentioned(ops)) && CollisionFree(f, replicas, Mentioned(ops'))
    requires ApplyOps(f, replicas, ops).instances == ApplyOps(f, replicas, ops').instances
    ensures Owner(ApplyOps(f, replicas, ops).points, h) == Owner(ApplyOps(f, replicas, ops').points, h)
  {
    CollisionFreeHistory(f, replicas, ops);
    CollisionFreeHistory(f, replicas, ops');
    SameInstancesSamePoints(f, replicas, ApplyOps(f, replicas, ops), ApplyOps(f, replicas, ops'));
  }

  /** Remove undoes Add: the map and the instances come back. */
  lemma RemoveUndoesAdd(f: HashFunc, replicas: nat, ops: seq<RingOp>, x: string)
    requires CollisionFree(f, replicas, Mentioned(ops) + {x})
    requires x !in ApplyOps(f, replicas, ops).instances
    ensures ApplyOps(f, replicas, ops + [AddOp(x)] + [RemoveOp(x)]) == ApplyOps(f, replicas, ops)
  {
    var once, twice := ops + [AddOp(x)], ops + [AddOp(x)] + [RemoveOp(x)];
    assert once[..|once| - 1] == ops && twice[..|twice| - 1] == once;
    forall y | y in Mentioned(twice)
      ensures y in Mentioned(ops) + {x}
    {
      var i :| 0 <= i < |twice| && twice[i].instanceId == y;
      if i < |ops| {
        assert ops[i].instanceId == y;
      }
    }
    CollisionFreeHistory(f, replicas, ops);
    CollisionFreeHistory(f, replicas, twice);
    var s, t := ApplyOps(f, replicas, ops), ApplyOps(f, replicas, twice);
    assert t.instances == s.instances;
    SameInstancesSamePoints(f, replicas, s, t);
  }

  // ---------- sorting ----------

  ghost predicate Sorted(s: seq<Hash>)
  {
    forall i, j :: 0 <= i < j < |s| ==> s[i] <= s[j]
  }

  function Insert(s: seq<Hash>, h: Hash): (t: seq<Hash>)
    ensures |t| == |s| + 1 && t[0] == if s == [] || h <= s[0] then h else s[0]
  {
    if s == [] || h <= s[0] then [h] + s else [s[0]] + Insert(s[1..], h)
  }

  lemma {:induction false} InsertSorts(s: seq<Hash>, h: Hash)
    requires Sorted(s)
    ensures Sorted(Insert(s, h))
  {
    if s != [] && h > s[0] {
      InsertSorts(s[1..], h);
      var rest := Insert(s[1..], h);
      assert s[0] <= rest[0];
      assert forall k :: 0 <= k < |rest| ==> rest[0] <= rest[k];
    }
  }

  lemma {:induction false} InsertPermutes(s: seq<Hash>, h: Hash)
    ensures multiset(Insert(s, h)) == multiset(s) + multiset{h}
  {
    if s != [] && h > s[0] {
      InsertPermutes(s[1..], h);
      assert s == [s[0]] + s[1..];
    }
  }

  /** What sort.Slice leaves behind. */
  function SortHashes(s: seq<Hash>): seq<Hash>
  {
    if s == [] then [] else Insert(SortHashes(s[..|s| - 1]), s[|s| - 1])
  }

  lemma {:induction false} SortHashesSorts(s: seq<Hash>)
    ensures Sorted(SortHashes(s))
    ensures multiset(SortHashes(s)) == multiset(s)
  {
    if s != [] {
      SortHashesSorts(s[..|s| - 1]);
      InsertSorts(SortHashes(s[..|s| - 1]), s[|s| - 1]);
      InsertPermutes(SortHashes(s[..|s| - 1]), s[|s| - 1]);
      assert s == s[..|s| - 1] + [s[|s| - 1]];
    }
  }

  lemma SortKeepsMembers(s: seq<Hash>)
    ensures Sorted(SortHashes(s))
    ensures forall h :: h in SortHashes(s) <==> h in s
  {
    SortHashesSorts(s);
    forall h
      ensures h in SortHashes(s) <==> h in s
    {
      assert h in SortHashes(s) <==> h in multiset(SortHashes(s));
      assert h in s <==> h in multiset(s);
    }
  }

  lemma SortKeepsLength(s: seq<Hash>)
    ensures |SortHashes(s)| == |s|
  {
    SortHashesSorts(s);
    assert |multiset(SortHashes(s))| == |multiset(s)|;
  }

  /** Ascending, and no hash twice. */
  ghost predicate Strict(s: seq<Hash>)
  {
    forall i, j :: 0 <= i < j < |s| ==> s[i] < s[j]
  }

  lemma {:induction false} InsertStrict(s: seq<Hash>, h: Hash)
    requires Strict(s) && h !in s
    ensures Strict(Insert(s, h))
  {
    if s != [] && h > s[0] {
      InsertStrict(s[1..], h);
      var rest := Insert(s[1..], h);
      assert s[0] < rest[0];
      assert forall k :: 0 < k < |rest| ==> rest[0] < rest[k];
    }
  }

  /** Sorting hashes of which none occurs twice. */
  lemma {:induction false} SortStrict(s: seq<Hash>)
    requires forall i, j :: 0 <= i < j < |s| ==> s[i] != s[j]
    ensures Strict(SortHashes(s))
  {
    if s != [] {
      var n := |s| - 1;
      SortStrict(s[..n]);
      SortKeepsMembers(s[..n]);
      InsertStrict(SortHashes(s[..n]), s[n]);
    }
  }

  lemma {:induction false} StrictIsUnique(a: seq<Hash>, b: seq<Hash>)
    requires Strict(a) && Strict(b) && forall h :: h in a <==> h in b
    ensures a == b
  {
    assert a != [] ==> b != [] by {
      if a != [] {
        assert a[0] in b;
      }
    }
    assert b != [] ==> a != [] by {
      if b != [] {
        assert b[0] in a;
      }
    }
    if a != [] {
      assert a[0] in b && b[0] in a;
      assert a[0] == b[0];
      forall h
        ensures h in a[1..] <==> h in b[1..]
      {
        assert h in a[1..] <==> h in a && h != a[0];
        assert h in b[1..] <==> h in b && h != b[0];
      }
      StrictIsUnique(a[1..], b[1..]);
    }
  }

  /** Add appends every point, and Remove rebuilds the slice from the map.  So when x is added and
      removed again, the slice comes back exactly if it listed no hash twice before. */
  lemma SliceComesBackIff(before: seq<Hash>, after: seq<Hash>, points: set<Hash>)
    requires Sorted(before) && Lists(before, points) && Strict(after) && Lists(after, points)
    ensures after == before <==> Strict(before)
  {
    if Strict(before) {
      StrictIsUnique(before, after);
    }
  }

  lemma PointsGrow(f: HashFunc, i: nat, instanceId: string)
    ensures Points(f, i + 1, instanceId) == Points(f, i, instanceId) + {PointAt(f, instanceId, i)}
  {
    assert PointAt(f, instanceId, i) in Points(f, i + 1, instanceId);
  }

  lemma KeysHitPoints(f: HashFunc, replicas: nat, x: string)
    ensures forall i :: 0 <= i < replicas ==> f(VirtualNodeKey(x, i)) in Points(f, replicas, x)
  {
    forall i: nat | i < replicas
      ensures f(VirtualNodeKey(x, i)) in Points(f, replicas, x)
    {
      assert PointAt(f, x, i) in Points(f, replicas, x);
    }
  }

  lemma NoPoints(f: HashFunc, instanceId: string)
    ensures Points(f, 0, instanceId) == {}
  {
  }

  lemma AddPointsGrow(m: PointMap, points: set<Hash>, h: Hash, x: string)
    ensures AddPoints(m, points, x)[h := x] == AddPoints(m, points + {h}, x)
  {
  }

  /** The slice holds exactly the given hashes, in some order, perhaps repeated. */
  ghost predicate Lists(ring: seq<Hash>, hashes: set<Hash>)
  {
    forall h :: h in ring <==> h in hashes
  }

  lemma ListsGrow(ring: seq<Hash>, hashes: set<Hash>, h: Hash)
    requires Lists(ring, hashes)
    ensures Lists(ring + [h], hashes + {h})
  {
  }

  /** The first entry that is not below the hash, or else the very first one. */
  lemma SplitIsSuccessor(ring: seq<Hash>, points: set<Hash>, hash: Hash, at: nat)
    requires Sorted(ring) && Lists(ring, points) && ring != [] && at <= |ring|
    requires forall k :: 0 <= k < at ==> ring[k] < hash
    requires forall k :: at <= k < |ring| ==> hash <= ring[k]
    ensures IsSuccessor(points, hash, ring[if at == |ring| then 0 else at])
  {
    var idx := if at == |ring| then 0 else at;
    assert ring[idx] in points;
    forall q | q in points
      ensures at < |ring| && hash <= q ==> ring[idx] <= q
      ensures at == |ring| ==> ring[idx] <= q < hash
    {
      assert q in ring;
      var k :| 0 <= k < |ring| && ring[k] == q;
    }
  }

  // ---------- the ring itself ----------

  const DEFAULT_REPLICAS: nat := 50

  class Ring {
    const hashFunc: HashFunc
    const replicas: nat
    var ring: seq<Hash>
    var hashMap: PointMap
    var instances: set<string>

    ghost predicate Valid()
      reads this
    {
      && replicas > 0
      && Sorted(ring)
      && Lists(ring, hashMap.Keys)
      && PointsHeld(hashFunc, replicas, State())
    }

    function State(): RingState
      reads this
    {
      RingState(hashMap, instances)
    }

    constructor (replicas: int, hashFunc: HashFunc)
      ensures Valid() && State() == EMPTY_RING
      ensures this.hashFunc == hashFunc
      ensures this.replicas == if replicas <= 0 then 50 else replicas
    {
      this.hashFunc := hashFunc;
      this.replicas := if replicas <= 0 then DEFAULT_REPLICAS else replicas;
      ring := [];
      hashMap := map[];
      instances := {};
    }

    method Add(instanceId: string)
      requires Valid()
      modifies this
      ensures Valid()
      ensures State() == ApplyOp(hashFunc, replicas, old(State()), AddOp(instanceId))
      ensures instances == old(instances) + {instanceId}
      ensures instanceId in old(instances) ==> hashMap == old(hashMap) && ring == old(ring)
      ensures instanceId !in old(instances) ==>
                forall i :: 0 <= i < replicas ==>
                  var p := hashFunc(VirtualNodeKey(instanceId, i)); p in hashMap && hashMap[p] == instanceId
      ensures |ring| == |old(ring)| + if instanceId in old(instances) then 0 else replicas
    {
      if instanceId in instances {
        return;
      }
      OpKeepsPointsHeld(hashFunc, replicas, State(), AddOp(instanceId));
      instances := instances + {instanceId};
      for i := 0 to replicas
        invariant hashMap == AddPoints(old(hashMap), Points(hashFunc, i, instanceId), instanceId)
        invariant instances == old(instances) + {instanceId}
        invariant Lists(ring, hashMap.Keys) && |ring| == |old(ring)| + i
      {
        var hash := hashFunc(VirtualNodeKey(instanceId, i));
        PointsGrow(hashFunc, i, instanceId);
        ListsGrow(ring, hashMap.Keys, hash);
        AddPointsGrow(old(hashMap), Points(hashFunc, i, instanceId), hash, instanceId);
        hashMap := hashMap[hash := instanceId];
        ring := ring + [hash];
      }
      KeysHitPoints(hashFunc, replicas, instanceId);
      SortKeepsMembers(ring);
      SortKeepsLength(ring);
      ring := SortHashes(ring);
    }

    method Remove(instanceId: string)
      requires Valid()
      modifies this
      ensures Valid()
      ensures State() == ApplyOp(hashFunc, replicas, old(State()), RemoveOp(instanceId))
      ensures instances == old(instances) - {instanceId}
      ensures instanceId !in old(instances) ==> hashMap == old(hashMap)
      ensures instanceId in old(instances) ==>
                forall i :: 0 <= i < replicas ==> hashFunc(VirtualNodeKey(instanceId, i)) !in hashMap
      ensures if instanceId in old(instances) then Strict(ring) else ring == old(ring)
    {
      hide Points, PointsHeld, SortHashes;
      if instanceId !in instances {
        return;
      }
      OpKeepsPointsHeld(hashFunc, replicas, State(), RemoveOp(instanceId));
      NoPoints(hashFunc, instanceId);
      instances := instances - {instanceId};
      for i := 0 to replicas
        invariant hashMap == old(hashMap) - Points(hashFunc, i, instanceId)
        invariant instances == old(instances) - {instanceId}
      {
        var hash := hashFunc(VirtualNodeKey(instanceId, i));
        PointsGrow(hashFunc, i, instanceId);
        hashMap := hashMap - {hash};
      }
      ring := [];
      var unvisited := hashMap.Keys;
      while unvisited != {}
        invariant unvisited <= hashMap.Keys
        invariant Lists(ring, hashMap.Keys - unvisited)
        invariant forall i, j :: 0 <= i < j < |ring| ==> ring[i] != ring[j]
        invariant hashMap == old(hashMap) - Points(hashFunc, replicas, instanceId)
        invariant instances == old(instances) - {instanceId}
        decreases unvisited
      {
        var hash :| hash in unvisited;
        assert hash !in ring;
        ListsGrow(ring, hashMap.Keys - unvisited, hash);
        assert hashMap.Keys - (unvisited - {hash}) == hashMap.Keys - unvisited + {hash};
        unvisited := unvisited - {hash};
        ring := ring + [hash];
      }
      KeysHitPoints(hashFunc, replicas, instanceId);
      SortKeepsMembers(ring);
      SortStrict(ring);
      ring := SortHashes(ring);
    }

    /** Binary search and wrap-around answer what the naive definition answers. */
    method Get(key: string) returns (instanceId: string)
      requires Valid()
      ensures instanceId == Owner(hashMap, hashFunc(key))
      ensures hashMap != map[] ==> instanceId in instances
    {
      if |ring| == 0 {
        assert hashMap == map[];
        return "";
      }
      assert ring[0] in hashMap;
      var hash := hashFunc(key);
      var lo, hi := 0, |ring|;
      while lo < hi
        invariant 0 <= lo <= hi <= |ring|
        invariant forall k :: 0 <= k < lo ==> ring[k] < hash
        invariant forall k :: hi <= k < |ring| ==> hash <= ring[k]
      {
        var mid := (lo + hi) / 2;
        if ring[mid] < hash {
          lo := mid + 1;
        } else {
          hi := mid;
        }
      }
      var idx := if lo == |ring| then 0 else lo;
      SplitIsSuccessor(ring, hashMap.Keys, hash, lo);
      return hashMap[ring[idx]];
    }
  }
}
