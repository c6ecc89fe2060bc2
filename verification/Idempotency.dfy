/**
 Idempotency keys (pkg/dag/runtime/idempotency.go).

 A key is the SHA-256 digest of its parts joined by a NUL byte.  The digest is treated as
 injective, so a key is modelled by what is digested.  `Preimage` is the byte string the hasher
 receives; `Key` is the list of parts it was built from.  The lemmas below say when the two carry
 the same information.
 */
module Idempotency {
  import opened Decimals

  type Key = seq<string>

  const NUL: char := '\0'

  // ---------- decimal parts ----------

  lemma DecimalNulFree(n: int)
    ensures NulFree(Decimal(n))
  {
    ParseDecimalNat(if n < 0 then -n else n);
  }

  // ---------- the three key families ----------

  function HopKey(entityId: string, nodeId: string, inputSequence: int): Key
  {
    [entityId, nodeId, Decimal(inputSequence)]
  }

  function CompensationKey(entityId: string, forwardSequence: int, compensatorUnitId: string): Key
  {
    [entityId, "comp", Decimal(forwardSequence), compensatorUnitId]
  }

  function SignalKey(entityId: string, signalName: string, deliveryId: string): Key
  {
    [entityId, signalName, deliveryId]
  }

  lemma HopKeyInjective(e: string, n: string, s: int, e': string, n': string, s': int)
    ensures HopKey(e, n, s) == HopKey(e', n', s') <==> e == e' && n == n' && s == s'
  {
    DecimalInjective(s, s');
    var k, k' := HopKey(e, n, s), HopKey(e', n', s');
    assert k == k' ==> k[0] == k'[0] && k[1] == k'[1] && k[2] == k'[2];
  }

  lemma CompensationKeyInjective(e: string, s: int, c: string, e': string, s': int, c': string)
    ensures CompensationKey(e, s, c) == CompensationKey(e', s', c') <==> e == e' && s == s' && c == c'
  {
    DecimalInjective(s, s');
    var k, k' := CompensationKey(e, s, c), CompensationKey(e', s', c');
    assert k == k' ==> k[0] == k'[0] && k[2] == k'[2] && k[3] == k'[3];
  }

  // ---------- hashParts ----------

  predicate NulFree(s: string)
  {
    NUL !in s
  }

  ghost predicate NulFreeParts(parts: Key)
  {
    forall i :: 0 <= i < |parts| ==> NulFree(parts[i])
  }

  /** The bytes that reach the hasher: the parts separated by single NULs. */
  function Preimage(parts: Key): string
  {
    if parts == [] then []
    else if |parts| == 1 then parts[0]
    else Preimage(parts[..|parts| - 1]) + [NUL] + parts[|parts| - 1]
  }

  /** The hasher loop: a separator before every part but the first. */
  method HashParts(parts: Key) returns (written: string)
    ensures written == Preimage(parts)
  {
    written := [];
    for i := 0 to |parts|
      invariant written == Preimage(parts[..i])
    {
      if i > 0 {
        written := written + [NUL];
      }
      written := written + parts[i];
      assert parts[..i + 1][..i] == parts[..i];
    }
    assert parts[..|parts|] == parts;
  }

  /** Cuts a byte string at its NULs. */
  function Split(s: string): (parts: Key)
    ensures |parts| > 0
  {
    if s == [] then [[]]
    else
      var rest := Split(s[..|s| - 1]);
      var c := s[|s| - 1];
      if c == NUL then rest + [[]]
      else rest[|rest| - 1 := rest[|rest| - 1] + [c]]
  }

  lemma {:induction false} SplitAppend(s: string, tail: string)
    requires NulFree(tail)
    ensures Split(s + [NUL] + tail) == Split(s) + [tail]
  {
    var whole := s + [NUL] + tail;
    if tail == [] {
      assert whole[..|whole| - 1] == s;
    } else {
      var shorter := tail[..|tail| - 1];
      assert whole[..|whole| - 1] == s + [NUL] + shorter;
      SplitAppend(s, shorter);
      assert tail == shorter + [tail[|tail| - 1]];
    }
  }

  lemma {:induction false} SplitOne(s: string)
    requires NulFree(s)
    ensures Split(s) == [s]
  {
    if s != [] {
      SplitOne(s[..|s| - 1]);
      assert s == s[..|s| - 1] + [s[|s| - 1]];
    }
  }

  /** What is hashed can be taken apart again: the parts are recovered exactly. */
  lemma {:induction false} PreimageRoundTrip(parts: Key)
    requires |parts| > 0 && NulFreeParts(parts)
    ensures Split(Preimage(parts)) == parts
  {
    var n := |parts|;
    if n == 1 {
      SplitOne(parts[0]);
    } else {
      PreimageRoundTrip(parts[..n - 1]);
      SplitAppend(Preimage(parts[..n - 1]), parts[n - 1]);
      assert parts == parts[..n - 1] + [parts[n - 1]];
    }
  }

  lemma PreimageInjective(p: Key, q: Key)
    requires |p| > 0 && |q| > 0 && NulFreeParts(p) && NulFreeParts(q)
    ensures Preimage(p) == Preimage(q) <==> p == q
  {
    PreimageRoundTrip(p);
    PreimageRoundTrip(q);
  }

  /** The bytes of a hop key determine (entity, node, sequence). */
  lemma HopPreimage(e: string, n: string, s: int, e': string, n': string, s': int)
    requires NulFree(e) && NulFree(n) && NulFree(e') && NulFree(n')
    ensures Preimage(HopKey(e, n, s)) == Preimage(HopKey(e', n', s')) <==> e == e' && n == n' && s == s'
  {
    DecimalNulFree(s);
    DecimalNulFree(s');
    PreimageInjective(HopKey(e, n, s), HopKey(e', n', s'));
    HopKeyInjective(e, n, s, e', n', s');
  }

  /** The bytes of a compensation key determine (entity, forward sequence, compensator). */
  lemma CompensationPreimage(e: string, s: int, c: string, e': string, s': int, c': string)
    requires NulFree(e) && NulFree(c) && NulFree(e') && NulFree(c')
    ensures Preimage(CompensationKey(e, s, c)) == Preimage(CompensationKey(e', s', c'))
            <==> e == e' && s == s' && c == c'
  {
    DecimalNulFree(s);
    DecimalNulFree(s');
    PreimageInjective(CompensationKey(e, s, c), CompensationKey(e', s', c'));
    CompensationKeyInjective(e, s, c, e', s', c');
  }

  /** A compensation key is never a hop key or a signal key. */
  lemma CompensationPreimageApart(e: string, s: int, c: string, e': string, a: string, b: string)
    requires NulFree(e) && NulFree(c) && NulFree(e') && NulFree(a) && NulFree(b)
    ensures Preimage(CompensationKey(e, s, c)) != Preimage(SignalKey(e', a, b))
    ensures forall t: int :: Preimage(CompensationKey(e, s, c)) != Preimage(HopKey(e', a, t))
  {
    DecimalNulFree(s);
    PreimageInjective(CompensationKey(e, s, c), SignalKey(e', a, b));
    forall t: int
      ensures Preimage(CompensationKey(e, s, c)) != Preimage(HopKey(e', a, t))
    {
      DecimalNulFree(t);
      PreimageInjective(CompensationKey(e, s, c), HopKey(e', a, t));
    }
  }

  /** Hop keys and signal keys do share values: exactly when a signal is named like the node and
      its delivery id is the printed sequence. */
  lemma SignalMeetsHop(e: string, name: string, delivery: string, e': string, n: string, s: int)
    requires NulFree(e) && NulFree(name) && NulFree(delivery) && NulFree(e') && NulFree(n)
    ensures Preimage(SignalKey(e, name, delivery)) == Preimage(HopKey(e', n, s))
            <==> e == e' && name == n && delivery == Decimal(s)
  {
    DecimalNulFree(s);
    PreimageInjective(SignalKey(e, name, delivery), HopKey(e', n, s));
    var k, k' := SignalKey(e, name, delivery), HopKey(e', n, s);
    assert k == k' ==> k[0] == k'[0] && k[1] == k'[1] && k[2] == k'[2];
  }

  /** Without NUL-free parts the bytes no longer determine the parts: two different entity and
      node ids get one hop key. */
  lemma NulMakesHopKeysCollide()
    ensures Preimage(HopKey("a\0b", "c", 0)) == Preimage(HopKey("a", "b\0c", 0))
    ensures HopKey("a\0b", "c", 0) != HopKey("a", "b\0c", 0)
  {
    var p, q := HopKey("a\0b", "c", 0), HopKey("a", "b\0c", 0);
    assert p[..2] == ["a\0b", "c"] && q[..2] == ["a", "b\0c"];
    assert p[..2][..1] == ["a\0b"] && q[..2][..1] == ["a"];
    assert Preimage(p[..2]) == Preimage(q[..2]);
    assert p[0] != q[0];
  }
}
