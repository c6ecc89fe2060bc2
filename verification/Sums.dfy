/** Sums of finite integer maps, independent of the order of addition. */
module Sums {

  ghost function Sum(m: map<string, int>): int
  {
    if m == map[] then 0
    else
      var x :| x in m;
      m[x] + Sum(m - {x})
  }

  lemma {:induction false} SumRemove(m: map<string, int>, x: string)
    requires x in m
    ensures Sum(m) == m[x] + Sum(m - {x})
  {
    var y :| y in m && Sum(m) == m[y] + Sum(m - {y});
    if y != x {
      SumRemove(m - {y}, x);
      SumRemove(m - {x}, y);
      assert m - {y} - {x} == m - {x} - {y};
    }
  }

  lemma SumUpdate(m: map<string, int>, x: string, v: int)
    ensures Sum(m[x := v]) == Sum(m) + v - (if x in m then m[x] else 0)
  {
    SumRemove(m[x := v], x);
    assert m[x := v] - {x} == m - {x};
    if x in m {
      SumRemove(m, x);
    } else {
      assert m - {x} == m;
    }
  }

  /** Adding b pointwise adds up. */
  lemma {:induction false} SumAdd(a: map<string, int>, b: map<string, int>, c: map<string, int>)
    requires a.Keys == b.Keys == c.Keys
    requires forall x :: x in c ==> c[x] == a[x] + b[x]
    ensures Sum(c) == Sum(a) + Sum(b)
    decreases a.Keys
  {
    if c != map[] {
      var x :| x in c;
      SumRemove(a, x);
      SumRemove(b, x);
      SumRemove(c, x);
      SumAdd(a - {x}, b - {x}, c - {x});
    } else {
      assert a == map[] && b == map[];
    }
  }

  /** Scaling scales the sum. */
  lemma {:induction false} SumScale(a: map<string, int>, k: int, c: map<string, int>)
    requires a.Keys == c.Keys
    requires forall x :: x in c ==> c[x] == k * a[x]
    ensures Sum(c) == k * Sum(a)
    decreases a.Keys
  {
    if c != map[] {
      var x :| x in c;
      SumRemove(a, x);
      SumRemove(c, x);
      SumScale(a - {x}, k, c - {x});
      assert k * (a[x] + Sum(a - {x})) == k * a[x] + k * Sum(a - {x});
    } else {
      assert a == map[];
    }
  }

  lemma {:induction false} SumMonotone(a: map<string, int>, b: map<string, int>)
    requires a.Keys == b.Keys
    requires forall x :: x in a ==> a[x] <= b[x]
    ensures Sum(a) <= Sum(b)
    ensures Sum(a) == Sum(b) ==> a == b
    decreases a.Keys
  {
    if a == map[] {
      assert b == map[];
    } else {
      var x :| x in a;
      SumRemove(a, x);
      SumRemove(b, x);
      SumMonotone(a - {x}, b - {x});
      if Sum(a) == Sum(b) {
        assert a - {x} == b - {x} && a[x] == b[x];
        assert forall y :: y in a ==> y == x || y in a - {x};
        assert forall y :: y in a && y != x ==> a[y] == (a - {x})[y] == (b - {x})[y] == b[y];
      }
    }
  }

  function Zeros(keys: set<string>): map<string, int>
  {
    map x | x in keys :: 0
  }

  lemma SumZeros(keys: set<string>)
    ensures Sum(Zeros(keys)) == 0
  {
    SumScale(Zeros(keys), 0, Zeros(keys));
  }
}
