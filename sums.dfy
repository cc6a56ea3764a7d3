/** Sums of the values of a finite map, as Python's `sum(d.values())`, with the facts the
    counting and averaging code needs. */
module Sums {

  /** Some key of a non-empty map; one fixed choice, shared by the sums and their lemmas. */
  ghost function Pick<K, V>(m: map<K, V>): (k: K)
    requires m != map[]
    ensures k in m
  {
    var k :| k in m; k
  }

  ghost function NatSum<K>(m: map<K, nat>): nat
    decreases |m|
  {
    if m == map[] then 0 else m[Pick(m)] + NatSum(m - {Pick(m)})
  }

  ghost function RealSum<K>(m: map<K, real>): real
    decreases |m|
  {
    if m == map[] then 0.0 else m[Pick(m)] + RealSum(m - {Pick(m)})
  }

  /** The value at a missing key counts as 0, like a `defaultdict` or a `Counter`. */
  function NatGet<K>(m: map<K, nat>, k: K): nat
  {
    if k in m then m[k] else 0
  }

  function RealGet<K>(m: map<K, real>, k: K): real
  {
    if k in m then m[k] else 0.0
  }

  /** Any key can be taken out first. */
  lemma {:induction false} NatSumRemove<K>(m: map<K, nat>, k: K)
    requires k in m
    ensures NatSum(m) == m[k] + NatSum(m - {k})
    decreases |m|
  {
    var j := Pick(m);
    if j != k {
      NatSumRemove(m - {j}, k);
      NatSumRemove(m - {k}, j);
      assert m - {j} - {k} == m - {k} - {j};
    }
  }

  lemma {:induction false} RealSumRemove<K>(m: map<K, real>, k: K)
    requires k in m
    ensures RealSum(m) == m[k] + RealSum(m - {k})
    decreases |m|
  {
    var j := Pick(m);
    if j != k {
      RealSumRemove(m - {j}, k);
      RealSumRemove(m - {k}, j);
      assert m - {j} - {k} == m - {k} - {j};
    }
  }

  /** Setting one key changes the sum by the difference at that key. */
  lemma NatSumUpdate<K>(m: map<K, nat>, k: K, v: nat)
    ensures NatSum(m[k := v]) + NatGet(m, k) == NatSum(m) + v
  {
    var m' := m[k := v];
    NatSumRemove(m', k);
    assert m' - {k} == m - {k};
    if k in m {
      NatSumRemove(m, k);
    } else {
      assert m - {k} == m;
    }
  }

  lemma RealSumUpdate<K>(m: map<K, real>, k: K, v: real)
    ensures RealSum(m[k := v]) == RealSum(m) - RealGet(m, k) + v
  {
    var m' := m[k := v];
    RealSumRemove(m', k);
    assert m' - {k} == m - {k};
    if k in m {
      RealSumRemove(m, k);
    } else {
      assert m - {k} == m;
    }
  }

  /** Adding one at a key (a `Counter` increment) adds one to the sum. */
  lemma NatSumIncrement<K>(m: map<K, nat>, k: K)
    ensures NatSum(m[k := NatGet(m, k) + 1]) == NatSum(m) + 1
  {
    NatSumUpdate(m, k, NatGet(m, k) + 1);
  }

  /** No value exceeds the sum. */
  lemma {:induction false} NatSumPositive<K>(m: map<K, nat>, k: K)
    requires k in m
    ensures NatSum(m) >= m[k]
  {
    NatSumRemove(m, k);
  }

  /** Real multiplication under a name of its own, so that the solver can match products by
      their arguments. */
  function Mul(a: real, b: real): real
  {
    a * b
  }

  /** Multiplication distributes over addition. */
  lemma MulAdd(c: real, a: real, b: real)
    ensures Mul(c, a) + Mul(c, b) == Mul(c, a + b)
  {
  }

  /** Every value multiplied by `c`. */
  function Scaled<K>(c: real, m: map<K, real>): (r: map<K, real>)
    ensures r.Keys == m.Keys
    ensures forall k :: k in m ==> r[k] == Mul(c, m[k])
  {
    map k | k in m :: Mul(c, m[k])
  }

  lemma ScaledRemove<K>(c: real, m: map<K, real>, j: K)
    ensures Scaled(c, m) - {j} == Scaled(c, m - {j})
  {
    var l, r := Scaled(c, m) - {j}, Scaled(c, m - {j});
    assert l.Keys == r.Keys;
    forall k | k in l ensures l[k] == r[k] {
      assert l[k] == Mul(c, m[k]);
    }
  }

  /** Scaling every value scales the sum. */
  lemma {:induction false} RealSumScale<K>(m: map<K, real>, c: real)
    ensures RealSum(Scaled(c, m)) == Mul(c, RealSum(m))
    decreases |m|
  {
    var cm := Scaled(c, m);
    if m != map[] {
      var j := Pick(m);
      RealSumRemove(m, j);
      RealSumRemove(cm, j);
      RealSumScale(m - {j}, c);
      ScaledRemove(c, m, j);
      MulAdd(c, m[j], RealSum(m - {j}));
    } else {
      assert cm == map[];
    }
  }

  /** Real division under a name of its own, for the same reason as `Mul`. */
  function Div(a: real, t: real): real
    requires t != 0.0
  {
    a / t
  }

  /** Division by a common divisor distributes over addition. */
  lemma DivAdd(a: real, b: real, t: real)
    requires t != 0.0
    ensures Div(a, t) + Div(b, t) == Div(a + b, t)
  {
    var x, y := a / t, b / t;
    assert x * t == a && y * t == b;
    assert (x + y) * t == a + b;
  }

  /** Every count as a real, divided by `t`. */
  function Divided<K>(m: map<K, nat>, t: real): (r: map<K, real>)
    requires t != 0.0
    ensures r.Keys == m.Keys
    ensures forall k :: k in m ==> r[k] == Div(m[k] as real, t)
  {
    map k | k in m :: Div(m[k] as real, t)
  }

  lemma DividedRemove<K>(m: map<K, nat>, t: real, j: K)
    requires t != 0.0
    ensures Divided(m, t) - {j} == Divided(m - {j}, t)
  {
    var l, r := Divided(m, t) - {j}, Divided(m - {j}, t);
    assert l.Keys == r.Keys;
    forall k | k in l ensures l[k] == r[k] {
      assert l[k] == Div(m[k] as real, t);
    }
  }

  /** A non-zero total divided by itself. */
  lemma DivSelf(t: real)
    requires t != 0.0
    ensures Div(t, t) == 1.0
  {
  }

  /** Converting counts to reals and dividing by a common total divides the sum. */
  lemma {:induction false} NatSumDivided<K>(m: map<K, nat>, t: real)
    requires t != 0.0
    ensures RealSum(Divided(m, t)) == Div(NatSum(m) as real, t)
    decreases |m|
  {
    var dm := Divided(m, t);
    if m != map[] {
      var j := Pick(m);
      NatSumRemove(m, j);
      RealSumRemove(dm, j);
      NatSumDivided(m - {j}, t);
      DividedRemove(m, t, j);
      DivAdd(m[j] as real, NatSum(m - {j}) as real, t);
    } else {
      assert dm == map[];
    }
  }
}
