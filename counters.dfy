/** `collections.Counter` and `defaultdict(int)` used for counting: a map from keys to
    counts in which a missing key counts 0. */
module Counters {
  import opened Sums

  /** The counts `m` after one increment per element of `ks`, in order. */
  function Counted<K>(m: map<K, nat>, ks: seq<K>): (r: map<K, nat>)
    decreases |ks|
  {
    if ks == [] then m
    else
      var n := |ks| - 1;
      var c := Counted(m, ks[..n]);
      c[ks[n] := NatGet(c, ks[n]) + 1]
  }

  /** One increment. */
  lemma CountedOne<K>(m: map<K, nat>, k: K)
    ensures Counted(m, [k]) == m[k := NatGet(m, k) + 1]
  {
    assert [k][..0] == [];
  }

  /** Each key gains exactly the number of its occurrences in `ks`. */
  lemma {:induction false} CountedAt<K>(m: map<K, nat>, ks: seq<K>, k: K)
    ensures NatGet(Counted(m, ks), k) == NatGet(m, k) + multiset(ks)[k]
    decreases |ks|
  {
    if ks != [] {
      var n := |ks| - 1;
      CountedAt(m, ks[..n], k);
      assert ks == ks[..n] + [ks[n]];
      assert multiset(ks) == multiset(ks[..n]) + multiset{ks[n]};
    }
  }

  /** The keys are those counted before and those of `ks`. */
  lemma {:induction false} CountedKeys<K>(m: map<K, nat>, ks: seq<K>, k: K)
    ensures k in Counted(m, ks) <==> k in m || k in ks
    decreases |ks|
  {
    if ks != [] {
      var n := |ks| - 1;
      CountedKeys(m, ks[..n], k);
      assert ks == ks[..n] + [ks[n]];
    }
  }

  /** Every increment adds one to the total. */
  lemma {:induction false} CountedSum<K>(m: map<K, nat>, ks: seq<K>)
    ensures NatSum(Counted(m, ks)) == NatSum(m) + |ks|
    decreases |ks|
  {
    if ks != [] {
      var n := |ks| - 1;
      CountedSum(m, ks[..n]);
      NatSumIncrement(Counted(m, ks[..n]), ks[n]);
    }
  }

  /** Counting `a` and then `b` is counting `a + b`. */
  lemma {:induction false} CountedAppend<K>(m: map<K, nat>, a: seq<K>, b: seq<K>)
    ensures Counted(m, a + b) == Counted(Counted(m, a), b)
    decreases |b|
  {
    if b == [] {
      assert a + b == a;
    } else {
      var n := |b| - 1;
      var ab := a + b;
      assert ab[..|ab| - 1] == a + b[..n] && ab[|ab| - 1] == b[n];
      CountedAppend(m, a, b[..n]);
      var c := Counted(m, a + b[..n]);
      assert Counted(m, ab) == c[b[n] := NatGet(c, b[n]) + 1];
    }
  }

  /** A `Counter` object, incremented in place. */
  class Counter<K(==)> {
    var counts: map<K, nat>

    /** `Counter()`: nothing counted yet. */
    constructor ()
      ensures counts == map[]
    {
      counts := map[];
    }

    /** `counter[k] += 1`. */
    method Increment(k: K)
      modifies this
      ensures counts == Counted(old(counts), [k])
    {
      CountedOne(counts, k);
      counts := counts[k := NatGet(counts, k) + 1];
    }
  }
}
