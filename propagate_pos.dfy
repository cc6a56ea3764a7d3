/** Label propagation of part-of-speech distributions over the neighbour graph
    (src/propagate_pos.py): sparse vectors of tag weights, the uniform prior, and the
    synchronous rounds in which seed vertices keep their projected distribution and every
    other vertex takes the damped weighted average of its neighbours' previous distributions.
    Weights are exact reals. Vertices are natural numbers, as in the neighbour graph. */
module PropagatePos {
  import opened Wrappers
  import opened Sums

  /** A sparse vector of weights per part-of-speech tag. */
  type Vec = map<string, real>

  /** Each vertex's neighbours with their distances, `knn_graph[v]`. */
  type Neighbours = map<nat, seq<(nat, real)>>

  // MulScalarByVector is Sums.Scaled: the same keys, every value multiplied by the scalar.

  /** `v1.get(k, 0.0) + v2.get(k, 0.0)`. */
  function SumAt(v1: Vec, v2: Vec, k: string): real
  {
    RealGet(v1, k) + RealGet(v2, k)
  }

  /** The sums at the keys `ks`. */
  function SumOn(v1: Vec, v2: Vec, ks: set<string>): Vec
  {
    map k | k in ks :: SumAt(v1, v2, k)
  }

  lemma SumOnInsert(v1: Vec, v2: Vec, ks: set<string>, k: string)
    ensures SumOn(v1, v2, ks)[k := SumAt(v1, v2, k)] == SumOn(v1, v2, ks + {k})
  {
    var l, r := SumOn(v1, v2, ks)[k := SumAt(v1, v2, k)], SumOn(v1, v2, ks + {k});
    assert l.Keys == r.Keys;
  }

  /** The value of `AddVector(v1, v2)`. */
  function VectorSum(v1: Vec, v2: Vec): Vec
  {
    SumOn(v1, v2, v1.Keys + v2.Keys)
  }

  /** The sum of two vectors has the union of their keys, a missing value counting 0. */
  lemma VectorSumAt(v1: Vec, v2: Vec)
    ensures VectorSum(v1, v2).Keys == v1.Keys + v2.Keys
    ensures forall k :: k in VectorSum(v1, v2) ==> VectorSum(v1, v2)[k] == RealGet(v1, k) + RealGet(v2, k)
  {
  }

  /** `AddVector`: `result[k] = v1.get(k, 0.0) + v2.get(k, 0.0)` for every key of either. */
  method AddVector(v1: Vec, v2: Vec) returns (result: Vec)
    ensures result == VectorSum(v1, v2)
  {
    result := map[];
    var keys := v1.Keys + v2.Keys;
    var todo := keys;
    assert SumOn(v1, v2, {}) == map[];
    while todo != {}
      invariant todo <= keys
      invariant result == SumOn(v1, v2, keys - todo)
      decreases todo
    {
      var k :| k in todo;
      SumOnInsert(v1, v2, keys - todo, k);
      assert (keys - todo) + {k} == keys - (todo - {k});
      result := result[k := SumAt(v1, v2, k)];
      todo := todo - {k};
    }
    assert keys - todo == keys;
  }

  /** Adding vectors is commutative. */
  lemma VectorSumCommutes(v1: Vec, v2: Vec)
    ensures VectorSum(v1, v2) == VectorSum(v2, v1)
  {
    assert v1.Keys + v2.Keys == v2.Keys + v1.Keys;
  }

  /** Taking one key of `v1` out of the sum. */
  lemma VectorSumRemove(v1: Vec, v2: Vec, k: string)
    requires k in v1
    ensures VectorSum(v1, v2) == VectorSum(v1 - {k}, v2)[k := SumAt(v1, v2, k)]
  {
    var l, r := VectorSum(v1, v2), VectorSum(v1 - {k}, v2)[k := SumAt(v1, v2, k)];
    assert l.Keys == r.Keys;
    forall j | j in l
      ensures l[j] == r[j]
    {
      if j != k {
        assert RealGet(v1 - {k}, j) == RealGet(v1, j);
      }
    }
  }

  /** The total weight of a sum of vectors is the sum of their totals. */
  lemma {:induction false} VectorSumTotal(v1: Vec, v2: Vec)
    ensures RealSum(VectorSum(v1, v2)) == RealSum(v1) + RealSum(v2)
    decreases |v1|
  {
    if v1 == map[] {
      assert VectorSum(v1, v2) == v2;
    } else {
      var k := Pick(v1);
      var rest := v1 - {k};
      VectorSumTotal(rest, v2);
      var m := VectorSum(rest, v2);
      VectorSumRemove(v1, v2, k);
      RealSumUpdate(m, k, SumAt(v1, v2, k));
      assert RealGet(m, k) == RealGet(v2, k);
      RealSumRemove(v1, k);
    }
  }

  /** The map giving `c` to every element of `s`. */
  function Constant(s: set<string>, c: real): (r: Vec)
    ensures r.Keys == s && forall k :: k in r ==> r[k] == c
  {
    map k | k in s :: c
  }

  lemma {:induction false} ConstantTotal(s: set<string>, c: real)
    ensures RealSum(Constant(s, c)) == c * |s| as real
    decreases |s|
  {
    var m := Constant(s, c);
    if s != {} {
      var k := Pick(m);
      RealSumRemove(m, k);
      assert m - {k} == Constant(s - {k}, c);
      ConstantTotal(s - {k}, c);
    }
  }

  /** `uniform_pos = {pos: 1/len(all_pos) for pos in all_pos}`: `1/n` for each of the `n` tags.
      With no tag projected the comprehension divides nothing and the prior is empty. */
  function UniformPos(allPos: set<string>): (r: Vec)
    ensures r.Keys == allPos
    ensures forall p :: p in r ==> r[p] == 1.0 / |allPos| as real
  {
    if allPos == {} then map[] else Constant(allPos, 1.0 / |allPos| as real)
  }

  /** The uniform prior of at least one tag is a distribution: its weights sum to 1. */
  lemma UniformTotal(allPos: set<string>)
    requires allPos != {}
    ensures RealSum(UniformPos(allPos)) == 1.0
  {
    var n := |allPos| as real;
    ConstantTotal(allPos, 1.0 / n);
    assert 1.0 / n * n == 1.0;
  }

  // One vertex of one round

  /** `current_projections.get(nn, uniform_pos)`. */
  function Prev(current: map<nat, Vec>, nn: nat, uniform: Vec): Vec
  {
    if nn in current then current[nn] else uniform
  }

  /** `nominator` after the neighbours `nns`: `nu * uniform` plus `(1 - dist) * prev` for each. */
  function Nominator(nu: real, uniform: Vec, current: map<nat, Vec>, nns: seq<(nat, real)>): Vec
    decreases |nns|
  {
    if nns == [] then Scaled(nu, uniform)
    else
      var n := |nns| - 1;
      VectorSum(Nominator(nu, uniform, current, nns[..n]), Scaled(1.0 - nns[n].1, Prev(current, nns[n].0, uniform)))
  }

  /** `denominator` after the neighbours `nns`: `nu` plus the weight `1 - dist` of each. */
  function Denominator(nu: real, nns: seq<(nat, real)>): real
    decreases |nns|
  {
    if nns == [] then nu else Denominator(nu, nns[..|nns| - 1]) + (1.0 - nns[|nns| - 1].1)
  }

  /** The new distribution of `v`: its initial projection when it is a seed; otherwise the
      nominator divided by the denominator, `KeyError` when `v` has no row in the graph and
      `ZeroDivisionError` when the denominator is 0. */
  function NewDist(v: nat, graph: Neighbours, initial: map<nat, Vec>, current: map<nat, Vec>, nu: real, uniform: Vec)
    : (r: Result<Vec>)
  {
    if v in initial then Ok(initial[v])
    else if v !in graph then Err(KeyError)
    else
      var den := Denominator(nu, graph[v]);
      if den == 0.0 then Err(ZeroDivisionError)
      else Ok(Scaled(1.0 / den, Nominator(nu, uniform, current, graph[v])))
  }

  lemma NominatorStep(nu: real, uniform: Vec, current: map<nat, Vec>, nns: seq<(nat, real)>, j: nat)
    requires j < |nns|
    ensures Nominator(nu, uniform, current, nns[..j + 1])
              == VectorSum(Nominator(nu, uniform, current, nns[..j]), Scaled(1.0 - nns[j].1, Prev(current, nns[j].0, uniform)))
    ensures Denominator(nu, nns[..j + 1]) == Denominator(nu, nns[..j]) + (1.0 - nns[j].1)
  {
    assert nns[..j + 1][..j] == nns[..j];
  }

  /** The loop over the neighbours `nns` of a vertex: `nominator` and `denominator`. */
  method Accumulate(nns: seq<(nat, real)>, current: map<nat, Vec>, nu: real, uniform: Vec)
    returns (nominator: Vec, denominator: real)
    ensures nominator == Nominator(nu, uniform, current, nns)
    ensures denominator == Denominator(nu, nns)
  {
    nominator := Scaled(nu, uniform);
    denominator := nu;
    for j := 0 to |nns|
      invariant nominator == Nominator(nu, uniform, current, nns[..j])
      invariant denominator == Denominator(nu, nns[..j])
    {
      NominatorStep(nu, uniform, current, nns, j);
      var weight := 1.0 - nns[j].1;
      var nnPos := Prev(current, nns[j].0, uniform);
      nominator := AddVector(nominator, Scaled(weight, nnPos));
      denominator := denominator + weight;
    }
    assert nns[..|nns|] == nns;
  }

  /** The new distribution of a vertex that is not a seed. */
  method FreeVertexDist(v: nat, graph: Neighbours, initial: map<nat, Vec>, current: map<nat, Vec>, nu: real, uniform: Vec)
    returns (r: Result<Vec>)
    requires v !in initial
    ensures r == NewDist(v, graph, initial, current, nu, uniform)
  {
    if v !in graph {
      return Err(KeyError);
    }
    var nominator, denominator := Accumulate(graph[v], current, nu, uniform);
    if denominator == 0.0 {
      return Err(ZeroDivisionError);
    }
    return Ok(Scaled(1.0 / denominator, nominator));
  }

  /** A vertex that is not a seed and has no neighbours gets exactly the uniform prior (and
      `ZeroDivisionError` when `nu` is 0). */
  lemma NoNeighboursUniform(v: nat, graph: Neighbours, initial: map<nat, Vec>, current: map<nat, Vec>, nu: real, uniform: Vec)
    requires v !in initial && v in graph && graph[v] == [] && nu != 0.0
    ensures NewDist(v, graph, initial, current, nu, uniform) == Ok(uniform)
  {
    var inner := Scaled(nu, uniform);
    assert Nominator(nu, uniform, current, graph[v]) == inner;
    assert Denominator(nu, graph[v]) == nu;
    var r := Scaled(1.0 / nu, inner);
    assert r.Keys == uniform.Keys;
    forall k | k in r
      ensures r[k] == uniform[k]
    {
      MulInverse(nu, uniform[k]);
    }
    assert r == uniform;
  }

  lemma MulSelfInverse(c: real)
    requires c != 0.0
    ensures Mul(1.0 / c, c) == 1.0
  {
  }

  lemma MulInverse(c: real, x: real)
    requires c != 0.0
    ensures Mul(1.0 / c, Mul(c, x)) == x
  {
    var d := 1.0 / c;
    assert d * c == 1.0;
    assert d * (c * x) == (d * c) * x;
  }

  /** When the prior and every previous distribution sum to 1, the nominator's weights sum
      to the denominator. */
  lemma {:induction false} NominatorTotal(nu: real, uniform: Vec, current: map<nat, Vec>, nns: seq<(nat, real)>)
    requires RealSum(uniform) == 1.0
    requires forall nn :: nn in current ==> RealSum(current[nn]) == 1.0
    ensures RealSum(Nominator(nu, uniform, current, nns)) == Denominator(nu, nns)
    decreases |nns|
  {
    if nns == [] {
      RealSumScale(uniform, nu);
      assert Mul(nu, 1.0) == nu;
    } else {
      var n := |nns| - 1;
      var pre := nns[..n];
      var w, p := 1.0 - nns[n].1, Prev(current, nns[n].0, uniform);
      var a, b := Nominator(nu, uniform, current, pre), Scaled(w, p);
      assert Nominator(nu, uniform, current, nns) == VectorSum(a, b);
      assert Denominator(nu, nns) == Denominator(nu, pre) + w;
      NominatorTotal(nu, uniform, current, pre);
      VectorSumTotal(a, b);
      assert RealSum(p) == 1.0;
      RealSumScale(p, w);
      assert Mul(w, 1.0) == w;
    }
  }

  /** Normalisation: when the prior and every previous distribution sum to 1, so does the new
      distribution of a vertex that is not a seed. */
  lemma FreeVertexTotal(v: nat, graph: Neighbours, initial: map<nat, Vec>, current: map<nat, Vec>, nu: real, uniform: Vec)
    requires v !in initial && NewDist(v, graph, initial, current, nu, uniform).Ok?
    requires RealSum(uniform) == 1.0
    requires forall nn :: nn in current ==> RealSum(current[nn]) == 1.0
    ensures RealSum(NewDist(v, graph, initial, current, nu, uniform).value) == 1.0
  {
    var den := Denominator(nu, graph[v]);
    var nom := Nominator(nu, uniform, current, graph[v]);
    assert den != 0.0 && NewDist(v, graph, initial, current, nu, uniform).value == Scaled(1.0 / den, nom);
    NominatorTotal(nu, uniform, current, graph[v]);
    RealSumScale(nom, 1.0 / den);
    MulSelfInverse(den);
  }

  /** The tags of the nominator: those of the prior and of every previous distribution read. */
  lemma {:induction false} NominatorKeys(nu: real, uniform: Vec, current: map<nat, Vec>, nns: seq<(nat, real)>, tags: set<string>)
    requires uniform.Keys == tags
    requires forall nn :: nn in current ==> current[nn].Keys <= tags
    ensures Nominator(nu, uniform, current, nns).Keys == tags
    decreases |nns|
  {
    if nns != [] {
      NominatorKeys(nu, uniform, current, nns[..|nns| - 1], tags);
    }
  }

  /** A vertex that is not a seed gets a distribution over exactly the tags of the prior, when
      the previous distributions use no other tags. */
  lemma FreeVertexKeys(v: nat, graph: Neighbours, initial: map<nat, Vec>, current: map<nat, Vec>, nu: real, uniform: Vec)
    requires v !in initial && NewDist(v, graph, initial, current, nu, uniform).Ok?
    requires forall nn :: nn in current ==> current[nn].Keys <= uniform.Keys
    ensures NewDist(v, graph, initial, current, nu, uniform).value.Keys == uniform.Keys
  {
    NominatorKeys(nu, uniform, current, graph[v], uniform.Keys);
  }

  // One round

  /** One more vertex added to the new projections of a round so far. */
  function RoundNext(acc: Result<map<nat, Vec>>, v: nat, d: Result<Vec>): Result<map<nat, Vec>>
  {
    if acc.Err? then acc else if d.Err? then Err(d.error) else Ok(acc.value[v := d.value])
  }

  /** `new_projections` after the vertices `vs`, in the order of `vertices.values()`, or the
      error of the first vertex that fails. */
  function Round(vs: seq<nat>, graph: Neighbours, initial: map<nat, Vec>, current: map<nat, Vec>, nu: real, uniform: Vec)
    : Result<map<nat, Vec>>
    decreases |vs|
  {
    if vs == [] then Ok(map[])
    else
      var n := |vs| - 1;
      RoundNext(Round(vs[..n], graph, initial, current, nu, uniform), vs[n], NewDist(vs[n], graph, initial, current, nu, uniform))
  }

  lemma RoundStep(vs: seq<nat>, graph: Neighbours, initial: map<nat, Vec>, current: map<nat, Vec>, nu: real, uniform: Vec, i: nat)
    requires i < |vs|
    ensures Round(vs[..i + 1], graph, initial, current, nu, uniform)
              == RoundNext(Round(vs[..i], graph, initial, current, nu, uniform), vs[i], NewDist(vs[i], graph, initial, current, nu, uniform))
  {
    assert vs[..i + 1][..i] == vs[..i];
  }

  lemma {:induction false} RoundErrPrefix(vs: seq<nat>, graph: Neighbours, initial: map<nat, Vec>, current: map<nat, Vec>, nu: real, uniform: Vec, i: nat)
    requires i <= |vs| && Round(vs[..i], graph, initial, current, nu, uniform).Err?
    ensures Round(vs, graph, initial, current, nu, uniform) == Round(vs[..i], graph, initial, current, nu, uniform)
    decreases |vs| - i
  {
    if i < |vs| {
      RoundStep(vs, graph, initial, current, nu, uniform, i);
      RoundErrPrefix(vs, graph, initial, current, nu, uniform, i + 1);
    } else {
      assert vs[..i] == vs;
    }
  }

  /** A round fails exactly when some vertex fails. */
  lemma {:induction false} RoundErr(vs: seq<nat>, graph: Neighbours, initial: map<nat, Vec>, current: map<nat, Vec>, nu: real, uniform: Vec)
    ensures Round(vs, graph, initial, current, nu, uniform).Err? <==>
              exists i :: 0 <= i < |vs| && NewDist(vs[i], graph, initial, current, nu, uniform).Err?
    decreases |vs|
  {
    if vs != [] {
      var n := |vs| - 1;
      var pre := vs[..n];
      RoundErr(pre, graph, initial, current, nu, uniform);
      if exists i :: 0 <= i < |vs| && NewDist(vs[i], graph, initial, current, nu, uniform).Err? {
        var i :| 0 <= i < |vs| && NewDist(vs[i], graph, initial, current, nu, uniform).Err?;
        if i < n {
          assert pre[i] == vs[i];
        }
      }
      if Round(pre, graph, initial, current, nu, uniform).Err? {
        var i :| 0 <= i < n && NewDist(pre[i], graph, initial, current, nu, uniform).Err?;
        assert pre[i] == vs[i];
      }
    }
  }

  /** A round that succeeds gives every vertex, and nothing else, its new distribution; so
      seeds keep their initial projection and every other vertex reads only the previous
      round's distributions. */
  lemma {:induction false} RoundValues(vs: seq<nat>, graph: Neighbours, initial: map<nat, Vec>, current: map<nat, Vec>, nu: real, uniform: Vec)
    requires Round(vs, graph, initial, current, nu, uniform).Ok?
    ensures forall v :: v in Round(vs, graph, initial, current, nu, uniform).value <==> v in vs
    ensures forall v :: v in Round(vs, graph, initial, current, nu, uniform).value ==>
              NewDist(v, graph, initial, current, nu, uniform).Ok?
              && Round(vs, graph, initial, current, nu, uniform).value[v] == NewDist(v, graph, initial, current, nu, uniform).value
    decreases |vs|
  {
    if vs != [] {
      var n := |vs| - 1;
      var pre := vs[..n];
      RoundValues(pre, graph, initial, current, nu, uniform);
      assert forall v :: v in vs <==> v in pre || v == vs[n];
    }
  }

  /** Seeds are fixed: after a round every seed vertex has exactly its initial projection. */
  lemma RoundSeeds(vs: seq<nat>, graph: Neighbours, initial: map<nat, Vec>, current: map<nat, Vec>, nu: real, uniform: Vec, v: nat)
    requires Round(vs, graph, initial, current, nu, uniform).Ok?
    requires v in vs && v in initial
    ensures v in Round(vs, graph, initial, current, nu, uniform).value
    ensures Round(vs, graph, initial, current, nu, uniform).value[v] == initial[v]
  {
    RoundValues(vs, graph, initial, current, nu, uniform);
  }

  /** One round: `new_projections` for every vertex. */
  method PropagateRound(vs: seq<nat>, graph: Neighbours, initial: map<nat, Vec>, current: map<nat, Vec>, nu: real, uniform: Vec)
    returns (r: Result<map<nat, Vec>>)
    ensures r == Round(vs, graph, initial, current, nu, uniform)
  {
    var newProjections: map<nat, Vec> := map[];
    for i := 0 to |vs|
      invariant Round(vs[..i], graph, initial, current, nu, uniform) == Ok(newProjections)
    {
      RoundStep(vs, graph, initial, current, nu, uniform, i);
      var v := vs[i];
      if v in initial {
        newProjections := newProjections[v := initial[v]];
        continue;
      }
      var d := FreeVertexDist(v, graph, initial, current, nu, uniform);
      if d.Err? {
        RoundErrPrefix(vs, graph, initial, current, nu, uniform, i + 1);
        return Err(d.error);
      }
      newProjections := newProjections[v := d.value];
    }
    assert vs[..|vs|] == vs;
    return Ok(newProjections);
  }

  // The rounds

  /** `current_projections` after `k` rounds, starting from the initial projections. */
  function Propagated(k: nat, vs: seq<nat>, graph: Neighbours, initial: map<nat, Vec>, nu: real, uniform: Vec)
    : Result<map<nat, Vec>>
  {
    if k == 0 then Ok(initial)
    else
      var prev := Propagated(k - 1, vs, graph, initial, nu, uniform);
      if prev.Err? then prev else Round(vs, graph, initial, prev.value, nu, uniform)
  }

  /** After any positive number of rounds every seed vertex of `vs` still has exactly its
      initial projection. */
  lemma PropagatedSeeds(k: nat, vs: seq<nat>, graph: Neighbours, initial: map<nat, Vec>, nu: real, uniform: Vec, v: nat)
    requires k >= 1 && Propagated(k, vs, graph, initial, nu, uniform).Ok?
    requires v in vs && v in initial
    ensures v in Propagated(k, vs, graph, initial, nu, uniform).value
    ensures Propagated(k, vs, graph, initial, nu, uniform).value[v] == initial[v]
  {
    var prev := Propagated(k - 1, vs, graph, initial, nu, uniform);
    RoundSeeds(vs, graph, initial, prev.value, nu, uniform, v);
  }

  /** Every distribution of `m` sums to 1. */
  ghost predicate Normalised(m: map<nat, Vec>)
  {
    forall v :: v in m ==> RealSum(m[v]) == 1.0
  }

  /** Every round keeps the distributions normalised, when the prior and the initial
      projections are. */
  lemma {:induction false} PropagatedNormalised(k: nat, vs: seq<nat>, graph: Neighbours, initial: map<nat, Vec>, nu: real, uniform: Vec)
    requires Propagated(k, vs, graph, initial, nu, uniform).Ok?
    requires RealSum(uniform) == 1.0 && Normalised(initial)
    ensures Normalised(Propagated(k, vs, graph, initial, nu, uniform).value)
  {
    if k > 0 {
      var prev := Propagated(k - 1, vs, graph, initial, nu, uniform);
      PropagatedNormalised(k - 1, vs, graph, initial, nu, uniform);
      var m := Propagated(k, vs, graph, initial, nu, uniform).value;
      RoundValues(vs, graph, initial, prev.value, nu, uniform);
      forall v | v in m
        ensures RealSum(m[v]) == 1.0
      {
        if v !in initial {
          FreeVertexTotal(v, graph, initial, prev.value, nu, uniform);
        }
      }
    }
  }

  /** The propagation loop: `num_iterations` rounds, each reading only the previous one. */
  method Propagate(numIterations: nat, vs: seq<nat>, graph: Neighbours, initial: map<nat, Vec>, nu: real, uniform: Vec)
    returns (r: Result<map<nat, Vec>>)
    ensures r == Propagated(numIterations, vs, graph, initial, nu, uniform)
  {
    var current := initial;
    for i := 0 to numIterations
      invariant Propagated(i, vs, graph, initial, nu, uniform) == Ok(current)
    {
      var newProjections := PropagateRound(vs, graph, initial, current, nu, uniform);
      if newProjections.Err? {
        PropagatedErr(i + 1, numIterations, vs, graph, initial, nu, uniform);
        return newProjections;
      }
      current := newProjections.value;
    }
    return Ok(current);
  }

  /** Once a round fails, every later count of rounds fails the same way. */
  lemma {:induction false} PropagatedErr(i: nat, k: nat, vs: seq<nat>, graph: Neighbours, initial: map<nat, Vec>, nu: real, uniform: Vec)
    requires i <= k && Propagated(i, vs, graph, initial, nu, uniform).Err?
    ensures Propagated(k, vs, graph, initial, nu, uniform) == Propagated(i, vs, graph, initial, nu, uniform)
    decreases k - i
  {
    if i < k {
      PropagatedErr(i, k - 1, vs, graph, initial, nu, uniform);
    }
  }
}
