/** Value-level facts about the neighbour graph of the NN-Descent library (src/knn.py): a graph
    is a map from each vertex to the entries of its neighbour list. */
module KnnGraphs {
  import opened SortedArrays
  import opened Sums

  type Graph = map<nat, seq<Entry<nat>>>

  /** The distance function `v.Distance(u)`; nothing is assumed about it. */
  type Dist = (nat, nat) -> real

  predicate NoDup(s: seq<nat>)
  {
    forall i, j :: 0 <= i < j < |s| ==> s[i] != s[j]
  }

  /** The key set of `g` is the set of elements of `vs`. */
  ghost predicate KeysAre(g: Graph, vs: seq<nat>)
  {
    forall x :: x in g <==> x in vs
  }

  /** `g.get(u, [])`. */
  function Row(g: Graph, u: nat): seq<Entry<nat>>
  {
    if u in g then g[u] else []
  }

  /** Every entry names another vertex of the graph, with its distance from the owner. */
  ghost predicate EntriesOk(g: Graph, dist: Dist)
  {
    forall v, e :: v in g && e in g[v] ==> e.0 in g && e.0 != v && e.1 == dist(v, e.0)
  }

  /** Every entry of the list `s` of `v` is another vertex of `keys`, at its distance. */
  ghost predicate RowOk(keys: set<nat>, dist: Dist, v: nat, s: seq<Entry<nat>>)
  {
    forall e :: e in s ==> e.0 in keys && e.0 != v && e.1 == dist(v, e.0)
  }

  /** Adding another vertex at its distance keeps the entries of a list valid. */
  lemma AddRowOk(keys: set<nat>, dist: Dist, k: nat, v: nat, s: seq<Entry<nat>>, u: nat)
    requires RowOk(keys, dist, v, s) && SortedByWeight(s) && |s| <= k && u in keys && u != v
    ensures RowOk(keys, dist, v, AddTo(s, k, u, dist(v, u)).entries)
  {
    AddKeepsOrder(s, k, u, dist(v, u));
  }

  // ---------------------------------------------------------------------------------------
  // Reverse

  /** `result[u].append(e)` on a `defaultdict(list)`. */
  function Push(r: Graph, u: nat, e: Entry<nat>): Graph
  {
    r[u := Row(r, u) + [e]]
  }

  /** The inner loop of `Reverse` over the list `row` of vertex `v`. */
  function PushAll(r: Graph, v: nat, row: seq<Entry<nat>>): Graph
    decreases |row|
  {
    if row == [] then r
    else
      var n := |row| - 1;
      Push(PushAll(r, v, row[..n]), row[n].0, (v, row[n].1))
  }

  /** `Reverse(B)` with the lists of `B` visited in the order `vs`. */
  function ReverseOf(vs: seq<nat>, g: Graph): Graph
    decreases |vs|
  {
    if vs == [] then map[]
    else
      var n := |vs| - 1;
      PushAll(ReverseOf(vs[..n], g), vs[n], Row(g, vs[n]))
  }

  /** One more vertex visited by `Reverse`. */
  lemma ReverseStep(vs: seq<nat>, i: nat, g: Graph)
    requires i < |vs|
    ensures ReverseOf(vs[..i + 1], g) == PushAll(ReverseOf(vs[..i], g), vs[i], Row(g, vs[i]))
  {
    assert vs[..i + 1][..i] == vs[..i];
  }

  lemma {:induction false} PushAllMembers(r: Graph, v: nat, row: seq<Entry<nat>>, u: nat, x: nat, w: real)
    ensures (x, w) in Row(PushAll(r, v, row), u) <==> (x, w) in Row(r, u) || (x == v && (u, w) in row)
    decreases |row|
  {
    if row != [] {
      var n := |row| - 1;
      PushAllMembers(r, v, row[..n], u, x, w);
      assert row == row[..n] + [row[n]];
    }
  }

  /** `(x, w)` is in the reverse list of `u` exactly when `(u, w)` is in the list of `x`. */
  lemma {:induction false} ReverseMembers(vs: seq<nat>, g: Graph, u: nat, x: nat, w: real)
    ensures (x, w) in Row(ReverseOf(vs, g), u) <==> x in vs && (u, w) in Row(g, x)
    decreases |vs|
  {
    if vs != [] {
      var n := |vs| - 1;
      ReverseMembers(vs[..n], g, u, x, w);
      PushAllMembers(ReverseOf(vs[..n], g), vs[n], Row(g, vs[n]), u, x, w);
      assert vs == vs[..n] + [vs[n]];
    }
  }

  /** The number of entries of all lists. */
  ghost function Size(g: Graph): nat
  {
    NatSum(Lengths(g))
  }

  function Lengths(g: Graph): (r: map<nat, nat>)
    ensures r.Keys == g.Keys
    ensures forall u :: u in g ==> r[u] == |g[u]|
  {
    map u | u in g :: |g[u]|
  }

  lemma PushSize(r: Graph, u: nat, e: Entry<nat>)
    ensures Size(Push(r, u, e)) == Size(r) + 1
  {
    var l := Lengths(r);
    assert Lengths(Push(r, u, e)) == l[u := NatGet(l, u) + 1];
    NatSumIncrement(l, u);
  }

  lemma {:induction false} PushAllSize(r: Graph, v: nat, row: seq<Entry<nat>>)
    ensures Size(PushAll(r, v, row)) == Size(r) + |row|
    decreases |row|
  {
    if row != [] {
      var n := |row| - 1;
      PushAllSize(r, v, row[..n]);
      PushSize(PushAll(r, v, row[..n]), row[n].0, (v, row[n].1));
    }
  }

  /** The number of entries of the lists of the vertices `vs`. */
  function RowsSize(vs: seq<nat>, g: Graph): nat
    decreases |vs|
  {
    if vs == [] then 0 else RowsSize(vs[..|vs| - 1], g) + |Row(g, vs[|vs| - 1])|
  }

  lemma {:induction false} ReverseSize(vs: seq<nat>, g: Graph)
    ensures Size(ReverseOf(vs, g)) == RowsSize(vs, g)
    decreases |vs|
  {
    if vs == [] {
      assert Lengths(map[]) == map[];
    } else {
      var n := |vs| - 1;
      ReverseSize(vs[..n], g);
      PushAllSize(ReverseOf(vs[..n], g), vs[n], Row(g, vs[n]));
    }
  }

  lemma {:induction false} RowsSizeFrame(vs: seq<nat>, g: Graph, h: Graph)
    requires forall x :: x in vs ==> Row(g, x) == Row(h, x)
    ensures RowsSize(vs, g) == RowsSize(vs, h)
    decreases |vs|
  {
    if vs != [] {
      var n := |vs| - 1;
      RowsSizeFrame(vs[..n], g, h);
    }
  }

  /** Dropping the last vertex of a duplicate-free list drops it from the key set. */
  lemma DropLast(vs: seq<nat>, g: Graph)
    requires NoDup(vs) && vs != [] && KeysAre(g, vs)
    ensures NoDup(vs[..|vs| - 1])
    ensures KeysAre(g - {vs[|vs| - 1]}, vs[..|vs| - 1])
    ensures forall x :: x in vs[..|vs| - 1] ==> Row(g, x) == Row(g - {vs[|vs| - 1]}, x)
  {
    var n := |vs| - 1;
    var t := vs[..n];
    assert vs == t + [vs[n]];
    forall x | x in t ensures x != vs[n] {
      var i :| 0 <= i < n && t[i] == x;
      assert vs[i] == x;
    }
  }

  lemma LengthsRemove(g: Graph, v: nat)
    ensures Lengths(g) - {v} == Lengths(g - {v})
  {
  }

  /** Visiting every vertex once counts every entry of the graph once. */
  lemma {:induction false} RowsSizeAll(vs: seq<nat>, g: Graph)
    requires NoDup(vs) && KeysAre(g, vs)
    ensures RowsSize(vs, g) == Size(g)
    decreases |vs|
  {
    if vs == [] {
      assert g == map[];
      assert Lengths(g) == map[];
    } else {
      var n := |vs| - 1;
      var v, h := vs[n], g - {vs[n]};
      DropLast(vs, g);
      RowsSizeFrame(vs[..n], g, h);
      RowsSizeAll(vs[..n], h);
      NatSumRemove(Lengths(g), v);
      LengthsRemove(g, v);
    }
  }

  /** `Reverse` neither loses nor invents entries: the reverse graph has as many as the graph. */
  lemma ReversePreservesSize(vs: seq<nat>, g: Graph)
    requires NoDup(vs) && KeysAre(g, vs)
    ensures Size(ReverseOf(vs, g)) == Size(g)
  {
    ReverseSize(vs, g);
    RowsSizeAll(vs, g);
  }

  // ---------------------------------------------------------------------------------------
  // Candidates and the fixed point of a round

  /** `itertools.chain(B[u], reverse.get(u, []))`: the forward and reverse neighbours of `u`. */
  function Cands(g: Graph, rev: Graph, u: nat): seq<Entry<nat>>
  {
    Row(g, u) + Row(rev, u)
  }

  /** Every neighbour of a neighbour of `v`, other than `v`, is one that the list of `v`
      turns away: a round started from `g` and `rev` has nothing to add to it. */
  ghost predicate Settled(g: Graph, rev: Graph, k: nat, dist: Dist, v: nat)
  {
    forall e1, e2 :: e1 in Cands(g, rev, v) && e2 in Cands(g, rev, e1.0) && e2.0 != v ==>
      Rejects(Row(g, v), k, e2.0, dist(v, e2.0))
  }

  /** The first `i` vertices of `vs` are settled. */
  ghost predicate AllSettled(g: Graph, rev: Graph, k: nat, dist: Dist, vs: seq<nat>, i: nat)
    requires i <= |vs|
  {
    forall j :: 0 <= j < i ==> Settled(g, rev, k, dist, vs[j])
  }

  lemma AllSettledStep(g: Graph, rev: Graph, k: nat, dist: Dist, vs: seq<nat>, i: nat)
    requires i < |vs| && AllSettled(g, rev, k, dist, vs, i) && Settled(g, rev, k, dist, vs[i])
    ensures AllSettled(g, rev, k, dist, vs, i + 1)
  {
  }

  /** Setting a key to the value it has changes nothing. */
  lemma UpdateSame(g: Graph, v: nat)
    requires v in g
    ensures g[v := g[v]] == g
  {
  }

  /** The state in which `Run` stops: every vertex is settled against the reverse graph. */
  ghost predicate Converged(vs: seq<nat>, g: Graph, k: nat, dist: Dist)
  {
    forall v :: v in g ==> Settled(g, ReverseOf(vs, g), k, dist, v)
  }

  /** A round in which every vertex was settled against the reverse graph of the lists has
      converged. */
  lemma ConvergedFrom(vs: seq<nat>, g: Graph, k: nat, dist: Dist)
    requires forall v :: v in g ==> v in vs
    requires AllSettled(g, ReverseOf(vs, g), k, dist, vs, |vs|)
    ensures Converged(vs, g, k, dist)
  {
    forall v | v in g ensures Settled(g, ReverseOf(vs, g), k, dist, v) {
      var j :| 0 <= j < |vs| && vs[j] == v;
    }
  }

  /** No list is longer than `k`. */
  ghost predicate Bounded(g: Graph, k: nat)
  {
    forall v :: v in g ==> |g[v]| <= k
  }

  /** A reverse graph whose entries name vertices of `g` other than the list's own vertex; it
      has entries only when `k > 0`. */
  ghost predicate RevOk(rev: Graph, keys: set<nat>, k: nat)
  {
    forall u, e :: u in rev && e in rev[u] ==> e.0 in keys && e.0 != u && k > 0
  }

  /** A forward or reverse neighbour of `u` is another vertex, and there is one only if `k > 0`. */
  lemma CandsOk(g: Graph, rev: Graph, keys: set<nat>, dist: Dist, k: nat, u: nat, e: Entry<nat>)
    requires EntriesOk(g, dist) && Bounded(g, k) && RevOk(rev, keys, k) && g.Keys == keys
    requires u in g && e in Cands(g, rev, u)
    ensures e.0 in keys && e.0 != u && k > 0
  {
    if e in g[u] {
      assert |g[u]| > 0;
    }
  }

  /** Every forward or reverse neighbour of `u` is another vertex of `keys`, and there is one
      only if `k > 0`. */
  ghost predicate CandsIn(g: Graph, rev: Graph, keys: set<nat>, k: nat, u: nat)
  {
    forall e :: e in Cands(g, rev, u) ==> e.0 in keys && e.0 != u && k > 0
  }

  lemma AllCandsIn(g: Graph, rev: Graph, keys: set<nat>, dist: Dist, k: nat)
    requires EntriesOk(g, dist) && Bounded(g, k) && RevOk(rev, keys, k) && g.Keys == keys
    ensures forall u :: u in g ==> CandsIn(g, rev, keys, k, u)
  {
    forall u, e | u in g && e in Cands(g, rev, u) ensures e.0 in keys && e.0 != u && k > 0 {
      CandsOk(g, rev, keys, dist, k, u, e);
    }
  }

  lemma ReverseOk(vs: seq<nat>, g: Graph, k: nat, dist: Dist)
    requires EntriesOk(g, dist) && Bounded(g, k)
    requires forall x :: x in vs ==> x in g
    ensures RevOk(ReverseOf(vs, g), g.Keys, k)
  {
    var rev := ReverseOf(vs, g);
    forall u: nat, e: Entry<nat> | u in rev && e in rev[u] ensures e.0 in g && e.0 != u && k > 0 {
      ReverseMembers(vs, g, u, e.0, e.1);
      assert (u, e.1) in g[e.0];
    }
  }

  // ---------------------------------------------------------------------------------------
  // Progress: why `Run` stops

  /** The number of vertices of `keys` at distance at most `w` from `v`. */
  ghost function Rank(keys: set<nat>, dist: Dist, v: nat, w: real): nat
  {
    |set u | u in keys && dist(v, u) <= w|
  }

  /** A lighter weight, below the distance of some vertex, has a smaller rank. */
  lemma RankBelow(keys: set<nat>, dist: Dist, v: nat, w: real, u0: nat)
    requires u0 in keys && w < dist(v, u0)
    ensures Rank(keys, dist, v, w) < Rank(keys, dist, v, dist(v, u0))
  {
    var a := set u | u in keys && dist(v, u) <= w;
    var b := set u | u in keys && dist(v, u) <= dist(v, u0);
    assert a <= b - {u0};
    SubsetCard(a, b - {u0});
  }

  lemma {:induction false} SubsetCard(a: set<nat>, b: set<nat>)
    requires a <= b
    ensures |a| <= |b|
    decreases |b|
  {
    if a != {} {
      var x :| x in a;
      SubsetCard(a - {x}, b - {x});
    }
  }

  ghost function RankSum(keys: set<nat>, dist: Dist, v: nat, row: seq<Entry<nat>>): nat
    decreases |row|
  {
    if row == [] then 0
    else RankSum(keys, dist, v, row[..|row| - 1]) + Rank(keys, dist, v, row[|row| - 1].1)
  }

  lemma {:induction false} RankSumAppend(keys: set<nat>, dist: Dist, v: nat, a: seq<Entry<nat>>, b: seq<Entry<nat>>)
    ensures RankSum(keys, dist, v, a + b) == RankSum(keys, dist, v, a) + RankSum(keys, dist, v, b)
    decreases |b|
  {
    if b == [] {
      assert a + b == a;
    } else {
      var n := |b| - 1;
      RankSumAppend(keys, dist, v, a, b[..n]);
      assert (a + b)[..|a + b| - 1] == a + b[..n];
    }
  }

  lemma RankSumInsert(keys: set<nat>, dist: Dist, v: nat, s: seq<Entry<nat>>, x: Entry<nat>)
    ensures RankSum(keys, dist, v, Insert(s, x)) == RankSum(keys, dist, v, s) + Rank(keys, dist, v, x.1)
  {
    var p := InsertPos(s, x.1);
    assert s == s[..p] + s[p..];
    RankSumAppend(keys, dist, v, s[..p], s[p..]);
    RankSumAppend(keys, dist, v, s[..p] + [x], s[p..]);
    RankSumAppend(keys, dist, v, s[..p], [x]);
    var one: seq<Entry<nat>> := [x];
    assert RankSum(keys, dist, v, one) == Rank(keys, dist, v, x.1) by {
      assert one[..0] == [];
    }
  }

  /** The free slots of a list of capacity `k`. */
  function Slack(k: nat, row: seq<Entry<nat>>): nat
  {
    if |row| <= k then k - |row| else 0
  }

  /** `t` is strictly better than `s`: fewer free slots, or as many and a smaller sum of ranks. */
  ghost predicate Improves(keys: set<nat>, dist: Dist, k: nat, v: nat, s: seq<Entry<nat>>, t: seq<Entry<nat>>)
  {
    || Slack(k, t) < Slack(k, s)
    || (Slack(k, t) == Slack(k, s) && RankSum(keys, dist, v, t) < RankSum(keys, dist, v, s))
  }

  /** The vertices met so far: `v` itself and the vertices offered to its list, each once, in
      the order `evaluated`. */
  ghost predicate Tracked(v: nat, seen: set<nat>, evaluated: seq<nat>)
  {
    && (forall x :: x in seen <==> x == v || x in evaluated)
    && NoDup(evaluated) && v !in evaluated
  }

  lemma TrackedStep(v: nat, seen: set<nat>, evaluated: seq<nat>, u: nat)
    requires Tracked(v, seen, evaluated) && u !in seen
    ensures Tracked(v, seen + {u}, evaluated + [u])
  {
  }

  /** Every successful `add` of a vertex at its distance improves the list. */
  lemma AddImproves(keys: set<nat>, dist: Dist, k: nat, v: nat, s: seq<Entry<nat>>, u: nat)
    requires RowOk(keys, dist, v, s) && SortedByWeight(s) && |s| <= k
    ensures AddTo(s, k, u, dist(v, u)).outcome == Added ==>
              Improves(keys, dist, k, v, s, AddTo(s, k, u, dist(v, u)).entries)
  {
    var x := (u, dist(v, u));
    if AddTo(s, k, u, x.1).outcome == Added {
      if |s| < k {
        AddWithRoom(s, k, u, x.1);
      } else {
        AddWhenFull(s, k, u, x.1);
        var t := s[..k - 1];
        assert s == t + [s[k - 1]];
        RankSumInsert(keys, dist, v, t, x);
        var last: seq<Entry<nat>> := [s[k - 1]];
        assert last[..0] == [];
        assert s[k - 1] in s;
        RankSumAppend(keys, dist, v, t, last);
        RankBelow(keys, dist, v, x.1, s[k - 1].0);
      }
    }
  }

  ghost function SlackMap(k: nat, g: Graph): (r: map<nat, nat>)
    ensures r.Keys == g.Keys
  {
    map v | v in g :: Slack(k, g[v])
  }

  ghost function RankMap(keys: set<nat>, dist: Dist, g: Graph): (r: map<nat, nat>)
    ensures r.Keys == g.Keys
  {
    map v | v in g :: RankSum(keys, dist, v, g[v])
  }

  /** The termination measure of `Run`, compared lexicographically: total free slots, then the
      total of the ranks of all entries. */
  ghost function TotalSlack(k: nat, g: Graph): nat
  {
    NatSum(SlackMap(k, g))
  }

  ghost function TotalRank(keys: set<nat>, dist: Dist, g: Graph): nat
  {
    NatSum(RankMap(keys, dist, g))
  }

  ghost predicate Decreased(keys: set<nat>, dist: Dist, k: nat, g: Graph, h: Graph)
  {
    || TotalSlack(k, h) < TotalSlack(k, g)
    || (TotalSlack(k, h) == TotalSlack(k, g) && TotalRank(keys, dist, h) < TotalRank(keys, dist, g))
  }

  lemma DecreasedTrans(keys: set<nat>, dist: Dist, k: nat, g: Graph, h: Graph, i: Graph)
    requires Decreased(keys, dist, k, g, h) && Decreased(keys, dist, k, h, i)
    ensures Decreased(keys, dist, k, g, i)
  {
  }

  /** A decrease of the measure changes the lists. */
  lemma DecreasedDiffers(keys: set<nat>, dist: Dist, k: nat, g: Graph, h: Graph)
    requires Decreased(keys, dist, k, g, h)
    ensures g != h
  {
  }

  /** Improving one list decreases the measure of the whole graph. */
  lemma ImprovesDecreases(keys: set<nat>, dist: Dist, k: nat, g: Graph, v: nat, r: seq<Entry<nat>>)
    requires v in g && Improves(keys, dist, k, v, g[v], r)
    ensures Decreased(keys, dist, k, g, g[v := r])
  {
    SlackMapUpdate(k, g, v, r);
    NatSumUpdate(SlackMap(k, g), v, Slack(k, r));
    RankMapUpdate(keys, dist, g, v, r);
    NatSumUpdate(RankMap(keys, dist, g), v, RankSum(keys, dist, v, r));
  }

  lemma SlackMapUpdate(k: nat, g: Graph, v: nat, r: seq<Entry<nat>>)
    ensures SlackMap(k, g[v := r]) == SlackMap(k, g)[v := Slack(k, r)]
  {
  }

  lemma RankMapUpdate(keys: set<nat>, dist: Dist, g: Graph, v: nat, r: seq<Entry<nat>>)
    ensures RankMap(keys, dist, g[v := r]) == RankMap(keys, dist, g)[v := RankSum(keys, dist, v, r)]
  {
  }

  // ---------------------------------------------------------------------------------------
  // The pass over one vertex, and a round

  /** The forward and reverse neighbours of each vertex of the entries `c`, chained in order:
      the `u2` the nested loops of `Run` meet for the `u1` of `c`. */
  function Hops(g: Graph, rev: Graph, c: seq<Entry<nat>>): seq<Entry<nat>>
    decreases |c|
  {
    if c == [] then []
    else
      var n := |c| - 1;
      Hops(g, rev, c[..n]) + Cands(g, rev, c[n].0)
  }

  /** The vertices of the entries `h` that are not in `seen`, each at its first occurrence, in
      order: those that `if u2 not in seen_u2` lets through while `seen_u2` grows. */
  function Fresh(h: seq<Entry<nat>>, seen: set<nat>): seq<nat>
    decreases |h|
  {
    if h == [] then []
    else
      var n := |h| - 1;
      var r := Fresh(h[..n], seen);
      if h[n].0 in seen || h[n].0 in r then r else r + [h[n].0]
  }

  /** The vertices offered to the list of `v` during its pass, in order, when the lists are `g`
      and the reverse graph is `rev`. */
  function Offered(g: Graph, rev: Graph, v: nat): seq<nat>
  {
    Fresh(Hops(g, rev, Cands(g, rev, v)), {v})
  }

  /** The list `s` of `v` after `add(u, v.Distance(u))` for each `u` of `us`, in order. */
  function AddAll(s: seq<Entry<nat>>, k: nat, v: nat, dist: Dist, us: seq<nat>): seq<Entry<nat>>
    decreases |us|
  {
    if us == [] then s
    else
      var n := |us| - 1;
      AddTo(AddAll(s, k, v, dist, us[..n]), k, us[n], dist(v, us[n])).entries
  }

  /** How many of those calls of `add` return 1. */
  function Adds(s: seq<Entry<nat>>, k: nat, v: nat, dist: Dist, us: seq<nat>): nat
    decreases |us|
  {
    if us == [] then 0
    else
      var n := |us| - 1;
      var r := AddTo(AddAll(s, k, v, dist, us[..n]), k, us[n], dist(v, us[n]));
      Adds(s, k, v, dist, us[..n]) + if r.outcome == Added then 1 else 0
  }

  /** The list of `v` after its pass. */
  function Explore(g: Graph, rev: Graph, k: nat, dist: Dist, v: nat): seq<Entry<nat>>
  {
    AddAll(Row(g, v), k, v, dist, Offered(g, rev, v))
  }

  /** The updates counted during the pass over `v`. */
  function ExploreAdds(g: Graph, rev: Graph, k: nat, dist: Dist, v: nat): nat
  {
    Adds(Row(g, v), k, v, dist, Offered(g, rev, v))
  }

  /** The lists after the passes over the vertices `vs`, in order, from the lists `g`: each
      pass sees the lists as the earlier passes left them, and the same reverse graph `rev`. */
  function RoundFrom(g: Graph, rev: Graph, k: nat, dist: Dist, vs: seq<nat>): Graph
    decreases |vs|
  {
    if vs == [] then g
    else
      var n := |vs| - 1;
      var h := RoundFrom(g, rev, k, dist, vs[..n]);
      if vs[n] in h then h[vs[n] := Explore(h, rev, k, dist, vs[n])] else h
  }

  /** The updates counted during those passes. */
  function RoundAdds(g: Graph, rev: Graph, k: nat, dist: Dist, vs: seq<nat>): nat
    decreases |vs|
  {
    if vs == [] then 0
    else
      var n := |vs| - 1;
      var h := RoundFrom(g, rev, k, dist, vs[..n]);
      RoundAdds(g, rev, k, dist, vs[..n]) + if vs[n] in h then ExploreAdds(h, rev, k, dist, vs[n]) else 0
  }

  /** Where the pass over the list `s0` of `v` stands after the entries `h`: the vertices
      offered so far are the fresh vertices of `h`, in order, and the list `s` and the count `n`
      are what offering them leaves. */
  ghost predicate Offering(s0: seq<Entry<nat>>, k: nat, dist: Dist, v: nat, h: seq<Entry<nat>>,
                           evaluated: seq<nat>, n: nat, s: seq<Entry<nat>>)
  {
    && evaluated == Fresh(h, {v})
    && s == AddAll(s0, k, v, dist, evaluated)
    && n == Adds(s0, k, v, dist, evaluated)
  }

  lemma HopsStep(g: Graph, rev: Graph, c: seq<Entry<nat>>, i: nat)
    requires i < |c|
    ensures Hops(g, rev, c[..i + 1]) == Hops(g, rev, c[..i]) + Cands(g, rev, c[i].0)
  {
    assert c[..i + 1][..i] == c[..i];
  }

  /** A sequence is its own longest prefix, and its shortest prefix is empty. */
  lemma Whole(c: seq<Entry<nat>>)
    ensures c[..|c|] == c && c[..0] == []
  {
  }

  /** The entries `h` followed by the shortest and by the longest prefix of `c`. */
  lemma Ends(h: seq<Entry<nat>>, c: seq<Entry<nat>>)
    ensures h + c[..0] == h && h + c[..|c|] == h + c
  {
    assert c[..|c|] == c;
  }

  lemma AppendNext(h: seq<Entry<nat>>, c: seq<Entry<nat>>, j: nat)
    requires j < |c|
    ensures (h + c[..j]) + [c[j]] == h + c[..j + 1]
  {
  }

  lemma FreshStep(h: seq<Entry<nat>>, seen: set<nat>, e: Entry<nat>)
    ensures var r := Fresh(h, seen);
      Fresh(h + [e], seen) == if e.0 in seen || e.0 in r then r else r + [e.0]
  {
    assert (h + [e])[..|h|] == h;
  }

  lemma AddAllStep(s: seq<Entry<nat>>, k: nat, v: nat, dist: Dist, us: seq<nat>, u: nat)
    ensures var r := AddTo(AddAll(s, k, v, dist, us), k, u, dist(v, u));
      && AddAll(s, k, v, dist, us + [u]) == r.entries
      && Adds(s, k, v, dist, us + [u]) == Adds(s, k, v, dist, us) + if r.outcome == Added then 1 else 0
  {
    assert (us + [u])[..|us|] == us;
  }

  lemma RoundFromStep(g: Graph, rev: Graph, k: nat, dist: Dist, vs: seq<nat>, i: nat)
    requires i < |vs|
    ensures var h := RoundFrom(g, rev, k, dist, vs[..i]);
      && RoundFrom(g, rev, k, dist, vs[..i + 1])
           == (if vs[i] in h then h[vs[i] := Explore(h, rev, k, dist, vs[i])] else h)
      && RoundAdds(g, rev, k, dist, vs[..i + 1])
           == RoundAdds(g, rev, k, dist, vs[..i]) + if vs[i] in h then ExploreAdds(h, rev, k, dist, vs[i]) else 0
  {
    assert vs[..i + 1][..i] == vs[..i];
  }

  /** `Fresh` lets through exactly the vertices of `h` outside `seen`, once each. */
  lemma {:induction false} FreshMembers(h: seq<Entry<nat>>, seen: set<nat>)
    ensures NoDup(Fresh(h, seen))
    ensures forall x :: x in Fresh(h, seen) ==> x !in seen && exists e :: e in h && e.0 == x
    ensures forall e :: e in h && e.0 !in seen ==> e.0 in Fresh(h, seen)
    decreases |h|
  {
    if h != [] {
      var n := |h| - 1;
      var r := Fresh(h[..n], seen);
      FreshMembers(h[..n], seen);
      assert h == h[..n] + [h[n]];
      forall x | x in Fresh(h, seen) ensures exists e :: e in h && e.0 == x {
        if x in r {
          var e :| e in h[..n] && e.0 == x;
          assert e in h;
        } else {
          assert x == h[n].0;
        }
      }
      if !(h[n].0 in seen || h[n].0 in r) {
        forall i, j | 0 <= i < j < |r| + 1 ensures (r + [h[n].0])[i] != (r + [h[n].0])[j] {
          if j == |r| {
            assert r[i] in r;
          }
        }
      }
    }
  }

  /** The chained neighbours hold exactly the neighbours of the vertices of `c`. */
  lemma {:induction false} HopsMembers(g: Graph, rev: Graph, c: seq<Entry<nat>>)
    ensures forall e1, e2 :: e1 in c && e2 in Cands(g, rev, e1.0) ==> e2 in Hops(g, rev, c)
    ensures forall e2 :: e2 in Hops(g, rev, c) ==> exists e1 :: e1 in c && e2 in Cands(g, rev, e1.0)
    decreases |c|
  {
    if c != [] {
      var n := |c| - 1;
      HopsMembers(g, rev, c[..n]);
      assert c == c[..n] + [c[n]];
      forall e2 | e2 in Hops(g, rev, c) ensures exists e1 :: e1 in c && e2 in Cands(g, rev, e1.0) {
        if e2 in Hops(g, rev, c[..n]) {
          var e1 :| e1 in c[..n] && e2 in Cands(g, rev, e1.0);
          assert e1 in c;
        } else {
          assert c[n] in c;
        }
      }
    }
  }

  /** The pass over `v` offers each neighbour of a neighbour of `v`, other than `v`, exactly
      once, and nothing else. */
  lemma OfferedMembers(g: Graph, rev: Graph, v: nat)
    ensures NoDup(Offered(g, rev, v)) && v !in Offered(g, rev, v)
    ensures forall e1, e2 :: e1 in Cands(g, rev, v) && e2 in Cands(g, rev, e1.0) && e2.0 != v ==>
              e2.0 in Offered(g, rev, v)
    ensures forall x :: x in Offered(g, rev, v) ==>
              exists e1, e2 :: e1 in Cands(g, rev, v) && e2 in Cands(g, rev, e1.0) && e2.0 == x
  {
    var c := Cands(g, rev, v);
    var h := Hops(g, rev, c);
    FreshMembers(h, {v});
    HopsMembers(g, rev, c);
    forall x | x in Offered(g, rev, v)
      ensures exists e1, e2 :: e1 in c && e2 in Cands(g, rev, e1.0) && e2.0 == x
    {
      var e2 :| e2 in h && e2.0 == x;
      var e1 :| e1 in c && e2 in Cands(g, rev, e1.0);
    }
  }

  /** Offering other vertices of `keys` one by one keeps the list valid. When no call returns
      1 the list is unchanged and turned every one of them away; otherwise it has improved. */
  lemma {:induction false} AddAllFacts(keys: set<nat>, dist: Dist, k: nat, v: nat, s: seq<Entry<nat>>, us: seq<nat>)
    requires RowOk(keys, dist, v, s) && SortedByWeight(s) && |s| <= k
    requires forall x :: x in us ==> x in keys && x != v
    requires k > 0 || us == []
    ensures var t := AddAll(s, k, v, dist, us); RowOk(keys, dist, v, t) && SortedByWeight(t) && |t| <= k
    ensures Adds(s, k, v, dist, us) == 0 ==>
              AddAll(s, k, v, dist, us) == s && forall x :: x in us ==> Rejects(s, k, x, dist(v, x))
    ensures Adds(s, k, v, dist, us) > 0 ==> Improves(keys, dist, k, v, s, AddAll(s, k, v, dist, us))
    decreases |us|
  {
    if us != [] {
      var n := |us| - 1;
      var p, u := us[..n], us[n];
      assert us == p + [u];
      assert forall x :: x in p ==> x in us;
      AddAllFacts(keys, dist, k, v, s, p);
      var t := AddAll(s, k, v, dist, p);
      AddOutcomes(t, k, u, dist(v, u));
      AddImproves(keys, dist, k, v, t, u);
      AddRowOk(keys, dist, k, v, t, u);
    }
  }

  /** The pass over `v` keeps its list valid. With no update the list is unchanged and `v` is
      settled; with updates the list has improved. */
  lemma ExploreFacts(g: Graph, rev: Graph, k: nat, dist: Dist, v: nat)
    requires EntriesOk(g, dist) && Bounded(g, k) && RevOk(rev, g.Keys, k)
    requires v in g && SortedByWeight(g[v])
    ensures var t := Explore(g, rev, k, dist, v); RowOk(g.Keys, dist, v, t) && SortedByWeight(t) && |t| <= k
    ensures ExploreAdds(g, rev, k, dist, v) == 0 ==>
              Explore(g, rev, k, dist, v) == g[v] && Settled(g, rev, k, dist, v)
    ensures ExploreAdds(g, rev, k, dist, v) > 0 ==> Improves(g.Keys, dist, k, v, g[v], Explore(g, rev, k, dist, v))
  {
    var us := Offered(g, rev, v);
    OfferedMembers(g, rev, v);
    forall x | x in us ensures x in g.Keys && x != v && k > 0 {
      var e1, e2 :| e1 in Cands(g, rev, v) && e2 in Cands(g, rev, e1.0) && e2.0 == x;
      CandsOk(g, rev, g.Keys, dist, k, v, e1);
      CandsOk(g, rev, g.Keys, dist, k, e1.0, e2);
    }
    if us != [] {
      assert us[0] in us;
    }
    AddAllFacts(g.Keys, dist, k, v, g[v], us);
  }

  // ---------------------------------------------------------------------------------------
  // Seeding

  /** The pairs `RandomSample` adds for `v` from its sample `us`: every sampled vertex other
      than `v`, at its distance from `v`, in sample order. */
  function Seeds(v: nat, us: seq<nat>, dist: Dist): (r: seq<Entry<nat>>)
    ensures |r| <= |us|
    decreases |us|
  {
    if us == [] then []
    else
      var n := |us| - 1;
      Seeds(v, us[..n], dist) + if us[n] != v then [(us[n], dist(v, us[n]))] else []
  }

  lemma {:induction false} SeedsMembers(v: nat, us: seq<nat>, dist: Dist, e: Entry<nat>)
    ensures e in Seeds(v, us, dist) <==> e.0 in us && e.0 != v && e.1 == dist(v, e.0)
    decreases |us|
  {
    if us != [] {
      var n := |us| - 1;
      SeedsMembers(v, us[..n], dist, e);
      assert us == us[..n] + [us[n]];
    }
  }

  /** One step of the seeding loop: the next sampled vertex, if it is not `v`, is added to a
      list with room and without that pair, so it goes in at its place by weight. */
  lemma SeedStep(v: nat, us: seq<nat>, j: nat, dist: Dist, k: nat)
    requires NoDup(us) && j < |us| <= k
    ensures us[j] == v ==> Seeds(v, us[..j + 1], dist) == Seeds(v, us[..j], dist)
    ensures us[j] != v ==>
              var s := SortByWeight(Seeds(v, us[..j], dist));
              && AddTo(s, k, us[j], dist(v, us[j])).outcome == Added
              && AddTo(s, k, us[j], dist(v, us[j])).entries == SortByWeight(Seeds(v, us[..j + 1], dist))
  {
    var q, u := Seeds(v, us[..j], dist), us[j];
    assert us[..j + 1][..j] == us[..j];
    if u != v {
      var x := (u, dist(v, u));
      var s := SortByWeight(q);
      assert Seeds(v, us[..j + 1], dist) == q + [x];
      assert (q + [x])[..|q|] == q;
      SortPermutes(q);
      NotInPrefix(us, j);
      SeedsMembers(v, us[..j], dist, x);
      assert x !in multiset(q);
      assert x !in s by {
        assert multiset(s) == multiset(q);
      }
      AddWithRoom(s, k, u, x.1);
      SortAfterAppend(s, x);
    }
  }

  /** The elements of a prefix one longer. */
  lemma PrefixGrows(us: seq<nat>, j: nat)
    requires j < |us|
    ensures forall x :: x in us[..j + 1] <==> x in us[..j] || x == us[j]
  {
    assert us[..j + 1] == us[..j] + [us[j]];
  }

  lemma NotInPrefix(us: seq<nat>, j: nat)
    requires NoDup(us) && j < |us|
    ensures us[j] !in us[..j]
  {
    forall i | 0 <= i < j ensures us[..j][i] != us[j] {
      assert us[..j][i] == us[i];
    }
  }

  /** The seeded lists meet the entry conditions. */
  lemma SeedsOk(vs: seq<nat>, sample: map<nat, seq<nat>>, dist: Dist, g: Graph)
    requires KeysAre(g, vs)
    requires forall v :: v in vs ==> v in sample && forall u :: u in sample[v] ==> u in vs
    requires forall v :: v in g ==> g[v] == SortByWeight(Seeds(v, sample[v], dist))
    ensures EntriesOk(g, dist)
  {
    forall v, e | v in g && e in g[v] ensures e.0 in g && e.0 != v && e.1 == dist(v, e.0) {
      SortPermutes(Seeds(v, sample[v], dist));
      assert e in multiset(Seeds(v, sample[v], dist));
      SeedsMembers(v, sample[v], dist, e);
    }
  }
}
