/** The NN-Descent graph builder (`KNN` in src/knn.py, after Dong, Charikar and Li, "Efficient
    k-nearest neighbor graph construction for generic similarity measures", WWW 2011).
    Vertices are distinct natural numbers; `dist` stands for `v.Distance(u)`. */
module Knn {
  import opened SortedArrays
  import opened KnnGraphs

  /** What `random.sample(self.vertices, self.k)` may return for every vertex: `k` distinct
      vertices, possibly including the vertex itself. */
  ghost predicate SampleOk(vertices: seq<nat>, k: nat, sample: map<nat, seq<nat>>)
  {
    forall v :: v in vertices ==>
      && v in sample && |sample[v]| == k && NoDup(sample[v])
      && forall u :: u in sample[v] ==> u in vertices
  }

  class KNN {
    const vertices: seq<nat>
    const k: nat
    const dist: Dist
    var Bmatrix: map<nat, SortedArray<nat>>

    /** The contents of every neighbour list. */
    ghost function Lists(): Graph
      reads this, Bmatrix.Values
    {
      map v | v in Bmatrix :: Bmatrix[v].entries
    }

    /** One list per vertex, each list its own object. */
    ghost predicate Shape()
      reads this
    {
      && NoDup(vertices)
      && (forall x :: x in Bmatrix <==> x in vertices)
      && (forall v, u :: v in Bmatrix && u in Bmatrix && v != u ==> Bmatrix[v] != Bmatrix[u])
    }

    /** Holds after construction and throughout `Run`: one list per vertex, each a valid sorted
        list of capacity `k` whose entries are other vertices at their distances. */
    ghost predicate Valid()
      reads this, Bmatrix.Values
    {
      && Shape()
      && forall v :: v in Bmatrix ==>
           && Bmatrix[v].Valid() && Bmatrix[v].k == k
           && RowOk(Bmatrix.Keys, dist, v, Bmatrix[v].entries)
    }

    /** The lists of a valid matrix, as a graph. */
    lemma ValidGraph()
      requires Valid()
      ensures EntriesOk(Lists(), dist) && Bounded(Lists(), k) && Lists().Keys == Bmatrix.Keys
      ensures forall x :: x in vertices ==> x in Lists()
    {
    }

    /** The lists of a valid matrix are those of its vertices. */
    lemma ValidKeys()
      requires Valid()
      ensures Lists().Keys == Bmatrix.Keys
    {
    }

    /** The reverse graph of valid lists names only vertices, each in the list of another. */
    lemma ValidReverse()
      requires Valid()
      ensures RevOk(ReverseOf(vertices, Lists()), Bmatrix.Keys, k)
    {
      ValidGraph();
      ReverseOk(vertices, Lists(), k, dist);
    }

    /** `__init__`, with the draws of `random.sample` given as `sample`. */
    constructor (vertices: seq<nat>, k: nat, dist: Dist, sample: map<nat, seq<nat>>)
      requires NoDup(vertices) && SampleOk(vertices, k, sample)
      ensures Valid()
      ensures this.vertices == vertices && this.k == k && this.dist == dist
      ensures fresh(Bmatrix.Values)
      ensures forall v :: v in vertices ==> Lists()[v] == SortByWeight(Seeds(v, sample[v], dist))
    {
      this.vertices := vertices;
      this.k := k;
      this.dist := dist;
      new;
      Bmatrix := RandomSample(sample);
      SeededValid(sample);
    }

    /** The lists `RandomSample` builds make a valid matrix. */
    lemma SeededValid(sample: map<nat, seq<nat>>)
      requires NoDup(vertices) && SampleOk(vertices, k, sample)
      requires forall x :: x in Bmatrix <==> x in vertices
      requires forall v, u :: v in Bmatrix && u in Bmatrix && v != u ==> Bmatrix[v] != Bmatrix[u]
      requires forall v :: v in Bmatrix ==>
                 && Bmatrix[v].Valid() && Bmatrix[v].k == k
                 && Bmatrix[v].entries == SortByWeight(Seeds(v, sample[v], dist))
      ensures Valid()
      ensures forall v :: v in vertices ==> Lists()[v] == SortByWeight(Seeds(v, sample[v], dist))
    {
      SeedsOk(vertices, sample, dist, Lists());
      forall v | v in Bmatrix ensures RowOk(Bmatrix.Keys, dist, v, Bmatrix[v].entries) {
        assert Lists()[v] == Bmatrix[v].entries;
      }
    }

    /** `RandomSample`: a fresh list per vertex, holding the sampled vertices other than the
        vertex itself, added one by one. */
    method RandomSample(sample: map<nat, seq<nat>>) returns (result: map<nat, SortedArray<nat>>)
      requires NoDup(vertices) && SampleOk(vertices, k, sample)
      ensures forall x :: x in result <==> x in vertices
      ensures forall v :: v in result ==> fresh(result[v])
      ensures forall v, u :: v in result && u in result && v != u ==> result[v] != result[u]
      ensures forall v :: v in result ==>
                && result[v].Valid() && result[v].k == k
                && result[v].entries == SortByWeight(Seeds(v, sample[v], dist))
    {
      result := map[];
      for i := 0 to |vertices|
        invariant forall x :: x in result <==> x in vertices[..i]
        invariant forall v :: v in result ==> fresh(result[v])
        invariant forall v, u :: v in result && u in result && v != u ==> result[v] != result[u]
        invariant forall v :: v in result ==>
                    && result[v].Valid() && result[v].k == k
                    && result[v].entries == SortByWeight(Seeds(v, sample[v], dist))
      {
        var v := vertices[i];
        var list := SampledList(v, sample[v]);
        NotInPrefix(vertices, i);
        PrefixGrows(vertices, i);
        result := result[v := list];
      }
      assert vertices[..|vertices|] == vertices;
    }

    /** The inner loop of `RandomSample`: a new list of capacity `k` to which every sampled
        vertex other than `v` is added. */
    method SampledList(v: nat, us: seq<nat>) returns (list: SortedArray<nat>)
      requires NoDup(us) && |us| <= k
      ensures fresh(list) && list.Valid() && list.k == k
      ensures list.entries == SortByWeight(Seeds(v, us, dist))
    {
      list := new SortedArray(k);
      for j := 0 to |us|
        modifies list
        invariant list.Valid() && list.k == k
        invariant list.entries == SortByWeight(Seeds(v, us[..j], dist))
      {
        var u := us[j];
        SeedStep(v, us, j, dist, k);
        if u != v {
          var _ := list.Add(u, dist(v, u));
        }
      }
      assert us[..|us|] == us;
    }

    /** `Reverse(self.Bmatrix)`: the lists are visited in the order of `vertices`, the order in
        which `RandomSample` inserted them. */
    method Reverse() returns (result: Graph)
      requires Shape() && forall v :: v in Bmatrix ==> Bmatrix[v].Valid()
      ensures result == ReverseOf(vertices, Lists()) && Lists() == old(Lists())
    {
      result := map[];
      for i := 0 to |vertices|
        invariant result == ReverseOf(vertices[..i], Lists())
      {
        result := ReverseVertex(result, i);
      }
      assert vertices[..|vertices|] == vertices;
    }

    /** The body of the loop of `Reverse` for the `i`-th vertex. */
    method ReverseVertex(r0: Graph, i: nat) returns (result: Graph)
      requires (forall x :: x in vertices ==> x in Bmatrix) && forall v :: v in Bmatrix ==> Bmatrix[v].Valid()
      requires i < |vertices| && r0 == ReverseOf(vertices[..i], Lists())
      ensures result == ReverseOf(vertices[..i + 1], Lists())
    {
      var v := vertices[i];
      ghost var g := Lists();
      ReverseStep(vertices, i, g);
      assert v in Bmatrix;
      var row := Bmatrix[v].Items();
      assert row == Row(g, v);
      result := AppendReversed(r0, v, row);
    }

    /** The inner loop of `Reverse`: `result[u].append((v, weight))` for every entry of `row`,
        the list of `v`. */
    static method AppendReversed(r0: Graph, v: nat, row: seq<Entry<nat>>) returns (result: Graph)
      ensures result == PushAll(r0, v, row)
    {
      result := r0;
      for j := 0 to |row|
        invariant result == PushAll(r0, v, row[..j])
      {
        var (u, weight) := row[j];
        assert row[..j + 1][..j] == row[..j];
        result := result[u := Row(result, u) + [(v, weight)]];
      }
      assert row[..|row|] == row;
    }

    /** `Run`: rounds until a round makes no update; the lists then satisfy `Converged`. Each
        round explores against the reverse graph of the lists at its start. The ghost `trace`
        holds the lists at the start of each round (so `|trace|` is `iter_num` at the `break`):
        the final lists are the first of the passes from the lists given whose round counts
        no update, and `RanUnique` shows that they are determined by those lists. The loop has
        no bound in the source; it ends because every round with an update decreases
        `TotalSlack`, or keeps it and decreases `TotalRank`. */
    method Run() returns (result: map<nat, SortedArray<nat>>, ghost trace: seq<Graph>)
      requires Valid()
      modifies Bmatrix.Values
      ensures Valid() && result == Bmatrix
      ensures Converged(vertices, Lists(), k, dist)
      ensures Ran(old(Lists()), trace, Lists()) && NextAdds(Lists()) == 0
    {
      ghost var g0 := Lists();
      ghost var g := g0;
      trace := [g];
      while true
        invariant Valid() && g == Lists() && Ran(g0, trace, g)
        decreases TotalSlack(k, g), TotalRank(g.Keys, dist, g)
      {
        var n;
        n, trace := RunPass(g0, g, trace);
        if n == 0 {
          result := Bmatrix;
          return;
        }
        g := Lists();
      }
    }

    /** One pass of the loop of `Run`: a round, with `trace` extended by the lists it leaves
        when it counts an update. */
    method RunPass(ghost g0: Graph, ghost g: Graph, ghost trace: seq<Graph>) returns (n: nat, ghost t: seq<Graph>)
      requires Valid() && g == Lists() && Ran(g0, trace, g)
      modifies Bmatrix.Values
      ensures Valid() && Ran(g0, t, Lists())
      ensures n == 0 ==> NextAdds(Lists()) == 0 && Converged(vertices, Lists(), k, dist)
      ensures n > 0 ==> Decreased(g.Keys, dist, k, g, Lists())
    {
      ValidKeys();
      n := RunRound();
      ghost var h := Lists();
      t := Extend(g0, trace, g, h, n);
    }

    /** The lists after one pass of the `while` loop of `Run` from the lists `g`: a round
        against the reverse graph of `g`. */
    ghost function NextLists(g: Graph): Graph
    {
      RoundFrom(g, ReverseOf(vertices, g), k, dist, vertices)
    }

    /** The updates that round counts. */
    ghost function NextAdds(g: Graph): nat
    {
      RoundAdds(g, ReverseOf(vertices, g), k, dist, vertices)
    }

    /** Each lists of `trace` after the first are what a pass of the `while` loop made of the
        lists before them, and each of those passes counted an update and changed the lists. */
    ghost predicate Passes(trace: seq<Graph>)
      decreases |trace|
    {
      |trace| > 1 ==>
        var n := |trace| - 1;
        && Passes(trace[..n])
        && trace[n] == NextLists(trace[n - 1]) && NextAdds(trace[n - 1]) > 0
        && trace[n] != trace[n - 1]
    }

    /** `trace` runs from `g0` to `g` by passes of the loop of `Run` that each counted an
        update. */
    ghost predicate Ran(g0: Graph, trace: seq<Graph>, g: Graph)
    {
      trace != [] && trace[0] == g0 && Passes(trace) && trace[|trace| - 1] == g
    }

    /** The passes `trace` from `g0` to `g`, followed by a round from `g` to `h` that counted
        `n` updates: extended by `h` when `n > 0`, ended when `n == 0`. */
    lemma Extend(g0: Graph, trace: seq<Graph>, g: Graph, h: Graph, n: nat) returns (t: seq<Graph>)
      requires Ran(g0, trace, g)
      requires h == NextLists(g) && n == NextAdds(g) && (n == 0 ==> h == g)
      requires n > 0 ==> Decreased(g.Keys, dist, k, g, h)
      ensures Ran(g0, t, h)
      ensures n == 0 ==> t == trace && NextAdds(h) == 0
      ensures n > 0 ==> t == trace + [h]
    {
      if n == 0 {
        t := trace;
      } else {
        DecreasedDiffers(g.Keys, dist, k, g, h);
        t := trace + [h];
        assert t[..|trace|] == trace;
      }
    }

    /** A step of `Passes` at any position of the trace. */
    lemma {:induction false} PassAt(trace: seq<Graph>, i: nat)
      requires Passes(trace) && 0 < i < |trace|
      ensures trace[i] == NextLists(trace[i - 1]) && NextAdds(trace[i - 1]) > 0
      decreases |trace|
    {
      var n := |trace| - 1;
      if i < n {
        PassAt(trace[..n], i);
      }
    }

    /** Two traces of passes from the same lists agree as far as both go. */
    lemma {:induction false} SameStart(a: seq<Graph>, b: seq<Graph>, i: nat)
      requires a != [] && b != [] && a[0] == b[0] && Passes(a) && Passes(b)
      requires i < |a| && i < |b|
      ensures a[i] == b[i]
    {
      if i > 0 {
        SameStart(a, b, i - 1);
        PassAt(a, i);
        PassAt(b, i);
      }
    }

    /** The lists `Run` ends with are determined by the lists it starts from: the first lists
        of the passes from `g0` whose round counts no update. */
    lemma RanUnique(g0: Graph, a: seq<Graph>, g: Graph, b: seq<Graph>, h: Graph)
      requires Ran(g0, a, g) && NextAdds(g) == 0
      requires Ran(g0, b, h) && NextAdds(h) == 0
      ensures a == b && g == h
    {
      if |a| < |b| {
        SameStart(a, b, |a| - 1);
        PassAt(b, |a|);
        assert false;
      } else if |b| < |a| {
        SameStart(a, b, |b| - 1);
        PassAt(a, |b|);
        assert false;
      } else {
        forall i | 0 <= i < |a|
          ensures a[i] == b[i]
        {
          SameStart(a, b, i);
        }
      }
    }

    /** The body of the loop of `Run`: the reverse graph of the lists, then a round against it.
        The lists end as `NextLists` gives them and `n` is `NextAdds`. A round without updates
        leaves the lists converged; one with updates decreases the measure. */
    method RunRound() returns (n: nat)
      requires Valid()
      modifies Bmatrix.Values
      ensures Valid()
      ensures Lists() == NextLists(old(Lists())) && n == NextAdds(old(Lists()))
      ensures n == 0 ==> Lists() == old(Lists()) && Converged(vertices, Lists(), k, dist)
      ensures n > 0 ==> Decreased(Bmatrix.Keys, dist, k, old(Lists()), Lists())
    {
      ghost var g := Lists();
      ValidGraph();
      ValidReverse();
      var reverse := Reverse();
      assert g == Lists();
      n := RefineRound(reverse);
      if n == 0 {
        ConvergedFrom(vertices, g, k, dist);
      }
    }

    /** One round of `Run`, the loop `for v in self.vertices`, counting the successful adds in
        `n`. The lists end as `RoundFrom` gives them: a vertex explored later in the round sees
        the lists as updated by the earlier ones, while `reverse` stays as it was at the start
        of the round. A round without updates changes nothing and finds every vertex settled;
        a round with updates decreases the measure. */
    method RefineRound(reverse: Graph) returns (n: nat)
      requires Valid() && RevOk(reverse, Bmatrix.Keys, k)
      modifies Bmatrix.Values
      ensures Valid()
      ensures Lists() == RoundFrom(old(Lists()), reverse, k, dist, vertices)
      ensures n == RoundAdds(old(Lists()), reverse, k, dist, vertices)
      ensures RoundSoFar(old(Lists()), reverse, |vertices|, n, Lists())
    {
      ghost var g0 := Lists();
      n := 0;
      for i := 0 to |vertices|
        invariant Valid() && RoundSoFar(g0, reverse, i, n, Lists())
      {
        n := RoundStep(reverse, g0, i, n);
      }
      RoundAll(g0, reverse, n, Lists());
    }

    /** The account of a whole round is that of `RoundFrom` and `RoundAdds` over `vertices`. */
    lemma RoundAll(g0: Graph, reverse: Graph, n: nat, g: Graph)
      requires RoundSoFar(g0, reverse, |vertices|, n, g)
      ensures g == RoundFrom(g0, reverse, k, dist, vertices)
      ensures n == RoundAdds(g0, reverse, k, dist, vertices)
    {
      assert vertices[..|vertices|] == vertices;
    }

    /** What the first `i` vertices of a round, from the lists `g0`, leave: the lists `g` and
        the count `n` of `RoundFrom` and `RoundAdds`. With no update the lists are unchanged and
        those vertices settled; with updates the lists have decreased. */
    ghost predicate RoundSoFar(g0: Graph, reverse: Graph, i: nat, n: nat, g: Graph)
      requires i <= |vertices|
    {
      && g == RoundFrom(g0, reverse, k, dist, vertices[..i])
      && n == RoundAdds(g0, reverse, k, dist, vertices[..i])
      && (n == 0 ==> g == g0 && AllSettled(g0, reverse, k, dist, vertices, i))
      && (n > 0 ==> Decreased(g0.Keys, dist, k, g0, g))
    }

    /** One pass of the loop of `RefineRound`: explores `vertices[i]` and adds its updates. */
    method RoundStep(reverse: Graph, ghost g0: Graph, i: nat, n: nat) returns (n': nat)
      requires Valid() && RevOk(reverse, Bmatrix.Keys, k) && g0.Keys == Bmatrix.Keys
      requires i < |vertices| && RoundSoFar(g0, reverse, i, n, Lists())
      modifies Bmatrix.Values
      ensures Valid() && RoundSoFar(g0, reverse, i + 1, n', Lists())
    {
      var v := vertices[i];
      ghost var g1 := Lists();
      ValidGraph();
      var updates := ExploreVertex(v, reverse);
      RoundSoFarStep(g0, reverse, i, n, g1, updates, Bmatrix[v].entries);
      n' := n + updates;
    }

    /** The account of a round after one more pass, over `vertices[i]`, which left its list as
        `t` and counted `updates`. */
    lemma RoundSoFarStep(g0: Graph, reverse: Graph, i: nat, n: nat, g1: Graph, updates: nat, t: seq<Entry<nat>>)
      requires i < |vertices| && RoundSoFar(g0, reverse, i, n, g1)
      requires vertices[i] in g1 && g0.Keys == g1.Keys
      requires t == Explore(g1, reverse, k, dist, vertices[i])
      requires updates == ExploreAdds(g1, reverse, k, dist, vertices[i])
      requires EntriesOk(g1, dist) && Bounded(g1, k) && RevOk(reverse, g1.Keys, k) && SortedByWeight(g1[vertices[i]])
      ensures RoundSoFar(g0, reverse, i + 1, n + updates, g1[vertices[i] := t])
    {
      var v := vertices[i];
      ExploreFacts(g1, reverse, k, dist, v);
      RoundFromStep(g0, reverse, k, dist, vertices, i);
      if updates > 0 {
        ImprovesDecreases(g0.Keys, dist, k, g1, v, t);
        if n > 0 {
          DecreasedTrans(g0.Keys, dist, k, g0, g1, g1[v := t]);
        }
      } else {
        UpdateSame(g1, v);
        if n == 0 {
          AllSettledStep(g0, reverse, k, dist, vertices, i);
        }
      }
    }

    /** The body of the loop over `self.vertices` in `Run` for one vertex `v`: every neighbour
        `u2` of a forward or reverse neighbour `u1` of `v` is offered to the list of `v` once.
        Only that list changes; it ends as `Explore` gives it, and `n` counts its successful
        adds. */
    method ExploreVertex(v: nat, reverse: Graph) returns (n: nat)
      requires Valid() && v in Bmatrix && RevOk(reverse, Bmatrix.Keys, k)
      modifies Bmatrix[v]
      ensures Valid() && Lists() == old(Lists())[v := Bmatrix[v].entries]
      ensures Bmatrix[v].entries == Explore(old(Lists()), reverse, k, dist, v)
      ensures n == ExploreAdds(old(Lists()), reverse, k, dist, v)
    {
      ghost var g0 := Lists();
      ValidGraph();
      AllCandsIn(g0, reverse, Bmatrix.Keys, dist, k);
      var c1 := Bmatrix[v].Items() + Row(reverse, v);
      assert c1 == Cands(g0, reverse, v);
      var seen := {v};
      ghost var evaluated := [];
      n := 0;
      Whole(c1);
      for i := 0 to |c1|
        invariant RowValid(v) && Tracked(v, seen, evaluated)
        invariant Offering(g0[v], k, dist, v, Hops(g0, reverse, c1[..i]), evaluated, n, Bmatrix[v].entries)
      {
        assert c1[i] in c1;
        var u1 := c1[i].0;
        assert Bmatrix[u1] != Bmatrix[v];
        HopsStep(g0, reverse, c1, i);
        seen, evaluated, n := ExploreNeighbour(v, u1, reverse, g0, Hops(g0, reverse, c1[..i]), seen, evaluated, n);
      }
      RowUpdated(v);
    }

    /** The loop over the forward and reverse neighbours `u2` of one neighbour `u1` of `v`: each
        one not seen yet is offered and marked seen. The list of `u1` is as it was in `g0`, at
        the start of the pass over `v`; `h` holds the entries met before `u1` in that pass. */
    method ExploreNeighbour(v: nat, u1: nat, reverse: Graph, ghost g0: Graph, ghost h: seq<Entry<nat>>,
                            seen: set<nat>, ghost evaluated: seq<nat>, n: nat)
      returns (seen': set<nat>, ghost evaluated': seq<nat>, n': nat)
      requires RowValid(v) && u1 in Bmatrix && Bmatrix[u1].Valid()
      requires v in g0 && u1 in g0 && g0[u1] == Bmatrix[u1].entries
      requires CandsIn(g0, reverse, Bmatrix.Keys, k, u1)
      requires Tracked(v, seen, evaluated)
      requires Offering(g0[v], k, dist, v, h, evaluated, n, Bmatrix[v].entries)
      modifies Bmatrix[v]
      ensures RowValid(v) && Tracked(v, seen', evaluated')
      ensures Offering(g0[v], k, dist, v, h + Cands(g0, reverse, u1), evaluated', n', Bmatrix[v].entries)
    {
      var c2 := Bmatrix[u1].Items() + Row(reverse, u1);
      assert c2 == Cands(g0, reverse, u1);
      seen', evaluated', n' := seen, evaluated, n;
      ghost var met := h;
      Ends(h, c2);
      for j := 0 to |c2|
        invariant RowValid(v) && Tracked(v, seen', evaluated') && met == h + c2[..j]
        invariant Offering(g0[v], k, dist, v, met, evaluated', n', Bmatrix[v].entries)
      {
        assert c2[j] in c2;
        seen', evaluated', n' := Visit(v, c2[j], g0[v], met, seen', evaluated', n');
        AppendNext(h, c2, j);
        met := met + [c2[j]];
      }
    }

    /** One pass of the loop over the `u2`: the entry `e` comes after the entries `h`, and its
        vertex is offered unless it has been seen. */
    method Visit(v: nat, e: Entry<nat>, ghost s0: seq<Entry<nat>>, ghost h: seq<Entry<nat>>,
                 seen: set<nat>, ghost evaluated: seq<nat>, n: nat)
      returns (seen': set<nat>, ghost evaluated': seq<nat>, n': nat)
      requires RowValid(v) && e.0 in Bmatrix && k > 0 && Tracked(v, seen, evaluated)
      requires Offering(s0, k, dist, v, h, evaluated, n, Bmatrix[v].entries)
      modifies Bmatrix[v]
      ensures RowValid(v) && Tracked(v, seen', evaluated')
      ensures Offering(s0, k, dist, v, h + [e], evaluated', n', Bmatrix[v].entries)
    {
      FreshStep(h, {v}, e);
      if e.0 !in seen {
        AddAllStep(s0, k, v, dist, evaluated, e.0);
        seen', evaluated', n' := Offer(v, e.0, seen, evaluated, n);
      } else {
        seen', evaluated', n' := seen, evaluated, n;
      }
    }

    /** The body of `if u2 not in seen_u2`: `self.Bmatrix[v].add(u, v.Distance(u))`, whose 1 or 0
        is added to the count `n`, and `u` marked as seen. The error of `add` cannot happen here,
        since `k > 0`. */
    method Offer(v: nat, u: nat, seen: set<nat>, ghost evaluated: seq<nat>, n: nat)
      returns (seen': set<nat>, ghost evaluated': seq<nat>, n': nat)
      requires RowValid(v) && Tracked(v, seen, evaluated)
      requires u in Bmatrix && u !in seen && k > 0
      modifies Bmatrix[v]
      ensures RowValid(v)
      ensures Bmatrix[v].entries == AddTo(old(Bmatrix[v].entries), k, u, dist(v, u)).entries
      ensures n' == n + if AddTo(old(Bmatrix[v].entries), k, u, dist(v, u)).outcome == Added then 1 else 0
      ensures seen' == seen + {u} && evaluated' == evaluated + [u] && Tracked(v, seen', evaluated')
    {
      var row := Bmatrix[v];
      AddRowOk(Bmatrix.Keys, dist, k, v, row.entries, u);
      var r := row.Add(u, dist(v, u));
      n' := n + if r == Added then 1 else 0;
      seen' := seen + {u};
      evaluated' := evaluated + [u];
      TrackedStep(v, seen, evaluated, u);
    }

    /** What `Valid` asks of the list of `v`. */
    ghost predicate RowValid(v: nat)
      reads this, Bmatrix.Values
    {
      && v in Bmatrix && Bmatrix[v].Valid() && Bmatrix[v].k == k
      && RowOk(Bmatrix.Keys, dist, v, Bmatrix[v].entries)
    }

    /** When only the list of `v` has changed, and it is still valid, the matrix is valid and
        the graph of lists differs at `v` alone. */
    twostate lemma RowUpdated(v: nat)
      requires old(Valid()) && v in Bmatrix && Bmatrix == old(Bmatrix)
      requires forall x :: x in Bmatrix && x != v ==> unchanged(Bmatrix[x])
      requires RowValid(v)
      ensures Valid() && Lists() == old(Lists())[v := Bmatrix[v].entries]
    {
      RowChanged(v);
      forall x | x in Bmatrix && x != v
        ensures Bmatrix[x].Valid() && Bmatrix[x].k == k && RowOk(Bmatrix.Keys, dist, x, Bmatrix[x].entries)
      {
        assert old(Bmatrix[x].Valid()) && unchanged(Bmatrix[x]);
      }
    }

    /** When only the list of `v` has changed, the graph of lists differs at `v` alone. */
    twostate lemma RowChanged(v: nat)
      requires old(Shape()) && v in Bmatrix && Bmatrix == old(Bmatrix)
      requires forall x :: x in Bmatrix && x != v ==> unchanged(Bmatrix[x])
      ensures Lists() == old(Lists())[v := Bmatrix[v].entries]
    {
    }
  }
}
