/** The bounded neighbour list of the NN-Descent library (`SortedArray` in src/knn.py):
    at most `k` (vertex, weight) pairs, kept in ascending order of weight. */
module SortedArrays {

  /** A (neighbour, weight) pair as stored in the list. */
  type Entry<V> = (V, real)

  /** The field `max`: the weight of the last entry, or `float("inf")` before the first add. */
  datatype Bound = Inf | Fin(w: real)

  /** `weight < max`. */
  predicate Below(weight: real, b: Bound)
  {
    b.Inf? || weight < b.w
  }

  /** What a call of `add` does: 1 (`Added`), 0 (`Rejected`), or the `IndexError` that
      `self.array[-1]` raises on an empty list whose capacity is 0. */
  datatype AddOutcome = Added | Rejected | IndexError

  predicate SortedByWeight<V>(s: seq<Entry<V>>)
  {
    forall i, j :: 0 <= i < j < |s| ==> s[i].1 <= s[j].1
  }

  /** The bound that `add` leaves in `max` for a list holding `s`. */
  function MaxOf<V>(s: seq<Entry<V>>): Bound
  {
    if s == [] then Inf else Fin(s[|s| - 1].1)
  }

  /** The number of leading entries of `s` whose weight is at most `w`. */
  function InsertPos<V>(s: seq<Entry<V>>, w: real): (p: nat)
    ensures p <= |s|
  {
    if s == [] || w < s[0].1 then 0 else 1 + InsertPos(s[1..], w)
  }

  /** Puts `x` into the ascending list `s` after every entry whose weight is at most its own
      (the place a stable sort gives an element that comes last). */
  function Insert<V>(s: seq<Entry<V>>, x: Entry<V>): (r: seq<Entry<V>>)
    ensures |r| == |s| + 1
  {
    var p := InsertPos(s, x.1);
    s[..p] + [x] + s[p..]
  }

  /** Python's `sorted(s, key=itemgetter(1))`: a stable sort by weight, written as insertion sort. */
  function SortByWeight<V>(s: seq<Entry<V>>): (r: seq<Entry<V>>)
    ensures SortedByWeight(r)
    ensures |r| == |s|
  {
    if s == [] then []
    else
      var p := SortByWeight(s[..|s| - 1]);
      InsertKeepsSorted(p, s[|s| - 1]);
      Insert(p, s[|s| - 1])
  }

  /** Inserting adds exactly one occurrence of `x`. */
  lemma InsertPermutes<V>(s: seq<Entry<V>>, x: Entry<V>)
    ensures multiset(Insert(s, x)) == multiset(s) + multiset{x}
  {
    var p := InsertPos(s, x.1);
    assert s == s[..p] + s[p..];
  }

  /** Sorting only reorders. */
  lemma {:induction false} SortPermutes<V>(s: seq<Entry<V>>)
    ensures multiset(SortByWeight(s)) == multiset(s)
  {
    if s != [] {
      var n := |s| - 1;
      SortPermutes(s[..n]);
      InsertPermutes(SortByWeight(s[..n]), s[n]);
      assert s == s[..n] + [s[n]];
    }
  }

  /** The entries after inserting are those before, and `x`. */
  lemma InsertMembers<V>(s: seq<Entry<V>>, x: Entry<V>)
    ensures forall e :: e in Insert(s, x) <==> e in s || e == x
  {
    var p := InsertPos(s, x.1);
    assert s == s[..p] + s[p..];
  }

  /** In a sorted list, the entries before the insertion point weigh at most `w`, the rest more. */
  lemma {:induction false} InsertPosSplits<V>(s: seq<Entry<V>>, w: real)
    requires SortedByWeight(s)
    ensures forall i :: 0 <= i < InsertPos(s, w) ==> s[i].1 <= w
    ensures forall i :: InsertPos(s, w) <= i < |s| ==> w < s[i].1
  {
    if s != [] && s[0].1 <= w {
      var t := s[1..];
      assert SortedByWeight(t) by {
        forall i, j | 0 <= i < j < |t| ensures t[i].1 <= t[j].1 {
          assert t[i] == s[i + 1] && t[j] == s[j + 1];
        }
      }
      InsertPosSplits(t, w);
      forall i | 0 < i < |s| ensures s[i] == t[i - 1] {
      }
    }
  }

  lemma InsertKeepsSorted<V>(s: seq<Entry<V>>, x: Entry<V>)
    requires SortedByWeight(s)
    ensures SortedByWeight(Insert(s, x))
  {
    var p := InsertPos(s, x.1);
    InsertPosSplits(s, x.1);
    var r := Insert(s, x);
    assert forall i :: 0 <= i < p ==> r[i] == s[i];
    assert r[p] == x;
    assert forall i :: p < i < |r| ==> r[i] == s[i - 1];
  }

  lemma {:induction false} InsertPosAll<V>(s: seq<Entry<V>>, w: real)
    requires forall i :: 0 <= i < |s| ==> s[i].1 <= w
    ensures InsertPos(s, w) == |s|
  {
    if s != [] {
      assert s[0].1 <= w;
      var t := s[1..];
      forall i | 0 <= i < |t| ensures t[i].1 <= w {
        assert t[i] == s[i + 1];
      }
      InsertPosAll(t, w);
    }
  }

  /** Every prefix of a sorted list is sorted. */
  lemma SortedPrefix<V>(s: seq<Entry<V>>, n: nat)
    requires SortedByWeight(s) && n <= |s|
    ensures SortedByWeight(s[..n])
  {
    var t := s[..n];
    forall i, j | 0 <= i < j < |t| ensures t[i].1 <= t[j].1 {
      assert t[i] == s[i] && t[j] == s[j];
    }
  }

  /** Removing the last entry of a sorted list and inserting it again puts it back at the end. */
  lemma InsertLast<V>(s: seq<Entry<V>>)
    requires SortedByWeight(s) && s != []
    ensures Insert(s[..|s| - 1], s[|s| - 1]) == s
  {
    var n := |s| - 1;
    var t := s[..n];
    forall i | 0 <= i < |t| ensures t[i].1 <= s[n].1 {
      assert t[i] == s[i];
    }
    InsertPosAll(t, s[n].1);
    assert t[..|t|] == t;
    assert t + [s[n]] == s;
  }

  /** Sorting a list that is already in order changes nothing. */
  lemma {:induction false} SortSorted<V>(s: seq<Entry<V>>)
    requires SortedByWeight(s)
    ensures SortByWeight(s) == s
  {
    if s != [] {
      SortedPrefix(s, |s| - 1);
      SortSorted(s[..|s| - 1]);
      InsertLast(s);
    }
  }

  /** Appending to a sorted list and sorting again is the stable insertion. */
  lemma SortAfterAppend<V>(s: seq<Entry<V>>, x: Entry<V>)
    requires SortedByWeight(s)
    ensures SortByWeight(s + [x]) == Insert(s, x)
  {
    assert (s + [x])[..|s|] == s;
    SortSorted(s);
  }

  /** Exactly the `(value, weight)` pairs `add` turns away without changing anything. */
  predicate Rejects<V(==)>(s: seq<Entry<V>>, k: nat, value: V, weight: real)
  {
    (value, weight) in s || (|s| >= k && !Below(weight, MaxOf(s)))
  }

  /** What a call of `add` returns and leaves in the list. */
  datatype AddResult<V> = AddResult(outcome: AddOutcome, entries: seq<Entry<V>>)

  /** One call of `add` on a list holding `s`, branch by branch as the source takes them. */
  function AddTo<V(==)>(s: seq<Entry<V>>, k: nat, value: V, weight: real): AddResult<V>
  {
    if |s| < k then
      if (value, weight) in s then AddResult(Rejected, s)
      else AddResult(Added, SortByWeight(s + [(value, weight)]))
    else if !Below(weight, MaxOf(s)) then AddResult(Rejected, s)
    else if (value, weight) in s then AddResult(Rejected, s)
    else if s == [] then AddResult(IndexError, s)
    else AddResult(Added, SortByWeight(s[|s| - 1 := (value, weight)]))
  }

  /** `add` declines exactly an exact duplicate, or a weight not below the worst of a full list;
      and it fails only when the capacity is 0. In neither case does the list change. */
  lemma AddOutcomes<V>(s: seq<Entry<V>>, k: nat, value: V, weight: real)
    requires |s| <= k
    ensures AddTo(s, k, value, weight).outcome == Rejected <==> Rejects(s, k, value, weight)
    ensures AddTo(s, k, value, weight).outcome == IndexError <==> k == 0
    ensures AddTo(s, k, value, weight).outcome != Added ==> AddTo(s, k, value, weight).entries == s
  {
  }

  /** With room left, the pair goes in at its place by weight and the list grows by one. */
  lemma AddWithRoom<V>(s: seq<Entry<V>>, k: nat, value: V, weight: real)
    requires |s| < k && SortedByWeight(s)
    requires (value, weight) !in s
    ensures AddTo(s, k, value, weight).outcome == Added
    ensures AddTo(s, k, value, weight).entries == Insert(s, (value, weight))
    ensures |AddTo(s, k, value, weight).entries| == |s| + 1
  {
    SortAfterAppend(s, (value, weight));
  }

  /** On a full list, the heaviest entry is dropped, the other `k - 1` stay, and the pair goes
      in at its place by weight: the size stays `k`. */
  lemma AddWhenFull<V>(s: seq<Entry<V>>, k: nat, value: V, weight: real)
    requires |s| == k && SortedByWeight(s)
    requires AddTo(s, k, value, weight).outcome == Added
    ensures AddTo(s, k, value, weight).entries == Insert(s[..k - 1], (value, weight))
    ensures |AddTo(s, k, value, weight).entries| == k
    ensures multiset(AddTo(s, k, value, weight).entries)
              == multiset(s[..k - 1]) + multiset{(value, weight)}
    ensures weight < s[k - 1].1
  {
    var t := s[..k - 1];
    assert s[k - 1 := (value, weight)] == t + [(value, weight)];
    SortedPrefix(s, k - 1);
    SortAfterAppend(t, (value, weight));
    InsertPermutes(t, (value, weight));
  }

  /** After any call the list is still sorted, within capacity and holds nothing new but the pair;
      after a successful one it holds the pair. */
  lemma AddKeepsOrder<V>(s: seq<Entry<V>>, k: nat, value: V, weight: real)
    requires |s| <= k && SortedByWeight(s)
    ensures var r := AddTo(s, k, value, weight).entries;
      && SortedByWeight(r) && |r| <= k
      && (forall e :: e in r ==> e in s || e == (value, weight))
      && (AddTo(s, k, value, weight).outcome == Added ==> (value, weight) in r)
  {
    var x := (value, weight);
    if AddTo(s, k, value, weight).outcome == Added {
      if |s| < k {
        AddWithRoom(s, k, value, weight);
        InsertMembers(s, x);
      } else {
        AddWhenFull(s, k, value, weight);
        InsertMembers(s[..k - 1], x);
        assert forall e :: e in s[..k - 1] ==> e in s;
      }
    }
  }

  class SortedArray<V(==)> {
    /** The field `array` of the source. */
    var entries: seq<Entry<V>>
    var max: Bound
    const k: nat

    /** Holds after construction and after every `add`. */
    ghost predicate Valid()
      reads this
    {
      |entries| <= k && SortedByWeight(entries) && max == MaxOf(entries)
    }

    constructor (k: nat)
      ensures Valid() && this.k == k
      ensures entries == [] && max == Inf
    {
      entries := [];
      max := Inf;
      this.k := k;
    }

    /** `add`: the outcome and the new list are those of `AddTo`, whose properties are the
        lemmas above. */
    method Add(value: V, weight: real) returns (r: AddOutcome)
      requires Valid()
      modifies this
      ensures Valid()
      ensures r == AddTo(old(entries), k, value, weight).outcome
      ensures entries == AddTo(old(entries), k, value, weight).entries
    {
      if |entries| < k {
        if (value, weight) in entries {
          return Rejected;
        }
        entries := entries + [(value, weight)];
      } else {
        if !Below(weight, max) {
          return Rejected;
        }
        if (value, weight) in entries {
          return Rejected;
        }
        if entries == [] {
          return IndexError;
        }
        entries := entries[|entries| - 1 := (value, weight)];
      }
      entries := SortByWeight(entries);
      max := Fin(entries[|entries| - 1].1);
      r := Added;
    }

    /** `__iter__`: the entries in ascending order of weight. */
    function Items(): (r: seq<Entry<V>>)
      reads this
      requires Valid()
      ensures SortedByWeight(r) && |r| <= k
      ensures r == [] || max == Fin(r[|r| - 1].1)
    {
      entries
    }
  }
}
