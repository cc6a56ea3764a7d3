/** `dictionary_from_alignments.py`: a bilingual dictionary from the word-translation tables of
    the two alignment directions, keeping for each word the translations both directions
    propose with enough probability. */
module DictionaryFromAlignments {
  import opened Wrappers
  import opened Strings

  /** word -> the words it translates to: the `defaultdict(set)` of
      `GetProbableTranslations`. */
  type Dict = map<string, set<string>>

  /** What one record contributes: a pair to insert, nothing, or an error. */
  type Entry = Result<Option<(string, string)>>

  /** The loop body of `GetProbableTranslations` on one record, its fields already split: a
      record without exactly three fields is skipped, a log-probability `float()` cannot read
      raises `ValueError`, one below the threshold is skipped, and the first two columns are
      swapped unless the key word comes first. */
  function Admitted(record: seq<string>, keyIsFirstColumn: bool, threshold: real): Entry
  {
    if |record| != 3 then Ok(None)
    else
      var logProb := ParseFloat(record[2]);
      if logProb.Err? then Err(logProb.error)
      else if logProb.value < threshold then Ok(None)
      else if keyIsFirstColumn then Ok(Some((record[0], record[1])))
      else Ok(Some((record[1], record[0])))
  }

  /** The words stored under `k`, none while `k` has not been seen. */
  function Words(d: Dict, k: string): set<string>
  {
    if k in d then d[k] else {}
  }

  /** `result[en].add(fr)`. */
  function Add(d: Dict, k: string, w: string): Dict
  {
    d[k := Words(d, k) + {w}]
  }

  function CollectNext(acc: Result<Dict>, e: Entry): Result<Dict>
  {
    if acc.Err? then acc
    else if e.Err? then Err(e.error)
    else if e.value.None? then acc
    else Ok(Add(acc.value, e.value.value.0, e.value.value.1))
  }

  /** The entries `es` added in order to `acc`; the first error stops the loop. */
  function Collect(acc: Result<Dict>, es: seq<Entry>): Result<Dict>
    decreases |es|
  {
    if es == [] then acc else Collect(CollectNext(acc, es[0]), es[1..])
  }

  /** After an error nothing more is added. */
  lemma {:induction false} CollectErr(acc: Result<Dict>, es: seq<Entry>)
    ensures acc.Err? ==> Collect(acc, es) == acc
    decreases |es|
  {
    if es != [] {
      CollectErr(CollectNext(acc, es[0]), es[1..]);
    }
  }

  /** Collecting fails exactly when some entry is an error, and then with that entry's
      error. */
  lemma {:induction false} CollectFails(acc: Result<Dict>, es: seq<Entry>)
    requires acc.Ok?
    ensures Collect(acc, es).Err? <==> exists i :: 0 <= i < |es| && es[i].Err?
    ensures Collect(acc, es).Err? ==> exists i :: 0 <= i < |es| && es[i] == Err(Collect(acc, es).error)
    decreases |es|
  {
    if es != [] {
      var next := CollectNext(acc, es[0]);
      var rest := es[1..];
      if next.Err? {
        CollectErr(next, rest);
      } else {
        CollectFails(next, rest);
        if exists i :: 0 <= i < |es| && es[i].Err? {
          var i :| 0 <= i < |es| && es[i].Err?;
          assert rest[i - 1] == es[i];
        }
        if Collect(next, rest).Err? {
          var i :| 0 <= i < |rest| && rest[i] == Err(Collect(next, rest).error);
          assert es[i + 1] == rest[i];
        }
      }
    }
  }

  /** A word is stored under `k` exactly when it was before or some entry adds it. */
  lemma {:induction false} CollectMembers(acc: Result<Dict>, es: seq<Entry>, k: string, w: string)
    requires acc.Ok? && Collect(acc, es).Ok?
    ensures w in Words(Collect(acc, es).value, k) <==> w in Words(acc.value, k) || Ok(Some((k, w))) in es
    decreases |es|
  {
    if es != [] {
      var next := CollectNext(acc, es[0]);
      CollectErr(next, es[1..]);
      assert next.Ok?;
      CollectMembers(next, es[1..], k, w);
      assert es == [es[0]] + es[1..];
    }
  }

  /** Every stored key has at least one word. */
  predicate NonEmpty(d: Dict)
  {
    forall k :: k in d ==> d[k] != {}
  }

  lemma {:induction false} CollectNonEmpty(acc: Result<Dict>, es: seq<Entry>)
    requires acc.Ok? && NonEmpty(acc.value) && Collect(acc, es).Ok?
    ensures NonEmpty(Collect(acc, es).value)
    decreases |es|
  {
    if es != [] {
      var next := CollectNext(acc, es[0]);
      CollectErr(next, es[1..]);
      assert next.Ok?;
      CollectNonEmpty(next, es[1..]);
    }
  }

  /** What every record contributes, in order. */
  function EntriesOf(records: seq<seq<string>>, keyIsFirstColumn: bool, threshold: real): (r: seq<Entry>)
    ensures |r| == |records|
  {
    seq(|records|, i requires 0 <= i < |records| => Admitted(records[i], keyIsFirstColumn, threshold))
  }

  /** `GetProbableTranslations` on the records of one table. */
  function Translations(records: seq<seq<string>>, keyIsFirstColumn: bool, threshold: real): Result<Dict>
  {
    Collect(Ok(map[]), EntriesOf(records, keyIsFirstColumn, threshold))
  }

  /** Reading a table fails, with `ValueError`, exactly when some three-field record has a
      log-probability that `float()` cannot read. */
  lemma TranslationsErr(records: seq<seq<string>>, keyIsFirstColumn: bool, threshold: real)
    ensures Translations(records, keyIsFirstColumn, threshold).Err? <==>
              exists i :: 0 <= i < |records| && |records[i]| == 3 && ParseFloat(records[i][2]).Err?
    ensures Translations(records, keyIsFirstColumn, threshold).Err? ==>
              Translations(records, keyIsFirstColumn, threshold).error == ValueError
  {
    var es := EntriesOf(records, keyIsFirstColumn, threshold);
    CollectFails(Ok(map[]), es);
    if Collect(Ok(map[]), es).Err? {
      var i :| 0 <= i < |es| && es[i] == Err(Collect(Ok(map[]), es).error);
      assert es[i] == Admitted(records[i], keyIsFirstColumn, threshold);
    } else {
      forall i | 0 <= i < |records| && |records[i]| == 3
        ensures ParseFloat(records[i][2]).Ok?
      {
        assert es[i].Ok?;
      }
    }
  }

  /** A word `w` is stored under `k` exactly when some record has three fields, a
      log-probability of at least the threshold, and `k` and `w` in its first two columns, in
      that order when the key comes first and swapped otherwise. */
  lemma TranslationsMembers(records: seq<seq<string>>, keyIsFirstColumn: bool, threshold: real, k: string, w: string)
    requires Translations(records, keyIsFirstColumn, threshold).Ok?
    ensures w in Words(Translations(records, keyIsFirstColumn, threshold).value, k) <==>
              exists i :: 0 <= i < |records| && |records[i]| == 3
                && ParseFloat(records[i][2]).Ok? && ParseFloat(records[i][2]).value >= threshold
                && (if keyIsFirstColumn then records[i][0] == k && records[i][1] == w
                    else records[i][1] == k && records[i][0] == w)
  {
    var es := EntriesOf(records, keyIsFirstColumn, threshold);
    CollectMembers(Ok(map[]), es, k, w);
    if Ok(Some((k, w))) in es {
      var i :| 0 <= i < |es| && es[i] == Ok(Some((k, w)));
      assert es[i] == Admitted(records[i], keyIsFirstColumn, threshold);
    }
    if exists i :: 0 <= i < |records| && |records[i]| == 3
         && ParseFloat(records[i][2]).Ok? && ParseFloat(records[i][2]).value >= threshold
         && (if keyIsFirstColumn then records[i][0] == k && records[i][1] == w
             else records[i][1] == k && records[i][0] == w)
    {
      var i :| 0 <= i < |records| && |records[i]| == 3
        && ParseFloat(records[i][2]).Ok? && ParseFloat(records[i][2]).value >= threshold
        && (if keyIsFirstColumn then records[i][0] == k && records[i][1] == w
            else records[i][1] == k && records[i][0] == w);
      assert es[i] == Ok(Some((k, w)));
    }
  }

  /** Every key of a table read without error has at least one word. */
  lemma TranslationsNonEmpty(records: seq<seq<string>>, keyIsFirstColumn: bool, threshold: real)
    requires Translations(records, keyIsFirstColumn, threshold).Ok?
    ensures NonEmpty(Translations(records, keyIsFirstColumn, threshold).value)
  {
    CollectNonEmpty(Ok(map[]), EntriesOf(records, keyIsFirstColumn, threshold));
  }

  /** The records with their first two columns exchanged. */
  function Swapped(records: seq<seq<string>>): (r: seq<seq<string>>)
    ensures |r| == |records|
  {
    seq(|records|, i requires 0 <= i < |records| =>
      if |records[i]| == 3 then [records[i][1], records[i][0], records[i][2]] else records[i])
  }

  /** Reading a table with the key in the second column is reading it with the columns
      exchanged and the key in the first. */
  lemma TranslationsSwapped(records: seq<seq<string>>, threshold: real)
    ensures Translations(records, false, threshold) == Translations(Swapped(records), true, threshold)
  {
    var sw := Swapped(records);
    forall i | 0 <= i < |records|
      ensures Admitted(records[i], false, threshold) == Admitted(sw[i], true, threshold)
    {
      if |records[i]| == 3 {
        assert sw[i][2] == records[i][2];
      }
    }
    assert EntriesOf(records, false, threshold) == EntriesOf(sw, true, threshold);
  }

  /** `GetProbableTranslations` over the records of one table. */
  method GetProbableTranslations(records: seq<seq<string>>, keyIsFirstColumn: bool, threshold: real)
    returns (r: Result<Dict>)
    ensures r == Translations(records, keyIsFirstColumn, threshold)
  {
    var result: Dict := map[];
    assert records[0..] == records;
    for i := 0 to |records|
      invariant Collect(Ok(result), EntriesOf(records[i..], keyIsFirstColumn, threshold))
                  == Translations(records, keyIsFirstColumn, threshold)
    {
      var record := records[i];
      ghost var e := Admitted(record, keyIsFirstColumn, threshold);
      ghost var rest := EntriesOf(records[i + 1..], keyIsFirstColumn, threshold);
      assert EntriesOf(records[i..], keyIsFirstColumn, threshold) == [e] + rest;
      assert ([e] + rest)[0] == e && ([e] + rest)[1..] == rest;
      if |record| == 3 {
        var logProb := ParseFloat(record[2]);
        if logProb.Err? {
          CollectErr(Err(logProb.error), rest);
          return Err(logProb.error);
        }
        if logProb.value >= threshold {
          var k, w := record[0], record[1];
          if !keyIsFirstColumn {
            k, w := w, k;
          }
          var words := if k in result then result[k] else {};
          result := result[k := words + {w}];
        }
      }
    }
    assert records[|records|..] == [];
    return Ok(result);
  }

  // The intersection in `main`

  /** `fwd_dict[k] & rev_dict[k]`, less `k` itself. */
  function Overlap(fwd: Dict, rev: Dict, k: string): set<string>
    requires k in fwd && k in rev
  {
    fwd[k] * rev[k] - {k}
  }

  /** `k` is written out: a key of both dictionaries, alphabetic, whose overlap is not
      empty. */
  predicate Emits(fwd: Dict, rev: Dict, k: string)
  {
    k in fwd && k in rev && IsAlpha(k) && Overlap(fwd, rev, k) != {}
  }

  predicate StrictlySorted(s: seq<string>)
  {
    forall i, j :: 0 <= i < j < |s| ==> StrLess(s[i], s[j])
  }

  /** The output of `main` as `(k, words)` lines: in increasing order of `k`, each line for a
      key `main` writes out with its overlap, and a line for every such key. */
  ghost predicate IsIntersection(fwd: Dict, rev: Dict, out: seq<(string, set<string>)>)
  {
    && (forall i, j :: 0 <= i < j < |out| ==> StrLess(out[i].0, out[j].0))
    && (forall i :: 0 <= i < |out| ==> Emits(fwd, rev, out[i].0) && out[i].1 == Overlap(fwd, rev, out[i].0))
    && (forall k :: Emits(fwd, rev, k) ==> exists i :: 0 <= i < |out| && out[i].0 == k)
  }

  /** The keys of an output, in order. */
  function KeysOf(out: seq<(string, set<string>)>): (r: seq<string>)
    ensures |r| == |out| && forall i :: 0 <= i < |out| ==> r[i] == out[i].0
  {
    seq(|out|, i requires 0 <= i < |out| => out[i].0)
  }

  /** A non-empty set of strings has a least element. */
  lemma {:induction false} Least(keys: set<string>) returns (m: string)
    requires keys != {}
    ensures m in keys && forall x :: x in keys && x != m ==> StrLess(m, x)
    decreases |keys|
  {
    var y :| y in keys;
    var rest := keys - {y};
    if rest == {} {
      assert keys == {y};
      m := y;
    } else {
      var least := Least(rest);
      if StrLess(y, least) {
        m := y;
        forall x | x in keys && x != y
          ensures StrLess(y, x)
        {
          if x != least {
            StrLessTransitive(y, least, x);
          }
        }
      } else {
        StrLessTotal(y, least);
        m := least;
      }
    }
  }

  /** `sorted(keys)`: each key once, in increasing order. */
  method SortedKeys(keys: set<string>) returns (r: seq<string>)
    ensures StrictlySorted(r)
    ensures forall k :: k in keys <==> k in r
  {
    r := [];
    var todo := keys;
    while todo != {}
      invariant todo <= keys
      invariant forall k :: k in keys <==> k in r || k in todo
      invariant StrictlySorted(r)
      invariant forall i, x :: 0 <= i < |r| && x in todo ==> StrLess(r[i], x)
      decreases todo
    {
      ghost var least := Least(todo);
      var m :| m in todo && forall x :: x in todo && x != m ==> StrLess(m, x);
      r := r + [m];
      todo := todo - {m};
    }
  }

  /** The body of the output loop of `main` for the common key `k`: the words of its line,
      when it has one. */
  method OutputLine(fwd: Dict, rev: Dict, k: string) returns (words: Option<set<string>>)
    requires k in fwd && k in rev
    ensures words.Some? <==> Emits(fwd, rev, k)
    ensures words.Some? ==> words.value == Overlap(fwd, rev, k)
  {
    words := None;
    if IsAlpha(k) {
      var overlap := fwd[k] * rev[k];
      overlap := overlap - {k};
      if |overlap| > 0 {
        words := Some(overlap);
      }
    }
  }

  /** The output loop of `main`: the sorted common keys, each written out when it is
      alphabetic and its overlap is not empty. */
  method Intersect(fwd: Dict, rev: Dict) returns (out: seq<(string, set<string>)>)
    ensures IsIntersection(fwd, rev, out)
  {
    var keys := SortedKeys(fwd.Keys * rev.Keys);
    out := [];
    for i := 0 to |keys|
      invariant forall a, b :: 0 <= a < b < |out| ==> StrLess(out[a].0, out[b].0)
      invariant forall a, b :: 0 <= a < |out| && i <= b < |keys| ==> StrLess(out[a].0, keys[b])
      invariant forall a :: 0 <= a < |out| ==> Emits(fwd, rev, out[a].0) && out[a].1 == Overlap(fwd, rev, out[a].0)
      invariant forall b :: 0 <= b < i && Emits(fwd, rev, keys[b]) ==> keys[b] in KeysOf(out)
    {
      var k := keys[i];
      assert k in fwd.Keys * rev.Keys by {
        assert k in keys;
      }
      var words := OutputLine(fwd, rev, k);
      if words.Some? {
        ghost var prev := out;
        out := out + [(k, words.value)];
        assert KeysOf(out) == KeysOf(prev) + [k];
      }
    }
    forall k | Emits(fwd, rev, k)
      ensures exists a :: 0 <= a < |out| && out[a].0 == k
    {
      assert k in keys;
      var b :| 0 <= b < |keys| && keys[b] == k;
      var a :| 0 <= a < |out| && KeysOf(out)[a] == k;
    }
  }

  /** `main` on the two tables: the forward table is keyed by its second column and the
      reverse table by its first; reading either may fail. */
  method BuildDictionary(fwdRecords: seq<seq<string>>, revRecords: seq<seq<string>>,
                         fwdThreshold: real, revThreshold: real)
    returns (r: Result<seq<(string, set<string>)>>)
    ensures r.Err? <==> Translations(fwdRecords, false, fwdThreshold).Err?
                          || Translations(revRecords, true, revThreshold).Err?
    ensures r.Ok? ==> IsIntersection(Translations(fwdRecords, false, fwdThreshold).value,
                                     Translations(revRecords, true, revThreshold).value, r.value)
  {
    var fwd := GetProbableTranslations(fwdRecords, false, fwdThreshold);
    if fwd.Err? {
      return Err(fwd.error);
    }
    var rev := GetProbableTranslations(revRecords, true, revThreshold);
    if rev.Err? {
      return Err(rev.error);
    }
    var out := Intersect(fwd.value, rev.value);
    return Ok(out);
  }

  /** Sorted sequences with the same elements are equal. */
  lemma {:induction false} SortedUnique(a: seq<string>, b: seq<string>)
    requires StrictlySorted(a) && StrictlySorted(b)
    requires forall x :: x in a <==> x in b
    ensures a == b
    decreases |a|
  {
    if a != [] {
      assert a[0] in b;
    }
    if b != [] {
      assert b[0] in a;
    }
    if a != [] {
      var j :| 0 <= j < |a| && a[j] == b[0];
      var k :| 0 <= k < |b| && b[k] == a[0];
      if j > 0 && k > 0 {
        StrLessTransitive(a[0], b[0], a[0]);
        StrLessIrreflexive(a[0]);
      } else if j > 0 {
        StrLessIrreflexive(a[0]);
      } else if k > 0 {
        StrLessIrreflexive(b[0]);
      }
      assert a[0] == b[0];
      forall x | x in a[1..]
        ensures x in b[1..]
      {
        var i :| 1 <= i < |a| && a[i] == x;
        StrLessIrreflexive(x);
        assert x != b[0];
        assert x in b;
        var m :| 0 <= m < |b| && b[m] == x;
        assert b[1..][m - 1] == x;
      }
      forall x | x in b[1..]
        ensures x in a[1..]
      {
        var i :| 1 <= i < |b| && b[i] == x;
        StrLessIrreflexive(x);
        assert x != a[0];
        assert x in a;
        var m :| 0 <= m < |a| && a[m] == x;
        assert a[1..][m - 1] == x;
      }
      SortedUnique(a[1..], b[1..]);
      assert a == [a[0]] + a[1..] && b == [b[0]] + b[1..];
    }
  }

  /** The two dictionaries determine the output completely: any two outputs that fit the
      description of `main` are the same. */
  lemma IntersectionUnique(fwd: Dict, rev: Dict, out1: seq<(string, set<string>)>, out2: seq<(string, set<string>)>)
    requires IsIntersection(fwd, rev, out1) && IsIntersection(fwd, rev, out2)
    ensures out1 == out2
  {
    var k1, k2 := KeysOf(out1), KeysOf(out2);
    forall x | x in k1
      ensures x in k2
    {
      var i :| 0 <= i < |k1| && k1[i] == x;
      assert Emits(fwd, rev, out1[i].0);
      var j :| 0 <= j < |out2| && out2[j].0 == x;
      assert k2[j] == x;
    }
    forall x | x in k2
      ensures x in k1
    {
      var i :| 0 <= i < |k2| && k2[i] == x;
      assert Emits(fwd, rev, out2[i].0);
      var j :| 0 <= j < |out1| && out1[j].0 == x;
      assert k1[j] == x;
    }
    SortedUnique(k1, k2);
    forall i | 0 <= i < |out1|
      ensures out1[i] == out2[i]
    {
      assert k1[i] == k2[i];
    }
  }
}
