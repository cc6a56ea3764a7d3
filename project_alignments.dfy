/** The alignment projection of src/project_alignments.py: a whitelist of (Swahili, English)
    pairs read from a dictionary file, the word alignments of a sentence pair as a map from
    Swahili positions to English positions, and the Swahili sentence rewritten with the
    accepted English translations appended to every word, counting as it goes. */
module ProjectAlignments {
  import opened Wrappers
  import opened Sums
  import opened Strings
  import opened Counters

  /** A (Swahili word, English word) pair. */
  type Pair = (string, string)

  // LoadDict

  /** The English word left of `" ||| "` and the Swahili words right of it, split at single
      spaces; `ValueError` unless the stripped line has exactly one `" ||| "`. */
  function LineFields(line: string): (r: Result<(string, seq<string>)>)
    ensures r.Err? ==> r.error == ValueError
  {
    var parts := SplitOn(Strip(line), " ||| ");
    if |parts| != 2 then Err(ValueError) else Ok((parts[0], SplitOn(parts[1], " ")))
  }

  /** A line that parses is the English word, the separator and the Swahili words joined by
      single spaces. */
  lemma LineFieldsJoin(line: string)
    requires LineFields(line).Ok?
    ensures Strip(line) == LineFields(line).value.0 + " ||| " + Join(" ", LineFields(line).value.1)
  {
    var parts := SplitOn(Strip(line), " ||| ");
    JoinSplitOn(Strip(line), " ||| ");
    JoinSplitOn(parts[1], " ");
    assert parts[1..] == [parts[1]];
  }

  /** The pairs one line contributes: every Swahili word with the English word. */
  function PairsOf(en: string, sws: seq<string>): (r: set<Pair>)
    ensures forall p :: p in r <==> p.1 == en && p.0 in sws
  {
    set sw | sw in sws :: (sw, en)
  }

  /** A parsed line: the English word and the Swahili words, or the error. */
  type Fields = Result<(string, seq<string>)>

  /** The parse of every line of the file. */
  function ParsedLines(lines: seq<string>): (r: seq<Fields>)
    ensures |r| == |lines| && forall i :: 0 <= i < |lines| ==> r[i] == LineFields(lines[i])
  {
    seq(|lines|, i requires 0 <= i < |lines| => LineFields(lines[i]))
  }

  /** One more parsed line read into the pairs so far. */
  function LoadNext(acc: Result<set<Pair>>, f: Fields): Result<set<Pair>>
  {
    if acc.Err? then acc
    else if f.Err? then Err(f.error)
    else Ok(acc.value + PairsOf(f.value.0, f.value.1))
  }

  /** The pairs of the parsed lines, read in order, or the first error. */
  function Loaded(fs: seq<Fields>): Result<set<Pair>>
    decreases |fs|
  {
    if fs == [] then Ok({})
    else LoadNext(Loaded(fs[..|fs| - 1]), fs[|fs| - 1])
  }

  /** The set `LoadDict` returns for the lines of the file, or the error it raises. */
  function LoadedDict(lines: seq<string>): (r: Result<set<Pair>>)
  {
    Loaded(ParsedLines(lines))
  }

  lemma LoadedStep(fs: seq<Fields>, i: nat)
    requires i < |fs|
    ensures Loaded(fs[..i + 1]) == LoadNext(Loaded(fs[..i]), fs[i])
  {
    assert fs[..i + 1][..i] == fs[..i];
  }

  /** Reading fails exactly when some line failed to parse, with the first such error. */
  lemma {:induction false} LoadedErr(fs: seq<Fields>)
    ensures Loaded(fs).Err? <==> exists i :: 0 <= i < |fs| && fs[i].Err?
    ensures Loaded(fs).Err? ==> exists i :: 0 <= i < |fs| && fs[i].Err? && Loaded(fs).error == fs[i].error
    decreases |fs|
  {
    if fs != [] {
      var n := |fs| - 1;
      var pre := fs[..n];
      LoadedErr(pre);
      assert forall i :: 0 <= i < n ==> pre[i] == fs[i];
    }
  }

  /** When reading succeeds, it holds `(sw, en)` exactly when some line has `en` on the left
      and `sw` among the words on the right. */
  lemma {:induction false} LoadedMembers(fs: seq<Fields>, p: Pair)
    requires Loaded(fs).Ok?
    ensures p in Loaded(fs).value <==>
              exists i :: 0 <= i < |fs| && fs[i].Ok? && fs[i].value.0 == p.1 && p.0 in fs[i].value.1
    decreases |fs|
  {
    if fs != [] {
      var n := |fs| - 1;
      var pre := fs[..n];
      LoadedMembers(pre, p);
      assert forall i :: 0 <= i < n ==> pre[i] == fs[i];
    }
  }

  /** An error on a prefix of the lines is the error of all of them. */
  lemma {:induction false} LoadedErrPrefix(fs: seq<Fields>, i: nat)
    requires i <= |fs| && Loaded(fs[..i]).Err?
    ensures Loaded(fs) == Loaded(fs[..i])
    decreases |fs| - i
  {
    if i < |fs| {
      LoadedStep(fs, i);
      LoadedErrPrefix(fs, i + 1);
    } else {
      assert fs[..i] == fs;
    }
  }

  /** `LoadDict` fails, with `ValueError`, exactly when some line does not have the
      `en ||| sw ...` shape. */
  lemma LoadedDictErr(lines: seq<string>)
    ensures LoadedDict(lines).Err? <==> exists i :: 0 <= i < |lines| && LineFields(lines[i]).Err?
    ensures LoadedDict(lines).Err? ==> LoadedDict(lines).error == ValueError
  {
    var fs := ParsedLines(lines);
    LoadedErr(fs);
  }

  /** When it succeeds, `LoadDict` holds `(sw, en)` exactly when some line has `en` on the
      left and `sw` among the words on the right. */
  lemma LoadedDictMembers(lines: seq<string>, p: Pair)
    requires LoadedDict(lines).Ok?
    ensures p in LoadedDict(lines).value <==>
              exists i :: 0 <= i < |lines| && LineFields(lines[i]).Ok?
                && LineFields(lines[i]).value.0 == p.1 && p.0 in LineFields(lines[i]).value.1
  {
    var fs := ParsedLines(lines);
    LoadedMembers(fs, p);
  }

  /** The inner loop of `LoadDict`: `result.add((sw, en))` for every Swahili word. */
  method AddPairs(result: set<Pair>, en: string, sws: seq<string>) returns (r: set<Pair>)
    ensures r == result + PairsOf(en, sws)
  {
    r := result;
    for j := 0 to |sws|
      invariant r == result + PairsOf(en, sws[..j])
    {
      assert forall sw :: sw in sws[..j + 1] <==> sw in sws[..j] || sw == sws[j];
      r := r + {(sws[j], en)};
    }
    assert sws[..|sws|] == sws;
  }

  /** `LoadDict`: the (Swahili, English) pairs of the dictionary file. */
  method LoadDict(lines: seq<string>) returns (r: Result<set<Pair>>)
    ensures r == LoadedDict(lines)
  {
    ghost var fs := ParsedLines(lines);
    var result: set<Pair> := {};
    for i := 0 to |lines|
      invariant Loaded(fs[..i]) == Ok(result)
    {
      LoadedStep(fs, i);
      var fields := LineFields(lines[i]);
      if fields.Err? {
        LoadedErrPrefix(fs, i + 1);
        return Err(fields.error);
      }
      result := AddPairs(result, fields.value.0, fields.value.1);
    }
    assert fs[..|lines|] == fs;
    return Ok(result);
  }

  // AlignmentsToDict

  /** `sw_i, en_i = pair.split("-")` and `int` of both; `ValueError` for anything else. */
  function ParsePair(token: string): (r: Result<(int, int)>)
    ensures r.Err? ==> r.error == ValueError
  {
    var parts := SplitOn(token, "-");
    if |parts| != 2 then Err(ValueError)
    else
      var i, j := ParseInt(parts[0]), ParseInt(parts[1]);
      if i.Ok? && j.Ok? then Ok((i.value, j.value)) else Err(ValueError)
  }

  /** An alignment pair as the aligner writes it, `i-j`, parses back to `(i, j)`. */
  lemma ParsePairFormat(i: nat, j: nat)
    ensures ParsePair(Decimal(i) + "-" + Decimal(j)) == Ok((i, j))
  {
    assert '-' !in Decimal(i) && '-' !in Decimal(j);
    SplitOnFirst(Decimal(i), '-', Decimal(j));
    SplitOnNone(Decimal(j), '-');
    ParseDecimal(i);
    ParseDecimal(j);
  }

  /** One more token parsed onto the pairs so far. */
  function ParseNext(acc: Result<seq<(int, int)>>, token: string): Result<seq<(int, int)>>
  {
    if acc.Err? then acc
    else
      var p := ParsePair(token);
      if p.Err? then Err(p.error) else Ok(acc.value + [p.value])
  }

  /** The pairs of a whitespace-separated alignment line, or the first error. */
  function ParsePairs(tokens: seq<string>): (r: Result<seq<(int, int)>>)
    ensures r.Err? ==> r.error == ValueError
    decreases |tokens|
  {
    if tokens == [] then Ok([])
    else ParseNext(ParsePairs(tokens[..|tokens| - 1]), tokens[|tokens| - 1])
  }

  lemma ParsePairsStep(tokens: seq<string>, i: nat)
    requires i < |tokens|
    ensures ParsePairs(tokens[..i + 1]) == ParseNext(ParsePairs(tokens[..i]), tokens[i])
  {
    assert tokens[..i + 1][..i] == tokens[..i];
  }

  lemma {:induction false} ParsePairsErrPrefix(tokens: seq<string>, i: nat)
    requires i <= |tokens| && ParsePairs(tokens[..i]).Err?
    ensures ParsePairs(tokens) == ParsePairs(tokens[..i])
    decreases |tokens| - i
  {
    if i < |tokens| {
      ParsePairsStep(tokens, i);
      ParsePairsErrPrefix(tokens, i + 1);
    } else {
      assert tokens[..i] == tokens;
    }
  }

  /** Parsing succeeds exactly when every token parses, and then gives one pair per token, in
      order. */
  lemma {:induction false} ParsePairsOk(tokens: seq<string>)
    ensures ParsePairs(tokens).Ok? <==> forall i :: 0 <= i < |tokens| ==> ParsePair(tokens[i]).Ok?
    ensures ParsePairs(tokens).Ok? ==>
              |ParsePairs(tokens).value| == |tokens|
              && forall i :: 0 <= i < |tokens| ==> ParsePairs(tokens).value[i] == ParsePair(tokens[i]).value
    decreases |tokens|
  {
    if tokens != [] {
      var n := |tokens| - 1;
      var pre := tokens[..n];
      ParsePairsOk(pre);
      assert forall i :: 0 <= i < n ==> pre[i] == tokens[i];
    }
  }

  /** `alignments_dict.get(i, [])`. */
  function Lookup(m: map<int, seq<int>>, i: int): seq<int>
  {
    if i in m then m[i] else []
  }

  /** The `defaultdict(list)` after `result[i].append(j)` for every pair, in order. */
  function Grouped(ps: seq<(int, int)>): map<int, seq<int>>
    decreases |ps|
  {
    if ps == [] then map[]
    else
      var n := |ps| - 1;
      var m := Grouped(ps[..n]);
      m[ps[n].0 := Lookup(m, ps[n].0) + [ps[n].1]]
  }

  /** The English positions aligned to `i`, in the order of the pairs. */
  function Targets(ps: seq<(int, int)>, i: int): seq<int>
    decreases |ps|
  {
    if ps == [] then []
    else
      var n := |ps| - 1;
      Targets(ps[..n], i) + (if ps[n].0 == i then [ps[n].1] else [])
  }

  /** Position `i` maps to the English positions of its pairs in input order, and it is a key
      exactly when some pair has it. */
  lemma {:induction false} GroupedAt(ps: seq<(int, int)>, i: int)
    ensures Lookup(Grouped(ps), i) == Targets(ps, i)
    ensures i in Grouped(ps) <==> exists k :: 0 <= k < |ps| && ps[k].0 == i
    decreases |ps|
  {
    if ps != [] {
      var n := |ps| - 1;
      var pre := ps[..n];
      GroupedAt(pre, i);
      if ps[n].0 != i {
        if exists k :: 0 <= k < |ps| && ps[k].0 == i {
          var k :| 0 <= k < |ps| && ps[k].0 == i;
          assert pre[k] == ps[k];
        }
        if exists k :: 0 <= k < n && pre[k].0 == i {
          var k :| 0 <= k < n && pre[k].0 == i;
          assert ps[k] == pre[k];
        }
      }
    }
  }

  /** The length of every list. */
  function Lengths(m: map<int, seq<int>>): (r: map<int, nat>)
    ensures r.Keys == m.Keys && forall i :: i in m ==> r[i] == |m[i]|
  {
    map i | i in m :: |m[i]|
  }

  /** The lists hold every pair once: their total length is the number of pairs. */
  lemma {:induction false} GroupedTotal(ps: seq<(int, int)>)
    ensures NatSum(Lengths(Grouped(ps))) == |ps|
    decreases |ps|
  {
    if ps == [] {
      assert Lengths(map[]) == map[];
    } else {
      var n := |ps| - 1;
      var m, i := Grouped(ps[..n]), ps[n].0;
      GroupedTotal(ps[..n]);
      var l := Lengths(m);
      assert Lengths(Grouped(ps)) == l[i := |Lookup(m, i)| + 1];
      NatSumUpdate(l, i, |Lookup(m, i)| + 1);
    }
  }

  /** `AlignmentsToDict(line)`, or the `ValueError` it raises. */
  function AlignmentsOf(line: string): Result<map<int, seq<int>>>
  {
    var ps := ParsePairs(Split(line));
    if ps.Err? then Err(ps.error) else Ok(Grouped(ps.value))
  }

  /** `AlignmentsToDict`: each `i-j` token appends `j` to the list of `i`. */
  method AlignmentsToDict(line: string) returns (r: Result<map<int, seq<int>>>)
    ensures r == AlignmentsOf(line)
  {
    var tokens := Split(line);
    var result: map<int, seq<int>> := map[];
    ghost var ps: seq<(int, int)> := [];
    for i := 0 to |tokens|
      invariant ParsePairs(tokens[..i]) == Ok(ps) && result == Grouped(ps)
    {
      ParsePairsStep(tokens, i);
      var p := ParsePair(tokens[i]);
      if p.Err? {
        ParsePairsErrPrefix(tokens, i + 1);
        return Err(p.error);
      }
      var a, b := p.value.0, p.value.1;
      assert (ps + [p.value])[..|ps|] == ps;
      result := result[a := Lookup(result, a) + [b]];
      ps := ps + [p.value];
    }
    assert tokens[..|tokens|] == tokens;
    return Ok(result);
  }

  // ExtractAlignments

  /** Python's `s[i]`: a negative index counts from the end; `IndexError` outside. */
  function PyIndex<T>(s: seq<T>, i: int): (r: Result<T>)
    ensures r.Ok? <==> -|s| <= i < |s|
    ensures r.Ok? ==> r.value == s[if i < 0 then |s| + i else i]
    ensures r.Err? ==> r.error == IndexError
  {
    if 0 <= i < |s| then Ok(s[i])
    else if -|s| <= i < 0 then Ok(s[|s| + i])
    else Err(IndexError)
  }

  /** One more aligned English word looked up, and kept when the pair is in the whitelist. */
  function AcceptNext(acc: Result<seq<string>>, sw: string, en: Result<string>, hi: set<Pair>): Result<seq<string>>
  {
    if acc.Err? then acc
    else if en.Err? then Err(en.error)
    else if (sw, en.value) in hi then Ok(acc.value + [en.value])
    else acc
  }

  /** The translations of `sw` accepted from the English positions `ens`, in order, or the
      `IndexError` of the first position outside the English sentence. */
  function Accepted(sw: string, ens: seq<int>, enWords: seq<string>, hi: set<Pair>): (r: Result<seq<string>>)
    ensures r.Err? ==> r.error == IndexError
    decreases |ens|
  {
    if ens == [] then Ok([])
    else
      var n := |ens| - 1;
      AcceptNext(Accepted(sw, ens[..n], enWords, hi), sw, PyIndex(enWords, ens[n]), hi)
  }

  lemma AcceptedStep(sw: string, ens: seq<int>, enWords: seq<string>, hi: set<Pair>, j: nat)
    requires j < |ens|
    ensures Accepted(sw, ens[..j + 1], enWords, hi)
              == AcceptNext(Accepted(sw, ens[..j], enWords, hi), sw, PyIndex(enWords, ens[j]), hi)
  {
    assert ens[..j + 1][..j] == ens[..j];
  }

  lemma {:induction false} AcceptedErrPrefix(sw: string, ens: seq<int>, enWords: seq<string>, hi: set<Pair>, j: nat)
    requires j <= |ens| && Accepted(sw, ens[..j], enWords, hi).Err?
    ensures Accepted(sw, ens, enWords, hi) == Accepted(sw, ens[..j], enWords, hi)
    decreases |ens| - j
  {
    if j < |ens| {
      AcceptedStep(sw, ens, enWords, hi, j);
      AcceptedErrPrefix(sw, ens, enWords, hi, j + 1);
    } else {
      assert ens[..j] == ens;
    }
  }

  /** The translations fail exactly when an aligned position is outside the English sentence;
      otherwise `en` is accepted exactly when it is the English word at an aligned position and
      `(sw, en)` is in the whitelist. */
  lemma {:induction false} AcceptedMeaning(sw: string, ens: seq<int>, enWords: seq<string>, hi: set<Pair>, en: string)
    ensures Accepted(sw, ens, enWords, hi).Err? <==> exists j :: 0 <= j < |ens| && PyIndex(enWords, ens[j]).Err?
    ensures Accepted(sw, ens, enWords, hi).Ok? ==>
              (en in Accepted(sw, ens, enWords, hi).value <==>
                 (sw, en) in hi && exists j :: 0 <= j < |ens| && PyIndex(enWords, ens[j]) == Ok(en))
    decreases |ens|
  {
    if ens != [] {
      var n := |ens| - 1;
      var pre := ens[..n];
      AcceptedMeaning(sw, pre, enWords, hi, en);
      assert forall j :: 0 <= j < n ==> pre[j] == ens[j];
    }
  }

  /** The output token of `sw`: the word alone, or the word and its translations joined by
      underscores. */
  function OutToken(sw: string, ts: seq<string>): string
  {
    if ts == [] then sw else sw + "_" + Join("_", ts)
  }

  /** When neither the word nor its translations contain `_`, splitting the output token at
      `_` gives the word followed by its translations. */
  lemma OutTokenSplit(sw: string, ts: seq<string>)
    requires '_' !in sw && forall i :: 0 <= i < |ts| ==> '_' !in ts[i]
    ensures SplitOn(OutToken(sw, ts), "_") == [sw] + ts
  {
    var all := [sw] + ts;
    assert forall i :: 0 <= i < |all| ==> '_' !in all[i];
    SplitOnJoin(all, '_');
    if ts != [] {
      assert all[1..] == ts;
    } else {
      SplitOnNone(sw, '_');
    }
  }

  /** The pairs counted for `sw` and its accepted translations. */
  function PairsWith(sw: string, ts: seq<string>): (r: seq<Pair>)
    ensures |r| == |ts| && forall i :: 0 <= i < |ts| ==> r[i] == (sw, ts[i])
  {
    seq(|ts|, i requires 0 <= i < |ts| => (sw, ts[i]))
  }

  /** One more Swahili word rewritten onto the output and the pairs counted so far. */
  function ExtractNext(acc: Result<(seq<string>, seq<Pair>)>, sw: string, ts: Result<seq<string>>)
    : Result<(seq<string>, seq<Pair>)>
  {
    if acc.Err? then acc
    else if ts.Err? then Err(ts.error)
    else Ok((acc.value.0 + [OutToken(sw, ts.value)], acc.value.1 + PairsWith(sw, ts.value)))
  }

  /** The output tokens of the Swahili words and the pairs counted, in order, or the first
      `IndexError`; word `i` is aligned by `Lookup(align, i)`. */
  function Extracted(swWords: seq<string>, enWords: seq<string>, align: map<int, seq<int>>, hi: set<Pair>)
    : (r: Result<(seq<string>, seq<Pair>)>)
    ensures r.Err? ==> r.error == IndexError
    decreases |swWords|
  {
    if swWords == [] then Ok(([], []))
    else
      var n := |swWords| - 1;
      ExtractNext(Extracted(swWords[..n], enWords, align, hi), swWords[n], Accepted(swWords[n], Lookup(align, n), enWords, hi))
  }

  lemma ExtractedStep(swWords: seq<string>, enWords: seq<string>, align: map<int, seq<int>>, hi: set<Pair>, i: nat)
    requires i < |swWords|
    ensures Extracted(swWords[..i + 1], enWords, align, hi)
              == ExtractNext(Extracted(swWords[..i], enWords, align, hi), swWords[i], Accepted(swWords[i], Lookup(align, i), enWords, hi))
  {
    assert swWords[..i + 1][..i] == swWords[..i];
  }

  lemma {:induction false} ExtractedErrPrefix(swWords: seq<string>, enWords: seq<string>, align: map<int, seq<int>>, hi: set<Pair>, i: nat)
    requires i <= |swWords| && Extracted(swWords[..i], enWords, align, hi).Err?
    ensures Extracted(swWords, enWords, align, hi) == Extracted(swWords[..i], enWords, align, hi)
    decreases |swWords| - i
  {
    if i < |swWords| {
      ExtractedStep(swWords, enWords, align, hi, i);
      ExtractedErrPrefix(swWords, enWords, align, hi, i + 1);
    } else {
      assert swWords[..i] == swWords;
    }
  }

  /** `ExtractAlignments` fails exactly when the alignments of some word point outside the
      English sentence. */
  lemma {:induction false} ExtractedErr(swWords: seq<string>, enWords: seq<string>, align: map<int, seq<int>>, hi: set<Pair>)
    ensures Extracted(swWords, enWords, align, hi).Err? <==>
              exists i :: 0 <= i < |swWords| && Accepted(swWords[i], Lookup(align, i), enWords, hi).Err?
    decreases |swWords|
  {
    if swWords != [] {
      var n := |swWords| - 1;
      var pre := swWords[..n];
      ExtractedErr(pre, enWords, align, hi);
      if Extracted(pre, enWords, align, hi).Err? {
        var i :| 0 <= i < n && Accepted(pre[i], Lookup(align, i), enWords, hi).Err?;
        assert pre[i] == swWords[i];
      } else if Extracted(swWords, enWords, align, hi).Ok? {
        forall i | 0 <= i < |swWords|
          ensures Accepted(swWords[i], Lookup(align, i), enWords, hi).Ok?
        {
          if i < n {
            assert pre[i] == swWords[i];
          }
        }
      }
    }
  }

  /** When `ExtractAlignments` succeeds it returns one output token per Swahili word, in
      order: the word and its accepted translations. */
  lemma {:induction false} ExtractedOut(swWords: seq<string>, enWords: seq<string>, align: map<int, seq<int>>, hi: set<Pair>)
    requires Extracted(swWords, enWords, align, hi).Ok?
    ensures var out := Extracted(swWords, enWords, align, hi).value.0;
            |out| == |swWords|
            && forall i :: 0 <= i < |swWords| ==>
                 var ts := Accepted(swWords[i], Lookup(align, i), enWords, hi);
                 ts.Ok? && out[i] == OutToken(swWords[i], ts.value)
    decreases |swWords|
  {
    if swWords != [] {
      var n := |swWords| - 1;
      var pre := swWords[..n];
      var prev := Extracted(pre, enWords, align, hi);
      var ts := Accepted(swWords[n], Lookup(align, n), enWords, hi);
      assert Extracted(swWords, enWords, align, hi) == ExtractNext(prev, swWords[n], ts);
      assert prev.Ok? && ts.Ok?;
      ExtractedOut(pre, enWords, align, hi);
      var out := Extracted(swWords, enWords, align, hi).value.0;
      assert out == prev.value.0 + [OutToken(swWords[n], ts.value)];
      forall i | 0 <= i < n
        ensures var t := Accepted(swWords[i], Lookup(align, i), enWords, hi);
                t.Ok? && out[i] == OutToken(swWords[i], t.value)
      {
        assert pre[i] == swWords[i];
        assert out[i] == prev.value.0[i];
      }
    }
  }

  /** The inner loop over the English positions aligned to `sw`: the accepted translations,
      each counted in `projection`. */
  method Translate(sw: string, ens: seq<int>, enWords: seq<string>, hi: set<Pair>, projection: Counter<Pair>)
    returns (r: Result<seq<string>>)
    modifies projection
    ensures r == Accepted(sw, ens, enWords, hi)
    ensures r.Ok? ==> projection.counts == Counted(old(projection.counts), PairsWith(sw, r.value))
  {
    var translations: seq<string> := [];
    for j := 0 to |ens|
      invariant Accepted(sw, ens[..j], enWords, hi) == Ok(translations)
      invariant projection.counts == Counted(old(projection.counts), PairsWith(sw, translations))
    {
      AcceptedStep(sw, ens, enWords, hi, j);
      var en := PyIndex(enWords, ens[j]);
      if en.Err? {
        AcceptedErrPrefix(sw, ens, enWords, hi, j + 1);
        return Err(en.error);
      }
      if (sw, en.value) in hi {
        CountedAppend(old(projection.counts), PairsWith(sw, translations), [(sw, en.value)]);
        assert PairsWith(sw, translations + [en.value]) == PairsWith(sw, translations) + [(sw, en.value)];
        translations := translations + [en.value];
        projection.Increment((sw, en.value));
      }
    }
    assert ens[..|ens|] == ens;
    return Ok(translations);
  }

  lemma PrefixNext<T>(s: seq<T>, i: nat)
    requires i < |s|
    ensures s[..i + 1] == s[..i] + [s[i]]
  {
  }

  /** `ExtractAlignments`: the output tokens of the Swahili sentence; `sw_counter` counts
      every Swahili word and `projection_counter` every accepted pair. */
  method ExtractAlignments(swWords: seq<string>, enWords: seq<string>, align: map<int, seq<int>>, hi: set<Pair>,
                           projection: Counter<Pair>, swCounter: Counter<string>)
    returns (r: Result<seq<string>>)
    modifies projection, swCounter
    ensures r.Err? <==> Extracted(swWords, enWords, align, hi).Err?
    ensures r.Err? ==> r.error == IndexError
    ensures r.Ok? ==> r.value == Extracted(swWords, enWords, align, hi).value.0
    ensures r.Ok? ==> projection.counts == Counted(old(projection.counts), Extracted(swWords, enWords, align, hi).value.1)
    ensures r.Ok? ==> swCounter.counts == Counted(old(swCounter.counts), swWords)
  {
    var result: seq<string> := [];
    ghost var pairs: seq<Pair> := [];
    for i := 0 to |swWords|
      invariant Extracted(swWords[..i], enWords, align, hi) == Ok((result, pairs))
      invariant projection.counts == Counted(old(projection.counts), pairs)
      invariant swCounter.counts == Counted(old(swCounter.counts), swWords[..i])
    {
      ExtractedStep(swWords, enWords, align, hi, i);
      var sw := swWords[i];
      CountedAppend(old(swCounter.counts), swWords[..i], [sw]);
      PrefixNext(swWords, i);
      swCounter.Increment(sw);
      var translations := Translate(sw, Lookup(align, i), enWords, hi, projection);
      if translations.Err? {
        ExtractedErrPrefix(swWords, enWords, align, hi, i + 1);
        return Err(translations.error);
      }
      var out := sw;
      if translations.value != [] {
        out := out + "_" + Join("_", translations.value);
      }
      CountedAppend(old(projection.counts), pairs, PairsWith(sw, translations.value));
      result := result + [out];
      pairs := pairs + PairsWith(sw, translations.value);
    }
    assert swWords[..|swWords|] == swWords;
    return Ok(result);
  }

  /** After a successful `ExtractAlignments`, `projection_counter[(sw, en)]` grew by the
      number of times `en` was accepted for `sw`, and its total by the number of pairs. */
  lemma ProjectionCounts(before: map<Pair, nat>, swWords: seq<string>, enWords: seq<string>,
                         align: map<int, seq<int>>, hi: set<Pair>, p: Pair)
    requires Extracted(swWords, enWords, align, hi).Ok?
    ensures var pairs := Extracted(swWords, enWords, align, hi).value.1;
            NatGet(Counted(before, pairs), p) == NatGet(before, p) + multiset(pairs)[p]
            && NatSum(Counted(before, pairs)) == NatSum(before) + |pairs|
  {
    var pairs := Extracted(swWords, enWords, align, hi).value.1;
    CountedAt(before, pairs, p);
    CountedSum(before, pairs);
  }

  /** The pairs counted are all in the whitelist. */
  lemma {:induction false} ExtractedPairsWhitelisted(swWords: seq<string>, enWords: seq<string>,
                                                     align: map<int, seq<int>>, hi: set<Pair>)
    requires Extracted(swWords, enWords, align, hi).Ok?
    ensures forall k :: 0 <= k < |Extracted(swWords, enWords, align, hi).value.1| ==>
              Extracted(swWords, enWords, align, hi).value.1[k] in hi
    decreases |swWords|
  {
    if swWords != [] {
      var n := |swWords| - 1;
      ExtractedPairsWhitelisted(swWords[..n], enWords, align, hi);
      var ts := Accepted(swWords[n], Lookup(align, n), enWords, hi).value;
      forall t | t in ts
        ensures (swWords[n], t) in hi
      {
        AcceptedMeaning(swWords[n], Lookup(align, n), enWords, hi, t);
      }
    }
  }
}
