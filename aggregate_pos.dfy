/** `aggregate_pos.py`: the part-of-speech tags of a tagged corpus counted per word, and the
    counts turned into relative frequencies. */
module AggregatePos {
  import opened Wrappers
  import opened Sums
  import opened Strings
  import opened Counters

  /** `POS_CONVERSIONS`: plural nouns are counted as nouns. */
  const PosConversions: map<string, string> := map["NNS" := "NN"]

  /** `POS_CONVERSIONS.get(tag, tag)`. */
  function Converted(tag: string): string
  {
    if tag in PosConversions then PosConversions[tag] else tag
  }

  /** Only `NNS` is rewritten, to `NN`, so `NNS` never comes out. */
  lemma ConvertedMeaning(tag: string)
    ensures Converted(tag) != "NNS"
    ensures tag != "NNS" ==> Converted(tag) == tag
    ensures tag == "NNS" ==> Converted(tag) == "NN"
  {
  }

  /** word -> tag -> count: the `defaultdict(Counter)` built by `CountPosTags`. */
  type Counts = map<string, map<string, nat>>

  /** The counter of `w`, empty while `w` has not been seen. */
  function Inner(c: Counts, w: string): map<string, nat>
  {
    if w in c then c[w] else map[]
  }

  /** `result[w][t] += 1`. */
  function Bump(c: Counts, w: string, t: string): Counts
  {
    c[w := Counted(Inner(c, w), [t])]
  }

  /** A token after splitting: its word and tag, or the error of its unpacking. */
  type Tag = Result<(string, string)>

  /** `word, pos_tag = token.rsplit("_", 1)`, then the word lower-cased and the tag
      converted; a token without `_` splits into one part, which cannot be unpacked into two
      names. */
  function Tagged(token: string): Tag
  {
    var parts := RSplitOnce(token, '_');
    if |parts| != 2 then Err(ValueError) else Ok((Lower(parts[0]), Converted(parts[1])))
  }

  /** Only a token without `_` fails, with `ValueError`, and no tag comes out as `NNS`. */
  lemma TaggedErr(token: string)
    ensures Tagged(token).Err? <==> '_' !in token
    ensures Tagged(token).Err? ==> Tagged(token).error == ValueError
    ensures Tagged(token).Ok? ==> Tagged(token).value.1 != "NNS"
  {
    RSplitOnceMeaning(token, '_');
    var parts := RSplitOnce(token, '_');
    if |parts| == 2 {
      ConvertedMeaning(parts[1]);
    }
  }

  /** A token splits at its LAST underscore: the word is everything before it, lower-cased,
      and the tag everything after it, converted. */
  lemma TaggedMeaning(token: string)
    requires '_' in token
    ensures exists i :: 0 <= i < |token| && token[i] == '_' && '_' !in token[i + 1..]
              && Tagged(token) == Ok((Lower(token[..i]), Converted(token[i + 1..])))
  {
    RSplitOnceMeaning(token, '_');
    var parts := RSplitOnce(token, '_');
    var i := |parts[0]|;
    assert token[..i] == parts[0] && token[i + 1..] == parts[1];
  }

  /** The whitespace-separated tokens of the lines, line after line (`line.split()`). */
  function Tokens(lines: seq<string>): seq<string>
    decreases |lines|
  {
    if lines == [] then [] else Split(lines[0]) + Tokens(lines[1..])
  }

  /** One more token counted, or the first error kept. */
  function TallyNext(acc: Result<Counts>, g: Tag): Result<Counts>
  {
    if acc.Err? then acc
    else if g.Err? then Err(g.error)
    else Ok(Bump(acc.value, g.value.0, g.value.1))
  }

  /** The split tokens `gs` counted in order onto `acc`; the first error stops the counting. */
  function CountTags(acc: Result<Counts>, gs: seq<Tag>): Result<Counts>
    decreases |gs|
  {
    if gs == [] then acc else CountTags(TallyNext(acc, gs[0]), gs[1..])
  }

  /** After an error nothing more is counted. */
  lemma {:induction false} CountTagsErr(acc: Result<Counts>, gs: seq<Tag>)
    ensures acc.Err? ==> CountTags(acc, gs) == acc
    decreases |gs|
  {
    if gs != [] {
      CountTagsErr(TallyNext(acc, gs[0]), gs[1..]);
    }
  }

  lemma {:induction false} CountTagsAppend(acc: Result<Counts>, a: seq<Tag>, b: seq<Tag>)
    ensures CountTags(acc, a + b) == CountTags(CountTags(acc, a), b)
    decreases |a|
  {
    if a == [] {
      assert a + b == b;
    } else {
      assert (a + b)[0] == a[0] && (a + b)[1..] == a[1..] + b;
      CountTagsAppend(TallyNext(acc, a[0]), a[1..], b);
    }
  }

  /** Counting fails exactly when some token failed to split, and then with that token's
      error. */
  lemma {:induction false} CountTagsFails(acc: Result<Counts>, gs: seq<Tag>)
    requires acc.Ok?
    ensures CountTags(acc, gs).Err? <==> exists i :: 0 <= i < |gs| && gs[i].Err?
    ensures CountTags(acc, gs).Err? ==> exists i :: 0 <= i < |gs| && gs[i] == Err(CountTags(acc, gs).error)
    decreases |gs|
  {
    if gs != [] {
      var next := TallyNext(acc, gs[0]);
      var rest := gs[1..];
      if next.Err? {
        CountTagsErr(next, rest);
      } else {
        CountTagsFails(next, rest);
        if exists i :: 0 <= i < |gs| && gs[i].Err? {
          var i :| 0 <= i < |gs| && gs[i].Err?;
          assert rest[i - 1] == gs[i];
        }
        if CountTags(next, rest).Err? {
          var i :| 0 <= i < |rest| && rest[i] == Err(CountTags(next, rest).error);
          assert gs[i + 1] == rest[i];
        }
      }
    }
  }

  /** Each count grows by the number of tokens with that word and that tag. */
  lemma {:induction false} CountTagsAt(acc: Result<Counts>, gs: seq<Tag>, w: string, t: string)
    requires acc.Ok? && CountTags(acc, gs).Ok?
    ensures NatGet(Inner(CountTags(acc, gs).value, w), t)
              == NatGet(Inner(acc.value, w), t) + multiset(gs)[Ok((w, t))]
    decreases |gs|
  {
    if gs != [] {
      var next := TallyNext(acc, gs[0]);
      var g := gs[0];
      CountTagsErr(next, gs[1..]);
      assert next.Ok?;
      CountTagsAt(next, gs[1..], w, t);
      assert gs == [g] + gs[1..];
      if w == g.value.0 {
        CountedAt(Inner(acc.value, w), [g.value.1], t);
      }
    }
  }

  /** Every counted word has a non-empty counter of positive counts without an `NNS` key. */
  predicate WellFormed(c: Counts)
  {
    forall w :: w in c ==> c[w] != map[] && "NNS" !in c[w] && forall t :: t in c[w] ==> c[w][t] > 0
  }

  lemma {:induction false} CountTagsWellFormed(acc: Result<Counts>, gs: seq<Tag>)
    requires forall i :: 0 <= i < |gs| ==> gs[i].Ok? ==> gs[i].value.1 != "NNS"
    requires acc.Ok? && WellFormed(acc.value) && CountTags(acc, gs).Ok?
    ensures WellFormed(CountTags(acc, gs).value)
    decreases |gs|
  {
    if gs != [] {
      var next := TallyNext(acc, gs[0]);
      var g := gs[0];
      CountTagsErr(next, gs[1..]);
      assert next.Ok?;
      CountedOne(Inner(acc.value, g.value.0), g.value.1);
      assert forall i :: 0 <= i < |gs| - 1 ==> gs[1..][i] == gs[i + 1];
      CountTagsWellFormed(next, gs[1..]);
    }
  }

  /** `sum(counts.values())` of every word. */
  ghost function Totals(c: Counts): (r: map<string, nat>)
    ensures r.Keys == c.Keys
  {
    map w | w in c :: NatSum(c[w])
  }

  /** One increment adds one to the total. */
  lemma BumpTotal(c: Counts, w: string, t: string)
    ensures NatSum(Totals(Bump(c, w, t))) == NatSum(Totals(c)) + 1
  {
    var inner := Inner(c, w);
    CountedSum(inner, [t]);
    assert Totals(Bump(c, w, t)) == Totals(c)[w := NatSum(inner) + 1];
    NatSumUpdate(Totals(c), w, NatSum(inner) + 1);
    assert NatGet(Totals(c), w) == NatSum(inner);
  }

  /** Every token counted adds one to the total. */
  lemma {:induction false} CountTagsTotal(acc: Result<Counts>, gs: seq<Tag>)
    requires acc.Ok? && CountTags(acc, gs).Ok?
    ensures NatSum(Totals(CountTags(acc, gs).value)) == NatSum(Totals(acc.value)) + |gs|
    decreases |gs|
  {
    if gs != [] {
      var next := TallyNext(acc, gs[0]);
      var g := gs[0];
      CountTagsErr(next, gs[1..]);
      assert next.Ok?;
      CountTagsTotal(next, gs[1..]);
      BumpTotal(acc.value, g.value.0, g.value.1);
    }
  }

  /** The tagged form of every token, in order. */
  function TagsOf(ts: seq<string>): (r: seq<Tag>)
    ensures |r| == |ts|
  {
    seq(|ts|, i requires 0 <= i < |ts| => Tagged(ts[i]))
  }

  lemma TagsOfAppend(a: seq<string>, b: seq<string>)
    ensures TagsOf(a + b) == TagsOf(a) + TagsOf(b)
  {
  }

  /** `CountPosTags` on a sequence of tokens. */
  function Tally(ts: seq<string>): Result<Counts>
  {
    CountTags(Ok(map[]), TagsOf(ts))
  }

  /** `CountPosTags` fails, with `ValueError`, exactly when some token has no `_`. */
  lemma TallyErr(ts: seq<string>)
    ensures Tally(ts).Err? <==> exists i :: 0 <= i < |ts| && '_' !in ts[i]
    ensures Tally(ts).Err? ==> Tally(ts).error == ValueError
  {
    var gs := TagsOf(ts);
    CountTagsFails(Ok(map[]), gs);
    if Tally(ts).Err? {
      var i :| 0 <= i < |gs| && gs[i] == Err(Tally(ts).error);
      TaggedErr(ts[i]);
    } else {
      forall i | 0 <= i < |ts|
        ensures '_' in ts[i]
      {
        assert gs[i].Ok?;
        TaggedErr(ts[i]);
      }
    }
  }

  /** The count of tag `t` for word `w` is the number of tokens whose word lower-cases to
      `w` and whose tag converts to `t`. */
  lemma TallyAt(ts: seq<string>, w: string, t: string)
    requires Tally(ts).Ok?
    ensures NatGet(Inner(Tally(ts).value, w), t) == multiset(TagsOf(ts))[Ok((w, t))]
  {
    CountTagsAt(Ok(map[]), TagsOf(ts), w, t);
  }

  /** Every counted word has at least one tag, every count is positive, and `NNS` is never
      a tag. */
  lemma TallyWellFormed(ts: seq<string>)
    requires Tally(ts).Ok?
    ensures WellFormed(Tally(ts).value)
  {
    var gs := TagsOf(ts);
    forall i | 0 <= i < |gs|
      ensures gs[i].Ok? ==> gs[i].value.1 != "NNS"
    {
      TaggedErr(ts[i]);
    }
    CountTagsWellFormed(Ok(map[]), gs);
  }

  /** A tag is a key of a word's counter exactly when some token carries that word and that
      tag. */
  lemma TallyKeys(ts: seq<string>, w: string, t: string)
    requires Tally(ts).Ok?
    ensures t in Inner(Tally(ts).value, w) <==> Ok((w, t)) in TagsOf(ts)
  {
    TallyAt(ts, w, t);
    TallyWellFormed(ts);
  }

  /** The counts of all the words add up to the number of tokens. */
  lemma TallyTotal(ts: seq<string>)
    requires Tally(ts).Ok?
    ensures NatSum(Totals(Tally(ts).value)) == |ts|
  {
    CountTagsTotal(Ok(map[]), TagsOf(ts));
    assert Totals(map[]) == map[];
  }

  /** One token of `CountPosTags`: split, lower-cased, converted and counted. */
  method CountToken(counted: Counts, token: string) returns (r: Result<Counts>)
    ensures r == TallyNext(Ok(counted), Tagged(token))
  {
    var parts := RSplitOnce(token, '_');
    if |parts| != 2 {
      return Err(ValueError);
    }
    var word := Lower(parts[0]);
    var tag := Converted(parts[1]);
    var counts: map<string, nat> := if word in counted then counted[word] else map[];
    CountedOne(counts, tag);
    return Ok(counted[word := counts[tag := NatGet(counts, tag) + 1]]);
  }

  /** The inner loop of `CountPosTags`: the tokens of one line counted into `result`. */
  method CountTokens(result: Counts, tokens: seq<string>) returns (r: Result<Counts>)
    ensures r == CountTags(Ok(result), TagsOf(tokens))
  {
    var counted := result;
    assert tokens[0..] == tokens;
    for j := 0 to |tokens|
      invariant CountTags(Ok(counted), TagsOf(tokens[j..])) == CountTags(Ok(result), TagsOf(tokens))
    {
      ghost var rest := TagsOf(tokens[j + 1..]);
      ghost var g := Tagged(tokens[j]);
      assert TagsOf(tokens[j..]) == [g] + rest;
      assert ([g] + rest)[0] == g && ([g] + rest)[1..] == rest;
      var next := CountToken(counted, tokens[j]);
      if next.Err? {
        CountTagsErr(next, rest);
        return next;
      }
      counted := next.value;
    }
    assert tokens[|tokens|..] == [];
    return Ok(counted);
  }

  /** `CountPosTags` over the lines of the tagged corpus. */
  method CountPosTags(lines: seq<string>) returns (r: Result<Counts>)
    ensures r == Tally(Tokens(lines))
  {
    var result: Counts := map[];
    assert lines[0..] == lines;
    for i := 0 to |lines|
      invariant CountTags(Ok(result), TagsOf(Tokens(lines[i..]))) == Tally(Tokens(lines))
    {
      var tokens := Split(lines[i]);
      ghost var rest := TagsOf(Tokens(lines[i + 1..]));
      assert lines[i..][1..] == lines[i + 1..];
      TagsOfAppend(tokens, Tokens(lines[i + 1..]));
      CountTagsAppend(Ok(result), TagsOf(tokens), rest);
      var next := CountTokens(result, tokens);
      if next.Err? {
        CountTagsErr(next, rest);
        return next;
      }
      result := next.value;
    }
    assert lines[|lines|..] == [];
    return Ok(result);
  }

  /** `sum(counts.values())`. */
  method Total(counts: map<string, nat>) returns (total: nat)
    ensures total == NatSum(counts)
  {
    total := 0;
    var todo := counts.Keys;
    while todo != {}
      invariant todo <= counts.Keys
      invariant total == NatSum(counts - todo)
      decreases todo
    {
      var t :| t in todo;
      var done := counts - (todo - {t});
      NatSumRemove(done, t);
      assert done - {t} == counts - todo;
      total := total + counts[t];
      todo := todo - {t};
    }
    assert counts - todo == counts;
  }

  /** The relative frequencies of one word's tags, `count / total`; the first division fails
      when the counter has keys but adds up to 0, and an empty counter gives an empty
      dictionary without dividing. */
  ghost function Frequencies(counts: map<string, nat>): Result<map<string, real>>
  {
    if counts == map[] then Ok(map[])
    else if NatSum(counts) == 0 then Err(ZeroDivisionError)
    else Ok(Divided(counts, NatSum(counts) as real))
  }

  /** `AggregatePosTags`: the frequencies of every word, or `ZeroDivisionError` when some
      word's counter fails. */
  ghost function Aggregated(c: Counts): Result<map<string, map<string, real>>>
  {
    if exists w :: w in c && Frequencies(c[w]).Err? then Err(ZeroDivisionError)
    else Ok(map w | w in c :: Frequencies(c[w]).value)
  }

  /** The frequencies keep the tags, give each its share of the total, and add up to 1. */
  lemma FrequenciesMeaning(counts: map<string, nat>)
    requires Frequencies(counts).Ok?
    ensures var f := Frequencies(counts).value;
            && f.Keys == counts.Keys
            && (forall t :: t in f ==> f[t] == Div(counts[t] as real, NatSum(counts) as real))
            && (counts != map[] ==> RealSum(f) == 1.0)
  {
    if counts != map[] {
      NatSumDivided(counts, NatSum(counts) as real);
      DivSelf(NatSum(counts) as real);
    }
  }

  /** `AggregatePosTags` keeps the words and the tags of each word, and every non-empty
      distribution adds up to 1. */
  lemma AggregatedMeaning(c: Counts, w: string)
    requires Aggregated(c).Ok? && w in c
    ensures var a := Aggregated(c).value;
            && a.Keys == c.Keys
            && a[w].Keys == c[w].Keys
            && (forall t :: t in c[w] ==> a[w][t] == Div(c[w][t] as real, NatSum(c[w]) as real))
            && (c[w] != map[] ==> RealSum(a[w]) == 1.0)
  {
    FrequenciesMeaning(c[w]);
  }

  /** Counts built by `CountPosTags` never make `AggregatePosTags` divide by zero, and every
      word's frequencies add up to 1. */
  lemma CountThenAggregate(ts: seq<string>, w: string)
    requires Tally(ts).Ok? && w in Tally(ts).value
    ensures Aggregated(Tally(ts).value).Ok?
    ensures RealSum(Aggregated(Tally(ts).value).value[w]) == 1.0
  {
    var c := Tally(ts).value;
    TallyWellFormed(ts);
    forall v | v in c
      ensures Frequencies(c[v]).Ok?
    {
      var t :| t in c[v];
      NatSumPositive(c[v], t);
    }
    AggregatedMeaning(c, w);
  }

  /** `AggregatePosTags`: one word after another, each divided by its own total. */
  method AggregatePosTags(all: Counts) returns (r: Result<map<string, map<string, real>>>)
    ensures r == Aggregated(all)
  {
    var result: map<string, map<string, real>> := map[];
    var todo := all.Keys;
    while todo != {}
      invariant todo <= all.Keys
      invariant result.Keys == all.Keys - todo
      invariant forall w :: w in result ==> Frequencies(all[w]) == Ok(result[w])
      decreases todo
    {
      var w :| w in todo;
      var counts := all[w];
      var total := Total(counts);
      if counts != map[] && total == 0 {
        assert Frequencies(all[w]).Err?;
        return Err(ZeroDivisionError);
      }
      var freq := if total == 0 then map[] else Divided(counts, total as real);
      result := result[w := freq];
      todo := todo - {w};
    }
    assert result == map w | w in all :: Frequencies(all[w]).value;
    return Ok(result);
  }
}
