/** The foreign-language feature graph of src/graph_f.py (after Das and Petrov, "Unsupervised
    part-of-speech tagging with bilingual graph-based projections", ACL 2011): one vertex per
    trigram of the corpus, holding counts of the contexts of the trigram's 5-gram windows
    in eight sparse channels, and one vertex aggregating the whole corpus. */
module GraphF {
  import opened Wrappers
  import opened Sums
  import opened Strings

  /** A Python tuple of tokens. */
  type Gram = seq<string>

  /** A `defaultdict(float)` channel; `Update` only ever adds 1, so the values are counts. */
  type Channel = map<Gram, nat>

  const PadStart: string := "PAD_START"
  const PadEnd: string := "PAD_END"

  // The keys at which `Update(g)` increments the channels, one per channel

  function TrigramContextKey(g: Gram): Gram requires |g| >= 5 { [g[0], g[|g| - 1]] }
  function LeftContextKey(g: Gram): Gram requires |g| >= 5 { g[..2] }
  function RightContextKey(g: Gram): Gram requires |g| >= 5 { g[|g| - 2..] }
  function CenterWordKey(g: Gram): Gram requires |g| >= 5 { [g[2]] }
  function TrigramMinusCenterKey(g: Gram): Gram requires |g| >= 5 { [g[1], g[3]] }
  function LeftWordPlusRightContextKey(g: Gram): Gram requires |g| >= 5 { [g[1], g[3], g[4]] }
  function LeftContextPlusRightWordKey(g: Gram): Gram requires |g| >= 5 { [g[0], g[1], g[3]] }
  const OtherFeaturesKey: Gram := ["trigram"]

  /** The key at which `Update(g)` increments channel `i`, in the order of `GetDicts`. */
  function TemplateKey(g: Gram, i: nat): Gram
    requires |g| >= 5 && i < 8
  {
    if i == 0 then TrigramContextKey(g)
    else if i == 1 then LeftContextKey(g)
    else if i == 2 then RightContextKey(g)
    else if i == 3 then CenterWordKey(g)
    else if i == 4 then TrigramMinusCenterKey(g)
    else if i == 5 then LeftWordPlusRightContextKey(g)
    else if i == 6 then LeftContextPlusRightWordKey(g)
    else OtherFeaturesKey
  }

  /** One more occurrence of `key`. */
  function Inc(m: Channel, key: Gram): Channel
  {
    m[key := NatGet(m, key) + 1]
  }

  /** An increment adds one at its key and nothing elsewhere. */
  lemma IncAt(m: Channel, key: Gram, x: Gram)
    ensures NatGet(Inc(m, key), x) == NatGet(m, x) + (if x == key then 1 else 0)
  {
  }

  /** The eight channels of a vertex. */
  datatype Channels = Channels(
    trigramContext: Channel, leftContext: Channel, rightContext: Channel, centerWord: Channel,
    trigramMinusCenter: Channel, leftWordPlusRightContext: Channel,
    leftContextPlusRightWord: Channel, otherFeatures: Channel)
  {
    /** Channel `i` in the order of `GetDicts`. */
    function At(i: nat): Channel
      requires i < 8
    {
      if i == 0 then trigramContext
      else if i == 1 then leftContext
      else if i == 2 then rightContext
      else if i == 3 then centerWord
      else if i == 4 then trigramMinusCenter
      else if i == 5 then leftWordPlusRightContext
      else if i == 6 then leftContextPlusRightWord
      else otherFeatures
    }
  }

  const NoChannels: Channels := Channels(map[], map[], map[], map[], map[], map[], map[], map[])

  /** The value of a vertex: its name, its count and its channels. */
  datatype Features = Features(name: Option<Gram>, count: nat, channels: Channels)

  const EmptyFeatures: Features := Features(None, 0, NoChannels)

  /** The value of a vertex after `Update(g)`. */
  function Updated(f: Features, g: Gram): (r: Features)
    requires |g| >= 5
    ensures r.name == Some(g[1..|g| - 1]) && r.count == f.count + 1
  {
    var c := f.channels;
    Features(Some(g[1..|g| - 1]), f.count + 1,
      Channels(
        Inc(c.trigramContext, TrigramContextKey(g)), Inc(c.leftContext, LeftContextKey(g)),
        Inc(c.rightContext, RightContextKey(g)), Inc(c.centerWord, CenterWordKey(g)),
        Inc(c.trigramMinusCenter, TrigramMinusCenterKey(g)),
        Inc(c.leftWordPlusRightContext, LeftWordPlusRightContextKey(g)),
        Inc(c.leftContextPlusRightWord, LeftContextPlusRightWordKey(g)),
        Inc(c.otherFeatures, OtherFeaturesKey)))
  }

  lemma UpdatedChannel(f: Features, g: Gram, i: nat)
    requires |g| >= 5 && i < 8
    ensures Updated(f, g).channels.At(i) == Inc(f.channels.At(i), TemplateKey(g, i))
  {
    var c, c' := f.channels, Updated(f, g).channels;
    if i == 0 { assert c'.At(0) == c'.trigramContext; }
    else if i == 1 { assert c'.At(1) == c'.leftContext; }
    else if i == 2 { assert c'.At(2) == c'.rightContext; }
    else if i == 3 { assert c'.At(3) == c'.centerWord; }
    else if i == 4 { assert c'.At(4) == c'.trigramMinusCenter; }
    else if i == 5 { assert c'.At(5) == c'.leftWordPlusRightContext; }
    else if i == 6 { assert c'.At(6) == c'.leftContextPlusRightWord; }
    else { assert c'.At(7) == c'.otherFeatures; }
  }

  /** `Update(g)` adds exactly one to every channel at its template key and changes no other
      key of any channel. */
  lemma UpdatedAt(f: Features, g: Gram, i: nat, x: Gram)
    requires |g| >= 5 && i < 8
    ensures NatGet(Updated(f, g).channels.At(i), x)
              == NatGet(f.channels.At(i), x) + (if x == TemplateKey(g, i) then 1 else 0)
  {
    UpdatedChannel(f, g, i);
    IncAt(f.channels.At(i), TemplateKey(g, i), x);
  }

  /** Every channel sums to the count. */
  ghost predicate Consistent(f: Features)
  {
    forall i :: 0 <= i < 8 ==> NatSum(f.channels.At(i)) == f.count
  }

  /** `Update` keeps every channel summing to the count. */
  lemma UpdatedConsistent(f: Features, g: Gram)
    requires Consistent(f) && |g| >= 5
    ensures Consistent(Updated(f, g))
  {
    forall i | 0 <= i < 8 ensures NatSum(Updated(f, g).channels.At(i)) == f.count + 1 {
      UpdatedChannel(f, g, i);
      NatSumIncrement(f.channels.At(i), TemplateKey(g, i));
    }
  }

  /** The value of a vertex after the updates `gs`, in order. */
  function UpdatedSeq(f: Features, gs: seq<Gram>): Features
    requires AllFive(gs)
    decreases |gs|
  {
    if gs == [] then f else Updated(UpdatedSeq(f, gs[..|gs| - 1]), gs[|gs| - 1])
  }

  /** One more update extends the fold by one step. */
  lemma UpdatedSeqStep(f: Features, gs: seq<Gram>, i: nat)
    requires AllFive(gs) && i < |gs|
    ensures AllFive(gs[..i]) && AllFive(gs[..i + 1])
    ensures UpdatedSeq(f, gs[..i + 1]) == Updated(UpdatedSeq(f, gs[..i]), gs[i])
  {
    assert gs[..i + 1][..i] == gs[..i];
  }

  /** Updating with `a` and then with `b` is updating with `a + b`. */
  lemma {:induction false} UpdatedSeqAppend(f: Features, a: seq<Gram>, b: seq<Gram>)
    requires AllFive(a) && AllFive(b)
    ensures AllFive(a + b) && UpdatedSeq(f, a + b) == UpdatedSeq(UpdatedSeq(f, a), b)
    decreases |b|
  {
    if b == [] {
      assert a + b == a;
    } else {
      var n := |b| - 1;
      assert (a + b)[..|a + b| - 1] == a + b[..n];
      UpdatedSeqAppend(f, a, b[..n]);
    }
  }

  /** Updates keep every channel summing to the count, and each adds one to the count; so a
      vertex built by `Vertex()` and `Update` calls counts every update once. */
  lemma {:induction false} UpdatedSeqConsistent(f: Features, gs: seq<Gram>)
    requires Consistent(f) && AllFive(gs)
    ensures Consistent(UpdatedSeq(f, gs)) && UpdatedSeq(f, gs).count == f.count + |gs|
    decreases |gs|
  {
    if gs != [] {
      assert AllFive(gs[..|gs| - 1]);
      UpdatedSeqConsistent(f, gs[..|gs| - 1]);
      UpdatedConsistent(UpdatedSeq(f, gs[..|gs| - 1]), gs[|gs| - 1]);
    }
  }

  /** A new vertex is consistent: every channel is empty and the count is zero. */
  lemma EmptyConsistent()
    ensures Consistent(EmptyFeatures)
  {
    forall i | 0 <= i < 8 ensures NatSum(EmptyFeatures.channels.At(i)) == 0 {
      assert EmptyFeatures.channels.At(i) == map[];
    }
  }

  /** A vertex built by `Vertex()` and the updates `gs` has count `|gs|`, and each of its
      channels sums to that count. */
  lemma BuiltConsistent(gs: seq<Gram>)
    requires AllFive(gs)
    ensures Consistent(UpdatedSeq(EmptyFeatures, gs)) && UpdatedSeq(EmptyFeatures, gs).count == |gs|
  {
    EmptyConsistent();
    UpdatedSeqConsistent(EmptyFeatures, gs);
  }

  // The order of vertices

  /** `a < b` on tuples of strings: the first differing element decides, and a proper prefix
      comes first. */
  predicate TupleLess(a: Gram, b: Gram)
    decreases |a|
  {
    if a == [] then b != []
    else if b == [] then false
    else StrLess(a[0], b[0]) || (a[0] == b[0] && TupleLess(a[1..], b[1..]))
  }

  lemma {:induction false} TupleLessIrreflexive(a: Gram)
    ensures !TupleLess(a, a)
    decreases |a|
  {
    if a != [] {
      StrLessIrreflexive(a[0]);
      TupleLessIrreflexive(a[1..]);
    }
  }

  lemma {:induction false} TupleLessTransitive(a: Gram, b: Gram, c: Gram)
    requires TupleLess(a, b) && TupleLess(b, c)
    ensures TupleLess(a, c)
    decreases |a|
  {
    if a != [] {
      if StrLess(a[0], b[0]) && StrLess(b[0], c[0]) {
        StrLessTransitive(a[0], b[0], c[0]);
      } else if a[0] == b[0] && b[0] == c[0] {
        TupleLessTransitive(a[1..], b[1..], c[1..]);
      }
    }
  }

  /** Any two different names are ordered one way or the other. */
  lemma {:induction false} TupleLessTotal(a: Gram, b: Gram)
    requires a != b
    ensures TupleLess(a, b) || TupleLess(b, a)
    decreases |a|
  {
    if a != [] && b != [] {
      if a[0] != b[0] {
        StrLessTotal(a[0], b[0]);
      } else {
        assert a == [a[0]] + a[1..] && b == [b[0]] + b[1..];
        TupleLessTotal(a[1..], b[1..]);
      }
    }
  }

  /** `Vertex`: a trigram's name, its number of occurrences and its eight context channels. */
  class Vertex {
    var name: Option<Gram>
    var count: nat
    var channels: Channels

    /** `Vertex()`: no name, a zero count and empty channels. */
    constructor ()
      ensures State() == EmptyFeatures
    {
      name := None;
      count := 0;
      channels := NoChannels;
    }

    /** `GetDicts`: the eight channels, in the order of `TemplateKey`. */
    function GetDicts(): (r: seq<Channel>)
      reads this
      ensures |r| == 8 && forall i :: 0 <= i < 8 ==> r[i] == channels.At(i)
    {
      [ channels.trigramContext, channels.leftContext, channels.rightContext,
        channels.centerWord, channels.trigramMinusCenter, channels.leftWordPlusRightContext,
        channels.leftContextPlusRightWord, channels.otherFeatures ]
    }

    /** The value of the vertex. */
    ghost function State(): Features
      reads this
    {
      Features(name, count, channels)
    }

    /** `Update(five_gram)`: the name becomes the middle of the 5-gram, the count grows by one
        and every channel by one at its template key. */
    method Update(g: Gram)
      requires |g| >= 5
      modifies this
      ensures State() == Updated(old(State()), g)
    {
      name := Some(g[1..|g| - 1]);
      count := count + 1;
      var c := channels;
      channels := Channels(
        Inc(c.trigramContext, TrigramContextKey(g)), Inc(c.leftContext, LeftContextKey(g)),
        Inc(c.rightContext, RightContextKey(g)), Inc(c.centerWord, CenterWordKey(g)),
        Inc(c.trigramMinusCenter, TrigramMinusCenterKey(g)),
        Inc(c.leftWordPlusRightContext, LeftWordPlusRightContextKey(g)),
        Inc(c.leftContextPlusRightWord, LeftContextPlusRightWordKey(g)),
        Inc(c.otherFeatures, OtherFeaturesKey));
    }

    /** `__lt__`: the order of the names, and a `TypeError` when either name is still `None`. */
    function Lt(other: Vertex): (r: Result<bool>)
      reads this, other
      ensures r.Err? <==> name.None? || other.name.None?
      ensures r.Ok? ==> (r.value <==> TupleLess(name.value, other.name.value))
    {
      if name.Some? && other.name.Some? then Ok(TupleLess(name.value, other.name.value))
      else Err(TypeError)
    }
  }

  // LineToNgrams

  /** The token line with two start and two end markers. */
  function Padded(line: string): seq<string>
  {
    [PadStart, PadStart] + Split(line) + [PadEnd, PadEnd]
  }

  /** `zip(*[p[i:] for i in range(n)])`: the windows of `n` consecutive elements. */
  function Windows(p: seq<string>, n: nat): seq<Gram>
    decreases |p|
  {
    if n == 0 || |p| < n then [] else [p[..n]] + Windows(p[1..], n)
  }

  lemma {:induction false} WindowsAt(p: seq<string>, n: nat)
    ensures |Windows(p, n)| == if n == 0 || |p| < n then 0 else |p| - n + 1
    ensures forall i :: 0 <= i < |Windows(p, n)| ==> Windows(p, n)[i] == p[i..i + n]
    decreases |p|
  {
    if n > 0 && |p| >= n {
      WindowsAt(p[1..], n);
      forall i | 1 <= i < |Windows(p, n)| ensures Windows(p, n)[i] == p[i..i + n] {
        assert Windows(p, n)[i] == Windows(p[1..], n)[i - 1];
        assert p[1..][i - 1..i - 1 + n] == p[i..i + n];
      }
    }
  }

  /** `LineToNgrams(line, n)`. */
  function LineToNgrams(line: string, n: nat): seq<Gram>
  {
    Windows(Padded(line), n)
  }

  /** There are `len(tokens) + 4 - n + 1` windows, each `n` consecutive elements of the
      padded line. */
  lemma NgramsShape(line: string, n: nat)
    requires 0 < n <= 5
    ensures |LineToNgrams(line, n)| == |Split(line)| + 5 - n
    ensures forall i :: 0 <= i < |LineToNgrams(line, n)| ==>
              LineToNgrams(line, n)[i] == Padded(line)[i..i + n]
  {
    WindowsAt(Padded(line), n);
  }

  /** For 5-grams there is one window per token, with the token in the middle. */
  lemma FiveGrams(line: string)
    ensures |LineToNgrams(line, 5)| == |Split(line)|
    ensures forall i :: 0 <= i < |Split(line)| ==>
              |LineToNgrams(line, 5)[i]| == 5 && LineToNgrams(line, 5)[i][2] == Split(line)[i]
  {
    var p, ts := Padded(line), Split(line);
    NgramsShape(line, 5);
    forall i | 0 <= i < |ts| ensures LineToNgrams(line, 5)[i][2] == ts[i] {
      assert LineToNgrams(line, 5)[i][2] == p[i + 2];
    }
  }

  // The key encoding of dumps/loads

  /** `" ".join(k)`. */
  function EncodeKey(k: Gram): string
  {
    Join(" ", k)
  }

  /** `tuple(s.split())`. */
  function DecodeKey(s: string): Gram
  {
    Split(s)
  }

  /** `StrDict(d)` over the items of `d` in iteration order; a later key overwrites an earlier
      one with the same encoding. */
  function StrDict<V>(items: seq<(Gram, V)>): map<string, V>
    decreases |items|
  {
    if items == [] then map[]
    else
      var n := |items| - 1;
      StrDict(items[..n])[EncodeKey(items[n].0) := items[n].1]
  }

  /** `TupleDict(d)` over the items of `d` in iteration order. */
  function TupleDict<V>(items: seq<(string, V)>): map<Gram, V>
    decreases |items|
  {
    if items == [] then map[]
    else
      var n := |items| - 1;
      TupleDict(items[..n])[DecodeKey(items[n].0) := items[n].1]
  }

  /** The dictionary a sequence of items builds, a later item winning. */
  function DictOf<K, V>(items: seq<(K, V)>): map<K, V>
    decreases |items|
  {
    if items == [] then map[]
    else
      var n := |items| - 1;
      DictOf(items[..n])[items[n].0 := items[n].1]
  }

  /** The items `StrDict` writes, in order. */
  function Encoded<V>(items: seq<(Gram, V)>): (r: seq<(string, V)>)
    ensures |r| == |items|
    ensures forall i :: 0 <= i < |items| ==> r[i] == (EncodeKey(items[i].0), items[i].1)
  {
    seq(|items|, i requires 0 <= i < |items| => (EncodeKey(items[i].0), items[i].1))
  }

  /** Keys whose tokens came from `split()`. */
  ghost predicate TokenKeys<V>(items: seq<(Gram, V)>)
  {
    forall i, j :: 0 <= i < |items| && 0 <= j < |items[i].0| ==> IsToken(items[i].0[j])
  }

  /** `StrDict` writes exactly the dictionary of the encoded items. */
  lemma {:induction false} StrDictWrites<V>(items: seq<(Gram, V)>)
    ensures StrDict(items) == DictOf(Encoded(items))
    decreases |items|
  {
    if items != [] {
      var n := |items| - 1;
      StrDictWrites(items[..n]);
      assert Encoded(items)[..n] == Encoded(items[..n]);
    }
  }

  /** Reading back what `StrDict` wrote gives the original dictionary, when every key token
      is non-empty and free of whitespace. */
  lemma {:induction false} KeyRoundTrip<V>(items: seq<(Gram, V)>)
    requires TokenKeys(items)
    ensures TupleDict(Encoded(items)) == DictOf(items)
    decreases |items|
  {
    if items != [] {
      var n := |items| - 1;
      assert TokenKeys(items[..n]);
      KeyRoundTrip(items[..n]);
      assert Encoded(items)[..n] == Encoded(items[..n]);
      SplitJoin(items[n].0);
    }
  }

  // The building loop of main

  /** `vertices[g[1:-1]].Update(g)` on the values of a `defaultdict(Vertex)`. */
  function Feed(states: map<Gram, Features>, g: Gram): (r: map<Gram, Features>)
    requires |g| >= 5
    ensures r.Keys == states.Keys + {g[1..|g| - 1]}
  {
    var t := g[1..|g| - 1];
    states[t := Updated(Get(states, t), g)]
  }

  /** `vertices[t]` of a `defaultdict(Vertex)`: a new vertex when `t` is missing. */
  function Get(states: map<Gram, Features>, t: Gram): Features
  {
    if t in states then states[t] else EmptyFeatures
  }

  predicate AllFive(gs: seq<Gram>)
  {
    forall i :: 0 <= i < |gs| ==> |gs[i]| >= 5
  }

  /** The vertices after feeding the 5-grams `gs` in order. */
  function FeedSeq(states: map<Gram, Features>, gs: seq<Gram>): map<Gram, Features>
    requires AllFive(gs)
    decreases |gs|
  {
    if gs == [] then states else Feed(FeedSeq(states, gs[..|gs| - 1]), gs[|gs| - 1])
  }

  lemma FeedSeqStep(states: map<Gram, Features>, gs: seq<Gram>, i: nat)
    requires AllFive(gs) && i < |gs|
    ensures AllFive(gs[..i]) && AllFive(gs[..i + 1])
    ensures FeedSeq(states, gs[..i + 1]) == Feed(FeedSeq(states, gs[..i]), gs[i])
  {
    assert gs[..i + 1][..i] == gs[..i];
  }

  /** Feeding `a` and then `b` is feeding `a + b`. */
  lemma {:induction false} FeedSeqAppend(states: map<Gram, Features>, a: seq<Gram>, b: seq<Gram>)
    requires AllFive(a) && AllFive(b)
    ensures AllFive(a + b) && FeedSeq(states, a + b) == FeedSeq(FeedSeq(states, a), b)
    decreases |b|
  {
    if b == [] {
      assert a + b == a;
    } else {
      var n := |b| - 1;
      assert (a + b)[..|a + b| - 1] == a + b[..n];
      FeedSeqAppend(states, a, b[..n]);
    }
  }

  /** The 5-grams of the corpus lines, in order. */
  function AllGrams(lines: seq<string>): (r: seq<Gram>)
    ensures AllFive(r)
    decreases |lines|
  {
    if lines == [] then []
    else
      var n := |lines| - 1;
      var last := LineToNgrams(lines[n], 5);
      FiveGrams(lines[n]);
      assert forall i :: 0 <= i < |last| ==> |last[i]| == 5;
      AllGrams(lines[..n]) + last
  }

  lemma AllGramsStep(lines: seq<string>, i: nat)
    requires i < |lines|
    ensures AllGrams(lines[..i + 1]) == AllGrams(lines[..i]) + LineToNgrams(lines[i], 5)
  {
    assert lines[..i + 1][..i] == lines[..i];
  }

  function Counts(states: map<Gram, Features>): (r: map<Gram, nat>)
    ensures r.Keys == states.Keys && forall t :: t in r ==> r[t] == states[t].count
  {
    map t | t in states :: states[t].count
  }

  /** Channel `c` of every vertex at key `x`. */
  function ChannelAt(states: map<Gram, Features>, c: nat, x: Gram): (r: map<Gram, nat>)
    requires c < 8
    ensures r.Keys == states.Keys && forall t :: t in r ==> r[t] == NatGet(states[t].channels.At(c), x)
  {
    map t | t in states :: NatGet(states[t].channels.At(c), x)
  }

  /** What the building loop keeps: every vertex is named by its key, and the corpus counts
      and channels are the sums over the vertices. */
  ghost predicate Aggregated(states: map<Gram, Features>, corpus: Features)
  {
    && (forall t :: t in states ==> states[t].name == Some(t))
    && corpus.count == NatSum(Counts(states))
    && forall c, x :: 0 <= c < 8 ==> NatGet(corpus.channels.At(c), x) == NatSum(ChannelAt(states, c, x))
  }

  /** A new vertex has nothing in any channel. */
  lemma EmptyAt(c: nat, x: Gram)
    requires c < 8
    ensures NatGet(EmptyFeatures.channels.At(c), x) == 0
  {
  }

  /** `f'` is `f` with one more occurrence of the 5-gram `g`: the count and every channel at
      its template key grow by one, and nothing else changes. */
  ghost predicate Grows(f: Features, f': Features, g: Gram)
    requires |g| >= 5
  {
    && f'.count == f.count + 1
    && forall c, x :: 0 <= c < 8 ==>
         NatGet(f'.channels.At(c), x)
           == NatGet(f.channels.At(c), x) + (if x == TemplateKey(g, c) then 1 else 0)
  }

  lemma UpdatedGrows(f: Features, g: Gram)
    requires |g| >= 5
    ensures Grows(f, Updated(f, g), g)
  {
    forall c, x | 0 <= c < 8
      ensures NatGet(Updated(f, g).channels.At(c), x)
                == NatGet(f.channels.At(c), x) + (if x == TemplateKey(g, c) then 1 else 0)
    {
      UpdatedAt(f, g, c, x);
    }
  }

  lemma CountsSet(states: map<Gram, Features>, t: Gram, f: Features)
    ensures Counts(states[t := f]) == Counts(states)[t := f.count]
  {
  }

  lemma ChannelSet(states: map<Gram, Features>, t: Gram, f: Features, c: nat, x: Gram)
    requires c < 8
    ensures ChannelAt(states[t := f], c, x) == ChannelAt(states, c, x)[t := NatGet(f.channels.At(c), x)]
  {
  }

  /** Replacing the trigram's vertex by one that grew by `g`, and growing the corpus by `g`,
      keeps the corpus the sum of the vertices. */
  lemma SetAggregated(states: map<Gram, Features>, corpus: Features, g: Gram, f: Features, corpus': Features)
    requires |g| >= 5 && Aggregated(states, corpus)
    requires f.name == Some(g[1..|g| - 1]) && Grows(Get(states, g[1..|g| - 1]), f, g)
    requires Grows(corpus, corpus', g)
    ensures Aggregated(states[g[1..|g| - 1] := f], corpus')
  {
    var t := g[1..|g| - 1];
    CountsSet(states, t, f);
    NatSumUpdate(Counts(states), t, f.count);
    forall c, x | 0 <= c < 8
      ensures NatGet(corpus'.channels.At(c), x) == NatSum(ChannelAt(states[t := f], c, x))
    {
      var m := ChannelAt(states, c, x);
      ChannelSet(states, t, f, c, x);
      NatSumUpdate(m, t, NatGet(f.channels.At(c), x));
      if t !in states {
        EmptyAt(c, x);
      }
    }
  }

  /** One 5-gram fed to a vertex and to the corpus keeps the corpus the sum of the vertices. */
  lemma FeedAggregated(states: map<Gram, Features>, corpus: Features, g: Gram)
    requires |g| >= 5 && Aggregated(states, corpus)
    ensures Aggregated(Feed(states, g), Updated(corpus, g))
  {
    var t := g[1..|g| - 1];
    UpdatedGrows(Get(states, t), g);
    UpdatedGrows(corpus, g);
    SetAggregated(states, corpus, g, Updated(Get(states, t), g), Updated(corpus, g));
  }

  /** Feeding 5-grams to the vertices and to the corpus keeps the corpus the sum of the
      vertices. */
  lemma {:induction false} FeedSeqAggregated(states: map<Gram, Features>, corpus: Features, gs: seq<Gram>)
    requires AllFive(gs) && Aggregated(states, corpus)
    ensures Aggregated(FeedSeq(states, gs), UpdatedSeq(corpus, gs))
    decreases |gs|
  {
    if gs != [] {
      var n := |gs| - 1;
      assert AllFive(gs[..n]);
      FeedSeqAggregated(states, corpus, gs[..n]);
      FeedAggregated(FeedSeq(states, gs[..n]), UpdatedSeq(corpus, gs[..n]), gs[n]);
    }
  }

  /** Before the loop there are no vertices and the corpus is a new vertex. */
  lemma EmptyAggregated()
    ensures Aggregated(map[], EmptyFeatures)
  {
    forall c, x | 0 <= c < 8 ensures NatGet(EmptyFeatures.channels.At(c), x) == NatSum(ChannelAt(map[], c, x)) {
      assert ChannelAt(map[], c, x) == map[];
    }
    assert Counts(map[]) == map[];
  }

  /** After the building loop every vertex stored under a trigram is named by it, the corpus
      count is the sum of the vertex counts, and every corpus channel is the pointwise sum of
      the vertex channels. */
  lemma BuildAggregated(lines: seq<string>)
    ensures Aggregated(FeedSeq(map[], AllGrams(lines)), UpdatedSeq(EmptyFeatures, AllGrams(lines)))
  {
    EmptyAggregated();
    FeedSeqAggregated(map[], EmptyFeatures, AllGrams(lines));
  }

  /** The loop `for fivegram in LineToNgrams(line, 5)` of the building loop: every 5-gram
      updates the vertex of its trigram, created when the trigram is new, and the corpus. */
  method FeedLine(vertices: map<Gram, Features>, corpus: Vertex, line: string)
    returns (vertices': map<Gram, Features>)
    modifies corpus
    ensures AllFive(LineToNgrams(line, 5))
    ensures vertices' == FeedSeq(vertices, LineToNgrams(line, 5))
    ensures corpus.State() == UpdatedSeq(old(corpus.State()), LineToNgrams(line, 5))
  {
    var grams := LineToNgrams(line, 5);
    FiveGrams(line);
    ghost var corpus0 := corpus.State();
    vertices' := vertices;
    for i := 0 to |grams|
      invariant AllFive(grams[..i]) && vertices' == FeedSeq(vertices, grams[..i])
      invariant corpus.State() == UpdatedSeq(corpus0, grams[..i])
    {
      FeedSeqStep(vertices, grams, i);
      UpdatedSeqStep(corpus0, grams, i);
      vertices' := Feed(vertices', grams[i]);
      corpus.Update(grams[i]);
    }
    assert grams[..|grams|] == grams;
  }

  /** The building loop of `main`: a `defaultdict(Vertex)` of trigram vertices and one corpus
      vertex, both fed every 5-gram of every line. */
  method BuildVertices(lines: seq<string>) returns (vertices: map<Gram, Features>, corpus: Vertex)
    ensures vertices == FeedSeq(map[], AllGrams(lines))
    ensures corpus.State() == UpdatedSeq(EmptyFeatures, AllGrams(lines))
  {
    corpus := new Vertex();
    vertices := map[];
    for i := 0 to |lines|
      invariant vertices == FeedSeq(map[], AllGrams(lines[..i]))
      invariant corpus.State() == UpdatedSeq(EmptyFeatures, AllGrams(lines[..i]))
    {
      AllGramsStep(lines, i);
      vertices := FeedLine(vertices, corpus, lines[i]);
      FeedSeqAppend(map[], AllGrams(lines[..i]), LineToNgrams(lines[i], 5));
      UpdatedSeqAppend(EmptyFeatures, AllGrams(lines[..i]), LineToNgrams(lines[i], 5));
    }
    assert lines[..|lines|] == lines;
  }
}
