# Bilingual part-of-speech projection: a verified model

This project models the discrete core of a pipeline that tags a low-resource language
(Swahili) with parts of speech. English tags are projected over word alignments and then
spread over a graph of similar Swahili trigrams. The model covers six source files.

- `src/knn.py`, the NN-Descent library. `SortedArray` is a bounded neighbour list kept in
  ascending order of weight. `KNN` seeds one list per vertex, builds the reverse graph and
  refines the lists round after round until a round makes no update. This is the centre of
  the model. The modules are `SortedArrays` (the list as a class), `KnnGraphs` (value-level
  facts about graphs) and `Knn` (the `KNN` class).
- `src/graph_f.py`, the trigram feature vertices. `Vertex.Update` counts a 5-gram in eight
  feature channels. `LineToNgrams` slides a window over a padded line. The persistence
  layer encodes keys. The building loop feeds every 5-gram of the corpus to its trigram
  vertex and to the corpus aggregate. The module is `GraphF`.
- `src/project_alignments.py`, three parts:
  - the high-probability dictionary (`LoadDict`);
  - the `i-j` alignment lines (`AlignmentsToDict`);
  - the rewriting of each Swahili word as `sw_en1_en2` with the counters of projections
    (`ExtractAlignments`).

  The module is `ProjectAlignments`.
- `src/propagate_pos.py`, label propagation. It covers the sparse-vector helpers, the
  uniform prior and the synchronous rounds. In every round, seeds keep their projection and
  every other vertex takes the damped weighted average of its neighbours. The module is
  `PropagatePos`.
- `src/aggregate_pos.py`, tag counting per word and relative frequencies. The module is
  `AggregatePos`.
- `src/dictionary_from_alignments.py`, in two steps:
  - the thresholded translation tables (`GetProbableTranslations`);
  - the bidirectional intersection written out by `main`.

  The module is `DictionaryFromAlignments`.

Supporting modules:
- `Wrappers` holds `Option`, `Result` and the Python exceptions raised by the code.
- `Strings` holds the Python string operations used: `split`, `join`, `rsplit`, `strip`,
  `lower`, `isalpha`, `int` and `float`, and string order.
- `Sums` holds sums over maps, scaling and division.
- `Counters` holds `collections.Counter`.

Modelling conventions:
- Vertices are natural numbers.
- The distance `v.Distance(u)` is an arbitrary function `(nat, nat) -> real`. Nothing is
  assumed about it: no symmetry and no metric.
- The draws of `random.sample` are an input.
- Weights are exact reals.
- The loops of the source are methods with loop invariants. Each is proved equal to a
  specification function, and that function's properties are lemmas.
- Python exceptions are the error case of a `Result`: `ValueError`, `IndexError`, `KeyError`,
  `TypeError` and `ZeroDivisionError`.

Points where the behaviour of the code is easy to misread:
- `SortedArray.add` sets `max` to the last weight after every successful call, even while
  the list is not full (src/knn.py:34). So `max` is not infinity for a list that is not full
  once anything was added.
- `Distance` is `1 - Similarity` (src/graph_f.py:106-108). It is not a cosine distance.
- `Vertex.Update` also counts an eighth channel, `other_features`, at `("trigram",)`
  (src/graph_f.py:64).
- The reverse graph is plain lists, not capacity-`k` lists (src/knn.py:58-61).
- During a round, `Run` updates the lists in place. A vertex explored later in the round
  therefore sees the lists already changed for earlier vertices; only the reverse graph is
  a start-of-round snapshot (src/knn.py:68-76). The model keeps this order.

## Model

| member | source | states |
|---|---|---|
| SortedArrays.SortedArray.constructor | src/knn.py:17-20 | A new list is empty, its bound is infinity, its capacity is `k`, and the list invariant holds |
| SortedArrays.SortedArray.Add | src/knn.py:22-35 | The outcome and the new list are those of `AddTo`. The invariant is kept: at most `k` entries, sorted by weight, `max` is the weight of the last entry |
| SortedArrays.SortedArray.Items | src/knn.py:37-38 | Iteration yields the entries in ascending order of weight, at most `k` of them, and the last one carries `max` |
| SortedArrays.AddOutcomes | src/knn.py:22-32 | `add` returns 0 exactly for an exact duplicate pair, or for a weight not below `max` on a full list. It raises `IndexError` exactly when `k` is 0. In both cases the list is unchanged |
| SortedArrays.AddWithRoom | src/knn.py:23-26 | With room and a new pair, `add` returns 1 and inserts the pair at its place by weight; the size grows by exactly one |
| SortedArrays.AddWhenFull | src/knn.py:27-33 | On a full list, an accepted pair overwrites the heaviest entry. The other `k-1` entries stay, the size stays `k` and the new weight is below the old maximum |
| SortedArrays.AddKeepsOrder | src/knn.py:22-35 | After any call the list is sorted and within capacity. It holds nothing new but the pair, and after a successful call it holds the pair |
| SortedArrays.SortByWeight | src/knn.py:33 | The stable sort by weight returns a sorted list of the same length |
| SortedArrays.SortPermutes | src/knn.py:33 | Sorting by weight only reorders: the same multiset of entries |
| SortedArrays.SortSorted | src/knn.py:33 | The stable sort leaves an already sorted list unchanged |
| SortedArrays.SortAfterAppend | src/knn.py:26-33 | Appending to a sorted list and sorting it is the stable insertion after every entry of weight at most the new one |
| SortedArrays.InsertPosSplits | src/knn.py:33 | Before the insertion point every weight is at most the new weight; after it every weight is larger |
| Knn.KNN.constructor | src/knn.py:41-45 | The builder stores the vertices, `k` and the distance. Every list holds, sorted by weight, the sampled vertices other than its owner at their distances. The matrix is valid |
| Knn.KNN.RandomSample | src/knn.py:47-55 | There is one fresh list per vertex, no two lists are the same object, and each list holds exactly the seeds of its vertex |
| Knn.KNN.SampledList | src/knn.py:50-53 | A new capacity-`k` list after adding every sampled vertex other than `v` holds the sorted seeds of `v` |
| Knn.KNN.SeededValid | src/knn.py:47-55 | The seeded lists make a valid matrix. Each list is within capacity and sorted, and names only other vertices at their distances |
| Knn.KNN.Reverse | src/knn.py:57-62 | The result is the reverse graph of the current lists, visited in vertex order; the lists are unchanged |
| Knn.KNN.ReverseVertex | src/knn.py:59-61 | One more vertex visited extends the reverse graph by that vertex's entries |
| Knn.KNN.AppendReversed | src/knn.py:60-61 | Each entry `(u, w)` of the row of `v` appends `(v, w)` to the list of `u`, in order |
| Knn.KNN.ValidReverse | src/knn.py:57-62 | The reverse graph of valid lists names only vertices, never a list's own owner; it has entries only when `k > 0` |
| Knn.KNN.Run | src/knn.py:64-81 | `Run` terminates and returns its own matrix, which stays valid. The ghost `trace` holds the lists at the start of each round, so `|trace|` is `iter_num` at the `break`. It starts at the lists `Run` was given, and each later entry is what a round against the reverse graph of the entry before it leaves, after a round that counted an update and changed the lists. The final lists are the last entry, and the round from them counts no update. They have converged |
| Knn.KNN.RunPass | src/knn.py:66-80 | One pass of the `while` loop extends the trace of `Run` by the lists it leaves, or with no update leaves the trace, ends with the count 0 and the lists converged. With an update the measure has decreased |
| Knn.KNN.Extend | src/knn.py:66-80 | A round from the last lists of a trace extends it by the new lists when it counts an update, and leaves it when it counts none |
| Knn.KNN.PassAt | src/knn.py:66-80 | Every entry of a trace after the first is the round from the entry before it, and that round counted an update |
| Knn.KNN.SameStart | src/knn.py:66-80 | Two traces from the same lists agree at every position both reach |
| Knn.KNN.RanUnique | src/knn.py:66-81 | Two traces from the same lists that both end at lists whose round counts no update are the same trace, with the same final lists. So `Run` returns the first fixed point of the rounds from its start |
| Knn.KNN.RefineRound | src/knn.py:69-77 | A round leaves exactly the lists `RoundFrom` gives: the vertices are explored in order, each against the lists as the earlier ones left them and against the reverse graph of the start of the round. `n` is exactly the number of successful adds. A round with no update leaves every list as it was and every vertex settled; one with an update strictly decreases the termination measure |
| Knn.KNN.RoundStep | src/knn.py:70-77 | Exploring one more vertex extends the round: the lists and the count are those of `RoundFrom` and `RoundAdds` over one more vertex, and the matrix stays valid |
| Knn.KNN.RoundSoFarStep | src/knn.py:70-77 | After one more pass the lists are unchanged and the vertices so far settled while there has been no update, and the measure has decreased once there has been one |
| Knn.KNN.RunRound | src/knn.py:68-80 | One pass of the `while` loop: a round against the reverse graph of the lists at its start. The new lists are exactly `NextLists` of the old ones, and the count is exactly `NextAdds`. With no update the lists are unchanged and converged; with an update the measure has decreased. The matrix stays valid |
| Knn.KNN.ExploreVertex | src/knn.py:71-77 | Only the list of `v` changes, and it ends exactly as `Explore` gives it: the current list of `v` after `add` of each vertex of `Offered`, in order. The count is exactly the number of those adds that returned 1 |
| Knn.KNN.ExploreNeighbour | src/knn.py:73-77 | After the neighbours of `u1`, the vertices offered so far are exactly the fresh vertices of all entries met in the pass, in order. The list of `v` and the count are exactly what offering them leaves |
| Knn.KNN.Visit | src/knn.py:74-77 | One entry `(u2, w2)` extends the pass: `u2` is offered exactly when it has not been seen, and the list and the count follow |
| Knn.KNN.Offer | src/knn.py:75-77 | The list of `v` becomes exactly what `add(u2, v.Distance(u2))` on the old list gives, and it stays valid. The count grows by 1 exactly when that add returns 1. `u2` is marked seen and appended to the vertices offered |
| KnnGraphs.ReverseMembers | src/knn.py:57-62 | `(x, w)` is in the reverse list of `u` exactly when `x` is a vertex and `(u, w)` is in the list of `x` |
| KnnGraphs.ReversePreservesSize | src/knn.py:57-62 | The reverse graph holds as many entries as the graph |
| KnnGraphs.SeedsMembers | src/knn.py:51-53 | A seeded entry is exactly a sampled vertex other than the owner, at its distance |
| KnnGraphs.SeedsOk | src/knn.py:47-55 | Seeded lists name only vertices of the graph other than their owner, at their distances |
| KnnGraphs.AddRowOk | src/knn.py:75-76 | Adding another vertex at its true distance keeps a list naming only other vertices at their distances |
| KnnGraphs.CandsOk | src/knn.py:72-73 | A forward or reverse neighbour of `u` is another vertex of the graph, and there is one only if `k > 0` |
| KnnGraphs.AddImproves | src/knn.py:76 | A successful add of a vertex at its distance strictly improves the list: fewer free slots, or as many and a smaller sum of ranks |
| KnnGraphs.ImprovesDecreases | src/knn.py:66-80 | Improving one list strictly decreases the termination measure of the whole matrix |
| KnnGraphs.DecreasedDiffers | src/knn.py:66-80 | Lists whose termination measure is strictly below that of other lists differ from them, so a round with an update changes the lists |
| KnnGraphs.FreshMembers | src/knn.py:74-77 | The vertices let through by `if u2 not in seen_u2` are exactly those of the entries met and not in the initial set. Each is let through once |
| KnnGraphs.HopsMembers | src/knn.py:72-73 | The entries the nested loops meet are exactly the forward and reverse neighbours of the vertices of the outer list |
| KnnGraphs.OfferedMembers | src/knn.py:71-77 | The pass over `v` offers every neighbour of a neighbour of `v`, other than `v`, exactly once, and nothing else: each candidate is evaluated at most once |
| KnnGraphs.AddAllFacts | src/knn.py:74-77 | Adding other vertices one by one keeps a list valid, sorted and within capacity. With no add returning 1 the list is unchanged and turned every one of them away; otherwise it has strictly improved |
| KnnGraphs.ExploreFacts | src/knn.py:71-77 | The pass over `v` keeps its list valid. With no update the list is unchanged and `v` is settled; with updates the list has strictly improved |
| KnnGraphs.ConvergedFrom | src/knn.py:79-80 | A round in which every vertex was settled against the reverse graph of the lists has converged |
| GraphF.Vertex.constructor | src/graph_f.py:35-46 | A new vertex has no name, a zero count and eight empty channels |
| GraphF.Vertex.GetDicts | src/graph_f.py:48-51 | The eight channels, in the fixed order that the templates use |
| GraphF.Vertex.Update | src/graph_f.py:53-64 | The vertex becomes `Updated(old, g)`: the name is the middle trigram, the count grows by one, and each channel grows by one at its template key |
| GraphF.Vertex.Lt | src/graph_f.py:144-147 | Comparison is the lexicographic order of the name tuples. It raises `TypeError` exactly when either name is still `None` |
| GraphF.Updated | src/graph_f.py:55-57 | After `Update`, the name is `five_gram[1:-1]` and the count grew by exactly one |
| GraphF.UpdatedAt | src/graph_f.py:56-64 | `Update` adds exactly 1 to each of the eight channels at its template key and changes no other key of any channel |
| GraphF.UpdatedConsistent | src/graph_f.py:53-64 | If every channel sums to the count, `Update` keeps that so |
| GraphF.UpdatedSeqConsistent | src/graph_f.py:53-64 | A sequence of updates keeps every channel summing to the count, and adds its length to the count |
| GraphF.BuiltConsistent | src/graph_f.py:35-64 | A vertex built from `Vertex()` by the updates `gs` has count equal to the number of updates, and every channel sums to it |
| GraphF.TupleLessIrreflexive | src/graph_f.py:144-147 | No name is less than itself |
| GraphF.TupleLessTransitive | src/graph_f.py:144-147 | The name order is transitive |
| GraphF.TupleLessTotal | src/graph_f.py:144-147 | Any two different names are ordered one way or the other |
| GraphF.WindowsAt | src/graph_f.py:177 | `zip` of the shifted copies gives `len(p) - n + 1` windows for `n >= 1` and none otherwise. Window `i` is the `n` elements starting at `i` |
| GraphF.NgramsShape | src/graph_f.py:174-177 | For `1 <= n <= 5`, the line gives `len(tokens) + 4 - n + 1` windows, each `n` consecutive elements of the padded line |
| GraphF.FiveGrams | src/graph_f.py:174-177 | For 5-grams there is one window per token, with token `i` in the middle of window `i` |
| GraphF.StrDictWrites | src/graph_f.py:111-115 | `StrDict` writes exactly the dictionary of the space-joined keys; a later item overwrites an earlier one with the same encoding |
| GraphF.KeyRoundTrip | src/graph_f.py:111-130 | Decoding the written keys gives back the original dictionary when every key token is non-empty and free of whitespace |
| GraphF.Feed | src/graph_f.py:201 | Feeding a 5-gram adds its trigram to the vertex keys, keeping the others |
| GraphF.FeedSeqAggregated | src/graph_f.py:198-202 | Feeding 5-grams to the vertices and to the corpus keeps every vertex named by its key. The corpus count stays the sum of the vertex counts, and every corpus channel the pointwise sum of the vertex channels |
| GraphF.BuildAggregated | src/graph_f.py:194-202 | After the building loop, those three facts hold for the whole corpus |
| GraphF.FeedLine | src/graph_f.py:199-202 | One corpus line feeds all its 5-grams, in order, to the vertex of their trigram and to the corpus vertex |
| GraphF.BuildVertices | src/graph_f.py:194-202 | The building loop gives the vertices and the corpus vertex obtained by feeding every 5-gram of every line, in order |
| ProjectAlignments.LineFieldsJoin | src/project_alignments.py:24 | A dictionary line that parses, once stripped, is the English word, the three-bar separator and the space-joined Swahili words |
| ProjectAlignments.LoadedDictErr | src/project_alignments.py:21-27 | `LoadDict` raises `ValueError` exactly when some line does not split into two parts at the separator |
| ProjectAlignments.LoadedDictMembers | src/project_alignments.py:21-27 | `LoadDict` holds `(sw, en)` exactly when some line has `en` on the left and `sw` among the space-separated words on the right |
| ProjectAlignments.LoadDict | src/project_alignments.py:21-27 | The loop builds the set `LoadedDict` of the lines, or its error |
| ProjectAlignments.AddPairs | src/project_alignments.py:25-26 | The inner loop adds the pair of every Swahili word with the English word |
| ProjectAlignments.ParsePairFormat | src/project_alignments.py:32-33 | A pair `i-j` as the aligner writes it parses back to `(i, j)` |
| ProjectAlignments.ParsePairsOk | src/project_alignments.py:31-33 | Parsing an alignment line succeeds exactly when every token parses, and then gives one pair per token, in order |
| ProjectAlignments.GroupedAt | src/project_alignments.py:30-34 | Position `i` maps to the English positions of its pairs in input order. It is a key exactly when some pair starts with it |
| ProjectAlignments.GroupedTotal | src/project_alignments.py:30-34 | The lists together hold every pair once: their total length is the number of pairs |
| ProjectAlignments.AlignmentsToDict | src/project_alignments.py:29-34 | The loop builds the grouped lists of the line's pairs, or the `ValueError` of a bad token |
| ProjectAlignments.AcceptedMeaning | src/project_alignments.py:41-44 | The translations fail exactly when an aligned position is outside the English sentence, counting Python's negative indices. Otherwise `en` is accepted exactly when `(sw, en)` is whitelisted and `en` is at some aligned position |
| ProjectAlignments.OutTokenSplit | src/project_alignments.py:46-48 | When neither the word nor its translations contain `_`, splitting the output token at `_` gives back the word followed by the translations |
| ProjectAlignments.ExtractedErr | src/project_alignments.py:36-50 | `ExtractAlignments` raises exactly when the alignments of some word point outside the English sentence |
| ProjectAlignments.ExtractedOut | src/project_alignments.py:37-50 | On success there is one output token per Swahili word, in order. Each token is the word alone, or the word, `_` and its accepted translations joined by `_` in alignment order |
| ProjectAlignments.ExtractedPairsWhitelisted | src/project_alignments.py:43-45 | Every pair counted is in the whitelist |
| ProjectAlignments.ProjectionCounts | src/project_alignments.py:45 | Each projection count grows by the number of times its pair was counted, and the total by the number of accepted translations |
| ProjectAlignments.Translate | src/project_alignments.py:40-45 | The inner loop returns the accepted translations in order, and counts each accepted pair once |
| ProjectAlignments.ExtractAlignments | src/project_alignments.py:36-50 | It fails with `IndexError` exactly when the specification fails. On success it returns the output tokens, `sw_counter` counts each Swahili word once more, and the projection counter grows by exactly the accepted pairs |
| Counters.Counter.constructor | src/project_alignments.py:55-56 | A new counter holds nothing |
| Counters.Counter.Increment | src/project_alignments.py:39 | `counter[k] += 1`: one more of `k` and no other change |
| Counters.CountedAt | src/project_alignments.py:39-45 | Each key gains exactly its number of occurrences among the keys counted |
| Counters.CountedKeys | src/project_alignments.py:39-45 | A key is present after counting exactly when it was before or it was counted |
| Counters.CountedSum | src/project_alignments.py:39-45 | Every increment adds one to the total |
| Counters.CountedAppend | src/project_alignments.py:38-45 | Counting `a` and then `b` is counting `a + b` |
| Sums.Scaled | src/propagate_pos.py:54-55 | `MulScalarByVector` keeps the key set and multiplies each value by the scalar |
| Sums.RealSumScale | src/propagate_pos.py:54-55 | The total of a scaled vector is the scalar times the total |
| PropagatePos.VectorSumAt | src/propagate_pos.py:57-61 | `AddVector` has the union of the keys, each with `v1.get(k, 0) + v2.get(k, 0)` |
| PropagatePos.AddVector | src/propagate_pos.py:57-61 | The loop over the union of the keys builds exactly `VectorSum(v1, v2)` |
| PropagatePos.VectorSumCommutes | src/propagate_pos.py:57-61 | `AddVector` is commutative |
| PropagatePos.VectorSumTotal | src/propagate_pos.py:57-61 | The total of a sum of vectors is the sum of their totals |
| PropagatePos.UniformPos | src/propagate_pos.py:77 | The uniform prior has exactly the projected tags as keys, each weighted `1/len(all_pos)`. With no tags it is empty and raises nothing |
| PropagatePos.UniformTotal | src/propagate_pos.py:77 | The uniform prior over at least one tag sums to 1 |
| PropagatePos.Accumulate | src/propagate_pos.py:89-94 | The loop over the neighbours builds the nominator `nu*uniform + sum of (1-dist)*prev` and the denominator `nu + sum of (1-dist)` |
| PropagatePos.FreeVertexDist | src/propagate_pos.py:87-95 | A vertex that is not a seed gets `NewDist`: the nominator scaled by `1/denominator`, or the error of a missing row or a zero denominator |
| PropagatePos.NoNeighboursUniform | src/propagate_pos.py:87-95 | A vertex that is not a seed and has no neighbours gets exactly the uniform prior |
| PropagatePos.NominatorTotal | src/propagate_pos.py:89-94 | When the prior and every previous distribution sum to 1, the nominator's weights sum to the denominator |
| PropagatePos.FreeVertexTotal | src/propagate_pos.py:77-95 | Normalisation: when the prior and every previous distribution sum to 1, so does the new distribution |
| PropagatePos.NominatorKeys | src/propagate_pos.py:89-94 | The nominator has exactly the tags of the prior, when the previous distributions use no other tags |
| PropagatePos.FreeVertexKeys | src/propagate_pos.py:87-95 | A free vertex's new distribution is over exactly the tags of the prior |
| PropagatePos.RoundErr | src/propagate_pos.py:82-96 | A round fails exactly when some vertex fails |
| PropagatePos.RoundValues | src/propagate_pos.py:82-96 | A round that succeeds gives every vertex, and nothing else, its new distribution, computed from the previous round's map only |
| PropagatePos.RoundSeeds | src/propagate_pos.py:84-86 | After a round every seed vertex has exactly its initial projection |
| PropagatePos.PropagateRound | src/propagate_pos.py:82-96 | The loop over the vertices builds `new_projections` as `Round` specifies |
| PropagatePos.PropagatedSeeds | src/propagate_pos.py:80-96 | After any positive number of rounds every seed keeps its initial projection |
| PropagatePos.PropagatedNormalised | src/propagate_pos.py:77-96 | If the prior and the initial projections sum to 1, every distribution after any number of rounds sums to 1 |
| PropagatePos.Propagate | src/propagate_pos.py:80-96 | The outer loop computes `num_iterations` rounds, each reading only the previous one |
| PropagatePos.PropagatedErr | src/propagate_pos.py:80-96 | Once a round fails, every later number of rounds fails in the same way |
| AggregatePos.ConvertedMeaning | src/aggregate_pos.py:13-17 | The lookup of line 30: `NNS` becomes `NN` and every other tag is unchanged, so `NNS` never comes out |
| AggregatePos.TaggedErr | src/aggregate_pos.py:28-30 | Unpacking a token raises `ValueError` exactly when it has no `_`; no tag comes out as `NNS` |
| AggregatePos.TaggedMeaning | src/aggregate_pos.py:28-30 | A token splits at its last `_`: the word is everything before it, lower-cased, and the tag everything after it, converted |
| AggregatePos.TallyErr | src/aggregate_pos.py:24-32 | `CountPosTags` raises `ValueError` exactly when some token has no `_` |
| AggregatePos.TallyAt | src/aggregate_pos.py:24-32 | The count of tag `t` for word `w` is the number of tokens whose word lower-cases to `w` and whose tag converts to `t` |
| AggregatePos.TallyKeys | src/aggregate_pos.py:24-32 | A tag is a key of a word's counter exactly when some token carries that word and that tag |
| AggregatePos.TallyWellFormed | src/aggregate_pos.py:24-32 | Every counted word has a non-empty counter of positive counts, and `NNS` is never a key |
| AggregatePos.TallyTotal | src/aggregate_pos.py:26-31 | The counts of all words add up to the number of tokens read |
| AggregatePos.CountToken | src/aggregate_pos.py:28-31 | One token is split, lower-cased, converted and counted, or its error is returned |
| AggregatePos.CountTokens | src/aggregate_pos.py:27-31 | The inner loop counts the tokens of one line in order and stops at the first error |
| AggregatePos.CountPosTags | src/aggregate_pos.py:24-32 | The loop over the lines computes `Tally` of all their whitespace-separated tokens |
| AggregatePos.Total | src/aggregate_pos.py:37 | The loop computes `sum(counts.values())` |
| AggregatePos.FrequenciesMeaning | src/aggregate_pos.py:37-38 | The relative frequencies keep the tags, give each `count/total`, and sum to 1 when there are tags |
| AggregatePos.AggregatedMeaning | src/aggregate_pos.py:34-39 | `AggregatePosTags` keeps the words and each word's tags, and every non-empty distribution sums to 1 |
| AggregatePos.CountThenAggregate | src/aggregate_pos.py:24-39 | Counts built by `CountPosTags` never make `AggregatePosTags` divide by zero, and every word's frequencies sum to 1 |
| AggregatePos.AggregatePosTags | src/aggregate_pos.py:34-39 | The loop divides every word's counter by its own total, or raises `ZeroDivisionError` as `Aggregated` says |
| DictionaryFromAlignments.TranslationsErr | src/dictionary_from_alignments.py:30-36 | Reading a table fails with `ValueError` exactly when some three-field record has a log-probability that `float` rejects |
| DictionaryFromAlignments.TranslationsMembers | src/dictionary_from_alignments.py:30-39 | `w` is stored under `k` exactly when some record has three fields and a log-probability at least the threshold, with `(k, w)` as its first two columns in order, or swapped when the English word is not first |
| DictionaryFromAlignments.TranslationsNonEmpty | src/dictionary_from_alignments.py:23-39 | Every key of a table read without error has at least one word |
| DictionaryFromAlignments.TranslationsSwapped | src/dictionary_from_alignments.py:37-38 | Reading a table keyed by its second column is reading the table with its first two columns exchanged |
| DictionaryFromAlignments.CollectMembers | src/dictionary_from_alignments.py:39 | A word is stored under `k` exactly when it was before or some entry adds it |
| DictionaryFromAlignments.CollectFails | src/dictionary_from_alignments.py:35 | Collecting fails exactly when some entry is an error, and then with that entry's error |
| DictionaryFromAlignments.GetProbableTranslations | src/dictionary_from_alignments.py:21-41 | The loop over the records computes `Translations` |
| DictionaryFromAlignments.SortedKeys | src/dictionary_from_alignments.py:49 | `sorted(keys)` holds each key once, in strictly increasing order |
| DictionaryFromAlignments.Least | src/dictionary_from_alignments.py:49 | A non-empty set of strings has a least element, the first one `sorted` yields |
| DictionaryFromAlignments.OutputLine | src/dictionary_from_alignments.py:50-54 | A common key gives a line exactly when it is alphabetic and `fwd[k] & rev[k] - {k}` is non-empty; the line's words are that set |
| DictionaryFromAlignments.Intersect | src/dictionary_from_alignments.py:47-54 | The output lines are in increasing order of key. Each key is in both dictionaries, is alphabetic and has a non-empty overlap, which is exactly its words. Every such key is written |
| DictionaryFromAlignments.BuildDictionary | src/dictionary_from_alignments.py:44-54 | `main` fails exactly when either table fails to read. The forward table is keyed by its second column and the reverse one by its first. Otherwise the output is their intersection |
| DictionaryFromAlignments.IntersectionUnique | src/dictionary_from_alignments.py:47-54 | The two dictionaries determine the output completely |
| Strings.SplitJoin | src/aggregate_pos.py:27 | `split()` of the space-joined tokens gives the tokens back |
| Strings.JoinSplitOn | src/project_alignments.py:24-25 | Joining the parts of a split at a separator gives the string back |
| Strings.SplitOnJoin | src/aggregate_pos.py:28 | Splitting at a character the parts do not contain undoes joining with it |
| Strings.LastIndexOfMeaning | src/aggregate_pos.py:28 | The last occurrence of a character is found exactly when it occurs, and nothing after it is that character |
| Strings.RSplitOnceMeaning | src/aggregate_pos.py:28 | `rsplit(c, 1)` gives one part when `c` does not occur, and otherwise the parts before and after its last occurrence |
| Strings.StripMeaning | src/project_alignments.py:24 | `strip()` removes exactly the leading and trailing whitespace |
| Strings.Lower | src/aggregate_pos.py:29 | `lower()` maps every character by its ASCII lower case, keeping the length |
| Strings.LowerIdempotent | src/aggregate_pos.py:29 | Lower-casing twice is lower-casing once |
| Strings.ParseDecimal | src/project_alignments.py:33 | `int` of a decimal numeral gives its value |
| Strings.ParseFloatDecimal | src/dictionary_from_alignments.py:35 | `float` of a decimal numeral gives its value |
| Strings.ParseFloatNegative | src/dictionary_from_alignments.py:35 | `float` of a negated numeral gives the negated value, as log-probabilities are written |
| Strings.ParseFloatPoint | src/dictionary_from_alignments.py:35 | `float` of `i.f` gives the value of the whole and the fractional digits |
| Strings.StrLessIrreflexive | src/dictionary_from_alignments.py:49 | No string is less than itself |
| Strings.StrLessTransitive | src/dictionary_from_alignments.py:49 | String order is transitive |
| Strings.StrLessTotal | src/dictionary_from_alignments.py:49 | Any two different strings are ordered one way or the other |

## Left out

- File I/O, `argparse`, `print`, the `main` functions' file handling and output formatting, `DebugFindKNN` and the JSON layer of `dumps`/`loads` are not modelled. Inputs are given as sequences of lines or records, and outputs as values.
- `ConvertToPMI`, `UpdatePMI`, `UpdateDenomSums`, `Cosine`, `Similarity` and `Normalize` (src/graph_f.py:69-103, 149-171) are not modelled. They are floating-point feature weighting built on `log`, `sqrt` and variance. `Distance` is an arbitrary function instead.
- `random.sample` (src/knn.py:51) is an input: `k` distinct vertices per vertex, possibly including the vertex itself, with `k` at most the number of vertices.
- Graph persistence and threshold pruning are not modelled. `KNN(..., graph_file)`, `Run(graph_file)` and `GetMatrix` are called by src/graph_f.py:230-234 and src/propagate_pos.py:72 but not defined in src/knn.py. The pruned graph used by propagation is an input map.
- `LoadProjections` (src/propagate_pos.py:29-51) parses JSON per token. The initial projections and the tag set are inputs instead.
- The Python 2 `decode("utf-8")` step of `GetProbableTranslations` (src/dictionary_from_alignments.py:25-29) is not modelled; records arrive already split into fields.
- Floating-point arithmetic is modelled as exact reals. Rounding in `count/total`, in the propagation weights and in the sums is not captured.
- `Strings.ParseFloat`: accepts only an optional sign, digits and at most one point. Exponents, `inf`, `nan` and surrounding whitespace are not accepted, although the Python 2 `float` of src/dictionary_from_alignments.py accepts them. Underscores are rejected, as they are by that `float`.
- `Strings.ParseInt`: accepts an optional sign and ASCII digits, with single underscores between digits, as the Python 3 `int` of src/project_alignments.py does. Surrounding whitespace and non-ASCII digits are not accepted, although that `int` accepts them.
- `Strings.Lower`: lower-cases ASCII letters only. `Strings.IsAlpha` likewise tests ASCII letters only. Unicode case mapping is not modelled.
- `Counters.Counter` is used for the counters of `ExtractAlignments`. The `defaultdict(collections.Counter)` of `CountPosTags` and the vertex channels are modelled as maps of counts on values.
- The `defaultdict(Vertex)` of the building loop holds vertex values, not `Vertex` objects; aliasing between them does not arise in the source.
- Counts in `Vertex` are `float` in the source (`0.0`, `+= 1`). They are naturals here, which is exact for counts below 2^53.
- The iteration order of Python dictionaries and sets is a given sequence of vertices (`vertices`, `vs`). The words of an output line of `main` are a set, so the line's `" ".join` order is not modelled.
- `Knn.KNN.Run`: vertices are distinct natural numbers standing for the `Vertex` objects, which Python hashes by identity.
- `ProjectAlignments.ExtractAlignments`: does not state the counters' contents after an `IndexError`; the source has already counted part of the sentence by then.
- `GraphF.Vertex.Update`: requires a tuple of at least five tokens, which every window of `LineToNgrams(line, 5)` is. Shorter tuples raise `IndexError` in the source; that case is not modelled.
- `GraphF.NgramsShape`: states the count formula for `1 <= n <= 5`; `GraphF.WindowsAt` gives the general count for any `n`.
- A vertex that is already named keeps being renamed by every `Update`. The name is always the middle trigram of the 5-gram, so this changes nothing for vertices keyed by their trigram.
