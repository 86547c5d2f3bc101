# BM25tp rescorer — a verified model

This project models the core of an Elasticsearch rescore plugin. The plugin re-ranks the top hits of a query with "BM25 plus term proximity". It analyses the query into a positional index (`BM25tpTermInfo`). It builds the same kind of index for every candidate document from that document's term vector. It fills a per-document record (`BM25tpDocInfo`). Then it scores the rescore window twice:

- Pass 1 is the term-proximity score, plus the adjacent-character score, plus the original BM25 score. Documents whose characters are less than half covered are skipped. The window is sorted by this score.
- Pass 2 walks the window in pass-1 order. It recomputes proximity and BM25 with a decay that grows each time a query term has already been used by a better-ranked document. It then sorts by the decayed score and keeps the positive results, or only the best one when none is positive.

The model follows the code's own shapes:

- `TermIndex.TermInfo` and `DocRecord.DocInfo` are classes whose methods update their fields.
- The scoring loops (`calcBM25`, `calcTermProximity`, `calcTermAdjacentCharMatch`, the rescore passes) are methods with loop invariants. Each is proved against a pure specification function in `Scoring` or `Rescorer`.
- `Pipeline.Rescore` is proved equal to `Pipeline.RescoreSpec`, a function of the inputs:
  - the window views;
  - the stable pass-1 sort;
  - the decayed pass-2 scores in pass-1 order;
  - the final sort;
  - the output filter.
- Lemmas state what the code promises of these specifications: orderings, bounds, when a score is zero, what the decay depends on, and which documents can appear in the output.

Modules:

| module | file | contents |
|---|---|---|
| `Basics` | basics.dfy | `Option`, map look-up with default, the order-free sum over a hash map's keys |
| `Sorting` | sorting.dfy | a stable sort specification (`SortSpec`) with its sorted / permutation / stability lemmas, and an in-place stable array sort |
| `TermIndex` | term_info.dfy | `BM25tpTermInfo`: occurrences, the count map, `sortAndRawText`'s text buffer and first-cover array |
| `DocRecord` | doc_info.dfy | `BM25tpDocInfo` and the hit helpers the rescorer calls on it |
| `Scoring` | scoring.dfy | BM25, idf, decay, proximity, adjacent-character and pass-1/pass-2 score specifications |
| `Rescorer` | rescorer.dfy | `getTokens`, `getQueryTokenIDF`, `calcBM25`, `calcTermProximity`, `calcTermAdjacentCharMatch`; the query, window and failure specifications |
| `Records` | records.dfy | what a filled record holds, as predicates over the heap |
| `DocIndex` | doc_index.dfy | `getDocInfo` on one document |
| `Pipeline` | pipeline.dfy | `getDocInfo` over the window and `rescore` |

The word "window" below means the first `min(scoreDocs.length, windowSize)` hits.

Three modelling points:

- **The text buffer's length.** `sortAndRawText` sizes its buffer by the end of the last occurrence in (offset, length) order (BM25tpTermInfo.java:65-66). That is not always the largest end: overlapping tokens such as a 7-character word at offset 0 followed by a 2-character word at offset 1 give a buffer of 3. Writing the long word then throws. The model keeps this: `TermIndex.BufferFits` is false for such a list, and `Pipeline.Rescore` fails for such a query or window document.

- **String comparison by reference.** In `calcTermProximity` the test `t1 == t2` compares references. Within one document every occurrence of a term is added with the same string object (`termstr`, BM25tpRescorer.java:257-282), and distinct terms of a term vector are distinct strings. So within a document, reference equality is value equality, and the model compares values.
- **Which record's `getTerm` is called.** `calcTermProximity` calls `docInfo.getTerm(i)`, which as declared reads the record's own position array (BM25tpDocInfo.java:106-108). The rescorer never fills that array. The indices come from `docTermsInfo`, and the model reads the term from there, which is what the loop evidently means.

## Model

| member | source | states |
|---|---|---|
| TermIndex.TermInfo.constructor | src/main/java/org/elasticsearch/plugin/rescore/BM25tpTermInfo.java:38-44 | a new index has no occurrences, an empty count map, empty text and no hit array |
| TermIndex.TermInfo.AddTermPos | src/main/java/org/elasticsearch/plugin/rescore/BM25tpTermInfo.java:46-49 | appends one occurrence with the unmarked hit -1 and raises the term's count by one (absent terms start at 0); keeps the count map equal to the multiset of added terms |
| TermIndex.TermInfo.AddTermPosWithHit | src/main/java/org/elasticsearch/plugin/rescore/BM25tpTermInfo.java:50-53 | as `AddTermPos`, with the given hit flag |
| TermIndex.CountMapCounts | src/main/java/org/elasticsearch/plugin/rescore/BM25tpTermInfo.java:46-53 | the count map holds exactly the added terms, each with its number of occurrences |
| TermIndex.CountedIffOccurs | src/main/java/org/elasticsearch/plugin/rescore/BM25tpTermInfo.java:109-111 | a term is in the count map iff some occurrence has it |
| TermIndex.SortOccurrences | src/main/java/org/elasticsearch/plugin/rescore/BM25tpTermInfo.java:56-64 | the occurrences end up sorted by (offset, term length), stably, as a permutation of the input |
| TermIndex.FirstCoverIsFirst | src/main/java/org/elasticsearch/plugin/rescore/BM25tpTermInfo.java:79-81 | `charHit[c]` is -1 iff no occurrence covers character c; otherwise it is the first occurrence that covers c |
| TermIndex.LastCoverIsLast | src/main/java/org/elasticsearch/plugin/rescore/BM25tpTermInfo.java:70-78 | character c of the text is written by the last occurrence covering it, and is the pad when none does |
| TermIndex.WriteOccurrence | src/main/java/org/elasticsearch/plugin/rescore/BM25tpTermInfo.java:76-82 | writing occurrence i extends "buffer and hit array as the first i occurrences leave them" to the first i + 1 |
| TermIndex.WriteBuffer | src/main/java/org/elasticsearch/plugin/rescore/BM25tpTermInfo.java:67-83 | after the pad loop and the write loop, each position holds the first-cover index and the last-written character |
| TermIndex.BuildIndex | src/main/java/org/elasticsearch/plugin/rescore/BM25tpTermInfo.java:65-84 | succeeds iff the list is non-empty and every occurrence fits in the buffer (else the Java code throws); the text is as long as the last occurrence's end, with content and hits as above |
| TermIndex.TermInfo.SortAndRawText | src/main/java/org/elasticsearch/plugin/rescore/BM25tpTermInfo.java:55-85 | the occurrences are sorted stably; on success the text and hit array are those of the sorted list; on failure the text is unchanged |
| TermIndex.TermInfo.GetHitted | src/main/java/org/elasticsearch/plugin/rescore/BM25tpTermInfo.java:87-89 | -1 iff no occurrence covers the offset, otherwise the first occurrence covering it |
| TermIndex.TermInfo.Has | src/main/java/org/elasticsearch/plugin/rescore/BM25tpTermInfo.java:109-111 | true iff some occurrence has the term |
| TermIndex.TermInfo.Size | src/main/java/org/elasticsearch/plugin/rescore/BM25tpTermInfo.java:113-115 | the number of occurrences added |
| TermIndex.TermInfo.GetTerm | src/main/java/org/elasticsearch/plugin/rescore/BM25tpTermInfo.java:117-119 | the i-th term, which is a key of the count map |
| TermIndex.TermInfo.GetTermLength | src/main/java/org/elasticsearch/plugin/rescore/BM25tpTermInfo.java:121-123 | the i-th term's length; once indexed, the term lies inside the text |
| TermIndex.TermInfo.GetOffset | src/main/java/org/elasticsearch/plugin/rescore/BM25tpTermInfo.java:125-127 | the i-th offset; once indexed, offsets never decrease with i |
| TermIndex.TermInfo.GetHit | src/main/java/org/elasticsearch/plugin/rescore/BM25tpTermInfo.java:129-131 | the i-th hit flag, which is the flag some added occurrence of the same term was given |
| DocRecord.DocInfo.constructor | src/main/java/org/elasticsearch/plugin/rescore/BM25tpDocInfo.java:49-61 | scores, ranks, counts and boost start at -1; the frequency map and the position list start empty |
| DocRecord.DocInfo.AddTermPos | src/main/java/org/elasticsearch/plugin/rescore/BM25tpDocInfo.java:87-89 | appends one (term, position) entry |
| DocRecord.DocInfo.SetTermFreqs | src/main/java/org/elasticsearch/plugin/rescore/BM25tpDocInfo.java:91-95 | adds the sum of the frequency map's values to `termfreqs` |
| DocRecord.TermFreqsGrow | src/main/java/org/elasticsearch/plugin/rescore/BM25tpDocInfo.java:91-95 | with non-negative frequencies the sum is non-negative, and positive once one frequency is |
| DocRecord.DocInfo.SetTermPosArr | src/main/java/org/elasticsearch/plugin/rescore/BM25tpDocInfo.java:96-100 | a fresh array holding the position list stably sorted by position |
| DocRecord.PositionOrder | src/main/java/org/elasticsearch/plugin/rescore/BM25tpDocInfo.java:96-100 | that order is sorted, a permutation of the list, and keeps the order of entries at the same position |
| DocRecord.DocInfo.GetTermPosSize | src/main/java/org/elasticsearch/plugin/rescore/BM25tpDocInfo.java:102-104 | the array length, which is one per `addTermPos` once arranged |
| DocRecord.DocInfo.GetTerm | src/main/java/org/elasticsearch/plugin/rescore/BM25tpDocInfo.java:106-108 | the i-th term, an entry that was added |
| DocRecord.DocInfo.GetPos | src/main/java/org/elasticsearch/plugin/rescore/BM25tpDocInfo.java:110-112 | the i-th position; no earlier entry has a larger one and no later entry a smaller one |
| DocRecord.DocInfo.SetCharHit | src/main/java/org/elasticsearch/plugin/rescore/BM25tpRescorer.java:290 | records the hit helpers and their hit count |
| Scoring.NormKBounds | src/main/java/org/elasticsearch/plugin/rescore/BM25tpRescorer.java:101-103 | K = k1 (1 - b + b dl / avgdl), and K is at least k1 (1 - b) > 0 |
| Scoring.IdfNonNegative | src/main/java/org/elasticsearch/plugin/rescore/BM25tpRescorer.java:94 | idf is non-negative whenever the document frequency is at most N |
| Scoring.IdfDecreasing | src/main/java/org/elasticsearch/plugin/rescore/BM25tpRescorer.java:94 | a term in more documents has a strictly smaller idf |
| Scoring.DecayFactorShrinks | src/main/java/org/elasticsearch/plugin/rescore/BM25tpRescorer.java:116-119 | a term used more often gets a strictly smaller decay factor |
| Scoring.Bumped | src/main/java/org/elasticsearch/plugin/rescore/BM25tpRescorer.java:117-119 | every used term's count goes up by one (from 0 when absent); no other count changes |
| Scoring.Bm25TermDecayed | src/main/java/org/elasticsearch/plugin/rescore/BM25tpRescorer.java:113-121 | one term's decayed BM25 contribution is at most its undecayed one |
| Scoring.Bm25WeightNonNegative | src/main/java/org/elasticsearch/plugin/rescore/BM25tpRescorer.java:113-121 | with non-negative idf, counts and boost, a term's weight is non-negative |
| Scoring.DecayLowersBm25 | src/main/java/org/elasticsearch/plugin/rescore/BM25tpRescorer.java:110-131 | the decayed BM25 score is at most the undecayed one |
| Scoring.Bm25TermUsedLoses | src/main/java/org/elasticsearch/plugin/rescore/BM25tpRescorer.java:110-131 | with decay > 0 and a strictly increasing exp, a matched term of positive weight that earlier documents used contributes strictly less than undecayed |
| Scoring.PairAt | src/main/java/org/elasticsearch/plugin/rescore/BM25tpRescorer.java:180-189 | a pair holds two distinct query terms at i and at a later occurrence; no pair only when a guard of the loop rejects it |
| Scoring.ZeroAcc | src/main/java/org/elasticsearch/plugin/rescore/BM25tpRescorer.java:174-177 | one zero accumulator per query term |
| Scoring.AccStep | src/main/java/org/elasticsearch/plugin/rescore/BM25tpRescorer.java:200-207 | a pair involving term t strictly raises t's accumulator; any other occurrence leaves it |
| Scoring.AccPositiveIffPaired | src/main/java/org/elasticsearch/plugin/rescore/BM25tpRescorer.java:179-208 | with positive idf, a term's accumulator is non-negative, and positive iff some contributing pair involves it |
| Scoring.BoostBounds | src/main/java/org/elasticsearch/plugin/rescore/BM25tpRescorer.java:192-199 | the boost only grows, by at most 0.1 per contributing pair, and there are at most as many pairs as occurrences |
| Scoring.ProximityWithoutPairs | src/main/java/org/elasticsearch/plugin/rescore/BM25tpRescorer.java:179-220 | a document with no contributing pair has proximity score 0 |
| Scoring.AdjacentNeedsSharedTerm | src/main/java/org/elasticsearch/plugin/rescore/BM25tpRescorer.java:144-155 | a document sharing no term with the query has adjacent-character score 0 |
| Scoring.AdjacentRowZero | src/main/java/org/elasticsearch/plugin/rescore/BM25tpRescorer.java:146-154 | a document term equal to no query term adds nothing |
| Scoring.GateSkipsBothPasses | src/main/java/org/elasticsearch/plugin/rescore/BM25tpRescorer.java:343-346 | a document with less than half its characters hit scores -1 in both passes; one with exactly half passes the gate |
| Scoring.DecayCountsUses | src/main/java/org/elasticsearch/plugin/rescore/BM25tpRescorer.java:371-389 | before the k-th document of pass 2, a term's decay count is the number of earlier non-skipped documents whose BM25 loop used it |
| Scoring.DecayOnlyLooksBack | src/main/java/org/elasticsearch/plugin/rescore/BM25tpRescorer.java:371-389 | the decay state before document k depends only on documents 0..k-1 |
| Scoring.Positive | src/main/java/org/elasticsearch/plugin/rescore/BM25tpRescorer.java:397-404 | the output holds exactly the positively scored entries |
| Scoring.Output | src/main/java/org/elasticsearch/plugin/rescore/BM25tpRescorer.java:396-408 | the positive entries, or only the first entry when there is none |
| Rescorer.GetTokens | src/main/java/org/elasticsearch/plugin/rescore/BM25tpRescorer.java:60-84 | the query index holds the analysed tokens as occurrences, sorted stably; it succeeds iff `sortAndRawText` accepts them |
| Rescorer.AddTokens | src/main/java/org/elasticsearch/plugin/rescore/BM25tpRescorer.java:68-77 | one occurrence per token, in token order, with counts kept |
| Rescorer.GetQueryTokenIDF | src/main/java/org/elasticsearch/plugin/rescore/BM25tpRescorer.java:86-98 | exactly the query terms get an idf, each ln(1 + (N - df + 0.5) / (df + 0.5)) |
| Rescorer.Bm25Step | src/main/java/org/elasticsearch/plugin/rescore/BM25tpRescorer.java:112-121 | one matched term's contribution with the current decay factor, and its count bumped after |
| Rescorer.CalcBM25 | src/main/java/org/elasticsearch/plugin/rescore/BM25tpRescorer.java:100-136 | the score is the BM25 specification over the terms in both the idf and the frequency map, and the decay map is bumped for exactly those terms |
| Rescorer.FindGap | src/main/java/org/elasticsearch/plugin/rescore/BM25tpRescorer.java:192-199 | true iff the query has t1 and t2 at the same distance |
| Rescorer.PairOf | src/main/java/org/elasticsearch/plugin/rescore/BM25tpRescorer.java:180-189 | the pair, if any, that occurrence i contributes |
| Rescorer.AccumulatePair | src/main/java/org/elasticsearch/plugin/rescore/BM25tpRescorer.java:200-207 | adds idf(t2)/gap² to t1 and idf(t1)/gap² to t2 |
| Rescorer.ProximityStep | src/main/java/org/elasticsearch/plugin/rescore/BM25tpRescorer.java:179-208 | one loop pass moves accumulators and boost one occurrence further |
| Rescorer.ProximityPairs | src/main/java/org/elasticsearch/plugin/rescore/BM25tpRescorer.java:174-208 | accumulators and boost after the whole pair loop |
| Rescorer.ProximityTerm | src/main/java/org/elasticsearch/plugin/rescore/BM25tpRescorer.java:211-217 | one term's decayed, saturated proximity contribution |
| Rescorer.ProximitySum | src/main/java/org/elasticsearch/plugin/rescore/BM25tpRescorer.java:209-218 | the sum over all accumulator entries, whatever order the map yields |
| Rescorer.CalcTermProximity | src/main/java/org/elasticsearch/plugin/rescore/BM25tpRescorer.java:162-221 | score and stored boost are the proximity specification's; on the early return (at most one document or query term) 0 with the boost unchanged |
| Rescorer.AdjacentRowLoop | src/main/java/org/elasticsearch/plugin/rescore/BM25tpRescorer.java:146-154 | adds the right and left hits of every query occurrence equal to document occurrence i |
| Rescorer.CalcTermAdjacentCharMatch | src/main/java/org/elasticsearch/plugin/rescore/BM25tpRescorer.java:138-160 | stores 2.2 times the sum of those hits over all document occurrences |
| Rescorer.KeptOccIff | src/main/java/org/elasticsearch/plugin/rescore/BM25tpRescorer.java:273-285 | an occurrence is kept iff its offset is one of the term's non-negative offsets, with the term's hit flag |
| Rescorer.VectorOccIff | src/main/java/org/elasticsearch/plugin/rescore/BM25tpRescorer.java:256-286 | the document index holds exactly the non-negative offsets of the term vector, flagged by query membership, and no more entries than the total frequency |
| Rescorer.WindowEnd | src/main/java/org/elasticsearch/plugin/rescore/BM25tpRescorer.java:311 | the window is the smaller of the hit count and the window size |
| Rescorer.EnvOf | src/main/java/org/elasticsearch/plugin/rescore/BM25tpRescorer.java:306-317 | every query term, and no other, has an idf |
| Rescorer.WindowViews | src/main/java/org/elasticsearch/plugin/rescore/BM25tpRescorer.java:321-334 | one view per window position, carrying that hit's doc id and original rank |
| Rescorer.Pass2Docs | src/main/java/org/elasticsearch/plugin/rescore/BM25tpRescorer.java:371-389 | one result per document, in pass-1 order, carrying its doc id |
| Rescorer.PositiveOrdered | src/main/java/org/elasticsearch/plugin/rescore/BM25tpRescorer.java:397-404 | keeping the positive entries of a list sorted by score leaves it sorted |
| Rescorer.OutputOrdered | src/main/java/org/elasticsearch/plugin/rescore/BM25tpRescorer.java:396-408 | the output of a list sorted by score is sorted by score |
| Rescorer.OutputKeeps | src/main/java/org/elasticsearch/plugin/rescore/BM25tpRescorer.java:396-408 | the output takes each entry of its input at most as often as it occurs there |
| Records.BuiltView | src/main/java/org/elasticsearch/plugin/rescore/BM25tpRescorer.java:248-290 | a record filled from its term vector is ready to score, and its view is the window view of its original rank |
| DocIndex.AddOffset | src/main/java/org/elasticsearch/plugin/rescore/BM25tpRescorer.java:275-283 | a non-negative offset becomes one occurrence flagged by query membership, and a hit raises the hit count; a negative one is dropped |
| DocIndex.AddOffsets | src/main/java/org/elasticsearch/plugin/rescore/BM25tpRescorer.java:273-285 | a term's offsets add its kept occurrences, and the hit count grows by the hits among them |
| DocIndex.IndexTerm | src/main/java/org/elasticsearch/plugin/rescore/BM25tpRescorer.java:257-285 | one vector term stores its frequency and adds its kept occurrences |
| DocIndex.IndexTerms | src/main/java/org/elasticsearch/plugin/rescore/BM25tpRescorer.java:256-287 | the whole vector: its occurrences, its frequency map, and the term count equal to the total frequency |
| DocIndex.IndexText | src/main/java/org/elasticsearch/plugin/rescore/BM25tpRescorer.java:288-290 | sorts the document index; on success the document text and the helpers are those of the sorted occurrences |
| DocIndex.FinishIndex | src/main/java/org/elasticsearch/plugin/rescore/BM25tpRescorer.java:288-290 | on success the record is built from the given occurrences and frequencies |
| DocIndex.BuildDocIndex | src/main/java/org/elasticsearch/plugin/rescore/BM25tpRescorer.java:248-290 | from an empty index, the record is built from its term vector, or fails exactly when the vector's occurrences are rejected |
| Pipeline.BuildDoc | src/main/java/org/elasticsearch/plugin/rescore/BM25tpRescorer.java:248-291 | one document fails iff it has no term vector or its occurrences are rejected; otherwise it is filled from the vector |
| Pipeline.BuildNext | src/main/java/org/elasticsearch/plugin/rescore/BM25tpRescorer.java:238-292 | one iteration of the `getDocInfo` loop extends the filled prefix by one record |
| Pipeline.BuildAll | src/main/java/org/elasticsearch/plugin/rescore/BM25tpRescorer.java:238-292 | all records filled, or failure exactly when some document fails |
| Pipeline.GetDocInfo | src/main/java/org/elasticsearch/plugin/rescore/BM25tpRescorer.java:232-294 | the same, from unfilled records |
| Pipeline.MakeWindow | src/main/java/org/elasticsearch/plugin/rescore/BM25tpRescorer.java:321-334 | one fresh record per window position with that hit's id, score and rank |
| Pipeline.SortByDocid | src/main/java/org/elasticsearch/plugin/rescore/BM25tpRescorer.java:336 | the records are permuted into ascending doc id order |
| Pipeline.SortedWindow | src/main/java/org/elasticsearch/plugin/rescore/BM25tpRescorer.java:321-336 | the window records, in doc id order, a permutation of the ranked records |
| Pipeline.QueryEnvOf | src/main/java/org/elasticsearch/plugin/rescore/BM25tpRescorer.java:313-317 | the query index and idf map; fails iff the query's occurrences are rejected |
| Pipeline.BuildWindow | src/main/java/org/elasticsearch/plugin/rescore/BM25tpRescorer.java:321-337 | the window, sorted and filled, or failure exactly when a document fails |
| Pipeline.WindowFails | src/main/java/org/elasticsearch/plugin/rescore/BM25tpRescorer.java:311-337 | the records fail exactly when the rescore's failure condition holds |
| Pipeline.Prepare | src/main/java/org/elasticsearch/plugin/rescore/BM25tpRescorer.java:297-337 | everything before pass 1 succeeds iff the rescore does not fail, and leaves every record filled from its vector |
| Pipeline.Pass1Doc | src/main/java/org/elasticsearch/plugin/rescore/BM25tpRescorer.java:343-353 | a record's pass-1 fields hold the pass-1 specification (-1 for a gated document) |
| Pipeline.Pass1 | src/main/java/org/elasticsearch/plugin/rescore/BM25tpRescorer.java:340-354 | every record carries its pass-1 score |
| Pipeline.ScorePass1 | src/main/java/org/elasticsearch/plugin/rescore/BM25tpRescorer.java:340-354 | the same, on the window array |
| Pipeline.SortPass1 | src/main/java/org/elasticsearch/plugin/rescore/BM25tpRescorer.java:356-366 | the records end in the stable order of pass-1 score descending, ties by original rank |
| Pipeline.SortScored1 | src/main/java/org/elasticsearch/plugin/rescore/BM25tpRescorer.java:356-366 | that sort keeps every record scored |
| Pipeline.SetPass1Order | src/main/java/org/elasticsearch/plugin/rescore/BM25tpRescorer.java:367-369 | each record's pass-1 rank is its index, and nothing the scores depend on changes |
| Pipeline.RankPass1 | src/main/java/org/elasticsearch/plugin/rescore/BM25tpRescorer.java:367-369 | the same, on the sorted window |
| Pipeline.Pass1Sorted | src/main/java/org/elasticsearch/plugin/rescore/BM25tpRescorer.java:340-366 | scored and sorted in pass-1 order |
| Pipeline.WindowKeysUnique | src/main/java/org/elasticsearch/plugin/rescore/BM25tpRescorer.java:357-365 | two views with the same pass-1 key are the same view, so the pass-1 order is total |
| Pipeline.Pass1Ordered | src/main/java/org/elasticsearch/plugin/rescore/BM25tpRescorer.java:356-366 | in pass-1 order a higher score comes first, and equal scores follow the original rank |
| Pipeline.FirstPass | src/main/java/org/elasticsearch/plugin/rescore/BM25tpRescorer.java:340-369 | the records are in the order the pass-1 sort gives the window views, and ranked by it |
| Pipeline.PassedPass1 | src/main/java/org/elasticsearch/plugin/rescore/BM25tpRescorer.java:379-387 | a non-skipped document's pass-2 score is proximity + adjacent + BM25, and bumps the terms BM25 matched |
| Pipeline.Pass2Terms | src/main/java/org/elasticsearch/plugin/rescore/BM25tpRescorer.java:383-384 | the decayed proximity and BM25 scores and the decay map after them |
| Pipeline.Pass2Doc | src/main/java/org/elasticsearch/plugin/rescore/BM25tpRescorer.java:379-388 | one document's decayed score and the decay map it leaves |
| Pipeline.Pass2Bm25 | src/main/java/org/elasticsearch/plugin/rescore/BM25tpRescorer.java:384 | the decayed BM25 score of pass 2 is the specified one under the current decay map, and the map afterwards counts each matched term once more |
| Pipeline.Pass2Next | src/main/java/org/elasticsearch/plugin/rescore/BM25tpRescorer.java:372-389 | the k-th document of pass 2 gets its specified score and moves the decay map to the state before k + 1 |
| Pipeline.Pass2 | src/main/java/org/elasticsearch/plugin/rescore/BM25tpRescorer.java:371-389 | every record gets the pass-2 score of its position in pass-1 order |
| Pipeline.ScorePass2 | src/main/java/org/elasticsearch/plugin/rescore/BM25tpRescorer.java:371-389 | the (doc, decayed score) of each record is the specification's |
| Pipeline.SortFinal | src/main/java/org/elasticsearch/plugin/rescore/BM25tpRescorer.java:390-395 | the records end in the stable order of decayed score descending |
| Pipeline.SortPass2 | src/main/java/org/elasticsearch/plugin/rescore/BM25tpRescorer.java:390-395 | the same, on the window array |
| Pipeline.FinalSortOrdered | src/main/java/org/elasticsearch/plugin/rescore/BM25tpRescorer.java:390-395 | after the final sort the scores never increase |
| Pipeline.EmitNext | src/main/java/org/elasticsearch/plugin/rescore/BM25tpRescorer.java:397-403 | one pass of the output loop: the record gets rank i, and the kept entries become those of the first i + 1 entries that are positive |
| Pipeline.Emit | src/main/java/org/elasticsearch/plugin/rescore/BM25tpRescorer.java:396-408 | each record's final rank is its index, and the result is the positive entries or only the first |
| Pipeline.FinalOrdered | src/main/java/org/elasticsearch/plugin/rescore/BM25tpRescorer.java:390-408 | the output is sorted by score, non-empty, drawn from the input, and all positive unless it is the single fallback entry |
| Pipeline.SecondPass | src/main/java/org/elasticsearch/plugin/rescore/BM25tpRescorer.java:371-408 | from the pass-1 order, the output is the final sort's positive entries |
| Pipeline.Passes | src/main/java/org/elasticsearch/plugin/rescore/BM25tpRescorer.java:340-408 | both passes on the filled window give the specified output |
| Pipeline.PassesOrdered | src/main/java/org/elasticsearch/plugin/rescore/BM25tpRescorer.java:340-408 | the two-pass output is sorted by score, is a sub-multiset of the pass-2 entries (one per window position, so no position appears twice), names only window documents, and is all positive unless it is the single fallback entry |
| Pipeline.RescoreOrdered | src/main/java/org/elasticsearch/plugin/rescore/BM25tpRescorer.java:297-408 | the same of the rescore specification: sorted, at most window-size entries, a sub-multiset of the pass-2 entries of the window, all positive or the single fallback |
| Pipeline.Rescore | src/main/java/org/elasticsearch/plugin/rescore/BM25tpRescorer.java:297-415 | fails exactly when the query or some window document cannot be indexed or the window is empty; otherwise returns the rescore specification |

## Left out

- Floating point. Scores are `real`, so rounding and the `(float)` casts of `bm25ScoreOriginal` and `bm25tpScoreWithDecay` (BM25tpRescorer.java:325, 380, 386) are not modelled. Neither is the `float` decay.
- `Math.log` and `Math.exp` are parameters `ln` and `exp`. Lemmas that need a property of them (ln is monotone, exp stays in [0, 1] for non-positive arguments) state it as a precondition.
- Division by zero (`avgdl` with no documents, `scoreTP + K`, `freq + K`) is `Quot`, which is 0 for a zero divisor. Java would give an infinity or NaN.
- Lucene I/O is replaced by parameters:
  - the analyzer becomes the query's token list;
  - `reader.getTermVector` becomes `vectors`;
  - `docFreq`, `numDocs` and `getSumTotalTermFreq` become `Stats`;
  - the segment iteration in `getDocInfo` (BM25tpRescorer.java:240-245) is left out because it only selects a leaf.
- The hit helpers the rescorer calls on a record (`getTermHit`, `getNextTermHit`, `docTermRightHit`, `docTermLeftHit`, `setCharHit`, `docCharHitCount`) are not defined in BM25tpDocInfo.java. They are an abstract `DocHelpers` value, computed by a parameter `charHits` from the document and query indexes. `Pipeline.Rescore` requires `HelpersValid(charHits)`: every next-hit index is -1 or a later occurrence.
- `Pipeline.Rescore`: a window document without a term vector makes the code throw a null-pointer exception (BM25tpRescorer.java:249). The model makes it a `Failure`, as it does the exceptions of `sortAndRawText` on an empty or overflowing list. Which exception is raised, and after how much work, is not modelled.
- `TermIndex.TermInfo.SortAndRawText`: the comparators subtract `int`s (offset and length; doc id at BM25tpRescorer.java:336; position at BM25tpDocInfo.java:99). They are modelled as plain comparisons, so overflow is not modelled.
- `Pipeline.SortFinal`: the final comparator never returns 0 (BM25tpRescorer.java:390-395), which breaks the contract of `Arrays.sort`. The model sorts stably by score descending. The relative order of equal scores is not claimed to match the JDK's.
- `Pipeline.Pass1Doc`: `minimum_should_match` and the commented-out `termHitCount` filter have no effect in the code and none in the model.
- `DocRecord.DocInfo.constructor`: it takes the doc id, original score, avgdl, idf, query index, original rank and document count as parameters. The code sets them right after construction (BM25tpRescorer.java:324-331) and never changes them. The other fields start at the -1 sentinels, as in BM25tpDocInfo.java:49-61.
- Fields the core never reads are left out: `query`, `fieldName`, `reader` and `queryTokenArr`. So are `docIdToScore`, `getTopDocIds`, `getSumDocFreq` and `totalHits`, which are computed but do not affect the result.
- `explain` and both `toString` methods are diagnostics and are left out.
- `Rescorer.CalcBM25`: in pass 2 the decay map `tokenUsedCount` is read by `calcTermProximity` (BM25tpRescorer.java:214-216), and read and bumped by `calcBM25` (:117-120). The model passes it to `CalcTermProximity` as a value and threads it through `CalcBM25` as a value (`Option<map>`, `None` for Java's `null`) that comes back bumped.
- Strings are sequences of `char`, and each `char` stands for one UTF-16 code unit, as Java's `String.length()`, `charAt`, `setCharAt` and Lucene's offsets count them (BM25tpTermInfo.java:66, 75-78; BM25tpRescorer.java:343). Surrogate pairs are not decoded: a supplementary character is two `char`s, and a Dafny string literal holding one would not match Java's lengths.
- `Rescorer.CalcTermProximity`: `docInfo.getTerm(i)` as declared reads the record's own `termPosArr` (BM25tpDocInfo.java:106-108), which stays `null` because the rescorer never calls `setTermPosArr`, so the code as written would throw a null-pointer exception on the first hit. The model reads the term of occurrence i from `docTermsInfo`, whose indices the loop walks (see "Which record's `getTerm` is called" above).
- The order in which a `HashMap` yields its entries is not modelled. Every loop over a map is proved equal to an order-free sum (`SumOver`), which is exact over the reals.
