/** The rescorer (`BM25tpRescorer`): the query index, the idf map, each
    document's index, the three scorers, the two passes threaded by the decay
    map, the final sort and the output with its fallback. The analyzer, the
    term vectors and the index statistics enter as parameters. */
module Rescorer {
  import opened Basics
  import opened Sorting
  import opened TermIndex
  import opened DocRecord
  import opened Scoring

  /** One token of the analyzed query: its term and start offset. */
  datatype Token = Token(term: string, offset: int)

  /** One term of a document's term vector: the term and the start offset of
      each of its occurrences, negative where the index stored none. */
  datatype VectorTerm = VectorTerm(term: string, offsets: seq<int>)

  /** The rescore context: window size, analyzed query, decay, and
      minimum_should_match, which the rescorer never reads. */
  datatype Context = Context(windowSize: int, query: seq<Token>, decay: real, minimumShouldMatch: real)

  /** The index statistics the rescorer reads: the number of documents, the
      total term frequency of the field, and each term's document frequency. */
  datatype Stats = Stats(numDocs: int, sumTotalTermFreq: int, docFreq: string -> nat)

  /** The outcome of `rescore`: the new top documents, or Failure where the
      Java code throws. */
  datatype Result<T> = Failure | Success(value: T)

  /** The pad characters of the two `sortAndRawText` calls. */
  const QueryPad: char := 'q'
  const DocPad: char := 'd'

  // ---------------------------------------------------------------------
  // What the inputs determine

  /** The occurrences `getTokens` adds, in token order, unmarked. */
  function TokenOcc(tokens: seq<Token>): seq<TermPos>
  {
    if tokens == [] then []
    else TokenOcc(tokens[..|tokens| - 1]) + [TermPos(tokens[|tokens| - 1].term, Unmarked, tokens[|tokens| - 1].offset)]
  }

  /** The query's count map. */
  function QueryCounts(ctx: Context): map<string, int>
  {
    CountMap(TokenOcc(ctx.query))
  }

  /** The query's occurrences once sorted. */
  function QueryOcc(ctx: Context): seq<TermPos>
  {
    SortSpec(TokenOcc(ctx.query), OccKey)
  }

  /** The hit flag `getDocInfo` gives an occurrence. */
  function HitFlag(t: string, tokens: map<string, int>): int
  {
    if t in tokens then 1 else 0
  }

  /** The occurrences added for one vector term: one per offset that is not
      negative, in offset order. */
  function KeptOcc(t: string, offsets: seq<int>, hit: int): seq<TermPos>
  {
    if offsets == [] then []
    else
      var last := offsets[|offsets| - 1];
      KeptOcc(t, offsets[..|offsets| - 1], hit) + (if last >= 0 then [TermPos(t, hit, last)] else [])
  }

  /** The occurrences added for a whole term vector, term after term. */
  function VectorOcc(vector: seq<VectorTerm>, tokens: map<string, int>): seq<TermPos>
  {
    if vector == [] then []
    else
      var vt := vector[|vector| - 1];
      VectorOcc(vector[..|vector| - 1], tokens) + KeptOcc(vt.term, vt.offsets, HitFlag(vt.term, tokens))
  }

  /** `m` after each term of a term vector, in order, was put with its frequency. */
  function PutFreqs(m: map<string, nat>, vector: seq<VectorTerm>): map<string, nat>
  {
    if vector == [] then m
    else
      var vt := vector[|vector| - 1];
      PutFreqs(m, vector[..|vector| - 1])[vt.term := |vt.offsets|]
  }

  /** The total term frequency of a term vector. */
  function TotalFreq(vector: seq<VectorTerm>): nat
  {
    if vector == [] then 0 else TotalFreq(vector[..|vector| - 1]) + |vector[|vector| - 1].offsets|
  }

  /** A document's occurrences once sorted. */
  function DocOcc(vector: seq<VectorTerm>, tokens: map<string, int>): seq<TermPos>
  {
    SortSpec(VectorOcc(vector, tokens), OccKey)
  }

  /** avgdl: the field's total term frequency over the number of documents. */
  function AvgDl(stats: Stats): real
  {
    Quot(stats.sumTotalTermFreq as real, stats.numDocs as real)
  }

  /** The idf of every query term. */
  function IdfMap(stats: Stats, tokens: map<string, int>, ln: real -> real): map<string, real>
  {
    map t | t in tokens :: Idf(stats.numDocs, stats.docFreq(t), ln)
  }

  /** The number of candidates rescored: `Math.min(scoreDocs.length, windowSize)`. */
  function WindowEnd(scoreDocs: seq<ScoreDoc>, ctx: Context): (end: int)
    ensures end <= |scoreDocs| && end <= ctx.windowSize
    ensures end == |scoreDocs| || end == ctx.windowSize
  {
    if |scoreDocs| <= ctx.windowSize then |scoreDocs| else ctx.windowSize
  }

  /** A document whose index cannot be built: no term vector, or occurrences
      `sortAndRawText` rejects. */
  predicate DocFails(vector: Option<seq<VectorTerm>>, tokens: map<string, int>)
  {
    vector.None? || !BufferFits(DocOcc(vector.value, tokens))
  }

  /** Where `rescore` throws: the query's occurrences are rejected, the window
      is empty or negative, or some document in the window fails. */
  predicate Fails(scoreDocs: seq<ScoreDoc>, ctx: Context, vectors: int -> Option<seq<VectorTerm>>)
  {
    || !BufferFits(QueryOcc(ctx))
    || WindowEnd(scoreDocs, ctx) <= 0
    || exists i :: 0 <= i < WindowEnd(scoreDocs, ctx) && DocFails(vectors(scoreDocs[i].doc), QueryCounts(ctx))
  }

  /** What the scores of every document read of the query and the index
      statistics: the query's count map and sorted occurrences, the idf of
      each query term, and avgdl. */
  datatype QueryEnv = QueryEnv(tokens: map<string, int>, qocc: seq<TermPos>, idf: map<string, real>, avgdl: real)

  /** The environment of a context and the statistics; every query term, and
      no other, has an idf. */
  function EnvOf(ctx: Context, stats: Stats, ln: real -> real): (e: QueryEnv)
    ensures e.tokens.Keys == e.idf.Keys
  {
    var tokens := QueryCounts(ctx);
    QueryEnv(tokens, QueryOcc(ctx), IdfMap(stats, tokens, ln), AvgDl(stats))
  }

  /** The view of the i-th candidate once its index is built (a candidate
      without a term vector makes `rescore` throw, so its view is never
      read). */
  function WindowView(scoreDocs: seq<ScoreDoc>, i: int, vectors: int -> Option<seq<VectorTerm>>,
                      charHits: (seq<TermPos>, seq<TermPos>) -> DocHelpers, env: QueryEnv): DocView
    requires 0 <= i < |scoreDocs|
  {
    var vector := if vectors(scoreDocs[i].doc).Some? then vectors(scoreDocs[i].doc).value else [];
    var occ := DocOcc(vector, env.tokens);
    DocView(scoreDocs[i].doc, i, scoreDocs[i].score, occ, if |occ| > 0 && BufferLength(occ) >= 0 then BufferLength(occ) else 0,
            PutFreqs(map[], vector), charHits(occ, env.qocc), env.avgdl, env.idf, env.tokens, env.qocc)
  }

  /** The views of the window, in input order. */
  function WindowViews(scoreDocs: seq<ScoreDoc>, ctx: Context, stats: Stats,
                       vectors: int -> Option<seq<VectorTerm>>,
                       charHits: (seq<TermPos>, seq<TermPos>) -> DocHelpers, ln: real -> real): (vs: seq<DocView>)
    requires !Fails(scoreDocs, ctx, vectors)
    ensures |vs| == WindowEnd(scoreDocs, ctx)
    ensures forall i :: 0 <= i < |vs| ==> vs[i].docid == scoreDocs[i].doc && vs[i].orig == i
  {
    seq(WindowEnd(scoreDocs, ctx), i requires 0 <= i < WindowEnd(scoreDocs, ctx) =>
      WindowView(scoreDocs, i, vectors, charHits, EnvOf(ctx, stats, ln)))
  }

  /** The pass-2 result of each document, in pass-1 order. */
  ghost function Pass2Docs(vs: seq<DocView>, decay: real, exp: real -> real): (r: seq<ScoreDoc>)
    ensures |r| == |vs| && forall k :: 0 <= k < |vs| ==> r[k].doc == vs[k].docid
  {
    seq(|vs|, k requires 0 <= k < |vs| => ScoreDoc(vs[k].docid, Pass2Score(vs, k, decay, exp)))
  }

  predicate NonIncreasing(docs: seq<ScoreDoc>)
  {
    forall i, j :: 0 <= i < j < |docs| ==> docs[j].score <= docs[i].score
  }

  /** Dropping the entries that are not positive keeps the order. */
  lemma {:induction false} PositiveOrdered(docs: seq<ScoreDoc>)
    requires NonIncreasing(docs)
    ensures NonIncreasing(Positive(docs))
    decreases |docs|
  {
    if docs != [] {
      var p, last := docs[..|docs| - 1], docs[|docs| - 1];
      PositiveOrdered(p);
      var r := Positive(p);
      forall i | 0 <= i < |r| ensures last.score <= r[i].score {
        assert r[i] in p;
        var k :| 0 <= k < |p| && p[k] == r[i];
        assert docs[k] == p[k];
      }
    }
  }

  /** The output of `rescore` on sorted entries is sorted too. */
  lemma OutputOrdered(docs: seq<ScoreDoc>)
    requires |docs| > 0 && NonIncreasing(docs)
    ensures NonIncreasing(Output(docs))
  {
    PositiveOrdered(docs);
  }

  /** Dropping the entries that are not positive drops whole entries: each
      entry is kept at most as often as it occurs. */
  lemma {:induction false} PositiveKeeps(docs: seq<ScoreDoc>)
    ensures multiset(Positive(docs)) <= multiset(docs)
    decreases |docs|
  {
    if docs != [] {
      var p, last := docs[..|docs| - 1], docs[|docs| - 1];
      assert docs == p + [last];
      PositiveKeeps(p);
    }
  }

  /** The output takes each entry of `docs` at most as often as it occurs. */
  lemma OutputKeeps(docs: seq<ScoreDoc>)
    requires |docs| > 0
    ensures multiset(Output(docs)) <= multiset(docs)
  {
    PositiveKeeps(docs);
  }

  // ---------------------------------------------------------------------
  // Properties of the document index

  /** A kept occurrence is one of the term's offsets that is not negative,
      with the given hit flag, and every such offset is kept. */
  lemma {:induction false} KeptOccIff(t: string, offsets: seq<int>, hit: int, o: TermPos)
    ensures o in KeptOcc(t, offsets, hit) <==> o.term == t && o.hit == hit && o.offset >= 0 && o.offset in offsets
    ensures |KeptOcc(t, offsets, hit)| <= |offsets|
    decreases |offsets|
  {
    if offsets != [] {
      var p := offsets[..|offsets| - 1];
      KeptOccIff(t, p, hit, o);
      assert offsets == p + [offsets[|offsets| - 1]];
    }
  }

  /** `getDocInfo` keeps exactly the occurrences with an offset, flags each
      1 when the query has its term and 0 otherwise, and adds no more
      occurrences than the term vector's total frequency. */
  lemma {:induction false} VectorOccIff(vector: seq<VectorTerm>, tokens: map<string, int>, o: TermPos)
    ensures o in VectorOcc(vector, tokens) <==>
      o.offset >= 0 && o.hit == HitFlag(o.term, tokens) &&
      exists k :: 0 <= k < |vector| && vector[k].term == o.term && o.offset in vector[k].offsets
    ensures |VectorOcc(vector, tokens)| <= TotalFreq(vector)
    decreases |vector|
  {
    if vector != [] {
      var p, vt := vector[..|vector| - 1], vector[|vector| - 1];
      VectorOccIff(p, tokens, o);
      KeptOccIff(vt.term, vt.offsets, HitFlag(vt.term, tokens), o);
      if exists k :: 0 <= k < |vector| && vector[k].term == o.term && o.offset in vector[k].offsets {
        var k :| 0 <= k < |vector| && vector[k].term == o.term && o.offset in vector[k].offsets;
        if k < |p| {
          assert p[k] == vector[k];
        }
      }
      if exists k :: 0 <= k < |p| && p[k].term == o.term && o.offset in p[k].offsets {
        var k :| 0 <= k < |p| && p[k].term == o.term && o.offset in p[k].offsets;
        assert vector[k] == p[k];
      }
    }
  }

  lemma BumpedStep(m: map<string, int>, used: set<string>, t: string)
    requires t !in used
    ensures Bumped(m, used + {t}) == Bumped(m, used)[t := GetOr(Bumped(m, used), t, 0) + 1]
  {
    var l, r := Bumped(m, used + {t}), Bumped(m, used)[t := GetOr(Bumped(m, used), t, 0) + 1];
    assert l.Keys == r.Keys;
    forall u | u in l ensures l[u] == r[u] {
    }
  }

  /** The decay map after the terms in `used` were each raised by one. */
  function CountsAfter(counts: Option<map<string, int>>, used: set<string>): Option<map<string, int>>
  {
    match counts
    case None => None
    case Some(m) => Some(Bumped(m, used))
  }

  /** Taking `t` out of the terms still to visit moves it, when the document
      has it, from the matched terms to visit to the matched terms visited. */
  lemma VisitStep(keys: set<string>, has: set<string>, remaining: set<string>, t: string)
    requires remaining <= keys && t in remaining
    ensures (keys - (remaining - {t})) * has == (keys - remaining) * has + (if t in has then {t} else {})
    ensures (remaining - {t}) * has == remaining * has - {t}
  {
  }

  /** Two decay maps with the same count for `t` give it the same factor. */
  lemma DecayFactorSameCount(c1: Option<map<string, int>>, c2: Option<map<string, int>>, t: string, decay: real, exp: real -> real)
    requires c1.Some? <==> c2.Some?
    requires c1.Some? ==> GetOr(c1.value, t, 0) == GetOr(c2.value, t, 0)
    ensures DecayFactor(c1, t, decay, exp) == DecayFactor(c2, t, decay, exp)
  {
  }

  /** The sum over the matched terms still to visit, split at `t`. */
  lemma SumVisit(remaining: set<string>, has: set<string>, f: string -> real, t: string)
    requires t in remaining
    ensures SumOver(remaining * has, f) == (if t in has then f(t) else 0.0) + SumOver((remaining - {t}) * has, f)
  {
    if t in has {
      SumOverRemove(remaining * has, f, t);
      assert (remaining - {t}) * has == remaining * has - {t};
    } else {
      assert (remaining - {t}) * has == remaining * has;
    }
  }

  /** Raising no term leaves the decay map as it is. */
  lemma CountsAfterNothing(counts: Option<map<string, int>>)
    ensures CountsAfter(counts, {}) == counts
  {
    if counts.Some? {
      assert Bumped(counts.value, {}) == counts.value;
    }
  }

  /** The decay map after `t` was raised by one. */
  function BumpOne(counts: Option<map<string, int>>, t: string): Option<map<string, int>>
  {
    match counts
    case None => None
    case Some(m) => Some(m[t := GetOr(m, t, 0) + 1])
  }

  /** A term not yet raised still has its original factor, and raising it
      extends the set of raised terms by one. */
  lemma CountsStep(counts: Option<map<string, int>>, used: set<string>, t: string, decay: real, exp: real -> real)
    requires t !in used
    ensures DecayFactor(CountsAfter(counts, used), t, decay, exp) == DecayFactor(counts, t, decay, exp)
    ensures CountsAfter(counts, used + {t}) == BumpOne(CountsAfter(counts, used), t)
  {
    if counts.Some? {
      var m := counts.value;
      assert GetOr(Bumped(m, used), t, 0) == GetOr(m, t, 0) by {
        if t in m {
          assert Bumped(m, used)[t] == m[t];
        } else {
          assert t !in Bumped(m, used);
        }
      }
      DecayFactorSameCount(CountsAfter(counts, used), counts, t, decay, exp);
      BumpedStep(m, used, t);
      assert CountsAfter(counts, used + {t}) == Some(Bumped(m, used + {t}));
      assert BumpOne(CountsAfter(counts, used), t) == Some(Bumped(m, used)[t := GetOr(Bumped(m, used), t, 0) + 1]);
    }
  }

  /** The score of one matched term of `calcBM25` and the decay map after it. */
  method Bm25Step(k: real, tokens: map<string, int>, idf: map<string, real>, tf: map<string, nat>, boost: real,
                  counts: Option<map<string, int>>, decay: real, exp: real -> real, t: string)
    returns (termScore: real, counts': Option<map<string, int>>)
    requires t in idf && t in tf
    ensures termScore == Bm25TermValue(k, tokens, idf, tf, boost, DecayFactor(counts, t, decay, exp), t)
    ensures counts' == BumpOne(counts, t)
  {
    var freq := (if GetOr(tokens, t, 0) <= tf[t] then GetOr(tokens, t, 0) else tf[t]) as real;
    var tfScore := Quot(freq, freq + k);
    var weight := boost * idf[t] * tfScore * tf[t] as real;
    assert weight == Bm25Weight(k, tokens, idf, tf, boost, t);
    var decayFactor := 1.0;
    counts' := counts;
    if counts.Some? {
      decayFactor := Decay(GetOr(counts.value, t, 0), decay, exp);
      counts' := Some(counts.value[t := GetOr(counts.value, t, 0) + 1]);
    }
    assert decayFactor == DecayFactor(counts, t, decay, exp);
    termScore := decayFactor * weight;
  }

  // ---------------------------------------------------------------------
  // The query

  /** `getTokens`: every token added unmarked in order, then `sortAndRawText`
      with pad 'q'; `ok` is false where that throws. */
  method GetTokens(tokens: seq<Token>) returns (q: TermInfo, ok: bool)
    ensures fresh(q) && q.Valid() && q.Counted()
    ensures q.added == TokenOcc(tokens)
    ensures q.termPosArr == SortSpec(TokenOcc(tokens), OccKey)
    ensures ok == BufferFits(q.termPosArr)
    ensures ok ==> q.Indexed() && q.pad == QueryPad
  {
    q := new TermInfo();
    AddTokens(q, tokens);
    ok := q.SortAndRawText(QueryPad);
  }

  /** The token loop of `getTokens`. */
  method AddTokens(q: TermInfo, tokens: seq<Token>)
    requires q.Valid() && q.Counted() && q.added == [] && q.termPosArr == []
    modifies q`termPosArr, q`queryTokenCountMap, q`added
    ensures q.Valid() && q.Counted()
    ensures q.added == TokenOcc(tokens) && q.termPosArr == q.added
  {
    var i := 0;
    while i < |tokens|
      invariant 0 <= i <= |tokens|
      invariant q.Valid() && q.Counted()
      invariant q.added == TokenOcc(tokens[..i]) && q.termPosArr == q.added
    {
      q.AddTermPos(tokens[i].term, tokens[i].offset);
      assert tokens[..i + 1][..i] == tokens[..i];
      i := i + 1;
    }
    assert tokens[..|tokens|] == tokens;
  }

  /** `getQueryTokenIDF`: ln(1 + (N - df + 0.5) / (df + 0.5)) for every query term. */
  method GetQueryTokenIDF(n: int, queryTokens: map<string, int>, docFreq: string -> nat, ln: real -> real)
    returns (idf: map<string, real>)
    ensures idf.Keys == queryTokens.Keys
    ensures forall t :: t in idf ==> idf[t] == Idf(n, docFreq(t), ln)
  {
    idf := map[];
    var remaining := queryTokens.Keys;
    while remaining != {}
      invariant remaining <= queryTokens.Keys
      invariant idf.Keys == queryTokens.Keys - remaining
      invariant forall t :: t in idf ==> idf[t] == Idf(n, docFreq(t), ln)
      decreases remaining
    {
      var t :| t in remaining;
      var df := docFreq(t);
      idf := idf[t := ln(1.0 + ((n - df) as real + 0.5) / (df as real + 0.5))];
      remaining := remaining - {t};
    }
  }

  // ---------------------------------------------------------------------
  // The scorers of one document

  /** `calcBM25`: the BM25 variant summed over the query terms the document
      has; with a decay map, each such term's count is read for its factor
      and then raised by one. The map is threaded as a value. */
  method CalcBM25(d: DocInfo, boost: real, tokenCount: Option<map<string, int>>, decay: real, exp: real -> real)
    returns (score: real, counts: Option<map<string, int>>)
    ensures score == Bm25(|d.docTermsInfo.termPosArr|, d.avgdl, d.queryTermsInfo.queryTokenCountMap,
                          d.termIdf, d.docTermFreq, boost, tokenCount, decay, exp)
    ensures counts == Bm25Counts(d.termIdf, d.docTermFreq, tokenCount)
  {
    var k := NormK(|d.docTermsInfo.termPosArr|, d.avgdl);
    var tokens, idf, tf := d.queryTermsInfo.queryTokenCountMap, d.termIdf, d.docTermFreq;
    ghost var f := Bm25Term(k, tokens, idf, tf, boost, tokenCount, decay, exp);
    score := 0.0;
    counts := tokenCount;
    var remaining := idf.Keys;
    ghost var used: set<string> := {};
    CountsAfterNothing(tokenCount);
    while remaining != {}
      invariant remaining <= idf.Keys
      invariant used == (idf.Keys - remaining) * tf.Keys
      invariant score + SumOver(remaining * tf.Keys, f) == SumOver(Matched(idf, tf), f)
      invariant counts == CountsAfter(tokenCount, used)
      decreases remaining
    {
      var t :| t in remaining;
      VisitStep(idf.Keys, tf.Keys, remaining, t);
      SumVisit(remaining, tf.Keys, f, t);
      if t in tf {
        CountsStep(tokenCount, used, t, decay, exp);
        var termScore;
        termScore, counts := Bm25Step(k, tokens, idf, tf, boost, counts, decay, exp, t);
        assert termScore == f(t);
        score := score + termScore;
        used := used + {t};
      }
      remaining := remaining - {t};
    }
    assert (idf.Keys - remaining) * tf.Keys == Matched(idf, tf);
  }

  // ---------------------------------------------------------------------
  // Term proximity

  /** What the scorers need of a record: a query index distinct from the
      document's, both consistent, an idf for every query term, and the
      next-hit helper pointing forward or nowhere. */
  ghost predicate Scorable(d: DocInfo)
    reads d`helpers
    reads d.docTermsInfo`termPosArr, d.docTermsInfo`added, d.docTermsInfo`queryTokenCountMap
    reads d.queryTermsInfo`termPosArr, d.queryTermsInfo`added
    reads d.queryTermsInfo`queryTokenCountMap
  {
    && d.queryTermsInfo != d.docTermsInfo
    && d.docTermsInfo.Valid() && d.docTermsInfo.Counted()
    && d.queryTermsInfo.Valid() && d.queryTermsInfo.Counted()
    && d.queryTermsInfo.queryTokenCountMap.Keys <= d.termIdf.Keys
    && NextHitsValid(d.helpers, |d.docTermsInfo.termPosArr|)
  }

  /** The loop of `calcTermProximity` that puts 0 for every query term. */
  method ZeroedAcc(tokens: map<string, int>) returns (acc: map<string, real>)
    ensures acc == ZeroAcc(tokens)
  {
    acc := map[];
    var remaining := tokens.Keys;
    while remaining != {}
      invariant remaining <= tokens.Keys
      invariant acc.Keys == tokens.Keys - remaining
      invariant forall t :: t in acc ==> acc[t] == 0.0
      decreases remaining
    {
      var t :| t in remaining;
      acc := acc[t := 0.0];
      remaining := remaining - {t};
    }
    assert acc.Keys == ZeroAcc(tokens).Keys;
  }

  /** The query loop of `calcTermProximity`: whether the query has t1 and,
      `gap` occurrences later, t2. */
  method FindGap(q: TermInfo, t1: string, t2: string, gap: int) returns (found: bool)
    requires q.Valid() && q.Counted() && gap >= 1
    ensures found == QueryHasGap(Terms(q.termPosArr), t1, t2, gap)
  {
    found := false;
    var size := q.Size();
    assert size == |q.termPosArr|;
    var m, n := 0, gap;
    while n < size
      invariant n == m + gap && 0 <= m
      invariant forall j :: 0 <= j < m && j + gap < |q.termPosArr| ==>
        !(q.termPosArr[j].term == t1 && q.termPosArr[j + gap].term == t2)
      decreases size - n
    {
      if q.GetTerm(m) == t1 && q.GetTerm(n) == t2 {
        found := true;
        break;
      }
      m, n := m + 1, n + 1;
    }
  }

  /** The squared gap is positive and is the gap times itself. */
  lemma SquaredGap(gap: int)
    requires gap >= 1
    ensures Sq(gap) == (gap as real) * (gap as real) && Sq(gap) >= 1.0
  {
    assert gap * gap >= 1;
  }

  /** The `continue` checks of the main loop of `calcTermProximity`: the pair
      occurrence i contributes, if any. */
  method PairOf(d: DocInfo, i: int) returns (pair: Option<Pair>)
    requires Scorable(d) && 0 <= i < |d.docTermsInfo.termPosArr|
    ensures pair == PairAt(Terms(d.docTermsInfo.termPosArr), d.queryTermsInfo.queryTokenCountMap, d.helpers, i)
  {
    var dt, tokens := d.docTermsInfo, d.queryTermsInfo.queryTokenCountMap;
    if d.GetTermHit(i) == 0 {
      return None;
    }
    var next := d.GetNextTermHit(i);
    if next == -1 {
      return None;
    }
    var t1 := dt.GetTerm(i);
    var t2 := dt.GetTerm(next);
    if !(t1 in tokens) || !(t2 in tokens) {
      return None;
    }
    if t1 == t2 {
      return None;
    }
    return Some(Pair(t1, t2, next - i));
  }

  /** One pass of the main loop of `calcTermProximity` (occurrence i): a
      contributing pair raises `acc` for both its terms and, when the query
      holds the same pair at the same gap, the boost by 0.1. */
  method ProximityStep(d: DocInfo, i: int, acc: map<string, real>, b: real, ghost boost0: real)
    returns (acc': map<string, real>, b': real)
    requires Scorable(d) && 0 <= i < |d.docTermsInfo.termPosArr|
    requires acc == AccAfter(Terms(d.docTermsInfo.termPosArr), d.queryTermsInfo.queryTokenCountMap, d.termIdf, d.helpers, i)
    requires b == BoostAfter(Terms(d.docTermsInfo.termPosArr), Terms(d.queryTermsInfo.termPosArr),
                             d.queryTermsInfo.queryTokenCountMap, d.helpers, boost0, i)
    ensures acc' == AccAfter(Terms(d.docTermsInfo.termPosArr), d.queryTermsInfo.queryTokenCountMap, d.termIdf, d.helpers, i + 1)
    ensures b' == BoostAfter(Terms(d.docTermsInfo.termPosArr), Terms(d.queryTermsInfo.termPosArr),
                             d.queryTermsInfo.queryTokenCountMap, d.helpers, boost0, i + 1)
  {
    ghost var dts, qts := Terms(d.docTermsInfo.termPosArr), Terms(d.queryTermsInfo.termPosArr);
    ghost var tokens, h := d.queryTermsInfo.queryTokenCountMap, d.helpers;
    var pair := PairOf(d, i);
    match pair
    case None =>
      NoPairStep(dts, qts, tokens, d.termIdf, h, boost0, i);
      acc', b' := acc, b;
    case Some(p) =>
      PairStep(dts, qts, tokens, d.termIdf, h, boost0, i, p);
      var found := FindGap(d.queryTermsInfo, p.t1, p.t2, p.gap);
      b' := if found then b + GapBoost else b;
      acc' := AccumulatePair(acc, d.termIdf, p.t1, p.t2, p.gap);
  }

  /** The `acc` updates of `calcTermProximity` for one pair at distance `gap`. */
  method AccumulatePair(acc: map<string, real>, idf: map<string, real>, t1: string, t2: string, gap: int)
    returns (acc': map<string, real>)
    requires t1 in acc && t2 in acc && t1 in idf && t2 in idf && gap >= 1
    ensures acc' == AddPair(acc, idf, Pair(t1, t2, gap))
  {
    var dis := gap as real;
    dis := dis * dis;
    SquaredGap(gap);
    assert dis == Sq(gap);
    var v1 := acc[t1];
    v1 := v1 + idf[t2] / dis;
    acc' := acc[t1 := v1];
    var v2 := acc'[t2];
    v2 := v2 + idf[t1] / dis;
    acc' := acc'[t2 := v2];
  }

  /** `AccAfter` and `BoostAfter` one occurrence further, when occurrence i
      contributes no pair. */
  lemma NoPairStep(docTerms: seq<string>, queryTerms: seq<string>, tokens: map<string, int>, idf: map<string, real>,
                   h: DocHelpers, boost0: real, i: nat)
    requires i < |docTerms| && PairAt(docTerms, tokens, h, i).None?
    ensures AccAfter(docTerms, tokens, idf, h, i + 1) == AccAfter(docTerms, tokens, idf, h, i)
    ensures BoostAfter(docTerms, queryTerms, tokens, h, boost0, i + 1) == BoostAfter(docTerms, queryTerms, tokens, h, boost0, i)
  {
  }

  /** `AccAfter` and `BoostAfter` one occurrence further, when occurrence i
      contributes the pair p. */
  lemma PairStep(docTerms: seq<string>, queryTerms: seq<string>, tokens: map<string, int>, idf: map<string, real>,
                 h: DocHelpers, boost0: real, i: nat, p: Pair)
    requires i < |docTerms| && PairAt(docTerms, tokens, h, i) == Some(p)
    ensures AccAfter(docTerms, tokens, idf, h, i + 1) == AddPair(AccAfter(docTerms, tokens, idf, h, i), idf, p)
    ensures BoostAfter(docTerms, queryTerms, tokens, h, boost0, i + 1) ==
      var b := BoostAfter(docTerms, queryTerms, tokens, h, boost0, i);
      if QueryHasGap(queryTerms, p.t1, p.t2, p.gap) then b + GapBoost else b
  {
  }

  /** One entry of the last loop of `calcTermProximity`. */
  method ProximityTerm(acc: map<string, real>, idf: map<string, real>, k: real, counts: Option<map<string, int>>,
                       decay: real, exp: real -> real, tok: string) returns (v: real)
    requires tok in acc
    ensures v == TpTermValue(acc, idf, k, DecayFactor(counts, tok, decay, exp), tok)
  {
    var scoreTP := acc[tok];
    var decayFactor := 1.0;
    if counts.Some? {
      decayFactor := Decay(GetOr(counts.value, tok, 0), decay, exp);
    }
    v := Quot(decayFactor * Min(1.0, GetOr(idf, tok, 0.0)) * scoreTP * (K1 + 1.0), scoreTP + k);
  }

  /** The last loop of `calcTermProximity`: the sum over the `acc` entries of
      decay * min(1, idf) * acc * (k1 + 1) / (acc + K). */
  method ProximitySum(acc: map<string, real>, idf: map<string, real>, k: real, counts: Option<map<string, int>>,
                      decay: real, exp: real -> real) returns (sum: real)
    ensures sum == SumOver(acc.Keys, TpTerm(acc, idf, k, counts, decay, exp))
  {
    ghost var f := TpTerm(acc, idf, k, counts, decay, exp);
    sum := 0.0;
    var remaining := acc.Keys;
    while remaining != {}
      invariant remaining <= acc.Keys
      invariant sum + SumOver(remaining, f) == SumOver(acc.Keys, f)
      decreases remaining
    {
      var tok :| tok in remaining;
      var v := ProximityTerm(acc, idf, k, counts, decay, exp, tok);
      assert v == f(tok);
      SumOverRemove(remaining, f, tok);
      sum := sum + v;
      remaining := remaining - {tok};
    }
  }

  /** The main loop of `calcTermProximity`: every adjacent document pair
      whose gap the query also has, accumulated and boosted. */
  method ProximityPairs(d: DocInfo, boost: real) returns (acc: map<string, real>, b: real)
    requires Scorable(d)
    ensures acc == AccAfter(Terms(d.docTermsInfo.termPosArr), d.queryTermsInfo.queryTokenCountMap, d.termIdf,
                            d.helpers, |d.docTermsInfo.termPosArr|)
    ensures b == BoostAfter(Terms(d.docTermsInfo.termPosArr), Terms(d.queryTermsInfo.termPosArr),
                            d.queryTermsInfo.queryTokenCountMap, d.helpers, boost, |d.docTermsInfo.termPosArr|)
  {
    var dt, q := d.docTermsInfo, d.queryTermsInfo;
    acc := ZeroedAcc(q.queryTokenCountMap);
    b := boost;
    var n := dt.Size();
    assert n == |dt.termPosArr|;
    var i := 0;
    while i < n
      invariant 0 <= i <= n
      invariant acc == AccAfter(Terms(dt.termPosArr), q.queryTokenCountMap, d.termIdf, d.helpers, i)
      invariant b == BoostAfter(Terms(dt.termPosArr), Terms(q.termPosArr), q.queryTokenCountMap, d.helpers, boost, i)
    {
      acc, b := ProximityStep(d, i, acc, b, boost);
      i := i + 1;
    }
  }

  lemma ProximityFromSum(acc: map<string, real>, b: real, idf: map<string, real>, k: real,
                         counts: Option<map<string, int>>, decay: real, exp: real -> real, sum: real)
    requires sum == SumOver(acc.Keys, TpTerm(acc, idf, k, counts, decay, exp))
    ensures ProximityFrom(acc, b, idf, k, counts, decay, exp) == Proximity(sum * b, Some(b))
  {
  }

  /** `calcTermProximity`: the score and stored boost `TermProximity` defines;
      on the early return the boost is left as it was. */
  method CalcTermProximity(d: DocInfo, boost: real, counts: Option<map<string, int>>, decay: real, exp: real -> real)
    returns (score: real)
    requires Scorable(d)
    modifies d`boost
    ensures var p := TermProximity(Terms(d.docTermsInfo.termPosArr), Terms(d.queryTermsInfo.termPosArr),
                                   d.queryTermsInfo.queryTokenCountMap, d.termIdf, d.helpers, d.avgdl,
                                   boost, counts, decay, exp);
      score == p.score && d.boost == (if p.boost.Some? then p.boost.value else old(d.boost))
  {
    var dt, q := d.docTermsInfo, d.queryTermsInfo;
    var size := dt.Size();
    assert size == |dt.termPosArr|;
    var k := NormK(size, d.avgdl);
    var tokens, idf := q.queryTokenCountMap, d.termIdf;
    if size <= 1 || |tokens| <= 1 {
      return 0.0;
    }
    var acc, b := ProximityPairs(d, boost);
    ghost var dts := Terms(dt.termPosArr);
    assert k == NormK(|dts|, d.avgdl);
    ghost var p := TermProximity(dts, Terms(q.termPosArr), tokens, idf, d.helpers, d.avgdl, boost, counts, decay, exp);
    assert p == ProximityFrom(acc, b, idf, k, counts, decay, exp);
    var sum := ProximitySum(acc, idf, k, counts, decay, exp);
    ProximityFromSum(acc, b, idf, k, counts, decay, exp, sum);
    d.boost := b;
    score := sum * b;
  }

  // ---------------------------------------------------------------------
  // Adjacent characters

  /** The inner loop of `calcTermAdjacentCharMatch` for doc occurrence i. */
  method AdjacentRowLoop(d: DocInfo, window: int, i: int, s: real) returns (s': real)
    requires Scorable(d) && 0 <= i < |d.docTermsInfo.termPosArr|
    ensures s' == s + AdjacentRow(Terms(d.docTermsInfo.termPosArr), Terms(d.queryTermsInfo.termPosArr), d.helpers,
                                  window, i, |d.queryTermsInfo.termPosArr|)
  {
    var dt, q := d.docTermsInfo, d.queryTermsInfo;
    var dts, qts := Terms(dt.termPosArr), Terms(q.termPosArr);
    s' := s;
    var dterm := dt.GetTerm(i);
    var size := q.Size();
    assert size == |q.termPosArr|;
    var j := 0;
    while j < size
      invariant 0 <= j <= size
      invariant s' == s + AdjacentRow(dts, qts, d.helpers, window, i, j)
    {
      var qterm := q.GetTerm(j);
      if dterm == qterm {
        s' := s' + d.DocTermRightHit(i, j, window);
        s' := s' + d.DocTermLeftHit(i, j, window);
      }
      j := j + 1;
    }
  }

  /** `calcTermAdjacentCharMatch`: 2.2 times the right and left hits of every
      equal (document, query) occurrence pair. */
  method CalcTermAdjacentCharMatch(d: DocInfo, window: int)
    requires Scorable(d)
    modifies d`charHitScore
    ensures d.charHitScore == Adjacent(Terms(d.docTermsInfo.termPosArr), Terms(d.queryTermsInfo.termPosArr), d.helpers, window)
  {
    var dt, q := d.docTermsInfo, d.queryTermsInfo;
    var dts, qts := Terms(dt.termPosArr), Terms(q.termPosArr);
    var charHitScore := 0.0;
    var size := dt.Size();
    assert size == |dt.termPosArr|;
    var i := 0;
    while i < size
      invariant 0 <= i <= size
      invariant charHitScore == AdjacentSum(dts, qts, d.helpers, window, i)
    {
      charHitScore := AdjacentRowLoop(d, window, i, charHitScore);
      i := i + 1;
    }
    d.charHitScore := charHitScore * AdjacentWeight;
  }
}
