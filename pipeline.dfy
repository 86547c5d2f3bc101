/** The `rescore` pipeline of `BM25tpRescorer`: the window of candidate
    records, their sort by document id, `getDocInfo`, the two scoring passes
    with the sorts after each, and the output with its fallback. */
module Pipeline {
  import opened Basics
  import opened Sorting
  import opened TermIndex
  import opened DocRecord
  import opened Scoring
  import opened Rescorer
  import opened Records
  import opened DocIndex

  // ---------------------------------------------------------------------
  // getDocInfo, the window

  /** `getDocInfo` for one record: its term vector, missing where the Java code
      dereferences null, then its index. */
  method BuildDoc(d: DocInfo, dt: TermInfo, q: TermInfo, vectors: int -> Option<seq<VectorTerm>>,
                  charHits: (seq<TermPos>, seq<TermPos>) -> DocHelpers, ghost env: QueryEnv)
    returns (ok: bool)
    requires d.docTermsInfo == dt && q != dt
    requires EnvIndex(q, env) && EmptyAt(d, dt)
    modifies d`docTermFreq, d`docTermCount, d`docString, d`helpers, d`docCharHitCount
    modifies dt`termPosArr, dt`queryTokenCountMap, dt`added, dt`charHit, dt`rawText, dt`pad
    ensures EnvIndex(q, env) && ok == !DocFails(vectors(d.docid), env.tokens)
    ensures ok ==> FilledFrom(FilledAt(d, dt), vectors, charHits, env)
  {
    var vector := vectors(d.docid);
    if vector.None? {
      return false;
    }
    ghost var occ, tf := VectorOcc(vector.value, env.tokens), PutFreqs(map[], vector.value);
    ghost var id := d.docid;
    ok := BuildDocIndex(d, dt, q, vector.value, charHits, occ, tf);
    assert d.docid == id && d.docTermsInfo == dt && q.queryTokenCountMap == env.tokens
      && q.termPosArr == env.qocc;
  }

  /** The array of records of the first `end` candidates, in candidate order. */
  method MakeWindow(scoreDocs: seq<ScoreDoc>, end: int, q: TermInfo, idf: map<string, real>, avgdl: real, n: int,
                    ghost env: QueryEnv)
    returns (a: array<DocInfo>)
    requires 0 <= end <= |scoreDocs| && env.idf == idf && env.avgdl == avgdl
    ensures fresh(a) && a.Length == end && Window(a[..], q)
    ensures forall i :: 0 <= i < end ==> fresh(a[i]) && fresh(a[i].docTermsInfo) && a[i].bm25OrderOriginal == i
    ensures forall i :: 0 <= i < end ==> Candidate(a[i], scoreDocs, env) && Unbuilt(a[i])
  {
    var s: seq<DocInfo> := [];
    for i := 0 to end
      invariant |s| == i && Window(s, q)
      invariant forall j :: 0 <= j < i ==> fresh(s[j]) && fresh(s[j].docTermsInfo) && s[j].bm25OrderOriginal == j
      invariant forall j :: 0 <= j < i ==> Candidate(s[j], scoreDocs, env) && Unbuilt(s[j])
    {
      var d := new DocInfo(scoreDocs[i].doc, scoreDocs[i].score, avgdl, idf, q, i, n);
      s := s + [d];
    }
    a := new DocInfo[end](j requires 0 <= j < end => s[j]);
    assert a[..] == s;
  }

  /** The first sort of `rescore`: ascending document id. The comparator
      reads the id of each record, which the sort leaves alone, so a
      snapshot of the ids taken before the sort gives the same order. */
  method SortByDocid(a: array<DocInfo>)
    modifies a
    ensures multiset(a[..]) == multiset(old(a[..]))
    ensures forall i, j :: 0 <= i < j < a.Length ==> a[i].docid <= a[j].docid
  {
    ghost var s := a[..];
    var ids := map d | d in a[..] :: Key(d.docid as real, 0);
    var key := d => if d in ids then ids[d] else Key(0.0, 0);
    SortInPlace(a, key);
    SortSpecSorted(s, key);
    forall i, j | 0 <= i < j < a.Length ensures a[i].docid <= a[j].docid {
      assert a[i] in multiset(s) && a[j] in multiset(s);
      assert KeyLe(key(a[..][i]), key(a[..][j]));
    }
  }

  /** `getDocInfo` has built the first |fs| records of the window `s`, whose
      indexes are `ts` and whose query index is `q`, and their filled parts
      are `fs`; the others are still empty. */
  ghost predicate Progress(s: seq<DocInfo>, ts: seq<TermInfo>, q: TermInfo, fs: seq<Filled>,
                           vectors: int -> Option<seq<VectorTerm>>,
                           charHits: (seq<TermPos>, seq<TermPos>) -> DocHelpers, env: QueryEnv)
    reads s`docTermFreq, s`docString, s`helpers, s`docCharHitCount
    reads ts`termPosArr, ts`added, ts`queryTokenCountMap, q`termPosArr, q`added, q`queryTokenCountMap
  {
    && |fs| <= |s| == |ts| && EnvIndex(q, env)
    && (forall j :: 0 <= j < |s| ==> s[j].docTermsInfo == ts[j])
    && (forall j :: 0 <= j < |fs| ==> FilledAt(s[j], ts[j]) == fs[j])
    && (forall f :: f in fs ==> FilledFrom(f, vectors, charHits, env))
    && (forall j :: |fs| <= j < |s| ==> EmptyAt(s[j], ts[j]))
  }

  /** `getDocInfo` for the next record of the window. */
  method BuildNext(ghost s: seq<DocInfo>, ghost ts: seq<TermInfo>, q: TermInfo, ghost fs: seq<Filled>, d: DocInfo,
                   vectors: int -> Option<seq<VectorTerm>>,
                   charHits: (seq<TermPos>, seq<TermPos>) -> DocHelpers, ghost env: QueryEnv)
    returns (ok: bool, ghost fs': seq<Filled>)
    requires Progress(s, ts, q, fs, vectors, charHits, env) && |fs| < |s| && d == s[|fs|] && ts[|fs|] != q
    requires forall j :: 0 <= j < |s| && j != |fs| ==> s[j] != d && ts[j] != ts[|fs|]
    modifies d`docTermFreq, d`docTermCount, d`docString, d`helpers, d`docCharHitCount
    modifies d.docTermsInfo`termPosArr, d.docTermsInfo`queryTokenCountMap, d.docTermsInfo`added
    modifies d.docTermsInfo`charHit, d.docTermsInfo`rawText, d.docTermsInfo`pad
    ensures EnvIndex(q, env) && ok == !DocFails(vectors(d.docid), env.tokens)
    ensures ok ==> |fs'| == |fs| + 1 && Progress(s, ts, q, fs', vectors, charHits, env)
  {
    var dt := d.docTermsInfo;
    ok := BuildDoc(d, dt, q, vectors, charHits, env);
    fs' := fs + [FilledAt(d, dt)];
  }

  /** `getDocInfo`: every record's index, in array order; `ok` is false
      where the Java code throws on some record. `recs` holds the records and
      `dts` their indexes. */
  method GetDocInfo(s: seq<DocInfo>, q: TermInfo, vectors: int -> Option<seq<VectorTerm>>,
                    charHits: (seq<TermPos>, seq<TermPos>) -> DocHelpers, ghost env: QueryEnv,
                    ghost recs: set<DocInfo>, ghost dts: set<TermInfo>)
    returns (ok: bool)
    requires Window(s, q) && EnvIndex(q, env) && q !in dts
    requires forall j :: 0 <= j < |s| ==> s[j] in recs && s[j].docTermsInfo in dts && Unbuilt(s[j])
    modifies recs`docTermFreq, recs`docTermCount, recs`docString, recs`helpers, recs`docCharHitCount
    modifies dts`termPosArr, dts`added, dts`queryTokenCountMap, dts`charHit, dts`rawText, dts`pad
    ensures EnvIndex(q, env)
    ensures ok == forall j :: 0 <= j < |s| ==> !DocFails(vectors(s[j].docid), env.tokens)
    ensures ok ==> forall j :: 0 <= j < |s| ==> BuiltFrom(s[j], vectors, charHits, env)
  {
    ghost var ts := seq(|s|, j requires 0 <= j < |s| => s[j].docTermsInfo);
    assert forall j, k :: 0 <= j < k < |s| ==> s[j] != s[k] && ts[j] != ts[k];
    assert forall j :: 0 <= j < |s| ==> ts[j] != q;
    ok := BuildAll(s, ts, q, vectors, charHits, env, recs, dts);
  }

  /** The loop of `getDocInfo` over the window `s`, whose indexes are `ts`:
      it stops at the first record that fails. */
  method BuildAll(s: seq<DocInfo>, ghost ts: seq<TermInfo>, q: TermInfo, vectors: int -> Option<seq<VectorTerm>>,
                  charHits: (seq<TermPos>, seq<TermPos>) -> DocHelpers, ghost env: QueryEnv,
                  ghost recs: set<DocInfo>, ghost dts: set<TermInfo>)
    returns (ok: bool)
    requires Progress(s, ts, q, [], vectors, charHits, env)
    requires forall j, k :: 0 <= j < k < |s| ==> s[j] != s[k] && ts[j] != ts[k]
    requires forall j :: 0 <= j < |s| ==> ts[j] != q && s[j] in recs && ts[j] in dts
    modifies recs`docTermFreq, recs`docTermCount, recs`docString, recs`helpers, recs`docCharHitCount
    modifies dts`termPosArr, dts`added, dts`queryTokenCountMap, dts`charHit, dts`rawText, dts`pad
    ensures EnvIndex(q, env)
    ensures ok == forall j :: 0 <= j < |s| ==> !DocFails(vectors(s[j].docid), env.tokens)
    ensures ok ==> forall j :: 0 <= j < |s| ==> BuiltFrom(s[j], vectors, charHits, env)
  {
    ghost var fs := [];
    ok := true;
    var i := 0;
    while ok && i < |s|
      invariant 0 <= i <= |s| && |fs| == i && EnvIndex(q, env)
      invariant ok ==> Progress(s, ts, q, fs, vectors, charHits, env)
      invariant !ok ==> i < |s| && DocFails(vectors(s[i].docid), env.tokens)
    {
      ghost var next;
      assert forall j :: 0 <= j < |s| && j != i ==> s[j] != s[i] && ts[j] != ts[i];
      ok, next := BuildNext(s, ts, q, fs, s[i], vectors, charHits, env);
      if ok {
        fs, i := next, i + 1;
      }
    }
    if ok {
      ProgressComplete(s, ts, q, fs, vectors, charHits, env);
    }
  }

  /** Once every record is built, each is built from its term vector, which
      therefore exists and fits. */
  lemma ProgressComplete(s: seq<DocInfo>, ts: seq<TermInfo>, q: TermInfo, fs: seq<Filled>,
                         vectors: int -> Option<seq<VectorTerm>>,
                         charHits: (seq<TermPos>, seq<TermPos>) -> DocHelpers, env: QueryEnv)
    requires Progress(s, ts, q, fs, vectors, charHits, env) && |fs| == |s|
    ensures forall j :: 0 <= j < |s| ==> BuiltFrom(s[j], vectors, charHits, env)
    ensures forall j :: 0 <= j < |s| ==> !DocFails(vectors(s[j].docid), env.tokens)
  {
  }

  // ---------------------------------------------------------------------
  // What `rescore` computes

  /** The comparator of the pass-1 sort as a key. */
  ghost function Pass1Order(exp: real -> real): DocView -> Key
  {
    v => Pass1Key(v, exp)
  }

  /** The comparator of the final sort: score descending. */
  function FinalKey(e: ScoreDoc): Key
  {
    Key(-e.score, 0)
  }

  /** The final sort leaves the scores from highest to lowest. */
  lemma FinalSortOrdered(docs: seq<ScoreDoc>)
    ensures NonIncreasing(SortSpec(docs, FinalKey))
  {
    SortSpecSorted(docs, FinalKey);
  }

  /** The result of `rescore` on a window where nothing throws: the views of
      the window sorted by pass-1 score, their pass-2 results in that order
      sorted by score, and the positive ones among those, or the first alone
      when none is positive. */
  ghost function RescoreSpec(scoreDocs: seq<ScoreDoc>, ctx: Context, stats: Stats,
                             vectors: int -> Option<seq<VectorTerm>>,
                             charHits: (seq<TermPos>, seq<TermPos>) -> DocHelpers, ln: real -> real,
                             exp: real -> real): seq<ScoreDoc>
    requires !Fails(scoreDocs, ctx, vectors)
  {
    var order := SortSpec(WindowViews(scoreDocs, ctx, stats, vectors, charHits, ln), Pass1Order(exp));
    var final := SortSpec(Pass2Docs(order, ctx.decay, exp), FinalKey);
    assert |final| == |multiset(final)| == |multiset(order)| > 0;
    Output(final)
  }

  /** The pass-1 sort puts the higher pass-1 score first and, between equal
      scores, the better original rank first. */
  lemma Pass1Ordered(w: seq<DocView>, exp: real -> real)
    requires forall i :: 0 <= i < |w| ==> w[i].orig == i
    ensures var o := SortSpec(w, Pass1Order(exp));
      forall i, j :: 0 <= i < j < |o| ==>
        Pass1Score(o[i], exp) > Pass1Score(o[j], exp) ||
        (Pass1Score(o[i], exp) == Pass1Score(o[j], exp) && o[i].orig < o[j].orig)
  {
    var o := SortSpec(w, Pass1Order(exp));
    SortSpecSorted(w, Pass1Order(exp));
    forall i, j | 0 <= i < j < |o| && Pass1Score(o[i], exp) == Pass1Score(o[j], exp)
      ensures o[i].orig < o[j].orig
    {
      assert KeyLe(Pass1Order(exp)(o[i]), Pass1Order(exp)(o[j]));
      assert o[i] in multiset(w) && o[j] in multiset(w);
      if o[i].orig == o[j].orig {
        assert o[i] == w[o[i].orig] == o[j];
        OrigDistinct(w);
        DistinctPermutation(w, o);
        assert false;
      }
    }
  }

  /** Views whose original ranks are their positions are all different. */
  lemma OrigDistinct(w: seq<DocView>)
    requires forall i :: 0 <= i < |w| ==> w[i].orig == i
    ensures Distinct(w)
  {
  }

  /** The output of the final sort of `docs`: its scores run from highest
      to lowest, each entry is one of `docs`, taken no more often than it
      occurs there, and either all its scores are positive or it is the
      single best entry, whose score is not. */
  lemma FinalOrdered(docs: seq<ScoreDoc>)
    requires |docs| > 0
    ensures var r := Output(SortSpec(docs, FinalKey));
      && NonIncreasing(r)
      && 1 <= |r| <= |docs|
      && (forall e :: e in r ==> e in docs)
      && multiset(r) <= multiset(docs)
      && ((forall e :: e in r ==> e.score > 0.0) || (|r| == 1 && r[0].score <= 0.0))
  {
    var final := SortSpec(docs, FinalKey);
    assert |final| == |multiset(final)| == |multiset(docs)|;
    FinalSortOrdered(docs);
    OutputOrdered(final);
    OutputKeeps(final);
    forall e | e in Output(final) ensures e in docs {
      assert e in final;
      assert e in multiset(docs);
    }
  }

  /** The two passes' output on the window's views `w`, the i-th of which
      is that of the i-th candidate: its scores run from highest to lowest,
      it has no more entries than the window, every entry is a candidate of
      the window, the entries are drawn from the pass-2 entries (one per
      window position) with none taken twice, and either all its scores are
      positive or it is the single best document, whose score is not. */
  lemma PassesOrdered(w: seq<DocView>, scoreDocs: seq<ScoreDoc>, decay: real, exp: real -> real)
    requires 0 < |w| <= |scoreDocs| && forall i :: 0 <= i < |w| ==> w[i].docid == scoreDocs[i].doc
    ensures var r := Output(SortSpec(Pass2Docs(SortSpec(w, Pass1Order(exp)), decay, exp), FinalKey));
      && NonIncreasing(r)
      && 1 <= |r| <= |w|
      && (forall e :: e in r ==> exists i :: 0 <= i < |w| && e.doc == scoreDocs[i].doc)
      && multiset(r) <= multiset(Pass2Docs(SortSpec(w, Pass1Order(exp)), decay, exp))
      && ((forall e :: e in r ==> e.score > 0.0) || (|r| == 1 && r[0].score <= 0.0))
  {
    var order := SortSpec(w, Pass1Order(exp));
    assert |order| == |multiset(order)| == |w|;
    var docs := Pass2Docs(order, decay, exp);
    FinalOrdered(docs);
    Pass2DocsFromWindow(w, order, scoreDocs, decay, exp);
  }

  /** Every pass-2 result of a reordering of the window names a window document. */
  lemma Pass2DocsFromWindow(w: seq<DocView>, order: seq<DocView>, scoreDocs: seq<ScoreDoc>, decay: real, exp: real -> real)
    requires multiset(order) == multiset(w)
    requires |w| <= |scoreDocs| && forall i :: 0 <= i < |w| ==> w[i].docid == scoreDocs[i].doc
    ensures forall e :: e in Pass2Docs(order, decay, exp) ==> exists i :: 0 <= i < |w| && e.doc == scoreDocs[i].doc
  {
    var docs := Pass2Docs(order, decay, exp);
    forall e | e in docs ensures exists i :: 0 <= i < |w| && e.doc == scoreDocs[i].doc {
      var k :| 0 <= k < |docs| && docs[k] == e;
      assert order[k] in multiset(w);
      var i :| 0 <= i < |w| && w[i] == order[k];
    }
  }

  /** The result of `rescore` lists its scores from highest to lowest, has
      no more entries than the window, and every entry is a document of the
      window, drawn from the pass-2 entries (one per window position) with
      none taken twice; either all its scores are positive or it is the single best
      document, whose score is not. */
  lemma RescoreOrdered(scoreDocs: seq<ScoreDoc>, ctx: Context, stats: Stats,
                       vectors: int -> Option<seq<VectorTerm>>,
                       charHits: (seq<TermPos>, seq<TermPos>) -> DocHelpers, ln: real -> real, exp: real -> real)
    requires !Fails(scoreDocs, ctx, vectors)
    ensures var r := RescoreSpec(scoreDocs, ctx, stats, vectors, charHits, ln, exp);
      && NonIncreasing(r)
      && 1 <= |r| <= WindowEnd(scoreDocs, ctx)
      && (forall e :: e in r ==> exists i :: 0 <= i < WindowEnd(scoreDocs, ctx) && e.doc == scoreDocs[i].doc)
      && multiset(r) <= multiset(Pass2Docs(SortSpec(WindowViews(scoreDocs, ctx, stats, vectors, charHits, ln),
                                                   Pass1Order(exp)), ctx.decay, exp))
      && ((forall e :: e in r ==> e.score > 0.0) || (|r| == 1 && r[0].score <= 0.0))
  {
    PassesOrdered(WindowViews(scoreDocs, ctx, stats, vectors, charHits, ln), scoreDocs, ctx.decay, exp);
  }

  // ---------------------------------------------------------------------
  // The two passes

  /** The views a snapshot map gives the records of `s`, in order. */
  ghost function ViewsOf(s: seq<DocInfo>, view: map<DocInfo, DocView>): (vs: seq<DocView>)
    requires forall d :: d in s ==> d in view
    ensures |vs| == |s| && forall i :: 0 <= i < |s| ==> vs[i] == view[s[i]]
  {
    seq(|s|, i requires 0 <= i < |s| => view[s[i]])
  }

  /** A record ready to score whose scores depend on the view `v`. */
  ghost predicate Viewed(d: DocInfo, v: DocView)
    reads d`helpers, d`docCharHitCount, d`docString, d`docTermFreq
    reads d.docTermsInfo`termPosArr, d.docTermsInfo`added, d.docTermsInfo`queryTokenCountMap
    reads d.queryTermsInfo`termPosArr, d.queryTermsInfo`added, d.queryTermsInfo`queryTokenCountMap
  {
    Ready(d) && ViewOf(d) == v
  }

  /** What pass 1 leaves in a record of view `v`: its pass-1 score, and its
      adjacent-character score when the gate admits it. */
  ghost predicate Scored1(d: DocInfo, v: DocView, exp: real -> real)
    reads d`bm25tpScoreNoDecay, d`charHitScore
  {
    d.bm25tpScoreNoDecay == Pass1Score(v, exp) && (Admitted(v) ==> d.charHitScore == AdjacentOf(v))
  }

  /** Pass 1 on one record: -1 when fewer than half of its characters are
      hit, otherwise proximity without decay, adjacent characters and the
      original score. */
  method Pass1Doc(d: DocInfo, ghost v: DocView, exp: real -> real)
    requires Viewed(d, v)
    modifies d`boost, d`charHitScore, d`termProximityScore, d`bm25tpScoreNoDecay
    ensures Scored1(d, v, exp)
  {
    if d.docCharHitCount as real * 2.0 < |d.docString| as real {
      d.bm25tpScoreNoDecay := Skipped;
      return;
    }
    var tpScore := CalcTermProximity(d, InitialBoost, None, 1.0, exp);
    CalcTermAdjacentCharMatch(d, CharWindow);
    d.termProximityScore := tpScore;
    d.bm25tpScoreNoDecay := d.termProximityScore + d.charHitScore + d.bm25ScoreOriginal;
  }

  /** Pass 1 over the records `s`, in array order. */
  method Pass1(s: seq<DocInfo>, ghost view: map<DocInfo, DocView>, exp: real -> real, ghost recs: set<DocInfo>)
    requires Distinct(s)
    requires forall d :: d in s ==> d in recs && d in view && Viewed(d, view[d])
    modifies recs`boost, recs`charHitScore, recs`termProximityScore, recs`bm25tpScoreNoDecay
    ensures forall d :: d in s ==> Scored1(d, view[d], exp)
  {
    for i := 0 to |s|
      invariant forall j :: 0 <= j < i ==> Scored1(s[j], view[s[j]], exp)
    {
      assert forall j :: 0 <= j < i ==> s[j] != s[i];
      Pass1Doc(s[i], view[s[i]], exp);
    }
  }

  /** The pass-1 sort: pass-1 score descending, ties by original rank. The
      comparator reads fields the sort leaves alone, so a snapshot of the
      keys taken before the sort gives the same order. */
  method SortPass1(a: array<DocInfo>, ghost view: map<DocInfo, DocView>, exp: real -> real)
    requires forall d :: d in a[..] ==> d in view && Scored1(d, view[d], exp) && view[d].orig == d.bm25OrderOriginal
    modifies a
    ensures multiset(a[..]) == multiset(old(a[..]))
    ensures forall d :: d in a[..] ==> d in view
    ensures ViewsOf(a[..], view) == SortSpec(ViewsOf(old(a[..]), view), Pass1Order(exp))
  {
    var keys := map d | d in a[..] :: Key(-d.bm25tpScoreNoDecay, d.bm25OrderOriginal);
    ghost var vs := ViewsOf(a[..], view);
    SortBySnapshot(a, keys, view, Pass1Order(exp), vs);
    IndexedMembers(a[..], view);
  }

  /** A sequence whose every element is a key of `m` has all its members in `m`. */
  lemma IndexedMembers<T, B>(s: seq<T>, m: map<T, B>)
    requires forall i :: 0 <= i < |s| ==> s[i] in m
    ensures forall x :: x in s ==> x in m
  {
  }

  /** The loop after the pass-1 sort that records each record's rank; it
      leaves the records ready for pass 2. */
  method SetPass1Order(s: seq<DocInfo>, ghost order: seq<DocView>, exp: real -> real, ghost recs: set<DocInfo>)
    requires Distinct(s) && (forall d :: d in s ==> d in recs) && |order| == |s|
    requires ReadyFor2(s, order, exp, |s|)
    modifies recs`bm25OrderWithTermProximity
    ensures ReadyFor2(s, order, exp, |s|)
    ensures forall i :: 0 <= i < |s| ==> s[i].bm25OrderWithTermProximity == i
  {
    for i := 0 to |s|
      invariant ReadyFor2(s, order, exp, |s|)
      invariant forall j :: 0 <= j < i ==> s[j].bm25OrderWithTermProximity == j
    {
      assert forall j :: 0 <= j < i ==> s[j] != s[i];
      s[i].bm25OrderWithTermProximity := i;
    }
  }

  /** Pass 2 on the k-th record of the pass-1 order, given the decay map
      the records before it left: -1 for a record with a negative pass-1
      score, otherwise proximity and BM25 under the decay map plus the
      adjacent-character score of pass 1; BM25 raises the count of each
      matched term. */
  method Pass2Doc(d: DocInfo, ghost v: DocView, counts: map<string, int>, decay: real, exp: real -> real)
    returns (counts': map<string, int>)
    requires Viewed(d, v) && Scored1(d, v, exp)
    modifies d`boost, d`bm25tpScoreWithDecay
    ensures d.bm25tpScoreWithDecay == Pass2With(v, counts, decay, exp)
    ensures counts' == DecayAfter(v, counts, exp)
  {
    if d.bm25tpScoreNoDecay < 0.0 {
      d.bm25tpScoreWithDecay := Skipped;
      return counts;
    }
    var tpScore, bm25Score;
    tpScore, bm25Score, counts' := Pass2Terms(d, v, counts, decay, exp);
    PassedPass1(v, counts, decay, exp);
    d.bm25tpScoreWithDecay := tpScore + d.charHitScore + bm25Score;
  }

  /** The decayed proximity and BM25 scores of one record, and the decay map
      after BM25 has counted its matched terms. */
  method Pass2Terms(d: DocInfo, ghost v: DocView, counts: map<string, int>, decay: real, exp: real -> real)
    returns (tpScore: real, bm25Score: real, counts': map<string, int>)
    requires Viewed(d, v)
    modifies d`boost
    ensures tpScore == ProximityOf(v, Some(counts), decay, exp).score
    ensures bm25Score == Bm25Of(v, Some(counts), decay, exp)
    ensures counts' == Bumped(counts, Matched(v.idf, v.tf))
  {
    tpScore := CalcTermProximity(d, InitialBoost, Some(counts), decay, exp);
    bm25Score, counts' := Pass2Bm25(d, v, counts, decay, exp);
  }

  /** The decayed BM25 score of one record and the decay map it leaves. */
  method Pass2Bm25(d: DocInfo, ghost v: DocView, counts: map<string, int>, decay: real, exp: real -> real)
    returns (bm25Score: real, counts': map<string, int>)
    requires Viewed(d, v)
    ensures bm25Score == Bm25Of(v, Some(counts), decay, exp)
    ensures counts' == Bumped(counts, Matched(v.idf, v.tf))
  {
    var after;
    bm25Score, after := CalcBM25(d, InitialBoost, Some(counts), decay, exp);
    counts' := after.value;
  }

  /** A document with a non-negative pass-1 score is scored in pass 2 and
      counts its matched terms. */
  lemma PassedPass1(v: DocView, m: map<string, int>, decay: real, exp: real -> real)
    requires Pass1Score(v, exp) >= 0.0
    ensures DecayAfter(v, m, exp) == Bumped(m, Matched(v.idf, v.tf))
    ensures Pass2With(v, m, decay, exp) == ProximityOf(v, Some(m), decay, exp).score + AdjacentOf(v) + Bm25Of(v, Some(m), decay, exp)
  {
  }

  /** Pass 2 over the records `s` in pass-1 order, whose views are `vs`,
      threading the decay map from an empty one. */
  method Pass2(s: seq<DocInfo>, ghost vs: seq<DocView>, decay: real, exp: real -> real, ghost recs: set<DocInfo>)
    requires |vs| == |s| && Distinct(s)
    requires forall k :: 0 <= k < |s| ==> s[k] in recs
    requires ReadyFor2(s, vs, exp, |s|)
    modifies recs`boost, recs`bm25tpScoreWithDecay
    ensures forall k :: 0 <= k < |s| ==> s[k].bm25tpScoreWithDecay == Pass2Score(vs, k, decay, exp)
  {
    var counts: map<string, int> := map[];
    for i: nat := 0 to |s|
      invariant Pass2Done(s, vs, i, counts, decay, exp)
    {
      counts := Pass2Next(s, vs, i, counts, decay, exp);
    }
    Scored2At(s, vs, decay, exp, |s|);
  }

  /** The state of pass 2 after its first `i` records: the decay map counts
      their matched terms and each carries its pass-2 score. */
  ghost predicate Pass2Done(s: seq<DocInfo>, vs: seq<DocView>, i: nat, counts: map<string, int>, decay: real,
                            exp: real -> real)
    reads (set k | 0 <= k < i && k < |s| :: s[k])`bm25tpScoreWithDecay
  {
    && |vs| == |s| && i <= |s|
    && counts == DecayBefore(vs, i, exp)
    && Scored2(s, vs, decay, exp, i)
  }

  /** The first `n` records of `s` carry their pass-2 scores. */
  ghost predicate Scored2(s: seq<DocInfo>, vs: seq<DocView>, decay: real, exp: real -> real, n: nat)
    requires n <= |s| && |vs| == |s|
    reads (set k | 0 <= k < n :: s[k])`bm25tpScoreWithDecay
  {
    n == 0 || (Scored2(s, vs, decay, exp, n - 1) && s[n - 1].bm25tpScoreWithDecay == Pass2Score(vs, n - 1, decay, exp))
  }

  lemma {:induction false} Scored2At(s: seq<DocInfo>, vs: seq<DocView>, decay: real, exp: real -> real, n: nat)
    requires n <= |s| && |vs| == |s|
    requires Scored2(s, vs, decay, exp, n)
    ensures forall k :: 0 <= k < n ==> s[k].bm25tpScoreWithDecay == Pass2Score(vs, k, decay, exp)
  {
    if n > 0 {
      Scored2At(s, vs, decay, exp, n - 1);
    }
  }

  /** Pass 2 on the i-th record of the pass-1 order. */
  method Pass2Next(s: seq<DocInfo>, ghost vs: seq<DocView>, i: nat, counts: map<string, int>, decay: real,
                   exp: real -> real)
    returns (counts': map<string, int>)
    requires Pass2Done(s, vs, i, counts, decay, exp) && i < |s|
    requires Distinct(s) && ReadyFor2(s, vs, exp, |s|)
    modifies {s[i]}`boost, {s[i]}`bm25tpScoreWithDecay
    ensures Pass2Done(s, vs, i + 1, counts', decay, exp)
  {
    ReadyFor2At(s, vs, exp, |s|, i);
    assert s[i] !in (set k | 0 <= k < i :: s[k]);
    counts' := Pass2Doc(s[i], vs[i], counts, decay, exp);
    Pass2Step(vs, i, decay, exp);
  }

  /** The first `n` records of `s` are ready for pass 2: built with views
      `vs` and scored by pass 1. */
  ghost predicate ReadyFor2(s: seq<DocInfo>, vs: seq<DocView>, exp: real -> real, n: nat)
    requires n <= |s| && |vs| == |s|
    reads (set k | 0 <= k < n :: s[k])`helpers, (set k | 0 <= k < n :: s[k])`docCharHitCount
    reads (set k | 0 <= k < n :: s[k])`docString, (set k | 0 <= k < n :: s[k])`docTermFreq
    reads (set k | 0 <= k < n :: s[k])`bm25tpScoreNoDecay, (set k | 0 <= k < n :: s[k])`charHitScore
    reads (set k | 0 <= k < n :: s[k].docTermsInfo)`termPosArr, (set k | 0 <= k < n :: s[k].docTermsInfo)`added
    reads (set k | 0 <= k < n :: s[k].docTermsInfo)`queryTokenCountMap
    reads (set k | 0 <= k < n :: s[k].queryTermsInfo)`termPosArr, (set k | 0 <= k < n :: s[k].queryTermsInfo)`added
    reads (set k | 0 <= k < n :: s[k].queryTermsInfo)`queryTokenCountMap
    decreases n, 1
  {
    n == 0 || ReadyThrough(s, vs, exp, n - 1)
  }

  /** The records up to and including the i-th are ready for pass 2. */
  ghost predicate ReadyThrough(s: seq<DocInfo>, vs: seq<DocView>, exp: real -> real, i: nat)
    requires i < |s| && |vs| == |s|
    reads (set k | 0 <= k <= i :: s[k])`helpers, (set k | 0 <= k <= i :: s[k])`docCharHitCount
    reads (set k | 0 <= k <= i :: s[k])`docString, (set k | 0 <= k <= i :: s[k])`docTermFreq
    reads (set k | 0 <= k <= i :: s[k])`bm25tpScoreNoDecay, (set k | 0 <= k <= i :: s[k])`charHitScore
    reads (set k | 0 <= k <= i :: s[k].docTermsInfo)`termPosArr, (set k | 0 <= k <= i :: s[k].docTermsInfo)`added
    reads (set k | 0 <= k <= i :: s[k].docTermsInfo)`queryTokenCountMap
    reads (set k | 0 <= k <= i :: s[k].queryTermsInfo)`termPosArr, (set k | 0 <= k <= i :: s[k].queryTermsInfo)`added
    reads (set k | 0 <= k <= i :: s[k].queryTermsInfo)`queryTokenCountMap
    decreases i + 1, 0
  {
    ReadyFor2(s, vs, exp, i) && Viewed(s[i], vs[i]) && Scored1(s[i], vs[i], exp)
  }

  lemma {:induction false} ReadyFor2At(s: seq<DocInfo>, vs: seq<DocView>, exp: real -> real, n: nat, i: nat)
    requires n <= |s| && |vs| == |s| && i < n
    requires ReadyFor2(s, vs, exp, n)
    ensures Viewed(s[i], vs[i]) && Scored1(s[i], vs[i], exp)
    decreases n
  {
    if i < n - 1 {
      ReadyFor2At(s, vs, exp, n - 1, i);
    }
  }

  lemma Pass2Step(vs: seq<DocView>, k: nat, decay: real, exp: real -> real)
    requires k < |vs|
    ensures DecayBefore(vs, k + 1, exp) == DecayAfter(vs[k], DecayBefore(vs, k, exp), exp)
    ensures Pass2Score(vs, k, decay, exp) == Pass2With(vs[k], DecayBefore(vs, k, exp), decay, exp)
  {
  }

  /** The final sort: score with decay descending, from a snapshot of the
      (document id, score) entries. */
  method SortFinal(a: array<DocInfo>, ghost docs: seq<ScoreDoc>)
    requires |docs| == a.Length
    requires forall i :: 0 <= i < a.Length ==> docs[i] == ScoreDoc(a[i].docid, a[i].bm25tpScoreWithDecay)
    modifies a
    ensures multiset(a[..]) == multiset(old(a[..]))
    ensures |SortSpec(docs, FinalKey)| == a.Length
    ensures forall i :: 0 <= i < a.Length ==> SortSpec(docs, FinalKey)[i] == ScoreDoc(a[i].docid, a[i].bm25tpScoreWithDecay)
  {
    var keys := map d | d in a[..] :: Key(-d.bm25tpScoreWithDecay, 0);
    ghost var entries := map d | d in a[..] :: ScoreDoc(d.docid, d.bm25tpScoreWithDecay);
    SortBySnapshot(a, keys, entries, FinalKey, docs);
  }

  /** The output loop of `rescore`: each record's final rank, and the
      (document id, score) of each with a positive score, in order; then the
      first record alone when none is positive. */
  method Emit(s: seq<DocInfo>, ghost docs: seq<ScoreDoc>, ghost recs: set<DocInfo>) returns (out: seq<ScoreDoc>)
    requires |docs| == |s| > 0 && Distinct(s)
    requires forall i :: 0 <= i < |s| ==> s[i] in recs && docs[i] == ScoreDoc(s[i].docid, s[i].bm25tpScoreWithDecay)
    modifies recs`bm25OrderWithDecay
    ensures out == Output(docs)
    ensures forall i :: 0 <= i < |s| ==> s[i].bm25OrderWithDecay == i
  {
    out := [];
    for i: nat := 0 to |s|
      invariant out == Positive(docs[..i])
      invariant forall j :: 0 <= j < i ==> s[j].bm25OrderWithDecay == j
    {
      assert forall j :: 0 <= j < i ==> s[j] != s[i];
      out := EmitNext(s[i], docs, i, out);
    }
    assert docs[..|s|] == docs;
    if out == [] {
      out := [ScoreDoc(s[0].docid, s[0].bm25tpScoreWithDecay)];
    }
  }

  /** One pass of the output loop on the i-th record `d`, whose entry is
      `docs[i]`: it gets rank i, and its entry is kept when positive. */
  method EmitNext(d: DocInfo, ghost docs: seq<ScoreDoc>, i: nat, out: seq<ScoreDoc>) returns (out': seq<ScoreDoc>)
    requires i < |docs| && docs[i] == ScoreDoc(d.docid, d.bm25tpScoreWithDecay) && out == Positive(docs[..i])
    modifies d`bm25OrderWithDecay
    ensures d.bm25OrderWithDecay == i && out' == Positive(docs[..i + 1])
  {
    d.bm25OrderWithDecay := i;
    out' := out;
    if d.bm25tpScoreWithDecay > 0.0 {
      out' := out + [ScoreDoc(d.docid, d.bm25tpScoreWithDecay)];
    }
    assert docs[..i + 1][..i] == docs[..i];
  }

  // ---------------------------------------------------------------------
  // rescore

  /** What `rescore` holds once `getDocInfo` has returned: the window's
      records `s` in doc id order, a reordering of the records `s0` in rank
      order, sharing the query's index; each the candidate of its rank and
      filled from its term vector. */
  ghost predicate Prepared(scoreDocs: seq<ScoreDoc>, ctx: Context, stats: Stats,
                           vectors: int -> Option<seq<VectorTerm>>,
                           charHits: (seq<TermPos>, seq<TermPos>) -> DocHelpers, ln: real -> real,
                           s0: seq<DocInfo>, s: seq<DocInfo>)
    reads set d | d in s, set d | d in s :: d.docTermsInfo, set d | d in s :: d.queryTermsInfo
  {
    && |s| == |s0| == WindowEnd(scoreDocs, ctx) > 0 && multiset(s) == multiset(s0)
    && Window(s, s[0].queryTermsInfo) && EnvIndex(s[0].queryTermsInfo, EnvOf(ctx, stats, ln))
    && (forall i :: 0 <= i < |s0| ==> s0[i].bm25OrderOriginal == i)
    && (forall j :: 0 <= j < |s| ==> Candidate(s[j], scoreDocs, EnvOf(ctx, stats, ln)))
    && (forall j :: 0 <= j < |s| ==> BuiltFrom(s[j], vectors, charHits, EnvOf(ctx, stats, ln)))
  }

  /** `rescore` up to `getDocInfo`: the query index and idf map, the window
      of records in candidate order, sorted by document id, then every
      record's index. `ok` is false where the Java code throws. */
  method Prepare(scoreDocs: seq<ScoreDoc>, ctx: Context, stats: Stats, vectors: int -> Option<seq<VectorTerm>>,
                 charHits: (seq<TermPos>, seq<TermPos>) -> DocHelpers, ln: real -> real)
    returns (a: array<DocInfo>, ok: bool, ghost s0: seq<DocInfo>, ghost s: seq<DocInfo>)
    ensures ok == !Fails(scoreDocs, ctx, vectors)
    ensures ok ==> fresh(a) && a[..] == s && forall j :: 0 <= j < |s| ==> fresh(s[j])
    ensures ok ==> Prepared(scoreDocs, ctx, stats, vectors, charHits, ln, s0, s)
  {
    var avgdl := AvgDl(stats);
    var end := WindowEnd(scoreDocs, ctx);
    var q, fits, idf := QueryEnvOf(ctx, stats, ln);
    a, s0, s := new DocInfo[0], [], [];
    if !fits || end <= 0 {
      return a, false, s0, s;
    }
    a, ok, s0, s := BuildWindow(scoreDocs, end, q, idf, avgdl, stats.numDocs, vectors, charHits, EnvOf(ctx, stats, ln));
    WindowFails(scoreDocs, ctx, vectors, s0, s, EnvOf(ctx, stats, ln));
  }

  /** `getTokens` and `getQueryTokenIDF`: the query index and the idf map of
      the environment; `fits` is false where `getTokens` throws. */
  method QueryEnvOf(ctx: Context, stats: Stats, ln: real -> real) returns (q: TermInfo, fits: bool, idf: map<string, real>)
    ensures fresh(q) && fits == BufferFits(QueryOcc(ctx))
    ensures fits ==> EnvIndex(q, EnvOf(ctx, stats, ln)) && idf == EnvOf(ctx, stats, ln).idf
  {
    q, fits := GetTokens(ctx.query);
    idf := GetQueryTokenIDF(stats.numDocs, q.queryTokenCountMap, stats.docFreq, ln);
  }

  /** The window of records of the first `end` candidates, sorted by
      document id, and `getDocInfo` on it; `s0` is the window in candidate
      order and `s` the records in array order. */
  method BuildWindow(scoreDocs: seq<ScoreDoc>, end: int, q: TermInfo, idf: map<string, real>, avgdl: real, n: int,
                     vectors: int -> Option<seq<VectorTerm>>,
                     charHits: (seq<TermPos>, seq<TermPos>) -> DocHelpers, ghost env: QueryEnv)
    returns (a: array<DocInfo>, ok: bool, ghost s0: seq<DocInfo>, ghost s: seq<DocInfo>)
    requires 0 < end <= |scoreDocs| && env.idf == idf && env.avgdl == avgdl && EnvIndex(q, env)
    ensures fresh(a) && a[..] == s && |s| == end && multiset(s) == multiset(s0) && Window(s, q) && EnvIndex(q, env)
    ensures |s0| == end && forall i :: 0 <= i < end ==> s0[i].bm25OrderOriginal == i && s0[i].docid == scoreDocs[i].doc
    ensures forall j :: 0 <= j < end ==> fresh(s[j]) && Candidate(s[j], scoreDocs, env)
    ensures ok == forall j :: 0 <= j < end ==> !DocFails(vectors(s[j].docid), env.tokens)
    ensures ok ==> forall j :: 0 <= j < end ==> BuiltFrom(s[j], vectors, charHits, env)
  {
    a, s0, s := SortedWindow(scoreDocs, end, q, idf, avgdl, n, env);
    ok := GetDocInfo(a[..], q, vectors, charHits, env, set d | d in s, set d | d in s :: d.docTermsInfo);
  }

  /** The window of records of the first `end` candidates, sorted by
      document id: `s0` in candidate order, `s` in array order. */
  method SortedWindow(scoreDocs: seq<ScoreDoc>, end: int, q: TermInfo, idf: map<string, real>, avgdl: real, n: int,
                      ghost env: QueryEnv)
    returns (a: array<DocInfo>, ghost s0: seq<DocInfo>, ghost s: seq<DocInfo>)
    requires 0 < end <= |scoreDocs| && env.idf == idf && env.avgdl == avgdl
    ensures fresh(a) && a[..] == s && |s| == end && multiset(s) == multiset(s0) && Window(s, q)
    ensures |s0| == end && forall i :: 0 <= i < end ==> s0[i].bm25OrderOriginal == i && s0[i].docid == scoreDocs[i].doc
    ensures forall j :: 0 <= j < end ==> fresh(s[j]) && fresh(s[j].docTermsInfo) && Candidate(s[j], scoreDocs, env)
    ensures forall j :: 0 <= j < end ==> Unbuilt(s[j])
  {
    a := MakeWindow(scoreDocs, end, q, idf, avgdl, n, env);
    s0 := a[..];
    SortByDocid(a);
    s := a[..];
    WindowPermutation(s0, s, q);
    forall j | 0 <= j < end ensures fresh(s[j]) && fresh(s[j].docTermsInfo) && Candidate(s[j], scoreDocs, env) && Unbuilt(s[j]) {
      assert s[j] in multiset(s0);
    }
  }

  /** Over a reordering `s` of the window `s0` in candidate order, some
      record fails exactly where `Fails` says so. */
  lemma WindowFails(scoreDocs: seq<ScoreDoc>, ctx: Context, vectors: int -> Option<seq<VectorTerm>>,
                    s0: seq<DocInfo>, s: seq<DocInfo>, env: QueryEnv)
    requires BufferFits(QueryOcc(ctx)) && WindowEnd(scoreDocs, ctx) > 0 && env.tokens == QueryCounts(ctx)
    requires |s0| == WindowEnd(scoreDocs, ctx) && multiset(s0) == multiset(s)
    requires forall i :: 0 <= i < |s0| ==> s0[i].docid == scoreDocs[i].doc
    ensures (forall j :: 0 <= j < |s| ==> !DocFails(vectors(s[j].docid), env.tokens)) == !Fails(scoreDocs, ctx, vectors)
  {
    if forall j :: 0 <= j < |s| ==> !DocFails(vectors(s[j].docid), env.tokens) {
      forall i | 0 <= i < |s0| ensures !DocFails(vectors(scoreDocs[i].doc), env.tokens) {
        assert s0[i] in multiset(s);
      }
    } else {
      var j :| 0 <= j < |s| && DocFails(vectors(s[j].docid), env.tokens);
      assert s[j] in multiset(s0);
      var i :| 0 <= i < |s0| && s0[i] == s[j];
    }
  }

  /** The records of a prepared window are ready to score, with the views of
      their candidates. */
  lemma PreparedViews(scoreDocs: seq<ScoreDoc>, ctx: Context, stats: Stats, vectors: int -> Option<seq<VectorTerm>>,
                      charHits: (seq<TermPos>, seq<TermPos>) -> DocHelpers, ln: real -> real, s: seq<DocInfo>)
    requires HelpersValid(charHits)
    requires |s| > 0 && Window(s, s[0].queryTermsInfo) && EnvIndex(s[0].queryTermsInfo, EnvOf(ctx, stats, ln))
    requires forall j :: 0 <= j < |s| ==> Candidate(s[j], scoreDocs, EnvOf(ctx, stats, ln))
    requires forall j :: 0 <= j < |s| ==> BuiltFrom(s[j], vectors, charHits, EnvOf(ctx, stats, ln))
    ensures forall j :: 0 <= j < |s| ==>
      Ready(s[j]) && 0 <= s[j].bm25OrderOriginal < |scoreDocs|
      && ViewOf(s[j]) == WindowView(scoreDocs, s[j].bm25OrderOriginal, vectors, charHits, EnvOf(ctx, stats, ln))
  {
    forall j | 0 <= j < |s|
      ensures Ready(s[j]) && 0 <= s[j].bm25OrderOriginal < |scoreDocs| && ViewOf(s[j]) == WindowView(scoreDocs, s[j].bm25OrderOriginal, vectors, charHits, EnvOf(ctx, stats, ln))
    {
      BuiltView(s[j], vectors, charHits, scoreDocs, EnvOf(ctx, stats, ln));
    }
  }

  /** In candidate order, the views of a window's records are the window's
      views; in any order, a reordering of them. */
  lemma WindowViewsPermutation(scoreDocs: seq<ScoreDoc>, ctx: Context, stats: Stats,
                               vectors: int -> Option<seq<VectorTerm>>,
                               charHits: (seq<TermPos>, seq<TermPos>) -> DocHelpers, ln: real -> real,
                               s0: seq<DocInfo>, s: seq<DocInfo>, view: map<DocInfo, DocView>)
    requires !Fails(scoreDocs, ctx, vectors)
    requires |s0| == WindowEnd(scoreDocs, ctx) && multiset(s) == multiset(s0)
    requires forall i :: 0 <= i < |s0| ==> s0[i].bm25OrderOriginal == i
    requires forall j :: 0 <= j < |s| ==>
      s[j] in view && 0 <= s[j].bm25OrderOriginal < |scoreDocs| && view[s[j]] == WindowView(scoreDocs, s[j].bm25OrderOriginal, vectors, charHits, EnvOf(ctx, stats, ln))
    ensures multiset(ViewsOf(s, view)) == multiset(WindowViews(scoreDocs, ctx, stats, vectors, charHits, ln))
  {
    var w := WindowViews(scoreDocs, ctx, stats, vectors, charHits, ln);
    forall i | 0 <= i < |s0| ensures s0[i] in view && w[i] == view[s0[i]] {
      assert s0[i] in multiset(s);
    }
    MapPermutation(s, s0, view, ViewsOf(s, view), w);
  }

  /** A prepared window, in array order `s`, is distinct; the view of each
      record is ready; and the views are a reordering of the window's. */
  lemma PreparedWindow(scoreDocs: seq<ScoreDoc>, ctx: Context, stats: Stats, vectors: int -> Option<seq<VectorTerm>>,
                       charHits: (seq<TermPos>, seq<TermPos>) -> DocHelpers, ln: real -> real,
                       s0: seq<DocInfo>, s: seq<DocInfo>)
    returns (view: map<DocInfo, DocView>)
    requires HelpersValid(charHits) && !Fails(scoreDocs, ctx, vectors)
    requires Prepared(scoreDocs, ctx, stats, vectors, charHits, ln, s0, s)
    ensures Distinct(s)
    ensures forall d :: d in s ==> d in view && Viewed(d, view[d])
    ensures multiset(ViewsOf(s, view)) == multiset(WindowViews(scoreDocs, ctx, stats, vectors, charHits, ln))
  {
    view := map d | d in s :: ViewOf(d);
    PreparedViews(scoreDocs, ctx, stats, vectors, charHits, ln, s);
    forall j | 0 <= j < |s|
      ensures s[j] in view && 0 <= s[j].bm25OrderOriginal < |scoreDocs|
      ensures view[s[j]] == WindowView(scoreDocs, s[j].bm25OrderOriginal, vectors, charHits, EnvOf(ctx, stats, ln))
    {
      assert view[s[j]] == ViewOf(s[j]);
    }
    WindowViewsPermutation(scoreDocs, ctx, stats, vectors, charHits, ln, s0, s, view);
  }

  /** The pass-1 keys of the window's views are distinct: ties are broken by
      the original rank. */
  lemma WindowKeysUnique(w: seq<DocView>, exp: real -> real)
    requires forall i :: 0 <= i < |w| ==> w[i].orig == i
    ensures forall i, j :: 0 <= i < |w| && 0 <= j < |w| && Pass1Order(exp)(w[i]) == Pass1Order(exp)(w[j]) ==> w[i] == w[j]
  {
  }

  /** `rescore`: Failure where the Java code throws; otherwise the records
      scored and sorted by both passes, and the output of `RescoreSpec`. */
  method Rescore(scoreDocs: seq<ScoreDoc>, ctx: Context, stats: Stats, vectors: int -> Option<seq<VectorTerm>>,
                 charHits: (seq<TermPos>, seq<TermPos>) -> DocHelpers, ln: real -> real, exp: real -> real)
    returns (r: Result<seq<ScoreDoc>>)
    requires HelpersValid(charHits)
    ensures r.Failure? <==> Fails(scoreDocs, ctx, vectors)
    ensures r.Success? ==> r.value == RescoreSpec(scoreDocs, ctx, stats, vectors, charHits, ln, exp)
  {
    var a, ok, s0, s := Prepare(scoreDocs, ctx, stats, vectors, charHits, ln);
    if !ok {
      return Failure;
    }
    ghost var w := WindowViews(scoreDocs, ctx, stats, vectors, charHits, ln);
    ghost var view := PreparedWindow(scoreDocs, ctx, stats, vectors, charHits, ln, s0, s);
    var out := Passes(a, view, w, ctx.decay, exp);
    return Success(out);
  }

  /** The two passes, their sorts and the output, over a prepared window
      whose views are a reordering of `w`. */
  method Passes(a: array<DocInfo>, ghost view: map<DocInfo, DocView>, ghost w: seq<DocView>, decay: real,
                exp: real -> real)
    returns (out: seq<ScoreDoc>)
    requires a.Length > 0 && Distinct(a[..])
    requires forall d :: d in a[..] ==> d in view && Viewed(d, view[d])
    requires multiset(ViewsOf(a[..], view)) == multiset(w)
    requires forall i :: 0 <= i < |w| ==> w[i].orig == i
    modifies a, a[..]
    ensures out == Output(SortSpec(Pass2Docs(SortSpec(w, Pass1Order(exp)), decay, exp), FinalKey))
  {
    ghost var recs := set d | d in a[..];
    ghost var order := FirstPass(a, view, w, exp, recs);
    ReadyDocids(a[..], order, exp, a.Length);
    out := SecondPass(a, order, decay, exp, recs);
  }

  /** Pass 1, the pass-1 sort and the pass-1 ranks: the records end up in
      the order of their views sorted by the pass-1 comparator, and each is
      ready for pass 2. */
  method FirstPass(a: array<DocInfo>, ghost view: map<DocInfo, DocView>, ghost w: seq<DocView>, exp: real -> real,
                   ghost recs: set<DocInfo>)
    returns (ghost order: seq<DocView>)
    requires a.Length > 0 && Distinct(a[..]) && forall d :: d in a[..] ==> d in recs
    requires forall d :: d in a[..] ==> d in view && Viewed(d, view[d])
    requires multiset(ViewsOf(a[..], view)) == multiset(w)
    requires forall i :: 0 <= i < |w| ==> w[i].orig == i
    modifies a, recs`boost, recs`charHitScore, recs`termProximityScore, recs`bm25tpScoreNoDecay
    modifies recs`bm25OrderWithTermProximity
    ensures Distinct(a[..]) && forall d :: d in a[..] ==> d in recs
    ensures order == SortSpec(w, Pass1Order(exp)) && |order| == a.Length
    ensures forall k :: 0 <= k < a.Length ==> a[k].bm25OrderWithTermProximity == k
    ensures ReadyFor2(a[..], order, exp, a.Length)
  {
    ghost var s1 := a[..];
    Pass1Sorted(a, view, exp, recs);
    order := RankPass1(a, view, exp, recs);
    WindowKeysUnique(w, exp);
    SortPermutationUnique(ViewsOf(s1, view), w, Pass1Order(exp));
  }

  /** The pass-1 ranks of records that pass 1 has scored, in the order of
      the array; their views, in that order, are what pass 2 walks. */
  method RankPass1(a: array<DocInfo>, ghost view: map<DocInfo, DocView>, exp: real -> real, ghost recs: set<DocInfo>)
    returns (ghost order: seq<DocView>)
    requires Distinct(a[..]) && forall d :: d in a[..] ==> d in recs && d in view
    requires ReadyFor2(a[..], ViewsOf(a[..], view), exp, a.Length)
    modifies recs`bm25OrderWithTermProximity
    ensures order == ViewsOf(a[..], view)
    ensures forall k :: 0 <= k < a.Length ==> a[k].bm25OrderWithTermProximity == k
    ensures ReadyFor2(a[..], order, exp, a.Length)
  {
    order := ViewsOf(a[..], view);
    SetPass1Order(a[..], order, exp, recs);
  }

  /** Pass 1 and the pass-1 sort. */
  method Pass1Sorted(a: array<DocInfo>, ghost view: map<DocInfo, DocView>, exp: real -> real, ghost recs: set<DocInfo>)
    requires Distinct(a[..]) && forall d :: d in a[..] ==> d in recs
    requires forall d :: d in a[..] ==> d in view && Viewed(d, view[d])
    modifies a, recs`boost, recs`charHitScore, recs`termProximityScore, recs`bm25tpScoreNoDecay
    ensures Distinct(a[..]) && forall d :: d in a[..] ==> d in recs && d in view
    ensures ReadyFor2(a[..], ViewsOf(a[..], view), exp, a.Length)
    ensures ViewsOf(a[..], view) == SortSpec(ViewsOf(old(a[..]), view), Pass1Order(exp))
  {
    ScorePass1(a, view, exp, recs);
    SortScored1(a, view, exp, recs);
  }

  /** Pass 1 over the records in window order. */
  method ScorePass1(a: array<DocInfo>, ghost view: map<DocInfo, DocView>, exp: real -> real, ghost recs: set<DocInfo>)
    requires Distinct(a[..]) && forall d :: d in a[..] ==> d in recs
    requires forall d :: d in a[..] ==> d in view && Viewed(d, view[d])
    modifies recs`boost, recs`charHitScore, recs`termProximityScore, recs`bm25tpScoreNoDecay
    ensures forall d :: d in a[..] ==> d in view && Viewed(d, view[d]) && Scored1(d, view[d], exp)
  {
    Pass1(a[..], view, exp, recs);
  }

  /** The pass-1 sort of records pass 1 has scored. */
  method SortScored1(a: array<DocInfo>, ghost view: map<DocInfo, DocView>, exp: real -> real, ghost recs: set<DocInfo>)
    requires Distinct(a[..]) && forall d :: d in a[..] ==> d in recs
    requires forall d :: d in a[..] ==> d in view && Viewed(d, view[d]) && Scored1(d, view[d], exp)
    modifies a
    ensures Distinct(a[..]) && forall d :: d in a[..] ==> d in recs && d in view
    ensures ReadyFor2(a[..], ViewsOf(a[..], view), exp, a.Length)
    ensures ViewsOf(a[..], view) == SortSpec(ViewsOf(old(a[..]), view), Pass1Order(exp))
  {
    ghost var s1 := a[..];
    SortPass1(a, view, exp);
    DistinctPermutation(s1, a[..]);
    ReadyPermuted(s1, a[..], view, exp, recs);
  }

  /** Records that pass 1 has scored, in any order, are ready for pass 2
      in that order. */
  lemma ReadyPermuted(s1: seq<DocInfo>, s2: seq<DocInfo>, view: map<DocInfo, DocView>, exp: real -> real,
                      recs: set<DocInfo>)
    requires multiset(s2) == multiset(s1)
    requires forall d :: d in s1 ==> d in recs && d in view && Viewed(d, view[d]) && Scored1(d, view[d], exp)
    ensures forall d :: d in s2 ==> d in recs && d in view
    ensures ReadyFor2(s2, ViewsOf(s2, view), exp, |s2|)
  {
    forall k | 0 <= k < |s2|
      ensures s2[k] in recs && s2[k] in view && Viewed(s2[k], view[s2[k]]) && Scored1(s2[k], view[s2[k]], exp)
    {
      assert s2[k] in multiset(s1);
    }
    ReadyFor2From(s2, ViewsOf(s2, view), exp, |s2|);
  }

  /** Pass 2 in pass-1 order `order`, the final sort and the output. */
  method SecondPass(a: array<DocInfo>, ghost order: seq<DocView>, decay: real, exp: real -> real,
                    ghost recs: set<DocInfo>)
    returns (out: seq<ScoreDoc>)
    requires a.Length > 0 && Distinct(a[..]) && |order| == a.Length && forall d :: d in a[..] ==> d in recs
    requires forall k :: 0 <= k < a.Length ==> order[k].docid == a[k].docid
    requires ReadyFor2(a[..], order, exp, a.Length)
    modifies a, recs`boost, recs`bm25tpScoreWithDecay, recs`bm25OrderWithDecay
    ensures out == Output(SortSpec(Pass2Docs(order, decay, exp), FinalKey))
    ensures forall i :: 0 <= i < a.Length ==> a[i].bm25OrderWithDecay == i
  {
    ghost var docs := ScorePass2(a, order, decay, exp, recs);
    ghost var sorted := SortPass2(a, docs, recs);
    out := Emit(a[..], sorted, recs);
  }

  /** Pass 2 over the records in pass-1 order: each record's entry is its
      document id and its pass-2 score. */
  method ScorePass2(a: array<DocInfo>, ghost order: seq<DocView>, decay: real, exp: real -> real,
                    ghost recs: set<DocInfo>)
    returns (ghost docs: seq<ScoreDoc>)
    requires Distinct(a[..]) && |order| == a.Length && forall d :: d in a[..] ==> d in recs
    requires forall k :: 0 <= k < a.Length ==> order[k].docid == a[k].docid
    requires ReadyFor2(a[..], order, exp, a.Length)
    modifies recs`boost, recs`bm25tpScoreWithDecay
    ensures docs == Pass2Docs(order, decay, exp) && |docs| == a.Length
    ensures forall i :: 0 <= i < a.Length ==> docs[i] == ScoreDoc(a[i].docid, a[i].bm25tpScoreWithDecay)
  {
    Pass2(a[..], order, decay, exp, recs);
    docs := Pass2Docs(order, decay, exp);
  }

  /** The final sort of the records scored by pass 2, whose entries are
      `docs`: afterwards the i-th record holds the i-th entry of the sorted
      entries. */
  method SortPass2(a: array<DocInfo>, ghost docs: seq<ScoreDoc>, ghost recs: set<DocInfo>)
    returns (ghost sorted: seq<ScoreDoc>)
    requires Distinct(a[..]) && |docs| == a.Length && forall d :: d in a[..] ==> d in recs
    requires forall i :: 0 <= i < a.Length ==> docs[i] == ScoreDoc(a[i].docid, a[i].bm25tpScoreWithDecay)
    modifies a
    ensures sorted == SortSpec(docs, FinalKey) && |sorted| == a.Length && Distinct(a[..])
    ensures forall i :: 0 <= i < a.Length ==> a[i] in recs && sorted[i] == ScoreDoc(a[i].docid, a[i].bm25tpScoreWithDecay)
  {
    ghost var s2 := a[..];
    SortFinal(a, docs);
    DistinctPermutation(s2, a[..]);
    sorted := SortSpec(docs, FinalKey);
    forall i | 0 <= i < a.Length
      ensures a[i] in recs && sorted[i] == ScoreDoc(a[i].docid, a[i].bm25tpScoreWithDecay)
    {
      assert a[i] in multiset(s2);
    }
  }

  /** The view of each record ready for pass 2 carries its document id. */
  lemma {:induction false} ReadyDocids(s: seq<DocInfo>, vs: seq<DocView>, exp: real -> real, n: nat)
    requires n <= |s| && |vs| == |s|
    requires ReadyFor2(s, vs, exp, n)
    ensures forall k :: 0 <= k < n ==> vs[k].docid == s[k].docid
  {
    if n > 0 {
      ReadyDocids(s, vs, exp, n - 1);
    }
  }

  lemma {:induction false} ReadyFor2From(s: seq<DocInfo>, vs: seq<DocView>, exp: real -> real, n: nat)
    requires n <= |s| && |vs| == |s|
    requires forall k :: 0 <= k < n ==> Viewed(s[k], vs[k]) && Scored1(s[k], vs[k], exp)
    ensures ReadyFor2(s, vs, exp, n)
  {
    if n > 0 {
      ReadyFor2From(s, vs, exp, n - 1);
    }
  }
}
