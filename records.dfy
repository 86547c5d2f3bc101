/** What the rescoring pipeline knows of its records: the window of
    records sharing the query index, a record filled from its candidate, one
    whose index is empty, one whose index `getDocInfo` built from its term
    vector, and one the scorers can run on together with the view its scores
    depend on. */
module Records {
  import opened Basics
  import opened Sorting
  import opened TermIndex
  import opened DocRecord
  import opened Scoring
  import opened Rescorer

  /** The window's records are distinct, each has its own document index,
      and all share the query index `q`, which is none of theirs. */
  ghost predicate Window(docs: seq<DocInfo>, q: TermInfo)
  {
    && (forall i, j :: 0 <= i < j < |docs| ==> docs[i] != docs[j] && docs[i].docTermsInfo != docs[j].docTermsInfo)
    && (forall i :: 0 <= i < |docs| ==> docs[i].queryTermsInfo == q && docs[i].docTermsInfo != q)
  }

  /** Any reordering of a window is a window. */
  lemma WindowPermutation(s: seq<DocInfo>, t: seq<DocInfo>, q: TermInfo)
    requires Window(s, q) && multiset(s) == multiset(t)
    ensures Window(t, q)
  {
    DistinctPermutation(s, t);
    forall i | 0 <= i < |t| ensures exists k :: 0 <= k < |s| && s[k] == t[i] {
      assert t[i] in multiset(s);
    }
    forall i, j | 0 <= i < j < |t| ensures t[i].docTermsInfo != t[j].docTermsInfo {
      var i' :| 0 <= i' < |s| && s[i'] == t[i];
      var j' :| 0 <= j' < |s| && s[j'] == t[j];
      assert i' != j';
    }
  }

  /** A record filled from the candidate of rank `bm25OrderOriginal`, with
      the idf map and avgdl of the environment. */
  ghost predicate Candidate(d: DocInfo, scoreDocs: seq<ScoreDoc>, env: QueryEnv)
  {
    && 0 <= d.bm25OrderOriginal < |scoreDocs|
    && d.docid == scoreDocs[d.bm25OrderOriginal].doc
    && d.bm25ScoreOriginal == scoreDocs[d.bm25OrderOriginal].score
    && d.termIdf == env.idf && d.avgdl == env.avgdl
  }

  /** A record whose document index is still empty. */
  ghost predicate Unbuilt(d: DocInfo)
    reads d`docTermFreq
    reads d.docTermsInfo`termPosArr, d.docTermsInfo`added, d.docTermsInfo`queryTokenCountMap
  {
    EmptyAt(d, d.docTermsInfo)
  }

  /** The same, with the record's index named. */
  ghost predicate EmptyAt(d: DocInfo, dt: TermInfo)
    reads d`docTermFreq, dt`termPosArr, dt`added, dt`queryTokenCountMap
  {
    dt.termPosArr == [] && dt.added == [] && dt.queryTokenCountMap == map[] && d.docTermFreq == map[]
  }

  /** A record the scorers can run on, whose hit count is that of its helpers. */
  ghost predicate Ready(d: DocInfo)
    reads d`helpers, d`docCharHitCount
    reads d.docTermsInfo`termPosArr, d.docTermsInfo`added, d.docTermsInfo`queryTokenCountMap
    reads d.queryTermsInfo`termPosArr, d.queryTermsInfo`added
    reads d.queryTermsInfo`queryTokenCountMap
  {
    Scorable(d) && d.docCharHitCount == d.helpers.charHitCount
  }

  /** What the scores of a record depend on. */
  ghost function ViewOf(d: DocInfo): DocView
    reads d`docString, d`docTermFreq
    reads d`helpers, d.docTermsInfo`termPosArr
    reads d.queryTermsInfo`termPosArr, d.queryTermsInfo`queryTokenCountMap
  {
    DocView(d.docid, d.bm25OrderOriginal, d.bm25ScoreOriginal, d.docTermsInfo.termPosArr, |d.docString|,
            d.docTermFreq, d.helpers, d.avgdl, d.termIdf,
            d.queryTermsInfo.queryTokenCountMap, d.queryTermsInfo.termPosArr)
  }

  /** The query index `getTokens` built for the context. */
  ghost predicate QueryIndex(q: TermInfo, ctx: Context)
    reads q`termPosArr, q`added, q`queryTokenCountMap
  {
    q.Valid() && q.Counted() && q.added == TokenOcc(ctx.query) && q.termPosArr == QueryOcc(ctx)
  }

  /** A query index holding the count map and occurrences of the
      environment, whose every term has an idf. */
  ghost predicate EnvIndex(q: TermInfo, env: QueryEnv)
    reads q`termPosArr, q`added, q`queryTokenCountMap
  {
    && q.Valid() && q.Counted() && q.queryTokenCountMap == env.tokens && q.termPosArr == env.qocc
    && env.tokens.Keys <= env.idf.Keys
  }

  /** The helper oracle points forward or nowhere on every index. */
  ghost predicate HelpersValid(charHits: (seq<TermPos>, seq<TermPos>) -> DocHelpers)
  {
    forall occ, qocc :: NextHitsValid(charHits(occ, qocc), |occ|)
  }

  /** What `getDocInfo` leaves in a record `d` that holds the index `dt` and
      the query index `q`: an index that fits its buffer, the frequency map
      `tf`, a text as long as the buffer, and the helpers of the two indexes
      with their hit count. */
  ghost predicate Built(d: DocInfo, dt: TermInfo, q: TermInfo, tf: map<string, nat>,
                        charHits: (seq<TermPos>, seq<TermPos>) -> DocHelpers)
    reads d`docTermFreq, d`docString, d`helpers, d`docCharHitCount
    reads dt`termPosArr, dt`added, dt`queryTokenCountMap, q`termPosArr
  {
    && dt.Valid() && dt.Counted() && BufferFits(dt.termPosArr)
    && d.docTermFreq == tf && |d.docString| == BufferLength(dt.termPosArr)
    && d.helpers == charHits(dt.termPosArr, q.termPosArr) && d.docCharHitCount == d.helpers.charHitCount
  }

  /** What `getDocInfo` reads and writes of a record and of its index. */
  datatype Filled = Filled(docid: int, tf: map<string, nat>, textLength: nat, helpers: DocHelpers, hitCount: int,
                           occ: seq<TermPos>, added: seq<TermPos>, counts: map<string, int>)

  ghost function FilledOf(d: DocInfo): Filled
    reads d`docTermFreq, d`docString, d`helpers, d`docCharHitCount
    reads d.docTermsInfo`termPosArr, d.docTermsInfo`added, d.docTermsInfo`queryTokenCountMap
  {
    FilledAt(d, d.docTermsInfo)
  }

  /** The same, with the record's index named. */
  ghost function FilledAt(d: DocInfo, dt: TermInfo): Filled
    reads d`docTermFreq, d`docString, d`helpers, d`docCharHitCount
    reads dt`termPosArr, dt`added, dt`queryTokenCountMap
  {
    Filled(d.docid, d.docTermFreq, |d.docString|, d.helpers, d.docCharHitCount, dt.termPosArr, dt.added,
           dt.queryTokenCountMap)
  }

  /** A record and index filled from the term vector of the document: a
      consistent index holding the sorted kept occurrences, which fit their
      buffer, the frequency map of the vector, a text as long as the buffer,
      and the helpers of the document and query occurrences. */
  ghost predicate FilledFrom(f: Filled, vectors: int -> Option<seq<VectorTerm>>,
                             charHits: (seq<TermPos>, seq<TermPos>) -> DocHelpers, env: QueryEnv)
  {
    && vectors(f.docid).Some?
    && multiset(f.occ) == multiset(f.added) && f.counts == CountMap(f.added)
    && f.occ == DocOcc(vectors(f.docid).value, env.tokens) && BufferFits(f.occ)
    && f.tf == PutFreqs(map[], vectors(f.docid).value) && f.textLength == BufferLength(f.occ)
    && f.helpers == charHits(f.occ, env.qocc) && f.hitCount == f.helpers.charHitCount
  }

  /** A record whose index `getDocInfo` built from its term vector. */
  ghost predicate BuiltFrom(d: DocInfo, vectors: int -> Option<seq<VectorTerm>>,
                            charHits: (seq<TermPos>, seq<TermPos>) -> DocHelpers, env: QueryEnv)
    reads d`docTermFreq, d`docString, d`helpers, d`docCharHitCount
    reads d.docTermsInfo`termPosArr, d.docTermsInfo`added, d.docTermsInfo`queryTokenCountMap
  {
    FilledFrom(FilledOf(d), vectors, charHits, env)
  }

  /** A record whose index was built from its term vector is ready to score
      and has the view of its candidate. */
  lemma BuiltView(d: DocInfo, vectors: int -> Option<seq<VectorTerm>>,
                  charHits: (seq<TermPos>, seq<TermPos>) -> DocHelpers, scoreDocs: seq<ScoreDoc>, env: QueryEnv)
    requires d.queryTermsInfo != d.docTermsInfo
    requires EnvIndex(d.queryTermsInfo, env) && HelpersValid(charHits) && Candidate(d, scoreDocs, env)
    requires BuiltFrom(d, vectors, charHits, env)
    ensures Ready(d) && ViewOf(d) == WindowView(scoreDocs, d.bm25OrderOriginal, vectors, charHits, env)
  {
  }
}
