/** The per-document record the rescorer fills in (`BM25tpDocInfo`): scores,
    ranks, the document's own positional index and the hit helpers the
    rescorer consults. */
module DocRecord {
  import opened Basics
  import opened Sorting
  import opened TermIndex

  /** One (term, position) entry of the record's own position list. */
  datatype DocTermPos = DocTermPos(term: string, pos: int)

  /** The comparator of `setTermPosArr`: ascending position. */
  function PosKey(p: DocTermPos): Key
  {
    Key(p.pos as real, 0)
  }

  /** The hit helpers the rescorer calls on a record (`getTermHit`,
      `getNextTermHit`, `docTermRightHit`, `docTermLeftHit`) and the hit count
      `setCharHit` leaves in `docCharHitCount`. Their bodies are not part of
      this model: a value of this type stands for whatever `setCharHit`
      computes from the document and query indexes. */
  datatype DocHelpers = DocHelpers(
    charHitCount: int,
    termHit: int -> int,
    nextTermHit: int -> int,
    rightHit: (int, int, int) -> real,
    leftHit: (int, int, int) -> real)

  /** What the call sites of `getNextTermHit` need: for every occurrence, -1
      or the index of a later occurrence. */
  predicate NextHitsValid(h: DocHelpers, n: int)
  {
    forall i :: 0 <= i < n ==> h.nextTermHit(i) == -1 || i < h.nextTermHit(i) < n
  }

  /** The helpers of a record on which `setCharHit` has not run. */
  function NoHelpers(): DocHelpers
  {
    DocHelpers(0, _ => 0, _ => -1, (_, _, _) => 0.0, (_, _, _) => 0.0)
  }

  /** The value `setTermFreqs` adds for a term. */
  function FreqOf(m: map<string, real>): string -> real
  {
    t => GetOr(m, t, 0.0)
  }

  const Sentinel: int := -1
  const SentinelScore: real := -1.0

  class DocInfo {
    const docid: int
    const bm25ScoreOriginal: real
    var termProximityScore: real
    var bm25tpScoreWithDecay: real
    var boost: real
    const bm25OrderOriginal: int
    var bm25OrderWithTermProximity: int
    var bm25OrderWithDecay: int
    const avgdl: real
    var termCount: int
    var docString: string
    var termfreqs: real
    var termFreqInDoc: map<string, real>
    const termIdf: map<string, real>
    var termPosArr: array?<DocTermPos>
    var termPos: seq<DocTermPos>

    // The fields below are used by the rescorer but not declared by the record.
    const n: int
    const queryTermsInfo: TermInfo
    const docTermsInfo: TermInfo
    var docTermFreq: map<string, nat>
    var docTermCount: int
    var docCharHitCount: int
    var charHitScore: real
    var bm25tpScoreNoDecay: real
    var helpers: DocHelpers

    /** A record of the rescore window. The rescorer stores the candidate's
        document id and score, avgdl, the idf map, the shared query index,
        the rank and the document count right after
        construction and never changes them; here they are the constructor's
        parameters. Every other score, rank, count and the boost start at the
        sentinel -1; the frequency map and the position list start empty,
        and the document index starts as a fresh empty index. */
    constructor (docid: int, score: real, avgdl: real, termIdf: map<string, real>, queryTermsInfo: TermInfo,
                 order: int, n: int)
      ensures this.docid == docid && bm25ScoreOriginal == score && this.avgdl == avgdl
      ensures this.termIdf == termIdf && this.queryTermsInfo == queryTermsInfo && bm25OrderOriginal == order
      ensures this.n == n
      ensures termProximityScore == bm25tpScoreWithDecay == boost == SentinelScore
      ensures bm25OrderWithTermProximity == bm25OrderWithDecay == Sentinel
      ensures termCount == Sentinel && termfreqs == SentinelScore
      ensures termFreqInDoc == map[] && termPos == [] && termPosArr == null
      ensures fresh(docTermsInfo) && docTermsInfo.Valid() && docTermsInfo.Counted()
      ensures docTermsInfo.added == [] && docTermsInfo.termPosArr == [] && docTermsInfo.queryTokenCountMap == map[]
      ensures docTermFreq == map[] && helpers == NoHelpers()
    {
      this.docid := docid;
      bm25ScoreOriginal := score;
      this.avgdl := avgdl;
      this.termIdf := termIdf;
      this.queryTermsInfo := queryTermsInfo;
      bm25OrderOriginal := order;
      this.n := n;
      docTermsInfo := new TermInfo();
      termFreqInDoc := map[];
      termPos := [];
      termProximityScore := SentinelScore;
      bm25tpScoreWithDecay := SentinelScore;
      boost := SentinelScore;
      bm25OrderWithTermProximity := Sentinel;
      bm25OrderWithDecay := Sentinel;
      termCount := Sentinel;
      termfreqs := SentinelScore;
      termPosArr := null;
      docTermFreq := map[];
      helpers := NoHelpers();
    }

    /** `addTermPos(t, p)`: one entry at the end of the position list. */
    method AddTermPos(t: string, p: int)
      modifies this`termPos
      ensures termPos == old(termPos) + [DocTermPos(t, p)]
    {
      termPos := termPos + [DocTermPos(t, p)];
    }

    /** `setTermFreqs()`: adds every value of `termFreqInDoc`, in the map's
        own order, to `termfreqs`; a second call adds them again. */
    method SetTermFreqs()
      modifies this`termfreqs
      ensures termfreqs == old(termfreqs) + SumOver(termFreqInDoc.Keys, FreqOf(termFreqInDoc))
    {
      var f := FreqOf(termFreqInDoc);
      var remaining := termFreqInDoc.Keys;
      while remaining != {}
        invariant remaining <= termFreqInDoc.Keys
        invariant termfreqs + SumOver(remaining, f) == old(termfreqs) + SumOver(termFreqInDoc.Keys, f)
        decreases remaining
      {
        var t :| t in remaining;
        SumOverRemove(remaining, f, t);
        termfreqs := termfreqs + termFreqInDoc[t];
        remaining := remaining - {t};
      }
    }

    /** `setTermPosArr()`: a fresh array holding the position list, sorted
        stably by position. */
    method SetTermPosArr()
      modifies this`termPosArr
      ensures fresh(termPosArr) && Arranged()
    {
      var s := termPos;
      var a := new DocTermPos[|s|](i requires 0 <= i < |s| => s[i]);
      assert a[..] == s;
      SortInPlace(a, PosKey);
      termPosArr := a;
    }

    /** The state `setTermPosArr` leaves. */
    ghost predicate Arranged()
      reads this, termPosArr
    {
      termPosArr != null && termPosArr[..] == SortSpec(termPos, PosKey)
    }

    /** `getTermPosSize()`: after `setTermPosArr`, one entry per `addTermPos`. */
    function GetTermPosSize(): (size: int)
      reads this, termPosArr
      requires termPosArr != null
      ensures size == termPosArr.Length
      ensures Arranged() ==> size == |termPos|
    {
      ArrangedFacts(termPosArr[..], termPos);
      termPosArr.Length
    }

    /** `getTerm(i)`: after `setTermPosArr`, the i-th entry is one of those added. */
    function GetTerm(i: int): (t: string)
      reads this, termPosArr
      requires termPosArr != null && 0 <= i < termPosArr.Length
      ensures t == termPosArr[i].term
      ensures Arranged() ==> termPosArr[i] in termPos
    {
      ArrangedFacts(termPosArr[..], termPos);
      assert termPosArr[i] == termPosArr[..][i];
      termPosArr[i].term
    }

    /** `getPos(i)`: after `setTermPosArr`, positions never decrease with i. */
    function GetPos(i: int): (p: int)
      reads this, termPosArr
      requires termPosArr != null && 0 <= i < termPosArr.Length
      ensures p == termPosArr[i].pos
      ensures Arranged() ==> forall j :: 0 <= j < i ==> termPosArr[j].pos <= p
      ensures Arranged() ==> forall j :: i < j < termPosArr.Length ==> p <= termPosArr[j].pos
    {
      ArrangedFacts(termPosArr[..], termPos);
      termPosArr[i].pos
    }

    /** `setCharHit()`: records the helpers computed from the two indexes. */
    method SetCharHit(h: DocHelpers)
      modifies this`helpers, this`docCharHitCount
      ensures helpers == h && docCharHitCount == h.charHitCount
    {
      helpers := h;
      docCharHitCount := h.charHitCount;
    }

    function GetTermHit(i: int): int
      reads this
    {
      helpers.termHit(i)
    }

    function GetNextTermHit(i: int): int
      reads this
    {
      helpers.nextTermHit(i)
    }

    function DocTermRightHit(i: int, j: int, window: int): real
      reads this
    {
      helpers.rightHit(i, j, window)
    }

    function DocTermLeftHit(i: int, j: int, window: int): real
      reads this
    {
      helpers.leftHit(i, j, window)
    }
  }

  lemma ArrangedFacts(a: seq<DocTermPos>, s: seq<DocTermPos>)
    ensures a == SortSpec(s, PosKey) ==>
      |a| == |s| && SortedBy(a, PosKey) && forall i :: 0 <= i < |a| ==> a[i] in s
  {
    if a == SortSpec(s, PosKey) {
      PositionOrder(s);
      forall i | 0 <= i < |a| ensures a[i] in s {
        assert a[i] in multiset(a);
      }
    }
  }

  /** `setTermPosArr` leaves the entries sorted by position, as a permutation
      of the list, and entries at the same position in the order they were
      added. */
  lemma PositionOrder(s: seq<DocTermPos>)
    ensures SortedBy(SortSpec(s, PosKey), PosKey)
    ensures multiset(SortSpec(s, PosKey)) == multiset(s) && |SortSpec(s, PosKey)| == |s|
    ensures forall k :: Tied(SortSpec(s, PosKey), k, PosKey) == Tied(s, k, PosKey)
  {
    SortSpecSorted(s, PosKey);
    assert |multiset(SortSpec(s, PosKey))| == |multiset(s)|;
    forall k {
      SortSpecStable(s, k, PosKey);
    }
  }

  /** Once the term frequencies are not negative, `setTermFreqs` never lowers
      `termfreqs`, and it raises it as soon as one frequency is positive. */
  lemma TermFreqsGrow(m: map<string, real>)
    requires forall t :: t in m ==> m[t] >= 0.0
    ensures SumOver(m.Keys, FreqOf(m)) >= 0.0
    ensures (exists t :: t in m && m[t] > 0.0) ==> SumOver(m.Keys, FreqOf(m)) > 0.0
  {
    SumOverNonNegative(m.Keys, FreqOf(m));
    if exists t :: t in m && m[t] > 0.0 {
      var t :| t in m && m[t] > 0.0;
      SumOverRemove(m.Keys, FreqOf(m), t);
      SumOverNonNegative(m.Keys - {t}, FreqOf(m));
    }
  }
}
