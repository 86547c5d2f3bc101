/** `getDocInfo` for one document: the term loop over its term vector, the
    offset loop of each term, and the index, raw text and helpers built
    from the occurrences. */
module DocIndex {
  import opened Basics
  import opened Sorting
  import opened TermIndex
  import opened DocRecord
  import opened Rescorer
  import opened Records

  /** The offset loop of `getDocInfo` for one vector term, on the record's
      index `dt` and `docTermCount` in `d`, with the query index `q`: every offset that is not negative
      becomes an occurrence, marked as a hit when the query has the term, and
      each hit raises `docTermCount`. */
  method AddOffsets(d: DocInfo, dt: TermInfo, q: TermInfo, t: string, offsets: seq<int>)
    requires q != dt
    requires q.Valid() && q.Counted() && dt.Valid() && dt.Counted()
    modifies d`docTermCount, dt`termPosArr, dt`queryTokenCountMap, dt`added
    ensures dt.Valid() && dt.Counted()
    ensures var kept := KeptOcc(t, offsets, HitFlag(t, q.queryTokenCountMap));
      && dt.added == old(dt.added) + kept
      && dt.termPosArr == old(dt.termPosArr) + kept
      && d.docTermCount == old(d.docTermCount) + HitFlag(t, q.queryTokenCountMap) * |kept|
  {
    ghost var hit := HitFlag(t, q.queryTokenCountMap);
    ghost var a0, p0, c0 := dt.added, dt.termPosArr, d.docTermCount;
    ghost var kept: seq<TermPos> := [];
    var ii := 0;
    while ii < |offsets|
      invariant 0 <= ii <= |offsets|
      invariant dt.Valid() && dt.Counted()
      invariant kept == KeptOcc(t, offsets[..ii], hit)
      invariant dt.added == a0 + kept && dt.termPosArr == p0 + kept
      invariant d.docTermCount == c0 + hit * |kept|
    {
      ghost var one := if offsets[ii] >= 0 then [TermPos(t, hit, offsets[ii])] else [];
      KeptStep(t, offsets, ii, hit);
      AddOffset(d, dt, q, t, offsets[ii]);
      AppendAssoc(a0, kept, one);
      AppendAssoc(p0, kept, one);
      MulAdd(hit, |kept|, |one|);
      kept := kept + one;
      ii := ii + 1;
    }
    assert offsets[..ii] == offsets;
  }

  lemma AppendAssoc<T>(a: seq<T>, b: seq<T>, c: seq<T>)
    ensures a + b + c == a + (b + c)
  {
  }

  lemma MulAdd(h: int, x: int, y: int)
    ensures h * (x + y) == h * x + h * y
  {
  }

  /** One offset of that loop. */
  method AddOffset(d: DocInfo, dt: TermInfo, q: TermInfo, t: string, offset: int)
    requires q != dt
    requires q.Valid() && q.Counted() && dt.Valid() && dt.Counted()
    modifies d`docTermCount, dt`termPosArr, dt`queryTokenCountMap, dt`added
    ensures dt.Valid() && dt.Counted()
    ensures var hit := HitFlag(t, q.queryTokenCountMap);
      var one := if offset >= 0 then [TermPos(t, hit, offset)] else [];
      && dt.added == old(dt.added) + one
      && dt.termPosArr == old(dt.termPosArr) + one
      && d.docTermCount == old(d.docTermCount) + hit * |one|
  {
    ghost var tokens := q.queryTokenCountMap;
    if offset >= 0 {
      if q.Has(t) {
        dt.AddTermPosWithHit(t, offset, 1);
        d.docTermCount := d.docTermCount + 1;
      } else {
        dt.AddTermPosWithHit(t, offset, 0);
      }
    }
    assert q.queryTokenCountMap == tokens;
  }

  lemma KeptStep(t: string, offsets: seq<int>, ii: int, hit: int)
    requires 0 <= ii < |offsets|
    ensures KeptOcc(t, offsets[..ii + 1], hit) ==
      KeptOcc(t, offsets[..ii], hit) + (if offsets[ii] >= 0 then [TermPos(t, hit, offsets[ii])] else [])
  {
    assert offsets[..ii + 1][..ii] == offsets[..ii];
  }

  lemma VectorStep(vector: seq<VectorTerm>, k: int, tokens: map<string, int>, m: map<string, nat>)
    requires 0 <= k < |vector|
    ensures VectorOcc(vector[..k + 1], tokens) ==
      VectorOcc(vector[..k], tokens) + KeptOcc(vector[k].term, vector[k].offsets, HitFlag(vector[k].term, tokens))
    ensures PutFreqs(m, vector[..k + 1]) == PutFreqs(m, vector[..k])[vector[k].term := |vector[k].offsets|]
    ensures TotalFreq(vector[..k + 1]) == TotalFreq(vector[..k]) + |vector[k].offsets|
  {
    assert vector[..k + 1][..k] == vector[..k];
  }

  /** The term loop of `getDocInfo`: the total frequency, the frequency map,
      the occurrences, and `docTermCount` set to the total frequency. */
  method IndexTerms(d: DocInfo, dt: TermInfo, q: TermInfo, vector: seq<VectorTerm>)
    requires d.docTermsInfo == dt && q != dt
    requires q.Valid() && q.Counted() && dt.Valid() && dt.Counted()
    modifies d`docTermFreq, d`docTermCount, dt`termPosArr, dt`queryTokenCountMap, dt`added
    ensures dt.Valid() && dt.Counted()
    ensures dt.termPosArr == old(dt.termPosArr) + VectorOcc(vector, q.queryTokenCountMap)
    ensures d.docTermFreq == PutFreqs(old(d.docTermFreq), vector)
    ensures d.docTermCount == TotalFreq(vector)
  {
    ghost var tokens := q.queryTokenCountMap;
    ghost var p0, f0 := dt.termPosArr, d.docTermFreq;
    ghost var occ: seq<TermPos> := [];
    var termCount := 0;
    var k := 0;
    while k < |vector|
      invariant 0 <= k <= |vector|
      invariant dt.Valid() && dt.Counted()
      invariant occ == VectorOcc(vector[..k], tokens)
      invariant dt.termPosArr == p0 + occ
      invariant d.docTermFreq == PutFreqs(f0, vector[..k])
      invariant termCount == TotalFreq(vector[..k])
    {
      VectorStep(vector, k, tokens, f0);
      var vt := vector[k];
      ghost var kept := KeptOcc(vt.term, vt.offsets, HitFlag(vt.term, tokens));
      termCount := termCount + |vt.offsets|;
      IndexTerm(d, dt, q, vt);
      assert q.queryTokenCountMap == tokens;
      AppendAssoc(p0, occ, kept);
      occ := occ + kept;
      k := k + 1;
    }
    assert vector[..k] == vector;
    d.docTermCount := termCount;
  }

  /** One term of that loop: its frequency put in `docTermFreq`, then its
      offsets. */
  method IndexTerm(d: DocInfo, dt: TermInfo, q: TermInfo, vt: VectorTerm)
    requires q != dt && q.Valid() && q.Counted() && dt.Valid() && dt.Counted()
    modifies d`docTermFreq, d`docTermCount, dt`termPosArr, dt`queryTokenCountMap, dt`added
    ensures dt.Valid() && dt.Counted()
    ensures dt.termPosArr == old(dt.termPosArr) + KeptOcc(vt.term, vt.offsets, HitFlag(vt.term, q.queryTokenCountMap))
    ensures d.docTermFreq == old(d.docTermFreq)[vt.term := |vt.offsets|]
  {
    d.docTermFreq := d.docTermFreq[vt.term := |vt.offsets|];
    ghost var freqs := d.docTermFreq;
    AddOffsets(d, dt, q, vt.term, vt.offsets);
    assert d.docTermFreq == freqs;
  }

  /** The end of `getDocInfo` for one record: `sortAndRawText` with pad 'd',
      the raw text as `docString`, then `setCharHit`. */
  method IndexText(d: DocInfo, dt: TermInfo, q: TermInfo, charHits: (seq<TermPos>, seq<TermPos>) -> DocHelpers)
    returns (ok: bool)
    requires d.docTermsInfo == dt && q != dt
    requires dt.Valid()
    modifies d`docString, d`helpers, d`docCharHitCount, dt`termPosArr, dt`charHit, dt`rawText, dt`pad
    ensures dt.Valid()
    ensures dt.termPosArr == SortSpec(old(dt.termPosArr), OccKey)
    ensures ok == BufferFits(dt.termPosArr)
    ensures ok ==> d.docString == dt.rawText && |d.docString| == BufferLength(dt.termPosArr)
    ensures ok ==> d.helpers == charHits(dt.termPosArr, q.termPosArr)
    ensures ok ==> d.docCharHitCount == d.helpers.charHitCount
  {
    ok := dt.SortAndRawText(DocPad);
    if !ok {
      return;
    }
    SetText(d, dt.rawText, charHits(dt.termPosArr, q.termPosArr));
  }

  /** `docString = rawText` and `setCharHit()`. */
  method SetText(d: DocInfo, raw: string, h: DocHelpers)
    modifies d`docString, d`helpers, d`docCharHitCount
    ensures d.docString == raw && d.helpers == h && d.docCharHitCount == h.charHitCount
  {
    d.docString := raw;
    d.SetCharHit(h);
  }

  /** `IndexText` on an index holding the occurrences `occ`, in a record
      holding the frequency map `tf`. */
  method FinishIndex(d: DocInfo, dt: TermInfo, q: TermInfo, charHits: (seq<TermPos>, seq<TermPos>) -> DocHelpers,
                     ghost occ: seq<TermPos>, ghost tf: map<string, nat>)
    returns (ok: bool)
    requires d.docTermsInfo == dt && q != dt
    requires dt.Valid() && dt.Counted() && dt.termPosArr == occ && d.docTermFreq == tf
    modifies d`docString, d`helpers, d`docCharHitCount, dt`termPosArr, dt`charHit, dt`rawText, dt`pad
    ensures dt.termPosArr == SortSpec(occ, OccKey)
    ensures ok == BufferFits(dt.termPosArr)
    ensures ok ==> Built(d, dt, q, tf, charHits)
  {
    ghost var added, counts := dt.added, dt.queryTokenCountMap;
    ok := IndexText(d, dt, q, charHits);
    assert d.docTermFreq == tf && dt.added == added && dt.queryTokenCountMap == counts;
  }

  /** `getDocInfo` for one record and its term vector: the term loop, then
      the index, raw text and helpers. `ok` is false where `sortAndRawText`
      throws. The occurrences and frequency map the vector determines come in
      as `occ` and `tf`. */
  method BuildDocIndex(d: DocInfo, dt: TermInfo, q: TermInfo, vector: seq<VectorTerm>,
                       charHits: (seq<TermPos>, seq<TermPos>) -> DocHelpers,
                       ghost occ: seq<TermPos>, ghost tf: map<string, nat>)
    returns (ok: bool)
    requires d.docTermsInfo == dt && q != dt
    requires q.Valid() && q.Counted() && dt.Valid() && dt.Counted()
    requires dt.termPosArr == [] && dt.added == [] && d.docTermFreq == map[]
    requires occ == VectorOcc(vector, q.queryTokenCountMap) && tf == PutFreqs(map[], vector)
    modifies d`docTermFreq, d`docTermCount, d`docString, d`helpers, d`docCharHitCount
    modifies dt`termPosArr, dt`queryTokenCountMap, dt`added, dt`charHit, dt`rawText, dt`pad
    ensures dt.termPosArr == SortSpec(occ, OccKey)
    ensures ok == BufferFits(dt.termPosArr)
    ensures ok ==> Built(d, dt, q, tf, charHits)
  {
    assert [] + occ == occ;
    IndexTerms(d, dt, q, vector);
    ok := FinishIndex(d, dt, q, charHits, occ, tf);
  }
}
