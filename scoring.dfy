/** The scores of the rescorer as functions of one document's index: the
    BM25 variant, the term-proximity score with its boost, the adjacent-
    character score, the coverage gate, and the decay map that pass 2 threads
    from one document to the next. Scores are reals; `exp` and `ln` are
    parameters standing for `Math.exp` and `Math.log`. */
module Scoring {
  import opened Basics
  import opened Sorting
  import opened TermIndex
  import opened DocRecord

  const K1: real := 1.2
  const B: real := 0.75
  /** The boost `rescore` passes to both scorers. */
  const InitialBoost: real := 2.2
  /** What `calcTermProximity` adds to the boost for a pair found at the same gap in the query. */
  const GapBoost: real := 0.1
  /** The factor of `calcTermAdjacentCharMatch`. */
  const AdjacentWeight: real := 2.2
  /** The window `rescore` passes to `calcTermAdjacentCharMatch`. */
  const CharWindow: int := 3
  /** The score both passes give a document they skip. */
  const Skipped: real := -1.0

  /** Real division; the methods' preconditions rule out a zero divisor,
      where Java would produce an infinity or NaN. */
  function Quot(a: real, b: real): real
  {
    if b == 0.0 then 0.0 else a / b
  }

  function Min(a: real, b: real): real
  {
    if a <= b then a else b
  }

  /** The length normalisation k1 * (1 - b + b * dl / avgdl). */
  function NormK(dl: nat, avgdl: real): real
  {
    K1 * (1.0 - B + Quot(B * dl as real, avgdl))
  }

  /** With a positive average length, K is the textbook normalisation and is
      at least k1 * (1 - b), so positive. */
  lemma NormKBounds(dl: nat, avgdl: real)
    requires avgdl > 0.0
    ensures NormK(dl, avgdl) == K1 * (1.0 - B + B * dl as real / avgdl)
    ensures NormK(dl, avgdl) >= K1 * (1.0 - B) > 0.0
  {
    assert B * dl as real / avgdl >= 0.0;
  }

  /** `getQueryTokenIDF`: ln(1 + (N - df + 0.5) / (df + 0.5)). */
  function Idf(n: int, df: nat, ln: real -> real): real
  {
    ln(1.0 + ((n - df) as real + 0.5) / (df as real + 0.5))
  }

  /** A term in no more documents than there are has a non-negative idf, as
      long as the logarithm is not negative from 1 on. */
  lemma IdfNonNegative(n: int, df: nat, ln: real -> real)
    requires df <= n
    requires forall x :: x >= 1.0 ==> ln(x) >= 0.0
    ensures Idf(n, df, ln) >= 0.0
  {
    assert ((n - df) as real + 0.5) / (df as real + 0.5) > 0.0;
  }

  /** With an increasing logarithm, a rarer term weighs more. */
  lemma IdfDecreasing(n: int, df1: nat, df2: nat, ln: real -> real)
    requires df1 < df2
    requires forall x, y :: 0.0 < x < y ==> ln(x) < ln(y)
    requires df2 <= n
    ensures Idf(n, df2, ln) < Idf(n, df1, ln)
  {
    var a1, b1 := (n - df1) as real + 0.5, df1 as real + 0.5;
    var a2, b2 := (n - df2) as real + 0.5, df2 as real + 0.5;
    assert a2 < a1 && b1 < b2 && a2 > 0.0;
    assert a2 * b1 < a1 * b2;
    assert a2 / b2 < a1 / b1;
  }

  /** exp(-count * decay). */
  function Decay(count: int, decay: real, exp: real -> real): real
  {
    exp(-(count as real) * decay)
  }

  /** The decay factor of a term: 1 without a map, exp(-count * decay) with one. */
  function DecayFactor(counts: Option<map<string, int>>, t: string, decay: real, exp: real -> real): real
  {
    match counts
    case None => 1.0
    case Some(m) => Decay(GetOr(m, t, 0), decay, exp)
  }

  /** The more earlier documents used a term, the smaller its factor. */
  lemma DecayFactorShrinks(m1: map<string, int>, m2: map<string, int>, t: string, decay: real, exp: real -> real)
    requires decay > 0.0 && GetOr(m1, t, 0) < GetOr(m2, t, 0)
    requires forall x, y :: x < y ==> exp(x) < exp(y)
    ensures DecayFactor(Some(m2), t, decay, exp) < DecayFactor(Some(m1), t, decay, exp)
  {
    var c1, c2 := GetOr(m1, t, 0) as real, GetOr(m2, t, 0) as real;
    assert c1 * decay < c2 * decay;
  }

  /** The decay map after one more document: every term in `used` counted once more. */
  function Bumped(m: map<string, int>, used: set<string>): (r: map<string, int>)
    ensures r.Keys == m.Keys + used
    ensures forall t :: t in used ==> r[t] == GetOr(m, t, 0) + 1
    ensures forall t :: t in m && t !in used ==> r[t] == m[t]
  {
    map t | t in m.Keys + used :: GetOr(m, t, 0) + (if t in used then 1 else 0)
  }

  /** The terms `calcBM25` scores: query terms that occur in the document. */
  function Matched(idf: map<string, real>, tf: map<string, nat>): set<string>
  {
    idf.Keys * tf.Keys
  }

  /** The smaller of the query and document frequencies of a term. */
  function SharedFreq(tokens: map<string, int>, tf: map<string, nat>, t: string): real
  {
    (if GetOr(tokens, t, 0) <= GetOr(tf, t, 0) then GetOr(tokens, t, 0) else GetOr(tf, t, 0)) as real
  }

  /** boost * idf * freq / (freq + K) * tf for one term. */
  function Bm25Weight(k: real, tokens: map<string, int>, idf: map<string, real>, tf: map<string, nat>,
                      boost: real, t: string): real
  {
    var freq := SharedFreq(tokens, tf, t);
    boost * GetOr(idf, t, 0.0) * Quot(freq, freq + k) * (GetOr(tf, t, 0) as real)
  }

  /** The decay factor times the weight of one term. */
  function Bm25TermValue(k: real, tokens: map<string, int>, idf: map<string, real>, tf: map<string, nat>,
                         boost: real, factor: real, t: string): real
  {
    factor * Bm25Weight(k, tokens, idf, tf, boost, t)
  }

  /** The score `calcBM25` adds for one matched term. */
  function Bm25Term(k: real, tokens: map<string, int>, idf: map<string, real>, tf: map<string, nat>,
                    boost: real, counts: Option<map<string, int>>, decay: real, exp: real -> real): string -> real
  {
    t => Bm25TermValue(k, tokens, idf, tf, boost, DecayFactor(counts, t, decay, exp), t)
  }

  /** `calcBM25`: the sum, over the matched terms, of decay * boost * idf *
      min(qf, tf) / (min(qf, tf) + K) * tf. */
  ghost function Bm25(dl: nat, avgdl: real, tokens: map<string, int>, idf: map<string, real>, tf: map<string, nat>,
                      boost: real, counts: Option<map<string, int>>, decay: real, exp: real -> real): real
  {
    SumOver(Matched(idf, tf), Bm25Term(NormK(dl, avgdl), tokens, idf, tf, boost, counts, decay, exp))
  }

  /** The decay map `calcBM25` leaves: each matched term counted once more;
      without a map nothing is written. */
  function Bm25Counts(idf: map<string, real>, tf: map<string, nat>, counts: Option<map<string, int>>): Option<map<string, int>>
  {
    match counts
    case None => None
    case Some(m) => Some(Bumped(m, Matched(idf, tf)))
  }

  /** Decay only lowers the BM25 score: with a map whose counts are not
      negative, no term gains (a term already used loses strictly: see
      `Bm25TermUsedLoses`). */
  lemma DecayLowersBm25(dl: nat, avgdl: real, tokens: map<string, int>, idf: map<string, real>, tf: map<string, nat>,
                        boost: real, m: map<string, int>, decay: real, exp: real -> real)
    requires avgdl > 0.0 && boost >= 0.0 && decay >= 0.0
    requires forall t :: t in idf ==> idf[t] >= 0.0
    requires forall t :: t in tokens ==> tokens[t] >= 0
    requires forall t :: t in m ==> m[t] >= 0
    requires forall x :: x <= 0.0 ==> 0.0 <= exp(x) <= 1.0
    ensures Bm25(dl, avgdl, tokens, idf, tf, boost, Some(m), decay, exp)
         <= Bm25(dl, avgdl, tokens, idf, tf, boost, None, decay, exp)
  {
    var k := NormK(dl, avgdl);
    NormKBounds(dl, avgdl);
    var f := Bm25Term(k, tokens, idf, tf, boost, Some(m), decay, exp);
    var g := Bm25Term(k, tokens, idf, tf, boost, None, decay, exp);
    forall t | t in Matched(idf, tf) ensures f(t) <= g(t) {
      Bm25TermDecayed(k, tokens, idf, tf, boost, m, decay, exp, t);
    }
    SumOverMonotone(Matched(idf, tf), f, g);
  }

  lemma Bm25TermDecayed(k: real, tokens: map<string, int>, idf: map<string, real>, tf: map<string, nat>,
                        boost: real, m: map<string, int>, decay: real, exp: real -> real, t: string)
    requires k > 0.0 && boost >= 0.0 && decay >= 0.0 && GetOr(idf, t, 0.0) >= 0.0 && GetOr(tokens, t, 0) >= 0
    requires GetOr(m, t, 0) >= 0
    requires forall x :: x <= 0.0 ==> 0.0 <= exp(x) <= 1.0
    ensures Bm25Term(k, tokens, idf, tf, boost, Some(m), decay, exp)(t) <= Bm25Term(k, tokens, idf, tf, boost, None, decay, exp)(t)
  {
    var c := GetOr(m, t, 0) as real;
    NonNegativeProduct(c, decay);
    var d := DecayFactor(Some(m), t, decay, exp);
    assert 0.0 <= d <= 1.0;
    Bm25TermScales(k, tokens, idf, tf, boost, d, t);
  }

  /** A matched term that earlier documents already used contributes
      strictly less under decay than without it, once its weight is positive:
      a positive boost and idf, and the term in both the query and the
      document. */
  lemma Bm25TermUsedLoses(k: real, tokens: map<string, int>, idf: map<string, real>, tf: map<string, nat>,
                          boost: real, m: map<string, int>, decay: real, exp: real -> real, t: string)
    requires k > 0.0 && boost > 0.0 && decay > 0.0
    requires t in idf && idf[t] > 0.0 && t in tokens && tokens[t] > 0 && t in tf && tf[t] > 0
    requires t in m && m[t] > 0
    requires exp(0.0) == 1.0 && forall x, y :: x < y ==> exp(x) < exp(y)
    ensures Bm25Term(k, tokens, idf, tf, boost, Some(m), decay, exp)(t) < Bm25Term(k, tokens, idf, tf, boost, None, decay, exp)(t)
  {
    Bm25WeightPositive(k, tokens, idf, tf, boost, t);
    var none: map<string, int> := map[];
    DecayFactorShrinks(none, m, t, decay, exp);
    var d := DecayFactor(Some(m), t, decay, exp);
    assert d < 1.0 by {
      assert -(GetOr(none, t, 0) as real) * decay == 0.0;
    }
    Bm25TermScalesStrict(k, tokens, idf, tf, boost, d, t);
  }

  lemma Bm25TermScalesStrict(k: real, tokens: map<string, int>, idf: map<string, real>, tf: map<string, nat>,
                             boost: real, d: real, t: string)
    requires Bm25Weight(k, tokens, idf, tf, boost, t) > 0.0 && d < 1.0
    ensures Bm25TermValue(k, tokens, idf, tf, boost, d, t) < Bm25TermValue(k, tokens, idf, tf, boost, 1.0, t)
  {
    var w := Bm25Weight(k, tokens, idf, tf, boost, t);
    ScaleDownStrict(d, w);
    assert Bm25TermValue(k, tokens, idf, tf, boost, d, t) == d * w;
    assert Bm25TermValue(k, tokens, idf, tf, boost, 1.0, t) == 1.0 * w;
  }

  lemma Bm25WeightPositive(k: real, tokens: map<string, int>, idf: map<string, real>, tf: map<string, nat>,
                           boost: real, t: string)
    requires k > 0.0 && boost > 0.0
    requires t in idf && idf[t] > 0.0 && t in tokens && tokens[t] > 0 && t in tf && tf[t] > 0
    ensures Bm25Weight(k, tokens, idf, tf, boost, t) > 0.0
  {
    var freq := SharedFreq(tokens, tf, t);
    assert freq > 0.0;
    var q := Quot(freq, freq + k);
    assert q == freq / (freq + k);
    PositiveQuotient(freq, freq + k);
    PositiveProduct(boost, idf[t]);
    PositiveProduct(boost * idf[t], q);
    PositiveProduct(boost * idf[t] * q, tf[t] as real);
  }

  lemma PositiveQuotient(x: real, y: real)
    requires x > 0.0 && y > 0.0
    ensures x / y > 0.0
  {
  }

  lemma ScaleDownStrict(d: real, x: real)
    requires d < 1.0 && x > 0.0
    ensures d * x < 1.0 * x
  {
    assert x - d * x == (1.0 - d) * x;
    PositiveProduct(1.0 - d, x);
  }

  lemma PositiveProduct(x: real, y: real)
    requires x > 0.0 && y > 0.0
    ensures x * y > 0.0
  {
  }

  lemma Bm25TermScales(k: real, tokens: map<string, int>, idf: map<string, real>, tf: map<string, nat>,
                       boost: real, d: real, t: string)
    requires k > 0.0 && boost >= 0.0 && GetOr(idf, t, 0.0) >= 0.0 && GetOr(tokens, t, 0) >= 0
    requires 0.0 <= d <= 1.0
    ensures Bm25TermValue(k, tokens, idf, tf, boost, d, t) <= Bm25TermValue(k, tokens, idf, tf, boost, 1.0, t)
  {
    Bm25WeightNonNegative(k, tokens, idf, tf, boost, t);
    ScaleDown(d, Bm25Weight(k, tokens, idf, tf, boost, t));
  }

  lemma Bm25WeightNonNegative(k: real, tokens: map<string, int>, idf: map<string, real>, tf: map<string, nat>,
                              boost: real, t: string)
    requires k > 0.0 && boost >= 0.0 && GetOr(idf, t, 0.0) >= 0.0 && GetOr(tokens, t, 0) >= 0
    ensures Bm25Weight(k, tokens, idf, tf, boost, t) >= 0.0
  {
    var freq := SharedFreq(tokens, tf, t);
    var q := Quot(freq, freq + k);
    assert q >= 0.0;
    var a := boost * GetOr(idf, t, 0.0);
    NonNegativeProduct(boost, GetOr(idf, t, 0.0));
    NonNegativeProduct(a, q);
    NonNegativeProduct(a * q, GetOr(tf, t, 0) as real);
  }

  lemma NonNegativeProduct(x: real, y: real)
    requires x >= 0.0 && y >= 0.0
    ensures x * y >= 0.0
  {
  }

  lemma ScaleDown(d: real, x: real)
    requires 0.0 <= d <= 1.0 && x >= 0.0
    ensures d * x <= x
  {
    assert x - d * x == (1.0 - d) * x;
    NonNegativeProduct(1.0 - d, x);
  }

  // ---------------------------------------------------------------------
  // Term proximity

  /** A pair of hit occurrences `calcTermProximity` counts: the terms at i and
      at the next hit, and their distance in occurrences. */
  datatype Pair = Pair(t1: string, t2: string, gap: int)

  /** The pair occurrence i contributes, if any: i is a hit, it has a next hit,
      both terms are query terms, and the terms differ. */
  function PairAt(docTerms: seq<string>, tokens: map<string, int>, h: DocHelpers, i: int): (r: Option<Pair>)
    requires 0 <= i < |docTerms|
    ensures r.Some? ==> r.value.t1 in tokens && r.value.t2 in tokens && r.value.t1 != r.value.t2
    ensures r.Some? ==> r.value.gap >= 1 && i + r.value.gap < |docTerms|
    ensures r.Some? ==> r.value.t1 == docTerms[i] && r.value.t2 == docTerms[i + r.value.gap]
    ensures r.None? && h.termHit(i) != 0 && i < h.nextTermHit(i) < |docTerms| ==>
      var t1, t2 := docTerms[i], docTerms[h.nextTermHit(i)];
      t1 !in tokens || t2 !in tokens || t1 == t2
  {
    if h.termHit(i) == 0 then None
    else
      var next := h.nextTermHit(i);
      if !(i < next < |docTerms|) then None
      else
        var t1, t2 := docTerms[i], docTerms[next];
        if t1 !in tokens || t2 !in tokens || t1 == t2 then None
        else Some(Pair(t1, t2, next - i))
  }

  /** Whether the query has t1 and, `gap` occurrences later, t2. */
  predicate QueryHasGap(queryTerms: seq<string>, t1: string, t2: string, gap: int)
  {
    exists m :: 0 <= m < |queryTerms| && 0 <= m + gap < |queryTerms| && queryTerms[m] == t1 && queryTerms[m + gap] == t2
  }

  function ZeroAcc(tokens: map<string, int>): (acc: map<string, real>)
    ensures acc.Keys == tokens.Keys && forall t :: t in acc ==> acc[t] == 0.0
  {
    map t | t in tokens :: 0.0
  }

  function Sq(gap: int): real
  {
    (gap * gap) as real
  }

  /** The `acc` map after the first n occurrences: every contributing pair adds
      idf[t2] / gap^2 to acc[t1] and idf[t1] / gap^2 to acc[t2]. */
  function AccAfter(docTerms: seq<string>, tokens: map<string, int>, idf: map<string, real>, h: DocHelpers, n: nat): (acc: map<string, real>)
    requires n <= |docTerms|
    ensures acc.Keys == tokens.Keys
  {
    if n == 0 then ZeroAcc(tokens)
    else
      var acc := AccAfter(docTerms, tokens, idf, h, n - 1);
      match PairAt(docTerms, tokens, h, n - 1)
      case None => acc
      case Some(p) => AddPair(acc, idf, p)
  }

  /** `acc` after pair p: idf[t2] / gap^2 added to t1's entry, then idf[t1] /
      gap^2 added to t2's. */
  function AddPair(acc: map<string, real>, idf: map<string, real>, p: Pair): (r: map<string, real>)
    requires p.t1 in acc && p.t2 in acc
    ensures r.Keys == acc.Keys
  {
    var w := acc[p.t1 := acc[p.t1] + Quot(GetOr(idf, p.t2, 0.0), Sq(p.gap))];
    w[p.t2 := w[p.t2] + Quot(GetOr(idf, p.t1, 0.0), Sq(p.gap))]
  }

  /** Whether some contributing pair among the first n occurrences involves t. */
  predicate Paired(docTerms: seq<string>, tokens: map<string, int>, h: DocHelpers, n: nat, t: string)
    requires n <= |docTerms|
  {
    exists i :: 0 <= i < n && PairAt(docTerms, tokens, h, i).Some? &&
      (PairAt(docTerms, tokens, h, i).value.t1 == t || PairAt(docTerms, tokens, h, i).value.t2 == t)
  }

  /** With positive idfs, a query term accumulates a positive weight exactly
      when it takes part in a contributing pair, and zero otherwise. */
  lemma {:induction false} AccPositiveIffPaired(docTerms: seq<string>, tokens: map<string, int>, idf: map<string, real>,
                                                h: DocHelpers, n: nat, t: string)
    requires n <= |docTerms| && t in tokens
    requires forall u :: u in tokens ==> GetOr(idf, u, 0.0) > 0.0
    ensures AccAfter(docTerms, tokens, idf, h, n)[t] >= 0.0
    ensures AccAfter(docTerms, tokens, idf, h, n)[t] > 0.0 <==> Paired(docTerms, tokens, h, n, t)
  {
    if n > 0 {
      AccPositiveIffPaired(docTerms, tokens, idf, h, n - 1, t);
      AccStep(docTerms, tokens, idf, h, n, t);
      PairedStep(docTerms, tokens, h, n, t);
    }
  }

  /** Whether the pair occurrence i contributes, if any, involves t. */
  predicate Involves(docTerms: seq<string>, tokens: map<string, int>, h: DocHelpers, i: int, t: string)
    requires 0 <= i < |docTerms|
  {
    PairAt(docTerms, tokens, h, i).Some? &&
    (PairAt(docTerms, tokens, h, i).value.t1 == t || PairAt(docTerms, tokens, h, i).value.t2 == t)
  }

  lemma AccStep(docTerms: seq<string>, tokens: map<string, int>, idf: map<string, real>, h: DocHelpers, n: nat, t: string)
    requires 0 < n <= |docTerms| && t in tokens
    requires forall u :: u in tokens ==> GetOr(idf, u, 0.0) > 0.0
    ensures Involves(docTerms, tokens, h, n - 1, t) ==>
      AccAfter(docTerms, tokens, idf, h, n)[t] > AccAfter(docTerms, tokens, idf, h, n - 1)[t]
    ensures !Involves(docTerms, tokens, h, n - 1, t) ==>
      AccAfter(docTerms, tokens, idf, h, n)[t] == AccAfter(docTerms, tokens, idf, h, n - 1)[t]
  {
    var p := PairAt(docTerms, tokens, h, n - 1);
    if p.Some? {
      var g := Sq(p.value.gap);
      assert g > 0.0 by {
        assert p.value.gap * p.value.gap >= 1;
      }
      assert Quot(GetOr(idf, p.value.t2, 0.0), g) > 0.0;
      assert Quot(GetOr(idf, p.value.t1, 0.0), g) > 0.0;
    }
  }

  lemma PairedStep(docTerms: seq<string>, tokens: map<string, int>, h: DocHelpers, n: nat, t: string)
    requires 0 < n <= |docTerms|
    ensures Paired(docTerms, tokens, h, n, t) <==>
      Paired(docTerms, tokens, h, n - 1, t) || Involves(docTerms, tokens, h, n - 1, t)
  {
    if Paired(docTerms, tokens, h, n, t) && !Involves(docTerms, tokens, h, n - 1, t) {
      var i :| 0 <= i < n && PairAt(docTerms, tokens, h, i).Some? &&
        (PairAt(docTerms, tokens, h, i).value.t1 == t || PairAt(docTerms, tokens, h, i).value.t2 == t);
      assert i < n - 1;
    }
  }

  /** The number of contributing pairs among the first n occurrences. */
  function PairCount(docTerms: seq<string>, tokens: map<string, int>, h: DocHelpers, n: nat): nat
    requires n <= |docTerms|
  {
    if n == 0 then 0
    else PairCount(docTerms, tokens, h, n - 1) + (if PairAt(docTerms, tokens, h, n - 1).Some? then 1 else 0)
  }

  /** The boost after the first n occurrences: 0.1 more for each contributing
      pair whose gap also separates its terms in the query. */
  function BoostAfter(docTerms: seq<string>, queryTerms: seq<string>, tokens: map<string, int>, h: DocHelpers,
                      boost0: real, n: nat): real
    requires n <= |docTerms|
  {
    if n == 0 then boost0
    else
      var b := BoostAfter(docTerms, queryTerms, tokens, h, boost0, n - 1);
      match PairAt(docTerms, tokens, h, n - 1)
      case None => b
      case Some(p) => if QueryHasGap(queryTerms, p.t1, p.t2, p.gap) then b + GapBoost else b
  }

  /** The boost starts at the caller's value and rises by 0.1 at most once per
      contributing pair. */
  lemma {:induction false} BoostBounds(docTerms: seq<string>, queryTerms: seq<string>, tokens: map<string, int>,
                                       h: DocHelpers, boost0: real, n: nat)
    requires n <= |docTerms|
    ensures boost0 <= BoostAfter(docTerms, queryTerms, tokens, h, boost0, n)
                   <= boost0 + GapBoost * PairCount(docTerms, tokens, h, n) as real
    ensures PairCount(docTerms, tokens, h, n) <= n
  {
    if n > 0 {
      BoostBounds(docTerms, queryTerms, tokens, h, boost0, n - 1);
    }
  }

  /** The outcome of `calcTermProximity`: its score, and the boost it stores
      in the record, or None on the early return that stores nothing. */
  datatype Proximity = Proximity(score: real, boost: Option<real>)

  /** factor * min(1, idf) * acc * (k1 + 1) / (acc + K) for one query term. */
  function TpTermValue(acc: map<string, real>, idf: map<string, real>, k: real, factor: real, tok: string): real
  {
    var s := GetOr(acc, tok, 0.0);
    Quot(factor * Min(1.0, GetOr(idf, tok, 0.0)) * s * (K1 + 1.0), s + k)
  }

  /** The term `calcTermProximity`'s last loop adds for one query term. */
  function TpTerm(acc: map<string, real>, idf: map<string, real>, k: real, counts: Option<map<string, int>>,
                  decay: real, exp: real -> real): string -> real
  {
    tok => TpTermValue(acc, idf, k, DecayFactor(counts, tok, decay, exp), tok)
  }

  /** `calcTermProximity`: 0 with nothing stored when the document has at most
      one occurrence or the query at most one distinct term; otherwise the sum
      over the query terms of decay * min(1, idf) * acc * (k1 + 1) / (acc + K),
      times the final boost, which is stored. */
  ghost function TermProximity(docTerms: seq<string>, queryTerms: seq<string>, tokens: map<string, int>,
                               idf: map<string, real>, h: DocHelpers, avgdl: real, boost0: real,
                               counts: Option<map<string, int>>, decay: real, exp: real -> real): Proximity
  {
    if |docTerms| <= 1 || |tokens| <= 1 then Proximity(0.0, None)
    else
      ProximityFrom(AccAfter(docTerms, tokens, idf, h, |docTerms|), BoostAfter(docTerms, queryTerms, tokens, h, boost0, |docTerms|),
                    idf, NormK(|docTerms|, avgdl), counts, decay, exp)
  }

  /** The proximity of a completed `acc` map and boost. */
  ghost function ProximityFrom(acc: map<string, real>, b: real, idf: map<string, real>, k: real,
                               counts: Option<map<string, int>>, decay: real, exp: real -> real): Proximity
  {
    Proximity(SumOver(acc.Keys, TpTerm(acc, idf, k, counts, decay, exp)) * b, Some(b))
  }

  /** A document none of whose hits pairs up with a different query term
      scores no proximity at all, whatever the boost and the decay map. */
  lemma ProximityWithoutPairs(docTerms: seq<string>, queryTerms: seq<string>, tokens: map<string, int>,
                              idf: map<string, real>, h: DocHelpers, avgdl: real, boost0: real,
                              counts: Option<map<string, int>>, decay: real, exp: real -> real)
    requires forall u :: u in tokens ==> GetOr(idf, u, 0.0) > 0.0
    requires forall i :: 0 <= i < |docTerms| ==> PairAt(docTerms, tokens, h, i).None?
    ensures TermProximity(docTerms, queryTerms, tokens, idf, h, avgdl, boost0, counts, decay, exp).score == 0.0
  {
    if !(|docTerms| <= 1 || |tokens| <= 1) {
      var n := |docTerms|;
      var acc := AccAfter(docTerms, tokens, idf, h, n);
      var b := BoostAfter(docTerms, queryTerms, tokens, h, boost0, n);
      forall t | t in acc ensures acc[t] == 0.0 {
        AccPositiveIffPaired(docTerms, tokens, idf, h, n, t);
      }
      TpSumZero(acc, idf, NormK(n, avgdl), counts, decay, exp);
    }
  }

  /** An all-zero `acc` map gives a zero proximity sum. */
  lemma TpSumZero(acc: map<string, real>, idf: map<string, real>, k: real, counts: Option<map<string, int>>,
                  decay: real, exp: real -> real)
    requires forall t :: t in acc ==> acc[t] == 0.0
    ensures SumOver(acc.Keys, TpTerm(acc, idf, k, counts, decay, exp)) == 0.0
  {
    var f := TpTerm(acc, idf, k, counts, decay, exp);
    forall t | t in acc.Keys ensures f(t) == (_ => 0.0)(t) {
      TpTermZero(acc, idf, k, counts, decay, exp, t);
    }
    SumOverCongruent(acc.Keys, f, _ => 0.0);
    SumOverZero(acc.Keys);
  }

  lemma TpTermZero(acc: map<string, real>, idf: map<string, real>, k: real, counts: Option<map<string, int>>,
                   decay: real, exp: real -> real, t: string)
    requires GetOr(acc, t, 0.0) == 0.0
    ensures TpTerm(acc, idf, k, counts, decay, exp)(t) == 0.0
  {
    var x := DecayFactor(counts, t, decay, exp) * Min(1.0, GetOr(idf, t, 0.0));
    assert x * 0.0 == 0.0;
  }

  lemma {:induction false} SumOverZero(keys: set<string>)
    ensures SumOver(keys, _ => 0.0) == 0.0
    decreases keys
  {
    if keys != {} {
      var k :| k in keys;
      SumOverRemove(keys, _ => 0.0, k);
      SumOverZero(keys - {k});
    }
  }

  // ---------------------------------------------------------------------
  // Adjacent characters

  /** The right and left hits of doc occurrence i against query occurrences
      j < m holding the same term. */
  function AdjacentRow(docTerms: seq<string>, queryTerms: seq<string>, h: DocHelpers, window: int, i: int, m: nat): real
    requires 0 <= i < |docTerms| && m <= |queryTerms|
  {
    if m == 0 then 0.0
    else
      AdjacentRow(docTerms, queryTerms, h, window, i, m - 1) +
      (if docTerms[i] == queryTerms[m - 1] then h.rightHit(i, m - 1, window) + h.leftHit(i, m - 1, window) else 0.0)
  }

  /** The rows of the first n doc occurrences. */
  function AdjacentSum(docTerms: seq<string>, queryTerms: seq<string>, h: DocHelpers, window: int, n: nat): real
    requires n <= |docTerms|
  {
    if n == 0 then 0.0
    else AdjacentSum(docTerms, queryTerms, h, window, n - 1) + AdjacentRow(docTerms, queryTerms, h, window, n - 1, |queryTerms|)
  }

  /** `calcTermAdjacentCharMatch`: 2.2 times the hits summed over all equal
      (document, query) occurrence pairs. */
  function Adjacent(docTerms: seq<string>, queryTerms: seq<string>, h: DocHelpers, window: int): real
  {
    AdjacentWeight * AdjacentSum(docTerms, queryTerms, h, window, |docTerms|)
  }

  /** Only equal (document, query) term pairs contribute: a document sharing
      no term with the query scores 0, however the helpers are defined. */
  lemma {:induction false} AdjacentNeedsSharedTerm(docTerms: seq<string>, queryTerms: seq<string>, h: DocHelpers, window: int, n: nat)
    requires n <= |docTerms|
    requires forall i, j :: 0 <= i < |docTerms| && 0 <= j < |queryTerms| ==> docTerms[i] != queryTerms[j]
    ensures AdjacentSum(docTerms, queryTerms, h, window, n) == 0.0
  {
    if n > 0 {
      AdjacentNeedsSharedTerm(docTerms, queryTerms, h, window, n - 1);
      AdjacentRowZero(docTerms, queryTerms, h, window, n - 1, |queryTerms|);
    }
  }

  lemma {:induction false} AdjacentRowZero(docTerms: seq<string>, queryTerms: seq<string>, h: DocHelpers, window: int, i: int, m: nat)
    requires 0 <= i < |docTerms| && m <= |queryTerms|
    requires forall j :: 0 <= j < |queryTerms| ==> docTerms[i] != queryTerms[j]
    ensures AdjacentRow(docTerms, queryTerms, h, window, i, m) == 0.0
  {
    if m > 0 {
      AdjacentRowZero(docTerms, queryTerms, h, window, i, m - 1);
    }
  }

  // ---------------------------------------------------------------------
  // One document through the two passes

  /** Everything the two passes read about one document once its index is
      built: identity and base score, its sorted occurrences and buffer
      length, term frequencies, helpers, and the shared query data. */
  datatype DocView = DocView(
    docid: int,
    orig: int,
    base: real,
    occ: seq<TermPos>,
    docStringLength: nat,
    tf: map<string, nat>,
    helpers: DocHelpers,
    avgdl: real,
    idf: map<string, real>,
    tokens: map<string, int>,
    queryOcc: seq<TermPos>)

  /** The coverage gate: at least half of the document's characters are hit. */
  predicate Admitted(v: DocView)
  {
    !(v.helpers.charHitCount as real * 2.0 < v.docStringLength as real)
  }

  ghost function ProximityOf(v: DocView, counts: Option<map<string, int>>, decay: real, exp: real -> real): Proximity
  {
    TermProximity(Terms(v.occ), Terms(v.queryOcc), v.tokens, v.idf, v.helpers, v.avgdl, InitialBoost, counts, decay, exp)
  }

  function AdjacentOf(v: DocView): real
  {
    Adjacent(Terms(v.occ), Terms(v.queryOcc), v.helpers, CharWindow)
  }

  ghost function Bm25Of(v: DocView, counts: Option<map<string, int>>, decay: real, exp: real -> real): real
  {
    Bm25(|v.occ|, v.avgdl, v.tokens, v.idf, v.tf, InitialBoost, counts, decay, exp)
  }

  /** Pass 1: -1 for a document the gate rejects, otherwise proximity without
      decay plus the adjacent-character score plus the original score. */
  ghost function Pass1Score(v: DocView, exp: real -> real): real
  {
    if !Admitted(v) then Skipped
    else ProximityOf(v, None, 1.0, exp).score + AdjacentOf(v) + v.base
  }

  /** The pass-1 comparator: score descending, then original rank ascending. */
  ghost function Pass1Key(v: DocView, exp: real -> real): Key
  {
    Key(-Pass1Score(v, exp), v.orig)
  }

  /** The decay map after pass 2 has seen one document: unchanged when its
      pass-1 score is negative, otherwise each of its matched terms counted
      once more. */
  ghost function DecayAfter(v: DocView, m: map<string, int>, exp: real -> real): map<string, int>
  {
    if Pass1Score(v, exp) < 0.0 then m else Bumped(m, Matched(v.idf, v.tf))
  }

  /** The decay map pass 2 holds when it reaches the k-th document of the
      pass-1 order: every earlier document it scored has counted each of its
      matched terms once. */
  ghost function DecayBefore(vs: seq<DocView>, k: nat, exp: real -> real): map<string, int>
    requires k <= |vs|
  {
    if k == 0 then map[] else DecayAfter(vs[k - 1], DecayBefore(vs, k - 1, exp), exp)
  }

  /** Pass 2 on one document that finds the decay map `m`: -1 for a
      document with a negative pass-1 score, otherwise the proximity and BM25
      scores under `m`, plus the adjacent-character score of pass 1. */
  ghost function Pass2With(v: DocView, m: map<string, int>, decay: real, exp: real -> real): real
  {
    if Pass1Score(v, exp) < 0.0 then Skipped
    else ProximityOf(v, Some(m), decay, exp).score + AdjacentOf(v) + Bm25Of(v, Some(m), decay, exp)
  }

  /** Pass 2 on the k-th document of the pass-1 order. */
  ghost function Pass2Score(vs: seq<DocView>, k: nat, decay: real, exp: real -> real): real
    requires k < |vs|
  {
    Pass2With(vs[k], DecayBefore(vs, k, exp), decay, exp)
  }

  /** The number of documents before the k-th that pass 2 scored and whose
      matched terms include t. */
  ghost function UsesBefore(vs: seq<DocView>, k: nat, t: string, exp: real -> real): nat
    requires k <= |vs|
  {
    if k == 0 then 0
    else
      var v := vs[k - 1];
      UsesBefore(vs, k - 1, t, exp) + (if Pass1Score(v, exp) >= 0.0 && t in Matched(v.idf, v.tf) then 1 else 0)
  }

  /** The decay map counts, for each term, the earlier scored documents that
      matched it; terms never matched are absent. */
  lemma {:induction false} DecayCountsUses(vs: seq<DocView>, k: nat, t: string, exp: real -> real)
    requires k <= |vs|
    ensures GetOr(DecayBefore(vs, k, exp), t, 0) == UsesBefore(vs, k, t, exp)
    ensures t in DecayBefore(vs, k, exp) <==> UsesBefore(vs, k, t, exp) > 0
  {
    if k > 0 {
      DecayCountsUses(vs, k - 1, t, exp);
    }
  }

  /** The decay map a document finds depends only on the documents before it
      in pass-1 order. */
  lemma {:induction false} DecayOnlyLooksBack(vs: seq<DocView>, ws: seq<DocView>, k: nat, exp: real -> real)
    requires k <= |vs| && k <= |ws| && vs[..k] == ws[..k]
    ensures DecayBefore(vs, k, exp) == DecayBefore(ws, k, exp)
  {
    if k > 0 {
      assert vs[k - 1] == vs[..k][k - 1] == ws[..k][k - 1] == ws[k - 1];
      assert vs[..k - 1] == vs[..k][..k - 1];
      assert ws[..k - 1] == ws[..k][..k - 1];
      DecayOnlyLooksBack(vs, ws, k - 1, exp);
    }
  }

  /** A document the gate rejects scores -1 in both passes, and the gate
      admits a coverage of exactly one half. */
  lemma GateSkipsBothPasses(vs: seq<DocView>, k: nat, decay: real, exp: real -> real)
    requires k < |vs|
    ensures !Admitted(vs[k]) ==> Pass1Score(vs[k], exp) == Skipped && Pass2Score(vs, k, decay, exp) == Skipped
    ensures vs[k].helpers.charHitCount * 2 == vs[k].docStringLength ==> Admitted(vs[k])
  {
  }

  // ---------------------------------------------------------------------
  // Output

  /** One entry of the result: document id and score. */
  datatype ScoreDoc = ScoreDoc(doc: int, score: real)

  /** The documents with a positive final score, in the given order. */
  function Positive(docs: seq<ScoreDoc>): (r: seq<ScoreDoc>)
    ensures |r| <= |docs|
    ensures forall e :: e in r ==> e in docs && e.score > 0.0
    ensures forall e :: e in docs && e.score > 0.0 ==> e in r
  {
    if docs == [] then []
    else Positive(docs[..|docs| - 1]) + (if docs[|docs| - 1].score > 0.0 then [docs[|docs| - 1]] else [])
  }

  /** The result of `rescore`: the positive documents, or the first document
      alone, whatever its score, when none is positive. */
  function Output(docs: seq<ScoreDoc>): (r: seq<ScoreDoc>)
    requires |docs| > 0
    ensures 1 <= |r| <= |docs|
    ensures Positive(docs) != [] ==> r == Positive(docs)
    ensures Positive(docs) == [] ==> r == [docs[0]]
  {
    if Positive(docs) == [] then [docs[0]] else Positive(docs)
  }
}
