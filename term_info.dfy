/** The positional term index of one text, the query or one document
    (`BM25tpTermInfo`): occurrences are appended with a per-term count, then
    sorted by (offset, term length), and one pass over them builds a padded
    character buffer `rawText` and a per-character coverage array `charHit`. */
module TermIndex {
  import opened Basics
  import opened Sorting

  /** One occurrence: its term, its hit flag (-1 unmarked, as for the query;
      1 or 0 for a document occurrence whose term is or is not in the query)
      and the character offset where it starts. */
  datatype TermPos = TermPos(term: string, hit: int, offset: int)

  const Unmarked: int := -1
  /** The value of `charHit` at a character no occurrence covers. */
  const Uncovered: int := -1

  /** The comparator of `sortAndRawText`: offset, then term length. */
  function OccKey(o: TermPos): Key
  {
    Key(o.offset as real, |o.term|)
  }

  predicate Covers(o: TermPos, c: int)
  {
    o.offset <= c < o.offset + |o.term|
  }

  function Terms(s: seq<TermPos>): (r: seq<string>)
    ensures |r| == |s| && forall i :: 0 <= i < |s| ==> r[i] == s[i].term
  {
    seq(|s|, i requires 0 <= i < |s| => s[i].term)
  }

  /** The count map that `addTermPos` maintains over a sequence of additions. */
  function CountMap(s: seq<TermPos>): map<string, int>
  {
    if s == [] then map[]
    else
      var m := CountMap(s[..|s| - 1]);
      var t := s[|s| - 1].term;
      m[t := GetOr(m, t, 0) + 1]
  }

  /** The count of each term is its number of occurrences: the keys are the
      added terms and the counts are the multiplicities of the multiset of
      added terms, whose size is the number of additions. */
  lemma {:induction false} CountMapCounts(s: seq<TermPos>)
    ensures forall t :: t in CountMap(s) <==> t in multiset(Terms(s))
    ensures forall t :: t in CountMap(s) ==> CountMap(s)[t] == multiset(Terms(s))[t]
    ensures |multiset(Terms(s))| == |s|
    decreases |s|
  {
    if s != [] {
      var p := s[..|s| - 1];
      CountMapCounts(p);
      assert Terms(s) == Terms(p) + [s[|s| - 1].term];
    }
  }

  /** A term is counted exactly when some occurrence of it was added. */
  lemma CountedIffOccurs(s: seq<TermPos>, t: string)
    ensures t in CountMap(s) <==> exists i :: 0 <= i < |s| && s[i].term == t
  {
    CountMapCounts(s);
    if t in multiset(Terms(s)) {
      var i :| 0 <= i < |s| && Terms(s)[i] == t;
    }
    if exists i :: 0 <= i < |s| && s[i].term == t {
      var i :| 0 <= i < |s| && s[i].term == t;
      assert Terms(s)[i] == t;
    }
  }

  /** Index of the first occurrence of `s` covering character `c`, or -1. */
  function FirstCover(s: seq<TermPos>, c: int): (r: int)
    ensures -1 <= r < |s|
  {
    if s == [] then Uncovered
    else
      var f := FirstCover(s[..|s| - 1], c);
      if f != Uncovered then f
      else if Covers(s[|s| - 1], c) then |s| - 1
      else Uncovered
  }

  /** `FirstCover` finds the first covering occurrence, and -1 means none covers. */
  lemma {:induction false} FirstCoverIsFirst(s: seq<TermPos>, c: int)
    ensures FirstCover(s, c) == Uncovered <==> forall i :: 0 <= i < |s| ==> !Covers(s[i], c)
    ensures FirstCover(s, c) != Uncovered ==>
      Covers(s[FirstCover(s, c)], c) && forall i :: 0 <= i < FirstCover(s, c) ==> !Covers(s[i], c)
    decreases |s|
  {
    if s != [] {
      var p := s[..|s| - 1];
      FirstCoverIsFirst(p, c);
      assert forall i :: 0 <= i < |p| ==> p[i] == s[i];
    }
  }

  /** Index of the last occurrence of `s` covering character `c`, or -1. */
  function LastCover(s: seq<TermPos>, c: int): (r: int)
    ensures -1 <= r < |s|
    ensures r != -1 ==> Covers(s[r], c)
  {
    if s == [] then -1
    else if Covers(s[|s| - 1], c) then |s| - 1
    else LastCover(s[..|s| - 1], c)
  }

  /** `LastCover` finds the last covering occurrence, and -1 means none covers. */
  lemma {:induction false} LastCoverIsLast(s: seq<TermPos>, c: int)
    ensures LastCover(s, c) == -1 <==> forall i :: 0 <= i < |s| ==> !Covers(s[i], c)
    ensures LastCover(s, c) != -1 ==> forall i :: LastCover(s, c) < i < |s| ==> !Covers(s[i], c)
    decreases |s|
  {
    if s != [] {
      LastCoverIsLast(s[..|s| - 1], c);
    }
  }

  /** The character the buffer holds at `c`: the last writer's, or the pad. */
  function RawChar(s: seq<TermPos>, c: int, pad: char): char
  {
    var k := LastCover(s, c);
    if k == -1 then pad else s[k].term[c - s[k].offset]
  }

  /** The buffer length `sortAndRawText` allocates: the end of the LAST sorted
      occurrence, which need not be the largest end. */
  function BufferLength(s: seq<TermPos>): int
    requires |s| > 0
  {
    s[|s| - 1].offset + |s[|s| - 1].term|
  }

  /** An occurrence whose characters can all be written into a buffer of `length`. */
  predicate Fits(o: TermPos, length: int)
  {
    |o.term| == 0 || (0 <= o.offset && o.offset + |o.term| <= length)
  }

  /** `sortAndRawText` completes without an exception exactly when there is an
      occurrence, the buffer length is not negative and every occurrence fits. */
  predicate BufferFits(s: seq<TermPos>)
  {
    |s| > 0 && BufferLength(s) >= 0 && forall i :: 0 <= i < |s| ==> Fits(s[i], BufferLength(s))
  }

  lemma CoverStep(s: seq<TermPos>, i: int, c: int, pad: char)
    requires 0 <= i < |s|
    ensures FirstCover(s[..i + 1], c) ==
      if FirstCover(s[..i], c) != Uncovered then FirstCover(s[..i], c)
      else if Covers(s[i], c) then i else Uncovered
    ensures RawChar(s[..i + 1], c, pad) ==
      if Covers(s[i], c) then s[i].term[c - s[i].offset] else RawChar(s[..i], c, pad)
  {
    assert s[..i + 1][..i] == s[..i];
  }

  /** If `a` holds an occurrence of `t`, so does any permutation of `a`. */
  lemma OccursInPermutation(a: seq<TermPos>, b: seq<TermPos>, t: string)
    requires multiset(a) == multiset(b)
    ensures (exists i :: 0 <= i < |a| && a[i].term == t) ==> exists j :: 0 <= j < |b| && b[j].term == t
  {
    if exists i :: 0 <= i < |a| && a[i].term == t {
      var i :| 0 <= i < |a| && a[i].term == t;
      assert a[i] in multiset(b);
      var j :| 0 <= j < |b| && b[j] == a[i];
    }
  }

  /** The two loops of `sortAndRawText` over the sorted occurrences: fill the
      buffer with the pad, then write every occurrence in order, the last
      writer of a character winning in the buffer and the first in the
      coverage array. */
  method WriteBuffer(s: seq<TermPos>, length: nat, pad: char) returns (sb: array<char>, hits: array<int>)
    requires forall i :: 0 <= i < |s| ==> Fits(s[i], length)
    ensures fresh(sb) && fresh(hits) && sb.Length == hits.Length == length
    ensures forall d :: 0 <= d < length ==> hits[d] == FirstCover(s, d) && sb[d] == RawChar(s, d, pad)
  {
    sb := new char[length];
    hits := new int[length];
    var c := 0;
    while c < length
      invariant 0 <= c <= length
      invariant forall d :: 0 <= d < c ==> sb[d] == pad && hits[d] == Uncovered
    {
      sb[c] := pad;
      hits[c] := Uncovered;
      c := c + 1;
    }
    var i := 0;
    while i < |s|
      invariant 0 <= i <= |s|
      invariant forall d :: 0 <= d < length ==>
        hits[d] == FirstCover(s[..i], d) && sb[d] == RawChar(s[..i], d, pad)
    {
      WriteOccurrence(s, i, sb, hits, pad);
      i := i + 1;
    }
    assert s[..|s|] == s;
  }

  /** Writes the characters of occurrence `i` into the buffer. */
  method WriteOccurrence(s: seq<TermPos>, i: int, sb: array<char>, hits: array<int>, pad: char)
    requires 0 <= i < |s| && sb.Length == hits.Length && Fits(s[i], sb.Length)
    requires forall d :: 0 <= d < sb.Length ==>
      hits[d] == FirstCover(s[..i], d) && sb[d] == RawChar(s[..i], d, pad)
    modifies sb, hits
    ensures forall d :: 0 <= d < sb.Length ==>
      hits[d] == FirstCover(s[..i + 1], d) && sb[d] == RawChar(s[..i + 1], d, pad)
  {
    var o := s[i];
    var j := 0;
    while j < |o.term|
      invariant 0 <= j <= |o.term|
      invariant forall d :: 0 <= d < sb.Length && o.offset <= d < o.offset + j ==>
        hits[d] == FirstCover(s[..i + 1], d) && sb[d] == RawChar(s[..i + 1], d, pad)
      invariant forall d :: 0 <= d < sb.Length && !(o.offset <= d < o.offset + j) ==>
        hits[d] == FirstCover(s[..i], d) && sb[d] == RawChar(s[..i], d, pad)
    {
      var co := j + o.offset;
      CoverStep(s, i, co, pad);
      sb[co] := o.term[j];
      if hits[co] == Uncovered {
        hits[co] := i;
      }
      j := j + 1;
    }
    forall d | 0 <= d < sb.Length
      ensures hits[d] == FirstCover(s[..i + 1], d) && sb[d] == RawChar(s[..i + 1], d, pad)
    {
      CoverStep(s, i, d, pad);
    }
  }

  /** The buffer part of `sortAndRawText` on the sorted occurrences: the
      length check, then the two loops. `ok` is false where the Java code throws. */
  method BuildIndex(s: seq<TermPos>, pad: char) returns (ok: bool, raw: string, hits: array<int>)
    ensures ok == BufferFits(s)
    ensures fresh(hits)
    ensures ok ==> |raw| == hits.Length == BufferLength(s)
    ensures ok ==> forall d :: 0 <= d < hits.Length ==> hits[d] == FirstCover(s, d)
    ensures ok ==> forall d :: 0 <= d < |raw| ==> raw[d] == RawChar(s, d, pad)
  {
    if |s| == 0 {
      return false, "", new int[0];
    }
    var length := s[|s| - 1].offset + |s[|s| - 1].term|;
    if length < 0 || !(forall i | 0 <= i < |s| :: Fits(s[i], length)) {
      return false, "", new int[0];
    }
    ok := true;
    var sb;
    sb, hits := WriteBuffer(s, length, pad);
    raw := sb[..];
  }

  /** The sort of `sortAndRawText`, on a copy of the occurrences in an array. */
  method SortOccurrences(s0: seq<TermPos>) returns (s: seq<TermPos>)
    ensures s == SortSpec(s0, OccKey) && SortedBy(s, OccKey) && multiset(s) == multiset(s0)
  {
    var a := new TermPos[|s0|](i requires 0 <= i < |s0| => s0[i]);
    assert a[..] == s0;
    SortInPlace(a, OccKey);
    s := a[..];
    SortSpecSorted(s0, OccKey);
  }

  class TermInfo {
    /** The occurrences, in insertion order until sorted (`ArrayList<TermPos>`). */
    var termPosArr: seq<TermPos>
    var queryTokenCountMap: map<string, int>
    var rawText: string
    var charHit: array?<int>
    /** Every occurrence ever added, in the order of the calls. */
    ghost var added: seq<TermPos>
    /** The pad character of the last successful `sortAndRawText`. */
    ghost var pad: char

    /** The occurrences are those added, in some order. */
    ghost predicate Valid()
      reads this`termPosArr, this`added
    {
      multiset(termPosArr) == multiset(added)
    }

    /** The count map counts the added terms. */
    ghost predicate Counted()
      reads this`added, this`queryTokenCountMap
    {
      queryTokenCountMap == CountMap(added)
    }

    /** The state after a successful `sortAndRawText`. */
    ghost predicate Indexed()
      reads this, charHit
    {
      && Valid()
      && charHit != null
      && SortedBy(termPosArr, OccKey)
      && BufferFits(termPosArr)
      && |rawText| == charHit.Length == BufferLength(termPosArr)
      && (forall c :: 0 <= c < charHit.Length ==> charHit[c] == FirstCover(termPosArr, c))
      && (forall c :: 0 <= c < |rawText| ==> rawText[c] == RawChar(termPosArr, c, pad))
    }

    constructor ()
      ensures Valid() && Counted() && termPosArr == [] && added == []
      ensures queryTokenCountMap == map[] && rawText == "" && charHit == null
    {
      termPosArr := [];
      queryTokenCountMap := map[];
      rawText := "";
      charHit := null;
      added := [];
    }

    /** `addTermPos(t, offset)`: an occurrence with its hit flag unmarked. */
    method AddTermPos(t: string, offset: int)
      requires Valid() && Counted()
      modifies this`termPosArr, this`queryTokenCountMap, this`added
      ensures Valid() && Counted()
      ensures termPosArr == old(termPosArr) + [TermPos(t, Unmarked, offset)]
      ensures added == old(added) + [TermPos(t, Unmarked, offset)]
      ensures queryTokenCountMap == old(queryTokenCountMap)[t := GetOr(old(queryTokenCountMap), t, 0) + 1]
    {
      termPosArr := termPosArr + [TermPos(t, Unmarked, offset)];
      added := added + [TermPos(t, Unmarked, offset)];
      assert added[..|added| - 1] == old(added);
      queryTokenCountMap := queryTokenCountMap[t := GetOr(queryTokenCountMap, t, 0) + 1];
    }

    /** `addTermPos(t, offset, hit)`: an occurrence with the given hit flag. */
    method AddTermPosWithHit(t: string, offset: int, hit: int)
      requires Valid() && Counted()
      modifies this`termPosArr, this`queryTokenCountMap, this`added
      ensures Valid() && Counted()
      ensures termPosArr == old(termPosArr) + [TermPos(t, hit, offset)]
      ensures added == old(added) + [TermPos(t, hit, offset)]
      ensures queryTokenCountMap == old(queryTokenCountMap)[t := GetOr(old(queryTokenCountMap), t, 0) + 1]
    {
      termPosArr := termPosArr + [TermPos(t, hit, offset)];
      added := added + [TermPos(t, hit, offset)];
      assert added[..|added| - 1] == old(added);
      queryTokenCountMap := queryTokenCountMap[t := GetOr(queryTokenCountMap, t, 0) + 1];
    }

    /** `sortAndRawText(pad)`: sorts the occurrences stably by (offset, term
        length), then fills a buffer of the last occurrence's end with `pad`
        and writes each occurrence's characters over it in sorted order; the
        coverage array keeps the first writer of each character. `ok` is false
        where the Java code throws: no occurrence, a negative length, or an
        occurrence that does not fit. */
    method SortAndRawText(pad: char) returns (ok: bool)
      requires Valid()
      modifies this`termPosArr, this`charHit, this`rawText, this`pad
      ensures Valid()
      ensures termPosArr == SortSpec(old(termPosArr), OccKey)
      ensures ok == BufferFits(termPosArr)
      ensures !ok ==> rawText == old(rawText)
      ensures ok ==> fresh(charHit) && Indexed()
      ensures ok ==> this.pad == pad
    {
      var sorted := SortOccurrences(termPosArr);
      var raw, hits;
      ok, raw, hits := BuildIndex(sorted, pad);
      termPosArr := sorted;
      assert Valid();
      if ok {
        charHit, rawText, this.pad := hits, raw, pad;
      }
    }

    /** `getHitted(offset)`: the first sorted occurrence covering the
        character, or -1 when none does. */
    function GetHitted(offset: int): (r: int)
      reads this, charHit
      requires Indexed() && 0 <= offset < charHit.Length
      ensures r == Uncovered <==> forall i :: 0 <= i < |termPosArr| ==> !Covers(termPosArr[i], offset)
      ensures r != Uncovered ==> 0 <= r < |termPosArr| && Covers(termPosArr[r], offset)
      ensures r != Uncovered ==> forall i :: 0 <= i < r ==> !Covers(termPosArr[i], offset)
    {
      FirstCoverIsFirst(termPosArr, offset);
      charHit[offset]
    }

    /** `has(t)`: whether some occurrence of `t` was added. */
    function Has(t: string): (r: bool)
      reads this
      requires Valid() && Counted()
      ensures r <==> exists i :: 0 <= i < |termPosArr| && termPosArr[i].term == t
    {
      CountedIffOccurs(added, t);
      OccursInPermutation(added, termPosArr, t);
      OccursInPermutation(termPosArr, added, t);
      t in queryTokenCountMap
    }

    /** `size()`: one occurrence per call of `addTermPos`. */
    function Size(): (n: nat)
      reads this
      requires Valid()
      ensures n == |added|
    {
      assert |multiset(termPosArr)| == |multiset(added)|;
      |termPosArr|
    }

    /** `getTerm(i)`: the term of the i-th occurrence, which is counted. */
    function GetTerm(i: int): (t: string)
      reads this
      requires Valid() && Counted() && 0 <= i < |termPosArr|
      ensures t == termPosArr[i].term && t in queryTokenCountMap
    {
      assert Has(termPosArr[i].term);
      termPosArr[i].term
    }

    /** `getTermLength(i)`: after indexing, the occurrence lies inside the buffer. */
    function GetTermLength(i: int): (n: int)
      reads this, charHit
      requires Valid() && 0 <= i < |termPosArr|
      ensures n == |termPosArr[i].term|
      ensures Indexed() && n > 0 ==> 0 <= termPosArr[i].offset && termPosArr[i].offset + n <= |rawText|
    {
      |termPosArr[i].term|
    }

    /** `getOffset(i)`: after indexing, no earlier occurrence starts later. */
    function GetOffset(i: int): (r: int)
      reads this, charHit
      requires Valid() && 0 <= i < |termPosArr|
      ensures r == termPosArr[i].offset
      ensures Indexed() ==> forall j :: 0 <= j < i ==> termPosArr[j].offset <= r
    {
      termPosArr[i].offset
    }

    /** `getHit(i)`: the hit flag stored by the call that added the occurrence. */
    function GetHit(i: int): (r: int)
      reads this
      requires Valid() && 0 <= i < |termPosArr|
      ensures exists k :: 0 <= k < |added| && added[k].hit == r && added[k].term == termPosArr[i].term
    {
      assert termPosArr[i] in multiset(added);
      termPosArr[i].hit
    }
  }
}
