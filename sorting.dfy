/** Stable sorting by a key, as `Collections.sort` and `Arrays.sort` on objects
    do: every comparator of the rescorer orders by one or two numeric fields,
    which a `Key` (primary, then secondary, both ascending) expresses. */
module Sorting {

  datatype Key = Key(primary: real, secondary: int)

  predicate KeyLe(a: Key, b: Key)
  {
    a.primary < b.primary || (a.primary == b.primary && a.secondary <= b.secondary)
  }

  predicate SortedBy<T>(s: seq<T>, key: T -> Key)
  {
    forall i, j :: 0 <= i < j < |s| ==> KeyLe(key(s[i]), key(s[j]))
  }

  ghost predicate Distinct<T>(s: seq<T>)
  {
    forall i, j :: 0 <= i < j < |s| ==> s[i] != s[j]
  }

  /** Inserts `x` after every element whose key is not greater than its own,
      so that equal keys keep their order of arrival. */
  function Insert<T>(s: seq<T>, x: T, key: T -> Key): seq<T>
  {
    if s == [] || KeyLe(key(s[|s| - 1]), key(x)) then s + [x]
    else Insert(s[..|s| - 1], x, key) + [s[|s| - 1]]
  }

  lemma {:induction false} InsertPermutes<T>(s: seq<T>, x: T, key: T -> Key)
    ensures multiset(Insert(s, x, key)) == multiset(s) + multiset{x}
    decreases |s|
  {
    if !(s == [] || KeyLe(key(s[|s| - 1]), key(x))) {
      assert s == s[..|s| - 1] + [s[|s| - 1]];
      InsertPermutes(s[..|s| - 1], x, key);
    }
  }

  /** The result of a stable sort: insertion of each element in turn. */
  function SortSpec<T>(s: seq<T>, key: T -> Key): (r: seq<T>)
    ensures multiset(r) == multiset(s)
  {
    if s == [] then []
    else
      assert s == s[..|s| - 1] + [s[|s| - 1]];
      InsertPermutes(SortSpec(s[..|s| - 1], key), s[|s| - 1], key);
      Insert(SortSpec(s[..|s| - 1], key), s[|s| - 1], key)
  }

  /** The elements of `s` whose key is `k`, in their order in `s`. */
  function Tied<T>(s: seq<T>, k: Key, key: T -> Key): seq<T>
  {
    if s == [] then []
    else Tied(s[..|s| - 1], k, key) + TiedOne(s[|s| - 1], k, key)
  }

  lemma {:induction false} TiedAppend<T>(a: seq<T>, b: seq<T>, k: Key, key: T -> Key)
    ensures Tied(a + b, k, key) == Tied(a, k, key) + Tied(b, k, key)
    decreases |b|
  {
    if b == [] {
      assert a + b == a;
    } else {
      assert (a + b)[..|a + b| - 1] == a + b[..|b| - 1];
      TiedAppend(a, b[..|b| - 1], k, key);
    }
  }

  lemma {:induction false} InsertSorted<T>(s: seq<T>, x: T, key: T -> Key)
    requires SortedBy(s, key)
    ensures SortedBy(Insert(s, x, key), key)
    decreases |s|
  {
    if s == [] || KeyLe(key(s[|s| - 1]), key(x)) {
    } else {
      var p, last := s[..|s| - 1], s[|s| - 1];
      InsertSorted(p, x, key);
      var q := Insert(p, x, key);
      InsertPermutes(p, x, key);
      forall i | 0 <= i < |q| ensures KeyLe(key(q[i]), key(last)) {
        assert q[i] in multiset(q);
        if q[i] != x {
          assert q[i] in multiset(p);
          var j :| 0 <= j < |p| && p[j] == q[i];
          assert s[j] == p[j];
        }
      }
    }
  }

  /** A stable sort yields a sorted sequence. */
  lemma {:induction false} SortSpecSorted<T>(s: seq<T>, key: T -> Key)
    ensures SortedBy(SortSpec(s, key), key)
    decreases |s|
  {
    if s != [] {
      SortSpecSorted(s[..|s| - 1], key);
      InsertSorted(SortSpec(s[..|s| - 1], key), s[|s| - 1], key);
    }
  }

  lemma {:induction false} InsertTied<T>(s: seq<T>, x: T, k: Key, key: T -> Key)
    ensures Tied(Insert(s, x, key), k, key) == Tied(s, k, key) + TiedOne(x, k, key)
    decreases |s|
  {
    if s == [] || KeyLe(key(s[|s| - 1]), key(x)) {
      assert Insert(s, x, key) == s + [x];
      TiedAppend(s, [x], k, key);
      TiedOne1(x, k, key);
    } else {
      var p, last := s[..|s| - 1], s[|s| - 1];
      var q := Insert(p, x, key);
      var tp, tx, tl := Tied(p, k, key), TiedOne(x, k, key), TiedOne(last, k, key);
      // `last` and `x` have different keys, so at most one of them is tied with k
      assert tx + tl == tl + tx by {
        assert key(last) != key(x);
      }
      calc {
        Tied(Insert(s, x, key), k, key);
        { assert Insert(s, x, key) == q + [last];
          TiedAppend(q, [last], k, key);
          TiedOne1(last, k, key); }
        Tied(q, k, key) + tl;
        { InsertTied(p, x, k, key); }
        (tp + tx) + tl;
        tp + (tl + tx);
        (tp + tl) + tx;
        { assert s == p + [last];
          TiedAppend(p, [last], k, key);
          TiedOne1(last, k, key); }
        Tied(s, k, key) + tx;
      }
    }
  }

  function TiedOne<T>(x: T, k: Key, key: T -> Key): seq<T>
  {
    if key(x) == k then [x] else []
  }

  lemma TiedOne1<T>(x: T, k: Key, key: T -> Key)
    ensures Tied([x], k, key) == TiedOne(x, k, key)
  {
    assert [x][..0] == [];
  }

  /** A stable sort keeps, for every key, the elements with that key in their
      original order: full ties keep insertion order. */
  lemma {:induction false} SortSpecStable<T>(s: seq<T>, k: Key, key: T -> Key)
    ensures Tied(SortSpec(s, key), k, key) == Tied(s, k, key)
    decreases |s|
  {
    if s != [] {
      var p, last := s[..|s| - 1], s[|s| - 1];
      SortSpecStable(p, k, key);
      InsertTied(SortSpec(p, key), last, k, key);
    }
  }

  lemma {:induction false} MultiplicityAtMostOne<T>(s: seq<T>, x: T)
    requires Distinct(s)
    ensures multiset(s)[x] <= 1
    decreases |s|
  {
    if s != [] {
      var p := s[..|s| - 1];
      assert s == p + [s[|s| - 1]];
      MultiplicityAtMostOne(p, x);
      if s[|s| - 1] == x {
        assert x !in p;
      }
    }
  }

  /** A permutation of a sequence without repetitions has none either. */
  lemma DistinctPermutation<T>(s: seq<T>, t: seq<T>)
    requires Distinct(s) && multiset(s) == multiset(t)
    ensures Distinct(t)
  {
    forall i, j | 0 <= i < j < |t| ensures t[i] != t[j] {
      if t[i] == t[j] {
        assert t == t[..i] + [t[i]] + t[i + 1..j] + [t[j]] + t[j + 1..];
        assert multiset(t)[t[i]] >= 2;
        MultiplicityAtMostOne(s, t[i]);
      }
    }
  }

  /** Two sorted permutations of each other are the same sequence as long
      as no two different elements share a key: a comparator that breaks
      every tie leaves no freedom in the order. */
  lemma {:induction false} SortedUnique<T>(a: seq<T>, b: seq<T>, key: T -> Key)
    requires SortedBy(a, key) && SortedBy(b, key) && multiset(a) == multiset(b)
    requires forall i, j :: 0 <= i < |a| && 0 <= j < |a| && key(a[i]) == key(a[j]) ==> a[i] == a[j]
    ensures a == b
    decreases |a|
  {
    assert |a| == |multiset(a)| == |multiset(b)| == |b|;
    if a != [] {
      var n := |a| - 1;
      assert a[n] == b[n] by {
        LastIsGreatest(a, b, key);
        LastIsGreatest(b, a, key);
        assert key(a[n]) == key(b[n]);
        assert b[n] in multiset(a);
        var i :| 0 <= i < |a| && a[i] == b[n];
      }
      assert a[..n] == b[..n] by {
        var a', b' := a[..n], b[..n];
        SortedPrefix(a, n, key);
        SortedPrefix(b, n, key);
        assert multiset(a') == multiset(b') by {
          assert a[..n] + a[n + 1..] == a' && b[..n] + b[n + 1..] == b';
          RemoveAt(a, n);
          RemoveAt(b, n);
        }
        forall i, j | 0 <= i < |a'| && 0 <= j < |a'| && key(a'[i]) == key(a'[j]) ensures a'[i] == a'[j] {
          assert a'[i] == a[i] && a'[j] == a[j];
        }
        SortedUnique(a', b', key);
      }
      assert a == a[..n] + [a[n]] && b == b[..n] + [b[n]];
    }
  }

  /** The last element of a sorted sequence has a key no smaller than any
      element of a permutation of it. */
  lemma LastIsGreatest<T>(a: seq<T>, b: seq<T>, key: T -> Key)
    requires SortedBy(a, key) && multiset(a) == multiset(b) && |b| > 0
    ensures |a| > 0 && KeyLe(key(b[|b| - 1]), key(a[|a| - 1]))
  {
    assert b[|b| - 1] in multiset(a);
    var i :| 0 <= i < |a| && a[i] == b[|b| - 1];
    if i < |a| - 1 {
      assert KeyLe(key(a[i]), key(a[|a| - 1]));
    }
  }

  lemma SortedPrefix<T>(a: seq<T>, n: int, key: T -> Key)
    requires SortedBy(a, key) && 0 <= n <= |a|
    ensures SortedBy(a[..n], key)
  {
    forall p, q | 0 <= p < q < n ensures KeyLe(key(a[..n][p]), key(a[..n][q])) {
      assert a[..n][p] == a[p] && a[..n][q] == a[q];
    }
  }

  lemma RemoveAt<T>(t: seq<T>, j: int)
    requires 0 <= j < |t|
    ensures multiset(t[..j] + t[j + 1..]) == multiset(t) - multiset{t[j]}
  {
    assert t == t[..j] + [t[j]] + t[j + 1..];
  }

  /** `f` applied to every element. */
  function Project<A, B>(s: seq<A>, f: A -> B): (r: seq<B>)
    ensures |r| == |s| && forall i :: 0 <= i < |s| ==> r[i] == f(s[i])
  {
    seq(|s|, i requires 0 <= i < |s| => f(s[i]))
  }

  lemma ProjectAppend<A, B>(u: seq<A>, v: seq<A>, f: A -> B)
    ensures Project(u + v, f) == Project(u, f) + Project(v, f)
  {
    var l, r := Project(u + v, f), Project(u, f) + Project(v, f);
    assert |l| == |r|;
    forall i | 0 <= i < |l| ensures l[i] == r[i] {
      if i < |u| {
        assert (u + v)[i] == u[i];
      } else {
        assert (u + v)[i] == v[i - |u|];
      }
    }
  }

  /** Taking out the j-th element, before and after projecting. */
  lemma ProjectRemove<A, B>(t: seq<A>, j: int, f: A -> B)
    requires 0 <= j < |t|
    ensures multiset(Project(t, f)) == multiset(Project(t[..j] + t[j + 1..], f)) + multiset{f(t[j])}
  {
    var u, w := t[..j], t[j + 1..];
    assert t == u + [t[j]] + w;
    ProjectAppend(u + [t[j]], w, f);
    ProjectAppend(u, [t[j]], f);
    ProjectAppend(u, w, f);
  }

  /** The images of two permutations of each other are permutations of each other. */
  lemma {:induction false} ProjectPermutation<A, B>(s: seq<A>, t: seq<A>, f: A -> B)
    requires multiset(s) == multiset(t)
    ensures multiset(Project(s, f)) == multiset(Project(t, f))
    decreases |s|
  {
    if s != [] {
      var n := |s| - 1;
      assert s[n] in multiset(t);
      var j :| 0 <= j < |t| && t[j] == s[n];
      ProjectRemove(s, n, f);
      ProjectRemove(t, j, f);
      RemoveAt(s, n);
      RemoveAt(t, j);
      ProjectPermutation(s[..n] + s[n + 1..], t[..j] + t[j + 1..], f);
    } else {
      assert |t| == |multiset(t)| == 0;
    }
  }

  /** What a map makes of two permutations of each other, element by
      element, are permutations of each other. */
  lemma MapPermutation<A, B>(s: seq<A>, t: seq<A>, m: map<A, B>, vs: seq<B>, ws: seq<B>)
    requires multiset(s) == multiset(t)
    requires |vs| == |s| && forall i :: 0 <= i < |s| ==> s[i] in m && vs[i] == m[s[i]]
    requires |ws| == |t| && forall i :: 0 <= i < |t| ==> t[i] in m && ws[i] == m[t[i]]
    ensures multiset(vs) == multiset(ws)
  {
    assert |s| == |multiset(s)| == |multiset(t)| == |t|;
    if s != [] {
      var f := (x: A) => if x in m then m[x] else m[s[0]];
      assert vs == Project(s, f);
      assert ws == Project(t, f);
      ProjectPermutation(s, t, f);
    }
  }

  /** Inserting commutes with `f` when the key of every element involved is
      the key of its image. */
  lemma {:induction false} InsertProject<A, B>(s: seq<A>, x: A, f: A -> B, k: B -> Key, key: A -> Key)
    requires forall y :: y in s ==> key(y) == k(f(y))
    requires key(x) == k(f(x))
    ensures Project(Insert(s, x, key), f) == Insert(Project(s, f), f(x), k)
    decreases |s|
  {
    var fs := Project(s, f);
    if s == [] {
      assert Project([x], f) == [f(x)];
    } else {
      var p, last := s[..|s| - 1], s[|s| - 1];
      assert fs[..|s| - 1] == Project(p, f) && fs[|s| - 1] == f(last);
      assert key(last) == k(f(last));
      if KeyLe(key(last), key(x)) {
        ProjectAppend(s, [x], f);
        assert Project([x], f) == [f(x)];
      } else {
        assert forall y :: y in p ==> y in s;
        InsertProject(p, x, f, k, key);
        ProjectAppend(Insert(p, x, key), [last], f);
        assert Project([last], f) == [f(last)];
      }
    }
  }

  /** Sorting by a key that is the key of the images, then taking the
      images, is sorting the images. */
  lemma {:induction false} SortProject<A, B>(s: seq<A>, f: A -> B, k: B -> Key, key: A -> Key)
    requires forall y :: y in s ==> key(y) == k(f(y))
    ensures Project(SortSpec(s, key), f) == SortSpec(Project(s, f), k)
    decreases |s|
  {
    if s != [] {
      var p, last := s[..|s| - 1], s[|s| - 1];
      var sp := SortSpec(p, key);
      KeysOfPrefix(s, f, k, key);
      SortProject(p, f, k, key);
      KeysOfSorted(p, f, k, key);
      InsertProject(sp, last, f, k, key);
      ProjectLast(s, f);
    }
  }

  lemma KeysOfPrefix<A, B>(s: seq<A>, f: A -> B, k: B -> Key, key: A -> Key)
    requires s != [] && forall y :: y in s ==> key(y) == k(f(y))
    ensures forall y :: y in s[..|s| - 1] ==> key(y) == k(f(y))
    ensures key(s[|s| - 1]) == k(f(s[|s| - 1]))
  {
    assert forall y :: y in s[..|s| - 1] ==> y in s;
  }

  lemma KeysOfSorted<A, B>(s: seq<A>, f: A -> B, k: B -> Key, key: A -> Key)
    requires forall y :: y in s ==> key(y) == k(f(y))
    ensures forall y :: y in SortSpec(s, key) ==> key(y) == k(f(y))
  {
    forall y | y in SortSpec(s, key) ensures key(y) == k(f(y)) {
      assert y in multiset(SortSpec(s, key));
    }
  }

  lemma ProjectLast<A, B>(s: seq<A>, f: A -> B)
    requires s != []
    ensures Project(s, f)[..|s| - 1] == Project(s[..|s| - 1], f) && Project(s, f)[|s| - 1] == f(s[|s| - 1])
  {
  }

  /** With keys that tell different elements apart, sorting any order of
      the same elements gives the same sequence. */
  lemma SortPermutationUnique<T>(s: seq<T>, t: seq<T>, key: T -> Key)
    requires multiset(s) == multiset(t)
    requires forall i, j :: 0 <= i < |t| && 0 <= j < |t| && key(t[i]) == key(t[j]) ==> t[i] == t[j]
    ensures SortSpec(s, key) == SortSpec(t, key)
  {
    var a, b := SortSpec(t, key), SortSpec(s, key);
    SortSpecSorted(t, key);
    SortSpecSorted(s, key);
    forall i, j | 0 <= i < |a| && 0 <= j < |a| && key(a[i]) == key(a[j]) ensures a[i] == a[j] {
      assert a[i] in multiset(t) && a[j] in multiset(t);
      var i' :| 0 <= i' < |t| && t[i'] == a[i];
      var j' :| 0 <= j' < |t| && t[j'] == a[j];
    }
    SortedUnique(a, b, key);
  }

  /** Sorts `a` in place, stably, by a snapshot `keys` of each element's key,
      where the key of an element is `k` of its image under `img`: the
      images end up as `vs`, the images before the sort, sorted by `k`. */
  method SortBySnapshot<T, B>(a: array<T>, keys: map<T, Key>, ghost img: map<T, B>, ghost k: B -> Key,
                              ghost vs: seq<B>)
    requires |vs| == a.Length
    requires forall i :: 0 <= i < a.Length ==> a[i] in keys && a[i] in img && vs[i] == img[a[i]] && keys[a[i]] == k(img[a[i]])
    modifies a
    ensures multiset(a[..]) == multiset(old(a[..]))
    ensures |SortSpec(vs, k)| == a.Length
    ensures forall i :: 0 <= i < a.Length ==> a[i] in img && SortSpec(vs, k)[i] == img[a[i]]
  {
    if a.Length == 0 {
      return;
    }
    ghost var s := a[..];
    var key := x => if x in keys then keys[x] else Key(0.0, 0);
    ghost var f := x => if x in img then img[x] else vs[0];
    forall y | y in s ensures key(y) == k(f(y)) {
      var j :| 0 <= j < |s| && s[j] == y;
    }
    SortInPlace(a, key);
    SortProject(s, f, k, key);
    assert Project(s, f) == vs;
    forall i | 0 <= i < a.Length ensures a[i] in img && Project(a[..], f)[i] == img[a[i]] {
      assert a[i] in multiset(s);
      var j :| 0 <= j < |s| && s[j] == a[i];
    }
  }

  /** Sorts `a` in place, stably, by insertion. */
  method SortInPlace<T>(a: array<T>, key: T -> Key)
    modifies a
    ensures a[..] == SortSpec(old(a[..]), key)
  {
    ghost var s := a[..];
    var i := 0;
    while i < a.Length
      invariant 0 <= i <= a.Length
      invariant a[..i] == SortSpec(s[..i], key)
      invariant a[i..] == s[i..]
    {
      ghost var p, rest := a[..i], a[i..];
      assert a[i] == rest[0] == s[i];
      InsertLast(a, i, key);
      SortSpecStep(s, i, key);
      assert a[i + 1..] == rest[1..];
      i := i + 1;
    }
    assert a[..] == a[..a.Length];
    assert s == s[..a.Length];
  }

  /** One step of `SortSpec` on the prefixes of `s`. */
  lemma SortSpecStep<T>(s: seq<T>, i: int, key: T -> Key)
    requires 0 <= i < |s|
    ensures SortSpec(s[..i + 1], key) == Insert(SortSpec(s[..i], key), s[i], key)
  {
    assert s[..i + 1][..i] == s[..i];
  }

  /** Moves `a[i]` left past every greater element of the sorted prefix `a[..i]`. */
  method InsertLast<T>(a: array<T>, i: int, key: T -> Key)
    requires 0 <= i < a.Length
    modifies a
    ensures a[..i + 1] == Insert(old(a[..i]), old(a[i]), key)
    ensures a[i + 1..] == old(a[i + 1..])
  {
    ghost var p := a[..i];
    var x := a[i];
    var j := ShiftGreater(a, i, x, key);
    a[j] := x;
    ghost var r := p[..j] + [x] + p[j..];
    forall m | 0 <= m <= i ensures a[m] == r[m] {
      if m > j {
        assert r[m] == p[m - 1];
      }
    }
    assert a[..i + 1] == r;
    assert a[i + 1..] == old(a[i + 1..]);
  }

  /** Shifts right by one every element of `a[..i]` past the last one not
      greater than `x`; `j` is the gap left behind. */
  method ShiftGreater<T>(a: array<T>, i: int, x: T, key: T -> Key) returns (j: int)
    requires 0 <= i < a.Length
    modifies a
    ensures 0 <= j <= i
    ensures forall m :: 0 <= m < j ==> a[m] == old(a[m])
    ensures forall m :: j < m <= i ==> a[m] == old(a[m - 1])
    ensures forall m :: i < m < a.Length ==> a[m] == old(a[m])
    ensures Insert(old(a[..i]), x, key) == old(a[..i])[..j] + [x] + old(a[..i])[j..]
  {
    ghost var p := a[..i];
    j := i;
    while j > 0 && !KeyLe(key(a[j - 1]), key(x))
      invariant 0 <= j <= i
      invariant forall m :: 0 <= m < j ==> a[m] == p[m]
      invariant forall m :: j < m <= i ==> a[m] == p[m - 1]
      invariant forall m :: i < m < a.Length ==> a[m] == old(a[m])
      invariant forall m :: j <= m < i ==> !KeyLe(key(p[m]), key(x))
    {
      a[j] := a[j - 1];
      j := j - 1;
    }
    InsertAt(p, j, x, key);
  }

  /** `Insert` places `x` right after the last element whose key is not
      greater than its own: when every element from `j` on is greater and
      the one before `j`, if any, is not, `x` lands at `j`. */
  lemma {:induction false} InsertAt<T>(p: seq<T>, j: int, x: T, key: T -> Key)
    requires 0 <= j <= |p| && (j == 0 || KeyLe(key(p[j - 1]), key(x)))
    requires forall m :: j <= m < |p| ==> !KeyLe(key(p[m]), key(x))
    ensures Insert(p, x, key) == p[..j] + [x] + p[j..]
    decreases |p|
  {
    if j < |p| {
      var q := p[..|p| - 1];
      assert j == 0 || q[j - 1] == p[j - 1];
      InsertAt(q, j, x, key);
      assert q[..j] == p[..j];
      assert q[j..] + [p[|p| - 1]] == p[j..];
    } else {
      assert p[..j] == p;
    }
  }
}
