/** The library sorts the modelled code relies on (`Array.prototype.sort` and
    Python's `sorted`, both stable since ES2019 / by definition). A stable sort by a
    comparator that is a total preorder has exactly one possible result; insertion
    sort computes it, so it stands for either library routine.

    `le(a, b)` means "a may stand before b", i.e. the comparator of (a, b) is not positive. */
module StableSort {
  import opened Wrappers
  import opened Seqs

  function Insert<T>(x: T, ys: seq<T>, le: (T, T) -> bool): (r: seq<T>)
    ensures |r| == |ys| + 1
    decreases |ys|
  {
    if ys == [] || le(x, ys[0]) then [x] + ys else [ys[0]] + Insert(x, ys[1..], le)
  }

  function Sort<T>(s: seq<T>, le: (T, T) -> bool): (r: seq<T>)
    ensures |r| == |s|
    decreases |s|
  {
    if s == [] then [] else Insert(s[0], Sort(s[1..], le), le)
  }

  ghost predicate SortedBy<T>(le: (T, T) -> bool, s: seq<T>)
  {
    forall i, j :: 0 <= i < j < |s| ==> le(s[i], s[j])
  }

  /** le is total and transitive on the elements of s. */
  ghost predicate TotalPreorderOn<T>(le: (T, T) -> bool, s: seq<T>)
  {
    && (forall a, b :: a in s && b in s ==> le(a, b) || le(b, a))
    && (forall a, b, c :: a in s && b in s && c in s && le(a, b) && le(b, c) ==> le(a, c))
  }

  /** a and b compare equal (the comparator returns 0). */
  ghost predicate Equivalent<T>(le: (T, T) -> bool, a: T, b: T)
  {
    le(a, b) && le(b, a)
  }

  lemma PreorderSubset<T>(le: (T, T) -> bool, s: seq<T>, t: seq<T>)
    requires TotalPreorderOn(le, s)
    requires forall x :: x in t ==> x in s
    ensures TotalPreorderOn(le, t)
  {
  }

  lemma Transitive<T>(le: (T, T) -> bool, s: seq<T>, a: T, b: T, c: T)
    requires TotalPreorderOn(le, s)
    requires a in s && b in s && c in s && le(a, b) && le(b, c)
    ensures le(a, c)
  {
  }

  lemma {:induction false} InsertMembers<T>(x: T, ys: seq<T>, le: (T, T) -> bool)
    ensures forall y :: y in Insert(x, ys, le) <==> y == x || y in ys
    decreases |ys|
  {
    if ys != [] && !le(x, ys[0]) {
      InsertMembers(x, ys[1..], le);
      assert ys == [ys[0]] + ys[1..];
    }
  }

  lemma {:induction false} SortMembers<T>(s: seq<T>, le: (T, T) -> bool)
    ensures forall y :: y in Sort(s, le) <==> y in s
    decreases |s|
  {
    if s != [] {
      SortMembers(s[1..], le);
      InsertMembers(s[0], Sort(s[1..], le), le);
      assert s == [s[0]] + s[1..];
    }
  }

  lemma InsertMember<T>(x: T, ys: seq<T>, le: (T, T) -> bool, y: T)
    requires y in Insert(x, ys, le)
    ensures y == x || y in ys
  {
    InsertMembers(x, ys, le);
  }

  lemma SortMember<T>(s: seq<T>, le: (T, T) -> bool, y: T)
    requires y in Sort(s, le)
    ensures y in s
  {
    SortMembers(s, le);
  }

  lemma {:induction false} InsertDistinct<T>(x: T, ys: seq<T>, le: (T, T) -> bool)
    requires Distinct(ys) && x !in ys
    ensures Distinct(Insert(x, ys, le))
    decreases |ys|
  {
    if ys != [] && !le(x, ys[0]) {
      InsertDistinct(x, ys[1..], le);
      InsertMembers(x, ys[1..], le);
      assert ys[0] !in Insert(x, ys[1..], le);
    }
  }

  /** Sorting a list without repetitions gives a list without repetitions. */
  lemma {:induction false} SortDistinct<T>(s: seq<T>, le: (T, T) -> bool)
    requires Distinct(s)
    ensures Distinct(Sort(s, le))
    decreases |s|
  {
    if s != [] {
      SortDistinct(s[1..], le);
      if s[0] in Sort(s[1..], le) {
        SortMember(s[1..], le, s[0]);
      }
      InsertDistinct(s[0], Sort(s[1..], le), le);
    }
  }

  lemma {:induction false} InsertMultiset<T>(x: T, ys: seq<T>, le: (T, T) -> bool)
    ensures multiset(Insert(x, ys, le)) == multiset{x} + multiset(ys)
    decreases |ys|
  {
    if ys != [] && !le(x, ys[0]) {
      InsertMultiset(x, ys[1..], le);
      assert ys == [ys[0]] + ys[1..];
    }
  }

  /** Sorting permutes its input. */
  lemma {:induction false} SortPermutation<T>(s: seq<T>, le: (T, T) -> bool)
    ensures multiset(Sort(s, le)) == multiset(s)
    decreases |s|
  {
    if s != [] {
      SortPermutation(s[1..], le);
      InsertMultiset(s[0], Sort(s[1..], le), le);
      assert s == [s[0]] + s[1..];
    }
  }

  lemma {:induction false} InsertSorted<T>(x: T, ys: seq<T>, le: (T, T) -> bool)
    requires SortedBy(le, ys)
    requires TotalPreorderOn(le, [x] + ys)
    ensures SortedBy(le, Insert(x, ys, le))
    decreases |ys|
  {
    if ys == [] {
    } else if le(x, ys[0]) {
      var r := [x] + ys;
      forall i, j | 0 <= i < j < |r|
        ensures le(r[i], r[j])
      {
        if i == 0 && j > 1 {
          assert le(ys[0], ys[j - 1]);
        }
      }
    } else {
      var t := ys[1..];
      PreorderSubset(le, [x] + ys, [x] + t);
      InsertSorted(x, t, le);
      InsertMembers(x, t, le);
      var r := [ys[0]] + Insert(x, t, le);
      forall i, j | 0 <= i < j < |r|
        ensures le(r[i], r[j])
      {
        if i == 0 {
          var z := Insert(x, t, le)[j - 1];
          assert z == r[j];
          InsertMember(x, t, le, z);
          if z != x {
            var k :| 0 <= k < |t| && t[k] == r[j];
            assert le(ys[0], ys[k + 1]);
          }
        }
      }
    }
  }

  /** With a comparator that is a total preorder on the input, the result is sorted. */
  lemma {:induction false} SortSorted<T>(s: seq<T>, le: (T, T) -> bool)
    requires TotalPreorderOn(le, s)
    ensures SortedBy(le, Sort(s, le))
    decreases |s|
  {
    if s != [] {
      PreorderSubset(le, s, s[1..]);
      SortSorted(s[1..], le);
      SortMembers(s[1..], le);
      assert s == [s[0]] + s[1..];
      forall y | y in [s[0]] + Sort(s[1..], le)
        ensures y in s
      {
        if y != s[0] {
          SortMember(s[1..], le, y);
        }
      }
      PreorderSubset(le, s, [s[0]] + Sort(s[1..], le));
      InsertSorted(s[0], Sort(s[1..], le), le);
    }
  }

  lemma FilterCons<T>(x: T, t: seq<T>, p: T -> bool)
    ensures Filter([x] + t, p) == (if p(x) then [x] else []) + Filter(t, p)
  {
    assert ([x] + t)[1..] == t;
  }

  /** x and y cannot both compare equal to e when x must not stand before y. */
  lemma NotBothEquivalent<T>(le: (T, T) -> bool, u: seq<T>, x: T, y: T, e: T)
    requires TotalPreorderOn(le, u)
    requires x in u && y in u && e in u
    requires !le(x, y)
    ensures !(Equivalent(le, x, e) && Equivalent(le, y, e))
  {
    if Equivalent(le, x, e) && Equivalent(le, y, e) {
      Transitive(le, u, x, e, y);
    }
  }

  lemma {:induction false} InsertStable<T>(x: T, ys: seq<T>, le: (T, T) -> bool, p: T -> bool, e: T)
    requires forall y :: p(y) == Equivalent(le, y, e)
    requires TotalPreorderOn(le, [e, x] + ys)
    ensures Filter(Insert(x, ys, le), p) == Filter([x] + ys, p)
    decreases |ys|
  {
    if ys != [] && !le(x, ys[0]) {
      var y0, t := ys[0], ys[1..];
      var u := [e, x] + ys;
      assert ys == [y0] + t;
      assert u[0] == e && u[1] == x && u[2] == y0;
      assert forall z :: z in [e, x] + t ==> z in u;
      PreorderSubset(le, u, [e, x] + t);
      InsertStable(x, t, le, p, e);
      NotBothEquivalent(le, u, x, y0, e);
      assert Insert(x, ys, le) == [y0] + Insert(x, t, le);
      FilterCons(y0, Insert(x, t, le), p);
      FilterCons(x, t, p);
      FilterCons(y0, t, p);
      FilterCons(x, ys, p);
      FilterSwap(x, y0, Filter(t, p), p);
    }
  }

  /** Two elements of which at most one is kept can be swapped before filtering. */
  lemma FilterSwap<T>(x: T, y: T, rest: seq<T>, p: T -> bool)
    requires !(p(x) && p(y))
    ensures (if p(y) then [y] else []) + ((if p(x) then [x] else []) + rest)
         == (if p(x) then [x] else []) + ((if p(y) then [y] else []) + rest)
  {
  }

  /** Stability: the elements comparing equal to any e keep their relative order,
      i.e. the subsequence of one equivalence class is the same before and after. */
  lemma {:induction false} SortStable<T>(s: seq<T>, le: (T, T) -> bool, p: T -> bool, e: T)
    requires forall y :: p(y) == Equivalent(le, y, e)
    requires TotalPreorderOn(le, [e] + s)
    ensures Filter(Sort(s, le), p) == Filter(s, p)
    decreases |s|
  {
    if s != [] {
      var t := s[1..];
      assert s == [s[0]] + t;
      PreorderSubset(le, [e] + s, [e] + t);
      SortStable(t, le, p, e);
      SortMembers(t, le);
      forall y | y in [e, s[0]] + Sort(t, le)
        ensures y in [e] + s
      {
        if y != e && y != s[0] {
          assert y in Sort(t, le);
          SortMember(t, le, y);
        }
      }
      PreorderSubset(le, [e] + s, [e, s[0]] + Sort(t, le));
      InsertStable(s[0], Sort(t, le), le, p, e);
      FilterCons(s[0], Sort(t, le), p);
      FilterCons(s[0], t, p);
    }
  }

  /** Descending by a numeric key: the comparator `(a, b) => key(b) - key(a)`. */
  function DescBy<T>(key: T -> real): (T, T) -> bool
  {
    (a: T, b: T) => key(b) - key(a) <= 0.0
  }

  lemma DescByPreorder<T>(key: T -> real, s: seq<T>)
    ensures TotalPreorderOn(DescBy(key), s)
  {
  }

  lemma DescByEquivalent<T>(key: T -> real, a: T, b: T)
    ensures Equivalent(DescBy(key), a, b) <==> key(a) == key(b)
  {
  }

  /** Ascending by a key that may be NaN (None): `(a, b) => key(a) - key(b)`, where a
      NaN difference reads as 0 (section 23.1.3.30.2 of ECMA-262), so a NaN key
      compares equal to everything. */
  function AscByNumber<T>(key: T -> Option<real>): (T, T) -> bool
  {
    (a: T, b: T) => if key(a).Some? && key(b).Some? then key(a).value - key(b).value <= 0.0 else true
  }

  /** When no key is NaN, the comparator is a total preorder: the keys of the
      result are non-decreasing and the result is a permutation. */
  lemma SortByNumber<T>(s: seq<T>, key: T -> Option<real>)
    requires forall i :: 0 <= i < |s| ==> key(s[i]).Some?
    ensures var r := Sort(s, AscByNumber(key));
      && multiset(r) == multiset(s)
      && (forall i :: 0 <= i < |r| ==> key(r[i]).Some?)
      && (forall i, j :: 0 <= i < j < |r| ==> key(r[i]).value <= key(r[j]).value)
  {
    var le := AscByNumber(key);
    forall a | a in s
      ensures key(a).Some?
    {
      var i :| 0 <= i < |s| && s[i] == a;
    }
    assert TotalPreorderOn(le, s);
    SortSorted(s, le);
    SortPermutation(s, le);
    var r := Sort(s, le);
    forall i | 0 <= i < |r|
      ensures key(r[i]).Some?
    {
      SortMember(s, le, r[i]);
    }
    forall i, j | 0 <= i < j < |r|
      ensures key(r[i]).value <= key(r[j]).value
    {
      SortMember(s, le, r[i]);
      SortMember(s, le, r[j]);
      assert le(r[i], r[j]);
    }
  }

  /** Sorting by a descending key: the keys are non-increasing, the result is a
      permutation, and elements with equal keys keep their input order. */
  lemma SortDescending<T>(s: seq<T>, key: T -> real)
    ensures var r := Sort(s, DescBy(key));
      && multiset(r) == multiset(s)
      && (forall i, j :: 0 <= i < j < |r| ==> key(r[i]) >= key(r[j]))
  {
    DescByPreorder(key, s);
    SortSorted(s, DescBy(key));
    SortPermutation(s, DescBy(key));
    var r := Sort(s, DescBy(key));
    forall i, j | 0 <= i < j < |r|
      ensures key(r[i]) >= key(r[j])
    {
      assert DescBy(key)(r[i], r[j]);
    }
  }

  lemma SortDescendingStable<T>(s: seq<T>, key: T -> real, p: T -> bool, k: real)
    requires forall y :: p(y) == (key(y) == k)
    ensures Filter(Sort(s, DescBy(key)), p) == Filter(s, p)
  {
    if i :| 0 <= i < |s| && key(s[i]) == k {
      var e := s[i];
      DescByPreorder(key, [e] + s);
      forall y
        ensures p(y) == Equivalent(DescBy(key), y, e)
      {
        DescByEquivalent(key, y, e);
      }
      SortStable(s, DescBy(key), p, e);
    } else {
      var r := Sort(s, DescBy(key));
      forall j | 0 <= j < |r|
        ensures !p(r[j])
      {
        assert r[j] in r;
        SortMember(s, DescBy(key), r[j]);
      }
      FilterNone(s, p);
      FilterNone(r, p);
    }
  }

  /** Nothing is kept when no element passes. */
  lemma {:induction false} FilterNone<T>(s: seq<T>, p: T -> bool)
    requires forall i :: 0 <= i < |s| ==> !p(s[i])
    ensures Filter(s, p) == []
    decreases |s|
  {
    if s != [] {
      FilterNone(s[1..], p);
    }
  }

  /** The first n of a descending sort (`[...s].sort(desc).slice(0, n)`): min(n, |s|)
      elements in non-increasing key order, none of the left-out elements has a larger
      key than any kept one, and kept plus left-out is the input. */
  lemma TopN<T>(s: seq<T>, key: T -> real, n: nat)
    ensures var r := Sort(s, DescBy(key));
      var top := Slice(r, 0, n);
      && |top| == Min(n, |s|)
      && top == r[..|top|]
      && multiset(top) + multiset(r[|top|..]) == multiset(s)
      && (forall i, j :: 0 <= i < j < |top| ==> key(top[i]) >= key(top[j]))
      && (forall i, j :: 0 <= i < |top| <= j < |r| ==> key(top[i]) >= key(r[j]))
  {
    var r := Sort(s, DescBy(key));
    SlicePrefix(r, n);
    SortDescending(s, key);
    PrefixSplit(r, Min(n, |s|));
    PrefixOrdered(r, Min(n, |s|), key);
  }

  lemma PrefixSplit<T>(r: seq<T>, k: nat)
    requires k <= |r|
    ensures multiset(r[..k]) + multiset(r[k..]) == multiset(r)
  {
    assert r == r[..k] + r[k..];
  }

  lemma PrefixOrdered<T>(r: seq<T>, k: nat, key: T -> real)
    requires k <= |r|
    requires forall i, j :: 0 <= i < j < |r| ==> key(r[i]) >= key(r[j])
    ensures forall i, j :: 0 <= i < j < k ==> key(r[..k][i]) >= key(r[..k][j])
    ensures forall i, j :: 0 <= i < k <= j < |r| ==> key(r[..k][i]) >= key(r[j])
  {
  }
}
