/** Count and sum dictionaries built by the statistics code
    (`acc[k] = (acc[k] || 0) + 1`, `acc[k] = (acc[k] || 0) + v`), and the
    totals of such dictionaries. */
module Tallies {
  import opened Wrappers

  /** `m[k] = (m[k] || 0) + 1` */
  function Tally<K>(m: map<K, int>, k: K): map<K, int>
  {
    m[k := (if k in m then m[k] else 0) + 1]
  }

  /** `m[k] = (m[k] || 0) + v` */
  function AddTo<K>(m: map<K, real>, k: K, v: real): map<K, real>
  {
    m[k := (if k in m then m[k] else 0.0) + v]
  }

  /** Sum of the values of an integer map. */
  ghost function Sum<K>(m: map<K, int>): int
    decreases |m|
  {
    if |m| == 0 then 0
    else
      var k :| k in m;
      assert |m - {k}| < |m| by { assert m.Keys - {k} < m.Keys; }
      m[k] + Sum(m - {k})
  }

  /** Sum of the values of a real map. */
  ghost function RealSum<K>(m: map<K, real>): real
    decreases |m|
  {
    if |m| == 0 then 0.0
    else
      var k :| k in m;
      assert |m - {k}| < |m| by { assert m.Keys - {k} < m.Keys; }
      m[k] + RealSum(m - {k})
  }

  lemma RemoveSize<K, V>(m: map<K, V>, k: K)
    requires k in m
    ensures |m - {k}| == |m| - 1
  {
    assert (m - {k}).Keys == m.Keys - {k};
  }

  lemma RemoveCommute<K, V>(m: map<K, V>, a: K, b: K)
    ensures m - {a} - {b} == m - {b} - {a}
  {
    assert (m - {a} - {b}).Keys == (m - {b} - {a}).Keys;
  }

  /** The sum does not depend on the order keys are visited in. */
  lemma {:induction false} SumRemove<K>(m: map<K, int>, k: K)
    requires k in m
    ensures Sum(m) == m[k] + Sum(m - {k})
    decreases |m|
  {
    var k' :| k' in m && Sum(m) == m[k'] + Sum(m - {k'});
    if k' != k {
      var m1 := m - {k'};
      var m2 := m - {k};
      RemoveSize(m, k');
      RemoveSize(m, k);
      SumRemove(m1, k);
      SumRemove(m2, k');
      RemoveCommute(m, k, k');
    }
  }

  lemma {:induction false} RealSumRemove<K>(m: map<K, real>, k: K)
    requires k in m
    ensures RealSum(m) == m[k] + RealSum(m - {k})
    decreases |m|
  {
    var k' :| k' in m && RealSum(m) == m[k'] + RealSum(m - {k'});
    if k' != k {
      var m1 := m - {k'};
      var m2 := m - {k};
      RemoveSize(m, k');
      RemoveSize(m, k);
      RealSumRemove(m1, k);
      RealSumRemove(m2, k');
      RemoveCommute(m, k, k');
    }
  }

  lemma SumTally<K>(m: map<K, int>, k: K)
    ensures Sum(Tally(m, k)) == Sum(m) + 1
  {
    var t := Tally(m, k);
    SumRemove(t, k);
    UpdateMinus(m, k, t[k]);
    if k in m {
      SumRemove(m, k);
    } else {
      AbsentMinus(m, k);
    }
  }

  lemma UpdateMinus<K, V>(m: map<K, V>, k: K, v: V)
    ensures m[k := v] - {k} == m - {k}
  {
    assert (m[k := v] - {k}).Keys == (m - {k}).Keys;
  }

  lemma AbsentMinus<K, V>(m: map<K, V>, k: K)
    requires k !in m
    ensures m - {k} == m
  {
    assert (m - {k}).Keys == m.Keys;
  }

  lemma RealSumAddTo<K>(m: map<K, real>, k: K, v: real)
    ensures RealSum(AddTo(m, k, v)) == RealSum(m) + v
  {
    var t := AddTo(m, k, v);
    RealSumRemove(t, k);
    UpdateMinus(m, k, t[k]);
    if k in m {
      RealSumRemove(m, k);
    } else {
      AbsentMinus(m, k);
    }
  }

  /** Counts per key over the elements that have a key, visited in order. */
  function CountBy<T, K>(s: seq<T>, key: T -> Option<K>): map<K, int>
    decreases |s|
  {
    if s == [] then map[]
    else
      var m := CountBy(s[..|s| - 1], key);
      match key(s[|s| - 1])
      case None => m
      case Some(k) => Tally(m, k)
  }

  /** Sums per key of val over the elements that have a key, visited in order. */
  function SumBy<T, K>(s: seq<T>, key: T -> Option<K>, val: T -> real): map<K, real>
    decreases |s|
  {
    if s == [] then map[]
    else
      var m := SumBy(s[..|s| - 1], key, val);
      match key(s[|s| - 1])
      case None => m
      case Some(k) => AddTo(m, k, val(s[|s| - 1]))
  }

  /** One more element updates the counts of its key only. */
  lemma CountByStep<T, K>(s: seq<T>, x: T, key: T -> Option<K>)
    ensures CountBy(s + [x], key) == if key(x).Some? then Tally(CountBy(s, key), key(x).value) else CountBy(s, key)
  {
    assert (s + [x])[..|s|] == s;
  }

  /** CountByStep for the prefix that ends at s[i]. */
  lemma CountByPrefixStep<T, K>(s: seq<T>, i: nat, key: T -> Option<K>)
    requires i < |s|
    ensures CountBy(s[..i + 1], key)
      == if key(s[i]).Some? then Tally(CountBy(s[..i], key), key(s[i]).value) else CountBy(s[..i], key)
  {
    assert s[..i + 1] == s[..i] + [s[i]];
    CountByStep(s[..i], s[i], key);
  }

  /** SumByStep for the prefix that ends at s[i]. */
  lemma SumByPrefixStep<T, K>(s: seq<T>, i: nat, key: T -> Option<K>, val: T -> real)
    requires i < |s|
    ensures SumBy(s[..i + 1], key, val)
      == if key(s[i]).Some? then AddTo(SumBy(s[..i], key, val), key(s[i]).value, val(s[i])) else SumBy(s[..i], key, val)
  {
    assert s[..i + 1] == s[..i] + [s[i]];
    SumByStep(s[..i], s[i], key, val);
  }

  /** KeyedTotalStep for the prefix that ends at s[i]. */
  lemma KeyedTotalPrefixStep<T, K>(s: seq<T>, i: nat, key: T -> Option<K>, val: T -> real)
    requires i < |s|
    ensures KeyedTotal(s[..i + 1], key, val) == KeyedTotal(s[..i], key, val) + if key(s[i]).Some? then val(s[i]) else 0.0
  {
    assert s[..i + 1] == s[..i] + [s[i]];
    KeyedTotalStep(s[..i], s[i], key, val);
  }

  /** One more element adds its value to the sum of its key only. */
  lemma SumByStep<T, K>(s: seq<T>, x: T, key: T -> Option<K>, val: T -> real)
    ensures SumBy(s + [x], key, val) == if key(x).Some? then AddTo(SumBy(s, key, val), key(x).value, val(x)) else SumBy(s, key, val)
  {
    assert (s + [x])[..|s|] == s;
  }

  /** The number of elements that have a key. */
  function CountKeyed<T, K>(s: seq<T>, key: T -> Option<K>): (n: nat)
    ensures n <= |s|
    decreases |s|
  {
    if s == [] then 0 else CountKeyed(s[..|s| - 1], key) + (if key(s[|s| - 1]).Some? then 1 else 0)
  }

  /** The total of val over the elements that have a key. */
  function KeyedTotal<T, K>(s: seq<T>, key: T -> Option<K>, val: T -> real): real
    decreases |s|
  {
    if s == [] then 0.0
    else KeyedTotal(s[..|s| - 1], key, val) + (if key(s[|s| - 1]).Some? then val(s[|s| - 1]) else 0.0)
  }

  lemma KeyedTotalStep<T, K>(s: seq<T>, x: T, key: T -> Option<K>, val: T -> real)
    ensures KeyedTotal(s + [x], key, val) == KeyedTotal(s, key, val) + if key(x).Some? then val(x) else 0.0
  {
    assert (s + [x])[..|s|] == s;
  }

  /** When every element has a key, all of them are counted. */
  lemma {:induction false} CountKeyedAll<T, K>(s: seq<T>, key: T -> Option<K>)
    requires forall i :: 0 <= i < |s| ==> key(s[i]).Some?
    ensures CountKeyed(s, key) == |s|
    decreases |s|
  {
    if s != [] {
      CountKeyedAll(s[..|s| - 1], key);
    }
  }

  /** Two lists whose elements have the same keys, position by position, have the
      same counts. */
  lemma {:induction false} CountBySameKeys<T, K>(a: seq<T>, b: seq<T>, key: T -> Option<K>)
    requires |a| == |b|
    requires forall i :: 0 <= i < |a| ==> key(a[i]) == key(b[i])
    ensures CountBy(a, key) == CountBy(b, key)
    decreases |a|
  {
    if a != [] {
      var a', b' := a[..|a| - 1], b[..|b| - 1];
      assert forall i :: 0 <= i < |a'| ==> a'[i] == a[i] && b'[i] == b[i];
      CountBySameKeys(a', b', key);
      assert key(a[|a| - 1]) == key(b[|b| - 1]);
    }
  }

  /** The counts add up to the number of keyed elements. */
  lemma {:induction false} CountBySum<T, K>(s: seq<T>, key: T -> Option<K>)
    ensures Sum(CountBy(s, key)) == CountKeyed(s, key)
    decreases |s|
  {
    if s != [] {
      CountBySum(s[..|s| - 1], key);
      match key(s[|s| - 1])
      case None =>
      case Some(k) => SumTally(CountBy(s[..|s| - 1], key), k);
    }
  }

  /** A key is present exactly when some element has it, and its count is positive. */
  lemma {:induction false} CountByKeys<T, K>(s: seq<T>, key: T -> Option<K>)
    ensures forall k :: k in CountBy(s, key) <==> exists i :: 0 <= i < |s| && key(s[i]) == Some(k)
    ensures forall k :: k in CountBy(s, key) ==> CountBy(s, key)[k] >= 1
    decreases |s|
  {
    if s != [] {
      var s' := s[..|s| - 1];
      CountByKeys(s', key);
      assert forall i :: 0 <= i < |s'| ==> s'[i] == s[i];
    }
  }

  /** The per-key sums add up to the keyed total. */
  lemma {:induction false} SumBySum<T, K>(s: seq<T>, key: T -> Option<K>, val: T -> real)
    ensures RealSum(SumBy(s, key, val)) == KeyedTotal(s, key, val)
    decreases |s|
  {
    if s != [] {
      SumBySum(s[..|s| - 1], key, val);
      match key(s[|s| - 1])
      case None =>
      case Some(k) => RealSumAddTo(SumBy(s[..|s| - 1], key, val), k, val(s[|s| - 1]));
    }
  }

  /** A key is present exactly when some element has it. */
  lemma {:induction false} SumByKeys<T, K>(s: seq<T>, key: T -> Option<K>, val: T -> real)
    ensures forall k :: k in SumBy(s, key, val) <==> exists i :: 0 <= i < |s| && key(s[i]) == Some(k)
    decreases |s|
  {
    if s != [] {
      var s' := s[..|s| - 1];
      SumByKeys(s', key, val);
      assert forall i :: 0 <= i < |s'| ==> s'[i] == s[i];
    }
  }

  /** Two key functions that key the same elements give the same keyed total. */
  lemma {:induction false} KeyedTotalSameDomain<T, K, L>(s: seq<T>, key1: T -> Option<K>, key2: T -> Option<L>, val: T -> real)
    requires forall i :: 0 <= i < |s| ==> key1(s[i]).Some? == key2(s[i]).Some?
    ensures KeyedTotal(s, key1, val) == KeyedTotal(s, key2, val)
    decreases |s|
  {
    if s != [] {
      KeyedTotalSameDomain(s[..|s| - 1], key1, key2, val);
    }
  }

  /** Sums over a sub-selection of the elements are bounded by the sums over all of
      them, key by key, when the values are non-negative: a key2-keyed element has
      the same key under key1. */
  lemma {:induction false} SumByDominated<T, K>(s: seq<T>, key1: T -> Option<K>, key2: T -> Option<K>, val: T -> real)
    requires forall i :: 0 <= i < |s| && key2(s[i]).Some? ==> key1(s[i]) == key2(s[i])
    requires forall i :: 0 <= i < |s| && key1(s[i]).Some? ==> val(s[i]) >= 0.0
    ensures SumBy(s, key2, val).Keys <= SumBy(s, key1, val).Keys
    ensures forall k :: k in SumBy(s, key2, val) ==> SumBy(s, key2, val)[k] <= SumBy(s, key1, val)[k]
    decreases |s|
  {
    if s != [] {
      var s' := s[..|s| - 1];
      assert forall i :: 0 <= i < |s'| ==> s'[i] == s[i];
      SumByDominated(s', key1, key2, val);
      SumByNonNegative(s', key1, val);
    }
  }

  lemma {:induction false} SumByNonNegative<T, K>(s: seq<T>, key: T -> Option<K>, val: T -> real)
    requires forall i :: 0 <= i < |s| && key(s[i]).Some? ==> val(s[i]) >= 0.0
    ensures forall k :: k in SumBy(s, key, val) ==> SumBy(s, key, val)[k] >= 0.0
    decreases |s|
  {
    if s != [] {
      var s' := s[..|s| - 1];
      assert forall i :: 0 <= i < |s'| ==> s'[i] == s[i];
      SumByNonNegative(s', key, val);
    }
  }
}
