/** What the chart components do with a dictionary before drawing it:
    `Object.entries(data)` gives its (name, value) pairs, which are then sorted,
    cut, filtered and summed.

    The order in which `Object.entries` lists the keys is an input here (`keys`);
    `Enumerates(keys, data)` says that it lists every key of `data` exactly once. */
module ChartEntries {
  import opened Wrappers
  import opened Seqs
  import opened Tallies
  import opened StableSort
  import opened Numbers
  import SharedUtils

  /** One `[name, value]` pair, or the `{ name, value }` object made of it. */
  datatype Entry = Entry(name: string, value: real)

  /** `Number.MAX_SAFE_INTEGER`, the cut used when no `max` is given. */
  const MaxSafeInteger: int := 9007199254740991

  function Value(e: Entry): real { e.value }

  predicate KeysIn<V>(keys: seq<string>, data: map<string, V>)
  {
    forall i :: 0 <= i < |keys| ==> keys[i] in data
  }

  predicate Enumerates<V>(keys: seq<string>, data: map<string, V>)
  {
    && KeysIn(keys, data)
    && (forall i, j :: 0 <= i < j < |keys| ==> keys[i] != keys[j])
    && (forall k :: k in data ==> k in keys)
  }

  /** `Object.entries(data)` listed in the order `keys`. */
  function Entries(data: map<string, real>, keys: seq<string>): (es: seq<Entry>)
    requires KeysIn(keys, data)
    ensures |es| == |keys|
    ensures forall i :: 0 <= i < |keys| ==> es[i].name == keys[i] && es[i].value == data[keys[i]]
  {
    seq(|keys|, i requires 0 <= i < |keys| => Entry(keys[i], data[keys[i]]))
  }

  /** A count dictionary read as numbers. */
  function AsReals(m: map<string, int>): map<string, real>
  {
    map k | k in m :: m[k] as real
  }

  /** `reduce((s, d) => s + d.value, 0)` */
  function Total(es: seq<Entry>): real
    decreases |es|
  {
    if es == [] then 0.0 else es[0].value + Total(es[1..])
  }

  /** `max ?? Number.MAX_SAFE_INTEGER` */
  function Limit(max: Option<int>): int
  {
    max.GetOr(MaxSafeInteger)
  }

  /** `sort((a, b) => b[1] - a[1])`: largest value first. */
  function ByValueDesc(es: seq<Entry>): seq<Entry>
  {
    Sort(es, DescBy(Value))
  }

  /** Entries whose name is not in drop. */
  function NameNotIn(drop: set<string>): Entry -> bool
  {
    (e: Entry) => e.name !in drop
  }

  /** `(a, b) => Number(a.name) - Number(b.name)`, where a NaN difference reads as
      0 (section 23.1.3.30.2 of ECMA-262): a name that is not a number compares
      equal to everything. */
  const NumericLe: (Entry, Entry) -> bool := AscByNumber(NameNumber)

  /** `Number(e.name)`, None for NaN. */
  function NameNumber(e: Entry): Option<real>
  {
    NumberOf(e.name)
  }

  lemma {:induction false} TotalConcat(a: seq<Entry>, b: seq<Entry>)
    ensures Total(a + b) == Total(a) + Total(b)
    decreases |a|
  {
    if a == [] {
      assert a + b == b;
    } else {
      assert (a + b)[1..] == a[1..] + b;
      TotalConcat(a[1..], b);
    }
  }

  lemma {:induction false} TotalInsert(x: Entry, ys: seq<Entry>, le: (Entry, Entry) -> bool)
    ensures Total(Insert(x, ys, le)) == x.value + Total(ys)
    decreases |ys|
  {
    if ys != [] && !le(x, ys[0]) {
      TotalInsert(x, ys[1..], le);
      var r := Insert(x, ys, le);
      assert r[1..] == Insert(x, ys[1..], le);
    } else {
      var r := [x] + ys;
      assert r[1..] == ys;
    }
  }

  /** Sorting does not change the total. */
  lemma {:induction false} TotalSort(s: seq<Entry>, le: (Entry, Entry) -> bool)
    ensures Total(Sort(s, le)) == Total(s)
    decreases |s|
  {
    if s != [] {
      TotalSort(s[1..], le);
      TotalInsert(s[0], Sort(s[1..], le), le);
    }
  }

  lemma EntriesCons(data: map<string, real>, keys: seq<string>)
    requires Enumerates(keys, data) && keys != []
    ensures Enumerates(keys[1..], data - {keys[0]})
    ensures Entries(data, keys) == [Entry(keys[0], data[keys[0]])] + Entries(data - {keys[0]}, keys[1..])
  {
    EnumeratesTail(data, keys);
    assert forall i :: 1 <= i < |keys| ==> keys[i] != keys[0];
    EntriesSplit(data, keys);
  }

  /** Listing a dictionary by keys whose first one does not come back is listing
      that key, then the rest of the dictionary by the other keys. */
  lemma EntriesSplit(data: map<string, real>, keys: seq<string>)
    requires KeysIn(keys, data) && keys != []
    requires forall i :: 1 <= i < |keys| ==> keys[i] != keys[0]
    ensures KeysIn(keys[1..], data - {keys[0]})
    ensures Entries(data, keys) == [Entry(keys[0], data[keys[0]])] + Entries(data - {keys[0]}, keys[1..])
  {
    var d := data - {keys[0]};
    var rest := keys[1..];
    forall i | 0 <= i < |rest|
      ensures rest[i] in d
    {
      assert rest[i] == keys[i + 1];
    }
    var a := Entries(data, keys);
    var e := Entries(d, rest);
    var b := [Entry(keys[0], data[keys[0]])] + e;
    forall i | 0 <= i < |a|
      ensures a[i] == b[i]
    {
      if i > 0 {
        assert b[i] == e[i - 1];
        assert rest[i - 1] == keys[i];
      }
    }
  }

  /** The keys after the first enumerate the dictionary without the first key. */
  lemma EnumeratesTail<V>(data: map<string, V>, keys: seq<string>)
    requires Enumerates(keys, data) && keys != []
    ensures Enumerates(keys[1..], data - {keys[0]})
  {
    var rest := keys[1..];
    var d := data - {keys[0]};
    forall k | k in d
      ensures k in rest
    {
      assert k in keys && k != keys[0];
    }
    forall i | 0 <= i < |rest|
      ensures rest[i] in d
    {
      assert rest[i] == keys[i + 1];
    }
    forall i, j | 0 <= i < j < |rest|
      ensures rest[i] != rest[j]
    {
      assert rest[i] == keys[i + 1] && rest[j] == keys[j + 1];
    }
  }

  lemma MinusDropped<V>(data: map<string, V>, drop: set<string>, k: string)
    requires k in drop
    ensures data - drop == (data - {k}) - drop
  {
    assert (data - drop).Keys == ((data - {k}) - drop).Keys;
  }

  lemma MinusKept<V>(data: map<string, V>, drop: set<string>, k: string)
    requires k !in drop
    ensures (data - drop) - {k} == (data - {k}) - drop
  {
    assert ((data - drop) - {k}).Keys == ((data - {k}) - drop).Keys;
  }

  lemma KeptSum(data: map<string, real>, drop: set<string>, k: string)
    requires k in data && k !in drop
    ensures RealSum(data - drop) == data[k] + RealSum((data - {k}) - drop)
  {
    RealSumRemove(data - drop, k);
    MinusKept(data, drop, k);
  }

  lemma TotalCons(e: Entry, rest: seq<Entry>)
    ensures Total([e] + rest) == e.value + Total(rest)
  {
    assert ([e] + rest)[1..] == rest;
  }

  lemma EnumeratesEmpty<V>(data: map<string, V>, drop: set<string>)
    requires Enumerates([], data)
    ensures data - drop == map[]
  {
    assert data.Keys == {};
  }

  /** The entries whose names are not dropped add up to the dictionary's values
      outside the dropped keys. */
  lemma {:induction false} FilteredTotal(data: map<string, real>, keys: seq<string>, drop: set<string>)
    requires Enumerates(keys, data)
    ensures Total(Filter(Entries(data, keys), NameNotIn(drop))) == RealSum(data - drop)
    decreases |keys|
  {
    if keys == [] {
      EnumeratesEmpty(data, drop);
    } else {
      EntriesCons(data, keys);
      FilteredTotal(data - {keys[0]}, keys[1..], drop);
      FilteredTotalStep(data, keys, drop);
    }
  }

  /** One step of FilteredTotal: the first key's entry and the rest. */
  lemma FilteredTotalStep(data: map<string, real>, keys: seq<string>, drop: set<string>)
    requires KeysIn(keys, data) && keys != []
    requires KeysIn(keys[1..], data - {keys[0]})
    requires Entries(data, keys) == [Entry(keys[0], data[keys[0]])] + Entries(data - {keys[0]}, keys[1..])
    requires Total(Filter(Entries(data - {keys[0]}, keys[1..]), NameNotIn(drop))) == RealSum((data - {keys[0]}) - drop)
    ensures Total(Filter(Entries(data, keys), NameNotIn(drop))) == RealSum(data - drop)
  {
    var k := keys[0];
    FilterStep(Entry(k, data[k]), Entries(data - {k}, keys[1..]), drop);
    if k in drop {
      MinusDropped(data, drop, k);
    } else {
      KeptSum(data, drop, k);
    }
  }

  lemma FilterStep(e: Entry, tail: seq<Entry>, drop: set<string>)
    ensures Total(Filter([e] + tail, NameNotIn(drop)))
      == (if e.name in drop then 0.0 else e.value) + Total(Filter(tail, NameNotIn(drop)))
  {
    var p := NameNotIn(drop);
    var rest := Filter(tail, p);
    FilterCons(e, tail, p);
    if e.name !in drop {
      assert p(e);
      TotalCons(e, rest);
    } else {
      assert !p(e);
      assert [] + rest == rest;
    }
  }

  /** All the entries together add up to the dictionary's values. */
  lemma EntriesTotal(data: map<string, real>, keys: seq<string>)
    requires Enumerates(keys, data)
    ensures Total(Entries(data, keys)) == RealSum(data)
  {
    var es := Entries(data, keys);
    FilteredTotal(data, keys, {});
    KeepAllNames(es);
    MinusNothing(data);
  }

  lemma KeepAllNames(es: seq<Entry>)
    ensures Filter(es, NameNotIn({})) == es
  {
    FilterAll(es, NameNotIn({}));
  }

  lemma MinusNothing<V>(data: map<string, V>)
    ensures data - {} == data
  {
  }

  /** A count dictionary and its numeric reading have the same total. */
  lemma {:induction false} AsRealsSum(m: map<string, int>)
    ensures RealSum(AsReals(m)) == Sum(m) as real
    decreases |m|
  {
    if |m| > 0 {
      var k :| k in m;
      RemoveSize(m, k);
      SumRemove(m, k);
      RealSumRemove(AsReals(m), k);
      assert AsReals(m) - {k} == AsReals(m - {k});
      AsRealsSum(m - {k});
    }
  }

  /** `.sort((a, b) => b[1] - a[1]).slice(0, max ?? Number.MAX_SAFE_INTEGER)` */
  function Ranked(es: seq<Entry>, max: Option<int>): seq<Entry>
  {
    Slice(ByValueDesc(es), 0, Limit(max))
  }

  /** For a `max` that is absent or not negative: min(max, n) entries, largest
      first, no dropped entry larger than a kept one, and kept plus dropped is all
      of them. */
  lemma RankedTop(es: seq<Entry>, max: Option<int>)
    requires max.None? || max.value >= 0
    ensures var r := ByValueDesc(es);
      var top := Ranked(es, max);
      && |top| == Min(Limit(max), |es|)
      && top == r[..|top|]
      && multiset(top) + multiset(r[|top|..]) == multiset(es)
      && (forall i, j :: 0 <= i < j < |top| ==> top[i].value >= top[j].value)
      && (forall i, j :: 0 <= i < |top| <= j < |r| ==> top[i].value >= r[j].value)
  {
    TopN(es, Value, Limit(max));
  }

  /** Without `max`, every entry is kept (an array never holds more than
      `Number.MAX_SAFE_INTEGER` elements). */
  lemma RankedAll(es: seq<Entry>)
    requires |es| <= MaxSafeInteger
    ensures Ranked(es, None) == ByValueDesc(es)
    ensures multiset(Ranked(es, None)) == multiset(es)
  {
    SlicePrefix(ByValueDesc(es), MaxSafeInteger);
    SortPermutation(es, DescBy(Value));
  }

  /** The descending sort holds the same entries. */
  lemma ByValueDescMembers(es: seq<Entry>)
    ensures forall e :: e in ByValueDesc(es) <==> e in es
  {
    SortMembers(es, DescBy(Value));
  }

  /** Entries that are not negative have a total that is not negative. */
  lemma {:induction false} NonNegativeTotal(es: seq<Entry>)
    requires forall e :: e in es ==> e.value >= 0.0
    ensures Total(es) >= 0.0
    decreases |es|
  {
    if es != [] {
      assert es[0] in es;
      assert forall e :: e in es[1..] ==> e in es;
      NonNegativeTotal(es[1..]);
    }
  }

  /** With values that are not negative, the kept entries add up to at most the
      total of all of them. */
  lemma RankedWithinTotal(es: seq<Entry>, max: Option<int>)
    requires max.None? || max.value >= 0
    requires forall e :: e in es ==> e.value >= 0.0
    ensures Total(Ranked(es, max)) <= Total(es)
  {
    var sorted := ByValueDesc(es);
    RankedTop(es, max);
    ByValueDescMembers(es);
    PrefixWithinTotal(sorted, |Ranked(es, max)|);
    TotalSort(es, DescBy(Value));
  }

  /** A prefix of entries that are not negative adds up to at most the whole. */
  lemma PrefixWithinTotal(s: seq<Entry>, n: nat)
    requires n <= |s|
    requires forall e :: e in s ==> e.value >= 0.0
    ensures Total(s[..n]) <= Total(s)
  {
    assert s == s[..n] + s[n..];
    TotalConcat(s[..n], s[n..]);
    assert forall e :: e in s[n..] ==> e in s;
    NonNegativeTotal(s[n..]);
  }

  /** `map(([name, value]) => ({ name: shortenSector(name), value }))` */
  function ShortNames(es: seq<Entry>): (r: seq<Entry>)
    ensures |r| == |es|
    ensures forall i :: 0 <= i < |es| ==> r[i] == Entry(SharedUtils.ShortenSector(es[i].name), es[i].value)
  {
    seq(|es|, i requires 0 <= i < |es| => Entry(SharedUtils.ShortenSector(es[i].name), es[i].value))
  }

  /** Renaming does not change the total. */
  lemma {:induction false} ShortNamesTotal(es: seq<Entry>)
    ensures Total(ShortNames(es)) == Total(es)
    decreases |es|
  {
    if es != [] {
      ShortNamesTotal(es[1..]);
      assert ShortNames(es)[1..] == ShortNames(es[1..]);
    }
  }

  /** A dictionary's entries without the keys in drop, in ascending numeric key
      order: `filter(([k]) => !drop.has(k)).sort((a, b) => Number(a[0]) - Number(b[0]))`. */
  function ByNumericKey(data: map<string, int>, keys: seq<string>, drop: set<string>): seq<Entry>
    requires KeysIn(keys, data)
  {
    Sort(Filter(Entries(AsReals(data), keys), NameNotIn(drop)), NumericLe)
  }

  /** The entries are the dictionary's keys outside drop, each with its count. */
  lemma ByNumericKeyMembers(data: map<string, int>, keys: seq<string>, drop: set<string>)
    requires Enumerates(keys, data)
    ensures forall e :: e in ByNumericKey(data, keys, drop) <==>
      e.name in data && e.name !in drop && e.value == data[e.name] as real
  {
    var es := Entries(AsReals(data), keys);
    EntriesMembers(data, keys);
    FilterMembers(es, NameNotIn(drop));
    SortMembers(Filter(es, NameNotIn(drop)), NumericLe);
  }

  /** The entries of a count dictionary are its keys, each with its count. */
  lemma EntriesMembers(data: map<string, int>, keys: seq<string>)
    requires Enumerates(keys, data)
    ensures forall e :: e in Entries(AsReals(data), keys) <==> e.name in data && e.value == data[e.name] as real
  {
    var es := Entries(AsReals(data), keys);
    forall e | e in es
      ensures e.name in data && e.value == data[e.name] as real
    {
      var i :| 0 <= i < |es| && es[i] == e;
    }
    forall e: Entry | e.name in data && e.value == data[e.name] as real
      ensures e in es
    {
      var i :| 0 <= i < |keys| && keys[i] == e.name;
      assert es[i] == e;
    }
  }

  /** The entries add up to the dictionary's total outside drop. */
  lemma ByNumericKeyTotal(data: map<string, int>, keys: seq<string>, drop: set<string>)
    requires Enumerates(keys, data)
    ensures Total(ByNumericKey(data, keys, drop)) == RealSum(AsReals(data) - drop)
  {
    assert Enumerates(keys, AsReals(data));
    FilteredTotal(AsReals(data), keys, drop);
    TotalSort(Filter(Entries(AsReals(data), keys), NameNotIn(drop)), NumericLe);
  }

  /** The names of some entries, in order. */
  function Names(es: seq<Entry>): (ns: seq<string>)
    ensures |ns| == |es|
    ensures forall i :: 0 <= i < |es| ==> ns[i] == es[i].name
  {
    seq(|es|, i requires 0 <= i < |es| => es[i].name)
  }

  /** Every name is a number and the numbers do not decrease. */
  predicate NumericAscending(names: seq<string>)
  {
    forall i, j :: 0 <= i < j < |names| ==>
      NumberOf(names[i]).Some? && NumberOf(names[j]).Some?
      && NumberOf(names[i]).value <= NumberOf(names[j]).value
  }

  /** When every kept key is a number, the entries are in ascending numeric order. */
  lemma ByNumericKeyOrdered(data: map<string, int>, keys: seq<string>, drop: set<string>)
    requires Enumerates(keys, data)
    requires forall k :: k in data && k !in drop ==> NumberOf(k).Some?
    ensures NumericAscending(Names(ByNumericKey(data, keys, drop)))
  {
    var kept := Filter(Entries(AsReals(data), keys), NameNotIn(drop));
    KeptAreNumbers(data, keys, drop);
    OrderedFromKept(data, keys, drop, kept);
  }

  /** The numeric sort of the kept entries, given those entries with their names. */
  lemma OrderedFromKept(data: map<string, int>, keys: seq<string>, drop: set<string>, kept: seq<Entry>)
    requires KeysIn(keys, data)
    requires kept == Filter(Entries(AsReals(data), keys), NameNotIn(drop))
    requires forall i :: 0 <= i < |kept| ==> NameNumber(kept[i]).Some?
    ensures NumericAscending(Names(ByNumericKey(data, keys, drop)))
  {
    SortedByNumber(kept);
  }

  /** Entries whose names are all numbers, sorted, have ascending names. */
  lemma SortedByNumber(kept: seq<Entry>)
    requires forall i :: 0 <= i < |kept| ==> NameNumber(kept[i]).Some?
    ensures NumericAscending(Names(Sort(kept, NumericLe)))
  {
    NumericOrder(kept);
    SortedNames(Sort(kept, NumericLe));
  }

  lemma KeptAreNumbers(data: map<string, int>, keys: seq<string>, drop: set<string>)
    requires Enumerates(keys, data)
    requires forall k :: k in data && k !in drop ==> NumberOf(k).Some?
    ensures var kept := Filter(Entries(AsReals(data), keys), NameNotIn(drop));
      forall i :: 0 <= i < |kept| ==> NameNumber(kept[i]).Some?
  {
    var es := Entries(AsReals(data), keys);
    var kept := Filter(es, NameNotIn(drop));
    FilterMembers(es, NameNotIn(drop));
    forall i | 0 <= i < |kept|
      ensures NameNumber(kept[i]).Some?
    {
      assert kept[i] in kept;
      var j :| 0 <= j < |es| && es[j] == kept[i];
    }
  }

  /** Entries in ascending numeric order have names in ascending numeric order. */
  lemma SortedNames(r: seq<Entry>)
    requires forall i :: 0 <= i < |r| ==> NameNumber(r[i]).Some?
    requires forall i, j :: 0 <= i < j < |r| ==> NameNumber(r[i]).value <= NameNumber(r[j]).value
    ensures NumericAscending(Names(r))
  {
    var ns := Names(r);
    forall i, j | 0 <= i < j < |ns|
      ensures NumberOf(ns[i]).Some? && NumberOf(ns[j]).Some? && NumberOf(ns[i]).value <= NumberOf(ns[j]).value
    {
      assert NameNumber(r[i]) == NumberOf(ns[i]) && NameNumber(r[j]) == NumberOf(ns[j]);
    }
  }

  /** Removing one key takes its value, if it has one, off the total. */
  lemma WithoutKey<K>(m: map<K, real>, k: K)
    ensures RealSum(m - {k}) == RealSum(m) - (if k in m then m[k] else 0.0)
  {
    if k in m {
      RealSumRemove(m, k);
    } else {
      assert m - {k} == m;
    }
  }

  /** With a numeric name on every entry, the numeric comparator sorts by that
      number, ascending, and the result is a permutation. */
  lemma NumericOrder(es: seq<Entry>)
    requires forall i :: 0 <= i < |es| ==> NameNumber(es[i]).Some?
    ensures var r := Sort(es, NumericLe);
      && multiset(r) == multiset(es)
      && (forall i :: 0 <= i < |r| ==> NameNumber(r[i]).Some?)
      && (forall i, j :: 0 <= i < j < |r| ==> NameNumber(r[i]).value <= NameNumber(r[j]).value)
  {
    SortByNumber(es, NameNumber);
  }
}
