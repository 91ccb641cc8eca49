/** The bar chart of counts (holdings per sector, per country): the largest
    counts first, at most `max` bars, sector names shortened for display. */
module Bars {
  import opened Wrappers
  import opened Seqs
  import opened ChartEntries
  import SharedUtils
  import opened Tallies


  /** The bars drawn for a count dictionary whose keys `Object.entries` lists in
      the order keys. */
  function Bars(data: map<string, int>, keys: seq<string>, max: Option<int>): seq<Entry>
    requires KeysIn(keys, data)
  {
    ShortNames(Ranked(Entries(AsReals(data), keys), max))
  }

  /** For a `max` that is absent or not negative: min(max, number of keys) bars,
      counts non-increasing, each the shortened name and the unchanged count of the
      same-position entry of the descending sort, and every entry left out counts
      no more than any bar shown. */
  lemma BarsRanked(data: map<string, int>, keys: seq<string>, max: Option<int>)
    requires Enumerates(keys, data)
    requires max.None? || max.value >= 0
    ensures var sorted := ByValueDesc(Entries(AsReals(data), keys));
      var bars := Bars(data, keys, max);
      && |bars| == Min(Limit(max), |keys|)
      && (forall i :: 0 <= i < |bars| ==>
            bars[i] == Entry(SharedUtils.ShortenSector(sorted[i].name), sorted[i].value))
      && (forall i, j :: 0 <= i < j < |bars| ==> bars[i].value >= bars[j].value)
      && (forall i, j :: 0 <= i < |bars| <= j < |sorted| ==> bars[i].value >= sorted[j].value)
  {
    RankedTop(Entries(AsReals(data), keys), max);
  }

  /** Every bar stands for a key of the dictionary: its name is the key shortened
      and its value is the key's count. */
  lemma BarsFromData(data: map<string, int>, keys: seq<string>, max: Option<int>)
    requires Enumerates(keys, data)
    requires max.None? || max.value >= 0
    ensures forall b :: b in Bars(data, keys, max) ==>
      exists k :: k in data && b.name == SharedUtils.ShortenSector(k) && b.value == data[k] as real
  {
    var es := Entries(AsReals(data), keys);
    var sorted := ByValueDesc(es);
    var top := Ranked(es, max);
    RankedTop(es, max);
    ByValueDescMembers(es);
    EntriesMembers(data, keys);
    forall b | b in Bars(data, keys, max)
      ensures exists k :: k in data && b.name == SharedUtils.ShortenSector(k) && b.value == data[k] as real
    {
      var i :| 0 <= i < |top| && Bars(data, keys, max)[i] == b;
      var e := sorted[i];
      assert top[i] == e;
      assert e in es;
      assert b == Entry(SharedUtils.ShortenSector(e.name), e.value);
      assert e.name in data && e.value == data[e.name] as real;
    }
  }

  /** The counts shown add up to at most the dictionary's total. */
  lemma BarsTotal(data: map<string, int>, keys: seq<string>, max: Option<int>)
    requires Enumerates(keys, data)
    requires max.None? || max.value >= 0
    requires forall k :: k in data ==> data[k] >= 0
    ensures Total(Bars(data, keys, max)) <= Sum(data) as real
  {
    var es := Entries(AsReals(data), keys);
    ShortNamesTotal(Ranked(es, max));
    EntriesMembers(data, keys);
    RankedWithinTotal(es, max);
    assert Enumerates(keys, AsReals(data));
    EntriesTotal(AsReals(data), keys);
    AsRealsSum(data);
  }
}
