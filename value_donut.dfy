/** The donut of market values: the
    seven largest values, names shortened, a total of those seven, and colours
    taken in turn from a palette of ten. */
module ValueDonut {
  import opened Wrappers
  import opened Seqs
  import opened StableSort
  import opened ChartEntries
  import opened Tallies
  import SharedUtils

  /** `COLORS` */
  const Colors: seq<string> :=
    ["#88A0A8", "#00A1B2", "#E2A400", "#B25D00", "#7E52A0", "#D90429", "#3A6B35", "#4363D8", "#FFE119", "#3CB44B"]

  /** How many segments are kept. */
  const Kept: nat := 7

  /** `Object.entries(data).sort(([, v1], [, v2]) => v2 - v1).slice(0, 7)` */
  function TopValues(data: map<string, real>, keys: seq<string>): seq<Entry>
    requires KeysIn(keys, data)
  {
    Ranked(Entries(data, keys), Some(Kept))
  }

  /** `entries.map(([name, value]) => ({ name: shortenSector(name), value }))` */
  function DonutData(data: map<string, real>, keys: seq<string>): seq<Entry>
    requires KeysIn(keys, data)
  {
    ShortNames(TopValues(data, keys))
  }

  /** `entries.reduce((s, [, v]) => s + v, 0)`: the total of the kept values. */
  function DonutTotal(data: map<string, real>, keys: seq<string>): real
    requires KeysIn(keys, data)
  {
    Total(TopValues(data, keys))
  }

  /** `COLORS[index % COLORS.length]` */
  function ColorAt(index: nat): (color: string)
    ensures color in Colors
  {
    Colors[index % |Colors|]
  }

  /** At most seven segments, largest value first, each the shortened name and the
      unchanged value of the entry at that place in the descending sort; no value
      left out is larger than one kept. */
  lemma DonutRanked(data: map<string, real>, keys: seq<string>)
    requires Enumerates(keys, data)
    ensures var sorted := ByValueDesc(Entries(data, keys));
      var ws := DonutData(data, keys);
      && |ws| == Min(Kept, |keys|)
      && (forall i :: 0 <= i < |ws| ==> ws[i] == Entry(SharedUtils.ShortenSector(sorted[i].name), sorted[i].value))
      && (forall i, j :: 0 <= i < j < |ws| ==> ws[i].value >= ws[j].value)
      && (forall i, j :: 0 <= i < |ws| <= j < |sorted| ==> ws[i].value >= sorted[j].value)
  {
    RankedTop(Entries(data, keys), Some(Kept));
  }

  /** The total is that of the segments drawn, and it and the values left out
      together make up the whole dictionary. */
  lemma TotalOfKept(data: map<string, real>, keys: seq<string>)
    requires Enumerates(keys, data)
    ensures DonutTotal(data, keys) == Total(DonutData(data, keys))
    ensures var sorted := ByValueDesc(Entries(data, keys));
      DonutTotal(data, keys) + Total(sorted[|TopValues(data, keys)|..]) == RealSum(data)
  {
    var es := Entries(data, keys);
    var sorted := ByValueDesc(es);
    var top := TopValues(data, keys);
    ShortNamesTotal(top);
    RankedTop(es, Some(Kept));
    assert sorted == top + sorted[|top|..];
    TotalConcat(top, sorted[|top|..]);
    TotalSort(es, DescBy(Value));
    EntriesTotal(data, keys);
  }

  /** The ten colours are different, so the at most seven segments all get
      different colours. */
  lemma ColorsDistinct(i: nat, j: nat)
    requires i < j < Kept
    ensures ColorAt(i) != ColorAt(j)
  {
  }
}
