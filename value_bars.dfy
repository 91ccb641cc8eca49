/** The bar chart of market values. It takes either a ready list of
    `{ name, value }` objects, drawn in the given order, or a dictionary, drawn
    largest value first; at most `max` bars; an empty-state message when there is
    nothing to draw. */
module ValueBars {
  import opened Wrappers
  import opened Seqs
  import opened ChartEntries

  /** The `data` prop: an array, or a dictionary whose keys `Object.entries` lists
      in the order keys. */
  datatype ChartData =
    | ArrayData(entries: seq<Entry>)
    | RecordData(values: map<string, real>, keys: seq<string>)

  predicate WellFormed(data: ChartData)
  {
    data.RecordData? ==> KeysIn(data.keys, data.values)
  }

  /** `Array.isArray(data) ? data : Object.entries(data).sort(desc).map(...)` */
  function EntriesOf(data: ChartData): seq<Entry>
    requires WellFormed(data)
  {
    match data
    case ArrayData(es) => es
    case RecordData(values, keys) => ByValueDesc(Entries(values, keys))
  }

  /** `entries.slice(0, max ?? Number.MAX_SAFE_INTEGER)` */
  function Chart(data: ChartData, max: Option<int>): seq<Entry>
    requires WellFormed(data)
  {
    Slice(EntriesOf(data), 0, Limit(max))
  }

  /** `chartData.length === 0 || chartData.every((d) => d.value === 0)` */
  predicate ShowsEmptyState(chart: seq<Entry>)
  {
    |chart| == 0 || forall i :: 0 <= i < |chart| ==> chart[i].value == 0.0
  }

  /** An array is drawn in its own order: the first min(max, n) of its entries. */
  lemma ArrayKeepsOrder(es: seq<Entry>, max: Option<int>)
    requires max.None? || max.value >= 0
    ensures Chart(ArrayData(es), max) == es[..Min(Limit(max), |es|)]
  {
    SlicePrefix(es, Limit(max));
  }

  /** A dictionary is drawn largest value first, each bar named by its key with
      the key's value, and no value left out is larger than a value drawn. */
  lemma RecordRanked(values: map<string, real>, keys: seq<string>, max: Option<int>)
    requires Enumerates(keys, values)
    requires max.None? || max.value >= 0
    ensures var sorted := ByValueDesc(Entries(values, keys));
      var chart := Chart(RecordData(values, keys), max);
      && |chart| == Min(Limit(max), |keys|)
      && (forall i :: 0 <= i < |chart| ==> chart[i].name in values && chart[i].value == values[chart[i].name])
      && (forall i, j :: 0 <= i < j < |chart| ==> chart[i].value >= chart[j].value)
      && (forall i, j :: 0 <= i < |chart| <= j < |sorted| ==> chart[i].value >= sorted[j].value)
  {
    var es := Entries(values, keys);
    RankedTop(es, max);
    ByValueDescMembers(es);
    var chart := Chart(RecordData(values, keys), max);
    forall i | 0 <= i < |chart|
      ensures chart[i].name in values && chart[i].value == values[chart[i].name]
    {
      assert chart[i] in ByValueDesc(es);
      var j :| 0 <= j < |es| && es[j] == chart[i];
    }
  }

  /** With values that are not negative, the empty state shows exactly when the
      values drawn add up to 0. */
  lemma {:induction false} EmptyStateIffZeroTotal(chart: seq<Entry>)
    requires forall i :: 0 <= i < |chart| ==> chart[i].value >= 0.0
    ensures ShowsEmptyState(chart) <==> Total(chart) == 0.0
    decreases |chart|
  {
    if chart != [] {
      var rest := chart[1..];
      EmptyStateIffZeroTotal(rest);
      assert forall i :: 1 <= i < |chart| ==> chart[i] == rest[i - 1];
      assert ShowsEmptyState(chart) <==> chart[0].value == 0.0 && ShowsEmptyState(rest);
      forall e | e in rest
        ensures e.value >= 0.0
      {
        var i :| 0 <= i < |rest| && rest[i] == e;
        assert chart[i + 1] == e;
      }
      NonNegativeTotal(rest);
    }
  }
}
