/** The donut of holdings per risk category. Category 4 (acceptable risk) and the
    "undefined" bucket are left out of the ring and its total; a note says how many
    acceptable holdings are not shown. */
module CategoryDonut {
  import opened Wrappers
  import opened Seqs
  import opened Tallies
  import opened Numbers
  import opened ChartEntries

  /** One ring segment: the key, its count, the translation key and the colour. */
  datatype Wedge = Wedge(name: string, value: real, labelKey: string, color: string)

  /** The keys left out of the ring. */
  const Hidden: set<string> := {"undefined", "4"}

  /** The colour of a key outside the mapping (slate-500). */
  const FallbackColor: string := "#64748b"

  /** The fixed label key and colour of each known key. */
  function Mapping(k: string): Option<(string, string)>
  {
    if k == "1" then Some(("companies.category.c1", "#ef4444"))
    else if k == "2" then Some(("companies.category.c2", "#f97316"))
    else if k == "3" then Some(("companies.category.c3", "#eab308"))
    else if k == "4" then Some(("companies.category.c4", "#22c55e"))
    else if k == "undefined" then Some(("undefined", "#64748b"))
    else None
  }

  /** `{ name: k, value: v, labelKey: mapping[k]?.key ?? k, color: mapping[k]?.color ?? '#64748b' }` */
  function ToWedge(e: Entry): (w: Wedge)
    ensures w.name == e.name && w.value == e.value
  {
    var m := Mapping(e.name);
    Wedge(e.name, e.value,
      if m.Some? then m.value.0 else e.name,
      if m.Some? then m.value.1 else FallbackColor)
  }

  /** Keys 1 to 3 get their label key and colour; a key outside the mapping is its
      own label and is grey. */
  lemma WedgeLabels(e: Entry)
    ensures e.name == "1" ==> ToWedge(e).labelKey == "companies.category.c1" && ToWedge(e).color == "#ef4444"
    ensures e.name == "2" ==> ToWedge(e).labelKey == "companies.category.c2" && ToWedge(e).color == "#f97316"
    ensures e.name == "3" ==> ToWedge(e).labelKey == "companies.category.c3" && ToWedge(e).color == "#eab308"
    ensures e.name !in {"1", "2", "3", "4", "undefined"} ==>
      ToWedge(e).labelKey == e.name && ToWedge(e).color == FallbackColor
  {
  }

  function Wedges(es: seq<Entry>): (ws: seq<Wedge>)
    ensures |ws| == |es|
    ensures forall i :: 0 <= i < |es| ==> ws[i] == ToWedge(es[i])
  {
    seq(|es|, i requires 0 <= i < |es| => ToWedge(es[i]))
  }

  /** `chartData`: the entries outside "undefined" and "4", in ascending numeric key
      order, as ring segments. */
  function ChartData(data: map<string, int>, keys: seq<string>): seq<Wedge>
    requires KeysIn(keys, data)
  {
    Wedges(ByNumericKey(data, keys, Hidden))
  }

  /** `chartData.reduce((s, d) => s + d.value, 0)` */
  function WedgeTotal(ws: seq<Wedge>): real
    decreases |ws|
  {
    if ws == [] then 0.0 else ws[0].value + WedgeTotal(ws[1..])
  }

  /** `data['4'] || 0` */
  function AcceptableCount(data: map<string, int>): int
  {
    if "4" in data then data["4"] else 0
  }

  /** `acceptableCount > 0 && <p>…</p>` */
  predicate ShowsAcceptableNote(data: map<string, int>)
  {
    AcceptableCount(data) > 0
  }

  /** The note appears exactly when some holdings of category 4 are counted. */
  lemma NoteShownIffAcceptable(data: map<string, int>)
    ensures ShowsAcceptableNote(data) <==> "4" in data && data["4"] > 0
  {
  }

  lemma {:induction false} WedgesTotal(es: seq<Entry>)
    ensures WedgeTotal(Wedges(es)) == Total(es)
    decreases |es|
  {
    if es != [] {
      WedgesTotal(es[1..]);
      assert Wedges(es)[1..] == Wedges(es[1..]);
    }
  }

  /** The ring has one segment per key other than "undefined" and "4", each with
      that key's count. */
  lemma ChartKeys(data: map<string, int>, keys: seq<string>)
    requires Enumerates(keys, data)
    ensures forall w :: w in ChartData(data, keys) ==>
      w.name in data && w.name !in Hidden && w.value == data[w.name] as real
    ensures forall k :: k in data && k !in Hidden ==>
      exists i :: 0 <= i < |ChartData(data, keys)| && ChartData(data, keys)[i].name == k
  {
    var es := ByNumericKey(data, keys, Hidden);
    ByNumericKeyMembers(data, keys, Hidden);
    forall w | w in ChartData(data, keys)
      ensures w.name in data && w.name !in Hidden && w.value == data[w.name] as real
    {
      var i :| 0 <= i < |es| && Wedges(es)[i] == w;
      assert es[i] in es;
    }
    forall k | k in data && k !in Hidden
      ensures exists i :: 0 <= i < |ChartData(data, keys)| && ChartData(data, keys)[i].name == k
    {
      var e := Entry(k, data[k] as real);
      assert e in es;
      var i :| 0 <= i < |es| && es[i] == e;
      assert ChartData(data, keys)[i].name == k;
    }
  }

  /** The keys of the segments, in ring order. */
  function SegmentNames(ws: seq<Wedge>): (ns: seq<string>)
    ensures |ns| == |ws|
    ensures forall i :: 0 <= i < |ws| ==> ns[i] == ws[i].name
  {
    seq(|ws|, i requires 0 <= i < |ws| => ws[i].name)
  }

  /** With numeric keys, the segments are in ascending key order. */
  lemma ChartOrdered(data: map<string, int>, keys: seq<string>)
    requires Enumerates(keys, data)
    requires forall k :: k in data && k !in Hidden ==> NumberOf(k).Some?
    ensures NumericAscending(SegmentNames(ChartData(data, keys)))
  {
    var es := ByNumericKey(data, keys, Hidden);
    ByNumericKeyOrdered(data, keys, Hidden);
    assert SegmentNames(Wedges(es)) == Names(es);
  }

  lemma HiddenSplit<V>(m: map<string, V>)
    ensures m - Hidden == m - {"4"} - {"undefined"}
    ensures "undefined" in m - {"4"} <==> "undefined" in m
    ensures "undefined" in m ==> (m - {"4"})["undefined"] == m["undefined"]
  {
    assert "4" != "undefined";
  }

  lemma HiddenRemoved(data: map<string, int>)
    ensures RealSum(AsReals(data) - Hidden)
      == RealSum(AsReals(data))
         - (if "4" in data then data["4"] as real else 0.0)
         - (if "undefined" in data then data["undefined"] as real else 0.0)
  {
    var m := AsReals(data);
    HiddenSplit(m);
    WithoutKey(m, "4");
    WithoutKey(m - {"4"}, "undefined");
  }

  /** The total in the middle of the ring is the count of all holdings minus the
      acceptable ones and the "undefined" bucket. */
  lemma TotalLeavesOutHidden(data: map<string, int>, keys: seq<string>)
    requires Enumerates(keys, data)
    ensures WedgeTotal(ChartData(data, keys))
      == Sum(data) as real
         - (if "4" in data then data["4"] as real else 0.0)
         - (if "undefined" in data then data["undefined"] as real else 0.0)
  {
    var m := AsReals(data);
    WedgesTotal(ByNumericKey(data, keys, Hidden));
    ByNumericKeyTotal(data, keys, Hidden);
    AsRealsSum(data);
    HiddenRemoved(data);
  }
}
