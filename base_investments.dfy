/** The script that builds the base investments file: every row of the fund's
    semicolon-separated holdings export becomes one record with a slug id and an
    empty shallow report. Reading the export and writing the JSON file are left
    to the caller; the rows arrive already split into cells. */
module BaseInvestments {
  import opened Wrappers
  import opened Seqs
  import opened Text
  import opened Slugs
  import Backend

  /** The fixed header the cells are bound to, by position. */
  const Header: seq<string> := [
    "industry", "region", "country", "name", "marketValueNok",
    "marketValueUsd", "voting", "ownership", "incorporationCountry"
  ]

  /** The keys of a written record, in the order they are written. */
  const RecordKeys: seq<string> := ["id"] + Header + ["shallowReport"]

  /** The JSON values a record holds. */
  datatype JsonValue = JString(s: string) | JNull | JEmptyObject

  datatype Member = Member(key: string, value: JsonValue)

  /** A JSON object, its members in order. */
  type Investment = seq<Member>

  /** `dict(zip(keys, values))`: pairs up to the shorter of the two; a later pair
      overwrites an earlier one with the same key. */
  function Zip(keys: seq<string>, values: seq<string>): map<string, string>
    decreases |keys|
  {
    var n := Min(|keys|, |values|);
    if n == 0 then map[]
    else Zip(keys[..n - 1], values[..n - 1])[keys[n - 1] := values[n - 1]]
  }

  /** `d.get(key)` */
  function Get(d: map<string, string>, key: string): Option<string>
  {
    if key in d then Some(d[key]) else None
  }

  /** A missing cell is written as null. */
  function OrNull(o: Option<string>): JsonValue
  {
    if o.Some? then JString(o.value) else JNull
  }

  /** `re.sub(r'[^a-z0-9]+', '-', name.lower()).strip('-')` */
  function BaseSlug(name: string): string
  {
    StripHyphens(HyphenRuns(Lower(name)))
  }

  /** The record of one data row, its id made by `slug` from the name cell or
      from "" when there is none. The fields follow the header's order, which is
      the order in which the record lists them. */
  function RecordWith(row: seq<string>, slug: string -> string): Investment
  {
    var d := Zip(Header, row);
    var name := Get(d, "name");
    [Member("id", JString(slug(if name.Some? then name.value else "")))]
      + seq(|Header|, i requires 0 <= i < |Header| => Member(Header[i], OrNull(Get(d, Header[i]))))
      + [Member("shallowReport", JEmptyObject)]
  }

  function Record(row: seq<string>): Investment
  {
    RecordWith(row, BaseSlug)
  }

  /** The value of the first member with this key. */
  function Lookup(record: Investment, key: string): (r: Option<JsonValue>)
    ensures r.Some? <==> exists i :: 0 <= i < |record| && record[i].key == key
    decreases |record|
  {
    if record == [] then None
    else if record[0].key == key then Some(record[0].value)
    else Lookup(record[1..], key)
  }

  /** Every element through f, in order. */
  function MapAll<A, B>(xs: seq<A>, f: A -> B): (ys: seq<B>)
    ensures |ys| == |xs|
    ensures forall i :: 0 <= i < |xs| ==> ys[i] == f(xs[i])
    decreases |xs|
  {
    if xs == [] then []
    else MapAll(xs[..|xs| - 1], f) + [f(xs[|xs| - 1])]
  }

  /** One record per row, in order. */
  function Records(rows: seq<seq<string>>): seq<Investment>
  {
    MapAll(rows, Record)
  }

  /** The whole file: the first row is the export's own header and is skipped;
      an export without even that row makes `next` fail. */
  function Investments(rows: seq<seq<string>>): Option<seq<Investment>>
  {
    if rows == [] then None else Some(Records(rows[1..]))
  }

  /** `create_base_investments`: the loop that appends one record per row. */
  method CreateBaseInvestments(rows: seq<seq<string>>) returns (r: Option<seq<Investment>>)
    ensures r == Investments(rows)
  {
    if rows == [] {
      return None;
    }
    var data := rows[1..];
    var investments: seq<Investment> := [];
    for i := 0 to |data|
      invariant investments == MapAll(data[..i], Record)
    {
      MapAllSnoc(data, i, Record);
      investments := investments + [Record(data[i])];
    }
    MapAllWhole(data, Record);
    return Some(investments);
  }

  lemma MapAllSnoc<A, B>(xs: seq<A>, i: nat, f: A -> B)
    requires i < |xs|
    ensures MapAll(xs[..i + 1], f) == MapAll(xs[..i], f) + [f(xs[i])]
  {
    assert xs[..i + 1][..i] == xs[..i];
  }

  lemma MapAllWhole<A, B>(xs: seq<A>, f: A -> B)
    ensures MapAll(xs[..|xs|], f) == MapAll(xs, f)
  {
    assert xs[..|xs|] == xs;
  }

  // ---------------------------------------------------------------- lemmas

  lemma KeysDistinct()
    ensures Distinct(RecordKeys)
  {
  }

  lemma HeaderDistinct()
    ensures Distinct(Header)
  {
  }

  /** The members' keys are the record keys, whatever the row. */
  lemma RecordKeysWith(row: seq<string>, slug: string -> string)
    ensures var record := RecordWith(row, slug);
      |record| == |RecordKeys| && forall i :: 0 <= i < |record| ==> record[i].key == RecordKeys[i]
  {
  }

  /** The member found is the first with the key. */
  lemma {:induction false} LookupAt(record: Investment, i: nat)
    requires i < |record|
    requires forall j :: 0 <= j < i ==> record[j].key != record[i].key
    ensures Lookup(record, record[i].key) == Some(record[i].value)
    decreases i
  {
    if i > 0 {
      assert record[0].key != record[i].key;
      LookupAt(record[1..], i - 1);
    }
  }

  /** Every key in the dictionary is one of the paired keys. */
  lemma {:induction false} ZipKeys(keys: seq<string>, values: seq<string>, k: string)
    requires k in Zip(keys, values)
    ensures exists j :: 0 <= j < Min(|keys|, |values|) && keys[j] == k
    decreases |keys|
  {
    var n := Min(|keys|, |values|);
    if k != keys[n - 1] {
      ZipKeys(keys[..n - 1], values[..n - 1], k);
    }
  }

  /** With distinct keys, key i is bound exactly when there is a value i, and
      then to that value. */
  lemma {:induction false} ZipLookup(keys: seq<string>, values: seq<string>, i: nat)
    requires Distinct(keys) && i < |keys|
    ensures Get(Zip(keys, values), keys[i]) == if i < |values| then Some(values[i]) else None
    decreases |keys|
  {
    var n := Min(|keys|, |values|);
    var d := Zip(keys, values);
    if n == 0 {
    } else if i == n - 1 {
    } else if i < n - 1 {
      ZipLookup(keys[..n - 1], values[..n - 1], i);
      assert keys[i] != keys[n - 1];
    } else if keys[i] in d {
      ZipKeys(keys, values, keys[i]);
    }
  }

  /** Cell i of a row is field i of the header, null when the row is too short;
      cells past the header are dropped. */
  lemma RecordFields(row: seq<string>, i: nat)
    requires i < |Header|
    ensures Lookup(Record(row), Header[i]) == Some(if i < |row| then JString(row[i]) else JNull)
  {
    RecordFieldsWith(row, BaseSlug, i);
  }

  lemma RecordFieldsWith(row: seq<string>, slug: string -> string, i: nat)
    requires i < |Header|
    ensures Lookup(RecordWith(row, slug), Header[i]) == Some(if i < |row| then JString(row[i]) else JNull)
  {
    var record := RecordWith(row, slug);
    RecordKeysWith(row, slug);
    KeysDistinct();
    assert record[i + 1].key == RecordKeys[i + 1];
    LookupAt(record, i + 1);
    HeaderDistinct();
    ZipLookup(Header, row, i);
  }

  /** A record always has the same eleven keys in the same order: the id, the
      header's fields (`industry` is not renamed to `sector`), and an empty
      shallow report; there is no `state`. */
  lemma RecordShape(row: seq<string>, slug: string -> string)
    ensures var record := RecordWith(row, slug);
      && |record| == |RecordKeys|
      && (forall i :: 0 <= i < |record| ==> record[i].key == RecordKeys[i])
      && Lookup(record, "shallowReport") == Some(JEmptyObject)
      && Lookup(record, "state") == None
      && Lookup(record, "sector") == None
  {
    var record := RecordWith(row, slug);
    RecordKeysWith(row, slug);
    KeysDistinct();
    LookupAt(record, 10);
    NotRecordKeys();
    LookupMissing(record, "state");
    LookupMissing(record, "sector");
  }

  lemma NotRecordKeys()
    ensures "state" !in RecordKeys && "sector" !in RecordKeys
  {
  }

  /** A key no member has is not found. */
  lemma LookupMissing(record: Investment, key: string)
    requires forall i :: 0 <= i < |record| ==> record[i].key != key
    ensures Lookup(record, key) == None
  {
  }

  /** The id is a slug of the name, or of nothing when the row has no name cell. */
  lemma RecordId(row: seq<string>)
    ensures var id := BaseSlug(if |row| > 3 then row[3] else "");
      Lookup(Record(row), "id") == Some(JString(id)) && IsSlug(id)
  {
    RecordIdWith(row, BaseSlug);
    BaseSlugIsSlug(if |row| > 3 then row[3] else "");
  }

  lemma RecordIdWith(row: seq<string>, slug: string -> string)
    ensures Lookup(RecordWith(row, slug), "id") == Some(JString(slug(if |row| > 3 then row[3] else "")))
  {
    var d := Zip(Header, row);
    HeaderDistinct();
    ZipLookup(Header, row, 3);
    assert Header[3] == "name";
    var record := RecordWith(row, slug);
    assert record[0] == Member("id", JString(slug(if |row| > 3 then row[3] else "")));
  }

  /** The id is a slug: lower-case letters and digits, single inner hyphens. */
  lemma BaseSlugIsSlug(name: string)
    ensures IsSlug(BaseSlug(name))
  {
    HyphenRunsShape(Lower(name));
    StripHyphensSlug(HyphenRuns(Lower(name)));
  }

  /** Unlike the service's slug there is no fallback: a name without a letter or
      digit, once lower-cased, gets the empty id. */
  lemma BaseSlugMayBeEmpty(name: string)
    requires forall i :: 0 <= i < |Lower(name)| ==> !IsLowerAlnum(Lower(name)[i])
    ensures BaseSlug(name) == ""
  {
    if name != "" {
      ReplaceRunsAll(Lower(name), NotLowerAlnum, "-");
      assert StripHyphens("-") == "";
    }
  }

  /** A slug is its own id, so the id is idempotent. */
  lemma BaseSlugOfSlug(s: string)
    requires IsSlug(s)
    ensures BaseSlug(s) == s
  {
    SlugLower(s);
    SlugRunsUnchanged(s);
    SlugHyphensStripped(s);
  }

  lemma BaseSlugIdempotent(name: string)
    ensures BaseSlug(BaseSlug(name)) == BaseSlug(name)
  {
    BaseSlugIsSlug(name);
    BaseSlugOfSlug(BaseSlug(name));
  }

  /** For a name without white space at its ends the service's slug is the
      script's id, with "item" in place of the empty id. */
  lemma AgreesWithService(name: string)
    requires PyStrip(name) == name
    ensures Backend.Slugify(name) == if BaseSlug(name) == "" then "item" else BaseSlug(name)
  {
    var h := HyphenRuns(Lower(name));
    HyphenRunsShape(Lower(name));
    ReplaceRunsFixpoint(h, IsHyphen, '-');
  }
}
