/** The breadcrumb trail of the layout: one link per non-empty path segment, to
    the path up to that segment, labelled by the segment with its first letter
    capitalised unless it is `companies`, the company id of the route, or
    `report`. The translations are parameters. */
module Breadcrumbs {
  import opened Wrappers
  import opened Seqs
  import opened Text

  /** One link of the trail; `caption` is the crumb's `label`. */
  datatype Crumb = Crumb(to: string, caption: string)

  /** What the crumbs need of a company: its id and its name. */
  datatype Listing = Listing(id: string, name: string)

  predicate NonEmpty(s: string) { s != "" }

  /** `location.pathname.split('/').filter((x) => x)` */
  function Segments(pathname: string): seq<string>
  {
    Filter(Split(pathname, '/'), NonEmpty)
  }

  /** `` `/${pathnames.slice(0, index + 1).join('/')}` `` */
  function PathTo(segments: seq<string>, index: nat): string
    requires index < |segments|
  {
    "/" + Join(segments[..index + 1], "/")
  }

  /** `value.charAt(0).toUpperCase() + value.slice(1)` */
  function Capitalize(value: string): string
  {
    if value == [] then [] else [UpperChar(value[0])] + value[1..]
  }

  /** `companies.find((c) => c.id === id)`: the name of the first company with
      that id. */
  function FindName(companies: seq<Listing>, id: string): (r: Option<string>)
    ensures r.Some? <==> exists i :: 0 <= i < |companies| && companies[i].id == id
    ensures r.Some? ==>
      exists i :: 0 <= i < |companies| && companies[i].id == id && companies[i].name == r.value
        && forall j :: 0 <= j < i ==> companies[j].id != id
    decreases |companies|
  {
    if companies == [] then None
    else if companies[0].id == id then Some(companies[0].name)
    else
      var r := FindName(companies[1..], id);
      assert forall i :: 1 <= i < |companies| ==> companies[1..][i - 1] == companies[i];
      r
  }

  /** The label of one segment; the checks are tried in this order. */
  function Label(value: string, id: Option<string>, companies: seq<Listing>,
                 companiesLabel: string, reportLabel: string): string
  {
    if value == "companies" then companiesLabel
    else if id.Some? && id.value != "" && value == id.value then
      var found := FindName(companies, id.value);
      if found.Some? then found.value else Capitalize(value)
    else if value == "report" then reportLabel
    else Capitalize(value)
  }

  /** `pathnames.map((value, index) => ({ to, label }))` */
  function Crumbs(pathname: string, id: Option<string>, companies: seq<Listing>,
                  companiesLabel: string, reportLabel: string): (crumbs: seq<Crumb>)
    ensures |crumbs| == |Segments(pathname)|
  {
    var segments := Segments(pathname);
    seq(|segments|, i requires 0 <= i < |segments| =>
      Crumb(PathTo(segments, i), Label(segments[i], id, companies, companiesLabel, reportLabel)))
  }

  /** Segments are non-empty and hold no slash. */
  lemma SegmentsShape(pathname: string)
    ensures forall k :: 0 <= k < |Segments(pathname)| ==>
      Segments(pathname)[k] != "" && '/' !in Segments(pathname)[k]
  {
    var parts := Split(pathname, '/');
    SplitParts(pathname, '/');
    FilterMembers(parts, NonEmpty);
    var segs := Segments(pathname);
    forall k | 0 <= k < |segs|
      ensures segs[k] != "" && '/' !in segs[k]
    {
      assert segs[k] in segs;
    }
  }

  /** Each link is its predecessor's with one more segment. */
  lemma PathToStep(segments: seq<string>, index: nat)
    requires index + 1 < |segments|
    ensures PathTo(segments, index + 1) == PathTo(segments, index) + "/" + segments[index + 1]
  {
    assert segments[..index + 2] == segments[..index + 1] + [segments[index + 1]];
    JoinSnoc(segments[..index + 1], segments[index + 1], "/");
  }

  /** Every link leads below the links before it. */
  lemma {:induction false} PathToNested(segments: seq<string>, i: nat, j: nat)
    requires i < j < |segments|
    ensures StartsWith(PathTo(segments, j), PathTo(segments, i) + "/")
    decreases j - i
  {
    PathToStep(segments, j - 1);
    var prev := PathTo(segments, j - 1);
    var cur := PathTo(segments, j);
    var pre := PathTo(segments, i) + "/";
    assert cur == prev + ("/" + segments[j]);
    if i < j - 1 {
      PathToNested(segments, i, j - 1);
      assert cur[..|pre|] == prev[..|pre|];
    } else {
      assert cur == pre + segments[j];
      assert cur[..|pre|] == pre;
    }
  }

  /** A link is itself a path whose segments are the first ones of the trail: the
      link of a crumb leads to the page of that crumb. */
  lemma PathToSegments(segments: seq<string>, index: nat)
    requires index < |segments|
    requires forall k :: 0 <= k < |segments| ==> segments[k] != "" && '/' !in segments[k]
    ensures Segments(PathTo(segments, index)) == segments[..index + 1]
  {
    var prefix := segments[..index + 1];
    var joined := Join(prefix, "/");
    JoinSplit(prefix, '/');
    assert "/" + joined == "" + ['/'] + joined;
    SplitAfterFirst("", joined, '/');
    assert Split("/" + joined, '/') == [""] + prefix;
    FilterConcat([""], prefix, NonEmpty);
    FilterAll(prefix, NonEmpty);
  }

  /** The trail of a pathname: one crumb per segment, links nested in order, the
      last link the pathname without empty segments. */
  lemma CrumbsTrail(pathname: string, id: Option<string>, companies: seq<Listing>,
                    companiesLabel: string, reportLabel: string)
    ensures var crumbs := Crumbs(pathname, id, companies, companiesLabel, reportLabel);
      var segments := Segments(pathname);
      && (forall i, j :: 0 <= i < j < |crumbs| ==> StartsWith(crumbs[j].to, crumbs[i].to + "/"))
      && (forall i :: 0 <= i < |crumbs| ==> Segments(crumbs[i].to) == segments[..i + 1])
  {
    var crumbs := Crumbs(pathname, id, companies, companiesLabel, reportLabel);
    var segments := Segments(pathname);
    SegmentsShape(pathname);
    forall i, j | 0 <= i < j < |crumbs|
      ensures StartsWith(crumbs[j].to, crumbs[i].to + "/")
    {
      PathToNested(segments, i, j);
    }
    forall i | 0 <= i < |crumbs|
      ensures Segments(crumbs[i].to) == segments[..i + 1]
    {
      PathToSegments(segments, i);
    }
  }

  /** Capitalising changes the case of the first letter and nothing else. */
  lemma CapitalizeOnlyCase(value: string)
    ensures |Capitalize(value)| == |value|
    ensures value != [] ==> Capitalize(value)[1..] == value[1..] && !IsAsciiLower(Capitalize(value)[0])
    ensures Lower(Capitalize(value)) == Lower(value)
  {
    if value != [] {
      var r := Capitalize(value);
      assert forall i :: 1 <= i < |value| ==> r[i] == value[i];
      assert LowerChar(UpperChar(value[0])) == LowerChar(value[0]);
    }
  }

  /** A `companies` segment is always the translated label, even when it is the
      route id; the route id names the company found under it; `report` is the
      translated report label when it is not the route id. */
  lemma LabelPriority(value: string, id: Option<string>, companies: seq<Listing>,
                      companiesLabel: string, reportLabel: string)
    ensures var caption := Label(value, id, companies, companiesLabel, reportLabel);
      && (value == "companies" ==> caption == companiesLabel)
      && (value != "companies" && id == Some(value) && value != "" ==>
            (exists i :: 0 <= i < |companies| && companies[i].id == value && companies[i].name == caption)
            || (caption == Capitalize(value) && forall i :: 0 <= i < |companies| ==> companies[i].id != value))
      && (value == "report" && id != Some("report") ==> caption == reportLabel)
  {
  }
}
