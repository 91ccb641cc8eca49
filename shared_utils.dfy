/** The display helpers of the shared utilities: country codes for flags, the
    shortened sector name, the category label and truncation with an ellipsis.
    The same code, apart from the truncation suffix, also stands in the older
    utilities file (module `Utils`). */
module SharedUtils {
  import opened Wrappers
  import opened Seqs
  import opened Text
  import opened Numbers

  /** `getCountryCode`: three names are handled before the country-code library,
      which is the parameter `alpha2` (`countries.getAlpha2Code(name, 'en')`). */
  function GetCountryCode(name: string, alpha2: string -> Option<string>): (r: Option<string>)
    ensures name == "United States" ==> r == Some("US")
    ensures name == "United Kingdom" ==> r == Some("GB")
    ensures name != "United States" && name != "United Kingdom" && Contains(Lower(name), "hong kong") ==> r == Some("HK")
    ensures name != "United States" && name != "United Kingdom" && !Contains(Lower(name), "hong kong") ==> r == alpha2(name)
  {
    if name == "United States" then Some("US")
    else if name == "United Kingdom" then Some("GB")
    else if Contains(Lower(name), "hong kong") then Some("HK")
    else alpha2(name)
  }

  /** Any name that mentions Hong Kong, whatever the case of the rest, gets HK
      without consulting the library. */
  lemma HongKongFound(before: string, after: string, alpha2: string -> Option<string>)
    ensures GetCountryCode(before + "Hong Kong" + after, alpha2) == Some("HK")
  {
    var name := before + "Hong Kong" + after;
    assert name[|before|] == 'H';
    assert 'H' !in "United States" && 'H' !in "United Kingdom";
    LowerConcat(before, "Hong Kong");
    LowerConcat(before + "Hong Kong", after);
    assert Lower("Hong Kong") == "hong kong";
    var lowered := Lower(before) + "hong kong" + Lower(after);
    assert Lower(name) == lowered;
    assert lowered[|before|..|before| + 9] == "hong kong";
    assert OccursAt(lowered, "hong kong", |before|);
  }

  /** `shortenSector`: only "Consumer Discretionary" is shortened. */
  function ShortenSector(sector: string): (r: string)
    ensures sector == "Consumer Discretionary" ==> r == "Consumer Disc."
    ensures sector != "Consumer Discretionary" ==> r == sector
  {
    if sector == "Consumer Discretionary" then "Consumer Disc." else sector
  }

  /** Shortening twice is shortening once. */
  lemma ShortenSectorIdempotent(sector: string)
    ensures ShortenSector(ShortenSector(sector)) == ShortenSector(sector)
  {
  }

  /** Two sector names that shorten alike are the same name, unless they are the
      long and the short form of Consumer Discretionary. */
  lemma ShortenSectorMerges(a: string, b: string)
    requires a != b && ShortenSector(a) == ShortenSector(b)
    ensures {a, b} == {"Consumer Discretionary", "Consumer Disc."}
  {
  }

  /** `labelForCategory`: the translation key of category "1" to "4" through the
      translation function t, and the empty string for anything else. */
  function LabelForCategory(val: string, t: string -> string): (r: string)
    ensures val == "1" ==> r == t("companies.category.c1")
    ensures val == "2" ==> r == t("companies.category.c2")
    ensures val == "3" ==> r == t("companies.category.c3")
    ensures val == "4" ==> r == t("companies.category.c4")
    ensures val != "1" && val != "2" && val != "3" && val != "4" ==> r == ""
  {
    if val == "1" then t("companies.category.c1")
    else if val == "2" then t("companies.category.c2")
    else if val == "3" then t("companies.category.c3")
    else if val == "4" then t("companies.category.c4")
    else ""
  }

  /** For the decimal text of an integer category, the label is the key
      `companies.category.c<n>` for n in 1..4 and empty for every other integer. */
  lemma LabelOfIntegerCategory(n: int, t: string -> string)
    ensures 1 <= n <= 4 ==> LabelForCategory(IntToString(n), t) == t("companies.category.c" + IntToString(n))
    ensures !(1 <= n <= 4) ==> LabelForCategory(IntToString(n), t) == ""
  {
    assert IntToString(1) == "1" && IntToString(2) == "2" && IntToString(3) == "3" && IntToString(4) == "4";
    if !(1 <= n <= 4) {
      if IntToString(n) == "1" { IntToStringInjective(n, 1); }
      if IntToString(n) == "2" { IntToStringInjective(n, 2); }
      if IntToString(n) == "3" { IntToStringInjective(n, 3); }
      if IntToString(n) == "4" { IntToStringInjective(n, 4); }
    } else if n == 1 {
      assert "companies.category.c" + IntToString(n) == "companies.category.c1";
    } else if n == 2 {
      assert "companies.category.c" + IntToString(n) == "companies.category.c2";
    } else if n == 3 {
      assert "companies.category.c" + IntToString(n) == "companies.category.c3";
    } else {
      assert "companies.category.c" + IntToString(n) == "companies.category.c4";
    }
  }

  /** `truncate(str, length)` with the one-character ellipsis "…". */
  function Truncate(s: string, length: int): (r: string)
    ensures |s| <= length ==> r == s
    ensures 0 <= length < |s| ==> r == s[..length] + "…" && |r| == length + 1
  {
    if |s| <= length then s else Slice(s, 0, length) + "…"
  }

  /** A truncated text is never longer than the limit plus the ellipsis, and it
      always starts with the first min(length, |s|) characters of the input. */
  lemma TruncateKeepsPrefix(s: string, length: nat)
    ensures |Truncate(s, length)| <= length + 1
    ensures Truncate(s, length)[..Min(length, |s|)] == s[..Min(length, |s|)]
  {
  }
}
