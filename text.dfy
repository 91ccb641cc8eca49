/** Character classes, case mapping, trimming, regular-expression rewrites of
    runs of characters, splitting and decimal rendering, as used by the
    JavaScript and the Python code. Case mapping is modelled on ASCII letters. */
module Text {
  import opened Seqs

  predicate IsAsciiUpper(c: char) { 'A' <= c <= 'Z' }

  predicate IsAsciiLower(c: char) { 'a' <= c <= 'z' }

  predicate IsDigit(c: char) { '0' <= c <= '9' }

  /** The regular-expression class `[a-z0-9]`. */
  predicate IsLowerAlnum(c: char) { IsAsciiLower(c) || IsDigit(c) }

  /** The JavaScript class `\w`: `[A-Za-z0-9_]`. */
  predicate IsWordChar(c: char) { IsAsciiUpper(c) || IsAsciiLower(c) || IsDigit(c) || c == '_' }

  predicate IsHyphen(c: char) { c == '-' }

  function LowerChar(c: char): char
  {
    if IsAsciiUpper(c) then (c as int - 'A' as int + 'a' as int) as char else c
  }

  function UpperChar(c: char): char
  {
    if IsAsciiLower(c) then (c as int - 'a' as int + 'A' as int) as char else c
  }

  /** `toLowerCase()` / `lower()`, character by character. */
  function Lower(s: string): (r: string)
    ensures |r| == |s|
  {
    seq(|s|, i requires 0 <= i < |s| => LowerChar(s[i]))
  }

  lemma LowerNoUpper(s: string)
    ensures forall i :: 0 <= i < |Lower(s)| ==> !IsAsciiUpper(Lower(s)[i])
  {
  }

  lemma LowerIdempotent(s: string)
    ensures Lower(Lower(s)) == Lower(s)
  {
  }

  lemma LowerConcat(a: string, b: string)
    ensures Lower(a + b) == Lower(a) + Lower(b)
  {
  }

  /** The characters JavaScript's `trim()` and the regular-expression class `\s`
      treat as white space (ECMAScript WhiteSpace and LineTerminator). */
  predicate IsJsWhitespace(c: char)
  {
    c == '\t' || c == '\n' || c == '\U{B}' || c == '\U{C}' || c == '\r' || c == ' '
    || c == '\U{A0}' || c == '\U{1680}' || ('\U{2000}' <= c <= '\U{200A}')
    || c == '\U{2028}' || c == '\U{2029}' || c == '\U{202F}' || c == '\U{205F}'
    || c == '\U{3000}' || c == '\U{FEFF}'
  }

  /** The characters Python's `str.strip()` removes (`str.isspace`). */
  predicate IsPyWhitespace(c: char)
  {
    c == '\t' || c == '\n' || c == '\U{B}' || c == '\U{C}' || c == '\r'
    || ('\U{1C}' <= c <= '\U{1F}') || c == ' ' || c == '\U{85}' || c == '\U{A0}'
    || c == '\U{1680}' || ('\U{2000}' <= c <= '\U{200A}') || c == '\U{2028}'
    || c == '\U{2029}' || c == '\U{202F}' || c == '\U{205F}' || c == '\U{3000}'
  }

  /** The JavaScript line terminators, which the regular-expression `.` does not match. */
  predicate IsLineTerminator(c: char)
  {
    c == '\n' || c == '\r' || c == '\U{2028}' || c == '\U{2029}'
  }

  /** Removes the longest prefix whose characters satisfy p. */
  function DropWhile(s: string, p: char -> bool): (r: string)
    ensures |r| <= |s| && r == s[|s| - |r|..]
    ensures r != [] ==> !p(r[0])
    ensures forall i :: 0 <= i < |s| - |r| ==> p(s[i])
    decreases |s|
  {
    if s != [] && p(s[0]) then DropWhile(s[1..], p) else s
  }

  /** Removes the longest suffix whose characters satisfy p. */
  function DropWhileEnd(s: string, p: char -> bool): (r: string)
    ensures |r| <= |s| && r == s[..|r|]
    ensures r != [] ==> !p(r[|r| - 1])
    ensures forall i :: |r| <= i < |s| ==> p(s[i])
    decreases |s|
  {
    if s != [] && p(s[|s| - 1]) then DropWhileEnd(s[..|s| - 1], p) else s
  }

  /** Removes the characters satisfying p at both ends. */
  function StripBy(s: string, p: char -> bool): string
  {
    DropWhileEnd(DropWhile(s, p), p)
  }

  /** JavaScript `trim()`. */
  function Trim(s: string): string { StripBy(s, IsJsWhitespace) }

  /** Python `str.strip()`. */
  function PyStrip(s: string): string { StripBy(s, IsPyWhitespace) }

  /** Python `strip("-")` and the JavaScript rewrite `replace(/^-+|-+$/g, '')`. */
  function StripHyphens(s: string): string { StripBy(s, IsHyphen) }

  /** After stripping, neither end satisfies p. */
  lemma StripByEnds(s: string, p: char -> bool)
    ensures var r := StripBy(s, p);
      r != [] ==> !p(r[0]) && !p(r[|r| - 1])
  {
    var d := DropWhile(s, p);
    var r := DropWhileEnd(d, p);
    if r != [] {
      assert r[0] == d[0];
    }
  }

  /** What stripping keeps is the contiguous middle of s from position
      k = |s| - |DropWhile(s, p)|; only p-characters are removed around it. */
  lemma StripByMiddle(s: string, p: char -> bool)
    ensures var r := StripBy(s, p);
      var k := |s| - |DropWhile(s, p)|;
      && 0 <= k && k + |r| <= |s| && r == s[k..k + |r|]
      && (forall i :: 0 <= i < k ==> p(s[i]))
      && (forall i :: k + |r| <= i < |s| ==> p(s[i]))
  {
    StripBySlice(s, p);
    StripByBack(s, p);
  }

  lemma StripBySlice(s: string, p: char -> bool)
    ensures var k := |s| - |DropWhile(s, p)|;
      k + |StripBy(s, p)| <= |s| && StripBy(s, p) == s[k..k + |StripBy(s, p)|]
  {
    var d := DropWhile(s, p);
    var r := DropWhileEnd(d, p);
    PrefixOfSuffix(s, d, r, |s| - |d|);
  }

  /** A prefix of the suffix from k is the slice from k. */
  lemma PrefixOfSuffix(s: string, d: string, r: string, k: nat)
    requires k <= |s| && d == s[k..]
    requires |r| <= |d| && r == d[..|r|]
    ensures k + |r| <= |s| && r == s[k..k + |r|]
  {
  }

  lemma StripByBack(s: string, p: char -> bool)
    ensures var k := |s| - |DropWhile(s, p)|;
      forall i :: k + |StripBy(s, p)| <= i < |s| ==> p(s[i])
  {
    var d := DropWhile(s, p);
    var r := DropWhileEnd(d, p);
    SuffixTail(s, d, |s| - |d|, |r|, p);
  }

  /** What holds of the tail of a suffix holds of that part of the whole. */
  lemma SuffixTail(s: string, d: string, k: nat, n: nat, p: char -> bool)
    requires k <= |s| && d == s[k..]
    requires forall j :: n <= j < |d| ==> p(d[j])
    ensures forall i :: k + n <= i < |s| ==> p(s[i])
  {
    forall i | k + n <= i < |s|
      ensures p(s[i])
    {
      assert s[i] == d[i - k];
    }
  }

  /** Stripping keeps only characters of s. */
  lemma StripByChars(s: string, p: char -> bool)
    ensures forall i :: 0 <= i < |StripBy(s, p)| ==> StripBy(s, p)[i] in s
  {
    StripBySlice(s, p);
    SliceMembers(StripBy(s, p), s, |s| - |DropWhile(s, p)|);
  }

  /** The characters of a slice of s are characters of s. */
  lemma SliceMembers(t: string, s: string, k: nat)
    requires k + |t| <= |s| && t == s[k..k + |t|]
    ensures forall i :: 0 <= i < |t| ==> t[i] in s
  {
    forall i | 0 <= i < |t|
      ensures t[i] in s
    {
      assert t[i] == s[k + i];
    }
  }

  /** When the last character does not satisfy p, only the front is stripped. */
  lemma StripByLastKept(s: string, p: char -> bool)
    requires s != [] && !p(s[|s| - 1])
    ensures StripBy(s, p) == DropWhile(s, p)
  {
    var d := DropWhile(s, p);
    assert d != [];
    assert d[|d| - 1] == s[|s| - 1];
  }

  /** Stripping a string whose ends do not satisfy p returns it unchanged. */
  lemma StripByUnchanged(s: string, p: char -> bool)
    requires s != [] ==> !p(s[0]) && !p(s[|s| - 1])
    ensures StripBy(s, p) == s
  {
  }

  /** Removing every character that satisfies p: `replace(/[class]/g, '')`. */
  function RemoveChars(s: string, p: char -> bool): (r: string)
    ensures forall i :: 0 <= i < |r| ==> !p(r[i]) && r[i] in s
    decreases |s|
  {
    if s == [] then ""
    else (if p(s[0]) then "" else [s[0]]) + RemoveChars(s[1..], p)
  }

  predicate IsSpace(c: char) { c == ' ' }

  /** A first character that is kept stays first. */
  lemma RemoveCharsFirst(s: string, p: char -> bool)
    requires s != [] && !p(s[0])
    ensures RemoveChars(s, p) != [] && RemoveChars(s, p)[0] == s[0]
  {
  }

  /** Removing characters a second time removes nothing more. */
  lemma {:induction false} RemoveCharsIdempotent(s: string, p: char -> bool)
    ensures RemoveChars(RemoveChars(s, p), p) == RemoveChars(s, p)
    decreases |s|
  {
    if s != [] {
      var t := RemoveChars(s[1..], p);
      RemoveCharsIdempotent(s[1..], p);
      if p(s[0]) {
        assert RemoveChars(s, p) == t;
      } else {
        assert RemoveChars(s, p) == [s[0]] + t;
        assert ([s[0]] + t)[1..] == t;
      }
    }
  }

  /** A string without p-characters is unchanged. */
  lemma {:induction false} RemoveCharsNone(s: string, p: char -> bool)
    requires forall i :: 0 <= i < |s| ==> !p(s[i])
    ensures RemoveChars(s, p) == s
    decreases |s|
  {
    if s != [] {
      RemoveCharsNone(s[1..], p);
    }
  }

  /** `replace(a, b)` with a one-character string pattern: only the first
      occurrence of a (at IndexOf(s, a)) is replaced. */
  function ReplaceFirstChar(s: string, a: char, b: char): (r: string)
    ensures |r| == |s|
    ensures forall j :: 0 <= j < |s| && j != IndexOf(s, a) ==> r[j] == s[j]
    ensures IndexOf(s, a) < |s| ==> r[IndexOf(s, a)] == b
  {
    var i := IndexOf(s, a);
    if i == |s| then s else s[..i] + [b] + s[i + 1..]
  }

  lemma IndexOfAfter(a: string, b: string, c: char)
    requires c !in a
    requires b != [] && b[0] == c
    ensures IndexOf(a + b, c) == |a|
  {
    assert (a + b)[|a|] == c;
  }

  /** Replacing the first occurrence of x, when it sits right after a. */
  lemma ReplaceFirstCharAt(a: string, b: string, x: char, y: char)
    requires x !in a
    ensures ReplaceFirstChar(a + [x] + b, x, y) == a + [y] + b
  {
    var s := a + [x] + b;
    assert s == a + ([x] + b);
    IndexOfAfter(a, [x] + b, x);
    assert s[..|a|] == a;
    assert s[|a| + 1..] == b;
  }

  /** `replace(/[class]+/g, repl)`: every maximal run of characters satisfying p
      is replaced by repl; every other character is kept. */
  function ReplaceRuns(s: string, p: char -> bool, repl: string): string
    decreases |s|
  {
    if s == [] then ""
    else if p(s[0]) then repl + ReplaceRuns(DropWhile(s[1..], p), p, repl)
    else [s[0]] + ReplaceRuns(s[1..], p, repl)
  }

  /** A replaced-run result holds only characters of repl and kept characters of s. */
  lemma {:induction false} ReplaceRunsChars(s: string, p: char -> bool, repl: string)
    ensures forall c :: c in ReplaceRuns(s, p, repl) ==> c in repl || (c in s && !p(c))
    decreases |s|
  {
    if s != [] {
      if p(s[0]) {
        var d := DropWhile(s[1..], p);
        ReplaceRunsChars(d, p, repl);
        assert forall c :: c in d ==> c in s;
      } else {
        ReplaceRunsChars(s[1..], p, repl);
      }
    }
  }

  /** No character is doubled: s[i] and s[i + 1] are not both h. */
  ghost predicate NoDouble(s: string, h: char)
  {
    forall i, j :: 0 <= i < j < |s| && j == i + 1 ==> !(s[i] == h && s[j] == h)
  }

  /** A string that is one run is replaced by one repl. */
  lemma ReplaceRunsAll(s: string, p: char -> bool, repl: string)
    requires s != [] && forall i :: 0 <= i < |s| ==> p(s[i])
    ensures ReplaceRuns(s, p, repl) == repl
  {
    assert DropWhile(s[1..], p) == [];
  }

  lemma ReplaceRunsFirst(s: string, p: char -> bool, repl: string)
    requires s != [] && !p(s[0])
    ensures ReplaceRuns(s, p, repl) != [] && ReplaceRuns(s, p, repl)[0] == s[0]
  {
  }

  /** A run at the front is replaced: the result starts with the replacement. */
  lemma ReplaceRunsStartsWithRepl(s: string, p: char -> bool, repl: string)
    requires s != [] && p(s[0])
    ensures StartsWith(ReplaceRuns(s, p, repl), repl)
  {
    var r := ReplaceRuns(s, p, repl);
    assert r == repl + ReplaceRuns(DropWhile(s[1..], p), p, repl);
    assert r[..|repl|] == repl;
  }

  /** Replacing runs of a class that contains h by the single character h leaves
      no doubled h (the `[^a-z0-9]+ -> '-'` rewrite never yields "--"). */
  lemma {:induction false} ReplaceRunsNoDouble(s: string, p: char -> bool, h: char)
    requires p(h)
    ensures NoDouble(ReplaceRuns(s, p, [h]), h)
    decreases |s|
  {
    if s != [] {
      if p(s[0]) {
        var d := DropWhile(s[1..], p);
        ReplaceRunsNoDouble(d, p, h);
        if d != [] {
          ReplaceRunsFirst(d, p, [h]);
        }
      } else {
        ReplaceRunsNoDouble(s[1..], p, h);
      }
    }
  }

  /** A string whose p-characters are all h and that has no doubled h is a fixpoint of the rewrite. */
  lemma {:induction false} ReplaceRunsFixpoint(s: string, p: char -> bool, h: char)
    requires p(h)
    requires forall i :: 0 <= i < |s| && p(s[i]) ==> s[i] == h
    requires NoDouble(s, h)
    ensures ReplaceRuns(s, p, [h]) == s
    decreases |s|
  {
    if s != [] {
      if p(s[0]) {
        assert DropWhile(s[1..], p) == s[1..] by {
          if |s| > 1 {
            assert !p(s[1]);
          }
        }
      }
      ReplaceRunsFixpoint(s[1..], p, h);
    }
  }

  /** Position of the first c in s, or |s| when there is none. */
  function IndexOf(s: string, c: char): (i: nat)
    ensures i <= |s|
    ensures i < |s| ==> s[i] == c
    ensures forall j :: 0 <= j < i ==> s[j] != c
    decreases |s|
  {
    if s == [] then 0 else if s[0] == c then 0 else 1 + IndexOf(s[1..], c)
  }

  /** JavaScript `split(c)` and Python `split(c)` with a one-character separator. */
  function Split(s: string, c: char): (parts: seq<string>)
    ensures |parts| >= 1
    decreases |s|
  {
    var i := IndexOf(s, c);
    if i == |s| then [s] else [s[..i]] + Split(s[i + 1..], c)
  }

  /** JavaScript `join(sep)`. */
  function Join(parts: seq<string>, sep: string): string
    decreases |parts|
  {
    if parts == [] then ""
    else if |parts| == 1 then parts[0]
    else parts[0] + sep + Join(parts[1..], sep)
  }

  /** Splitting and joining again with the separator gives back the string. */
  lemma {:induction false} SplitJoin(s: string, c: char)
    ensures Join(Split(s, c), [c]) == s
    decreases |s|
  {
    var i := IndexOf(s, c);
    if i < |s| {
      var rest := s[i + 1..];
      SplitJoin(rest, c);
      SplitCons(s, c);
      JoinCons(s[..i], Split(rest, c), [c]);
      CutAt(s, i);
    } else {
      SplitNone(s, c);
    }
  }

  lemma SplitCons(s: string, c: char)
    requires IndexOf(s, c) < |s|
    ensures Split(s, c) == [s[..IndexOf(s, c)]] + Split(s[IndexOf(s, c) + 1..], c)
  {
  }

  lemma SplitNone(s: string, c: char)
    requires IndexOf(s, c) == |s|
    ensures Split(s, c) == [s]
  {
  }

  lemma CutAt(s: string, i: nat)
    requires i < |s|
    ensures s == s[..i] + [s[i]] + s[i + 1..]
  {
  }

  /** Joining a part in front of at least one more part puts the separator
      between them. */
  lemma JoinCons(a: string, rest: seq<string>, sep: string)
    requires |rest| >= 1
    ensures Join([a] + rest, sep) == a + sep + Join(rest, sep)
  {
    assert ([a] + rest)[0] == a;
    assert ([a] + rest)[1..] == rest;
  }

  /** Joining one more part appends the separator and the part. */
  lemma {:induction false} JoinSnoc(parts: seq<string>, last: string, sep: string)
    requires |parts| >= 1
    ensures Join(parts + [last], sep) == Join(parts, sep) + sep + last
    decreases |parts|
  {
    if |parts| == 1 {
      JoinCons(parts[0], [last], sep);
      assert parts + [last] == [parts[0]] + [last];
      assert [last][1..] == [];
    } else {
      var rest := parts[1..];
      JoinSnoc(rest, last, sep);
      assert parts + [last] == [parts[0]] + (rest + [last]);
      JoinCons(parts[0], rest + [last], sep);
      JoinCons(parts[0], rest, sep);
      assert parts == [parts[0]] + rest;
    }
  }

  /** Joining parts free of the separator and splitting again gives back the
      parts. */
  lemma {:induction false} JoinSplit(parts: seq<string>, c: char)
    requires |parts| >= 1
    requires forall k :: 0 <= k < |parts| ==> c !in parts[k]
    ensures Split(Join(parts, [c]), c) == parts
    decreases |parts|
  {
    if |parts| == 1 {
      IndexOfAbsent(parts[0], c);
    } else {
      var rest := parts[1..];
      JoinSplit(rest, c);
      assert parts == [parts[0]] + rest;
      JoinCons(parts[0], rest, [c]);
      SplitAfterFirst(parts[0], Join(rest, [c]), c);
    }
  }

  /** A first part free of the separator is split off first. */
  lemma SplitAfterFirst(first: string, j: string, c: char)
    requires c !in first
    ensures Split(first + [c] + j, c) == [first] + Split(j, c)
  {
    var s := first + [c] + j;
    assert s == first + ([c] + j);
    IndexOfAfter(first, [c] + j, c);
    assert s[..|first|] == first;
    assert s[|first| + 1..] == j;
  }

  lemma IndexOfAbsent(s: string, c: char)
    requires c !in s
    ensures IndexOf(s, c) == |s|
  {
  }

  /** No part of a split contains the separator. */
  lemma {:induction false} SplitParts(s: string, c: char)
    ensures forall k :: 0 <= k < |Split(s, c)| ==> c !in Split(s, c)[k]
    decreases |s|
  {
    var i := IndexOf(s, c);
    if i < |s| {
      SplitParts(s[i + 1..], c);
    }
  }

  /** The first part of a split is the text before the first separator. */
  lemma SplitFirst(s: string, c: char)
    ensures Split(s, c)[0] == s[..IndexOf(s, c)]
  {
  }

  function DigitChar(d: nat): char
    requires d < 10
  {
    ('0' as int + d) as char
  }

  function DigitValue(c: char): nat
    requires IsDigit(c)
  {
    c as int - '0' as int
  }

  predicate AllDigits(s: string) { forall i :: 0 <= i < |s| ==> IsDigit(s[i]) }

  /** The value of a string of decimal digits, most significant first. */
  function DigitsValue(s: string): nat
    requires AllDigits(s)
    decreases |s|
  {
    if s == [] then 0 else DigitsValue(s[..|s| - 1]) * 10 + DigitValue(s[|s| - 1])
  }

  /** Decimal rendering of a natural number, without leading zeros. */
  function NatToString(n: nat): (r: string)
    ensures r != [] && AllDigits(r)
    ensures |r| > 1 ==> r[0] != '0'
    decreases n
  {
    if n < 10 then [DigitChar(n)] else NatToString(n / 10) + [DigitChar(n % 10)]
  }

  /** Decimal rendering of an integer: `String(n)` / `n.toString()` / Python `str(n)`. */
  function IntToString(n: int): string
  {
    if n < 0 then "-" + NatToString(-n) else NatToString(n)
  }

  lemma {:induction false} NatToStringValue(n: nat)
    ensures DigitsValue(NatToString(n)) == n
    decreases n
  {
    if n >= 10 {
      NatToStringValue(n / 10);
      var r := NatToString(n);
      assert r[..|r| - 1] == NatToString(n / 10);
    }
  }

  /** Distinct numbers render differently. */
  lemma NatToStringInjective(m: nat, n: nat)
    requires NatToString(m) == NatToString(n)
    ensures m == n
  {
    NatToStringValue(m);
    NatToStringValue(n);
  }

  /** Prefix test (`startsWith`). */
  predicate StartsWith(s: string, prefix: string)
  {
    |prefix| <= |s| && s[..|prefix|] == prefix
  }

  /** sub occurs in s starting at position i. */
  predicate OccursAt(s: string, sub: string, i: int)
  {
    0 <= i && i + |sub| <= |s| && s[i..i + |sub|] == sub
  }

  /** Substring test (`includes`, Python `in`). */
  predicate Contains(s: string, sub: string)
  {
    exists i :: 0 <= i <= |s| && OccursAt(s, sub, i)
  }

  lemma ContainsEmpty(s: string)
    ensures Contains(s, "")
  {
    assert OccursAt(s, "", 0);
  }

  /** Python's order on strings: code point by code point, a proper prefix first. */
  predicate LexLe(a: string, b: string)
    decreases |a|
  {
    if a == [] then true
    else if b == [] then false
    else if a[0] != b[0] then a[0] < b[0]
    else LexLe(a[1..], b[1..])
  }

  lemma {:induction false} LexLeTotal(a: string, b: string)
    ensures LexLe(a, b) || LexLe(b, a)
    decreases |a|
  {
    if a != [] && b != [] && a[0] == b[0] {
      LexLeTotal(a[1..], b[1..]);
    }
  }

  lemma {:induction false} LexLeTransitive(a: string, b: string, c: string)
    requires LexLe(a, b) && LexLe(b, c)
    ensures LexLe(a, c)
    decreases |a|
  {
    if a != [] && b != [] && c != [] && a[0] == b[0] && b[0] == c[0] {
      LexLeTransitive(a[1..], b[1..], c[1..]);
    }
  }

  /** Only equal strings are ordered both ways. */
  lemma {:induction false} LexLeAntisymmetric(a: string, b: string)
    requires LexLe(a, b) && LexLe(b, a)
    ensures a == b
    decreases |a|
  {
    if a != [] && b != [] {
      LexLeAntisymmetric(a[1..], b[1..]);
      assert a == [a[0]] + a[1..] && b == [b[0]] + b[1..];
    }
  }
}
