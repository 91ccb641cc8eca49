/** The older utilities file. Its country codes, sector shortening and category
    labels are the same code as in the shared utilities (module `SharedUtils`);
    only its truncation differs, by the suffix it appends. */
module Utils {
  import opened Seqs
  import SharedUtils

  /** The suffix as written in this file: the three characters U+00E2, U+20AC and
      U+00A6, which is the UTF-8 encoding of "…" read back as Windows-1252. */
  const MisencodedEllipsis: string := "\U{E2}\U{20AC}\U{A6}"

  /** `truncate(str, length)` as written here. */
  function Truncate(s: string, length: int): (r: string)
    ensures |s| <= length ==> r == s
    ensures 0 <= length < |s| ==> r == s[..length] + MisencodedEllipsis && |r| == length + 3
  {
    if |s| <= length then s else Slice(s, 0, length) + MisencodedEllipsis
  }

  /** Whenever a text is actually cut, this version shows three stray characters
      where the shared one shows a single ellipsis, two characters more. */
  lemma TruncateMisencoded(s: string, length: nat)
    requires length < |s|
    ensures |Truncate(s, length)| == |SharedUtils.Truncate(s, length)| + 2
    ensures Truncate(s, length)[..length] == SharedUtils.Truncate(s, length)[..length]
    ensures Truncate(s, length)[length..] == MisencodedEllipsis
    ensures SharedUtils.Truncate(s, length)[length..] == "…"
  {
  }

  /** For instance "abcd" cut at 2 shows as "abâ€¦" instead of "ab…". */
  lemma TruncateExample()
    ensures Truncate("abcd", 2) == "ab\U{E2}\U{20AC}\U{A6}"
    ensures SharedUtils.Truncate("abcd", 2) == "ab…"
  {
  }
}
