/** Video-title sanitisation used to build the output file name.
    Both scrapers chain Python's `str.replace` with one-character patterns;
    they differ only in whether spaces are replaced too. */
module Titles {

  /** `str.replace(from, to)` for a one-character `from`: every occurrence,
      scanned left to right, is replaced; nothing else moves. */
  function ReplaceChar(s: string, from: char, to: char): (r: string)
    ensures |r| == |s|
    ensures forall k :: 0 <= k < |s| ==> r[k] == (if s[k] == from then to else s[k])
  {
    if s == [] then []
    else [if s[0] == from then to else s[0]] + ReplaceChar(s[1..], from, to)
  }

  /** The characters the newer scraper refuses in a file name. */
  predicate IsSeparator(c: char) {
    c == '/' || c == '|' || c == ' '
  }

  /** The characters the older scraper refuses in a file name. */
  predicate IsPathBreaker(c: char) {
    c == '/' || c == '|'
  }

  /** Newer scraper: `title.replace("/", "_").replace("|", "_").replace(" ", "_")`. */
  function SanitizeTitle(title: string): (r: string)
    ensures |r| == |title|
    ensures forall k :: 0 <= k < |title| ==>
      r[k] == (if IsSeparator(title[k]) then '_' else title[k])
    ensures forall k :: 0 <= k < |r| ==> !IsSeparator(r[k])
  {
    ReplaceChar(ReplaceChar(ReplaceChar(title, '/', '_'), '|', '_'), ' ', '_')
  }

  /** Older scraper: `title.replace('/', '_').replace('|', '_')`; spaces stay. */
  function SanitizeTitleKeepSpaces(title: string): (r: string)
    ensures |r| == |title|
    ensures forall k :: 0 <= k < |title| ==>
      r[k] == (if IsPathBreaker(title[k]) then '_' else title[k])
    ensures forall k :: 0 <= k < |r| ==> !IsPathBreaker(r[k])
  {
    ReplaceChar(ReplaceChar(title, '/', '_'), '|', '_')
  }

  /** Sanitising an already sanitised title changes nothing. */
  lemma SanitizeTitleIdempotent(title: string)
    ensures SanitizeTitle(SanitizeTitle(title)) == SanitizeTitle(title)
  {
    var once := SanitizeTitle(title);
    var twice := SanitizeTitle(once);
    assert forall k :: 0 <= k < |once| ==> twice[k] == once[k];
  }

  /** The same for the older scraper. */
  lemma SanitizeTitleKeepSpacesIdempotent(title: string)
    ensures SanitizeTitleKeepSpaces(SanitizeTitleKeepSpaces(title)) == SanitizeTitleKeepSpaces(title)
  {
    var once := SanitizeTitleKeepSpaces(title);
    var twice := SanitizeTitleKeepSpaces(once);
    assert forall k :: 0 <= k < |once| ==> twice[k] == once[k];
  }

  /** The two scrapers agree exactly on titles without spaces, and the newer
      one maps a space to `_` where the older one keeps it. */
  lemma ScrapersDifferOnlyInSpaces(title: string)
    ensures |SanitizeTitle(title)| == |SanitizeTitleKeepSpaces(title)|
    ensures forall k :: 0 <= k < |title| ==>
      SanitizeTitle(title)[k] ==
        (if title[k] == ' ' then '_' else SanitizeTitleKeepSpaces(title)[k])
    ensures (forall k :: 0 <= k < |title| ==> title[k] != ' ') ==>
      SanitizeTitle(title) == SanitizeTitleKeepSpaces(title)
  {
    var a, b := SanitizeTitle(title), SanitizeTitleKeepSpaces(title);
    if forall k :: 0 <= k < |title| ==> title[k] != ' ' {
      assert forall k :: 0 <= k < |a| ==> a[k] == b[k];
    }
  }
}
