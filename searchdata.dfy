/** The pure helpers of lib/search-data.ts: how a page's result list is cut
    into layout segments, and how the topic and the page number are read off
    a pathname. */
module SearchData {
  import opened Strings
  import opened Types

  /** `array.slice(start, end)` for non-negative bounds: both clamped to the
      length, empty when they cross. */
  function Slice<T>(xs: seq<T>, start: nat, end: nat): (r: seq<T>)
    ensures |r| <= |xs| && (end >= start ==> |r| <= end - start)
    ensures start <= end <= |xs| ==> r == xs[start..end]
  {
    var e := if end <= |xs| then end else |xs|;
    if start >= e then [] else xs[start..e]
  }

  /** `array.slice(start)` */
  function SliceFrom<T>(xs: seq<T>, start: nat): (r: seq<T>)
    ensures start <= |xs| ==> r == xs[start..]
    ensures start > |xs| ==> r == []
  {
    Slice(xs, start, |xs|)
  }

  /** The layout segments of one result page. */
  datatype Segmented<T> = Segmented(
    beforePeopleAlsoAsk: seq<T>,
    beforeVideos: seq<T>,
    beforePeopleAlsoSearchFor: seq<T>,
    bottomResults: seq<T>,
    allResults: seq<T>)

  /** `processSearchData` */
  function ProcessSearchData<T>(results: seq<T>): Segmented<T> {
    Segmented(Slice(results, 0, 1), Slice(results, 1, 2), Slice(results, 2, 3),
              SliceFrom(results, 3), SliceFrom(results, 0))
  }

  /** The four positional segments, concatenated in order, give back the
      whole list; the first three hold at most one result each (the first,
      second and third), the bottom holds the rest, and `allResults` is the
      list itself. */
  lemma ProcessCovers<T>(results: seq<T>)
    ensures var g := ProcessSearchData(results);
      && g.beforePeopleAlsoAsk + g.beforeVideos + g.beforePeopleAlsoSearchFor + g.bottomResults == results
      && g.allResults == results
      && |g.beforePeopleAlsoAsk| <= 1 && |g.beforeVideos| <= 1 && |g.beforePeopleAlsoSearchFor| <= 1
      && (|results| >= 3 ==> g.bottomResults == results[3..])
      && (|results| <= 3 ==> g.bottomResults == [])
      && (forall k :: 0 <= k < 3 && k < |results| ==>
            [results[k]] == [g.beforePeopleAlsoAsk, g.beforeVideos, g.beforePeopleAlsoSearchFor][k])
  {
    var g := ProcessSearchData(results);
    if |results| >= 3 {
      assert results == results[0..1] + results[1..2] + results[2..3] + results[3..];
    } else if |results| == 2 {
      assert results == results[0..1] + results[1..2];
    }
  }

  /** `pathname.split("/").slice(1, 2).join("-")` */
  function TopicFromPathname(pathname: string): string {
    Join(Slice(Split(pathname, '/'), 1, 2), "-")
  }

  /** For a path written as its `/`-free pieces joined with `/`, the topic
      is the second piece (the text between the first and second `/`), or
      empty when there is no `/`. Every path has such a form (`JoinSplit`). */
  lemma TopicOfJoined(parts: seq<string>)
    requires |parts| >= 1 && forall k :: 0 <= k < |parts| ==> '/' !in parts[k]
    ensures TopicFromPathname(Join(parts, "/")) == if |parts| >= 2 then parts[1] else ""
  {
    SplitJoin(parts, '/');
    if |parts| >= 2 {
      assert Slice(parts, 1, 2) == [parts[1]];
    }
  }

  /** The study pages: `/topic` and `/topic/...` both give `topic`. */
  lemma TopicOfStudyPath(topic: string, rest: string)
    requires '/' !in topic
    ensures TopicFromPathname("/" + topic) == topic
    ensures TopicFromPathname("/" + topic + "/" + rest) == topic
  {
    SplitWithout(topic, '/');
    assert "/" + topic == "" + ['/'] + topic;
    SplitAfterFirst("", '/', topic);
    assert Slice(Split("/" + topic, '/'), 1, 2) == [topic];
    var p := "/" + topic + "/" + rest;
    assert p == "" + ['/'] + (topic + ['/'] + rest);
    SplitAfterFirst("", '/', topic + ['/'] + rest);
    SplitAfterFirst(topic, '/', rest);
    assert Slice(Split(p, '/'), 1, 2) == [topic];
  }

  /** The whitespace `parseInt` skips: tab, vertical tab, form feed, the
      byte-order mark, the line terminators (line feed, carriage return, line
      and paragraph separator) and every space separator of Unicode category
      Zs. */
  predicate IsSpace(ch: char) {
    || ch == '\t' || ch == '\U{000B}' || ch == '\U{000C}' || ch == '\U{FEFF}'
    || ch == '\n' || ch == '\r' || ch == '\U{2028}' || ch == '\U{2029}'
    || ch == ' ' || ch == '\U{00A0}' || ch == '\U{1680}' || '\U{2000}' <= ch <= '\U{200A}'
    || ch == '\U{202F}' || ch == '\U{205F}' || ch == '\U{3000}'
  }

  function TrimStart(s: string): (r: string)
    ensures |r| <= |s| && s[|s| - |r|..] == r
    ensures |r| > 0 ==> !IsSpace(r[0])
    ensures |s| > 0 && !IsSpace(s[0]) ==> r == s
  {
    if |s| > 0 && IsSpace(s[0]) then TrimStart(s[1..]) else s
  }

  /** `parseInt(s, 10)`: skip leading whitespace, take an optional sign and
      the digits that follow; no digits is `NaN` (`None`). */
  function ParseInt(s: string): (r: Option<int>)
    ensures r.None? <==> LeadingDigits(Unsigned(TrimStart(s))) == ""
  {
    var t := TrimStart(s);
    var digits := LeadingDigits(Unsigned(t));
    if digits == "" then None
    else
      var v: int := DigitsValue(digits);
      if |t| > 0 && t[0] == '-' then Some(-v) else Some(v)
  }

  /** The text after an optional leading sign. */
  function Unsigned(t: string): string {
    if |t| > 0 && (t[0] == '-' || t[0] == '+') then t[1..] else t
  }

  /** Decimal text parses back to its number, also when other text follows
      that does not start with a digit. */
  lemma ParseIntOfNat(n: nat, rest: string)
    requires |rest| > 0 ==> !IsDigit(rest[0])
    ensures ParseInt(NatToString(n) + rest) == Some(n)
  {
    var d := NatToString(n);
    var s := d + rest;
    assert IsDigit(d[0]);
    assert s[0] == d[0];
    assert TrimStart(s) == s;
    assert Unsigned(s) == s;
    LeadingDigitsOf(d, rest);
    DigitsValueOfNatToString(n);
  }

  /** The empty text is not a number. */
  lemma ParseIntEmpty()
    ensures ParseInt("") == None
  {
  }

  /** The text after the last `/` (the whole text when there is none). */
  function LastPiece(pathname: string): string {
    var segments := Split(pathname, '/');
    segments[|segments| - 1]
  }

  /** `getPageNumberFromPathname`: the number at the start of the text after
      the last `/`, 1 when there is none. */
  function PageNumberFromPathname(pathname: string): int {
    match ParseInt(LastPiece(pathname))
    case Some(n) => n
    case None => 1
  }

  /** Joining a further piece behind a separator. */
  lemma {:induction false} JoinAppend(parts: seq<string>, sep: string, x: string)
    requires |parts| >= 1
    ensures Join(parts + [x], sep) == Join(parts, sep) + sep + x
    decreases |parts|
  {
    if |parts| > 1 {
      JoinAppend(parts[1..], sep, x);
      assert (parts + [x])[1..] == parts[1..] + [x];
    }
  }

  /** The last `/`-piece of `s + "/" + x`, for `x` without `/`, is `x`. */
  lemma LastPieceAfterSlash(s: string, x: string)
    requires '/' !in x
    ensures LastPiece(s + "/" + x) == x
  {
    var parts := Split(s, '/');
    JoinSplit(s, '/');
    SplitPartsFree(s, '/');
    JoinAppend(parts, "/", x);
    SplitJoin(parts + [x], '/');
  }

  /** Decimal text holds no slash. */
  lemma DigitsHaveNoSlash(d: string)
    requires AllDigits(d)
    ensures '/' !in d
  {
    forall k | 0 <= k < |d| ensures d[k] != '/' { assert IsDigit(d[k]); }
  }

  /** Decimal text alone parses to its number. */
  lemma ParseIntOfDigits(d: string, n: nat)
    requires d == NatToString(n)
    ensures ParseInt(d) == Some(n)
  {
    ParseIntOfNat(n, "");
    assert d + "" == d;
  }

  /** A path ending in `/<n>` has page number n. */
  lemma PageNumberOfPagePath(s: string, n: nat)
    ensures PageNumberFromPathname(s + "/" + NatToString(n)) == n
  {
    var d := NatToString(n);
    DigitsHaveNoSlash(d);
    LastPieceAfterSlash(s, d);
    ParseIntOfDigits(d, n);
  }

  /** A path ending in `/` (nothing after the last slash) has page number 1. */
  lemma TrailingSlashIsPageOne(s: string)
    ensures PageNumberFromPathname(s + "/") == 1
  {
    LastPieceAfterSlash(s, "");
    assert s + "/" + "" == s + "/";
  }

  /** `hasDiscussions` */
  predicate HasDiscussions(topic: string) {
    topic in ["Car-vehicle", "Phone", "Taylor-swift"]
  }

  lemma DiscussionTopics(topic: string)
    ensures HasDiscussions(topic) <==> topic == "Car-vehicle" || topic == "Phone" || topic == "Taylor-swift"
  {
  }
}
