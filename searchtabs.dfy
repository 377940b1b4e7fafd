/** The tab bar of components/search-tabs.tsx: the base path read off the
    current pathname, the href of the "All" tab, and the fixed, indexed list
    of tabs whose index becomes the `tab_<n>` page id of a click. */
module SearchTabs {
  import opened Strings
  import opened Types
  import opened Classifier
  import opened SearchData
  import opened TrackedLink

  /** The characters `.` does not match in a JavaScript pattern. */
  predicate IsLineTerminator(ch: char) {
    ch == '\n' || ch == '\r' || ch == '\U{2028}' || ch == '\U{2029}'
  }

  /** What `(\/\d+)?\/?$` accepts: nothing, a slash, or a slash and digits,
      optionally followed by a slash. */
  predicate TailMatches(r: string) {
    r == "" || r == "/"
    || (|r| >= 2 && r[0] == '/' && AllDigits(r[1..]))
    || (|r| >= 3 && r[0] == '/' && r[|r| - 1] == '/' && AllDigits(r[1..|r| - 1]))
  }

  /** The lazy `(.*?)` of `/^(.*?)(\/\d+)?\/?$/`: the shortest cut, from `k`
      on, whose remainder the tail accepts; the capture cannot run past a line
      terminator, and no cut means the pattern fails. */
  function LazyCut(p: string, k: nat): (r: Option<nat>)
    requires k <= |p|
    ensures r.Some? ==> k <= r.value <= |p| && TailMatches(p[r.value..])
    ensures r.Some? ==> forall j :: k <= j < r.value ==> !TailMatches(p[j..])
    decreases |p| - k
  {
    if TailMatches(p[k..]) then Some(k)
    else if k < |p| && !IsLineTerminator(p[k]) then LazyCut(p, k + 1)
    else None
  }

  /** Without line terminators the pattern always matches. */
  lemma {:induction false} LazyCutFinds(p: string, k: nat)
    requires k <= |p|
    requires forall i :: 0 <= i < |p| ==> !IsLineTerminator(p[i])
    ensures LazyCut(p, k).Some?
    decreases |p| - k
  {
    if !TailMatches(p[k..]) {
      assert k < |p| by { assert p[|p|..] == ""; }
      LazyCutFinds(p, k + 1);
    }
  }

  /** `basePath`: a slash and the second `/`-piece of the capture when that
      piece is non-empty, else the empty string (also when the pattern
      fails). */
  function BasePath(pathname: string): string {
    match LazyCut(pathname, 0)
    case Some(k) =>
      var parts := Split(pathname[..k], '/');
      if |parts| >= 2 && parts[1] != "" then "/" + parts[1] else ""
    case None => ""
  }

  /** The text between the first two slashes is never part of the accepted
      tail when it holds a non-digit or is followed by more than one
      character. */
  lemma TopicNotInTail(t: string, tail: string, j: nat)
    requires t != "" && '/' !in t
    requires tail == "" || tail[0] == '/'
    requires !AllDigits(t) || |tail| >= 2
    requires j <= |t|
    ensures !TailMatches(("/" + t + tail)[j..])
  {
    var p := "/" + t + tail;
    var r := p[j..];
    if j == 0 {
      assert r == p;
      if |tail| >= 2 {
        assert r[|t| + 1] == '/';
        assert |t| + 1 < |r| - 1;
        assert !IsDigit(r[1..][|t|]);
        if |r| >= 3 && r[|r| - 1] == '/' {
          assert !IsDigit(r[1..|r| - 1][|t|]);
        }
      } else if tail == "" {
        assert r[1..] == t;
        var i :| 0 <= i < |t| && !IsDigit(t[i]);
        assert !IsDigit(r[1..][i]);
      } else {
        assert r[1..|r| - 1] == t;
        var i :| 0 <= i < |t| && !IsDigit(t[i]);
        assert !IsDigit(r[1..][i]);
        assert !IsDigit(r[1..|r| - 1][i]);
      }
    } else {
      assert r[0] == t[j - 1];
      assert t[j - 1] in t;
    }
  }

  /** On a path `/<t>` or `/<t>/...` the base path is `/<t>`, except that a
      numeric `t` with nothing or a lone slash after it is taken for a page
      number. */
  lemma BasePathOfTopic(t: string, tail: string)
    requires t != "" && '/' !in t
    requires tail == "" || tail[0] == '/'
    requires !AllDigits(t) || |tail| >= 2
    requires forall i :: 0 <= i < |"/" + t + tail| ==> !IsLineTerminator(("/" + t + tail)[i])
    ensures BasePath("/" + t + tail) == "/" + t
  {
    var p := "/" + t + tail;
    var x := CutAfterTopic(t, tail);
    SecondPiece(t, x);
  }

  /** The capture of a path `/<t><tail>` is `/<t>` followed by nothing or by
      text starting with a slash. */
  lemma CutAfterTopic(t: string, tail: string) returns (x: string)
    requires t != "" && '/' !in t
    requires tail == "" || tail[0] == '/'
    requires !AllDigits(t) || |tail| >= 2
    requires forall i :: 0 <= i < |"/" + t + tail| ==> !IsLineTerminator(("/" + t + tail)[i])
    ensures var p := "/" + t + tail;
      LazyCut(p, 0).Some? && p[..LazyCut(p, 0).value] == "/" + t + x
    ensures x == "" || x[0] == '/'
  {
    var p := "/" + t + tail;
    LazyCutFinds(p, 0);
    var k := LazyCut(p, 0).value;
    if k <= |t| {
      TopicNotInTail(t, tail, k);
    }
    assert k >= |t| + 1;
    x := p[|t| + 1..k];
    if x != "" {
      assert x[0] == p[|t| + 1] == tail[0];
    }
    assert p[..k] == "/" + t + x;
  }

  /** The second `/`-piece of `/<t><x>` is `t` when `x` is empty or starts
      with a slash. */
  lemma SecondPiece(t: string, x: string)
    requires '/' !in t
    requires x == "" || x[0] == '/'
    ensures var parts := Split("/" + t + x, '/'); |parts| >= 2 && parts[1] == t
  {
    assert "/" + t + x == "" + ['/'] + (t + x);
    SplitAfterFirst("", '/', t + x);
    if x == "" {
      assert t + x == t;
      SplitWithout(t, '/');
    } else {
      assert t + x == t + ['/'] + x[1..];
      SplitAfterFirst(t, '/', x[1..]);
    }
  }

  /** The paths with no topic piece: the empty path, the root, and a single
      number with or without a trailing slash. */
  lemma BasePathWithoutTopic(n: nat)
    ensures BasePath("") == "" && BasePath("/") == ""
    ensures BasePath("/" + NatToString(n)) == ""
    ensures BasePath("/" + NatToString(n) + "/") == ""
  {
    SplitWithout("", '/');
    var d := NatToString(n);
    assert ("/" + d)[1..] == d;
    assert ("/" + d)[..0] == "";
    assert ("/" + d + "/")[1..|"/" + d + "/"| - 1] == d;
    assert ("/" + d + "/")[..0] == "";
  }

  /** The piece-list `filter(Boolean)` keeps is non-empty when some piece
      is. */
  lemma {:induction false} NonEmptyFindsPiece(parts: seq<string>, i: nat)
    requires i < |parts| && parts[i] != ""
    ensures |NonEmpty(parts)| >= 1
    decreases |parts|
  {
    if parts[0] == "" {
      NonEmptyFindsPiece(parts[1..], i - 1);
    }
  }

  const AiOverviewTail: string := "/middle-ai-overview/have-ai-mode/1"

  /** The "All" tab's target: from an AI-mode page, the iframe page of its
      topic; from a page with at least four pieces, the same page number 1;
      otherwise the root. */
  function AllHref(pathname: string): string {
    var parts := Segments(pathname);
    if EndsWith(pathname, "/ai-mode") then
      if |parts| >= 1 then "/iframe/" + parts[0] + AiOverviewTail else "/"
    else if |parts| >= 4 then "/" + Join(parts[..|parts| - 1] + ["1"], "/")
    else "/"
  }

  /** The `allHref` computation of `SearchTabs`, overwriting the last piece
      in place. */
  method ComputeAllHref(pathname: string) returns (allHref: string)
    ensures allHref == AllHref(pathname)
  {
    allHref := "/";
    if EndsWith(pathname, "/ai-mode") {
      var pathParts := Segments(pathname);
      if |pathParts| >= 1 {
        var topic := pathParts[0];
        allHref := "/iframe/" + topic + AiOverviewTail;
      } else {
        allHref := "/";
      }
    } else {
      var parts := Segments(pathname);
      if |parts| >= 4 {
        ghost var before := parts;
        parts := parts[|parts| - 1 := "1"];
        assert parts == before[..|before| - 1] + ["1"];
        allHref := "/" + Join(parts, "/");
      }
    }
  }

  /** An AI-mode page always has a topic piece, so the "All" tab leads to the
      iframe page of its first piece. */
  lemma AllHrefFromAiMode(pathname: string)
    requires EndsWith(pathname, "/ai-mode")
    ensures |Segments(pathname)| >= 1
    ensures AllHref(pathname) == "/iframe/" + Segments(pathname)[0] + AiOverviewTail
  {
    var q := pathname[..|pathname| - 8];
    assert pathname == q + "/" + "ai-mode";
    LastPieceAfterSlash(q, "ai-mode");
    var parts := Split(pathname, '/');
    NonEmptyFindsPiece(parts, |parts| - 1);
  }

  /** Elsewhere, a page with at least four pieces keeps all its pieces but
      the last, which becomes "1", behind a leading slash; a shorter path
      leads to the root. */
  lemma AllHrefElsewhere(pathname: string)
    requires !EndsWith(pathname, "/ai-mode")
    ensures var parts := Segments(pathname);
      && (|parts| >= 4 ==>
            && AllHref(pathname)[0] == '/'
            && Segments(AllHref(pathname)) == parts[..|parts| - 1] + ["1"])
      && (|parts| < 4 ==> AllHref(pathname) == "/")
  {
    var parts := Segments(pathname);
    if |parts| >= 4 {
      var target := parts[..|parts| - 1] + ["1"];
      var href := "/" + Join(target, "/");
      assert AllHref(pathname) == href;
      LastPieceReplaced(parts);
      SegmentsOfJoined(target);
      assert href[0] == '/';
    }
  }

  /** Replacing the last of some non-empty, slash-free segments by "1"
      keeps them non-empty and slash-free. */
  lemma LastPieceReplaced(parts: seq<string>)
    requires |parts| >= 1
    requires forall k :: 0 <= k < |parts| ==> parts[k] != "" && '/' !in parts[k]
    ensures var target := parts[..|parts| - 1] + ["1"];
      forall k :: 0 <= k < |target| ==> target[k] != "" && '/' !in target[k]
  {
    var target := parts[..|parts| - 1] + ["1"];
    forall k | 0 <= k < |target| ensures target[k] != "" && '/' !in target[k] {
      if k < |parts| - 1 { assert target[k] == parts[k]; }
    }
  }

  /** The "All" tab of an AI-mode page and of a result page. */
  lemma AllHrefExamples()
    ensures AllHref("/Phone/ai-mode") == "/iframe/Phone" + AiOverviewTail
  {
    var parts := ["Phone", "ai-mode"];
    assert Join(parts[1..], "/") == "ai-mode";
    assert Join(parts, "/") == "Phone/ai-mode";
    var p := "/" + Join(parts, "/");
    assert p == "/Phone/ai-mode";
    SegmentsOfJoined(parts);
    assert p[|p| - 8..] == "/ai-mode";
    AllHrefFromAiMode(p);
    assert Segments(p)[0] == "Phone";
    assert AllHref(p) == "/iframe/" + "Phone" + AiOverviewTail;
    assert "/iframe/" + "Phone" == "/iframe/Phone";
  }

  datatype Tab = Tab(name: string, key: string, href: string)

  const ImagesHref: string := "/iframe?url=https%3A%2F%2Fwww.google.com%2Fsearch%3Ftbm%3Disch%26q%3Dexample"
  const VideosHref: string := "/iframe?url=https%3A%2F%2Fwww.google.com%2Fsearch%3Ftbm%3Dvid%26q%3Dexample"
  const ForumsHref: string := "/iframe?url=https%3A%2F%2Fwww.reddit.com%2Fsearch%3Fq%3Dexample"
  const MoreHref: string := "/iframe?url=https%3A%2F%2Fwww.google.com%2Fsearch%3Fq%3Dexample"

  /** The `tabs` list. */
  function Tabs(pathname: string): seq<Tab> {
    [ Tab("AI Mode", "ai-mode", BasePath(pathname) + "/ai-mode?from=" + pathname),
      Tab("All", "all", AllHref(pathname)),
      Tab("Images", "images", ImagesHref),
      Tab("Short videos", "videos", VideosHref),
      Tab("Forums", "forums", ForumsHref),
      Tab("More", "more", MoreHref) ]
  }

  /** `tabs.map((tab, index) => <TrackedLink …>)`: one link per tab, in
      order, reporting as "SearchTabs" with the tab's position as index. */
  function TabLinks(tabs: seq<Tab>): (links: seq<LinkProps>)
    ensures |links| == |tabs|
  {
    seq(|tabs|, i requires 0 <= i < |tabs| =>
      LinkProps(tabs[i].href, "SearchTabs", i, Text(tabs[i].name)))
  }

  lemma TabFamily()
    ensures PageFamily("SearchTabs") == "tab_"
  {
    assert !StartsWith("SearchTabs", "SearchResults_") by { assert "SearchTabs"[6] != "SearchResults_"[6]; }
    assert !StartsWith("SearchTabs", "SearchResults-Sitelinks_") by { assert |"SearchTabs"| < |"SearchResults-Sitelinks_"|; }
  }

  /** The tabs come in the fixed order AI Mode, All, Images, Short videos,
      Forums, More; the AI Mode tab leads to the base path's AI-mode page
      with the current path as `from`, and the All tab to `AllHref`. A click
      on the tab at position i reports that name, index i and page id
      `tab_<i+1>`. */
  lemma TabOrder(pathname: string)
    ensures var tabs := Tabs(pathname);
      var links := TabLinks(tabs);
      && [tabs[0].name, tabs[1].name, tabs[2].name, tabs[3].name, tabs[4].name, tabs[5].name]
         == ["AI Mode", "All", "Images", "Short videos", "Forums", "More"]
      && |tabs| == 6
      && tabs[0].href == BasePath(pathname) + "/ai-mode?from=" + pathname
      && tabs[1].href == AllHref(pathname)
      && forall i :: 0 <= i < |links| ==>
           && links[i].href == tabs[i].href
           && Handler(links[i]) == ClickCall("SearchTabs", i, tabs[i].name)
           && Classify("SearchTabs", links[i].linkIndex).pageId == "tab_" + NatToString(i + 1)
  {
    TabFamily();
  }
}
