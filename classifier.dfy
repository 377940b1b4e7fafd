/** How a tracked component name and link index become the analytics
    identifiers of a click (lib/analytics.ts `trackLinkClick` lines 190-244),
    and which page-click counter a search-result click feeds
    (`getPageNumber` and lines 264-275). */
module Classifier {
  import opened Strings
  import opened Types

  datatype Classification = Classification(pageId: string, fromOverview: bool, fromAiMode: bool)

  /** `componentName + "_" + linkIndex` */
  function PositionInSerp(name: string, index: int): string {
    name + "_" + IntToString(index)
  }

  /** The family prefix the `pageId` switch picks: the two numbered result
      families first, then the exact names, falling back to `other_`. */
  function PageFamily(name: string): (p: string)
    ensures KnownPrefix(p)
  {
    if StartsWith(name, "SearchResults_") then "organic_"
    else if StartsWith(name, "SearchResults-Sitelinks_") then "sitelink_"
    else if name == "SearchResults" then "organic_"
    else if name == "SearchResults-Sitelinks" then "sitelink_"
    else if name == "AiOverview" || name == "AiOverview-References" then "overview_ref_"
    else if name == "AiMode-Sidebar" || name == "AIMode" then "ai_mode_ref_"
    else if name == "SearchTabs" then "tab_"
    else if name == "PeopleAlsoSearch" then "related_"
    else if name == "Video" then "video_"
    else if name == "DiscussionsForums" || name == "DiscussionsAndForums" then "discussion_"
    else if name == "clickPagination_" then "pagination_"
    else "other_"
  }

  /** The fixed prefixes a page id can carry. */
  predicate KnownPrefix(p: string) {
    p in ["organic_", "sitelink_", "overview_ref_", "ai_mode_ref_", "tab_", "related_",
          "video_", "discussion_", "pagination_", "other_"]
  }

  /** `<family>_<index + 1>`: link numbers are 1-based. */
  function PageId(name: string, index: int): string {
    PageFamily(name) + IntToString(index + 1)
  }

  /** The overview names do not contain "AIMode", and the AI-mode names do
      not contain "AiOverview-References". */
  lemma ExactNamesExclusive()
    ensures !Contains("AiOverview", "AIMode") && !Contains("AiOverview-References", "AIMode")
    ensures !Contains("AiMode-Sidebar", "AiOverview-References") && !Contains("AIMode", "AiOverview-References")
  {
    NotContainsMissingChar("AiOverview", "AIMode", 1);
    NotContainsMissingChar("AiOverview-References", "AIMode", 1);
    NotContainsMissingChar("AiMode-Sidebar", "AiOverview-References", 2);
    NotContainsMissingChar("AIMode", "AiOverview-References", 2);
  }

  /** The classification of one click: the flag pre-check on the
      "AiOverview-References" and "AIMode" substrings, then the switch, whose
      overview and AI-mode cases also raise their flag. */
  function Classify(name: string, index: int): (c: Classification)
    ensures !(c.fromOverview && c.fromAiMode)
  {
    var overview := Contains(name, "AiOverview-References");
    var aiMode := !overview && Contains(name, "AIMode");
    ExactNamesExclusive();
    // these exact names never start with a numbered result prefix, so the
    // switch reaches their cases
    if name == "AiOverview" || name == "AiOverview-References" then
      Classification(PageId(name, index), true, aiMode)
    else if name == "AiMode-Sidebar" || name == "AIMode" then
      Classification(PageId(name, index), overview, true)
    else Classification(PageId(name, index), overview, aiMode)
  }

  /** Every page id is one of the fixed prefixes followed by the 1-based
      link number. */
  lemma PageIdShape(name: string, index: int)
    ensures exists p :: KnownPrefix(p) && Classify(name, index).pageId == p + IntToString(index + 1)
  {
    assert KnownPrefix(PageFamily(name));
  }

  /** `from_overview` is set exactly for overview references and for names
      containing "AiOverview-References"; `from_ai_mode` exactly for AI-mode
      references and for the other names containing "AIMode". */
  lemma ClassifyFlags(name: string, index: int)
    ensures var c := Classify(name, index);
      && (c.fromOverview <==> (Contains(name, "AiOverview-References") || name == "AiOverview"))
      && (c.fromAiMode <==> (!c.fromOverview && (Contains(name, "AIMode") || name == "AiMode-Sidebar")))
  {
    ExactNamesExclusive();
    if name == "AIMode" || name == "AiOverview-References" {
      StartsWithContains(name, name);
    }
  }

  /** `recordClick("SearchResults_2", 4, …)` yields `organic_5` and no
      flag. */
  lemma ClassifyOrganicExample()
    ensures Classify("SearchResults_2", 4) == Classification("organic_5", false, false)
  {
    NotContainsMissingChar("SearchResults_2", "AiOverview-References", 0);
    NotContainsMissingChar("SearchResults_2", "AIMode", 1);
    assert StartsWith("SearchResults_2", "SearchResults_");
    assert IntToString(5) == "5";
  }

  /** `recordClick("AiOverview-References", 0, …)` yields `overview_ref_1`
      from the overview. */
  lemma ClassifyOverviewExample()
    ensures Classify("AiOverview-References", 0) == Classification("overview_ref_1", true, false)
  {
    NotContainsMissingChar("AiOverview-References", "SearchResults_", 0);
    NotContainsMissingChar("AiOverview-References", "SearchResults-Sitelinks_", 0);
    NotContainsMissingChar("AiOverview-References", "AIMode", 1);
    assert IntToString(1) == "1";
  }

  /** The numbered families are told apart by their prefixes: a numbered
      sitelink name is not taken for an organic result. */
  lemma NumberedFamilies(n: nat)
    ensures PageFamily(ResultsPrefix + NatToString(n)) == "organic_"
    ensures PageFamily(SitelinksPrefix + NatToString(n)) == "sitelink_"
  {
    var a := ResultsPrefix + NatToString(n);
    assert a[..|ResultsPrefix|] == ResultsPrefix;
    var b := SitelinksPrefix + NatToString(n);
    assert b[..|SitelinksPrefix|] == SitelinksPrefix;
    assert !StartsWith(b, ResultsPrefix) by { assert b[13] != ResultsPrefix[13]; }
  }

  const ResultsPrefix: string := "SearchResults_"
  const SitelinksPrefix: string := "SearchResults-Sitelinks_"

  /** The regular expression `SearchResults(?:-Sitelinks)?_(\d+)` tried at
      position `i`: the captured digits, if it matches there. The two
      alternatives differ in the character after "SearchResults", so at most
      one of them applies. */
  function MatchAt(s: string, i: nat): (r: Option<string>)
    ensures r.Some? ==> r.value != "" && AllDigits(r.value)
  {
    if i > |s| then None
    else
      var t := s[i..];
      if StartsWith(t, SitelinksPrefix) && LeadingDigits(t[|SitelinksPrefix|..]) != "" then
        Some(LeadingDigits(t[|SitelinksPrefix|..]))
      else if StartsWith(t, ResultsPrefix) && LeadingDigits(t[|ResultsPrefix|..]) != "" then
        Some(LeadingDigits(t[|ResultsPrefix|..]))
      else None
  }

  /** The leftmost match at or after position `i`, as `String.match` finds
      it. */
  function FindFrom(s: string, i: nat): (r: Option<string>)
    ensures r.Some? ==> r.value != "" && AllDigits(r.value)
    decreases |s| + 1 - i
  {
    if i > |s| then None
    else if MatchAt(s, i).Some? then MatchAt(s, i)
    else FindFrom(s, i + 1)
  }

  /** `FindFrom` returns the match at the smallest position that has one,
      and nothing when no position does. */
  lemma {:induction false} FindFromLeftmost(s: string, i: nat)
    ensures FindFrom(s, i).None? ==> forall j: nat :: i <= j ==> MatchAt(s, j).None?
    ensures FindFrom(s, i).Some? ==>
      exists k: nat :: i <= k <= |s| && MatchAt(s, k) == FindFrom(s, i)
        && forall j: nat :: i <= j < k ==> MatchAt(s, j).None?
    decreases |s| + 1 - i
  {
    if i <= |s| && MatchAt(s, i).None? {
      FindFromLeftmost(s, i + 1);
      if FindFrom(s, i).Some? {
        var k: nat :| i + 1 <= k <= |s| && MatchAt(s, k) == FindFrom(s, i + 1)
          && forall j: nat :: i + 1 <= j < k ==> MatchAt(s, j).None?;
        assert forall j: nat :: i <= j < k ==> MatchAt(s, j).None?;
      }
    } else if i <= |s| {
      assert forall j: nat :: i <= j < i ==> MatchAt(s, j).None?;
    }
  }

  /** `getPageNumber`: the number after `SearchResults_` or
      `SearchResults-Sitelinks_`, or nothing. */
  function PageNumber(name: string): Option<nat> {
    match FindFrom(name, 0)
    case Some(digits) => Some(DigitsValue(digits))
    case None => None
  }

  /** A result prefix followed by digits matches at the start and captures
      the digits. */
  lemma ResultsMatch(d: string)
    requires d != "" && AllDigits(d)
    ensures FindFrom(ResultsPrefix + d, 0) == Some(d)
  {
    LeadingDigitsOf(d, "");
    assert d + "" == d;
    var a := ResultsPrefix + d;
    assert a[0..] == a;
    assert a[..|ResultsPrefix|] == ResultsPrefix && a[|ResultsPrefix|..] == d;
    ResultsAreNotSitelinks(a);
    assert MatchAt(a, 0) == Some(d);
  }

  /** The two prefixes differ in the character after "SearchResults". */
  lemma ResultsAreNotSitelinks(t: string)
    requires StartsWith(t, ResultsPrefix)
    ensures !StartsWith(t, SitelinksPrefix)
  {
    assert t[13] == t[..|ResultsPrefix|][13] == '_';
    if |SitelinksPrefix| <= |t| {
      assert t[..|SitelinksPrefix|][13] == t[13];
      assert SitelinksPrefix[13] == '-';
    }
  }

  /** A sitelink prefix followed by digits matches at the start and captures
      the digits. */
  lemma SitelinksMatch(d: string)
    requires d != "" && AllDigits(d)
    ensures FindFrom(SitelinksPrefix + d, 0) == Some(d)
  {
    LeadingDigitsOf(d, "");
    assert d + "" == d;
    var b := SitelinksPrefix + d;
    assert b[0..] == b;
    assert b[..|SitelinksPrefix|] == SitelinksPrefix && b[|SitelinksPrefix|..] == d;
    assert MatchAt(b, 0) == Some(d);
  }

  /** A numbered result name reads its number back. */
  lemma PageNumberOfResults(n: nat)
    ensures PageNumber(ResultsPrefix + NatToString(n)) == Some(n)
  {
    DigitsValueOfNatToString(n);
    ResultsMatch(NatToString(n));
  }

  /** A numbered sitelink name reads its number back. */
  lemma PageNumberOfSitelinks(n: nat)
    ensures PageNumber(SitelinksPrefix + NatToString(n)) == Some(n)
  {
    DigitsValueOfNatToString(n);
    SitelinksMatch(NatToString(n));
  }

  /** The plain result name carries no number. */
  lemma PlainNameHasNoNumber()
    ensures PageNumber("SearchResults") == None
  {
    forall j: nat ensures MatchAt("SearchResults", j).None? { }
    FindFromLeftmost("SearchResults", 0);
  }

  /** The page-click bucket a click feeds: none unless the name contains
      "SearchResults"; pages 1-3 to their own bucket; any other page number,
      or none, to bucket 4. */
  function Bucket(name: string): (b: Option<nat>)
    ensures b.Some? ==> 1 <= b.value <= 4
    ensures b.Some? <==> Contains(name, "SearchResults")
  {
    if Contains(name, "SearchResults") then
      match PageNumber(name)
      case Some(1) => Some(1)
      case Some(2) => Some(2)
      case Some(3) => Some(3)
      case _ => Some(4)
    else None
  }

  /** A numbered result name feeds bucket n for n in 1-3, bucket 4 beyond. */
  lemma BucketOfResults(n: nat)
    ensures Bucket(ResultsPrefix + NatToString(n)) == Some(if 1 <= n <= 3 then n else 4)
  {
    var a := ResultsPrefix + NatToString(n);
    PageNumberOfResults(n);
    assert a[..13] == "SearchResults";
    StartsWithContains(a, "SearchResults");
  }

  /** A numbered sitelink name feeds bucket n for n in 1-3, bucket 4 beyond. */
  lemma BucketOfSitelinks(n: nat)
    ensures Bucket(SitelinksPrefix + NatToString(n)) == Some(if 1 <= n <= 3 then n else 4)
  {
    var a := SitelinksPrefix + NatToString(n);
    PageNumberOfSitelinks(n);
    assert a[..13] == "SearchResults";
    StartsWithContains(a, "SearchResults");
  }

  /** The unnumbered "SearchResults" lands in bucket 4. */
  lemma BucketOfPlainResults()
    ensures Bucket("SearchResults") == Some(4)
  {
    PlainNameHasNoNumber();
    StartsWithContains("SearchResults", "SearchResults");
  }
}
