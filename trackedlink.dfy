/** The tracked link of components/tracked-link.tsx: which links open as a
    plain anchor in a new tab, what text a click reports, and the click
    handler both renderings share. */
module TrackedLink {
  import opened Strings
  import opened Types
  import opened Timestamp
  import opened Context
  import opened Classifier
  import opened Engine

  /** The `children` of a link, as far as the click handler looks at them. */
  datatype Child =
    | Text(value: string)            // a string
    | Element(inner: Option<Child>)  // one element; `inner` is its `props.children`
    | Other                          // null, a number, an array of children, ...

  const ComplexContent: string := "[Complex content]"

  /** The `linkText` chain of `handleClick`: the children when they are a
      string; else the `props.children` of an element child when that is a
      non-empty string (an empty one is falsy); else the placeholder. */
  function LinkText(children: Child): (text: string)
    ensures children.Text? ==> text == children.value
    ensures !children.Text? && text != ComplexContent ==>
              children.Element? && children.inner == Some(Text(text)) && text != ""
  {
    match children
    case Text(s) => s
    case Element(Some(Text(s))) => if s != "" then s else ComplexContent
    case _ => ComplexContent
  }

  /** An empty link text comes only from a child that is the empty string:
      an element whose text is empty reports the placeholder instead. */
  lemma EmptyTextOnlyFromEmptyString(children: Child)
    ensures LinkText(children) == "" <==> children == Text("")
  {
  }

  /** An element wrapping a string reports that string, unless it is empty;
      anything else that is not a string reports the placeholder. */
  lemma LinkTextExamples()
    ensures LinkText(Element(Some(Text("Phone")))) == "Phone"
    ensures LinkText(Element(Some(Text("")))) == ComplexContent
    ensures LinkText(Element(Some(Element(Some(Text("Phone")))))) == ComplexContent
    ensures LinkText(Element(None)) == ComplexContent && LinkText(Other) == ComplexContent
  {
  }

  /** `isStaticHtml` */
  predicate IsStaticHtml(href: string) {
    Contains(href, ".html") || Contains(href, "/CmuWebPageshmtl/")
    || Contains(href, "/AI-overviewHtml/") || Contains(href, "/AI-modeHtml/")
    || StartsWith(href, "http://") || StartsWith(href, "https://")
  }

  /** A site-relative href is static exactly when it names one of the
      static page folders or an `.html` file; the scheme tests never hold
      for it. */
  lemma RelativeStaticByName(href: string)
    requires |href| > 0 && href[0] == '/'
    ensures IsStaticHtml(href) <==>
      Contains(href, ".html") || Contains(href, "/CmuWebPageshmtl/")
      || Contains(href, "/AI-overviewHtml/") || Contains(href, "/AI-modeHtml/")
  {
    assert !StartsWith(href, "http://") by { assert "http://"[0] == 'h'; }
    assert !StartsWith(href, "https://") by { assert "https://"[0] == 'h'; }
  }

  /** Every absolute http(s) link is static, whatever it points at. */
  lemma ExternalIsStatic(rest: string)
    ensures IsStaticHtml("http://" + rest) && IsStaticHtml("https://" + rest)
  {
    assert StartsWith("http://" + rest, "http://");
    assert StartsWith("https://" + rest, "https://");
  }

  /** A site-relative href without a dot and without the capitals that
      open the static folder names is routed. */
  lemma RoutedWithoutMarkers(href: string)
    requires |href| > 0 && href[0] == '/'
    requires '.' !in href && 'C' !in href && 'A' !in href
    ensures !IsStaticHtml(href)
  {
    NotContainsMissingChar(href, ".html", 0);
    NotContainsMissingChar(href, "/CmuWebPageshmtl/", 1);
    NotContainsMissingChar(href, "/AI-overviewHtml/", 1);
    NotContainsMissingChar(href, "/AI-modeHtml/", 1);
    RelativeStaticByName(href);
  }

  datatype LinkProps = LinkProps(href: string, componentName: string, linkIndex: int, children: Child)

  /** The arguments the click handler passes to `trackLinkClick` (the
      extra `href` argument is dropped by the three-parameter function). */
  datatype ClickCall = ClickCall(componentName: string, linkIndex: int, linkText: string)

  /** What the component renders: a plain anchor opening a new tab, or a
      routed link; both carry `href` and the click handler. */
  datatype Rendering =
    | Anchor(href: string, onClick: ClickCall, newTab: bool)
    | Routed(href: string, onClick: ClickCall)

  function Handler(p: LinkProps): ClickCall {
    ClickCall(p.componentName, p.linkIndex, LinkText(p.children))
  }

  /** `TrackedLink` */
  function Render(p: LinkProps): Rendering {
    if IsStaticHtml(p.href) then Anchor(p.href, Handler(p), true)
    else Routed(p.href, Handler(p))
  }

  /** Both renderings keep the href and attach the same handler, which
      forwards the component name and link index unchanged; the anchor,
      opening in a new tab, is chosen exactly for static links. */
  lemma SameHandlerEverywhere(p: LinkProps)
    ensures var r := Render(p);
      && r.href == p.href
      && r.onClick.componentName == p.componentName && r.onClick.linkIndex == p.linkIndex
      && r.onClick.linkText == LinkText(p.children)
      && (r.Anchor? <==> IsStaticHtml(p.href))
      && (r.Anchor? ==> r.newTab)
  {
  }

  /** A click on a rendered link: the handler's call into the tracker. */
  function OnClick(st: Store, loc: Location, p: LinkProps, now: DateTime, nowMs: int): (Store, string) {
    var call := Render(p).onClick;
    Engine.TrackLinkClick(st, loc, call.componentName, call.linkIndex, call.linkText, now, nowMs)
  }

  /** The marker a click leaves behind describes this link: its position is
      the component name and index, its page id is their classification and
      its title is the link text; no dwell time is known yet. */
  lemma ClickDescribesLink(st: Store, loc: Location, p: LinkProps, now: DateTime, nowMs: int)
    ensures var r := OnClick(st, loc, p, now, nowMs);
      && r.0.pendingClick.Some?
      && r.0.pendingClick.value.positionInSerp == PositionInSerp(p.componentName, p.linkIndex)
      && r.0.pendingClick.value.pageId == Classify(p.componentName, p.linkIndex).pageId
      && r.0.pendingClick.value.pageTitle == LinkText(p.children)
      && r.0.pendingClick.value.dwellTenths == None
  {
    var c := GetCurrentTaskSession(st, loc, now);
    var text := LinkText(p.children);
    assert Render(p).onClick == ClickCall(p.componentName, p.linkIndex, text);
    LinkClickIsLookupThenRecord(st, loc, p.componentName, p.linkIndex, text, now, nowMs);
    LinkClickWrites(c.0, c.1, p.componentName, p.linkIndex, text, now, nowMs);
  }
}
