/** The task context the tracker derives from the browser location
    (lib/analytics.ts `extractUrlParams` and `getTaskType`): topic and
    treatment group from the path, the participant id from the `RID` query
    parameter or the remembered one. */
module Context {
  import opened Strings
  import opened Types

  /** What the tracker reads from `window.location`: the pathname and the
      `from` and `RID` query parameters (`None` when absent). */
  datatype Location = Location(pathname: string, fromParam: Option<string>, ridParam: Option<string>)

  datatype UrlParams = UrlParams(topic: string, treatmentGroup: string, participantId: string)

  /** JavaScript truthiness of a string that may be missing: present and
      non-empty. */
  predicate Truthy(v: Option<string>) {
    v.Some? && v.value != ""
  }

  /** `from || window.location.pathname` */
  function PathOf(loc: Location): string {
    if Truthy(loc.fromParam) then loc.fromParam.value else loc.pathname
  }

  /** `searchParams.get("RID") || localStorage.getItem("RID") || "0"` */
  function ParticipantOf(loc: Location, storedRid: Option<string>): (pid: string)
    ensures pid != ""
  {
    if Truthy(loc.ridParam) then loc.ridParam.value
    else if Truthy(storedRid) then storedRid.value
    else "0"
  }

  /** The three values `extractUrlParams` returns in the browser, given the
      remembered `RID`. */
  function ParamsOf(loc: Location, storedRid: Option<string>): UrlParams {
    var segments := Segments(PathOf(loc));
    var pid := ParticipantOf(loc, storedRid);
    if |segments| >= 3 then
      if |segments| >= 4 then
        // four-segment layout /topic/mode/variant/page
        UrlParams(segments[0], segments[1] + "_" + segments[2], pid)
      else
        // three-segment layout /topic/largeGroup/smallGroup
        UrlParams(segments[0], segments[1] + "_" + segments[2], pid)
    else UrlParams("", "", pid)
  }

  /** The remembered `RID` after `extractUrlParams`: overwritten with the
      participant id unless that is the sentinel "0". */
  function RidAfter(loc: Location, storedRid: Option<string>): (r: Option<string>)
    ensures ParticipantOf(loc, storedRid) != "0" ==> r == Some(ParticipantOf(loc, storedRid))
    ensures ParticipantOf(loc, storedRid) == "0" ==> r == storedRid
  {
    var pid := ParticipantOf(loc, storedRid);
    if pid != "0" then Some(pid) else storedRid
  }

  /** `getTaskType`: "product" for the four product topics, "info" for every
      other topic. */
  function TaskType(topic: string): (r: string)
    ensures r == "product" || r == "info"
    ensures r == "product" <==> topic in ["Laptop", "Phone", "Car-vehicle", "Cruise"]
  {
    if topic == "Laptop" || topic == "Phone" || topic == "Car-vehicle" || topic == "Cruise"
    then "product" else "info"
  }

  /** A path of fewer than three non-empty segments (the landing page, a
      bare topic, a topic and one group part) yields empty topic and group;
      the participant id still comes from the query or the remembered id. */
  lemma ShortPathParams(segs: seq<string>, rid: Option<string>, storedRid: Option<string>)
    requires |segs| < 3
    requires forall k :: 0 <= k < |segs| ==> segs[k] != "" && '/' !in segs[k]
    ensures var loc := Location("/" + Join(segs, "/"), None, rid);
      ParamsOf(loc, storedRid) == UrlParams("", "", ParticipantOf(loc, storedRid))
  {
    if |segs| == 0 {
      assert Segments("/" + Join(segs, "/")) == [] by {
        RootHasNoSegments();
      }
    } else {
      SegmentsOfJoined(segs);
    }
  }

  /** The root path has no segments. */
  lemma RootHasNoSegments()
    ensures Segments("/") == []
  {
    assert "/"[1..] == "";
    assert Split("/", '/') == ["", ""];
    assert ["", ""][1..] == [""];
    assert [""][1..] == [];
  }

  /** The four-segment study path `/topic/mode/variant/page` gives topic and
      `mode_variant`, exactly as its three-segment prefix does. */
  lemma StudyPathParams(topic: string, mode: string, variant: string, page: string, storedRid: Option<string>)
    requires forall s :: s in [topic, mode, variant, page] ==> s != "" && '/' !in s
    ensures var four := Location("/" + Join([topic, mode, variant, page], "/"), None, None);
      var three := Location("/" + Join([topic, mode, variant], "/"), None, None);
      && ParamsOf(four, storedRid) == ParamsOf(three, storedRid)
      && ParamsOf(four, storedRid).topic == topic
      && ParamsOf(four, storedRid).treatmentGroup == mode + "_" + variant
  {
    var four := [topic, mode, variant, page];
    var three := [topic, mode, variant];
    assert forall k :: 0 <= k < |four| ==> four[k] in [topic, mode, variant, page];
    assert forall k :: 0 <= k < |three| ==> three[k] in [topic, mode, variant, page];
    SegmentsOfJoined(four);
    SegmentsOfJoined(three);
  }

  /** A non-empty `from` parameter replaces the pathname entirely. */
  lemma FromOverridesPathname(loc: Location, other: string, storedRid: Option<string>)
    requires Truthy(loc.fromParam)
    ensures ParamsOf(loc, storedRid) == ParamsOf(loc.(pathname := other), storedRid)
  {
  }

  /** The participant id falls back from the query to the remembered id to
      "0"; once remembered, a later location without `RID` reuses it. */
  lemma ParticipantIsRemembered(first: Location, later: Location, storedRid: Option<string>)
    requires !Truthy(later.ridParam)
    requires ParticipantOf(first, storedRid) != "0"
    ensures ParticipantOf(later, RidAfter(first, storedRid)) == ParticipantOf(first, storedRid)
  {
  }

  /** Extracting twice from the same location changes nothing the second
      time: same values, same remembered id. */
  lemma ExtractTwice(loc: Location, storedRid: Option<string>)
    ensures ParamsOf(loc, RidAfter(loc, storedRid)) == ParamsOf(loc, storedRid)
    ensures RidAfter(loc, RidAfter(loc, storedRid)) == RidAfter(loc, storedRid)
  {
  }
}
