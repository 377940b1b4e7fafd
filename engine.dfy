/** The client tracking engine of lib/analytics.ts as a state machine over
    the browser's local key/value store. Each exported operation is one step
    function from a `Store` (and the location and clock readings it consults)
    to the next `Store`; every session handed to `saveSessionToDatabase` is
    appended to the `outbox`, in call order. */
module Engine {
  import opened Types
  import opened Timestamp
  import opened Context
  import opened Classifier
  import opened Sessions

  /** The stored keys, the module-level latch and the outbox. */
  datatype Store = Store(
    session: Option<TaskSession>,     // current_task_session
    pendingClick: Option<ClickEvent>, // current_click_event
    clickStart: Option<int>,          // click_start_time, in milliseconds
    clickId: Option<string>,          // current_click_id
    rid: Option<string>,              // RID
    tracking: bool,                   // isTracking
    outbox: seq<TaskSession>)         // sessions sent to the server, oldest first

  /** `extractUrlParams`: the values it returns and the store with `RID`
      remembered. */
  function ExtractUrlParams(st: Store, loc: Location): (Store, UrlParams) {
    (st.(rid := RidAfter(loc, st.rid)), ParamsOf(loc, st.rid))
  }

  /** `endTaskSession`: stamp, send and remove the stored session, if any. */
  function EndTaskSession(st: Store, now: DateTime): Store {
    match st.session
    case None => st
    case Some(s) => st.(session := None, outbox := st.outbox + [Ended(s, Format(now))])
  }

  /** `createNewSession`: build a session from the current parameters, store
      it and send it. */
  function CreateNewSession(st: Store, loc: Location, now: DateTime): (Store, TaskSession) {
    var (st1, p) := ExtractUrlParams(st, loc);
    var s := NewSession(p, Format(now));
    (st1.(session := Some(s), outbox := st1.outbox + [s]), s)
  }

  /** `getCurrentTaskSession`: the stored session while it still matches the
      location, otherwise end it and start a new one. */
  function GetCurrentTaskSession(st: Store, loc: Location, now: DateTime): (Store, TaskSession) {
    var (st1, p) := ExtractUrlParams(st, loc);
    match st1.session
    case Some(s) =>
      if Matches(s, p) then (st1, s)
      else CreateNewSession(EndTaskSession(st1, now), loc, now)
    case None => CreateNewSession(st1, loc, now)
  }

  /** The event `trackLinkClick` builds for the `index`-th link of `name`. */
  function NewClick(s: TaskSession, name: string, index: int, text: string, now: DateTime): ClickEvent {
    var c := Classify(name, index);
    ClickEvent(s.taskId, NextClickOrder(s), text, c.pageId, PositionInSerp(name, index),
               Format(now), None, c.fromOverview, c.fromAiMode)
  }

  /** What `trackLinkClick` does once it holds the current session `s`:
      stash the event as the pending marker, store the session with its
      counter bumped (but without the event), send the session with the
      event, then store the click id and start time. */
  function RecordClick(st: Store, s: TaskSession, name: string, index: int, text: string,
                       now: DateTime, nowMs: int): (Store, string)
  {
    var e := NewClick(s, name, index, text, now);
    var local := BumpCounter(s, Bucket(name));
    var id := ClickId(local, e.clickOrder);
    (st.(pendingClick := Some(e), session := Some(local),
         outbox := st.outbox + [local.(clickSequence := local.clickSequence + [e])],
         clickId := Some(id), clickStart := Some(nowMs)), id)
  }

  /** `trackLinkClick` */
  function TrackLinkClick(st: Store, loc: Location, name: string, index: int, text: string,
                          now: DateTime, nowMs: int): (Store, string)
  {
    var r := GetCurrentTaskSession(st, loc, now);
    RecordClick(r.0, r.1, name, index, text, now, nowMs)
  }

  /** The session with one more show-more interaction, carrying the next
      order. */
  function AddShowMore(s: TaskSession, name: string, now: DateTime): TaskSession {
    s.(showMoreInteractions := s.showMoreInteractions
         + [Interaction(s.taskId, NextClickOrder(s), name, Format(now))])
  }

  /** The session with one more show-all interaction, carrying the next
      order. */
  function AddShowAll(s: TaskSession, name: string, now: DateTime): TaskSession {
    s.(showAllInteractions := s.showAllInteractions
         + [Interaction(s.taskId, NextClickOrder(s), name, Format(now))])
  }

  /** Store a changed session and send it. */
  function Save(st: Store, s: TaskSession): Store {
    st.(session := Some(s), outbox := st.outbox + [s])
  }

  /** `trackShowMoreClick` */
  function TrackShowMoreClick(st: Store, loc: Location, name: string, now: DateTime): Store {
    var r := GetCurrentTaskSession(st, loc, now);
    Save(r.0, AddShowMore(r.1, name, now))
  }

  /** `trackShowAllClick` */
  function TrackShowAllClick(st: Store, loc: Location, name: string, now: DateTime): Store {
    var r := GetCurrentTaskSession(st, loc, now);
    Save(r.0, AddShowAll(r.1, name, now))
  }

  /** `Math.round((ms / 1000) * 10) / 10` seconds, in tenths: the nearest
      tenth, halves rounded up. */
  function DwellTenths(ms: int): (r: int)
    ensures 100 * r - 50 <= ms < 100 * r + 50
  {
    (ms + 50) / 100
  }

  lemma DwellExamples()
    ensures DwellTenths(2350) == 24 && DwellTenths(2349) == 23 && DwellTenths(49) == 0
  {
  }

  /** Some stored click has the same `click_time` and `page_id` as `e`. */
  predicate HasSameClick(cs: seq<ClickEvent>, e: ClickEvent) {
    exists k | 0 <= k < |cs| :: cs[k].clickTime == e.clickTime && cs[k].pageId == e.pageId
  }

  /** `trackReturnFromLink`. The latch is taken after the two early returns
      and released on every later exit, so it is free again afterwards. */
  function TrackReturnFromLink(st: Store, loc: Location, now: DateTime, nowMs: int): Store {
    if st.tracking || st.pendingClick.None? then st
    else
      var cleared := st.(pendingClick := None, clickStart := None);
      match st.clickStart
      case None => cleared
      case Some(start) =>
        var e := st.pendingClick.value.(dwellTenths := Some(DwellTenths(nowMs - start)));
        CompleteClick(GetCurrentTaskSession(cleared, loc, now), e)
  }

  /** The end of `trackReturnFromLink`, given the store and session the
      lookup left: append the completed click unless one with the same
      `click_time` and `page_id` is already there. */
  function CompleteClick(r: (Store, TaskSession), e: ClickEvent): Store {
    if HasSameClick(r.1.clickSequence, e) then r.0
    else Save(r.0, r.1.(clickSequence := r.1.clickSequence + [e]))
  }

  /** `initializeSession` */
  function InitializeSession(st: Store, loc: Location, now: DateTime): Store {
    GetCurrentTaskSession(st, loc, now).0
  }

  // ---------------------------------------------------------------------
  // Sessions: reuse and replacement

  /** A stored session whose group, topic and task type still match is
      returned unchanged and nothing is sent, even if the participant id
      differs; only the remembered `RID` may change. */
  lemma CurrentSessionReused(st: Store, loc: Location, now: DateTime)
    requires st.session.Some? && Matches(st.session.value, ParamsOf(loc, st.rid))
    ensures GetCurrentTaskSession(st, loc, now) == (st.(rid := RidAfter(loc, st.rid)), st.session.value)
  {
  }

  /** A stored session that no longer matches is stamped with the end time
      and sent, then a fresh session for the current parameters is stored and
      sent; the marker, start time, click id and latch are untouched. */
  lemma CurrentSessionReplaced(st: Store, loc: Location, now: DateTime)
    requires st.session.Some? && !Matches(st.session.value, ParamsOf(loc, st.rid))
    ensures var (st1, s) := GetCurrentTaskSession(st, loc, now);
      && s == NewSession(ParamsOf(loc, st.rid), Format(now))
      && st1 == st.(rid := RidAfter(loc, st.rid), session := Some(s),
                    outbox := st.outbox + [Ended(st.session.value, Format(now)), s])
  {
    ExtractTwice(loc, st.rid);
  }

  /** Without a stored session a fresh one is stored and sent; nothing else
      changes but the remembered `RID`. */
  lemma CurrentSessionCreated(st: Store, loc: Location, now: DateTime)
    requires st.session.None?
    ensures var (st1, s) := GetCurrentTaskSession(st, loc, now);
      && s == NewSession(ParamsOf(loc, st.rid), Format(now))
      && st1 == st.(rid := RidAfter(loc, st.rid), session := Some(s), outbox := st.outbox + [s])
  {
    ExtractTwice(loc, st.rid);
  }

  /** Whatever the store holds, `getCurrentTaskSession` leaves a stored
      session that matches the location and returns it; it never touches
      the marker, start time, click id or latch, and only appends to the
      outbox. */
  lemma CurrentSessionStored(st: Store, loc: Location, now: DateTime)
    ensures var (st1, s) := GetCurrentTaskSession(st, loc, now);
      && st1.session == Some(s) && Matches(s, ParamsOf(loc, st.rid))
      && st1.rid == RidAfter(loc, st.rid)
      && st1.pendingClick == st.pendingClick && st1.clickStart == st.clickStart
      && st1.clickId == st.clickId && st1.tracking == st.tracking
      && st1.outbox[..|st.outbox|] == st.outbox
  {
    var p := ParamsOf(loc, st.rid);
    var r := GetCurrentTaskSession(st, loc, now);
    if st.session.Some? && Matches(st.session.value, p) {
      CurrentSessionReused(st, loc, now);
    } else {
      NewSessionMatches(p, p, Format(now));
      if st.session.Some? {
        CurrentSessionReplaced(st, loc, now);
        assert (st.outbox + [Ended(st.session.value, Format(now)), r.1])[..|st.outbox|] == st.outbox;
      } else {
        CurrentSessionCreated(st, loc, now);
        assert (st.outbox + [r.1])[..|st.outbox|] == st.outbox;
      }
    }
  }

  /** The session lookup neither reads nor writes the latch. */
  lemma CurrentSessionIgnoresLatch(st: Store, loc: Location, now: DateTime, held: bool)
    ensures var r := GetCurrentTaskSession(st, loc, now);
      GetCurrentTaskSession(st.(tracking := held), loc, now) == (r.0.(tracking := held), r.1)
  {
  }

  /** `endTaskSession` sends the stored session with its end time and
      removes it; without one it does nothing. */
  lemma EndSends(st: Store, now: DateTime)
    ensures var st1 := EndTaskSession(st, now);
      && st1.session == None
      && (st.session.None? ==> st1 == st)
      && (st.session.Some? ==> st1.outbox == st.outbox + [st.session.value.(taskEndTime := Some(Format(now)))])
  {
  }

  // ---------------------------------------------------------------------
  // Link clicks

  /** Once the current session `s` is at hand, `trackLinkClick` stores the
      marker without a dwell time and with the next order, stores the session
      with the bumped counter but without the click, sends that session with
      the click appended, starts the timer and returns
      `participant_topic_treatment_order`. */
  lemma LinkClickWrites(st: Store, s: TaskSession, name: string, index: int, text: string,
                        now: DateTime, nowMs: int)
    ensures var r := RecordClick(st, s, name, index, text, now, nowMs);
      var e := r.0.pendingClick.value;
      && r.0.pendingClick.Some?
      && e.dwellTenths == None && e.clickOrder == NextClickOrder(s) && e.taskId == s.taskId
      && e.clickTime == Format(now)
      && e.pageId == Classify(name, index).pageId && e.positionInSerp == PositionInSerp(name, index)
      && r.0.session == Some(BumpCounter(s, Bucket(name)))
      && r.0.session.value.clickSequence == s.clickSequence
      && r.0.outbox == st.outbox + [r.0.session.value.(clickSequence := s.clickSequence + [e])]
      && r.0.clickStart == Some(nowMs) && r.0.clickId == Some(r.1)
      && r.1 == s.participantId + "_" + s.taskTopic + "_" + s.treatmentGroup + "_"
                + Strings.NatToString(e.clickOrder)
      && r.0.rid == st.rid && r.0.tracking == st.tracking
  {
    var e := NewClick(s, name, index, text, now);
    BumpKeepsRest(s, Bucket(name));
    assert e.clickOrder == NextClickOrder(s);
  }

  /** Two link clicks with no return in between: the stored copy still lacks
      the first click, so the second click gets the same order, and both
      sent copies carry a click with that order. */
  lemma SecondClickReusesOrder(st: Store, s: TaskSession, name1: string, index1: int, text1: string,
                               now1: DateTime, ms1: int, name2: string, index2: int, text2: string,
                               now2: DateTime, ms2: int)
    ensures var r1 := RecordClick(st, s, name1, index1, text1, now1, ms1);
      var r2 := RecordClick(r1.0, r1.0.session.value, name2, index2, text2, now2, ms2);
      && r2.0.pendingClick.value.clickOrder == r1.0.pendingClick.value.clickOrder
      && |r2.0.outbox| == |st.outbox| + 2
      && var sent1, sent2 := r2.0.outbox[|st.outbox|].clickSequence, r2.0.outbox[|st.outbox| + 1].clickSequence;
         && |sent1| > 0 && |sent2| > 0
         && sent1[|sent1| - 1] == r1.0.pendingClick.value
         && sent2[|sent2| - 1] == r2.0.pendingClick.value
  {
    var r1 := RecordClick(st, s, name1, index1, text1, now1, ms1);
    LinkClickWrites(st, s, name1, index1, text1, now1, ms1);
    LinkClickWrites(r1.0, r1.0.session.value, name2, index2, text2, now2, ms2);
    BumpKeepsRest(s, Bucket(name1));
  }

  /** `trackLinkClick` is the session lookup followed by the writes above. */
  lemma LinkClickIsLookupThenRecord(st: Store, loc: Location, name: string, index: int, text: string,
                                    now: DateTime, nowMs: int)
    ensures var r := GetCurrentTaskSession(st, loc, now);
      && TrackLinkClick(st, loc, name, index, text, now, nowMs) == RecordClick(r.0, r.1, name, index, text, now, nowMs)
      && r.0.session == Some(r.1) && Matches(r.1, ParamsOf(loc, st.rid))
  {
    CurrentSessionStored(st, loc, now);
  }

  /** Bumping a counter changes no order; a well-ordered session stays well
      ordered when it takes a click carrying its next order. */
  lemma BumpThenClickOrdered(s: TaskSession, b: Option<nat>, e: ClickEvent)
    requires WellOrdered(s) && e.clickOrder == NextClickOrder(s)
    ensures var local := BumpCounter(s, b);
      && WellOrdered(local) && NextClickOrder(local) == e.clickOrder
      && WellOrdered(local.(clickSequence := local.clickSequence + [e]))
  {
    var local := BumpCounter(s, b);
    assert AllOrders(local) == AllOrders(s);
    AppendClickWellOrdered(local, e);
  }

  /** The session `trackLinkClick` sends is well ordered when the current
      one was, and the stored copy (which lacks the click) keeps the click's
      order as its next order. */
  lemma RecordClickOrdered(st: Store, s: TaskSession, name: string, index: int, text: string,
                           now: DateTime, nowMs: int)
    requires WellOrdered(s)
    ensures var r := RecordClick(st, s, name, index, text, now, nowMs);
      && WellOrdered(r.0.outbox[|r.0.outbox| - 1])
      && WellOrdered(r.0.session.value)
      && NextClickOrder(r.0.session.value) == r.0.pendingClick.value.clickOrder
  {
    LinkClickWrites(st, s, name, index, text, now, nowMs);
    var r := RecordClick(st, s, name, index, text, now, nowMs);
    BumpThenClickOrdered(s, Bucket(name), r.0.pendingClick.value);
  }

  /** `getCurrentTaskSession` returns a well-ordered session when the stored
      one was well ordered. */
  lemma CurrentSessionWellOrdered(st: Store, loc: Location, now: DateTime)
    requires st.session.Some? ==> WellOrdered(st.session.value)
    ensures WellOrdered(GetCurrentTaskSession(st, loc, now).1)
  {
    NewSessionWellOrdered(ParamsOf(loc, st.rid), Format(now));
    NewSessionWellOrdered(ParamsOf(loc, RidAfter(loc, st.rid)), Format(now));
  }

  // ---------------------------------------------------------------------
  // Show more / show all

  /** Each expansion appends exactly one interaction carrying the next order
      to its own sequence and leaves the other two sequences, the counters and
      every other field as they were. */
  lemma AddShowMoreAppends(s: TaskSession, name: string, now: DateTime)
    ensures var s1 := AddShowMore(s, name, now);
      var x := s1.showMoreInteractions[|s.showMoreInteractions|];
      && |s1.showMoreInteractions| == |s.showMoreInteractions| + 1
      && s1.showMoreInteractions[..|s.showMoreInteractions|] == s.showMoreInteractions
      && x.clickOrder == NextClickOrder(s) && x.componentName == name && x.taskId == s.taskId
      && x.clickTime == Format(now)
      && s1.(showMoreInteractions := s.showMoreInteractions) == s
  {
  }

  lemma AddShowAllAppends(s: TaskSession, name: string, now: DateTime)
    ensures var s1 := AddShowAll(s, name, now);
      var x := s1.showAllInteractions[|s.showAllInteractions|];
      && |s1.showAllInteractions| == |s.showAllInteractions| + 1
      && s1.showAllInteractions[..|s.showAllInteractions|] == s.showAllInteractions
      && x.clickOrder == NextClickOrder(s) && x.componentName == name && x.taskId == s.taskId
      && x.clickTime == Format(now)
      && s1.(showAllInteractions := s.showAllInteractions) == s
  {
  }

  /** The expansion's session is stored and sent; the marker and start time
      are untouched. */
  lemma ShowMoreStoresAndSends(st: Store, loc: Location, name: string, now: DateTime)
    ensures var r := GetCurrentTaskSession(st, loc, now);
      var st2 := TrackShowMoreClick(st, loc, name, now);
      && st2.session == Some(AddShowMore(r.1, name, now))
      && st2.outbox == r.0.outbox + [AddShowMore(r.1, name, now)]
      && st2.pendingClick == st.pendingClick && st2.clickStart == st.clickStart
  {
    CurrentSessionStored(st, loc, now);
  }

  lemma ShowAllStoresAndSends(st: Store, loc: Location, name: string, now: DateTime)
    ensures var r := GetCurrentTaskSession(st, loc, now);
      var st2 := TrackShowAllClick(st, loc, name, now);
      && st2.session == Some(AddShowAll(r.1, name, now))
      && st2.outbox == r.0.outbox + [AddShowAll(r.1, name, now)]
      && st2.pendingClick == st.pendingClick && st2.clickStart == st.clickStart
  {
    CurrentSessionStored(st, loc, now);
  }

  // ---------------------------------------------------------------------
  // Returning from a link

  /** With the latch held or no marker stored, nothing changes. */
  lemma ReturnWithoutMarker(st: Store, loc: Location, now: DateTime, nowMs: int)
    requires st.tracking || st.pendingClick.None?
    ensures TrackReturnFromLink(st, loc, now, nowMs) == st
  {
  }

  /** With a marker, both the marker and the start time are removed before
      anything else is checked; without a start time that is all. The latch
      is free afterwards and the marker is gone on every path. */
  lemma ReturnClearsMarker(st: Store, loc: Location, now: DateTime, nowMs: int)
    requires !st.tracking && st.pendingClick.Some?
    ensures var st1 := TrackReturnFromLink(st, loc, now, nowMs);
      && st1.pendingClick == None && st1.clickStart == None && !st1.tracking
      && st1.clickId == st.clickId
      && (st.clickStart.None? ==> st1 == st.(pendingClick := None, clickStart := None))
  {
    var cleared := st.(pendingClick := None, clickStart := None);
    CurrentSessionStored(cleared, loc, now);
  }

  /** With a marker and a start time, the click is appended with its dwell
      time to the current session, stored and sent, unless a click with the
      same `click_time` and `page_id` is already there, in which case only
      the session lookup's effects remain. */
  lemma ReturnRecordsDwell(st: Store, loc: Location, now: DateTime, nowMs: int)
    requires !st.tracking && st.pendingClick.Some? && st.clickStart.Some?
    ensures var r := GetCurrentTaskSession(st.(pendingClick := None, clickStart := None), loc, now);
      var e := st.pendingClick.value.(dwellTenths := Some(DwellTenths(nowMs - st.clickStart.value)));
      var st2 := TrackReturnFromLink(st, loc, now, nowMs);
      && (HasSameClick(r.1.clickSequence, e) ==> st2 == r.0)
      && (!HasSameClick(r.1.clickSequence, e) ==>
            st2 == r.0.(session := Some(r.1.(clickSequence := r.1.clickSequence + [e])),
                        outbox := r.0.outbox + [r.1.(clickSequence := r.1.clickSequence + [e])]))
  {
    var cleared := st.(pendingClick := None, clickStart := None);
    var e := st.pendingClick.value.(dwellTenths := Some(DwellTenths(nowMs - st.clickStart.value)));
    var r := GetCurrentTaskSession(cleared, loc, now);
    assert TrackReturnFromLink(st, loc, now, nowMs) == CompleteClick(r, e);
  }

  /** Two return signals in a row: the second finds the marker gone (or the
      latch still held) and changes nothing, so a pending click is completed
      at most once. */
  lemma ReturnTwice(st: Store, loc: Location, now: DateTime, nowMs: int, later: DateTime, laterMs: int)
    ensures var st1 := TrackReturnFromLink(st, loc, now, nowMs);
      TrackReturnFromLink(st1, loc, later, laterMs) == st1
  {
    if !st.tracking && st.pendingClick.Some? {
      ReturnClearsMarker(st, loc, now, nowMs);
    }
  }

  // ---------------------------------------------------------------------
  // The ordering invariant

  /** The stored session is well ordered, and a pending click has a positive
      order no smaller than the next order of the stored session (it is
      not in the stored session yet). The invariant is about the stored
      copy only: the outbox can carry the same `click_order` twice, since a
      second link click before the first one's return takes the same order
      again (`SecondClickReusesOrder`). */
  ghost predicate Consistent(st: Store) {
    && (st.session.Some? ==> WellOrdered(st.session.value))
    && (st.pendingClick.Some? ==> st.pendingClick.value.clickOrder >= 1)
    && (st.pendingClick.Some? && st.session.Some? ==>
          st.pendingClick.value.clickOrder >= NextClickOrder(st.session.value))
  }

  lemma CurrentSessionConsistent(st: Store, loc: Location, now: DateTime)
    requires Consistent(st)
    ensures Consistent(GetCurrentTaskSession(st, loc, now).0)
  {
    CurrentSessionStored(st, loc, now);
    CurrentSessionWellOrdered(st, loc, now);
    if st.session.None? || !Matches(st.session.value, ParamsOf(loc, st.rid)) {
      ExtractTwice(loc, st.rid);
      assert NextClickOrder(GetCurrentTaskSession(st, loc, now).1) == 1;
    }
  }

  lemma LinkClickConsistent(st: Store, loc: Location, name: string, index: int, text: string,
                            now: DateTime, nowMs: int)
    requires Consistent(st)
    ensures Consistent(TrackLinkClick(st, loc, name, index, text, now, nowMs).0)
  {
    var r := GetCurrentTaskSession(st, loc, now);
    CurrentSessionStored(st, loc, now);
    CurrentSessionWellOrdered(st, loc, now);
    RecordClickOrdered(r.0, r.1, name, index, text, now, nowMs);
  }

  lemma EndConsistent(st: Store, now: DateTime)
    requires Consistent(st)
    ensures Consistent(EndTaskSession(st, now))
  {
  }

  /** The expansions keep the invariant only while no click is pending:
      with a click pending they would reuse its order. */
  lemma ShowMoreConsistent(st: Store, loc: Location, name: string, now: DateTime)
    requires Consistent(st) && st.pendingClick.None?
    ensures Consistent(TrackShowMoreClick(st, loc, name, now))
  {
    var r := GetCurrentTaskSession(st, loc, now);
    CurrentSessionStored(st, loc, now);
    CurrentSessionWellOrdered(st, loc, now);
    AppendShowMoreWellOrdered(r.1, Interaction(r.1.taskId, NextClickOrder(r.1), name, Format(now)));
  }

  lemma ShowAllConsistent(st: Store, loc: Location, name: string, now: DateTime)
    requires Consistent(st) && st.pendingClick.None?
    ensures Consistent(TrackShowAllClick(st, loc, name, now))
  {
    var r := GetCurrentTaskSession(st, loc, now);
    CurrentSessionStored(st, loc, now);
    CurrentSessionWellOrdered(st, loc, now);
    AppendShowAllWellOrdered(r.1, Interaction(r.1.taskId, NextClickOrder(r.1), name, Format(now)));
  }

  /** An order at least the stored session's next order (and positive) is
      still at least the next order of the session the lookup returns. */
  lemma CurrentSessionNextOrder(st: Store, loc: Location, now: DateTime, k: nat)
    requires k >= 1 && (st.session.Some? ==> k >= NextClickOrder(st.session.value))
    ensures k >= NextClickOrder(GetCurrentTaskSession(st, loc, now).1)
  {
    if !(st.session.Some? && Matches(st.session.value, ParamsOf(loc, st.rid))) {
      ExtractTwice(loc, st.rid);
      assert NextClickOrder(GetCurrentTaskSession(st, loc, now).1) == 1;
    }
  }

  /** Storing a well-ordered session while no click is pending is
      consistent. */
  lemma SaveConsistent(st: Store, s: TaskSession)
    requires WellOrdered(s) && st.pendingClick.None?
    ensures Consistent(Save(st, s))
  {
  }

  lemma ReturnConsistent(st: Store, loc: Location, now: DateTime, nowMs: int)
    requires Consistent(st)
    ensures Consistent(TrackReturnFromLink(st, loc, now, nowMs))
  {
    var res := TrackReturnFromLink(st, loc, now, nowMs);
    if !st.tracking && st.pendingClick.Some? && st.clickStart.Some? {
      var cleared := st.(pendingClick := None, clickStart := None);
      var r := GetCurrentTaskSession(cleared, loc, now);
      CurrentSessionStored(cleared, loc, now);
      CurrentSessionWellOrdered(cleared, loc, now);
      var e := st.pendingClick.value.(dwellTenths := Some(DwellTenths(nowMs - st.clickStart.value)));
      ReturnRecordsDwell(st, loc, now, nowMs);
      if HasSameClick(r.1.clickSequence, e) {
        assert res == r.0;
      } else {
        CurrentSessionNextOrder(cleared, loc, now, e.clickOrder);
        AppendClickWellOrdered(r.1, e);
        assert res == Save(r.0, r.1.(clickSequence := r.1.clickSequence + [e]));
        SaveConsistent(r.0, r.1.(clickSequence := r.1.clickSequence + [e]));
      }
    } else if !st.tracking && st.pendingClick.Some? {
      assert res == st.(pendingClick := None, clickStart := None);
    }
  }

  /** Local copy lags the click: an expansion recorded between a click and
      its return is given the pending click's own order, so the stored
      session can no longer take the click without repeating an order. */
  lemma ExpansionReusesPendingOrder(st: Store, loc: Location, name: string, index: int, text: string,
                                    now: DateTime, nowMs: int, more: string, later: DateTime)
    ensures var st1 := TrackLinkClick(st, loc, name, index, text, now, nowMs).0;
      var st2 := TrackShowMoreClick(st1, loc, more, later);
      var xs := st2.session.value.showMoreInteractions;
      && st2.session.Some? && |xs| > 0 && st2.pendingClick == st1.pendingClick
      && xs[|xs| - 1].clickOrder == st1.pendingClick.value.clickOrder
      && !WellOrdered(st2.session.value.(clickSequence := st2.session.value.clickSequence
                                                          + [st1.pendingClick.value]))
  {
    var st1 := TrackLinkClick(st, loc, name, index, text, now, nowMs).0;
    var st2 := TrackShowMoreClick(st1, loc, more, later);
    assert st2.session.Some? && st1.pendingClick.Some? && st2.pendingClick == st1.pendingClick
      && |st2.session.value.showMoreInteractions| > 0
      && st2.session.value.showMoreInteractions[|st2.session.value.showMoreInteractions| - 1].clickOrder
         == st1.pendingClick.value.clickOrder
    by {
      var r := GetCurrentTaskSession(st, loc, now);
      LinkClickIsLookupThenRecord(st, loc, name, index, text, now, nowMs);
      CurrentSessionStored(st, loc, now);
      LinkClickWrites(r.0, r.1, name, index, text, now, nowMs);
      var local := BumpCounter(r.1, Bucket(name));
      BumpKeepsRest(r.1, Bucket(name));
      assert st1.session == Some(local) && st1.rid == RidAfter(loc, st.rid);
      ExtractTwice(loc, st.rid);
      assert Matches(local, ParamsOf(loc, st1.rid));
      CurrentSessionReused(st1, loc, later);
      ShowMoreStoresAndSends(st1, loc, more, later);
      AddShowMoreAppends(local, more, later);
    }
    SharedOrderBreaks(st2.session.value, st1.pendingClick.value);
  }

  // ---------------------------------------------------------------------
  // Orders without gaps

  /** The stored session, if any, uses exactly the orders 1..N. */
  ghost predicate NoGaps(st: Store) {
    st.session.Some? ==> GapFree(st.session.value)
  }

  /** The lookup keeps a session without gaps or starts an empty one, so
      the session it returns and stores has no gaps either. */
  lemma CurrentSessionGapFree(st: Store, loc: Location, now: DateTime)
    requires NoGaps(st)
    ensures var r := GetCurrentTaskSession(st, loc, now);
      NoGaps(r.0) && GapFree(r.1)
  {
    if st.session.Some? && Matches(st.session.value, ParamsOf(loc, st.rid)) {
      CurrentSessionReused(st, loc, now);
    } else {
      NewSessionGapFree(ParamsOf(loc, st.rid), Format(now));
      if st.session.Some? {
        CurrentSessionReplaced(st, loc, now);
      } else {
        CurrentSessionCreated(st, loc, now);
      }
    }
  }

  /** An expansion gives its interaction the next order, which on a
      well-ordered session without gaps is N + 1. */
  lemma ShowMoreGapFree(st: Store, loc: Location, name: string, now: DateTime)
    requires Consistent(st) && NoGaps(st)
    ensures NoGaps(TrackShowMoreClick(st, loc, name, now))
  {
    var r := GetCurrentTaskSession(st, loc, now);
    CurrentSessionWellOrdered(st, loc, now);
    CurrentSessionGapFree(st, loc, now);
    AppendShowMoreGapFree(r.1, Interaction(r.1.taskId, NextClickOrder(r.1), name, Format(now)));
  }

  lemma ShowAllGapFree(st: Store, loc: Location, name: string, now: DateTime)
    requires Consistent(st) && NoGaps(st)
    ensures NoGaps(TrackShowAllClick(st, loc, name, now))
  {
    var r := GetCurrentTaskSession(st, loc, now);
    CurrentSessionWellOrdered(st, loc, now);
    CurrentSessionGapFree(st, loc, now);
    AppendShowAllGapFree(r.1, Interaction(r.1.taskId, NextClickOrder(r.1), name, Format(now)));
  }

  /** A link click stores the session with only a counter bumped, so the
      stored orders are those the lookup left. */
  lemma LinkClickGapFree(st: Store, loc: Location, name: string, index: int, text: string,
                         now: DateTime, nowMs: int)
    requires NoGaps(st)
    ensures NoGaps(TrackLinkClick(st, loc, name, index, text, now, nowMs).0)
  {
    var r := GetCurrentTaskSession(st, loc, now);
    CurrentSessionGapFree(st, loc, now);
    LinkClickWrites(r.0, r.1, name, index, text, now, nowMs);
    BumpKeepsRest(r.1, Bucket(name));
  }

  /** A return keeps the orders free of gaps when its lookup finds the
      stored session still matching and the pending click carries that
      session's next order. */
  lemma ReturnGapFree(st: Store, loc: Location, now: DateTime, nowMs: int)
    requires Consistent(st) && NoGaps(st)
    requires st.pendingClick.Some? ==>
               && st.session.Some? && Matches(st.session.value, ParamsOf(loc, st.rid))
               && st.pendingClick.value.clickOrder == NextClickOrder(st.session.value)
    ensures NoGaps(TrackReturnFromLink(st, loc, now, nowMs))
  {
    if !st.tracking && st.pendingClick.Some? && st.clickStart.Some? {
      var cleared := st.(pendingClick := None, clickStart := None);
      var r := GetCurrentTaskSession(cleared, loc, now);
      CurrentSessionReused(cleared, loc, now);
      var e := st.pendingClick.value.(dwellTenths := Some(DwellTenths(nowMs - st.clickStart.value)));
      ReturnRecordsDwell(st, loc, now, nowMs);
      if !HasSameClick(r.1.clickSequence, e) {
        AppendClickGapFree(r.1, e);
      }
    } else if !st.tracking && st.pendingClick.Some? {
      assert TrackReturnFromLink(st, loc, now, nowMs) == st.(pendingClick := None, clickStart := None);
    }
  }

  /** A link click followed by its return at the same location leaves the
      stored orders without gaps. */
  lemma ClickThenReturnGapFree(st: Store, loc: Location, name: string, index: int, text: string,
                               now: DateTime, nowMs: int, later: DateTime, laterMs: int)
    requires Consistent(st) && NoGaps(st)
    ensures var st1 := TrackLinkClick(st, loc, name, index, text, now, nowMs).0;
      NoGaps(TrackReturnFromLink(st1, loc, later, laterMs))
  {
    var r := GetCurrentTaskSession(st, loc, now);
    var st1 := TrackLinkClick(st, loc, name, index, text, now, nowMs).0;
    LinkClickIsLookupThenRecord(st, loc, name, index, text, now, nowMs);
    CurrentSessionStored(st, loc, now);
    CurrentSessionWellOrdered(st, loc, now);
    LinkClickConsistent(st, loc, name, index, text, now, nowMs);
    LinkClickGapFree(st, loc, name, index, text, now, nowMs);
    RecordClickOrdered(r.0, r.1, name, index, text, now, nowMs);
    LinkClickWrites(r.0, r.1, name, index, text, now, nowMs);
    BumpKeepsRest(r.1, Bucket(name));
    ExtractTwice(loc, st.rid);
    assert Matches(st1.session.value, ParamsOf(loc, st1.rid));
    ReturnGapFree(st1, loc, later, laterMs);
  }

  /** The gap: when the return's lookup finds no matching session (it was
      ended, or the location changed) a new empty session is started and the
      pending click goes in with its old order, so a click of order 2 or
      more leaves the orders below it unused. */
  lemma ReturnToNewSessionLeavesGap(st: Store, loc: Location, now: DateTime, nowMs: int)
    requires !st.tracking && st.pendingClick.Some? && st.clickStart.Some?
    requires st.pendingClick.value.clickOrder >= 2
    requires st.session.None? || !Matches(st.session.value, ParamsOf(loc, st.rid))
    ensures var s := TrackReturnFromLink(st, loc, now, nowMs).session;
      && s.Some? && AllOrders(s.value) == [st.pendingClick.value.clickOrder]
      && !GapFree(s.value)
  {
    var cleared := st.(pendingClick := None, clickStart := None);
    var r := GetCurrentTaskSession(cleared, loc, now);
    if st.session.Some? {
      CurrentSessionReplaced(cleared, loc, now);
    } else {
      CurrentSessionCreated(cleared, loc, now);
    }
    var e := st.pendingClick.value.(dwellTenths := Some(DwellTenths(nowMs - st.clickStart.value)));
    ReturnRecordsDwell(st, loc, now, nowMs);
    assert !HasSameClick(r.1.clickSequence, e);
    var s := r.1.(clickSequence := r.1.clickSequence + [e]);
    assert AllOrders(s) == [e.clickOrder];
    assert !(1 in AllOrders(s));
  }

  /** `endTaskSession` while a click of order 2 or more is pending, then the
      return: the click lands alone in a new session. */
  lemma EndThenReturnLeavesGap(st: Store, now: DateTime, loc: Location, later: DateTime, laterMs: int)
    requires !st.tracking && st.pendingClick.Some? && st.clickStart.Some?
    requires st.pendingClick.value.clickOrder >= 2
    ensures var s := TrackReturnFromLink(EndTaskSession(st, now), loc, later, laterMs).session;
      && s.Some? && AllOrders(s.value) == [st.pendingClick.value.clickOrder]
      && !GapFree(s.value)
  {
    ReturnToNewSessionLeavesGap(EndTaskSession(st, now), loc, later, laterMs);
  }
}
