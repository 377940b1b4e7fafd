/** The tracker of lib/analytics.ts as an object over the browser's local
    store: one field per stored key, the module-level `isTracking` latch, and
    a ghost outbox of every session handed to the server. Each method does
    what the corresponding exported function does, step by step, and its
    contract ties the new state to the step function of module `Engine`,
    where the properties are proved. */
module Tracking {
  import opened Strings
  import opened Types
  import opened Timestamp
  import opened Context
  import opened Classifier
  import opened Sessions
  import opened Engine

  /** The counter update of `trackLinkClick` (lines 264-275), in place on
      the session value. */
  method CountPageClick(s: TaskSession, name: string) returns (s': TaskSession)
    ensures s' == BumpCounter(s, Bucket(name))
  {
    s' := s;
    if Contains(name, "SearchResults") {
      var pageNum := PageNumber(name);
      if pageNum == Some(1) {
        s' := s'.(pageClickStatics1 := s'.pageClickStatics1 + 1);
      } else if pageNum == Some(2) {
        s' := s'.(pageClickStatics2 := s'.pageClickStatics2 + 1);
      } else if pageNum == Some(3) {
        s' := s'.(pageClickStatics3 := s'.pageClickStatics3 + 1);
      } else {
        s' := s'.(pageClickStatics4 := s'.pageClickStatics4 + 1);
      }
    }
  }

  class Tracker {
    var session: Option<TaskSession>     // current_task_session
    var pendingClick: Option<ClickEvent> // current_click_event
    var clickStart: Option<int>          // click_start_time
    var clickId: Option<string>          // current_click_id
    var rid: Option<string>              // RID
    var isTracking: bool
    ghost var outbox: seq<TaskSession>

    ghost function Snapshot(): Store
      reads this
    {
      Store(session, pendingClick, clickStart, clickId, rid, isTracking, outbox)
    }

    /** A fresh page: nothing stored but possibly a remembered `RID`. */
    constructor (storedRid: Option<string>)
      ensures Snapshot() == Store(None, None, None, None, storedRid, false, [])
      ensures Consistent(Snapshot())
    {
      session, pendingClick, clickStart, clickId := None, None, None, None;
      rid, isTracking := storedRid, false;
      outbox := [];
    }

    /** `saveSessionToDatabase`: the session goes to the server. */
    method Send(s: TaskSession)
      modifies this
      ensures Snapshot() == old(Snapshot()).(outbox := old(outbox) + [s])
    {
      outbox := outbox + [s];
    }

    method ExtractUrlParams(loc: Location) returns (p: UrlParams)
      modifies this
      ensures (Snapshot(), p) == Engine.ExtractUrlParams(old(Snapshot()), loc)
    {
      var segments := Segments(PathOf(loc));
      var pid := ParticipantOf(loc, rid);
      if pid != "0" {
        rid := Some(pid);
      }
      if |segments| >= 3 {
        p := UrlParams(segments[0], segments[1] + "_" + segments[2], pid);
      } else {
        p := UrlParams("", "", pid);
      }
    }

    method EndTaskSession(now: DateTime)
      modifies this
      ensures Snapshot() == Engine.EndTaskSession(old(Snapshot()), now)
    {
      if session.None? {
        return;
      }
      var s := session.value;
      s := s.(taskEndTime := Some(Format(now)));
      Send(s);
      session := None;
    }

    method CreateNewSession(loc: Location, now: DateTime) returns (s: TaskSession)
      modifies this
      ensures (Snapshot(), s) == Engine.CreateNewSession(old(Snapshot()), loc, now)
    {
      var p := ExtractUrlParams(loc);
      s := NewSession(p, Format(now));
      session := Some(s);
      Send(s);
    }

    method GetCurrentTaskSession(loc: Location, now: DateTime) returns (s: TaskSession)
      modifies this
      ensures (Snapshot(), s) == Engine.GetCurrentTaskSession(old(Snapshot()), loc, now)
    {
      var p := ExtractUrlParams(loc);
      if session.Some? {
        s := session.value;
        if !Matches(s, p) {
          EndTaskSession(now);
          s := CreateNewSession(loc, now);
        }
      } else {
        s := CreateNewSession(loc, now);
      }
    }

    method TrackLinkClick(loc: Location, name: string, index: int, text: string, now: DateTime, nowMs: int)
      returns (id: string)
      modifies this
      ensures (Snapshot(), id) == Engine.TrackLinkClick(old(Snapshot()), loc, name, index, text, now, nowMs)
    {
      ghost var r := Engine.GetCurrentTaskSession(Snapshot(), loc, now);
      var s := GetCurrentTaskSession(loc, now);
      ghost var st1 := Snapshot();
      var e := NewClick(s, name, index, text, now);
      pendingClick := Some(e);
      s := CountPageClick(s, name);
      session := Some(s);
      s := s.(clickSequence := s.clickSequence + [e]);
      Send(s);
      id := ClickId(s, e.clickOrder);
      clickId := Some(id);
      clickStart := Some(nowMs);
      ghost var rc := RecordClick(st1, r.1, name, index, text, now, nowMs);
      assert id == rc.1;
      assert Snapshot() == rc.0;
    }

    method TrackShowMoreClick(loc: Location, name: string, now: DateTime)
      modifies this
      ensures Snapshot() == Engine.TrackShowMoreClick(old(Snapshot()), loc, name, now)
    {
      ghost var r := Engine.GetCurrentTaskSession(Snapshot(), loc, now);
      var s := GetCurrentTaskSession(loc, now);
      var nextOrder := NextClickOrder(s);
      var x := Interaction(s.taskId, nextOrder, name, Format(now));
      s := s.(showMoreInteractions := s.showMoreInteractions + [x]);
      session := Some(s);
      Send(s);
      assert s == AddShowMore(r.1, name, now);
    }

    method TrackShowAllClick(loc: Location, name: string, now: DateTime)
      modifies this
      ensures Snapshot() == Engine.TrackShowAllClick(old(Snapshot()), loc, name, now)
    {
      ghost var r := Engine.GetCurrentTaskSession(Snapshot(), loc, now);
      var s := GetCurrentTaskSession(loc, now);
      var nextOrder := NextClickOrder(s);
      var x := Interaction(s.taskId, nextOrder, name, Format(now));
      s := s.(showAllInteractions := s.showAllInteractions + [x]);
      session := Some(s);
      Send(s);
      assert s == AddShowAll(r.1, name, now);
    }

    method TrackReturnFromLink(loc: Location, now: DateTime, nowMs: int)
      modifies this
      ensures Snapshot() == Engine.TrackReturnFromLink(old(Snapshot()), loc, now, nowMs)
    {
      if isTracking {
        return;
      }
      if pendingClick.None? {
        return;
      }
      ghost var st0 := Snapshot();
      isTracking := true;
      var e := pendingClick.value;
      var start := clickStart;
      pendingClick := None;
      clickStart := None;
      if start.None? {
        isTracking := false;
        ReturnClearsMarker(st0, loc, now, nowMs);
        return;
      }
      e := e.(dwellTenths := Some(DwellTenths(nowMs - start.value)));
      assert e == st0.pendingClick.value.(dwellTenths := Some(DwellTenths(nowMs - st0.clickStart.value)));
      ghost var cleared := st0.(pendingClick := None, clickStart := None);
      assert Snapshot().(tracking := false) == cleared;
      ghost var r := Engine.GetCurrentTaskSession(cleared, loc, now);
      CurrentSessionIgnoresLatch(cleared, loc, now, true);
      ReturnRecordsDwell(st0, loc, now, nowMs);
      var s := GetCurrentTaskSession(loc, now);
      assert s == r.1 && Snapshot() == r.0.(tracking := true);
      if HasSameClick(s.clickSequence, e) {
        isTracking := false;
        assert Snapshot() == r.0;
        return;
      }
      s := s.(clickSequence := s.clickSequence + [e]);
      session := Some(s);
      Send(s);
      isTracking := false;
      assert Snapshot() == Save(r.0, s);
    }

    method InitializeSession(loc: Location, now: DateTime)
      modifies this
      ensures Snapshot() == Engine.InitializeSession(old(Snapshot()), loc, now)
    {
      var _ := GetCurrentTaskSession(loc, now);
    }
  }
}
