/** The browser's outbox delivered to the server's record store, in order:
    what the store ends up holding for a clicked link, and why delivering a
    snapshot again changes nothing. */
module EndToEnd {
  import opened Types
  import opened Timestamp
  import opened Context
  import opened Classifier
  import opened Sessions
  import opened Engine
  import opened Records

  /** Every session of `sessions`, posted in order to a store without
      faults. */
  function Deliver(records: map<string, TaskRecord>, sessions: seq<TaskSession>): map<string, TaskRecord>
    decreases |sessions|
  {
    if |sessions| == 0 then records
    else Deliver(Handle(records, Some(SubmissionOf(sessions[0])), false).0, sessions[1..])
  }

  /** Delivering two batches is delivering the first, then the second. */
  lemma {:induction false} DeliverAppend(records: map<string, TaskRecord>, xs: seq<TaskSession>, ys: seq<TaskSession>)
    ensures Deliver(records, xs + ys) == Deliver(Deliver(records, xs), ys)
    decreases |xs|
  {
    if |xs| > 0 {
      assert (xs + ys)[1..] == xs[1..] + ys;
      assert (xs + ys)[0] == xs[0];
      DeliverAppend(Handle(records, Some(SubmissionOf(xs[0])), false).0, xs[1..], ys);
    } else {
      assert xs + ys == ys;
    }
  }

  /** Sending the last snapshot once more leaves the store as it was. */
  lemma RedeliveryIsNoop(records: map<string, TaskRecord>, sessions: seq<TaskSession>, s: TaskSession)
    requires s.participantId != "" && s.taskId != ""
    ensures Deliver(records, sessions + [s, s]) == Deliver(records, sessions + [s])
  {
    var before := Deliver(records, sessions);
    DeliverAppend(records, sessions, [s, s]);
    DeliverAppend(records, sessions, [s]);
    var once := Handle(before, Some(SubmissionOf(s)), false).0;
    PostTwice(before, SubmissionOf(s));
    assert [s, s][1..] == [s];
    assert Deliver(before, [s, s]) == Deliver(once, [s]);
    assert Deliver(once, [s]) == Deliver(once, []);
  }

  /** No click with identity key `key` carries a dwell time. */
  predicate NoDwellFor(clicks: seq<ClickEvent>, key: string) {
    forall k :: 0 <= k < |clicks| && ClickKey(clicks[k]) == key ==> clicks[k].dwellTenths.None?
  }

  /** The record for task `t` holds a click with key `key`, and none of its
      clicks with that key has a dwell time. */
  predicate KeptWithoutDwell(records: map<string, TaskRecord>, t: string, key: string) {
    t in records && key in Keys(records[t].clicks, ClickKey) && NoDwellFor(records[t].clicks, key)
  }

  /** Once a key is stored without dwell time, no request, whatever it
      carries, attaches one: existing clicks are never modified and a
      submitted click with a known key is never appended. */
  lemma HandleKeeps(records: map<string, TaskRecord>, body: Option<Submission>, fault: bool, t: string, key: string)
    requires KeptWithoutDwell(records, t, key)
    ensures KeptWithoutDwell(Handle(records, body, fault).0, t, key)
  {
    var (m, status) := Handle(records, body, fault);
    if status == Ok && body.value.main.taskId == t {
      var rec := records[t];
      var sub := body.value;
      var appended := Fresh(OrEmpty(sub.clicks), ClickKey, Keys(rec.clicks, ClickKey));
      var after := m[t];
      assert after.clicks == rec.clicks + appended;
      var j :| 0 <= j < |rec.clicks| && ClickKey(rec.clicks[j]) == key;
      assert after.clicks[j] == rec.clicks[j];
      forall k | 0 <= k < |after.clicks| && ClickKey(after.clicks[k]) == key
        ensures after.clicks[k].dwellTenths.None?
      {
        if k < |rec.clicks| {
          assert after.clicks[k] == rec.clicks[k];
        }
      }
    } else if status == Ok || status == Created201 {
      assert m[t] == records[t];
    }
  }

  /** ... and so does any sequence of later deliveries. */
  lemma {:induction false} DeliverKeeps(records: map<string, TaskRecord>, sessions: seq<TaskSession>, t: string, key: string)
    requires KeptWithoutDwell(records, t, key)
    ensures KeptWithoutDwell(Deliver(records, sessions), t, key)
    decreases |sessions|
  {
    if |sessions| > 0 {
      var next := Handle(records, Some(SubmissionOf(sessions[0])), false).0;
      HandleKeeps(records, Some(SubmissionOf(sessions[0])), false, t, key);
      DeliverKeeps(next, sessions[1..], t, key);
    }
  }

  /** The first delivery of a session holding click `e`, when neither that
      session nor the stored record has a click with `e`'s key carrying a
      dwell time, stores the key without one (the record is created, or the
      click appended, or the key was already there). */
  lemma FirstDeliveryStores(records: map<string, TaskRecord>, s: TaskSession, e: ClickEvent)
    requires s.participantId != "" && s.taskId != ""
    requires e in s.clickSequence
    requires NoDwellFor(s.clickSequence, ClickKey(e))
    requires s.taskId in records ==> NoDwellFor(records[s.taskId].clicks, ClickKey(e))
    ensures KeptWithoutDwell(Handle(records, Some(SubmissionOf(s)), false).0, s.taskId, ClickKey(e))
  {
    var sub := SubmissionOf(s);
    var m := Handle(records, Some(sub), false).0;
    var t := s.taskId;
    var key := ClickKey(e);
    var i :| 0 <= i < |s.clickSequence| && s.clickSequence[i] == e;
    if t in records {
      var rec := records[t];
      var appended := Fresh(s.clickSequence, ClickKey, Keys(rec.clicks, ClickKey));
      assert m[t].clicks == rec.clicks + appended;
      FreshCovers(s.clickSequence, ClickKey, rec.clicks);
      forall k | 0 <= k < |m[t].clicks| && ClickKey(m[t].clicks[k]) == key
        ensures m[t].clicks[k].dwellTenths.None?
      {
        if k >= |rec.clicks| {
          var c := appended[k - |rec.clicks|];
          assert c in s.clickSequence;
          var j :| 0 <= j < |s.clickSequence| && s.clickSequence[j] == c;
        } else {
          assert m[t].clicks[k] == rec.clicks[k];
        }
      }
    } else {
      assert m[t].clicks == s.clickSequence;
    }
  }

  /** What a link click sends: the current session, counter bumped, with
      the new click `e` (the pending marker, without dwell time) appended. */
  lemma LinkClickSends(st: Store, loc: Location, name: string, index: int, text: string,
                       now: DateTime, nowMs: int)
    ensures var cur := GetCurrentTaskSession(st, loc, now).1;
      var a := Engine.TrackLinkClick(st, loc, name, index, text, now, nowMs).0;
      var sent := a.outbox[|a.outbox| - 1];
      var e := a.pendingClick.value;
      && |a.outbox| > 0 && a.pendingClick.Some?
      && sent.clickSequence == cur.clickSequence + [e]
      && sent.taskId == cur.taskId && sent.participantId == cur.participantId
      && e.dwellTenths.None?
      && ClickKey(e) == Format(now) + "_" + Classify(name, index).pageId
  {
    var r := GetCurrentTaskSession(st, loc, now);
    LinkClickIsLookupThenRecord(st, loc, name, index, text, now, nowMs);
    LinkClickWrites(r.0, r.1, name, index, text, now, nowMs);
    BumpKeepsRest(r.1, Bucket(name));
  }

  /** The dwell time of a link click never reaches the store. The click's
      first snapshot goes out with the click and no dwell time; once it is
      delivered, nothing delivered afterwards (in particular the snapshot
      the return from the link sends, with the dwell time) changes the
      stored click with that `click_time` and `page_id`. */
  lemma ClickDwellNeverStored(st: Store, loc: Location, name: string, index: int, text: string,
                              now: DateTime, nowMs: int, records: map<string, TaskRecord>,
                              later: seq<TaskSession>)
    requires var cur := GetCurrentTaskSession(st, loc, now).1;
      && cur.participantId != "" && cur.taskId != ""
      && NoDwellFor(cur.clickSequence, Format(now) + "_" + Classify(name, index).pageId)
      && (cur.taskId in records ==>
            NoDwellFor(records[cur.taskId].clicks, Format(now) + "_" + Classify(name, index).pageId))
    ensures var a := Engine.TrackLinkClick(st, loc, name, index, text, now, nowMs).0;
      var sent := a.outbox[|a.outbox| - 1];
      var e := a.pendingClick.value;
      && e in sent.clickSequence && e.dwellTenths.None?
      && KeptWithoutDwell(Deliver(records, [sent] + later), sent.taskId, ClickKey(e))
  {
    var cur := GetCurrentTaskSession(st, loc, now).1;
    LinkClickSends(st, loc, name, index, text, now, nowMs);
    var a := Engine.TrackLinkClick(st, loc, name, index, text, now, nowMs).0;
    var sent := a.outbox[|a.outbox| - 1];
    var e := a.pendingClick.value;
    assert e == sent.clickSequence[|cur.clickSequence|];
    assert NoDwellFor(sent.clickSequence, ClickKey(e)) by {
      forall k | 0 <= k < |sent.clickSequence| && ClickKey(sent.clickSequence[k]) == ClickKey(e)
        ensures sent.clickSequence[k].dwellTenths.None?
      {
        if k < |cur.clickSequence| { assert sent.clickSequence[k] == cur.clickSequence[k]; }
      }
    }
    FirstDeliveryStores(records, sent, e);
    var once := Handle(records, Some(SubmissionOf(sent)), false).0;
    DeliverKeeps(once, later, sent.taskId, ClickKey(e));
    assert ([sent] + later)[1..] == later;
    assert ([sent] + later)[0] == sent;
  }

  /** By contrast, the snapshot the return sends (when the click is not
      already in the session) does carry the dwell time, under the same
      key. */
  lemma ReturnSendsDwell(st: Store, loc: Location, now: DateTime, nowMs: int)
    requires !st.tracking && st.pendingClick.Some? && st.clickStart.Some?
    requires var r := GetCurrentTaskSession(st.(pendingClick := None, clickStart := None), loc, now);
      !HasSameClick(r.1.clickSequence, st.pendingClick.value.(dwellTenths := Some(DwellTenths(nowMs - st.clickStart.value))))
    ensures var st2 := TrackReturnFromLink(st, loc, now, nowMs);
      var sent := st2.outbox[|st2.outbox| - 1];
      exists k :: 0 <= k < |sent.clickSequence|
        && ClickKey(sent.clickSequence[k]) == ClickKey(st.pendingClick.value)
        && sent.clickSequence[k].dwellTenths.Some?
  {
    ReturnRecordsDwell(st, loc, now, nowMs);
    var r := GetCurrentTaskSession(st.(pendingClick := None, clickStart := None), loc, now);
    var e := st.pendingClick.value.(dwellTenths := Some(DwellTenths(nowMs - st.clickStart.value)));
    var sent := r.1.(clickSequence := r.1.clickSequence + [e]);
    var st2 := TrackReturnFromLink(st, loc, now, nowMs);
    assert st2.outbox == r.0.outbox + [sent];
    assert sent.clickSequence[|r.1.clickSequence|] == e;
    assert ClickKey(e) == ClickKey(st.pendingClick.value);
    assert st2.outbox[|st2.outbox| - 1] == sent;
    var k := |r.1.clickSequence|;
    assert ClickKey(sent.clickSequence[k]) == ClickKey(st.pendingClick.value) && sent.clickSequence[k].dwellTenths.Some?;
  }
}
