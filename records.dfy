/** The server side of task-record saving
    (app/api/participant/task-records/route.ts): a store of task records
    keyed by `task_id`, created from the first submission of a session and
    afterwards extended, append-only, with the submitted events whose
    identity-key string it has not seen. */
module Records {
  import opened Types

  /** The scalar columns of a record: everything of the submitted session but
      its `id` and its three event arrays. A missing `participant_id` or
      `task_id` is the empty string (both are falsy). */
  datatype MainData = MainData(
    participantId: string,
    treatmentGroup: string,
    taskId: string,
    taskTopic: string,
    taskType: string,
    taskStartTime: string,
    taskEndTime: Option<string>,
    pageClickStatics1: nat,
    pageClickStatics2: nat,
    pageClickStatics3: nat,
    pageClickStatics4: nat)

  /** A parsed request body; an event array may be missing. */
  datatype Submission = Submission(
    id: Option<int>,
    main: MainData,
    clicks: Option<seq<ClickEvent>>,
    showMore: Option<seq<Interaction>>,
    showAll: Option<seq<Interaction>>)

  /** A stored record with its three child-event lists, oldest first. */
  datatype TaskRecord = TaskRecord(
    main: MainData,
    clicks: seq<ClickEvent>,
    showMore: seq<Interaction>,
    showAll: seq<Interaction>)

  /** The body the browser posts for a session: its JSON form, all arrays
      present. */
  function SubmissionOf(s: TaskSession): Submission {
    Submission(s.id,
      MainData(s.participantId, s.treatmentGroup, s.taskId, s.taskTopic, s.taskType,
               s.taskStartTime, s.taskEndTime, s.pageClickStatics1, s.pageClickStatics2,
               s.pageClickStatics3, s.pageClickStatics4),
      Some(s.clickSequence), Some(s.showMoreInteractions), Some(s.showAllInteractions))
  }

  /** `array || []` */
  function OrEmpty<T>(xs: Option<seq<T>>): seq<T> {
    if xs.Some? then xs.value else []
  }

  /** The identity key of a click, `click_time + "_" + page_id`. */
  function ClickKey(c: ClickEvent): string {
    c.clickTime + "_" + c.pageId
  }

  /** The identity key of an interaction, `click_time + "_" + component_name`. */
  function InteractionKey(x: Interaction): string {
    x.clickTime + "_" + x.componentName
  }

  /** The set of keys of stored events. */
  function Keys<T>(xs: seq<T>, key: T -> string): (r: set<string>)
    ensures forall k :: 0 <= k < |xs| ==> key(xs[k]) in r
    ensures forall s :: s in r ==> exists k :: 0 <= k < |xs| && key(xs[k]) == s
  {
    set k | 0 <= k < |xs| :: key(xs[k])
  }

  /** The submitted events whose key is not in `seen`, in submission order.
      Submitted events are not compared with each other. */
  function Fresh<T>(xs: seq<T>, key: T -> string, seen: set<string>): (r: seq<T>)
    ensures |r| <= |xs|
    ensures forall k :: 0 <= k < |r| ==> r[k] in xs && key(r[k]) !in seen
    ensures forall k :: 0 <= k < |xs| && key(xs[k]) !in seen ==> xs[k] in r
  {
    if xs == [] then []
    else (if key(xs[0]) in seen then [] else [xs[0]]) + Fresh(xs[1..], key, seen)
  }

  /** How often `Fresh` keeps an event: never when its key was seen,
      otherwise exactly as often as it was submitted. */
  lemma {:induction false} FreshCounts<T>(xs: seq<T>, key: T -> string, seen: set<string>, x: T)
    ensures multiset(Fresh(xs, key, seen))[x] == if key(x) in seen then 0 else multiset(xs)[x]
  {
    if xs != [] {
      var head: seq<T> := if key(xs[0]) in seen then [] else [xs[0]];
      var rest := Fresh(xs[1..], key, seen);
      FreshCounts(xs[1..], key, seen, x);
      assert Fresh(xs, key, seen) == head + rest;
      assert multiset(head + rest)[x] == multiset(head)[x] + multiset(rest)[x];
      assert xs == [xs[0]] + xs[1..];
      assert multiset(xs)[x] == multiset([xs[0]])[x] + multiset(xs[1..])[x];
      assert multiset(head)[x] == if key(x) in seen then 0 else multiset([xs[0]])[x];
    }
  }

  /** Filtering a concatenation filters each part and keeps them in order,
      so the kept events keep their submission order. */
  lemma {:induction false} FreshAppend<T>(a: seq<T>, b: seq<T>, key: T -> string, seen: set<string>)
    ensures Fresh(a + b, key, seen) == Fresh(a, key, seen) + Fresh(b, key, seen)
  {
    if a != [] {
      FreshAppend(a[1..], b, key, seen);
      assert (a + b)[1..] == a[1..] + b;
    } else {
      assert a + b == b;
    }
  }

  /** A record created from a submission (route.ts lines 79-97). */
  function Created(sub: Submission): TaskRecord {
    TaskRecord(sub.main, OrEmpty(sub.clicks), OrEmpty(sub.showMore), OrEmpty(sub.showAll))
  }

  /** An existing record updated by a submission (route.ts lines 36-75):
      scalars overwritten, events appended when their key is new. */
  function Merged(rec: TaskRecord, sub: Submission): TaskRecord {
    TaskRecord(sub.main,
      rec.clicks + Fresh(OrEmpty(sub.clicks), ClickKey, Keys(rec.clicks, ClickKey)),
      rec.showMore + Fresh(OrEmpty(sub.showMore), InteractionKey, Keys(rec.showMore, InteractionKey)),
      rec.showAll + Fresh(OrEmpty(sub.showAll), InteractionKey, Keys(rec.showAll, InteractionKey)))
  }

  const BadRequest := 400
  const Created201 := 201
  const Ok := 200
  const ServerError := 500

  /** The outcome of one POST: the new store and the status. `body` is
      `None` when the request body is not valid JSON; `fault` says that the
      database raised an error, which can only happen once the body has
      passed validation, since the store is not read before that. */
  function Handle(records: map<string, TaskRecord>, body: Option<Submission>, fault: bool)
    : (r: (map<string, TaskRecord>, int))
    ensures r.1 in {Ok, Created201, BadRequest, ServerError}
    ensures r.1 in {BadRequest, ServerError} ==> r.0 == records
    ensures r.1 == Ok ==> body.Some? && body.value.main.taskId in records && r.0.Keys == records.Keys
    ensures r.1 == Created201 ==> body.Some? && body.value.main.taskId !in records
                                  && r.0.Keys == records.Keys + {body.value.main.taskId}
    ensures r.0.Keys <= records.Keys + (if body.Some? then {body.value.main.taskId} else {})
    ensures r.1 == BadRequest <==> body.Some? && (body.value.main.participantId == "" || body.value.main.taskId == "")
    ensures r.1 == ServerError <==> body.None? || (fault && r.1 != BadRequest)
  {
    if body.None? then (records, ServerError)
    else
      var sub := body.value;
      if sub.main.participantId == "" || sub.main.taskId == "" then (records, BadRequest)
      else if fault then (records, ServerError)
      else if sub.main.taskId in records then
        var rec := records[sub.main.taskId];
        (records[sub.main.taskId := Merged(rec, sub)], Ok)
      else (records[sub.main.taskId := Created(sub)], Created201)
  }

  // ---------------------------------------------------------------------
  // Properties

  /** A body without `participant_id` or `task_id` is refused with 400 and
      changes nothing, before the store is consulted, so whether the store
      would have failed does not matter. */
  lemma ValidationRejects(records: map<string, TaskRecord>, sub: Submission, fault: bool)
    requires sub.main.participantId == "" || sub.main.taskId == ""
    ensures Handle(records, Some(sub), fault) == (records, BadRequest)
  {
  }

  /** A database error on a body that passed validation (or an unreadable
      body) yields 500 and changes nothing. */
  lemma FaultRejects(records: map<string, TaskRecord>, body: Option<Submission>)
    requires body.Some? ==> body.value.main.participantId != "" && body.value.main.taskId != ""
    ensures Handle(records, body, true) == (records, ServerError)
  {
  }

  /** A new `task_id` is created with every submitted event, missing arrays
      counting as empty, and status 201. */
  lemma CreateKeepsAll(records: map<string, TaskRecord>, sub: Submission)
    requires sub.main.participantId != "" && sub.main.taskId != "" && sub.main.taskId !in records
    ensures var (m, status) := Handle(records, Some(sub), false);
      && status == Created201 && m == records[sub.main.taskId := Created(sub)]
      && m[sub.main.taskId].clicks == (if sub.clicks.Some? then sub.clicks.value else [])
      && m[sub.main.taskId].showMore == (if sub.showMore.Some? then sub.showMore.value else [])
      && m[sub.main.taskId].showAll == (if sub.showAll.Some? then sub.showAll.value else [])
  {
  }

  /** An existing `task_id` keeps its stored events unmodified and in place,
      takes the submitted scalars, answers 200, and behind the stored events
      of each array appends the submitted events whose key is new: each
      such event as often as it was submitted, in submission order, and no
      other. */
  lemma UpdateAppendsOnly(records: map<string, TaskRecord>, sub: Submission)
    requires sub.main.participantId != "" && sub.main.taskId != "" && sub.main.taskId in records
    ensures var (m, status) := Handle(records, Some(sub), false);
      var before := records[sub.main.taskId];
      var after := m[sub.main.taskId];
      && status == Ok && m.Keys == records.Keys
      && (forall t :: t in records && t != sub.main.taskId ==> m[t] == records[t])
      && after.main == sub.main
      && after.clicks[..|before.clicks|] == before.clicks
      && after.showMore[..|before.showMore|] == before.showMore
      && after.showAll[..|before.showAll|] == before.showAll
      && after.clicks[|before.clicks|..] == Fresh(OrEmpty(sub.clicks), ClickKey, Keys(before.clicks, ClickKey))
      && after.showMore[|before.showMore|..]
         == Fresh(OrEmpty(sub.showMore), InteractionKey, Keys(before.showMore, InteractionKey))
      && after.showAll[|before.showAll|..]
         == Fresh(OrEmpty(sub.showAll), InteractionKey, Keys(before.showAll, InteractionKey))
      && (forall c :: multiset(after.clicks[|before.clicks|..])[c]
            == if ClickKey(c) in Keys(before.clicks, ClickKey) then 0 else multiset(OrEmpty(sub.clicks))[c])
      && (forall x :: multiset(after.showMore[|before.showMore|..])[x]
            == if InteractionKey(x) in Keys(before.showMore, InteractionKey) then 0
               else multiset(OrEmpty(sub.showMore))[x])
      && (forall x :: multiset(after.showAll[|before.showAll|..])[x]
            == if InteractionKey(x) in Keys(before.showAll, InteractionKey) then 0
               else multiset(OrEmpty(sub.showAll))[x])
  {
    var rec := records[sub.main.taskId];
    AppendedCounts(rec.clicks, OrEmpty(sub.clicks), ClickKey);
    AppendedCounts(rec.showMore, OrEmpty(sub.showMore), InteractionKey);
    AppendedCounts(rec.showAll, OrEmpty(sub.showAll), InteractionKey);
  }

  /** Stored events followed by the fresh submitted ones: the stored ones
      stay in front, and behind them each submitted event with a new key
      appears as often as it was submitted. */
  lemma AppendedCounts<T>(stored: seq<T>, xs: seq<T>, key: T -> string)
    ensures var f := Fresh(xs, key, Keys(stored, key));
      var all := stored + f;
      && all[..|stored|] == stored && all[|stored|..] == f
      && forall x :: multiset(all[|stored|..])[x] == if key(x) in Keys(stored, key) then 0 else multiset(xs)[x]
  {
    var f := Fresh(xs, key, Keys(stored, key));
    var all := stored + f;
    assert all[|stored|..] == f;
    forall x ensures multiset(all[|stored|..])[x] == if key(x) in Keys(stored, key) then 0 else multiset(xs)[x] {
      FreshCounts(xs, key, Keys(stored, key), x);
    }
  }

  /** After a merge every submitted event's key is known to the record. */
  lemma {:induction false} FreshCovers<T>(xs: seq<T>, key: T -> string, stored: seq<T>)
    ensures var all := stored + Fresh(xs, key, Keys(stored, key));
      forall k :: 0 <= k < |xs| ==> key(xs[k]) in Keys(all, key)
  {
    var f := Fresh(xs, key, Keys(stored, key));
    var all := stored + f;
    forall k | 0 <= k < |xs| ensures key(xs[k]) in Keys(all, key) {
      if key(xs[k]) in Keys(stored, key) {
        var j :| 0 <= j < |stored| && key(stored[j]) == key(xs[k]);
        assert all[j] == stored[j];
      } else {
        var j :| 0 <= j < |f| && f[j] == xs[k];
        assert all[|stored| + j] == xs[k];
      }
    }
  }

  /** Nothing is fresh against keys that already cover every event. */
  lemma FreshOfKnown<T>(xs: seq<T>, key: T -> string, seen: set<string>)
    requires forall k :: 0 <= k < |xs| ==> key(xs[k]) in seen
    ensures Fresh(xs, key, seen) == []
  {
    var r := Fresh(xs, key, seen);
    if |r| > 0 {
      var k :| 0 <= k < |xs| && xs[k] == r[0];
    }
  }

  /** Submitting the same session a second time adds no event. */
  lemma MergeIdempotent(rec: TaskRecord, sub: Submission)
    ensures Merged(Merged(rec, sub), sub) == Merged(rec, sub)
  {
    var m := Merged(rec, sub);
    FreshCovers(OrEmpty(sub.clicks), ClickKey, rec.clicks);
    FreshCovers(OrEmpty(sub.showMore), InteractionKey, rec.showMore);
    FreshCovers(OrEmpty(sub.showAll), InteractionKey, rec.showAll);
    FreshOfKnown(OrEmpty(sub.clicks), ClickKey, Keys(m.clicks, ClickKey));
    FreshOfKnown(OrEmpty(sub.showMore), InteractionKey, Keys(m.showMore, InteractionKey));
    FreshOfKnown(OrEmpty(sub.showAll), InteractionKey, Keys(m.showAll, InteractionKey));
    assert m.clicks + [] == m.clicks;
    assert m.showMore + [] == m.showMore;
    assert m.showAll + [] == m.showAll;
  }

  /** Creating a record is merging the submission into an empty one. */
  lemma CreatedIsMergeIntoEmpty(sub: Submission)
    ensures Created(sub) == Merged(TaskRecord(sub.main, [], [], []), sub)
  {
    var empty := TaskRecord(sub.main, [], [], []);
    assert Keys(empty.clicks, ClickKey) == {};
    assert Keys(empty.showMore, InteractionKey) == {};
    assert Keys(empty.showAll, InteractionKey) == {};
    FreshOfNothing(OrEmpty(sub.clicks), ClickKey);
    FreshOfNothing(OrEmpty(sub.showMore), InteractionKey);
    FreshOfNothing(OrEmpty(sub.showAll), InteractionKey);
  }

  /** Re-submitting the body a record was created from adds nothing. */
  lemma CreateThenMerge(sub: Submission)
    ensures Merged(Created(sub), sub) == Created(sub)
  {
    CreatedIsMergeIntoEmpty(sub);
    MergeIdempotent(TaskRecord(sub.main, [], [], []), sub);
  }

  /** Posting the same body twice leaves the store as the first post left
      it; the second answer is 200. */
  lemma PostTwice(records: map<string, TaskRecord>, sub: Submission)
    requires sub.main.participantId != "" && sub.main.taskId != ""
    ensures var once := Handle(records, Some(sub), false).0;
      Handle(once, Some(sub), false) == (once, Ok)
  {
    var t := sub.main.taskId;
    var once := Handle(records, Some(sub), false).0;
    if t in records {
      MergeIdempotent(records[t], sub);
    } else {
      CreateThenMerge(sub);
    }
    assert Merged(once[t], sub) == once[t];
    assert once[t := Merged(once[t], sub)] == once;
  }

  /** Against no keys every event is fresh. */
  lemma {:induction false} FreshOfNothing<T>(xs: seq<T>, key: T -> string)
    ensures Fresh(xs, key, {}) == xs
  {
    if xs != [] {
      FreshOfNothing(xs[1..], key);
      assert [xs[0]] + xs[1..] == xs;
    }
  }

  /** Events of one body are not compared with each other: on creation
      every submitted event is stored as often as it was submitted, and on
      an update so is every submitted event whose key the record does not
      hold yet, in each of the three arrays. */
  lemma NoInBatchDedup(rec: TaskRecord, sub: Submission, c: ClickEvent, x: Interaction)
    ensures multiset(Created(sub).clicks)[c] == multiset(OrEmpty(sub.clicks))[c]
    ensures multiset(Created(sub).showMore)[x] == multiset(OrEmpty(sub.showMore))[x]
    ensures multiset(Created(sub).showAll)[x] == multiset(OrEmpty(sub.showAll))[x]
    ensures ClickKey(c) !in Keys(rec.clicks, ClickKey) ==>
      multiset(Merged(rec, sub).clicks)[c] == multiset(OrEmpty(sub.clicks))[c]
    ensures InteractionKey(x) !in Keys(rec.showMore, InteractionKey) ==>
      multiset(Merged(rec, sub).showMore)[x] == multiset(OrEmpty(sub.showMore))[x]
    ensures InteractionKey(x) !in Keys(rec.showAll, InteractionKey) ==>
      multiset(Merged(rec, sub).showAll)[x] == multiset(OrEmpty(sub.showAll))[x]
  {
    NotStored(rec.clicks, ClickKey, c);
    NotStored(rec.showMore, InteractionKey, x);
    NotStored(rec.showAll, InteractionKey, x);
    FreshCounts(OrEmpty(sub.clicks), ClickKey, Keys(rec.clicks, ClickKey), c);
    FreshCounts(OrEmpty(sub.showMore), InteractionKey, Keys(rec.showMore, InteractionKey), x);
    FreshCounts(OrEmpty(sub.showAll), InteractionKey, Keys(rec.showAll, InteractionKey), x);
  }

  /** An event whose key is not among the stored keys is not stored. */
  lemma NotStored<T>(xs: seq<T>, key: T -> string, x: T)
    ensures key(x) !in Keys(xs, key) ==> multiset(xs)[x] == 0
  {
    if x in xs {
      var k :| 0 <= k < |xs| && xs[k] == x;
    }
  }

  /** Two identical clicks with a new key are both created, and both
      appended. */
  lemma TwoCopiesKept(rec: TaskRecord, sub: Submission, c: ClickEvent)
    requires sub.clicks == Some([c, c]) && ClickKey(c) !in Keys(rec.clicks, ClickKey)
    ensures Created(sub).clicks == [c, c]
    ensures Merged(rec, sub).clicks == rec.clicks + [c, c]
  {
    var seen := Keys(rec.clicks, ClickKey);
    assert [c, c][1..] == [c];
    assert Fresh([c], ClickKey, seen) == [c] by {
      assert [c][1..] == [];
    }
  }

  /** Keys are compared as joined strings: a click with time "t_a" on page
      "b" collides with one at time "t" on page "a_b", so the second is
      dropped. */
  lemma KeysCollide(c: ClickEvent, d: ClickEvent, rec: TaskRecord, sub: Submission)
    requires c.clickTime == "t_a" && c.pageId == "b"
    requires d.clickTime == "t" && d.pageId == "a_b"
    requires rec.clicks == [c] && sub.clicks == Some([d])
    ensures c != d && ClickKey(c) == ClickKey(d)
    ensures Merged(rec, sub).clicks == [c]
  {
    assert ClickKey(c) == "t_a_b" == ClickKey(d);
    assert rec.clicks[0] == c;
    assert ClickKey(d) in Keys(rec.clicks, ClickKey);
    assert Fresh([d], ClickKey, Keys(rec.clicks, ClickKey)) == [] by {
      assert [d][1..] == [];
    }
  }

  /** The submitted `id` plays no part. */
  lemma IdDiscarded(records: map<string, TaskRecord>, sub: Submission, id: Option<int>, fault: bool)
    ensures Handle(records, Some(sub.(id := id)), fault) == Handle(records, Some(sub), fault)
  {
  }

  /** An update with no event arrays only overwrites the scalars. */
  lemma MissingArraysKeepEvents(rec: TaskRecord, sub: Submission)
    requires sub.clicks.None? && sub.showMore.None? && sub.showAll.None?
    ensures Merged(rec, sub) == rec.(main := sub.main)
  {
    assert rec.clicks + [] == rec.clicks;
    assert rec.showMore + [] == rec.showMore;
    assert rec.showAll + [] == rec.showAll;
  }

  /** A stored event is never modified: whatever is submitted, the stored
      click with a given key keeps its fields (in particular its dwell
      time). */
  lemma StoredEventsKept(rec: TaskRecord, sub: Submission, k: nat)
    requires k < |rec.clicks|
    ensures |Merged(rec, sub).clicks| > k && Merged(rec, sub).clicks[k] == rec.clicks[k]
  {
  }

  /** The store the POST handler works on. */
  class RecordStore {
    var records: map<string, TaskRecord>

    constructor ()
      ensures records == map[]
    {
      records := map[];
    }

    /** `POST` (route.ts lines 7-107). */
    method Post(body: Option<Submission>, fault: bool) returns (status: int)
      modifies this
      ensures (records, status) == Handle(old(records), body, fault)
    {
      if body.None? {
        return ServerError;
      }
      var data := body.value;
      if data.main.participantId == "" || data.main.taskId == "" {
        return BadRequest;
      }
      if fault {
        return ServerError;
      }
      var mainData := data.main;
      var clicks, showMore, showAll := OrEmpty(data.clicks), OrEmpty(data.showMore), OrEmpty(data.showAll);
      if mainData.taskId in records {
        var existing := records[mainData.taskId];
        var existingClickKeys := Keys(existing.clicks, ClickKey);
        var existingShowMoreKeys := Keys(existing.showMore, InteractionKey);
        var existingShowAllKeys := Keys(existing.showAll, InteractionKey);
        var newClicks := Fresh(clicks, ClickKey, existingClickKeys);
        var newShowMore := Fresh(showMore, InteractionKey, existingShowMoreKeys);
        var newShowAll := Fresh(showAll, InteractionKey, existingShowAllKeys);
        records := records[mainData.taskId := TaskRecord(mainData, existing.clicks + newClicks,
                                                         existing.showMore + newShowMore,
                                                         existing.showAll + newShowAll)];
        return Ok;
      } else {
        records := records[mainData.taskId := TaskRecord(mainData, clicks, showMore, showAll)];
        return Created201;
      }
    }
  }
}
