/** Pure operations on one task session (lib/analytics.ts): the new session
    `createNewSession` builds, the reuse test of `getCurrentTaskSession`,
    `getNextClickOrder`, the page-click counter bump of `trackLinkClick`, the
    end stamp of `endTaskSession`, and the ordering invariant the shared
    `click_order` counter is meant to keep. */
module Sessions {
  import opened Strings
  import opened Types
  import opened Context
  import opened Classifier

  /** The session `createNewSession` builds from the extracted parameters and
      the start timestamp. */
  function NewSession(p: UrlParams, startTime: string): TaskSession {
    TaskSession(
      Some(0), p.participantId, p.treatmentGroup,
      p.participantId + "_" + p.topic + "_" + p.treatmentGroup,
      p.topic, TaskType(p.topic), startTime, None,
      0, 0, 0, 0, [], [], [])
  }

  /** A new session is keyed `participant_topic_treatment`, starts with all
      four counters at zero, three empty sequences and no end time. */
  lemma NewSessionShape(p: UrlParams, startTime: string)
    ensures var s := NewSession(p, startTime);
      && s.taskId == s.participantId + "_" + s.taskTopic + "_" + s.treatmentGroup
      && s.participantId == p.participantId && s.taskTopic == p.topic
      && s.treatmentGroup == p.treatmentGroup && s.taskType == TaskType(p.topic)
      && s.taskStartTime == startTime && s.taskEndTime == None
      && s.pageClickStatics1 == 0 && s.pageClickStatics2 == 0
      && s.pageClickStatics3 == 0 && s.pageClickStatics4 == 0
      && s.clickSequence == [] && s.showMoreInteractions == [] && s.showAllInteractions == []
  {
  }

  /** The stored session is kept while its treatment group, topic and task
      type agree with the freshly derived ones; the participant id is not
      compared. */
  predicate Matches(s: TaskSession, p: UrlParams) {
    s.treatmentGroup == p.treatmentGroup && s.taskTopic == p.topic && s.taskType == TaskType(p.topic)
  }

  /** A session matches the parameters it was created from, whoever the
      participant is. */
  lemma NewSessionMatches(p: UrlParams, q: UrlParams, startTime: string)
    requires q.topic == p.topic && q.treatmentGroup == p.treatmentGroup
    ensures Matches(NewSession(p, startTime), q)
  {
  }

  /** `session.<sequence>.at(-1)?.click_order || 0` */
  function LastClickOrder(cs: seq<ClickEvent>): nat {
    if |cs| == 0 then 0 else cs[|cs| - 1].clickOrder
  }

  function LastInteractionOrder(xs: seq<Interaction>): nat {
    if |xs| == 0 then 0 else xs[|xs| - 1].clickOrder
  }

  /** `getNextClickOrder`: one more than the largest of the three last
      orders. */
  function NextClickOrder(s: TaskSession): (r: nat)
    ensures r >= 1
    ensures r > LastClickOrder(s.clickSequence)
    ensures r > LastInteractionOrder(s.showMoreInteractions)
    ensures r > LastInteractionOrder(s.showAllInteractions)
    ensures r - 1 in {LastClickOrder(s.clickSequence), LastInteractionOrder(s.showMoreInteractions),
                      LastInteractionOrder(s.showAllInteractions)}
  {
    var a, b, c := LastClickOrder(s.clickSequence), LastInteractionOrder(s.showMoreInteractions),
                   LastInteractionOrder(s.showAllInteractions);
    (if a >= b && a >= c then a else if b >= c then b else c) + 1
  }

  function ClickOrders(cs: seq<ClickEvent>): (r: seq<nat>)
    ensures |r| == |cs| && forall k :: 0 <= k < |cs| ==> r[k] == cs[k].clickOrder
  {
    seq(|cs|, k requires 0 <= k < |cs| => cs[k].clickOrder)
  }

  function InteractionOrders(xs: seq<Interaction>): (r: seq<nat>)
    ensures |r| == |xs| && forall k :: 0 <= k < |xs| ==> r[k] == xs[k].clickOrder
  {
    seq(|xs|, k requires 0 <= k < |xs| => xs[k].clickOrder)
  }

  /** Every `click_order` of the session, clicks first. */
  function AllOrders(s: TaskSession): seq<nat> {
    ClickOrders(s.clickSequence) + InteractionOrders(s.showMoreInteractions)
      + InteractionOrders(s.showAllInteractions)
  }

  ghost predicate Increasing(xs: seq<nat>) {
    forall i, j :: 0 <= i < j < |xs| ==> xs[i] < xs[j]
  }

  ghost predicate Distinct(xs: seq<nat>) {
    forall i, j :: 0 <= i < j < |xs| ==> xs[i] != xs[j]
  }

  /** The ordering the shared counter is meant to give: each sequence in
      increasing order, no order used twice across the three, all positive. */
  ghost predicate WellOrdered(s: TaskSession) {
    && Increasing(ClickOrders(s.clickSequence))
    && Increasing(InteractionOrders(s.showMoreInteractions))
    && Increasing(InteractionOrders(s.showAllInteractions))
    && Distinct(AllOrders(s))
    && forall k :: 0 <= k < |AllOrders(s)| ==> AllOrders(s)[k] >= 1
  }

  lemma NewSessionWellOrdered(p: UrlParams, startTime: string)
    ensures WellOrdered(NewSession(p, startTime))
  {
    assert AllOrders(NewSession(p, startTime)) == [];
  }

  /** In an increasing sequence the last element is the largest. */
  lemma LastIsLargest(xs: seq<nat>)
    requires Increasing(xs) && |xs| > 0
    ensures forall k :: 0 <= k < |xs| ==> xs[k] <= xs[|xs| - 1]
  {
  }

  /** On a well-ordered session the next order exceeds every order in use,
      so it is fresh. */
  lemma NextOrderIsFresh(s: TaskSession)
    requires WellOrdered(s)
    ensures forall k :: 0 <= k < |AllOrders(s)| ==> AllOrders(s)[k] < NextClickOrder(s)
  {
    var a, b, c := ClickOrders(s.clickSequence), InteractionOrders(s.showMoreInteractions),
                   InteractionOrders(s.showAllInteractions);
    if |a| > 0 { LastIsLargest(a); }
    if |b| > 0 { LastIsLargest(b); }
    if |c| > 0 { LastIsLargest(c); }
    forall k | 0 <= k < |AllOrders(s)| ensures AllOrders(s)[k] < NextClickOrder(s) {
      if k < |a| {
        assert AllOrders(s)[k] == a[k];
      } else if k < |a| + |b| {
        assert AllOrders(s)[k] == b[k - |a|];
      } else {
        assert AllOrders(s)[k] == c[k - |a| - |b|];
      }
    }
  }

  /** Appending to an increasing sequence a value above all its elements
      keeps it increasing; adding a value absent from a distinct sequence
      keeps it distinct. */
  lemma ExtendIncreasing(xs: seq<nat>, x: nat)
    requires Increasing(xs) && forall k :: 0 <= k < |xs| ==> xs[k] < x
    ensures Increasing(xs + [x])
  {
  }

  lemma InsertDistinct(a: seq<nat>, b: seq<nat>, x: nat)
    requires Distinct(a + b) && forall k :: 0 <= k < |a + b| ==> (a + b)[k] < x
    ensures Distinct(a + [x] + b)
  {
    var r := a + [x] + b;
    forall i, j | 0 <= i < j < |r| ensures r[i] != r[j] {
      if i == |a| {
        assert r[j] == (a + b)[j - 1];
      } else if j == |a| {
        assert r[i] == (a + b)[i];
      } else {
        var i' := if i < |a| then i else i - 1;
        var j' := if j < |a| then j else j - 1;
        assert r[i] == (a + b)[i'] && r[j] == (a + b)[j'];
      }
    }
  }

  lemma InsertPositive(a: seq<nat>, b: seq<nat>, x: nat)
    requires x >= 1 && forall k :: 0 <= k < |a + b| ==> (a + b)[k] >= 1
    ensures forall k :: 0 <= k < |a + [x] + b| ==> (a + [x] + b)[k] >= 1
  {
    var r := a + [x] + b;
    forall k | 0 <= k < |r| ensures r[k] >= 1 {
      if k < |a| {
        assert r[k] == (a + b)[k];
      } else if k > |a| {
        assert r[k] == (a + b)[k - 1];
      }
    }
  }

  /** Appending a value above all orders in use to one of three order
      sequences keeps that sequence increasing and the whole distinct and
      positive. */
  lemma ExtendMiddle(a: seq<nat>, b: seq<nat>, c: seq<nat>, x: nat)
    requires Increasing(b) && Distinct(a + b + c) && x >= 1
    requires forall k :: 0 <= k < |a + b + c| ==> 1 <= (a + b + c)[k] < x
    ensures Increasing(b + [x]) && Distinct(a + (b + [x]) + c)
    ensures forall k :: 0 <= k < |a + (b + [x]) + c| ==> (a + (b + [x]) + c)[k] >= 1
  {
    forall k | 0 <= k < |b| ensures b[k] < x {
      assert b[k] == (a + b + c)[|a| + k];
    }
    ExtendIncreasing(b, x);
    InsertDistinct(a + b, c, x);
    InsertPositive(a + b, c, x);
    assert a + (b + [x]) + c == (a + b) + [x] + c;
  }

  /** Recording an event whose order is at least the next order keeps a
      well-ordered session well ordered: the invariant behind unique
      `click_order` values. */
  lemma AppendClickWellOrdered(s: TaskSession, e: ClickEvent)
    requires WellOrdered(s) && e.clickOrder >= NextClickOrder(s)
    ensures WellOrdered(s.(clickSequence := s.clickSequence + [e]))
  {
    NextOrderIsFresh(s);
    var a, b, c := ClickOrders(s.clickSequence), InteractionOrders(s.showMoreInteractions),
                   InteractionOrders(s.showAllInteractions);
    var s' := s.(clickSequence := s.clickSequence + [e]);
    assert AllOrders(s) == [] + a + (b + c);
    ExtendMiddle([], a, b + c, e.clickOrder);
    assert ClickOrders(s'.clickSequence) == a + [e.clickOrder];
    assert AllOrders(s') == [] + (a + [e.clickOrder]) + (b + c);
  }

  lemma AppendShowMoreWellOrdered(s: TaskSession, x: Interaction)
    requires WellOrdered(s) && x.clickOrder >= NextClickOrder(s)
    ensures WellOrdered(s.(showMoreInteractions := s.showMoreInteractions + [x]))
  {
    NextOrderIsFresh(s);
    var a, b, c := ClickOrders(s.clickSequence), InteractionOrders(s.showMoreInteractions),
                   InteractionOrders(s.showAllInteractions);
    var s' := s.(showMoreInteractions := s.showMoreInteractions + [x]);
    ExtendMiddle(a, b, c, x.clickOrder);
    assert InteractionOrders(s'.showMoreInteractions) == b + [x.clickOrder];
    assert AllOrders(s') == a + (b + [x.clickOrder]) + c;
  }

  lemma AppendShowAllWellOrdered(s: TaskSession, x: Interaction)
    requires WellOrdered(s) && x.clickOrder >= NextClickOrder(s)
    ensures WellOrdered(s.(showAllInteractions := s.showAllInteractions + [x]))
  {
    NextOrderIsFresh(s);
    var a, b, c := ClickOrders(s.clickSequence), InteractionOrders(s.showMoreInteractions),
                   InteractionOrders(s.showAllInteractions);
    var s' := s.(showAllInteractions := s.showAllInteractions + [x]);
    assert AllOrders(s) == (a + b) + c + [];
    ExtendMiddle(a + b, c, [], x.clickOrder);
    assert InteractionOrders(s'.showAllInteractions) == c + [x.clickOrder];
    assert AllOrders(s') == (a + b) + (c + [x.clickOrder]) + [];
  }

  /** A click that carries the order of the last show-more interaction
      cannot join the session without repeating an order. */
  lemma SharedOrderBreaks(s: TaskSession, e: ClickEvent)
    requires |s.showMoreInteractions| > 0
    requires s.showMoreInteractions[|s.showMoreInteractions| - 1].clickOrder == e.clickOrder
    ensures !WellOrdered(s.(clickSequence := s.clickSequence + [e]))
  {
    var t := s.(clickSequence := s.clickSequence + [e]);
    var a := ClickOrders(t.clickSequence);
    var b := InteractionOrders(t.showMoreInteractions);
    var i, j := |a| - 1, |a| + |b| - 1;
    assert AllOrders(t)[i] == e.clickOrder;
    assert AllOrders(t)[j] == e.clickOrder;
  }

  /** The orders in use are exactly 1, 2, ..., N, N being how many there
      are: besides no order used twice, no order skipped. */
  ghost predicate GapFree(s: TaskSession) {
    forall v :: v in AllOrders(s) <==> 1 <= v <= |AllOrders(s)|
  }

  lemma NewSessionGapFree(p: UrlParams, startTime: string)
    ensures GapFree(NewSession(p, startTime))
  {
    assert AllOrders(NewSession(p, startTime)) == [];
  }

  /** Each of the three last orders is 0 (an empty sequence) or an order in
      use. */
  lemma LastsInUse(s: TaskSession)
    ensures LastClickOrder(s.clickSequence) == 0 || LastClickOrder(s.clickSequence) in AllOrders(s)
    ensures LastInteractionOrder(s.showMoreInteractions) == 0
            || LastInteractionOrder(s.showMoreInteractions) in AllOrders(s)
    ensures LastInteractionOrder(s.showAllInteractions) == 0
            || LastInteractionOrder(s.showAllInteractions) in AllOrders(s)
  {
    var a, b, c := ClickOrders(s.clickSequence), InteractionOrders(s.showMoreInteractions),
                   InteractionOrders(s.showAllInteractions);
    var all := AllOrders(s);
    if |a| > 0 { assert LastClickOrder(s.clickSequence) == all[|a| - 1]; }
    if |b| > 0 { assert LastInteractionOrder(s.showMoreInteractions) == all[|a| + |b| - 1]; }
    if |c| > 0 { assert LastInteractionOrder(s.showAllInteractions) == all[|a| + |b| + |c| - 1]; }
  }

  /** Without gaps, the largest order in use is their number, so the next
      order lies above it. */
  lemma CountBelowNext(s: TaskSession)
    requires WellOrdered(s) && GapFree(s)
    ensures |AllOrders(s)| < NextClickOrder(s)
  {
    var all := AllOrders(s);
    if |all| > 0 {
      assert |all| in all;
      var k :| 0 <= k < |all| && all[k] == |all|;
      NextOrderIsFresh(s);
    }
  }

  /** On a well-ordered session without gaps the next order is one more
      than the number of orders in use. */
  lemma NextIsCount(s: TaskSession)
    requires WellOrdered(s) && GapFree(s)
    ensures NextClickOrder(s) == |AllOrders(s)| + 1
  {
    CountBelowNext(s);
    LastsInUse(s);
    var n := |AllOrders(s)|;
    assert forall v :: v in AllOrders(s) ==> v <= n;
  }

  /** Inserting N + 1 into N orders that are exactly 1..N gives N + 1
      orders that are exactly 1..N + 1. */
  lemma ExtendGapFree(a: seq<nat>, b: seq<nat>, x: nat)
    requires forall v :: v in a + b <==> 1 <= v <= |a + b|
    requires x == |a + b| + 1
    ensures forall v :: v in a + [x] + b <==> 1 <= v <= |a + [x] + b|
  {
    forall v ensures v in a + [x] + b <==> v in a + b || v == x {
    }
  }

  /** Recording an event that carries the next order keeps a well-ordered
      session without gaps. */
  lemma AppendClickGapFree(s: TaskSession, e: ClickEvent)
    requires WellOrdered(s) && GapFree(s) && e.clickOrder == NextClickOrder(s)
    ensures GapFree(s.(clickSequence := s.clickSequence + [e]))
  {
    NextIsCount(s);
    var a, b, c := ClickOrders(s.clickSequence), InteractionOrders(s.showMoreInteractions),
                   InteractionOrders(s.showAllInteractions);
    var s' := s.(clickSequence := s.clickSequence + [e]);
    assert AllOrders(s) == a + (b + c);
    ExtendGapFree(a, b + c, e.clickOrder);
    assert ClickOrders(s'.clickSequence) == a + [e.clickOrder];
    assert AllOrders(s') == a + [e.clickOrder] + (b + c);
  }

  lemma AppendShowMoreGapFree(s: TaskSession, x: Interaction)
    requires WellOrdered(s) && GapFree(s) && x.clickOrder == NextClickOrder(s)
    ensures GapFree(s.(showMoreInteractions := s.showMoreInteractions + [x]))
  {
    NextIsCount(s);
    var a, b, c := ClickOrders(s.clickSequence), InteractionOrders(s.showMoreInteractions),
                   InteractionOrders(s.showAllInteractions);
    var s' := s.(showMoreInteractions := s.showMoreInteractions + [x]);
    assert AllOrders(s) == (a + b) + c;
    ExtendGapFree(a + b, c, x.clickOrder);
    assert InteractionOrders(s'.showMoreInteractions) == b + [x.clickOrder];
    assert AllOrders(s') == (a + b) + [x.clickOrder] + c;
  }

  lemma AppendShowAllGapFree(s: TaskSession, x: Interaction)
    requires WellOrdered(s) && GapFree(s) && x.clickOrder == NextClickOrder(s)
    ensures GapFree(s.(showAllInteractions := s.showAllInteractions + [x]))
  {
    NextIsCount(s);
    var a, b, c := ClickOrders(s.clickSequence), InteractionOrders(s.showMoreInteractions),
                   InteractionOrders(s.showAllInteractions);
    var s' := s.(showAllInteractions := s.showAllInteractions + [x]);
    assert AllOrders(s) == (a + b + c) + [];
    ExtendGapFree(a + b + c, [], x.clickOrder);
    assert InteractionOrders(s'.showAllInteractions) == c + [x.clickOrder];
    assert AllOrders(s') == (a + b + c) + [x.clickOrder] + [];
  }

  /** The counter bump of `trackLinkClick` for the bucket of the clicked
      component (none when the name has no "SearchResults"). */
  function BumpCounter(s: TaskSession, bucket: Option<nat>): TaskSession {
    match bucket
    case None => s
    case Some(b) =>
      if b == 1 then s.(pageClickStatics1 := s.pageClickStatics1 + 1)
      else if b == 2 then s.(pageClickStatics2 := s.pageClickStatics2 + 1)
      else if b == 3 then s.(pageClickStatics3 := s.pageClickStatics3 + 1)
      else s.(pageClickStatics4 := s.pageClickStatics4 + 1)
  }

  /** The bump touches only the counters. */
  lemma BumpKeepsRest(s: TaskSession, bucket: Option<nat>)
    ensures var s' := BumpCounter(s, bucket);
      && s'.clickSequence == s.clickSequence && s'.showMoreInteractions == s.showMoreInteractions
      && s'.showAllInteractions == s.showAllInteractions
      && s'.treatmentGroup == s.treatmentGroup && s'.taskTopic == s.taskTopic && s'.taskType == s.taskType
      && s'.taskId == s.taskId && s'.participantId == s.participantId
      && NextClickOrder(s') == NextClickOrder(s) && AllOrders(s') == AllOrders(s)
  {
  }

  function CounterSum(s: TaskSession): nat {
    s.pageClickStatics1 + s.pageClickStatics2 + s.pageClickStatics3 + s.pageClickStatics4
  }

  /** A click on a "SearchResults" component raises exactly one counter by
      one, the counter of its page (1-3) or counter 4; any other click leaves
      all four alone. Nothing else of the session changes. */
  lemma ClickCounters(s: TaskSession, name: string)
    ensures var s' := BumpCounter(s, Bucket(name));
      && CounterSum(s') == CounterSum(s) + (if Contains(name, "SearchResults") then 1 else 0)
      && (Bucket(name) == Some(1) <==> s'.pageClickStatics1 == s.pageClickStatics1 + 1)
      && (Bucket(name) == Some(2) <==> s'.pageClickStatics2 == s.pageClickStatics2 + 1)
      && (Bucket(name) == Some(3) <==> s'.pageClickStatics3 == s.pageClickStatics3 + 1)
      && (Bucket(name) == Some(4) <==> s'.pageClickStatics4 == s.pageClickStatics4 + 1)
      && s'.(pageClickStatics1 := s.pageClickStatics1, pageClickStatics2 := s.pageClickStatics2,
             pageClickStatics3 := s.pageClickStatics3, pageClickStatics4 := s.pageClickStatics4) == s
  {
  }

  /** `endTaskSession`'s end stamp. */
  function Ended(s: TaskSession, endTime: string): (r: TaskSession)
    ensures r.taskEndTime == Some(endTime)
    ensures r.(taskEndTime := s.taskEndTime) == s
  {
    s.(taskEndTime := Some(endTime))
  }

  /** The click identity `participant_topic_treatment_order`. */
  function ClickId(s: TaskSession, order: nat): string {
    s.participantId + "_" + s.taskTopic + "_" + s.treatmentGroup + "_" + NatToString(order)
  }

  /** For a session keyed as `createNewSession` keys it, the click identity
      is the task id followed by the order. */
  lemma ClickIdExtendsTaskId(s: TaskSession, order: nat)
    requires s.taskId == s.participantId + "_" + s.taskTopic + "_" + s.treatmentGroup
    ensures ClickId(s, order) == s.taskId + "_" + NatToString(order)
  {
  }
}
