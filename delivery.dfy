/** Sending a session to the server (lib/database-service.ts): one POST over
    an abstract transport, its reply turned into a boolean, and the "retry"
    wrapper, whose loop makes no further attempt. */
module Delivery {
  import opened Types

  /** What one POST yields: the request failed outright, or a response with
      its status and whether its body could be read (as JSON when the status
      is ok, as text otherwise). */
  datatype Reply = NetworkError | Response(status: int, bodyReadable: bool)

  /** `response.ok` */
  predicate IsOk(status: int) {
    200 <= status <= 299
  }

  /** `saveTaskRecord`'s result for a reply: true only for an ok status
      whose JSON body parses; a non-ok status, an unreadable body and a
      failed request all give false, never an exception. */
  function Saved(reply: Reply): (ok: bool)
    ensures ok <==> reply.Response? && IsOk(reply.status) && reply.bodyReadable
  {
    match reply
    case NetworkError => false
    case Response(status, readable) => IsOk(status) && readable
  }

  /** The network as seen by the client: every request sent, in order, and
      the replies still to come (none left means the request fails). */
  class Transport {
    var sent: seq<TaskSession>
    var replies: seq<Reply>

    constructor (replies: seq<Reply>)
      ensures this.sent == [] && this.replies == replies
    {
      this.sent := [];
      this.replies := replies;
    }

    /** The reply the next request gets. */
    function NextReply(): Reply
      reads this
    {
      if |replies| == 0 then NetworkError else replies[0]
    }

    /** `fetch(API_BASE_URL, { method: "POST", body: JSON.stringify(session) })` */
    method Post(session: TaskSession) returns (reply: Reply)
      modifies this
      ensures sent == old(sent) + [session]
      ensures reply == old(NextReply())
      ensures replies == if |old(replies)| == 0 then [] else old(replies)[1..]
    {
      sent := sent + [session];
      if |replies| == 0 {
        reply := NetworkError;
      } else {
        reply := replies[0];
        replies := replies[1..];
      }
    }
  }

  /** `saveTaskRecord` */
  method SaveTaskRecord(transport: Transport, session: TaskSession) returns (ok: bool)
    modifies transport
    ensures transport.sent == old(transport.sent) + [session]
    ensures ok == Saved(old(transport.NextReply()))
    ensures transport.replies == if |old(transport.replies)| == 0 then [] else old(transport.replies)[1..]
  {
    var reply := transport.Post(session);
    match reply
    case NetworkError =>
      ok := false;
    case Response(status, readable) =>
      if IsOk(status) {
        ok := readable;
      } else {
        ok := false;
      }
  }

  /** `saveTaskRecordWithRetry` (`maxRetries` defaults to 3 at the call
      sites): one attempt; on failure a loop of `maxRetries` iterations that
      sends nothing, then false. The session is sent exactly once, whatever
      `maxRetries` is. */
  method SaveTaskRecordWithRetry(transport: Transport, session: TaskSession, maxRetries: int)
    returns (ok: bool)
    modifies transport
    ensures transport.sent == old(transport.sent) + [session]
    ensures ok == Saved(old(transport.NextReply()))
    ensures transport.replies == if |old(transport.replies)| == 0 then [] else old(transport.replies)[1..]
  {
    var success := SaveTaskRecord(transport, session);
    if success {
      return true;
    }
    ghost var sentAfterFirst := transport.sent;
    ghost var repliesAfterFirst := transport.replies;
    var attempt := 1;
    while attempt <= maxRetries
      invariant transport.sent == sentAfterFirst && transport.replies == repliesAfterFirst
      decreases maxRetries - attempt
    {
      attempt := attempt + 1;
    }
    return false;
  }

  /** With the default of three retries and a first reply of 503, the
      session is sent once and the result is false. */
  method RetryExample(session: TaskSession) returns (ok: bool, sends: nat)
    ensures !ok && sends == 1
  {
    var transport := new Transport([Response(503, true), Response(200, true)]);
    ok := SaveTaskRecordWithRetry(transport, session, 3);
    sends := |transport.sent|;
  }
}
