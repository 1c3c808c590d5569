/** The remote chat service as the client sees it: the records it sends and
    receives, the replies a call can produce, and the transcript of calls an
    operation makes.

    HTTP, URLs and JSON are abstracted away. A call either throws (an
    `Err` reply) or returns; whether a non-2xx status throws depends on the
    HTTP client configuration, so each reply is simply given as an input. */
module Remote {
  import opened Outcomes

  type SessionId = string

  /** `Session.Status`; only `ACTIVE` is used by the client. */
  datatype SessionStatus = Active | OtherSessionStatus(name: string)

  /** The `Session` record posted when a session is created. */
  datatype Session = Session(
    id: SessionId,
    title: Option<string>,
    createdAt: int,
    lastActivityAt: int,
    participantIds: set<string>,
    status: SessionStatus)

  /** `InternalMessage.Role`. */
  datatype Role = User | Agent | OtherRole(name: string)

  /** `InternalMessage.Status`; the client only ever creates `PENDING`. */
  datatype DeliveryStatus = Pending | OtherDeliveryStatus(name: string)

  /** `AllowedFormat` of the relayed payload. */
  datatype Format = Text | OtherFormat(name: string)

  /** The relayed payload (`NLIPRequest`). */
  datatype Payload = Payload(format: Format, subformat: string, content: string)

  /** `InternalMessage`: one chat message as stored by the service. */
  datatype Message = Message(
    id: string,
    sessionId: SessionId,
    senderId: string,
    senderRole: Role,
    payload: Payload,
    timeStamp: int,
    status: DeliveryStatus)

  /** `OutboundMessage`: a message paired with the relay target address. */
  datatype Outbound = Outbound(targetUrl: string, message: Message)

  /** Reply to the session probe `GET /sessions/{id}`: either the call threw,
      or a response arrived with an HTTP status code. */
  datatype ProbeReply = ProbeFailed(error: Error) | Responded(status: int)

  /** Ktor's `HttpStatusCode.isSuccess()`: the 2xx range. */
  predicate IsSuccess(status: int) {
    200 <= status <= 299
  }

  /** One remote call together with the reply it received. */
  datatype Call =
    | CallList(listed: Result<seq<SessionId>>)
    | CallCreate(session: Session, posted: Result<()>)
    | CallDelete(deletedId: SessionId, deleted: Result<()>)
    | CallProbe(probedId: SessionId, probe: ProbeReply)
    | CallFetch(fetchedId: SessionId, fetched: Result<seq<Message>>)
    | CallSend(targetId: SessionId, outbound: Outbound, sent: Result<()>)

  /** Replies for a write (post or delete) followed by a list refresh. The
      refresh reply is only consumed when the write succeeds. */
  datatype WriteReplies = WriteReplies(write: Result<()>, refresh: Result<seq<SessionId>>)

  /** Replies for the history protocol: the probe, the provisioning write and
      refresh (consumed only when the probe responds with a non-2xx status),
      and the message fetch (consumed only when the earlier steps succeed). */
  datatype HistoryReplies = HistoryReplies(
    probe: ProbeReply,
    provision: WriteReplies,
    fetch: Result<seq<Message>>)

  /** The session list the client holds after the calls `calls`, starting
      from `before`: the payload of the last successful `CallList`, or
      `before` when there was none. */
  function LastListing(before: seq<SessionId>, calls: seq<Call>): seq<SessionId>
    decreases |calls|
  {
    if |calls| == 0 then before
    else
      var last := calls[|calls| - 1];
      if last.CallList? && last.listed.Ok? then last.listed.value
      else LastListing(before, calls[..|calls| - 1])
  }

  /** The message history a full-replace store shows after the calls
      `calls`: the payload of the final call when that call is a successful
      history fetch, and the empty list otherwise. */
  function ShownHistory(calls: seq<Call>): seq<Message> {
    if |calls| > 0 && calls[|calls| - 1].CallFetch? && calls[|calls| - 1].fetched.Ok?
    then calls[|calls| - 1].fetched.value
    else []
  }

  /** Listing is compositional: the calls of two consecutive operations
      leave the list the second operation's calls leave when started from
      what the first left. */
  lemma {:induction false} LastListingAppend(before: seq<SessionId>, first: seq<Call>, second: seq<Call>)
    ensures LastListing(before, first + second) == LastListing(LastListing(before, first), second)
    decreases |second|
  {
    if |second| == 0 {
      assert first + second == first;
    } else {
      var all := first + second;
      assert all[|all| - 1] == second[|second| - 1];
      assert all[..|all| - 1] == first + second[..|second| - 1];
      LastListingAppend(before, first, second[..|second| - 1]);
    }
  }
}
