/** `KtorChatRepository`: the session-selection state machine.

    The repository holds two observable values, the current session id
    (nullable) and the list of available session ids. Every public
    operation is a fixed sequence of remote calls followed by deterministic
    updates of those two values. Each operation here takes the replies of
    its remote calls as inputs and returns its result, the new state and the
    transcript of the calls it made. Inside one `Either.catch` block a
    failing call aborts the remaining steps of that block; a nested call
    whose `Either` result is discarded (the list refresh inside the write
    operations) cannot abort anything. */
module Repository {
  import opened Outcomes
  import opened Remote

  /** The repository's two observable values. */
  datatype RepoState = RepoState(current: Option<SessionId>, available: seq<SessionId>)

  /** What one repository operation produces. */
  datatype Step<+T> = Step(result: Result<T>, state: RepoState, calls: seq<Call>)

  /** The id the repository selects at construction and the view model
      provisions at start-up. */
  const DefaultSessionId: SessionId := "default"

  /** The state right after construction: `init` selects "default" and no
      session is listed yet. */
  function Init(): (s: RepoState)
    ensures s.current == Some(DefaultSessionId)
    ensures s.available == []
  {
    RepoState(Some(DefaultSessionId), [])
  }

  /** The record posted to create a session: active, no participants,
      created and last active at `now`. */
  function NewSession(id: SessionId, title: Option<string>, now: int): (r: Session)
    ensures r.id == id && r.title == title
    ensures r.status == Active && r.participantIds == {}
    ensures r.createdAt == now && r.lastActivityAt == now
  {
    Session(id, title, now, now, {}, Active)
  }

  /** `getAllSessions`: on success the list becomes exactly the returned
      list, which is also the result; on failure nothing changes. */
  function GetAllSessions(s: RepoState, listed: Result<seq<SessionId>>): (r: Step<seq<SessionId>>)
    ensures r.calls == [CallList(listed)]
    ensures r.result == listed
    ensures r.state.current == s.current
    ensures listed.Ok? ==> r.state.available == listed.value
    ensures listed.Err? ==> r.state == s
    ensures r.state.available == LastListing(s.available, r.calls)
  {
    match listed
    case Ok(ids) => Step(Ok(ids), s.(available := ids), [CallList(listed)])
    case Err(e) => Step(Err(e), s, [CallList(listed)])
  }

  /** `setCurrentSession`: selects `id` unconditionally, with no remote
      call, and leaves the list alone. */
  function SetCurrentSession(s: RepoState, id: SessionId): (r: RepoState)
    ensures r.current == Some(id)
    ensures r.available == s.available
  {
    s.(current := Some(id))
  }

  /** `createNewSession`: posts a fresh session under the supplied id
      (the Kotlin code draws it from a random UUID); on success refreshes the list,
      ignoring whether the refresh worked, selects the new id and returns
      it. A failed post changes nothing. */
  function CreateNewSession(s: RepoState, title: Option<string>, freshId: SessionId, now: int,
                            replies: WriteReplies): (r: Step<SessionId>)
    ensures r.result.Ok? <==> replies.write.Ok?
    ensures r.result.Ok? ==> r.result.value == freshId && r.state.current == Some(freshId)
    ensures replies.write.Err? ==> r.state == s && r.result == Err(replies.write.error)
    ensures |r.calls| > 0 && r.calls[0] == CallCreate(NewSession(freshId, title, now), replies.write)
    ensures replies.write.Err? <==> |r.calls| == 1
    ensures replies.write.Ok? ==> r.calls == [r.calls[0], CallList(replies.refresh)]
    ensures replies.write.Ok? ==>
              r.state.available == (if replies.refresh.Ok? then replies.refresh.value else s.available)
    ensures r.state.available == LastListing(s.available, r.calls)
  {
    var post := CallCreate(NewSession(freshId, title, now), replies.write);
    match replies.write
    case Err(e) => Step(Err(e), s, [post])
    case Ok(_) =>
      var refreshed := GetAllSessions(s, replies.refresh);
      LastListingAppend(s.available, [post], refreshed.calls);
      Step(Ok(freshId), refreshed.state.(current := Some(freshId)), [post] + refreshed.calls)
  }

  /** `createSession`: create-if-absent. Posts a session with the given id;
      on success refreshes the list (ignoring its outcome) and selects the
      id only when nothing is selected. An existing selection is never
      overridden, and a failed post changes nothing. */
  function CreateSession(s: RepoState, id: SessionId, now: int, replies: WriteReplies): (r: Step<()>)
    ensures r.result.Ok? <==> replies.write.Ok?
    ensures replies.write.Err? ==> r.state == s && r.result == Err(replies.write.error)
    ensures s.current.Some? ==> r.state.current == s.current
    ensures r.state.current != s.current <==> s.current.None? && replies.write.Ok?
    ensures r.state.current != s.current ==> r.state.current == Some(id)
    ensures |r.calls| > 0 && r.calls[0] == CallCreate(NewSession(id, None, now), replies.write)
    ensures replies.write.Err? <==> |r.calls| == 1
    ensures replies.write.Ok? ==> r.calls == [r.calls[0], CallList(replies.refresh)]
    ensures replies.write.Ok? ==>
              r.state.available == (if replies.refresh.Ok? then replies.refresh.value else s.available)
    ensures r.state.available == LastListing(s.available, r.calls)
  {
    var post := CallCreate(NewSession(id, None, now), replies.write);
    match replies.write
    case Err(e) => Step(Err(e), s, [post])
    case Ok(_) =>
      var refreshed := GetAllSessions(s, replies.refresh);
      LastListingAppend(s.available, [post], refreshed.calls);
      var selected := if refreshed.state.current.None? then refreshed.state.(current := Some(id))
                      else refreshed.state;
      Step(Ok(()), selected, [post] + refreshed.calls)
  }

  /** `deleteSession`: deletes remotely; on success refreshes the list
      (ignoring its outcome) and, if the deleted id was selected, falls back
      to the first listed id, or to nothing when the list is empty. A failed
      delete changes nothing. */
  function DeleteSession(s: RepoState, id: SessionId, replies: WriteReplies): (r: Step<()>)
    ensures r.result.Ok? <==> replies.write.Ok?
    ensures replies.write.Err? ==> r.state == s && r.result == Err(replies.write.error)
    ensures replies.write.Ok? && s.current == Some(id) ==> r.state.current == FirstOrNone(r.state.available)
    ensures s.current != Some(id) ==> r.state.current == s.current
    ensures replies.write.Ok? && replies.refresh.Ok? && id !in replies.refresh.value
            ==> r.state.current != Some(id)
    ensures replies.write.Ok? && s.current == Some(id) ==>
              r.state.current == FirstOrNone(if replies.refresh.Ok? then replies.refresh.value else s.available)
    ensures |r.calls| > 0 && r.calls[0] == CallDelete(id, replies.write)
    ensures replies.write.Err? <==> |r.calls| == 1
    ensures replies.write.Ok? ==> r.calls == [CallDelete(id, replies.write), CallList(replies.refresh)]
    ensures replies.write.Ok? ==>
              r.state.available == (if replies.refresh.Ok? then replies.refresh.value else s.available)
    ensures r.state.available == LastListing(s.available, r.calls)
  {
    var del := CallDelete(id, replies.write);
    match replies.write
    case Err(e) => Step(Err(e), s, [del])
    case Ok(_) =>
      var refreshed := GetAllSessions(s, replies.refresh);
      LastListingAppend(s.available, [del], refreshed.calls);
      var fallback := if refreshed.state.current == Some(id)
                      then refreshed.state.(current := FirstOrNone(refreshed.state.available))
                      else refreshed.state;
      Step(Ok(()), fallback, [del] + refreshed.calls)
  }

  /** The pending user message `sendMessage` builds around `text`. */
  function UserMessage(sessionId: SessionId, text: string, messageId: string, senderUuid: string,
                       now: int): (m: Message)
    ensures m.sessionId == sessionId && m.id == messageId
    ensures m.senderRole == User && m.status == Pending
    ensures m.payload == Payload(Text, "English", text)
    ensures m.senderId == "user-" + senderUuid && m.timeStamp == now
  {
    Message(messageId, sessionId, "user-" + senderUuid, User, Payload(Text, "English", text), now, Pending)
  }

  /** `sendMessage`: with nothing selected, succeeds without any remote
      call; otherwise posts a pending user message to the selected session
      and reports the post's outcome. The state is never modified. */
  function SendMessage(s: RepoState, text: string, targetUrl: string, messageId: string,
                       senderUuid: string, now: int, sent: Result<()>): (r: Step<()>)
    ensures r.state == s
    ensures s.current.None? ==> r.result == Ok(()) && r.calls == []
    ensures s.current.Some? ==>
              r.calls == [CallSend(s.current.value,
                                      Outbound(targetUrl, UserMessage(s.current.value, text, messageId, senderUuid, now)),
                                      sent)]
              && r.result == sent
    ensures r.state.available == LastListing(s.available, r.calls)
  {
    match s.current
    case None => Step(Ok(()), s, [])
    case Some(sessionId) =>
      var outbound := Outbound(targetUrl, UserMessage(sessionId, text, messageId, senderUuid, now));
      Step(sent, s, [CallSend(sessionId, outbound, sent)])
  }

  /** A probe reply that makes the history protocol provision the session:
      a response whose status is not 2xx. A probe that throws is a failure,
      not a miss. */
  predicate Misses(probe: ProbeReply) {
    probe.Responded? && !IsSuccess(probe.status)
  }

  /** Whether the history protocol gets as far as fetching messages: the
      probe responded, and either with 2xx or the provisioning post worked. */
  predicate ReachesFetch(replies: HistoryReplies) {
    replies.probe.Responded? && (IsSuccess(replies.probe.status) || replies.provision.write.Ok?)
  }

  /** `getHistory`: with nothing selected returns an empty history without
      any remote call. Otherwise probes the selected session; a non-2xx
      response provisions it with `createSession` first; then fetches the
      root branch's messages. A failing probe or provisioning aborts the
      protocol before the fetch. The selection never changes. */
  function GetHistory(s: RepoState, now: int, replies: HistoryReplies): (r: Step<seq<Message>>)
    ensures s.current.None? ==> r == Step(Ok([]), s, [])
    ensures r.state.current == s.current
    ensures r.state.available == LastListing(s.available, r.calls)
    ensures s.current.Some? ==>
              var sid := s.current.value;
              && |r.calls| > 0
              && r.calls[0] == CallProbe(sid, replies.probe)
              && (Misses(replies.probe) <==> |r.calls| > 1 && r.calls[1].CallCreate?)
              && (Misses(replies.probe) ==> r.calls[1] == CallCreate(NewSession(sid, None, now), replies.provision.write))
              && (ReachesFetch(replies) <==> r.calls[|r.calls| - 1].CallFetch?)
              && (ReachesFetch(replies) ==> r.calls[|r.calls| - 1] == CallFetch(sid, replies.fetch))
              && (r.result.Ok? <==> ReachesFetch(replies) && replies.fetch.Ok?)
              && (r.result.Ok? ==> r.calls[|r.calls| - 1] == CallFetch(sid, Ok(r.result.value)))
    ensures !ReachesFetch(replies) && s.current.Some? ==>
              r.result.Err? && forall i :: 0 <= i < |r.calls| ==> !r.calls[i].CallFetch?
    ensures s.current.Some? ==>
              var sid := s.current.value;
              var probed := CallProbe(sid, replies.probe);
              var provisioned := CallCreate(NewSession(sid, None, now), replies.provision.write);
              && (replies.probe.ProbeFailed? ==>
                    r.calls == [probed] && r.result == Err(replies.probe.error) && r.state == s)
              && (replies.probe.Responded? && IsSuccess(replies.probe.status) ==>
                    r.calls == [probed, CallFetch(sid, replies.fetch)] && r.result == replies.fetch && r.state == s)
              && (Misses(replies.probe) && replies.provision.write.Err? ==>
                    r.calls == [probed, provisioned] && r.result == Err(replies.provision.write.error)
                    && r.state == s)
              && (Misses(replies.probe) && replies.provision.write.Ok? ==>
                    r.calls == [probed, provisioned, CallList(replies.provision.refresh), CallFetch(sid, replies.fetch)]
                    && r.result == replies.fetch)
  {
    match s.current
    case None => Step(Ok([]), s, [])
    case Some(sid) =>
      var probed := CallProbe(sid, replies.probe);
      match replies.probe
      case ProbeFailed(e) => Step(Err(e), s, [probed])
      case Responded(status) =>
        var provisioned := if IsSuccess(status) then Step(Ok(()), s, [])
                           else CreateSession(s, sid, now, replies.provision);
        LastListingAppend(s.available, [probed], provisioned.calls);
        match provisioned.result
        case Err(e) => Step(Err(e), provisioned.state, [probed] + provisioned.calls)
        case Ok(_) =>
          var fetched := CallFetch(sid, replies.fetch);
          LastListingAppend(s.available, [probed] + provisioned.calls, [fetched]);
          Step(replies.fetch, provisioned.state, [probed] + provisioned.calls + [fetched])
  }

  /** A delete whose list refresh fails keeps the stale list, so deleting
      the selected session re-selects it exactly when it heads that list. */
  lemma StaleListReselectsDeleted(s: RepoState, id: SessionId, e: Error)
    requires s.current == Some(id)
    ensures var r := DeleteSession(s, id, WriteReplies(Ok(()), Err(e)));
            && r.result.Ok? && r.state.available == s.available
            && (r.state.current == Some(id) <==> |s.available| > 0 && s.available[0] == id)
  {
  }
}
