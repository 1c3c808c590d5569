/** `ChatViewModel`: the message list and the busy flag layered on the
    repository.

    The view model shows the repository's two values and adds its own
    message list, which every history fetch replaces wholesale (cleared to
    empty on any failure), and a flag that is raised while a session is
    being created. Each operation is modelled as the sequential effect of
    the coroutine it launches; the replies of the remote calls are inputs. */
module ChatViewModel {
  import opened Outcomes
  import opened Remote
  import opened Repository

  /** Everything a screen observes: the repository's values, the messages
      and the busy flag. */
  datatype ChatState = ChatState(repo: RepoState, messages: seq<Message>, isCreatingSession: bool)

  /** The state an operation leaves and the remote calls it made. */
  datatype Effect = Effect(chat: ChatState, calls: seq<Call>)

  /** The two observable moments of a session creation: while the remote
      call is in flight, and once it has settled. */
  datatype Busy = Busy(during: ChatState, settled: Effect)

  /** The view model right after construction over `repo`, before its
      start-up coroutine has run. */
  function Initial(repo: RepoState): (c: ChatState)
    ensures c.repo == repo
    ensures c.messages == []
    ensures !c.isCreatingSession
  {
    ChatState(repo, [], false)
  }

  /** The message list a history result folds into. */
  function Shown(history: Result<seq<Message>>): seq<Message> {
    match history
    case Ok(messages) => messages
    case Err(_) => []
  }

  /** The session list the history protocol leaves: the provisioning
      refresh's payload when the probe missed and both the provisioning
      post and its refresh worked, and the list as it was otherwise. */
  function HistoryListing(repo: RepoState, replies: HistoryReplies): seq<SessionId> {
    if repo.current.Some? && Misses(replies.probe) && replies.provision.write.Ok? && replies.provision.refresh.Ok?
    then replies.provision.refresh.value
    else repo.available
  }

  /** `refreshMessages`: fetches the selected session's history and
      replaces the whole message list with it, or with the empty list when
      the fetch fails. */
  function RefreshMessages(c: ChatState, now: int, replies: HistoryReplies): (r: Effect)
    ensures r.chat.messages == ShownHistory(r.calls)
    ensures r.chat.repo.current == c.repo.current
    ensures r.chat.repo.available == LastListing(c.repo.available, r.calls)
    ensures r.chat.isCreatingSession == c.isCreatingSession
    ensures c.repo.current.None? ==> r.chat.messages == [] && r.calls == []
    ensures c.repo.current.Some? && ReachesFetch(replies) && replies.fetch.Ok?
            ==> r.chat.messages == replies.fetch.value
    ensures !(ReachesFetch(replies) && replies.fetch.Ok?) ==> r.chat.messages == []
    ensures r.calls == GetHistory(c.repo, now, replies).calls
    ensures r.chat.repo.available == HistoryListing(c.repo, replies)
  {
    var h := GetHistory(c.repo, now, replies);
    Effect(ChatState(h.state, Shown(h.result), c.isCreatingSession), h.calls)
  }

  /** The shown history only depends on the final call. */
  lemma ShownHistoryOfSuffix(prefix: seq<Call>, suffix: seq<Call>)
    requires |suffix| > 0
    ensures ShownHistory(prefix + suffix) == ShownHistory(suffix)
  {
  }

  /** `send`: sends the text and, only if the send succeeded, fetches the
      history; the message list becomes that history when both succeed and
      the empty list when either fails. Sending with nothing selected
      succeeds silently and then shows an empty history. The message is
      stamped at `sentAt`; a session provisioned by the follow-up fetch is
      stamped at `fetchAt`, a separate clock reading. */
  function Send(c: ChatState, text: string, targetUrl: string, messageId: string, senderUuid: string,
                sentAt: int, sent: Result<()>, fetchAt: int, replies: HistoryReplies): (r: Effect)
    ensures r.chat.messages == ShownHistory(r.calls)
    ensures r.chat.repo.current == c.repo.current
    ensures r.chat.repo.available == LastListing(c.repo.available, r.calls)
    ensures r.chat.isCreatingSession == c.isCreatingSession
    ensures c.repo.current.None? ==> r.chat.messages == [] && r.calls == []
    ensures c.repo.current.Some? ==>
              |r.calls| > 0
              && r.calls[0] == CallSend(c.repo.current.value,
                                        Outbound(targetUrl, UserMessage(c.repo.current.value, text, messageId, senderUuid, sentAt)),
                                        sent)
    ensures c.repo.current.Some? && sent.Err? ==> r.chat.messages == [] && |r.calls| == 1
    ensures c.repo.current.Some? && sent.Ok? ==>
              |r.calls| > 1 && r.calls[1] == CallProbe(c.repo.current.value, replies.probe)
              && r.calls[1..] == GetHistory(c.repo, fetchAt, replies).calls
              && r.chat.repo.available == HistoryListing(c.repo, replies)
    ensures sent.Err? ==> r.chat.repo == c.repo
    ensures c.repo.current.Some? && sent.Ok? && ReachesFetch(replies) && replies.fetch.Ok?
            ==> r.chat.messages == replies.fetch.value
    ensures r.chat.messages != [] ==>
              c.repo.current.Some? && sent.Ok? && ReachesFetch(replies) && replies.fetch == Ok(r.chat.messages)
  {
    var posted := SendMessage(c.repo, text, targetUrl, messageId, senderUuid, sentAt, sent);
    match posted.result
    case Err(_) => Effect(c.(messages := []), posted.calls)
    case Ok(_) =>
      var h := GetHistory(posted.state, fetchAt, replies);
      LastListingAppend(c.repo.available, posted.calls, h.calls);
      assert |h.calls| > 0 ==> ShownHistory(posted.calls + h.calls) == ShownHistory(h.calls) by {
        if |h.calls| > 0 { ShownHistoryOfSuffix(posted.calls, h.calls); }
      }
      Effect(ChatState(h.state, Shown(h.result), c.isCreatingSession), posted.calls + h.calls)
  }

  /** `createSession`: raises the busy flag, creates a fresh session through
      the repository (which selects it on success), and lowers the flag
      once the call has settled, whether it succeeded or failed. The
      messages are not touched by the call itself. */
  function CreateSession(c: ChatState, title: Option<string>, freshId: SessionId, now: int,
                         replies: WriteReplies): (r: Busy)
    ensures r.during.isCreatingSession
    ensures r.during.repo == c.repo && r.during.messages == c.messages
    ensures !r.settled.chat.isCreatingSession
    ensures r.settled.chat.messages == c.messages
    ensures replies.write.Ok? ==> r.settled.chat.repo.current == Some(freshId)
    ensures replies.write.Err? ==> r.settled.chat.repo == c.repo
    ensures r.settled.chat.repo.available == LastListing(c.repo.available, r.settled.calls)
    ensures r.settled.calls == [CallCreate(NewSession(freshId, title, now), replies.write)]
                               + (if replies.write.Ok? then [CallList(replies.refresh)] else [])
    ensures replies.write.Ok? ==>
              r.settled.chat.repo.available == (if replies.refresh.Ok? then replies.refresh.value else c.repo.available)
  {
    var during := c.(isCreatingSession := true);
    var created := CreateNewSession(during.repo, title, freshId, now, replies);
    Busy(during, Effect(during.(repo := created.state, isCreatingSession := false), created.calls))
  }

  /** `selectSession`: only selects `id` in the repository. */
  function SelectSession(c: ChatState, id: SessionId): (r: ChatState)
    ensures r.repo.current == Some(id)
    ensures r.repo.available == c.repo.available
    ensures r.messages == c.messages
    ensures r.isCreatingSession == c.isCreatingSession
  {
    c.(repo := SetCurrentSession(c.repo, id))
  }

  /** `deleteSession`: launches the repository delete and reports success
      at once; the repository's own outcome is only logged, so a failed
      delete is invisible to the caller and leaves the state as it was. */
  function DeleteSession(c: ChatState, id: SessionId, replies: WriteReplies): (r: (Result<()>, Effect))
    ensures r.0 == Ok(())
    ensures r.1.chat.messages == c.messages
    ensures r.1.chat.isCreatingSession == c.isCreatingSession
    ensures replies.write.Err? ==> r.1.chat.repo == c.repo
    ensures replies.write.Ok? && c.repo.current == Some(id)
            ==> r.1.chat.repo.current == FirstOrNone(r.1.chat.repo.available)
    ensures c.repo.current != Some(id) ==> r.1.chat.repo.current == c.repo.current
    ensures r.1.chat.repo.available == LastListing(c.repo.available, r.1.calls)
    ensures r.1.calls == [CallDelete(id, replies.write)] + (if replies.write.Ok? then [CallList(replies.refresh)] else [])
    ensures replies.write.Ok? ==>
              r.1.chat.repo.available == (if replies.refresh.Ok? then replies.refresh.value else c.repo.available)
  {
    var deleted := Repository.DeleteSession(c.repo, id, replies);
    (Ok(()), Effect(c.(repo := deleted.state), deleted.calls))
  }

  /** The body of the observer of the current session id: a null id clears
      the messages, a non-null id refreshes them. */
  function OnCurrentId(c: ChatState, now: int, replies: HistoryReplies): (r: Effect)
    ensures r.chat.messages == ShownHistory(r.calls)
    ensures c.repo.current.None? ==> r.chat == c.(messages := []) && r.calls == []
    ensures c.repo.current.Some? ==> |r.calls| > 0 && r.calls[0] == CallProbe(c.repo.current.value, replies.probe)
    ensures c.repo.current.Some? && ReachesFetch(replies) && replies.fetch.Ok?
            ==> r.chat.messages == replies.fetch.value
    ensures !(ReachesFetch(replies) && replies.fetch.Ok?) ==> r.chat.messages == []
    ensures r.chat.repo.current == c.repo.current
    ensures r.chat.repo.available == LastListing(c.repo.available, r.calls)
    ensures r.chat.repo.available == HistoryListing(c.repo, replies)
    ensures r.calls == GetHistory(c.repo, now, replies).calls
    ensures r.chat.isCreatingSession == c.isCreatingSession
  {
    match c.repo.current
    case None => Effect(c.(messages := []), [])
    case Some(_) => RefreshMessages(c, now, replies)
  }

  /** The observer's reaction to an operation that started with `before`
      selected and produced `e`. A state flow only emits a value different
      from the last one, so the observer runs only when the selection
      changed. */
  function React(before: Option<SessionId>, e: Effect, now: int, replies: HistoryReplies): (r: Effect)
    ensures e.chat.repo.current == before ==> r == e
    ensures |r.calls| >= |e.calls| && r.calls[..|e.calls|] == e.calls
    ensures e.chat.repo.current != before ==> r.chat.messages == ShownHistory(r.calls[|e.calls|..])
    ensures e.chat.repo.current != before && e.chat.repo.current.None? ==>
              r.calls == e.calls && r.chat == e.chat.(messages := [])
    ensures e.chat.repo.current != before && e.chat.repo.current.Some? ==>
              && |r.calls| > |e.calls|
              && r.calls[|e.calls|] == CallProbe(e.chat.repo.current.value, replies.probe)
              && (ReachesFetch(replies) && replies.fetch.Ok? ==> r.chat.messages == replies.fetch.value)
              && (!(ReachesFetch(replies) && replies.fetch.Ok?) ==> r.chat.messages == [])
    ensures r.chat.repo.current == e.chat.repo.current
    ensures r.chat.repo.available == LastListing(e.chat.repo.available, r.calls[|e.calls|..])
    ensures e.chat.repo.current != before ==>
              r.calls[|e.calls|..] == GetHistory(e.chat.repo, now, replies).calls
              && r.chat.repo.available == HistoryListing(e.chat.repo, replies)
    ensures r.chat.isCreatingSession == e.chat.isCreatingSession
  {
    if e.chat.repo.current == before then e
    else
      var observed := OnCurrentId(e.chat, now, replies);
      assert (e.calls + observed.calls)[|e.calls|..] == observed.calls;
      Effect(observed.chat, e.calls + observed.calls)
  }

  /** The start-up coroutine: refresh the list, provision the "default"
      session (selecting it only if nothing is selected), then the observer
      sees the current id for the first time. */
  function Start(repo: RepoState, listed: Result<seq<SessionId>>, defaultAt: int, provision: WriteReplies,
                 now: int, replies: HistoryReplies): (r: Effect)
    ensures r.chat.messages == ShownHistory(r.calls)
    ensures !r.chat.isCreatingSession
    ensures repo.current.Some? ==> r.chat.repo.current == repo.current
    ensures repo.current.None? ==>
              r.chat.repo.current == (if provision.write.Ok? then Some(DefaultSessionId) else None)
    ensures r.chat.repo.available == LastListing(repo.available, r.calls)
    ensures |r.calls| > 1 && r.calls[0] == CallList(listed)
            && r.calls[1] == CallCreate(NewSession(DefaultSessionId, None, defaultAt), provision.write)
    ensures var k := if provision.write.Ok? then 3 else 2;
            && (provision.write.Ok? ==> |r.calls| > 2 && r.calls[2] == CallList(provision.refresh))
            && (r.chat.repo.current.None? ==> |r.calls| == k && r.chat.messages == [])
            && (r.chat.repo.current.Some? ==>
                  && |r.calls| > k
                  && r.calls[k] == CallProbe(r.chat.repo.current.value, replies.probe)
                  && (ReachesFetch(replies) && replies.fetch.Ok? ==> r.chat.messages == replies.fetch.value)
                  && (!(ReachesFetch(replies) && replies.fetch.Ok?) ==> r.chat.messages == []))
    ensures var k := if provision.write.Ok? then 3 else 2;
            var ensured := Repository.CreateSession(GetAllSessions(repo, listed).state, DefaultSessionId, defaultAt, provision);
            && r.calls[..k] == [CallList(listed)] + ensured.calls
            && r.calls[k..] == GetHistory(ensured.state, now, replies).calls
            && r.chat.repo.available == HistoryListing(ensured.state, replies)
  {
    var c := Initial(repo);
    var refreshed := GetAllSessions(c.repo, listed);
    var ensured := Repository.CreateSession(refreshed.state, DefaultSessionId, defaultAt, provision);
    var observed := OnCurrentId(c.(repo := ensured.state), now, replies);
    var calls := refreshed.calls + ensured.calls + observed.calls;
    LastListingAppend(repo.available, refreshed.calls, ensured.calls);
    LastListingAppend(repo.available, refreshed.calls + ensured.calls, observed.calls);
    assert observed.chat.messages == ShownHistory(calls) by {
      if |observed.calls| > 0 {
        ShownHistoryOfSuffix(refreshed.calls + ensured.calls, observed.calls);
      } else {
        assert calls == refreshed.calls + ensured.calls;
        assert calls[|calls| - 1] == ensured.calls[|ensured.calls| - 1];
      }
    }
    Effect(observed.chat, calls)
  }

  /** Started over a freshly constructed repository, the view model keeps
      "default" selected and shows that session's history. */
  lemma StartKeepsDefault(listed: Result<seq<SessionId>>, defaultAt: int, provision: WriteReplies,
                          now: int, replies: HistoryReplies)
    ensures var r := Start(Init(), listed, defaultAt, provision, now, replies);
            && r.chat.repo.current == Some(DefaultSessionId)
            && r.calls[|r.calls| - 1].CallFetch? == ReachesFetch(replies)
  {
  }

  /** Selecting a different session makes the observer fetch that
      session's history, and the list then shows exactly what that fetch
      returned; selecting the already selected session does nothing more. */
  lemma SelectThenObserve(c: ChatState, id: SessionId, now: int, replies: HistoryReplies)
    ensures var r := React(c.repo.current, Effect(SelectSession(c, id), []), now, replies);
            && (c.repo.current == Some(id) ==> r == Effect(c, []))
            && (c.repo.current != Some(id) ==>
                  && r.calls[0] == CallProbe(id, replies.probe)
                  && r.chat.messages == ShownHistory(r.calls)
                  && r.chat.repo.current == Some(id))
  {
  }

  /** A successful create selects a session that was not selected before,
      so the observer then fetches that session's history; the busy flag
      stays lowered throughout the refresh. */
  lemma CreateThenObserve(c: ChatState, title: Option<string>, freshId: SessionId, now: int,
                          replies: WriteReplies, at: int, history: HistoryReplies)
    requires replies.write.Ok? && c.repo.current != Some(freshId)
    ensures var settled := CreateSession(c, title, freshId, now, replies).settled;
            var r := React(c.repo.current, settled, at, history);
            && r.chat.repo.current == Some(freshId)
            && |r.calls| > |settled.calls|
            && r.calls[|settled.calls|] == CallProbe(freshId, history.probe)
            && r.chat.messages == ShownHistory(r.calls[|settled.calls|..])
            && !r.chat.isCreatingSession
  {
  }

  /** Deleting the selected session clears the messages once the observer
      sees an empty fallback: nothing is left to show. */
  lemma DeleteLastSessionClearsMessages(c: ChatState, id: SessionId, replies: WriteReplies,
                                        now: int, history: HistoryReplies)
    requires c.repo.current == Some(id)
    requires replies.write.Ok? && replies.refresh == Ok([])
    ensures var r := React(c.repo.current, DeleteSession(c, id, replies).1, now, history);
            r.chat.repo.current.None? && r.chat.messages == []
  {
  }
}
