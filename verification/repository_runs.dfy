/** Sequences of repository operations, and the invariants that hold along
    any such sequence. Each command carries the inputs and remote replies of
    one public repository operation. */
module RepositoryRuns {
  import opened Outcomes
  import opened Remote
  import opened Repository

  datatype Command =
    | ListAll(listed: Result<seq<SessionId>>)
    | Select(selectedId: SessionId)
    | CreateNew(title: Option<string>, freshId: SessionId, createdAt: int, createReplies: WriteReplies)
    | CreateIfAbsent(wantedId: SessionId, postedAt: int, ensureReplies: WriteReplies)
    | Delete(deletedId: SessionId, deleteReplies: WriteReplies)
    | SendText(text: string, targetUrl: string, messageId: string, senderUuid: string, sentAt: int, sent: Result<()>)
    | History(probedAt: int, historyReplies: HistoryReplies)

  /** The state a run leaves and the remote calls it made, in order. */
  datatype Trace = Trace(state: RepoState, calls: seq<Call>)

  /** One command, with its result dropped (no caller in a run reads it). */
  function Apply(s: RepoState, c: Command): (t: Trace)
    ensures t.state.available == LastListing(s.available, t.calls)
  {
    match c
    case ListAll(listed) =>
      var r := GetAllSessions(s, listed); Trace(r.state, r.calls)
    case Select(id) =>
      Trace(SetCurrentSession(s, id), [])
    case CreateNew(title, freshId, now, replies) =>
      var r := CreateNewSession(s, title, freshId, now, replies); Trace(r.state, r.calls)
    case CreateIfAbsent(id, now, replies) =>
      var r := CreateSession(s, id, now, replies); Trace(r.state, r.calls)
    case Delete(id, replies) =>
      var r := DeleteSession(s, id, replies); Trace(r.state, r.calls)
    case SendText(text, url, messageId, senderUuid, now, sent) =>
      var r := SendMessage(s, text, url, messageId, senderUuid, now, sent); Trace(r.state, r.calls)
    case History(now, replies) =>
      var r := GetHistory(s, now, replies); Trace(r.state, r.calls)
  }

  /** Runs the commands one after the other. */
  function Run(s: RepoState, cs: seq<Command>): Trace
    decreases |cs|
  {
    if |cs| == 0 then Trace(s, [])
    else
      var first := Apply(s, cs[0]);
      var rest := Run(first.state, cs[1..]);
      Trace(rest.state, first.calls + rest.calls)
  }

  /** Along any run, the session list is exactly what the last successful
      list refresh returned, or the starting list if no refresh succeeded:
      a failed refresh never clobbers the last known list and nothing else
      writes it. */
  lemma {:induction false} AvailableIsLastListing(s: RepoState, cs: seq<Command>)
    ensures Run(s, cs).state.available == LastListing(s.available, Run(s, cs).calls)
    decreases |cs|
  {
    if |cs| > 0 {
      var first := Apply(s, cs[0]);
      AvailableIsLastListing(first.state, cs[1..]);
      LastListingAppend(s.available, first.calls, Run(first.state, cs[1..]).calls);
    }
  }

  /** The selection never becomes null without a delete: every other
      operation either keeps a non-null selection or replaces it with an id. */
  lemma {:induction false} SelectionSurvivesWithoutDelete(s: RepoState, cs: seq<Command>)
    requires s.current.Some?
    requires forall i :: 0 <= i < |cs| ==> !cs[i].Delete?
    ensures Run(s, cs).state.current.Some?
    decreases |cs|
  {
    if |cs| > 0 {
      SelectionSurvivesWithoutDelete(Apply(s, cs[0]).state, cs[1..]);
    }
  }

  /** Commands that never change an existing selection: listing,
      create-if-absent, sending and fetching history. */
  predicate KeepsSelection(c: Command) {
    c.ListAll? || c.CreateIfAbsent? || c.SendText? || c.History?
  }

  /** Once something is selected, a run of create-if-absent, list, send and
      history commands leaves the selection exactly as it was. */
  lemma {:induction false} SelectionStableUnderCreateIfAbsent(s: RepoState, cs: seq<Command>)
    requires s.current.Some?
    requires forall i :: 0 <= i < |cs| ==> KeepsSelection(cs[i])
    ensures Run(s, cs).state.current == s.current
    decreases |cs|
  {
    if |cs| > 0 {
      assert KeepsSelection(cs[0]);
      SelectionStableUnderCreateIfAbsent(Apply(s, cs[0]).state, cs[1..]);
    }
  }

  /** The selection a run of `createNewSession` calls leaves: the id of the
      last create whose post succeeded, or `before` if none did. */
  function LastCreated(before: Option<SessionId>, cs: seq<Command>): Option<SessionId>
    requires forall i :: 0 <= i < |cs| ==> cs[i].CreateNew?
    decreases |cs|
  {
    if |cs| == 0 then before
    else
      var last := cs[|cs| - 1];
      if last.createReplies.write.Ok? then Some(last.freshId)
      else LastCreated(before, cs[..|cs| - 1])
  }

  /** Running `first` and then `second` is the run of their concatenation. */
  lemma {:induction false} RunAppend(s: RepoState, first: seq<Command>, second: seq<Command>)
    ensures Run(s, first + second).state == Run(Run(s, first).state, second).state
    decreases |first|
  {
    if |first| == 0 {
      assert first + second == second;
    } else {
      assert (first + second)[0] == first[0];
      assert (first + second)[1..] == first[1..] + second;
      RunAppend(Apply(s, first[0]).state, first[1..], second);
    }
  }

  /** Each successful `createNewSession` selects the session it made, so after
      several creates the last successful one is selected, whatever the list
      refreshes in between returned. */
  lemma {:induction false} LastCreatedIsSelected(s: RepoState, cs: seq<Command>)
    requires forall i :: 0 <= i < |cs| ==> cs[i].CreateNew?
    ensures Run(s, cs).state.current == LastCreated(s.current, cs)
    decreases |cs|
  {
    if |cs| > 0 {
      var init := cs[..|cs| - 1];
      var last := cs[|cs| - 1];
      assert cs == init + [last];
      RunAppend(s, init, [last]);
      LastCreatedIsSelected(s, init);
      var mid := Run(s, init).state;
      assert Run(mid, [last]).state == Apply(mid, last).state;
    }
  }
}
