# Chat session synchronisation core, modelled in Dafny

This project models the client-side core of a Kotlin chat application:
`KtorChatRepository`, which owns the selected session id and the list of
known session ids, and `ChatViewModel`, which layers the message list and a
"creating session" busy flag on top of it.

Every remote call (list, create, delete, probe, fetch history, send) is an
input: the model receives the call's reply (`Result` for a call that either
throws or returns, `ProbeReply` for the probe, which can also answer with a
non-2xx status). Every operation is a pure function from the old state and
those replies to its result, the new state, and the transcript (`seq<Call>`)
of the remote calls it made, in order, each paired with its reply. The
transcript is what lets the contracts say "no remote call was made", "the
session is provisioned before its messages are fetched" and "a failed probe
aborts the protocol before the fetch".

Two reference definitions over transcripts give the operations an
independent partner:

- `Remote.LastListing(before, calls)`: the payload of the last successful
  list call, or `before` when there was none. Every operation, and every run
  of operations, leaves exactly that list in the repository.
- `Remote.ShownHistory(calls)`: the payload of the final call when that call
  is a successful history fetch, and the empty list otherwise. Every view-model
  operation that touches messages leaves exactly that list on screen. This is
  the full-replace policy: what the history endpoint last returned, or
  nothing.

Files:

- `outcomes.dfy` (`Outcomes`): `Option`, `Error`, `Result` (Arrow's `Either`), `FirstOrNone`.
- `remote.dfy` (`Remote`): the `Session` and `Message` records, the reply and call types, the transcript reference functions.
- `repository.dfy` (`Repository`): the repository's state and its eight operations.
- `repository_runs.dfy` (`RepositoryRuns`): runs of repository commands and the invariants along them.
- `chat_view_model.dfy` (`ChatViewModel`): the view model's state, operations, the current-id observer and the start-up coroutine.

## Behaviour worth noting

- `getHistory` does not re-check the selected id after its fetch, and `refreshMessages` commits whatever comes back.
- A failed `send` clears the message list to empty (`ChatViewModel.Send`).
- `ChatViewModel.deleteSession` always returns `Right(Unit)`. The repository's error is only logged.
- After deleting the selected session with a failed list refresh, the repository falls back to the first id of the stale list. That id can be the deleted one (`Repository.StaleListReselectsDeleted`). With a failed refresh, the deleted id is re-selected exactly when it heads the stale list. It is guaranteed to be gone only when the refresh succeeds without it.
- The repository starts with "default" already selected. The view model's start-up create-if-absent of "default" therefore never changes the selection (`ChatViewModel.StartKeepsDefault`).

## Model

| member | source | states |
|---|---|---|
| Repository.Init | composeApp/src/commonMain/kotlin/io/availe/repositories/KtorChatRepository.kt:29-41 | a new repository has "default" selected and an empty session list |
| Repository.GetAllSessions | composeApp/src/commonMain/kotlin/io/availe/repositories/KtorChatRepository.kt:46-51 | one list call; on success the list becomes exactly the returned list and is returned; on failure nothing changes; the selection is never touched |
| Repository.SetCurrentSession | composeApp/src/commonMain/kotlin/io/availe/repositories/KtorChatRepository.kt:56-58 | selects the id unconditionally and leaves the list alone |
| Repository.CreateNewSession | composeApp/src/commonMain/kotlin/io/availe/repositories/KtorChatRepository.kt:64-86 | succeeds exactly when the post succeeds; then returns and selects the fresh id even if the list refresh failed; a failed post changes nothing and makes only that one call |
| Repository.CreateSession | composeApp/src/commonMain/kotlin/io/availe/repositories/KtorChatRepository.kt:92-115 | never changes a non-null selection; the selection changes exactly when nothing was selected and the post succeeded, and then becomes the given id |
| Repository.DeleteSession | composeApp/src/commonMain/kotlin/io/availe/repositories/KtorChatRepository.kt:120-131 | a successful delete makes exactly a delete call then a list call; if the deleted id was selected, the selection becomes the first id of the refreshed list (of the old list when the refresh failed) or null; a non-selected delete keeps the selection; if the refresh succeeded without the id, the id is no longer selected; a failed delete changes nothing |
| Repository.StaleListReselectsDeleted | composeApp/src/commonMain/kotlin/io/availe/repositories/KtorChatRepository.kt:125-130 | a successful delete of the selected id with a failed refresh keeps the stale list and selects that same id again exactly when it heads that list |
| Repository.NewSession | composeApp/src/commonMain/kotlin/io/availe/repositories/KtorChatRepository.kt:94-102 | the session record posted by both create operations is active, has no participants, carries the given id and title, and is created and last active at the same clock reading |
| Repository.UserMessage | composeApp/src/commonMain/kotlin/io/availe/repositories/KtorChatRepository.kt:141-154 | the sent message is a pending user message of the selected session whose payload is the text as English text content and whose sender id is "user-" followed by a UUID |
| Repository.SendMessage | composeApp/src/commonMain/kotlin/io/availe/repositories/KtorChatRepository.kt:137-159 | with nothing selected, succeeds with no remote call; otherwise exactly one post to the selected session, whose outcome is the result; the state is never modified |
| Repository.GetHistory | composeApp/src/commonMain/kotlin/io/availe/repositories/KtorChatRepository.kt:164-177 | with nothing selected, an empty history and no call; otherwise the exact call sequence in each branch: a thrown probe stops after the probe, a 2xx probe goes straight to the fetch, a non-2xx probe provisions the session (post, then list) before the fetch, and a failed provisioning stops with its error and no fetch; the result is the fetch reply when reached; the selection never changes |
| RepositoryRuns.AvailableIsLastListing | composeApp/src/commonMain/kotlin/io/availe/repositories/KtorChatRepository.kt:46-51 | along any run of repository operations the session list is what the last successful list call returned, or the starting list |
| RepositoryRuns.SelectionSurvivesWithoutDelete | composeApp/src/commonMain/kotlin/io/availe/repositories/KtorChatRepository.kt:127-130 | a non-null selection stays non-null along any run without a delete |
| RepositoryRuns.SelectionStableUnderCreateIfAbsent | composeApp/src/commonMain/kotlin/io/availe/repositories/KtorChatRepository.kt:111-114 | once something is selected, any run of create-if-absent, list, send and history operations keeps exactly that selection |
| RepositoryRuns.LastCreatedIsSelected | composeApp/src/commonMain/kotlin/io/availe/repositories/KtorChatRepository.kt:81-83 | after a run of new-session creations the selected id is that of the last creation whose post succeeded, or the starting selection |
| ChatViewModel.Initial | composeApp/src/commonMain/kotlin/io/availe/viewmodels/ChatViewModel.kt:21-30 | a new view model shows no messages and is not creating a session |
| ChatViewModel.RefreshMessages | composeApp/src/commonMain/kotlin/io/availe/viewmodels/ChatViewModel.kt:64-70 | the messages become exactly what the final successful history fetch returned, and empty on any failure; prior messages play no part |
| ChatViewModel.Send | composeApp/src/commonMain/kotlin/io/availe/viewmodels/ChatViewModel.kt:75-84 | with a selection the first call is the send of the pending user message; a failed send clears the messages without fetching; a successful send is followed by the history probe, and the messages become the fetched history when the fetch is reached and succeeds, and empty otherwise; with nothing selected, no call and no messages |
| ChatViewModel.CreateSession | composeApp/src/commonMain/kotlin/io/availe/viewmodels/ChatViewModel.kt:89-98 | the busy flag is raised while the call is in flight and lowered once it settles, on success or failure; success selects the new id |
| ChatViewModel.SelectSession | composeApp/src/commonMain/kotlin/io/availe/viewmodels/ChatViewModel.kt:104-106 | only the selection changes; messages, busy flag and list are untouched |
| ChatViewModel.DeleteSession | composeApp/src/commonMain/kotlin/io/availe/viewmodels/ChatViewModel.kt:112-124 | always reports success; a failed repository delete leaves everything as it was; messages are not touched by the call |
| ChatViewModel.OnCurrentId | composeApp/src/commonMain/kotlin/io/availe/viewmodels/ChatViewModel.kt:51-57 | a null selection clears the messages with no call; a non-null one makes exactly the history protocol's calls, starting with the probe of that id, and the messages become the fetched history when the fetch is reached and succeeds, and empty otherwise; the list changes only to the provisioning refresh's payload after a missed probe |
| ChatViewModel.React | composeApp/src/commonMain/kotlin/io/availe/viewmodels/ChatViewModel.kt:51-57 | the observer runs only on a changed selection, appending its calls: a new null selection clears the messages with no call, a new id is probed next and its fetched history (or empty on failure) is shown |
| ChatViewModel.Start | composeApp/src/commonMain/kotlin/io/availe/viewmodels/ChatViewModel.kt:34-59 | start-up lists sessions, then provisions "default" (post, and a list call when the post works), selecting it only if nothing was selected; then the observer probes the selected id and shows its fetched history, or clears the messages when nothing is selected |
| ChatViewModel.StartKeepsDefault | composeApp/src/commonMain/kotlin/io/availe/viewmodels/ChatViewModel.kt:34-59 | started over a new repository, "default" stays selected and the last call is a history fetch exactly when the history protocol reaches it |
| ChatViewModel.SelectThenObserve | composeApp/src/commonMain/kotlin/io/availe/viewmodels/ChatViewModel.kt:104-106 | selecting a different session makes the observer probe that session and show what its fetch returned; re-selecting the selected session changes nothing else |
| ChatViewModel.CreateThenObserve | composeApp/src/commonMain/kotlin/io/availe/viewmodels/ChatViewModel.kt:89-98 | a successful create of an unselected id makes the observer fetch the new session's history with the busy flag lowered |
| ChatViewModel.DeleteLastSessionClearsMessages | composeApp/src/commonMain/kotlin/io/availe/viewmodels/ChatViewModel.kt:112-124 | deleting the selected session when the server lists none leaves nothing selected and no messages |

## Left out

- HTTP, URLs, JSON and the relayed payload's wire format: each remote call is reduced to its reply, given as an input.
- Whether a non-2xx reply throws: the HTTP client configuration is not part of this model. A write or list call is simply a success or a failure, and only the probe's status code is inspected.
- UUIDs and the clock: the fresh session id, message id, sender suffix and timestamps are inputs.
- Coroutine scheduling: `scope.launch`, `Dispatchers.Main` and `collectLatest` cancellation of an in-flight refresh are concurrency. Each operation is modelled as running to completion before the next starts. So two overlapping creates cannot interleave their busy-flag writes here, and a stale fetch cannot land after a newer selection.
- ChatViewModel.React: the observer is modelled as reacting once, to the selection an operation leaves at its end. It does not react to intermediate values of the selection while the operation is in flight.
- ChatViewModel.DeleteSession: the launched delete is modelled as completing before the result is returned. In the Kotlin code the result is returned first and the delete finishes later.
- The error logging in `deleteSession` (a `println`) and the empty error handlers in the view model: they have no effect on state.
- The user interface (`App.kt`, `ChatSidebar.kt`) and the example backend's database configuration: no state logic.
