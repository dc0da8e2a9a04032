# Emerald Chat client state, in Dafny

This project models the client-side state logic of the Emerald Chat web
client, an Angular single-page chat application backed by Supabase. It does
not model the UI framework or the backend SDK. It covers:

- **`ChatStateService`**, the chat state service. It holds the message list of
  the selected room, the selection, the public rooms, the direct messages and
  the presence set. Its operations are: loading rooms, selecting a room,
  loading the history, the optimistic send with its confirmation or rollback,
  the status rewrite, the realtime INSERT merge and the presence sync. The
  `dms$` projection is modelled too. The service is the class
  `ChatState.ChatStateService`, with one field per `BehaviorSubject`. Each
  async action is split at its `await`, and the backend's answer (rows or an
  error) becomes a parameter of the step that runs after it. The list
  transforms inside these actions (`map`/`filter`) are the pure functions of
  `MessageLedger` and `Directory`.
- **The chat window's view model**: the `vm$` projection (`ChatWindow.Compose`).
  It names the selected conversation by a three-level resolution order: a
  public room, then a direct message, then the first message from someone
  else. When none of these applies it falls back to defaults.
- **The message input**: the text buffer, `handleSend` and `onKeyDown`. This
  is the class `MessageInput.MessageInputComponent`, with a log of emitted
  values.
- **The typing indicator's sentence** (`TypingIndicator`) and **the header's
  initials** (`ChatHeader`).
- **The JavaScript built-ins these rely on** (`filter`, `find`, `some`,
  `join`, `split`, `trim`, `slice`). They are modelled in `JsArray` and
  `JsString` over sequences of Unicode code points and proved correct
  against independent characterisations. `FindIndex` is the helper that
  `Find` is built on.

Files: `wrappers.dfy`, `js_array.dfy`, `js_string.dfy`, `models.dfy`,
`message_ledger.dfy`, `directory.dfy`, `chat_state.dfy`, `chat_window.dfy`,
`message_input.dfy`, `typing_indicator.dfy`, `chat_header.dfy`.

Conventions that follow JavaScript truthiness in the source:

- The empty selected-room id means "nothing selected".
- A signed-in user id of `""` counts as no user.
- A direct message whose `userId` is `""` is offline.
- A profile whose username or avatar URL is `""` falls back to the default.
- A room with a missing `is_dm` is a public room.

## Model

| member | source | states |
|---|---|---|
| `JsArray.Filter` | src/app/core/services/chat-state.service.ts:70-71 | `filter` keeps exactly the elements satisfying the predicate and never grows the list |
| `JsArray.FilterAppend` | src/app/core/services/chat-state.service.ts:182 | filtering a concatenation filters each part, so filtering preserves order |
| `JsArray.FilterPartition` | src/app/core/services/chat-state.service.ts:70-71 | two complementary filters split the input: their lengths add up to the input's |
| `JsArray.FilterAt` | src/app/core/services/chat-state.service.ts:70-71 | a kept element lands at the index given by the number of kept elements before it |
| `JsArray.FilterKeepsOrder` | src/app/core/services/chat-state.service.ts:182 | two kept elements at i < j appear at increasing indices of the result |
| `JsArray.FilterKeepsAll` | src/app/core/services/chat-state.service.ts:182 | a filter every element passes returns its input unchanged |
| `JsArray.FindIndex` | src/app/ui/chat/chat-window/chat-window.component.ts:42-44 | the first-match search behind `find`: the first index whose element satisfies the predicate, or none when no element does |
| `JsArray.Find` | src/app/ui/chat/chat-window/chat-window.component.ts:42-44 | `find` returns a value exactly when some element matches, and then the first matching element |
| `JsString.JoinSnoc` | src/app/ui/chat/typing-indicator/typing-indicator.component.ts:24 | appending a piece to a non-empty list appends the separator and the piece to the join |
| `JsString.Split` | src/app/ui/chat/chat-header/chat-header.component.ts:23 | `split(c)` gives one more piece than there are separators, and no piece contains the separator |
| `JsString.JoinSplit` | src/app/ui/chat/chat-header/chat-header.component.ts:23 | joining the pieces of a split with the separator gives back the string |
| `JsString.SplitJoin` | src/app/ui/chat/chat-header/chat-header.component.ts:23 | separator-free pieces, joined with the separator, split back into the same pieces |
| `JsString.SplitWithoutSeparator` | src/app/ui/chat/chat-header/chat-header.component.ts:23 | a string without the separator splits into itself alone |
| `JsString.SplitAtFirstSeparator` | src/app/ui/chat/chat-header/chat-header.component.ts:23 | a separator after a separator-free prefix closes the first piece |
| `JsString.TrimStart` | src/app/ui/chat/message-input/message-input.component.ts:50 | the result is a suffix of the input, everything removed is whitespace, and it does not start with whitespace |
| `JsString.TrimEnd` | src/app/ui/chat/message-input/message-input.component.ts:50 | the result is a prefix of the input, everything removed is whitespace, and it does not end with whitespace |
| `JsString.Trim` | src/app/ui/chat/message-input/message-input.component.ts:50 | a non-empty trimmed string neither starts nor ends with whitespace |
| `JsString.TrimEmptyIffBlank` | src/app/ui/chat/message-input/message-input.component.ts:50 | `trim()` yields `""` exactly when every character is whitespace |
| `JsString.Prefix` | src/app/core/services/chat-state.service.ts:228 | `slice(0, n)` is a prefix of the string, of n elements or the whole string when shorter (code points, which agree with UTF-16 units on the ASCII ids sliced) |
| `MessageLedger.Confirm` | src/app/core/services/chat-state.service.ts:169-177 | the confirmation keeps the length; entries with the temporary id take the server id, timestamp and `Delivered` at the same index with content, sender, avatar, ownership and profile kept; all other entries are unchanged |
| `MessageLedger.Remove` | src/app/core/services/chat-state.service.ts:182 | after the rollback no entry carries the temporary id, and exactly the entries with another id survive |
| `MessageLedger.SetStatus` | src/app/core/services/chat-state.service.ts:186-191 | only the status of entries with the given id changes; the length, the order and every other field are preserved |
| `MessageLedger.OptimisticAppend` | src/app/core/services/chat-state.service.ts:141-153 | the optimistic step appends exactly one entry at the end: temporary id, the content, own, `Sent`; earlier entries are unchanged |
| `MessageLedger.RemoveCount` | src/app/core/services/chat-state.service.ts:182 | the rollback shortens the list by exactly the number of entries carrying the id |
| `MessageLedger.RemoveKeepsOrder` | src/app/core/services/chat-state.service.ts:182 | the entries that survive the rollback keep their relative order |
| `MessageLedger.RollbackRestores` | src/app/core/services/chat-state.service.ts:153-182 | with a temporary id not already listed, rolling back after the optimistic append restores the list exactly, and so its length |
| `MessageLedger.ConfirmAfterSend` | src/app/core/services/chat-state.service.ts:153-177 | with a fresh temporary id, the confirmation rewrites the appended entry in place (server id, server timestamp, `Delivered`), with no second copy |
| `MessageLedger.EchoAfterConfirmIgnored` | src/app/core/services/chat-state.service.ts:213-215 | after the confirmation, the realtime copy with the same server id leaves the list unchanged |
| `MessageLedger.EchoBeforeConfirmIgnored` | src/app/core/services/chat-state.service.ts:217-222 | an echo of the user's own message that arrives before the confirmation leaves the optimistic list unchanged, and with a fresh temporary id the confirmation then still rewrites the entry in place |
| `MessageLedger.RemoteInsertSpec` | src/app/core/services/chat-state.service.ts:213-235 | the realtime merge changes nothing exactly when the id is already listed or the sender is the current user; otherwise it appends one entry with that id and content, not own, `Read` |
| `MessageLedger.RemoteInsertIdempotent` | src/app/core/services/chat-state.service.ts:213-215 | delivering the same realtime row twice adds it at most once |
| `MessageLedger.RemoteInsertKeepsUniqueIds` | src/app/core/services/chat-state.service.ts:213-235 | the realtime merge never introduces a duplicate id |
| `MessageLedger.OptimisticKeepsUniqueIds` | src/app/core/services/chat-state.service.ts:153 | appending the optimistic entry with a fresh temporary id keeps ids unique |
| `MessageLedger.ConfirmKeepsUniqueIds` | src/app/core/services/chat-state.service.ts:169-177 | confirming with a server id not yet listed keeps ids unique |
| `MessageLedger.RemoveKeepsUniqueIds` | src/app/core/services/chat-state.service.ts:182 | the rollback keeps ids unique |
| `MessageLedger.SetStatusKeepsIds` | src/app/core/services/chat-state.service.ts:186-191 | the status rewrite keeps the length, every id and every content |
| `MessageLedger.SetStatusIdempotent` | src/app/core/services/chat-state.service.ts:186-191 | rewriting the same status twice is the same as once |
| `MessageLedger.HistoryMatchesRows` | src/app/core/services/chat-state.service.ts:113-123 | the history replaces the list row for row: same ids, contents and order, all `Read`, own exactly when written by the signed-in user, named by the profile's username when that is present and non-empty, else `You` or `User ` plus the id's first four characters; the joined profile is carried along |
| `MessageLedger.HistoryKeepsUniqueIds` | src/app/core/services/chat-state.service.ts:114-124 | rows with distinct ids give a history with unique ids |
| `Directory.PublicRoomsAreUnflagged` | src/app/core/services/chat-state.service.ts:70 | every public room has `is_dm` false |
| `Directory.PartitionSizes` | src/app/core/services/chat-state.service.ts:70-81 | every fetched room goes to exactly one side: public rooms plus direct messages add up to the fetched rows |
| `Directory.PartitionPlacement` | src/app/core/services/chat-state.service.ts:70-81 | every fetched room appears on its side in original order, at the position given by the rooms of its kind before it |
| `Directory.AutoSelect` | src/app/core/services/chat-state.service.ts:86-89 | a room is selected exactly when nothing is selected and there is a public room, and then it is the first public room |
| `Directory.DmsView` | src/app/core/services/chat-state.service.ts:33-40 | the `dms$` projection keeps the length and every field but `online`, which is true iff `userId` is defined, non-empty and in the presence set |
| `Directory.LoadedDmsShowOffline` | src/app/core/services/chat-state.service.ts:71-81 | the direct messages built by `loadRooms` carry no user id, so `dms$` shows all of them offline |
| `ChatState.ChatStateService.constructor` | src/app/core/services/chat-state.service.ts:21-31 | the subjects start empty: no messages, no selection, no rooms, no direct messages, nobody online, no channel |
| `ChatState.ChatStateService.Dms` | src/app/core/services/chat-state.service.ts:33-40 | the current `dms$` value has one entry per direct message, online iff the participant is in the presence set |
| `ChatState.ChatStateService.LoadRooms` | src/app/core/services/chat-state.service.ts:54-94 | on error nothing changes; otherwise the rooms are the public rooms and the direct messages are the flagged rooms, and the first public room is selected (with its channel) only when nothing was selected; the messages and the presence set are untouched |
| `ChatState.ChatStateService.SelectRoom` | src/app/core/services/chat-state.service.ts:96-100 | the selection and the realtime channel move to the room; the message list is not cleared |
| `ChatState.ChatStateService.LoadMessages` | src/app/core/services/chat-state.service.ts:102-129 | on error the list is kept; otherwise it becomes the mapped history; nothing else changes |
| `ChatState.ChatStateService.SendBegin` | src/app/core/services/chat-state.service.ts:131-153 | with no selected room or no signed-in user the list is unchanged and no insert starts; otherwise the optimistic entry is appended |
| `ChatState.ChatStateService.SendConfirm` | src/app/core/services/chat-state.service.ts:168-177 | the list becomes its confirmation for the temporary id; nothing else changes |
| `ChatState.ChatStateService.SendFail` | src/app/core/services/chat-state.service.ts:179-183 | the list loses the entries with the temporary id; nothing else changes |
| `ChatState.ChatStateService.UpdateMessageStatus` | src/app/core/services/chat-state.service.ts:186-191 | the list becomes its status rewrite; nothing else changes |
| `ChatState.ChatStateService.OnRemoteInsert` | src/app/core/services/chat-state.service.ts:206-236 | the list becomes its realtime merge with the row; nothing else changes |
| `ChatState.ChatStateService.OnPresenceSync` | src/app/core/services/chat-state.service.ts:249-253 | the presence set becomes exactly the snapshot's keys, not a union with the old set; nothing else changes |
| `ChatState.SendThenFail` | src/app/core/services/chat-state.service.ts:131-183 | a send whose insert fails, with a temporary id not already listed, leaves the service's list as before |
| `ChatState.PresenceReplacesSet` | src/app/core/services/chat-state.service.ts:249-253 | online {A, B} followed by a sync reporting {B, C} is exactly {B, C} |
| `ChatWindow.Compose` | src/app/ui/chat/chat-window/chat-window.component.ts:40-78 | the first public room with the selected id gives its name, type room and online; otherwise the first matching direct message (by `roomId` or `id`) gives its name, type dm and its online flag; otherwise the first message not own gives its sender, type dm, online; otherwise `Chat`, room, online; messages, selected id and online count pass through and member count is the total user count |
| `ChatWindow.NameHasASource` | src/app/ui/chat/chat-window/chat-window.component.ts:46-67 | the name is always a room's name, a direct message's name, a message's sender or the default |
| `MessageInput.SendStep` | src/app/ui/chat/message-input/message-input.component.ts:49-53 | a blank buffer emits nothing and stays as it is; any other buffer is emitted once, verbatim and untrimmed, and the buffer becomes empty |
| `MessageInput.SendThenSendEmitsOnce` | src/app/ui/chat/message-input/message-input.component.ts:49-53 | two sends in a row emit a non-blank buffer exactly once |
| `MessageInput.MessageInputComponent.constructor` | src/app/ui/chat/message-input/message-input.component.ts:47 | the buffer starts empty and nothing has been emitted |
| `MessageInput.MessageInputComponent.SendDisabled` | src/app/ui/chat/message-input/message-input.component.ts:34 | the send button is disabled exactly when the buffer is blank |
| `MessageInput.MessageInputComponent.Edit` | src/app/ui/chat/message-input/message-input.component.ts:20 | typing replaces the buffer and emits nothing |
| `MessageInput.MessageInputComponent.HandleSend` | src/app/ui/chat/message-input/message-input.component.ts:49-53 | the buffer and the emitted log change as one send step says |
| `MessageInput.MessageInputComponent.OnKeyDown` | src/app/ui/chat/message-input/message-input.component.ts:55-61 | Enter without Shift prevents the default and acts exactly like a send; any other key changes nothing and emits nothing |
| `TypingIndicator.SentenceParts` | src/app/ui/chat/typing-indicator/typing-indicator.component.ts:24 | the sentence is the names, then " is" or " are", then " typing..." |
| `TypingIndicator.UsersTextFrame` | src/app/ui/chat/typing-indicator/typing-indicator.component.ts:24 | the sentence starts with the names joined by ", " and always ends with " typing..." |
| `TypingIndicator.VerbIsIffOneUser` | src/app/ui/chat/typing-indicator/typing-indicator.component.ts:24 | the verb is "is" iff exactly one user is given, otherwise "are" |
| `TypingIndicator.UsersTextShapes` | src/app/ui/chat/typing-indicator/typing-indicator.component.ts:24 | one user u gives "u is typing..."; adding a name v to a list gives the list's join, ", v", then " are typing..." |
| `TypingIndicator.Rendered` | src/app/ui/chat/typing-indicator/typing-indicator.component.ts:10 | the sentence is shown exactly when the list is non-empty |
| `ChatHeader.FirstChar` | src/app/ui/chat/chat-header/chat-header.component.ts:23 | a piece contributes at most one character, and nothing exactly when it is empty (`undefined` joins as "") |
| `ChatHeader.Initials` | src/app/ui/chat/chat-header/chat-header.component.ts:23 | the initials are no longer than the number of space-separated pieces |
| `ChatHeader.ConcatBound` | src/app/ui/chat/chat-header/chat-header.component.ts:23 | joining pieces of at most one character with "" gives at most one character per piece |
| `ChatHeader.InitialsScan` | src/app/ui/chat/chat-header/chat-header.component.ts:23 | split-map-join agrees with a left-to-right scan that keeps each non-space character starting a word |
| `ChatHeader.InitialsAreWordStarts` | src/app/ui/chat/chat-header/chat-header.component.ts:23 | the initials are the first character of every space-separated word in order; empty pieces contribute nothing |
| `ChatHeader.InitialsOfOneWord` | src/app/ui/chat/chat-header/chat-header.component.ts:23 | a name with no spaces gives its first character, and the empty name gives "" |
| `ChatHeader.InitialsIgnoreOuterSpaces` | src/app/ui/chat/chat-header/chat-header.component.ts:23 | a leading or a trailing space changes nothing |
| `ChatHeader.TrailingSpaceAddsNothing` | src/app/ui/chat/chat-header/chat-header.component.ts:23 | the word-start scan ignores a trailing space |

## Left out

- Supabase queries and inserts (`from(...).select/insert`, `select().single()`) are not modelled. Their answers are parameters: `LoadRooms` and `LoadMessages` take the fetched rows or an error, and `SendConfirm`/`SendFail` stand for the insert's success and failure.
- The authentication service is not modelled. The signed-in user's id is a parameter (`currentUser`) of each step that reads it. The service's constructor subscribes to `user$` to start presence; that subscription is not modelled.
- Realtime transport is not modelled. That covers channel creation, `unsubscribe`/`subscribe`, the `room_id` filter and presence `track`. The current channel is recorded as the room it listens to (`channelRoom`), and the two handler bodies are `OnRemoteInsert` and `OnPresenceSync`.
- Async interleaving at `await` is not modelled. The steps after an `await` are separate methods that the environment may call in any order. The model does not track which room a pending `loadMessages` was issued for, because the source does not check that either.
- `Date.now()` temporary ids and `toLocaleTimeString` formatting are not modelled. Temporary ids, the local clock and `created_at` are opaque strings, and a message's `timestamp` is the unformatted `created_at` or clock string.
- The `console.error` / `console.log` calls are not modelled. They are logging only.
- `ChatHeader.FirstChar`: strings are modelled as sequences of Unicode code points, not UTF-16 code units. A piece that starts with a character above U+FFFF gives that whole character, where the source's `n[0]` gives a lone high surrogate (for `"🎉 Party"` the source gives `"\uD83CP"`, the model `"🎉P"`). `JsString.Prefix` (`slice(0, 4)`) has the same code-unit difference, but the source applies it only to user ids, which are ASCII UUIDs, so `PlaceholderName` is unaffected.
- `MessageLedger.HistoryMatchesRows`: does not state the avatar fallback. `MessageLedger.FromHistory` computes it (profile avatar URL, else `ME` for own, else `U`).
- `ChatState.ChatStateService.UpdateMessageStatus` is private and never called in the source; it is modelled as written.
- `ChatWindow.Compose`: the DM match by `roomId` probes a property that `DirectMessage` does not declare. It is modelled as `DirectMessage.roomId`, which `loadRooms` never sets (always `None`).
- `onlineCount$` and `totalUsersCount$` are not defined in the service. `Compose` takes their values as plain inputs.
- Direct-message resolution and creation (`handleDmSelection`) is not modelled. The sidebar calls it, but it is not defined in the service.
- The chat window's scroll handling (`shouldScroll`, `ngAfterViewChecked`, `scrollToBottom`) is not modelled. It is DOM-only.
- The login component, message bubble, sidebar, layout, route guard and app configuration are not modelled. They contain no state logic beyond the framework.
- The `unread` fields of `Room` and `DirectMessage` are not modelled. Nothing in the modelled code reads or writes them.
