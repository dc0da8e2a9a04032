/**
 * The list transforms `ChatStateService` applies to the selected room's
 * message list (src/app/core/services/chat-state.service.ts): the
 * optimistic entry, its confirmation and rollback, the status rewrite, the
 * realtime insert merge and the history mapping.
 */
module MessageLedger {
  import opened Wrappers
  import opened Models
  import opened JsArray
  import opened JsString

  /** Some entry of `ms` carries `id`. */
  predicate HasId(ms: seq<Message>, id: string)
  {
    exists i :: 0 <= i < |ms| && ms[i].id == id
  }

  /** No two entries of `ms` share an id. */
  predicate UniqueIds(ms: seq<Message>)
  {
    forall i, j :: 0 <= i < j < |ms| ==> ms[i].id != ms[j].id
  }

  /** The number of entries of `ms` that carry `id`. */
  function CountId(ms: seq<Message>, id: string): nat
  {
    if ms == [] then 0 else (if ms[0].id == id then 1 else 0) + CountId(ms[1..], id)
  }

  /** `'User ' + userId.slice(0, 4)`: the stand-in name of another user. */
  function PlaceholderName(userId: string): string
  {
    "User " + Prefix(userId, 4)
  }

  /** The entry `sendMessage` appends before the insert is confirmed. */
  function Optimistic(tempId: string, content: string, now: string): Message
  {
    Message(tempId, content, "You", "ME", now, true, Sent, None)
  }

  /**
   * The confirmation map: entries carrying `tempId` take the server id, the
   * server timestamp and `Delivered`, in place; all else is kept.
   */
  function Confirm(ms: seq<Message>, tempId: string, serverId: string, ts: string): (r: seq<Message>)
    ensures |r| == |ms|
    ensures forall i :: 0 <= i < |ms| ==>
      r[i].content == ms[i].content && r[i].sender == ms[i].sender && r[i].avatar == ms[i].avatar
      && r[i].isOwn == ms[i].isOwn && r[i].profile == ms[i].profile
    ensures forall i :: 0 <= i < |ms| && ms[i].id == tempId ==>
      r[i].id == serverId && r[i].status == Delivered && r[i].timestamp == ts
    ensures forall i :: 0 <= i < |ms| && ms[i].id != tempId ==> r[i] == ms[i]
  {
    seq(|ms|, i requires 0 <= i < |ms| =>
      if ms[i].id == tempId then ms[i].(id := serverId, status := Delivered, timestamp := ts) else ms[i])
  }

  /** The rollback filter: every entry carrying `id` is dropped. */
  function Remove(ms: seq<Message>, id: string): (r: seq<Message>)
    ensures !HasId(r, id)
    ensures forall m :: m in r <==> m in ms && m.id != id
  {
    var r := Filter(ms, (m: Message) => m.id != id);
    assert forall i :: 0 <= i < |r| ==> r[i] in r;
    r
  }

  /** The status map of `updateMessageStatus`. */
  function SetStatus(ms: seq<Message>, id: string, status: Status): (r: seq<Message>)
    ensures |r| == |ms|
    ensures forall i :: 0 <= i < |ms| && ms[i].id == id ==> r[i] == ms[i].(status := status)
    ensures forall i :: 0 <= i < |ms| && ms[i].id != id ==> r[i] == ms[i]
  {
    seq(|ms|, i requires 0 <= i < |ms| => if ms[i].id == id then ms[i].(status := status) else ms[i])
  }

  /** The message a realtime INSERT from another user becomes. */
  function FromRemote(row: MessageRow): Message
  {
    Message(row.id, row.content, PlaceholderName(row.userId), "U", row.createdAt, false, Read, None)
  }

  /**
   * The realtime INSERT handler: an id already listed, or a row written by
   * the current user, changes nothing; anything else is appended.
   */
  function AfterRemoteInsert(ms: seq<Message>, row: MessageRow, currentUser: Option<string>): seq<Message>
  {
    if Any(ms, (m: Message) => m.id == row.id) then ms
    else if currentUser == Some(row.userId) then ms
    else ms + [FromRemote(row)]
  }

  /** One history row as a message, for the given signed-in user. */
  function FromHistory(row: MessageRow, currentUser: Option<string>): Message
  {
    var own := currentUser == Some(row.userId);
    var sender :=
      if row.profile.Some? && row.profile.value.username != "" then row.profile.value.username
      else if own then "You" else PlaceholderName(row.userId);
    var avatar :=
      if row.profile.Some? && row.profile.value.avatarUrl != "" then row.profile.value.avatarUrl
      else if own then "ME" else "U";
    Message(row.id, row.content, sender, avatar, row.createdAt, own, Read, row.profile)
  }

  /** The history mapping of `loadMessages`, row for row. */
  function History(rows: seq<MessageRow>, currentUser: Option<string>): seq<Message>
  {
    seq(|rows|, i requires 0 <= i < |rows| => FromHistory(rows[i], currentUser))
  }

  // ---------------------------------------------------------------------
  // Properties of the send path
  // ---------------------------------------------------------------------

  /**
   * The optimistic step appends exactly one entry at the end, own and
   * `Sent`, carrying the temporary id; the entries before it are untouched.
   */
  lemma OptimisticAppend(ms: seq<Message>, tempId: string, content: string, now: string)
    ensures var r := ms + [Optimistic(tempId, content, now)];
      |r| == |ms| + 1 && r[..|ms|] == ms
      && r[|ms|].id == tempId && r[|ms|].content == content
      && r[|ms|].isOwn && r[|ms|].status == Sent
  {
  }

  /** Removing an id drops exactly the entries that carry it. */
  lemma {:induction false} RemoveCount(ms: seq<Message>, id: string)
    ensures |Remove(ms, id)| == |ms| - CountId(ms, id)
  {
    if ms != [] {
      RemoveCount(ms[1..], id);
      assert Remove(ms, id) == (if ms[0].id != id then [ms[0]] else []) + Remove(ms[1..], id);
    }
  }

  /**
   * The rollback keeps the survivors in their relative order: two kept
   * entries at i < j sit at increasing positions of the result.
   */
  lemma RemoveKeepsOrder(ms: seq<Message>, id: string, i: nat, j: nat)
    requires i < j < |ms| && ms[i].id != id && ms[j].id != id
    ensures exists a, b :: 0 <= a < b < |Remove(ms, id)| && Remove(ms, id)[a] == ms[i] && Remove(ms, id)[b] == ms[j]
  {
    var p := (m: Message) => m.id != id;
    FilterKeepsOrder(ms, p, i, j);
    var a, b := |Filter(ms[..i], p)|, |Filter(ms[..j], p)|;
    assert Remove(ms, id)[a] == ms[i] && Remove(ms, id)[b] == ms[j];
  }

  /**
   * Rollback: when the temporary id was fresh, removing it after the
   * optimistic append restores the list exactly (and so its length).
   */
  lemma {:induction false} RollbackRestores(ms: seq<Message>, tempId: string, content: string, now: string)
    requires !HasId(ms, tempId)
    ensures Remove(ms + [Optimistic(tempId, content, now)], tempId) == ms
  {
    var p := (m: Message) => m.id != tempId;
    FilterAppend(ms, [Optimistic(tempId, content, now)], p);
    FilterKeepsAll(ms, p);
    assert Filter([Optimistic(tempId, content, now)], p) == [];
  }

  /**
   * Confirmation of a fresh temporary id rewrites the last entry in place:
   * server id, server timestamp and `Delivered`, content and sender kept,
   * everything before it untouched.
   */
  lemma ConfirmAfterSend(ms: seq<Message>, tempId: string, content: string, now: string, serverId: string, ts: string)
    requires !HasId(ms, tempId)
    ensures Confirm(ms + [Optimistic(tempId, content, now)], tempId, serverId, ts)
      == ms + [Message(serverId, content, "You", "ME", ts, true, Delivered, None)]
  {
  }

  /**
   * No duplicate on echo: once the insert is confirmed, the realtime copy
   * of the same row (same server id) leaves the list as it is, whoever the
   * signed-in user is.
   */
  lemma EchoAfterConfirmIgnored(ms: seq<Message>, tempId: string, content: string, now: string,
                                serverId: string, ts: string, echo: MessageRow, currentUser: Option<string>)
    requires !HasId(ms, tempId) && echo.id == serverId
    ensures var confirmed := Confirm(ms + [Optimistic(tempId, content, now)], tempId, serverId, ts);
      AfterRemoteInsert(confirmed, echo, currentUser) == confirmed
  {
    ConfirmAfterSend(ms, tempId, content, now, serverId, ts);
    var confirmed := Confirm(ms + [Optimistic(tempId, content, now)], tempId, serverId, ts);
    assert confirmed[|ms|].id == echo.id;
  }

  /**
   * An echo of the user's own message that arrives before the confirmation
   * is ignored, and the confirmation then still rewrites the entry in place.
   */
  lemma EchoBeforeConfirmIgnored(ms: seq<Message>, tempId: string, content: string, now: string,
                                 echo: MessageRow, user: string, serverId: string, ts: string)
    requires echo.userId == user
    ensures var sent := ms + [Optimistic(tempId, content, now)];
      AfterRemoteInsert(sent, echo, Some(user)) == sent
    ensures var sent := ms + [Optimistic(tempId, content, now)];
      !HasId(ms, tempId) ==>
        Confirm(AfterRemoteInsert(sent, echo, Some(user)), tempId, serverId, ts)
          == ms + [Message(serverId, content, "You", "ME", ts, true, Delivered, None)]
  {
    if !HasId(ms, tempId) {
      ConfirmAfterSend(ms, tempId, content, now, serverId, ts);
    }
  }

  // ---------------------------------------------------------------------
  // Properties of the realtime merge
  // ---------------------------------------------------------------------

  /**
   * The realtime merge leaves the list unchanged exactly when the id is
   * already listed or the row is the current user's own; otherwise it
   * appends one entry from another user, in state `Read`.
   */
  lemma RemoteInsertSpec(ms: seq<Message>, row: MessageRow, currentUser: Option<string>)
    ensures var r := AfterRemoteInsert(ms, row, currentUser);
      (r == ms <==> HasId(ms, row.id) || currentUser == Some(row.userId))
      && (r != ms ==> |r| == |ms| + 1 && r[..|ms|] == ms && r[|ms|].id == row.id
                      && r[|ms|].content == row.content && !r[|ms|].isOwn && r[|ms|].status == Read)
  {
  }

  /** Delivering the same realtime row twice adds it at most once. */
  lemma RemoteInsertIdempotent(ms: seq<Message>, row: MessageRow, currentUser: Option<string>)
    ensures var once := AfterRemoteInsert(ms, row, currentUser);
      AfterRemoteInsert(once, row, currentUser) == once
  {
    var once := AfterRemoteInsert(ms, row, currentUser);
    if once != ms {
      assert once[|ms|].id == row.id;
    }
  }

  // ---------------------------------------------------------------------
  // Unique ids are kept by every transform (given fresh new ids)
  // ---------------------------------------------------------------------

  /** The realtime merge never introduces a duplicate id. */
  lemma RemoteInsertKeepsUniqueIds(ms: seq<Message>, row: MessageRow, currentUser: Option<string>)
    requires UniqueIds(ms)
    ensures UniqueIds(AfterRemoteInsert(ms, row, currentUser))
  {
  }

  /** Appending an entry with a fresh id keeps ids unique. */
  lemma OptimisticKeepsUniqueIds(ms: seq<Message>, tempId: string, content: string, now: string)
    requires UniqueIds(ms) && !HasId(ms, tempId)
    ensures UniqueIds(ms + [Optimistic(tempId, content, now)])
  {
  }

  /** Confirming with a server id not yet listed keeps ids unique. */
  lemma ConfirmKeepsUniqueIds(ms: seq<Message>, tempId: string, serverId: string, ts: string)
    requires UniqueIds(ms) && !HasId(ms, serverId)
    ensures UniqueIds(Confirm(ms, tempId, serverId, ts))
  {
  }

  /** Rollback keeps ids unique. */
  lemma {:induction false} RemoveKeepsUniqueIds(ms: seq<Message>, id: string)
    requires UniqueIds(ms)
    ensures UniqueIds(Remove(ms, id))
  {
    if ms != [] {
      var tail := ms[1..];
      var rest := Remove(tail, id);
      assert UniqueIds(tail) by {
        forall i, j | 0 <= i < j < |tail| ensures tail[i].id != tail[j].id {
          assert tail[i] == ms[i + 1] && tail[j] == ms[j + 1];
        }
      }
      RemoveKeepsUniqueIds(tail, id);
      assert Remove(ms, id) == (if ms[0].id != id then [ms[0]] else []) + rest;
      if ms[0].id != id {
        forall k | 0 <= k < |rest| ensures rest[k].id != ms[0].id {
          assert rest[k] in tail;
          var t :| 0 <= t < |tail| && tail[t] == rest[k];
          assert ms[t + 1] == rest[k];
        }
      }
    }
  }

  /** The status rewrite changes no id. */
  lemma SetStatusKeepsIds(ms: seq<Message>, id: string, status: Status)
    ensures var r := SetStatus(ms, id, status);
      |r| == |ms| && forall i :: 0 <= i < |ms| ==> r[i].id == ms[i].id && r[i].content == ms[i].content
  {
  }

  /** The status rewrite is idempotent. */
  lemma SetStatusIdempotent(ms: seq<Message>, id: string, status: Status)
    ensures SetStatus(SetStatus(ms, id, status), id, status) == SetStatus(ms, id, status)
  {
  }

  // ---------------------------------------------------------------------
  // Properties of the history mapping
  // ---------------------------------------------------------------------

  /**
   * The history replaces the list row for row: same ids, same contents,
   * same order, every entry `Read`, own exactly when written by the
   * signed-in user, named by its profile when that has a non-empty
   * username and by the `You` / `User xxxx` fallback otherwise, and
   * carrying the joined profile along.
   */
  lemma HistoryMatchesRows(rows: seq<MessageRow>, currentUser: Option<string>)
    ensures var h := History(rows, currentUser);
      |h| == |rows|
      && forall i :: 0 <= i < |rows| ==>
        h[i].id == rows[i].id && h[i].content == rows[i].content && h[i].status == Read
        && (h[i].isOwn <==> currentUser == Some(rows[i].userId))
        && (rows[i].profile.Some? && rows[i].profile.value.username != "" ==> h[i].sender == rows[i].profile.value.username)
        && (!(rows[i].profile.Some? && rows[i].profile.value.username != "") && h[i].isOwn ==> h[i].sender == "You")
        && (!(rows[i].profile.Some? && rows[i].profile.value.username != "") && !h[i].isOwn
            ==> h[i].sender == PlaceholderName(rows[i].userId))
        && h[i].profile == rows[i].profile
  {
  }

  /** Rows with distinct ids give a history with unique ids. */
  lemma HistoryKeepsUniqueIds(rows: seq<MessageRow>, currentUser: Option<string>)
    requires forall i, j :: 0 <= i < j < |rows| ==> rows[i].id != rows[j].id
    ensures UniqueIds(History(rows, currentUser))
  {
  }
}
