/**
 * `ChatStateService` (src/app/core/services/chat-state.service.ts): the
 * state behind the chat views. Each `BehaviorSubject` is a field; each
 * async action is split at its `await`, the awaited backend answer (rows
 * or an error) becoming a parameter of the step that runs after it.
 */
module ChatState {
  import opened Wrappers
  import opened Models
  import opened MessageLedger
  import opened Directory

  /** A backend error; the service only logs it. */
  type FetchError = string

  class ChatStateService {
    /** `_messages`: the list shown for the selected room. */
    var messages: seq<Message>
    /** `_selectedRoom`; `''` means nothing is selected. */
    var selectedRoom: string
    /** `_rooms`: the public rooms. */
    var rooms: seq<Room>
    /** `_dms`: the direct messages, without online flags. */
    var dms: seq<DirectMessage>
    /** `_onlineUsers`: the presence set. */
    var onlineUsers: set<string>
    /** The room whose INSERT events `currentChannel` listens to, if any. */
    var channelRoom: Option<string>

    /** The initial subject values; the fetch the constructor starts completes in `LoadRooms`. */
    constructor ()
      ensures messages == [] && selectedRoom == "" && rooms == [] && dms == []
      ensures onlineUsers == {} && channelRoom == None
    {
      messages := [];
      selectedRoom := "";
      rooms := [];
      dms := [];
      onlineUsers := {};
      channelRoom := None;
    }

    /** The current value of `dms$`. */
    function Dms(): (r: seq<DirectMessage>)
      reads this
      ensures |r| == |dms|
      ensures forall i :: 0 <= i < |dms| ==> (r[i].online <==> IsOnline(dms[i], onlineUsers))
    {
      DmsView(dms, onlineUsers)
    }

    /**
     * `loadRooms` after its query: on an error nothing changes; otherwise
     * the rooms are split into public rooms and direct messages and, when
     * nothing is selected, the first public room is selected.
     */
    method LoadRooms(fetched: Result<seq<Room>, FetchError>)
      modifies this
      ensures fetched.Err? ==> unchanged(this)
      ensures fetched.Ok? ==> rooms == PublicRooms(fetched.value) && dms == DirectMessages(fetched.value)
      ensures fetched.Ok? ==>
        match AutoSelect(old(selectedRoom), rooms)
        case Some(id) => selectedRoom == id && channelRoom == Some(id)
        case None => selectedRoom == old(selectedRoom) && channelRoom == old(channelRoom)
      ensures messages == old(messages) && onlineUsers == old(onlineUsers)
    {
      match fetched
      case Err(_) =>
      case Ok(rows) =>
        var publicRooms := PublicRooms(rows);
        rooms := publicRooms;
        dms := DirectMessages(rows);
        if selectedRoom == "" && |publicRooms| > 0 {
          SelectRoom(publicRooms[0].id);
        }
    }

    /**
     * `selectRoom`: the selection and the realtime channel move to the
     * room; the message list stays as it is until `LoadMessages` runs.
     */
    method SelectRoom(roomId: string)
      modifies this
      ensures selectedRoom == roomId && channelRoom == Some(roomId)
      ensures messages == old(messages) && rooms == old(rooms) && dms == old(dms)
      ensures onlineUsers == old(onlineUsers)
    {
      selectedRoom := roomId;
      channelRoom := Some(roomId);
    }

    /**
     * `loadMessages` after its query: on an error the list is kept,
     * otherwise it is replaced by the mapped history. The answer is not
     * checked against the current selection.
     */
    method LoadMessages(fetched: Result<seq<MessageRow>, FetchError>, currentUser: Option<string>)
      modifies this
      ensures messages == (if fetched.Ok? then History(fetched.value, currentUser) else old(messages))
      ensures selectedRoom == old(selectedRoom) && rooms == old(rooms) && dms == old(dms)
      ensures onlineUsers == old(onlineUsers) && channelRoom == old(channelRoom)
    {
      if fetched.Ok? {
        messages := History(fetched.value, currentUser);
      }
    }

    /**
     * `sendMessage` up to its insert: with no selected room or no signed-in
     * user nothing happens; otherwise the optimistic entry is appended and
     * `pending` says the insert is under way.
     */
    method SendBegin(tempId: string, content: string, now: string, currentUser: Option<string>)
      returns (pending: bool)
      modifies this
      ensures pending <==> selectedRoom != "" && currentUser.Some? && currentUser.value != ""
      ensures messages == if pending then old(messages) + [Optimistic(tempId, content, now)] else old(messages)
      ensures selectedRoom == old(selectedRoom) && rooms == old(rooms) && dms == old(dms)
      ensures onlineUsers == old(onlineUsers) && channelRoom == old(channelRoom)
    {
      if selectedRoom == "" {
        return false;
      }
      if currentUser.None? || currentUser.value == "" {
        return false;
      }
      messages := messages + [Optimistic(tempId, content, now)];
      pending := true;
    }

    /** `sendMessage` after a successful insert: the temporary entry is confirmed in place. */
    method SendConfirm(tempId: string, serverId: string, ts: string)
      modifies this
      ensures messages == Confirm(old(messages), tempId, serverId, ts)
      ensures selectedRoom == old(selectedRoom) && rooms == old(rooms) && dms == old(dms)
      ensures onlineUsers == old(onlineUsers) && channelRoom == old(channelRoom)
    {
      messages := Confirm(messages, tempId, serverId, ts);
    }

    /** `sendMessage` after a failed insert: the temporary entry is removed. */
    method SendFail(tempId: string)
      modifies this
      ensures messages == Remove(old(messages), tempId)
      ensures selectedRoom == old(selectedRoom) && rooms == old(rooms) && dms == old(dms)
      ensures onlineUsers == old(onlineUsers) && channelRoom == old(channelRoom)
    {
      messages := Remove(messages, tempId);
    }

    /** `updateMessageStatus`, whose status is `'delivered' | 'read'`. */
    method UpdateMessageStatus(id: string, status: Status)
      requires status != Sent
      modifies this
      ensures messages == SetStatus(old(messages), id, status)
      ensures selectedRoom == old(selectedRoom) && rooms == old(rooms) && dms == old(dms)
      ensures onlineUsers == old(onlineUsers) && channelRoom == old(channelRoom)
    {
      messages := SetStatus(messages, id, status);
    }

    /** The INSERT handler `initRealtime` registers on the room's channel. */
    method OnRemoteInsert(row: MessageRow, currentUser: Option<string>)
      modifies this
      ensures messages == AfterRemoteInsert(old(messages), row, currentUser)
      ensures selectedRoom == old(selectedRoom) && rooms == old(rooms) && dms == old(dms)
      ensures onlineUsers == old(onlineUsers) && channelRoom == old(channelRoom)
    {
      messages := AfterRemoteInsert(messages, row, currentUser);
    }

    /**
     * The presence `sync` handler: the online set becomes exactly the keys
     * of the snapshot; nothing of the previous set is kept.
     */
    method OnPresenceSync(snapshot: PresenceState)
      modifies this
      ensures onlineUsers == snapshot.Keys
      ensures messages == old(messages) && selectedRoom == old(selectedRoom)
      ensures rooms == old(rooms) && dms == old(dms) && channelRoom == old(channelRoom)
    {
      onlineUsers := snapshot.Keys;
    }
  }

  /**
   * A send that fails, with a temporary id not already listed, leaves the
   * service's message list as it was before the send.
   */
  method SendThenFail(s: ChatStateService, tempId: string, content: string, now: string, currentUser: Option<string>)
    requires !HasId(s.messages, tempId)
    modifies s
    ensures s.messages == old(s.messages)
  {
    var pending := s.SendBegin(tempId, content, now, currentUser);
    if pending {
      s.SendFail(tempId);
      RollbackRestores(old(s.messages), tempId, content, now);
    }
  }

  /**
   * A presence set {A, B} followed by a sync reporting {B, C} ends as
   * exactly {B, C}.
   */
  method PresenceReplacesSet(s: ChatStateService, a: string, b: string, c: string, meta: PresenceMeta)
    requires a != b && a != c
    modifies s
    ensures s.onlineUsers == {b, c} && a !in s.onlineUsers
  {
    s.OnPresenceSync(map[a := [meta], b := [meta]]);
    s.OnPresenceSync(map[b := [meta], c := [meta]]);
  }
}
