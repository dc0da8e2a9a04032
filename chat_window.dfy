/**
 * The view model of `ChatWindowComponent`
 * (src/app/ui/chat/chat-window/chat-window.component.ts): the `map` body
 * of `vm$`, which names the selected conversation.
 */
module ChatWindow {
  import opened Wrappers
  import opened Models
  import opened JsArray

  /** `'room' | 'dm'`. */
  datatype RoomType = RoomKind | DmKind

  datatype ViewModel = ViewModel(
    selectedRoomId: string,
    messages: seq<Message>,
    roomName: string,
    roomType: RoomType,
    isOnline: bool,
    onlineCount: int,
    memberCount: int)

  /** The name shown when nothing identifies the conversation. */
  const DefaultName := "Chat"

  /** `(d as any).roomId === selectedRoomId || d.id === selectedRoomId`. */
  predicate DmMatches(dm: DirectMessage, selectedRoomId: string)
  {
    dm.roomId == Some(selectedRoomId) || dm.id == selectedRoomId
  }

  /**
   * The `vm$` projection. The name comes from, in this order: the first
   * public room with the selected id (type room, online); else the first
   * direct message matching it (type dm, its online flag); else the sender
   * of the first message that is not the user's own (type dm, online);
   * else the defaults. Messages and counts pass through.
   */
  function Compose(messages: seq<Message>, selectedRoomId: string, rooms: seq<Room>,
                   dms: seq<DirectMessage>, onlineCount: int, totalUsersCount: int): (vm: ViewModel)
    ensures vm.selectedRoomId == selectedRoomId && vm.messages == messages
    ensures vm.onlineCount == onlineCount && vm.memberCount == totalUsersCount
    // (1) a public room with the selected id wins
    ensures forall i :: 0 <= i < |rooms| && rooms[i].id == selectedRoomId
                        && (forall j :: 0 <= j < i ==> rooms[j].id != selectedRoomId) ==>
      vm.roomName == rooms[i].name && vm.roomType == RoomKind && vm.isOnline
    // (2) otherwise a matching direct message
    ensures (forall j :: 0 <= j < |rooms| ==> rooms[j].id != selectedRoomId) ==>
      forall i :: 0 <= i < |dms| && DmMatches(dms[i], selectedRoomId)
                  && (forall j :: 0 <= j < i ==> !DmMatches(dms[j], selectedRoomId)) ==>
        vm.roomName == dms[i].name && vm.roomType == DmKind && vm.isOnline == dms[i].online
    // (3) otherwise the first message from someone else
    ensures (forall j :: 0 <= j < |rooms| ==> rooms[j].id != selectedRoomId)
            && (forall j :: 0 <= j < |dms| ==> !DmMatches(dms[j], selectedRoomId)) ==>
      forall i :: 0 <= i < |messages| && !messages[i].isOwn
                  && (forall j :: 0 <= j < i ==> messages[j].isOwn) ==>
        vm.roomName == messages[i].sender && vm.roomType == DmKind && vm.isOnline
    // (4) otherwise the defaults
    ensures (forall j :: 0 <= j < |rooms| ==> rooms[j].id != selectedRoomId)
            && (forall j :: 0 <= j < |dms| ==> !DmMatches(dms[j], selectedRoomId))
            && (forall j :: 0 <= j < |messages| ==> messages[j].isOwn) ==>
      vm.roomName == DefaultName && vm.roomType == RoomKind && vm.isOnline
  {
    var room := Find(rooms, (r: Room) => r.id == selectedRoomId);
    var dm := Find(dms, (d: DirectMessage) => DmMatches(d, selectedRoomId));
    var other := Find(messages, (m: Message) => !m.isOwn);
    var (roomName, roomType, isOnline) :=
      if room.Some? then (room.value.name, RoomKind, true)
      else if dm.Some? then (dm.value.name, DmKind, dm.value.online)
      else if |messages| > 0 && other.Some? then (other.value.sender, DmKind, true)
      else (DefaultName, RoomKind, true);
    ViewModel(selectedRoomId, messages, roomName, roomType, isOnline, onlineCount, totalUsersCount)
  }

  /**
   * The name always comes from one of the four sources: a public room, a
   * direct message, a message's sender, or the default.
   */
  lemma NameHasASource(messages: seq<Message>, selectedRoomId: string, rooms: seq<Room>,
                       dms: seq<DirectMessage>, onlineCount: int, totalUsersCount: int)
    ensures var vm := Compose(messages, selectedRoomId, rooms, dms, onlineCount, totalUsersCount);
      (exists i :: 0 <= i < |rooms| && vm.roomName == rooms[i].name)
      || (exists i :: 0 <= i < |dms| && vm.roomName == dms[i].name)
      || (exists i :: 0 <= i < |messages| && vm.roomName == messages[i].sender)
      || vm.roomName == DefaultName
  {
    var vm := Compose(messages, selectedRoomId, rooms, dms, onlineCount, totalUsersCount);
    var ri := FindIndex(rooms, (r: Room) => r.id == selectedRoomId);
    var di := FindIndex(dms, (d: DirectMessage) => DmMatches(d, selectedRoomId));
    var mi := FindIndex(messages, (m: Message) => !m.isOwn);
    if ri.Some? {
      assert vm.roomName == rooms[ri.value].name;
    } else if di.Some? {
      assert vm.roomName == dms[di.value].name;
    } else if mi.Some? {
      assert vm.roomName == messages[mi.value].sender;
    }
  }
}
