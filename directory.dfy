/**
 * The room bookkeeping of `ChatStateService`
 * (src/app/core/services/chat-state.service.ts): the split of the fetched
 * rooms into public rooms and direct messages, the auto-selection of the
 * first public room, and the `dms$` projection that adds online flags.
 */
module Directory {
  import opened Wrappers
  import opened Models
  import opened JsArray

  /** `allRooms.filter(r => !r.is_dm)`. */
  function PublicRooms(rows: seq<Room>): seq<Room>
  {
    Filter(rows, (r: Room) => !r.isDm)
  }

  /** The direct-message entry `loadRooms` builds for a room flagged `is_dm`. */
  function AsDirectMessage(room: Room): DirectMessage
  {
    DirectMessage(room.id, room.name, "U", false, None, None)
  }

  /** `allRooms.filter(r => r.is_dm).map(...)`. */
  function DirectMessages(rows: seq<Room>): seq<DirectMessage>
  {
    var flagged := Filter(rows, (r: Room) => r.isDm);
    seq(|flagged|, i requires 0 <= i < |flagged| => AsDirectMessage(flagged[i]))
  }

  /** Every public room is unflagged. */
  lemma PublicRoomsAreUnflagged(rows: seq<Room>)
    ensures forall i :: 0 <= i < |PublicRooms(rows)| ==> !PublicRooms(rows)[i].isDm
  {
    var pub := PublicRooms(rows);
    forall i | 0 <= i < |pub| ensures !pub[i].isDm {
      assert pub[i] in pub;
    }
  }

  /** The split loses and duplicates nothing: the two sides add up to the fetched rows. */
  lemma PartitionSizes(rows: seq<Room>)
    ensures |PublicRooms(rows)| + |DirectMessages(rows)| == |rows|
  {
    FilterPartition(rows, (r: Room) => !r.isDm, (r: Room) => r.isDm);
  }

  /**
   * Every fetched room lands on exactly one side, in the original order:
   * an unflagged room is the k-th public room and a flagged room the k-th
   * direct message, where k counts the rooms of the same kind before it.
   */
  lemma PartitionPlacement(rows: seq<Room>, i: nat)
    requires i < |rows|
    ensures !rows[i].isDm ==>
      var k := |PublicRooms(rows[..i])|;
      k < |PublicRooms(rows)| && PublicRooms(rows)[k] == rows[i]
    ensures rows[i].isDm ==>
      var k := |DirectMessages(rows[..i])|;
      k < |DirectMessages(rows)| && DirectMessages(rows)[k] == AsDirectMessage(rows[i])
  {
    if rows[i].isDm {
      FilterAt(rows, (r: Room) => r.isDm, i);
    } else {
      FilterAt(rows, (r: Room) => !r.isDm, i);
    }
  }

  /**
   * The room `loadRooms` selects after a successful fetch: the first public
   * room, but only when nothing is selected yet (`''` is falsy) and there
   * is one.
   */
  function AutoSelect(selected: string, publicRooms: seq<Room>): (r: Option<string>)
    ensures r.Some? <==> selected == "" && |publicRooms| > 0
    ensures r.Some? ==> r.value == publicRooms[0].id
  {
    if selected == "" && |publicRooms| > 0 then Some(publicRooms[0].id) else None
  }

  /** `dm.userId ? onlineUsers.has(dm.userId) : false`; an empty id is falsy. */
  predicate IsOnline(dm: DirectMessage, onlineUsers: set<string>)
  {
    match dm.userId
    case None => false
    case Some(u) => u != "" && u in onlineUsers
  }

  /**
   * The `dms$` projection: the same entries in the same order, each with
   * its online flag recomputed from the presence set and nothing else changed.
   */
  function DmsView(dms: seq<DirectMessage>, onlineUsers: set<string>): (r: seq<DirectMessage>)
    ensures |r| == |dms|
    ensures forall i :: 0 <= i < |dms| ==> r[i].(online := dms[i].online) == dms[i]
    ensures forall i :: 0 <= i < |dms| ==>
      (r[i].online <==> dms[i].userId.Some? && dms[i].userId.value != "" && dms[i].userId.value in onlineUsers)
  {
    seq(|dms|, i requires 0 <= i < |dms| => dms[i].(online := IsOnline(dms[i], onlineUsers)))
  }

  /**
   * The direct messages `loadRooms` builds carry no participant id, so the
   * projection shows every one of them offline, whatever the presence set.
   */
  lemma LoadedDmsShowOffline(rows: seq<Room>, onlineUsers: set<string>)
    ensures forall i :: 0 <= i < |DirectMessages(rows)| ==> !DmsView(DirectMessages(rows), onlineUsers)[i].online
  {
  }
}
