/** The records the chat client passes around (src/app/core/models/message.model.ts). */
module Models {
  import opened Wrappers

  /** A message's delivery state, `'sent' | 'delivered' | 'read'`. */
  datatype Status = Sent | Delivered | Read

  /** The joined `profiles` row; an empty string stands for a missing or empty column. */
  datatype Profile = Profile(username: string, avatarUrl: string)

  /**
   * A message as the views show it. `timestamp` carries the creation time
   * as an opaque string.
   */
  datatype Message = Message(
    id: string,
    content: string,
    sender: string,
    avatar: string,
    timestamp: string,
    isOwn: bool,
    status: Status,
    profile: Option<Profile>)

  /** A row of the `rooms` table; a missing `is_dm` reads as false. */
  datatype Room = Room(id: string, name: string, isDm: bool)

  /**
   * A direct conversation as the sidebar and the chat window see it.
   * `userId` is the other participant, when known; `roomId` is the untyped
   * `roomId` property the chat window probes for.
   */
  datatype DirectMessage = DirectMessage(
    id: string,
    name: string,
    avatar: string,
    online: bool,
    userId: Option<string>,
    roomId: Option<string>)

  /**
   * A row of the `messages` table, as the history query returns it (with
   * its joined profile) and as a realtime INSERT delivers it (without).
   */
  datatype MessageRow = MessageRow(
    id: string,
    content: string,
    userId: string,
    createdAt: string,
    profile: Option<Profile>)

  /** One presence entry's metadata (`online_at`). */
  datatype PresenceMeta = PresenceMeta(onlineAt: string)

  /** A presence snapshot: each connected key with its tracked entries. */
  type PresenceState = map<string, seq<PresenceMeta>>
}
