/**
 * The entities of the live-chat store that the room merge reads and writes:
 * rooms, messages, subscriptions and the two janitorial collections keyed by
 * room id (livechat inquiries and external-message records).
 */
module LivechatTypes {

  datatype Option<+T> = None | Some(value: T)

  /** A call either returns a value or throws one of the errors below. */
  datatype Result<+T, +E> = Success(value: T) | Failure(error: E)

  /** A call that returns nothing but may throw. */
  datatype Outcome<+E> = Pass | Fail(error: E)

  type RoomId = string
  type UserId = string
  type VisitorId = string
  type MessageId = string
  type RecordId = string

  /** A Date, as milliseconds since the epoch. */
  type Time = int

  /** The provider-specific metadata blob a room may carry; opaque to the merge. */
  type RbInfo = map<string, string>

  /**
   * The errors the room methods throw. The first two are raised on purpose
   * and tagged with the method that threw; `TypeError` is the runtime error
   * of reading a field of a missing visitor reference.
   */
  datatype Error =
    | NotAuthorized(methodName: string)
    | NotFound(methodName: string)
    | TypeError

  /**
   * A room. `v` is the visitor a live-chat room belongs to (rooms of other
   * kinds, such as channels, have none), `ts` its creation
   * timestamp, `msgCount` its message counter and `lastMessageAt` the
   * last-message timestamp (`lm`). `comment` and `duration` are the
   * annotations written when the room was closed.
   */
  datatype Room = Room(
    v: Option<VisitorId>,
    open: bool,
    ts: Time,
    msgCount: int,
    lastMessageAt: Option<Time>,
    rbInfo: Option<RbInfo>,
    comment: Option<string>,
    duration: Option<int>)

  /** A chat message; `rid` is the room that owns it, hidden messages are not visible. */
  datatype Message = Message(rid: RoomId, visible: bool, body: string, ts: Time)

  /** A subscription is identified by its room and its user (one per pair). */
  datatype SubKey = SubKey(rid: RoomId, uid: UserId)

  datatype Subscription = Subscription(
    answered: bool,
    lastActivity: Option<Time>,
    lastCustomerActivity: Option<Time>,
    rbInfo: Option<RbInfo>,
    open: bool)

  /**
   * The collections the merge touches. Inquiries and external-message records
   * are identified by their own ids and hold the id of their room.
   */
  datatype StoreState = StoreState(
    rooms: map<RoomId, Room>,
    messages: map<MessageId, Message>,
    subscriptions: map<SubKey, Subscription>,
    inquiries: map<RecordId, RoomId>,
    externalMessages: map<RecordId, RoomId>)
}
