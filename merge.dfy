/**
 * livechat:mergeRooms as a transition on store values: the settings the
 * requester's old subscription and the closing room hand on, the store
 * operations the method issues in order, and what the whole sequence does.
 */
module RoomMerge {
  import opened LivechatTypes
  import opened RoomLookup

  const MergeRoomsMethod := "livechat:mergeRooms"

  /** The subscription fields written onto the target room's subscriptions. */
  datatype Settings = Settings(
    answered: bool,
    lastActivity: Option<Time>,
    lastCustomerActivity: Option<Time>,
    rbInfo: Option<RbInfo>)

  /** The requester's subscription on a room, if there is one. */
  function SubscriptionOf(subs: map<SubKey, Subscription>, rid: RoomId, uid: UserId): (r: Option<Subscription>)
    ensures r.Some? <==> SubKey(rid, uid) in subs
    ensures r.Some? ==> r.value == subs[SubKey(rid, uid)]
  {
    if SubKey(rid, uid) in subs then Some(subs[SubKey(rid, uid)]) else None
  }

  /**
   * The settings record, built as the method builds it: start from
   * `answered: false`, then copy each truthy field of the old subscription,
   * then the closing room's rbInfo when it has one.
   */
  function DeriveSettings(oldSub: Option<Subscription>, closeRoom: Room): (st: Settings)
    ensures st.answered <==> oldSub.Some? && oldSub.value.answered
    ensures st.lastActivity.Some? <==> oldSub.Some? && oldSub.value.lastActivity.Some?
    ensures st.lastActivity.Some? ==> st.lastActivity == oldSub.value.lastActivity
    ensures st.lastCustomerActivity.Some? <==> oldSub.Some? && oldSub.value.lastCustomerActivity.Some?
    ensures st.lastCustomerActivity.Some? ==> st.lastCustomerActivity == oldSub.value.lastCustomerActivity
    ensures st.rbInfo == closeRoom.rbInfo
  {
    var st0 := Settings(false, None, None, None);
    var st1 := if oldSub.Some? && oldSub.value.answered then st0.(answered := oldSub.value.answered) else st0;
    var st2 := if oldSub.Some? && oldSub.value.lastActivity.Some? then st1.(lastActivity := oldSub.value.lastActivity) else st1;
    var st3 := if oldSub.Some? && oldSub.value.lastCustomerActivity.Some? then st2.(lastCustomerActivity := oldSub.value.lastCustomerActivity) else st2;
    if closeRoom.rbInfo.Some? then st3.(rbInfo := closeRoom.rbInfo) else st3
  }

  /** A `$set` of an optional field: an absent value leaves the stored one. */
  function SetIfPresent<T>(update: Option<T>, current: Option<T>): Option<T>
  {
    if update.Some? then update else current
  }

  /** `$set: settings` on one subscription: every field the settings carry is overwritten. */
  function ApplySettings(sub: Subscription, st: Settings): (r: Subscription)
    ensures r.answered == st.answered && r.open == sub.open
    ensures st.lastActivity.Some? ==> r.lastActivity == st.lastActivity
    ensures st.lastActivity.None? ==> r.lastActivity == sub.lastActivity
    ensures st.lastCustomerActivity.Some? ==> r.lastCustomerActivity == st.lastCustomerActivity
    ensures st.lastCustomerActivity.None? ==> r.lastCustomerActivity == sub.lastCustomerActivity
    ensures st.rbInfo.Some? ==> r.rbInfo == st.rbInfo
    ensures st.rbInfo.None? ==> r.rbInfo == sub.rbInfo
  {
    sub.(answered := st.answered,
         lastActivity := SetIfPresent(st.lastActivity, sub.lastActivity),
         lastCustomerActivity := SetIfPresent(st.lastCustomerActivity, sub.lastCustomerActivity),
         rbInfo := SetIfPresent(st.rbInfo, sub.rbInfo))
  }

  // ---------------------------------------------------------------------
  // The store operations, one per call the method makes.
  // ---------------------------------------------------------------------

  /** The messages `findVisibleByRoomId` matches. */
  function VisibleIn(msgs: map<MessageId, Message>, rid: RoomId): set<MessageId>
  {
    set m | m in msgs && msgs[m].rid == rid && msgs[m].visible
  }

  /** `findVisibleByRoomId(rid).count()`. */
  function CountVisible(msgs: map<MessageId, Message>, rid: RoomId): nat
  {
    |VisibleIn(msgs, rid)|
  }

  /** `Messages.updateAllRoomIds`: every message of `from` is re-pointed to `to`. */
  function UpdateAllRoomIds(msgs: map<MessageId, Message>, from: RoomId, to: RoomId): (r: map<MessageId, Message>)
    ensures r.Keys == msgs.Keys
    ensures forall m :: m in msgs ==> r[m].rid == (if msgs[m].rid == from then to else msgs[m].rid)
    ensures forall m :: m in msgs ==>
      r[m].visible == msgs[m].visible && r[m].body == msgs[m].body && r[m].ts == msgs[m].ts
  {
    map m | m in msgs :: if msgs[m].rid == from then msgs[m].(rid := to) else msgs[m]
  }

  /** `Rooms.incMsgCountAndSetLastMessageTimestampById`; an unknown id matches nothing. */
  function IncMsgCountAndSetLastMessage(rooms: map<RoomId, Room>, id: RoomId, n: int, now: Time): (r: map<RoomId, Room>)
    ensures r.Keys == rooms.Keys
    ensures id in rooms ==>
      && r[id].msgCount == rooms[id].msgCount + n
      && r[id].lastMessageAt == Some(now)
      && r[id].(msgCount := rooms[id].msgCount, lastMessageAt := rooms[id].lastMessageAt) == rooms[id]
    ensures forall other :: other in rooms && other != id ==> r[other] == rooms[other]
  {
    if id in rooms then
      rooms[id := rooms[id].(msgCount := rooms[id].msgCount + n, lastMessageAt := Some(now))]
    else rooms
  }

  /** `Subscriptions.removeByRoomId`. */
  function RemoveSubscriptionsByRoom(subs: map<SubKey, Subscription>, rid: RoomId): (r: map<SubKey, Subscription>)
    ensures forall k :: k in r <==> k in subs && k.rid != rid
    ensures forall k :: k in r ==> r[k] == subs[k]
  {
    map k | k in subs && k.rid != rid :: subs[k]
  }

  /** `remove({rid: rid})` on the inquiry and external-message collections. */
  function RemoveByRoom(records: map<RecordId, RoomId>, rid: RoomId): (r: map<RecordId, RoomId>)
    ensures forall x :: x in r <==> x in records && records[x] != rid
    ensures forall x :: x in r ==> r[x] == records[x]
  {
    map x | x in records && records[x] != rid :: records[x]
  }

  /** `Rooms.update(id, {$set: {open: true}, $unset: {comment, duration}})`; an unknown id matches nothing. */
  function ReopenRoom(rooms: map<RoomId, Room>, id: RoomId): (r: map<RoomId, Room>)
    ensures r.Keys == rooms.Keys
    ensures id in rooms ==>
      && r[id].open && r[id].comment.None? && r[id].duration.None?
      && r[id].(open := rooms[id].open, comment := rooms[id].comment, duration := rooms[id].duration) == rooms[id]
    ensures forall other :: other in rooms && other != id ==> r[other] == rooms[other]
  {
    if id in rooms then rooms[id := rooms[id].(open := true, comment := None, duration := None)] else rooms
  }

  /**
   * `Subscriptions.update({rid: rid}, {$set: settings})`, applied to every
   * subscription of the room (see the as-written single-document variant in
   * module SettingsFinding).
   */
  function SetSettingsByRoom(subs: map<SubKey, Subscription>, rid: RoomId, st: Settings): (r: map<SubKey, Subscription>)
    ensures r.Keys == subs.Keys
    ensures forall k :: k in subs && k.rid == rid ==>
      && r[k].answered == st.answered
      && r[k].open == subs[k].open
      && r[k].lastActivity == SetIfPresent(st.lastActivity, subs[k].lastActivity)
      && r[k].lastCustomerActivity == SetIfPresent(st.lastCustomerActivity, subs[k].lastCustomerActivity)
      && r[k].rbInfo == SetIfPresent(st.rbInfo, subs[k].rbInfo)
    ensures forall k :: k in subs && k.rid != rid ==> r[k] == subs[k]
  {
    map k | k in subs :: if k.rid == rid then ApplySettings(subs[k], st) else subs[k]
  }

  /** `Subscriptions.openByRoomIdAndUserId`; a missing subscription matches nothing. */
  function OpenSubscription(subs: map<SubKey, Subscription>, rid: RoomId, uid: UserId): (r: map<SubKey, Subscription>)
    ensures r.Keys == subs.Keys
    ensures SubKey(rid, uid) in subs ==> r[SubKey(rid, uid)] == subs[SubKey(rid, uid)].(open := true)
    ensures forall k :: k in subs && k != SubKey(rid, uid) ==> r[k] == subs[k]
  {
    var k := SubKey(rid, uid);
    if k in subs then subs[k := subs[k].(open := true)] else subs
  }

  // ---------------------------------------------------------------------
  // The merge.
  // ---------------------------------------------------------------------

  /** The settings the merge hands on to the target room's subscriptions. */
  function MergeSettings(s: StoreState, uid: UserId, closeId: RoomId): Settings
    requires closeId in s.rooms
  {
    DeriveSettings(SubscriptionOf(s.subscriptions, closeId, uid), s.rooms[closeId])
  }

  /**
   * The mutation sequence of livechat:mergeRooms once both rooms were found,
   * in the method's order. This is the method's own transition only: the
   * knowledge-adapter notification it defers is foreign code whose effects
   * are not modelled. The settings are written onto every subscription of
   * the target (SetSettingsByRoom), not only the first one matched.
   */
  function MergeStore(s: StoreState, uid: UserId, closeId: RoomId, newId: RoomId, now: Time): (s': StoreState)
    requires closeId in s.rooms && newId in s.rooms
    ensures closeId !in s'.rooms && s'.rooms.Keys == s.rooms.Keys - {closeId}
    ensures s'.messages.Keys == s.messages.Keys
    ensures forall m :: m in s'.messages ==> s'.messages[m].rid != closeId || closeId == newId
    ensures closeId != newId ==> newId in s'.rooms && s'.rooms[newId].open
    ensures forall k :: k in s'.subscriptions ==> k.rid != closeId
  {
    var settings := MergeSettings(s, uid, closeId);
    var moved := CountVisible(s.messages, closeId);
    var messages := UpdateAllRoomIds(s.messages, closeId, newId);
    var rooms1 := IncMsgCountAndSetLastMessage(s.rooms, newId, moved, now);
    var subs1 := RemoveSubscriptionsByRoom(s.subscriptions, closeId);
    var rooms2 := rooms1 - {closeId};
    var inquiries := RemoveByRoom(s.inquiries, closeId);
    var external := RemoveByRoom(s.externalMessages, closeId);
    var rooms3 := ReopenRoom(rooms2, newId);
    var subs2 := SetSettingsByRoom(subs1, newId, settings);
    var subs3 := OpenSubscription(subs2, newId, uid);
    StoreState(rooms3, messages, subs3, inquiries, external)
  }

  /**
   * livechat:mergeRooms: both rooms are looked up (authorization first), and
   * only when both are found does the store change. The source's second
   * not-found check after the two lookups can never fire and has no
   * counterpart here.
   */
  function Merge(
    s: StoreState,
    requester: Option<UserId>,
    hasPermission: (UserId, string) -> bool,
    closeId: RoomId,
    newId: RoomId,
    now: Time
  ): (r: Result<StoreState, Error>)
    ensures !Authorized(requester, hasPermission) ==> r == Failure(NotAuthorized(MergeRoomsMethod))
    ensures Authorized(requester, hasPermission) && (closeId !in s.rooms || newId !in s.rooms) ==>
      r == Failure(NotFound(MergeRoomsMethod))
    ensures r.Success? <==> Authorized(requester, hasPermission) && closeId in s.rooms && newId in s.rooms
    ensures r.Success? ==> r.value == MergeStore(s, requester.value, closeId, newId, now)
  {
    match GetLiveRoomFromId(s, requester, hasPermission, closeId, MergeRoomsMethod)
    case Failure(e) => Failure(e)
    case Success(_) =>
      match GetLiveRoomFromId(s, requester, hasPermission, newId, MergeRoomsMethod)
      case Failure(e) => Failure(e)
      case Success(_) => Success(MergeStore(s, requester.value, closeId, newId, now))
  }

  // ---------------------------------------------------------------------
  // What the merge guarantees.
  // ---------------------------------------------------------------------

  /**
   * Messages are conserved: the same ids before and after; each message of
   * the closing room now belongs to the target and is otherwise unchanged;
   * every other message is untouched.
   */
  lemma MergeConservesMessages(s: StoreState, uid: UserId, closeId: RoomId, newId: RoomId, now: Time)
    requires closeId in s.rooms && newId in s.rooms
    ensures var s' := MergeStore(s, uid, closeId, newId, now);
      && s'.messages.Keys == s.messages.Keys
      && (forall m :: m in s.messages && s.messages[m].rid == closeId ==>
            s'.messages[m] == s.messages[m].(rid := newId))
      && (forall m :: m in s.messages && s.messages[m].rid != closeId ==>
            s'.messages[m] == s.messages[m])
  {
  }

  /**
   * With distinct rooms, the target's visible messages after the merge are
   * exactly its own plus the closing room's, and the closing room is left
   * with none.
   */
  lemma MergeMovesVisibleMessages(s: StoreState, uid: UserId, closeId: RoomId, newId: RoomId, now: Time)
    requires closeId in s.rooms && newId in s.rooms && closeId != newId
    ensures var s' := MergeStore(s, uid, closeId, newId, now);
      && VisibleIn(s'.messages, newId) == VisibleIn(s.messages, newId) + VisibleIn(s.messages, closeId)
      && CountVisible(s'.messages, newId) == CountVisible(s.messages, newId) + CountVisible(s.messages, closeId)
      && VisibleIn(s'.messages, closeId) == {}
  {
  }

  /**
   * The target's counter grows by exactly the number of visible messages the
   * closing room had before the move, and its last-message time is `now`.
   */
  lemma MergeBumpsCounter(s: StoreState, uid: UserId, closeId: RoomId, newId: RoomId, now: Time)
    requires closeId in s.rooms && newId in s.rooms && closeId != newId
    ensures var s' := MergeStore(s, uid, closeId, newId, now);
      && newId in s'.rooms
      && s'.rooms[newId].msgCount == s.rooms[newId].msgCount + CountVisible(s.messages, closeId)
      && s'.rooms[newId].lastMessageAt == Some(now)
  {
  }

  /** A room whose counter equals the number of its visible messages. */
  predicate CounterMatches(s: StoreState, rid: RoomId)
  {
    rid in s.rooms && s.rooms[rid].msgCount == CountVisible(s.messages, rid)
  }

  /**
   * When both counters were accurate before, the target's counter is
   * accurate after the merge.
   */
  lemma MergeKeepsCounterAccurate(s: StoreState, uid: UserId, closeId: RoomId, newId: RoomId, now: Time)
    requires closeId in s.rooms && newId in s.rooms && closeId != newId
    requires CounterMatches(s, closeId) && CounterMatches(s, newId)
    ensures CounterMatches(MergeStore(s, uid, closeId, newId, now), newId)
  {
    MergeMovesVisibleMessages(s, uid, closeId, newId, now);
    MergeBumpsCounter(s, uid, closeId, newId, now);
  }

  /**
   * Retirement: no room, subscription, inquiry or external-message record
   * refers to the closing room any more, and every record of another room
   * in those collections survives.
   */
  lemma MergeRetiresClosedRoom(s: StoreState, uid: UserId, closeId: RoomId, newId: RoomId, now: Time)
    requires closeId in s.rooms && newId in s.rooms
    ensures var s' := MergeStore(s, uid, closeId, newId, now);
      && s'.rooms.Keys == s.rooms.Keys - {closeId}
      && (forall k :: k in s'.subscriptions ==> k.rid != closeId)
      && (forall k :: k in s.subscriptions && k.rid != closeId ==> k in s'.subscriptions)
      && (forall x :: x in s'.inquiries ==> s'.inquiries[x] != closeId)
      && (forall x :: x in s.inquiries && s.inquiries[x] != closeId ==> x in s'.inquiries && s'.inquiries[x] == s.inquiries[x])
      && (forall x :: x in s'.externalMessages ==> s'.externalMessages[x] != closeId)
      && (forall x :: x in s.externalMessages && s.externalMessages[x] != closeId ==>
            x in s'.externalMessages && s'.externalMessages[x] == s.externalMessages[x])
  {
  }

  /**
   * The target is reopened with its closure annotations cleared, whatever
   * its prior state; its visitor, creation time and rbInfo are kept.
   */
  lemma MergeReopensTarget(s: StoreState, uid: UserId, closeId: RoomId, newId: RoomId, now: Time)
    requires closeId in s.rooms && newId in s.rooms && closeId != newId
    ensures var s' := MergeStore(s, uid, closeId, newId, now);
      && newId in s'.rooms
      && s'.rooms[newId].open
      && s'.rooms[newId].comment.None? && s'.rooms[newId].duration.None?
      && s'.rooms[newId].v == s.rooms[newId].v
      && s'.rooms[newId].ts == s.rooms[newId].ts
      && s'.rooms[newId].rbInfo == s.rooms[newId].rbInfo
  {
  }

  /**
   * Every subscription of the target carries the settings: `answered` is the
   * requester's old answered flag (false without one), the activity times
   * come from the requester's old subscription when it has them, and the
   * closing room's rbInfo wins when it has one. The requester's subscription
   * on the target is open; the open flag of the others is kept.
   */
  lemma MergeAppliesSettings(s: StoreState, uid: UserId, closeId: RoomId, newId: RoomId, now: Time)
    requires closeId in s.rooms && newId in s.rooms && closeId != newId
    ensures var s' := MergeStore(s, uid, closeId, newId, now);
      var oldSub := SubscriptionOf(s.subscriptions, closeId, uid);
      forall k :: k in s.subscriptions && k.rid == newId ==>
        && k in s'.subscriptions
        && (s'.subscriptions[k].answered <==> oldSub.Some? && oldSub.value.answered)
        && s'.subscriptions[k].rbInfo ==
             (if s.rooms[closeId].rbInfo.Some? then s.rooms[closeId].rbInfo else s.subscriptions[k].rbInfo)
        && s'.subscriptions[k].lastActivity ==
             (if oldSub.Some? && oldSub.value.lastActivity.Some? then oldSub.value.lastActivity
              else s.subscriptions[k].lastActivity)
        && s'.subscriptions[k].lastCustomerActivity ==
             (if oldSub.Some? && oldSub.value.lastCustomerActivity.Some? then oldSub.value.lastCustomerActivity
              else s.subscriptions[k].lastCustomerActivity)
        && s'.subscriptions[k].open == (k.uid == uid || s.subscriptions[k].open)
  {
  }

  /** Rooms and subscriptions of every other room are left exactly as they were. */
  lemma MergeLeavesOtherRoomsAlone(s: StoreState, uid: UserId, closeId: RoomId, newId: RoomId, now: Time)
    requires closeId in s.rooms && newId in s.rooms
    ensures var s' := MergeStore(s, uid, closeId, newId, now);
      && (forall id :: id in s.rooms && id != closeId && id != newId ==> id in s'.rooms && s'.rooms[id] == s.rooms[id])
      && (forall k :: k in s.subscriptions && k.rid != closeId && k.rid != newId ==>
            k in s'.subscriptions && s'.subscriptions[k] == s.subscriptions[k])
      && s'.subscriptions.Keys == set k | k in s.subscriptions && k.rid != closeId
  {
  }

  /**
   * A merge is not idempotent: repeating a successful call with the same
   * arguments fails not-found, since the closing room is gone.
   */
  lemma SecondMergeFails(
    s: StoreState,
    requester: Option<UserId>,
    hasPermission: (UserId, string) -> bool,
    closeId: RoomId,
    newId: RoomId,
    now: Time,
    later: Time)
    requires Merge(s, requester, hasPermission, closeId, newId, now).Success?
    ensures var s' := Merge(s, requester, hasPermission, closeId, newId, now).value;
      Merge(s', requester, hasPermission, closeId, newId, later) == Failure(NotFound(MergeRoomsMethod))
  {
  }

  /**
   * Nothing refuses merging a room into itself. The call deletes the room
   * with its subscriptions and records, the later updates of the target
   * match nothing, and the room's messages are left pointing at a room id
   * that no longer resolves.
   */
  lemma SelfMergeOrphansMessages(s: StoreState, uid: UserId, id: RoomId, now: Time)
    requires id in s.rooms
    ensures var s' := MergeStore(s, uid, id, id, now);
      && id !in s'.rooms
      && s'.rooms == s.rooms - {id}
      && s'.messages == s.messages
      && (forall k :: k in s'.subscriptions ==> k.rid != id)
      && (forall m :: m in s'.messages && s'.messages[m].rid == id ==> s'.messages[m].rid !in s'.rooms)
  {
  }

  /** The soft invariant of the store: a visitor has at most one open room (rooms without a visitor are exempt). */
  ghost predicate OneOpenRoomPerVisitor(s: StoreState)
  {
    forall a, b ::
      a in s.rooms && b in s.rooms && s.rooms[a].open && s.rooms[b].open && s.rooms[a].v.Some? && s.rooms[a].v == s.rooms[b].v ==> a == b
  }

  /**
   * Reopening the target keeps "at most one open room per visitor" when the
   * only open room its visitor may have is the closing room or the target.
   */
  lemma MergeKeepsOneOpenRoom(s: StoreState, uid: UserId, closeId: RoomId, newId: RoomId, now: Time)
    requires closeId in s.rooms && newId in s.rooms && closeId != newId
    requires OneOpenRoomPerVisitor(s)
    requires forall id :: id in s.rooms && s.rooms[id].open && s.rooms[id].v == s.rooms[newId].v ==>
      id == closeId || id == newId
    ensures OneOpenRoomPerVisitor(MergeStore(s, uid, closeId, newId, now))
  {
  }

  /**
   * The reopen is unconditional: when the target's visitor already has a
   * third room open, the merge leaves two of its rooms open. Here visitor
   * "v" has the closed rooms "A" (closing) and "B" (target) and the open
   * room "C".
   */
  lemma MergeCanBreakOneOpenRoom(uid: UserId, now: Time)
    ensures var room := Room(Some("v"), false, 0, 0, None, None, None, None);
      var s := StoreState(map["A" := room, "B" := room, "C" := room.(open := true)], map[], map[], map[], map[]);
      && OneOpenRoomPerVisitor(s)
      && !OneOpenRoomPerVisitor(MergeStore(s, uid, "A", "B", now))
  {
    var room := Room(Some("v"), false, 0, 0, None, None, None, None);
    var s := StoreState(map["A" := room, "B" := room, "C" := room.(open := true)], map[], map[], map[], map[]);
    var s' := MergeStore(s, uid, "A", "B", now);
    assert s'.rooms["B"].open && s'.rooms["C"].open && s'.rooms["B"].v == s'.rooms["C"].v;
  }
}
