/**
 * The live-chat collections as one mutable store, with the two room methods:
 * livechat:getPreviousRoom, which only reads, and livechat:mergeRooms, which
 * updates the collections in place one store call at a time.
 */
module LivechatStore {
  import opened LivechatTypes
  import opened RoomLookup
  import opened RoomMerge

  class Store {
    var rooms: map<RoomId, Room>
    var messages: map<MessageId, Message>
    var subscriptions: map<SubKey, Subscription>
    var inquiries: map<RecordId, RoomId>
    var externalMessages: map<RecordId, RoomId>

    /** The collections as one value. */
    function State(): StoreState
      reads this
    {
      StoreState(rooms, messages, subscriptions, inquiries, externalMessages)
    }

    constructor (s: StoreState)
      ensures State() == s
    {
      rooms := s.rooms;
      messages := s.messages;
      subscriptions := s.subscriptions;
      inquiries := s.inquiries;
      externalMessages := s.externalMessages;
    }

    /**
     * livechat:getPreviousRoom: after the guarded lookup of `roomId`, the
     * newest room (greatest `ts`) of the same visitor that is not open. The
     * current room itself is not excluded. A room without a visitor (the
     * lookup accepts rooms of every kind) makes the query throw a TypeError
     * when it reads the visitor's id. Among rooms with equal `ts` any one
     * may come back, as the query's sort leaves ties in no fixed order.
     * The method reads the store and changes nothing.
     */
    method GetPreviousRoom(
      requester: Option<UserId>,
      hasPermission: (UserId, string) -> bool,
      roomId: RoomId
    ) returns (r: Result<(RoomId, Room), Error>)
      ensures !Authorized(requester, hasPermission) ==> r == Failure(NotAuthorized(GetPreviousRoomMethod))
      ensures Authorized(requester, hasPermission) ==> r != Failure(NotAuthorized(GetPreviousRoomMethod))
      ensures Authorized(requester, hasPermission) && roomId !in rooms ==> r == Failure(NotFound(GetPreviousRoomMethod))
      ensures Authorized(requester, hasPermission) && roomId in rooms && rooms[roomId].v.None? ==>
        r == Failure(TypeError)
      ensures r.Failure? && Authorized(requester, hasPermission) && roomId in rooms && rooms[roomId].v.Some? ==>
        r.error == NotFound(GetPreviousRoomMethod) &&
        forall id :: !IsPreviousCandidate(State(), rooms[roomId].v.value, id)
      ensures r.Success? ==>
        && Authorized(requester, hasPermission) && roomId in rooms && rooms[roomId].v.Some?
        && IsPreviousRoom(State(), rooms[roomId].v.value, r.value.0)
        && r.value.1 == rooms[r.value.0]
    {
      var lookup := GetLiveRoomFromId(State(), requester, hasPermission, roomId, GetPreviousRoomMethod);
      if lookup.Failure? {
        return Failure(lookup.error);
      }
      if lookup.value.v.None? {
        return Failure(TypeError);
      }
      var visitor := lookup.value.v.value;
      var best: Option<RoomId> := None;
      var todo := rooms.Keys;
      while todo != {}
        invariant todo <= rooms.Keys
        invariant best.Some? ==> IsPreviousCandidate(State(), visitor, best.value)
        invariant forall id :: id !in todo && IsPreviousCandidate(State(), visitor, id) ==>
          best.Some? && rooms[id].ts <= rooms[best.value].ts
        decreases todo
      {
        var id :| id in todo;
        var room := rooms[id];
        if room.v == Some(visitor) && !room.open && (best.None? || rooms[best.value].ts < room.ts) {
          best := Some(id);
        }
        todo := todo - {id};
      }
      if best.None? {
        return Failure(NotFound(GetPreviousRoomMethod));
      }
      r := Success((best.value, rooms[best.value]));
    }

    /**
     * livechat:mergeRooms. Both rooms are looked up first; a failure there
     * leaves the store as it was. Otherwise the store calls are issued in
     * the method's order and the store ends as MergeStore describes: the
     * closing room retired with its records, its messages moved, the target
     * reopened and its subscriptions carrying the derived settings.
     */
    method MergeRooms(
      requester: Option<UserId>,
      hasPermission: (UserId, string) -> bool,
      closeId: RoomId,
      newId: RoomId,
      now: Time
    ) returns (r: Outcome<Error>)
      modifies this
      ensures Merge(old(State()), requester, hasPermission, closeId, newId, now).Failure? ==>
        && r == Fail(Merge(old(State()), requester, hasPermission, closeId, newId, now).error)
        && State() == old(State())
      ensures Merge(old(State()), requester, hasPermission, closeId, newId, now).Success? ==>
        && r == Pass
        && State() == Merge(old(State()), requester, hasPermission, closeId, newId, now).value
      ensures r.Pass? ==> closeId !in rooms && messages.Keys == old(messages.Keys)
      ensures r.Pass? && closeId != newId ==>
        && newId in rooms && rooms[newId].open
        && rooms[newId].msgCount == old(rooms[newId].msgCount) + CountVisible(old(messages), closeId)
    {
      var closeRoom := GetLiveRoomFromId(State(), requester, hasPermission, closeId, MergeRoomsMethod);
      if closeRoom.Failure? {
        return Fail(closeRoom.error);
      }
      var mergeRoom := GetLiveRoomFromId(State(), requester, hasPermission, newId, MergeRoomsMethod);
      if mergeRoom.Failure? {
        return Fail(mergeRoom.error);
      }
      ghost var before := State();
      var uid := requester.value;

      var settings := DeriveSettings(SubscriptionOf(subscriptions, closeId, uid), closeRoom.value);
      var moved := CountVisible(messages, closeId);
      messages := UpdateAllRoomIds(messages, closeId, newId);
      rooms := IncMsgCountAndSetLastMessage(rooms, newId, moved, now);

      subscriptions := RemoveSubscriptionsByRoom(subscriptions, closeId);
      rooms := rooms - {closeId};
      inquiries := RemoveByRoom(inquiries, closeId);
      externalMessages := RemoveByRoom(externalMessages, closeId);

      rooms := ReopenRoom(rooms, newId);
      subscriptions := SetSettingsByRoom(subscriptions, newId, settings);
      subscriptions := OpenSubscription(subscriptions, newId, uid);

      assert State() == MergeStore(before, uid, closeId, newId, now);
      MergeRetiresClosedRoom(before, uid, closeId, newId, now);
      MergeConservesMessages(before, uid, closeId, newId, now);
      if closeId != newId {
        MergeReopensTarget(before, uid, closeId, newId, now);
        MergeBumpsCounter(before, uid, closeId, newId, now);
      }
      r := Pass;
    }
  }
}
