/**
 * The guarded room lookup shared by both live-chat room methods, and the
 * specification of the "previous room" query.
 */
module RoomLookup {
  import opened LivechatTypes

  /** The capability both room methods demand of the current user. */
  const ViewLiveRoom := "view-l-room"

  const GetPreviousRoomMethod := "livechat:getPreviousRoom"

  /**
   * There is a current user and it holds `view-l-room`. A missing or empty
   * user id is falsy, so it is refused like a user without the permission.
   */
  predicate Authorized(requester: Option<UserId>, hasPermission: (UserId, string) -> bool)
  {
    requester.Some? && requester.value != "" && hasPermission(requester.value, ViewLiveRoom)
  }

  /**
   * getLiveRoomFromId: refuses an unauthorized caller before the store is
   * consulted (the first ensures does not mention the store), then fails
   * not-found for an unknown id, and otherwise returns the stored room.
   */
  function GetLiveRoomFromId(
    s: StoreState,
    requester: Option<UserId>,
    hasPermission: (UserId, string) -> bool,
    rid: RoomId,
    errorMethod: string
  ): (r: Result<Room, Error>)
    ensures !Authorized(requester, hasPermission) ==> r == Failure(NotAuthorized(errorMethod))
    ensures Authorized(requester, hasPermission) && rid !in s.rooms ==> r == Failure(NotFound(errorMethod))
    ensures r.Success? <==> Authorized(requester, hasPermission) && rid in s.rooms
    ensures r.Success? ==> r.value == s.rooms[rid]
  {
    if !Authorized(requester, hasPermission) then
      Failure(NotAuthorized(errorMethod))
    else if rid !in s.rooms then
      Failure(NotFound(errorMethod))
    else
      Success(s.rooms[rid])
  }

  /**
   * The filter of the previous-room query: a stored room of the visitor whose
   * `open` is not true. A room without a visitor never matches. Nothing
   * excludes the room the query started from.
   */
  predicate IsPreviousCandidate(s: StoreState, visitor: VisitorId, id: RoomId)
  {
    id in s.rooms && s.rooms[id].v == Some(visitor) && !s.rooms[id].open
  }

  /** A candidate with the greatest `ts`, as the query's descending sort on `ts` yields first. */
  ghost predicate IsPreviousRoom(s: StoreState, visitor: VisitorId, id: RoomId)
  {
    && IsPreviousCandidate(s, visitor, id)
    && forall other :: IsPreviousCandidate(s, visitor, other) ==> s.rooms[other].ts <= s.rooms[id].ts
  }

  /**
   * The query does not exclude the current room: a visitor's only room, once
   * no longer open, is its own previous room, and no other answer exists.
   */
  lemma CurrentRoomIsItsOwnPrevious(s: StoreState, id: RoomId)
    requires id in s.rooms && !s.rooms[id].open && s.rooms[id].v.Some?
    requires forall other :: other in s.rooms && s.rooms[other].v == s.rooms[id].v ==> other == id
    ensures IsPreviousRoom(s, s.rooms[id].v.value, id)
    ensures forall other :: IsPreviousRoom(s, s.rooms[id].v.value, other) ==> other == id
  {
  }
}
