/**
 * The values kept by apps/api/src/huddle-rooms.ts and what each exported
 * function does to them.  `byId` and `order` together are the JavaScript Map
 * `rooms` (contents and insertion order); `timers` are the timeouts that have
 * been armed and neither cleared nor fired, with the room each will destroy.
 */
module HuddleModel {
  import opened Common

  datatype Participant = Participant(userId: string, userName: string, muted: bool, socketId: string)

  datatype Room = Room(
    id: string, spaceId: string, orgId: string, createdBy: string,
    participants: map<string, Participant>, graceTimer: Option<nat>)

  datatype Rooms = Rooms(
    order: seq<string>, byId: map<string, Room>, timers: map<nat, string>, nextTimer: nat)

  datatype Removal = Removal(removed: bool, empty: bool, roomFound: bool)

  const NoRooms := Rooms([], map[], map[], 0)

  // ---- mutations ----

  function CreateRoom(rs: Rooms, id: string, spaceId: string, orgId: string, createdBy: string): Rooms {
    rs.(order := if id in rs.byId then rs.order else rs.order + [id],
        byId := rs.byId[id := Room(id, spaceId, orgId, createdBy, map[], None)])
  }

  function ReserveRoom(rs: Rooms, id: string, spaceId: string, orgId: string, createdBy: string)
    : (Rooms, string, bool)
  {
    match GetRoomBySpace(rs, spaceId, orgId)
    case Some(existing) => (rs, existing, false)
    case None => (CreateRoom(rs, id, spaceId, orgId, createdBy), id, true)
  }

  function Cleared(timers: map<nat, string>, timer: Option<nat>): map<nat, string> {
    match timer
    case None => timers
    case Some(t) => timers - {t}
  }

  function AddParticipant(rs: Rooms, roomId: string, p: Participant): (Rooms, bool) {
    if roomId !in rs.byId then (rs, false)
    else
      var room := rs.byId[roomId];
      if p.userId in room.participants && room.participants[p.userId].socketId != p.socketId then (rs, false)
      else
        (rs.(byId := rs.byId[roomId := room.(graceTimer := None, participants := room.participants[p.userId := p])],
             timers := Cleared(rs.timers, room.graceTimer)),
         true)
  }

  /** An absent `socketId` argument and the empty string are the same to the source; both are "" here. */
  function RemoveParticipant(rs: Rooms, roomId: string, userId: string, socketId: string): (Rooms, Removal) {
    if roomId !in rs.byId then (rs, Removal(false, true, false))
    else
      var room := rs.byId[roomId];
      if userId !in room.participants || (socketId != "" && room.participants[userId].socketId != socketId)
      then (rs, Removal(false, room.participants == map[], true))
      else
        var left := room.participants - {userId};
        (rs.(byId := rs.byId[roomId := room.(participants := left)]), Removal(true, left == map[], true))
  }

  function SetMuted(rs: Rooms, roomId: string, userId: string, socketId: string, muted: bool): (Rooms, bool) {
    if roomId !in rs.byId || userId !in rs.byId[roomId].participants
       || rs.byId[roomId].participants[userId].socketId != socketId
    then (rs, false)
    else
      var room := rs.byId[roomId];
      var p := room.participants[userId].(muted := muted);
      (rs.(byId := rs.byId[roomId := room.(participants := room.participants[userId := p])]), true)
  }

  function DestroyRoom(rs: Rooms, roomId: string): Rooms {
    if roomId !in rs.byId then rs
    else
      rs.(order := Without(rs.order, roomId),
          byId := rs.byId - {roomId},
          timers := Cleared(rs.timers, rs.byId[roomId].graceTimer))
  }

  function SetGraceTimer(rs: Rooms, roomId: string): Rooms {
    if roomId !in rs.byId then rs
    else
      var room := rs.byId[roomId];
      rs.(byId := rs.byId[roomId := room.(graceTimer := Some(rs.nextTimer))],
          timers := Cleared(rs.timers, room.graceTimer)[rs.nextTimer := roomId],
          nextTimer := rs.nextTimer + 1)
  }

  /** The event loop runs an armed timeout: its callback destroys the room it was armed for. */
  function FireTimer(rs: Rooms, timer: nat): Rooms
    requires timer in rs.timers
  {
    DestroyRoom(rs.(timers := rs.timers - {timer}), rs.timers[timer])
  }

  // ---- queries (each scans `rooms.values()` in insertion order) ----

  predicate IsOfSpace(rs: Rooms, id: string, spaceId: string, orgId: string) {
    id in rs.byId && rs.byId[id].spaceId == spaceId && rs.byId[id].orgId == orgId
  }

  function GetRoomBySpace(rs: Rooms, spaceId: string, orgId: string): Option<string> {
    Find(rs.order, id => IsOfSpace(rs, id, spaceId, orgId))
  }

  predicate HasSocket(rs: Rooms, id: string, socketId: string) {
    id in rs.byId && exists u :: u in rs.byId[id].participants && rs.byId[id].participants[u].socketId == socketId
  }

  function RoomIdsForSocket(rs: Rooms, socketId: string): seq<string> {
    Select(rs.order, id => HasSocket(rs, id, socketId))
  }

  predicate HasUser(rs: Rooms, id: string, userId: string, orgId: string) {
    id in rs.byId && rs.byId[id].orgId == orgId && userId in rs.byId[id].participants
  }

  function RoomIdsForUser(rs: Rooms, userId: string, orgId: string): seq<string> {
    Select(rs.order, id => HasUser(rs, id, userId, orgId))
  }

  /** Absent and empty `spaceId` or `userId` arguments both mean "any". */
  predicate InScope(rs: Rooms, id: string, orgId: string, spaceId: string, userId: string) {
    && id in rs.byId
    && rs.byId[id].orgId == orgId
    && (spaceId == "" || rs.byId[id].spaceId == spaceId)
    && (userId == "" || userId in rs.byId[id].participants)
  }

  function RoomIdsForScope(rs: Rooms, orgId: string, spaceId: string, userId: string): seq<string> {
    Select(rs.order, id => InScope(rs, id, orgId, spaceId, userId))
  }

  function ConflictingRoomId(rs: Rooms, userId: string, orgId: string, allowed: Option<string>): Option<string> {
    Find(RoomIdsForUser(rs, userId, orgId), id => allowed != Some(id))
  }

  predicate IsParticipant(rs: Rooms, roomId: string, userId: string, socketId: string) {
    && roomId in rs.byId && userId in rs.byId[roomId].participants
    && (socketId == "" || rs.byId[roomId].participants[userId].socketId == socketId)
  }

  function ParticipantSocketId(rs: Rooms, roomId: string, userId: string): Option<string> {
    if roomId in rs.byId && userId in rs.byId[roomId].participants
    then Some(rs.byId[roomId].participants[userId].socketId) else None
  }

  predicate OnDifferentSocket(rs: Rooms, roomId: string, userId: string, socketId: string) {
    var s := ParticipantSocketId(rs, roomId, userId);
    s.Some? && s.value != "" && s.value != socketId
  }

  // ---- what is where ----

  /** Who sits in a room, under which record. */
  function Seat(rs: Rooms, roomId: string, userId: string): Option<Participant> {
    if roomId in rs.byId && userId in rs.byId[roomId].participants
    then Some(rs.byId[roomId].participants[userId]) else None
  }

  /** Every seat but this one is taken or free as before, under the same record. */
  ghost predicate SameSeatsBut(before: Rooms, after: Rooms, roomId: string, userId: string) {
    forall id, u | !(id == roomId && u == userId) :: Seat(after, id, u) == Seat(before, id, u)
  }

  ghost predicate SameSeats(before: Rooms, after: Rooms) {
    forall id, u :: Seat(after, id, u) == Seat(before, id, u)
  }

  /** The same rooms for the same spaces, in the same order. */
  ghost predicate SameRooms(before: Rooms, after: Rooms) {
    && after.order == before.order && after.byId.Keys == before.byId.Keys
    && forall id | id in before.byId ::
         && after.byId[id].id == before.byId[id].id && after.byId[id].createdBy == before.byId[id].createdBy
         && after.byId[id].spaceId == before.byId[id].spaceId && after.byId[id].orgId == before.byId[id].orgId
  }

  /** Timeouts of all other rooms are as they were. */
  ghost predicate SameTimersBut(before: Rooms, after: Rooms, roomId: string) {
    && (forall t ::
         t in before.timers && before.timers[t] != roomId <==> t in after.timers && after.timers[t] != roomId)
    && (forall t | t in before.timers && before.timers[t] != roomId :: after.timers[t] == before.timers[t])
    && (forall id | id in before.byId && id in after.byId && id != roomId ::
          after.byId[id].graceTimer == before.byId[id].graceTimer)
  }

  /** No timeout will destroy this room. */
  ghost predicate Unarmed(rs: Rooms, roomId: string) {
    && (forall t | t in rs.timers :: rs.timers[t] != roomId)
    && (roomId in rs.byId ==> rs.byId[roomId].graceTimer.None?)
  }

  // ---- well-formedness kept by every mutation ----

  ghost predicate OrderMatches(rs: Rooms) {
    && NoDup(rs.order)
    && (forall id :: id in rs.order <==> id in rs.byId)
    && (forall id :: id in rs.byId ==> rs.byId[id].id == id)
  }

  ghost predicate ParticipantsKeyed(rs: Rooms) {
    forall id, u :: id in rs.byId && u in rs.byId[id].participants ==> rs.byId[id].participants[u].userId == u
  }

  /** Every live timeout is the one recorded by the room it will destroy, and conversely. */
  ghost predicate TimersMatch(rs: Rooms) {
    && (forall t :: t in rs.timers ==>
          t < rs.nextTimer && rs.timers[t] in rs.byId && rs.byId[rs.timers[t]].graceTimer == Some(t))
    && (forall id :: id in rs.byId && rs.byId[id].graceTimer.Some? ==>
          rs.byId[id].graceTimer.value in rs.timers && rs.timers[rs.byId[id].graceTimer.value] == id)
  }

  /** An armed grace timer implies an empty room. */
  ghost predicate ArmedMeansEmpty(rs: Rooms) {
    forall id :: id in rs.byId && rs.byId[id].graceTimer.Some? ==> rs.byId[id].participants == map[]
  }

  ghost predicate OneRoomPerSpace(rs: Rooms) {
    forall a, b | a in rs.byId && b in rs.byId ::
      rs.byId[a].spaceId == rs.byId[b].spaceId && rs.byId[a].orgId == rs.byId[b].orgId ==> a == b
  }

  ghost predicate OneRoomPerUser(rs: Rooms) {
    forall a, b, u | a in rs.byId && b in rs.byId && u in rs.byId[a].participants && u in rs.byId[b].participants ::
      rs.byId[a].orgId == rs.byId[b].orgId ==> a == b
  }

  ghost predicate WellFormed(rs: Rooms) {
    && OrderMatches(rs) && ParticipantsKeyed(rs) && TimersMatch(rs) && ArmedMeansEmpty(rs)
    && OneRoomPerSpace(rs) && OneRoomPerUser(rs)
  }

  // ---- preservation, one mutation at a time ----

  /** `ReserveRoom` with a fresh id keeps everything and leaves at most one room per space. */
  lemma ReserveKeeps(rs: Rooms, id: string, spaceId: string, orgId: string, createdBy: string)
    requires WellFormed(rs) && id !in rs.byId
    ensures var (after, found, created) := ReserveRoom(rs, id, spaceId, orgId, createdBy);
      && WellFormed(after)
      && found in after.byId && after.byId[found].spaceId == spaceId && after.byId[found].orgId == orgId
      && (created <==> forall x :: x in rs.byId ==> !(rs.byId[x].spaceId == spaceId && rs.byId[x].orgId == orgId))
      && (if created then found == id && IsNewRoom(rs, after, id, spaceId, orgId, createdBy) else after == rs)
  {
    ReserveAdds(rs, id, spaceId, orgId, createdBy);
    ReserveWellFormed(rs, id, spaceId, orgId, createdBy);
    hide IsNewRoom, WellFormed, CreateRoom;
  }

  lemma CreateAdds(rs: Rooms, id: string, spaceId: string, orgId: string, createdBy: string)
    ensures id !in rs.byId ==>
      IsNewRoom(rs, CreateRoom(rs, id, spaceId, orgId, createdBy), id, spaceId, orgId, createdBy)
  {
  }

  lemma ReserveAdds(rs: Rooms, id: string, spaceId: string, orgId: string, createdBy: string)
    requires id !in rs.byId
    ensures var (after, found, created) := ReserveRoom(rs, id, spaceId, orgId, createdBy);
      if created then found == id && IsNewRoom(rs, after, id, spaceId, orgId, createdBy) else after == rs
  {
  }

  lemma ReserveWellFormed(rs: Rooms, id: string, spaceId: string, orgId: string, createdBy: string)
    requires WellFormed(rs) && id !in rs.byId
    ensures var (after, found, created) := ReserveRoom(rs, id, spaceId, orgId, createdBy);
      && WellFormed(after)
      && found in after.byId && after.byId[found].spaceId == spaceId && after.byId[found].orgId == orgId
      && (created <==> forall x :: x in rs.byId ==> !(rs.byId[x].spaceId == spaceId && rs.byId[x].orgId == orgId))
  {
  }

  /** One more room, last in the order, for this space, with nobody in it. */
  ghost predicate IsNewRoom(rs: Rooms, after: Rooms, id: string, spaceId: string, orgId: string, createdBy: string) {
    && id !in rs.byId && after.order == rs.order + [id] && after.byId.Keys == rs.byId.Keys + {id}
    && (forall x | x in rs.byId :: after.byId[x] == rs.byId[x])
    && after.byId[id].id == id && after.byId[id].spaceId == spaceId && after.byId[id].orgId == orgId
    && after.byId[id].createdBy == createdBy && after.byId[id].participants == map[] && after.byId[id].graceTimer.None?
    && after.timers == rs.timers
  }

  /** Replacing one room: what the uniqueness invariants ask of the replacement. */
  lemma UpdateKeeps(rs: Rooms, after: Rooms, roomId: string, room: Room)
    requires OrderMatches(rs) && ParticipantsKeyed(rs) && OneRoomPerSpace(rs) && OneRoomPerUser(rs)
    requires roomId in rs.byId && after.byId == rs.byId[roomId := room] && after.order == rs.order
    requires room.id == roomId && room.spaceId == rs.byId[roomId].spaceId && room.orgId == rs.byId[roomId].orgId
    requires forall u :: u in room.participants ==> room.participants[u].userId == u
    requires forall u, x | u in room.participants && HasUser(rs, x, u, room.orgId) :: x == roomId
    ensures OrderMatches(after) && ParticipantsKeyed(after) && OneRoomPerSpace(after) && OneRoomPerUser(after)
  {
    assert forall x :: x in after.byId <==> x in rs.byId;
    assert forall x | x in rs.byId && x != roomId :: after.byId[x] == rs.byId[x];
    forall a, b, u | a in after.byId && b in after.byId && u in after.byId[a].participants
      && u in after.byId[b].participants
      && after.byId[a].orgId == after.byId[b].orgId
      ensures a == b
    {
      if a == roomId && b != roomId { assert HasUser(rs, b, u, room.orgId); }
      if b == roomId && a != roomId { assert HasUser(rs, a, u, room.orgId); }
    }
  }

  /** Replacing one room: its timer is kept, cleared, or armed afresh. */
  lemma TimersKeep(rs: Rooms, after: Rooms, roomId: string, room: Room)
    requires TimersMatch(rs) && ArmedMeansEmpty(rs)
    requires roomId in rs.byId && after.byId == rs.byId[roomId := room]
    requires
      || (after.timers == rs.timers && after.nextTimer == rs.nextTimer && room.graceTimer == rs.byId[roomId].graceTimer)
      || (after.timers == Cleared(rs.timers, rs.byId[roomId].graceTimer) && after.nextTimer == rs.nextTimer
          && room.graceTimer.None?)
      || (after.timers == Cleared(rs.timers, rs.byId[roomId].graceTimer)[rs.nextTimer := roomId]
          && after.nextTimer == rs.nextTimer + 1 && room.graceTimer == Some(rs.nextTimer))
    requires room.graceTimer.Some? ==> room.participants == map[]
    ensures TimersMatch(after) && ArmedMeansEmpty(after)
  {
    assert forall x | x in rs.byId && x != roomId :: after.byId[x] == rs.byId[x];
  }

  lemma UsersStay(rs: Rooms, roomId: string)
    requires OneRoomPerUser(rs) && roomId in rs.byId
    ensures forall u, x | u in rs.byId[roomId].participants && HasUser(rs, x, u, rs.byId[roomId].orgId) :: x == roomId
  {
  }

  /**
   * Adding a participant keeps everything provided the user is in no other room
   * of the organization; it is refused exactly for a missing room or a user
   * already there on another socket.  Everybody else keeps their seat, and no
   * timeout of the room is left.
   */
  lemma AddKeeps(rs: Rooms, roomId: string, p: Participant)
    requires WellFormed(rs)
    requires roomId in rs.byId ==> forall x | HasUser(rs, x, p.userId, rs.byId[roomId].orgId) :: x == roomId
    ensures var (after, added) := AddParticipant(rs, roomId, p);
      && WellFormed(after)
      && (added <==> roomId in rs.byId && ParticipantSocketId(rs, roomId, p.userId) in {None, Some(p.socketId)})
      && (if added then IsJoined(rs, after, roomId, p) else after == rs)
  {
    AddSeats(rs, roomId, p);
    AddTimers(rs, roomId, p);
    AddWellFormed(rs, roomId, p);
    hide WellFormed, AddParticipant, SameRooms, SameSeatsBut, Unarmed, SameTimersBut;
  }

  lemma AddWellFormed(rs: Rooms, roomId: string, p: Participant)
    requires WellFormed(rs)
    requires roomId in rs.byId ==> forall x | HasUser(rs, x, p.userId, rs.byId[roomId].orgId) :: x == roomId
    ensures WellFormed(AddParticipant(rs, roomId, p).0)
  {
    var (after, added) := AddParticipant(rs, roomId, p);
    if added {
      UsersStay(rs, roomId);
      UpdateKeeps(rs, after, roomId, after.byId[roomId]);
      TimersKeep(rs, after, roomId, after.byId[roomId]);
    }
  }

  ghost predicate IsJoined(rs: Rooms, after: Rooms, roomId: string, p: Participant) {
    && SameRooms(rs, after) && Seat(after, roomId, p.userId) == Some(p) && SameSeatsBut(rs, after, roomId, p.userId)
    && Unarmed(after, roomId) && SameTimersBut(rs, after, roomId)
  }

  lemma AddTimers(rs: Rooms, roomId: string, p: Participant)
    requires TimersMatch(rs)
    ensures var (after, added) := AddParticipant(rs, roomId, p);
      && (added <==> roomId in rs.byId && ParticipantSocketId(rs, roomId, p.userId) in {None, Some(p.socketId)})
      && (added ==> Unarmed(after, roomId) && SameTimersBut(rs, after, roomId))
  {
  }

  /** Whatever else the invariants need, whoever is added is the only one whose seat changes. */
  lemma AddSeats(rs: Rooms, roomId: string, p: Participant)
    ensures var (after, added) := AddParticipant(rs, roomId, p);
      && SameRooms(rs, after)
      && (if added then Seat(after, roomId, p.userId) == Some(p) && SameSeatsBut(rs, after, roomId, p.userId)
          else after == rs)
  {
  }

  lemma RemoveKeeps(rs: Rooms, roomId: string, userId: string, socketId: string)
    requires WellFormed(rs)
    ensures var (after, removal) := RemoveParticipant(rs, roomId, userId, socketId);
      && WellFormed(after)
      && (removal.removed <==> IsParticipant(rs, roomId, userId, socketId))
      && (removal.empty <==> roomId !in after.byId || after.byId[roomId].participants == map[])
      && (removal.roomFound <==> roomId in rs.byId)
      && (if removal.removed then IsLeft(rs, after, roomId, userId) else after == rs)
  {
    RemoveSeats(rs, roomId, userId, socketId);
    RemoveWellFormed(rs, roomId, userId, socketId);
    hide WellFormed, IsLeft;
  }

  lemma RemoveWellFormed(rs: Rooms, roomId: string, userId: string, socketId: string)
    requires WellFormed(rs)
    ensures WellFormed(RemoveParticipant(rs, roomId, userId, socketId).0)
  {
    var (after, removal) := RemoveParticipant(rs, roomId, userId, socketId);
    if removal.removed {
      UsersStay(rs, roomId);
      UpdateKeeps(rs, after, roomId, after.byId[roomId]);
      TimersKeep(rs, after, roomId, after.byId[roomId]);
    }
  }

  /** This user is out of the room, and nothing else has changed. */
  ghost predicate IsLeft(rs: Rooms, after: Rooms, roomId: string, userId: string) {
    && SameRooms(rs, after) && Seat(after, roomId, userId).None? && SameSeatsBut(rs, after, roomId, userId)
    && after.timers == rs.timers && (forall id | id in rs.byId :: after.byId[id].graceTimer == rs.byId[id].graceTimer)
  }

  lemma RemoveSeats(rs: Rooms, roomId: string, userId: string, socketId: string)
    ensures var (after, removal) := RemoveParticipant(rs, roomId, userId, socketId);
      && (removal.removed <==> IsParticipant(rs, roomId, userId, socketId))
      && (removal.empty <==> roomId !in after.byId || after.byId[roomId].participants == map[])
      && (if removal.removed then IsLeft(rs, after, roomId, userId) else after == rs)
  {
  }

  lemma DestroyKeeps(rs: Rooms, roomId: string)
    requires WellFormed(rs)
    ensures WellFormed(DestroyRoom(rs, roomId)) && roomId !in DestroyRoom(rs, roomId).byId
    ensures var after := DestroyRoom(rs, roomId);
      && after.byId.Keys == rs.byId.Keys - {roomId} && (forall id | id in after.byId :: after.byId[id] == rs.byId[id])
      && Unarmed(after, roomId) && SameTimersBut(rs, after, roomId)
  {
    DestroyTakesOne(rs, roomId);
    DestroyWellFormed(rs, roomId);
    hide WellFormed, DestroyRoom, Unarmed, SameTimersBut;
  }

  lemma DestroyTakesOne(rs: Rooms, roomId: string)
    requires TimersMatch(rs)
    ensures var after := DestroyRoom(rs, roomId);
      && after.byId.Keys == rs.byId.Keys - {roomId} && (forall id | id in after.byId :: after.byId[id] == rs.byId[id])
      && Unarmed(after, roomId) && SameTimersBut(rs, after, roomId)
  {
  }

  lemma DestroyWellFormed(rs: Rooms, roomId: string)
    requires WellFormed(rs)
    ensures WellFormed(DestroyRoom(rs, roomId))
  {
    WithoutNoDup(rs.order, roomId);
  }

  lemma SetGraceTimerKeeps(rs: Rooms, roomId: string)
    requires WellFormed(rs)
    requires roomId in rs.byId ==> rs.byId[roomId].participants == map[]
    ensures WellFormed(SetGraceTimer(rs, roomId))
    ensures var after := SetGraceTimer(rs, roomId);
      SameRooms(rs, after) && SameSeats(rs, after) && SameTimersBut(rs, after, roomId)
    ensures roomId in rs.byId ==> Armed(SetGraceTimer(rs, roomId), roomId)
    ensures roomId in rs.byId ==> SetGraceTimer(rs, roomId).byId[roomId].graceTimer.value !in rs.timers
  {
    GraceTimerArms(rs, roomId);
    GraceTimerWellFormed(rs, roomId);
    hide WellFormed, SetGraceTimer, Armed, SameRooms, SameSeats, SameTimersBut;
  }

  lemma GraceTimerArms(rs: Rooms, roomId: string)
    requires TimersMatch(rs)
    ensures var after := SetGraceTimer(rs, roomId);
      && SameRooms(rs, after) && SameSeats(rs, after) && SameTimersBut(rs, after, roomId)
      && (roomId in rs.byId ==> Armed(after, roomId) && after.byId[roomId].graceTimer.value !in rs.timers)
  {
  }

  lemma GraceTimerWellFormed(rs: Rooms, roomId: string)
    requires WellFormed(rs)
    requires roomId in rs.byId ==> rs.byId[roomId].participants == map[]
    ensures WellFormed(SetGraceTimer(rs, roomId))
  {
    var after := SetGraceTimer(rs, roomId);
    if roomId in rs.byId {
      UpdateKeeps(rs, after, roomId, after.byId[roomId]);
      TimersKeep(rs, after, roomId, after.byId[roomId]);
    }
  }

  /** A timeout is running that will destroy this room, and the room knows which. */
  predicate Armed(rs: Rooms, roomId: string) {
    && roomId in rs.byId && rs.byId[roomId].graceTimer.Some?
    && rs.byId[roomId].graceTimer.value in rs.timers && rs.timers[rs.byId[roomId].graceTimer.value] == roomId
  }

  lemma SetMutedKeeps(rs: Rooms, roomId: string, userId: string, socketId: string, muted: bool)
    requires WellFormed(rs)
    ensures WellFormed(SetMuted(rs, roomId, userId, socketId, muted).0)
    ensures var (after, changed) := SetMuted(rs, roomId, userId, socketId, muted);
      && (changed <==> ParticipantSocketId(rs, roomId, userId) == Some(socketId))
      && SameRooms(rs, after) && SameSeatsBut(rs, after, roomId, userId) && after.timers == rs.timers
      && (if changed then Seat(after, roomId, userId) == Some(Seat(rs, roomId, userId).value.(muted := muted))
          else after == rs)
  {
    MuteChangesOne(rs, roomId, userId, socketId, muted);
    MuteWellFormed(rs, roomId, userId, socketId, muted);
    hide WellFormed, SetMuted, SameRooms, SameSeatsBut;
  }

  lemma MuteChangesOne(rs: Rooms, roomId: string, userId: string, socketId: string, muted: bool)
    ensures var (after, changed) := SetMuted(rs, roomId, userId, socketId, muted);
      && (changed <==> ParticipantSocketId(rs, roomId, userId) == Some(socketId))
      && SameRooms(rs, after) && SameSeatsBut(rs, after, roomId, userId) && after.timers == rs.timers
      && (forall id | id in rs.byId :: after.byId[id].graceTimer == rs.byId[id].graceTimer)
      && (if changed then Seat(after, roomId, userId) == Some(Seat(rs, roomId, userId).value.(muted := muted))
          else after == rs)
  {
  }

  lemma MuteWellFormed(rs: Rooms, roomId: string, userId: string, socketId: string, muted: bool)
    requires WellFormed(rs)
    ensures WellFormed(SetMuted(rs, roomId, userId, socketId, muted).0)
  {
    var (after, changed) := SetMuted(rs, roomId, userId, socketId, muted);
    if changed {
      UsersStay(rs, roomId);
      UpdateKeeps(rs, after, roomId, after.byId[roomId]);
      TimersKeep(rs, after, roomId, after.byId[roomId]);
    }
  }

  /** A timeout that fires destroys its own room, which is empty, and leaves no timeout behind. */
  lemma FireKeeps(rs: Rooms, timer: nat)
    requires WellFormed(rs) && timer in rs.timers
    ensures rs.timers[timer] in rs.byId && rs.byId[rs.timers[timer]].participants == map[]
    ensures FireTimer(rs, timer) == DestroyRoom(rs, rs.timers[timer])
    ensures WellFormed(FireTimer(rs, timer))
  {
    var room := rs.timers[timer];
    assert rs.timers - {timer} - {timer} == rs.timers - {timer};
    DestroyKeeps(rs, room);
  }

  // ---- what the scans find ----

  /** The room of the space, if it has one. */
  lemma RoomBySpaceMeans(rs: Rooms, spaceId: string, orgId: string)
    requires OrderMatches(rs)
    ensures match GetRoomBySpace(rs, spaceId, orgId)
      case None => forall id | id in rs.byId :: !(rs.byId[id].spaceId == spaceId && rs.byId[id].orgId == orgId)
      case Some(id) => id in rs.byId && rs.byId[id].spaceId == spaceId && rs.byId[id].orgId == orgId
  {
    var found := GetRoomBySpace(rs, spaceId, orgId);
    forall id | id in rs.byId && rs.byId[id].spaceId == spaceId && rs.byId[id].orgId == orgId ensures found.Some? {
      assert id in rs.order && IsOfSpace(rs, id, spaceId, orgId);
    }
  }

  /** Exactly the rooms somebody of which is on this socket. */
  lemma RoomsForSocketMean(rs: Rooms, socketId: string)
    requires OrderMatches(rs)
    ensures forall id :: id in RoomIdsForSocket(rs, socketId) <==>
      id in rs.byId && exists u :: u in rs.byId[id].participants && rs.byId[id].participants[u].socketId == socketId
    ensures InOrderOf(RoomIdsForSocket(rs, socketId), rs.order)
  {
    SelectInOrder(rs.order, id => HasSocket(rs, id, socketId));
  }

  /** Exactly the organization's rooms this user is in. */
  lemma RoomsForUserMean(rs: Rooms, userId: string, orgId: string)
    requires OrderMatches(rs)
    ensures forall id :: id in RoomIdsForUser(rs, userId, orgId) <==>
      id in rs.byId && rs.byId[id].orgId == orgId && userId in rs.byId[id].participants
    ensures InOrderOf(RoomIdsForUser(rs, userId, orgId), rs.order)
  {
    SelectInOrder(rs.order, id => HasUser(rs, id, userId, orgId));
  }

  /** Exactly the organization's rooms of the space, if one is given, with the user, if one is given. */
  lemma RoomsForScopeMean(rs: Rooms, orgId: string, spaceId: string, userId: string)
    requires OrderMatches(rs)
    ensures forall id :: id in RoomIdsForScope(rs, orgId, spaceId, userId) <==>
      && id in rs.byId && rs.byId[id].orgId == orgId
      && (spaceId != "" ==> rs.byId[id].spaceId == spaceId)
      && (userId != "" ==> userId in rs.byId[id].participants)
    ensures InOrderOf(RoomIdsForScope(rs, orgId, spaceId, userId), rs.order)
  {
    SelectInOrder(rs.order, id => InScope(rs, id, orgId, spaceId, userId));
  }

  /** The user is in a room of the organization besides the allowed one, or in none. */
  lemma ConflictingRoomMeans(rs: Rooms, userId: string, orgId: string, allowed: Option<string>)
    requires OrderMatches(rs)
    ensures match ConflictingRoomId(rs, userId, orgId, allowed)
      case None => forall id | id in rs.byId && rs.byId[id].orgId == orgId && userId in rs.byId[id].participants ::
        allowed == Some(id)
      case Some(id) =>
        && id in rs.byId && rs.byId[id].orgId == orgId && userId in rs.byId[id].participants && allowed != Some(id)
  {
    RoomsForUserMean(rs, userId, orgId);
  }

  // ---- scans do not depend on the order of the Map ----

  lemma ScansIgnoreOrder(rs: Rooms, other: seq<string>, spaceId: string, orgId: string, userId: string,
                         allowed: Option<string>)
    requires WellFormed(rs)
    requires forall id :: id in other <==> id in rs.order
    ensures GetRoomBySpace(rs.(order := other), spaceId, orgId) == GetRoomBySpace(rs, spaceId, orgId)
    ensures ConflictingRoomId(rs.(order := other), userId, orgId, allowed) ==
      ConflictingRoomId(rs, userId, orgId, allowed)
  {
    var rs' := rs.(order := other);
    FindSame(rs.order, other, id => IsOfSpace(rs, id, spaceId, orgId), id => IsOfSpace(rs', id, spaceId, orgId));
    FindSame(RoomIdsForUser(rs, userId, orgId), RoomIdsForUser(rs', userId, orgId),
             id => allowed != Some(id), id => allowed != Some(id));
  }

  lemma FindSame<T(!new)>(a: seq<T>, b: seq<T>, p: T -> bool, q: T -> bool)
    requires forall x :: x in a <==> x in b
    requires forall x :: x in a ==> p(x) == q(x)
    requires forall x, y :: x in a && y in a && p(x) && p(y) ==> x == y
    ensures Find(a, p) == Find(b, q)
  {
  }
}
