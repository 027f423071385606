/**
 * apps/api/src/huddle-rooms.ts in its own form: one object holding the `rooms`
 * Map, whose rooms are objects updated in place, and queries that loop over
 * `rooms.values()`.  Every method is proved against the value functions of
 * `HuddleModel`.
 */
module HuddleRooms {
  import opened Common
  import M = HuddleModel
  import O = Ordering

  class Room {
    const id: string
    const spaceId: string
    const orgId: string
    const createdBy: string
    var participants: map<string, M.Participant>
    var graceTimer: Option<nat>

    constructor (id: string, spaceId: string, orgId: string, createdBy: string)
      ensures View() == M.Room(id, spaceId, orgId, createdBy, map[], None)
    {
      this.id, this.spaceId, this.orgId, this.createdBy := id, spaceId, orgId, createdBy;
      participants, graceTimer := map[], None;
    }

    function View(): M.Room
      reads this
    {
      M.Room(id, spaceId, orgId, createdBy, participants, graceTimer)
    }
  }

  ghost function Views(rooms: map<string, Room>): map<string, M.Room>
    reads rooms.Values
  {
    map id | id in rooms :: rooms[id].View()
  }

  lemma ViewsSet(rooms: map<string, Room>, id: string, room: Room)
    ensures Views(rooms[id := room]) == Views(rooms)[id := room.View()]
  {
  }

  lemma ViewsDelete(rooms: map<string, Room>, id: string)
    ensures Views(rooms - {id}) == Views(rooms) - {id}
  {
  }

  /** Rooms sit under their own ids, so no two entries share an object; the order lists each id once. */
  ghost predicate Indexed(order: seq<string>, rooms: map<string, Room>) {
    && (forall id :: id in rooms ==> rooms[id].id == id)
    && NoDup(order) && (forall id :: id in order <==> id in rooms)
  }

  /** Deleting a key from the Map takes it out of the iteration order. */
  lemma WithoutEntry(order: seq<string>, rooms: map<string, Room>, id: string)
    requires Indexed(order, rooms)
    ensures Indexed(Without(order, id), rooms - {id})
  {
    WithoutNoDup(order, id);
  }

  /** Writing the fields of one room changes that entry of the view only. */
  lemma OnlyRoomChanged(before: map<string, M.Room>, rooms: map<string, Room>, id: string)
    requires id in rooms && before.Keys == rooms.Keys
    requires forall x :: x in rooms && x != id ==> rooms[x].View() == before[x]
    ensures Views(rooms) == before[id := rooms[id].View()]
  {
  }

  function ByUser(collation: (string, string) -> bool): (M.Participant, M.Participant) -> bool {
    (p: M.Participant, q: M.Participant) => collation(p.userId, q.userId)
  }

  lemma ByUserIsOrder(collation: (string, string) -> bool)
    requires O.Preorder(collation)
    ensures O.Preorder(ByUser(collation))
  {
    var order := ByUser(collation);
    forall p, q
      ensures order(p, q) || order(q, p)
    {
      assert collation(p.userId, q.userId) || collation(q.userId, p.userId);
    }
    forall p, q, r | order(p, q) && order(q, r) ensures order(p, r) {
      assert collation(p.userId, q.userId) && collation(q.userId, r.userId);
    }
  }

  lemma SortsByUser(collation: (string, string) -> bool, unsorted: seq<M.Participant>)
    requires O.Preorder(collation) && NoDup(unsorted)
    ensures
      var listed := O.SortBy(ByUser(collation), unsorted);
      && NoDup(listed) && (forall p :: p in listed <==> p in unsorted)
      && (forall i, j | 0 <= i < j < |listed| :: collation(listed[i].userId, listed[j].userId))
  {
    var listed := O.SortBy(ByUser(collation), unsorted);
    ByUserIsOrder(collation);
    O.SortSorts(ByUser(collation), unsorted);
    O.SameElements(listed, unsorted);
    O.NoDupOfMultiset(unsorted, listed);
    forall i, j | 0 <= i < j < |listed| ensures collation(listed[i].userId, listed[j].userId) {
      assert ByUser(collation)(listed[i], listed[j]);
    }
  }

  class HuddleRooms {
    var order: seq<string>
    var rooms: map<string, Room>
    var timers: map<nat, string>
    var nextTimer: nat

    constructor ()
      ensures Valid() && View() == M.NoRooms
    {
      order, rooms, timers, nextTimer := [], map[], map[], 0;
    }

    ghost predicate Valid()
      reads this
    {
      Indexed(order, rooms)
    }

    ghost function View(): M.Rooms
      reads this, rooms.Values
    {
      M.Rooms(order, Views(rooms), timers, nextTimer)
    }

    ghost predicate HasRoomFor(spaceId: string, orgId: string)
      reads this, rooms.Values
    {
      exists id :: id in rooms && rooms[id].spaceId == spaceId && rooms[id].orgId == orgId
    }

    // ---- mutations ----

    method CreateRoom(id: string, spaceId: string, orgId: string, createdBy: string) returns (room: Room)
      requires Valid()
      modifies this`order, this`rooms
      ensures Valid() && fresh(room) && rooms == old(rooms)[id := room]
      ensures View() == M.CreateRoom(old(View()), id, spaceId, orgId, createdBy)
      ensures id !in old(rooms) ==> M.IsNewRoom(old(View()), View(), id, spaceId, orgId, createdBy)
    {
      M.CreateAdds(View(), id, spaceId, orgId, createdBy);
      hide M.IsNewRoom;
      room := new Room(id, spaceId, orgId, createdBy);
      ViewsSet(rooms, id, room);
      if id !in rooms {
        NoDupSnoc(order, id);
        order := order + [id];
      }
      rooms := rooms[id := room];
    }

    method ReserveRoom(id: string, spaceId: string, orgId: string, createdBy: string)
      returns (room: Room, created: bool)
      requires Valid()
      modifies this`order, this`rooms
      ensures Valid() && room in rooms.Values
      ensures (View(), room.id, created) == M.ReserveRoom(old(View()), id, spaceId, orgId, createdBy)
      ensures id !in old(rooms) ==>
        room.spaceId == spaceId && room.orgId == orgId && (created <==> !old(HasRoomFor(spaceId, orgId)))
    {
      var existing := GetRoomBySpace(spaceId, orgId);
      if existing != null { return existing, false; }
      room := CreateRoom(id, spaceId, orgId, createdBy);
      assert id in rooms && rooms[id] == room;
      created := true;
    }

    /** `if (timer) clearTimeout(timer)`. */
    method ClearTimeout(timer: Option<nat>)
      modifies this`timers
      ensures timers == M.Cleared(old(timers), timer)
    {
      if timer.Some? { timers := timers - {timer.value}; }
    }

    method AddParticipant(roomId: string, p: M.Participant) returns (added: bool)
      requires Valid()
      modifies this`timers, rooms.Values
      ensures Valid()
      ensures (View(), added) == M.AddParticipant(old(View()), roomId, p)
      ensures M.SameRooms(old(View()), View())
      ensures if added then M.Seat(View(), roomId, p.userId) == Some(p)
                            && M.SameSeatsBut(old(View()), View(), roomId, p.userId)
              else View() == old(View())
    {
      M.AddSeats(View(), roomId, p);
      hide M.SameRooms, M.SameSeatsBut, M.Seat;
      if roomId !in rooms { return false; }
      var room := rooms[roomId];
      if p.userId in room.participants && room.participants[p.userId].socketId != p.socketId { return false; }
      ClearTimeout(room.graceTimer);
      room.graceTimer := None;
      room.participants := room.participants[p.userId := p];
      OnlyRoomChanged(old(Views(rooms)), rooms, roomId);
      added := true;
    }

    method RemoveParticipant(roomId: string, userId: string, socketId: string) returns (removal: M.Removal)
      requires Valid()
      modifies rooms.Values
      ensures Valid()
      ensures (View(), removal) == M.RemoveParticipant(old(View()), roomId, userId, socketId)
      ensures if removal.removed then M.IsLeft(old(View()), View(), roomId, userId) else View() == old(View())
    {
      M.RemoveSeats(View(), roomId, userId, socketId);
      if roomId !in rooms { return M.Removal(false, true, false); }
      var room := rooms[roomId];
      if userId !in room.participants || (socketId != "" && room.participants[userId].socketId != socketId) {
        return M.Removal(false, |room.participants| == 0, true);
      }
      room.participants := room.participants - {userId};
      OnlyRoomChanged(old(Views(rooms)), rooms, roomId);
      removal := M.Removal(true, |room.participants| == 0, true);
    }

    method SetMuted(roomId: string, userId: string, socketId: string, muted: bool) returns (changed: bool)
      requires Valid()
      modifies rooms.Values
      ensures Valid()
      ensures (View(), changed) == M.SetMuted(old(View()), roomId, userId, socketId, muted)
      ensures M.SameSeatsBut(old(View()), View(), roomId, userId)
      ensures if changed then M.Seat(View(), roomId, userId)
                              == Some(M.Seat(old(View()), roomId, userId).value.(muted := muted))
              else View() == old(View())
    {
      M.MuteChangesOne(View(), roomId, userId, socketId, muted);
      if roomId !in rooms || userId !in rooms[roomId].participants { return false; }
      var room := rooms[roomId];
      var participant := room.participants[userId];
      if participant.socketId != socketId { return false; }
      room.participants := room.participants[userId := participant.(muted := muted)];
      OnlyRoomChanged(old(Views(rooms)), rooms, roomId);
      changed := true;
    }

    method DestroyRoom(roomId: string)
      requires Valid()
      modifies this`order, this`rooms, this`timers
      ensures Valid() && rooms == old(rooms) - {roomId}
      ensures View() == M.DestroyRoom(old(View()), roomId)
    {
      if roomId in rooms {
        ClearRoomTimer(roomId);
        DeleteRoom(roomId);
      } else {
        assert rooms - {roomId} == rooms;
      }
    }

    method ClearRoomTimer(roomId: string)
      requires Valid() && roomId in rooms
      modifies this`timers
      ensures Valid()
      ensures View() == old(View()).(timers := M.Cleared(old(timers), old(View()).byId[roomId].graceTimer))
    {
      ClearTimeout(rooms[roomId].graceTimer);
    }

    /** `rooms.delete(roomId)`. */
    method DeleteRoom(roomId: string)
      requires Valid()
      modifies this`order, this`rooms
      ensures Valid() && rooms == old(rooms) - {roomId}
      ensures View() == old(View()).(order := Without(old(order), roomId), byId := old(View()).byId - {roomId})
    {
      hide Without, NoDup, Views, Indexed;
      ViewsDelete(rooms, roomId);
      WithoutEntry(order, rooms, roomId);
      order, rooms := Without(order, roomId), rooms - {roomId};
    }

    method SetGraceTimer(roomId: string)
      requires Valid()
      modifies this`timers, this`nextTimer, rooms.Values
      ensures Valid()
      ensures View() == M.SetGraceTimer(old(View()), roomId)
    {
      if roomId !in rooms { return; }
      var room := rooms[roomId];
      ghost var before := View();
      ClearTimeout(room.graceTimer);
      timers := timers[nextTimer := roomId];
      assert timers == M.SetGraceTimer(before, roomId).timers;
      room.graceTimer := Some(nextTimer);
      nextTimer := nextTimer + 1;
      OnlyRoomChanged(before.byId, rooms, roomId);
      assert room.View() == before.byId[roomId].(graceTimer := Some(before.nextTimer));
    }

    /** The event loop running an armed timeout. */
    method FireTimer(timer: nat)
      requires Valid() && timer in timers
      modifies this`order, this`rooms, this`timers
      ensures Valid()
      ensures View() == M.FireTimer(old(View()), timer)
    {
      var roomId := timers[timer];
      timers := timers - {timer};
      DestroyRoom(roomId);
    }

    // ---- queries ----

    method GetRoomBySpace(spaceId: string, orgId: string) returns (room: Room?)
      requires Valid()
      ensures room == null <==> M.GetRoomBySpace(View(), spaceId, orgId).None?
      ensures room != null ==> room in rooms.Values && M.GetRoomBySpace(View(), spaceId, orgId) == Some(room.id)
      ensures room == null <==> !HasRoomFor(spaceId, orgId)
      ensures room != null ==> room.spaceId == spaceId && room.orgId == orgId
    {
      M.RoomBySpaceMeans(View(), spaceId, orgId);
      ghost var v := View();
      for i := 0 to |order|
        invariant forall k :: 0 <= k < i ==> !M.IsOfSpace(v, order[k], spaceId, orgId)
      {
        room := rooms[order[i]];
        assert v.byId[order[i]] == room.View();
        if room.spaceId == spaceId && room.orgId == orgId {
          FindAt(order, i, id => M.IsOfSpace(v, id, spaceId, orgId));
          return;
        }
      }
      room := null;
    }

    method GetRoomIdsForSocket(socketId: string) returns (ids: seq<string>)
      requires Valid()
      ensures ids == M.RoomIdsForSocket(View(), socketId)
      ensures InOrderOf(ids, order)
      ensures forall id :: id in ids <==>
        id in rooms && exists u :: u in rooms[id].participants && rooms[id].participants[u].socketId == socketId
    {
      M.RoomsForSocketMean(View(), socketId);
      ghost var v := View();
      ghost var keep := id => M.HasSocket(v, id, socketId);
      ids := [];
      for i := 0 to |order|
        invariant ids == Select(order[..i], keep)
      {
        var room := rooms[order[i]];
        assert v.byId[order[i]] == room.View() && room.id == order[i];
        var found := exists u :: u in room.participants && room.participants[u].socketId == socketId;
        assert found == keep(order[i]);
        if found { ids := ids + [room.id]; }
        SelectStep(order, i, keep);
      }
      assert order[..|order|] == order;
    }

    method GetRoomIdsForUser(userId: string, orgId: string) returns (ids: seq<string>)
      requires Valid()
      ensures ids == M.RoomIdsForUser(View(), userId, orgId)
      ensures InOrderOf(ids, order)
      ensures forall id :: id in ids <==> id in rooms && rooms[id].orgId == orgId && userId in rooms[id].participants
    {
      M.RoomsForUserMean(View(), userId, orgId);
      ghost var v := View();
      ghost var keep := id => M.HasUser(v, id, userId, orgId);
      ids := [];
      for i := 0 to |order|
        invariant ids == Select(order[..i], keep)
      {
        var room := rooms[order[i]];
        assert v.byId[order[i]] == room.View() && room.id == order[i];
        if room.orgId == orgId && userId in room.participants { ids := ids + [room.id]; }
        SelectStep(order, i, keep);
      }
      assert order[..|order|] == order;
    }

    /** An empty `spaceId` or `userId` means any. */
    method GetRoomIdsForScope(orgId: string, spaceId: string, userId: string) returns (ids: seq<string>)
      requires Valid()
      ensures ids == M.RoomIdsForScope(View(), orgId, spaceId, userId)
      ensures InOrderOf(ids, order)
      ensures forall id :: id in ids <==>
        && id in rooms && rooms[id].orgId == orgId && (spaceId != "" ==> rooms[id].spaceId == spaceId)
        && (userId != "" ==> userId in rooms[id].participants)
    {
      M.RoomsForScopeMean(View(), orgId, spaceId, userId);
      ghost var v := View();
      ghost var keep := id => M.InScope(v, id, orgId, spaceId, userId);
      ids := [];
      for i := 0 to |order|
        invariant ids == Select(order[..i], keep)
      {
        var room := rooms[order[i]];
        assert v.byId[order[i]] == room.View() && room.id == order[i];
        SelectStep(order, i, keep);
        if room.orgId != orgId { continue; }
        if spaceId != "" && room.spaceId != spaceId { continue; }
        if userId != "" && userId !in room.participants { continue; }
        ids := ids + [room.id];
      }
      assert order[..|order|] == order;
    }

    method GetConflictingRoomId(userId: string, orgId: string, allowed: Option<string>) returns (id: Option<string>)
      requires Valid()
      ensures id == M.ConflictingRoomId(View(), userId, orgId, allowed)
      ensures id.None? <==>
        forall x | x in rooms && rooms[x].orgId == orgId && userId in rooms[x].participants :: allowed == Some(x)
      ensures id.Some? ==> allowed != id && id.value in rooms && rooms[id.value].orgId == orgId
                           && userId in rooms[id.value].participants
    {
      M.ConflictingRoomMeans(View(), userId, orgId, allowed);
      var ids := GetRoomIdsForUser(userId, orgId);
      for i := 0 to |ids|
        invariant forall k :: 0 <= k < i ==> allowed == Some(ids[k])
      {
        if allowed != Some(ids[i]) {
          FindAt(ids, i, id => allowed != Some(id));
          return Some(ids[i]);
        }
      }
      id := None;
    }

    function GetParticipantSocketId(roomId: string, userId: string): (r: Option<string>)
      reads this, rooms.Values
      ensures r == M.ParticipantSocketId(View(), roomId, userId)
    {
      if roomId in rooms && userId in rooms[roomId].participants
      then Some(rooms[roomId].participants[userId].socketId) else None
    }

    /** The participants, each once, in the order of their user ids under the locale's collation. */
    method GetParticipantList(roomId: string, collation: (string, string) -> bool) returns (listed: seq<M.Participant>)
      requires Valid() && M.ParticipantsKeyed(View()) && O.Preorder(collation)
      ensures NoDup(listed)
      ensures forall p :: p in listed <==> roomId in View().byId && p in View().byId[roomId].participants.Values
      ensures forall i, j | 0 <= i < j < |listed| :: collation(listed[i].userId, listed[j].userId)
    {
      var unsorted := ListParticipants(roomId);
      SortsByUser(collation, unsorted);
      hide ByUser;
      listed := O.SortBy(ByUser(collation), unsorted);
    }

    method ListParticipants(roomId: string) returns (listed: seq<M.Participant>)
      requires Valid() && M.ParticipantsKeyed(View())
      ensures NoDup(listed)
      ensures forall p :: p in listed <==> roomId in View().byId && p in View().byId[roomId].participants.Values
    {
      listed := [];
      if roomId !in rooms { return; }
      var participants := rooms[roomId].participants;
      assert View().byId[roomId].participants == participants;
      var left := participants.Keys;
      while left != {}
        invariant left <= participants.Keys && NoDup(listed)
        invariant forall p :: p in listed <==> p.userId in participants.Keys - left && participants[p.userId] == p
        decreases left
      {
        var u :| u in left;
        listed, left := listed + [participants[u]], left - {u};
      }
    }
  }
}
