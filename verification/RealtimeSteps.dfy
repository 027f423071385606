/** What each kind of step does to seats, sockets, access and evictions, said of the states before and after it. */
module RealtimeSteps {
  import opened Common
  import opened Realtime
  import opened RealtimeInv
  import opened RealtimeFrames
  import H = HuddleModel

  predicate SeatedOn(rs: H.Rooms, roomId: string, userId: string, sock: string) {
    H.Seat(rs, roomId, userId).Some? && H.Seat(rs, roomId, userId).value.socketId == sock
  }

  // ---- leaving ----

  /** What one departure does: the seat, if it was on this socket, is given up, and a room left empty is armed. */
  ghost predicate LeftOne(rs: H.Rooms, after: H.Rooms, roomId: string, userId: string, sock: string) {
    && H.SameRooms(rs, after) && H.SameSeatsBut(rs, after, roomId, userId)
    && (forall id | id in rs.byId && id != roomId :: after.byId[id] == rs.byId[id])
    && (forall id | id != roomId && H.Armed(rs, id) :: H.Armed(after, id))
    && (if SeatedOn(rs, roomId, userId, sock)
        then H.Seat(after, roomId, userId).None? && ArmedIfEmpty(after, roomId)
        else after == rs)
  }

  predicate ArmedIfEmpty(rs: H.Rooms, roomId: string) {
    roomId in rs.byId && rs.byId[roomId].participants == map[] ==> H.Armed(rs, roomId)
  }

  lemma LeaveOneLeaves(rs: H.Rooms, roomId: string, userId: string, sock: string)
    requires H.TimersMatch(rs) && sock != ""
    ensures LeftOne(rs, LeaveOne(rs, roomId, userId, sock), roomId, userId, sock)
    ensures H.TimersMatch(LeaveOne(rs, roomId, userId, sock))
  {
    var (left, removal) := H.RemoveParticipant(rs, roomId, userId, sock);
    H.RemoveSeats(rs, roomId, userId, sock);
    if removal.removed {
      RemovesOne(rs, roomId, userId, sock);
      H.GraceTimerArms(left, roomId);
      ArmsOne(left, roomId);
      hide H.RemoveParticipant, H.SetGraceTimer, H.TimersMatch, H.SameTimersBut;
      LeftThenArmed(rs, left, LeaveOne(rs, roomId, userId, sock), roomId, userId, sock);
    } else {
      NotThere(rs, roomId, userId, sock);
      hide H.RemoveParticipant, H.SetGraceTimer, H.TimersMatch, LeftOne;
    }
  }

  lemma LeftThenArmed(rs: H.Rooms, left: H.Rooms, after: H.Rooms, roomId: string, userId: string, sock: string)
    requires SeatedOn(rs, roomId, userId, sock) && H.IsLeft(rs, left, roomId, userId)
    requires forall id | id in rs.byId && id != roomId :: left.byId[id] == rs.byId[id]
    requires if left.byId[roomId].participants == map[]
             then H.Armed(after, roomId) && H.SameTimersBut(left, after, roomId) else after == left
    requires H.SameRooms(left, after) && H.SameSeats(left, after)
    requires forall id | id in left.byId && id != roomId :: after.byId[id] == left.byId[id]
    ensures LeftOne(rs, after, roomId, userId, sock)
  {
  }

  lemma RemovesOne(rs: H.Rooms, roomId: string, userId: string, sock: string)
    requires H.TimersMatch(rs)
    ensures
      var left := H.RemoveParticipant(rs, roomId, userId, sock).0;
      H.TimersMatch(left) && forall id | id in rs.byId && id != roomId ::
        id in left.byId && left.byId[id] == rs.byId[id]
  {
  }

  /** Arming a room's timer leaves every other room as it was. */
  lemma ArmsOne(rs: H.Rooms, roomId: string)
    requires H.TimersMatch(rs)
    ensures H.TimersMatch(H.SetGraceTimer(rs, roomId))
    ensures forall id | id in rs.byId && id != roomId :: H.SetGraceTimer(rs, roomId).byId[id] == rs.byId[id]
  {
  }

  /** `huddle:leave`: the user is out of the room, everybody else stays, and the room, if now empty, will close. */
  lemma LeaveTakesOut(s: State, sock: string, roomId: string)
    requires RoomsOk(s) && IsReady(s, sock)
    ensures
      var (k, after) := (s.sockets[sock], Apply(s, Sync(Leave(sock, roomId))));
      && LeftOne(s.rooms, after.rooms, roomId, k.userId, sock)
      && after == s.(rooms := after.rooms)
  {
    var k := s.sockets[sock];
    LeaveOneLeaves(s.rooms, roomId, k.userId, sock);
    hide LeaveOne, LeftOne, H.WellFormed;
    if SeatedOn(s.rooms, roomId, k.userId, sock) {
      assert SeatOk(s.sockets, s.rooms.byId[roomId].orgId, k.userId,
                    s.rooms.byId[roomId].participants[k.userId].socketId);
    } else {
      NotThere(s.rooms, roomId, k.userId, sock);
    }
  }

  lemma NotThere(rs: H.Rooms, roomId: string, userId: string, sock: string)
    requires !SeatedOn(rs, roomId, userId, sock)
    ensures LeftOne(rs, rs, roomId, userId, sock)
  {
  }

  // ---- disconnecting ----

  /** In the rooms listed, nobody of this user's is on the socket any more, and rooms left empty are armed. */
  ghost predicate LeftAll(rs: H.Rooms, after: H.Rooms, ids: seq<string>, userId: string, sock: string) {
    && H.SameRooms(rs, after)
    && (forall id, u :: H.Seat(after, id, u) ==
          if u == userId && id in ids && SeatedOn(rs, id, u, sock) then None else H.Seat(rs, id, u))
    && (forall id | id in rs.byId :: LeftAt(rs, after, ids, userId, sock, id))
  }

  ghost predicate LeftAt(rs: H.Rooms, after: H.Rooms, ids: seq<string>, userId: string, sock: string, id: string)
    requires id in rs.byId && id in after.byId
  {
    if id in ids && SeatedOn(rs, id, userId, sock) then ArmedIfEmpty(after, id)
    else after.byId[id] == rs.byId[id] && (H.Armed(rs, id) ==> H.Armed(after, id))
  }

  lemma {:induction false} LeaveAllLeaves(rs: H.Rooms, ids: seq<string>, userId: string, sock: string)
    requires H.TimersMatch(rs) && sock != ""
    ensures LeftAll(rs, LeaveAll(rs, ids, userId, sock), ids, userId, sock)
    decreases ids
  {
    if ids != [] {
      var left := LeaveOne(rs, ids[0], userId, sock);
      var after := LeaveAll(rs, ids, userId, sock);
      LeaveOneLeaves(rs, ids[0], userId, sock);
      LeaveAllLeaves(left, ids[1..], userId, sock);
      LeftCons(rs, left, after, ids, userId, sock);
    }
  }

  lemma LeftCons(rs: H.Rooms, left: H.Rooms, after: H.Rooms, ids: seq<string>, userId: string, sock: string)
    requires ids != [] && LeftOne(rs, left, ids[0], userId, sock) && LeftAll(left, after, ids[1..], userId, sock)
    ensures LeftAll(rs, after, ids, userId, sock)
  {
    hide H.Armed;
    forall id, u ensures H.Seat(after, id, u) ==
      if u == userId && id in ids && SeatedOn(rs, id, u, sock) then None else H.Seat(rs, id, u)
    {
      assert id in ids <==> id == ids[0] || id in ids[1..];
    }
    forall id | id in rs.byId ensures LeftAt(rs, after, ids, userId, sock, id) {
      assert LeftAt(left, after, ids[1..], userId, sock, id);
      assert id in ids <==> id == ids[0] || id in ids[1..];
    }
  }

  /** Nobody anywhere is on the socket; all other seats stand; rooms left empty are armed, other rooms untouched. */
  ghost predicate SocketOut(rs: H.Rooms, after: H.Rooms, sock: string) {
    && H.SameRooms(rs, after)
    && (forall id, u :: H.Seat(after, id, u) == if SeatedOn(rs, id, u, sock) then None else H.Seat(rs, id, u))
    && (forall id | id in rs.byId ::
          if exists u :: SeatedOn(rs, id, u, sock) then ArmedIfEmpty(after, id)
          else after.byId[id] == rs.byId[id] && (H.Armed(rs, id) ==> H.Armed(after, id)))
  }

  lemma DropTakesOut(s: State, sock: string)
    requires RoomsOk(s) && Live(s, sock)
    ensures SocketOut(s.rooms, Drop(s, sock).rooms, sock)
    ensures Drop(s, sock).sockets == s.sockets[sock := s.sockets[sock].(phase := Gone, rooms := {})]
  {
    var k, after := s.sockets[sock], Drop(s, sock).rooms;
    var ids := H.RoomIdsForSocket(s.rooms, sock);
    forall id, u | SeatedOn(s.rooms, id, u, sock) ensures u == k.userId && id in ids && k.phase.Ready? {
      assert SeatOk(s.sockets, s.rooms.byId[id].orgId, u, s.rooms.byId[id].participants[u].socketId);
      assert id in s.rooms.order && H.HasSocket(s.rooms, id, sock);
    }
    if k.phase.Ready? {
      LeaveAllLeaves(s.rooms, ids, k.userId, sock);
      hide LeaveAll, H.RoomIdsForSocket, H.WellFormed, SeatOk;
      LeftIsOut(s.rooms, after, ids, k.userId, sock);
    } else {
      NobodyOn(s.rooms, sock);
    }
  }

  lemma LeftIsOut(rs: H.Rooms, after: H.Rooms, ids: seq<string>, userId: string, sock: string)
    requires LeftAll(rs, after, ids, userId, sock)
    requires forall id, u | SeatedOn(rs, id, u, sock) :: u == userId && id in ids
    ensures SocketOut(rs, after, sock)
  {
    hide H.Armed;
    forall id | id in rs.byId ensures
      if exists u :: SeatedOn(rs, id, u, sock) then ArmedIfEmpty(after, id)
      else after.byId[id] == rs.byId[id] && (H.Armed(rs, id) ==> H.Armed(after, id))
    {
      assert LeftAt(rs, after, ids, userId, sock, id);
    }
  }

  lemma NobodyOn(rs: H.Rooms, sock: string)
    requires forall id, u :: !SeatedOn(rs, id, u, sock)
    ensures SocketOut(rs, rs, sock)
  {
  }

  lemma DisconnectIsDrop(s: State, sock: string)
    requires Live(s, sock)
    ensures Apply(s, Connecting(Disconnect(sock))) == Drop(s, sock)
  {
    hide Drop;
  }

  /** A disconnected socket is gone, and whoever sat on it is out of every room. */
  lemma DisconnectTakesOut(s: State, sock: string)
    requires RoomsOk(s) && Live(s, sock)
    ensures
      var after := Apply(s, Connecting(Disconnect(sock)));
      SocketOut(s.rooms, after.rooms, sock)
      && after.sockets == s.sockets[sock := s.sockets[sock].(phase := Gone, rooms := {})]
  {
    DropTakesOut(s, sock);
    DisconnectIsDrop(s, sock);
    hide Drop, SocketOut, Apply, RoomsOk;
  }

  /** So too when an eviction disconnects it. */
  lemma EvictDisconnectTakesOut(s: State, ev: nat, sock: string)
    requires RoomsOk(s) && Enabled(s, Evicting(EvictDisconnect(ev, sock))) && Live(s, sock)
    ensures
      var after := Apply(s, Evicting(EvictDisconnect(ev, sock)));
      SocketOut(s.rooms, after.rooms, sock)
      && after.sockets == s.sockets[sock := s.sockets[sock].(phase := Gone, rooms := {})]
  {
    var e := s.evictions[ev];
    var next := s.(evictions := s.evictions[ev := e.(toDisconnect := e.toDisconnect - {sock})]);
    DropTakesOut(next, sock);
    hide Drop, SocketOut;
  }

  // ---- joining, and taking a seat back ----

  /** This user sits in the room on this socket, and everybody else where they sat before. */
  ghost predicate SeatedOnly(before: H.Rooms, after: H.Rooms, roomId: string, userId: string, sock: string) {
    && H.SameSeatsBut(before, after, roomId, userId)
    && (H.Seat(before, roomId, userId).Some? ==> H.Seat(after, roomId, userId) == H.Seat(before, roomId, userId))
    && H.Seat(after, roomId, userId).Some? && H.Seat(after, roomId, userId).value.socketId == sock
  }

  lemma SeatsOnly(rs: H.Rooms, roomId: string, userId: string, sock: string)
    requires sock != ""
    ensures H.IsParticipant(rs, roomId, userId, sock) ==> SeatedOnly(rs, rs, roomId, userId, sock)
    ensures
      var (after, added) := H.AddParticipant(rs, roomId, H.Participant(userId, "", false, sock));
      && (added && !H.IsParticipant(rs, roomId, userId, sock) ==> SeatedOnly(rs, after, roomId, userId, sock))
      && (added ==> H.IsParticipant(after, roomId, userId, sock))
      && (!added ==> after == rs)
  {
    H.AddSeats(rs, roomId, H.Participant(userId, "", false, sock));
  }

  /** The room is there, and the user is in no other room of the organization and not in this one on another socket. */
  ghost predicate CanEnter(rooms: H.Rooms, roomId: string, userId: string, orgId: string, sock: string) {
    && roomId in rooms.byId && rooms.byId[roomId].orgId == orgId
    && (forall x | x in rooms.byId && rooms.byId[x].orgId == orgId && In(rooms, x, userId) :: x == roomId)
    && (In(rooms, roomId, userId) ==> rooms.byId[roomId].participants[userId].socketId == sock)
  }

  /** What the handlers ask of the rooms is that, and then the seat is theirs already or can be added. */
  lemma EnteringMeans(s: State, a: Activation)
    requires RoomsOk(s) && a.sock in s.sockets
    ensures
      var k := s.sockets[a.sock];
      && (MayEnter(s, a, k) <==> CanEnter(s.rooms, a.roomId, k.userId, k.orgId, a.sock))
      && (CanEnter(s.rooms, a.roomId, k.userId, k.orgId, a.sock) ==>
            || H.IsParticipant(s.rooms, a.roomId, k.userId, a.sock)
            || H.AddParticipant(s.rooms, a.roomId, H.Participant(k.userId, "", false, a.sock)).1)
  {
    var k := s.sockets[a.sock];
    H.ConflictingRoomMeans(s.rooms, k.userId, k.orgId, Some(a.roomId));
    hide H.ConflictingRoomId, H.WellFormed;
    if In(s.rooms, a.roomId, k.userId) {
      assert SeatOk(s.sockets, s.rooms.byId[a.roomId].orgId, k.userId,
                    s.rooms.byId[a.roomId].participants[k.userId].socketId);
    }
  }

  /**
   * The last step of `huddle:join`: if the socket joined, no eviction began since
   * the handler did, and the user may enter, they take the seat and nobody else
   * moves; otherwise no room changes.
   */
  lemma JoinFinishSeats(s: State, act: nat, joined: bool)
    requires RoomsOk(s) && At(s, act, Join, AwaitJoin)
    ensures
      var a := s.activations[act];
      var k := s.sockets[a.sock];
      var after := Apply(s, Huddling(JoinFinish(act, joined)));
      if joined && a.gen == s.gen && CanEnter(s.rooms, a.roomId, k.userId, k.orgId, a.sock)
      then SeatedOnly(s.rooms, after.rooms, a.roomId, k.userId, a.sock)
      else after.rooms == s.rooms
  {
    var a := s.activations[act];
    EnteringMeans(s, a);
    SeatsOnly(s.rooms, a.roomId, s.sockets[a.sock].userId, a.sock);
    hide SeatedOnly, H.AddParticipant, H.IsParticipant, MayEnter, CanEnter, H.WellFormed;
  }

  /**
   * The step before it goes on to `await socket.join` exactly with access, in the
   * same generation, into a room that may be entered.
   */
  lemma JoinResumeGoesOn(s: State, act: nat)
    requires RoomsOk(s) && AtAccess(s, act, Join)
    ensures
      var a := s.activations[act];
      var k := s.sockets[a.sock];
      Apply(s, Huddling(JoinResume(act))) == s.(activations :=
        if a.gen == s.gen && a.pc.granted && CanEnter(s.rooms, a.roomId, k.userId, k.orgId, a.sock)
        then s.activations[act := a.(pc := AwaitJoin)] else s.activations - {act})
  {
    EnteringMeans(s, s.activations[act]);
    hide H.AddParticipant, H.IsParticipant, MayEnter, CanEnter, RoomsOk;
  }

  /** The seat is given up, if it was on this socket; a room left empty is gone; everybody else stays. */
  ghost predicate TakenBack(before: H.Rooms, after: H.Rooms, roomId: string, userId: string, sock: string) {
    && (H.Seat(after, roomId, userId).Some? ==> H.Seat(after, roomId, userId).value.socketId != sock)
    && (H.Seat(before, roomId, userId).Some? && H.Seat(before, roomId, userId).value.socketId != sock ==>
          H.Seat(after, roomId, userId) == H.Seat(before, roomId, userId))
    && H.SameSeatsBut(before, after, roomId, userId)
    && (roomId in after.byId ==> after.byId[roomId].participants != map[])
    && (forall id | id in before.byId && id != roomId :: id in after.byId && after.byId[id] == before.byId[id])
  }

  lemma RollbackTakesBack(rs: H.Rooms, roomId: string, userId: string, sock: string)
    requires H.TimersMatch(rs) && sock != ""
    ensures TakenBack(rs, Rollback(rs, roomId, userId, sock), roomId, userId, sock)
  {
    var (left, removal) := H.RemoveParticipant(rs, roomId, userId, sock);
    H.RemoveSeats(rs, roomId, userId, sock);
    H.DestroyTakesOne(left, roomId);
    hide H.RemoveParticipant, H.DestroyRoom, H.Unarmed, H.SameTimersBut;
  }

  /** `huddle:create` that failed to join, or joined too late, gives its seat up. */
  lemma CreateFinishGivesUp(s: State, act: nat, joined: bool)
    requires RoomsOk(s) && At(s, act, Create, AwaitJoin)
    ensures
      var (a, after) := (s.activations[act], Apply(s, Huddling(CreateFinish(act, joined))));
      if joined && a.gen == s.gen then after.rooms == s.rooms
      else TakenBack(s.rooms, after.rooms, a.roomId, s.sockets[a.sock].userId, a.sock)
  {
    var a := s.activations[act];
    RollbackTakesBack(s.rooms, a.roomId, s.sockets[a.sock].userId, a.sock);
    hide TakenBack, Rollback, H.TimersMatch;
  }

  // ---- the other changes to rooms ----

  /** A timer closes its own room, in which nobody is. */
  lemma TimerCloses(s: State, timer: nat)
    requires RoomsOk(s) && timer in s.rooms.timers
    ensures
      var (id, after) := (s.rooms.timers[timer], Apply(s, Sync(TimerFires(timer))));
      && id in s.rooms.byId && s.rooms.byId[id].participants == map[]
      && after.rooms.byId.Keys == s.rooms.byId.Keys - {id}
      && (forall x | x in after.rooms.byId :: after.rooms.byId[x] == s.rooms.byId[x])
      && after == s.(rooms := after.rooms)
  {
    H.FireKeeps(s.rooms, timer);
    H.DestroyKeeps(s.rooms, s.rooms.timers[timer]);
    hide H.FireTimer, H.DestroyRoom, H.WellFormed, H.Unarmed, H.SameTimersBut;
  }

  /** The user's own flag, on the socket they sit on, and nothing else. */
  ghost predicate MutedOne(before: H.Rooms, after: H.Rooms, roomId: string, userId: string, sock: string, muted: bool) {
    && H.SameRooms(before, after) && H.SameSeatsBut(before, after, roomId, userId)
    && H.Seat(after, roomId, userId) ==
         if SeatedOn(before, roomId, userId, sock) then Some(H.Seat(before, roomId, userId).value.(muted := muted))
         else H.Seat(before, roomId, userId)
  }

  lemma SetMutedMutes(rs: H.Rooms, roomId: string, userId: string, sock: string, muted: bool)
    requires sock != ""
    ensures MutedOne(rs, H.SetMuted(rs, roomId, userId, sock, muted).0, roomId, userId, sock, muted)
  {
    H.MuteChangesOne(rs, roomId, userId, sock, muted);
    hide H.SetMuted;
  }

  lemma NotSeatedThere(rs: H.Rooms, roomId: string, userId: string, sock: string, muted: bool)
    requires !SeatedOn(rs, roomId, userId, sock)
    ensures MutedOne(rs, rs, roomId, userId, sock, muted)
  {
  }

  /** Muting changes that flag, on the socket the user sits on, and nothing else. */
  lemma MuteMutes(s: State, sock: string, roomId: string, muted: bool)
    requires RoomsOk(s) && IsReady(s, sock)
    ensures
      var after := Apply(s, Sync(Mute(sock, roomId, muted)));
      after == s.(rooms := after.rooms) && MutedOne(s.rooms, after.rooms, roomId, s.sockets[sock].userId, sock, muted)
  {
    var u := s.sockets[sock].userId;
    SetMutedMutes(s.rooms, roomId, u, sock, muted);
    hide H.SetMuted, H.WellFormed, MutedOne;
    if SeatedOn(s.rooms, roomId, u, sock) {
      assert SeatOk(s.sockets, s.rooms.byId[roomId].orgId, u, s.rooms.byId[roomId].participants[u].socketId);
    } else {
      NotSeatedThere(s.rooms, roomId, u, sock, muted);
    }
  }

  /** The room is gone exactly if nobody was in it; all seats and all other rooms stand. */
  ghost predicate ClosedIfEmpty(before: H.Rooms, after: H.Rooms, roomId: string) {
    && H.SameSeats(before, after)
    && (forall x | x in before.byId && x != roomId :: x in after.byId && after.byId[x] == before.byId[x])
    && (roomId in after.byId <==> roomId in before.byId && before.byId[roomId].participants != map[])
  }

  lemma DestroyIfEmpty(rs: H.Rooms, roomId: string)
    requires H.TimersMatch(rs)
    ensures ClosedIfEmpty(rs, if ParticipantIds(rs, roomId) == {} then H.DestroyRoom(rs, roomId) else rs, roomId)
  {
    H.DestroyTakesOne(rs, roomId);
    hide H.DestroyRoom, H.Unarmed, H.SameTimersBut;
  }

  /** An eviction done with a room closes it if nobody is left in it. */
  lemma EvictedRoomCloses(s: State, ev: nat)
    requires RoomsOk(s) && EvictEnabled(s, EvictRoomEnd(ev))
    ensures ClosedIfEmpty(s.rooms, Apply(s, Evicting(EvictRoomEnd(ev))).rooms, s.evictions[ev].current.value)
  {
    DestroyIfEmpty(s.rooms, s.evictions[ev].current.value);
    hide H.DestroyRoom, ClosedIfEmpty, ParticipantIds, H.WellFormed;
  }

  /** An eviction begins with a new generation, its room list exactly the rooms with somebody or something in scope. */
  lemma EvictionBegins(s: State, ev: nat, rev: nat)
    requires RoomsOk(s) && EvictEnabled(s, EvictStart(ev, rev)) && s.pending[rev].WellFormed()
    ensures
      var (scope, after) := (s.pending[rev], Apply(s, Evicting(EvictStart(ev, rev))));
      && after.gen > s.gen && after.rooms == s.rooms && after.sockets == s.sockets && rev !in after.pending
      && ev in after.evictions && after.evictions[ev].gen == after.gen && after.evictions[ev].scope == scope
      && after.evictions[ev].current.None? && !after.evictions[ev].closing
      && (forall id :: id in after.evictions[ev].todo <==>
            && id in s.rooms.byId && s.rooms.byId[id].orgId == scope.orgId
            && (scope.SpaceMembership? || scope.SpaceArchived? ==> s.rooms.byId[id].spaceId == scope.spaceId)
            && (!scope.SpaceArchived? ==> scope.userId in s.rooms.byId[id].participants))
  {
    var scope := s.pending[rev];
    H.RoomsForScopeMean(s.rooms, scope.orgId, scope.Space(), scope.User());
    hide H.RoomIdsForScope;
  }

  lemma ScopeMeans(scope: Scope, org: string, space: string, user: string)
    requires scope.WellFormed()
    ensures match scope
      case SpaceMembership(o, p, u) => scope.Covers(org, space, user) <==> org == o && space == p && user == u
      case SpaceArchived(o, p) => scope.Covers(org, space, user) <==> org == o && space == p
      case OrgMembership(o, u) => scope.Covers(org, space, user) <==> org == o && user == u
      case OrgRole(o, u) => scope.Covers(org, space, user) <==> org == o && user == u
  {
  }

  // ---- sockets and their rooms ----

  /** `space:leave` takes this socket out of this space's room and does nothing else. */
  lemma SpaceLeaveLeaves(s: State, sock: string, spaceId: string)
    requires IsReady(s, sock)
    ensures
      var after := Apply(s, Sync(SpaceLeave(sock, spaceId)));
      && after == s.(sockets := after.sockets) && after.sockets.Keys == s.sockets.Keys
      && (forall k | k in s.sockets && k != sock :: after.sockets[k] == s.sockets[k])
      && after.sockets[sock] == s.sockets[sock].(rooms := after.sockets[sock].rooms)
      && (forall room :: room in after.sockets[sock].rooms <==>
            room in s.sockets[sock].rooms && room != SpaceRoom(spaceId))
  {
  }

  /**
   * `space:join`: with access, in the same generation, the socket's join is
   * awaited; it lands unless the socket is gone; and in a newer generation the
   * socket leaves again.  Nothing else changes.
   */
  lemma SpaceJoinGates(s: State, step: SpaceJoinStep)
    requires SpaceJoinEnabled(s, step) && !step.StartSpaceJoin?
    ensures
      var a := s.activations[step.act];
      var after := Apply(s, SpaceJoining(step));
      && after == s.(sockets := after.sockets, activations := after.activations, roomGen := after.roomGen)
      && (!step.SpaceJoinLands? ==> after.roomGen == s.roomGen)
      && after.activations == (
           match step
           case SpaceJoinResume(act) =>
             if a.pc.granted && a.gen == s.gen then s.activations[act := a.(pc := AwaitJoin)] else s.activations - {act}
           case SpaceJoinLands(act) => s.activations[act := a.(pc := InRoom)]
           case SpaceJoinRecheck(act) =>
             if a.gen == s.gen then s.activations - {act} else s.activations[act := a.(pc := AwaitLeave)]
           case _ => s.activations - {step.act})
      && SpaceRoomsAfter(s.sockets, after.sockets, a, step)
  {
    SpaceRoomsChange(s, step);
    hide IsReady, SpaceRoomsAfter;
  }

  lemma SpaceRoomsChange(s: State, step: SpaceJoinStep)
    requires SpaceJoinEnabled(s, step) && !step.StartSpaceJoin?
    ensures SpaceRoomsAfter(s.sockets, Apply(s, SpaceJoining(step)).sockets, s.activations[step.act], step)
  {
    hide IsReady;
    var a, after := s.activations[step.act], Apply(s, SpaceJoining(step)).sockets;
    if step.SpaceJoinLands? && !s.sockets[a.sock].phase.Gone? {
      assert after ==
        s.sockets[a.sock := s.sockets[a.sock].(rooms := s.sockets[a.sock].rooms + {SpaceRoom(a.spaceId)})];
    } else if step.SpaceJoinLeft? {
      assert after ==
        s.sockets[a.sock := s.sockets[a.sock].(rooms := s.sockets[a.sock].rooms - {SpaceRoom(a.spaceId)})];
    } else {
      assert after == s.sockets;
    }
    hide Apply, SpaceJoinEnabled;
  }

  ghost predicate SpaceRoomsAfter(before: map<string, Socket>, after: map<string, Socket>, a: Activation,
                                  step: SpaceJoinStep)
    requires a.sock in before
  {
    && after.Keys == before.Keys && (forall k | k in before && k != a.sock :: after[k] == before[k])
    && after[a.sock] == before[a.sock].(rooms := after[a.sock].rooms)
    && (forall room :: room in after[a.sock].rooms <==>
          if room != SpaceRoom(a.spaceId) then room in before[a.sock].rooms
          else if step.SpaceJoinLands? && !before[a.sock].phase.Gone? then true
          else room in before[a.sock].rooms && !step.SpaceJoinLeft?)
  }

  /** An eviction's last section: exactly the sockets it covers leave the space's room, or are to be disconnected. */
  lemma EvictionCloses(s: State, ev: nat)
    requires EvictEnabled(s, EvictClose(ev))
    ensures
      var (scope, after) := (s.evictions[ev].scope, Apply(s, Evicting(EvictClose(ev))));
      && after == s.(sockets := after.sockets, evictions := after.evictions)
      && after.sockets.Keys == s.sockets.Keys
      && (forall k | k in s.sockets ::
            && after.sockets[k] == s.sockets[k].(rooms := after.sockets[k].rooms)
            && forall room :: room in after.sockets[k].rooms <==>
                 room in s.sockets[k].rooms && !(
                   || (scope.SpaceMembership? && room == SpaceRoom(scope.spaceId)
                       && OrgUserRoom(scope.orgId, scope.userId) in s.sockets[k].rooms)
                   || (scope.SpaceArchived? && room == SpaceRoom(scope.spaceId))))
      && after.evictions ==
         s.evictions[ev := s.evictions[ev].(closing := true, toDisconnect := after.evictions[ev].toDisconnect)]
      && (forall k :: k in after.evictions[ev].toDisconnect <==>
            (scope.OrgMembership? || scope.OrgRole?) && k in s.sockets
              && OrgUserRoom(scope.orgId, scope.userId) in s.sockets[k].rooms)
  {
  }

  /**
   * The role a handshake goes by is the database's as it answers; without one,
   * refused at the second look, or with a newer generation, the socket is gone.
   */
  lemma HandshakeGates(s: State, step: ConnectionStep)
    requires ConnectionEnabled(s, step) && !step.Handshake? && !step.Disconnect?
    ensures step.sock in Apply(s, Connecting(step)).sockets
    ensures
      var k := s.sockets[step.sock];
      var p := k.phase;
      var now := Apply(s, Connecting(step)).sockets[step.sock].phase;
      match step
      case ReadRole(_) => now == RoleRead(p.gen, RoleNow(s.db, k))
      case HandshakeResume(_) => now == if p.found.Some? && p.gen == s.gen then Admitted(s.gen, p.found.value) else Gone
      case Connected(_) => now == if p.gen == s.gen then Verifying(s.gen, p.role) else Gone
      case Reverified(_, ok) => now == if ok && p.gen == s.gen then JoiningRooms(s.gen, p.role) else Gone
      case RoomsJoined(_) => now == InRooms(p.gen, p.role)
      case ConnectionResume(_) => now == if p.gen == s.gen then Ready else Gone
  {
    if step.sock in s.sockets { DropIsGone(s, step.sock); }
    hide Drop, Stamp, DataRooms;
  }

  lemma DropIsGone(s: State, sock: string)
    requires sock in s.sockets
    ensures sock in Drop(s, sock).sockets && Drop(s, sock).sockets[sock].phase == Gone
  {
    hide DropRooms, DropPresence;
  }

  function RoleNow(db: Db, k: Socket): Option<Role> {
    if (k.orgId, k.userId) in db.roles then Some(db.roles[(k.orgId, k.userId)]) else None
  }

  /** The rooms a connection joins: the organization's and the user's own, and the members' room unless a guest. */
  lemma ConnectionJoins(s: State, sock: string)
    requires sock in s.sockets && s.sockets[sock].phase.JoiningRooms?
    ensures
      var (k, after) := (s.sockets[sock], Apply(s, Connecting(RoomsJoined(sock))).sockets[sock]);
      && after.phase == InRooms(k.phase.gen, k.phase.role)
      && (forall room :: room in after.rooms <==>
            || room in k.rooms || room == OrgRoom(k.orgId) || room == UserRoom(k.userId)
            || room == OrgUserRoom(k.orgId, k.userId) || (room == OrgMembersRoom(k.orgId) && k.phase.role != Guest))
  {
    hide Stamp;
  }

  // ---- access ----

  /** Revocations take away exactly what they name; grants take nothing. */
  lemma DbStepAccess(s: State, step: DbStep, space: string, user: string, org: string)
    requires DbEnabled(s, step)
    ensures
      var (before, after) := (Access(s.db, space, user, org), Access(Apply(s, Database(step)).db, space, user, org));
      match step
      case RemoveMember(_, p, u) => after <==> before && !(space == p && user == u)
      case ArchiveSpace(_, p) => after <==> before && space != p
      case ArchiveSilently(p) => after <==> before && space != p
      case RevokeOrg(_, o, u) => after <==> before && !(org == o && user == u)
      case DeactivateSilently(o, u) => after <==> before && !(org == o && user == u)
      case ChangeRole(_, _, _, _) => after <==> before
      case ChangeRoleSilently(_, _, _) => after <==> before
      case PurgeMemberships(rev) => after <==> before && !(org == s.pending[rev].orgId && user == s.pending[rev].userId)
      case CreateSpace(p, o) => (before ==> after) && (after && space == p ==> org == o)
      case GrantMember(p, u) => (before ==> after) && (after && !before ==> space == p && user == u)
      case GrantRole(o, u, _) => (before ==> after) && (after && !before ==> org == o && user == u)
      case Unarchive(p) => (before ==> after) && (after && !before ==> space == p)
  {
  }

  /** A new space, its member and that member's role together give access. */
  lemma GrantsGiveAccess(s: State, space: string, user: string, org: string, role: Role)
    requires DbEnabled(s, CreateSpace(space, org)) && DbEnabled(s, GrantRole(org, user, role))
    requires space !in s.db.archived
    ensures
      var made := Apply(s, Database(CreateSpace(space, org)));
      var joined := Apply(made, Database(GrantMember(space, user)));
      DbEnabled(joined, GrantRole(org, user, role))
      && Access(Apply(joined, Database(GrantRole(org, user, role))).db, space, user, org)
  {
  }

  /** What a handler asks is what the database says at that moment. */
  lemma AccessIsRead(s: State, act: nat)
    requires HuddleEnabled(s, ReadAccess(act))
    ensures
      var (a, after) := (s.activations[act], Apply(s, Huddling(ReadAccess(act))));
      act in after.activations && after.activations[act] == a.(pc := GotAccess(
        Access(s.db, a.spaceId, s.sockets[a.sock].userId, s.sockets[a.sock].orgId)))
  {
  }
}
