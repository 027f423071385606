/**
 * Every step keeps: a live socket in an organization, organization-user, or
 * space room is still allowed there, or something in flight will take it out.
 */
module RealtimeSocketProof {
  import opened Common
  import opened Realtime
  import opened RealtimeInv
  import opened RealtimeFrames
  import H = HuddleModel
  import P = Presence
  import A = RealtimeAuthProof

  // ---- invariants ----

  ghost predicate Shape(k: Socket, gen: nat) {
    && match k.phase {
      case Ready => OrgUserRoom(k.orgId, k.userId) in k.rooms
      case InRooms(g, role) => g <= gen && k.rooms == DataRooms(k.userId, k.orgId, role)
      case Gone => k.rooms == {}
      case _ => k.phase.gen <= gen && k.rooms == {}
    }
  }

  ghost predicate Shapes(s: State) {
    forall k | k in s.sockets :: Shape(s.sockets[k], s.gen)
  }

  /** The role read during the handshake, once the handshake holds one. */
  function HeldRole(p: Phase): Option<Role> {
    match p
    case RoleRead(_, found) => found
    case Admitted(_, role) => Some(role)
    case Verifying(_, role) => Some(role)
    case JoiningRooms(_, role) => Some(role)
    case InRooms(_, role) => Some(role)
    case _ => None
  }

  predicate CoversUser(scope: Scope, orgId: string, userId: string) {
    (scope.OrgMembership? || scope.OrgRole?) && scope.orgId == orgId && scope.userId == userId
  }

  /** The role holds as far as anybody was told, or a committed change to it has an eviction to come. */
  ghost predicate RoleStands(s: State, orgId: string, userId: string, role: Role) {
    || role in s.db.RolesTold(orgId, userId)
    || exists r :: r in s.pending && CoversUser(s.pending[r], orgId, userId)
  }

  ghost predicate RolesStand(s: State) {
    forall k | k in s.sockets && HeldRole(s.sockets[k].phase).Some? :: RoleOk(s, s.sockets[k])
  }

  ghost predicate RoleOk(s: State, k: Socket)
    requires HeldRole(k.phase).Some?
  {
    k.phase.gen < s.gen || RoleStands(s, k.orgId, k.userId, HeldRole(k.phase).value)
  }

  /** What the database says about being in a socket room. */
  predicate Allowed(db: Db, k: Socket, room: SocketRoom) {
    match room
    case OrgRoom(_) => (k.orgId, k.userId) in db.roles
    case OrgUserRoom(_, _) => (k.orgId, k.userId) in db.roles
    case OrgMembersRoom(_) => (k.orgId, k.userId) in db.roles && db.roles[(k.orgId, k.userId)] != Guest
    case UserRoom(_) => true
    case SpaceRoom(space) => Access(db, space, k.userId, k.orgId)
  }

  /** The same as far as anybody was told. */
  ghost predicate ToldAllowed(db: Db, k: Socket, room: SocketRoom) {
    match room
    case OrgRoom(_) => (k.orgId, k.userId) in db.toldRoles
    case OrgUserRoom(_, _) => (k.orgId, k.userId) in db.toldRoles
    case OrgMembersRoom(_) => exists role :: role in db.RolesTold(k.orgId, k.userId) && role != Guest
    case UserRoom(_) => true
    case SpaceRoom(space) => Told(db, space, k.userId, k.orgId)
  }

  /** Whether the end of an eviction takes such a socket out of such a room. */
  predicate RoomCovered(scope: Scope, k: Socket, room: SocketRoom) {
    match scope
    case SpaceMembership(org, space, user) => k.orgId == org && k.userId == user && room == SpaceRoom(space)
    case SpaceArchived(_, space) => room == SpaceRoom(space)
    case _ => k.orgId == scope.orgId && k.userId == scope.userId
  }

  ghost predicate StandsNow(s: State, k: Socket, room: SocketRoom) {
    ToldAllowed(s.db, k, room) || exists r :: r in s.pending && RoomCovered(s.pending[r], k, room)
  }

  /** A stale `space:join` on this socket and space, about to leave the room it joined. */
  ghost predicate BeingLeft(s: State, sock: string, room: SocketRoom) {
    exists a :: a in s.activations && Leaving(s.activations[a], s.gen, sock, room)
  }

  predicate Leaving(a: Activation, gen: nat, sock: string, room: SocketRoom) {
    a.kind.SpaceJoin? && a.sock == sock && room == SpaceRoom(a.spaceId) && (a.pc.InRoom? || a.pc.AwaitLeave?)
      && a.gen < gen
  }

  ghost predicate BeingEvicted(s: State, sock: string, k: Socket, room: SocketRoom) {
    exists e :: e in s.evictions && Evicts(s.evictions[e], sock, k, room)
  }

  predicate Evicts(e: Eviction, sock: string, k: Socket, room: SocketRoom) {
    RoomCovered(e.scope, k, room) && (e.closing ==> sock in e.toDisconnect)
  }

  ghost predicate RoomOk(s: State, sock: string, k: Socket, room: SocketRoom) {
    || StandsNow(s, k, room)
    || (k.phase.InRooms? && k.phase.gen < s.gen)
    || BeingLeft(s, sock, room)
    || BeingEvicted(s, sock, k, room)
  }

  ghost predicate RoomsStand(s: State) {
    forall k, room | k in s.sockets && room in s.sockets[k].rooms :: RoomOk(s, k, s.sockets[k], room)
  }

  ghost predicate SocketsOk(s: State) {
    Shapes(s) && RolesStand(s) && RoomsStand(s)
  }

  // ---- steps that change no socket and take nobody's excuse away ----

  ghost predicate ExcusesKept(s: State, after: State) {
    && s.gen <= after.gen
    && (forall org, user, role ::
         RoleStands(s, org, user, role) ==> RoleStands(after, org, user, role) || s.gen < after.gen)
    && (forall sock, k, room ::
         StandsNow(s, k, room) ==> StandsNow(after, k, room) || BeingEvicted(after, sock, k, room))
    && (forall sock, room :: BeingLeft(s, sock, room) ==> BeingLeft(after, sock, room))
    && (forall sock, k, room :: BeingEvicted(s, sock, k, room) ==> BeingEvicted(after, sock, k, room))
  }

  lemma ExcusesKeep(s: State, after: State)
    requires SocketsOk(s) && after.sockets == s.sockets && ExcusesKept(s, after)
    ensures SocketsOk(after)
  {
    forall k | k in after.sockets && HeldRole(after.sockets[k].phase).Some? ensures RoleOk(after, after.sockets[k]) {
      assert RoleOk(s, s.sockets[k]) && Shape(s.sockets[k], s.gen);
    }
    forall k, room | k in after.sockets && room in after.sockets[k].rooms
      ensures RoomOk(after, k, after.sockets[k], room)
    {
      assert RoomOk(s, k, s.sockets[k], room);
    }
  }

  // ---- database steps ----

  lemma DbStepKeeps(s: State, step: DbStep)
    requires SocketsOk(s) && EvictionsOk(s) && DbEnabled(s, step)
    ensures SocketsOk(DbApply(s, step))
  {
    var after := DbApply(s, step);
    forall org, user, role | RoleStands(s, org, user, role) ensures RoleStands(after, org, user, role) {
      DbRole(s, step, org, user, role);
    }
    forall k, room | StandsNow(s, k, room) ensures StandsNow(after, k, room) {
      DbRoom(s, step, k, room);
    }
    forall sock, room | BeingLeft(s, sock, room) ensures BeingLeft(after, sock, room) {
      var a :| a in s.activations && Leaving(s.activations[a], s.gen, sock, room);
      assert Leaving(after.activations[a], after.gen, sock, room);
    }
    ExcusesKeep(s, after);
  }

  lemma DbRole(s: State, step: DbStep, org: string, user: string, role: Role)
    requires DbEnabled(s, step) && RoleStands(s, org, user, role)
    ensures RoleStands(DbApply(s, step), org, user, role)
  {
    var after := DbApply(s, step);
    if role in s.db.RolesTold(org, user) {
      if role !in after.db.RolesTold(org, user) {
        assert (step.RevokeOrg? || step.ChangeRole?) && CoversUser(after.pending[step.rev], org, user);
      }
    } else {
      var r :| r in s.pending && CoversUser(s.pending[r], org, user);
      assert CoversUser(after.pending[r], org, user);
    }
  }

  lemma DbRoom(s: State, step: DbStep, k: Socket, room: SocketRoom)
    requires DbEnabled(s, step) && StandsNow(s, k, room)
    ensures StandsNow(DbApply(s, step), k, room)
  {
    var after := DbApply(s, step);
    if ToldAllowed(s.db, k, room) {
      if room.OrgMembersRoom? {
        var role :| role in s.db.RolesTold(k.orgId, k.userId) && role != Guest;
        DbRole(s, step, k.orgId, k.userId, role);
        RoleAllows(after, k, room, role);
      } else if !ToldAllowed(after.db, k, room) {
        assert step.RemoveMember? || step.ArchiveSpace? || step.RevokeOrg? || step.ChangeRole?
          || step.PurgeMemberships?;
        assert RoomCovered(after.pending[step.rev], k, room);
      }
    } else {
      var r :| r in s.pending && RoomCovered(s.pending[r], k, room);
      assert RoomCovered(after.pending[r], k, room);
    }
  }

  lemma RoleAllows(s: State, k: Socket, room: SocketRoom, role: Role)
    requires room.OrgMembersRoom? && role != Guest && RoleStands(s, k.orgId, k.userId, role)
    ensures StandsNow(s, k, room)
  {
    if role !in s.db.RolesTold(k.orgId, k.userId) {
      var r :| r in s.pending && CoversUser(s.pending[r], k.orgId, k.userId);
      assert RoomCovered(s.pending[r], k, room);
    }
  }

  // ---- eviction steps ----

  lemma EvictStartKeeps(s: State, ev: nat, rev: nat)
    requires SocketsOk(s) && rev in s.pending && ev !in s.evictions
    ensures SocketsOk(ApplyEvictStart(s, rev, ev))
  {
    var after := ApplyEvictStart(s, rev, ev);
    forall sock, k, room | StandsNow(s, k, room)
      ensures StandsNow(after, k, room) || BeingEvicted(after, sock, k, room)
    {
      if !ToldAllowed(s.db, k, room) {
        var r :| r in s.pending && RoomCovered(s.pending[r], k, room);
        if r == rev { assert Evicts(after.evictions[ev], sock, k, room); }
        else { assert RoomCovered(after.pending[r], k, room); }
      }
    }
    forall sock, room | BeingLeft(s, sock, room) ensures BeingLeft(after, sock, room) {
      var a :| a in s.activations && Leaving(s.activations[a], s.gen, sock, room);
      assert Leaving(after.activations[a], after.gen, sock, room);
    }
    forall sock, k, room | BeingEvicted(s, sock, k, room) ensures BeingEvicted(after, sock, k, room) {
      var e :| e in s.evictions && Evicts(s.evictions[e], sock, k, room);
      assert Evicts(after.evictions[e], sock, k, room);
    }
    ExcusesKeep(s, after);
  }

  /** An eviction walks its rooms: no socket is concerned. */
  lemma EvictWalkKeeps(s: State, after: State, ev: nat)
    requires SocketsOk(s) && ev in s.evictions && ev in after.evictions
    requires after == s.(rooms := after.rooms, evictions := s.evictions[ev := after.evictions[ev]])
    requires after.evictions[ev].scope == s.evictions[ev].scope
    requires after.evictions[ev].closing == s.evictions[ev].closing
    requires after.evictions[ev].toDisconnect == s.evictions[ev].toDisconnect
    ensures SocketsOk(after)
  {
    forall sock, room | BeingLeft(s, sock, room) ensures BeingLeft(after, sock, room) {
      var a :| a in s.activations && Leaving(s.activations[a], s.gen, sock, room);
      assert Leaving(after.activations[a], after.gen, sock, room);
    }
    forall sock, k, room | BeingEvicted(s, sock, k, room) ensures BeingEvicted(after, sock, k, room) {
      var e :| e in s.evictions && Evicts(s.evictions[e], sock, k, room);
      assert Evicts(after.evictions[e], sock, k, room);
    }
    ExcusesKeep(s, after);
  }

  /** The final `socketsLeave`, or the listing of sockets to disconnect. */
  lemma EvictCloseKeeps(s: State, ev: nat)
    requires SocketsOk(s) && EvictEnabled(s, EvictClose(ev))
    ensures SocketsOk(ApplyEvictClose(s, ev))
  {
    var after := ApplyEvictClose(s, ev);
    forall k | k in after.sockets ensures Shape(after.sockets[k], after.gen) {
      assert Shape(s.sockets[k], s.gen);
      CloseSocket(s.sockets, s.evictions[ev].scope, k);
    }
    forall k | k in after.sockets && HeldRole(after.sockets[k].phase).Some? ensures RoleOk(after, after.sockets[k]) {
      CloseSocket(s.sockets, s.evictions[ev].scope, k);
      assert RoleOk(s, s.sockets[k]);
      SameRole(s, after, s.sockets[k].orgId, s.sockets[k].userId, HeldRole(s.sockets[k].phase).value);
    }
    forall k, room | k in after.sockets && room in after.sockets[k].rooms
      ensures RoomOk(after, k, after.sockets[k], room)
    {
      CloseSocket(s.sockets, s.evictions[ev].scope, k);
      assert Shape(s.sockets[k], s.gen) && RoomOk(s, k, s.sockets[k], room);
      if RoomCovered(s.evictions[ev].scope, s.sockets[k], room) {
        CloseReaches(s.sockets, s.evictions[ev].scope, s.gen, k, room);
      }
      CloseExcuse(s, after, ev, k, s.sockets[k], after.sockets[k], room);
    }
  }

  lemma SameRole(s: State, after: State, org: string, user: string, role: Role)
    requires after.db == s.db && after.pending == s.pending
    ensures RoleStands(s, org, user, role) == RoleStands(after, org, user, role)
  {
  }

  lemma CloseSocket(sockets: map<string, Socket>, scope: Scope, k: string)
    ensures k in sockets <==> k in SocketsAfterClose(sockets, scope)
    ensures k in sockets ==>
      var now := SocketsAfterClose(sockets, scope)[k];
      && now == sockets[k].(rooms := now.rooms) && now.rooms <= sockets[k].rooms
      && (forall room | room in sockets[k].rooms && !room.SpaceRoom? :: room in now.rooms)
  {
  }

  lemma CloseExcuse(s: State, after: State, ev: nat, k: string, before: Socket, now: Socket, room: SocketRoom)
    requires ev in s.evictions && after.gen == s.gen && after.db == s.db && after.pending == s.pending
    requires after.activations == s.activations
    requires ev in after.evictions && after.evictions == s.evictions[ev := after.evictions[ev]]
    requires after.evictions[ev].scope == s.evictions[ev].scope
    requires RoomCovered(s.evictions[ev].scope, before, room) ==> k in after.evictions[ev].toDisconnect
    requires now == before.(rooms := now.rooms) && RoomOk(s, k, before, room)
    ensures RoomOk(after, k, now, room)
  {
    if StandsNow(s, before, room) {
      StandsSame(s, after, before, now, room);
    } else if BeingLeft(s, k, room) {
      var a :| a in s.activations && Leaving(s.activations[a], s.gen, k, room);
      assert Leaving(after.activations[a], after.gen, k, room);
    } else if BeingEvicted(s, k, before, room) {
      var e :| e in s.evictions && Evicts(s.evictions[e], k, before, room);
      assert Evicts(after.evictions[e], k, now, room);
    }
  }

  lemma StandsSame(s: State, after: State, before: Socket, now: Socket, room: SocketRoom)
    requires after.db == s.db && after.pending == s.pending
    requires now.userId == before.userId && now.orgId == before.orgId && StandsNow(s, before, room)
    ensures StandsNow(after, now, room)
  {
    if !ToldAllowed(s.db, before, room) {
      var r :| r in s.pending && RoomCovered(s.pending[r], before, room);
      assert RoomCovered(after.pending[r], now, room);
    }
  }

  /** Whoever the scope covers and is still in the room is on the list of sockets to disconnect. */
  lemma CloseReaches(sockets: map<string, Socket>, scope: Scope, gen: nat, k: string, room: SocketRoom)
    requires k in sockets && Shape(sockets[k], gen) && room in sockets[k].rooms && RoomCovered(scope, sockets[k], room)
    requires k in SocketsAfterClose(sockets, scope) && room in SocketsAfterClose(sockets, scope)[k].rooms
    ensures k in SocketsToDisconnect(sockets, scope)
  {
    assert OrgUserRoom(sockets[k].orgId, sockets[k].userId) in sockets[k].rooms;
  }

  // ---- one socket changes ----

  ghost predicate OneSocket(s: State, after: State, sock: string) {
    && after.gen == s.gen && after.db == s.db && after.pending == s.pending && after.evictions == s.evictions
    && sock in after.sockets && after.sockets == s.sockets[sock := after.sockets[sock]]
    && (forall k, room | k != sock && BeingLeft(s, k, room) :: BeingLeft(after, k, room))
  }

  lemma OneSocketKeeps(s: State, after: State, sock: string)
    requires SocketsOk(s) && OneSocket(s, after, sock)
    requires Shape(after.sockets[sock], s.gen)
    requires HeldRole(after.sockets[sock].phase).Some? ==> RoleOk(after, after.sockets[sock])
    requires forall room | room in after.sockets[sock].rooms :: RoomOk(after, sock, after.sockets[sock], room)
    ensures SocketsOk(after)
  {
    forall k | k in after.sockets ensures Shape(after.sockets[k], after.gen) {
      assert k != sock ==> Shape(s.sockets[k], s.gen);
    }
    forall k | k in after.sockets && HeldRole(after.sockets[k].phase).Some? ensures RoleOk(after, after.sockets[k]) {
      if k != sock {
        assert RoleOk(s, s.sockets[k]);
        SameRole(s, after, s.sockets[k].orgId, s.sockets[k].userId, HeldRole(s.sockets[k].phase).value);
      }
    }
    forall k, room | k in after.sockets && room in after.sockets[k].rooms
      ensures RoomOk(after, k, after.sockets[k], room)
    {
      if k != sock {
        assert RoomOk(s, k, s.sockets[k], room);
        SameExcuse(s, after, k, s.sockets[k], room);
      }
    }
  }

  /** The same socket record in the same room has the same excuse, `BeingLeft` aside. */
  lemma SameExcuse(s: State, after: State, k: string, x: Socket, room: SocketRoom)
    requires after.gen == s.gen && after.db == s.db && after.pending == s.pending && after.evictions == s.evictions
    requires RoomOk(s, k, x, room) && (BeingLeft(s, k, room) ==> BeingLeft(after, k, room))
    ensures RoomOk(after, k, x, room)
  {
    if StandsNow(s, x, room) {
      StandsSame(s, after, x, x, room);
    } else if BeingEvicted(s, k, x, room) {
      var e :| e in s.evictions && Evicts(s.evictions[e], k, x, room);
      assert Evicts(after.evictions[e], k, x, room);
    }
  }

  lemma LeftSame(s: State, after: State)
    requires after.gen == s.gen && after.activations == s.activations
    ensures forall k, room | BeingLeft(s, k, room) :: BeingLeft(after, k, room)
  {
    forall k, room | BeingLeft(s, k, room) ensures BeingLeft(after, k, room) {
      var a :| a in s.activations && Leaving(s.activations[a], s.gen, k, room);
      assert Leaving(after.activations[a], after.gen, k, room);
    }
  }

  lemma DropKeeps(s: State, sock: string)
    requires SocketsOk(s) && sock in s.sockets
    ensures SocketsOk(Drop(s, sock))
  {
    LeftSame(s, Drop(s, sock));
    OneSocketKeeps(s, Drop(s, sock), sock);
  }

  lemma EvictDisconnectKeeps(s: State, ev: nat, sock: string)
    requires SocketsOk(s) && EvictEnabled(s, EvictDisconnect(ev, sock))
    ensures SocketsOk(ApplyEvictDisconnect(s, ev, sock))
  {
    var dropped := if Live(s, sock) then Drop(s, sock) else s;
    if Live(s, sock) { DropKeeps(s, sock); }
    var after := ApplyEvictDisconnect(s, ev, sock);
    if sock in s.sockets { assert Shape(s.sockets[sock], s.gen); }
    ListShortened(dropped, after, ev, sock);
  }

  /** Taking a closed socket off the list leaves nobody without an excuse. */
  lemma ListShortened(s: State, after: State, ev: nat, sock: string)
    requires SocketsOk(s) && ev in s.evictions
    requires sock in s.sockets ==> s.sockets[sock].rooms == {}
    requires after.gen == s.gen && after.db == s.db && after.pending == s.pending
    requires after.sockets == s.sockets && after.activations == s.activations
    requires after.evictions ==
      s.evictions[ev := s.evictions[ev].(toDisconnect := s.evictions[ev].toDisconnect - {sock})]
    ensures SocketsOk(after)
  {
    LeftSame(s, after);
    forall k | k in after.sockets && HeldRole(after.sockets[k].phase).Some? ensures RoleOk(after, after.sockets[k]) {
      assert RoleOk(s, s.sockets[k]);
      SameRole(s, after, s.sockets[k].orgId, s.sockets[k].userId, HeldRole(s.sockets[k].phase).value);
    }
    forall k, room | k in after.sockets && room in after.sockets[k].rooms
      ensures RoomOk(after, k, after.sockets[k], room)
    {
      assert RoomOk(s, k, s.sockets[k], room);
      var x := s.sockets[k];
      if StandsNow(s, x, room) {
        StandsSame(s, after, x, x, room);
      } else if BeingEvicted(s, k, x, room) {
        var e :| e in s.evictions && Evicts(s.evictions[e], k, x, room);
        assert Evicts(after.evictions[e], k, x, room);
      }
    }
  }

  lemma EvictReturnKeeps(s: State, ev: nat)
    requires SocketsOk(s) && EvictEnabled(s, EvictReturn(ev))
    ensures SocketsOk(ApplyEvictReturn(s, ev))
  {
    var after := ApplyEvictReturn(s, ev);
    LeftSame(s, after);
    forall sock, k, room | BeingEvicted(s, sock, k, room) ensures BeingEvicted(after, sock, k, room) {
      var e :| e in s.evictions && Evicts(s.evictions[e], sock, k, room);
      assert Evicts(after.evictions[e], sock, k, room);
    }
    ExcusesKeep(s, after);
  }

  lemma EvictStepKeeps(s: State, step: EvictStep)
    requires SocketsOk(s) && EvictEnabled(s, step)
    ensures SocketsOk(EvictApply(s, step))
  {
    match step {
      case EvictStart(ev, rev) => EvictStartKeeps(s, ev, rev);
      case EvictRoom(ev, listed) => EvictWalkKeeps(s, ApplyEvictRoom(s, ev, listed), ev);
      case EvictTarget(ev) => EvictWalkKeeps(s, ApplyEvictTarget(s, ev), ev);
      case EvictRoomEnd(ev) => EvictWalkKeeps(s, ApplyEvictRoomEnd(s, ev), ev);
      case EvictClose(ev) => EvictCloseKeeps(s, ev);
      case EvictDisconnect(ev, sock) => EvictDisconnectKeeps(s, ev, sock);
      case EvictReturn(ev) => EvictReturnKeeps(s, ev);
    }
  }

  // ---- connection steps ----

  lemma ConnectionStepKeeps(s: State, step: ConnectionStep)
    requires DbOk(s.db) && SocketsOk(s) && ConnectionEnabled(s, step)
    ensures SocketsOk(ConnectionApply(s, step))
  {
    var after := ConnectionApply(s, step);
    match Resumed(s, step) {
      case None => if step.sock in s.sockets { DropKeeps(s, step.sock); }
      case Some(k) =>
        LeftSame(s, after);
        ResumedShape(s, step);
        if HeldRole(k.phase).Some? { ResumedRole(s, step); }
        forall room | room in k.rooms ensures RoomOk(after, step.sock, k, room) {
          ResumedRoom(s, step, room);
          SameExcuse(s, after, step.sock, k, room);
        }
        OneSocketKeeps(s, after, step.sock);
    }
  }

  lemma ResumedShape(s: State, step: ConnectionStep)
    requires Shapes(s) && ConnectionEnabled(s, step) && Resumed(s, step).Some?
    ensures Shape(Resumed(s, step).value, s.gen)
  {
    if step.sock in s.sockets { assert Shape(s.sockets[step.sock], s.gen); }
  }

  lemma ResumedRole(s: State, step: ConnectionStep)
    requires DbOk(s.db) && RolesStand(s) && ConnectionEnabled(s, step) && Resumed(s, step).Some?
    requires HeldRole(Resumed(s, step).value.phase).Some?
    ensures RoleOk(ConnectionApply(s, step), Resumed(s, step).value)
  {
    var k := Resumed(s, step).value;
    if step.ReadRole? {
      assert RoleStands(s, k.orgId, k.userId, HeldRole(k.phase).value);
    } else {
      assert RoleOk(s, s.sockets[step.sock]);
    }
    SameRole(s, ConnectionApply(s, step), k.orgId, k.userId, HeldRole(k.phase).value);
  }

  lemma ResumedRoom(s: State, step: ConnectionStep, room: SocketRoom)
    requires SocketsOk(s) && ConnectionEnabled(s, step) && Resumed(s, step).Some?
    requires room in Resumed(s, step).value.rooms
    ensures RoomOk(s, step.sock, Resumed(s, step).value, room)
  {
    var k := Resumed(s, step).value;
    var before := s.sockets[step.sock];
    assert Shape(before, s.gen);
    if step.RoomsJoined? {
      assert RoleOk(s, before);
      RoleGivesRooms(s, k, room);
    } else {
      assert room in before.rooms && RoomOk(s, step.sock, before, room);
      RenamedExcuse(s, step.sock, before, k, room);
    }
  }

  /** The data rooms of a role that stands, or of a stale generation, are in order. */
  lemma RoleGivesRooms(s: State, k: Socket, room: SocketRoom)
    requires k.phase.InRooms? && room in DataRooms(k.userId, k.orgId, k.phase.role) && RoleOk(s, k)
    ensures RoomOk(s, "", k, room) && (StandsNow(s, k, room) || k.phase.gen < s.gen)
  {
    if k.phase.gen >= s.gen && !ToldAllowed(s.db, k, room) {
      var r :| r in s.pending && CoversUser(s.pending[r], k.orgId, k.userId);
      assert RoomCovered(s.pending[r], k, room);
    }
  }

  /** A change of phase other than out of a stale `InRooms` keeps the excuse. */
  lemma RenamedExcuse(s: State, sock: string, before: Socket, now: Socket, room: SocketRoom)
    requires RoomOk(s, sock, before, room) && now.userId == before.userId && now.orgId == before.orgId
    requires before.phase.InRooms? && before.phase.gen < s.gen ==> now.phase == before.phase
    ensures RoomOk(s, sock, now, room)
  {
    if StandsNow(s, before, room) {
      StandsSame(s, s, before, now, room);
    } else if BeingEvicted(s, sock, before, room) {
      var e :| e in s.evictions && Evicts(s.evictions[e], sock, before, room);
      assert Evicts(s.evictions[e], sock, now, room);
    }
  }

  // ---- handler steps ----

  /** Only handlers change, and no stale `space:join` disappears before it has left. */
  lemma HandlersOnly(s: State, after: State)
    requires SocketsOk(s) && A.SameAuthority(s, after) && after.sockets == s.sockets
    requires forall a, sock, room | a in s.activations && Leaving(s.activations[a], s.gen, sock, room) ::
      a in after.activations && Leaving(after.activations[a], s.gen, sock, room)
    ensures SocketsOk(after)
  {
    forall k, room | StandsNow(s, k, room) ensures StandsNow(after, k, room) { StandsSame(s, after, k, k, room); }
    forall sock, room | BeingLeft(s, sock, room) ensures BeingLeft(after, sock, room) {
      var a :| a in s.activations && Leaving(s.activations[a], s.gen, sock, room);
      assert Leaving(after.activations[a], after.gen, sock, room);
    }
    assert forall org, user, role :: RoleStands(s, org, user, role) == RoleStands(after, org, user, role);
    assert forall sock, k, room :: BeingEvicted(s, sock, k, room) == BeingEvicted(after, sock, k, room);
    ExcusesKeep(s, after);
  }

  /** The join lands: either its access check stands, or it is stale and will leave again. */
  lemma LandsKeeps(s: State, act: nat)
    requires SocketsOk(s) && ActsOk(s) && EvictionsOk(s) && ActsJustified(s) && At(s, act, SpaceJoin, AwaitJoin)
    ensures SocketsOk(ApplySpaceJoinLands(s, act))
  {
    var after := ApplySpaceJoinLands(s, act);
    var a := s.activations[act];
    var k := s.sockets[a.sock];
    assert ActOk(s, a) && Shape(k, s.gen);
    LandsLeft(s, after, act);
    if k.phase.Gone? {
      HandlersOnly(s, after);
    } else {
      var now := after.sockets[a.sock];
      forall room | room in now.rooms ensures RoomOk(after, a.sock, now, room) {
        if room == SpaceRoom(a.spaceId) {
          if a.gen < s.gen {
            assert Leaving(after.activations[act], after.gen, a.sock, room);
          } else {
            JustifiedRoom(s, k, a.spaceId);
            StandsSame(s, after, k, now, room);
          }
        } else {
          assert RoomOk(s, a.sock, k, room);
          RenamedExcuse(s, a.sock, k, now, room);
          SameExcuse(s, after, a.sock, now, room);
        }
      }
      OneSocketKeeps(s, after, a.sock);
    }
  }

  lemma LandsLeft(s: State, after: State, act: nat)
    requires At(s, act, SpaceJoin, AwaitJoin) && after == ApplySpaceJoinLands(s, act)
    ensures forall a, sock, room | a in s.activations && Leaving(s.activations[a], s.gen, sock, room) ::
      a in after.activations && Leaving(after.activations[a], s.gen, sock, room)
    ensures forall sock, room | BeingLeft(s, sock, room) :: BeingLeft(after, sock, room)
  {
    forall sock, room | BeingLeft(s, sock, room) ensures BeingLeft(after, sock, room) {
      var a :| a in s.activations && Leaving(s.activations[a], s.gen, sock, room);
      assert Leaving(after.activations[a], after.gen, sock, room);
    }
  }

  lemma JustifiedRoom(s: State, k: Socket, spaceId: string)
    requires EvictionsOk(s) && Justified(s, k.orgId, spaceId, k.userId)
    ensures StandsNow(s, k, SpaceRoom(spaceId))
  {
    if !Told(s.db, spaceId, k.userId, k.orgId) {
      var r :| r in s.pending && s.pending[r].Covers(k.orgId, spaceId, k.userId);
      assert RoomCovered(s.pending[r], k, SpaceRoom(spaceId));
    }
  }

  /** Leaving a space room on this socket: every other room keeps its excuse. */
  lemma LeaveSpaceKeeps(s: State, after: State, sock: string, spaceId: string)
    requires SocketsOk(s) && A.SameAuthority(s, after) && sock in s.sockets
    requires after.sockets == LeaveSpaceRoom(s, sock, spaceId).sockets
    requires forall k, room | !(k == sock && room == SpaceRoom(spaceId)) && BeingLeft(s, k, room) ::
      BeingLeft(after, k, room)
    ensures SocketsOk(after)
  {
    var before, now := s.sockets[sock], after.sockets[sock];
    assert Shape(before, s.gen);
    if HeldRole(now.phase).Some? {
      assert RoleOk(s, before);
      SameRole(s, after, now.orgId, now.userId, HeldRole(now.phase).value);
    }
    assert Shape(now, s.gen) by {
      assert now.phase.InRooms? ==> now.rooms == before.rooms;
    }
    forall room | room in now.rooms ensures RoomOk(after, sock, now, room) {
      assert RoomOk(s, sock, before, room);
      RenamedExcuse(s, sock, before, now, room);
      SameExcuse(s, after, sock, now, room);
    }
    OneSocketKeeps(s, after, sock);
  }

  lemma LeftKeeps(s: State, act: nat)
    requires SocketsOk(s) && At(s, act, SpaceJoin, AwaitLeave)
    ensures SocketsOk(ApplySpaceJoinLeft(s, act))
  {
    var after := ApplySpaceJoinLeft(s, act);
    var a := s.activations[act];
    forall k, room | !(k == a.sock && room == SpaceRoom(a.spaceId)) && BeingLeft(s, k, room)
      ensures BeingLeft(after, k, room)
    {
      var x :| x in s.activations && Leaving(s.activations[x], s.gen, k, room);
      assert x != act && Leaving(after.activations[x], after.gen, k, room);
    }
    LeaveSpaceKeeps(s, after, a.sock, a.spaceId);
  }

  lemma SpaceJoinStepKeeps(s: State, step: SpaceJoinStep)
    requires SocketsOk(s) && ActsOk(s) && EvictionsOk(s) && ActsJustified(s) && SpaceJoinEnabled(s, step)
    ensures SocketsOk(SpaceJoinApply(s, step))
  {
    if step.SpaceJoinLands? { LandsKeeps(s, step.act); }
    else if step.SpaceJoinLeft? { LeftKeeps(s, step.act); }
    else {
      SpaceJoinQuietStep(s, step);
      HandlersOnly(s, SpaceJoinApply(s, step));
    }
  }

  lemma SpaceJoinQuietStep(s: State, step: SpaceJoinStep)
    requires SpaceJoinEnabled(s, step) && !step.SpaceJoinLands? && !step.SpaceJoinLeft?
    ensures var after := SpaceJoinApply(s, step);
      && A.SameAuthority(s, after) && after.sockets == s.sockets
      && (forall a, sock, room | a in s.activations && Leaving(s.activations[a], s.gen, sock, room) ::
            a in after.activations && Leaving(after.activations[a], s.gen, sock, room))
  {
  }

  /** A huddle handler concerns no socket room, whatever it does to the huddle rooms. */
  lemma HuddleStepKeeps(s: State, step: HuddleStep)
    requires SocketsOk(s) && HuddleEnabled(s, step)
    ensures SocketsOk(HuddleApply(s, step))
  {
    var after := HuddleApply(s, step);
    HuddleStepFrame(s, step);
    HuddleStepLeaves(s, step);
    var mid := after.(authGen := s.authGen, usedIds := s.usedIds);
    HandlersOnly(s, mid);
    SameView(mid, after);
  }

  lemma HuddleStepLeaves(s: State, step: HuddleStep)
    requires HuddleEnabled(s, step)
    ensures forall a | a in s.activations && a != step.act ::
      a in HuddleApply(s, step).activations && HuddleApply(s, step).activations[a] == s.activations[a]
    ensures step.act in s.activations ==> !s.activations[step.act].pc.InRoom? && !s.activations[step.act].pc.AwaitLeave?
  {
    HuddleStepFrame(s, step);
    hide HuddleApply;
  }

  /** The socket invariants read neither the huddle rooms, nor presence, nor the bookkeeping about them. */
  lemma SameView(s: State, after: State)
    requires SocketsOk(s) && after.gen == s.gen && after.db == s.db && after.pending == s.pending
    requires after.evictions == s.evictions && after.sockets == s.sockets && after.activations == s.activations
    ensures SocketsOk(after)
  {
    LeftSame(s, after);
    forall k | k in after.sockets && HeldRole(after.sockets[k].phase).Some? ensures RoleOk(after, after.sockets[k]) {
      assert RoleOk(s, s.sockets[k]);
      SameRole(s, after, s.sockets[k].orgId, s.sockets[k].userId, HeldRole(s.sockets[k].phase).value);
    }
    forall k, room | k in after.sockets && room in after.sockets[k].rooms
      ensures RoomOk(after, k, after.sockets[k], room)
    {
      assert RoomOk(s, k, s.sockets[k], room);
      SameExcuse(s, after, k, s.sockets[k], room);
    }
  }

  lemma SyncStepKeeps(s: State, step: SyncStep)
    requires SocketsOk(s) && SyncEnabled(s, step)
    ensures SocketsOk(SyncApply(s, step))
  {
    var after := SyncApply(s, step);
    SyncStepFrame(s, step);
    hide H.FireTimer, H.SetMuted, LeaveOne, P.GoIdle, P.GoActive;
    LeftSame(s, after);
    if step.SpaceLeave? {
      LeaveSpaceKeeps(s, after, step.sock, step.spaceId);
    } else {
      SameView(s, after);
    }
  }

  /** Every step keeps the socket invariants. */
  lemma StepKeepsSockets(s: State, step: Step)
    requires Basics(s) && Auth(s) && DbOk(s.db) && SocketsOk(s) && Enabled(s, step)
    ensures SocketsOk(Apply(s, step))
  {
    match step {
      case Database(d) => DbStepKeeps(s, d);
      case Evicting(e) => EvictStepKeeps(s, e);
      case Connecting(c) => ConnectionStepKeeps(s, c);
      case SpaceJoining(j) => SpaceJoinStepKeeps(s, j);
      case Huddling(h) => HuddleStepKeeps(s, h);
      case Sync(y) => SyncStepKeeps(s, y);
    }
  }
}
