/**
 * The concurrent half of apps/api/src/socket.ts as a transition system.  Node
 * runs one piece of JavaScript at a time, so everything between two `await`s is
 * one step; between steps any other handler, eviction, timer, socket event or
 * database change may run.  A join or leave of a socket room takes effect in a
 * step of its own, somewhere before the `await` on it resumes.
 */
module Realtime {
  import opened Common
  import H = HuddleModel
  import P = Presence

  // ---- the database, as far as access checks read it ----

  datatype Role = Owner | Admin | Member | Guest

  /**
   * `roles` holds the active organization memberships only.  `toldArchived` and
   * `toldRoles` are bookkeeping: the archived spaces and the roles as they would
   * be if only changes that are followed by an eviction had taken anything away.
   */
  datatype Db = Db(
    spaceOrg: map<string, string>, archived: set<string>,
    members: set<(string, string)>, roles: map<(string, string), Role>,
    toldArchived: set<string>, toldRoles: map<(string, string), set<Role>>)
  {
    function RolesTold(orgId: string, userId: string): set<Role> {
      if (orgId, userId) in toldRoles then toldRoles[(orgId, userId)] else {}
    }
  }

  /** `getSpaceAccess` returns a row. */
  predicate Access(db: Db, spaceId: string, userId: string, orgId: string) {
    && spaceId in db.spaceOrg && db.spaceOrg[spaceId] == orgId && spaceId !in db.archived
    && (spaceId, userId) in db.members && (orgId, userId) in db.roles
  }

  /** Access but for changes that nobody was told of. */
  predicate Told(db: Db, spaceId: string, userId: string, orgId: string) {
    && spaceId in db.spaceOrg && db.spaceOrg[spaceId] == orgId && spaceId !in db.toldArchived
    && (spaceId, userId) in db.members && (orgId, userId) in db.toldRoles
  }

  /** Archived, last by a change without an eviction. */
  predicate SilentlyArchived(db: Db, spaceId: string) {
    spaceId in db.archived && spaceId !in db.toldArchived
  }

  /** Out of the organization by a change without an eviction. */
  predicate SilentlyRemoved(db: Db, orgId: string, userId: string) {
    (orgId, userId) in db.toldRoles && (orgId, userId) !in db.roles
  }

  /** A guest now, and something else as far as anybody was told. */
  predicate SilentlyDemoted(db: Db, orgId: string, userId: string) {
    && (orgId, userId) in db.roles && db.roles[(orgId, userId)] == Guest
    && exists role :: role in db.RolesTold(orgId, userId) && role != Guest
  }

  /** At first everything has been told. */
  ghost predicate AllTold(db: Db) {
    && db.toldArchived == db.archived
    && db.toldRoles.Keys == db.roles.Keys && forall k | k in db.roles :: db.toldRoles[k] == {db.roles[k]}
  }

  // ---- evictions ----

  datatype Scope =
    | SpaceMembership(orgId: string, spaceId: string, userId: string)
    | SpaceArchived(orgId: string, spaceId: string)
    | OrgMembership(orgId: string, userId: string)
    | OrgRole(orgId: string, userId: string)
  {
    /** The space and user of the scope, or "" (which the source treats as "any"). */
    function Space(): string { if SpaceMembership? || SpaceArchived? then spaceId else "" }
    function User(): string { if SpaceArchived? then "" else userId }

    predicate Covers(org: string, space: string, user: string) {
      orgId == org && (Space() == "" || Space() == space) && (User() == "" || User() == user)
    }

    predicate WellFormed() {
      (SpaceArchived? || userId != "") && (SpaceMembership? || SpaceArchived? ==> spaceId != "")
    }
  }

  /**
   * A running `evictActiveHuddleParticipants`: the room ids still to visit, the
   * room being visited with its remaining targets, and, once `closing`, the
   * sockets `disconnectSockets` has yet to close.
   */
  datatype Eviction = Eviction(
    scope: Scope, gen: nat, todo: seq<string>, current: Option<string>, targets: seq<string>,
    closing: bool, toDisconnect: set<string>)

  // ---- sockets ----

  datatype SocketRoom =
    | OrgRoom(orgId: string)
    | OrgMembersRoom(orgId: string)
    | OrgUserRoom(orgId: string, userId: string)
    | UserRoom(userId: string)
    | SpaceRoom(spaceId: string)

  /** How far the handshake and connection handler have come; every pause carries the captured generation. */
  datatype Phase =
    | ReadingRole(gen: nat)
    | RoleRead(gen: nat, found: Option<Role>)
    | Admitted(gen: nat, role: Role)
    | Verifying(gen: nat, role: Role)
    | JoiningRooms(gen: nat, role: Role)
    | InRooms(gen: nat, role: Role)
    | Ready
    | Gone

  datatype Socket = Socket(userId: string, orgId: string, phase: Phase, rooms: set<SocketRoom>)

  function DataRooms(userId: string, orgId: string, role: Role): set<SocketRoom> {
    {OrgRoom(orgId), UserRoom(userId), OrgUserRoom(orgId, userId)}
    + if role == Guest then {} else {OrgMembersRoom(orgId)}
  }

  // ---- suspended event handlers ----

  datatype Kind = SpaceJoin | Create | Join

  datatype Pc = AwaitAccess | GotAccess(granted: bool) | AwaitJoin | InRoom | AwaitLeave

  /** A suspended `space:join`, `huddle:create` or `huddle:join`; `roomId` is "" where there is none yet. */
  datatype Activation = Activation(kind: Kind, sock: string, spaceId: string, roomId: string, gen: nat, pc: Pc)

  // ---- the whole state ----

  /**
   * `pending` are committed revocations whose eviction has not been called yet.
   * `authGen`, `roomGen`, `finished` and `usedIds` are bookkeeping the program
   * does not keep: the generation under which each participant, and each socket
   * in a room, was authorized, the evictions that have returned, and the UUIDs
   * handed out.
   */
  datatype State = State(
    gen: nat, db: Db, rooms: H.Rooms, sockets: map<string, Socket>, activations: map<nat, Activation>,
    pending: map<nat, Scope>, evictions: map<nat, Eviction>, presence: P.State,
    authGen: map<(string, string), nat>, roomGen: map<(string, SocketRoom), nat>,
    finished: set<(Scope, nat)>, usedIds: set<string>)

  ghost predicate Initial(s: State) {
    && AllTold(s.db) && s.gen == 0 && s.rooms == H.NoRooms && s.sockets == map[] && s.activations == map[]
    && s.pending == map[] && s.evictions == map[] && s.presence == P.Start
    && s.authGen == map[] && s.roomGen == map[] && s.finished == {} && s.usedIds == {}
  }

  // ---- steps ----

  /**
   * Grants, revocations that will be followed by an eviction (`rev` names them),
   * and, last, revocations that no eviction follows.
   */
  datatype DbStep =
    | CreateSpace(spaceId: string, orgId: string)
    | GrantMember(spaceId: string, userId: string)
    | GrantRole(orgId: string, userId: string, role: Role)
    | RemoveMember(rev: nat, spaceId: string, userId: string)
    | ArchiveSpace(rev: nat, spaceId: string)
    | RevokeOrg(rev: nat, orgId: string, userId: string)
    | PurgeMemberships(rev: nat)
    | ChangeRole(rev: nat, orgId: string, userId: string, role: Role)
    | Unarchive(spaceId: string)
    | ArchiveSilently(spaceId: string)
    | DeactivateSilently(orgId: string, userId: string)
    | ChangeRoleSilently(orgId: string, userId: string, role: Role)

  predicate IsSilent(step: DbStep) {
    step.ArchiveSilently? || step.DeactivateSilently? || step.ChangeRoleSilently?
  }

  datatype EvictStep =
    | EvictStart(ev: nat, rev: nat)
    | EvictRoom(ev: nat, listed: seq<string>)
    | EvictTarget(ev: nat)
    | EvictRoomEnd(ev: nat)
    | EvictClose(ev: nat)
    | EvictDisconnect(ev: nat, sock: string)
    | EvictReturn(ev: nat)

  datatype ConnectionStep =
    | Handshake(sock: string, orgId: string, userId: string)
    | ReadRole(sock: string)
    | HandshakeResume(sock: string)
    | Connected(sock: string)
    | Reverified(sock: string, ok: bool)
    | RoomsJoined(sock: string)
    | ConnectionResume(sock: string)
    | Disconnect(sock: string)

  datatype SpaceJoinStep =
    | StartSpaceJoin(act: nat, sock: string, spaceId: string)
    | SpaceJoinResume(act: nat)
    | SpaceJoinLands(act: nat)
    | SpaceJoinThrows(act: nat)
    | SpaceJoinRecheck(act: nat)
    | SpaceJoinLeft(act: nat)

  datatype HuddleStep =
    | StartCreate(act: nat, sock: string, spaceId: string)
    | StartJoin(act: nat, sock: string, roomId: string)
    | ReadAccess(act: nat)
    | AccessThrows(act: nat)
    | CreateResume(act: nat, newId: string)
    | CreateFinish(act: nat, joined: bool)
    | JoinResume(act: nat)
    | JoinFinish(act: nat, joined: bool)

  /** Handlers without an `await`, and timers. */
  datatype SyncStep =
    | GoIdle(sock: string)
    | GoActive(sock: string)
    | SpaceLeave(sock: string, spaceId: string)
    | Leave(sock: string, roomId: string)
    | Mute(sock: string, roomId: string, muted: bool)
    | TimerFires(timer: nat)

  datatype Step =
    | Database(d: DbStep)
    | Evicting(e: EvictStep)
    | Connecting(c: ConnectionStep)
    | SpaceJoining(j: SpaceJoinStep)
    | Huddling(h: HuddleStep)
    | Sync(y: SyncStep)

  // ---- helpers shared by several steps ----

  predicate Live(s: State, sock: string) {
    sock in s.sockets && !s.sockets[sock].phase.Gone?
  }

  predicate IsReady(s: State, sock: string) {
    sock in s.sockets && s.sockets[sock].phase.Ready?
  }

  /** What `disconnect` does to the huddle rooms: leave each, arming the grace timer of one left empty. */
  function LeaveAll(rs: H.Rooms, ids: seq<string>, userId: string, sock: string): H.Rooms
    decreases ids
  {
    if ids == [] then rs else LeaveAll(LeaveOne(rs, ids[0], userId, sock), ids[1..], userId, sock)
  }

  function LeaveOne(rs: H.Rooms, roomId: string, userId: string, sock: string): H.Rooms {
    var (left, removal) := H.RemoveParticipant(rs, roomId, userId, sock);
    if removal.removed && removal.empty then H.SetGraceTimer(left, roomId) else left
  }

  function DropRooms(rs: H.Rooms, k: Socket, sock: string): H.Rooms {
    if k.phase.Ready? then LeaveAll(rs, H.RoomIdsForSocket(rs, sock), k.userId, sock) else rs
  }

  function DropPresence(p: P.State, k: Socket, sock: string): P.State {
    if k.phase.Ready? then P.Untrack(p, k.userId, k.orgId, sock) else p
  }

  /** The socket is gone; only a ready one has the `disconnect` handler registered. */
  function Drop(s: State, sock: string): State
    requires sock in s.sockets
  {
    var k := s.sockets[sock];
    s.(sockets := s.sockets[sock := k.(phase := Gone, rooms := {})],
       rooms := DropRooms(s.rooms, k, sock),
       presence := DropPresence(s.presence, k, sock))
  }

  function End(s: State, act: nat): State {
    s.(activations := s.activations - {act})
  }

  function Go(s: State, act: nat, pc: Pc): State
    requires act in s.activations
  {
    s.(activations := s.activations[act := s.activations[act].(pc := pc)])
  }

  predicate At(s: State, act: nat, kind: Kind, pc: Pc) {
    && act in s.activations && s.activations[act].kind == kind && s.activations[act].pc == pc
    && s.activations[act].sock in s.sockets
  }

  predicate AtAccess(s: State, act: nat, kind: Kind) {
    && act in s.activations && s.activations[act].kind == kind && s.activations[act].pc.GotAccess?
    && s.activations[act].sock in s.sockets
  }

  function LeaveSpaceRoom(s: State, sock: string, spaceId: string): State
    requires sock in s.sockets
  {
    var k := s.sockets[sock];
    s.(sockets := s.sockets[sock := k.(rooms := k.rooms - {SpaceRoom(spaceId)})])
  }

  /** `server.in(selector).socketsLeave("space:<spaceId>")` for the sockets in room `selector`. */
  function SocketsLeave(sockets: map<string, Socket>, selector: SocketRoom, spaceId: string): map<string, Socket> {
    map k | k in sockets ::
      if selector in sockets[k].rooms then sockets[k].(rooms := sockets[k].rooms - {SpaceRoom(spaceId)}) else sockets[k]
  }

  function ParticipantIds(rs: H.Rooms, roomId: string): set<string> {
    if roomId in rs.byId then rs.byId[roomId].participants.Keys else {}
  }

  // ---- database changes ----

  function WithRole(db: Db, orgId: string, userId: string, role: Role, told: set<Role>): Db {
    db.(roles := db.roles[(orgId, userId) := role], toldRoles := db.toldRoles[(orgId, userId) := told])
  }

  /** A revocation commits; its eviction will be called later. */
  function Committed(s: State, db: Db, rev: nat, scope: Scope): State {
    s.(db := db, pending := s.pending[rev := scope])
  }

  /** Offboarding deletes the user's space memberships after deactivating the organization membership. */
  function ApplyPurge(s: State, orgId: string, userId: string): State {
    s.(db := s.db.(members := set m | m in s.db.members
         && !(m.1 == userId && m.0 in s.db.spaceOrg && s.db.spaceOrg[m.0] == orgId)))
  }

  function ApplyStartJoin(s: State, act: nat, sock: string, roomId: string): State
    requires sock in s.sockets
  {
    if roomId !in s.rooms.byId || s.rooms.byId[roomId].orgId != s.sockets[sock].orgId then s
    else s.(activations := s.activations[act :=
      Activation(Join, sock, s.rooms.byId[roomId].spaceId, roomId, s.gen, AwaitAccess)])
  }

  function ApplyReadAccess(s: State, act: nat): State
    requires act in s.activations && s.activations[act].sock in s.sockets
  {
    var a := s.activations[act];
    Go(s, act, GotAccess(Access(s.db, a.spaceId, s.sockets[a.sock].userId, s.sockets[a.sock].orgId)))
  }

  function ApplyMute(s: State, sock: string, roomId: string, muted: bool): State
    requires sock in s.sockets
  {
    if roomId !in s.rooms.byId || s.rooms.byId[roomId].orgId != s.sockets[sock].orgId then s
    else s.(rooms := H.SetMuted(s.rooms, roomId, s.sockets[sock].userId, sock, muted).0)
  }

  // ---- evictActiveHuddleParticipants, one section per await ----

  /** Everything before the loop: bump the generation, then scan the rooms. */
  function ApplyEvictStart(s: State, rev: nat, ev: nat): State
    requires rev in s.pending
  {
    var scope := s.pending[rev];
    var todo := H.RoomIdsForScope(s.rooms, scope.orgId, scope.Space(), scope.User());
    s.(gen := s.gen + 1, pending := s.pending - {rev},
       evictions := s.evictions[ev := Eviction(scope, s.gen + 1, todo, None, [], false, {})])
  }

  /** The next room; `listed` is its participant list, in whatever order the list is sorted. */
  function ApplyEvictRoom(s: State, ev: nat, listed: seq<string>): State
    requires ev in s.evictions && s.evictions[ev].todo != []
  {
    var e := s.evictions[ev];
    var roomId := e.todo[0];
    var next := e.(todo := e.todo[1..]);
    s.(evictions := s.evictions[ev :=
      if roomId !in s.rooms.byId then next
      else next.(current := Some(roomId), targets := if e.scope.User() != "" then [e.scope.User()] else listed)])
  }

  /** The next target of the current room: removed if still there, under whatever socket it now has. */
  function ApplyEvictTarget(s: State, ev: nat): State
    requires ev in s.evictions && s.evictions[ev].current.Some? && s.evictions[ev].targets != []
  {
    var e := s.evictions[ev];
    var next := s.(evictions := s.evictions[ev := e.(targets := e.targets[1..])]);
    match H.ParticipantSocketId(s.rooms, e.current.value, e.targets[0])
    case None => next
    case Some(sock) =>
      if sock == "" then next
      else next.(rooms := H.RemoveParticipant(s.rooms, e.current.value, e.targets[0], sock).0)
  }

  /** All targets done: a room left empty is destroyed. */
  function ApplyEvictRoomEnd(s: State, ev: nat): State
    requires ev in s.evictions && s.evictions[ev].current.Some?
  {
    var e := s.evictions[ev];
    var roomId := e.current.value;
    s.(evictions := s.evictions[ev := e.(current := None)],
       rooms := if ParticipantIds(s.rooms, roomId) == {} then H.DestroyRoom(s.rooms, roomId) else s.rooms)
  }

  /** `revokeRealtimeAccess`, first kind: the covered sockets leave the space room. */
  function SocketsAfterClose(sockets: map<string, Socket>, scope: Scope): map<string, Socket> {
    match scope
    case SpaceMembership(org, space, user) => SocketsLeave(sockets, OrgUserRoom(org, user), space)
    case SpaceArchived(_, space) => SocketsLeave(sockets, SpaceRoom(space), space)
    case _ => sockets
  }

  /** `revokeRealtimeAccess`, second kind: the covered sockets are to be disconnected. */
  function SocketsToDisconnect(sockets: map<string, Socket>, scope: Scope): set<string> {
    if scope.OrgMembership? || scope.OrgRole?
    then set k | k in sockets && OrgUserRoom(scope.orgId, scope.userId) in sockets[k].rooms
    else {}
  }

  function ApplyEvictClose(s: State, ev: nat): State
    requires ev in s.evictions
  {
    var e := s.evictions[ev];
    s.(sockets := SocketsAfterClose(s.sockets, e.scope),
       evictions := s.evictions[ev := e.(closing := true, toDisconnect := SocketsToDisconnect(s.sockets, e.scope))])
  }

  function ApplyEvictDisconnect(s: State, ev: nat, sock: string): State
    requires ev in s.evictions
  {
    var e := s.evictions[ev];
    var next := s.(evictions := s.evictions[ev := e.(toDisconnect := e.toDisconnect - {sock})]);
    if Live(s, sock) then Drop(next, sock) else next
  }

  function ApplyEvictReturn(s: State, ev: nat): State
    requires ev in s.evictions
  {
    s.(evictions := s.evictions - {ev}, finished := s.finished + {(s.evictions[ev].scope, s.evictions[ev].gen)})
  }

  // ---- space:join, huddle:create, huddle:join ----

  function ApplySpaceJoinResume(s: State, act: nat): State
    requires act in s.activations
  {
    var a := s.activations[act];
    if a.pc != GotAccess(true) || a.gen != s.gen then End(s, act) else Go(s, act, AwaitJoin)
  }

  function ApplySpaceJoinLands(s: State, act: nat): State
    requires act in s.activations && s.activations[act].sock in s.sockets
  {
    var a := s.activations[act];
    var k := s.sockets[a.sock];
    var landed := if k.phase.Gone? then s
                  else s.(sockets := s.sockets[a.sock := k.(rooms := k.rooms + {SpaceRoom(a.spaceId)})],
                          roomGen := s.roomGen[(a.sock, SpaceRoom(a.spaceId)) := a.gen]);
    Go(landed, act, InRoom)
  }

  function ApplySpaceJoinRecheck(s: State, act: nat): State
    requires act in s.activations
  {
    if s.activations[act].gen != s.gen then Go(s, act, AwaitLeave) else End(s, act)
  }

  function ApplySpaceJoinLeft(s: State, act: nat): State
    requires act in s.activations && s.activations[act].sock in s.sockets
  {
    var a := s.activations[act];
    End(LeaveSpaceRoom(s, a.sock, a.spaceId), act)
  }

  /** How `huddle:create` fares between its access check and `await socket.join`. */
  datatype CreateOutcome =
    | Refused
    | LostReservation(rooms: H.Rooms)
    | NotAdded(rooms: H.Rooms)
    | Entered(rooms: H.Rooms)

  /** Replace an empty room of the space, reserve a room under the new UUID, and enter it. */
  function TryCreate(rs: H.Rooms, newId: string, spaceId: string, orgId: string, p: H.Participant): CreateOutcome {
    var found := H.GetRoomBySpace(rs, spaceId, orgId);
    if H.ConflictingRoomId(rs, p.userId, orgId, found).Some? then Refused
    else if found.Some? && ParticipantIds(rs, found.value) != {} then Refused
    else
      var cleared := if found.Some? then H.DestroyRoom(rs, found.value) else rs;
      var (reserved, id, created) := H.ReserveRoom(cleared, newId, spaceId, orgId, p.userId);
      if !created then LostReservation(reserved)
      else
        var (entered, added) := H.AddParticipant(reserved, newId, p);
        if added then Entered(entered) else NotAdded(H.DestroyRoom(reserved, newId))
  }

  function AfterTry(s: State, act: nat, newId: string, outcome: CreateOutcome): State
    requires act in s.activations && s.activations[act].sock in s.sockets
  {
    var a := s.activations[act];
    match outcome
    case Refused => End(s, act)
    case LostReservation(rooms) => End(s, act).(rooms := rooms, usedIds := s.usedIds + {newId})
    case NotAdded(rooms) => End(s, act).(rooms := rooms, usedIds := s.usedIds + {newId})
    case Entered(rooms) =>
      s.(rooms := rooms, usedIds := s.usedIds + {newId},
         authGen := s.authGen[(newId, s.sockets[a.sock].userId) := a.gen],
         activations := s.activations[act := a.(roomId := newId, pc := AwaitJoin)])
  }

  function ApplyCreateResume(s: State, act: nat, newId: string): State
    requires act in s.activations && s.activations[act].sock in s.sockets
  {
    var a := s.activations[act];
    var k := s.sockets[a.sock];
    if a.gen != s.gen || a.pc != GotAccess(true) then End(s, act)
    else AfterTry(s, act, newId,
                  TryCreate(s.rooms, newId, a.spaceId, k.orgId, H.Participant(k.userId, "", false, a.sock)))
  }

  function Rollback(rs: H.Rooms, roomId: string, userId: string, sock: string): H.Rooms {
    var (left, removal) := H.RemoveParticipant(rs, roomId, userId, sock);
    if removal.empty then H.DestroyRoom(left, roomId) else left
  }

  function ApplyCreateFinish(s: State, act: nat, joined: bool): State
    requires act in s.activations && s.activations[act].sock in s.sockets
  {
    var a := s.activations[act];
    if joined && a.gen == s.gen then End(s, act)
    else End(s.(rooms := Rollback(s.rooms, a.roomId, s.sockets[a.sock].userId, a.sock)), act)
  }

  /** The room may not be re-entered: gone, or the user is busy elsewhere. */
  predicate MayEnter(s: State, a: Activation, k: Socket) {
    && a.roomId in s.rooms.byId && s.rooms.byId[a.roomId].orgId == k.orgId
    && H.ConflictingRoomId(s.rooms, k.userId, k.orgId, Some(a.roomId)).None?
    && !H.OnDifferentSocket(s.rooms, a.roomId, k.userId, a.sock)
  }

  function ApplyJoinResume(s: State, act: nat): State
    requires act in s.activations && s.activations[act].sock in s.sockets
  {
    var a := s.activations[act];
    if a.gen != s.gen || a.pc != GotAccess(true) || !MayEnter(s, a, s.sockets[a.sock]) then End(s, act)
    else Go(s, act, AwaitJoin)
  }

  function ApplyJoinFinish(s: State, act: nat, joined: bool): State
    requires act in s.activations && s.activations[act].sock in s.sockets
  {
    var a := s.activations[act];
    var k := s.sockets[a.sock];
    if !joined || a.gen != s.gen || !MayEnter(s, a, k) then End(s, act)
    else if H.IsParticipant(s.rooms, a.roomId, k.userId, a.sock) then End(s, act)
    else
      var (entered, added) := H.AddParticipant(s.rooms, a.roomId, H.Participant(k.userId, "", false, a.sock));
      if !added then End(s, act)
      else End(s, act).(rooms := entered, authGen := s.authGen[(a.roomId, k.userId) := a.gen])
  }

  function ApplyLeave(s: State, sock: string, roomId: string): State
    requires sock in s.sockets
  {
    var k := s.sockets[sock];
    if roomId !in s.rooms.byId || s.rooms.byId[roomId].orgId != k.orgId
       || !H.IsParticipant(s.rooms, roomId, k.userId, sock) then s
    else s.(rooms := LeaveOne(s.rooms, roomId, k.userId, sock))
  }

  // ---- which steps can be taken, and what they do ----

  predicate DbEnabled(s: State, step: DbStep) {
    match step
    case CreateSpace(space, org) => space != "" && space !in s.db.spaceOrg
    case GrantMember(space, user) => true
    case GrantRole(org, user, role) => (org, user) !in s.db.roles
    case RemoveMember(rev, space, user) =>
      rev !in s.pending && space != "" && user != "" && space in s.db.spaceOrg && (space, user) in s.db.members
    case ArchiveSpace(rev, space) => rev !in s.pending && space != "" && space in s.db.spaceOrg
    case RevokeOrg(rev, org, user) => rev !in s.pending && user != ""
    case PurgeMemberships(rev) => rev in s.pending && s.pending[rev].OrgMembership?
    case ChangeRole(rev, org, user, role) => rev !in s.pending && user != "" && (org, user) in s.db.roles
    case Unarchive(space) => space in s.db.spaceOrg
    case ArchiveSilently(space) => space in s.db.spaceOrg
    case DeactivateSilently(org, user) => (org, user) in s.db.roles
    case ChangeRoleSilently(org, user, role) => (org, user) in s.db.roles
  }

  function DbApply(s: State, step: DbStep): State
    requires DbEnabled(s, step)
  {
    match step
    case CreateSpace(space, org) => s.(db := s.db.(spaceOrg := s.db.spaceOrg[space := org]))
    case GrantMember(space, user) => s.(db := s.db.(members := s.db.members + {(space, user)}))
    case GrantRole(org, user, role) => s.(db := WithRole(s.db, org, user, role, s.db.RolesTold(org, user) + {role}))
    case RemoveMember(rev, space, user) =>
      Committed(s, s.db.(members := s.db.members - {(space, user)}), rev,
                SpaceMembership(s.db.spaceOrg[space], space, user))
    case ArchiveSpace(rev, space) =>
      Committed(s, s.db.(archived := s.db.archived + {space}, toldArchived := s.db.toldArchived + {space}), rev,
                SpaceArchived(s.db.spaceOrg[space], space))
    case RevokeOrg(rev, org, user) =>
      Committed(s, s.db.(roles := s.db.roles - {(org, user)}, toldRoles := s.db.toldRoles - {(org, user)}), rev,
                OrgMembership(org, user))
    case PurgeMemberships(rev) => ApplyPurge(s, s.pending[rev].orgId, s.pending[rev].userId)
    case ChangeRole(rev, org, user, role) =>
      Committed(s, WithRole(s.db, org, user, role, {role}), rev, OrgRole(org, user))
    case Unarchive(space) =>
      s.(db := s.db.(archived := s.db.archived - {space}, toldArchived := s.db.toldArchived - {space}))
    case ArchiveSilently(space) => s.(db := s.db.(archived := s.db.archived + {space}))
    case DeactivateSilently(org, user) => s.(db := s.db.(roles := s.db.roles - {(org, user)}))
    case ChangeRoleSilently(org, user, role) =>
      s.(db := WithRole(s.db, org, user, role, s.db.RolesTold(org, user) + {role}))
  }

  /** The next thing eviction `ev` will do is `step`; nothing anybody else does can change that. */
  predicate EvictEnabled(s: State, step: EvictStep) {
    match step
    case EvictStart(ev, rev) => rev in s.pending && ev !in s.evictions
    case EvictRoom(ev, listed) =>
      && ev in s.evictions && s.evictions[ev].current.None? && s.evictions[ev].todo != []
      && (set u | u in listed) == ParticipantIds(s.rooms, s.evictions[ev].todo[0])
    case EvictTarget(ev) => ev in s.evictions && s.evictions[ev].current.Some? && s.evictions[ev].targets != []
    case EvictRoomEnd(ev) => ev in s.evictions && s.evictions[ev].current.Some? && s.evictions[ev].targets == []
    case EvictClose(ev) =>
      ev in s.evictions && s.evictions[ev].current.None? && s.evictions[ev].todo == [] && !s.evictions[ev].closing
    case EvictDisconnect(ev, sock) =>
      ev in s.evictions && s.evictions[ev].closing && sock in s.evictions[ev].toDisconnect
    case EvictReturn(ev) => ev in s.evictions && s.evictions[ev].closing && s.evictions[ev].toDisconnect == {}
  }

  function EvictApply(s: State, step: EvictStep): State
    requires EvictEnabled(s, step)
  {
    match step
    case EvictStart(ev, rev) => ApplyEvictStart(s, rev, ev)
    case EvictRoom(ev, listed) => ApplyEvictRoom(s, ev, listed)
    case EvictTarget(ev) => ApplyEvictTarget(s, ev)
    case EvictRoomEnd(ev) => ApplyEvictRoomEnd(s, ev)
    case EvictClose(ev) => ApplyEvictClose(s, ev)
    case EvictDisconnect(ev, sock) => ApplyEvictDisconnect(s, ev, sock)
    case EvictReturn(ev) => ApplyEvictReturn(s, ev)
  }

  predicate ConnectionEnabled(s: State, step: ConnectionStep) {
    match step
    case Handshake(sock, org, user) => sock != "" && sock !in s.sockets
    case ReadRole(sock) => sock in s.sockets && s.sockets[sock].phase.ReadingRole?
    case HandshakeResume(sock) => sock in s.sockets && s.sockets[sock].phase.RoleRead?
    case Connected(sock) => sock in s.sockets && s.sockets[sock].phase.Admitted?
    case Reverified(sock, ok) => sock in s.sockets && s.sockets[sock].phase.Verifying?
    case RoomsJoined(sock) => sock in s.sockets && s.sockets[sock].phase.JoiningRooms?
    case ConnectionResume(sock) => sock in s.sockets && s.sockets[sock].phase.InRooms?
    case Disconnect(sock) => Live(s, sock)
  }

  /** The socket as the connection code leaves it, or None where that code turns it away. */
  function Resumed(s: State, step: ConnectionStep): Option<Socket>
    requires ConnectionEnabled(s, step)
  {
    if step.Handshake? then Some(Socket(step.userId, step.orgId, ReadingRole(s.gen), {}))
    else
      var k := s.sockets[step.sock];
      var p := k.phase;
      match step
      case Handshake(_, _, _) => None
      case ReadRole(_) =>
        var member := (k.orgId, k.userId) in s.db.roles;
        Some(k.(phase := RoleRead(p.gen, if member then Some(s.db.roles[(k.orgId, k.userId)]) else None)))
      case HandshakeResume(_) =>
        if p.found.None? || p.gen != s.gen then None else Some(k.(phase := Admitted(p.gen, p.found.value)))
      case Connected(_) => if p.gen != s.gen then None else Some(k.(phase := Verifying(p.gen, p.role)))
      case Reverified(_, ok) => if !ok || p.gen != s.gen then None else Some(k.(phase := JoiningRooms(p.gen, p.role)))
      case RoomsJoined(_) =>
        Some(k.(phase := InRooms(p.gen, p.role), rooms := k.rooms + DataRooms(k.userId, k.orgId, p.role)))
      case ConnectionResume(_) => if p.gen != s.gen then None else Some(k.(phase := Ready))
      case Disconnect(_) => None
  }

  /** Every room the socket is in, as authorized under generation `gen`. */
  function Stamp(sock: string, rooms: set<SocketRoom>, gen: nat): map<(string, SocketRoom), nat> {
    map room | room in rooms :: (sock, room) := gen
  }

  function ConnectionApply(s: State, step: ConnectionStep): State
    requires ConnectionEnabled(s, step)
  {
    match Resumed(s, step)
    case None => if step.sock in s.sockets then Drop(s, step.sock) else s
    case Some(k) =>
      s.(sockets := s.sockets[step.sock := k],
         roomGen := if step.RoomsJoined? then s.roomGen + Stamp(step.sock, k.rooms, k.phase.gen) else s.roomGen,
         presence := if k.phase.Ready? then P.Track(s.presence, k.userId, k.orgId, step.sock) else s.presence)
  }

  predicate SpaceJoinEnabled(s: State, step: SpaceJoinStep) {
    match step
    case StartSpaceJoin(act, sock, space) => act !in s.activations && IsReady(s, sock) && space != ""
    case SpaceJoinResume(act) => AtAccess(s, act, SpaceJoin)
    case SpaceJoinLands(act) => At(s, act, SpaceJoin, AwaitJoin)
    case SpaceJoinThrows(act) => At(s, act, SpaceJoin, AwaitJoin)
    case SpaceJoinRecheck(act) => At(s, act, SpaceJoin, InRoom)
    case SpaceJoinLeft(act) => At(s, act, SpaceJoin, AwaitLeave)
  }

  function SpaceJoinApply(s: State, step: SpaceJoinStep): State
    requires SpaceJoinEnabled(s, step)
  {
    match step
    case StartSpaceJoin(act, sock, space) =>
      s.(activations := s.activations[act := Activation(SpaceJoin, sock, space, "", s.gen, AwaitAccess)])
    case SpaceJoinResume(act) => ApplySpaceJoinResume(s, act)
    case SpaceJoinLands(act) => ApplySpaceJoinLands(s, act)
    case SpaceJoinThrows(act) => End(s, act)
    case SpaceJoinRecheck(act) => ApplySpaceJoinRecheck(s, act)
    case SpaceJoinLeft(act) => ApplySpaceJoinLeft(s, act)
  }

  /** `ReadAccess` and `AccessThrows` serve all three kinds of handler. */
  predicate HuddleEnabled(s: State, step: HuddleStep) {
    match step
    case StartCreate(act, sock, space) => act !in s.activations && IsReady(s, sock) && space != ""
    case StartJoin(act, sock, roomId) => act !in s.activations && IsReady(s, sock)
    case ReadAccess(act) =>
      act in s.activations && s.activations[act].pc.AwaitAccess? && s.activations[act].sock in s.sockets
    case AccessThrows(act) => act in s.activations && s.activations[act].pc.AwaitAccess?
    case CreateResume(act, newId) => AtAccess(s, act, Create) && newId !in s.usedIds
    case CreateFinish(act, joined) => At(s, act, Create, AwaitJoin)
    case JoinResume(act) => AtAccess(s, act, Join)
    case JoinFinish(act, joined) => At(s, act, Join, AwaitJoin)
  }

  function HuddleApply(s: State, step: HuddleStep): State
    requires HuddleEnabled(s, step)
  {
    match step
    case StartCreate(act, sock, space) =>
      s.(activations := s.activations[act := Activation(Create, sock, space, "", s.gen, AwaitAccess)])
    case StartJoin(act, sock, roomId) => ApplyStartJoin(s, act, sock, roomId)
    case ReadAccess(act) => ApplyReadAccess(s, act)
    case AccessThrows(act) => End(s, act)
    case CreateResume(act, newId) => ApplyCreateResume(s, act, newId)
    case CreateFinish(act, joined) => ApplyCreateFinish(s, act, joined)
    case JoinResume(act) => ApplyJoinResume(s, act)
    case JoinFinish(act, joined) => ApplyJoinFinish(s, act, joined)
  }

  predicate SyncEnabled(s: State, step: SyncStep) {
    match step
    case GoIdle(sock) => IsReady(s, sock)
    case GoActive(sock) => IsReady(s, sock)
    case SpaceLeave(sock, space) => IsReady(s, sock)
    case Leave(sock, roomId) => IsReady(s, sock)
    case Mute(sock, roomId, muted) => IsReady(s, sock)
    case TimerFires(timer) => timer in s.rooms.timers
  }

  function SyncApply(s: State, step: SyncStep): State
    requires SyncEnabled(s, step)
  {
    match step
    case GoIdle(sock) => s.(presence := P.GoIdle(s.presence, s.sockets[sock].userId, s.sockets[sock].orgId))
    case GoActive(sock) => s.(presence := P.GoActive(s.presence, s.sockets[sock].userId, s.sockets[sock].orgId))
    case SpaceLeave(sock, space) => LeaveSpaceRoom(s, sock, space)
    case Leave(sock, roomId) => ApplyLeave(s, sock, roomId)
    case Mute(sock, roomId, muted) => ApplyMute(s, sock, roomId, muted)
    case TimerFires(timer) => s.(rooms := H.FireTimer(s.rooms, timer))
  }

  predicate Enabled(s: State, step: Step) {
    match step
    case Database(d) => DbEnabled(s, d)
    case Evicting(e) => EvictEnabled(s, e)
    case Connecting(c) => ConnectionEnabled(s, c)
    case SpaceJoining(j) => SpaceJoinEnabled(s, j)
    case Huddling(h) => HuddleEnabled(s, h)
    case Sync(y) => SyncEnabled(s, y)
  }

  function Apply(s: State, step: Step): State
    requires Enabled(s, step)
  {
    match step
    case Database(d) => DbApply(s, d)
    case Evicting(e) => EvictApply(s, e)
    case Connecting(c) => ConnectionApply(s, c)
    case SpaceJoining(j) => SpaceJoinApply(s, j)
    case Huddling(h) => HuddleApply(s, h)
    case Sync(y) => SyncApply(s, y)
  }

  ghost predicate Next(s: State, after: State) {
    exists step :: Enabled(s, step) && after == Apply(s, step)
  }

  /** A run: from an initial state, each state reached from the one before by some step. */
  ghost predicate IsRun(run: seq<State>) {
    && run != [] && Initial(run[0])
    && (forall i | 0 < i < |run| :: FollowsAt(run, i))
  }

  ghost predicate FollowsAt(run: seq<State>, i: int)
    requires 0 < i < |run|
  {
    Next(run[i - 1], run[i])
  }
}
