/** What holds on every run of the realtime protocol, however its steps interleave. */
module RealtimeTheorems {
  import opened Common
  import opened Realtime
  import opened RealtimeInv
  import opened RealtimeFrames
  import H = HuddleModel
  import P = Presence
  import A = RealtimeAuthProof
  import T = RealtimeTimerProof
  import S = RealtimeSocketProof
  import C = RealtimeSocketCleanProof
  import E = RealtimeScopeProof
  import Q = RealtimePresenceProof

  ghost predicate Inv(s: State) {
    DbOk(s.db) && Basics(s) && Auth(s) && NoLimbo(s) && S.SocketsOk(s) && C.SocketsClean(s) && E.ScopesOk(s)
    && Q.PresenceOk(s)
  }

  lemma InitialInv(s: State)
    requires Initial(s)
    ensures Inv(s)
  {
  }

  lemma DbStepKeepsDb(s: State, step: DbStep)
    requires DbOk(s.db) && DbEnabled(s, step)
    ensures DbOk(DbApply(s, step).db)
  {
  }

  lemma StepKeepsDb(s: State, step: Step)
    requires DbOk(s.db) && Enabled(s, step)
    ensures DbOk(Apply(s, step).db)
  {
    if step.Database? { DbStepKeepsDb(s, step.d); } else { OnlyDatabaseSteps(s, step); }
  }

  lemma StepInv(s: State, step: Step)
    requires Inv(s) && Enabled(s, step)
    ensures Inv(Apply(s, step))
  {
    StepKeepsDb(s, step);
    A.StepKeepsAuth(s, step);
    T.StepKeepsTimers(s, step);
    S.StepKeepsSockets(s, step);
    C.StepKeepsClean(s, step);
    E.StepKeepsScopes(s, step);
    Q.StepKeepsPresence(s, step);
  }

  lemma NextInv(s: State, after: State)
    requires Inv(s) && Next(s, after)
    ensures Inv(after)
  {
    var step :| Enabled(s, step) && after == Apply(s, step);
    StepInv(s, step);
  }

  lemma {:induction false} RunInv(run: seq<State>, i: nat)
    requires IsRun(run) && i < |run|
    ensures Inv(run[i])
  {
    if i == 0 {
      InitialInv(run[0]);
    } else {
      RunInv(run, i - 1);
      assert FollowsAt(run, i);
      NextInv(run[i - 1], run[i]);
    }
  }

  // ---- changes without an eviction ----

  /** The run took this database step at its state `j`. */
  ghost predicate TookAt(run: seq<State>, j: nat, step: DbStep) {
    j + 1 < |run| && DbEnabled(run[j], step) && run[j + 1] == DbApply(run[j], step)
  }

  lemma DbStepTells(s: State, step: DbStep)
    requires AllTold(s.db) && DbEnabled(s, step) && !IsSilent(step)
    ensures AllTold(DbApply(s, step).db)
  {
  }

  /** The first silent difference of a kind is made by a silent change of that kind. */
  lemma ArchivedByStep(s: State, step: DbStep, space: string)
    requires DbEnabled(s, step) && SilentlyArchived(DbApply(s, step).db, space) && !SilentlyArchived(s.db, space)
    ensures step == ArchiveSilently(space)
  {
  }

  lemma RemovedByStep(s: State, step: DbStep, org: string, user: string)
    requires DbOk(s.db) && DbEnabled(s, step)
    requires SilentlyRemoved(DbApply(s, step).db, org, user) && !SilentlyRemoved(s.db, org, user)
    ensures step == DeactivateSilently(org, user)
  {
  }

  lemma DemotedByStep(s: State, step: DbStep, org: string, user: string)
    requires DbOk(s.db) && DbEnabled(s, step) && SilentlyDemoted(DbApply(s, step).db, org, user)
    requires !SilentlyDemoted(s.db, org, user) && !SilentlyRemoved(s.db, org, user)
    ensures step == ChangeRoleSilently(org, user, Guest)
  {
    var role :| role in DbApply(s, step).db.RolesTold(org, user) && role != Guest;
    assert role in s.db.RolesTold(org, user);
    assert (org, user) in s.db.toldRoles && (org, user) in s.db.roles;
  }

  /** The database changes only by database steps of the run. */
  lemma DbChangeHasStep(run: seq<State>, i: nat)
    requires IsRun(run) && i + 1 < |run|
    ensures DbOk(run[i].db)
    ensures run[i + 1].db == run[i].db || exists step :: TookAt(run, i, step)
  {
    RunInv(run, i);
    hide Inv;
    assert FollowsAt(run, i + 1);
    var step :| Enabled(run[i], step) && run[i + 1] == Apply(run[i], step);
    StepIsDatabase(run, i, step);
  }

  lemma StepIsDatabase(run: seq<State>, i: nat, step: Step)
    requires i + 1 < |run| && Enabled(run[i], step) && run[i + 1] == Apply(run[i], step)
    ensures run[i + 1].db == run[i].db || (step.Database? && TookAt(run, i, step.d))
  {
    if !step.Database? { OnlyDatabaseSteps(run[i], step); }
  }

  /** Until a run takes a silent step everything is told: nobody is silently archived, removed or demoted. */
  lemma {:induction false} UntoldHasCause(run: seq<State>, i: nat)
    requires IsRun(run) && i < |run|
    requires forall j: nat, step | j < i && IsSilent(step) :: !TookAt(run, j, step)
    ensures AllTold(run[i].db)
  {
    if i > 0 {
      UntoldHasCause(run, i - 1);
      DbChangeHasStep(run, i - 1);
      if run[i].db != run[i - 1].db {
        var step :| TookAt(run, i - 1, step);
        DbStepTells(run[i - 1], step);
      }
    }
  }

  /** A space is silently archived only by an archiving without an eviction earlier in the run. */
  lemma {:induction false} ArchivedHasCause(run: seq<State>, i: nat, space: string)
    requires IsRun(run) && i < |run| && SilentlyArchived(run[i].db, space)
    ensures exists j: nat :: j < i && TookAt(run, j, ArchiveSilently(space))
  {
    if i > 0 {
      DbChangeHasStep(run, i - 1);
      if SilentlyArchived(run[i - 1].db, space) {
        ArchivedHasCause(run, i - 1, space);
      } else {
        var step :| TookAt(run, i - 1, step);
        ArchivedByStep(run[i - 1], step, space);
      }
    }
  }

  /** A user is silently removed only by a deactivation without an eviction. */
  lemma {:induction false} RemovedHasCause(run: seq<State>, i: nat, org: string, user: string)
    requires IsRun(run) && i < |run| && SilentlyRemoved(run[i].db, org, user)
    ensures exists j: nat :: j < i && TookAt(run, j, DeactivateSilently(org, user))
  {
    if i > 0 {
      DbChangeHasStep(run, i - 1);
      if SilentlyRemoved(run[i - 1].db, org, user) {
        RemovedHasCause(run, i - 1, org, user);
      } else {
        var step :| TookAt(run, i - 1, step);
        RemovedByStep(run[i - 1], step, org, user);
      }
    }
  }

  /** And silently demoted only by such a deactivation, or by a change of role to guest without an eviction. */
  lemma {:induction false} DemotedHasCause(run: seq<State>, i: nat, org: string, user: string)
    requires IsRun(run) && i < |run| && SilentlyDemoted(run[i].db, org, user)
    ensures exists j: nat ::
      j < i && (TookAt(run, j, DeactivateSilently(org, user)) || TookAt(run, j, ChangeRoleSilently(org, user, Guest)))
  {
    if i > 0 {
      DbChangeHasStep(run, i - 1);
      if SilentlyDemoted(run[i - 1].db, org, user) {
        DemotedHasCause(run, i - 1, org, user);
      } else if SilentlyRemoved(run[i - 1].db, org, user) {
        RemovedHasCause(run, i - 1, org, user);
      } else {
        var step :| TookAt(run, i - 1, step);
        DemotedByStep(run[i - 1], step, org, user);
      }
    }
  }

  // ---- participants ----

  /**
   * Safety: whoever is in a huddle is authorized for its space by the database
   * as it stands, or a committed revocation covering them has an eviction that
   * has not begun, or one is running and still has them ahead of it, or they
   * lost the space or the organization by a change that no eviction follows.
   */
  lemma ParticipantsAuthorized(run: seq<State>, i: nat, roomId: string, userId: string)
    requires IsRun(run) && i < |run| && In(run[i].rooms, roomId, userId)
    ensures
      var s := run[i];
      var room := s.rooms.byId[roomId];
      || Access(s.db, room.spaceId, userId, room.orgId)
      || (exists r :: r in s.pending && s.pending[r].Covers(room.orgId, room.spaceId, userId))
      || (exists e :: e in s.evictions && s.evictions[e].scope.Covers(room.orgId, room.spaceId, userId)
            && Awaits(s.evictions[e], roomId, userId))
      || SilentlyArchived(s.db, room.spaceId)
      || SilentlyRemoved(s.db, room.orgId, userId)
  {
    RunInv(run, i);
    var s := run[i];
    assert SeatJustified(s, roomId, userId);
    if !Justified(s, s.rooms.byId[roomId].orgId, s.rooms.byId[roomId].spaceId, userId) {
      var e :| e in s.evictions && Older(s, s.evictions[e].gen, roomId, userId)
        && CoversSeat(s.evictions[e].scope, s.rooms, roomId, userId);
      assert Awaits(s.evictions[e], roomId, userId);
    }
  }

  /**
   * With no eviction outstanding, a participant is authorized, whatever handlers
   * are suspended, exactly if no change without an eviction took the space or
   * the organization away.
   */
  lemma QuiescentParticipantsAuthorized(run: seq<State>, i: nat, roomId: string, userId: string)
    requires IsRun(run) && i < |run| && In(run[i].rooms, roomId, userId)
    requires run[i].pending == map[] && run[i].evictions == map[]
    ensures
      var db := run[i].db;
      var room := run[i].rooms.byId[roomId];
      Access(db, room.spaceId, userId, room.orgId) <==>
        !SilentlyArchived(db, room.spaceId) && !SilentlyRemoved(db, room.orgId, userId)
  {
    ParticipantsAuthorized(run, i, roomId, userId);
  }

  /** On a run where an eviction follows every revocation, participants are then authorized outright. */
  lemma ToldParticipantsAuthorized(run: seq<State>, i: nat, roomId: string, userId: string)
    requires IsRun(run) && i < |run| && In(run[i].rooms, roomId, userId)
    requires run[i].pending == map[] && run[i].evictions == map[]
    requires forall j: nat, step | j < i && IsSilent(step) :: !TookAt(run, j, step)
    ensures Access(run[i].db, run[i].rooms.byId[roomId].spaceId, userId, run[i].rooms.byId[roomId].orgId)
  {
    UntoldHasCause(run, i);
    QuiescentParticipantsAuthorized(run, i, roomId, userId);
  }

  /**
   * When an eviction that bumped the generation to G returns, and ever after,
   * no participant its scope covers holds an authorization captured below G.
   */
  lemma EvictionComplete(run: seq<State>, i: nat, ev: nat, j: nat, roomId: string, userId: string)
    requires IsRun(run) && i < j < |run|
    requires EvictEnabled(run[i], EvictReturn(ev)) && run[i + 1] == Apply(run[i], Evicting(EvictReturn(ev)))
    requires In(run[j].rooms, roomId, userId)
    requires run[i].evictions[ev].scope.Covers(run[j].rooms.byId[roomId].orgId, run[j].rooms.byId[roomId].spaceId,
                                               userId)
    ensures (roomId, userId) in run[j].authGen && run[j].authGen[(roomId, userId)] >= run[i].evictions[ev].gen
  {
    var f := (run[i].evictions[ev].scope, run[i].evictions[ev].gen);
    assert f in run[i + 1].finished;
    FinishedStays(run, i + 1, j, f);
    RunInv(run, j);
    assert CoversSeat(f.0, run[j].rooms, roomId, userId);
  }

  /** An eviction takes out nobody its scope does not cover. */
  lemma EvictionSpares(run: seq<State>, i: nat, ev: nat)
    requires IsRun(run) && i < |run| && EvictEnabled(run[i], EvictTarget(ev))
    ensures E.NextIsCovered(run[i], ev)
  {
    RunInv(run, i);
    InvScopes(run[i]);
    hide IsRun, Inv, EvictEnabled;
    E.TargetIsCovered(run[i], ev);
  }

  lemma InvScopes(s: State)
    requires Inv(s)
    ensures E.ScopesOk(s)
  {
  }

  lemma {:induction false} FinishedStays(run: seq<State>, i: nat, j: nat, f: (Scope, nat))
    requires IsRun(run) && i <= j < |run| && f in run[i].finished
    ensures f in run[j].finished
  {
    if i < j {
      FinishedStays(run, i, j - 1, f);
      assert FollowsAt(run, j);
      NextGrows(run[j - 1], run[j]);
    }
  }

  lemma NextGrows(s: State, after: State)
    requires Next(s, after)
    ensures s.finished <= after.finished
  {
    hide Apply, Enabled;
    var step :| Enabled(s, step) && after == Apply(s, step);
    FinishedGrows(s, step);
  }

  lemma FinishedGrows(s: State, step: Step)
    requires Enabled(s, step)
    ensures s.finished <= Apply(s, step).finished
  {
    if step.Evicting? { EvictStepFrame(s, step.e); } else { OtherStepsLeaveEvictions(s, step); }
  }

  /** Lost without an eviction: what the user would need to be allowed in the socket room. */
  predicate SilentlyLost(db: Db, k: Socket, room: SocketRoom) {
    match room
    case UserRoom(_) => false
    case OrgRoom(_) => SilentlyRemoved(db, k.orgId, k.userId)
    case OrgUserRoom(_, _) => SilentlyRemoved(db, k.orgId, k.userId)
    case OrgMembersRoom(_) => SilentlyRemoved(db, k.orgId, k.userId) || SilentlyDemoted(db, k.orgId, k.userId)
    case SpaceRoom(space) => SilentlyArchived(db, space) || SilentlyRemoved(db, k.orgId, k.userId)
  }

  /** What was told and what is differ by the silent changes. */
  lemma AllowedUnlessLost(db: Db, k: Socket, room: SocketRoom)
    requires DbOk(db) && S.ToldAllowed(db, k, room)
    ensures S.Allowed(db, k, room) <==> !SilentlyLost(db, k, room)
  {
  }

  /**
   * With no eviction outstanding, no handshake and no `space:join` under way, a
   * live socket in an organization, organization-user, members-only or space
   * room belongs to a user the database still allows there exactly if no change
   * without an eviction took that away.
   */
  lemma QuiescentSocketsAllowed(run: seq<State>, i: nat, sock: string, room: SocketRoom)
    requires IsRun(run) && i < |run|
    requires run[i].pending == map[] && run[i].evictions == map[]
    requires forall k | k in run[i].sockets :: run[i].sockets[k].phase.Ready? || run[i].sockets[k].phase.Gone?
    requires forall a | a in run[i].activations :: !run[i].activations[a].kind.SpaceJoin?
    requires Live(run[i], sock) && room in run[i].sockets[sock].rooms
    ensures S.Allowed(run[i].db, run[i].sockets[sock], room) <==> !SilentlyLost(run[i].db, run[i].sockets[sock], room)
  {
    RunInv(run, i);
    assert S.RoomOk(run[i], sock, run[i].sockets[sock], room);
    AllowedUnlessLost(run[i].db, run[i].sockets[sock], room);
  }

  /** On a run where an eviction follows every revocation, sockets are then allowed where they are outright. */
  lemma ToldSocketsAllowed(run: seq<State>, i: nat, sock: string, room: SocketRoom)
    requires IsRun(run) && i < |run|
    requires run[i].pending == map[] && run[i].evictions == map[]
    requires forall k | k in run[i].sockets :: run[i].sockets[k].phase.Ready? || run[i].sockets[k].phase.Gone?
    requires forall a | a in run[i].activations :: !run[i].activations[a].kind.SpaceJoin?
    requires Live(run[i], sock) && room in run[i].sockets[sock].rooms
    requires forall j: nat, step | j < i && IsSilent(step) :: !TookAt(run, j, step)
    ensures S.Allowed(run[i].db, run[i].sockets[sock], room)
  {
    UntoldHasCause(run, i);
    QuiescentSocketsAllowed(run, i, sock, room);
    hide IsRun, S.Allowed, TookAt, Live;
  }

  /**
   * The same with everything in flight: a socket not allowed in its room is
   * covered by an outstanding revocation that will take it out, or was let in by
   * a stale handshake or `space:join` that will, or lost its right silently.
   */
  lemma SocketsAllowedOrLeaving(run: seq<State>, i: nat, sock: string, room: SocketRoom)
    requires IsRun(run) && i < |run| && Live(run[i], sock) && room in run[i].sockets[sock].rooms
    ensures
      var s := run[i];
      var k := s.sockets[sock];
      || S.Allowed(s.db, k, room)
      || (exists r :: r in s.pending && S.RoomCovered(s.pending[r], k, room))
      || (exists e :: e in s.evictions && S.RoomCovered(s.evictions[e].scope, k, room)
            && (s.evictions[e].closing ==> sock in s.evictions[e].toDisconnect))
      || (k.phase.InRooms? && k.phase.gen < s.gen)
      || (exists a :: a in s.activations && S.Leaving(s.activations[a], s.gen, sock, room))
      || SilentlyLost(s.db, k, room)
  {
    RunInv(run, i);
    var s := run[i];
    var k := s.sockets[sock];
    assert S.RoomOk(s, sock, k, room);
    if S.BeingEvicted(s, sock, k, room) {
      var e :| e in s.evictions && S.Evicts(s.evictions[e], sock, k, room);
      assert S.RoomCovered(s.evictions[e].scope, k, room);
    } else if S.ToldAllowed(s.db, k, room) {
      AllowedUnlessLost(s.db, k, room);
    }
  }

  /**
   * When an eviction that bumped the generation to G returns, and ever after, a
   * socket its scope covers is in the room only on an authorization captured at
   * G or later, or its stale handshake or `space:join` is still to take it out.
   */
  lemma SocketEvictionComplete(run: seq<State>, i: nat, ev: nat, j: nat, sock: string, room: SocketRoom)
    requires IsRun(run) && i < j < |run|
    requires EvictEnabled(run[i], EvictReturn(ev)) && run[i + 1] == Apply(run[i], Evicting(EvictReturn(ev)))
    requires Live(run[j], sock) && room in run[j].sockets[sock].rooms
    requires S.RoomCovered(run[i].evictions[ev].scope, run[j].sockets[sock], room)
    ensures
      var s := run[j];
      || ((sock, room) in s.roomGen && s.roomGen[(sock, room)] >= run[i].evictions[ev].gen)
      || (s.sockets[sock].phase.InRooms? && s.sockets[sock].phase.gen < s.gen)
      || (exists a :: a in s.activations && S.Leaving(s.activations[a], s.gen, sock, room))
  {
    var f := (run[i].evictions[ev].scope, run[i].evictions[ev].gen);
    assert f in run[i + 1].finished;
    FinishedStays(run, i + 1, j, f);
    RunInv(run, j);
    assert C.InRoom(run[j], sock, room) && C.CleanAt(run[j], f.0, f.1, {}, sock, room);
  }

  /**
   * One room per space; a user in at most one room of an organization, on one
   * socket of their own; so the first-match scans answer alike in any order.
   */
  lemma RoomsUnique(run: seq<State>, i: nat)
    requires IsRun(run) && i < |run|
    ensures H.OneRoomPerSpace(run[i].rooms) && H.OneRoomPerUser(run[i].rooms)
    ensures forall id, u | In(run[i].rooms, id, u) ::
      var sock := run[i].rooms.byId[id].participants[u].socketId;
      sock in run[i].sockets && run[i].sockets[sock].userId == u
        && run[i].sockets[sock].orgId == run[i].rooms.byId[id].orgId
    ensures forall a, b, u, v | In(run[i].rooms, a, u) && In(run[i].rooms, b, v) ::
      run[i].rooms.byId[a].participants[u].socketId == run[i].rooms.byId[b].participants[v].socketId ==>
        a == b && u == v
  {
    RunInv(run, i);
    var s := run[i];
    forall id, u | In(s.rooms, id, u)
      ensures SeatOk(s.sockets, s.rooms.byId[id].orgId, u, s.rooms.byId[id].participants[u].socketId)
    {
    }
  }

  lemma ScansIgnoreOrder(run: seq<State>, i: nat, order: seq<string>, spaceId: string, orgId: string, userId: string,
                         allowed: Option<string>)
    requires IsRun(run) && i < |run|
    requires forall id :: id in order <==> id in run[i].rooms.order
    ensures
      var shuffled := run[i].rooms.(order := order);
      && H.GetRoomBySpace(shuffled, spaceId, orgId) == H.GetRoomBySpace(run[i].rooms, spaceId, orgId)
      && H.ConflictingRoomId(shuffled, userId, orgId, allowed) ==
         H.ConflictingRoomId(run[i].rooms, userId, orgId, allowed)
  {
    RunInv(run, i);
    H.ScansIgnoreOrder(run[i].rooms, order, spaceId, orgId, userId, allowed);
  }

  /**
   * An armed grace timer means an empty room, so a timer that fires destroys a
   * room nobody is in; an empty room has its timer armed or an eviction working
   * on it; and no timeout outlives its room.
   */
  lemma TimersSound(run: seq<State>, i: nat)
    requires IsRun(run) && i < |run|
    ensures forall t | t in run[i].rooms.timers ::
      run[i].rooms.timers[t] in run[i].rooms.byId && run[i].rooms.byId[run[i].rooms.timers[t]].participants == map[]
    ensures forall id | id in run[i].rooms.byId && run[i].rooms.byId[id].participants == map[] ::
      || (run[i].rooms.byId[id].graceTimer.Some? && run[i].rooms.byId[id].graceTimer.value in run[i].rooms.timers)
      || (exists e :: e in run[i].evictions && run[i].evictions[e].current == Some(id))
  {
    RunInv(run, i);
    var s := run[i];
    forall id | id in s.rooms.byId && s.rooms.byId[id].participants == map[] && s.rooms.byId[id].graceTimer.None?
      ensures exists e :: e in s.evictions && s.evictions[e].current == Some(id)
    {
      assert Visited(s.evictions, id);
    }
  }

  /**
   * `onlineUsers` is exactly the ready sockets with no empty sets, idle users
   * are online, and each user's first-socket and last-socket broadcasts alternate.
   * The last broadcast about a user tells their status, but that it may still say
   * idle when another tab has made them online.
   */
  lemma PresenceSound(run: seq<State>, i: nat, userId: string)
    requires IsRun(run) && i < |run|
    ensures P.SocketsOf(run[i].presence, userId) == Q.ReadySockets(run[i].sockets, userId)
    ensures userId in run[i].presence.online <==> Q.ReadySockets(run[i].sockets, userId) != {}
    ensures userId in run[i].presence.idle ==> userId in run[i].presence.online
    ensures P.Alternates(P.Moves(run[i].presence.log, userId))
    ensures userId in run[i].presence.online <==> |P.Moves(run[i].presence.log, userId)| % 2 == 1
    ensures P.HeardRight(run[i].presence, userId)
  {
    RunInv(run, i);
  }
}
