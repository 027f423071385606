/** The invariants of the realtime protocol, and how huddle-room changes bear on them. */
module RealtimeInv {
  import opened Common
  import opened Realtime
  import H = HuddleModel

  predicate In(rs: H.Rooms, roomId: string, userId: string) {
    roomId in rs.byId && userId in rs.byId[roomId].participants
  }

  /** What nobody was told of has only taken away. */
  ghost predicate DbOk(db: Db) {
    && db.toldArchived <= db.archived
    && forall k | k in db.roles :: k in db.toldRoles && db.roles[k] in db.toldRoles[k]
  }

  /**
   * Authorized as far as anybody was told, or covered by a committed revocation
   * whose eviction has not begun.
   */
  ghost predicate Justified(s: State, orgId: string, spaceId: string, userId: string) {
    || Told(s.db, spaceId, userId, orgId)
    || exists r :: r in s.pending && s.pending[r].Covers(orgId, spaceId, userId)
  }

  // ---- bookkeeping ----

  /** Participants sit on sockets of their own user and organization that were once ready. */
  ghost predicate RoomsOk(s: State) {
    && H.WellFormed(s.rooms)
    && "" !in s.sockets
    && (forall id :: id in s.rooms.byId ==> id in s.usedIds)
    && (forall id, u | In(s.rooms, id, u) ::
          SeatOk(s.sockets, s.rooms.byId[id].orgId, u, s.rooms.byId[id].participants[u].socketId))
    && (forall id, u | In(s.rooms, id, u) :: (id, u) in s.authGen && s.authGen[(id, u)] <= s.gen)
  }

  ghost predicate SeatOk(sockets: map<string, Socket>, orgId: string, userId: string, sock: string) {
    && sock in sockets && sockets[sock].userId == userId && sockets[sock].orgId == orgId
    && (sockets[sock].phase.Ready? || sockets[sock].phase.Gone?)
  }

  ghost predicate ActsOk(s: State) {
    forall a | a in s.activations :: ActOk(s, s.activations[a])
  }

  ghost predicate ActOk(s: State, a: Activation) {
    && a.gen <= s.gen
    && a.sock in s.sockets && (s.sockets[a.sock].phase.Ready? || s.sockets[a.sock].phase.Gone?)
    && (a.kind.Join? ==> a.roomId in s.usedIds)
    && (a.kind.Join? && a.roomId in s.rooms.byId ==>
          s.rooms.byId[a.roomId].spaceId == a.spaceId && s.rooms.byId[a.roomId].orgId == s.sockets[a.sock].orgId)
  }

  ghost predicate EvictionsOk(s: State) {
    && (forall r | r in s.pending :: s.pending[r].WellFormed())
    && (forall e | e in s.evictions ::
          && s.evictions[e].gen <= s.gen && s.evictions[e].scope.WellFormed()
          && (s.evictions[e].closing ==> s.evictions[e].todo == [] && s.evictions[e].current.None?))
    && (forall f | f in s.finished :: f.1 <= s.gen)
  }

  ghost predicate Basics(s: State) {
    RoomsOk(s) && ActsOk(s) && EvictionsOk(s)
  }

  // ---- authorization of huddle participants ----

  /** The eviction has yet to reach this participant. */
  predicate Awaits(e: Eviction, roomId: string, userId: string) {
    roomId in e.todo || (e.current == Some(roomId) && userId in e.targets)
  }

  predicate CoversSeat(scope: Scope, rs: H.Rooms, roomId: string, userId: string)
    requires roomId in rs.byId
  {
    scope.Covers(rs.byId[roomId].orgId, rs.byId[roomId].spaceId, userId)
  }

  /** A handler holding a granted access check. */
  predicate Holds(a: Activation) {
    a.pc == GotAccess(true) || a.pc.AwaitJoin? || a.pc.InRoom?
  }

  /** A handler's granted check still stands, or the generation has moved on. */
  ghost predicate ActsJustified(s: State) {
    forall a | a in s.activations && Holds(s.activations[a]) && s.activations[a].sock in s.sockets ::
      || s.activations[a].gen < s.gen
      || Justified(s, s.sockets[s.activations[a].sock].orgId, s.activations[a].spaceId,
                   s.sockets[s.activations[a].sock].userId)
  }

  /** A participant's check still stands, or a newer running eviction covers the seat. */
  ghost predicate SeatsJustified(s: State) {
    forall id, u | In(s.rooms, id, u) :: SeatJustified(s, id, u)
  }

  ghost predicate SeatJustified(s: State, id: string, u: string)
    requires In(s.rooms, id, u)
  {
    || Justified(s, s.rooms.byId[id].orgId, s.rooms.byId[id].spaceId, u)
    || exists e ::
         e in s.evictions && Older(s, s.evictions[e].gen, id, u) && CoversSeat(s.evictions[e].scope, s.rooms, id, u)
  }

  predicate Older(s: State, gen: nat, id: string, u: string) {
    (id, u) in s.authGen && s.authGen[(id, u)] < gen
  }

  /** A running eviction still has ahead of it every covered participant authorized before it began. */
  ghost predicate EvictionsReach(s: State) {
    forall e, id, u | e in s.evictions && In(s.rooms, id, u) ::
      Older(s, s.evictions[e].gen, id, u) && CoversSeat(s.evictions[e].scope, s.rooms, id, u) ==>
        Awaits(s.evictions[e], id, u)
  }

  /** A finished eviction has left behind no covered participant authorized before it began. */
  ghost predicate FinishedClean(s: State) {
    forall f, id, u | f in s.finished && In(s.rooms, id, u) ::
      CoversSeat(f.0, s.rooms, id, u) ==> !Older(s, f.1, id, u)
  }

  ghost predicate Auth(s: State) {
    ActsJustified(s) && SeatsJustified(s) && EvictionsReach(s) && FinishedClean(s)
  }

  // ---- empty rooms ----

  /** An empty room has its grace timer armed, unless an eviction is still working on it. */
  ghost predicate NoLimbo(s: State) {
    forall id | id in s.rooms.byId && s.rooms.byId[id].participants == map[] && s.rooms.byId[id].graceTimer.None? ::
      Visited(s.evictions, id)
  }

  ghost predicate Visited(evictions: map<nat, Eviction>, id: string) {
    exists e :: e in evictions && evictions[e].current == Some(id)
  }

  // ---- changes that only take participants or rooms away ----

  ghost predicate Shrinks(rs: H.Rooms, after: H.Rooms) {
    && H.WellFormed(after)
    && (forall id | id in after.byId ::
          id in rs.byId && after.byId[id].spaceId == rs.byId[id].spaceId && after.byId[id].orgId == rs.byId[id].orgId)
    && (forall id, u | In(after, id, u) ::
          In(rs, id, u) && after.byId[id].participants[u].socketId == rs.byId[id].participants[u].socketId)
  }

  lemma RemoveShrinks(rs: H.Rooms, roomId: string, userId: string, sock: string)
    requires H.WellFormed(rs)
    ensures Shrinks(rs, H.RemoveParticipant(rs, roomId, userId, sock).0)
  {
    H.RemoveKeeps(rs, roomId, userId, sock);
  }

  lemma DestroyShrinks(rs: H.Rooms, roomId: string)
    requires H.WellFormed(rs)
    ensures Shrinks(rs, H.DestroyRoom(rs, roomId))
  {
    H.DestroyKeeps(rs, roomId);
  }

  lemma ShrinksTransitive(a: H.Rooms, b: H.Rooms, c: H.Rooms)
    requires Shrinks(a, b) && Shrinks(b, c)
    ensures Shrinks(a, c)
  {
  }

  lemma LeaveOneShrinks(rs: H.Rooms, roomId: string, userId: string, sock: string)
    requires H.WellFormed(rs)
    ensures Shrinks(rs, LeaveOne(rs, roomId, userId, sock))
  {
    var (left, removal) := H.RemoveParticipant(rs, roomId, userId, sock);
    RemoveShrinks(rs, roomId, userId, sock);
    if removal.removed && removal.empty {
      SetGraceTimerShrinks(left, roomId);
      ShrinksTransitive(rs, left, H.SetGraceTimer(left, roomId));
    }
  }

  lemma SetGraceTimerShrinks(rs: H.Rooms, roomId: string)
    requires H.WellFormed(rs)
    requires roomId in rs.byId ==> rs.byId[roomId].participants == map[]
    ensures Shrinks(rs, H.SetGraceTimer(rs, roomId))
  {
    H.SetGraceTimerKeeps(rs, roomId);
  }

  lemma {:induction false} LeaveAllShrinks(rs: H.Rooms, ids: seq<string>, userId: string, sock: string)
    requires H.WellFormed(rs)
    ensures Shrinks(rs, LeaveAll(rs, ids, userId, sock))
    decreases ids
  {
    if ids != [] {
      var left := LeaveOne(rs, ids[0], userId, sock);
      LeaveOneShrinks(rs, ids[0], userId, sock);
      LeaveAllShrinks(left, ids[1..], userId, sock);
      ShrinksTransitive(rs, left, LeaveAll(rs, ids, userId, sock));
    }
  }

  lemma RollbackShrinks(rs: H.Rooms, roomId: string, userId: string, sock: string)
    requires H.WellFormed(rs)
    ensures Shrinks(rs, Rollback(rs, roomId, userId, sock))
  {
    var (left, removal) := H.RemoveParticipant(rs, roomId, userId, sock);
    RemoveShrinks(rs, roomId, userId, sock);
    if removal.empty {
      DestroyShrinks(left, roomId);
      ShrinksTransitive(rs, left, H.DestroyRoom(left, roomId));
    }
  }

  lemma MuteShrinks(rs: H.Rooms, roomId: string, userId: string, sock: string, muted: bool)
    requires H.WellFormed(rs)
    ensures Shrinks(rs, H.SetMuted(rs, roomId, userId, sock, muted).0)
  {
    H.SetMutedKeeps(rs, roomId, userId, sock, muted);
    MuteSeats(rs, roomId, userId, sock, muted);
  }

  lemma MuteSeats(rs: H.Rooms, roomId: string, userId: string, sock: string, muted: bool)
    ensures var after := H.SetMuted(rs, roomId, userId, sock, muted).0;
      && after.byId.Keys == rs.byId.Keys
      && (forall id | id in after.byId ::
            && after.byId[id].spaceId == rs.byId[id].spaceId && after.byId[id].orgId == rs.byId[id].orgId
            && after.byId[id].graceTimer == rs.byId[id].graceTimer
            && after.byId[id].participants.Keys == rs.byId[id].participants.Keys)
      && (forall id, u | In(after, id, u) ::
            after.byId[id].participants[u].socketId == rs.byId[id].participants[u].socketId)
  {
  }

  lemma FireShrinks(rs: H.Rooms, timer: nat)
    requires H.WellFormed(rs) && timer in rs.timers
    ensures Shrinks(rs, H.FireTimer(rs, timer))
  {
    H.FireKeeps(rs, timer);
    DestroyShrinks(rs, rs.timers[timer]);
  }

  // ---- empty rooms under each change ----

  /** Every room empty and unarmed afterwards was so before. */
  ghost predicate NoNewLimbo(rs: H.Rooms, after: H.Rooms) {
    forall id | id in after.byId && after.byId[id].participants == map[] && after.byId[id].graceTimer.None? ::
      id in rs.byId && rs.byId[id].participants == map[] && rs.byId[id].graceTimer.None?
  }

  lemma LeaveOneNoLimbo(rs: H.Rooms, roomId: string, userId: string, sock: string)
    requires H.WellFormed(rs)
    ensures NoNewLimbo(rs, LeaveOne(rs, roomId, userId, sock))
  {
  }

  lemma {:induction false} LeaveAllNoLimbo(rs: H.Rooms, ids: seq<string>, userId: string, sock: string)
    requires H.WellFormed(rs)
    ensures NoNewLimbo(rs, LeaveAll(rs, ids, userId, sock))
    decreases ids
  {
    if ids != [] {
      LeaveOneShrinks(rs, ids[0], userId, sock);
      LeaveOneNoLimbo(rs, ids[0], userId, sock);
      LeaveAllNoLimbo(LeaveOne(rs, ids[0], userId, sock), ids[1..], userId, sock);
    }
  }

  lemma RollbackNoLimbo(rs: H.Rooms, roomId: string, userId: string, sock: string)
    requires H.WellFormed(rs)
    ensures NoNewLimbo(rs, Rollback(rs, roomId, userId, sock))
  {
  }
}
