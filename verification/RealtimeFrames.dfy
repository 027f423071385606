/** What each kind of step of the realtime protocol leaves alone. */
module RealtimeFrames {
  import opened Common
  import opened Realtime
  import H = HuddleModel
  import P = Presence

  /** Only this handler has moved, started or ended. */
  predicate OneAct(before: map<nat, Activation>, after: map<nat, Activation>, act: nat) {
    after == if act in after then before[act := after[act]] else before - {act}
  }

  /** The same sockets at the same point of their connection, in whatever rooms. */
  ghost predicate SamePeople(before: map<string, Socket>, after: map<string, Socket>) {
    && after.Keys == before.Keys
    && forall k | k in before :: after[k] == before[k].(rooms := after[k].rooms)
  }

  // ---- database changes ----

  predicate DbFrame(s: State, after: State) {
    after == s.(db := after.db, pending := after.pending)
  }

  lemma DbStepFrame(s: State, step: DbStep)
    requires DbEnabled(s, step)
    ensures DbFrame(s, DbApply(s, step))
  {
    hide WithRole, IsSilent;
  }

  // ---- evictions ----

  ghost predicate EvictFrame(s: State, after: State, ev: nat) {
    && after == s.(gen := after.gen, pending := after.pending, evictions := after.evictions, finished := after.finished,
                   rooms := after.rooms, sockets := after.sockets, presence := after.presence)
    && s.gen <= after.gen && s.finished <= after.finished
    && (forall e | e in s.evictions && e != ev :: e in after.evictions && after.evictions[e] == s.evictions[e])
    && (forall e | e in after.evictions && e != ev :: e in s.evictions)
    && after.sockets.Keys == s.sockets.Keys
    && (forall k | k in s.sockets :: Follows(s.sockets[k], after.sockets[k]))
  }

  predicate Follows(before: Socket, after: Socket) {
    after.userId == before.userId && after.orgId == before.orgId && (after.phase == before.phase || after.phase.Gone?)
  }

  lemma EvictStartFrame(s: State, rev: nat, ev: nat)
    requires rev in s.pending && ev !in s.evictions
    ensures EvictFrame(s, ApplyEvictStart(s, rev, ev), ev)
  {
    hide H.RoomIdsForScope;
  }

  lemma EvictTargetFrame(s: State, ev: nat)
    requires EvictEnabled(s, EvictTarget(ev))
    ensures EvictFrame(s, ApplyEvictTarget(s, ev), ev)
  {
    hide H.RemoveParticipant, H.ParticipantSocketId;
  }

  lemma EvictRoomFrame(s: State, ev: nat, listed: seq<string>)
    requires EvictEnabled(s, EvictRoom(ev, listed))
    ensures EvictFrame(s, ApplyEvictRoom(s, ev, listed), ev)
  {
  }

  lemma EvictRoomEndFrame(s: State, ev: nat)
    requires EvictEnabled(s, EvictRoomEnd(ev))
    ensures EvictFrame(s, ApplyEvictRoomEnd(s, ev), ev)
  {
    hide H.DestroyRoom, ParticipantIds;
  }

  lemma EvictCloseFrame(s: State, ev: nat)
    requires ev in s.evictions
    ensures EvictFrame(s, ApplyEvictClose(s, ev), ev)
  {
    ClosePeople(s.sockets, s.evictions[ev].scope);
    hide SocketsAfterClose, SocketsToDisconnect;
  }

  lemma ClosePeople(sockets: map<string, Socket>, scope: Scope)
    ensures SamePeople(sockets, SocketsAfterClose(sockets, scope))
  {
  }

  lemma EvictDisconnectFrame(s: State, ev: nat, sock: string)
    requires ev in s.evictions
    ensures EvictFrame(s, ApplyEvictDisconnect(s, ev, sock), ev)
  {
    hide DropRooms, DropPresence;
  }

  lemma EvictStepFrame(s: State, step: EvictStep)
    requires EvictEnabled(s, step)
    ensures EvictFrame(s, EvictApply(s, step), step.ev)
  {
    hide ApplyEvictStart, ApplyEvictRoom, ApplyEvictTarget, ApplyEvictRoomEnd, ApplyEvictClose, ApplyEvictDisconnect;
    match step {
      case EvictStart(ev, rev) => EvictStartFrame(s, rev, ev);
      case EvictRoom(ev, listed) => EvictRoomFrame(s, ev, listed);
      case EvictTarget(ev) => EvictTargetFrame(s, ev);
      case EvictRoomEnd(ev) => EvictRoomEndFrame(s, ev);
      case EvictClose(ev) => EvictCloseFrame(s, ev);
      case EvictDisconnect(ev, sock) => EvictDisconnectFrame(s, ev, sock);
      case EvictReturn(ev) =>
    }
  }

  // ---- connections ----

  predicate ConnectionFrame(s: State, after: State) {
    after == s.(sockets := after.sockets, roomGen := after.roomGen, rooms := after.rooms, presence := after.presence)
  }

  lemma ConnectionStepFrame(s: State, step: ConnectionStep)
    requires ConnectionEnabled(s, step)
    ensures ConnectionFrame(s, ConnectionApply(s, step))
  {
    hide Resumed, DropRooms, DropPresence, Stamp;
  }

  // ---- space:join ----

  ghost predicate SpaceJoinFrame(s: State, after: State, act: nat) {
    && after == s.(sockets := after.sockets, roomGen := after.roomGen, activations := after.activations)
    && SamePeople(s.sockets, after.sockets) && OneAct(s.activations, after.activations, act)
  }

  lemma SpaceJoinLandsFrame(s: State, act: nat)
    requires At(s, act, SpaceJoin, AwaitJoin)
    ensures SpaceJoinFrame(s, ApplySpaceJoinLands(s, act), act)
  {
  }

  lemma SpaceJoinLeftFrame(s: State, act: nat)
    requires At(s, act, SpaceJoin, AwaitLeave)
    ensures SpaceJoinFrame(s, ApplySpaceJoinLeft(s, act), act)
  {
  }

  lemma SpaceJoinStepFrame(s: State, step: SpaceJoinStep)
    requires SpaceJoinEnabled(s, step)
    ensures SpaceJoinFrame(s, SpaceJoinApply(s, step), step.act)
  {
    hide ApplySpaceJoinLands, ApplySpaceJoinLeft, LeaveSpaceRoom, SocketsLeave;
    match step {
      case SpaceJoinLands(act) => SpaceJoinLandsFrame(s, act);
      case SpaceJoinLeft(act) => SpaceJoinLeftFrame(s, act);
      case _ =>
    }
  }

  // ---- huddle handlers ----

  ghost predicate HuddleFrame(s: State, after: State, act: nat) {
    && after == s.(rooms := after.rooms, activations := after.activations, authGen := after.authGen,
                   usedIds := after.usedIds)
    && OneAct(s.activations, after.activations, act)
  }

  lemma AfterTryFrame(s: State, act: nat, newId: string, outcome: CreateOutcome)
    requires AtAccess(s, act, Create)
    ensures HuddleFrame(s, AfterTry(s, act, newId, outcome), act)
  {
  }

  lemma CreateResumeFrame(s: State, act: nat, newId: string)
    requires AtAccess(s, act, Create)
    ensures HuddleFrame(s, ApplyCreateResume(s, act, newId), act)
  {
    hide AfterTry, TryCreate;
    forall outcome
      ensures HuddleFrame(s, AfterTry(s, act, newId, outcome), act)
    {
      AfterTryFrame(s, act, newId, outcome);
    }
  }

  lemma JoinFinishFrame(s: State, act: nat, joined: bool)
    requires At(s, act, Join, AwaitJoin)
    ensures HuddleFrame(s, ApplyJoinFinish(s, act, joined), act)
  {
    hide MayEnter, H.AddParticipant, H.IsParticipant;
  }

  /** Giving up a seat, or going from one await to the next, keeps the rest of the bookkeeping as well. */
  ghost predicate HandlerFrame(s: State, after: State, act: nat) {
    HuddleFrame(s, after, act) && after.authGen == s.authGen && after.usedIds == s.usedIds
  }

  lemma CreateFinishFrame(s: State, act: nat, joined: bool)
    requires At(s, act, Create, AwaitJoin)
    ensures HandlerFrame(s, ApplyCreateFinish(s, act, joined), act)
  {
    hide Rollback;
  }

  lemma HandlerStepFrame(s: State, step: HuddleStep)
    requires HuddleEnabled(s, step) && !step.CreateResume? && !step.JoinFinish?
    ensures HandlerFrame(s, HuddleApply(s, step), step.act)
  {
    hide ApplyCreateResume, ApplyJoinFinish, ApplyCreateFinish, MayEnter, Access;
    if step.CreateFinish? { CreateFinishFrame(s, step.act, step.joined); }
  }

  lemma HuddleStepFrame(s: State, step: HuddleStep)
    requires HuddleEnabled(s, step)
    ensures HuddleFrame(s, HuddleApply(s, step), step.act)
  {
    hide HuddleFrame, ApplyCreateResume, ApplyJoinFinish, ApplyStartJoin, ApplyCreateFinish, ApplyJoinResume,
      ApplyReadAccess;
    match step {
      case CreateResume(act, newId) => CreateResumeFrame(s, act, newId);
      case JoinFinish(act, joined) => JoinFinishFrame(s, act, joined);
      case _ => HandlerStepFrame(s, step);
    }
  }

  // ---- handlers without an await, and timers ----

  ghost predicate SyncFrame(s: State, after: State) {
    && after == s.(rooms := after.rooms, sockets := after.sockets, presence := after.presence)
    && SamePeople(s.sockets, after.sockets)
  }

  lemma SyncStepFrame(s: State, step: SyncStep)
    requires SyncEnabled(s, step)
    ensures SyncFrame(s, SyncApply(s, step))
  {
    hide LeaveOne, H.SetMuted, H.FireTimer, H.IsParticipant, P.GoIdle, P.GoActive;
  }

  // ---- all together ----

  /** Only database steps change the database. */
  lemma OnlyDatabaseSteps(s: State, step: Step)
    requires Enabled(s, step) && !step.Database?
    ensures Apply(s, step).db == s.db
  {
    hide EvictApply, ConnectionApply, SpaceJoinApply, HuddleApply, SyncApply;
    match step {
      case Evicting(e) => EvictStepFrame(s, e);
      case Connecting(c) => ConnectionStepFrame(s, c);
      case SpaceJoining(j) => SpaceJoinStepFrame(s, j);
      case Huddling(h) => HuddleStepFrame(s, h);
      case Sync(y) => SyncStepFrame(s, y);
    }
  }

  /** Outside evictions the records of evictions stay as they are. */
  lemma OtherStepsLeaveEvictions(s: State, step: Step)
    requires Enabled(s, step) && !step.Evicting?
    ensures Apply(s, step).evictions == s.evictions && Apply(s, step).finished == s.finished
  {
    hide DbApply, ConnectionApply, SpaceJoinApply, HuddleApply, SyncApply;
    match step {
      case Database(d) => DbStepFrame(s, d);
      case Connecting(c) => ConnectionStepFrame(s, c);
      case SpaceJoining(j) => SpaceJoinStepFrame(s, j);
      case Huddling(h) => HuddleStepFrame(s, h);
      case Sync(y) => SyncStepFrame(s, y);
    }
  }
}
