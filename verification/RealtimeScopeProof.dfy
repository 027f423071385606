/** Every step keeps: the rooms an eviction has ahead are those of its scope, and so are its targets. */
module RealtimeScopeProof {
  import opened Common
  import opened Realtime
  import opened RealtimeInv
  import opened RealtimeFrames
  import H = HuddleModel
  import A = RealtimeAuthProof

  /** A room of the organization, and of the space if the scope names one. */
  predicate RoomInScope(scope: Scope, rs: H.Rooms, id: string) {
    id in rs.byId ==>
      rs.byId[id].orgId == scope.orgId && (scope.Space() == "" || rs.byId[id].spaceId == scope.Space())
  }

  ghost predicate StaysInScope(s: State, e: Eviction) {
    && (forall id | id in e.todo || e.current == Some(id) :: id in s.usedIds && RoomInScope(e.scope, s.rooms, id))
    && (e.current.Some? && e.scope.User() != "" ==> forall u | u in e.targets :: u == e.scope.User())
  }

  ghost predicate ScopesOk(s: State) {
    forall e | e in s.evictions :: StaysInScope(s, s.evictions[e])
  }

  /** A room keeps its space and organization, and an id once used is never given to another. */
  ghost predicate RoomsStay(s: State, after: State) {
    && s.usedIds <= after.usedIds
    && forall id | id in after.rooms.byId && id in s.usedIds :: SameRoom(s.rooms, after.rooms, id)
  }

  predicate SameRoom(rs: H.Rooms, after: H.Rooms, id: string)
    requires id in after.byId
  {
    id in rs.byId && after.byId[id].spaceId == rs.byId[id].spaceId && after.byId[id].orgId == rs.byId[id].orgId
  }

  lemma StayInScope(s: State, after: State, e: Eviction)
    requires StaysInScope(s, e) && RoomsStay(s, after)
    ensures StaysInScope(after, e)
  {
    forall id | id in e.todo || e.current == Some(id) ensures RoomInScope(e.scope, after.rooms, id) {
      assert RoomInScope(e.scope, s.rooms, id);
      if id in after.rooms.byId { assert SameRoom(s.rooms, after.rooms, id); }
    }
  }

  lemma SameEvictionsKeep(s: State, after: State)
    requires ScopesOk(s) && RoomsStay(s, after) && after.evictions == s.evictions
    ensures ScopesOk(after)
  {
    forall e | e in after.evictions ensures StaysInScope(after, after.evictions[e]) {
      StayInScope(s, after, s.evictions[e]);
    }
  }

  lemma ShrunkStay(s: State, after: State)
    requires Shrinks(s.rooms, after.rooms) && s.usedIds <= after.usedIds
    ensures RoomsStay(s, after)
  {
  }

  // ---- huddle steps ----

  lemma CreatedStay(rs: H.Rooms, after: H.Rooms, newId: string, spaceId: string, orgId: string, p: H.Participant)
    requires A.CreatedFrom(rs, after, newId, spaceId, orgId, p)
    ensures forall id | id in after.byId && id != newId :: SameRoom(rs, after, id)
  {
    hide H.WellFormed;
  }

  lemma CreateResumeStays(s: State, act: nat, newId: string)
    requires RoomsOk(s) && AtAccess(s, act, Create) && newId !in s.usedIds
    ensures RoomsStay(s, ApplyCreateResume(s, act, newId))
  {
    var a := s.activations[act];
    var k := s.sockets[a.sock];
    var p := H.Participant(k.userId, "", false, a.sock);
    var outcome := TryCreate(s.rooms, newId, a.spaceId, k.orgId, p);
    A.CreateEntersFreshRoom(s.rooms, newId, a.spaceId, k.orgId, p);
    hide TryCreate, RoomsOk, A.OthersStand, A.CreatedFrom, H.WellFormed, AfterTry, RoomsStay;
    if outcome.Entered? { CreatedStay(s.rooms, outcome.rooms, newId, a.spaceId, k.orgId, p); }
    AfterTryStays(s, act, newId, outcome);
    EndStays(s, act);
  }

  lemma EndStays(s: State, act: nat)
    ensures RoomsStay(s, End(s, act))
  {
  }

  lemma AfterTryStays(s: State, act: nat, newId: string, outcome: CreateOutcome)
    requires act in s.activations && s.activations[act].sock in s.sockets && newId !in s.usedIds
    requires outcome.Refused? || outcome.Entered?
    requires outcome.Entered? ==> forall id | id in outcome.rooms.byId && id != newId ::
      SameRoom(s.rooms, outcome.rooms, id)
    ensures RoomsStay(s, AfterTry(s, act, newId, outcome))
  {
  }

  lemma JoinFinishStays(s: State, act: nat, joined: bool)
    requires At(s, act, Join, AwaitJoin)
    ensures RoomsStay(s, ApplyJoinFinish(s, act, joined)) || RoomsGrow(s.rooms, ApplyJoinFinish(s, act, joined).rooms)
    ensures ApplyJoinFinish(s, act, joined).usedIds == s.usedIds
  {
    var a := s.activations[act];
    H.AddSeats(s.rooms, a.roomId, H.Participant(s.sockets[a.sock].userId, "", false, a.sock));
    hide H.AddParticipant, H.IsParticipant, MayEnter;
  }

  ghost predicate RoomsGrow(rs: H.Rooms, after: H.Rooms) {
    H.SameRooms(rs, after)
  }

  lemma HuddleStepStays(s: State, step: HuddleStep)
    requires RoomsOk(s) && HuddleEnabled(s, step)
    ensures RoomsStay(s, HuddleApply(s, step))
  {
    if step.CreateResume? {
      CreateResumeStays(s, step.act, step.newId);
    } else if step.JoinFinish? {
      JoinFinishStays(s, step.act, step.joined);
      hide ApplyJoinFinish;
    } else {
      A.HuddleStepShrinks(s, step);
      HandlerStepFrame(s, step);
      hide HuddleApply, Shrinks;
      ShrunkStay(s, HuddleApply(s, step));
    }
  }

  // ---- eviction steps ----

  lemma EvictStepStays(s: State, step: EvictStep)
    requires RoomsOk(s) && EvictEnabled(s, step)
    ensures RoomsStay(s, EvictApply(s, step))
  {
    EvictStepFrame(s, step);
    EvictStepShrinks(s, step);
    hide EvictApply, Shrinks;
    ShrunkStay(s, EvictApply(s, step));
  }

  lemma EvictStepShrinks(s: State, step: EvictStep)
    requires RoomsOk(s) && EvictEnabled(s, step)
    ensures Shrinks(s.rooms, EvictApply(s, step).rooms)
  {
    A.ShrinksSelf(s.rooms);
    match step {
      case EvictTarget(ev) => A.EvictTargetShrinks(s, ev);
      case EvictRoomEnd(ev) => DestroyShrinks(s.rooms, s.evictions[ev].current.value);
      case EvictDisconnect(ev, sock) => if Live(s, sock) { A.DropShrinks(s, sock); }
      case _ =>
    }
  }

  /** Past its start, and within a room, an eviction only takes from its lists. */
  predicate OnlyTakes(e: Eviction, next: Eviction) {
    && next.scope == e.scope && next.todo == e.todo && (next.current.Some? ==> next.current == e.current)
    && forall u | u in next.targets :: u in e.targets
  }

  lemma TargetTaken(s: State, ev: nat)
    requires EvictEnabled(s, EvictTarget(ev))
    ensures OnlyTakes(s.evictions[ev], ApplyEvictTarget(s, ev).evictions[ev])
  {
    hide H.RemoveParticipant, H.ParticipantSocketId;
  }

  lemma OthersTake(s: State, step: EvictStep)
    requires EvictEnabled(s, step) && step.ev in EvictApply(s, step).evictions
    requires step.EvictRoomEnd? || step.EvictClose? || step.EvictDisconnect? || step.EvictReturn?
    ensures OnlyTakes(s.evictions[step.ev], EvictApply(s, step).evictions[step.ev])
  {
    hide ApplyEvictStart, ApplyEvictRoom, ApplyEvictTarget, H.DestroyRoom, ParticipantIds, DropRooms, DropPresence,
      SocketsAfterClose, SocketsToDisconnect;
  }

  lemma TakingStays(s: State, e: Eviction, next: Eviction)
    requires StaysInScope(s, e) && OnlyTakes(e, next)
    ensures StaysInScope(s, next)
  {
  }

  /** The eviction that moves stays in its scope itself. */
  lemma MovesInScope(s: State, step: EvictStep)
    requires RoomsOk(s) && ScopesOk(s) && EvictEnabled(s, step) && step.ev in EvictApply(s, step).evictions
    ensures StaysInScope(s, EvictApply(s, step).evictions[step.ev])
  {
    hide StaysInScope, OnlyTakes, RoomsOk;
    match step {
      case EvictStart(ev, rev) => StartsInScope(s, rev, ev);
      case EvictRoom(ev, listed) => EntersInScope(s, ev, listed);
      case EvictTarget(ev) =>
        TargetTaken(s, ev);
        TakingStays(s, s.evictions[ev], ApplyEvictTarget(s, ev).evictions[ev]);
      case _ =>
        OthersTake(s, step);
        TakingStays(s, s.evictions[step.ev], EvictApply(s, step).evictions[step.ev]);
    }
  }

  lemma StartsInScope(s: State, rev: nat, ev: nat)
    requires RoomsOk(s) && rev in s.pending
    ensures StaysInScope(s, ApplyEvictStart(s, rev, ev).evictions[ev])
  {
    var scope := s.pending[rev];
    H.RoomsForScopeMean(s.rooms, scope.orgId, scope.Space(), scope.User());
    hide H.RoomIdsForScope;
  }

  lemma EntersInScope(s: State, ev: nat, listed: seq<string>)
    requires ev in s.evictions && s.evictions[ev].todo != [] && s.evictions[ev].current.None?
    requires StaysInScope(s, s.evictions[ev])
    ensures StaysInScope(s, ApplyEvictRoom(s, ev, listed).evictions[ev])
  {
  }

  lemma EvictStepKeeps(s: State, step: EvictStep)
    requires RoomsOk(s) && EvictionsOk(s) && ScopesOk(s) && EvictEnabled(s, step)
    ensures ScopesOk(EvictApply(s, step))
  {
    var after := EvictApply(s, step);
    EvictStepFrame(s, step);
    EvictStepStays(s, step);
    if step.ev in after.evictions { MovesInScope(s, step); }
    hide EvictApply, StaysInScope, RoomsStay;
    forall e | e in after.evictions ensures StaysInScope(after, after.evictions[e]) {
      StayInScope(s, after, after.evictions[e]);
    }
  }

  // ---- every step ----

  lemma OtherStepsStay(s: State, step: Step)
    requires RoomsOk(s) && Enabled(s, step) && !step.Evicting?
    ensures RoomsStay(s, Apply(s, step))
  {
    hide DbApply, ConnectionApply, SpaceJoinApply, HuddleApply, SyncApply, Shrinks, RoomsStay;
    var after := Apply(s, step);
    A.ShrinksSelf(s.rooms);
    match step {
      case Database(d) => DbStepFrame(s, d); ShrunkStay(s, after);
      case Connecting(c) => ConnectionStepFrame(s, c); A.ConnectionStepShrinks(s, c); ShrunkStay(s, after);
      case SpaceJoining(j) => SpaceJoinStepFrame(s, j); ShrunkStay(s, after);
      case Huddling(h) => HuddleStepStays(s, h);
      case Sync(y) => SyncStepFrame(s, y); A.SyncStepShrinks(s, y); ShrunkStay(s, after);
    }
  }

  lemma StepKeepsScopes(s: State, step: Step)
    requires RoomsOk(s) && EvictionsOk(s) && ScopesOk(s) && Enabled(s, step)
    ensures ScopesOk(Apply(s, step))
  {
    if step.Evicting? {
      EvictStepKeeps(s, step.e);
    } else {
      OtherStepsStay(s, step);
      OtherStepsLeaveEvictions(s, step);
      hide Apply, Enabled;
      SameEvictionsKeep(s, Apply(s, step));
    }
  }

  /** Whoever the next target is, if seated, the scope covers. */
  predicate NextIsCovered(s: State, ev: nat)
    requires EvictEnabled(s, EvictTarget(ev))
  {
    var e := s.evictions[ev];
    var (id, u) := (e.current.value, e.targets[0]);
    In(s.rooms, id, u) ==> e.scope.Covers(s.rooms.byId[id].orgId, s.rooms.byId[id].spaceId, u)
  }

  lemma TargetIsCovered(s: State, ev: nat)
    requires ScopesOk(s) && EvictEnabled(s, EvictTarget(ev))
    ensures NextIsCovered(s, ev)
  {
    var e := s.evictions[ev];
    assert StaysInScope(s, e);
    assert RoomInScope(e.scope, s.rooms, e.current.value);
    assert e.targets[0] in e.targets;
  }
}
