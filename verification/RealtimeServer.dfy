/**
 * `evictActiveHuddleParticipants`, `revokeRealtimeAccess` and the
 * `huddle:create` and `huddle:join` handlers of apps/api/src/socket.ts as
 * imperative code over the server's state.  At every `await` any steps of other
 * handlers, evictions, timers and sockets may run; whatever they are, what the
 * server does is a run of `Realtime`.
 */
module RealtimeServer {
  import opened Common
  import opened Realtime
  import opened RealtimeInv
  import opened RealtimeFrames
  import H = HuddleModel
  import A = RealtimeAuthProof
  import S = RealtimeSocketProof
  import T = RealtimeTheorems
  import opened RealtimeSteps

  lemma RunSnoc(run: seq<State>, step: Step)
    requires IsRun(run) && Enabled(run[|run| - 1], step)
    ensures IsRun(run + [Apply(run[|run| - 1], step)])
  {
    hide Enabled, Apply, Initial;
    var longer := run + [Apply(run[|run| - 1], step)];
    forall i | 0 < i < |longer| ensures FollowsAt(longer, i) {
      if i < |run| { assert FollowsAt(run, i); }
    }
  }

  predicate StepOf(step: Step, ev: nat) { step.Evicting? && step.e.ev == ev }

  /** A running eviction's record is changed by its own steps only. */
  lemma OthersLeaveIt(s: State, step: Step, ev: nat)
    requires Enabled(s, step) && ev in s.evictions && !StepOf(step, ev)
    ensures ev in Apply(s, step).evictions && Apply(s, step).evictions[ev] == s.evictions[ev]
  {
    hide EvictApply;
    match step {
      case Evicting(e) => EvictStepFrame(s, e);
      case _ => OtherStepsLeaveEvictions(s, step);
    }
  }

  lemma MayEnterIs(run: seq<State>, s: State, a: Activation, userId: string, orgId: string)
    requires IsRun(run) && run[|run| - 1] == s
    requires a.sock in s.sockets && s.sockets[a.sock].userId == userId && s.sockets[a.sock].orgId == orgId
    ensures MayEnter(s, a, s.sockets[a.sock]) <==> CanEnter(s.rooms, a.roomId, userId, orgId, a.sock)
    ensures CanEnter(s.rooms, a.roomId, userId, orgId, a.sock) ==>
      || H.IsParticipant(s.rooms, a.roomId, userId, a.sock)
      || H.AddParticipant(s.rooms, a.roomId, H.Participant(userId, "", false, a.sock)).1
  {
    LastRooms(run);
    EnteringMeans(s, a);
    hide IsRun, RoomsOk, MayEnter, CanEnter, H.IsParticipant, H.AddParticipant;
  }

  /** The user sits in some room of the organization, or the space has a room with somebody in it. */
  ghost predicate Busy(rooms: H.Rooms, spaceId: string, orgId: string, userId: string) {
    exists x :: x in rooms.byId && rooms.byId[x].orgId == orgId
      && (In(rooms, x, userId) || (rooms.byId[x].spaceId == spaceId && rooms.byId[x].participants != map[]))
  }

  /** A new room is entered, by nobody but the creator and with nobody leaving, exactly if nothing stands against it. */
  lemma CreateEnters(run: seq<State>, s: State, newId: string, spaceId: string, orgId: string, p: H.Participant)
    requires IsRun(run) && run[|run| - 1] == s && newId !in s.usedIds
    ensures
      var outcome := TryCreate(s.rooms, newId, spaceId, orgId, p);
      && (outcome.Entered? <==> !Busy(s.rooms, spaceId, orgId, p.userId))
      && (outcome.Entered? || outcome.Refused?)
      && (outcome.Entered? ==> A.OthersStand(s.rooms, outcome.rooms, newId, spaceId, orgId, p))
  {
    LastRooms(run);
    A.CreateEntersFreshRoom(s.rooms, newId, spaceId, orgId, p);
  }

  /** What `huddle:join` asks of the rooms and of the database. */
  ghost predicate JoinMayEnter(s: State, sock: string, roomId: string)
    requires sock in s.sockets
  {
    var k := s.sockets[sock];
    && CanEnter(s.rooms, roomId, k.userId, k.orgId, sock)
    && Access(s.db, s.rooms.byId[roomId].spaceId, k.userId, k.orgId)
  }

  predicate StepOfHandler(step: Step, act: nat) {
    (step.Huddling? && step.h.act == act) || (step.SpaceJoining? && step.j.act == act)
  }

  /** A suspended handler, and the user its socket belongs to. */
  ghost predicate Suspended(s: State, act: nat, a: Activation, userId: string, orgId: string) {
    && act in s.activations && s.activations[act] == a
    && a.sock in s.sockets && s.sockets[a.sock].userId == userId && s.sockets[a.sock].orgId == orgId
  }

  /** A suspended handler is moved by its own steps only. */
  lemma OthersLeaveHandler(s: State, step: Step, act: nat, a: Activation, userId: string, orgId: string)
    requires Enabled(s, step) && Suspended(s, act, a, userId, orgId) && !StepOfHandler(step, act)
    ensures Suspended(Apply(s, step), act, a, userId, orgId)
  {
    hide DbApply, EvictApply, ConnectionApply, SpaceJoinApply, HuddleApply, SyncApply;
    match step {
      case Database(d) => DbStepFrame(s, d);
      case Evicting(e) => EvictStepFrame(s, e);
      case Connecting(c) =>
        ConnectionStepFrame(s, c);
        A.ConnectionStepSockets(s, c);
      case SpaceJoining(j) => SpaceJoinStepFrame(s, j);
      case Huddling(h) => HuddleStepFrame(s, h);
      case Sync(y) => SyncStepFrame(s, y);
    }
  }

  // ---- what an eviction does, and how often it did it ----

  /** This step of eviction `ev` takes a seated target out. */
  predicate Takes(s: State, after: State, ev: nat) {
    && ev in s.evictions && ev in after.evictions && s.evictions[ev].current.Some? && s.evictions[ev].targets != []
    && after.evictions[ev].targets == s.evictions[ev].targets[1..]
    && In(s.rooms, s.evictions[ev].current.value, s.evictions[ev].targets[0])
  }

  /** How many targets eviction `ev` has taken out of their seats from step `from` of the run on. */
  ghost function Removals(run: seq<State>, from: nat, ev: nat): nat {
    if |run| <= from || |run| < 2 then 0
    else Removals(run[..|run| - 1], from, ev) + if Takes(run[|run| - 2], run[|run| - 1], ev) then 1 else 0
  }

  lemma RemovalsSnoc(run: seq<State>, s: State, from: nat, ev: nat)
    requires run != [] && from <= |run|
    ensures Removals(run + [s], from, ev) == Removals(run, from, ev) + if Takes(run[|run| - 1], s, ev) then 1 else 0
  {
    assert (run + [s])[..|run|] == run;
  }

  /** Exactly this participant is gone. */
  ghost predicate OnlyRemoved(before: H.Rooms, after: H.Rooms, roomId: string, userId: string) {
    && after.byId.Keys == before.byId.Keys
    && forall id, u :: In(after, id, u) <==> In(before, id, u) && !(id == roomId && u == userId)
  }

  /** A seated participant has a socket, so the eviction does take it out. */
  lemma TargetRemoved(s: State, roomId: string, userId: string)
    requires RoomsOk(s)
    ensures
      var sock := H.ParticipantSocketId(s.rooms, roomId, userId);
      if In(s.rooms, roomId, userId) then
        && sock.Some? && sock.value != ""
        && var (left, removal) := H.RemoveParticipant(s.rooms, roomId, userId, sock.value);
        removal.removed && OnlyRemoved(s.rooms, left, roomId, userId)
      else sock.None? && OnlyRemoved(s.rooms, s.rooms, roomId, userId)
  {
    if In(s.rooms, roomId, userId) {
      assert SeatOk(s.sockets, s.rooms.byId[roomId].orgId, userId, s.rooms.byId[roomId].participants[userId].socketId);
    }
  }

  lemma LastRooms(run: seq<State>)
    requires IsRun(run)
    ensures RoomsOk(run[|run| - 1])
  {
    T.RunInv(run, |run| - 1);
  }

  /** The target of the next step is out after it, and nobody else; it counts if the target was seated. */
  lemma TargetStep(run: seq<State>, s: State, ev: nat)
    requires IsRun(run) && run[|run| - 1] == s && EvictEnabled(s, EvictTarget(ev))
    ensures
      var e := s.evictions[ev];
      var (roomId, userId) := (e.current.value, e.targets[0]);
      var sock := H.ParticipantSocketId(s.rooms, roomId, userId);
      var after := ApplyEvictTarget(s, ev);
      && OnlyRemoved(s.rooms, after.rooms, roomId, userId)
      && (Takes(s, after, ev) <==> In(s.rooms, roomId, userId))
      && (In(s.rooms, roomId, userId) <==> sock.Some? && sock.value != ""
                                           && H.RemoveParticipant(s.rooms, roomId, userId, sock.value).1.removed)
  {
    LastRooms(run);
    hide IsRun, RoomsOk, In, OnlyRemoved, H.RemoveParticipant, H.ParticipantSocketId;
    TargetRemoved(s, s.evictions[ev].current.value, s.evictions[ev].targets[0]);
  }

  /** The user was out of the room at some moment of the run from step `from` on. */
  ghost predicate OutAtSomePoint(run: seq<State>, from: nat, roomId: string, userId: string) {
    exists m :: from <= m < |run| && !In(run[m].rooms, roomId, userId)
  }

  /** Every socket in `selector` has left the space's room and no other; the rest is as it was. */
  ghost predicate LeftSpace(before: map<string, Socket>, after: map<string, Socket>, selector: SocketRoom,
                            space: string) {
    && after.Keys == before.Keys
    && (forall k | k in before :: after[k] == before[k].(rooms := after[k].rooms))
    && (forall k, room | k in before :: room in after[k].rooms <==>
          room in before[k].rooms && !(selector in before[k].rooms && room == SpaceRoom(space)))
  }

  /** Every socket in `selector` is gone from everywhere; the others are as they were. */
  ghost predicate Disconnected(before: map<string, Socket>, after: map<string, Socket>, selector: SocketRoom) {
    && after.Keys == before.Keys
    && (forall k | k in before && selector in before[k].rooms :: after[k] == before[k].(phase := Gone, rooms := {}))
    && (forall k | k in before && selector !in before[k].rooms :: after[k] == before[k])
  }

  /** What `revokeRealtimeAccess` does for each reason. */
  ghost predicate Revoked(scope: Scope, before: map<string, Socket>, after: map<string, Socket>) {
    match scope
    case SpaceMembership(org, space, user) => LeftSpace(before, after, OrgUserRoom(org, user), space)
    case SpaceArchived(_, space) => LeftSpace(before, after, SpaceRoom(space), space)
    case OrgMembership(org, user) => Disconnected(before, after, OrgUserRoom(org, user))
    case OrgRole(org, user) => Disconnected(before, after, OrgUserRoom(org, user))
  }

  /** No socket the scope covers is in a room it covers. */
  ghost predicate NobodyCovered(scope: Scope, sockets: map<string, Socket>) {
    forall k, room | k in sockets && room in sockets[k].rooms :: !S.RoomCovered(scope, sockets[k], room)
  }

  /** A socket in any room is in its own organization-user room, so the selection misses nobody. */
  lemma RevokedReachesAll(s: State, scope: Scope, after: map<string, Socket>)
    requires S.Shapes(s) && Revoked(scope, s.sockets, after)
    ensures NobodyCovered(scope, after)
  {
    forall k, room | k in after && room in after[k].rooms ensures !S.RoomCovered(scope, after[k], room) {
      assert S.Shape(s.sockets[k], s.gen);
      assert room in s.sockets[k].rooms;
      assert OrgUserRoom(s.sockets[k].orgId, s.sockets[k].userId) in s.sockets[k].rooms;
    }
  }

  lemma NoRemovals(run: seq<State>, s: State, ev: nat)
    requires run != [] && ev !in run[|run| - 1].evictions
    ensures Removals(run + [s], |run|, ev) == 0
  {
    RemovalsSnoc(run, s, |run|, ev);
  }

  /** The sockets listed are live, and once they are gone the scope is dealt with. */
  lemma CloseThenDisconnect(s: State, scope: Scope, after: map<string, Socket>)
    requires S.Shapes(s) && after.Keys == s.sockets.Keys
    requires var closing := SocketsToDisconnect(s.sockets, scope);
      && (forall k | k in closing :: after[k] == SocketsAfterClose(s.sockets, scope)[k].(phase := Gone, rooms := {}))
      && (forall k | k in after && k !in closing :: after[k] == SocketsAfterClose(s.sockets, scope)[k])
    ensures Revoked(scope, s.sockets, after)
  {
    CloseRevokes(s.sockets, scope);
    if scope.SpaceMembership? || scope.SpaceArchived? { assert after == SocketsAfterClose(s.sockets, scope); }
  }

  lemma ListedAreLive(s: State, scope: Scope, k: string)
    requires S.Shapes(s) && k in SocketsToDisconnect(s.sockets, scope)
    ensures k in SocketsAfterClose(s.sockets, scope) && !SocketsAfterClose(s.sockets, scope)[k].phase.Gone?
  {
    assert S.Shape(s.sockets[k], s.gen);
  }

  lemma CloseRevokes(sockets: map<string, Socket>, scope: Scope)
    ensures SocketsToDisconnect(sockets, scope) == {} || scope.OrgMembership? || scope.OrgRole?
    ensures scope.SpaceMembership? || scope.SpaceArchived? ==>
      Revoked(scope, sockets, SocketsAfterClose(sockets, scope))
  {
  }

  lemma LastSocket(run: seq<State>, sock: string)
    requires IsRun(run) && sock in run[|run| - 1].sockets
    ensures sock != ""
  {
    LastRooms(run);
  }

  lemma JoinFinishIs(s: State, act: nat, joined: bool, a: Activation, userId: string, orgId: string)
    requires Suspended(s, act, a, userId, orgId) && a.kind.Join? && a.pc.AwaitJoin?
    ensures HuddleEnabled(s, JoinFinish(act, joined))
    ensures
      var (entered, added) := H.AddParticipant(s.rooms, a.roomId, H.Participant(userId, "", false, a.sock));
      HuddleApply(s, JoinFinish(act, joined)) ==
        if !joined || a.gen != s.gen || !MayEnter(s, a, s.sockets[a.sock])
           || H.IsParticipant(s.rooms, a.roomId, userId, a.sock) || !added
        then End(s, act)
        else End(s, act).(rooms := entered, authGen := s.authGen[(a.roomId, userId) := a.gen])
  {
    hide H.AddParticipant, H.IsParticipant, MayEnter;
  }

  lemma StartJoinIs(s: State, act: nat, sock: string, roomId: string)
    requires act !in s.activations && IsReady(s, sock)
    ensures HuddleEnabled(s, StartJoin(act, sock, roomId))
    ensures roomId in s.rooms.byId && s.rooms.byId[roomId].orgId == s.sockets[sock].orgId ==>
      HuddleApply(s, StartJoin(act, sock, roomId)) == s.(activations :=
        s.activations[act := Activation(Join, sock, s.rooms.byId[roomId].spaceId, roomId, s.gen, AwaitAccess)])
  {
  }

  lemma AfterTryIs(s: State, act: nat, newId: string, outcome: CreateOutcome, a: Activation, userId: string,
                   orgId: string)
    requires Suspended(s, act, a, userId, orgId)
    ensures
      var after := AfterTry(s, act, newId, outcome);
      && after.gen == s.gen
      && (if outcome.Entered? then
            Suspended(after, act, a.(roomId := newId, pc := AwaitJoin), userId, orgId) && after.rooms == outcome.rooms
          else act !in after.activations)
  {
  }

  lemma CreateResumeIs(s: State, act: nat, newId: string, a: Activation, userId: string, orgId: string)
    requires Suspended(s, act, a, userId, orgId) && a.kind.Create? && a.pc.GotAccess? && newId !in s.usedIds
    ensures HuddleEnabled(s, CreateResume(act, newId))
    ensures HuddleApply(s, CreateResume(act, newId)) ==
      if a.gen != s.gen || !a.pc.granted then End(s, act)
      else AfterTry(s, act, newId,
                    TryCreate(s.rooms, newId, a.spaceId, orgId, H.Participant(userId, "", false, a.sock)))
  {
    hide TryCreate, AfterTry;
  }

  class Server {
    var state: State
    ghost var run: seq<State>

    /** The server as it starts, over the database as it is. */
    constructor (start: State)
      requires Initial(start)
      ensures Synced() && state == start
    {
      state, run := start, [start];
    }

    /** Everything the server has done so far is a run. */
    ghost predicate Synced()
      reads this
    {
      run != [] && IsRun(run) && run[|run| - 1] == state
    }

    /** This eviction's local variables, as the run records them. */
    ghost predicate Doing(ev: nat, e: Eviction)
      reads this
    {
      Synced() && ev in state.evictions && state.evictions[ev] == e
    }

    ghost method Took(step: Step)
      requires IsRun(run) && Enabled(run[|run| - 1], step) && state == Apply(run[|run| - 1], step)
      modifies this`run
      ensures Synced() && run == old(run) + [state]
    {
      RunSnoc(run, step);
      hide *;
      run := run + [state];
    }

    ghost method TookHuddle(step: HuddleStep)
      requires run != [] && IsRun(run) && HuddleEnabled(run[|run| - 1], step)
      requires state == HuddleApply(run[|run| - 1], step)
      modifies this`run
      ensures Synced() && run == old(run) + [state]
    {
      hide IsRun, HuddleEnabled, HuddleApply;
      Took(Huddling(step));
    }

    /** A step of eviction `ev`, and whether it took anybody out. */
    ghost method TookEvict(step: EvictStep, ev: nat, from: nat)
      requires run != [] && IsRun(run) && from <= |run| && EvictEnabled(run[|run| - 1], step)
      requires state == EvictApply(run[|run| - 1], step)
      modifies this`run
      ensures Synced() && run == old(run) + [state]
      ensures Removals(run, from, ev) ==
        Removals(old(run), from, ev) + if Takes(old(run)[|old(run)| - 1], state, ev) then 1 else 0
    {
      RemovalsSnoc(run, state, from, ev);
      hide IsRun, Removals, EvictEnabled, EvictApply, Takes;
      Took(Evicting(step));
    }

    /** Others run while this eviction waits; a step that cannot be taken is skipped. */
    method Await(ev: nat, others: seq<Step>, ghost from: nat)
      requires Synced() && ev in state.evictions && from <= |run|
      modifies this
      ensures Doing(ev, old(state.evictions[ev])) && old(run) <= run
      ensures Removals(run, from, ev) == Removals(old(run), from, ev)
    {
      hide Enabled, Apply, IsRun, Removals;
      for i := 0 to |others|
        invariant Doing(ev, old(state.evictions[ev])) && old(run) <= run
        invariant Removals(run, from, ev) == Removals(old(run), from, ev)
      {
        if !StepOf(others[i], ev) && Enabled(state, others[i]) {
          OthersLeaveIt(state, others[i], ev);
          ghost var before := run;
          state := Apply(state, others[i]);
          Took(others[i]);
          RemovalsSnoc(before, state, from, ev);
        }
      }
    }

    /** The participant list, in the order it happens to be in. */
    method ParticipantList(roomId: string) returns (listed: seq<string>)
      ensures (set u | u in listed) == ParticipantIds(state.rooms, roomId)
    {
      listed := [];
      var left := ParticipantIds(state.rooms, roomId);
      while left != {}
        invariant left <= ParticipantIds(state.rooms, roomId)
        invariant forall u :: u in listed <==> u in ParticipantIds(state.rooms, roomId) - left
        decreases left
      {
        var u :| u in left;
        listed, left := listed + [u], left - {u};
      }
    }

    /** One target: removed, if still there, under whatever socket it now has; then `await leave(...)`. */
    method EvictTarget(ev: nat, roomId: string, targets: seq<string>, ghost e: Eviction, others: seq<Step>,
                       ghost from: nat)
      returns (evicted: bool)
      requires targets != [] && e.current == Some(roomId) && e.targets == targets && Doing(ev, e) && from <= |run|
      modifies this
      ensures Doing(ev, e.(targets := targets[1..])) && old(run) < run
      ensures OnlyRemoved(old(state).rooms, run[|old(run)|].rooms, roomId, targets[0])
      ensures evicted <==> In(old(state).rooms, roomId, targets[0])
      ensures Removals(run, from, ev) == Removals(old(run), from, ev) + if evicted then 1 else 0
    {
      hide IsRun, Removals, OnlyRemoved, In, Takes, Enabled, Apply;
      evicted := TakeOut(ev, roomId, targets, e, from);
      Await(ev, others, from);
    }

    method TakeOut(ev: nat, roomId: string, targets: seq<string>, ghost e: Eviction, ghost from: nat)
      returns (evicted: bool)
      requires targets != [] && e.current == Some(roomId) && e.targets == targets && Doing(ev, e) && from <= |run|
      modifies this
      ensures Doing(ev, e.(targets := targets[1..])) && run == old(run) + [state]
      ensures OnlyRemoved(old(state).rooms, state.rooms, roomId, targets[0])
      ensures evicted <==> In(old(state).rooms, roomId, targets[0])
      ensures Removals(run, from, ev) == Removals(old(run), from, ev) + if evicted then 1 else 0
    {
      TargetStep(run, state, ev);
      hide IsRun, Removals, OnlyRemoved, In, Takes, Enabled, Apply, H.RemoveParticipant, H.ParticipantSocketId,
        ParticipantIds, ApplyEvictStart, ApplyEvictRoom, ApplyEvictRoomEnd, ApplyEvictClose, ApplyEvictDisconnect,
        ApplyEvictReturn;
      var rooms := state.rooms;
      var socketId := H.ParticipantSocketId(rooms, roomId, targets[0]);
      evicted := false;
      if socketId.Some? && socketId.value != "" {
        var (left, removal) := H.RemoveParticipant(rooms, roomId, targets[0], socketId.value);
        rooms, evicted := left, removal.removed;
      }
      state := state.(rooms := rooms,
                      evictions := state.evictions[ev := state.evictions[ev].(targets := targets[1..])]);
      TookEvict(EvictStep.EvictTarget(ev), ev, from);
    }

    /** The body of the loop over rooms: everybody listed is taken out, and a room left empty destroyed. */
    method EvictFromRoom(ev: nat, roomIds: seq<string>, ghost e: Eviction, others: nat -> seq<Step>, ghost from: nat)
      returns (evicted: nat)
      requires roomIds != [] && e.todo == roomIds && e.current.None? && Doing(ev, e) && from <= |run|
      modifies this
      ensures exists targets :: Doing(ev, e.(todo := roomIds[1..], targets := targets)) && old(run) < run
      ensures forall u | In(old(state).rooms, roomIds[0], u) && (e.scope.User() == "" || e.scope.User() == u) ::
        OutAtSomePoint(run, |old(run)|, roomIds[0], u)
      ensures ParticipantIds(state.rooms, roomIds[0]) != {} || roomIds[0] !in state.rooms.byId
      ensures Removals(run, from, ev) == Removals(old(run), from, ev) + evicted
    {
      hide IsRun, Removals, ParticipantIds;
      evicted := 0;
      var targets := ListTargets(ev, roomIds, e, from);
      if targets.None? {
        assert Doing(ev, e.(todo := roomIds[1..], targets := e.targets));
        return;
      }
      ghost var visiting := e.(todo := roomIds[1..], current := Some(roomIds[0]), targets := targets.value);
      evicted := EvictTargets(ev, roomIds[0], targets.value, visiting, others, from);
      EndRoom(ev, roomIds[0], visiting.(targets := []), from);
      assert Doing(ev, e.(todo := roomIds[1..], targets := []));
    }

    /** Whom to take out of the next room, if it is still there. */
    method ListTargets(ev: nat, roomIds: seq<string>, ghost e: Eviction, ghost from: nat)
      returns (targets: Option<seq<string>>)
      requires roomIds != [] && e.todo == roomIds && e.current.None? && Doing(ev, e) && from <= |run|
      modifies this
      ensures old(run) < run && state.rooms == old(state).rooms
      ensures targets.None? <==> roomIds[0] !in state.rooms.byId
      ensures targets.None? ==> Doing(ev, e.(todo := roomIds[1..]))
      ensures targets.Some? ==>
        Doing(ev, e.(todo := roomIds[1..], current := Some(roomIds[0]), targets := targets.value))
      ensures targets.Some? ==>
        forall u | In(state.rooms, roomIds[0], u) && (e.scope.User() == "" || e.scope.User() == u) ::
        u in targets.value
      ensures Removals(run, from, ev) == Removals(old(run), from, ev)
    {
      hide IsRun, Removals;
      var roomId := roomIds[0];
      var listed := ParticipantList(roomId);
      var user := state.evictions[ev].scope.User();
      targets := if roomId !in state.rooms.byId then None else Some(if user != "" then [user] else listed);
      var record := state.evictions[ev].(todo := roomIds[1..]);
      if targets.Some? { record := record.(current := Some(roomId), targets := targets.value); }
      state := state.(evictions := state.evictions[ev := record]);
      TookEvict(EvictRoom(ev, listed), ev, from);
    }

    /** The loop over the targets in one room. */
    method EvictTargets(ev: nat, roomId: string, targets: seq<string>, ghost e: Eviction, others: nat -> seq<Step>,
                        ghost from: nat)
      returns (evicted: nat)
      requires e.current == Some(roomId) && e.targets == targets && Doing(ev, e) && from <= |run|
      modifies this
      ensures Doing(ev, e.(targets := [])) && old(run) <= run
      ensures forall u | u in targets :: OutAtSomePoint(run, |old(run)|, roomId, u)
      ensures Removals(run, from, ev) == Removals(old(run), from, ev) + evicted
    {
      hide IsRun, Removals;
      evicted := 0;
      for j := 0 to |targets|
        invariant Doing(ev, e.(targets := targets[j..])) && old(run) <= run
        invariant forall n | 0 <= n < j :: OutAtSomePoint(run, |old(run)|, roomId, targets[n])
        invariant Removals(run, from, ev) == Removals(old(run), from, ev) + evicted
      {
        ghost var before := run;
        var taken := EvictTarget(ev, roomId, targets[j..], e.(targets := targets[j..]), others(j), from);
        if taken { evicted := evicted + 1; }
        assert !In(run[|before|].rooms, roomId, targets[j]);
      }
    }

    /** A room left empty is destroyed. */
    method EndRoom(ev: nat, roomId: string, ghost e: Eviction, ghost from: nat)
      requires e.current == Some(roomId) && e.targets == [] && Doing(ev, e) && from <= |run|
      modifies this
      ensures Doing(ev, e.(current := None)) && old(run) < run
      ensures ParticipantIds(state.rooms, roomId) != {} || roomId !in state.rooms.byId
      ensures Removals(run, from, ev) == Removals(old(run), from, ev)
    {
      hide IsRun, Removals;
      state := state.(evictions := state.evictions[ev := state.evictions[ev].(current := None)]);
      if ParticipantIds(state.rooms, roomId) == {} { state := state.(rooms := H.DestroyRoom(state.rooms, roomId)); }
      TookEvict(EvictRoomEnd(ev), ev, from);
    }

    /** `disconnectSockets(true)`: each socket listed drops out, running its `disconnect` handler. */
    method Disconnect(ev: nat, ghost e: Eviction, toClose: set<string>, ghost from: nat)
      requires Doing(ev, e.(closing := true, toDisconnect := toClose)) && from <= |run|
      requires forall k | k in toClose :: Live(state, k)
      modifies this
      ensures Doing(ev, e.(closing := true, toDisconnect := {})) && old(run) <= run
      ensures state.sockets.Keys == old(state).sockets.Keys
      ensures forall k | k in toClose && k in state.sockets ::
        state.sockets[k] == old(state).sockets[k].(phase := Gone, rooms := {})
      ensures forall k | k in state.sockets && k !in toClose :: state.sockets[k] == old(state).sockets[k]
      ensures Removals(run, from, ev) == Removals(old(run), from, ev)
    {
      hide IsRun, DropRooms, DropPresence, Removals;
      var closing := toClose;
      while closing != {}
        invariant closing <= toClose
        invariant Doing(ev, e.(closing := true, toDisconnect := closing)) && old(run) <= run
        invariant Removals(run, from, ev) == Removals(old(run), from, ev)
        invariant state.sockets.Keys == old(state).sockets.Keys
        invariant forall k | k in toClose - closing ::
          state.sockets[k] == old(state).sockets[k].(phase := Gone, rooms := {})
        invariant forall k | k in state.sockets && k !in toClose - closing :: state.sockets[k] == old(state).sockets[k]
        decreases closing
      {
        var sock :| sock in closing;
        closing := closing - {sock};
        state := state.(evictions := state.evictions[ev := state.evictions[ev].(toDisconnect := closing)]);
        if Live(state, sock) { state := Drop(state, sock); }
        TookEvict(EvictDisconnect(ev, sock), ev, from);
      }
    }

    /** `revokeRealtimeAccess`, then return. */
    method Revoke(ev: nat, ghost e: Eviction, ghost from: nat)
      requires e.todo == [] && e.current.None? && !e.closing && Doing(ev, e) && from <= |run|
      modifies this
      ensures Synced() && old(run) < run && ev !in state.evictions && (e.scope, e.gen) in state.finished
      ensures Revoked(e.scope, old(state).sockets, state.sockets) && NobodyCovered(e.scope, state.sockets)
      ensures Removals(run, from, ev) == Removals(old(run), from, ev)
    {
      T.RunInv(run, |run| - 1);
      assert S.Shapes(state);
      hide IsRun, T.Inv, Removals, S.Shapes, Revoked, NobodyCovered, SocketsToDisconnect, SocketsAfterClose, Takes,
        Enabled, Apply, EvictEnabled, EvictApply;
      var closing := Close(ev, e, from);
      forall k | k in closing ensures Live(state, k) { ListedAreLive(old(state), e.scope, k); }
      Disconnect(ev, e, closing, from);
      CloseThenDisconnect(old(state), e.scope, state.sockets);
      RevokedReachesAll(old(state), e.scope, state.sockets);
      Return(ev, e.(closing := true, toDisconnect := {}), from);
    }

    method Return(ev: nat, ghost e: Eviction, ghost from: nat)
      requires e.closing && e.toDisconnect == {} && Doing(ev, e) && from <= |run|
      modifies this
      ensures Synced() && old(run) < run && ev !in state.evictions && (e.scope, e.gen) in state.finished
      ensures state.sockets == old(state).sockets
      ensures Removals(run, from, ev) == Removals(old(run), from, ev)
    {
      hide IsRun, Removals;
      var scope, gen := state.evictions[ev].scope, state.evictions[ev].gen;
      state := state.(evictions := state.evictions - {ev}, finished := state.finished + {(scope, gen)});
      TookEvict(EvictReturn(ev), ev, from);
    }

    /** The sockets leave the space's room, or are listed for disconnection. */
    method Close(ev: nat, ghost e: Eviction, ghost from: nat) returns (closing: set<string>)
      requires e.todo == [] && e.current.None? && !e.closing && Doing(ev, e) && from <= |run|
      modifies this
      ensures closing == SocketsToDisconnect(old(state).sockets, e.scope)
      ensures Doing(ev, e.(closing := true, toDisconnect := closing)) && old(run) < run
      ensures state.sockets == SocketsAfterClose(old(state).sockets, e.scope)
      ensures Removals(run, from, ev) == Removals(old(run), from, ev)
    {
      hide IsRun, SocketsToDisconnect, SocketsAfterClose, Removals;
      var record := state.evictions[ev];
      closing := SocketsToDisconnect(state.sockets, record.scope);
      state := state.(sockets := SocketsAfterClose(state.sockets, record.scope),
                      evictions := state.evictions[ev := record.(closing := true, toDisconnect := closing)]);
      TookEvict(EvictClose(ev), ev, from);
    }

    /**
     * The whole eviction.  Whatever runs at its awaits, it ends and returns how
     * many participants it took out; then nobody its scope covers holds an
     * authorization older than the generation it began, and no socket it covers
     * is in a room it covers.
     */
    method EvictActiveHuddleParticipants(rev: nat, ev: nat, others: (nat, nat) -> seq<Step>)
      returns (evicted: nat)
      requires Synced() && rev in state.pending && ev !in state.evictions
      modifies this
      ensures Synced() && old(run) < run && ev !in state.evictions
      ensures forall id, u | In(state.rooms, id, u)
                && old(state).pending[rev].Covers(state.rooms.byId[id].orgId, state.rooms.byId[id].spaceId, u) ::
        (id, u) in state.authGen && state.authGen[(id, u)] > old(state.gen)
      ensures NobodyCovered(old(state).pending[rev], state.sockets)
      ensures evicted == Removals(run, |old(run)|, ev)
    {
      hide IsRun, H.RoomIdsForScope, Removals;
      var scope := state.pending[rev];
      var gen := state.gen + 1;
      ghost var from := |run|;
      var roomIds := H.RoomIdsForScope(state.rooms, scope.orgId, scope.Space(), scope.User());
      state := state.(gen := gen, pending := state.pending - {rev},
                      evictions := state.evictions[ev := Eviction(scope, gen, roomIds, None, [], false, {})]);
      Took(Evicting(EvictStart(ev, rev)));
      NoRemovals(old(run), state, ev);
      evicted := EvictRooms(ev, roomIds, Eviction(scope, gen, roomIds, None, [], false, {}), others, from);
      Revoke(ev, state.evictions[ev], from);
      T.RunInv(run, |run| - 1);
      NobodyOlder(state, scope, gen);
    }

    /** The loop over the rooms of the scope. */
    method EvictRooms(ev: nat, roomIds: seq<string>, ghost e: Eviction, others: (nat, nat) -> seq<Step>,
                      ghost from: nat)
      returns (evicted: nat)
      requires e.todo == roomIds && e.current.None? && Doing(ev, e) && from <= |run|
      modifies this
      ensures exists targets :: Doing(ev, e.(todo := [], targets := targets)) && old(run) <= run
      ensures Removals(run, from, ev) == Removals(old(run), from, ev) + evicted
    {
      hide IsRun, Removals;
      ghost var targets := e.targets;
      evicted := 0;
      for i := 0 to |roomIds|
        invariant Doing(ev, e.(todo := roomIds[i..], targets := targets)) && old(run) <= run
        invariant Removals(run, from, ev) == Removals(old(run), from, ev) + evicted
      {
        var taken :=
          EvictFromRoom(ev, roomIds[i..], e.(todo := roomIds[i..], targets := targets), (j: nat) => others(i, j), from);
        evicted := evicted + taken;
        targets := state.evictions[ev].targets;
      }
      assert Doing(ev, e.(todo := [], targets := targets));
    }

    // ---- handlers ----

    /** Others run while a handler waits. */
    method AwaitFor(act: nat, ghost a: Activation, ghost userId: string, ghost orgId: string, others: seq<Step>)
      requires Synced() && Suspended(state, act, a, userId, orgId)
      modifies this
      ensures Synced() && old(run) <= run && Suspended(state, act, a, userId, orgId)
      ensures others == [] ==> state == old(state)
    {
      hide Enabled, Apply, IsRun;
      for i := 0 to |others|
        invariant Synced() && old(run) <= run && Suspended(state, act, a, userId, orgId)
        invariant others == [] ==> state == old(state)
      {
        if !StepOfHandler(others[i], act) && Enabled(state, others[i]) {
          OthersLeaveHandler(state, others[i], act, a, userId, orgId);
          state := Apply(state, others[i]);
          Took(others[i]);
        }
      }
    }

    /** `await getSpaceAccess(...)`: the database answers at some moment of the wait, or fails. */
    method AskDatabase(act: nat, a: Activation, userId: string, orgId: string, fails: bool, before: seq<Step>,
                       after: seq<Step>)
      returns (answer: Option<bool>)
      requires Synced() && Suspended(state, act, a, userId, orgId) && a.pc.AwaitAccess?
      modifies this
      ensures Synced() && old(run) <= run
      ensures answer.None? ==> act !in state.activations
      ensures answer.Some? ==> Suspended(state, act, a.(pc := GotAccess(answer.value)), userId, orgId)
      ensures before == [] && after == [] ==>
        && answer == (if fails then None else Some(Access(old(state).db, a.spaceId, userId, orgId)))
        && state.gen == old(state).gen && state.rooms == old(state).rooms && state.usedIds == old(state).usedIds
    {
      hide IsRun, Access;
      AwaitFor(act, a, userId, orgId, before);
      if fails {
        state := End(state, act);
        TookHuddle(AccessThrows(act));
        return None;
      }
      var granted := Access(state.db, a.spaceId, userId, orgId);
      state := Go(state, act, GotAccess(granted));
      TookHuddle(ReadAccess(act));
      AwaitFor(act, a.(pc := GotAccess(granted)), userId, orgId, after);
      return Some(granted);
    }

    /** `huddle:create` from the access check to `await socket.join`; `newId` is the fresh UUID. */
    method TryToCreate(act: nat, a: Activation, userId: string, orgId: string, granted: bool, newId: string)
      returns (entered: bool)
      requires Synced() && Suspended(state, act, a, userId, orgId) && newId !in state.usedIds
      requires a.kind.Create? && a.pc == GotAccess(granted)
      modifies this
      ensures Synced() && old(run) <= run && state.gen == old(state.gen)
      ensures if entered then Suspended(state, act, a.(roomId := newId, pc := AwaitJoin), userId, orgId)
                              && state.gen == a.gen
              else act !in state.activations
      ensures entered <==> a.gen == old(state).gen && granted && !Busy(old(state).rooms, a.spaceId, orgId, userId)
      ensures if entered then A.OthersStand(old(state).rooms, state.rooms, newId, a.spaceId, orgId,
                                            H.Participant(userId, "", false, a.sock))
              else state.rooms == old(state).rooms
    {
      hide IsRun, TryCreate, AfterTry, Busy, A.OthersStand;
      if a.gen != state.gen || !granted {
        CreateResumeIs(state, act, newId, a, userId, orgId);
        hide HuddleEnabled, HuddleApply;
        state := End(state, act);
        TookHuddle(CreateResume(act, newId));
        return false;
      }
      entered := TakeRoom(act, a, userId, orgId, newId);
    }

    /** `huddle:create` from the checked generation to `await socket.join`. */
    method TakeRoom(act: nat, a: Activation, userId: string, orgId: string, newId: string) returns (entered: bool)
      requires Synced() && Suspended(state, act, a, userId, orgId) && newId !in state.usedIds
      requires a.kind.Create? && a.pc == GotAccess(true) && a.gen == state.gen
      modifies this
      ensures Synced() && old(run) <= run && state.gen == old(state.gen)
      ensures if entered then Suspended(state, act, a.(roomId := newId, pc := AwaitJoin), userId, orgId)
              else act !in state.activations
      ensures entered <==> !Busy(old(state).rooms, a.spaceId, orgId, userId)
      ensures if entered then A.OthersStand(old(state).rooms, state.rooms, newId, a.spaceId, orgId,
                                            H.Participant(userId, "", false, a.sock))
              else state.rooms == old(state).rooms
    {
      var me := H.Participant(userId, "", false, a.sock);
      CreateEnters(run, state, newId, a.spaceId, orgId, me);
      CreateResumeIs(state, act, newId, a, userId, orgId);
      hide IsRun, HuddleEnabled, HuddleApply, TryCreate, AfterTry, Busy, A.OthersStand;
      var outcome := Enter(a.spaceId, orgId, newId, me);
      ghost var before := state;
      state := AfterTry(state, act, newId, outcome);
      AfterTryIs(before, act, newId, outcome, a, userId, orgId);
      hide Suspended;
      TookHuddle(CreateResume(act, newId));
      entered := outcome.Entered?;
    }

    /** Replace an empty room of the space, reserve a room and enter it. */
    method Enter(spaceId: string, orgId: string, newId: string, me: H.Participant) returns (outcome: CreateOutcome)
      ensures outcome == TryCreate(state.rooms, newId, spaceId, orgId, me)
      ensures outcome.Entered? ==> H.ParticipantSocketId(outcome.rooms, newId, me.userId) == Some(me.socketId)
    {
      var rooms := state.rooms;
      var room := H.GetRoomBySpace(rooms, spaceId, orgId);
      if H.ConflictingRoomId(rooms, me.userId, orgId, room).Some? { return Refused; }
      if room.Some? {
        if ParticipantIds(rooms, room.value) != {} { return Refused; }
        rooms := H.DestroyRoom(rooms, room.value);
      }
      var (reserved, id, created) := H.ReserveRoom(rooms, newId, spaceId, orgId, me.userId);
      if !created { return LostReservation(reserved); }
      var (entered, added) := H.AddParticipant(reserved, newId, me);
      if !added { return NotAdded(H.DestroyRoom(reserved, newId)); }
      return Entered(entered);
    }

    /**
     * `huddle:create`: it succeeds only if no eviction began between its access
     * check and its return; otherwise its seat is taken back.  Left alone, it
     * succeeds exactly for a user with access, in no other room, where the space
     * has no occupied room.
     */
    method HuddleCreate(act: nat, sock: string, spaceId: string, databaseFails: bool, uuid: set<string> -> string,
                        joinFails: bool, others: nat -> seq<Step>)
      returns (created: bool)
      requires Synced() && act !in state.activations && IsReady(state, sock) && spaceId != ""
      requires forall used: set<string> :: uuid(used) !in used
      modifies this
      ensures Synced() && old(run) <= run && act !in state.activations
      ensures created ==> state.gen == old(state.gen)
      ensures !databaseFails && !joinFails && (forall n :: others(n) == []) ==>
        (created <==> Access(old(state).db, spaceId, old(state).sockets[sock].userId, old(state).sockets[sock].orgId)
                      && !Busy(old(state).rooms, spaceId, old(state).sockets[sock].orgId,
                               old(state).sockets[sock].userId))
      ensures created && (forall n :: others(n) == []) ==>
        A.OthersStand(old(state).rooms, state.rooms, uuid(old(state).usedIds), spaceId, old(state).sockets[sock].orgId,
                      H.Participant(old(state).sockets[sock].userId, "", false, sock))
    {
      hide IsRun, Access, TryCreate, Busy, A.OthersStand, TakenBack, Rollback;
      var userId, orgId := state.sockets[sock].userId, state.sockets[sock].orgId;
      var a := Activation(Create, sock, spaceId, "", state.gen, AwaitAccess);
      state := state.(activations := state.activations[act := a]);
      TookHuddle(StartCreate(act, sock, spaceId));
      var answer := AskDatabase(act, a, userId, orgId, databaseFails, others(0), others(1));
      if answer.None? { return false; }
      var newId := uuid(state.usedIds);
      var entered := TryToCreate(act, a.(pc := GotAccess(answer.value)), userId, orgId, answer.value, newId);
      if !entered { return false; }
      var waiting := a.(roomId := newId, pc := AwaitJoin);
      AwaitFor(act, waiting, userId, orgId, others(2));
      created := FinishCreate(act, waiting, userId, orgId, joinFails);
    }

    /** After `await socket.join`: stay, or take the reservation back. */
    method FinishCreate(act: nat, a: Activation, userId: string, orgId: string, joinFails: bool) returns (created: bool)
      requires Synced() && Suspended(state, act, a, userId, orgId) && a.kind.Create? && a.pc.AwaitJoin?
      modifies this
      ensures Synced() && old(run) <= run && act !in state.activations
      ensures state.gen == old(state.gen) && (created <==> !joinFails && a.gen == state.gen)
      ensures state.rooms == if created then old(state.rooms) else Rollback(old(state.rooms), a.roomId, userId, a.sock)
      ensures !created ==> TakenBack(old(state.rooms), state.rooms, a.roomId, userId, a.sock)
    {
      LastRooms(run);
      RollbackTakesBack(state.rooms, a.roomId, userId, a.sock);
      hide IsRun, Rollback, RoomsOk, TakenBack;
      created := !joinFails && a.gen == state.gen;
      if !created { state := state.(rooms := Rollback(state.rooms, a.roomId, userId, a.sock)); }
      state := End(state, act);
      TookHuddle(CreateFinish(act, !joinFails));
    }

    /**
     * `huddle:join`: it succeeds only if no eviction began since it was called,
     * and then the user is in that room on this socket.  Left alone, it succeeds
     * exactly for a user with access to the room's space, in no other room of the
     * organization, and not in this one on another socket.
     */
    method HuddleJoin(act: nat, sock: string, roomId: string, databaseFails: bool, joinFails: bool,
                      others: nat -> seq<Step>)
      returns (joined: bool)
      requires Synced() && act !in state.activations && IsReady(state, sock)
      modifies this
      ensures Synced() && old(run) <= run && act !in state.activations
      ensures joined ==> state.gen == old(state.gen)
                         && H.IsParticipant(state.rooms, roomId, old(state).sockets[sock].userId, sock)
      ensures joined ==> old(run) < run
      ensures joined ==>
        SeatedOnly(run[|run| - 2].rooms, state.rooms, roomId, old(state).sockets[sock].userId, sock)
      ensures joined && (forall n :: others(n) == []) ==>
        SeatedOnly(old(state).rooms, state.rooms, roomId, old(state).sockets[sock].userId, sock)
      ensures !databaseFails && !joinFails && (forall n :: others(n) == []) ==>
        (joined <==> JoinMayEnter(old(state), sock, roomId))
    {
      StartJoinIs(state, act, sock, roomId);
      hide IsRun, Access, MayEnter, SeatedOnly, H.AddParticipant, H.IsParticipant, HuddleEnabled, HuddleApply;
      var userId, orgId := state.sockets[sock].userId, state.sockets[sock].orgId;
      if roomId !in state.rooms.byId || state.rooms.byId[roomId].orgId != orgId { return false; }
      hide CanEnter;
      var a := Activation(Join, sock, state.rooms.byId[roomId].spaceId, roomId, state.gen, AwaitAccess);
      state := state.(activations := state.activations[act := a]);
      TookHuddle(StartJoin(act, sock, roomId));
      var answer := AskDatabase(act, a, userId, orgId, databaseFails, others(0), others(1));
      if answer.None? { return false; }
      joined := CheckedJoin(act, a.(pc := GotAccess(answer.value)), userId, orgId, answer.value, joinFails, others(2));
    }

    /** `huddle:join` from the access check on. */
    method CheckedJoin(act: nat, a: Activation, userId: string, orgId: string, granted: bool, joinFails: bool,
                       others: seq<Step>)
      returns (joined: bool)
      requires Synced() && Suspended(state, act, a, userId, orgId) && a.kind.Join? && a.pc == GotAccess(granted)
      modifies this
      ensures Synced() && old(run) < run && act !in state.activations
      ensures joined ==> state.gen == a.gen && H.IsParticipant(state.rooms, a.roomId, userId, a.sock)
      ensures joined ==> SeatedOnly(run[|run| - 2].rooms, state.rooms, a.roomId, userId, a.sock)
      ensures joined && others == [] ==> SeatedOnly(old(state).rooms, state.rooms, a.roomId, userId, a.sock)
      ensures others == [] ==>
        (joined <==> !joinFails && granted && a.gen == old(state).gen
                     && CanEnter(old(state).rooms, a.roomId, userId, orgId, a.sock))
    {
      hide IsRun, CanEnter, SeatedOnly, H.AddParticipant, H.IsParticipant;
      joined := CheckJoin(act, a, userId, orgId, granted);
      if joined {
        AwaitFor(act, a.(pc := AwaitJoin), userId, orgId, others);
        joined := FinishJoin(act, a.(pc := AwaitJoin), userId, orgId, joinFails);
      }
    }

    /** `huddle:join` from the access check to `await socket.join`. */
    method CheckJoin(act: nat, a: Activation, userId: string, orgId: string, granted: bool) returns (entering: bool)
      requires Synced() && Suspended(state, act, a, userId, orgId) && a.kind.Join? && a.pc == GotAccess(granted)
      modifies this
      ensures Synced() && old(run) <= run
      ensures if entering then Suspended(state, act, a.(pc := AwaitJoin), userId, orgId) else act !in state.activations
      ensures entering <==>
        a.gen == old(state).gen && granted && CanEnter(old(state).rooms, a.roomId, userId, orgId, a.sock)
      ensures state.rooms == old(state).rooms && state.gen == old(state).gen
    {
      hide IsRun, MayEnter, CanEnter;
      MayEnterIs(run, state, a, userId, orgId);
      if a.gen != state.gen || !granted || !MayEnter(state, a, state.sockets[a.sock]) {
        state := End(state, act);
        TookHuddle(JoinResume(act));
        return false;
      }
      state := Go(state, act, AwaitJoin);
      TookHuddle(JoinResume(act));
      return true;
    }

    /** After `await socket.join`: check again, then enter. */
    method FinishJoin(act: nat, a: Activation, userId: string, orgId: string, joinFails: bool) returns (joined: bool)
      requires Synced() && Suspended(state, act, a, userId, orgId) && a.kind.Join? && a.pc.AwaitJoin?
      modifies this
      ensures Synced() && old(run) <= run && act !in state.activations
      ensures joined ==> state.gen == a.gen && H.IsParticipant(state.rooms, a.roomId, userId, a.sock)
      ensures joined <==>
        !joinFails && a.gen == old(state).gen && CanEnter(old(state).rooms, a.roomId, userId, orgId, a.sock)
      ensures run == old(run) + [state]
      ensures if joined then SeatedOnly(old(state).rooms, state.rooms, a.roomId, userId, a.sock)
              else state.rooms == old(state).rooms
    {
      LastSocket(run, a.sock);
      SeatsOnly(state.rooms, a.roomId, userId, a.sock);
      MayEnterIs(run, state, a, userId, orgId);
      JoinFinishIs(state, act, !joinFails, a, userId, orgId);
      hide IsRun, MayEnter, CanEnter, H.AddParticipant, H.IsParticipant, SeatedOnly, HuddleApply, HuddleEnabled;
      if joinFails || a.gen != state.gen || !MayEnter(state, a, state.sockets[a.sock]) {
        state := End(state, act);
        TookHuddle(JoinFinish(act, !joinFails));
        return false;
      }
      if H.IsParticipant(state.rooms, a.roomId, userId, a.sock) {
        state := End(state, act);
        TookHuddle(JoinFinish(act, !joinFails));
        return true;
      }
      var (entered, added) := H.AddParticipant(state.rooms, a.roomId, H.Participant(userId, "", false, a.sock));
      state := End(state, act);
      if added { state := state.(rooms := entered, authGen := state.authGen[(a.roomId, userId) := a.gen]); }
      TookHuddle(JoinFinish(act, !joinFails));
      return added;
    }
  }

  lemma NobodyOlder(s: State, scope: Scope, gen: nat)
    requires T.Inv(s) && (scope, gen) in s.finished
    ensures forall id, u | In(s.rooms, id, u) && scope.Covers(s.rooms.byId[id].orgId, s.rooms.byId[id].spaceId, u) ::
      (id, u) in s.authGen && s.authGen[(id, u)] >= gen
  {
    forall id, u | In(s.rooms, id, u) && scope.Covers(s.rooms.byId[id].orgId, s.rooms.byId[id].spaceId, u)
      ensures (id, u) in s.authGen && s.authGen[(id, u)] >= gen
    {
      assert CoversSeat((scope, gen).0, s.rooms, id, u);
    }
  }
}
