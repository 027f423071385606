/**
 * Every step keeps: an eviction that has come to its sockets, and even more one
 * that has returned, leaves in the rooms it covers only sockets authorized
 * since it began, besides those whose handler is about to take them out.
 */
module RealtimeSocketCleanProof {
  import opened Common
  import opened Realtime
  import opened RealtimeInv
  import opened RealtimeFrames
  import H = HuddleModel
  import A = RealtimeAuthProof
  import S = RealtimeSocketProof

  /** The socket's authorization for the room is older than generation `gen`. */
  predicate Stale(s: State, sock: string, room: SocketRoom, gen: nat) {
    (sock, room) in s.roomGen ==> s.roomGen[(sock, room)] < gen
  }

  /** The handler that let the socket in has its second check ahead and will fail it. */
  ghost predicate Excused(s: State, sock: string, room: SocketRoom)
    requires sock in s.sockets
  {
    || (s.sockets[sock].phase.InRooms? && s.sockets[sock].phase.gen < s.gen)
    || S.BeingLeft(s, sock, room)
  }

  predicate InRoom(s: State, sock: string, room: SocketRoom) {
    sock in s.sockets && room in s.sockets[sock].rooms
  }

  /** Of the sockets covered, only those still to be disconnected or excused are in on an old authorization. */
  ghost predicate Clean(s: State, scope: Scope, gen: nat, left: set<string>) {
    forall sock, room | InRoom(s, sock, room) :: CleanAt(s, scope, gen, left, sock, room)
  }

  ghost predicate CleanAt(s: State, scope: Scope, gen: nat, left: set<string>, sock: string, room: SocketRoom)
    requires InRoom(s, sock, room)
  {
    S.RoomCovered(scope, s.sockets[sock], room) && Stale(s, sock, room, gen) ==> sock in left || Excused(s, sock, room)
  }

  ghost predicate SocketsClean(s: State) {
    && (forall e | e in s.evictions && s.evictions[e].closing ::
          Clean(s, s.evictions[e].scope, s.evictions[e].gen, s.evictions[e].toDisconnect))
    && (forall f | f in s.finished :: Clean(s, f.0, f.1, {}))
  }

  // ---- steps that let sockets in only on a current authorization, or excused ----

  ghost predicate ArrivesWell(s: State, after: State, sock: string, room: SocketRoom)
    requires InRoom(after, sock, room)
  {
    || Excused(after, sock, room)
    || !Stale(after, sock, room, s.gen)
    || (InRoom(s, sock, room)
        && s.sockets[sock].userId == after.sockets[sock].userId && s.sockets[sock].orgId == after.sockets[sock].orgId
        && (forall gen :: Stale(after, sock, room, gen) ==> Stale(s, sock, room, gen))
        && (Excused(s, sock, room) ==> Excused(after, sock, room)))
  }

  ghost predicate AllArriveWell(s: State, after: State) {
    forall sock, room | InRoom(after, sock, room) :: ArrivesWell(s, after, sock, room)
  }

  lemma CleanStays(s: State, after: State, scope: Scope, gen: nat, left: set<string>)
    requires Clean(s, scope, gen, left) && gen <= s.gen && AllArriveWell(s, after)
    ensures Clean(after, scope, gen, left)
  {
    forall sock, room | InRoom(after, sock, room) ensures CleanAt(after, scope, gen, left, sock, room) {
      assert ArrivesWell(s, after, sock, room);
      if InRoom(s, sock, room) { assert CleanAt(s, scope, gen, left, sock, room); }
    }
  }

  lemma ArrivingKeeps(s: State, after: State)
    requires SocketsClean(s) && EvictionsOk(s) && AllArriveWell(s, after)
    requires after.evictions == s.evictions && after.finished == s.finished
    ensures SocketsClean(after)
  {
    forall e | e in after.evictions && after.evictions[e].closing
      ensures Clean(after, after.evictions[e].scope, after.evictions[e].gen, after.evictions[e].toDisconnect)
    {
      CleanStays(s, after, s.evictions[e].scope, s.evictions[e].gen, s.evictions[e].toDisconnect);
    }
    forall f | f in after.finished ensures Clean(after, f.0, f.1, {}) { CleanStays(s, after, f.0, f.1, {}); }
  }

  /** Nothing about sockets changes, except that the generation may grow. */
  lemma SameSockets(s: State, after: State)
    requires after.sockets == s.sockets && after.roomGen == s.roomGen && s.gen <= after.gen
    requires forall sock, room | S.BeingLeft(s, sock, room) :: S.BeingLeft(after, sock, room)
    ensures AllArriveWell(s, after)
  {
    forall sock, room | InRoom(after, sock, room) ensures ArrivesWell(s, after, sock, room) {
      assert InRoom(s, sock, room);
    }
  }

  lemma LeftStays(s: State, after: State)
    requires s.gen <= after.gen
    requires forall a | a in s.activations && (s.activations[a].pc.InRoom? || s.activations[a].pc.AwaitLeave?) ::
      a in after.activations && after.activations[a] == s.activations[a]
    ensures forall sock, room | S.BeingLeft(s, sock, room) :: S.BeingLeft(after, sock, room)
  {
    forall sock, room | S.BeingLeft(s, sock, room) ensures S.BeingLeft(after, sock, room) {
      var a :| a in s.activations && S.Leaving(s.activations[a], s.gen, sock, room);
      assert S.Leaving(after.activations[a], after.gen, sock, room);
    }
  }

  // ---- eviction steps ----

  /** One eviction moves on; the others are as they were. */
  lemma EvictionKeeps(s: State, after: State, ev: nat)
    requires SocketsClean(s) && EvictionsOk(s) && AllArriveWell(s, after) && after.finished == s.finished
    requires ev in after.evictions && after.evictions == s.evictions[ev := after.evictions[ev]]
    requires after.evictions[ev].closing ==>
      Clean(after, after.evictions[ev].scope, after.evictions[ev].gen, after.evictions[ev].toDisconnect)
    ensures SocketsClean(after)
  {
    forall e | e in after.evictions && after.evictions[e].closing
      ensures Clean(after, after.evictions[e].scope, after.evictions[e].gen, after.evictions[e].toDisconnect)
    {
      if e != ev { CleanStays(s, after, s.evictions[e].scope, s.evictions[e].gen, s.evictions[e].toDisconnect); }
    }
    forall f | f in after.finished ensures Clean(after, f.0, f.1, {}) { CleanStays(s, after, f.0, f.1, {}); }
  }

  /** The final `socketsLeave`, or the listing of who is to be disconnected, reaches every covered socket. */
  lemma CloseKeeps(s: State, ev: nat)
    requires SocketsClean(s) && EvictionsOk(s) && S.Shapes(s) && EvictEnabled(s, EvictClose(ev))
    ensures SocketsClean(ApplyEvictClose(s, ev))
  {
    var after := ApplyEvictClose(s, ev);
    var e := after.evictions[ev];
    LeftStays(s, after);
    forall sock, room | InRoom(after, sock, room)
      ensures ArrivesWell(s, after, sock, room) && CleanAt(after, e.scope, e.gen, e.toDisconnect, sock, room)
    {
      S.CloseSocket(s.sockets, e.scope, sock);
      assert InRoom(s, sock, room) && S.Shape(s.sockets[sock], s.gen);
      if S.RoomCovered(e.scope, s.sockets[sock], room) { S.CloseReaches(s.sockets, e.scope, s.gen, sock, room); }
    }
    EvictionKeeps(s, after, ev);
  }

  lemma DropArrives(s: State, sock: string)
    requires sock in s.sockets
    ensures AllArriveWell(s, Drop(s, sock))
  {
    var after := Drop(s, sock);
    LeftStays(s, after);
    forall k, room | InRoom(after, k, room) ensures ArrivesWell(s, after, k, room) {
      assert InRoom(s, k, room);
    }
  }

  lemma GoneIsNowhere(s: State, sock: string)
    requires S.Shapes(s)
    ensures sock in s.sockets && !Live(s, sock) ==> s.sockets[sock].rooms == {}
  {
    if sock in s.sockets { assert S.Shape(s.sockets[sock], s.gen); }
  }

  lemma DisconnectKeeps(s: State, ev: nat, sock: string)
    requires SocketsClean(s) && EvictionsOk(s) && S.Shapes(s) && EvictEnabled(s, EvictDisconnect(ev, sock))
    ensures SocketsClean(ApplyEvictDisconnect(s, ev, sock))
  {
    var after := ApplyEvictDisconnect(s, ev, sock);
    var e := s.evictions[ev];
    var next := s.(evictions := s.evictions[ev := e.(toDisconnect := e.toDisconnect - {sock})]);
    GoneIsNowhere(s, sock);
    LeftStays(s, next);
    LeftStays(s, after);
    if Live(s, sock) {
      DropArrives(s, sock);
    } else {
      SameSockets(s, after);
    }
    forall k, room | InRoom(after, k, room) ensures ArrivesWell(s, after, k, room)
    {
      if Live(s, sock) { assert ArrivesWell(s, Drop(s, sock), k, room); }
    }
    CleanStays(s, after, e.scope, e.gen, e.toDisconnect);
    forall k, room | InRoom(after, k, room) ensures CleanAt(after, e.scope, e.gen, e.toDisconnect - {sock}, k, room) {
      assert CleanAt(after, e.scope, e.gen, e.toDisconnect, k, room);
    }
    EvictionKeeps(s, after, ev);
  }

  lemma ReturnKeeps(s: State, ev: nat)
    requires SocketsClean(s) && EvictionsOk(s) && EvictEnabled(s, EvictReturn(ev))
    ensures SocketsClean(ApplyEvictReturn(s, ev))
  {
    var after := ApplyEvictReturn(s, ev);
    LeftStays(s, after);
    SameSockets(s, after);
    forall e | e in after.evictions && after.evictions[e].closing
      ensures Clean(after, after.evictions[e].scope, after.evictions[e].gen, after.evictions[e].toDisconnect)
    {
      CleanStays(s, after, s.evictions[e].scope, s.evictions[e].gen, s.evictions[e].toDisconnect);
    }
    forall f | f in after.finished ensures Clean(after, f.0, f.1, {}) { CleanStays(s, after, f.0, f.1, {}); }
  }

  lemma EvictStepKeeps(s: State, step: EvictStep)
    requires SocketsClean(s) && EvictionsOk(s) && S.Shapes(s) && EvictEnabled(s, step)
    ensures SocketsClean(EvictApply(s, step))
  {
    match step {
      case EvictClose(ev) => CloseKeeps(s, ev);
      case EvictDisconnect(ev, sock) => DisconnectKeeps(s, ev, sock);
      case EvictReturn(ev) => ReturnKeeps(s, ev);
      case _ => WalkKeeps(s, step);
    }
  }

  predicate IsWalk(step: EvictStep) {
    step.EvictStart? || step.EvictRoom? || step.EvictTarget? || step.EvictRoomEnd?
  }

  /** Before it comes to the sockets an eviction leaves them alone. */
  predicate Walked(s: State, after: State, ev: nat) {
    && after == s.(gen := after.gen, pending := after.pending, evictions := after.evictions, rooms := after.rooms)
    && s.gen <= after.gen
    && ev in after.evictions && after.evictions == s.evictions[ev := after.evictions[ev]]
    && (after.evictions[ev].closing ==> ev in s.evictions && s.evictions[ev].closing)
  }

  lemma StartWalks(s: State, rev: nat, ev: nat)
    requires rev in s.pending
    ensures Walked(s, ApplyEvictStart(s, rev, ev), ev)
  {
  }

  lemma RoomWalks(s: State, ev: nat, listed: seq<string>)
    requires EvictEnabled(s, EvictRoom(ev, listed))
    ensures Walked(s, ApplyEvictRoom(s, ev, listed), ev)
  {
  }

  lemma TargetWalks(s: State, ev: nat)
    requires EvictEnabled(s, EvictStep.EvictTarget(ev))
    ensures Walked(s, ApplyEvictTarget(s, ev), ev)
  {
    hide H.RemoveParticipant, H.ParticipantSocketId;
  }

  lemma RoomEndWalks(s: State, ev: nat)
    requires EvictEnabled(s, EvictRoomEnd(ev))
    ensures Walked(s, ApplyEvictRoomEnd(s, ev), ev)
  {
  }

  lemma WalkFrame(s: State, step: EvictStep)
    requires EvictEnabled(s, step) && IsWalk(step)
    ensures Walked(s, EvictApply(s, step), step.ev)
  {
    hide Walked, ApplyEvictStart, ApplyEvictRoom, ApplyEvictTarget, ApplyEvictRoomEnd;
    match step {
      case EvictStart(ev, rev) => StartWalks(s, rev, ev);
      case EvictRoom(ev, listed) => RoomWalks(s, ev, listed);
      case EvictTarget(ev) => TargetWalks(s, ev);
      case EvictRoomEnd(ev) => RoomEndWalks(s, ev);
    }
  }

  lemma WalkKeeps(s: State, step: EvictStep)
    requires SocketsClean(s) && EvictionsOk(s) && EvictEnabled(s, step) && IsWalk(step)
    ensures SocketsClean(EvictApply(s, step))
  {
    var after := EvictApply(s, step);
    WalkFrame(s, step);
    hide EvictApply, SocketsClean;
    LeftStays(s, after);
    SameSockets(s, after);
    EvictionKeeps(s, after, step.ev);
  }

  // ---- the other steps ----

  lemma ResumedArrives(s: State, step: ConnectionStep, room: SocketRoom)
    requires S.Shapes(s) && ConnectionEnabled(s, step) && Resumed(s, step).Some?
    requires room in Resumed(s, step).value.rooms && InRoom(ConnectionApply(s, step), step.sock, room)
    ensures ArrivesWell(s, ConnectionApply(s, step), step.sock, room)
  {
    var after := ConnectionApply(s, step);
    assert S.Shape(s.sockets[step.sock], s.gen);
    LeftStays(s, after);
    if step.RoomsJoined? { assert after.roomGen[(step.sock, room)] == s.sockets[step.sock].phase.gen; }
  }

  lemma ConnectionStepArrives(s: State, step: ConnectionStep)
    requires S.Shapes(s) && ConnectionEnabled(s, step)
    ensures AllArriveWell(s, ConnectionApply(s, step))
  {
    var after := ConnectionApply(s, step);
    LeftStays(s, after);
    match Resumed(s, step) {
      case None => if step.sock in s.sockets { DropArrives(s, step.sock); } else { SameSockets(s, after); }
      case Some(k) =>
        forall sock, room | InRoom(after, sock, room) ensures ArrivesWell(s, after, sock, room) {
          if sock == step.sock { ResumedArrives(s, step, room); }
          else { assert InRoom(s, sock, room); }
        }
    }
  }

  lemma SpaceJoinStepArrives(s: State, step: SpaceJoinStep)
    requires SpaceJoinEnabled(s, step) && ActsOk(s)
    ensures AllArriveWell(s, SpaceJoinApply(s, step))
  {
    var after := SpaceJoinApply(s, step);
    if step.SpaceJoinLands? {
      LandsArrives(s, step.act);
    } else if step.SpaceJoinLeft? {
      LeftArrives(s, step.act);
    } else {
      S.SpaceJoinQuietStep(s, step);
      forall sock, room | S.BeingLeft(s, sock, room) ensures S.BeingLeft(after, sock, room) {
        var a :| a in s.activations && S.Leaving(s.activations[a], s.gen, sock, room);
        assert S.Leaving(after.activations[a], after.gen, sock, room);
      }
      QuietRoomGen(s, step);
      SameSockets(s, after);
    }
  }

  lemma QuietRoomGen(s: State, step: SpaceJoinStep)
    requires SpaceJoinEnabled(s, step) && !step.SpaceJoinLands?
    ensures SpaceJoinApply(s, step).roomGen == s.roomGen
  {
  }

  lemma LandsArrives(s: State, act: nat)
    requires At(s, act, SpaceJoin, AwaitJoin) && ActsOk(s)
    ensures AllArriveWell(s, ApplySpaceJoinLands(s, act))
  {
    var after := ApplySpaceJoinLands(s, act);
    var a := s.activations[act];
    assert ActOk(s, a);
    S.LandsLeft(s, after, act);
    forall sock, room | InRoom(after, sock, room) ensures ArrivesWell(s, after, sock, room) {
      if sock == a.sock && room == SpaceRoom(a.spaceId) && a.gen < s.gen {
        assert S.Leaving(after.activations[act], after.gen, sock, room);
      }
    }
  }

  lemma LeftArrives(s: State, act: nat)
    requires At(s, act, SpaceJoin, AwaitLeave)
    ensures AllArriveWell(s, ApplySpaceJoinLeft(s, act))
  {
    var after := ApplySpaceJoinLeft(s, act);
    var a := s.activations[act];
    forall sock, room | InRoom(after, sock, room) ensures ArrivesWell(s, after, sock, room) {
      assert InRoom(s, sock, room) && !(sock == a.sock && room == SpaceRoom(a.spaceId));
      if S.BeingLeft(s, sock, room) {
        var x :| x in s.activations && S.Leaving(s.activations[x], s.gen, sock, room);
        assert x != act && S.Leaving(after.activations[x], after.gen, sock, room);
      }
    }
  }

  lemma HuddleStepArrives(s: State, step: HuddleStep)
    requires HuddleEnabled(s, step)
    ensures AllArriveWell(s, HuddleApply(s, step))
  {
    var after := HuddleApply(s, step);
    HuddleStepFrame(s, step);
    S.HuddleStepLeaves(s, step);
    LeftStays(s, after);
    SameSockets(s, after);
  }

  lemma SyncStepArrives(s: State, step: SyncStep)
    requires SyncEnabled(s, step)
    ensures AllArriveWell(s, SyncApply(s, step))
  {
    var after := SyncApply(s, step);
    LeftStays(s, after);
    forall sock, room | InRoom(after, sock, room) ensures ArrivesWell(s, after, sock, room) {
      assert InRoom(s, sock, room);
    }
  }

  lemma DbStepArrives(s: State, step: DbStep)
    requires DbEnabled(s, step)
    ensures AllArriveWell(s, DbApply(s, step))
  {
    var after := DbApply(s, step);
    LeftStays(s, after);
    SameSockets(s, after);
  }

  lemma OtherStepsArrive(s: State, step: Step)
    requires ActsOk(s) && S.Shapes(s) && Enabled(s, step) && !step.Evicting?
    ensures AllArriveWell(s, Apply(s, step))
  {
    hide DbApply, ConnectionApply, SpaceJoinApply, HuddleApply, SyncApply, AllArriveWell;
    match step {
      case Database(d) => DbStepArrives(s, d);
      case Connecting(c) => ConnectionStepArrives(s, c);
      case SpaceJoining(j) => SpaceJoinStepArrives(s, j);
      case Huddling(h) => HuddleStepArrives(s, h);
      case Sync(y) => SyncStepArrives(s, y);
    }
  }

  /** Every step keeps what closing and finished evictions have achieved. */
  lemma StepKeepsClean(s: State, step: Step)
    requires Basics(s) && S.Shapes(s) && SocketsClean(s) && Enabled(s, step)
    ensures SocketsClean(Apply(s, step))
  {
    if step.Evicting? {
      EvictStepKeeps(s, step.e);
    } else {
      OtherStepsLeaveEvictions(s, step);
      OtherStepsArrive(s, step);
      ArrivingKeeps(s, Apply(s, step));
    }
  }
}
