/** Every step keeps: presence is exactly what the ready sockets say. */
module RealtimePresenceProof {
  import opened Common
  import opened Realtime
  import opened RealtimeInv
  import opened RealtimeFrames
  import P = Presence

  function ReadySockets(sockets: map<string, Socket>, userId: string): set<string> {
    set k | k in sockets && sockets[k].phase.Ready? && sockets[k].userId == userId
  }

  /** `onlineUsers` holds exactly the initialized, not yet disconnected sockets. */
  ghost predicate PresenceOk(s: State) {
    && P.Consistent(s.presence)
    && (forall u :: P.SocketsOf(s.presence, u) == ReadySockets(s.sockets, u))
  }

  lemma UnchangedKeeps(s: State, after: State)
    requires PresenceOk(s) && after.presence == s.presence
    requires forall u :: ReadySockets(after.sockets, u) == ReadySockets(s.sockets, u)
    ensures PresenceOk(after)
  {
  }

  lemma DropKeeps(s: State, sock: string)
    requires PresenceOk(s) && sock in s.sockets
    ensures PresenceOk(Drop(s, sock))
  {
    var k := s.sockets[sock];
    var after := Drop(s, sock);
    if k.phase.Ready? {
      P.UntrackKeeps(s.presence, k.userId, k.orgId, sock);
    }
    forall u ensures P.SocketsOf(after.presence, u) == ReadySockets(after.sockets, u) {
      DropReady(s.sockets, sock, u);
      UntrackSockets(s.presence, k, sock, u);
    }
  }

  lemma DropReady(sockets: map<string, Socket>, sock: string, u: string)
    requires sock in sockets
    ensures ReadySockets(sockets[sock := sockets[sock].(phase := Gone, rooms := {})], u) ==
      ReadySockets(sockets, u) - {sock}
  {
  }

  lemma UntrackSockets(p: P.State, k: Socket, sock: string, u: string)
    requires k.phase.Ready? || sock !in P.SocketsOf(p, u)
    requires u != k.userId ==> sock !in P.SocketsOf(p, u)
    ensures P.SocketsOf(DropPresence(p, k, sock), u) == P.SocketsOf(p, u) - {sock}
  {
  }

  lemma ReadyKeeps(s: State, after: State, sock: string)
    requires PresenceOk(s) && sock in s.sockets && !s.sockets[sock].phase.Ready?
    requires sock in after.sockets && after.sockets == s.sockets[sock := after.sockets[sock]]
    requires after.sockets[sock].phase.Ready? && after.sockets[sock].userId == s.sockets[sock].userId
    requires after.presence == P.Track(s.presence, after.sockets[sock].userId, after.sockets[sock].orgId, sock)
    ensures PresenceOk(after)
  {
    var k := after.sockets[sock];
    assert sock !in P.SocketsOf(s.presence, k.userId);
    P.TrackKeeps(s.presence, k.userId, k.orgId, sock);
    forall u ensures P.SocketsOf(after.presence, u) == ReadySockets(after.sockets, u) {
      assert P.SocketsOf(s.presence, u) == ReadySockets(s.sockets, u);
      ReadyAdded(s.sockets, after.sockets, sock, u);
    }
  }

  lemma ReadyAdded(before: map<string, Socket>, after: map<string, Socket>, sock: string, u: string)
    requires sock in after && after == before[sock := after[sock]] && after[sock].phase.Ready?
    requires sock in before ==> !before[sock].phase.Ready?
    ensures ReadySockets(after, u) == ReadySockets(before, u) + (if after[sock].userId == u then {sock} else {})
  {
  }

  /** A socket record replaced by one no more and no less ready. */
  lemma SameReady(before: map<string, Socket>, after: map<string, Socket>)
    requires forall k | k in before ::
      k in after && after[k].phase.Ready? == before[k].phase.Ready? && after[k].userId == before[k].userId
    requires forall k | k in after && k !in before :: !after[k].phase.Ready?
    ensures forall u :: ReadySockets(after, u) == ReadySockets(before, u)
  {
    forall u ensures ReadySockets(after, u) == ReadySockets(before, u) {
      assert forall k :: k in ReadySockets(after, u) <==> k in ReadySockets(before, u);
    }
  }

  lemma ConnectionStepKeeps(s: State, step: ConnectionStep)
    requires PresenceOk(s) && ConnectionEnabled(s, step)
    ensures PresenceOk(ConnectionApply(s, step))
  {
    var after := ConnectionApply(s, step);
    match Resumed(s, step) {
      case None => if step.sock in s.sockets { DropKeeps(s, step.sock); }
      case Some(k) =>
        if k.phase.Ready? {
          ReadyKeeps(s, after, step.sock);
        } else {
          SameReady(s.sockets, after.sockets);
          UnchangedKeeps(s, after);
        }
    }
  }

  lemma EvictStepKeeps(s: State, step: EvictStep)
    requires PresenceOk(s) && EvictEnabled(s, step)
    ensures PresenceOk(EvictApply(s, step))
  {
    if step.EvictDisconnect? && Live(s, step.sock) {
      DropKeeps(s, step.sock);
      UnchangedKeeps(Drop(s, step.sock), EvictApply(s, step));
    } else {
      EvictStepReady(s, step);
      UnchangedKeeps(s, EvictApply(s, step));
    }
  }

  lemma EvictStepReady(s: State, step: EvictStep)
    requires EvictEnabled(s, step) && !(step.EvictDisconnect? && Live(s, step.sock))
    ensures EvictApply(s, step).presence == s.presence
    ensures forall u :: ReadySockets(EvictApply(s, step).sockets, u) == ReadySockets(s.sockets, u)
  {
    if step.EvictClose? {
      SameReady(s.sockets, SocketsAfterClose(s.sockets, s.evictions[step.ev].scope));
    } else {
      assert EvictApply(s, step).sockets == s.sockets;
    }
  }

  lemma SyncStepKeeps(s: State, step: SyncStep)
    requires PresenceOk(s) && SyncEnabled(s, step)
    ensures PresenceOk(SyncApply(s, step))
  {
    var after := SyncApply(s, step);
    SyncStepReady(s, step);
    if step.GoIdle? || step.GoActive? {
      var k := s.sockets[step.sock];
      assert step.sock in P.SocketsOf(s.presence, k.userId);
      P.IdlingKeeps(s.presence, k.userId, k.orgId);
      assert forall u :: P.SocketsOf(after.presence, u) == P.SocketsOf(s.presence, u);
    } else {
      UnchangedKeeps(s, after);
    }
  }

  lemma SyncStepReady(s: State, step: SyncStep)
    requires SyncEnabled(s, step)
    ensures forall u :: ReadySockets(SyncApply(s, step).sockets, u) == ReadySockets(s.sockets, u)
    ensures !step.GoIdle? && !step.GoActive? ==> SyncApply(s, step).presence == s.presence
  {
    SameReady(s.sockets, SyncApply(s, step).sockets);
  }

  lemma SpaceJoinStepKeeps(s: State, step: SpaceJoinStep)
    requires PresenceOk(s) && SpaceJoinEnabled(s, step)
    ensures PresenceOk(SpaceJoinApply(s, step))
  {
    SpaceJoinStepFrame(s, step);
    hide SpaceJoinApply;
    SameReady(s.sockets, SpaceJoinApply(s, step).sockets);
    UnchangedKeeps(s, SpaceJoinApply(s, step));
  }

  lemma HuddleStepKeeps(s: State, step: HuddleStep)
    requires PresenceOk(s) && HuddleEnabled(s, step)
    ensures PresenceOk(HuddleApply(s, step))
  {
    HuddleStepFrame(s, step);
    UnchangedKeeps(s, HuddleApply(s, step));
  }

  lemma StepKeepsPresence(s: State, step: Step)
    requires PresenceOk(s) && Enabled(s, step)
    ensures PresenceOk(Apply(s, step))
  {
    hide DbApply, EvictApply, ConnectionApply, SpaceJoinApply, HuddleApply, SyncApply;
    match step {
      case Database(d) => DbStepFrame(s, d); UnchangedKeeps(s, DbApply(s, d));
      case Evicting(e) => EvictStepKeeps(s, e);
      case Connecting(c) => ConnectionStepKeeps(s, c);
      case SpaceJoining(j) => SpaceJoinStepKeeps(s, j);
      case Huddling(h) => HuddleStepKeeps(s, h);
      case Sync(y) => SyncStepKeeps(s, y);
    }
  }

  // ---- what is broadcast, and to whom ----

  /** A socket that becomes ready is tracked: its organization hears of a user who had none. */
  lemma ReadyIsTold(s: State, sock: string)
    requires PresenceOk(s) && ConnectionEnabled(s, ConnectionResume(sock)) && s.sockets[sock].phase.gen == s.gen
    ensures
      var (k, p, after) := (s.sockets[sock], s.presence, Apply(s, Connecting(ConnectionResume(sock))).presence);
      && P.StatusOf(after, k.userId) == P.Online
      && (forall u | u != k.userId :: P.StatusOf(after, u) == P.StatusOf(p, u))
      && after.log == p.log + if P.StatusOf(p, k.userId) == P.Offline then [P.FirstSocket(k.userId, k.orgId)] else []
  {
    var k := s.sockets[sock];
    assert sock !in ReadySockets(s.sockets, k.userId) && sock !in P.SocketsOf(s.presence, k.userId);
    P.TrackKeeps(s.presence, k.userId, k.orgId, sock);
    hide P.Consistent, P.Track, P.StatusOf, P.SocketsOf, ReadySockets;
  }

  /** A ready socket that disconnects is untracked: its organization hears of a user who is left with none. */
  lemma GoneIsTold(s: State, sock: string)
    requires PresenceOk(s) && IsReady(s, sock)
    ensures
      var (k, p, after) := (s.sockets[sock], s.presence, Apply(s, Connecting(Disconnect(sock))).presence);
      var last := ReadySockets(s.sockets, k.userId) == {sock};
      && P.StatusOf(after, k.userId) == (if last then P.Offline else P.StatusOf(p, k.userId))
      && (forall u | u != k.userId :: P.StatusOf(after, u) == P.StatusOf(p, u))
      && after.log == p.log + if last then [P.LastSocket(k.userId, k.orgId)] else []
  {
    var k := s.sockets[sock];
    assert P.SocketsOf(s.presence, k.userId) == ReadySockets(s.sockets, k.userId)
      && sock in ReadySockets(s.sockets, k.userId);
    assert P.StatusOf(s.presence, k.userId) != P.Offline;
    P.UntrackKeeps(s.presence, k.userId, k.orgId, sock);
    hide P.Consistent, P.Untrack, P.StatusOf, P.SocketsOf, ReadySockets, DropRooms;
  }

  /** `presence:idle` and `presence:active` set the user's own status, and tell that user's organization of a change. */
  lemma IdleStepsSet(s: State, sock: string)
    requires PresenceOk(s) && IsReady(s, sock)
    ensures
      var (k, p, idle) := (s.sockets[sock], s.presence, Apply(s, Sync(GoIdle(sock))));
      && idle == s.(presence := idle.presence) && P.StatusOf(idle.presence, k.userId) == P.Idle
      && (forall u | u != k.userId :: P.StatusOf(idle.presence, u) == P.StatusOf(p, u))
      && idle.presence.log ==
           p.log + if P.StatusOf(p, k.userId) == P.Idle then [] else [P.WentIdle(k.userId, k.orgId)]
    ensures
      var (k, p, active) := (s.sockets[sock], s.presence, Apply(s, Sync(GoActive(sock))));
      && active == s.(presence := active.presence) && P.StatusOf(active.presence, k.userId) == P.Online
      && (forall u | u != k.userId :: P.StatusOf(active.presence, u) == P.StatusOf(p, u))
      && active.presence.log ==
           p.log + if P.StatusOf(p, k.userId) == P.Idle then [P.WentActive(k.userId, k.orgId)] else []
  {
    var k := s.sockets[sock];
    assert P.SocketsOf(s.presence, k.userId) == ReadySockets(s.sockets, k.userId)
      && sock in ReadySockets(s.sockets, k.userId);
    assert k.userId in s.presence.online && P.StatusOf(s.presence, k.userId) != P.Offline;
    P.IdlingKeeps(s.presence, k.userId, k.orgId);
    hide P.Consistent, P.GoIdle, P.GoActive, P.StatusOf, P.SocketsOf, ReadySockets;
  }
}
