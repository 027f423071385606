/** Every step keeps: an empty room has its grace timer armed or an eviction still working on it. */
module RealtimeTimerProof {
  import opened Common
  import opened Realtime
  import opened RealtimeInv
  import opened RealtimeFrames
  import H = HuddleModel
  import A = RealtimeAuthProof

  ghost predicate VisitsKept(before: map<nat, Eviction>, after: map<nat, Eviction>) {
    forall e | e in before && before[e].current.Some? :: e in after && after[e].current == before[e].current
  }

  lemma Kept(s: State, after: State)
    requires NoLimbo(s) && NoNewLimbo(s.rooms, after.rooms) && VisitsKept(s.evictions, after.evictions)
    ensures NoLimbo(after)
  {
    forall id | id in after.rooms.byId && after.rooms.byId[id].participants == map[]
      && after.rooms.byId[id].graceTimer.None?
      ensures Visited(after.evictions, id)
    {
      assert Visited(s.evictions, id);
      var e :| e in s.evictions && s.evictions[e].current == Some(id);
      assert after.evictions[e].current == Some(id);
    }
  }

  lemma EvictTargetKeeps(s: State, ev: nat)
    requires H.WellFormed(s.rooms) && NoLimbo(s) && EvictEnabled(s, EvictTarget(ev))
    ensures NoLimbo(ApplyEvictTarget(s, ev))
  {
    var after := ApplyEvictTarget(s, ev);
    var cur := s.evictions[ev].current.value;
    assert after.evictions[ev].current == Some(cur);
    assert VisitsKept(s.evictions, after.evictions);
    OthersUntouched(s, ev);
    forall id | id in after.rooms.byId && after.rooms.byId[id].participants == map[]
      && after.rooms.byId[id].graceTimer.None?
      ensures Visited(after.evictions, id)
    {
      if id != cur {
        assert Visited(s.evictions, id);
        var e :| e in s.evictions && s.evictions[e].current == Some(id);
        assert after.evictions[e].current == Some(id);
      }
    }
  }

  lemma OthersUntouched(s: State, ev: nat)
    requires EvictEnabled(s, EvictTarget(ev))
    ensures var after := ApplyEvictTarget(s, ev);
      forall id | id in after.rooms.byId && id != s.evictions[ev].current.value ::
        id in s.rooms.byId && after.rooms.byId[id] == s.rooms.byId[id]
  {
  }

  lemma EvictRoomEndKeeps(s: State, ev: nat)
    requires NoLimbo(s) && EvictEnabled(s, EvictRoomEnd(ev))
    ensures NoLimbo(ApplyEvictRoomEnd(s, ev))
  {
    var after := ApplyEvictRoomEnd(s, ev);
    var cur := s.evictions[ev].current.value;
    forall id | id in after.rooms.byId && after.rooms.byId[id].participants == map[]
      && after.rooms.byId[id].graceTimer.None?
      ensures Visited(after.evictions, id)
    {
      assert id != cur && after.rooms.byId[id] == s.rooms.byId[id];
      assert Visited(s.evictions, id);
      var e :| e in s.evictions && s.evictions[e].current == Some(id);
      assert e != ev && after.evictions[e].current == Some(id);
    }
  }

  lemma DropRoomsNoLimbo(rs: H.Rooms, k: Socket, sock: string)
    requires H.WellFormed(rs)
    ensures NoNewLimbo(rs, DropRooms(rs, k, sock))
  {
    if k.phase.Ready? {
      LeaveAllNoLimbo(rs, H.RoomIdsForSocket(rs, sock), k.userId, sock);
    }
  }

  /** Steps that leave the rooms alone, or only disconnect a socket. */
  lemma OtherEvictStepKeeps(s: State, step: EvictStep)
    requires H.WellFormed(s.rooms) && EvictionsOk(s) && NoLimbo(s) && EvictEnabled(s, step)
    requires !step.EvictTarget? && !step.EvictRoomEnd?
    ensures NoLimbo(EvictApply(s, step))
  {
    var after := EvictApply(s, step);
    OtherEvictVisits(s, step);
    if step.EvictDisconnect? && Live(s, step.sock) {
      DropRoomsNoLimbo(s.rooms, s.sockets[step.sock], step.sock);
    } else {
      assert after.rooms == s.rooms;
    }
    Kept(s, after);
  }

  lemma OtherEvictVisits(s: State, step: EvictStep)
    requires EvictionsOk(s) && EvictEnabled(s, step)
    requires !step.EvictTarget? && !step.EvictRoomEnd?
    ensures VisitsKept(s.evictions, EvictApply(s, step).evictions)
  {
    EvictStepFrame(s, step);
    ItsVisit(s, step);
    hide EvictApply, EvictEnabled;
  }

  lemma ItsVisit(s: State, step: EvictStep)
    requires EvictionsOk(s) && EvictEnabled(s, step)
    requires !step.EvictTarget? && !step.EvictRoomEnd?
    ensures step.ev in s.evictions && s.evictions[step.ev].current.Some? ==>
      && step.ev in EvictApply(s, step).evictions
      && EvictApply(s, step).evictions[step.ev].current == s.evictions[step.ev].current
  {
    hide DropRooms, DropPresence, SocketsAfterClose, SocketsToDisconnect;
  }

  lemma EvictStepKeeps(s: State, step: EvictStep)
    requires H.WellFormed(s.rooms) && EvictionsOk(s) && NoLimbo(s) && EvictEnabled(s, step)
    ensures NoLimbo(EvictApply(s, step))
  {
    if step.EvictTarget? { EvictTargetKeeps(s, step.ev); }
    else if step.EvictRoomEnd? { EvictRoomEndKeeps(s, step.ev); }
    else { OtherEvictStepKeeps(s, step); }
  }

  lemma ConnectionStepKeeps(s: State, step: ConnectionStep)
    requires H.WellFormed(s.rooms) && NoLimbo(s) && ConnectionEnabled(s, step)
    ensures NoLimbo(ConnectionApply(s, step))
  {
    if step.sock in s.sockets { DropRoomsNoLimbo(s.rooms, s.sockets[step.sock], step.sock); }
    A.ConnectionStepAuthority(s, step);
    Kept(s, ConnectionApply(s, step));
  }

  lemma SyncStepKeeps(s: State, step: SyncStep)
    requires H.WellFormed(s.rooms) && NoLimbo(s) && SyncEnabled(s, step)
    ensures NoLimbo(SyncApply(s, step))
  {
    SyncStepRooms(s, step);
    A.SyncStepElsewhere(s, step);
    Kept(s, SyncApply(s, step));
  }

  lemma SyncStepRooms(s: State, step: SyncStep)
    requires H.WellFormed(s.rooms) && SyncEnabled(s, step)
    ensures NoNewLimbo(s.rooms, SyncApply(s, step).rooms)
  {
    if step.Leave? { LeaveOneNoLimbo(s.rooms, step.roomId, s.sockets[step.sock].userId, step.sock); }
    else if step.Mute? { MuteNoLimbo(s.rooms, step.roomId, s.sockets[step.sock].userId, step.sock, step.muted); }
    else if step.TimerFires? { H.FireKeeps(s.rooms, step.timer); }
  }

  lemma MuteNoLimbo(rs: H.Rooms, roomId: string, userId: string, sock: string, muted: bool)
    ensures NoNewLimbo(rs, H.SetMuted(rs, roomId, userId, sock, muted).0)
  {
    MuteSeats(rs, roomId, userId, sock, muted);
  }

  lemma AddNoLimbo(rs: H.Rooms, roomId: string, p: H.Participant)
    ensures NoNewLimbo(rs, H.AddParticipant(rs, roomId, p).0)
  {
    var (after, added) := H.AddParticipant(rs, roomId, p);
    if added {
      assert p.userId in after.byId[roomId].participants;
    }
  }

  lemma CreateNoLimbo(rs: H.Rooms, newId: string, spaceId: string, orgId: string, p: H.Participant)
    requires H.WellFormed(rs) && newId !in rs.byId && TryCreate(rs, newId, spaceId, orgId, p).Entered?
    ensures NoNewLimbo(rs, TryCreate(rs, newId, spaceId, orgId, p).rooms)
  {
    A.CreateEntersFreshRoom(rs, newId, spaceId, orgId, p);
    assert p.userId in map[p.userId := p];
  }

  lemma HuddleStepKeeps(s: State, step: HuddleStep)
    requires RoomsOk(s) && NoLimbo(s) && HuddleEnabled(s, step)
    ensures NoLimbo(HuddleApply(s, step))
  {
    HuddleStepFrame(s, step);
    if step.CreateResume? { CreateResumeRooms(s, step.act, step.newId); }
    else { HuddleStepRooms(s, step); }
    Kept(s, HuddleApply(s, step));
  }

  lemma CreateResumeRooms(s: State, act: nat, newId: string)
    requires H.WellFormed(s.rooms) && AtAccess(s, act, Create) && newId !in s.rooms.byId
    ensures NoNewLimbo(s.rooms, ApplyCreateResume(s, act, newId).rooms)
  {
    var a := s.activations[act];
    var k := s.sockets[a.sock];
    var p := H.Participant(k.userId, "", false, a.sock);
    var outcome := TryCreate(s.rooms, newId, a.spaceId, k.orgId, p);
    A.CreateEntersFreshRoom(s.rooms, newId, a.spaceId, k.orgId, p);
    if outcome.Entered? { CreateNoLimbo(s.rooms, newId, a.spaceId, k.orgId, p); }
    assert ApplyCreateResume(s, act, newId).rooms in {s.rooms, if outcome.Entered? then outcome.rooms else s.rooms};
  }

  lemma HuddleStepRooms(s: State, step: HuddleStep)
    requires H.WellFormed(s.rooms) && HuddleEnabled(s, step) && !step.CreateResume?
    ensures NoNewLimbo(s.rooms, HuddleApply(s, step).rooms)
  {
    hide ApplyCreateResume, Rollback, H.AddParticipant;
    if step.JoinFinish? {
      var a := s.activations[step.act];
      AddNoLimbo(s.rooms, a.roomId, H.Participant(s.sockets[a.sock].userId, "", false, a.sock));
    } else if step.CreateFinish? {
      var a := s.activations[step.act];
      RollbackNoLimbo(s.rooms, a.roomId, s.sockets[a.sock].userId, a.sock);
    }
  }

  lemma DbStepKeeps(s: State, step: DbStep)
    requires NoLimbo(s) && DbEnabled(s, step)
    ensures NoLimbo(DbApply(s, step))
  {
    Kept(s, DbApply(s, step));
  }

  lemma SpaceJoinStepKeeps(s: State, step: SpaceJoinStep)
    requires ActsOk(s) && NoLimbo(s) && SpaceJoinEnabled(s, step)
    ensures NoLimbo(SpaceJoinApply(s, step))
  {
    A.SpaceJoinStepElsewhere(s, step);
    Kept(s, SpaceJoinApply(s, step));
  }

  lemma StepKeepsTimers(s: State, step: Step)
    requires Basics(s) && NoLimbo(s) && Enabled(s, step)
    ensures NoLimbo(Apply(s, step))
  {
    match step {
      case Database(d) => DbStepKeeps(s, d);
      case Evicting(e) => EvictStepKeeps(s, e);
      case Connecting(c) => ConnectionStepKeeps(s, c);
      case SpaceJoining(j) => SpaceJoinStepKeeps(s, j);
      case Huddling(h) => HuddleStepKeeps(s, h);
      case Sync(y) => SyncStepKeeps(s, y);
    }
  }
}
