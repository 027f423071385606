/** Every step keeps the bookkeeping and authorization invariants of huddle participants. */
module RealtimeAuthProof {
  import opened Common
  import opened Realtime
  import opened RealtimeInv
  import opened RealtimeFrames
  import H = HuddleModel

  // ---- steps that let nobody in ----

  /** Sockets keep their user and organization; one that was ready stays ready or goes. */
  ghost predicate SocketsFollow(before: map<string, Socket>, after: map<string, Socket>) {
    && ("" in after ==> "" in before)
    && (forall k | k in before ::
          && k in after && after[k].userId == before[k].userId && after[k].orgId == before[k].orgId
          && (before[k].phase.Ready? || before[k].phase.Gone? ==> after[k].phase.Ready? || after[k].phase.Gone?))
  }

  /** A handler either was there already, holding no less, or holds only what is justified now. */
  ghost predicate ActFollows(s: State, after: State, a: nat)
    requires a in after.activations
  {
    var x := after.activations[a];
    || (a in s.activations && x == s.activations[a].(pc := x.pc) && (Holds(x) ==> Holds(s.activations[a])))
    || (ActOk(after, x)
       && (Holds(x) ==> Justified(after, after.sockets[x.sock].orgId, x.spaceId, after.sockets[x.sock].userId)))
  }

  ghost predicate Quiet(s: State, after: State) {
    Shrinks(s.rooms, after.rooms) && QuietElsewhere(s, after)
  }

  ghost predicate QuietElsewhere(s: State, after: State) {
    && SameAuthority(s, after)
    && SocketsFollow(s.sockets, after.sockets)
    && (forall a | a in after.activations :: ActFollows(s, after, a))
  }

  ghost predicate SameAuthority(s: State, after: State) {
    after == s.(rooms := after.rooms, sockets := after.sockets, activations := after.activations,
                roomGen := after.roomGen, presence := after.presence)
  }

  lemma QuietKeeps(s: State, after: State)
    requires Basics(s) && Auth(s) && Quiet(s, after)
    ensures Basics(after) && Auth(after)
  {
    QuietBasics(s, after);
    QuietActs(s, after);
    QuietSeats(s, after);
    QuietEvictions(s, after);
  }

  lemma SameJustified(s: State, after: State, orgId: string, spaceId: string, userId: string)
    requires after.db == s.db && after.pending == s.pending
    ensures Justified(s, orgId, spaceId, userId) == Justified(after, orgId, spaceId, userId)
  {
  }

  lemma QuietActs(s: State, after: State)
    requires Basics(s) && ActsJustified(s) && Quiet(s, after)
    ensures ActsJustified(after)
  {
    forall a | a in after.activations && Holds(after.activations[a]) && after.activations[a].sock in after.sockets
      ensures after.activations[a].gen < after.gen
        || Justified(after, after.sockets[after.activations[a].sock].orgId, after.activations[a].spaceId,
                     after.sockets[after.activations[a].sock].userId)
    {
      assert ActFollows(s, after, a);
      if a in s.activations && after.activations[a] == s.activations[a].(pc := after.activations[a].pc) {
        var sock := s.activations[a].sock;
        assert ActOk(s, s.activations[a]);
        SameJustified(s, after, s.sockets[sock].orgId, s.activations[a].spaceId, s.sockets[sock].userId);
      }
    }
  }

  lemma QuietSeats(s: State, after: State)
    requires SeatsJustified(s) && Quiet(s, after)
    ensures SeatsJustified(after)
  {
    forall id, u | In(after.rooms, id, u) ensures SeatJustified(after, id, u) {
      assert In(s.rooms, id, u) && SeatJustified(s, id, u);
      SameJustified(s, after, s.rooms.byId[id].orgId, s.rooms.byId[id].spaceId, u);
      if !Justified(s, s.rooms.byId[id].orgId, s.rooms.byId[id].spaceId, u) {
        var e :| e in s.evictions && Older(s, s.evictions[e].gen, id, u)
          && CoversSeat(s.evictions[e].scope, s.rooms, id, u);
        assert Older(after, after.evictions[e].gen, id, u) && CoversSeat(after.evictions[e].scope, after.rooms, id, u);
      }
    }
  }

  lemma QuietEvictions(s: State, after: State)
    requires EvictionsReach(s) && FinishedClean(s) && Quiet(s, after)
    ensures EvictionsReach(after) && FinishedClean(after)
  {
    forall e, id, u | e in after.evictions && In(after.rooms, id, u)
      && Older(after, after.evictions[e].gen, id, u) && CoversSeat(after.evictions[e].scope, after.rooms, id, u)
      ensures Awaits(after.evictions[e], id, u)
    {
      assert In(s.rooms, id, u) && Older(s, s.evictions[e].gen, id, u)
        && CoversSeat(s.evictions[e].scope, s.rooms, id, u);
    }
    forall f, id, u | f in after.finished && In(after.rooms, id, u) && CoversSeat(f.0, after.rooms, id, u)
      ensures !Older(after, f.1, id, u)
    {
      assert In(s.rooms, id, u) && CoversSeat(f.0, s.rooms, id, u) && !Older(s, f.1, id, u);
    }
  }

  lemma QuietBasics(s: State, after: State)
    requires Basics(s) && Quiet(s, after)
    ensures Basics(after)
  {
    assert RoomsOk(after) by {
      forall id, u | In(after.rooms, id, u)
        ensures SeatOk(after.sockets, after.rooms.byId[id].orgId, u, after.rooms.byId[id].participants[u].socketId)
        ensures (id, u) in after.authGen && after.authGen[(id, u)] <= after.gen
      {
        assert In(s.rooms, id, u);
        assert SeatOk(s.sockets, s.rooms.byId[id].orgId, u, s.rooms.byId[id].participants[u].socketId);
      }
    }
    forall a | a in after.activations ensures ActOk(after, after.activations[a]) {
      assert ActFollows(s, after, a);
      assert a in s.activations ==> ActOk(s, s.activations[a]);
    }
  }

  // ---- database steps ----

  /** A change of the database and of the pending revocations that unjustifies nobody. */
  ghost predicate OnlyDb(s: State, after: State) {
    && after == s.(db := after.db, pending := after.pending)
    && (forall r | r in after.pending :: after.pending[r].WellFormed())
    && (forall org, space, user :: Justified(s, org, space, user) ==> Justified(after, org, space, user))
  }

  lemma OnlyDbKeeps(s: State, after: State)
    requires Basics(s) && Auth(s) && OnlyDb(s, after)
    ensures Basics(after) && Auth(after)
  {
    assert RoomsOk(after);
    forall a | a in after.activations ensures ActOk(after, after.activations[a]) {
      assert ActOk(s, s.activations[a]);
    }
    forall id, u | In(after.rooms, id, u) ensures SeatJustified(after, id, u) {
      assert SeatJustified(s, id, u);
      if !Justified(s, s.rooms.byId[id].orgId, s.rooms.byId[id].spaceId, u) {
        var e :| e in s.evictions && Older(s, s.evictions[e].gen, id, u)
          && CoversSeat(s.evictions[e].scope, s.rooms, id, u);
        assert Older(after, after.evictions[e].gen, id, u);
      }
    }
    assert forall g, id, u :: Older(s, g, id, u) == Older(after, g, id, u);
    assert EvictionsReach(after) && FinishedClean(after);
  }

  lemma JustifiedByPending(s: State, r: nat, orgId: string, spaceId: string, userId: string)
    requires r in s.pending && s.pending[r].Covers(orgId, spaceId, userId)
    ensures Justified(s, orgId, spaceId, userId)
  {
  }

  /** A revocation that commits covers exactly those it deprives of access. */
  lemma CommitUnjustifiesNobody(s: State, db: Db, rev: nat, scope: Scope)
    requires rev !in s.pending && scope.WellFormed()
    requires forall org, space, user ::
      Told(s.db, space, user, org) && !Told(db, space, user, org) ==> scope.Covers(org, space, user)
    requires forall r | r in s.pending :: s.pending[r].WellFormed()
    ensures OnlyDb(s, Committed(s, db, rev, scope))
  {
    var after := Committed(s, db, rev, scope);
    forall org, space, user | Justified(s, org, space, user) ensures Justified(after, org, space, user) {
      if !Told(db, space, user, org) {
        if Told(s.db, space, user, org) {
          JustifiedByPending(after, rev, org, space, user);
        } else {
          var r :| r in s.pending && s.pending[r].Covers(org, space, user);
          JustifiedByPending(after, r, org, space, user);
        }
      }
    }
  }

  lemma GrantUnjustifiesNobody(s: State, db: Db)
    requires forall org, space, user :: Told(s.db, space, user, org) ==> Told(db, space, user, org)
    requires EvictionsOk(s)
    ensures OnlyDb(s, s.(db := db))
  {
    var after := s.(db := db);
    forall org, space, user | Justified(s, org, space, user) ensures Justified(after, org, space, user) {
      if !Told(s.db, space, user, org) {
        var r :| r in s.pending && s.pending[r].Covers(org, space, user);
        JustifiedByPending(after, r, org, space, user);
      }
    }
  }

  lemma PurgeUnjustifiesNobody(s: State, rev: nat)
    requires EvictionsOk(s) && rev in s.pending && s.pending[rev].OrgMembership?
    ensures OnlyDb(s, ApplyPurge(s, s.pending[rev].orgId, s.pending[rev].userId))
  {
    var after := ApplyPurge(s, s.pending[rev].orgId, s.pending[rev].userId);
    forall org, space, user | Justified(s, org, space, user) ensures Justified(after, org, space, user) {
      if !Told(after.db, space, user, org) {
        if Told(s.db, space, user, org) {
          JustifiedByPending(after, rev, org, space, user);
        } else {
          var r :| r in s.pending && s.pending[r].Covers(org, space, user);
          JustifiedByPending(after, r, org, space, user);
        }
      }
    }
  }

  lemma DbStepOnlyDb(s: State, step: DbStep)
    requires EvictionsOk(s) && DbEnabled(s, step)
    ensures OnlyDb(s, DbApply(s, step))
  {
    var after := DbApply(s, step);
    match step {
      case CreateSpace(space, org) => GrantUnjustifiesNobody(s, after.db);
      case GrantMember(space, user) => GrantUnjustifiesNobody(s, after.db);
      case GrantRole(org, user, role) => GrantUnjustifiesNobody(s, after.db);
      case RemoveMember(rev, space, user) =>
        CommitUnjustifiesNobody(s, after.db, rev, SpaceMembership(s.db.spaceOrg[space], space, user));
      case ArchiveSpace(rev, space) =>
        CommitUnjustifiesNobody(s, after.db, rev, SpaceArchived(s.db.spaceOrg[space], space));
      case RevokeOrg(rev, org, user) => CommitUnjustifiesNobody(s, after.db, rev, OrgMembership(org, user));
      case PurgeMemberships(rev) => PurgeUnjustifiesNobody(s, rev);
      case ChangeRole(rev, org, user, role) => CommitUnjustifiesNobody(s, after.db, rev, OrgRole(org, user));
      case Unarchive(space) => GrantUnjustifiesNobody(s, after.db);
      case ArchiveSilently(space) => GrantUnjustifiesNobody(s, after.db);
      case DeactivateSilently(org, user) => GrantUnjustifiesNobody(s, after.db);
      case ChangeRoleSilently(org, user, role) => GrantUnjustifiesNobody(s, after.db);
    }
  }

  // ---- eviction steps ----

  /** The bump and the scan: whoever loses the pending revocation is reached by the new eviction. */
  lemma EvictStartKeeps(s: State, rev: nat, ev: nat)
    requires Basics(s) && Auth(s) && rev in s.pending && ev !in s.evictions
    ensures Basics(ApplyEvictStart(s, rev, ev)) && Auth(ApplyEvictStart(s, rev, ev))
  {
    var after := ApplyEvictStart(s, rev, ev);
    var scope := s.pending[rev];
    assert after.rooms == s.rooms && after.sockets == s.sockets && after.authGen == s.authGen;
    forall a | a in after.activations
      ensures ActOk(after, after.activations[a]) && after.activations[a].gen < after.gen
    {
      assert ActOk(s, s.activations[a]);
    }
    forall id, u | In(after.rooms, id, u) ensures SeatJustified(after, id, u) {
      assert SeatJustified(s, id, u);
      StartSeat(s, rev, ev, id, u);
    }
    forall e, id, u | e in after.evictions && In(after.rooms, id, u)
      && Older(after, after.evictions[e].gen, id, u) && CoversSeat(after.evictions[e].scope, after.rooms, id, u)
      ensures Awaits(after.evictions[e], id, u)
    {
      if e == ev {
        assert H.InScope(s.rooms, id, scope.orgId, scope.Space(), scope.User());
        assert id in s.rooms.order;
      } else {
        assert Older(s, s.evictions[e].gen, id, u) && CoversSeat(s.evictions[e].scope, s.rooms, id, u);
      }
    }
    forall f, id, u | f in after.finished && In(after.rooms, id, u) && CoversSeat(f.0, after.rooms, id, u)
      ensures !Older(after, f.1, id, u)
    {
      assert !Older(s, f.1, id, u);
    }
  }

  lemma StartSeat(s: State, rev: nat, ev: nat, id: string, u: string)
    requires RoomsOk(s) && rev in s.pending && ev !in s.evictions && In(s.rooms, id, u) && SeatJustified(s, id, u)
    ensures SeatJustified(ApplyEvictStart(s, rev, ev), id, u)
  {
    var after := ApplyEvictStart(s, rev, ev);
    var org, space := s.rooms.byId[id].orgId, s.rooms.byId[id].spaceId;
    assert (id, u) in s.authGen;
    if Justified(s, org, space, u) {
      if !Told(s.db, space, u, org) {
        var r :| r in s.pending && s.pending[r].Covers(org, space, u);
        if r == rev {
          assert Older(after, after.evictions[ev].gen, id, u)
            && CoversSeat(after.evictions[ev].scope, after.rooms, id, u);
        } else {
          JustifiedByPending(after, r, org, space, u);
        }
      }
    } else {
      var e :| e in s.evictions && Older(s, s.evictions[e].gen, id, u)
        && CoversSeat(s.evictions[e].scope, s.rooms, id, u);
      assert Older(after, after.evictions[e].gen, id, u) && CoversSeat(after.evictions[e].scope, after.rooms, id, u);
    }
  }

  /** One eviction moves on, and rooms may shrink: it must not skip a participant it still owes a visit. */
  ghost predicate Advances(s: State, after: State, ev: nat) {
    && ev in s.evictions && ev in after.evictions
    && Shrinks(s.rooms, after.rooms)
    && SocketsFollow(s.sockets, after.sockets)
    && after == s.(evictions := s.evictions[ev := after.evictions[ev]], rooms := after.rooms, sockets := after.sockets)
    && after.evictions[ev].scope == s.evictions[ev].scope && after.evictions[ev].gen == s.evictions[ev].gen
    && (after.evictions[ev].closing ==> after.evictions[ev].todo == [] && after.evictions[ev].current.None?)
    && (forall id, u | In(after.rooms, id, u) ::
          CoversSeat(s.evictions[ev].scope, s.rooms, id, u) && Awaits(s.evictions[ev], id, u) ==>
            Awaits(after.evictions[ev], id, u))
  }

  lemma AdvancesKeeps(s: State, after: State, ev: nat)
    requires Basics(s) && Auth(s) && Advances(s, after, ev)
    ensures Basics(after) && Auth(after)
  {
    var mid := after.(evictions := s.evictions);
    AdvancesQuiet(s, after, ev);
    QuietKeeps(s, mid);
    AdvancesBasics(mid, after, ev);
    AdvancesSeats(mid, after, ev);
    AdvancesReach(s, after, ev);
  }

  lemma AdvancesQuiet(s: State, after: State, ev: nat)
    requires Advances(s, after, ev)
    ensures Quiet(s, after.(evictions := s.evictions))
  {
    var mid := after.(evictions := s.evictions);
    forall a | a in mid.activations ensures ActFollows(s, mid, a) {
      assert mid.activations[a] == s.activations[a].(pc := mid.activations[a].pc);
    }
  }

  ghost predicate SameButEvictions(mid: State, after: State, ev: nat) {
    && ev in mid.evictions && ev in after.evictions
    && after == mid.(evictions := mid.evictions[ev := after.evictions[ev]])
    && after.evictions[ev].scope == mid.evictions[ev].scope && after.evictions[ev].gen == mid.evictions[ev].gen
  }

  lemma AdvancesBasics(mid: State, after: State, ev: nat)
    requires Basics(mid) && ActsJustified(mid) && SameButEvictions(mid, after, ev)
    requires after.evictions[ev].closing ==> after.evictions[ev].todo == [] && after.evictions[ev].current.None?
    ensures Basics(after) && ActsJustified(after)
  {
    forall a | a in after.activations ensures ActOk(after, after.activations[a]) {
      assert ActOk(mid, mid.activations[a]);
    }
  }

  lemma AdvancesSeats(mid: State, after: State, ev: nat)
    requires SeatsJustified(mid) && FinishedClean(mid) && SameButEvictions(mid, after, ev)
    ensures SeatsJustified(after) && FinishedClean(after)
  {
    assert forall g, id, u :: Older(mid, g, id, u) == Older(after, g, id, u);
    forall id, u | In(after.rooms, id, u) ensures SeatJustified(after, id, u) {
      assert SeatJustified(mid, id, u);
      if !Justified(mid, mid.rooms.byId[id].orgId, mid.rooms.byId[id].spaceId, u) {
        var e :| e in mid.evictions && Older(mid, mid.evictions[e].gen, id, u)
          && CoversSeat(mid.evictions[e].scope, mid.rooms, id, u);
        assert Older(after, after.evictions[e].gen, id, u) && CoversSeat(after.evictions[e].scope, after.rooms, id, u);
      }
    }
  }

  lemma AdvancesReach(s: State, after: State, ev: nat)
    requires EvictionsReach(s) && Advances(s, after, ev)
    ensures EvictionsReach(after)
  {
    forall e, id, u | e in after.evictions && In(after.rooms, id, u)
      && Older(after, after.evictions[e].gen, id, u) && CoversSeat(after.evictions[e].scope, after.rooms, id, u)
      ensures Awaits(after.evictions[e], id, u)
    {
      assert In(s.rooms, id, u) && Older(s, s.evictions[e].gen, id, u)
        && CoversSeat(s.evictions[e].scope, s.rooms, id, u);
    }
  }

  lemma EvictRoomKeeps(s: State, ev: nat, listed: seq<string>)
    requires Basics(s) && Auth(s) && EvictEnabled(s, EvictRoom(ev, listed))
    ensures Basics(ApplyEvictRoom(s, ev, listed)) && Auth(ApplyEvictRoom(s, ev, listed))
  {
    var after := ApplyEvictRoom(s, ev, listed);
    var e, e' := s.evictions[ev], after.evictions[ev];
    forall id, u | In(after.rooms, id, u) && CoversSeat(e.scope, s.rooms, id, u) && Awaits(e, id, u)
      ensures Awaits(e', id, u)
    {
      if id !in e.todo[1..] {
        assert id == e.todo[0];
      }
    }
    AdvancesKeeps(s, after, ev);
  }

  lemma EvictTargetShrinks(s: State, ev: nat)
    requires RoomsOk(s) && EvictEnabled(s, EvictTarget(ev))
    ensures !In(ApplyEvictTarget(s, ev).rooms, s.evictions[ev].current.value, s.evictions[ev].targets[0])
    ensures Shrinks(s.rooms, ApplyEvictTarget(s, ev).rooms)
  {
    var id, u := s.evictions[ev].current.value, s.evictions[ev].targets[0];
    ShrinksSelf(s.rooms);
    if In(s.rooms, id, u) {
      var sock := s.rooms.byId[id].participants[u].socketId;
      assert SeatOk(s.sockets, s.rooms.byId[id].orgId, u, sock);
      RemoveShrinks(s.rooms, id, u, sock);
      H.RemoveKeeps(s.rooms, id, u, sock);
    }
  }

  lemma EvictTargetAdvances(s: State, ev: nat)
    requires RoomsOk(s) && EvictionsOk(s) && EvictEnabled(s, EvictTarget(ev))
    ensures Advances(s, ApplyEvictTarget(s, ev), ev)
  {
    var after := ApplyEvictTarget(s, ev);
    var e, e' := s.evictions[ev], after.evictions[ev];
    EvictTargetShrinks(s, ev);
    hide RoomsOk, H.RemoveParticipant, H.ParticipantSocketId, H.WellFormed;
    forall x, v | In(after.rooms, x, v) && CoversSeat(e.scope, s.rooms, x, v) && Awaits(e, x, v)
      ensures Awaits(e', x, v)
    {
      if x !in e.todo {
        assert v in e.targets && v != e.targets[0];
        assert v in e.targets[1..];
      }
    }
  }

  lemma EvictTargetKeeps(s: State, ev: nat)
    requires Basics(s) && Auth(s) && EvictEnabled(s, EvictTarget(ev))
    ensures Basics(ApplyEvictTarget(s, ev)) && Auth(ApplyEvictTarget(s, ev))
  {
    EvictTargetAdvances(s, ev);
    hide Advances, ApplyEvictTarget, Auth;
    AdvancesKeeps(s, ApplyEvictTarget(s, ev), ev);
  }

  lemma EvictRoomEndKeeps(s: State, ev: nat)
    requires Basics(s) && Auth(s) && EvictEnabled(s, EvictRoomEnd(ev))
    ensures Basics(ApplyEvictRoomEnd(s, ev)) && Auth(ApplyEvictRoomEnd(s, ev))
  {
    EvictRoomEndAdvances(s, ev);
    AdvancesKeeps(s, ApplyEvictRoomEnd(s, ev), ev);
  }

  lemma EvictRoomEndAdvances(s: State, ev: nat)
    requires H.WellFormed(s.rooms) && EvictionsOk(s)
    requires ev in s.evictions && s.evictions[ev].current.Some? && s.evictions[ev].targets == []
    ensures Advances(s, ApplyEvictRoomEnd(s, ev), ev)
  {
    ShrinksSelf(s.rooms);
    DestroyShrinks(s.rooms, s.evictions[ev].current.value);
  }

  lemma EvictCloseKeeps(s: State, ev: nat)
    requires Basics(s) && Auth(s) && EvictEnabled(s, EvictClose(ev))
    ensures Basics(ApplyEvictClose(s, ev)) && Auth(ApplyEvictClose(s, ev))
  {
    EvictCloseAdvances(s, ev);
    AdvancesKeeps(s, ApplyEvictClose(s, ev), ev);
  }

  lemma EvictCloseAdvances(s: State, ev: nat)
    requires H.WellFormed(s.rooms)
    requires ev in s.evictions && s.evictions[ev].current.None? && s.evictions[ev].todo == []
    ensures Advances(s, ApplyEvictClose(s, ev), ev)
  {
    var after := ApplyEvictClose(s, ev);
    var e := s.evictions[ev];
    ClosingFollows(s.sockets, e.scope);
    ShrinksSelf(s.rooms);
  }

  lemma ShrinksSelf(rs: H.Rooms)
    requires H.WellFormed(rs)
    ensures Shrinks(rs, rs)
  {
  }

  lemma ClosingFollows(sockets: map<string, Socket>, scope: Scope)
    ensures SocketsFollow(sockets, SocketsAfterClose(sockets, scope))
  {
  }

  lemma DropShrinks(s: State, sock: string)
    requires H.WellFormed(s.rooms) && sock in s.sockets
    ensures Shrinks(s.rooms, Drop(s, sock).rooms)
  {
    if s.sockets[sock].phase.Ready? {
      LeaveAllShrinks(s.rooms, H.RoomIdsForSocket(s.rooms, sock), s.sockets[sock].userId, sock);
    } else {
      ShrinksSelf(s.rooms);
    }
  }

  lemma DropElsewhere(s: State, sock: string)
    requires sock in s.sockets
    ensures QuietElsewhere(s, Drop(s, sock))
  {
    SameActs(s, Drop(s, sock));
  }

  lemma EvictReturnKeeps(s: State, ev: nat)
    requires Basics(s) && Auth(s) && EvictEnabled(s, EvictReturn(ev))
    ensures Basics(ApplyEvictReturn(s, ev)) && Auth(ApplyEvictReturn(s, ev))
  {
    var after := ApplyEvictReturn(s, ev);
    assert RoomsOk(after);
    forall a | a in after.activations ensures ActOk(after, after.activations[a]) {
      assert ActOk(s, s.activations[a]);
    }
    ReturnKeepsAuth(s, ev);
  }

  lemma ReturnKeepsAuth(s: State, ev: nat)
    requires EvictionsOk(s) && Auth(s) && EvictEnabled(s, EvictReturn(ev))
    ensures Auth(ApplyEvictReturn(s, ev))
  {
    var after := ApplyEvictReturn(s, ev);
    assert forall g, id, u :: Older(s, g, id, u) == Older(after, g, id, u);
    forall id, u | In(after.rooms, id, u) ensures SeatJustified(after, id, u) {
      assert SeatJustified(s, id, u);
      if !Justified(s, s.rooms.byId[id].orgId, s.rooms.byId[id].spaceId, u) {
        var e :| e in s.evictions && Older(s, s.evictions[e].gen, id, u)
          && CoversSeat(s.evictions[e].scope, s.rooms, id, u);
        assert Awaits(s.evictions[e], id, u) && e != ev;
        assert Older(after, after.evictions[e].gen, id, u) && CoversSeat(after.evictions[e].scope, after.rooms, id, u);
      }
    }
    forall f, id, u | f in after.finished && In(after.rooms, id, u) && CoversSeat(f.0, after.rooms, id, u)
      ensures !Older(after, f.1, id, u)
    {
      if f !in s.finished {
        assert f == (s.evictions[ev].scope, s.evictions[ev].gen);
        assert !Awaits(s.evictions[ev], id, u);
      }
    }
  }

  // ---- steps that let somebody in ----

  /** One participant enters, on a check that is justified now and made under the current generation. */
  ghost predicate Enters(s: State, after: State, roomId: string, userId: string, sock: string) {
    && after == s.(rooms := after.rooms, activations := after.activations, usedIds := after.usedIds,
                   authGen := s.authGen[(roomId, userId) := s.gen])
    && s.usedIds <= after.usedIds
    && (forall a | a in after.activations :: ActFollows(s, after, a))
    && H.WellFormed(after.rooms)
    && In(after.rooms, roomId, userId)
    && SeatOk(s.sockets, after.rooms.byId[roomId].orgId, userId, sock)
    && after.rooms.byId[roomId].participants[userId].socketId == sock
    && Justified(s, after.rooms.byId[roomId].orgId, after.rooms.byId[roomId].spaceId, userId)
    && (roomId !in s.rooms.byId ==> roomId !in s.usedIds && roomId in after.usedIds)
    && (forall id | id in after.rooms.byId && (id != roomId || id in s.rooms.byId) ::
          id in s.rooms.byId && after.rooms.byId[id].spaceId == s.rooms.byId[id].spaceId
          && after.rooms.byId[id].orgId == s.rooms.byId[id].orgId)
    && (forall id, u | In(after.rooms, id, u) && !(id == roomId && u == userId) ::
          In(s.rooms, id, u)
            && after.rooms.byId[id].participants[u].socketId == s.rooms.byId[id].participants[u].socketId)
  }

  lemma EntersKeeps(s: State, after: State, roomId: string, userId: string, sock: string)
    requires Basics(s) && Auth(s) && Enters(s, after, roomId, userId, sock)
    ensures Basics(after) && Auth(after)
  {
    EntersBasics(s, after, roomId, userId, sock);
    EntersActs(s, after, roomId, userId, sock);
    EntersSeats(s, after, roomId, userId, sock);
    EntersEvictions(s, after, roomId, userId, sock);
  }

  lemma EntersRooms(s: State, after: State, roomId: string, userId: string, sock: string)
    requires RoomsOk(s) && Enters(s, after, roomId, userId, sock)
    ensures RoomsOk(after)
  {
    forall id, u | In(after.rooms, id, u)
      ensures SeatOk(after.sockets, after.rooms.byId[id].orgId, u, after.rooms.byId[id].participants[u].socketId)
      ensures (id, u) in after.authGen && after.authGen[(id, u)] <= after.gen
    {
      if !(id == roomId && u == userId) {
        assert In(s.rooms, id, u);
        assert SeatOk(s.sockets, s.rooms.byId[id].orgId, u, s.rooms.byId[id].participants[u].socketId);
      }
    }
  }

  lemma EntersAct(s: State, after: State, roomId: string, userId: string, sock: string, a: nat)
    requires ActsOk(s) && Enters(s, after, roomId, userId, sock) && a in after.activations
    ensures ActOk(after, after.activations[a])
  {
    assert ActFollows(s, after, a);
    assert a in s.activations ==> ActOk(s, s.activations[a]);
  }

  lemma EntersBasics(s: State, after: State, roomId: string, userId: string, sock: string)
    requires Basics(s) && Enters(s, after, roomId, userId, sock)
    ensures Basics(after)
  {
    EntersRooms(s, after, roomId, userId, sock);
    forall a | a in after.activations ensures ActOk(after, after.activations[a]) {
      EntersAct(s, after, roomId, userId, sock, a);
    }
    hide RoomsOk, ActOk;
  }

  lemma EntersActs(s: State, after: State, roomId: string, userId: string, sock: string)
    requires ActsOk(s) && ActsJustified(s) && Enters(s, after, roomId, userId, sock)
    ensures ActsJustified(after)
  {
    forall a | a in after.activations && Holds(after.activations[a]) && after.activations[a].sock in after.sockets
      ensures after.activations[a].gen < after.gen
        || Justified(after, after.sockets[after.activations[a].sock].orgId, after.activations[a].spaceId,
                     after.sockets[after.activations[a].sock].userId)
    {
      assert ActFollows(s, after, a);
      if a in s.activations {
        assert ActOk(s, s.activations[a]);
        var k := s.sockets[s.activations[a].sock];
        SameJustified(s, after, k.orgId, s.activations[a].spaceId, k.userId);
      }
    }
  }

  lemma EntersSeats(s: State, after: State, roomId: string, userId: string, sock: string)
    requires SeatsJustified(s) && Enters(s, after, roomId, userId, sock)
    ensures SeatsJustified(after)
  {
    forall id, u | In(after.rooms, id, u) ensures SeatJustified(after, id, u) {
      SameJustified(s, after, after.rooms.byId[id].orgId, after.rooms.byId[id].spaceId, u);
      if !(id == roomId && u == userId) {
        assert In(s.rooms, id, u) && SeatJustified(s, id, u);
        if !Justified(s, s.rooms.byId[id].orgId, s.rooms.byId[id].spaceId, u) {
          var e :| e in s.evictions && Older(s, s.evictions[e].gen, id, u)
            && CoversSeat(s.evictions[e].scope, s.rooms, id, u);
          assert Older(after, after.evictions[e].gen, id, u)
            && CoversSeat(after.evictions[e].scope, after.rooms, id, u);
        }
      }
    }
  }

  lemma EntersEvictions(s: State, after: State, roomId: string, userId: string, sock: string)
    requires EvictionsOk(s) && EvictionsReach(s) && FinishedClean(s) && Enters(s, after, roomId, userId, sock)
    ensures EvictionsReach(after) && FinishedClean(after)
  {
    forall e, id, u | e in after.evictions && In(after.rooms, id, u)
      && Older(after, after.evictions[e].gen, id, u) && CoversSeat(after.evictions[e].scope, after.rooms, id, u)
      ensures Awaits(after.evictions[e], id, u)
    {
      assert !(id == roomId && u == userId);
      assert In(s.rooms, id, u) && Older(s, s.evictions[e].gen, id, u)
        && CoversSeat(s.evictions[e].scope, s.rooms, id, u);
    }
    forall f, id, u | f in after.finished && In(after.rooms, id, u) && CoversSeat(f.0, after.rooms, id, u)
      ensures !Older(after, f.1, id, u)
    {
      if !(id == roomId && u == userId) {
        assert In(s.rooms, id, u) && CoversSeat(f.0, s.rooms, id, u) && !Older(s, f.1, id, u);
      }
    }
  }

  lemma NoConflict(rs: H.Rooms, userId: string, orgId: string, allowed: Option<string>)
    requires H.WellFormed(rs) && H.ConflictingRoomId(rs, userId, orgId, allowed).None?
    ensures forall x | H.HasUser(rs, x, userId, orgId) :: allowed == Some(x)
  {
    forall x | H.HasUser(rs, x, userId, orgId) ensures allowed == Some(x) {
      assert x in rs.order;
      assert x in H.RoomIdsForUser(rs, userId, orgId);
    }
  }

  lemma JoinFinishKeeps(s: State, act: nat, joined: bool)
    requires Basics(s) && Auth(s) && At(s, act, Join, AwaitJoin)
    ensures Basics(ApplyJoinFinish(s, act, joined)) && Auth(ApplyJoinFinish(s, act, joined))
  {
    var a := s.activations[act];
    var k := s.sockets[a.sock];
    if JoinEnters(s, act, joined) {
      JoinFinishEnters(s, act, joined);
      EntersKeeps(s, ApplyJoinFinish(s, act, joined), a.roomId, k.userId, a.sock);
    } else {
      EndQuiet(s, act);
      QuietKeeps(s, End(s, act));
    }
  }

  predicate JoinEnters(s: State, act: nat, joined: bool)
    requires At(s, act, Join, AwaitJoin)
  {
    var a := s.activations[act];
    var k := s.sockets[a.sock];
    && joined && a.gen == s.gen && MayEnter(s, a, k) && !H.IsParticipant(s.rooms, a.roomId, k.userId, a.sock)
    && H.AddParticipant(s.rooms, a.roomId, H.Participant(k.userId, "", false, a.sock)).1
  }

  lemma JoinFinishEnters(s: State, act: nat, joined: bool)
    requires RoomsOk(s) && ActsOk(s) && ActsJustified(s) && At(s, act, Join, AwaitJoin) && JoinEnters(s, act, joined)
    ensures Enters(s, ApplyJoinFinish(s, act, joined), s.activations[act].roomId,
                   s.sockets[s.activations[act].sock].userId, s.activations[act].sock)
  {
    var after := ApplyJoinFinish(s, act, joined);
    var a := s.activations[act];
    var k := s.sockets[a.sock];
    assert ActOk(s, a);
    var p := H.Participant(k.userId, "", false, a.sock);
    NoConflict(s.rooms, k.userId, k.orgId, Some(a.roomId));
    H.AddKeeps(s.rooms, a.roomId, p);
    AddedSeats(s.rooms, a.roomId, p);
    EndFollows(s, after, act);
  }

  /**
   * `huddle:create` is refused exactly when the user is busy elsewhere or the
   * space's room has somebody in it; otherwise it cannot lose the reservation or
   * fail to enter, and it leaves the fresh room with the creator alone in it,
   * everybody else where they were, and all rooms of other spaces.
   */
  lemma CreateEntersFreshRoom(rs: H.Rooms, newId: string, spaceId: string, orgId: string, p: H.Participant)
    requires H.WellFormed(rs) && newId !in rs.byId
    ensures TryCreate(rs, newId, spaceId, orgId, p).Entered? ==>
      OthersStand(rs, TryCreate(rs, newId, spaceId, orgId, p).rooms, newId, spaceId, orgId, p)
    ensures TryCreate(rs, newId, spaceId, orgId, p).Refused? <==>
      exists x :: x in rs.byId && rs.byId[x].orgId == orgId
        && (In(rs, x, p.userId) || (rs.byId[x].spaceId == spaceId && rs.byId[x].participants != map[]))
    ensures TryCreate(rs, newId, spaceId, orgId, p).Refused? || TryCreate(rs, newId, spaceId, orgId, p).Entered?
    ensures TryCreate(rs, newId, spaceId, orgId, p).Entered? ==>
      CreatedFrom(rs, TryCreate(rs, newId, spaceId, orgId, p).rooms, newId, spaceId, orgId, p)
  {
    var found := H.GetRoomBySpace(rs, spaceId, orgId);
    RefusalMeaning(rs, spaceId, orgId, p.userId);
    if !TryCreate(rs, newId, spaceId, orgId, p).Refused? {
      var cleared := if found.Some? then H.DestroyRoom(rs, found.value) else rs;
      ClearedRooms(rs, spaceId, orgId);
      H.ReserveKeeps(cleared, newId, spaceId, orgId, p.userId);
      NoConflict(rs, p.userId, orgId, found);
      NewRoomKeeps(cleared, newId, spaceId, orgId, p);
      CreateSparesOthers(rs, newId, spaceId, orgId, p);
      hide OthersStand;
    }
  }

  /** Nobody but the creator has come or gone, and no other space has lost its room or its timeout. */
  ghost predicate OthersStand(rs: H.Rooms, after: H.Rooms, newId: string, spaceId: string, orgId: string,
                              p: H.Participant) {
    && H.Seat(after, newId, p.userId) == Some(p) && H.SameSeatsBut(rs, after, newId, p.userId)
    && (forall id | id in rs.byId && !(rs.byId[id].spaceId == spaceId && rs.byId[id].orgId == orgId) ::
          id in after.byId && after.byId[id] == rs.byId[id])
  }

  lemma CreateSparesOthers(rs: H.Rooms, newId: string, spaceId: string, orgId: string, p: H.Participant)
    requires H.WellFormed(rs) && newId !in rs.byId && TryCreate(rs, newId, spaceId, orgId, p).Entered?
    ensures OthersStand(rs, TryCreate(rs, newId, spaceId, orgId, p).rooms, newId, spaceId, orgId, p)
  {
    var found := H.GetRoomBySpace(rs, spaceId, orgId);
    var cleared := if found.Some? then H.DestroyRoom(rs, found.value) else rs;
    ClearedSpares(rs, spaceId, orgId);
    H.ReserveAdds(cleared, newId, spaceId, orgId, p.userId);
    H.AddSeats(H.ReserveRoom(cleared, newId, spaceId, orgId, p.userId).0, newId, p);
    hide H.DestroyRoom, H.ReserveRoom, H.GetRoomBySpace, H.ConflictingRoomId, H.WellFormed, H.SameRooms;
    hide H.AddParticipant;
    AddSpares(cleared, newId, spaceId, orgId, p);
  }

  lemma AddSpares(rs: H.Rooms, newId: string, spaceId: string, orgId: string, p: H.Participant)
    requires newId !in rs.byId && H.ReserveRoom(rs, newId, spaceId, orgId, p.userId).2
    ensures
      var after := H.AddParticipant(H.ReserveRoom(rs, newId, spaceId, orgId, p.userId).0, newId, p).0;
      && H.Seat(after, newId, p.userId) == Some(p) && H.SameSeatsBut(rs, after, newId, p.userId)
      && (forall id | id in rs.byId :: id in after.byId && after.byId[id] == rs.byId[id])
  {
    hide H.GetRoomBySpace;
  }

  /** Replacing an empty room takes away nobody's seat. */
  lemma ClearedSpares(rs: H.Rooms, spaceId: string, orgId: string)
    requires H.WellFormed(rs)
    ensures
      var found := H.GetRoomBySpace(rs, spaceId, orgId);
      var cleared := if found.Some? then H.DestroyRoom(rs, found.value) else rs;
      && (found.Some? ==> H.IsOfSpace(rs, found.value, spaceId, orgId))
      && cleared.byId.Keys == rs.byId.Keys - (if found.Some? then {found.value} else {})
      && (forall id | id in cleared.byId :: cleared.byId[id] == rs.byId[id])
      && (found.Some? && ParticipantIds(rs, found.value) == {} ==> H.SameSeats(rs, cleared))
  {
    var found := H.GetRoomBySpace(rs, spaceId, orgId);
    SpaceRoomFound(rs, spaceId, orgId);
    if found.Some? { H.DestroyTakesOne(rs, found.value); }
    hide H.DestroyRoom, H.GetRoomBySpace, H.WellFormed, H.Unarmed, H.SameTimersBut;
  }

  ghost predicate CreatedFrom(rs: H.Rooms, after: H.Rooms, newId: string, spaceId: string, orgId: string,
                              p: H.Participant) {
    && H.WellFormed(after) && newId in after.byId
    && after.byId[newId] == H.Room(newId, spaceId, orgId, p.userId, map[p.userId := p], None)
    && (forall id | id in after.byId && id != newId :: id in rs.byId && after.byId[id] == rs.byId[id])
  }

  lemma RefusalMeaning(rs: H.Rooms, spaceId: string, orgId: string, userId: string)
    requires H.WellFormed(rs)
    ensures
      var found := H.GetRoomBySpace(rs, spaceId, orgId);
      (|| H.ConflictingRoomId(rs, userId, orgId, found).Some?
       || (found.Some? && ParticipantIds(rs, found.value) != {})) <==>
      exists x :: x in rs.byId && rs.byId[x].orgId == orgId
        && (In(rs, x, userId) || (rs.byId[x].spaceId == spaceId && rs.byId[x].participants != map[]))
  {
    var found := H.GetRoomBySpace(rs, spaceId, orgId);
    var conflict := H.ConflictingRoomId(rs, userId, orgId, found);
    SpaceRoomFound(rs, spaceId, orgId);
    if conflict.Some? {
      assert H.HasUser(rs, conflict.value, userId, orgId);
      assert In(rs, conflict.value, userId);
    } else {
      NoConflict(rs, userId, orgId, found);
      if found.Some? && ParticipantIds(rs, found.value) == {} {
        forall x | x in rs.byId && rs.byId[x].orgId == orgId
          ensures !In(rs, x, userId) && !(rs.byId[x].spaceId == spaceId && rs.byId[x].participants != map[])
        {
          assert In(rs, x, userId) ==> H.HasUser(rs, x, userId, orgId);
        }
      } else if found.None? {
        forall x | x in rs.byId && rs.byId[x].orgId == orgId ensures !In(rs, x, userId) {
          assert In(rs, x, userId) ==> H.HasUser(rs, x, userId, orgId);
        }
      }
    }
  }

  lemma SpaceRoomFound(rs: H.Rooms, spaceId: string, orgId: string)
    requires H.OrderMatches(rs) && H.OneRoomPerSpace(rs)
    ensures forall x | x in rs.byId && rs.byId[x].spaceId == spaceId && rs.byId[x].orgId == orgId ::
      H.GetRoomBySpace(rs, spaceId, orgId) == Some(x)
    ensures H.GetRoomBySpace(rs, spaceId, orgId).Some? ==>
      H.IsOfSpace(rs, H.GetRoomBySpace(rs, spaceId, orgId).value, spaceId, orgId)
  {
    var found := H.GetRoomBySpace(rs, spaceId, orgId);
    forall x | x in rs.byId && rs.byId[x].spaceId == spaceId && rs.byId[x].orgId == orgId ensures found == Some(x) {
      assert x in rs.order && H.IsOfSpace(rs, x, spaceId, orgId);
    }
  }

  lemma ClearedRooms(rs: H.Rooms, spaceId: string, orgId: string)
    requires H.WellFormed(rs)
    ensures
      var found := H.GetRoomBySpace(rs, spaceId, orgId);
      var cleared := if found.Some? then H.DestroyRoom(rs, found.value) else rs;
      && H.WellFormed(cleared)
      && (forall x :: x in cleared.byId ==> !(cleared.byId[x].spaceId == spaceId && cleared.byId[x].orgId == orgId))
  {
    var found := H.GetRoomBySpace(rs, spaceId, orgId);
    SpaceRoomFound(rs, spaceId, orgId);
    if found.Some? { H.DestroyKeeps(rs, found.value); }
  }

  lemma NewRoomKeeps(rs: H.Rooms, newId: string, spaceId: string, orgId: string, p: H.Participant)
    requires H.WellFormed(rs) && newId !in rs.byId && H.GetRoomBySpace(rs, spaceId, orgId).None?
    requires H.WellFormed(H.CreateRoom(rs, newId, spaceId, orgId, p.userId))
    requires forall x :: !H.HasUser(rs, x, p.userId, orgId)
    ensures
      var (after, added) := H.AddParticipant(H.CreateRoom(rs, newId, spaceId, orgId, p.userId), newId, p);
      added && CreatedFrom(rs, after, newId, spaceId, orgId, p)
  {
    var reserved := H.CreateRoom(rs, newId, spaceId, orgId, p.userId);
    forall x | H.HasUser(reserved, x, p.userId, orgId) ensures x == newId {
      assert x != newId ==> H.HasUser(rs, x, p.userId, orgId);
    }
    H.AddKeeps(reserved, newId, p);
  }

  function CreateTry(s: State, act: nat, newId: string): CreateOutcome
    requires act in s.activations && s.activations[act].sock in s.sockets
  {
    var a := s.activations[act];
    var k := s.sockets[a.sock];
    TryCreate(s.rooms, newId, a.spaceId, k.orgId, H.Participant(k.userId, "", false, a.sock))
  }

  lemma CreateResumeKeeps(s: State, act: nat, newId: string)
    requires Basics(s) && Auth(s) && AtAccess(s, act, Create) && newId !in s.usedIds
    ensures Basics(ApplyCreateResume(s, act, newId)) && Auth(ApplyCreateResume(s, act, newId))
  {
    var a := s.activations[act];
    var k := s.sockets[a.sock];
    CreateEntersFreshRoom(s.rooms, newId, a.spaceId, k.orgId, H.Participant(k.userId, "", false, a.sock));
    if a.gen == s.gen && a.pc == GotAccess(true) && CreateTry(s, act, newId).Entered? {
      CreateResumeEnters(s, act, newId);
      EntersKeeps(s, ApplyCreateResume(s, act, newId), newId, k.userId, a.sock);
    } else {
      EndQuiet(s, act);
      QuietKeeps(s, End(s, act));
    }
  }

  lemma CreateResumeEnters(s: State, act: nat, newId: string)
    requires RoomsOk(s) && ActsOk(s) && ActsJustified(s) && newId !in s.usedIds
    requires act in s.activations && s.activations[act].sock in s.sockets && s.activations[act].kind.Create?
    requires s.activations[act].gen == s.gen && s.activations[act].pc == GotAccess(true)
    requires CreateTry(s, act, newId).Entered?
    ensures
      var a := s.activations[act];
      Enters(s, ApplyCreateResume(s, act, newId), newId, s.sockets[a.sock].userId, a.sock)
  {
    var a := s.activations[act];
    var k := s.sockets[a.sock];
    var p := H.Participant(k.userId, "", false, a.sock);
    assert ActOk(s, a);
    CreateEntersFreshRoom(s.rooms, newId, a.spaceId, k.orgId, p);
    CreatedEnters(s, ApplyCreateResume(s, act, newId), act, newId, p);
  }

  lemma CreatedEnters(s: State, after: State, act: nat, newId: string, p: H.Participant)
    requires ActsOk(s) && ActsJustified(s) && newId !in s.usedIds
    requires act in s.activations && s.activations[act].kind.Create? && s.activations[act].gen == s.gen
    requires s.activations[act].pc == GotAccess(true) && newId !in s.rooms.byId
    requires
      var a := s.activations[act];
      SeatOk(s.sockets, s.sockets[a.sock].orgId, p.userId, a.sock) && p.socketId == a.sock
    requires CreatedFrom(s.rooms, after.rooms, newId, s.activations[act].spaceId,
                         s.sockets[s.activations[act].sock].orgId, p)
    requires after == s.(rooms := after.rooms, usedIds := s.usedIds + {newId},
                         authGen := s.authGen[(newId, p.userId) := s.activations[act].gen],
                         activations := s.activations[act := s.activations[act].(roomId := newId, pc := AwaitJoin)])
    ensures Enters(s, after, newId, p.userId, p.socketId)
  {
    var a := s.activations[act];
    assert ActOk(s, a);
    SameJustified(s, after, s.sockets[a.sock].orgId, a.spaceId, p.userId);
    CreateResumeActs(s, after, act, newId);
  }

  lemma CreateResumeActs(s: State, after: State, act: nat, newId: string)
    requires act in s.activations && ActOk(s, s.activations[act]) && s.activations[act].kind.Create?
    requires after.gen == s.gen && after.sockets == s.sockets
    requires after.activations == s.activations[act := s.activations[act].(roomId := newId, pc := AwaitJoin)]
    requires
      var k := s.sockets[s.activations[act].sock];
      Justified(after, k.orgId, s.activations[act].spaceId, k.userId)
    ensures forall x | x in after.activations :: ActFollows(s, after, x)
  {
    forall x | x in after.activations ensures ActFollows(s, after, x) {
      if x == act {
        assert ActOk(after, after.activations[act]);
      } else {
        assert after.activations[x] == s.activations[x].(pc := after.activations[x].pc);
      }
    }
  }

  lemma EndFollows(s: State, after: State, act: nat)
    requires after.activations == s.activations - {act}
    ensures forall a | a in after.activations :: ActFollows(s, after, a)
  {
    forall a | a in after.activations ensures ActFollows(s, after, a) {
      assert after.activations[a] == s.activations[a].(pc := after.activations[a].pc);
    }
  }

  lemma EndQuiet(s: State, act: nat)
    requires H.WellFormed(s.rooms)
    ensures Quiet(s, End(s, act))
  {
    ShrinksSelf(s.rooms);
    EndFollows(s, End(s, act), act);
  }

  lemma AddedSeats(rs: H.Rooms, roomId: string, p: H.Participant)
    requires H.AddParticipant(rs, roomId, p).1
    ensures var after := H.AddParticipant(rs, roomId, p).0;
      && after.byId.Keys == rs.byId.Keys
      && In(after, roomId, p.userId) && after.byId[roomId].participants[p.userId] == p
      && (forall id | id in after.byId ::
            after.byId[id].spaceId == rs.byId[id].spaceId && after.byId[id].orgId == rs.byId[id].orgId)
      && (forall id, u | In(after, id, u) && !(id == roomId && u == p.userId) ::
            In(rs, id, u) && after.byId[id].participants[u] == rs.byId[id].participants[u])
  {
  }

  // ---- the remaining steps let nobody in ----

  lemma SameActs(s: State, after: State)
    requires after.activations == s.activations
    ensures forall a | a in after.activations :: ActFollows(s, after, a)
  {
    forall a | a in after.activations ensures ActFollows(s, after, a) {
      assert after.activations[a] == s.activations[a].(pc := after.activations[a].pc);
    }
  }

  lemma ConnectionStepShrinks(s: State, step: ConnectionStep)
    requires H.WellFormed(s.rooms) && ConnectionEnabled(s, step)
    ensures Shrinks(s.rooms, ConnectionApply(s, step).rooms)
  {
    ShrinksSelf(s.rooms);
    if Resumed(s, step).None? {
      DropShrinks(s, step.sock);
    }
  }

  lemma ConnectionStepElsewhere(s: State, step: ConnectionStep)
    requires ConnectionEnabled(s, step)
    ensures QuietElsewhere(s, ConnectionApply(s, step))
  {
    ConnectionStepAuthority(s, step);
    ConnectionStepSockets(s, step);
    SameActs(s, ConnectionApply(s, step));
  }

  lemma ConnectionStepAuthority(s: State, step: ConnectionStep)
    requires ConnectionEnabled(s, step)
    ensures SameAuthority(s, ConnectionApply(s, step)) && ConnectionApply(s, step).activations == s.activations
  {
    ConnectionStepFrame(s, step);
    hide ConnectionApply;
  }

  lemma ConnectionStepSockets(s: State, step: ConnectionStep)
    requires ConnectionEnabled(s, step)
    ensures SocketsFollow(s.sockets, ConnectionApply(s, step).sockets)
  {
    ResumedIdentity(s, step);
    SocketReplaced(s.sockets, ConnectionApply(s, step).sockets, step.sock);
  }

  lemma ResumedIdentity(s: State, step: ConnectionStep)
    requires ConnectionEnabled(s, step)
    ensures step.sock != "" || step.sock in s.sockets
    ensures
      var r := Resumed(s, step);
      r.Some? && step.sock in s.sockets ==>
        && r.value.userId == s.sockets[step.sock].userId && r.value.orgId == s.sockets[step.sock].orgId
        && !s.sockets[step.sock].phase.Ready? && !s.sockets[step.sock].phase.Gone?
  {
  }

  lemma SocketReplaced(before: map<string, Socket>, after: map<string, Socket>, sock: string)
    requires sock != "" || sock in before
    requires after == before || (sock in after && after == before[sock := after[sock]])
    requires sock in before ==>
      sock in after && after[sock].userId == before[sock].userId && after[sock].orgId == before[sock].orgId
    requires sock in before && (before[sock].phase.Ready? || before[sock].phase.Gone?) ==>
      after[sock].phase.Ready? || after[sock].phase.Gone?
    ensures SocketsFollow(before, after)
  {
  }

  lemma SyncStepShrinks(s: State, step: SyncStep)
    requires H.WellFormed(s.rooms) && SyncEnabled(s, step)
    ensures Shrinks(s.rooms, SyncApply(s, step).rooms)
  {
    ShrinksSelf(s.rooms);
    match step {
      case Leave(sock, roomId) => LeaveOneShrinks(s.rooms, roomId, s.sockets[sock].userId, sock);
      case Mute(sock, roomId, muted) => MuteShrinks(s.rooms, roomId, s.sockets[sock].userId, sock, muted);
      case TimerFires(timer) => FireShrinks(s.rooms, timer);
      case _ =>
    }
  }

  lemma SyncStepElsewhere(s: State, step: SyncStep)
    requires SyncEnabled(s, step)
    ensures QuietElsewhere(s, SyncApply(s, step))
  {
    SyncStepFrame(s, step);
    hide SyncApply;
    SameActs(s, SyncApply(s, step));
  }

  lemma OneActFollows(s: State, after: State, act: nat)
    requires act in after.activations && after.activations == s.activations[act := after.activations[act]]
    requires ActFollows(s, after, act)
    ensures forall a | a in after.activations :: ActFollows(s, after, a)
  {
    forall a | a in after.activations ensures ActFollows(s, after, a) {
      if a != act { assert after.activations[a] == s.activations[a].(pc := after.activations[a].pc); }
    }
  }

  lemma SpaceJoinActFollows(s: State, step: SpaceJoinStep)
    requires ActsOk(s) && SpaceJoinEnabled(s, step)
    ensures step.act in SpaceJoinApply(s, step).activations ==> ActFollows(s, SpaceJoinApply(s, step), step.act)
  {
    var after := SpaceJoinApply(s, step);
    assert step.act in s.activations ==> ActOk(s, s.activations[step.act]);
    assert step.StartSpaceJoin? ==> ActOk(after, after.activations[step.act]);
  }

  lemma SpaceJoinStepElsewhere(s: State, step: SpaceJoinStep)
    requires ActsOk(s) && SpaceJoinEnabled(s, step)
    ensures QuietElsewhere(s, SpaceJoinApply(s, step)) && SpaceJoinApply(s, step).rooms == s.rooms
  {
    var after := SpaceJoinApply(s, step);
    SpaceJoinStepFrame(s, step);
    SpaceJoinActFollows(s, step);
    hide SpaceJoinApply;
    if step.act in after.activations {
      OneActFollows(s, after, step.act);
    } else {
      EndFollows(s, after, step.act);
    }
  }

  /** Creating and joining aside, the huddle handlers let nobody in. */
  lemma HuddleStepShrinks(s: State, step: HuddleStep)
    requires H.WellFormed(s.rooms) && HuddleEnabled(s, step) && !step.CreateResume? && !step.JoinFinish?
    ensures Shrinks(s.rooms, HuddleApply(s, step).rooms)
  {
    ShrinksSelf(s.rooms);
    if step.CreateFinish? {
      var a := s.activations[step.act];
      RollbackShrinks(s.rooms, a.roomId, s.sockets[a.sock].userId, a.sock);
    }
  }

  lemma HuddleStepElsewhere(s: State, step: HuddleStep)
    requires RoomsOk(s) && ActsOk(s) && DbOk(s.db) && HuddleEnabled(s, step) && !step.CreateResume? && !step.JoinFinish?
    ensures QuietElsewhere(s, HuddleApply(s, step))
  {
    var after := HuddleApply(s, step);
    HandlerStepFrame(s, step);
    if step.act in after.activations {
      HuddleActFollows(s, step);
      OneActFollows(s, after, step.act);
    } else {
      EndFollows(s, after, step.act);
    }
  }

  lemma StartedFollows(s: State, after: State, act: nat)
    requires act !in s.activations && act in after.activations && after == s.(activations := after.activations)
    requires after.activations[act].pc.AwaitAccess? && ActOk(s, after.activations[act])
    ensures ActFollows(s, after, act)
  {
  }

  /** The database's answer is the database as it stands. */
  lemma ReadFollows(s: State, act: nat)
    requires ActsOk(s) && DbOk(s.db) && HuddleEnabled(s, ReadAccess(act))
    ensures ActFollows(s, ApplyReadAccess(s, act), act)
  {
    var a := s.activations[act];
    assert ActOk(s, a);
    var after := ApplyReadAccess(s, act);
    assert ActOk(after, after.activations[act]);
  }

  lemma JoinResumeFollows(s: State, act: nat)
    requires AtAccess(s, act, Join) && act in ApplyJoinResume(s, act).activations
    ensures ActFollows(s, ApplyJoinResume(s, act), act)
  {
    hide MayEnter;
  }

  lemma HuddleActFollows(s: State, step: HuddleStep)
    requires RoomsOk(s) && ActsOk(s) && DbOk(s.db) && HuddleEnabled(s, step) && !step.CreateResume? && !step.JoinFinish?
    requires step.act in HuddleApply(s, step).activations
    ensures ActFollows(s, HuddleApply(s, step), step.act)
  {
    hide ActFollows, ApplyReadAccess, ApplyJoinResume, ApplyCreateResume, ApplyJoinFinish;
    match step {
      case ReadAccess(act) => ReadFollows(s, act);
      case JoinResume(act) => JoinResumeFollows(s, act);
      case StartCreate(act, sock, spaceId) => hide ApplyStartJoin; StartedFollows(s, HuddleApply(s, step), act);
      case StartJoin(act, sock, roomId) =>
        assert roomId in s.usedIds;
        StartedFollows(s, HuddleApply(s, step), act);
      case _ => assert false;
    }
  }

  lemma HuddleStepKeeps(s: State, step: HuddleStep)
    requires Basics(s) && Auth(s) && DbOk(s.db) && HuddleEnabled(s, step)
    ensures Basics(HuddleApply(s, step)) && Auth(HuddleApply(s, step))
  {
    if step.CreateResume? { CreateResumeKeeps(s, step.act, step.newId); }
    else if step.JoinFinish? { JoinFinishKeeps(s, step.act, step.joined); }
    else {
      HuddleStepShrinks(s, step);
      HuddleStepElsewhere(s, step);
      QuietKeeps(s, HuddleApply(s, step));
    }
  }

  lemma EvictDisconnectKeeps(s: State, ev: nat, sock: string)
    requires Basics(s) && Auth(s) && EvictEnabled(s, EvictDisconnect(ev, sock))
    ensures Basics(ApplyEvictDisconnect(s, ev, sock)) && Auth(ApplyEvictDisconnect(s, ev, sock))
  {
    var e := s.evictions[ev];
    var next := s.(evictions := s.evictions[ev := e.(toDisconnect := e.toDisconnect - {sock})]);
    ShrinksSelf(s.rooms);
    AdvancesKeeps(s, next, ev);
    if Live(s, sock) {
      DropShrinks(next, sock);
      DropElsewhere(next, sock);
      QuietKeeps(next, Drop(next, sock));
    }
  }

  lemma EvictStepKeeps(s: State, step: EvictStep)
    requires Basics(s) && Auth(s) && EvictEnabled(s, step)
    ensures Basics(EvictApply(s, step)) && Auth(EvictApply(s, step))
  {
    match step {
      case EvictStart(ev, rev) => EvictStartKeeps(s, rev, ev);
      case EvictRoom(ev, listed) => EvictRoomKeeps(s, ev, listed);
      case EvictTarget(ev) => EvictTargetKeeps(s, ev);
      case EvictRoomEnd(ev) => EvictRoomEndKeeps(s, ev);
      case EvictClose(ev) => EvictCloseKeeps(s, ev);
      case EvictDisconnect(ev, sock) => EvictDisconnectKeeps(s, ev, sock);
      case EvictReturn(ev) => EvictReturnKeeps(s, ev);
    }
  }

  /** Every step keeps the bookkeeping and authorization invariants. */
  lemma StepKeepsAuth(s: State, step: Step)
    requires Basics(s) && Auth(s) && DbOk(s.db) && Enabled(s, step)
    ensures Basics(Apply(s, step)) && Auth(Apply(s, step))
  {
    match step {
      case Database(d) => DbStepOnlyDb(s, d); OnlyDbKeeps(s, DbApply(s, d));
      case Evicting(e) => EvictStepKeeps(s, e);
      case Connecting(c) =>
        ConnectionStepShrinks(s, c);
        ConnectionStepElsewhere(s, c);
        QuietKeeps(s, ConnectionApply(s, c));
      case SpaceJoining(j) =>
        ShrinksSelf(s.rooms);
        SpaceJoinStepElsewhere(s, j);
        QuietKeeps(s, SpaceJoinApply(s, j));
      case Huddling(h) => HuddleStepKeeps(s, h);
      case Sync(y) =>
        SyncStepShrinks(s, y);
        SyncStepElsewhere(s, y);
        QuietKeeps(s, SyncApply(s, y));
    }
  }
}
