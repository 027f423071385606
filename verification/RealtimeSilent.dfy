/**
 * Runs on which a revocation that no eviction follows leaves somebody where the
 * database no longer allows them, with nothing under way that would take them out.
 */
module RealtimeSilent {
  import opened Common
  import opened Realtime
  import opened RealtimeInv
  import H = HuddleModel
  import P = Presence
  import A = RealtimeAuthProof
  import S = RealtimeSocketProof

  ghost predicate Reaches(s: State) {
    exists run :: IsRun(run) && run[|run| - 1] == s
  }

  lemma StartReached(s: State)
    requires Initial(s)
    ensures Reaches(s)
  {
    assert IsRun([s]);
  }

  predicate Leads(s: State, step: Step, after: State) {
    Enabled(s, step) && after == Apply(s, step)
  }

  lemma DbLeads(s: State, step: DbStep)
    requires DbEnabled(s, step)
    ensures Leads(s, Database(step), DbApply(s, step))
  {
  }

  lemma StepReached(s: State, step: Step, after: State)
    requires Reaches(s) && Leads(s, step, after)
    ensures Reaches(after)
  {
    hide Apply, Enabled, Initial;
    var run :| IsRun(run) && run[|run| - 1] == s;
    var longer := run + [after];
    assert Next(s, after);
    forall i | 0 < i < |longer| ensures FollowsAt(longer, i) {
      if i < |run| { assert FollowsAt(run, i); }
    }
    assert IsRun(longer);
  }

  /** Nothing is under way: no revocation, eviction, handshake or handler. */
  predicate AtRest(s: State) {
    && s.pending == map[] && s.evictions == map[] && s.activations == map[]
    && forall k | k in s.sockets :: s.sockets[k].phase.Ready? || s.sockets[k].phase.Gone?
  }

  // ---- user "u", a member of organization "o" and its space "s", on socket "k" ----

  function Begin(): State {
    var db := Db(map["s" := "o"], {}, {("s", "u")}, map[("o", "u") := Member], {}, map[("o", "u") := {Member}]);
    State(0, db, H.NoRooms, map[], map[], map[], map[], P.Start, map[], map[], {}, {})
  }

  function Shaking(phase: Phase): State {
    Begin().(sockets := map["k" := Socket("u", "o", phase, {})])
  }

  function Connected(phase: Phase, presence: P.State): State {
    var rooms := DataRooms("u", "o", Member);
    Begin().(sockets := map["k" := Socket("u", "o", phase, rooms)], roomGen := Stamp("k", rooms, 0),
             presence := presence)
  }

  function Online(): State {
    Connected(Ready, P.Track(P.Start, "u", "o", "k"))
  }

  lemma ShakeLeads()
    ensures Leads(Begin(), Connecting(Handshake("k", "o", "u")), Shaking(ReadingRole(0)))
    ensures Leads(Shaking(ReadingRole(0)), Connecting(ReadRole("k")), Shaking(RoleRead(0, Some(Member))))
  {
  }

  lemma AdmitLeads()
    ensures Leads(Shaking(RoleRead(0, Some(Member))), Connecting(HandshakeResume("k")), Shaking(Admitted(0, Member)))
    ensures Leads(Shaking(Admitted(0, Member)), Connecting(ConnectionStep.Connected("k")),
                  Shaking(Verifying(0, Member)))
  {
  }

  lemma VerifyLeads()
    ensures Leads(Shaking(Verifying(0, Member)), Connecting(Reverified("k", true)), Shaking(JoiningRooms(0, Member)))
  {
  }

  lemma JoinedLeads()
    ensures Leads(Shaking(JoiningRooms(0, Member)), Connecting(RoomsJoined("k")),
                  Connected(InRooms(0, Member), P.Start))
  {
    var joining, joined := Shaking(JoiningRooms(0, Member)), Connected(InRooms(0, Member), P.Start);
    assert Apply(joining, Connecting(RoomsJoined("k"))) == joined by {
      assert {} + DataRooms("u", "o", Member) == DataRooms("u", "o", Member);
      assert map[] + Stamp("k", DataRooms("u", "o", Member), 0) == Stamp("k", DataRooms("u", "o", Member), 0);
    }
  }

  lemma OnlineLeads()
    ensures Leads(Connected(InRooms(0, Member), P.Start), Connecting(ConnectionResume("k")), Online())
  {
  }

  lemma OnlineReached()
    ensures Reaches(Online())
  {
    StartReached(Begin());
    ShakeLeads();
    AdmitLeads();
    VerifyLeads();
    JoinedLeads();
    OnlineLeads();
    hide *;
    StepReached(Begin(), Connecting(Handshake("k", "o", "u")), Shaking(ReadingRole(0)));
    StepReached(Shaking(ReadingRole(0)), Connecting(ReadRole("k")), Shaking(RoleRead(0, Some(Member))));
    StepReached(Shaking(RoleRead(0, Some(Member))), Connecting(HandshakeResume("k")), Shaking(Admitted(0, Member)));
    StepReached(Shaking(Admitted(0, Member)), Connecting(ConnectionStep.Connected("k")), Shaking(Verifying(0, Member)));
    StepReached(Shaking(Verifying(0, Member)), Connecting(Reverified("k", true)), Shaking(JoiningRooms(0, Member)));
    StepReached(Shaking(JoiningRooms(0, Member)), Connecting(RoomsJoined("k")), Connected(InRooms(0, Member), P.Start));
    StepReached(Connected(InRooms(0, Member), P.Start), Connecting(ConnectionResume("k")), Online());
  }

  // ---- the user starts a huddle and joins the space's socket room ----

  function Creating(db: Db, pc: Pc): State {
    Online().(db := db, activations := map[0 := Activation(Create, "k", "s", "", 0, pc)])
  }

  function Huddle(): H.Rooms {
    TryCreateRooms(TryCreate(H.NoRooms, "r", "s", "o", H.Participant("u", "", false, "k")))
  }

  function TryCreateRooms(outcome: CreateOutcome): H.Rooms {
    if outcome.Refused? then H.NoRooms else outcome.rooms
  }

  function Seated(db: Db): State {
    Online().(db := db, rooms := Huddle(), usedIds := {"r"}, authGen := map[("r", "u") := 0])
  }

  lemma HuddleIs()
    ensures TryCreate(H.NoRooms, "r", "s", "o", H.Participant("u", "", false, "k")) == Entered(Huddle())
    ensures "r" in Huddle().byId && Huddle().byId["r"].spaceId == "s" && Huddle().byId["r"].orgId == "o"
    ensures In(Huddle(), "r", "u")
  {
    A.CreateEntersFreshRoom(H.NoRooms, "r", "s", "o", H.Participant("u", "", false, "k"));
  }

  function Entering(db: Db): State {
    Seated(db).(activations := map[0 := Activation(Create, "k", "s", "r", 0, AwaitJoin)])
  }

  lemma EnteringLeads(db: Db)
    ensures Leads(Creating(db, GotAccess(true)), Huddling(CreateResume(0, "r")), Entering(db))
  {
    HuddleIs();
    OnlineSocket();
    hide Huddle, TryCreate, Online, H.AddParticipant, In, AtRest, DataRooms;
  }

  lemma SeatedLeads(db: Db)
    ensures Leads(Entering(db), Huddling(CreateFinish(0, true)), Seated(db))
  {
    OnlineSocket();
    hide Huddle, TryCreate, Online, Rollback, DataRooms;
    assert Entering(db).activations - {0} == map[];
  }

  lemma SeatedReached(db: Db)
    requires Reaches(Creating(db, GotAccess(true)))
    ensures Reaches(Seated(db))
  {
    EnteringLeads(db);
    SeatedLeads(db);
    hide *;
    StepReached(Creating(db, GotAccess(true)), Huddling(CreateResume(0, "r")), Entering(db));
    StepReached(Entering(db), Huddling(CreateFinish(0, true)), Seated(db));
  }

  lemma OnlineSocket()
    ensures
      var s := Online();
      && s.gen == 0 && s.db == Begin().db && s.rooms == H.NoRooms && s.usedIds == {} && s.authGen == map[] && AtRest(s)
      && "k" in s.sockets && s.sockets["k"] == Socket("u", "o", Ready, DataRooms("u", "o", Member))
  {
  }

  lemma AskingLeads()
    ensures Leads(Online(), Huddling(StartCreate(0, "k", "s")), Creating(Begin().db, AwaitAccess))
    ensures Leads(Creating(Begin().db, AwaitAccess), Huddling(ReadAccess(0)), Creating(Begin().db, GotAccess(true)))
  {
    OnlineSocket();
    hide Online, DataRooms;
  }

  lemma AccessGranted()
    ensures Reaches(Creating(Begin().db, GotAccess(true)))
  {
    OnlineReached();
    AskingLeads();
    hide *;
    StepReached(Online(), Huddling(StartCreate(0, "k", "s")), Creating(Begin().db, AwaitAccess));
    StepReached(Creating(Begin().db, AwaitAccess), Huddling(ReadAccess(0)), Creating(Begin().db, GotAccess(true)));
  }

  function Joining(pc: Pc): State {
    Seated(Begin().db).(activations := map[0 := Activation(SpaceJoin, "k", "s", "", 0, pc)])
  }

  function WithSpace(pc: Option<Pc>): State {
    var s := Seated(Begin().db);
    var k := s.sockets["k"];
    s.(sockets := s.sockets["k" := k.(rooms := k.rooms + {SpaceRoom("s")})],
       roomGen := s.roomGen[("k", SpaceRoom("s")) := 0],
       activations := if pc.None? then map[] else map[0 := Activation(SpaceJoin, "k", "s", "", 0, pc.value)])
  }

  lemma JoiningLeads()
    ensures Leads(Seated(Begin().db), SpaceJoining(StartSpaceJoin(0, "k", "s")), Joining(AwaitAccess))
    ensures Leads(Joining(AwaitAccess), Huddling(ReadAccess(0)), Joining(GotAccess(true)))
    ensures Leads(Joining(GotAccess(true)), SpaceJoining(SpaceJoinResume(0)), Joining(AwaitJoin))
  {
    OnlineSocket();
    hide Online, Huddle, DataRooms;
  }

  lemma LandingLeads()
    ensures Leads(Joining(AwaitJoin), SpaceJoining(SpaceJoinLands(0)), WithSpace(Some(InRoom)))
    ensures Leads(WithSpace(Some(InRoom)), SpaceJoining(SpaceJoinRecheck(0)), WithSpace(None))
  {
    OnlineSocket();
    hide Online, Huddle, DataRooms;
    assert WithSpace(Some(InRoom)).activations - {0} == map[];
  }

  lemma WithSpaceReached()
    ensures Reaches(WithSpace(None))
  {
    AccessGranted();
    SeatedReached(Begin().db);
    JoiningLeads();
    LandingLeads();
    hide *;
    StepReached(Seated(Begin().db), SpaceJoining(StartSpaceJoin(0, "k", "s")), Joining(AwaitAccess));
    StepReached(Joining(AwaitAccess), Huddling(ReadAccess(0)), Joining(GotAccess(true)));
    StepReached(Joining(GotAccess(true)), SpaceJoining(SpaceJoinResume(0)), Joining(AwaitJoin));
    StepReached(Joining(AwaitJoin), SpaceJoining(SpaceJoinLands(0)), WithSpace(Some(InRoom)));
    StepReached(WithSpace(Some(InRoom)), SpaceJoining(SpaceJoinRecheck(0)), WithSpace(None));
  }

  // ---- what each silent change leaves behind ----

  /** A user without access sits in a huddle and its socket in the space's room. */
  predicate Stranded(s: State) {
    && In(s.rooms, "r", "u") && s.rooms.byId["r"].spaceId == "s" && s.rooms.byId["r"].orgId == "o"
    && !Access(s.db, "s", "u", "o")
    && IsReady(s, "k") && SpaceRoom("s") in s.sockets["k"].rooms && !S.Allowed(s.db, s.sockets["k"], SpaceRoom("s"))
  }

  /** All of `Stranded` but the loss of access. */
  predicate InPlace(s: State) {
    && In(s.rooms, "r", "u") && s.rooms.byId["r"].spaceId == "s" && s.rooms.byId["r"].orgId == "o"
    && IsReady(s, "k") && SpaceRoom("s") in s.sockets["k"].rooms
    && s.sockets["k"].userId == "u" && s.sockets["k"].orgId == "o"
  }

  lemma AtRestWithSpace()
    ensures AtRest(WithSpace(None)) && InPlace(WithSpace(None)) && WithSpace(None).db == Begin().db
  {
    OnlineSocket();
    HuddleIs();
    hide Online, Huddle, DataRooms;
  }

  lemma LosingStrands(s: State, db: Db)
    requires AtRest(s) && InPlace(s) && !Access(db, "s", "u", "o")
    ensures AtRest(s.(db := db)) && Stranded(s.(db := db))
  {
  }

  lemma SilentFrame(s: State, step: DbStep)
    requires DbEnabled(s, step) && IsSilent(step)
    ensures DbApply(s, step) == s.(db := DbApply(s, step).db)
  {
  }

  /** A silent change takes the user's access away. */
  lemma Strands(step: DbStep)
    requires DbEnabled(WithSpace(None), step) && IsSilent(step)
    requires !Access(DbApply(WithSpace(None), step).db, "s", "u", "o")
    ensures var s := DbApply(WithSpace(None), step); Reaches(s) && AtRest(s) && Stranded(s)
  {
    WithSpaceReached();
    AtRestWithSpace();
    DbLeads(WithSpace(None), step);
    SilentFrame(WithSpace(None), step);
    hide *;
    LosingStrands(WithSpace(None), DbApply(WithSpace(None), step).db);
    StepReached(WithSpace(None), Database(step), DbApply(WithSpace(None), step));
  }

  /** Deleting an agent conversation archives any space of the requester, and nobody is evicted from it. */
  lemma ArchivingStrands()
    ensures exists s :: Reaches(s) && AtRest(s) && SilentlyArchived(s.db, "s") && Stranded(s)
  {
    AtRestWithSpace();
    hide WithSpace, Reaches;
    Strands(ArchiveSilently("s"));
  }

  /** Removing an agent employee deactivates its membership, and nobody evicts it. */
  lemma DeactivationStrands()
    ensures exists s :: Reaches(s) && AtRest(s) && SilentlyRemoved(s.db, "o", "u") && Stranded(s)
  {
    AtRestWithSpace();
    hide WithSpace, Reaches;
    Strands(DeactivateSilently("o", "u"));
  }

  /** The generation stands still, so a handler that read access before the archiving seats its user after it. */
  lemma ArchivingAdmits()
    ensures exists db ::
      && Reaches(Creating(db, GotAccess(true))) && !Access(db, "s", "u", "o")
      && Creating(db, GotAccess(true)).rooms == H.NoRooms
      && Reaches(Seated(db)) && In(Seated(db).rooms, "r", "u") && AtRest(Seated(db))
  {
    AccessGranted();
    HuddleIs();
    OnlineSocket();
    hide Reaches, Online, Huddle, Leads, DataRooms;
    var s := Creating(Begin().db, GotAccess(true));
    DbLeads(s, ArchiveSilently("s"));
    var archived := DbApply(s, ArchiveSilently("s"));
    StepReached(s, Database(ArchiveSilently("s")), archived);
    SeatedReached(archived.db);
    assert Reaches(Creating(archived.db, GotAccess(true)));
  }

  /** Two racing role updates, the second skipping its eviction: a guest stays in the members-only room. */
  lemma DemotionStays()
    ensures exists s ::
      && Reaches(s) && AtRest(s) && SilentlyDemoted(s.db, "o", "u") && IsReady(s, "k")
      && OrgMembersRoom("o") in s.sockets["k"].rooms && !S.Allowed(s.db, s.sockets["k"], OrgMembersRoom("o"))
  {
    OnlineReached();
    OnlineSocket();
    hide Reaches, Online, Leads;
    DbLeads(Online(), ChangeRoleSilently("o", "u", Guest));
    var demoted := DbApply(Online(), ChangeRoleSilently("o", "u", Guest));
    StepReached(Online(), Database(ChangeRoleSilently("o", "u", Guest)), demoted);
    assert Member in demoted.db.RolesTold("o", "u");
  }
}
