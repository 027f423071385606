/**
 * The presence bookkeeping of apps/api/src/socket.ts: `onlineUsers` (user to
 * the set of its sockets), `idleUsers`, and the presence broadcasts.
 */
module Presence {
  import opened Common

  /** What is broadcast to `org:<orgId>`; a first socket and a return from idle both say "online". */
  datatype Event =
    | FirstSocket(userId: string, orgId: string)
    | LastSocket(userId: string, orgId: string)
    | WentIdle(userId: string, orgId: string)
    | WentActive(userId: string, orgId: string)

  datatype State = State(online: map<string, set<string>>, idle: set<string>, log: seq<Event>)

  const Start := State(map[], {}, [])

  function SocketsOf(p: State, userId: string): set<string> {
    if userId in p.online then p.online[userId] else {}
  }

  function Track(p: State, userId: string, orgId: string, socketId: string): State {
    var sockets := SocketsOf(p, userId) + {socketId};
    State(p.online[userId := sockets], p.idle - {userId},
          p.log + if |sockets| == 1 then [FirstSocket(userId, orgId)] else [])
  }

  function Untrack(p: State, userId: string, orgId: string, socketId: string): State {
    if userId !in p.online then p
    else
      var sockets := p.online[userId] - {socketId};
      if sockets == {} then State(p.online - {userId}, p.idle - {userId}, p.log + [LastSocket(userId, orgId)])
      else p.(online := p.online[userId := sockets])
  }

  function GoIdle(p: State, userId: string, orgId: string): State {
    if userId in p.idle then p else p.(idle := p.idle + {userId}, log := p.log + [WentIdle(userId, orgId)])
  }

  function GoActive(p: State, userId: string, orgId: string): State {
    if userId !in p.idle then p else p.(idle := p.idle - {userId}, log := p.log + [WentActive(userId, orgId)])
  }

  // ---- the imperative form ----

  class PresenceMaps {
    var onlineUsers: map<string, set<string>>
    var idleUsers: set<string>
    var broadcasts: seq<Event>

    constructor ()
      ensures View() == Start
    {
      onlineUsers, idleUsers, broadcasts := map[], {}, [];
    }

    function View(): State
      reads this
    {
      State(onlineUsers, idleUsers, broadcasts)
    }

    method OnConnected(userId: string, orgId: string, socketId: string)
      modifies this
      ensures View() == Track(old(View()), userId, orgId, socketId)
    {
      if userId !in onlineUsers { onlineUsers := onlineUsers[userId := {}]; }
      onlineUsers := onlineUsers[userId := onlineUsers[userId] + {socketId}];
      idleUsers := idleUsers - {userId};
      if |onlineUsers[userId]| == 1 { broadcasts := broadcasts + [FirstSocket(userId, orgId)]; }
    }

    method OnDisconnect(userId: string, orgId: string, socketId: string)
      modifies this
      ensures View() == Untrack(old(View()), userId, orgId, socketId)
    {
      if userId !in onlineUsers { return; }
      var sockets := onlineUsers[userId] - {socketId};
      onlineUsers := onlineUsers[userId := sockets];
      if |sockets| == 0 {
        onlineUsers := onlineUsers - {userId};
        idleUsers := idleUsers - {userId};
        broadcasts := broadcasts + [LastSocket(userId, orgId)];
        assert onlineUsers == old(onlineUsers) - {userId};
      }
    }

    method OnIdle(userId: string, orgId: string)
      modifies this
      ensures View() == GoIdle(old(View()), userId, orgId)
    {
      if userId !in idleUsers {
        idleUsers := idleUsers + {userId};
        broadcasts := broadcasts + [WentIdle(userId, orgId)];
      }
    }

    method OnActive(userId: string, orgId: string)
      modifies this
      ensures View() == GoActive(old(View()), userId, orgId)
    {
      if userId in idleUsers {
        idleUsers := idleUsers - {userId};
        broadcasts := broadcasts + [WentActive(userId, orgId)];
      }
    }
  }

  // ---- first-socket and last-socket broadcasts ----

  /** The user's comings (true) and goings (false), in the order broadcast. */
  function Moves(log: seq<Event>, userId: string): seq<bool> {
    if log == [] then []
    else
      var rest := Moves(log[..|log| - 1], userId);
      match log[|log| - 1]
      case FirstSocket(u, _) => if u == userId then rest + [true] else rest
      case LastSocket(u, _) => if u == userId then rest + [false] else rest
      case _ => rest
  }

  lemma MovesSnoc(log: seq<Event>, e: Event, userId: string)
    ensures Moves(log + [e], userId) == Moves(log, userId) +
      (if e.userId != userId then []
       else match e case FirstSocket(_, _) => [true] case LastSocket(_, _) => [false] case _ => [])
  {
    assert (log + [e])[..|log|] == log;
  }

  /** Strict alternation, starting with a coming. */
  ghost predicate Alternates(moves: seq<bool>) {
    forall i :: 0 <= i < |moves| ==> moves[i] == (i % 2 == 0)
  }

  datatype Status = Online | Idle | Offline

  /** `getUserStatus`. */
  function StatusOf(p: State, userId: string): Status {
    if userId in p.idle then Idle else if userId in p.online then Online else Offline
  }

  /** What a broadcast says of its user. */
  function Says(e: Event): Status {
    match e
    case FirstSocket(_, _) => Online
    case LastSocket(_, _) => Offline
    case WentIdle(_, _) => Idle
    case WentActive(_, _) => Online
  }

  /** What somebody who listened all along last heard of the user. */
  function Heard(log: seq<Event>, userId: string): Status {
    if log == [] then Offline
    else if log[|log| - 1].userId != userId then Heard(log[..|log| - 1], userId)
    else Says(log[|log| - 1])
  }

  /** What was heard is so, but that another tab may have ended idleness without a word. */
  ghost predicate HeardRight(p: State, userId: string) {
    || Heard(p.log, userId) == StatusOf(p, userId)
    || (Heard(p.log, userId) == Idle && StatusOf(p, userId) == Online)
  }

  lemma HeardSnoc(log: seq<Event>, e: Event, userId: string)
    ensures Heard(log + [e], userId) == if e.userId == userId then Says(e) else Heard(log, userId)
  {
    assert (log + [e])[..|log|] == log;
  }

  /** Whoever else's status stands and whose own last event says what it is now, is heard right again. */
  lemma HeardKeeps(p: State, after: State, e: Event)
    requires forall u :: HeardRight(p, u)
    requires after.log == p.log + [e] && Heard(after.log, e.userId) == StatusOf(after, e.userId)
    requires forall u | u != e.userId :: StatusOf(after, u) == StatusOf(p, u)
    ensures forall u :: HeardRight(after, u)
  {
    forall u ensures HeardRight(after, u) {
      HeardSnoc(p.log, e, u);
      assert HeardRight(p, u);
    }
  }

  /** Never an empty socket set; idle users are online; every user's broadcasts alternate and end with the truth. */
  ghost predicate Consistent(p: State) {
    && (forall u :: u in p.online ==> p.online[u] != {})
    && p.idle <= p.online.Keys
    && (forall u :: Alternates(Moves(p.log, u)) && (u in p.online <==> |Moves(p.log, u)| % 2 == 1))
    && (forall u :: HeardRight(p, u))
  }

  lemma LogKeeps(p: State, after: State, e: Event)
    requires Consistent(p) && after.log == p.log + [e]
    requires forall u :: u != e.userId ==> (u in p.online <==> u in after.online)
    requires match e
      case FirstSocket(u, _) => u !in p.online && u in after.online
      case LastSocket(u, _) => u in p.online && u !in after.online
      case _ => e.userId in p.online <==> e.userId in after.online
    ensures forall u :: Alternates(Moves(after.log, u)) && (u in after.online <==> |Moves(after.log, u)| % 2 == 1)
  {
    forall u ensures Alternates(Moves(after.log, u)) && (u in after.online <==> |Moves(after.log, u)| % 2 == 1) {
      MovesSnoc(p.log, e, u);
      assert Alternates(Moves(p.log, u)) && (u in p.online <==> |Moves(p.log, u)| % 2 == 1);
    }
  }

  lemma TrackKeeps(p: State, userId: string, orgId: string, socketId: string)
    requires Consistent(p) && socketId !in SocketsOf(p, userId)
    ensures Consistent(Track(p, userId, orgId, socketId))
    ensures
      var after := Track(p, userId, orgId, socketId);
      && (forall u :: SocketsOf(after, u) == SocketsOf(p, u) + if u == userId then {socketId} else {})
      && StatusOf(after, userId) == Online && (forall u | u != userId :: StatusOf(after, u) == StatusOf(p, u))
      && after.log == p.log + if StatusOf(p, userId) == Offline then [FirstSocket(userId, orgId)] else []
  {
    var after := Track(p, userId, orgId, socketId);
    if userId in p.online {
      var s :| s in p.online[userId];
      assert {s, socketId} <= after.online[userId] && |{s, socketId}| == 2;
      SubsetSize({s, socketId}, after.online[userId]);
      assert after.log == p.log;
      forall u ensures HeardRight(after, u) { assert HeardRight(p, u); }
    } else {
      assert after.online[userId] == {socketId};
      LogKeeps(p, after, FirstSocket(userId, orgId));
      HeardSnoc(p.log, FirstSocket(userId, orgId), userId);
      HeardKeeps(p, after, FirstSocket(userId, orgId));
    }
  }

  /** A new socket ends idleness without a word: whoever listened still takes the user to be idle. */
  lemma IdleEndsUnheard(p: State, userId: string, orgId: string, socketId: string)
    requires Consistent(p) && socketId !in SocketsOf(p, userId) && StatusOf(p, userId) == Idle
    ensures
      var after := Track(p, userId, orgId, socketId);
      StatusOf(after, userId) == Online && Heard(after.log, userId) == Idle
  {
    TrackKeeps(p, userId, orgId, socketId);
    assert HeardRight(p, userId) && p.log + [] == p.log;
    hide Track, Heard;
  }

  lemma SubsetSize<T>(a: set<T>, b: set<T>)
    requires a <= b
    ensures |a| <= |b|
  {
    assert b == a + (b - a);
  }

  lemma UntrackKeeps(p: State, userId: string, orgId: string, socketId: string)
    requires Consistent(p)
    ensures Consistent(Untrack(p, userId, orgId, socketId))
    ensures
      var after := Untrack(p, userId, orgId, socketId);
      && (forall u :: SocketsOf(after, u) == SocketsOf(p, u) - if u == userId then {socketId} else {})
      && (forall u | u != userId :: StatusOf(after, u) == StatusOf(p, u))
      && StatusOf(after, userId) == (if SocketsOf(p, userId) <= {socketId} then Offline else StatusOf(p, userId))
      && after.log == p.log +
           if StatusOf(p, userId) != Offline && SocketsOf(p, userId) <= {socketId} then [LastSocket(userId, orgId)]
             else []
  {
    UntrackTakesOne(p, userId, orgId, socketId);
    var after := Untrack(p, userId, orgId, socketId);
    if userId in p.online && p.online[userId] - {socketId} == {} {
      UntrackLast(p, after, userId, orgId);
    } else {
      forall u ensures HeardRight(after, u) { assert HeardRight(p, u); }
    }
    hide Consistent, StatusOf, SocketsOf;
  }

  lemma UntrackLast(p: State, after: State, userId: string, orgId: string)
    requires Consistent(p) && userId in p.online
    requires after == State(p.online - {userId}, p.idle - {userId}, p.log + [LastSocket(userId, orgId)])
    ensures Consistent(after)
  {
    LogKeeps(p, after, LastSocket(userId, orgId));
    HeardSnoc(p.log, LastSocket(userId, orgId), userId);
    HeardKeeps(p, after, LastSocket(userId, orgId));
    hide HeardRight, Alternates;
  }

  lemma UntrackTakesOne(p: State, userId: string, orgId: string, socketId: string)
    requires Consistent(p)
    ensures
      var after := Untrack(p, userId, orgId, socketId);
      && (forall u :: SocketsOf(after, u) == SocketsOf(p, u) - if u == userId then {socketId} else {})
      && (forall u | u != userId :: StatusOf(after, u) == StatusOf(p, u))
      && StatusOf(after, userId) == (if SocketsOf(p, userId) <= {socketId} then Offline else StatusOf(p, userId))
      && after.log == p.log +
           if StatusOf(p, userId) != Offline && SocketsOf(p, userId) <= {socketId} then [LastSocket(userId, orgId)]
             else []
  {
    hide HeardRight, Alternates;
  }

  lemma IdlingKeeps(p: State, userId: string, orgId: string)
    requires Consistent(p) && userId in p.online
    ensures
      var after := GoIdle(p, userId, orgId);
      && Consistent(after) && after.online == p.online && StatusOf(after, userId) == Idle
      && (forall u | u != userId :: StatusOf(after, u) == StatusOf(p, u))
      && after.log == p.log + if StatusOf(p, userId) == Online then [WentIdle(userId, orgId)] else []
    ensures
      var after := GoActive(p, userId, orgId);
      && Consistent(after) && after.online == p.online && StatusOf(after, userId) == Online
      && (forall u | u != userId :: StatusOf(after, u) == StatusOf(p, u))
      && after.log == p.log + if StatusOf(p, userId) == Idle then [WentActive(userId, orgId)] else []
  {
    if userId !in p.idle {
      LogKeeps(p, GoIdle(p, userId, orgId), WentIdle(userId, orgId));
      HeardSnoc(p.log, WentIdle(userId, orgId), userId);
      HeardKeeps(p, GoIdle(p, userId, orgId), WentIdle(userId, orgId));
    } else {
      LogKeeps(p, GoActive(p, userId, orgId), WentActive(userId, orgId));
      HeardSnoc(p.log, WentActive(userId, orgId), userId);
      HeardKeeps(p, GoActive(p, userId, orgId), WentActive(userId, orgId));
    }
  }

  // ---- what one organization sees ----

  function MovesSeenBy(log: seq<Event>, userId: string, orgId: string): seq<bool> {
    if log == [] then []
    else
      var rest := MovesSeenBy(log[..|log| - 1], userId, orgId);
      match log[|log| - 1]
      case FirstSocket(u, o) => if u == userId && o == orgId then rest + [true] else rest
      case LastSocket(u, o) => if u == userId && o == orgId then rest + [false] else rest
      case _ => rest
  }

  ghost predicate MovesOnlyIn(log: seq<Event>, userId: string, orgId: string) {
    forall i | 0 <= i < |log| && log[i].userId == userId && (log[i].FirstSocket? || log[i].LastSocket?) ::
      log[i].orgId == orgId
  }

  /** An organization sees all of a user's comings and goings exactly when none went to another organization. */
  lemma {:induction false} SeesAllIffOneOrg(log: seq<Event>, userId: string, orgId: string)
    ensures |MovesSeenBy(log, userId, orgId)| <= |Moves(log, userId)|
    ensures MovesSeenBy(log, userId, orgId) == Moves(log, userId) <==> MovesOnlyIn(log, userId, orgId)
  {
    if log != [] {
      var init := log[..|log| - 1];
      SeesAllIffOneOrg(init, userId, orgId);
      var e := log[|log| - 1];
      var elsewhere := e.userId == userId && (e.FirstSocket? || e.LastSocket?) && e.orgId != orgId;
      assert MovesOnlyIn(log, userId, orgId) <==> (MovesOnlyIn(init, userId, orgId) && !elsewhere) by {
        assert forall i | 0 <= i < |init| :: init[i] == log[i];
      }
      var seen, all := MovesSeenBy(init, userId, orgId), Moves(init, userId);
      assert forall b: bool :: seen + [b] == all + [b] ==> (seen + [b])[..|seen|] == (all + [b])[..|seen|];
    }
  }

  /** A user with tabs in two organizations: the first organization is never told the user left. */
  lemma TwoOrgsDisagree()
    ensures
      var p := Untrack(Untrack(Track(Track(Start, "u", "a", "s1"), "u", "b", "s2"), "u", "a", "s1"), "u", "b", "s2");
      && p.online == map[]
      && MovesSeenBy(p.log, "u", "a") == [true]
      && Moves(p.log, "u") == [true, false]
  {
    TwoMoves("u", "a", "b");
    hide Moves, MovesSeenBy;
    var p1 := Track(Start, "u", "a", "s1");
    assert p1 ==
      State(map["u" := {"s1"}], {}, [FirstSocket("u", "a")]) by { assert SocketsOf(Start, "u") + {"s1"} == {"s1"}; }
    var p2 := Track(p1, "u", "b", "s2");
    assert SocketsOf(p1, "u") + {"s2"} == {"s1", "s2"} && |{"s1", "s2"}| == 2;
    assert p2 == State(map["u" := {"s1", "s2"}], {}, [FirstSocket("u", "a")]);
    var p3 := Untrack(p2, "u", "a", "s1");
    assert {"s1", "s2"} - {"s1"} == {"s2"} && "s2" in {"s2"};
    assert p3 == State(map["u" := {"s2"}], {}, [FirstSocket("u", "a")]);
    var p4 := Untrack(p3, "u", "b", "s2");
    assert p4 == State(map[], {}, [FirstSocket("u", "a"), LastSocket("u", "b")]);
  }

  lemma TwoMoves(userId: string, here: string, there: string)
    requires here != there
    ensures
      var log := [FirstSocket(userId, here), LastSocket(userId, there)];
      MovesSeenBy(log, userId, here) == [true] && Moves(log, userId) == [true, false]
  {
    var e1, e2 := FirstSocket(userId, here), LastSocket(userId, there);
    assert [e1, e2][..1] == [e1] && [e1][..0] == [];
    assert Moves([e1], userId) == [true] && MovesSeenBy([e1], userId, here) == [true];
  }
}
