/**
 Whole runs of the registry: when the indices stay exact, what the environment must promise for
 that, and what exact indices give the relay (routing, expiry, sockets that stay gone).
 */
module RegistryRuns {
  import opened Wrappers
  import opened Registry
  import opened Lifecycle
  import opened Indices

  // ---------------------------------------------------------------- exactness, both directions

  /** One call keeps the indices exact if and only if its guard holds before the call. */
  lemma StepExact(ttl: int, s: State, e: Event)
    requires Exact(s)
    ensures Exact(Step(ttl, s, e)) <==> Guard(s, e)
  {
    match e
    case HostRegisters(k, code, identity, now) =>
      ExpireExact(s, now);
      OpenExact(ttl, Expire(s, now), k, code, identity, now);
    case GuestRegisters(k, code, identity, now) =>
      ExpireExact(s, now);
      JoinExact(Expire(s, now), k, code, identity);
    case Approves(k, uuid) => ApproveExact(s, k, uuid);
    case Rejects(k) => RejectExact(s, k);
    case Reconnects(k, sessionId, identity) => ReconnectExact(s, k, sessionId, identity);
    case Releases(k) => ReleaseExact(s, k);
    case Sweeps(now) => ExpireExact(s, now);
  }

  ghost predicate AlwaysExact(ttl: int, s: State, es: seq<Event>)
    requires Wf(s)
    decreases |es|
  {
    && Exact(s)
    && (es != [] ==> (StepWf(ttl, s, es[0]); AlwaysExact(ttl, Step(ttl, s, es[0]), es[1..])))
  }

  ghost predicate AlwaysGuarded(ttl: int, s: State, es: seq<Event>)
    requires Wf(s)
    decreases |es|
  {
    es != [] ==>
      && Guard(s, es[0])
      && (StepWf(ttl, s, es[0]); AlwaysGuarded(ttl, Step(ttl, s, es[0]), es[1..]))
  }

  /** In every run the indices are exact after every call if and only if every call met its guard. */
  lemma {:induction false} RunExact(ttl: int, s: State, es: seq<Event>)
    requires Exact(s)
    ensures AlwaysExact(ttl, s, es) <==> AlwaysGuarded(ttl, s, es)
    decreases |es|
  {
    if es != [] {
      StepExact(ttl, s, es[0]);
      StepWf(ttl, s, es[0]);
      if Guard(s, es[0]) {
        RunExact(ttl, Step(ttl, s, es[0]), es[1..]);
      }
    }
  }

  // ---------------------------------------------------------------- the environment

  function SocketOf(e: Event): set<Socket> {
    match e
    case HostRegisters(k, _, _, _) => {k}
    case GuestRegisters(k, _, _, _) => {k}
    case Reconnects(k, _, _) => {k}
    case _ => {}
  }

  /** No room that is still attached to a socket carries this code, unless the code is in use and refused. */
  ghost predicate CodeUnheld(s: State, code: string)
    requires Wf(s)
  {
    code !in s.byCode ==> forall k | k in s.bySocket :: s.rooms[s.bySocket[k]].code != code
  }

  /**
   What the code expects of its surroundings but does not check: a socket that registers or
   reconnects is not mapped at that moment (after the sweep, where there is one), random session ids
   do not repeat, and a host does not pick the code of a session whose peers are still connected.
   */
  ghost predicate Polite(s: State, e: Event)
    requires Wf(s)
  {
    && (e.HostRegisters? || e.GuestRegisters? ==> (ExpireWf(s, e.now); e.socket !in Expire(s, e.now).bySocket))
    && (e.Reconnects? ==> e.socket !in s.bySocket)
    && (e.Approves? ==> forall i | 0 <= i < |s.rooms| :: s.rooms[i].sessionId != Some(e.uuid))
    && (e.HostRegisters? ==> (ExpireWf(s, e.now); CodeUnheld(Expire(s, e.now), e.code)))
  }

  ghost predicate AlwaysPolite(ttl: int, s: State, es: seq<Event>)
    requires Wf(s)
    decreases |es|
  {
    es != [] ==>
      && Polite(s, es[0])
      && (StepWf(ttl, s, es[0]); AlwaysPolite(ttl, Step(ttl, s, es[0]), es[1..]))
  }

  /** No attached room could delete another room's code. */
  ghost predicate NoStaleCode(s: State)
    requires Wf(s)
  {
    forall k | k in s.bySocket :: OwnsCode(s, s.bySocket[k])
  }

  /** A step maps no socket but the one it was given. */
  lemma KeysGrowByOwnSocket(ttl: int, s: State, e: Event)
    requires Wf(s)
    ensures Step(ttl, s, e).bySocket.Keys <= s.bySocket.Keys + SocketOf(e)
  {
  }

  lemma ExpireNoStale(s: State, now: int)
    requires Exact(s) && NoStaleCode(s)
    ensures Wf(Expire(s, now)) && NoStaleCode(Expire(s, now))
  {
    ExpireWf(s, now);
    forall k | k in Expire(s, now).bySocket
      ensures OwnsCode(Expire(s, now), Expire(s, now).bySocket[k])
    {
      assert OwnsCode(s, s.bySocket[k]);
    }
  }

  lemma JoinNoStale(s: State, k: Socket, code: string, identity: Identity)
    requires Wf(s) && NoStaleCode(s)
    ensures Wf(JoinRoom(s, k, code, identity).0) && NoStaleCode(JoinRoom(s, k, code, identity).0)
  {
    JoinRoomWf(s, k, code, identity);
    var t := JoinRoom(s, k, code, identity).0;
    forall x | x in t.bySocket
      ensures OwnsCode(t, t.bySocket[x])
    {
      assert x in s.bySocket ==> OwnsCode(s, s.bySocket[x]);
    }
  }

  lemma OpenNoStale(ttl: int, s: State, k: Socket, code: string, identity: Identity, now: int)
    requires Wf(s) && NoStaleCode(s) && CodeUnheld(s, code)
    ensures Wf(OpenRoom(ttl, s, k, code, identity, now).0) && NoStaleCode(OpenRoom(ttl, s, k, code, identity, now).0)
  {
    OpenRoomWf(ttl, s, k, code, identity, now);
    var t := OpenRoom(ttl, s, k, code, identity, now).0;
    forall x | x in t.bySocket
      ensures OwnsCode(t, t.bySocket[x])
    {
      assert x in s.bySocket ==> OwnsCode(s, s.bySocket[x]);
    }
  }

  lemma ReconnectNoStale(s: State, k: Socket, sessionId: string, identity: Identity)
    requires Exact(s) && NoStaleCode(s)
    ensures Wf(Reconnect(s, k, sessionId, identity).0) && NoStaleCode(Reconnect(s, k, sessionId, identity).0)
  {
    ReconnectWf(s, k, sessionId, identity);
    var (t, reply) := Reconnect(s, k, sessionId, identity);
    if reply.Ok? {
      assert PlaceOk(s, reply.value.0);
      assert OwnsCode(s, reply.value.0);
    }
    forall x | x in t.bySocket
      ensures OwnsCode(t, t.bySocket[x])
    {
      assert x in s.bySocket ==> OwnsCode(s, s.bySocket[x]);
    }
  }

  /** A change that only deletes from the code and socket indices. */
  ghost predicate Shrinks(s: State, t: State) {
    && |t.rooms| == |s.rooms|
    && (forall i | 0 <= i < |s.rooms| :: t.rooms[i].code == s.rooms[i].code)
    && (forall c | c in t.byCode :: c in s.byCode && t.byCode[c] == s.byCode[c])
    && (forall k | k in t.bySocket :: k in s.bySocket && t.bySocket[k] == s.bySocket[k])
  }

  lemma ApproveShrinks(s: State, k: Socket, uuid: Uuid)
    requires Wf(s)
    ensures Shrinks(s, Approve(s, k, uuid).0)
  {
  }

  lemma RejectShrinks(s: State, k: Socket)
    requires Wf(s)
    ensures Shrinks(s, Reject(s, k).0)
  {
  }

  lemma ReleaseShrinks(s: State, k: Socket)
    requires Wf(s)
    ensures Shrinks(s, Release(s, k).0)
  {
  }

  /** Steps that only delete from the code and socket indices keep the property. */
  lemma ShrinkingNoStale(s: State, t: State)
    requires Wf(s) && Wf(t) && NoStaleCode(s) && Shrinks(s, t)
    ensures NoStaleCode(t)
  {
    forall k | k in t.bySocket
      ensures OwnsCode(t, t.bySocket[k])
    {
      assert OwnsCode(s, s.bySocket[k]);
    }
  }

  lemma DeletingNoStale(ttl: int, s: State, e: Event)
    requires Wf(s) && NoStaleCode(s) && (e.Approves? || e.Rejects? || e.Releases?)
    ensures Wf(Step(ttl, s, e)) && NoStaleCode(Step(ttl, s, e))
  {
    StepWf(ttl, s, e);
    hide Wf, NoStaleCode;
    match e
    case Approves(k, uuid) => ApproveShrinks(s, k, uuid);
    case Rejects(k) => RejectShrinks(s, k);
    case Releases(k) => ReleaseShrinks(s, k);
    ShrinkingNoStale(s, Step(ttl, s, e));
  }

  lemma PoliteGuard(s: State, e: Event)
    requires Exact(s) && NoStaleCode(s) && Polite(s, e)
    ensures Guard(s, e)
  {
    match e
    case HostRegisters(k, code, identity, now) =>
      ExpireWf(s, now);
    case GuestRegisters(k, code, identity, now) =>
      ExpireWf(s, now);
    case Rejects(k) => assert k in s.bySocket ==> OwnsCode(s, s.bySocket[k]);
    case Releases(k) => assert k in s.bySocket ==> OwnsCode(s, s.bySocket[k]);
    case _ =>
  }

  lemma PoliteKeeps(ttl: int, s: State, e: Event)
    requires Exact(s) && NoStaleCode(s) && Polite(s, e)
    ensures Wf(Step(ttl, s, e)) && NoStaleCode(Step(ttl, s, e))
  {
    match e
    case HostRegisters(k, code, identity, now) =>
      ExpireNoStale(s, now);
      OpenNoStale(ttl, Expire(s, now), k, code, identity, now);
    case GuestRegisters(k, code, identity, now) =>
      ExpireNoStale(s, now);
      JoinNoStale(Expire(s, now), k, code, identity);
    case Reconnects(k, sessionId, identity) => ReconnectNoStale(s, k, sessionId, identity);
    case Sweeps(now) => ExpireNoStale(s, now);
    case _ => DeletingNoStale(ttl, s, e);
  }

  /** Under the environment, the indices are exact after every call of every run. */
  lemma {:induction false} PoliteRunsStayExact(ttl: int, s: State, es: seq<Event>)
    requires Exact(s) && NoStaleCode(s) && AlwaysPolite(ttl, s, es)
    ensures AlwaysExact(ttl, s, es) && Exact(Run(ttl, s, es))
    decreases |es|
  {
    if es != [] {
      PoliteGuard(s, es[0]);
      PoliteKeeps(ttl, s, es[0]);
      StepExact(ttl, s, es[0]);
      PoliteRunsStayExact(ttl, Step(ttl, s, es[0]), es[1..]);
    }
  }

  /** The relay starts there: with nothing registered the indices are exact. */
  lemma EmptyIsExact()
    ensures Exact(EMPTY) && NoStaleCode(EMPTY)
  {
  }

  // ---------------------------------------------------------------- the code index can be wrong

  const HOST_A := Peer(Socket(1), Identity("ann", "d1"))
  const GUEST := Peer(Socket(2), Identity("bob", "d2"))
  const HOST_B := Peer(Socket(3), Identity("cyn", "d3"))
  const CODE := "111-222"

  const A_REGISTERS := HostRegisters(HOST_A.socket, CODE, HOST_A.identity, 0)
  const GUEST_JOINS := GuestRegisters(GUEST.socket, CODE, GUEST.identity, 1)
  const A_APPROVES := Approves(HOST_A.socket, "u1")
  const B_REGISTERS := HostRegisters(HOST_B.socket, CODE, HOST_B.identity, 2)
  const A_LEAVES := Releases(HOST_A.socket)

  /**
   Deleting by code removes another room: once a session is active its code is free; a second host
   registers it, the first host leaves, and the second room is waiting under a code nobody can join.
   */
  lemma ReusedCodeIsLost(ttl: int)
    requires ttl > 10
    ensures var t := Run(ttl, EMPTY, [A_REGISTERS, GUEST_JOINS, A_APPROVES, B_REGISTERS, A_LEAVES]);
            && |t.rooms| == 2 && t.rooms[1].state == Waiting && t.rooms[1].code == CODE
            && CODE !in t.byCode
            && !Exact(t)
  {
    var s3 := ActiveSession(ttl);
    SecondHost(ttl, s3);
    RunTwo(ttl, s3, B_REGISTERS, A_LEAVES);
    RunSplit(ttl, EMPTY, [A_REGISTERS, GUEST_JOINS, A_APPROVES], [B_REGISTERS, A_LEAVES]);
    assert [A_REGISTERS, GUEST_JOINS, A_APPROVES] + [B_REGISTERS, A_LEAVES]
        == [A_REGISTERS, GUEST_JOINS, A_APPROVES, B_REGISTERS, A_LEAVES];
    CodeLost(Run(ttl, s3, [B_REGISTERS, A_LEAVES]), 1);
  }

  lemma RunTwo(ttl: int, s: State, e: Event, f: Event)
    requires Wf(s)
    ensures Wf(Step(ttl, s, e))
    ensures Run(ttl, s, [e, f]) == Step(ttl, Step(ttl, s, e), f)
  {
    StepWf(ttl, s, e);
    StepWf(ttl, Step(ttl, s, e), f);
    assert Run(ttl, Step(ttl, s, e), [f]) == Step(ttl, Step(ttl, s, e), f);
  }

  lemma SecondHost(ttl: int, s: State)
    requires s == State([Room(CODE, 0, ttl, Active, HOST_A, Some(GUEST), Some("u1"))],
                        map[],
                        map[HOST_A.socket := 0, GUEST.socket := 0],
                        map["u1" := 0])
    ensures var t := Step(ttl, s, B_REGISTERS);
            && |t.rooms| == 2 && t.rooms[1].state == Waiting && t.rooms[1].code == CODE
            && Wf(t)
            && var q := Step(ttl, t, A_LEAVES);
            && |q.rooms| == 2 && q.rooms[1] == t.rooms[1] && CODE !in q.byCode
  {
    NothingDue(s, 2);
    var t := Step(ttl, s, B_REGISTERS);
    StepWf(ttl, s, B_REGISTERS);
    assert t.rooms[0] == s.rooms[0];
    assert t.bySocket[HOST_A.socket] == 0;
  }

  lemma ActiveSession(ttl: int) returns (s3: State)
    requires ttl > 10
    ensures s3 == Run(ttl, EMPTY, [A_REGISTERS, GUEST_JOINS, A_APPROVES])
    ensures s3 == State([Room(CODE, 0, ttl, Active, HOST_A, Some(GUEST), Some("u1"))],
                        map[],
                        map[HOST_A.socket := 0, GUEST.socket := 0],
                        map["u1" := 0])
  {
    var s1 := WaitingRoom(ttl);
    var s2 := PendingRoom(ttl, s1);
    s3 := ActiveRoom(ttl, s2);
    hide Step;
    StepWf(ttl, s2, A_APPROVES);
    assert Run(ttl, s3, []) == s3;
    assert [A_REGISTERS, GUEST_JOINS, A_APPROVES][1..] == [GUEST_JOINS, A_APPROVES];
    RunTwo(ttl, s1, GUEST_JOINS, A_APPROVES);
    assert Run(ttl, s1, [GUEST_JOINS, A_APPROVES]) == s3;
  }

  lemma WaitingRoom(ttl: int) returns (s1: State)
    requires ttl > 10
    ensures s1 == Step(ttl, EMPTY, A_REGISTERS) && Wf(s1)
    ensures s1 == State([Room(CODE, 0, ttl, Waiting, HOST_A, None, None)],
                        map[CODE := 0], map[HOST_A.socket := 0], map[])
  {
    NothingDue(EMPTY, 0);
    StepWf(ttl, EMPTY, A_REGISTERS);
    s1 := Step(ttl, EMPTY, A_REGISTERS);
  }

  lemma PendingRoom(ttl: int, s1: State) returns (s2: State)
    requires ttl > 10
    requires s1 == State([Room(CODE, 0, ttl, Waiting, HOST_A, None, None)],
                         map[CODE := 0], map[HOST_A.socket := 0], map[])
    ensures s2 == Step(ttl, s1, GUEST_JOINS) && Wf(s2)
    ensures s2 == State([Room(CODE, 0, ttl, Pending, HOST_A, Some(GUEST), None)],
                        map[CODE := 0], map[HOST_A.socket := 0, GUEST.socket := 0], map[])
  {
    NothingDue(s1, 1);
    StepWf(ttl, s1, GUEST_JOINS);
    s2 := Step(ttl, s1, GUEST_JOINS);
  }

  lemma ActiveRoom(ttl: int, s2: State) returns (s3: State)
    requires s2 == State([Room(CODE, 0, ttl, Pending, HOST_A, Some(GUEST), None)],
                         map[CODE := 0], map[HOST_A.socket := 0, GUEST.socket := 0], map[])
    ensures s3 == Step(ttl, s2, A_APPROVES) && Wf(s3)
    ensures s3 == State([Room(CODE, 0, ttl, Active, HOST_A, Some(GUEST), Some("u1"))],
                        map[], map[HOST_A.socket := 0, GUEST.socket := 0], map["u1" := 0])
  {
    StepWf(ttl, s2, A_APPROVES);
    s3 := Step(ttl, s2, A_APPROVES);
  }

  lemma {:induction false} RunSplit(ttl: int, s: State, es: seq<Event>, fs: seq<Event>)
    requires Wf(s)
    ensures Run(ttl, s, es + fs) == Run(ttl, Run(ttl, s, es), fs)
    decreases |es|
  {
    hide Step;
    if es == [] {
      assert es + fs == fs;
    } else {
      StepWf(ttl, s, es[0]);
      RunSplit(ttl, Step(ttl, s, es[0]), es[1..], fs);
      assert (es + fs)[1..] == es[1..] + fs;
    }
  }

  lemma NothingDue(s: State, now: int)
    requires Wf(s) && forall c | c in s.byCode :: s.rooms[s.byCode[c]].expiresAt > now
    ensures Expire(s, now) == s
  {
    assert Due(s, now) == {};
    assert Expire(s, now).rooms == s.rooms;
  }

  // ---------------------------------------------------------------- routing

  /** A socket is routed if and only if it is an endpoint of an active room. */
  lemma RoutedIffActive(s: State, k: Socket)
    requires Exact(s)
    ensures GetPeer(s, k).Ok? <==>
              exists i :: 0 <= i < |s.rooms| && s.rooms[i].state == Active && k in Endpoints(s.rooms[i])
  {
    assert SocketOk(s, k);
    if GetPeer(s, k).Ok? {
      assert s.rooms[s.bySocket[k]].state == Active;
    } else if i :| 0 <= i < |s.rooms| && s.rooms[i].state == Active && k in Endpoints(s.rooms[i]) {
      assert PlaceOk(s, i);
      assert RoomOk(s.rooms[i]);
    }
  }

  /** Routing is an involution between the two endpoints of one active room. */
  lemma RoutingInvolution(s: State, k: Socket)
    requires Exact(s) && GetPeer(s, k).Ok?
    ensures var (id, peer) := GetPeer(s, k).value;
            && id < |s.rooms| && s.rooms[id].state == Active
            && peer != k && Endpoints(s.rooms[id]) == {k, peer}
            && GetPeer(s, peer) == Ok((id, k))
  {
    var id := s.bySocket[k];
    assert SocketOk(s, k);
    assert PlaceOk(s, id);
    assert RoomOk(s.rooms[id]);
  }

  /** Reconnecting either role hands its route, in both directions, to the new socket alone. */
  lemma ReconnectMovesRoute(s: State, k: Socket, sessionId: string, identity: Identity)
    requires Exact(s) && ReconnectGuard(s, k, sessionId, identity)
    requires Reconnect(s, k, sessionId, identity).1.Ok?
    ensures var (t, reply) := Reconnect(s, k, sessionId, identity);
            var id := reply.value.0;
            var gone := Replaced(s, id, reply.value.1);
            && Exact(t) && gone.Some? && GetPeer(s, gone.value).Ok?
            && var peer := GetPeer(s, gone.value).value.1;
            && GetPeer(t, k) == Ok((id, peer)) && GetPeer(t, peer) == Ok((id, k))
            && (gone.value != k ==> gone.value !in t.bySocket)
  {
    var (t, reply) := Reconnect(s, k, sessionId, identity);
    ReconnectExact(s, k, sessionId, identity);
    var id := reply.value.0;
    assert PlaceOk(s, id);
    assert RoomOk(s.rooms[id]);
    assert PlaceOk(t, id);
  }

  // ---------------------------------------------------------------- expiry

  ghost predicate Overdue(s: State, now: int, i: nat)
    requires Wf(s)
  {
    exists c :: c in s.byCode && s.byCode[c] == i && s.rooms[i].expiresAt <= now
  }

  /** The sweep removes exactly the overdue rooms from every index and leaves all others untouched. */
  lemma SweepIsExact(s: State, now: int)
    requires Exact(s)
    ensures var t := Expire(s, now);
            && Exact(t) && |t.rooms| == |s.rooms|
            && (forall i | 0 <= i < |s.rooms| :: t.rooms[i] ==
                  if Overdue(s, now, i) then s.rooms[i].(state := Ended) else s.rooms[i])
            && (forall c :: c in t.byCode <==> c in s.byCode && !Overdue(s, now, s.byCode[c]))
            && (forall c | c in t.byCode :: t.byCode[c] == s.byCode[c])
            && (forall k :: k in t.bySocket <==> k in s.bySocket && !Overdue(s, now, s.bySocket[k]))
            && (forall k | k in t.bySocket :: t.bySocket[k] == s.bySocket[k])
            && t.bySession == s.bySession
            && (forall u | u in s.bySession :: !Overdue(s, now, s.bySession[u]))
  {
    ExpireExact(s, now);
    ExpireKeepsSessions(s, now);
    forall i | 0 <= i < |s.rooms|
      ensures Overdue(s, now, i) <==> i in Due(s, now)
    {
    }
    forall k
      ensures k in Expire(s, now).bySocket <==> k in s.bySocket && !Overdue(s, now, s.bySocket[k])
    {
      SweepSocket(s, now, k);
    }
    forall u | u in s.bySession
      ensures !Overdue(s, now, s.bySession[u])
    {
      assert SessionOk(s, u);
    }
  }

  lemma SweepSocket(s: State, now: int, k: Socket)
    requires Exact(s)
    ensures k in Expire(s, now).bySocket <==> k in s.bySocket && s.bySocket[k] !in Due(s, now)
  {
    assert SocketOk(s, k);
    if k in s.bySocket {
      var i := s.bySocket[k];
      assert PlaceOk(s, i);
      ExpirePlaces(s, now, i);
    }
  }

  // ---------------------------------------------------------------- sockets that stay gone

  ghost predicate FreshSockets(seen: set<Socket>, es: seq<Event>)
    decreases |es|
  {
    es != [] ==> SocketOf(es[0]) !! seen && FreshSockets(seen + SocketOf(es[0]), es[1..])
  }

  /** With fresh sockets, a socket that has left the socket index never re-enters it. */
  lemma {:induction false} GoneStaysGone(ttl: int, s: State, seen: set<Socket>, es: seq<Event>, k: Socket)
    requires Wf(s) && k in seen && k !in s.bySocket && FreshSockets(seen, es)
    ensures k !in Run(ttl, s, es).bySocket
    decreases |es|
  {
    if es != [] {
      KeysGrowByOwnSocket(ttl, s, es[0]);
      StepWf(ttl, s, es[0]);
      GoneStaysGone(ttl, Step(ttl, s, es[0]), seen + SocketOf(es[0]), es[1..], k);
    }
  }
}
