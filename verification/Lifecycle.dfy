/**
 The life of a room, for any calls at all: no assumption is made about sockets, codes or ids.
 */
module Lifecycle {
  import opened Wrappers
  import opened Registry

  function Rank(st: RoomState): nat {
    match st
    case Waiting => 0
    case Pending => 1
    case Active => 2
    case Ended => 3
  }

  /** What each state says about the guest and the session id. */
  ghost predicate RoomOk(r: Room) {
    && (r.state == Waiting ==> r.guest.None?)
    && (r.state == Pending || r.state == Active ==> r.guest.Some?)
    && (r.sessionId.Some? ==> r.state == Active || r.state == Ended)
    && (r.state == Active ==> r.sessionId.Some?)
  }

  /** True in every reachable state; the code index only ever holds waiting and pending rooms. */
  ghost predicate Life(s: State) {
    && Wf(s)
    && (forall i | 0 <= i < |s.rooms| :: RoomOk(s.rooms[i]))
    && (forall c | c in s.byCode :: s.rooms[s.byCode[c]].state in {Waiting, Pending})
  }

  /** What one step may do to a room that already exists. */
  ghost predicate Evolves(r: Room, q: Room) {
    && q.code == r.code && q.createdAt == r.createdAt && q.expiresAt == r.expiresAt
    && Rank(r.state) <= Rank(q.state)
    && q.host.identity.deviceId == r.host.identity.deviceId
    && (r.guest.None? && q.guest.Some? ==> r.state == Waiting && q.state == Pending)
    && (r.guest.Some? && q.guest.Some? ==>
          q.guest.value.identity.deviceId == r.guest.value.identity.deviceId)
    && (r.guest.Some? && q.guest.None? ==> q.state == Ended)
    && (r.sessionId.Some? ==> q.sessionId == r.sessionId)
    && (r.sessionId.None? && q.sessionId.Some? ==> r.state == Pending && q.state == Active)
  }

  /** One step keeps `Life`, moves old rooms along `Evolves` and creates rooms only as waiting. */
  ghost predicate GoodStep(s: State, t: State) {
    && Life(t)
    && |s.rooms| <= |t.rooms|
    && (forall i | 0 <= i < |s.rooms| :: Evolves(s.rooms[i], t.rooms[i]))
    && (forall i | |s.rooms| <= i < |t.rooms| :: t.rooms[i].state == Waiting)
  }

  lemma ExpireGood(s: State, now: int)
    requires Life(s)
    ensures GoodStep(s, Expire(s, now))
    ensures |Expire(s, now).rooms| == |s.rooms|
    ensures forall i | 0 <= i < |s.rooms| ::
              Expire(s, now).rooms[i] == s.rooms[i] || Expire(s, now).rooms[i] == s.rooms[i].(state := Ended)
  {
    ExpireWf(s, now);
  }

  lemma OpenRoomGood(ttl: int, s: State, socket: Socket, code: string, identity: Identity, now: int)
    requires Life(s)
    ensures GoodStep(s, OpenRoom(ttl, s, socket, code, identity, now).0)
  {
    OpenRoomWf(ttl, s, socket, code, identity, now);
  }

  lemma JoinRoomGood(s: State, socket: Socket, code: string, identity: Identity)
    requires Life(s)
    ensures GoodStep(s, JoinRoom(s, socket, code, identity).0)
  {
    JoinRoomWf(s, socket, code, identity);
  }

  lemma ApproveGood(s: State, socket: Socket, uuid: Uuid)
    requires Life(s)
    ensures GoodStep(s, Approve(s, socket, uuid).0)
  {
    ApproveWf(s, socket, uuid);
  }

  lemma RejectGood(s: State, socket: Socket)
    requires Life(s)
    ensures GoodStep(s, Reject(s, socket).0)
  {
    RejectWf(s, socket);
  }

  lemma ReconnectGood(s: State, socket: Socket, sessionId: string, identity: Identity)
    requires Life(s)
    ensures GoodStep(s, Reconnect(s, socket, sessionId, identity).0)
  {
    ReconnectWf(s, socket, sessionId, identity);
    var t := Reconnect(s, socket, sessionId, identity).0;
    hide Wf;
    forall i | 0 <= i < |s.rooms|
      ensures RoomOk(t.rooms[i]) && Evolves(s.rooms[i], t.rooms[i])
    {
      assert RoomOk(s.rooms[i]);
    }
    hide RoomOk, Evolves;
  }

  lemma ReleaseGood(s: State, socket: Socket)
    requires Life(s)
    ensures GoodStep(s, Release(s, socket).0)
  {
    ReleaseWf(s, socket);
    var t := Release(s, socket).0;
    ReleaseShrinks(s, socket);
    forall i | 0 <= i < |s.rooms|
      ensures RoomOk(t.rooms[i]) && Evolves(s.rooms[i], t.rooms[i])
    {
      ReleaseEvolves(s, socket, i);
    }
    hide Release, RoomOk, Evolves, Wf;
  }

  lemma ReleaseEvolves(s: State, socket: Socket, i: nat)
    requires Life(s) && i < |s.rooms| && |Release(s, socket).0.rooms| == |s.rooms|
    ensures RoomOk(Release(s, socket).0.rooms[i]) && Evolves(s.rooms[i], Release(s, socket).0.rooms[i])
  {
    assert RoomOk(s.rooms[i]);
  }

  /** Releasing creates no room and no code, and ends the room whose code it deletes. */
  lemma ReleaseShrinks(s: State, socket: Socket)
    requires Life(s)
    ensures var t := Release(s, socket).0;
            && |t.rooms| == |s.rooms|
            && (Wf(t) ==> forall c | c in t.byCode :: t.rooms[t.byCode[c]].state in {Waiting, Pending})
  {
    hide RoomOk, Evolves;
  }

  /** A registration is the sweep followed by its own step; the two compose. */
  lemma AfterSweep(s: State, m: State, t: State)
    requires GoodStep(s, m) && GoodStep(m, t) && |m.rooms| == |s.rooms|
    requires forall i | 0 <= i < |s.rooms| :: m.rooms[i] == s.rooms[i] || m.rooms[i] == s.rooms[i].(state := Ended)
    ensures GoodStep(s, t)
  {
    forall i | 0 <= i < |s.rooms|
      ensures Evolves(s.rooms[i], t.rooms[i])
    {
      assert Evolves(m.rooms[i], t.rooms[i]);
    }
  }

  lemma StepGood(ttl: int, s: State, e: Event)
    requires Life(s)
    ensures GoodStep(s, Step(ttl, s, e))
  {
    match e
    case HostRegisters(k, code, identity, now) =>
      ExpireGood(s, now);
      OpenRoomGood(ttl, Expire(s, now), k, code, identity, now);
      AfterSweep(s, Expire(s, now), Step(ttl, s, e));
    case GuestRegisters(k, code, identity, now) =>
      ExpireGood(s, now);
      JoinRoomGood(Expire(s, now), k, code, identity);
      AfterSweep(s, Expire(s, now), Step(ttl, s, e));
    case Approves(k, uuid) => ApproveGood(s, k, uuid);
    case Rejects(k) => RejectGood(s, k);
    case Reconnects(k, sessionId, identity) => ReconnectGood(s, k, sessionId, identity);
    case Releases(k) => ReleaseGood(s, k);
    case Sweeps(now) => ExpireGood(s, now);
  }

  /** In every run, rooms keep their invariants, states only move forward and `Ended` absorbs. */
  lemma {:induction false} RunMovesForward(ttl: int, s: State, es: seq<Event>)
    requires Life(s)
    ensures Life(Run(ttl, s, es))
    ensures |s.rooms| <= |Run(ttl, s, es).rooms|
    ensures forall i | 0 <= i < |s.rooms| ::
              var r, q := s.rooms[i], Run(ttl, s, es).rooms[i];
              && q.code == r.code && q.expiresAt == r.expiresAt
              && Rank(r.state) <= Rank(q.state)
              && (r.state == Ended ==> q.state == Ended)
              && (r.sessionId.Some? ==> q.sessionId == r.sessionId)
    decreases |es|
  {
    if es != [] {
      StepGood(ttl, s, es[0]);
      var t := Step(ttl, s, es[0]);
      RunMovesForward(ttl, t, es[1..]);
      forall i | 0 <= i < |s.rooms|
        ensures Rank(s.rooms[i].state) <= Rank(Run(ttl, t, es[1..]).rooms[i].state)
        ensures s.rooms[i].sessionId.Some? ==> Run(ttl, t, es[1..]).rooms[i].sessionId == s.rooms[i].sessionId
      {
        assert Evolves(s.rooms[i], t.rooms[i]);
      }
    }
  }

  ghost predicate HasGuest(s: State, i: nat) {
    i < |s.rooms| && s.rooms[i].guest.Some?
  }

  ghost predicate HasSession(s: State, i: nat) {
    i < |s.rooms| && s.rooms[i].sessionId.Some?
  }

  /** How many steps of the run put a guest into room `i`. */
  ghost function Admissions(ttl: int, s: State, es: seq<Event>, i: nat): nat
    requires Wf(s)
    decreases |es|
  {
    if es == [] then 0
    else
      StepWf(ttl, s, es[0]);
      var t := Step(ttl, s, es[0]);
      (if !HasGuest(s, i) && HasGuest(t, i) then 1 else 0) + Admissions(ttl, t, es[1..], i)
  }

  /** How many steps of the run give room `i` a session id. */
  ghost function Approvals(ttl: int, s: State, es: seq<Event>, i: nat): nat
    requires Wf(s)
    decreases |es|
  {
    if es == [] then 0
    else
      StepWf(ttl, s, es[0]);
      var t := Step(ttl, s, es[0]);
      (if !HasSession(s, i) && HasSession(t, i) then 1 else 0) + Approvals(ttl, t, es[1..], i)
  }

  /** Each room admits at most one guest, and none once it has left `Waiting`. */
  lemma {:induction false} AtMostOneGuest(ttl: int, s: State, es: seq<Event>, i: nat)
    requires Life(s)
    ensures Admissions(ttl, s, es, i) <= 1
    ensures i < |s.rooms| && s.rooms[i].state != Waiting ==> Admissions(ttl, s, es, i) == 0
    decreases |es|
  {
    if es != [] {
      StepGood(ttl, s, es[0]);
      var t := Step(ttl, s, es[0]);
      AtMostOneGuest(ttl, t, es[1..], i);
      if i < |s.rooms| {
        assert Evolves(s.rooms[i], t.rooms[i]);
      } else if i < |t.rooms| {
        assert RoomOk(t.rooms[i]);
      }
    }
  }

  /** Each room is approved at most once, and never once it is active or ended. */
  lemma {:induction false} AtMostOneApproval(ttl: int, s: State, es: seq<Event>, i: nat)
    requires Life(s)
    ensures Approvals(ttl, s, es, i) <= 1
    ensures i < |s.rooms| && Rank(s.rooms[i].state) >= 2 ==> Approvals(ttl, s, es, i) == 0
    decreases |es|
  {
    if es != [] {
      StepGood(ttl, s, es[0]);
      var t := Step(ttl, s, es[0]);
      AtMostOneApproval(ttl, t, es[1..], i);
      if i < |s.rooms| {
        assert Evolves(s.rooms[i], t.rooms[i]);
      } else if i < |t.rooms| {
        assert RoomOk(t.rooms[i]);
      }
    }
  }

  /** A guest is only ever admitted strictly before the room's expiry, to a room that was waiting. */
  lemma GuestJoinsBeforeExpiry(s: State, socket: Socket, code: string, identity: Identity, now: int)
    requires Life(s)
    ensures var (t, reply) := RegisterGuest(s, socket, code, identity, now);
            reply.Ok? ==>
              && reply.value < |s.rooms| && reply.value < |t.rooms|
              && s.rooms[reply.value].state == Waiting && now < s.rooms[reply.value].expiresAt
              && t.rooms[reply.value].state == Pending
              && t.rooms[reply.value].guest == Some(Peer(socket, identity))
  {
    ExpireGood(s, now);
  }

  /** The sweep's test for active rooms changes nothing: no active room is ever in the code index. */
  lemma SweepTestIsRedundant(ttl: int, es: seq<Event>, now: int)
    ensures var s := Run(ttl, EMPTY, es);
            Due(s, now) == set c | c in s.byCode && s.rooms[s.byCode[c]].expiresAt <= now :: s.byCode[c]
  {
    RunMovesForward(ttl, EMPTY, es);
    var s := Run(ttl, EMPTY, es);
    assert forall c | c in s.byCode :: s.rooms[s.byCode[c]].state != Active;
  }
}
