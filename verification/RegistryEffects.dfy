/**
 What each call of the registry answers and changes, told by the rooms alone: with exact indices the
 lookups play no part in it.  Then what a registration, a rejection and a release mean for whole runs.
 */
module RegistryEffects {
  import opened Wrappers
  import opened Registry
  import opened Lifecycle
  import opened Indices
  import opened RegistryRuns

  // ---------------------------------------------------------------- what stays as it was

  function Elsewhere<K>(m: map<K, nat>, id: nat): map<K, nat> {
    map k | k in m && m[k] != id :: m[k]
  }

  /** Nothing changes but room `id`, what leads to it, and where socket `k` leads. */
  ghost predicate OnlyRoom(s: State, t: State, id: nat, k: Socket) {
    && id < |s.rooms| == |t.rooms|
    && (forall i | 0 <= i < |s.rooms| && i != id :: t.rooms[i] == s.rooms[i])
    && Elsewhere(t.byCode, id) == Elsewhere(s.byCode, id)
    && Elsewhere(t.bySocket - {k}, id) == Elsewhere(s.bySocket - {k}, id)
    && Elsewhere(t.bySession, id) == Elsewhere(s.bySession, id)
  }

  // ---------------------------------------------------------------- registering and joining

  /** The room is open under this code at this time. */
  ghost predicate IsOpen(s: State, i: nat, code: string, now: int) {
    i < |s.rooms| && s.rooms[i].state in {Waiting, Pending} && s.rooms[i].code == code && now < s.rooms[i].expiresAt
  }

  /** The sweep leaves in the code index exactly the open rooms. */
  lemma SweptCodes(s: State, code: string, now: int)
    requires Exact(s)
    ensures var m := Expire(s, now);
            && Exact(m) && |m.rooms| == |s.rooms|
            && (code in m.byCode <==> exists i: nat :: IsOpen(s, i, code, now))
            && (forall i: nat | IsOpen(s, i, code, now) ::
                  code in m.byCode && m.byCode[code] == i && m.rooms[i] == s.rooms[i])
            && (code in m.byCode ==> IsOpen(s, m.byCode[code], code, now))
  {
    SweepIsExact(s, now);
    var m := Expire(s, now);
    forall i: nat | IsOpen(s, i, code, now)
      ensures code in m.byCode && m.byCode[code] == i && m.rooms[i] == s.rooms[i]
    {
      assert PlaceOk(s, i);
      assert !Overdue(s, now, i);
    }
    if code in m.byCode {
      assert IsOpen(s, m.byCode[code], code, now);
    }
  }

  /**
   A host's registration is refused for an empty code and for the code of an open room, and otherwise
   appends a waiting room that expires the whole lifetime later.
   */
  lemma RegisterHostIff(ttl: int, s: State, k: Socket, code: string, identity: Identity, now: int)
    requires Exact(s)
    ensures var (t, reply) := RegisterHost(ttl, s, k, code, identity, now);
            var m := Expire(s, now);
            && (reply == Err(CodeRequired) <==> code == "")
            && (reply == Err(CodeAlreadyActive) <==> code != "" && exists i: nat :: IsOpen(s, i, code, now))
            && (reply.Err? ==> reply.error in {CodeRequired, CodeAlreadyActive} && t == m)
            && (reply.Ok? ==>
                  && reply.value == |s.rooms|
                  && t.rooms == m.rooms + [Room(code, now, now + ttl, Waiting, Peer(k, identity), None, None)]
                  && t.byCode == m.byCode[code := |s.rooms|] && t.bySocket == m.bySocket[k := |s.rooms|]
                  && t.bySession == m.bySession)
  {
    SweptCodes(s, code, now);
  }

  /** A guest is admitted exactly to a waiting room that is open; a pending one is named in the refusal. */
  lemma RegisterGuestIff(s: State, k: Socket, code: string, identity: Identity, now: int, id: nat)
    requires Exact(s)
    ensures var (t, reply) := RegisterGuest(s, k, code, identity, now);
            && (reply == Ok(id) <==> IsOpen(s, id, code, now) && s.rooms[id].state == Waiting)
            && (IsOpen(s, id, code, now) && s.rooms[id].state == Pending ==> reply == Err(CodeIs(Pending)))
            && (reply == Err(CodeNotFound) <==> forall i: nat :: !IsOpen(s, i, code, now))
            && (reply.Err? ==> reply.error in {CodeIs(Pending), CodeNotFound} && t == Expire(s, now))
  {
    SweptCodes(s, code, now);
    var m := Expire(s, now);
    assert code in m.byCode ==> IsOpen(s, m.byCode[code], code, now);
  }

  /** An admitted guest turns the room to pending and holds it from then on. */
  lemma AdmissionChanges(s: State, k: Socket, code: string, identity: Identity, now: int)
    requires Exact(s) && (ExpireWf(s, now); JoinGuard(Expire(s, now), k, code))
    requires RegisterGuest(s, k, code, identity, now).1.Ok?
    ensures var (t, reply) := RegisterGuest(s, k, code, identity, now);
            var id := reply.value;
            && id < |s.rooms| && OnlyRoom(Expire(s, now), t, id, k) && Exact(t)
            && t.rooms[id] == s.rooms[id].(guest := Some(Peer(k, identity)), state := Pending)
            && Attached(t, id) && t.byCode == Expire(s, now).byCode
  {
    SweptCodes(s, code, now);
    var m := Expire(s, now);
    JoinExact(m, k, code, identity);
    var (t, reply) := RegisterGuest(s, k, code, identity, now);
    assert PlaceOk(t, reply.value) && PlaceOk(m, reply.value);
    JoinOnly(m, k, code, identity);
  }

  lemma JoinOnly(m: State, k: Socket, code: string, identity: Identity)
    requires Exact(m) && JoinGuard(m, k, code) && JoinRoom(m, k, code, identity).1.Ok?
    ensures var (t, reply) := JoinRoom(m, k, code, identity); OnlyRoom(m, t, reply.value, k)
  {
  }

  // ---------------------------------------------------------------- approving and rejecting

  /** Socket `k` is the mapped host of room `i`, and the room has a guest. */
  ghost predicate Hosts(s: State, i: nat, k: Socket) {
    && i < |s.rooms| && s.rooms[i].host.socket == k && s.rooms[i].guest.Some?
    && k in s.bySocket && s.bySocket[k] == i
  }

  /** Approval succeeds exactly for the host of a pending room, and names the state of any other. */
  lemma ApproveIff(s: State, k: Socket, uuid: Uuid, id: nat)
    requires Exact(s)
    ensures var (t, reply) := Approve(s, k, uuid);
            && (reply == Ok(id) <==> id < |s.rooms| && s.rooms[id].state == Pending && s.rooms[id].host.socket == k)
            && (Hosts(s, id, k) && s.rooms[id].state != Pending ==> reply == Err(SessionIs(s.rooms[id].state)))
            && (reply == Err(NoPendingRequest) <==> forall i: nat :: !Hosts(s, i, k))
            && (reply.Err? ==> t == s)
  {
    if id < |s.rooms| {
      assert PlaceOk(s, id) && RoomOk(s.rooms[id]);
    }
    if k in s.bySocket {
      assert Hosts(s, s.bySocket[k], k) || s.rooms[s.bySocket[k]].host.socket != k || s.rooms[s.bySocket[k]].guest.None?;
    }
  }

  /** An approved room is active under its new session id, routes both ways, and has given up its code. */
  lemma ApprovalChanges(s: State, k: Socket, uuid: Uuid)
    requires Exact(s) && ApproveGuard(s, k, uuid) && Approve(s, k, uuid).1.Ok?
    ensures var (t, reply) := Approve(s, k, uuid);
            var id := reply.value;
            && id < |s.rooms| && OnlyRoom(s, t, id, k) && Exact(t) && s.rooms[id].guest.Some?
            && t.rooms[id] == s.rooms[id].(state := Active, sessionId := Some(uuid))
            && s.rooms[id].code !in t.byCode && uuid in t.bySession && t.bySession[uuid] == id
            && GetPeer(t, k) == Ok((id, s.rooms[id].guest.value.socket))
            && GetPeer(t, s.rooms[id].guest.value.socket) == Ok((id, k))
  {
    var (t, reply) := Approve(s, k, uuid);
    ApproveExact(s, k, uuid);
    assert PlaceOk(s, reply.value) && PlaceOk(t, reply.value);
    ApproveOnly(s, k, uuid);
  }

  lemma ApproveOnly(s: State, k: Socket, uuid: Uuid)
    requires Exact(s) && ApproveGuard(s, k, uuid) && Approve(s, k, uuid).1.Ok?
    ensures OnlyRoom(s, Approve(s, k, uuid).0, Approve(s, k, uuid).1.value, k)
  {
    assert PlaceOk(s, s.bySocket[k]);
    forall u | u in s.bySession
      ensures u != uuid
    {
      assert SessionOk(s, u);
    }
  }

  /**
   In any state whatever, rejecting succeeds exactly for the mapped host of a room with a guest, in
   whatever state the room is.  It ends the room, frees its code and changes nothing else.
   */
  lemma RejectIff(s: State, k: Socket, id: nat)
    requires Wf(s)
    ensures var (t, reply) := Reject(s, k);
            && (reply == Ok(id) <==> Hosts(s, id, k))
            && (reply.Err? <==> forall i: nat :: !Hosts(s, i, k))
            && (reply.Err? ==> reply.error == NoPendingRequest && t == s)
            && (reply == Ok(id) ==>
                  && |t.rooms| == |s.rooms| && t.rooms[id] == s.rooms[id].(state := Ended)
                  && (forall i | 0 <= i < |s.rooms| && i != id :: t.rooms[i] == s.rooms[i])
                  && (forall c :: c in t.byCode <==> c in s.byCode && c != s.rooms[id].code)
                  && (forall c | c in t.byCode :: t.byCode[c] == s.byCode[c])
                  && t.bySocket == s.bySocket && t.bySession == s.bySession)
  {
    if k in s.bySocket {
      var i := s.bySocket[k];
      assert Hosts(s, i, k) <==> s.rooms[i].host.socket == k && s.rooms[i].guest.Some?;
    }
  }

  /** An ended room admits no one, is approved by no one and routes nothing, whatever is called afterwards. */
  lemma EndedForGood(ttl: int, s: State, es: seq<Event>, id: nat, k: Socket)
    requires Life(s) && id < |s.rooms| && s.rooms[id].state == Ended
    ensures var v := Run(ttl, s, es);
            && id < |v.rooms| && v.rooms[id].state == Ended && Life(v)
            && (GetPeer(v, k).Ok? ==> GetPeer(v, k).value.0 != id)
    ensures Approvals(ttl, s, es, id) == 0 && Admissions(ttl, s, es, id) == 0
  {
    RunMovesForward(ttl, s, es);
    AtMostOneApproval(ttl, s, es, id);
    AtMostOneGuest(ttl, s, es, id);
  }

  /** So a rejected room is never approved and never routed. */
  lemma RejectedForGood(ttl: int, s: State, h: Socket, es: seq<Event>, k: Socket)
    requires Life(s) && Reject(s, h).1.Ok?
    ensures var (t, reply) := Reject(s, h);
            var id := reply.value;
            && Life(t)
            && var v := Run(ttl, t, es);
            && id < |v.rooms| && v.rooms[id].state == Ended
            && Approvals(ttl, t, es, id) == 0
            && (GetPeer(v, k).Ok? ==> GetPeer(v, k).value.0 != id)
  {
    RejectGood(s, h);
    RejectIff(s, h, Reject(s, h).1.value);
    EndedForGood(ttl, Reject(s, h).0, es, Reject(s, h).1.value, k);
  }

  // ---------------------------------------------------------------- reconnecting and routing

  /** The room carries this session id, and its endpoints are still mapped. */
  ghost predicate Carries(s: State, i: nat, sessionId: string) {
    && i < |s.rooms| && s.rooms[i].sessionId.Some? && s.rooms[i].sessionId.value == sessionId
    && s.rooms[i].state == Active
  }

  predicate HostDevice(r: Room, identity: Identity) {
    r.host.identity.deviceId == identity.deviceId
  }

  predicate GuestDevice(r: Room, identity: Identity) {
    r.guest.Some? && r.guest.value.identity.deviceId == identity.deviceId
  }

  /** A reconnect finds the active room of its session, as host if that device is the host's, or else as guest. */
  lemma ReconnectIff(s: State, k: Socket, sessionId: string, identity: Identity, id: nat)
    requires Exact(s)
    ensures var (t, reply) := Reconnect(s, k, sessionId, identity);
            && (reply == Ok((id, HostRole)) <==> Carries(s, id, sessionId) && HostDevice(s.rooms[id], identity))
            && (reply == Ok((id, GuestRole)) <==>
                  && Carries(s, id, sessionId)
                  && !HostDevice(s.rooms[id], identity) && GuestDevice(s.rooms[id], identity))
            && (reply == Err(IdentityMismatch) <==>
                  exists i: nat ::
                    && Carries(s, i, sessionId)
                    && !HostDevice(s.rooms[i], identity) && !GuestDevice(s.rooms[i], identity))
            && (reply == Err(SessionNotFound) <==> sessionId !in s.bySession)
            && (reply.Err? ==> reply.error in {SessionNotFound, SessionIs(Ended), IdentityMismatch} && t == s)
  {
    if id < |s.rooms| {
      assert PlaceOk(s, id);
    }
    if sessionId in s.bySession {
      var j := s.bySession[sessionId];
      assert SessionOk(s, sessionId) && RoomOk(s.rooms[j]);
      assert s.rooms[j].state == Active ==> Carries(s, j, sessionId);
    }
    forall i: nat | Carries(s, i, sessionId)
      ensures sessionId in s.bySession && s.bySession[sessionId] == i
    {
      assert PlaceOk(s, i);
    }
  }

  /** It puts the new socket and identity in the place of the old and changes nothing else. */
  lemma ReconnectionChanges(s: State, k: Socket, sessionId: string, identity: Identity)
    requires Exact(s) && ReconnectGuard(s, k, sessionId, identity)
    requires Reconnect(s, k, sessionId, identity).1.Ok?
    ensures var (t, reply) := Reconnect(s, k, sessionId, identity);
            var (id, role) := reply.value;
            && id < |s.rooms| && OnlyRoom(s, t, id, k) && Exact(t)
            && t.rooms[id] == (if role.HostRole? then s.rooms[id].(host := Peer(k, identity))
                               else s.rooms[id].(guest := Some(Peer(k, identity))))
            && Attached(t, id) && t.byCode == s.byCode && t.bySession == s.bySession
  {
    var (t, reply) := Reconnect(s, k, sessionId, identity);
    var id := reply.value.0;
    ReconnectExact(s, k, sessionId, identity);
    assert PlaceOk(s, id) && PlaceOk(t, id);
    ReconnectOnly(s, k, sessionId, identity);
  }

  lemma ReconnectOnly(s: State, k: Socket, sessionId: string, identity: Identity)
    requires Exact(s) && Reconnect(s, k, sessionId, identity).1.Ok?
    ensures var (t, reply) := Reconnect(s, k, sessionId, identity); OnlyRoom(s, t, reply.value.0, k)
  {
    assert PlaceOk(s, s.bySession[sessionId]);
  }

  /** A socket that is not routed is not mapped, or its room is not active; no peer is ever missing. */
  lemma NotRouted(s: State, k: Socket)
    requires Exact(s)
    ensures var reply := GetPeer(s, k);
            && (reply == Err(SessionNotFound) <==> k !in s.bySocket)
            && (reply == Err(SessionNotReady) <==> k in s.bySocket && s.rooms[s.bySocket[k]].state != Active)
            && (reply.Err? ==> reply.error in {SessionNotFound, SessionNotReady})
  {
    if k in s.bySocket {
      assert SocketOk(s, k) && RoomOk(s.rooms[s.bySocket[k]]);
    }
  }

  // ---------------------------------------------------------------- releasing

  /**
   Releasing a mapped socket ends its room and unmaps the socket.  With the host all of the room goes
   from the indices; when it is the guest that goes, the host stays mapped and the room has no guest.
   */
  lemma ReleaseChanges(s: State, k: Socket)
    requires Exact(s) && ReleaseGuard(s, k)
    ensures var (t, found) := Release(s, k);
            && (found.Some? <==> k in s.bySocket) && (found.None? ==> t == s)
            && (found.Some? ==>
                  && found.value == s.bySocket[k] && OnlyRoom(s, t, found.value, k) && Exact(t)
                  && k !in t.bySocket)
  {
    var (t, found) := Release(s, k);
    ReleaseExact(s, k);
    if k in s.bySocket {
      assert SocketOk(s, k) && PlaceOk(s, s.bySocket[k]) && SocketOk(t, k);
      ReleaseOnly(s, k);
    }
  }

  lemma ReleaseOnly(s: State, k: Socket)
    requires Exact(s) && ReleaseGuard(s, k) && k in s.bySocket
    ensures OnlyRoom(s, Release(s, k).0, s.bySocket[k], k)
  {
    var t, id := Release(s, k).0, s.bySocket[k];
    assert SocketOk(s, k) && PlaceOk(s, id);
    ReleaseOnlySessions(s, k);
    hide Exact, PlaceOk, SocketOk;
    assert |t.rooms| == |s.rooms| && forall i | 0 <= i < |s.rooms| && i != id :: t.rooms[i] == s.rooms[i];
    assert Elsewhere(t.bySocket - {k}, id) == Elsewhere(s.bySocket - {k}, id);
    assert Elsewhere(t.byCode, id) == Elsewhere(s.byCode, id);
  }

  lemma ReleaseOnlySessions(s: State, k: Socket)
    requires Exact(s) && k in s.bySocket
    ensures Elsewhere(Release(s, k).0.bySession, s.bySocket[k]) == Elsewhere(s.bySession, s.bySocket[k])
  {
    var id := s.bySocket[k];
    forall u | u in s.bySession && s.rooms[id].sessionId == Some(u)
      ensures s.bySession[u] == id
    {
      assert SessionOk(s, u) && (s.bySession[u] != id ==> !ShareSession(s, s.bySession[u], id));
    }
  }

  /** What is left of the room. */
  lemma ReleasedRoom(s: State, k: Socket)
    requires Exact(s) && ReleaseGuard(s, k) && k in s.bySocket
    ensures var t, id := Release(s, k).0, s.bySocket[k];
            && |t.rooms| == |s.rooms| && t.rooms[id].state == Ended
            && (forall c | c in t.byCode :: t.byCode[c] != id)
            && (s.rooms[id].state != Ended ==> forall u | u in t.bySession :: t.bySession[u] != id)
            && (if s.rooms[id].host.socket == k then
                  && t.rooms[id] == s.rooms[id].(state := Ended) && Detached(t, id)
                  && forall u | u in t.bySession :: t.bySession[u] != id
                else
                  && s.rooms[id].guest.Some? && s.rooms[id].guest.value.socket == k
                  && t.rooms[id] == s.rooms[id].(guest := None, state := Ended) && Attached(t, id))
  {
    var t, id := Release(s, k).0, s.bySocket[k];
    assert SocketOk(s, k) && PlaceOk(s, id) && RoomOk(s.rooms[id]);
    ReleasePlaces(s, k, id);
    forall u | u in s.bySession && s.bySession[u] == id
      ensures s.rooms[id].sessionId == Some(u)
    {
      assert SessionOk(s, u);
    }
  }

  // ---------------------------------------------------------------- the lifetime of a code

  /**
   Whatever is called after a host's registration: a guest with its code is admitted to that room at
   `now` if and only if the room still waits, its code still finds it, and less than the lifetime has
   passed since the host registered.
   */
  lemma RegisteredAdmitsIff(
      ttl: int, s: State, host: Event, es: seq<Event>, k: Socket, identity: Identity, now: int)
    requires Life(s) && host.HostRegisters? && RegisterHost(ttl, s, host.socket, host.code, host.identity, host.now).1.Ok?
    ensures var (t, reply) := RegisterHost(ttl, s, host.socket, host.code, host.identity, host.now);
            var id := reply.value;
            && Life(t)
            && var v := Run(ttl, t, es);
            && id < |v.rooms| && v.rooms[id].code == host.code && v.rooms[id].expiresAt == host.now + ttl
            && (RegisterGuest(v, k, host.code, identity, now).1 == Ok(id) <==>
                  && v.rooms[id].state == Waiting && host.code in v.byCode && v.byCode[host.code] == id
                  && now < host.now + ttl)
  {
    var (t, reply) := RegisterHost(ttl, s, host.socket, host.code, host.identity, host.now);
    StepGood(ttl, s, host);
    RunMovesForward(ttl, t, es);
    ExpireWf(s, host.now);
    assert t.rooms[reply.value].expiresAt == host.now + ttl && t.rooms[reply.value].code == host.code;
    hide RegisterHost, Run;
    AdmittedIff(Run(ttl, t, es), k, host.code, identity, now, reply.value);
  }

  lemma AdmittedIff(v: State, k: Socket, code: string, identity: Identity, now: int, id: nat)
    requires Life(v) && id < |v.rooms| && v.rooms[id].code == code
    ensures RegisterGuest(v, k, code, identity, now).1 == Ok(id) <==>
              && v.rooms[id].state == Waiting && code in v.byCode && v.byCode[code] == id
              && now < v.rooms[id].expiresAt
  {
    ExpireWf(v, now);
    if code in v.byCode && v.byCode[code] == id {
      assert v.rooms[id].expiresAt <= now ==> id in Due(v, now);
    }
  }

  /**
   In a run that keeps to the environment the code finds the room as long as it waits: the guest is
   admitted exactly within the lifetime, and afterwards is told that there is no such code.
   */
  lemma RegisteredForLifetime(
      ttl: int, s: State, host: Event, es: seq<Event>, k: Socket, identity: Identity, now: int)
    requires Exact(s) && NoStaleCode(s) && host.HostRegisters?
    requires RegisterHost(ttl, s, host.socket, host.code, host.identity, host.now).1.Ok?
    requires AlwaysPolite(ttl, s, [host] + es)
    ensures var id := RegisterHost(ttl, s, host.socket, host.code, host.identity, host.now).1.value;
            var v := Run(ttl, s, [host] + es);
            && id < |v.rooms|
            && (v.rooms[id].state == Waiting ==>
                  RegisterGuest(v, k, host.code, identity, now).1
                  == if now < host.now + ttl then Ok(id) else Err(CodeNotFound))
  {
    var t, id := Step(ttl, s, host), RegisterHost(ttl, s, host.socket, host.code, host.identity, host.now).1.value;
    PoliteRunsStayExact(ttl, s, [host] + es);
    RegisteredAdmitsIff(ttl, s, host, es, k, identity, now);
    StepGood(ttl, s, host);
    assert ([host] + es)[0] == host && ([host] + es)[1..] == es;
    var v := Run(ttl, s, [host] + es);
    hide Exact, Life, RegisterHost, RegisterGuest, AlwaysPolite, AlwaysExact, NoStaleCode;
    if v.rooms[id].state == Waiting {
      WaitingIsRefused(v, k, host.code, identity, now, id);
    }
  }

  lemma WaitingIsRefused(v: State, k: Socket, code: string, identity: Identity, now: int, id: nat)
    requires Exact(v) && id < |v.rooms| && v.rooms[id].code == code && v.rooms[id].state == Waiting
    ensures code in v.byCode && v.byCode[code] == id
    ensures now >= v.rooms[id].expiresAt ==> RegisterGuest(v, k, code, identity, now).1 == Err(CodeNotFound)
  {
    assert PlaceOk(v, id);
    ExpireWf(v, now);
    assert v.rooms[id].expiresAt <= now ==> id in Due(v, now);
  }
}
