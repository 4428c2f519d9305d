/**
 When the three indices are exactly the indices of the rooms.

 `Exact` is the property the registry's lookups rely on.  Single calls can break it (the deletes go
 by code, whoever owns it, and a socket may be registered twice), so every operation has a guard,
 a test on the state before the call, and keeps `Exact` if and only if its guard holds.
 */
module Indices {
  import opened Wrappers
  import opened Registry
  import opened Lifecycle

  /** Both endpoints of the room are mapped to it, and they are different sockets. */
  ghost predicate Attached(s: State, i: nat)
    requires i < |s.rooms|
  {
    var r := s.rooms[i];
    && r.host.socket in s.bySocket && s.bySocket[r.host.socket] == i
    && (r.guest.Some? ==>
          && r.guest.value.socket in s.bySocket && s.bySocket[r.guest.value.socket] == i
          && r.guest.value.socket != r.host.socket)
  }

  ghost predicate Detached(s: State, i: nat) {
    forall k | k in s.bySocket :: s.bySocket[k] != i
  }

  /** Room `i` is in the indices exactly as its state says. */
  ghost predicate PlaceOk(s: State, i: nat)
    requires i < |s.rooms|
  {
    var r := s.rooms[i];
    && (Attached(s, i) || Detached(s, i))
    && (r.state != Ended ==> Attached(s, i))
    && (r.state in {Waiting, Pending} ==> r.code in s.byCode && s.byCode[r.code] == i)
    && (r.state == Active ==>
          r.sessionId.Some? && r.sessionId.value in s.bySession && s.bySession[r.sessionId.value] == i)
  }

  /** A mapped socket is the current host or guest of its room. */
  ghost predicate SocketOk(s: State, k: Socket)
    requires Wf(s)
  {
    k in s.bySocket ==> k in Endpoints(s.rooms[s.bySocket[k]])
  }

  /** A session id finds a room that carries it and whose endpoints are still mapped. */
  ghost predicate SessionOk(s: State, u: Uuid)
    requires Wf(s)
  {
    u in s.bySession ==> s.rooms[s.bySession[u]].sessionId == Some(u) && Attached(s, s.bySession[u])
  }

  ghost predicate ShareSession(s: State, i: nat, j: nat)
    requires i < |s.rooms| && j < |s.rooms|
  {
    s.rooms[i].sessionId.Some? && s.rooms[i].sessionId == s.rooms[j].sessionId
  }

  /**
   The three indices are exactly those of the rooms.  Together with `Life` (which every state has)
   this says: the code index holds the waiting and pending rooms, each under its own code, and
   nothing else; the socket index holds the endpoints of the attached rooms, all live rooms being
   attached; the session index finds every active room, and only attached rooms carrying that id.
   */
  ghost predicate Exact(s: State) {
    && Life(s)
    && (forall i | 0 <= i < |s.rooms| :: PlaceOk(s, i))
    && (forall k :: SocketOk(s, k))
    && (forall u :: SessionOk(s, u))
    && (forall i, j | 0 <= i < |s.rooms| && 0 <= j < |s.rooms| && i != j :: !ShareSession(s, i, j))
  }

  // ---------------------------------------------------------------- guards

  /** Mapping this socket to another room is harmless: it is free, or the host of a finished, otherwise empty room. */
  ghost predicate Replaceable(s: State, k: Socket)
    requires Wf(s)
  {
    k in s.bySocket ==>
      && s.rooms[s.bySocket[k]].state == Ended
      && s.rooms[s.bySocket[k]].guest.None?
      && (forall u | u in s.bySession :: s.bySession[u] != s.bySocket[k])
  }

  /** Deleting this room's code from the code index does not delete another room. */
  ghost predicate OwnsCode(s: State, i: nat)
    requires i < |s.rooms|
  {
    s.rooms[i].code in s.byCode ==> s.byCode[s.rooms[i].code] == i
  }

  ghost predicate OpenGuard(s: State, k: Socket, code: string)
    requires Wf(s)
  {
    code != "" && code !in s.byCode ==> Replaceable(s, k)
  }

  ghost predicate JoinGuard(s: State, k: Socket, code: string)
    requires Wf(s)
  {
    code in s.byCode && s.rooms[s.byCode[code]].state == Waiting ==> Replaceable(s, k)
  }

  ghost predicate ApproveGuard(s: State, k: Socket, uuid: Uuid)
    requires Wf(s)
  {
    k in s.bySocket ==>
      var r := s.rooms[s.bySocket[k]];
      r.host.socket == k && r.guest.Some? && r.state == Pending ==>
        forall i | 0 <= i < |s.rooms| :: s.rooms[i].sessionId != Some(uuid)
  }

  ghost predicate RejectGuard(s: State, k: Socket)
    requires Wf(s)
  {
    k in s.bySocket ==>
      var r := s.rooms[s.bySocket[k]];
      r.host.socket == k && r.guest.Some? ==> OwnsCode(s, s.bySocket[k])
  }

  function Replaced(s: State, id: nat, role: Role): Option<Socket>
    requires id < |s.rooms|
  {
    match role
    case HostRole => Some(s.rooms[id].host.socket)
    case GuestRole => if s.rooms[id].guest.Some? then Some(s.rooms[id].guest.value.socket) else None
  }

  ghost predicate ReconnectGuard(s: State, k: Socket, sessionId: string, identity: Identity)
    requires Wf(s)
  {
    sessionId in s.bySession ==>
      var r := s.rooms[s.bySession[sessionId]];
      r.state == Active ==>
        if r.host.identity.deviceId == identity.deviceId then k == r.host.socket || Replaceable(s, k)
        else
          r.guest.Some? && r.guest.value.identity.deviceId == identity.deviceId ==>
            k == r.guest.value.socket || Replaceable(s, k)
  }

  ghost predicate ReleaseGuard(s: State, k: Socket)
    requires Wf(s)
  {
    k in s.bySocket ==>
      var r := s.rooms[s.bySocket[k]];
      r.host.socket == k || r.state == Pending || r.state == Active ==> OwnsCode(s, s.bySocket[k])
  }

  ghost predicate Guard(s: State, e: Event)
    requires Wf(s)
  {
    match e
    case HostRegisters(k, code, identity, now) => ExpireWf(s, now); OpenGuard(Expire(s, now), k, code)
    case GuestRegisters(k, code, identity, now) => ExpireWf(s, now); JoinGuard(Expire(s, now), k, code)
    case Approves(k, uuid) => ApproveGuard(s, k, uuid)
    case Rejects(k) => RejectGuard(s, k)
    case Reconnects(k, sessionId, identity) => ReconnectGuard(s, k, sessionId, identity)
    case Releases(k) => ReleaseGuard(s, k)
    case Sweeps(now) => true
  }

  // ---------------------------------------------------------------- one step

  lemma DueIsOpen(s: State, now: int, i: nat)
    requires Exact(s) && i in Due(s, now)
    ensures i < |s.rooms| && s.rooms[i].state in {Waiting, Pending}
    ensures s.byCode[s.rooms[i].code] == i
    ensures s.rooms[i].sessionId.None?
    ensures Attached(s, i)
  {
    assert PlaceOk(s, i);
  }

  lemma ExpirePlaces(s: State, now: int, i: nat)
    requires Exact(s) && i < |s.rooms|
    ensures i in Due(s, now) ==> Detached(Expire(s, now), i)
    ensures i !in Due(s, now) && Attached(s, i) ==> Attached(Expire(s, now), i)
    ensures i !in Due(s, now) && Detached(s, i) ==> Detached(Expire(s, now), i)
  {
    var ids, t := Due(s, now), Expire(s, now);
    if i in ids {
      forall k | k in t.bySocket
        ensures t.bySocket[k] != i
      {
        assert SocketOk(s, k);
      }
    } else if Attached(s, i) {
      forall k | k in Endpoints(s.rooms[i])
        ensures k in t.bySocket && t.bySocket[k] == i
      {
        forall j | j in ids
          ensures k !in Endpoints(s.rooms[j])
        {
          DueIsOpen(s, now, j);
        }
        assert k !in SocketsOf(s.rooms, ids);
      }
      assert t.rooms[i] == s.rooms[i];
    }
  }

  lemma ExpireKeepsSessions(s: State, now: int)
    requires Exact(s)
    ensures Expire(s, now).bySession == s.bySession
  {
    forall i | i in Due(s, now)
      ensures i < |s.rooms| && s.rooms[i].sessionId.None?
    {
      DueIsOpen(s, now, i);
    }
    assert SessionsOf(s.rooms, Due(s, now)) == {};
  }

  lemma ExpireKeepsCode(s: State, now: int, i: nat)
    requires Exact(s) && i < |s.rooms| && i !in Due(s, now)
    ensures s.rooms[i].state in {Waiting, Pending} ==>
              s.rooms[i].code in Expire(s, now).byCode && Expire(s, now).byCode[s.rooms[i].code] == i
  {
    assert PlaceOk(s, i);
    forall j | j in Due(s, now)
      ensures j < |s.rooms| && (s.rooms[i].state in {Waiting, Pending} ==> s.rooms[j].code != s.rooms[i].code)
    {
      DueIsOpen(s, now, j);
    }
  }

  lemma ExpireExact(s: State, now: int)
    requires Exact(s)
    ensures Exact(Expire(s, now))
  {
    var t := Expire(s, now);
    ExpireGood(s, now);
    ExpireKeepsSessions(s, now);
    forall i | 0 <= i < |t.rooms|
      ensures PlaceOk(t, i)
    {
      assert PlaceOk(s, i);
      ExpirePlaces(s, now, i);
      if i !in Due(s, now) {
        ExpireKeepsCode(s, now, i);
      }
    }
    forall k
      ensures SocketOk(t, k)
    {
      assert SocketOk(s, k);
    }
    forall u
      ensures SessionOk(t, u)
    {
      if u in t.bySession {
        var i := s.bySession[u];
        if i in Due(s, now) {
          DueIsOpen(s, now, i);
        }
        ExpirePlaces(s, now, i);
      }
      assert SessionOk(s, u);
    }
    forall i, j | 0 <= i < |t.rooms| && 0 <= j < |t.rooms| && i != j
      ensures !ShareSession(t, i, j)
    {
      assert !ShareSession(s, i, j);
    }
  }

  // Mapping a socket `k` to room `id` is the only way a step can touch another room's sockets.

  ghost predicate Rewired(s: State, t: State, k: Socket, id: nat) {
    && k in t.bySocket && t.bySocket[k] == id
    && |s.rooms| <= |t.rooms|
    && t.bySession == s.bySession
    && (forall j | 0 <= j < |s.rooms| && j != id :: t.rooms[j] == s.rooms[j])
    && (forall x | x in t.bySocket && x != k && t.bySocket[x] != id ::
          x in s.bySocket && s.bySocket[x] == t.bySocket[x])
    && (forall x | x in s.bySocket && x != k && s.bySocket[x] != id ::
          x in t.bySocket && t.bySocket[x] == s.bySocket[x])
  }

  lemma RewiringKeeps(s: State, t: State, k: Socket, id: nat, j: nat)
    requires Exact(s) && Rewired(s, t, k, id)
    requires Replaceable(s, k) || s.bySocket[k] == id
    requires j < |s.rooms| && j != id
    ensures Attached(t, j) || Detached(t, j)
    ensures t.rooms[j].state != Ended ==> Attached(t, j)
    ensures forall u | u in s.bySession && s.bySession[u] == j :: Attached(t, j)
  {
    assert PlaceOk(s, j);
    if k in s.bySocket && s.bySocket[k] == j {
      assert Detached(t, j) by {
        assert SocketOk(s, k);
        forall x | x in t.bySocket
          ensures t.bySocket[x] != j
        {
          assert SocketOk(s, x);
        }
      }
    } else {
      forall u | u in s.bySession && s.bySession[u] == j
        ensures Attached(t, j)
      {
        assert SessionOk(s, u);
      }
    }
  }

  lemma RewiringBreaks(s: State, t: State, k: Socket, id: nat)
    requires Exact(s) && Exact(t) && Rewired(s, t, k, id)
    requires k in s.bySocket && s.bySocket[k] != id
    ensures Replaceable(s, k)
  {
    var j := s.bySocket[k];
    assert PlaceOk(s, j);
    assert PlaceOk(t, j);
    assert SocketOk(s, k);
    forall u | u in s.bySession
      ensures s.bySession[u] != j
    {
      assert SessionOk(t, u);
    }
  }

  lemma OpenKeeps(ttl: int, s: State, k: Socket, code: string, identity: Identity, now: int)
    requires Exact(s) && OpenGuard(s, k, code)
    ensures Exact(OpenRoom(ttl, s, k, code, identity, now).0)
  {
    var (t, reply) := OpenRoom(ttl, s, k, code, identity, now);
    OpenRoomGood(ttl, s, k, code, identity, now);
    if reply.Ok? {
      var id := reply.value;
      forall j | 0 <= j < |t.rooms|
        ensures PlaceOk(t, j)
      {
        if j != id {
          assert PlaceOk(s, j);
          RewiringKeeps(s, t, k, id, j);
        }
      }
      forall x
        ensures SocketOk(t, x)
      {
        assert SocketOk(s, x);
      }
      forall u
        ensures SessionOk(t, u)
      {
        assert SessionOk(s, u);
        if u in s.bySession {
          RewiringKeeps(s, t, k, id, s.bySession[u]);
        }
      }
      forall i, j | 0 <= i < |t.rooms| && 0 <= j < |t.rooms| && i != j
        ensures !ShareSession(t, i, j)
      {
        assert i < |s.rooms| && j < |s.rooms| ==> !ShareSession(s, i, j);
      }
    }
  }

  lemma OpenExact(ttl: int, s: State, k: Socket, code: string, identity: Identity, now: int)
    requires Exact(s)
    ensures Exact(OpenRoom(ttl, s, k, code, identity, now).0) <==> OpenGuard(s, k, code)
  {
    if OpenGuard(s, k, code) {
      OpenKeeps(ttl, s, k, code, identity, now);
    } else {
      var (t, reply) := OpenRoom(ttl, s, k, code, identity, now);
      if Exact(t) {
        RewiringBreaks(s, t, k, reply.value);
      }
    }
  }

  /** The rest of `Exact` after a step that rewires `k` to a live room it already had. */
  lemma RewiringExact(s: State, t: State, k: Socket, id: nat)
    requires Exact(s) && Life(t) && Rewired(s, t, k, id)
    requires Replaceable(s, k) || s.bySocket[k] == id
    requires |t.rooms| == |s.rooms| && id < |s.rooms| && t.byCode == s.byCode
    requires t.rooms[id].sessionId == s.rooms[id].sessionId && t.rooms[id].code == s.rooms[id].code
    requires s.rooms[id].state in {Waiting, Pending} <==> t.rooms[id].state in {Waiting, Pending}
    requires t.rooms[id].state == Active ==> s.rooms[id].state == Active
    requires Attached(t, id)
    requires forall x | x in t.bySocket && t.bySocket[x] == id :: x in Endpoints(t.rooms[id])
    ensures Exact(t)
  {
    forall j | 0 <= j < |t.rooms|
      ensures PlaceOk(t, j)
    {
      assert PlaceOk(s, j);
      if j != id {
        RewiringKeeps(s, t, k, id, j);
      }
    }
    forall x
      ensures SocketOk(t, x)
    {
      assert SocketOk(s, x);
    }
    forall u
      ensures SessionOk(t, u)
    {
      assert SessionOk(s, u);
      if u in s.bySession && s.bySession[u] != id {
        RewiringKeeps(s, t, k, id, s.bySession[u]);
      }
    }
    forall i, j | 0 <= i < |t.rooms| && 0 <= j < |t.rooms| && i != j
      ensures !ShareSession(t, i, j)
    {
      assert !ShareSession(s, i, j);
    }
  }

  lemma JoinExact(s: State, k: Socket, code: string, identity: Identity)
    requires Exact(s)
    ensures Exact(JoinRoom(s, k, code, identity).0) <==> JoinGuard(s, k, code)
  {
    var (t, reply) := JoinRoom(s, k, code, identity);
    if reply.Ok? {
      var id := reply.value;
      JoinRoomGood(s, k, code, identity);
      assert PlaceOk(s, id);
      assert RoomOk(s.rooms[id]);
      if JoinGuard(s, k, code) {
        forall x | x in t.bySocket && t.bySocket[x] == id
          ensures x in Endpoints(t.rooms[id])
        {
          assert SocketOk(s, x);
        }
        RewiringExact(s, t, k, id);
      } else if Exact(t) {
        assert PlaceOk(t, id);
        assert SocketOk(s, k);
        RewiringBreaks(s, t, k, id);
      }
    }
  }

  lemma ReconnectExact(s: State, k: Socket, sessionId: string, identity: Identity)
    requires Exact(s)
    ensures Exact(Reconnect(s, k, sessionId, identity).0) <==> ReconnectGuard(s, k, sessionId, identity)
  {
    var (t, reply) := Reconnect(s, k, sessionId, identity);
    if reply.Ok? {
      var id := reply.value.0;
      ReconnectGood(s, k, sessionId, identity);
      ReconnectShape(s, k, sessionId, identity);
      ReconnectGuardIs(s, k, sessionId, identity);
      hide Reconnect, ReconnectGuard, Replaceable, Replaced, Exact, Rewired;
      if ReconnectGuard(s, k, sessionId, identity) {
        ReconnectAttaches(s, k, sessionId, identity);
        RewiringExact(s, t, k, id);
      } else if Exact(t) {
        ReconnectElsewhere(s, k, sessionId, identity);
        RewiringBreaks(s, t, k, id);
      }
    }
  }

  lemma ReconnectGuardIs(s: State, k: Socket, sessionId: string, identity: Identity)
    requires Wf(s) && Reconnect(s, k, sessionId, identity).1.Ok?
    ensures var (id, role) := Reconnect(s, k, sessionId, identity).1.value;
            && id < |s.rooms|
            && (ReconnectGuard(s, k, sessionId, identity) <==> Replaced(s, id, role) == Some(k) || Replaceable(s, k))
            && (!Replaceable(s, k) ==> k in s.bySocket)
  {
  }

  /** A reconnect maps the new socket to the room it finds, and changes nothing else of any other room. */
  lemma ReconnectShape(s: State, k: Socket, sessionId: string, identity: Identity)
    requires Exact(s) && Reconnect(s, k, sessionId, identity).1.Ok?
    ensures var (t, reply) := Reconnect(s, k, sessionId, identity);
            var id := reply.value.0;
            && id < |s.rooms| == |t.rooms| && Rewired(s, t, k, id) && t.byCode == s.byCode
            && t.rooms[id].sessionId == s.rooms[id].sessionId && t.rooms[id].code == s.rooms[id].code
            && t.rooms[id].state == s.rooms[id].state
  {
    var id := Reconnect(s, k, sessionId, identity).1.value.0;
    assert PlaceOk(s, id);
    hide Exact, PlaceOk, SocketOk, SessionOk, ShareSession, Life;
  }

  lemma ReconnectAttaches(s: State, k: Socket, sessionId: string, identity: Identity)
    requires Exact(s) && Reconnect(s, k, sessionId, identity).1.Ok?
    requires var (id, role) := Reconnect(s, k, sessionId, identity).1.value;
             id < |s.rooms| && (Replaced(s, id, role) == Some(k) || Replaceable(s, k))
    ensures var (t, reply) := Reconnect(s, k, sessionId, identity);
            var id := reply.value.0;
            && id < |t.rooms| && Attached(t, id)
            && (Replaceable(s, k) || s.bySocket[k] == id)
            && forall x | x in t.bySocket && t.bySocket[x] == id :: x in Endpoints(t.rooms[id])
  {
    var (t, reply) := Reconnect(s, k, sessionId, identity);
    var id := reply.value.0;
    assert PlaceOk(s, id);
    forall x | x in t.bySocket && t.bySocket[x] == id
      ensures x in Endpoints(t.rooms[id])
    {
      assert SocketOk(s, x);
    }
  }

  /** The other endpoint of the room cannot reconnect in place of this one. */
  lemma ReconnectElsewhere(s: State, k: Socket, sessionId: string, identity: Identity)
    requires Exact(s) && Reconnect(s, k, sessionId, identity).1.Ok? && k in s.bySocket
    requires var (id, role) := Reconnect(s, k, sessionId, identity).1.value;
             id < |s.rooms| && Replaced(s, id, role) != Some(k)
    requires Exact(Reconnect(s, k, sessionId, identity).0)
    ensures s.bySocket[k] != Reconnect(s, k, sessionId, identity).1.value.0
  {
    var (t, reply) := Reconnect(s, k, sessionId, identity);
    assert SocketOk(s, k);
    assert reply.value.0 < |t.rooms| ==> PlaceOk(t, reply.value.0);
  }

  lemma ApproveExact(s: State, k: Socket, uuid: Uuid)
    requires Exact(s)
    ensures Exact(Approve(s, k, uuid).0) <==> ApproveGuard(s, k, uuid)
  {
    var (t, reply) := Approve(s, k, uuid);
    if reply.Ok? {
      var id := reply.value;
      ApproveGood(s, k, uuid);
      assert PlaceOk(s, id);
      assert RoomOk(s.rooms[id]);
      if ApproveGuard(s, k, uuid) {
        ApproveKeeps(s, k, uuid);
      } else if Exact(t) {
        var i :| 0 <= i < |s.rooms| && s.rooms[i].sessionId == Some(uuid);
        assert ShareSession(t, i, id);
      }
    }
  }

  lemma ApproveKeeps(s: State, k: Socket, uuid: Uuid)
    requires Exact(s) && ApproveGuard(s, k, uuid) && Approve(s, k, uuid).1.Ok?
    ensures Exact(Approve(s, k, uuid).0)
  {
    var (t, reply) := Approve(s, k, uuid);
    var id := reply.value;
    ApproveGood(s, k, uuid);
    forall j | 0 <= j < |t.rooms|
      ensures PlaceOk(t, j)
    {
      assert PlaceOk(s, j);
      assert PlaceOk(s, id);
    }
    forall x
      ensures SocketOk(t, x)
    {
      assert SocketOk(s, x);
    }
    forall u
      ensures SessionOk(t, u)
    {
      assert SessionOk(s, u);
      assert PlaceOk(s, id);
    }
    forall i, j | 0 <= i < |t.rooms| && 0 <= j < |t.rooms| && i != j
      ensures !ShareSession(t, i, j)
    {
      assert !ShareSession(s, i, j);
    }
  }

  lemma CodeLost(t: State, i: nat)
    requires i < |t.rooms| && t.rooms[i].state in {Waiting, Pending} && t.rooms[i].code !in t.byCode
    ensures !Exact(t)
  {
    assert !PlaceOk(t, i);
  }

  lemma RejectExact(s: State, k: Socket)
    requires Exact(s)
    ensures Exact(Reject(s, k).0) <==> RejectGuard(s, k)
  {
    var (t, reply) := Reject(s, k);
    if reply.Ok? {
      var id := reply.value;
      RejectGood(s, k);
      if RejectGuard(s, k) {
        forall j | 0 <= j < |t.rooms|
          ensures PlaceOk(t, j)
        {
          assert PlaceOk(s, j);
        }
        forall x
          ensures SocketOk(t, x)
        {
          assert SocketOk(s, x);
        }
        forall u
          ensures SessionOk(t, u)
        {
          assert SessionOk(s, u);
        }
        forall i, j | 0 <= i < |t.rooms| && 0 <= j < |t.rooms| && i != j
          ensures !ShareSession(t, i, j)
        {
          assert !ShareSession(s, i, j);
        }
      } else {
        CodeLost(t, s.byCode[s.rooms[id].code]);
      }
    }
  }

  lemma ReleaseExact(s: State, k: Socket)
    requires Exact(s)
    ensures Exact(Release(s, k).0) <==> ReleaseGuard(s, k)
  {
    var (t, reply) := Release(s, k);
    if reply.Some? {
      var id := reply.value;
      ReleaseGood(s, k);
      assert SocketOk(s, k);
      if ReleaseGuard(s, k) {
        ReleaseKeeps(s, k);
      } else {
        CodeLost(t, s.byCode[s.rooms[id].code]);
      }
    }
  }

  lemma ReleasePlaces(s: State, k: Socket, j: nat)
    requires Exact(s) && ReleaseGuard(s, k) && k in s.bySocket && j < |s.rooms|
    ensures j != s.bySocket[k] && Attached(s, j) ==> Attached(Release(s, k).0, j)
    ensures j != s.bySocket[k] && Detached(s, j) ==> Detached(Release(s, k).0, j)
    ensures s.rooms[s.bySocket[k]].host.socket == k ==> Detached(Release(s, k).0, s.bySocket[k])
    ensures s.rooms[s.bySocket[k]].host.socket != k ==> Attached(Release(s, k).0, s.bySocket[k])
  {
    var t, id := Release(s, k).0, s.bySocket[k];
    assert PlaceOk(s, id);
    assert PlaceOk(s, j);
    assert SocketOk(s, k);
    if s.rooms[id].host.socket == k {
      forall x | x in t.bySocket
        ensures t.bySocket[x] != id
      {
        assert SocketOk(s, x);
      }
    }
  }

  lemma ReleaseSessions(s: State, k: Socket, u: Uuid)
    requires Exact(s) && ReleaseGuard(s, k) && k in s.bySocket && Life(Release(s, k).0)
    ensures SessionOk(Release(s, k).0, u)
  {
    var t, id := Release(s, k).0, s.bySocket[k];
    assert SessionOk(s, u);
    assert SocketOk(s, k);
    assert PlaceOk(s, id);
    if u in t.bySession {
      ReleasePlaces(s, k, s.bySession[u]);
    }
  }

  lemma ReleasePlaceOk(s: State, k: Socket, j: nat)
    requires Exact(s) && ReleaseGuard(s, k) && k in s.bySocket && j < |s.rooms|
    ensures |Release(s, k).0.rooms| == |s.rooms| && PlaceOk(Release(s, k).0, j)
  {
    var id := s.bySocket[k];
    assert SocketOk(s, k);
    assert PlaceOk(s, j);
    ReleasePlaces(s, k, j);
    assert j != id ==> !ShareSession(s, id, j);
    hide Exact, Life, Attached, Detached, SocketOk, SessionOk;
  }

  lemma ReleaseSocketOk(s: State, k: Socket, x: Socket)
    requires Exact(s) && k in s.bySocket && Wf(Release(s, k).0)
    ensures SocketOk(Release(s, k).0, x)
  {
    assert SocketOk(s, x);
    assert SocketOk(s, k);
    hide Exact, Life, PlaceOk, SessionOk;
  }

  lemma ReleaseShares(s: State, k: Socket, i: nat, j: nat)
    requires Exact(s) && k in s.bySocket && i < |s.rooms| && j < |s.rooms| && i != j
    ensures |Release(s, k).0.rooms| == |s.rooms| && !ShareSession(Release(s, k).0, i, j)
  {
    assert !ShareSession(s, i, j);
    hide Exact, Life;
  }

  lemma ReleaseKeeps(s: State, k: Socket)
    requires Exact(s) && ReleaseGuard(s, k) && k in s.bySocket
    ensures Exact(Release(s, k).0)
  {
    var t := Release(s, k).0;
    ReleaseGood(s, k);
    ReleaseLength(s, k);
    hide Release, PlaceOk, SocketOk, SessionOk, ShareSession, ReleaseGuard;
    forall j | 0 <= j < |t.rooms|
      ensures PlaceOk(t, j)
    {
      ReleasePlaceOk(s, k, j);
    }
    forall x
      ensures SocketOk(t, x)
    {
      ReleaseSocketOk(s, k, x);
    }
    forall u
      ensures SessionOk(t, u)
    {
      ReleaseSessions(s, k, u);
    }
    forall i, j | 0 <= i < |t.rooms| && 0 <= j < |t.rooms| && i != j
      ensures !ShareSession(t, i, j)
    {
      ReleaseShares(s, k, i, j);
    }
  }

  lemma ReleaseLength(s: State, k: Socket)
    requires Wf(s)
    ensures |Release(s, k).0.rooms| == |s.rooms|
  {
  }
}
