/**
 Whom the relay tells and closes when a peer leaves, is approved, is rejected or comes back: the other
 endpoint of its room, and no one else.
 */
module RelayNotices {
  import opened Wrappers
  import opened Registry
  import opened Lifecycle
  import opened Indices
  import opened RegistryRuns
  import opened RegistryEffects
  import M = RelayModel
  import opened RelayServers

  /** These two are the endpoints of the room that the first is mapped to. */
  ghost predicate ShareRoom(s: State, k: Socket, x: Socket)
    requires Wf(s)
  {
    k in s.bySocket && x != k && Endpoints(s.rooms[s.bySocket[k]]) == {k, x}
  }

  /** The socket to tell is the other endpoint of the room, if there is one, and the two tell each other. */
  lemma PartnerIff(s: State, k: Socket, x: Socket)
    requires Exact(s)
    ensures Partner(s, k) == Some(x) <==> ShareRoom(s, k, x)
    ensures ShareRoom(s, k, x) <==> ShareRoom(s, x, k)
  {
    if k in s.bySocket {
      RoomOfMapped(s, k);
    }
    if x in s.bySocket {
      RoomOfMapped(s, x);
    }
  }

  lemma RoomOfMapped(s: State, k: Socket)
    requires Exact(s) && k in s.bySocket
    ensures k in Endpoints(s.rooms[s.bySocket[k]]) && Attached(s, s.bySocket[k])
  {
    assert SocketOk(s, k) && PlaceOk(s, s.bySocket[k]);
  }

  /** In an active session that is the socket its messages go to. */
  lemma PartnerIsRouted(s: State, k: Socket)
    requires Exact(s)
    ensures M.InSession(s, k) <==> GetPeer(s, k).Ok?
    ensures M.InSession(s, k) ==> Partner(s, k) == Some(GetPeer(s, k).value.1)
  {
    if k in s.bySocket {
      RoomOfMapped(s, k);
      assert RoomOk(s.rooms[s.bySocket[k]]);
    }
  }

  /** Only a host that leaves takes another socket with it: the guest of its room. */
  lemma ClosedWithIff(s: State, k: Socket, x: Socket)
    requires Exact(s)
    ensures ClosedWith(s, k) == Some(x) <==> ShareRoom(s, k, x) && s.rooms[s.bySocket[k]].host.socket == k
  {
    if k in s.bySocket {
      RoomOfMapped(s, k);
    }
  }

  /** The socket that is closed with the host is no longer mapped, so its own close event does nothing. */
  lemma ClosedWithIsGone(s: State, k: Socket)
    requires Exact(s) && ReleaseGuard(s, k) && ClosedWith(s, k).Some?
    ensures var t := Release(s, k).0; ClosedWith(s, k).value !in t.bySocket && Wf(t)
  {
    var t, x, id := Release(s, k).0, ClosedWith(s, k).value, s.bySocket[k];
    RoomOfMapped(s, k);
    ReleaseChanges(s, k);
    ReleasedRoom(s, k);
    assert x !in Elsewhere(s.bySocket - {k}, id);
    assert x in t.bySocket ==> x in Elsewhere(t.bySocket - {k}, id);
  }

  /**
   A peer that comes back is told the role it came back in, unless it is a guest on the very socket
   that is the host's.
   */
  lemma RoleAnsweredIff(s: State, k: Socket, sessionId: string, identity: Identity)
    requires Wf(s) && Reconnect(s, k, sessionId, identity).1.Ok?
    ensures var (t, reply) := Reconnect(s, k, sessionId, identity);
            var (id, role) := reply.value;
            && id < |s.rooms| == |t.rooms|
            && (AnsweredRole(t.rooms[id], k) == HostRole <==> t.rooms[id].host.socket == k)
            && (AnsweredRole(t.rooms[id], k) == role <==> role == HostRole || s.rooms[id].host.socket != k)
  {
  }

  /** When the new socket is free to take, that does not happen. */
  lemma RoleAnswered(s: State, k: Socket, sessionId: string, identity: Identity)
    requires Exact(s) && ReconnectGuard(s, k, sessionId, identity)
    requires Reconnect(s, k, sessionId, identity).1.Ok?
    ensures var (t, reply) := Reconnect(s, k, sessionId, identity);
            var (id, role) := reply.value;
            id < |t.rooms| && AnsweredRole(t.rooms[id], k) == role
  {
    ReconnectionChanges(s, k, sessionId, identity);
  }
}
