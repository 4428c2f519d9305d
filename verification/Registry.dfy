/**
 The relay's session registry as a state machine over values.

 A room is known by its position in `rooms`, the list of every room ever created; the three
 indices map a share code, a socket or a session id to that position.  Every operation below is
 total: nothing about the caller is assumed.
 */
module Registry {
  import opened Wrappers

  datatype Socket = Socket(id: nat)

  /** The two fields of an identity that the relay's behaviour depends on or reports. */
  datatype Identity = Identity(userId: string, deviceId: string)

  datatype Peer = Peer(socket: Socket, identity: Identity)

  datatype RoomState = Waiting | Pending | Active | Ended

  /** Session ids come from `randomUUID`, so they are never empty. */
  type Uuid = s: string | s != "" witness "0"

  datatype Room = Room(
    code: string,
    createdAt: int,
    expiresAt: int,
    state: RoomState,
    host: Peer,
    guest: Option<Peer>,
    sessionId: Option<Uuid>)

  datatype State = State(
    rooms: seq<Room>,
    byCode: map<string, nat>,
    bySocket: map<Socket, nat>,
    bySession: map<Uuid, nat>)

  datatype Error =
    | CodeRequired
    | CodeAlreadyActive
    | CodeNotFound
    | CodeIs(state: RoomState)
    | NoPendingRequest
    | SessionIs(state: RoomState)
    | SessionNotFound
    | SessionNotReady
    | PeerNotConnected
    | IdentityMismatch

  const EMPTY := State([], map[], map[], map[])

  /** Every index entry names a room that exists, and a room is only ever indexed under its own code. */
  ghost predicate Wf(s: State) {
    && (forall c | c in s.byCode :: s.byCode[c] < |s.rooms| && s.rooms[s.byCode[c]].code == c)
    && (forall k | k in s.bySocket :: s.bySocket[k] < |s.rooms|)
    && (forall u | u in s.bySession :: s.bySession[u] < |s.rooms|)
  }

  function Endpoints(r: Room): set<Socket> {
    {r.host.socket} + (if r.guest.Some? then {r.guest.value.socket} else {})
  }

  // ---------------------------------------------------------------- expiry

  /** The rooms the sweep ends: those reached through the code index that are overdue and not active. */
  function Due(s: State, now: int): set<nat>
    requires Wf(s)
  {
    set c | c in s.byCode && s.rooms[s.byCode[c]].state != Active && s.rooms[s.byCode[c]].expiresAt <= now
      :: s.byCode[c]
  }

  function CodesOf(rooms: seq<Room>, ids: set<nat>): set<string> {
    set i | i in ids && i < |rooms| :: rooms[i].code
  }

  function SocketsOf(rooms: seq<Room>, ids: set<nat>): set<Socket> {
    set i, k | i in ids && i < |rooms| && k in Endpoints(rooms[i]) :: k
  }

  function SessionsOf(rooms: seq<Room>, ids: set<nat>): set<Uuid> {
    set i | i in ids && i < |rooms| && rooms[i].sessionId.Some? :: rooms[i].sessionId.value
  }

  /** End the rooms in `ids` and delete their code, sockets and session id from the indices. */
  function Retire(s: State, ids: set<nat>): State {
    State(
      seq(|s.rooms|, i requires 0 <= i < |s.rooms| =>
        if i in ids then s.rooms[i].(state := Ended) else s.rooms[i]),
      s.byCode - CodesOf(s.rooms, ids),
      s.bySocket - SocketsOf(s.rooms, ids),
      s.bySession - SessionsOf(s.rooms, ids))
  }

  function Expire(s: State, now: int): State
    requires Wf(s)
  {
    Retire(s, Due(s, now))
  }

  // ---------------------------------------------------------------- operations

  /** What `registerHost` does once the sweep has run. */
  function OpenRoom(ttl: int, s: State, socket: Socket, code: string, identity: Identity, now: int)
    : (State, Result<nat, Error>)
  {
    if code == "" then (s, Err(CodeRequired))
    else if code in s.byCode then (s, Err(CodeAlreadyActive))
    else
      var id := |s.rooms|;
      var room := Room(code, now, now + ttl, Waiting, Peer(socket, identity), None, None);
      (State(s.rooms + [room], s.byCode[code := id], s.bySocket[socket := id], s.bySession), Ok(id))
  }

  function RegisterHost(ttl: int, s: State, socket: Socket, code: string, identity: Identity, now: int)
    : (State, Result<nat, Error>)
    requires Wf(s)
  {
    OpenRoom(ttl, Expire(s, now), socket, code, identity, now)
  }

  /** What `registerGuest` does once the sweep has run. */
  function JoinRoom(s: State, socket: Socket, code: string, identity: Identity): (State, Result<nat, Error>)
    requires Wf(s)
  {
    if code !in s.byCode then (s, Err(CodeNotFound))
    else
      var id := s.byCode[code];
      var room := s.rooms[id];
      if room.state != Waiting then (s, Err(CodeIs(room.state)))
      else
        var joined := room.(guest := Some(Peer(socket, identity)), state := Pending);
        (s.(rooms := s.rooms[id := joined], bySocket := s.bySocket[socket := id]), Ok(id))
  }

  function RegisterGuest(s: State, socket: Socket, code: string, identity: Identity, now: int)
    : (State, Result<nat, Error>)
    requires Wf(s)
  {
    ExpireWf(s, now);
    JoinRoom(Expire(s, now), socket, code, identity)
  }

  function Approve(s: State, socket: Socket, uuid: Uuid): (State, Result<nat, Error>)
    requires Wf(s)
  {
    if socket !in s.bySocket then (s, Err(NoPendingRequest))
    else
      var id := s.bySocket[socket];
      var room := s.rooms[id];
      if room.host.socket != socket || room.guest.None? then (s, Err(NoPendingRequest))
      else if room.state != Pending then (s, Err(SessionIs(room.state)))
      else
        (State(s.rooms[id := room.(sessionId := Some(uuid), state := Active)],
               s.byCode - {room.code},
               s.bySocket,
               s.bySession[uuid := id]),
         Ok(id))
  }

  function Reject(s: State, socket: Socket): (State, Result<nat, Error>)
    requires Wf(s)
  {
    if socket !in s.bySocket then (s, Err(NoPendingRequest))
    else
      var id := s.bySocket[socket];
      var room := s.rooms[id];
      if room.host.socket != socket || room.guest.None? then (s, Err(NoPendingRequest))
      else (s.(rooms := s.rooms[id := room.(state := Ended)], byCode := s.byCode - {room.code}), Ok(id))
  }

  /** The role whose device matches, the host being tried first. */
  datatype Role = HostRole | GuestRole

  function Reconnect(s: State, socket: Socket, sessionId: string, identity: Identity)
    : (State, Result<(nat, Role), Error>)
    requires Wf(s)
  {
    if sessionId !in s.bySession then (s, Err(SessionNotFound))
    else
      var id := s.bySession[sessionId];
      var room := s.rooms[id];
      if room.state != Active then (s, Err(SessionIs(room.state)))
      else if room.host.identity.deviceId == identity.deviceId then
        (s.(rooms := s.rooms[id := room.(host := Peer(socket, identity))],
            bySocket := (s.bySocket - {room.host.socket})[socket := id]),
         Ok((id, HostRole)))
      else if room.guest.Some? && room.guest.value.identity.deviceId == identity.deviceId then
        (s.(rooms := s.rooms[id := room.(guest := Some(Peer(socket, identity)))],
            bySocket := (s.bySocket - {room.guest.value.socket})[socket := id]),
         Ok((id, GuestRole)))
      else (s, Err(IdentityMismatch))
  }

  function GetPeer(s: State, socket: Socket): Result<(nat, Socket), Error>
    requires Wf(s)
  {
    if socket !in s.bySocket then Err(SessionNotFound)
    else
      var id := s.bySocket[socket];
      var room := s.rooms[id];
      if room.state != Active then Err(SessionNotReady)
      else if socket == room.host.socket then
        if room.guest.Some? then Ok((id, room.guest.value.socket)) else Err(PeerNotConnected)
      else Ok((id, room.host.socket))
  }

  function Release(s: State, socket: Socket): (State, Option<nat>)
    requires Wf(s)
  {
    if socket !in s.bySocket then (s, None)
    else
      var id := s.bySocket[socket];
      var room := s.rooms[id];
      var s1 := s.(bySocket := s.bySocket - {socket});
      if socket == room.host.socket then
        (State(s1.rooms[id := room.(state := Ended)],
               s1.byCode - {room.code},
               if room.guest.Some? then s1.bySocket - {room.guest.value.socket} else s1.bySocket,
               if room.sessionId.Some? then s1.bySession - {room.sessionId.value} else s1.bySession),
         Some(id))
      else if room.guest.Some? && room.guest.value.socket == socket then
        var left := room.(guest := None);
        if room.state == Pending || room.state == Active then
          (State(s1.rooms[id := left.(state := Ended)],
                 s1.byCode - {room.code},
                 s1.bySocket,
                 if room.sessionId.Some? then s1.bySession - {room.sessionId.value} else s1.bySession),
           Some(id))
        else (s1.(rooms := s1.rooms[id := left]), Some(id))
      else (s1, Some(id))
  }

  // ---------------------------------------------------------------- runs

  datatype Event =
    | HostRegisters(socket: Socket, code: string, identity: Identity, now: int)
    | GuestRegisters(socket: Socket, code: string, identity: Identity, now: int)
    | Approves(socket: Socket, uuid: Uuid)
    | Rejects(socket: Socket)
    | Reconnects(socket: Socket, sessionId: string, identity: Identity)
    | Releases(socket: Socket)
    | Sweeps(now: int)

  function Step(ttl: int, s: State, e: Event): State
    requires Wf(s)
  {
    match e
    case HostRegisters(k, code, identity, now) => RegisterHost(ttl, s, k, code, identity, now).0
    case GuestRegisters(k, code, identity, now) => RegisterGuest(s, k, code, identity, now).0
    case Approves(k, uuid) => Approve(s, k, uuid).0
    case Rejects(k) => Reject(s, k).0
    case Reconnects(k, sessionId, identity) => Reconnect(s, k, sessionId, identity).0
    case Releases(k) => Release(s, k).0
    case Sweeps(now) => Expire(s, now)
  }

  lemma ExpireWf(s: State, now: int)
    requires Wf(s)
    ensures Wf(Expire(s, now))
  {
  }

  lemma OpenRoomWf(ttl: int, s: State, socket: Socket, code: string, identity: Identity, now: int)
    requires Wf(s)
    ensures Wf(OpenRoom(ttl, s, socket, code, identity, now).0)
  {
  }

  lemma JoinRoomWf(s: State, socket: Socket, code: string, identity: Identity)
    requires Wf(s)
    ensures Wf(JoinRoom(s, socket, code, identity).0)
  {
  }

  lemma ApproveWf(s: State, socket: Socket, uuid: Uuid)
    requires Wf(s)
    ensures Wf(Approve(s, socket, uuid).0)
  {
  }

  lemma RejectWf(s: State, socket: Socket)
    requires Wf(s)
    ensures Wf(Reject(s, socket).0)
  {
  }

  lemma ReconnectWf(s: State, socket: Socket, sessionId: string, identity: Identity)
    requires Wf(s)
    ensures Wf(Reconnect(s, socket, sessionId, identity).0)
  {
  }

  lemma ReleaseWf(s: State, socket: Socket)
    requires Wf(s)
    ensures Wf(Release(s, socket).0)
  {
  }

  lemma StepWf(ttl: int, s: State, e: Event)
    requires Wf(s)
    ensures Wf(Step(ttl, s, e))
  {
    match e
    case HostRegisters(k, code, identity, now) =>
      ExpireWf(s, now);
      OpenRoomWf(ttl, Expire(s, now), k, code, identity, now);
    case GuestRegisters(k, code, identity, now) =>
      ExpireWf(s, now);
      JoinRoomWf(Expire(s, now), k, code, identity);
    case Approves(k, uuid) => ApproveWf(s, k, uuid);
    case Rejects(k) => RejectWf(s, k);
    case Reconnects(k, sessionId, identity) => ReconnectWf(s, k, sessionId, identity);
    case Releases(k) => ReleaseWf(s, k);
    case Sweeps(now) => ExpireWf(s, now);
  }

  /** The state after the events of `es`, in order. */
  function Run(ttl: int, s: State, es: seq<Event>): (r: State)
    requires Wf(s)
    ensures Wf(r)
    decreases |es|
  {
    if es == [] then s
    else
      StepWf(ttl, s, es[0]);
      Run(ttl, Step(ttl, s, es[0]), es[1..])
  }
}
