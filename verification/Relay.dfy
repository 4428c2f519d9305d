/**
 The relay's handlers over the session manager: disconnects start a grace timer for an active
 session, reconnects cancel the recorded timer, timers that fire release the socket they were
 started for.  Timers are numbered; `pending` is what the event loop still holds.
 */
module RelayModel {
  import opened Wrappers
  import R = Registry

  /** What a grace timer's callback has captured. */
  datatype Timer = Timer(socket: R.Socket, sessionId: R.Uuid)

  datatype Relay = Relay(
    registry: R.State,
    graceTimers: map<R.Uuid, nat>,
    pending: map<nat, Timer>,
    nextTimer: nat,
    startTimes: map<R.Uuid, int>)

  datatype Event =
    | HostRegisters(socket: R.Socket, code: string, identity: R.Identity, now: int)
    | GuestRegisters(socket: R.Socket, code: string, identity: R.Identity, now: int)
    | Approves(socket: R.Socket, uuid: R.Uuid, now: int)
    | Rejects(socket: R.Socket)
    | Reconnects(socket: R.Socket, sessionId: string, identity: R.Identity)
    | Closes(socket: R.Socket)
    | TimerFires(timer: nat)
    | Sweeps(now: int)

  ghost predicate Wf(w: Relay) {
    && R.Wf(w.registry)
    && (forall t | t in w.pending :: t < w.nextTimer)
    && (forall u | u in w.graceTimers :: w.graceTimers[u] < w.nextTimer)
  }

  function CleanupRoom(w: Relay, socket: R.Socket, sessionId: Option<R.Uuid>): Relay
    requires R.Wf(w.registry)
  {
    if socket !in w.registry.bySocket then w
    else
      w.(registry := R.Release(w.registry, socket).0,
         startTimes := if sessionId.Some? then w.startTimes - {sessionId.value} else w.startTimes)
  }

  /** The socket belongs to an active session, so its peer may come back. */
  predicate InSession(s: R.State, k: R.Socket)
    requires R.Wf(s)
  {
    && k in s.bySocket
    && s.rooms[s.bySocket[k]].state == R.Active
    && s.rooms[s.bySocket[k]].sessionId.Some?
  }

  function HandleDisconnect(w: Relay, socket: R.Socket): Relay
    requires R.Wf(w.registry)
  {
    if socket !in w.registry.bySocket then w
    else
      var room := w.registry.rooms[w.registry.bySocket[socket]];
      if InSession(w.registry, socket) then
        w.(pending := w.pending[w.nextTimer := Timer(socket, room.sessionId.value)],
           graceTimers := w.graceTimers[room.sessionId.value := w.nextTimer],
           nextTimer := w.nextTimer + 1)
      else CleanupRoom(w, socket, room.sessionId)
  }

  function FireTimer(w: Relay, t: nat): Relay
    requires R.Wf(w.registry)
  {
    if t !in w.pending then w
    else
      var timer := w.pending[t];
      CleanupRoom(
        w.(pending := w.pending - {t}, graceTimers := w.graceTimers - {timer.sessionId}),
        timer.socket, Some(timer.sessionId))
  }

  function HandleReconnect(w: Relay, socket: R.Socket, sessionId: string, identity: R.Identity): Relay
    requires R.Wf(w.registry)
  {
    var (registry, reply) := R.Reconnect(w.registry, socket, sessionId, identity);
    if reply.Err? || sessionId !in w.graceTimers then w.(registry := registry)
    else
      w.(registry := registry,
         pending := w.pending - {w.graceTimers[sessionId]},
         graceTimers := w.graceTimers - {sessionId})
  }

  function ApproveAccess(w: Relay, socket: R.Socket, uuid: R.Uuid, now: int): Relay
    requires R.Wf(w.registry)
  {
    var (registry, reply) := R.Approve(w.registry, socket, uuid);
    w.(registry := registry, startTimes := if reply.Ok? then w.startTimes[uuid := now] else w.startTimes)
  }

  function Step(ttl: int, w: Relay, e: Event): Relay
    requires R.Wf(w.registry)
  {
    match e
    case HostRegisters(k, code, identity, now) =>
      w.(registry := R.RegisterHost(ttl, w.registry, k, code, identity, now).0)
    case GuestRegisters(k, code, identity, now) =>
      w.(registry := R.RegisterGuest(w.registry, k, code, identity, now).0)
    case Approves(k, uuid, now) => ApproveAccess(w, k, uuid, now)
    case Rejects(k) => w.(registry := R.Reject(w.registry, k).0)
    case Reconnects(k, sessionId, identity) => HandleReconnect(w, k, sessionId, identity)
    case Closes(k) => HandleDisconnect(w, k)
    case TimerFires(t) => FireTimer(w, t)
    case Sweeps(now) => w.(registry := R.Expire(w.registry, now))
  }

  // ---------------------------------------------------------------- refinement of the registry

  /** The registry operation, if any, that the relay's step performs. */
  function Calls(w: Relay, e: Event): seq<R.Event>
    requires R.Wf(w.registry)
  {
    match e
    case HostRegisters(k, code, identity, now) => [R.HostRegisters(k, code, identity, now)]
    case GuestRegisters(k, code, identity, now) => [R.GuestRegisters(k, code, identity, now)]
    case Approves(k, uuid, _) => [R.Approves(k, uuid)]
    case Rejects(k) => [R.Rejects(k)]
    case Reconnects(k, sessionId, identity) => [R.Reconnects(k, sessionId, identity)]
    case Closes(k) => if InSession(w.registry, k) then [] else [R.Releases(k)]
    case TimerFires(t) => if t in w.pending then [R.Releases(w.pending[t].socket)] else []
    case Sweeps(now) => [R.Sweeps(now)]
  }

  lemma {:induction false} StepRefines(ttl: int, w: Relay, e: Event)
    requires R.Wf(w.registry)
    ensures Step(ttl, w, e).registry == R.Run(ttl, w.registry, Calls(w, e))
    ensures R.Wf(Step(ttl, w, e).registry)
  {
    hide R.Reconnect, R.RegisterHost, R.RegisterGuest, R.Approve, R.Reject, R.Expire;
    var calls := Calls(w, e);
    if calls != [] {
      R.StepWf(ttl, w.registry, calls[0]);
      assert R.Run(ttl, R.Step(ttl, w.registry, calls[0]), calls[1..]) == R.Step(ttl, w.registry, calls[0]);
    }
  }

  function Run(ttl: int, w: Relay, es: seq<Event>): (r: Relay)
    requires R.Wf(w.registry)
    ensures R.Wf(r.registry)
    decreases |es|
  {
    if es == [] then w
    else
      StepRefines(ttl, w, es[0]);
      Run(ttl, Step(ttl, w, es[0]), es[1..])
  }

  /** The registry operations of a whole run. */
  function AllCalls(ttl: int, w: Relay, es: seq<Event>): seq<R.Event>
    requires R.Wf(w.registry)
    decreases |es|
  {
    if es == [] then []
    else
      StepRefines(ttl, w, es[0]);
      Calls(w, es[0]) + AllCalls(ttl, Step(ttl, w, es[0]), es[1..])
  }
}

module RelayRuns {
  import opened Wrappers
  import R = Registry
  import opened RelayModel
  import opened Indices
  import RegistryRuns

  /** A run of the relay is a run of the registry: everything proved of registry runs holds of it. */
  lemma {:induction false} RunRefines(ttl: int, w: Relay, es: seq<Event>)
    requires R.Wf(w.registry)
    ensures Run(ttl, w, es).registry == R.Run(ttl, w.registry, AllCalls(ttl, w, es))
    decreases |es|
  {
    hide Step, Calls, R.Step;
    if es != [] {
      StepRefines(ttl, w, es[0]);
      var v := Step(ttl, w, es[0]);
      RunRefines(ttl, v, es[1..]);
      RegistryRuns.RunSplit(ttl, w.registry, Calls(w, es[0]), AllCalls(ttl, v, es[1..]));
    }
  }

  /** Under the environment, the indices are exact in every state of every run of the relay. */
  lemma RelayStaysExact(ttl: int, w: Relay, es: seq<Event>)
    requires Exact(w.registry) && RegistryRuns.NoStaleCode(w.registry)
    requires RegistryRuns.AlwaysPolite(ttl, w.registry, AllCalls(ttl, w, es))
    ensures Exact(Run(ttl, w, es).registry)
  {
    RunRefines(ttl, w, es);
    RegistryRuns.PoliteRunsStayExact(ttl, w.registry, AllCalls(ttl, w, es));
  }

  // ---------------------------------------------------------------- replaced sockets are inert

  function SocketOf(e: Event): set<R.Socket> {
    match e
    case HostRegisters(k, _, _, _) => {k}
    case GuestRegisters(k, _, _, _) => {k}
    case Reconnects(k, _, _) => {k}
    case _ => {}
  }

  /** Every socket that registers or reconnects does so for the first time. */
  ghost predicate FreshSockets(seen: set<R.Socket>, es: seq<Event>)
    decreases |es|
  {
    es != [] ==> SocketOf(es[0]) !! seen && FreshSockets(seen + SocketOf(es[0]), es[1..])
  }

  lemma KeysGrowByOwnSocket(ttl: int, w: Relay, e: Event)
    requires R.Wf(w.registry)
    ensures Step(ttl, w, e).registry.bySocket.Keys <= w.registry.bySocket.Keys + SocketOf(e)
  {
    hide R.Step, R.Release, R.Reconnect, R.RegisterHost, R.RegisterGuest, R.Approve, R.Reject, R.Expire;
    StepRefines(ttl, w, e);
    var calls := Calls(w, e);
    if calls != [] {
      RegistryRuns.KeysGrowByOwnSocket(ttl, w.registry, calls[0]);
      R.StepWf(ttl, w.registry, calls[0]);
      assert calls[1..] == [];
      assert RegistryRuns.SocketOf(calls[0]) <= SocketOf(e);
    }
  }

  /** With fresh sockets, neither the close of an unmapped socket nor any timer started for it changes a room. */
  lemma {:induction false} UnmappedIsInert(ttl: int, w: Relay, seen: set<R.Socket>, es: seq<Event>, k: R.Socket)
    requires R.Wf(w.registry) && k in seen && k !in w.registry.bySocket && FreshSockets(seen, es)
    ensures var v := Run(ttl, w, es);
            && k !in v.registry.bySocket
            && Step(ttl, v, Closes(k)) == v
            && forall t | t in v.pending && v.pending[t].socket == k ::
                 Step(ttl, v, TimerFires(t)).registry == v.registry
    decreases |es|
  {
    if es != [] {
      KeysGrowByOwnSocket(ttl, w, es[0]);
      StepRefines(ttl, w, es[0]);
      hide Step;
      UnmappedIsInert(ttl, Step(ttl, w, es[0]), seen + SocketOf(es[0]), es[1..], k);
    }
  }

  /**
   After a successful reconnect, whatever happens next, the close event and the grace timers of the
   replaced socket never again change a room.
   */
  lemma ReplacedSocketIsInert(
      ttl: int, w: Relay, seen: set<R.Socket>, k: R.Socket, sessionId: string, identity: R.Identity, es: seq<Event>)
    requires Exact(w.registry) && w.registry.bySocket.Keys <= seen
    requires FreshSockets(seen, [Reconnects(k, sessionId, identity)] + es)
    requires R.Reconnect(w.registry, k, sessionId, identity).1.Ok?
    ensures var (id, role) := R.Reconnect(w.registry, k, sessionId, identity).1.value;
            var gone := Replaced(w.registry, id, role);
            && gone.Some?
            && var v := Run(ttl, w, [Reconnects(k, sessionId, identity)] + es);
            && gone.value !in v.registry.bySocket
            && Step(ttl, v, Closes(gone.value)) == v
            && forall t | t in v.pending && v.pending[t].socket == gone.value ::
                 Step(ttl, v, TimerFires(t)).registry == v.registry
  {
    var e := Reconnects(k, sessionId, identity);
    var reply := R.Reconnect(w.registry, k, sessionId, identity).1;
    assert PlaceOk(w.registry, reply.value.0);
    assert ([e] + es)[0] == e && ([e] + es)[1..] == es;
    assert ReconnectGuard(w.registry, k, sessionId, identity);
    RegistryRuns.ReconnectMovesRoute(w.registry, k, sessionId, identity);
    StepRefines(ttl, w, e);
    var gone := Replaced(w.registry, reply.value.0, reply.value.1);
    UnmappedIsInert(ttl, Step(ttl, w, e), seen + {k}, es, gone.value);
  }

  // ---------------------------------------------------------------- what the grace timer does

  /** A timer that fires for a socket still in its active session ends that session and drops it from the indices. */
  lemma TimerEndsSession(ttl: int, w: Relay, t: nat)
    requires Exact(w.registry) && t in w.pending
    requires var k := w.pending[t].socket;
             k in w.registry.bySocket && w.registry.rooms[w.registry.bySocket[k]].state == R.Active
    ensures var k := w.pending[t].socket;
            var id := w.registry.bySocket[k];
            var v := Step(ttl, w, TimerFires(t));
            && v.registry.rooms[id].state == R.Ended
            && k !in v.registry.bySocket
            && w.registry.rooms[id].sessionId.Some?
            && w.registry.rooms[id].sessionId.value !in v.registry.bySession
            && R.Wf(v.registry)
            && (forall x | x in R.Endpoints(w.registry.rooms[id]) ::
                  R.GetPeer(w.registry, x).Ok? && R.GetPeer(v.registry, x).Err?)
  {
    var k := w.pending[t].socket;
    var id := w.registry.bySocket[k];
    assert PlaceOk(w.registry, id);
    assert SocketOk(w.registry, k);
    StepRefines(ttl, w, TimerFires(t));
  }
}

module RelayServers {
  import opened Wrappers
  import R = Registry
  import M = RelayModel
  import S = SessionManagers

  /** The relay's process state: the session manager and the module-level maps. */
  class RelayServer {
    const sessions: S.SessionManager
    var graceTimers: map<R.Uuid, nat>
    var pending: map<nat, M.Timer>
    var nextTimer: nat
    var startTimes: map<R.Uuid, int>

    ghost predicate Valid()
      reads this, sessions, sessions.rooms
    {
      sessions.Valid()
    }

    ghost function View(): (w: M.Relay)
      reads this, sessions
    {
      M.Relay(sessions.model, graceTimers, pending, nextTimer, startTimes)
    }

    constructor (codeTtlMs: int)
      ensures Valid() && View() == M.Relay(R.EMPTY, map[], map[], 0, map[])
      ensures fresh(sessions)
    {
      sessions := new S.SessionManager(codeTtlMs);
      graceTimers, pending, nextTimer, startTimes := map[], map[], 0, map[];
    }

    /** The socket to notify of the end, and the socket to close. */
    method CleanupRoom(socket: R.Socket, sessionId: Option<R.Uuid>)
      returns (notify: Option<R.Socket>, close: Option<R.Socket>)
      requires Valid()
      modifies this`startTimes, sessions, sessions.rooms
      ensures Valid() && sessions.rooms == old(sessions.rooms)
      ensures View() == M.CleanupRoom(old(View()), socket, sessionId)
      ensures notify == Partner(old(View().registry), socket)
      ensures close == ClosedWith(old(View().registry), socket)
    {
      hide R.Wf, S.RoomsMatch, S.IndexMatches;
      var found := sessions.BySocket(socket);
      if found.None? {
        return None, None;
      }
      var room := found.value;
      notify := if socket != room.host.socket then Some(room.host.socket)
      else if room.guest.Some? then Some(room.guest.value.socket) else None;
      close := if socket == room.host.socket && room.guest.Some? then Some(room.guest.value.socket) else None;
      var _ := sessions.ReleaseSocket(socket);
      if sessionId.Some? {
        startTimes := startTimes - {sessionId.value};
      }
    }

    method HandleDisconnect(socket: R.Socket) returns (notify: Option<R.Socket>, close: Option<R.Socket>)
      requires Valid()
      modifies this, sessions, sessions.rooms
      ensures Valid() && sessions.rooms == old(sessions.rooms)
      ensures View() == M.HandleDisconnect(old(View()), socket)
      ensures notify == Partner(old(View().registry), socket)
      ensures close == if M.InSession(old(View().registry), socket) then None
                       else ClosedWith(old(View().registry), socket)
    {
      hide R.Wf, S.RoomsMatch, S.IndexMatches;
      var found := sessions.BySocket(socket);
      if found.None? {
        return None, None;
      }
      var room := found.value;
      if room.state == R.Active && room.sessionId.Some? {
        var sessionId := room.sessionId.value;
        notify := if socket != room.host.socket then Some(room.host.socket)
        else if room.guest.Some? then Some(room.guest.value.socket) else None;
        pending := pending[nextTimer := M.Timer(socket, sessionId)];
        graceTimers := graceTimers[sessionId := nextTimer];
        nextTimer := nextTimer + 1;
        close := None;
        return;
      }
      notify, close := CleanupRoom(socket, room.sessionId);
    }

    method FireTimer(t: nat) returns (notify: Option<R.Socket>, close: Option<R.Socket>)
      requires Valid()
      modifies this, sessions, sessions.rooms
      ensures Valid() && sessions.rooms == old(sessions.rooms)
      ensures View() == M.FireTimer(old(View()), t)
      ensures t in old(pending) ==>
        && notify == Partner(old(View().registry), old(pending)[t].socket)
        && close == ClosedWith(old(View().registry), old(pending)[t].socket)
      ensures t !in old(pending) ==> notify == None && close == None
    {
      hide R.Wf, S.RoomsMatch, S.IndexMatches;
      notify, close := None, None;
      if t in pending {
        var timer := pending[t];
        pending := pending - {t};
        graceTimers := graceTimers - {timer.sessionId};
        notify, close := CleanupRoom(timer.socket, Some(timer.sessionId));
      }
    }

    method HandleReconnect(socket: R.Socket, sessionId: string, identity: R.Identity)
      returns (reply: Result<R.Role, R.Error>)
      requires Valid()
      modifies this, sessions, sessions.rooms
      ensures Valid() && sessions.rooms == old(sessions.rooms)
      ensures View() == M.HandleReconnect(old(View()), socket, sessionId, identity)
      ensures match R.Reconnect(old(View().registry), socket, sessionId, identity).1
              case Ok(found) =>
                && found.0 < |View().registry.rooms|
                && reply == Ok(AnsweredRole(View().registry.rooms[found.0], socket))
              case Err(e) => reply == Err(e)
    {
      hide R.Wf, S.RoomsMatch, S.IndexMatches, R.Reconnect;
      var result, _ := sessions.Reconnect(socket, sessionId, identity);
      if result.Err? {
        return Err(result.error);
      }
      if sessionId in graceTimers {
        pending := pending - {graceTimers[sessionId]};
        graceTimers := graceTimers - {sessionId};
      }
      return Ok(if result.value.host.socket == socket then R.HostRole else R.GuestRole);
    }

    /** The sockets told that the session is ready, the host's and the guest's. */
    method ApproveAccess(socket: R.Socket, uuid: R.Uuid, now: int) returns (reply: Result<(R.Socket, R.Socket), R.Error>)
      requires Valid()
      modifies this`startTimes, sessions, sessions.rooms
      ensures Valid() && sessions.rooms == old(sessions.rooms)
      ensures View() == M.ApproveAccess(old(View()), socket, uuid, now)
      ensures match R.Approve(old(View().registry), socket, uuid).1
              case Ok(id) =>
                && id < |View().registry.rooms|
                && var room := View().registry.rooms[id];
                room.guest.Some? && reply == Ok((room.host.socket, room.guest.value.socket))
              case Err(e) => reply == Err(e)
    {
      hide R.Wf, S.RoomsMatch, S.IndexMatches, R.Approve, S.SessionManager.Linked;
      var result := sessions.Approve(socket, uuid);
      if result.Err? {
        return Err(result.error);
      }
      startTimes := startTimes[uuid := now];
      var room := result.value;
      return Ok((room.host.socket, room.guest.value.socket));
    }

    /** The guest to be told and closed. */
    method RejectAccess(socket: R.Socket) returns (reply: Result<R.Socket, R.Error>)
      requires Valid()
      modifies sessions, sessions.rooms
      ensures Valid() && sessions.rooms == old(sessions.rooms)
      ensures View() == old(View()).(registry := R.Reject(old(View().registry), socket).0)
      ensures match R.Reject(old(View().registry), socket).1
              case Ok(id) =>
                && id < |View().registry.rooms|
                && var room := View().registry.rooms[id];
                room.guest.Some? && reply == Ok(room.guest.value.socket)
              case Err(e) => reply == Err(e)
    {
      hide R.Wf, S.RoomsMatch, S.IndexMatches, R.Reject, S.SessionManager.Linked;
      var result := sessions.Reject(socket);
      if result.Err? {
        return Err(result.error);
      }
      var room := result.value;
      return Ok(room.guest.value.socket);
    }

    /** Forward a message: the socket it goes to, or the error sent back to the sender. */
    method ForwardToPeer(socket: R.Socket) returns (reply: Result<R.Socket, R.Error>)
      requires Valid()
      ensures match R.GetPeer(View().registry, socket)
              case Ok(found) => reply == Ok(found.1)
              case Err(e) => reply == Err(e)
    {
      reply := sessions.GetPeer(socket);
    }
  }

  /** The role a reconnected peer is told: host whenever its socket is the host's. */
  function AnsweredRole(room: R.Room, socket: R.Socket): R.Role {
    if room.host.socket == socket then R.HostRole else R.GuestRole
  }

  /** The guest's socket is closed too when it is the host that leaves. */
  function ClosedWith(s: R.State, k: R.Socket): Option<R.Socket>
    requires R.Wf(s)
  {
    if k !in s.bySocket then None
    else
      var room := s.rooms[s.bySocket[k]];
      if k == room.host.socket && room.guest.Some? then Some(room.guest.value.socket) else None
  }

  /** The other endpoint of the socket's room, whatever the room's state. */
  function Partner(s: R.State, k: R.Socket): Option<R.Socket>
    requires R.Wf(s)
  {
    if k !in s.bySocket then None
    else
      var room := s.rooms[s.bySocket[k]];
      if k != room.host.socket then Some(room.host.socket)
      else if room.guest.Some? then Some(room.guest.value.socket)
      else None
  }
}
