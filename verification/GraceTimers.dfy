/**
 Grace timers and the peers they are meant for: when a dropped peer is sure to be cleaned up.
 */
module GraceTimers {
  import opened Wrappers
  import R = Registry
  import opened RelayModel
  import opened Indices
  import RelayRuns

  // ---------------------------------------------------------------- every step, exactly

  ghost predicate HasTimer(w: Relay, k: R.Socket) {
    exists t :: t in w.pending && w.pending[t].socket == k
  }

  /** Every socket that has closed and is still mapped has a timer that will release it. */
  ghost predicate Covered(w: Relay, closed: set<R.Socket>) {
    forall k | k in closed && k in w.registry.bySocket :: HasTimer(w, k)
  }

  /** Timers are started for closed sockets only. */
  ghost predicate TimersOk(w: Relay, closed: set<R.Socket>) {
    Wf(w) && forall t | t in w.pending :: w.pending[t].socket in closed
  }

  function Closed(closed: set<R.Socket>, e: Event): set<R.Socket> {
    if e.Closes? then closed + {e.socket} else closed
  }

  /** The socket that a reconnect with this session and identity takes the place of, if it succeeds. */
  function TakenOver(s: R.State, sessionId: string, identity: R.Identity): Option<R.Socket>
    requires R.Wf(s)
  {
    if sessionId !in s.bySession || s.rooms[s.bySession[sessionId]].state != R.Active then None
    else
      var room := s.rooms[s.bySession[sessionId]];
      if room.host.identity.deviceId == identity.deviceId then Some(room.host.socket)
      else if room.guest.Some? && room.guest.value.identity.deviceId == identity.deviceId then
        Some(room.guest.value.socket)
      else None
  }

  /**
   The timer a reconnect cancels is not the last one of a peer that is still away: it was started
   for the socket taken over, or for one no longer mapped, or for one that has another timer.
   */
  ghost predicate CancelsSafely(w: Relay, sessionId: string, identity: R.Identity)
    requires R.Wf(w.registry)
  {
    var gone := TakenOver(w.registry, sessionId, identity);
    gone.Some? && sessionId in w.graceTimers && w.graceTimers[sessionId] in w.pending ==>
      var t := w.graceTimers[sessionId];
      var k := w.pending[t].socket;
      k == gone.value || k !in w.registry.bySocket || HasOtherTimer(w, t, k)
  }

  ghost predicate HasOtherTimer(w: Relay, t: nat, k: R.Socket) {
    exists u :: u in w.pending && u != t && w.pending[u].socket == k
  }

  ghost predicate Guard(w: Relay, e: Event)
    requires R.Wf(w.registry)
  {
    e.Reconnects? ==> CancelsSafely(w, e.sessionId, e.identity)
  }

  lemma ReconnectTakesOver(s: R.State, k: R.Socket, sessionId: string, identity: R.Identity)
    requires R.Wf(s)
    ensures var (t, reply) := R.Reconnect(s, k, sessionId, identity);
            var gone := TakenOver(s, sessionId, identity);
            && (reply.Ok? <==> gone.Some?)
            && (reply.Err? ==> t == s)
            && (reply.Ok? ==> t.bySocket.Keys == s.bySocket.Keys - {gone.value} + {k})
  {
  }

  lemma ReconnectCovers(w: Relay, closed: set<R.Socket>, k: R.Socket, sessionId: string, identity: R.Identity)
    requires TimersOk(w, closed) && Covered(w, closed) && k !in closed
    ensures Covered(HandleReconnect(w, k, sessionId, identity), closed) <==> CancelsSafely(w, sessionId, identity)
  {
    ReconnectTakesOver(w.registry, k, sessionId, identity);
    hide R.Wf, R.Reconnect, TakenOver;
    var v := HandleReconnect(w, k, sessionId, identity);
    var gone := TakenOver(w.registry, sessionId, identity);
    if gone.Some? && sessionId in w.graceTimers && w.graceTimers[sessionId] in w.pending {
      var t := w.graceTimers[sessionId];
      var x := w.pending[t].socket;
      OneTimerLess(w, v, t, x);
      forall y | y in closed && y in v.registry.bySocket && y != x
        ensures HasTimer(v, y)
      {
        OneTimerLess(w, v, t, y);
      }
    } else {
      assert v.pending == w.pending;
      forall y | y in closed && y in v.registry.bySocket
        ensures HasTimer(v, y)
      {
        assert HasTimer(w, y);
        var t :| t in w.pending && w.pending[t].socket == y;
        assert t in v.pending && v.pending[t].socket == y;
      }
    }
  }

  lemma OneTimerLess(w: Relay, v: Relay, t: nat, k: R.Socket)
    requires t in w.pending && v.pending == w.pending - {t}
    ensures HasTimer(v, k) <==> HasOtherTimer(w, t, k)
    ensures HasTimer(w, k) && w.pending[t].socket != k ==> HasTimer(v, k)
  {
    if HasTimer(v, k) {
      var u :| u in v.pending && v.pending[u].socket == k;
      assert u in w.pending && u != t && w.pending[u].socket == k;
    }
    if HasOtherTimer(w, t, k) {
      var u :| u in w.pending && u != t && w.pending[u].socket == k;
      assert u in v.pending && v.pending[u].socket == k;
    }
  }

  lemma ReleaseUnmaps(s: R.State, k: R.Socket)
    requires R.Wf(s)
    ensures k !in R.Release(s, k).0.bySocket
    ensures R.Release(s, k).0.bySocket.Keys <= s.bySocket.Keys
  {
  }

  /** Every other step keeps the timers of those who have one. */
  lemma OthersCover(ttl: int, w: Relay, closed: set<R.Socket>, e: Event)
    requires TimersOk(w, closed) && Covered(w, closed) && RelayRuns.SocketOf(e) !! closed && !e.Reconnects?
    ensures Covered(Step(ttl, w, e), Closed(closed, e))
  {
    RelayRuns.KeysGrowByOwnSocket(ttl, w, e);
    var v := Step(ttl, w, e);
    if e.Closes? {
      ReleaseUnmaps(w.registry, e.socket);
    }
    if e.TimerFires? && e.timer in w.pending {
      ReleaseUnmaps(w.registry, w.pending[e.timer].socket);
    }
    hide R.Wf, R.Release, R.RegisterHost, R.RegisterGuest, R.Approve, R.Reject, R.Expire;
    forall k | k in Closed(closed, e) && k in v.registry.bySocket
      ensures HasTimer(v, k)
    {
      if e.Closes? && k == e.socket {
        assert w.nextTimer in v.pending && v.pending[w.nextTimer].socket == k;
      } else {
        assert HasTimer(w, k);
        var t :| t in w.pending && w.pending[t].socket == k;
        assert t in v.pending && v.pending[t].socket == k;
      }
    }
  }

  lemma StepTimersOk(ttl: int, w: Relay, closed: set<R.Socket>, e: Event)
    requires TimersOk(w, closed)
    ensures TimersOk(Step(ttl, w, e), Closed(closed, e))
  {
    StepRefines(ttl, w, e);
    hide R.Wf, R.Release, R.Reconnect, R.RegisterHost, R.RegisterGuest, R.Approve, R.Reject, R.Expire;
  }

  /** A step leaves every closed, still mapped socket with a timer if and only if its guard holds. */
  lemma StepCovers(ttl: int, w: Relay, closed: set<R.Socket>, e: Event)
    requires TimersOk(w, closed) && Covered(w, closed) && RelayRuns.SocketOf(e) !! closed
    ensures Covered(Step(ttl, w, e), Closed(closed, e)) <==> Guard(w, e)
  {
    hide TimersOk, Covered, HandleReconnect, CancelsSafely;
    if e.Reconnects? {
      ReconnectCovers(w, closed, e.socket, e.sessionId, e.identity);
    } else {
      OthersCover(ttl, w, closed, e);
    }
  }

  // ---------------------------------------------------------------- every run, exactly

  /** A socket that has closed neither registers nor reconnects again. */
  ghost predicate ClosedStayClosed(closed: set<R.Socket>, es: seq<Event>)
    decreases |es|
  {
    es != [] ==> RelayRuns.SocketOf(es[0]) !! closed && ClosedStayClosed(Closed(closed, es[0]), es[1..])
  }

  ghost predicate AlwaysCovered(ttl: int, w: Relay, closed: set<R.Socket>, es: seq<Event>)
    requires R.Wf(w.registry)
    decreases |es|
  {
    && Covered(w, closed)
    && (es != [] ==>
          (StepRefines(ttl, w, es[0]); AlwaysCovered(ttl, Step(ttl, w, es[0]), Closed(closed, es[0]), es[1..])))
  }

  ghost predicate AlwaysGuarded(ttl: int, w: Relay, es: seq<Event>)
    requires R.Wf(w.registry)
    decreases |es|
  {
    es != [] ==>
      && Guard(w, es[0])
      && (StepRefines(ttl, w, es[0]); AlwaysGuarded(ttl, Step(ttl, w, es[0]), es[1..]))
  }

  /**
   In every run, every peer that drops and is not taken over keeps a timer that will end its session
   if and only if no reconnect of the run cancels the last timer of a peer that is still away.
   */
  lemma {:induction false} RunCovers(ttl: int, w: Relay, closed: set<R.Socket>, es: seq<Event>)
    requires TimersOk(w, closed) && Covered(w, closed) && ClosedStayClosed(closed, es)
    ensures AlwaysCovered(ttl, w, closed, es) <==> AlwaysGuarded(ttl, w, es)
    decreases |es|
  {
    if es != [] {
      StepRefines(ttl, w, es[0]);
      StepTimersOk(ttl, w, closed, es[0]);
      StepCovers(ttl, w, closed, es[0]);
      var v := Step(ttl, w, es[0]);
      hide Step, Guard, Covered;
      if Guard(w, es[0]) {
        RunCovers(ttl, v, Closed(closed, es[0]), es[1..]);
      } else {
        NotCovered(ttl, v, Closed(closed, es[0]), es[1..]);
      }
    }
  }

  lemma NotCovered(ttl: int, w: Relay, closed: set<R.Socket>, es: seq<Event>)
    requires R.Wf(w.registry) && !Covered(w, closed)
    ensures !AlwaysCovered(ttl, w, closed, es)
  {
  }

  lemma EmptyIsCovered()
    ensures var w := Relay(R.EMPTY, map[], map[], 0, map[]);
            TimersOk(w, {}) && Covered(w, {})
  {
  }

  /** A closed socket that has lost its timer never gets another one. */
  lemma {:induction false} LostTimerStaysLost(ttl: int, w: Relay, es: seq<Event>, k: R.Socket)
    requires R.Wf(w.registry) && !HasTimer(w, k) && Closes(k) !in es
    ensures !HasTimer(Run(ttl, w, es), k)
    decreases |es|
  {
    if es != [] {
      StepRefines(ttl, w, es[0]);
      NoNewTimer(ttl, w, es[0], k);
      hide Step, HasTimer;
      RunFrom(ttl, w, es);
      LostTimerStaysLost(ttl, Step(ttl, w, es[0]), es[1..], k);
    }
  }

  lemma RunFrom(ttl: int, w: Relay, es: seq<Event>)
    requires R.Wf(w.registry) && es != []
    ensures R.Wf(Step(ttl, w, es[0]).registry)
    ensures Run(ttl, w, es) == Run(ttl, Step(ttl, w, es[0]), es[1..])
  {
    StepRefines(ttl, w, es[0]);
  }

  lemma NoNewTimer(ttl: int, w: Relay, e: Event, k: R.Socket)
    requires R.Wf(w.registry) && !HasTimer(w, k) && e != Closes(k)
    ensures !HasTimer(Step(ttl, w, e), k)
  {
    hide R.Wf, R.Release, R.Reconnect, R.RegisterHost, R.RegisterGuest, R.Approve, R.Reject, R.Expire;
    var v := Step(ttl, w, e);
    forall t | t in v.pending
      ensures v.pending[t].socket != k
    {
      assert t in w.pending && w.pending[t].socket == k ==> HasTimer(w, k);
    }
  }

  // ---------------------------------------------------------------- both peers drop and one comes back

  /** The session of room `id` is running (so it has a guest and an id), and neither endpoint has a timer. */
  ghost predicate Undisturbed(w: Relay, id: nat) {
    && Wf(w) && Exact(w.registry)
    && id < |w.registry.rooms|
    && w.registry.rooms[id].state == R.Active
    && w.registry.rooms[id].guest.Some? && w.registry.rooms[id].sessionId.Some?
    && forall k | k in R.Endpoints(w.registry.rooms[id]) :: !HasTimer(w, k)
  }

  /** The socket with this role in a room that has both. */
  function Endpoint(room: R.Room, role: R.Role): R.Socket
    requires room.guest.Some?
  {
    if role == R.HostRole then room.host.socket else room.guest.value.socket
  }

  function OtherRole(role: R.Role): R.Role {
    if role == R.HostRole then R.GuestRole else R.HostRole
  }

  lemma EndpointsInSession(w: Relay, id: nat, role: R.Role)
    requires Undisturbed(w, id)
    ensures var room := w.registry.rooms[id];
            var k := Endpoint(room, role);
            && InSession(w.registry, k) && w.registry.bySocket[k] == id && !HasTimer(w, k)
            && k != Endpoint(room, OtherRole(role))
            && room.sessionId.value in w.registry.bySession && w.registry.bySession[room.sessionId.value] == id
  {
    assert PlaceOk(w.registry, id);
  }

  lemma BothDrop(ttl: int, w: Relay, id: nat, first: R.Socket, last: R.Socket)
    requires Wf(w)
    requires InSession(w.registry, first) && InSession(w.registry, last)
    requires w.registry.bySocket[first] == id && w.registry.bySocket[last] == id
    ensures var w2 := Step(ttl, Step(ttl, w, Closes(first)), Closes(last));
            var u := w.registry.rooms[id].sessionId.value;
            && Wf(w2) && w2.registry == w.registry
            && u in w2.graceTimers && w2.graceTimers[u] == w.nextTimer + 1
            && w2.pending == w.pending[w.nextTimer := Timer(first, u)][w.nextTimer + 1 := Timer(last, u)]
  {
  }

  /** A reconnect leaves the other endpoint in its session and cancels the recorded timer. */
  lemma OneReturns(ttl: int, w: Relay, id: nat, back: R.Role, k: R.Socket, identity: R.Identity)
    requires Wf(w) && id < |w.registry.rooms| && w.registry.rooms[id].guest.Some?
    requires w.registry.rooms[id].sessionId.Some?
    requires var room := w.registry.rooms[id];
             var away := Endpoint(room, OtherRole(back));
             && TakenOver(w.registry, room.sessionId.value, identity) == Some(Endpoint(room, back))
             && w.registry.bySession[room.sessionId.value] == id
             && away != Endpoint(room, back) && away != k
             && InSession(w.registry, away) && w.registry.bySocket[away] == id
             && room.sessionId.value in w.graceTimers
    ensures var room := w.registry.rooms[id];
            var v := Step(ttl, w, Reconnects(k, room.sessionId.value, identity));
            && v.pending == w.pending - {w.graceTimers[room.sessionId.value]}
            && R.Wf(v.registry) && InSession(v.registry, Endpoint(room, OtherRole(back)))
  {
    StepRefines(ttl, w, Reconnects(k, w.registry.rooms[id].sessionId.value, identity));
  }

  /**
   When both peers of a session drop and one of them returns, the other one's timer is still running
   if and only if the other dropped first: the map of grace timers holds one timer a session, so the
   later drop overwrites the earlier one and the reconnect cancels whichever came last.
   */
  lemma DroppedPeerIsCleanedUpIff(
      ttl: int, w: Relay, id: nat, first: R.Role, back: R.Role, k: R.Socket, identity: R.Identity)
    requires Undisturbed(w, id) && k !in w.registry.bySocket
    requires TakenOver(w.registry, w.registry.rooms[id].sessionId.value, identity)
          == Some(Endpoint(w.registry.rooms[id], back))
    ensures var room := w.registry.rooms[id];
            var away := Endpoint(room, OtherRole(back));
            var v := Run(ttl, w, [Closes(Endpoint(room, first)), Closes(Endpoint(room, OtherRole(first))),
                                  Reconnects(k, room.sessionId.value, identity)]);
            && InSession(v.registry, away)
            && (HasTimer(v, away) <==> first != back)
  {
    hide Exact, R.Wf, InSession, TakenOver, HasTimer, Run;
    var room, n := w.registry.rooms[id], w.nextTimer;
    var drops, follows, away := Endpoint(room, first), Endpoint(room, OtherRole(first)), Endpoint(room, OtherRole(back));
    EndpointsInSession(w, id, first);
    EndpointsInSession(w, id, OtherRole(first));
    EndpointsInSession(w, id, OtherRole(back));
    var u := room.sessionId.value;
    StepRefines(ttl, w, Closes(drops));
    BothDrop(ttl, w, id, drops, follows);
    hide Step;
    var w2 := Step(ttl, Step(ttl, w, Closes(drops)), Closes(follows));
    OneReturns(ttl, w2, id, back, k, identity);
    RunThree(ttl, w, Closes(drops), Closes(follows), Reconnects(k, u, identity));
    hide Step, InSession, TakenOver, Undisturbed;
    var v := Step(ttl, w2, Reconnects(k, u, identity));
    assert v.pending == w.pending[n := Timer(drops, u)][n + 1 := Timer(follows, u)] - {n + 1};
    TimerOfFirst(w, v, Timer(drops, u), Timer(follows, u), away);
  }

  lemma TimerOfFirst(w: Relay, v: Relay, first: Timer, last: Timer, k: R.Socket)
    requires Wf(w) && !HasTimer(w, k)
    requires v.pending == w.pending[w.nextTimer := first][w.nextTimer + 1 := last] - {w.nextTimer + 1}
    ensures HasTimer(v, k) <==> first.socket == k
  {
    assert w.nextTimer in v.pending && v.pending[w.nextTimer] == first;
    forall t | t in v.pending && t != w.nextTimer
      ensures v.pending[t].socket != k
    {
      assert t in w.pending && v.pending[t] == w.pending[t];
    }
  }

  lemma RunThree(ttl: int, w: Relay, a: Event, b: Event, c: Event)
    requires R.Wf(w.registry)
    ensures R.Wf(Step(ttl, w, a).registry) && R.Wf(Step(ttl, Step(ttl, w, a), b).registry)
    ensures Run(ttl, w, [a, b, c]) == Step(ttl, Step(ttl, Step(ttl, w, a), b), c)
  {
    hide Step;
    StepRefines(ttl, w, a);
    var w1 := Step(ttl, w, a);
    StepRefines(ttl, w1, b);
    var w2 := Step(ttl, w1, b);
    StepRefines(ttl, w2, c);
    assert [a, b, c][1..] == [b, c] && [b, c][1..] == [c] && [c][1..] == [];
    assert Run(ttl, w2, [c]) == Step(ttl, w2, c);
    assert Run(ttl, w1, [b, c]) == Step(ttl, w2, c);
  }
}
