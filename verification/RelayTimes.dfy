/**
 The relay's own records over whole runs: which timer each session's entry names, and the start time of
 every session.
 */
module RelayTimes {
  import opened Wrappers
  import R = Registry
  import opened Lifecycle
  import opened Indices
  import RegistryRuns
  import opened RelayModel
  import opened RelayRuns

  // ---------------------------------------------------------------- the timer a session's entry names

  /** Every entry names a timer that is still pending and was started for that session. */
  ghost predicate TimersNamed(w: Relay) {
    && Wf(w)
    && forall u | u in w.graceTimers ::
         w.graceTimers[u] in w.pending && w.pending[w.graceTimers[u]].sessionId == u
  }

  lemma StepNamed(ttl: int, w: Relay, e: Event)
    requires TimersNamed(w)
    ensures TimersNamed(Step(ttl, w, e))
  {
    StepRefines(ttl, w, e);
    hide R.Wf, R.Release, R.Reconnect, R.Approve, R.Reject, R.RegisterHost, R.RegisterGuest, R.Expire;
    match e
    case Closes(k) =>
    case TimerFires(t) =>
    case Reconnects(k, sessionId, identity) =>
    case _ =>
  }

  /** So a reconnect only ever cancels a timer of its own session. */
  lemma {:induction false} RunNamed(ttl: int, w: Relay, es: seq<Event>)
    requires TimersNamed(w)
    ensures TimersNamed(Run(ttl, w, es))
    decreases |es|
  {
    hide Step;
    if es != [] {
      StepNamed(ttl, w, es[0]);
      RunNamed(ttl, Step(ttl, w, es[0]), es[1..]);
    }
  }

  // ---------------------------------------------------------------- start times

  /** Sockets seen so far include all that are mapped; a timer's socket is mapped to its session or not at all. */
  ghost predicate TimersTrue(w: Relay, seen: set<R.Socket>) {
    && R.Wf(w.registry) && w.registry.bySocket.Keys <= seen
    && forall t | t in w.pending :: w.pending[t].socket in seen && TimerTrue(w.registry, w.pending[t])
  }

  ghost predicate TimerTrue(s: R.State, timer: Timer)
    requires R.Wf(s)
  {
    timer.socket in s.bySocket ==> s.rooms[s.bySocket[timer.socket]].sessionId == Some(timer.sessionId)
  }

  /** A call leaves a socket other than its own where it was, or unmaps it. */
  lemma OthersStay(ttl: int, s: R.State, e: R.Event, k: R.Socket)
    requires R.Wf(s) && k !in RegistryRuns.SocketOf(e) && k in R.Step(ttl, s, e).bySocket
    ensures k in s.bySocket && R.Step(ttl, s, e).bySocket[k] == s.bySocket[k]
  {
  }

  lemma TimerStaysTrue(ttl: int, w: Relay, e: Event, timer: Timer)
    requires Life(w.registry) && timer.socket !in SocketOf(e) && TimerTrue(w.registry, timer)
    ensures R.Wf(Step(ttl, w, e).registry) && TimerTrue(Step(ttl, w, e).registry, timer)
  {
    StepRefines(ttl, w, e);
    var calls := Calls(w, e);
    hide Step, R.Step;
    if calls != [] {
      OneCall(ttl, w, e);
      StepGood(ttl, w.registry, calls[0]);
      if timer.socket in R.Step(ttl, w.registry, calls[0]).bySocket {
        OthersStay(ttl, w.registry, calls[0], timer.socket);
      }
    }
  }

  lemma OneCall(ttl: int, w: Relay, e: Event)
    requires R.Wf(w.registry) && Calls(w, e) != []
    ensures Step(ttl, w, e).registry == R.Step(ttl, w.registry, Calls(w, e)[0])
    ensures RegistryRuns.SocketOf(Calls(w, e)[0]) <= SocketOf(e)
  {
    var calls := Calls(w, e);
    StepRefines(ttl, w, e);
    R.StepWf(ttl, w.registry, calls[0]);
    hide Step, R.Step;
    assert calls[1..] == [];
    assert R.Run(ttl, R.Step(ttl, w.registry, calls[0]), []) == R.Step(ttl, w.registry, calls[0]);
  }

  lemma StepTimersTrue(ttl: int, w: Relay, seen: set<R.Socket>, e: Event)
    requires TimersTrue(w, seen) && Life(w.registry) && SocketOf(e) !! seen
    ensures TimersTrue(Step(ttl, w, e), seen + SocketOf(e))
  {
    var v := Step(ttl, w, e);
    KeysGrowByOwnSocket(ttl, w, e);
    StepRefines(ttl, w, e);
    forall t | t in v.pending
      ensures v.pending[t].socket in seen && TimerTrue(v.registry, v.pending[t])
    {
      NewTimer(ttl, w, e, t);
      hide Step, R.Wf;
      if t in w.pending && v.pending[t] == w.pending[t] {
        TimerStaysTrue(ttl, w, e, w.pending[t]);
      }
    }
  }

  /** A timer is one there was, or was just started for a socket in its session. */
  lemma NewTimer(ttl: int, w: Relay, e: Event, t: nat)
    requires R.Wf(w.registry) && t in Step(ttl, w, e).pending
    ensures var v := Step(ttl, w, e);
            || (t in w.pending && v.pending[t] == w.pending[t])
            || (R.Wf(v.registry) && v.pending[t].socket in w.registry.bySocket && TimerTrue(v.registry, v.pending[t]))
  {
    hide R.Release, R.Reconnect, R.Approve, R.Reject, R.RegisterHost, R.RegisterGuest, R.Expire;
  }

  /** The relay starts there. */
  lemma EmptyIsTrue()
    ensures var w := Relay(R.EMPTY, map[], map[], 0, map[]); TimersNamed(w) && TimersTrue(w, {})
  {
  }

  /** The room is an active session under this id. */
  ghost predicate InSessionAs(s: R.State, id: nat, u: R.Uuid) {
    id < |s.rooms| && s.rooms[id].state == R.Active && s.rooms[id].sessionId == Some(u)
  }

  /** No step that leaves a session active changes its start time. */
  lemma StartStays(ttl: int, w: Relay, seen: set<R.Socket>, e: Event, id: nat, u: R.Uuid)
    requires TimersTrue(w, seen) && Exact(w.registry) && InSessionAs(w.registry, id, u) && u in w.startTimes
    requires e.Approves? ==> forall i | 0 <= i < |w.registry.rooms| :: w.registry.rooms[i].sessionId != Some(e.uuid)
    ensures var v := Step(ttl, w, e);
            InSessionAs(v.registry, id, u) ==> u in v.startTimes && v.startTimes[u] == w.startTimes[u]
  {
    var s := w.registry;
    match e
    case Closes(k) =>
      if k in s.bySocket && s.rooms[s.bySocket[k]].sessionId == Some(u) {
        assert s.bySocket[k] != id ==> ShareSession(s, s.bySocket[k], id);
      }
    case TimerFires(t) =>
      if t in w.pending && w.pending[t].socket in s.bySocket && w.pending[t].sessionId == u {
        var k := w.pending[t].socket;
        assert TimerTrue(s, w.pending[t]);
        assert s.bySocket[k] != id ==> ShareSession(s, s.bySocket[k], id);
        ReleaseEnds(s, k);
      }
    case _ =>
      hide R.Wf, R.Release, R.Reconnect, R.Approve, R.Reject, R.RegisterHost, R.RegisterGuest, R.Expire;
  }

  /** The socket that a step releases: one that closes outside a session, or whose timer fires. */
  function Released(w: Relay, e: Event): Option<R.Socket>
    requires R.Wf(w.registry)
  {
    match e
    case Closes(k) => if InSession(w.registry, k) then None else Some(k)
    case TimerFires(t) => if t in w.pending then Some(w.pending[t].socket) else None
    case _ => None
  }

  /** Releasing a mapped socket forgets when its room's session started. */
  lemma ReleaseForgets(ttl: int, w: Relay, seen: set<R.Socket>, e: Event)
    requires TimersTrue(w, seen) && Released(w, e).Some? && Released(w, e).value in w.registry.bySocket
    ensures var room := w.registry.rooms[w.registry.bySocket[Released(w, e).value]];
            room.sessionId.Some? ==> room.sessionId.value !in Step(ttl, w, e).startTimes
  {
    if e.TimerFires? {
      assert TimerTrue(w.registry, w.pending[e.timer]);
    }
  }

  lemma ReleaseEnds(s: R.State, k: R.Socket)
    requires Exact(s) && k in s.bySocket
    ensures |R.Release(s, k).0.rooms| == |s.rooms| && R.Release(s, k).0.rooms[s.bySocket[k]].state == R.Ended
  {
    assert SocketOk(s, k) && RoomOk(s.rooms[s.bySocket[k]]);
  }

  lemma {:induction false} PoliteSplit(ttl: int, s: R.State, xs: seq<R.Event>, ys: seq<R.Event>)
    requires R.Wf(s) && RegistryRuns.AlwaysPolite(ttl, s, xs + ys)
    ensures RegistryRuns.AlwaysPolite(ttl, s, xs) && RegistryRuns.AlwaysPolite(ttl, R.Run(ttl, s, xs), ys)
    decreases |xs|
  {
    hide R.Step, RegistryRuns.Polite;
    if xs == [] {
      assert xs + ys == ys;
    } else {
      R.StepWf(ttl, s, xs[0]);
      assert (xs + ys)[0] == xs[0] && (xs + ys)[1..] == xs[1..] + ys;
      PoliteSplit(ttl, R.Step(ttl, s, xs[0]), xs[1..], ys);
    }
  }

  /** What one step of a polite run of the relay keeps. */
  lemma PoliteStep(ttl: int, w: Relay, es: seq<Event>)
    requires es != [] && Exact(w.registry) && RegistryRuns.NoStaleCode(w.registry)
    requires RegistryRuns.AlwaysPolite(ttl, w.registry, AllCalls(ttl, w, es))
    ensures var v := Step(ttl, w, es[0]);
            && Exact(v.registry) && RegistryRuns.NoStaleCode(v.registry)
            && RegistryRuns.AlwaysPolite(ttl, v.registry, AllCalls(ttl, v, es[1..]))
    ensures es[0].Approves? ==>
              forall i | 0 <= i < |w.registry.rooms| :: w.registry.rooms[i].sessionId != Some(es[0].uuid)
  {
    var v, calls := Step(ttl, w, es[0]), Calls(w, es[0]);
    StepRefines(ttl, w, es[0]);
    PoliteSplit(ttl, w.registry, calls, AllCalls(ttl, v, es[1..]));
    hide Step, R.Step;
    if calls != [] {
      OneCall(ttl, w, es[0]);
      RegistryRuns.PoliteGuard(w.registry, calls[0]);
      RegistryRuns.PoliteKeeps(ttl, w.registry, calls[0]);
      RegistryRuns.StepExact(ttl, w.registry, calls[0]);
    }
  }

  /**
   In every run with fresh sockets that keeps to the environment, a session that is active at its end
   still has the start time it had.
   */
  lemma {:induction false} StartTimeStays(
      ttl: int, w: Relay, seen: set<R.Socket>, es: seq<Event>, id: nat, u: R.Uuid)
    requires TimersTrue(w, seen) && Exact(w.registry) && RegistryRuns.NoStaleCode(w.registry)
    requires RegistryRuns.AlwaysPolite(ttl, w.registry, AllCalls(ttl, w, es)) && FreshSockets(seen, es)
    requires InSessionAs(w.registry, id, u) && u in w.startTimes
    ensures var v := Run(ttl, w, es);
            InSessionAs(v.registry, id, u) ==> u in v.startTimes && v.startTimes[u] == w.startTimes[u]
    decreases |es|
  {
    if es != [] {
      var v := Step(ttl, w, es[0]);
      PoliteStep(ttl, w, es);
      StartStays(ttl, w, seen, es[0], id, u);
      StepTimersTrue(ttl, w, seen, es[0]);
      hide Step, TimersTrue, Exact, RegistryRuns.NoStaleCode;
      if InSessionAs(v.registry, id, u) {
        StartTimeStays(ttl, v, seen + SocketOf(es[0]), es[1..], id, u);
      } else {
        NeverAgain(ttl, w, es, id, u);
      }
    }
  }

  lemma NeverAgain(ttl: int, w: Relay, es: seq<Event>, id: nat, u: R.Uuid)
    requires es != [] && Life(w.registry) && InSessionAs(w.registry, id, u)
    requires !InSessionAs(Step(ttl, w, es[0]).registry, id, u)
    ensures !InSessionAs(Run(ttl, w, es).registry, id, u)
  {
    var v := Step(ttl, w, es[0]);
    StepRefines(ttl, w, es[0]);
    RunMovesForward(ttl, w.registry, Calls(w, es[0]));
    hide Step;
    RunRefines(ttl, v, es[1..]);
    RunMovesForward(ttl, v.registry, AllCalls(ttl, v, es[1..]));
  }

  /** So while a session is active its start time is the time it was approved. */
  lemma StartedWhenApproved(
      ttl: int, w: Relay, seen: set<R.Socket>, k: R.Socket, uuid: R.Uuid, now: int, es: seq<Event>)
    requires TimersTrue(w, seen) && Exact(w.registry) && RegistryRuns.NoStaleCode(w.registry)
    requires R.Approve(w.registry, k, uuid).1.Ok?
    requires RegistryRuns.AlwaysPolite(ttl, w.registry, AllCalls(ttl, w, [Approves(k, uuid, now)] + es))
    requires FreshSockets(seen, [Approves(k, uuid, now)] + es)
    ensures var id, v := R.Approve(w.registry, k, uuid).1.value, Run(ttl, w, [Approves(k, uuid, now)] + es);
            InSessionAs(v.registry, id, uuid) ==> uuid in v.startTimes && v.startTimes[uuid] == now
  {
    var e, all := Approves(k, uuid, now), [Approves(k, uuid, now)] + es;
    var id, v := R.Approve(w.registry, k, uuid).1.value, Step(ttl, w, e);
    assert all[0] == e && all[1..] == es;
    PoliteStep(ttl, w, all);
    StepTimersTrue(ttl, w, seen, e);
    assert seen + SocketOf(e) == seen;
    assert InSessionAs(v.registry, id, uuid) && uuid in v.startTimes && v.startTimes[uuid] == now;
    hide Step, TimersTrue, Exact, RegistryRuns.NoStaleCode;
    StartTimeStays(ttl, v, seen, es, id, uuid);
  }
}
