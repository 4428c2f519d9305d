/**
 What repeated key exchanges cost, over every run: exactly when nonces repeat, exactly when a message
 is delivered twice, and a run in which both happen.
 */
module RepeatedRuns {
  import opened Wrappers
  import opened Nonces
  import opened Ciphers
  import opened Peers
  import opened Channel
  import opened RepeatedKeys
  import opened RepeatingNetwork

  // ---------------------------------------------------------------- nonces, in every reachable state

  ghost predicate SentNothing(sent: seq<Message>) {
    forall i | 0 <= i < |sent| :: !sent[i].EncryptedMsg?
  }

  /** No two chunks of the two logs have one nonce. */
  ghost predicate AllNoncesDiffer(a: seq<Message>, b: seq<Message>) {
    && NoncesDiffer(a) && NoncesDiffer(b)
    && forall i, j | 0 <= i < |a| && 0 <= j < |b| && a[i].EncryptedMsg? && b[j].EncryptedMsg? ::
         a[i].chunk.nonce != b[j].chunk.nonce
  }

  /**
   In every reachable state, all nonces differ if and only if on neither side a key exchange stands
   between two chunks, and the roles differ or one side has sent no chunk.
   */
  lemma ReachableNoncesDifferIff(cs: Configs, steps: seq<Move>)
    requires Agreeable(cs) && IsRepeatingRun(cs, START, steps)
    ensures var sys := RunAll(cs, START, steps).sys;
            var a, b := sys.a.peer.sent, sys.b.peer.sent;
            && (NoncesDiffer(a) <==> Unbroken(a)) && (NoncesDiffer(b) <==> Unbroken(b))
            && (AllNoncesDiffer(a, b)
                <==> Unbroken(a) && Unbroken(b) && (cs.a.role != cs.b.role || SentNothing(a) || SentNothing(b)))
  {
    StartsInForm(cs);
    RunForm(cs, START, steps);
    var sys := RunAll(cs, START, steps).sys;
    hide RunAll, IsRepeatingRun, LogForm, StateForm, TrailForm, NoncesDiffer, Unbroken;
    NoncesDifferIff(cs.a, cs.b, sys.a.peer.sent);
    NoncesDifferIff(cs.b, cs.a, sys.b.peer.sent);
    AcrossIff(cs.a, cs.b, sys.a.peer.sent, cs.b, cs.a, sys.b.peer.sent);
  }

  /** Two logs share a nonce if and only if their roles are equal and both have chunks. */
  lemma AcrossIff(cfg: Config, peer: Config, a: seq<Message>, cfg': Config, peer': Config, b: seq<Message>)
    requires LogForm(cfg, peer, a) && LogForm(cfg', peer', b)
    ensures (forall i, j | 0 <= i < |a| && 0 <= j < |b| && a[i].EncryptedMsg? && b[j].EncryptedMsg? ::
               a[i].chunk.nonce != b[j].chunk.nonce)
       <==> cfg.role != cfg'.role || SentNothing(a) || SentNothing(b)
  {
    hide LogForm;
    if cfg.role != cfg'.role {
      forall i, j | 0 <= i < |a| && 0 <= j < |b| && a[i].EncryptedMsg? && b[j].EncryptedMsg?
        ensures a[i].chunk.nonce != b[j].chunk.nonce
      {
        EntriesAre(cfg, peer, a, i);
        EntriesAre(cfg', peer', b, j);
        NonceInjective(SenderId(cfg.role), Since(a, i), SenderId(cfg'.role), Since(b, j));
      }
    } else if !SentNothing(a) && !SentNothing(b) {
      var i :| 0 <= i < |a| && a[i].EncryptedMsg?;
      var j :| 0 <= j < |b| && b[j].EncryptedMsg?;
      var y := FirstOfEpoch(cfg, peer, a, i);
      var z := FirstOfEpoch(cfg', peer', b, j);
      EntriesAre(cfg, peer, a, y);
      EntriesAre(cfg', peer', b, z);
      assert a[y].chunk.nonce == b[z].chunk.nonce;
    }
  }

  // ---------------------------------------------------------------- nonces, step by step

  /** A key exchange has been sent after a chunk: counters have started again. */
  ghost predicate HasRestarted(sent: seq<Message>) {
    exists i, j :: 0 <= i < j < |sent| && sent[i].EncryptedMsg? && sent[j].KeyExchange?
  }

  /** A send that goes out does so before any restart. */
  ghost predicate SendGuard(s: State, step: Move) {
    step.event.Of? && step.event.act.Sends? && CanSend(Me(s.sys, step.side).peer) ==>
      !HasRestarted(Me(s.sys, step.side).peer.sent)
  }

  lemma UnbrokenGrows(sent: seq<Message>, m: Message)
    ensures Unbroken(sent + [m]) <==> Unbroken(sent) && !(m.EncryptedMsg? && HasRestarted(sent))
  {
    var now := sent + [m];
    if Unbroken(now) {
      forall i, j, k | 0 <= i < j < k < |sent| && sent[i].EncryptedMsg? && sent[k].EncryptedMsg?
        ensures !sent[j].KeyExchange?
      {
        assert now[i].EncryptedMsg? && now[k].EncryptedMsg? && !now[j].KeyExchange?;
      }
      forall i, j | 0 <= i < j < |sent| && sent[i].EncryptedMsg? && m.EncryptedMsg?
        ensures !sent[j].KeyExchange?
      {
        assert now[i].EncryptedMsg? && now[|sent|].EncryptedMsg? && !now[j].KeyExchange?;
      }
    }
    if Unbroken(sent) && !(m.EncryptedMsg? && HasRestarted(sent)) {
      forall i, j, k | 0 <= i < j < k < |now| && now[i].EncryptedMsg? && now[k].EncryptedMsg?
        ensures !now[j].KeyExchange?
      {
        assert now[i] == sent[i] && now[j] == sent[j];
      }
    }
  }

  /** What a step adds to the log of the side that takes it. */
  lemma StepSends(cfg: Config, peer: Config, me: End, other: End, e: Occurrence)
    requires Possible(me, other, e) && StateForm(cfg, peer, me.peer)
    requires Laws(cfg.prim) && peer.prim == cfg.prim && LogForm(peer, cfg, other.peer.sent)
    ensures var (me', other') := Perform(cfg, me, other, e);
            && other'.peer == other.peer
            && (if e.Of? && e.act.Sends? && CanSend(me.peer) then
                  exists m: Message ::
                    IsJson(m) && PayloadOf(m) == e.act.payload && me'.peer.sent == me.peer.sent + [m]
                else
                  me'.peer.sent == me.peer.sent || me'.peer.sent == me.peer.sent + [KeyExchange(Public(cfg))])
  {
    match e
    case KeyRepeats(i) => KeyEventSends(cfg, peer, me, other, i);
    case Of(KeyArrives(i)) => KeyEventSends(cfg, peer, me, other, i);
    case Of(Sends(payload)) =>
      if CanSend(me.peer) {
        var q := Send(me.peer, payload).0;
        var m := q.sent[|me.peer.sent|];
        assert IsJson(m) && PayloadOf(m) == payload && q.sent == me.peer.sent + [m];
      }
    case Of(_) =>
  }

  lemma KeyEventSends(cfg: Config, peer: Config, me: End, other: End, i: nat)
    requires Laws(cfg.prim) && peer.prim == cfg.prim && LogForm(peer, cfg, other.peer.sent)
    requires i < |other.peer.sent| && other.peer.sent[i].KeyExchange?
    ensures var q := Handle(cfg, me.peer, cfg.peerUser, cfg.peerDevice, other.peer.sent[i]);
            q.sent == me.peer.sent || q.sent == me.peer.sent + [KeyExchange(Public(cfg))]
  {
    KeyMakes(cfg, peer, other.peer.sent, i);
    KeyFrame(cfg, me.peer, other.peer.sent[i].publicKey);
    hide HandleKeyExchange, LogForm, Flushes, Peers.Taken;
  }

  ghost predicate BothUnbroken(s: State) {
    Unbroken(s.sys.a.peer.sent) && Unbroken(s.sys.b.peer.sent)
  }

  lemma StepUnbrokenIff(cs: Configs, s: State, step: Move)
    requires Agreeable(cs) && Form(cs, s) && CanStep(s, step)
    ensures BothUnbroken(After(cs, s, step)) <==> BothUnbroken(s) && SendGuard(s, step)
  {
    hide Perform, Possible, NextTrail, LogForm, StateForm, TrailForm, Unbroken, HasRestarted, CanSend;
    if step.side == A {
      GrowsIff(cs.a, cs.b, s.sys.a, s.sys.b, step.event);
    } else {
      GrowsIff(cs.b, cs.a, s.sys.b, s.sys.a, step.event);
    }
  }

  lemma GrowsIff(cfg: Config, peer: Config, me: End, other: End, e: Occurrence)
    requires Possible(me, other, e) && StateForm(cfg, peer, me.peer)
    requires Laws(cfg.prim) && peer.prim == cfg.prim && LogForm(peer, cfg, other.peer.sent)
    ensures var (me', other') := Perform(cfg, me, other, e);
            && other'.peer == other.peer
            && (Unbroken(me'.peer.sent)
                <==> Unbroken(me.peer.sent)
                     && (e.Of? && e.act.Sends? && CanSend(me.peer) ==> !HasRestarted(me.peer.sent)))
  {
    StepSends(cfg, peer, me, other, e);
    hide Perform, Possible, LogForm, StateForm, Unbroken, HasRestarted, CanSend;
    var me' := Perform(cfg, me, other, e).0;
    if me'.peer.sent != me.peer.sent {
      var m := me'.peer.sent[|me.peer.sent|];
      UnbrokenGrows(me.peer.sent, m);
    }
  }

  ghost predicate AllSends(cs: Configs, s: State, steps: seq<Move>)
    requires IsRepeatingRun(cs, s, steps)
    decreases |steps|
  {
    steps != [] ==> SendGuard(s, steps[0]) && AllSends(cs, After(cs, s, steps[0]), steps[1..])
  }

  /** In every run, each side's nonces differ to the end if and only if no message goes out after a restart. */
  lemma RunNoncesDifferIff(cs: Configs, steps: seq<Move>)
    requires Agreeable(cs) && IsRepeatingRun(cs, START, steps)
    ensures var sys := RunAll(cs, START, steps).sys;
            NoncesDiffer(sys.a.peer.sent) && NoncesDiffer(sys.b.peer.sent) <==> AllSends(cs, START, steps)
  {
    StartsInForm(cs);
    RunUnbrokenIff(cs, START, steps);
    ReachableNoncesDifferIff(cs, steps);
  }

  lemma {:induction false} RunUnbrokenIff(cs: Configs, s: State, steps: seq<Move>)
    requires Agreeable(cs) && Form(cs, s) && IsRepeatingRun(cs, s, steps)
    ensures BothUnbroken(RunAll(cs, s, steps)) <==> BothUnbroken(s) && AllSends(cs, s, steps)
    decreases |steps|
  {
    hide After, Form, SendGuard, BothUnbroken;
    if steps != [] {
      AfterForm(cs, s, steps[0]);
      StepUnbrokenIff(cs, s, steps[0]);
      RunUnbrokenIff(cs, After(cs, s, steps[0]), steps[1..]);
    }
  }

  // ---------------------------------------------------------------- deliveries

  ghost predicate Once(got: seq<nat>) {
    forall j, k | 0 <= j < k < |got| :: got[j] != got[k]
  }

  /** The chunks at the start of the queue whose counters increase from above `low`. */
  function Climbing(theirs: seq<Message>, low: int, waiting: seq<nat>): (front: seq<nat>)
    requires forall k | 0 <= k < |waiting| :: waiting[k] < |theirs|
    ensures front <= waiting
    decreases |waiting|
  {
    if waiting == [] || Since(theirs, waiting[0]) <= low then []
    else [waiting[0]] + Climbing(theirs, Since(theirs, waiting[0]), waiting[1..])
  }

  /**
   A message delivered before the present cipher does not arrive again with a counter above all that
   have arrived since; messages delivered under the present cipher are refused by it.  When a key
   arrives, no message delivered so far stands in the increasing start of the queue.
   */
  ghost predicate Fresh(p: Peer, theirs: seq<Message>, t: Trail, e: Occurrence) {
    match e
    case KeyRepeats(_) => FreshQueue(p, theirs, t)
    case Of(KeyArrives(_)) => FreshQueue(p, theirs, t)
    case Of(ChunkArrives(i)) =>
      p.subscribed && t.since <= |t.got| && i in t.got[..t.since] && i < |theirs| ==> Since(theirs, i) <= High(p)
    case Of(_) => true
  }

  ghost predicate FreshQueue(p: Peer, theirs: seq<Message>, t: Trail) {
    p.subscribed && AreChunks(theirs, t.waiting) ==> forall i | i in Climbing(theirs, -1, t.waiting) :: i !in t.got
  }

  ghost predicate TakeGuard(s: State, step: Move) {
    Fresh(Me(s.sys, step.side).peer, Other(s.sys, step.side).peer.sent, TrailOf(s, step.side), step.event)
  }

  lemma TakeOnceIff(cfg: Config, peer: Config, me: End, other: End, t: Trail, i: nat)
    requires SharedKey(cfg, peer) == SharedKey(peer, cfg) && LogForm(peer, cfg, other.peer.sent)
    requires EndForm(cfg, peer, me.peer, other.peer.sent, t) && Enabled(me, other, ChunkArrives(i))
    requires me.peer.subscribed && Once(t.got)
    ensures t.since <= |t.got| && i < |other.peer.sent|
    ensures Once(NextTrail(cfg, me, other, t, Of(ChunkArrives(i))).got)
       <==> (i in t.got[..t.since] ==> Since(other.peer.sent, i) <= High(me.peer))
  {
    var p, theirs := me.peer, other.peer.sent;
    if p.cipher.Some? {
      TakenIff(cfg, peer, p.cipher.value, theirs, i);
      TakenAgainIff(theirs, t.got, t.since, High(p), i);
      hide LogForm, SharedKey, Since, Decrypt, Received, PayloadsAt, Queued, Climbs, GotOk, Once;
    }
  }

  /** Of the messages delivered so far, only those before `since` can have a counter above `high`. */
  lemma TakenAgainIff(theirs: seq<Message>, got: seq<nat>, since: nat, high: int, i: nat)
    requires GotOk(theirs, got) && since <= |got| && Climbs(theirs, got, since, high) && Once(got)
    requires i < |theirs|
    ensures Since(theirs, i) > high ==> (Once(got + [i]) <==> i !in got[..since])
  {
    OnceAppend(got, i);
    hide Since, Once;
    forall k | since <= k < |got| && Since(theirs, i) > high
      ensures got[k] != i
    {
    }
    assert forall k | 0 <= k < since :: got[..since][k] == got[k];
  }

  lemma OnceAppend(got: seq<nat>, i: nat)
    requires Once(got)
    ensures Once(got + [i]) <==> i !in got
  {
    if i in got {
      var k :| 0 <= k < |got| && got[k] == i;
      assert (got + [i])[k] == (got + [i])[|got|];
    }
  }

  /** A flush whose errors nobody hears takes the increasing start of the queue. */
  lemma {:induction false} FlushGotIs(cfg: Config, peer: Config, c: Cipher, theirs: seq<Message>, waiting: seq<nat>)
    requires SharedKey(cfg, peer) == SharedKey(peer, cfg) && c.key == SharedKey(cfg, peer)
    requires LogForm(peer, cfg, theirs) && AreChunks(theirs, waiting)
    ensures FlushGot(false, c, theirs, waiting) == Climbing(theirs, c.lastReceived, waiting)
    decreases |waiting|
  {
    if waiting != [] {
      TakenIff(cfg, peer, c, theirs, waiting[0]);
      hide Decrypt, LogForm, SharedKey, Since;
      if Since(theirs, waiting[0]) > c.lastReceived {
        FlushGotIs(cfg, peer, c.(lastReceived := Since(theirs, waiting[0])), theirs, waiting[1..]);
      }
    }
  }

  lemma KeyOnceIff(cfg: Config, peer: Config, me: End, other: End, t: Trail, i: nat)
    requires Laws(cfg.prim) && peer.prim == cfg.prim && SharedKey(cfg, peer) == SharedKey(peer, cfg)
    requires EndForm(cfg, peer, me.peer, other.peer.sent, t) && LogForm(peer, cfg, other.peer.sent)
    requires i < |other.peer.sent| && other.peer.sent[i].KeyExchange? && Once(t.got)
    ensures Once(KeyTrail(cfg, me, other, t, i).got) <==> FreshQueue(me.peer, other.peer.sent, t)
  {
    if me.peer.subscribed {
      var theirs, c := other.peer.sent, NewCipher(SharedKey(cfg, peer), SenderId(cfg.role));
      KeyForm(cfg, peer, me.peer, theirs, t, i);
      WaitingOrHeard(cfg, peer, me.peer, theirs, t);
      var u := KeyTrail(cfg, me, other, t, i);
      var q := Handle(cfg, me.peer, cfg.peerUser, cfg.peerDevice, theirs[i]);
      assert GotOk(theirs, u.got) && Climbs(theirs, u.got, |t.got|, High(q)) && u.since == |t.got| <= |u.got|;
      FlushGotIs(cfg, peer, c, theirs, t.waiting);
      hide CreateCipher, FlushGot, FlushLeft, Handle, LogForm, SharedKey, Since, EndForm, Once, Climbing;
      if t.got == [] {
        assert u.got[0..] == u.got && u.since == 0;
        ClimbsOnce(theirs, u.got, 0, High(q));
      } else if t.waiting == [] {
        NothingTaken(cfg, c, theirs);
        assert u.got == t.got;
      } else {
        ClimbsOnce(theirs, u.got, |t.got|, High(q));
        OnceJoin(t.got, FlushGot(false, c, theirs, t.waiting));
      }
    }
  }

  lemma NothingTaken(cfg: Config, c: Cipher, theirs: seq<Message>)
    ensures FlushGot(cfg.heard, c, theirs, []) == [] && Climbing(theirs, -1, []) == []
  {
  }

  /** Chunks that wait although some were delivered wait where errors are not heard. */
  lemma WaitingOrHeard(cfg: Config, peer: Config, p: Peer, theirs: seq<Message>, t: Trail)
    requires EndForm(cfg, peer, p, theirs, t)
    ensures t.got == [] || t.waiting == [] || !cfg.heard
  {
    hide LogForm, CipherForm, Climbs, GotOk, Received, PayloadsAt;
  }

  lemma OnceJoin(xs: seq<nat>, ys: seq<nat>)
    requires Once(xs) && Once(ys)
    ensures Once(xs + ys) <==> forall i | i in ys :: i !in xs
  {
    var zs := xs + ys;
    if Once(zs) {
      forall i | i in ys
        ensures i !in xs
      {
        var k :| 0 <= k < |ys| && ys[k] == i;
        assert zs[|xs| + k] == i && forall j | 0 <= j < |xs| :: zs[j] == xs[j];
      }
    }
    if forall i | i in ys :: i !in xs {
      forall j, k | 0 <= j < k < |zs|
        ensures zs[j] != zs[k]
      {
        if j < |xs| <= k {
          assert ys[k - |xs|] in ys;
        } else if |xs| <= j {
          assert ys[j - |xs|] != ys[k - |xs|];
        }
      }
    }
  }

  /** What was delivered from `since` on was delivered once. */
  lemma ClimbsOnce(theirs: seq<Message>, got: seq<nat>, since: nat, high: int)
    requires GotOk(theirs, got) && since <= |got| && Climbs(theirs, got, since, high)
    ensures Once(got[since..])
  {
    var late := got[since..];
    forall j, k | 0 <= j < k < |late|
      ensures late[j] != late[k]
    {
      assert Since(theirs, got[since + j]) < Since(theirs, got[since + k]);
    }
  }

  lemma NextOnceIff(cfg: Config, peer: Config, me: End, other: End, t: Trail, e: Occurrence)
    requires Laws(cfg.prim) && peer.prim == cfg.prim && SharedKey(cfg, peer) == SharedKey(peer, cfg)
    requires EndForm(cfg, peer, me.peer, other.peer.sent, t) && LogForm(peer, cfg, other.peer.sent)
    requires Possible(me, other, e) && Once(t.got)
    ensures Once(NextTrail(cfg, me, other, t, e).got) <==> Fresh(me.peer, other.peer.sent, t, e)
  {
    hide EndForm, LogForm, SharedKey, Once, KeyTrail, FreshQueue;
    match e
    case KeyRepeats(i) => KeyOnceIff(cfg, peer, me, other, t, i);
    case Of(KeyArrives(i)) => KeyOnceIff(cfg, peer, me, other, t, i);
    case Of(ChunkArrives(i)) =>
      if me.peer.subscribed {
        TakeOnceIff(cfg, peer, me, other, t, i);
      }
    case Of(_) =>
  }

  ghost predicate BothOnce(s: State) {
    Once(s.a.got) && Once(s.b.got)
  }

  /** A step keeps every message delivered at most once if and only if its guard holds. */
  lemma StepOnceIff(cs: Configs, s: State, step: Move)
    requires Agreeable(cs) && Form(cs, s) && CanStep(s, step) && BothOnce(s)
    ensures BothOnce(After(cs, s, step)) <==> TakeGuard(s, step)
  {
    SharedKeySymmetric(cs);
    assert LogForm(cs.a, cs.b, s.sys.a.peer.sent) && LogForm(cs.b, cs.a, s.sys.b.peer.sent);
    hide Perform, Possible, NextTrail, EndForm, LogForm, Once, SharedKey, Fresh;
    if step.side == A {
      NextOnceIff(cs.a, cs.b, s.sys.a, s.sys.b, s.a, step.event);
    } else {
      NextOnceIff(cs.b, cs.a, s.sys.b, s.sys.a, s.b, step.event);
    }
  }

  ghost predicate AllTakes(cs: Configs, s: State, steps: seq<Move>)
    requires IsRepeatingRun(cs, s, steps)
    decreases |steps|
  {
    steps != [] ==> TakeGuard(s, steps[0]) && AllTakes(cs, After(cs, s, steps[0]), steps[1..])
  }

  lemma {:induction false} OnceFrom(cs: Configs, s: State, steps: seq<Move>)
    requires Agreeable(cs) && Form(cs, s) && IsRepeatingRun(cs, s, steps) && BothOnce(s)
    ensures BothOnce(RunAll(cs, s, steps)) <==> AllTakes(cs, s, steps)
    decreases |steps|
  {
    hide After, Form, TakeGuard, BothOnce;
    if steps != [] {
      AfterForm(cs, s, steps[0]);
      StepOnceIff(cs, s, steps[0]);
      if BothOnce(After(cs, s, steps[0])) {
        OnceFrom(cs, After(cs, s, steps[0]), steps[1..]);
      } else {
        TwiceStays(cs, After(cs, s, steps[0]), steps[1..]);
      }
    }
  }

  lemma {:induction false} TwiceStays(cs: Configs, s: State, steps: seq<Move>)
    requires IsRepeatingRun(cs, s, steps) && !BothOnce(s)
    ensures !BothOnce(RunAll(cs, s, steps))
    decreases |steps|
  {
    if steps != [] {
      GotGrows(cs, s, steps[0]);
      hide After;
      TwiceStays(cs, After(cs, s, steps[0]), steps[1..]);
    }
  }

  lemma GotGrows(cs: Configs, s: State, step: Move)
    requires CanStep(s, step) && !BothOnce(s)
    ensures !BothOnce(After(cs, s, step))
  {
    var t := After(cs, s, step);
    hide Perform, FlushGot, FlushLeft, Decrypt, CreateCipher;
    TwiceExtends(s.a.got, t.a.got);
    TwiceExtends(s.b.got, t.b.got);
  }

  lemma TwiceExtends(got: seq<nat>, more: seq<nat>)
    ensures !Once(got) && got <= more ==> !Once(more)
  {
    if !Once(got) && got <= more {
      var j, k :| 0 <= j < k < |got| && got[j] == got[k];
      assert more[j] == more[k];
    }
  }

  // ---------------------------------------------------------------- what was asked to be sent

  /** The payloads sealed in a log, in order. */
  function SealedIn(sent: seq<Message>): seq<Payload> {
    if sent == [] then []
    else
      var n := |sent| - 1;
      SealedIn(sent[..n]) + if IsJson(sent[n]) then [PayloadOf(sent[n])] else []
  }

  /** The payloads that a side was asked to send in the run while it could send, in order. */
  function SaidThere(cs: Configs, s: State, steps: seq<Move>, side: Side): seq<Payload>
    requires IsRepeatingRun(cs, s, steps)
    decreases |steps|
  {
    if steps == [] then []
    else
      (if steps[0].side == side then SaidIn(Me(s.sys, side).peer, steps[0].event) else [])
      + SaidThere(cs, After(cs, s, steps[0]), steps[1..], side)
  }

  function SaidIn(p: Peer, e: Occurrence): seq<Payload> {
    if e.Of? then SaidBy(p, e.act) else []
  }

  lemma SealedAppend(sent: seq<Message>, m: Message)
    ensures SealedIn(sent + [m]) == SealedIn(sent) + if IsJson(m) then [PayloadOf(m)] else []
  {
    assert (sent + [m])[..|sent|] == sent;
  }

  lemma PerformSays(cfg: Config, peer: Config, me: End, other: End, e: Occurrence)
    requires Possible(me, other, e) && StateForm(cfg, peer, me.peer)
    requires Laws(cfg.prim) && peer.prim == cfg.prim && LogForm(peer, cfg, other.peer.sent)
    ensures var (me', other') := Perform(cfg, me, other, e);
            && other'.peer == other.peer
            && SealedIn(me'.peer.sent) == SealedIn(me.peer.sent) + SaidIn(me.peer, e)
  {
    StepSends(cfg, peer, me, other, e);
    var me' := Perform(cfg, me, other, e).0;
    hide Perform, Possible, StateForm, LogForm, SealedIn, CanSend;
    assert SealedIn(me.peer.sent) + [] == SealedIn(me.peer.sent);
    if me'.peer.sent != me.peer.sent {
      var m := me'.peer.sent[|me.peer.sent|];
      SealedAppend(me.peer.sent, m);
    }
  }

  lemma AfterSays(cs: Configs, s: State, step: Move, side: Side)
    requires Agreeable(cs) && Form(cs, s) && CanStep(s, step)
    ensures var p := Me(s.sys, side).peer;
            SealedIn(Me(After(cs, s, step).sys, side).peer.sent)
            == SealedIn(p.sent) + if step.side == side then SaidIn(p, step.event) else []
  {
    hide Perform, Possible, NextTrail, LogForm, StateForm, TrailForm, SealedIn, SaidIn;
    assert SealedIn(Me(s.sys, side).peer.sent) + [] == SealedIn(Me(s.sys, side).peer.sent);
    if step.side == A {
      PerformSays(cs.a, cs.b, s.sys.a, s.sys.b, step.event);
    } else {
      PerformSays(cs.b, cs.a, s.sys.b, s.sys.a, step.event);
    }
  }

  /** In every run, also when keys repeat, the payloads sealed in a log are those its side was asked to send. */
  lemma {:induction false} RunSeals(cs: Configs, s: State, steps: seq<Move>, side: Side)
    requires Agreeable(cs) && Form(cs, s) && IsRepeatingRun(cs, s, steps)
    ensures SealedIn(Me(RunAll(cs, s, steps).sys, side).peer.sent)
         == SealedIn(Me(s.sys, side).peer.sent) + SaidThere(cs, s, steps, side)
    decreases |steps|
  {
    hide After, Form, SaidIn, SealedIn;
    var now := SealedIn(Me(s.sys, side).peer.sent);
    if steps == [] {
      assert now + [] == now;
    } else {
      AfterForm(cs, s, steps[0]);
      AfterSays(cs, s, steps[0], side);
      RunSeals(cs, After(cs, s, steps[0]), steps[1..], side);
    }
  }

  /** Which of the payloads of the log the message at place `i` carries. */
  function Rank(sent: seq<Message>, i: nat): nat
    requires i <= |sent|
  {
    |SealedIn(sent[..i])|
  }

  lemma {:induction false} RankIs(sent: seq<Message>, i: nat)
    requires i < |sent| && IsJson(sent[i])
    ensures Rank(sent, i) < |SealedIn(sent)| && SealedIn(sent)[Rank(sent, i)] == PayloadOf(sent[i])
  {
    var n := |sent| - 1;
    assert sent[..n] + [sent[n]] == sent;
    SealedAppend(sent[..n], sent[n]);
    if i < n {
      RankIs(sent[..n], i);
      assert sent[..n][..i] == sent[..i];
    }
  }

  lemma {:induction false} RankGrows(sent: seq<Message>, i: nat, j: nat)
    requires i < j <= |sent| && IsJson(sent[i])
    ensures Rank(sent, i) < Rank(sent, j)
  {
    assert sent[..j] == sent[..j - 1] + [sent[j - 1]];
    SealedAppend(sent[..j - 1], sent[j - 1]);
    if i < j - 1 {
      RankGrows(sent, i, j - 1);
    }
  }

  function Ranks(theirs: seq<Message>, got: seq<nat>): (ranks: seq<nat>)
    requires GotOk(theirs, got)
    ensures |ranks| == |got|
  {
    seq(|got|, k requires 0 <= k < |got| => Rank(theirs, got[k]))
  }

  /** The deliveries, as picks among the payloads sealed; they pick no payload twice if they are of no message twice. */
  lemma DeliveriesAre(theirs: seq<Message>, got: seq<nat>)
    requires GotOk(theirs, got)
    ensures forall k | 0 <= k < |got| :: Ranks(theirs, got)[k] < |SealedIn(theirs)|
    ensures PayloadsAt(theirs, got) == Pick(SealedIn(theirs), Ranks(theirs, got))
    ensures Once(Ranks(theirs, got)) <==> Once(got)
  {
    var ranks := Ranks(theirs, got);
    forall k | 0 <= k < |got|
      ensures ranks[k] < |SealedIn(theirs)| && SealedIn(theirs)[ranks[k]] == PayloadOf(theirs[got[k]])
    {
      RankIs(theirs, got[k]);
    }
    forall j, k | 0 <= j < k < |got|
      ensures ranks[j] == ranks[k] <==> got[j] == got[k]
    {
      if got[j] < got[k] {
        RankGrows(theirs, got[j], got[k]);
      } else if got[k] < got[j] {
        RankGrows(theirs, got[k], got[j]);
      }
    }
  }

  /** What a side delivered, as picks among what the other was asked to send. */
  ghost predicate Delivers(notices: seq<Notice>, said: seq<Payload>, picks: seq<nat>) {
    && (forall k | 0 <= k < |picks| :: picks[k] < |said|)
    && Received(notices) == Pick(said, picks)
  }

  /**
   In every run: what a side delivered are payloads that the other side was asked to send while it could,
   and no send is delivered twice if and only if no message that was delivered before a restart arrives
   after it with a counter above all that arrived in between, or stands in the increasing start of a
   queue that a restart takes.
   */
  lemma RunOnceIff(cs: Configs, steps: seq<Move>)
    requires Agreeable(cs) && IsRepeatingRun(cs, START, steps)
    ensures var s := RunAll(cs, START, steps);
            && GotOk(s.sys.b.peer.sent, s.a.got) && GotOk(s.sys.a.peer.sent, s.b.got)
            && var a, b := Ranks(s.sys.b.peer.sent, s.a.got), Ranks(s.sys.a.peer.sent, s.b.got);
            && Delivers(s.sys.a.peer.notices, SaidThere(cs, START, steps, B), a)
            && Delivers(s.sys.b.peer.notices, SaidThere(cs, START, steps, A), b)
            && (Once(a) && Once(b) <==> AllTakes(cs, START, steps))
  {
    StartsInForm(cs);
    StartsOnce();
    hide *;
    RunForm(cs, START, steps);
    OnceFrom(cs, START, steps);
    var s := RunAll(cs, START, steps);
    FormShows(cs, s);
    SidesAre(s.sys);
    SealsFromStart(cs, steps, A);
    SealsFromStart(cs, steps, B);
    DeliversSaid(s.sys.a.peer.notices, s.sys.b.peer.sent, s.a.got, SaidThere(cs, START, steps, B));
    DeliversSaid(s.sys.b.peer.notices, s.sys.a.peer.sent, s.b.got, SaidThere(cs, START, steps, A));
    BothOnceIs(s);
  }

  lemma SidesAre(sys: System)
    ensures Me(sys, A) == sys.a && Me(sys, B) == sys.b
  {
  }

  lemma StartsOnce()
    ensures BothOnce(START)
  {
  }

  lemma BothOnceIs(s: State)
    ensures BothOnce(s) <==> Once(s.a.got) && Once(s.b.got)
  {
  }

  lemma FormShows(cs: Configs, s: State)
    requires Form(cs, s)
    ensures GotOk(s.sys.b.peer.sent, s.a.got) && GotOk(s.sys.a.peer.sent, s.b.got)
    ensures Received(s.sys.a.peer.notices) == PayloadsAt(s.sys.b.peer.sent, s.a.got)
    ensures Received(s.sys.b.peer.notices) == PayloadsAt(s.sys.a.peer.sent, s.b.got)
  {
    hide LogForm, StateForm, Climbs, Queued;
  }

  lemma SealsFromStart(cs: Configs, steps: seq<Move>, side: Side)
    requires Agreeable(cs) && IsRepeatingRun(cs, START, steps)
    ensures SealedIn(Me(RunAll(cs, START, steps).sys, side).peer.sent) == SaidThere(cs, START, steps, side)
  {
    StartsInForm(cs);
    RunSeals(cs, START, steps, side);
    hide RunAll, IsRepeatingRun, SaidThere;
    assert SealedIn([]) + SaidThere(cs, START, steps, side) == SaidThere(cs, START, steps, side);
  }

  lemma DeliversSaid(notices: seq<Notice>, theirs: seq<Message>, got: seq<nat>, said: seq<Payload>)
    requires GotOk(theirs, got) && Received(notices) == PayloadsAt(theirs, got) && SealedIn(theirs) == said
    ensures Delivers(notices, said, Ranks(theirs, got))
    ensures Once(Ranks(theirs, got)) <==> Once(got)
  {
    DeliveriesAre(theirs, got);
    hide Once, Ranks, SealedIn, PayloadsAt, Received;
  }

  // ---------------------------------------------------------------- without repeats

  /** The same run over the network that repeats no key exchange. */
  function WithoutRepeats(steps: seq<Move>): seq<Channel.Step>
    requires forall i | 0 <= i < |steps| :: steps[i].event.Of?
  {
    seq(|steps|, i requires 0 <= i < |steps| => Channel.Step(steps[i].side, steps[i].event.act))
  }

  /** A run without repeats is a run of the system of `Channel`. */
  lemma {:induction false} NoRepeatsRefine(cs: Configs, s: State, steps: seq<Move>)
    requires IsRepeatingRun(cs, s, steps) && forall i | 0 <= i < |steps| :: steps[i].event.Of?
    ensures IsRun(cs, s.sys, WithoutRepeats(steps))
    ensures Channel.Run(cs, s.sys, WithoutRepeats(steps)) == RunAll(cs, s, steps).sys
    decreases |steps|
  {
    hide Act, NextTrail;
    if steps != [] {
      NoRepeatsRefine(cs, After(cs, s, steps[0]), steps[1..]);
      assert WithoutRepeats(steps)[1..] == WithoutRepeats(steps[1..]);
    }
  }

  // ---------------------------------------------------------------- a run in which both happen

  /** The steps lead from one state to the other. */
  ghost predicate Leads(cs: Configs, s: State, steps: seq<Move>, t: State) {
    IsRepeatingRun(cs, s, steps) && RunAll(cs, s, steps) == t
  }

  lemma LeadsOne(cs: Configs, s: State, step: Move, t: State)
    requires CanStep(s, step) && After(cs, s, step) == t
    ensures Leads(cs, s, [step], t)
  {
    hide After, CanStep;
    assert [step][1..] == [];
    assert IsRepeatingRun(cs, t, []) && RunAll(cs, t, []) == t;
  }

  lemma {:induction false} LeadsOn(cs: Configs, s: State, steps: seq<Move>, t: State, more: seq<Move>, u: State)
    requires Leads(cs, s, steps, t) && Leads(cs, t, more, u)
    ensures Leads(cs, s, steps + more, u)
    decreases |steps|
  {
    hide After, CanStep;
    if steps == [] {
      assert steps + more == more;
    } else {
      assert (steps + more)[1..] == steps[1..] + more;
      LeadsOn(cs, After(cs, s, steps[0]), steps[1..], t, more, u);
    }
  }

  /** An encrypted peer with nothing queued. */
  function Speaking(cfg: Config, peer: Config, sent: seq<Message>, counter: nat, last: int, notices: seq<Notice>): Peer {
    Peer(Encrypted, Some(Cipher(SharedKey(cfg, peer), SenderId(cfg.role), counter, last)), Some(Public(peer)),
         [], true, sent, [], notices)
  }

  function ChunkZero(cfg: Config, peer: Config, payload: Payload): Message {
    EncryptedMsg(SentChunk(SharedKey(cfg, peer), SenderId(cfg.role), 0, Json(payload)))
  }

  lemma KeyGives(cfg: Config, peer: Config, p: Peer)
    requires Laws(cfg.prim) && peer.prim == cfg.prim && p.subscribed && p.pending == [] && p.announced == []
    ensures Handle(cfg, p, cfg.peerUser, cfg.peerDevice, KeyExchange(Public(peer)))
         == Speaking(cfg, peer, if p.status == Handshake then p.sent else p.sent + [KeyExchange(Public(cfg))],
                     0, -1, p.notices + [Ready])
  {
    KeyFrame(cfg, p, Public(peer));
    hide HandleKeyExchange, Peers.Taken;
  }

  lemma ChunkGives(cfg: Config, peer: Config, sent: seq<Message>, counter: nat, notices: seq<Notice>, x: Payload)
    requires SharedKey(cfg, peer) == SharedKey(peer, cfg)
    ensures var p := Speaking(cfg, peer, sent, counter, -1, notices);
            && Handle(cfg, p, cfg.peerUser, cfg.peerDevice, ChunkZero(peer, cfg, x))
               == Speaking(cfg, peer, sent, counter, 0, notices + [Delivered(x)])
            && Decrypt(p.cipher.value, ChunkZero(peer, cfg, x).chunk).1.Ok?
  {
    CounterReadsBack(SenderId(peer.role), 0);
    hide SharedKey;
  }

  lemma SendGives(cfg: Config, peer: Config, sent: seq<Message>, last: int, notices: seq<Notice>, x: Payload)
    ensures Send(Speaking(cfg, peer, sent, 0, last, notices), x).0
         == Speaking(cfg, peer, sent + [ChunkZero(cfg, peer, x)], 1, last, notices)
  {
    hide SharedKey;
  }

  /** A state in which both keys have arrived, or are about to. */
  function Stage(a: Peer, goneA: set<nat>, b: Peer, goneB: set<nat>, t: Trail): State {
    State(System(End(a, goneA), End(b, goneB)), NO_TRAIL, t)
  }

  const HANDSHAKE: seq<Move> := [Move(A, Of(Starts)), Move(B, Of(KeyArrives(0))), Move(A, Of(KeyArrives(0)))]

  function Shaken(cs: Configs): State {
    Stage(Speaking(cs.a, cs.b, [KeyExchange(Public(cs.a))], 0, -1, [Ready]), {0},
          Speaking(cs.b, cs.a, [KeyExchange(Public(cs.b))], 0, -1, [Ready]), {0}, NO_TRAIL)
  }

  lemma HandshakeLeads(cs: Configs)
    requires Agreeable(cs)
    ensures Leads(cs, START, HANDSHAKE, Shaken(cs))
  {
    var ka, kb := KeyExchange(Public(cs.a)), KeyExchange(Public(cs.b));
    var s1 := Stage(StartHandshake(cs.a, FRESH), {}, FRESH, {}, NO_TRAIL);
    var s2 := Stage(StartHandshake(cs.a, FRESH), {0}, Speaking(cs.b, cs.a, [kb], 0, -1, [Ready]), {}, NO_TRAIL);
    KeyGives(cs.b, cs.a, FRESH);
    KeyGives(cs.a, cs.b, StartHandshake(cs.a, FRESH));
    assert [] + [kb] == [kb] && [] + [ka] == [ka] && [] + [Ready] == [Ready];
    hide Handle, Speaking, Public, SharedKey;
    LeadsOne(cs, START, HANDSHAKE[0], s1);
    KeyStep(cs, s1, B, s2);
    KeyStep(cs, s2, A, Shaken(cs));
    LeadsOn(cs, START, [HANDSHAKE[0]], s1, [HANDSHAKE[1]], s2);
    LeadsOn(cs, START, [HANDSHAKE[0]] + [HANDSHAKE[1]], s2, [HANDSHAKE[2]], Shaken(cs));
    assert [HANDSHAKE[0]] + [HANDSHAKE[1]] + [HANDSHAKE[2]] == HANDSHAKE;
  }

  lemma KeyStep(cs: Configs, s: State, side: Side, t: State)
    requires var me, other := Me(s.sys, side), Other(s.sys, side);
             && me.peer.subscribed && TrailOf(s, side) == NO_TRAIL
             && |other.peer.sent| >= 1 && other.peer.sent[0].KeyExchange? && 0 !in other.gone
             && var cfg := ConfigOf(cs, side);
             var q := Handle(cfg, me.peer, cfg.peerUser, cfg.peerDevice, other.peer.sent[0]);
             t == s.(sys := With(s.sys, side, me.(peer := q), other.(gone := other.gone + {0})))
    ensures Leads(cs, s, [Move(side, Of(KeyArrives(0)))], t)
  {
    hide Handle, CreateCipher;
    LeadsOne(cs, s, Move(side, Of(KeyArrives(0))), t);
  }

  lemma SendStep(cs: Configs, s: State, side: Side, payload: Payload, t: State)
    requires var me, other := Me(s.sys, side), Other(s.sys, side);
             t == s.(sys := With(s.sys, side, me.(peer := Send(me.peer, payload).0), other))
    ensures Leads(cs, s, [Move(side, Of(Sends(payload)))], t)
  {
    hide Send;
    LeadsOne(cs, s, Move(side, Of(Sends(payload))), t);
  }

  /** What B takes: chunk `i` of A arrives and opens. */
  lemma TakeStep(cs: Configs, s: State, i: nat, t: State)
    requires var me, other := s.sys.b, s.sys.a;
             && i < |other.peer.sent| && other.peer.sent[i].EncryptedMsg?
             && me.peer.subscribed && me.peer.cipher.Some?
             && Decrypt(me.peer.cipher.value, other.peer.sent[i].chunk).1.Ok?
             && var q := Handle(cs.b, me.peer, cs.b.peerUser, cs.b.peerDevice, other.peer.sent[i]);
             t == State(System(other, me.(peer := q)),
                        s.a, s.b.(got := s.b.got + [i]))
    ensures Leads(cs, s, [Move(B, Of(ChunkArrives(i)))], t)
  {
    hide Handle, Decrypt;
    LeadsOne(cs, s, Move(B, Of(ChunkArrives(i))), t);
  }

  /** Key `i` of A arrives at B once more. */
  lemma RepeatStep(cs: Configs, s: State, i: nat, t: State)
    requires var me, other := s.sys.b, s.sys.a;
             && i < |other.peer.sent| && other.peer.sent[i].KeyExchange?
             && me.peer.subscribed && CreateCipher(cs.b, other.peer.sent[i].publicKey).Some? && s.b.waiting == []
             && var q := Handle(cs.b, me.peer, cs.b.peerUser, cs.b.peerDevice, other.peer.sent[i]);
             t == State(System(other, me.(peer := q)),
                        s.a, Trail([], s.b.got, |s.b.got|))
    ensures Leads(cs, s, [Move(B, KeyRepeats(i))], t)
  {
    hide Handle, CreateCipher;
    assert s.b.got + [] == s.b.got;
    LeadsOne(cs, s, Move(B, KeyRepeats(i)), t);
  }

  /** A sends, B sends and takes A's message. */
  function Sending(x: Payload, y: Payload): seq<Move> {
    [Move(A, Of(Sends(x)))] + [Move(B, Of(Sends(y)))] + [Move(B, Of(ChunkArrives(1)))]
  }

  /** A's key arrives again, A's message arrives again, B sends. */
  function Repeating(z: Payload): seq<Move> {
    [Move(B, KeyRepeats(0))] + [Move(B, Of(ChunkArrives(1)))] + [Move(B, Of(Sends(z)))]
  }

  /** A has sent one message and B is as given. */
  function Talked(cs: Configs, x: Payload, b: Peer, t: Trail): State {
    Stage(Speaking(cs.a, cs.b, [KeyExchange(Public(cs.a)), ChunkZero(cs.a, cs.b, x)], 1, -1, [Ready]), {0}, b, {0}, t)
  }

  function Taken(cs: Configs, x: Payload, y: Payload): State {
    Talked(cs, x,
           Speaking(cs.b, cs.a, [KeyExchange(Public(cs.b)), ChunkZero(cs.b, cs.a, y)], 1, 0, [Ready, Delivered(x)]),
           Trail([], [1], 0))
  }

  function Twice(cs: Configs, x: Payload, y: Payload, z: Payload): State {
    Talked(cs, x,
           Speaking(cs.b, cs.a, [KeyExchange(Public(cs.b)), ChunkZero(cs.b, cs.a, y),
                                 KeyExchange(Public(cs.b)), ChunkZero(cs.b, cs.a, z)],
                    1, 0, [Ready, Delivered(x), Ready, Delivered(x)]),
           Trail([], [1, 1], 1))
  }

  lemma SendingLeads(cs: Configs, x: Payload, y: Payload)
    requires Agreeable(cs)
    ensures Leads(cs, Shaken(cs), Sending(x, y), Taken(cs, x, y))
  {
    SharedKeySymmetric(cs);
    var ka, kb := KeyExchange(Public(cs.a)), KeyExchange(Public(cs.b));
    var m, y0 := ChunkZero(cs.a, cs.b, x), ChunkZero(cs.b, cs.a, y);
    var s1 := Talked(cs, x, Speaking(cs.b, cs.a, [kb], 0, -1, [Ready]), NO_TRAIL);
    var s2 := Talked(cs, x, Speaking(cs.b, cs.a, [kb, y0], 1, -1, [Ready]), NO_TRAIL);
    SendGives(cs.a, cs.b, [ka], -1, [Ready], x);
    assert [ka] + [m] == [ka, m] && [kb] + [y0] == [kb, y0] && [Ready] + [Delivered(x)] == [Ready, Delivered(x)];
    SendGives(cs.b, cs.a, [kb], -1, [Ready], y);
    ChunkGives(cs.b, cs.a, [kb, y0], 1, [Ready], x);
    hide Handle, Send, Decrypt, Leads, SharedKey, Public, ChunkZero;
    SendStep(cs, Shaken(cs), A, x, s1);
    SendStep(cs, s1, B, y, s2);
    assert m.EncryptedMsg? by { ChunkIsChunk(cs, x); }
    TakeStep(cs, s2, 1, Taken(cs, x, y));
    LeadsOn(cs, Shaken(cs), [Move(A, Of(Sends(x)))], s1, [Move(B, Of(Sends(y)))], s2);
    LeadsOn(cs, Shaken(cs), [Move(A, Of(Sends(x)))] + [Move(B, Of(Sends(y)))], s2, [Move(B, Of(ChunkArrives(1)))],
            Taken(cs, x, y));
  }

  lemma ChunkIsChunk(cs: Configs, x: Payload)
    ensures ChunkZero(cs.a, cs.b, x).EncryptedMsg?
  {
  }

  lemma RepeatingLeads(cs: Configs, x: Payload, y: Payload, z: Payload)
    requires Agreeable(cs)
    ensures Leads(cs, Taken(cs, x, y), Repeating(z), Twice(cs, x, y, z))
  {
    SharedKeySymmetric(cs);
    var kb := KeyExchange(Public(cs.b));
    var y0, z0 := ChunkZero(cs.b, cs.a, y), ChunkZero(cs.b, cs.a, z);
    var n, n2 := [Ready, Delivered(x)], [Ready, Delivered(x), Ready];
    var s0 := Taken(cs, x, y);
    var s1 := Talked(cs, x, Speaking(cs.b, cs.a, [kb, y0, kb], 0, -1, n2), Trail([], [1], 1));
    var s2 := Talked(cs, x, Speaking(cs.b, cs.a, [kb, y0, kb], 0, 0, n2 + [Delivered(x)]), Trail([], [1, 1], 1));
    KeyGives(cs.b, cs.a, s0.sys.b.peer);
    assert [kb, y0] + [kb] == [kb, y0, kb] && n + [Ready] == n2 && [1] + [1] == [1, 1];
    ChunkGives(cs.b, cs.a, [kb, y0, kb], 0, n2, x);
    SendGives(cs.b, cs.a, [kb, y0, kb], 0, n2 + [Delivered(x)], z);
    assert [kb, y0, kb] + [z0] == [kb, y0, kb, z0];
    assert n2 + [Delivered(x)] == [Ready, Delivered(x), Ready, Delivered(x)];
    ChunkIsChunk(cs, x);
    assert CreateCipher(cs.b, Public(cs.a)).Some?;
    hide Handle, Send, Decrypt, Leads, SharedKey, Public, ChunkZero, CreateCipher;
    RepeatStep(cs, s0, 0, s1);
    TakeStep(cs, s1, 1, s2);
    SendStep(cs, s2, B, z, Twice(cs, x, y, z));
    LeadsOn(cs, s0, [Move(B, KeyRepeats(0))], s1, [Move(B, Of(ChunkArrives(1)))], s2);
    LeadsOn(cs, s0, [Move(B, KeyRepeats(0))] + [Move(B, Of(ChunkArrives(1)))], s2, [Move(B, Of(Sends(z)))],
            Twice(cs, x, y, z));
  }

  /** Repeating one key makes B deliver A's message twice and seal two messages with one key and nonce. */
  lemma RepeatedKeyRun(cs: Configs, x: Payload, y: Payload, z: Payload)
    requires Agreeable(cs)
    ensures var steps := HANDSHAKE + (Sending(x, y) + Repeating(z));
            && IsRepeatingRun(cs, START, steps)
            && var s := RunAll(cs, START, steps);
            var sent := s.sys.b.peer.sent;
            && s.b.got == [1, 1] && Received(s.sys.b.peer.notices) == [x, x] && !BothOnce(s)
            && |sent| == 4 && SameSeal(sent[1], sent[3]) && !NoncesDiffer(sent)
  {
    HandshakeLeads(cs);
    SendingLeads(cs, x, y);
    RepeatingLeads(cs, x, y, z);
    LeadsOn(cs, Shaken(cs), Sending(x, y), Taken(cs, x, y), Repeating(z), Twice(cs, x, y, z));
    LeadsOn(cs, START, HANDSHAKE, Shaken(cs), Sending(x, y) + Repeating(z), Twice(cs, x, y, z));
    hide IsRepeatingRun, RunAll;
    TwiceShows(cs, x, y, z);
  }

  lemma TwiceShows(cs: Configs, x: Payload, y: Payload, z: Payload)
    ensures var s := Twice(cs, x, y, z);
            var sent := s.sys.b.peer.sent;
            && s.b.got == [1, 1] && Received(s.sys.b.peer.notices) == [x, x] && !BothOnce(s)
            && |sent| == 4 && SameSeal(sent[1], sent[3]) && !NoncesDiffer(sent)
  {
    hide *;
    TwiceDelivers(x);
    TwiceSeals(cs, x, y, z);
  }

  lemma TwiceDelivers(x: Payload)
    ensures Received([Ready, Delivered(x), Ready, Delivered(x)]) == [x, x] && !Once([1, 1])
  {
    ReceivedAppend([], Ready);
    ReceivedAppend([Ready], Delivered(x));
    ReceivedAppend([Ready, Delivered(x)], Ready);
    ReceivedAppend([Ready, Delivered(x), Ready], Delivered(x));
    hide Received;
    assert [] + [Ready] == [Ready] && [Ready] + [Delivered(x)] == [Ready, Delivered(x)];
    assert [Ready, Delivered(x)] + [Ready] == [Ready, Delivered(x), Ready];
    assert [Ready, Delivered(x), Ready] + [Delivered(x)] == [Ready, Delivered(x), Ready, Delivered(x)];
    assert Received([]) == [] by { NothingReceived(); }
    var got := [1, 1];
    assert got[0] == got[1];
  }

  lemma NothingReceived()
    ensures Received([]) == []
  {
  }

  lemma TwiceSeals(cs: Configs, x: Payload, y: Payload, z: Payload)
    ensures var s := Twice(cs, x, y, z);
            var sent := s.sys.b.peer.sent;
            && s.b.got == [1, 1] && s.sys.b.peer.notices == [Ready, Delivered(x), Ready, Delivered(x)]
            && (!Once([1, 1]) ==> !BothOnce(s))
            && |sent| == 4 && SameSeal(sent[1], sent[3]) && !NoncesDiffer(sent)
  {
    hide SharedKey, Public, Once, NonceOf;
  }
}
