/**
 The two-peer system over a network that keeps messages in order and loses none: what a side has
 delivered is always a prefix of what the other side sent.
 */
module Fifo {
  import opened Wrappers
  import opened Ciphers
  import opened Peers
  import opened Channel

  /** Whether an action takes a message off the network; over this network it is always the next one. */
  predicate Arrives(act: Action) {
    act.KeyArrives? || act.ChunkArrives?
  }

  predicate InTurn(act: Action, n: nat) {
    !act.KeyLost? && (Arrives(act) ==> act.index == n)
  }

  /** How many messages have arrived at each side. */
  datatype Counts = Counts(a: nat, b: nat)

  function CountOf(c: Counts, side: Side): nat {
    if side == A then c.a else c.b
  }

  function Counted(c: Counts, step: Step): Counts {
    if !Arrives(step.act) then c else if step.side == A then c.(a := c.a + 1) else c.(b := c.b + 1)
  }

  predicate InOrderRun(c: Counts, steps: seq<Step>)
    decreases |steps|
  {
    steps != [] ==>
      InTurn(steps[0].act, CountOf(c, steps[0].side)) && InOrderRun(Counted(c, steps[0]), steps[1..])
  }

  function CountAll(c: Counts, steps: seq<Step>): Counts
    decreases |steps|
  {
    if steps == [] then c else CountAll(Counted(c, steps[0]), steps[1..])
  }

  predicate NoError(n: Notice) {
    n == Ready || n == Close || n.Delivered? || n.Announced?
  }

  predicate NoFailure(notices: seq<Notice>) {
    forall i | 0 <= i < |notices| :: NoError(notices[i])
  }

  /** `n` messages of the other end have arrived at this one, in the order they were sent. */
  ghost predicate InStep(me: End, other: End, n: nat) {
    && n <= |other.peer.sent| && (n > 0 <==> 0 in other.gone)
    && me.peer.pending == [] && NoFailure(me.peer.notices)
    && AllJson(other.peer.sent) && 0 <= High(me.peer) + 1 <= |Payloads(other.peer.sent)|
    && Received(me.peer.notices) == Payloads(other.peer.sent)[..High(me.peer) + 1]
    && (me.peer.subscribed ==> (me.peer.cipher.Some? <==> n > 0) && (n > 0 ==> High(me.peer) == n - 2))
  }

  /** Sending more leaves what has arrived as it is. */
  lemma MoreSent(me: End, other: End, other': End, n: nat, more: seq<Message>)
    requires InStep(me, other, n) && other'.gone == other.gone
    requires other'.peer.sent == other.peer.sent + more && AllJson(other'.peer.sent)
    ensures InStep(me, other', n)
  {
    hide Received, NoFailure;
    var k := High(me.peer) + 1;
    assert Payloads(other'.peer.sent)[..k] == Payloads(other.peer.sent)[..k];
  }

  lemma QuietAppend(notices: seq<Notice>, n: Notice)
    requires NoFailure(notices) && NoError(n)
    ensures NoFailure(notices + [n])
    ensures Received(notices + [n]) == Received(notices) + if n.Delivered? then [n.payload] else []
  {
    ReceivedAppend(notices, n);
  }

  lemma KeyInStep(cfg: Config, peer: Config, me: End, other: End)
    requires Laws(cfg.prim) && peer.prim == cfg.prim && SharedKey(cfg, peer) == SharedKey(peer, cfg)
    requires EndOk(cfg, peer, me, other) && EndOk(peer, cfg, other, me)
    requires InStep(me, other, 0) && other.peer.sent != []
    ensures var (me', other') := Act(cfg, me, other, KeyArrives(0)); InStep(me', other', 1)
  {
    QuietAppend(me.peer.notices, Ready);
    assert Received(me.peer.notices) + [] == Received(me.peer.notices);
    hide Received, NoFailure, Payloads;
  }

  lemma ChunkInStep(cfg: Config, peer: Config, me: End, other: End, n: nat)
    requires SharedKey(cfg, peer) == SharedKey(peer, cfg)
    requires EndOk(cfg, peer, me, other) && EndOk(peer, cfg, other, me)
    requires InStep(me, other, n) && Enabled(me, other, ChunkArrives(n))
    ensures var (me', other') := Act(cfg, me, other, ChunkArrives(n)); InStep(me', other', n + 1)
  {
    ChunkIsAfterKey(cfg, peer, me, other, n);
    if me.peer.subscribed {
      CipherIsThere(me, other, n);
      ChunkEmits(cfg, peer, me, other, n);
      hide *;
      DeliveredInStep(me, other, n, Act(cfg, me, other, ChunkArrives(n)).0.peer);
    } else {
      hide EndOk, InStep;
      NotHeard(me, other, n);
    }
  }

  lemma ChunkIsAfterKey(cfg: Config, peer: Config, me: End, other: End, n: nat)
    requires EndOk(peer, cfg, other, me) && n < |other.peer.sent| && other.peer.sent[n].EncryptedMsg?
    ensures n > 0
  {
  }

  lemma ChunkEmits(cfg: Config, peer: Config, me: End, other: End, n: nat)
    requires SharedKey(cfg, peer) == SharedKey(peer, cfg)
    requires EndOk(cfg, peer, me, other) && EndOk(peer, cfg, other, me)
    requires Enabled(me, other, ChunkArrives(n)) && me.peer.subscribed
    requires me.peer.cipher.Some? && High(me.peer) == n - 2
    ensures 1 <= n && AllJson(other.peer.sent)
    ensures var (me', other') := Act(cfg, me, other, ChunkArrives(n));
            && other' == other
            && me' == me.(peer := me.peer.(cipher := Some(me.peer.cipher.value.(lastReceived := n - 1)),
                                           notices := me.peer.notices + [Delivered(Payloads(other.peer.sent)[n - 1])]))
  {
    EmitIs(cfg, peer, me.peer, other.peer.sent, n);
    hide EndOk, DecryptAndEmit, SharedKey, StateOk, SentOk, Payloads, AllJson;
  }

  lemma CipherIsThere(me: End, other: End, n: nat)
    requires InStep(me, other, n) && me.peer.subscribed && n > 0
    ensures me.peer.cipher.Some? && High(me.peer) == n - 2 && AllJson(other.peer.sent)
  {
  }

  lemma NotHeard(me: End, other: End, n: nat)
    requires InStep(me, other, n) && !me.peer.subscribed && 0 < n < |other.peer.sent|
    ensures InStep(me, other, n + 1)
  {
  }

  lemma DeliveredInStep(me: End, other: End, n: nat, q: Peer)
    requires InStep(me, other, n) && me.peer.subscribed && 1 <= n < |other.peer.sent|
    requires AllJson(other.peer.sent) && me.peer.cipher.Some?
    requires q == me.peer.(cipher := Some(me.peer.cipher.value.(lastReceived := n - 1)),
                           notices := me.peer.notices + [Delivered(Payloads(other.peer.sent)[n - 1])])
    ensures InStep(me.(peer := q), other, n + 1)
  {
    var payloads := Payloads(other.peer.sent);
    QuietAppend(me.peer.notices, Delivered(payloads[n - 1]));
    hide Received, NoFailure, AllJson;
    assert payloads[..n] == payloads[..n - 1] + [payloads[n - 1]];
  }

  lemma CloseInStep(cfg: Config, me: End, other: End, n: nat)
    requires InStep(me, other, n)
    ensures var (me', other') := Act(cfg, me, other, Disconnects); InStep(me', other', n)
  {
    QuietAppend(me.peer.notices, Close);
    assert Received(me.peer.notices) + [] == Received(me.peer.notices);
  }

  lemma ActInStep(cfg: Config, peer: Config, me: End, other: End, act: Action, n: nat)
    requires Laws(cfg.prim) && peer.prim == cfg.prim && SharedKey(cfg, peer) == SharedKey(peer, cfg)
    requires EndOk(cfg, peer, me, other) && EndOk(peer, cfg, other, me)
    requires Enabled(me, other, act) && InTurn(act, n) && InStep(me, other, n)
    ensures var (me', other') := Act(cfg, me, other, act);
            InStep(me', other', if Arrives(act) then n + 1 else n)
  {
    match act
    case KeyArrives(i) =>
      OnlyFirstIsKey(peer, cfg, other.peer.sent, i);
      KeyInStep(cfg, peer, me, other);
    case ChunkArrives(i) => ChunkInStep(cfg, peer, me, other, i);
    case Sends(payload) =>
      hide InStep, EndOk;
      SendInStep(cfg, peer, me, other, n, payload);
    case Disconnects => CloseInStep(cfg, me, other, n);
    case PlainArrives(i) =>
      hide InStep, EndOk;
      PlainInStep(cfg, me, other, n, i);
    case Announces(payload) =>
      hide InStep, EndOk;
      Unmoved(me, me.(peer := SendUnencrypted(me.peer, payload)), other, n);
    case Starts =>
      hide InStep, EndOk;
      Unmoved(me, me.(peer := StartHandshake(cfg, me.peer)), other, n);
  }

  /** Nothing has arrived, and nothing was noted. */
  lemma Unmoved(me: End, me': End, other: End, n: nat)
    requires InStep(me, other, n)
    requires me'.peer == me.peer.(status := me'.peer.status, sent := me'.peer.sent, announced := me'.peer.announced,
                                  cipher := me'.peer.cipher)
    requires me'.peer.cipher.Some? == me.peer.cipher.Some? && High(me'.peer) == High(me.peer)
    ensures InStep(me', other, n)
  {
  }

  lemma SendInStep(cfg: Config, peer: Config, me: End, other: End, n: nat, payload: Payload)
    requires EndOk(cfg, peer, me, other) && InStep(me, other, n)
    ensures InStep(me.(peer := Send(me.peer, payload).0), other, n)
  {
    SendKeeps(cfg, peer, me.peer, payload);
    hide InStep, EndOk, Send;
    Unmoved(me, me.(peer := Send(me.peer, payload).0), other, n);
  }

  lemma PlainInStep(cfg: Config, me: End, other: End, n: nat, i: nat)
    requires InStep(me, other, n) && i < |other.peer.announced|
    ensures InStep(me.(peer := Handle(cfg, me.peer, cfg.peerUser, cfg.peerDevice, Control(other.peer.announced[i]))),
                   other, n)
  {
    QuietAppend(me.peer.notices, Announced(other.peer.announced[i]));
    assert Received(me.peer.notices) + [] == Received(me.peer.notices);
    hide Received, NoFailure, Payloads;
  }

  /** Acting only adds to what an end has sent. */
  lemma ActOnlySends(cfg: Config, peer: Config, me: End, other: End, act: Action)
    requires Laws(cfg.prim) && peer.prim == cfg.prim && SharedKey(cfg, peer) == SharedKey(peer, cfg)
    requires EndOk(cfg, peer, me, other) && EndOk(peer, cfg, other, me)
    requires Enabled(me, other, act)
    ensures var (me', other') := Act(cfg, me, other, act);
            && me'.gone == me.gone && other'.peer == other.peer
            && me.peer.sent <= me'.peer.sent
  {
    match act
    case KeyArrives(i) =>
      OnlyFirstIsKey(peer, cfg, other.peer.sent, i);
      KeyOnlySends(cfg, peer, me, other);
    case Sends(payload) =>
      SendKeeps(cfg, peer, me.peer, payload);
      hide EndOk, Send;
    case ChunkArrives(i) => hide EndOk, Decrypt;
    case _ => hide EndOk;
  }

  lemma KeyOnlySends(cfg: Config, peer: Config, me: End, other: End)
    requires Laws(cfg.prim) && peer.prim == cfg.prim && SharedKey(cfg, peer) == SharedKey(peer, cfg)
    requires EndOk(cfg, peer, me, other) && EndOk(peer, cfg, other, me)
    requires other.peer.sent != [] && 0 !in other.gone
    ensures var (me', other') := Act(cfg, me, other, KeyArrives(0));
            me'.gone == me.gone && other'.peer == other.peer && me.peer.sent <= me'.peer.sent
  {
    KeyIsFirst(cfg, peer, me, other);
    if me.peer.subscribed {
      KeyReaches(cfg, peer, me, other);
    }
    hide EndOk, HandleKeyExchange, Handle;
  }

  ghost predicate InvFifo(cs: Configs, s: System, c: Counts) {
    Inv(cs, s) && InStep(s.a, s.b, c.a) && InStep(s.b, s.a, c.b)
  }

  lemma PairInStep(cfg: Config, peer: Config, me: End, other: End, act: Action, n: nat, m: nat)
    requires Laws(cfg.prim) && peer.prim == cfg.prim && SharedKey(cfg, peer) == SharedKey(peer, cfg)
    requires EndOk(cfg, peer, me, other) && EndOk(peer, cfg, other, me)
    requires Enabled(me, other, act) && InTurn(act, n) && InStep(me, other, n) && InStep(other, me, m)
    ensures var (me', other') := Act(cfg, me, other, act);
            InStep(me', other', if Arrives(act) then n + 1 else n) && InStep(other', me', m)
  {
    hide *;
    ActInStep(cfg, peer, me, other, act, n);
    ActOnlySends(cfg, peer, me, other, act);
    ActKeeps(cfg, peer, me, other, act);
    var (me', other') := Act(cfg, me, other, act);
    EndIsJson(cfg, peer, me', other');
    assert me'.peer.sent == me.peer.sent + me'.peer.sent[|me.peer.sent|..];
    MoreSent(other, me, me', m, me'.peer.sent[|me.peer.sent|..]);
    SamePeer(other, other', me', m);
  }

  lemma EndIsJson(cfg: Config, peer: Config, me: End, other: End)
    requires EndOk(cfg, peer, me, other)
    ensures AllJson(me.peer.sent)
  {
  }

  /** Which of its own keys have arrived elsewhere does not matter to a receiver. */
  lemma SamePeer(me: End, me': End, other: End, n: nat)
    requires InStep(me, other, n) && me'.peer == me.peer
    ensures InStep(me', other, n)
  {
  }

  lemma NextInStep(cs: Configs, s: System, c: Counts, step: Step)
    requires Agreeable(cs) && InvFifo(cs, s, c) && StepEnabled(s, step)
    requires InTurn(step.act, CountOf(c, step.side))
    ensures InvFifo(cs, Next(cs, s, step), Counted(c, step))
  {
    NextKeeps(cs, s, step);
    SharedKeySymmetric(cs);
    hide EndOk, Act, Enabled, InTurn, InStep;
    if step.side == A {
      PairInStep(cs.a, cs.b, s.a, s.b, step.act, c.a, c.b);
    } else {
      PairInStep(cs.b, cs.a, s.b, s.a, step.act, c.b, c.a);
    }
  }

  lemma {:induction false} RunInStep(cs: Configs, s: System, c: Counts, steps: seq<Step>)
    requires Agreeable(cs) && InvFifo(cs, s, c) && IsRun(cs, s, steps) && InOrderRun(c, steps)
    ensures InvFifo(cs, Run(cs, s, steps), CountAll(c, steps))
    decreases |steps|
  {
    hide Next, InvFifo, InTurn, Counted;
    if steps != [] {
      NextInStep(cs, s, c, steps[0]);
      RunInStep(cs, Next(cs, s, steps[0]), Counted(c, steps[0]), steps[1..]);
    }
  }

  /**
   Over a network in order and without loss, in every reachable state: a side has delivered a prefix
   of the payloads the other side was asked to send while it could, and while it has not disconnected
   exactly those of the messages that arrived after the key; nothing failed.
   */
  lemma InOrderRunDeliversPrefix(cs: Configs, steps: seq<Step>, side: Side)
    requires Agreeable(cs) && IsRun(cs, INITIAL, steps) && InOrderRun(Counts(0, 0), steps)
    ensures var s := Run(cs, INITIAL, steps);
            var me, other := Me(s, side).peer, Other(s, side).peer;
            var n := CountOf(CountAll(Counts(0, 0), steps), side);
            && n <= |other.sent|
            && Received(me.notices) <= Said(cs, INITIAL, steps, Opposite(side))
            && (me.status != Disconnected ==> |Received(me.notices)| == if n == 0 then 0 else n - 1)
            && NoFailure(me.notices)
  {
    InitialOk(cs);
    assert Payloads([])[..0] == [];
    assert InvFifo(cs, INITIAL, Counts(0, 0));
    hide Run, InOrderRun, CountAll, Said, Shouted;
    RunInStep(cs, INITIAL, Counts(0, 0), steps);
    SaysFromStart(cs, steps, Opposite(side));
    assert Me(Run(cs, INITIAL, steps), Opposite(side)) == Other(Run(cs, INITIAL, steps), side);
    hide Inv;
  }
}
