/**
 What any single peer tells its listeners besides decrypted payloads, over any run of what it hears and
 is told to do: plain messages, and nothing at all once it has closed.
 */
module PeerRuns {
  import opened Wrappers
  import opened Ciphers
  import opened Peers
  import opened Channel
  import opened RepeatedKeys

  // ---------------------------------------------------------------- messages of others

  /** What the peer is told to do, and what it hears of its own peer. */
  function Own(cfg: Config, es: seq<RepeatedKeys.Event>): seq<RepeatedKeys.Event>
    decreases |es|
  {
    if es == [] then []
    else
      (if es[0].Hears? && (es[0].user != cfg.peerUser || es[0].device != cfg.peerDevice) then [] else [es[0]])
      + Own(cfg, es[1..])
  }

  /** Messages of anyone but its peer make no difference to a peer, wherever in a run they come. */
  lemma {:induction false} OthersAreIgnored(cfg: Config, p: Peer, es: seq<RepeatedKeys.Event>)
    ensures RepeatedKeys.Run(cfg, p, es) == RepeatedKeys.Run(cfg, p, Own(cfg, es))
    decreases |es|
  {
    hide HandleKeyExchange, DecryptAndEmit;
    if es != [] {
      var q := RepeatedKeys.Step(cfg, p, es[0]);
      OthersAreIgnored(cfg, q, es[1..]);
      if es[0].Hears? && (es[0].user != cfg.peerUser || es[0].device != cfg.peerDevice) {
        assert [] + Own(cfg, es[1..]) == Own(cfg, es[1..]);
      } else {
        assert ([es[0]] + Own(cfg, es[1..]))[1..] == Own(cfg, es[1..]);
      }
    }
  }

  // ---------------------------------------------------------------- plain messages

  function AnnouncedOf(notices: seq<Notice>): seq<Payload> {
    if notices == [] then []
    else
      var n := |notices| - 1;
      AnnouncedOf(notices[..n]) + if notices[n].Announced? then [notices[n].payload] else []
  }

  /** The plain payloads that the peer sends while they reach it: its own peer's, as long as it listens. */
  function HeardPlain(cfg: Config, p: Peer, es: seq<RepeatedKeys.Event>): seq<Payload>
    decreases |es|
  {
    if es == [] then []
    else PlainOf(cfg, p, es[0]) + HeardPlain(cfg, RepeatedKeys.Step(cfg, p, es[0]), es[1..])
  }

  function PlainOf(cfg: Config, p: Peer, e: RepeatedKeys.Event): seq<Payload> {
    if e.Hears? && e.message.Control? && Listens(cfg, p, e.user, e.device) then [e.message.payload] else []
  }

  lemma AnnouncedAppend(notices: seq<Notice>, n: Notice)
    ensures AnnouncedOf(notices + [n]) == AnnouncedOf(notices) + if n.Announced? then [n.payload] else []
  {
    assert (notices + [n])[..|notices|] == notices;
  }

  lemma SilentAppend(notices: seq<Notice>, n: Notice)
    requires !n.Announced?
    ensures AnnouncedOf(notices + [n]) == AnnouncedOf(notices)
  {
    AnnouncedAppend(notices, n);
    assert AnnouncedOf(notices) + [] == AnnouncedOf(notices);
  }

  lemma {:induction false} FlushAnnounces(heard: bool, p: Peer)
    ensures AnnouncedOf(FlushPending(heard, p).notices) == AnnouncedOf(p.notices)
    decreases |p.pending|
  {
    if p.cipher.Some? && p.pending != [] {
      var rest := p.(pending := p.pending[1..]);
      EmitAnnounces(rest, p.pending[0]);
      hide AnnouncedOf, Fails;
      FlushAnnounces(heard, DecryptAndEmit(rest, p.pending[0]));
    }
  }

  lemma KeyAnnounces(cfg: Config, p: Peer, der: string)
    ensures AnnouncedOf(HandleKeyExchange(cfg, p, der).notices) == AnnouncedOf(p.notices)
  {
    if CreateCipher(cfg, der).Some? {
      var q := Rekeyed(cfg, p, der);
      KeyIsHandled(cfg, p, der);
      SilentAppend(p.notices, Ready);
      FlushAnnounces(cfg.heard, q);
      SilentAppend(FlushPending(cfg.heard, q).notices, CipherFailed);
    } else {
      SilentAppend(p.notices, CipherFailed);
    }
    hide AnnouncedOf, FlushPending, FlushThrows, CreateCipher;
  }

  lemma EmitAnnounces(p: Peer, chunk: Chunk)
    ensures AnnouncedOf(DecryptAndEmit(p, chunk).notices) == AnnouncedOf(p.notices)
  {
    if p.cipher.Some? {
      SilentAppend(p.notices, NoticeOf(Decrypt(p.cipher.value, chunk).1));
    }
  }

  lemma CloseAnnounces(p: Peer)
    ensures AnnouncedOf(Disconnect(p).notices) == AnnouncedOf(p.notices)
  {
    SilentAppend(p.notices, Close);
  }

  lemma StepAnnounces(cfg: Config, p: Peer, e: RepeatedKeys.Event)
    ensures AnnouncedOf(RepeatedKeys.Step(cfg, p, e).notices) == AnnouncedOf(p.notices) + PlainOf(cfg, p, e)
  {
    var now := AnnouncedOf(p.notices);
    assert now + [] == now;
    match e
    case Hears(user, device, m) =>
      if Listens(cfg, p, user, device) {
        HearsAnnounces(cfg, p, m);
        assert user == cfg.peerUser && device == cfg.peerDevice;
      }
      hide AnnouncedOf, HandleKeyExchange, DecryptAndEmit, Disconnect;
    case Begins =>
    case Says(payload) => hide AnnouncedOf, Encrypt;
    case Leaves => CloseAnnounces(p);
  }

  lemma HearsAnnounces(cfg: Config, p: Peer, m: Message)
    requires p.subscribed
    ensures AnnouncedOf(Handle(cfg, p, cfg.peerUser, cfg.peerDevice, m).notices)
         == AnnouncedOf(p.notices) + if m.Control? then [m.payload] else []
  {
    hide AnnouncedOf, HandleKeyExchange, DecryptAndEmit, Disconnect;
    var now := AnnouncedOf(p.notices);
    assert now + [] == now;
    match m
    case KeyExchange(der) => KeyAnnounces(cfg, p, der);
    case EncryptedMsg(chunk) => EmitAnnounces(p, chunk);
    case DisconnectMsg => CloseAnnounces(p);
    case Control(payload) => AnnouncedAppend(p.notices, Announced(payload));
  }

  /** In every run a peer announces every plain message that reaches it, in order, and no other. */
  lemma {:induction false} RunAnnounces(cfg: Config, p: Peer, es: seq<RepeatedKeys.Event>)
    ensures AnnouncedOf(RepeatedKeys.Run(cfg, p, es).notices) == AnnouncedOf(p.notices) + HeardPlain(cfg, p, es)
    decreases |es|
  {
    hide RepeatedKeys.Step, AnnouncedOf, PlainOf;
    if es == [] {
      assert AnnouncedOf(p.notices) + [] == AnnouncedOf(p.notices);
    } else {
      StepAnnounces(cfg, p, es[0]);
      RunAnnounces(cfg, RepeatedKeys.Step(cfg, p, es[0]), es[1..]);
    }
  }

  // ---------------------------------------------------------------- closing

  /** The event is to close the connection: its owner does, or its peer says so and it listens. */
  predicate Closes(cfg: Config, p: Peer, e: RepeatedKeys.Event) {
    e.Leaves? || (e.Hears? && e.message.DisconnectMsg? && Listens(cfg, p, e.user, e.device))
  }

  /** Only key exchanges were sent since, and no payload was emitted. */
  ghost predicate Quiet(p: Peer, q: Peer) {
    && !q.subscribed && q.status in {Disconnected, Handshake}
    && p.sent <= q.sent && (forall i | |p.sent| <= i < |q.sent| :: q.sent[i].KeyExchange?)
    && Received(q.notices) == Received(p.notices) && AnnouncedOf(q.notices) == AnnouncedOf(p.notices)
  }

  lemma CloseIsQuiet(p: Peer, q: Peer)
    requires Quiet(p, q)
    ensures Quiet(p, Disconnect(q))
  {
    SilentAppend(q.notices, Close);
    ReceivedAppend(q.notices, Close);
    assert Received(q.notices) + [] == Received(q.notices);
  }

  lemma StepIsQuiet(cfg: Config, p: Peer, q: Peer, e: RepeatedKeys.Event)
    requires Quiet(p, q)
    ensures Quiet(p, RepeatedKeys.Step(cfg, q, e))
  {
    match e
    case Hears(user, device, m) => assert RepeatedKeys.Step(cfg, q, e) == q;
    case Begins =>
    case Says(payload) =>
    case Leaves => CloseIsQuiet(p, q);
  }

  lemma {:induction false} QuietForGood(cfg: Config, p: Peer, q: Peer, es: seq<RepeatedKeys.Event>)
    requires Quiet(p, q)
    ensures Quiet(p, RepeatedKeys.Run(cfg, q, es))
    decreases |es|
  {
    if es != [] {
      StepIsQuiet(cfg, p, q, es[0]);
      hide Quiet, RepeatedKeys.Step;
      QuietForGood(cfg, p, RepeatedKeys.Step(cfg, q, es[0]), es[1..]);
    }
  }

  /**
   Told to close, a peer that listens notes it once and is deaf from then on, in every later run, unless
   it had given up before: then nothing happens, and it goes on listening.
   */
  lemma ClosedForGoodIff(cfg: Config, p: Peer, e: RepeatedKeys.Event, es: seq<RepeatedKeys.Event>)
    requires p.subscribed && Closes(cfg, p, e)
    ensures var q := RepeatedKeys.Step(cfg, p, e);
            && (q.subscribed <==> p.status == Disconnected)
            && (q.subscribed ==> q == p)
            && (!q.subscribed ==> q.notices == p.notices + [Close] && Quiet(p, RepeatedKeys.Run(cfg, q, es)))
  {
    var q := RepeatedKeys.Step(cfg, p, e);
    if p.status != Disconnected {
      SilentAppend(p.notices, Close);
      ReceivedAppend(p.notices, Close);
      assert Received(p.notices) + [] == Received(p.notices);
      QuietForGood(cfg, p, q, es);
    }
  }
}
