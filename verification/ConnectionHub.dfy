/**
 All connections a network manager has ever made.  A connection that is replaced in the manager's map
 still listens: the manager passes every message to all of them in the order they were made, until one
 of them throws.
 */
module ConnectionHubs {
  import opened Wrappers
  import opened Ciphers
  import opened Peers
  import opened RepeatedKeys
  import opened Pairing

  /** The connections in the order they were made, and which of them the map names, by peer. */
  datatype Hub = Hub(conns: seq<Link>, current: map<string, nat>)

  datatype Input =
    | Accept(user: string, device: string, cfg: Config)
    | HearAccept(user: string, device: string, cfg: Config)
    | Begin(conn: nat)  // the handshake is started by hand
    | Pass(user: string, device: string, message: Message)
    | Say(conn: nat, payload: Payload)
    | Close(conn: nat)

  function IdOf(user: string, device: string): string {
    user + ":" + device
  }

  function NewLink(cfg: Config, role: Role, user: string, device: string): Pairing.Link {
    Pairing.Link(cfg.(role := role, peerUser := user, peerDevice := device), FRESH)
  }

  function StartOne(conn: Pairing.Link): Pairing.Link {
    if conn.peer.status == Connecting then conn.(peer := StartHandshake(conn.cfg, conn.peer)) else conn
  }

  function BeginOne(conn: Pairing.Link): Pairing.Link {
    conn.(peer := StartHandshake(conn.cfg, conn.peer))
  }

  function PassOne(conn: Pairing.Link, user: string, device: string, m: Message): Pairing.Link {
    conn.(peer := Handle(conn.cfg, conn.peer, user, device, m))
  }

  predicate ThrowsOne(conn: Pairing.Link, user: string, device: string, m: Message) {
    Throws(conn.cfg, conn.peer, user, device, m)
  }

  /** The connections hear the message in order, up to and including the first that throws. */
  function PassAll(conns: seq<Pairing.Link>, user: string, device: string, m: Message): (after: seq<Pairing.Link>)
    ensures |after| == |conns|
    decreases |conns|
  {
    if conns == [] then []
    else
      [PassOne(conns[0], user, device, m)]
      + if ThrowsOne(conns[0], user, device, m) then conns[1..] else PassAll(conns[1..], user, device, m)
  }

  /** Some connection to the peer has closed by this message, so the map's entry for the peer goes. */
  predicate ClosesOne(conns: seq<Pairing.Link>, user: string, device: string, m: Message) {
    && m.DisconnectMsg?
    && exists i ::
         0 <= i < |conns| && Listens(conns[i].cfg, conns[i].peer, user, device) && conns[i].peer.status != Disconnected
  }

  function Next(h: Hub, e: Input): Hub {
    match e
    case Accept(user, device, cfg) =>
      Hub(h.conns + [NewLink(cfg, Host, user, device)], h.current[IdOf(user, device) := |h.conns|])
    case HearAccept(user, device, cfg) =>
      var id := IdOf(user, device);
      if id in h.current then
        var i := h.current[id];
        if i < |h.conns| then h.(conns := h.conns[i := StartOne(h.conns[i])]) else h
      else Hub(h.conns + [StartOne(NewLink(cfg, Guest, user, device))], h.current[id := |h.conns|])
    case Begin(i) =>
      if i < |h.conns| then h.(conns := h.conns[i := BeginOne(h.conns[i])]) else h
    case Pass(user, device, m) =>
      Hub(PassAll(h.conns, user, device, m),
          if ClosesOne(h.conns, user, device, m) then h.current - {IdOf(user, device)} else h.current)
    case Say(i, payload) =>
      if i < |h.conns| then h.(conns := h.conns[i := h.conns[i].(peer := Send(h.conns[i].peer, payload).0)]) else h
    case Close(i) =>
      if i < |h.conns| && h.conns[i].peer.status != Disconnected then
        Hub(h.conns[i := h.conns[i].(peer := Disconnect(h.conns[i].peer))],
            h.current - {IdOf(h.conns[i].cfg.peerUser, h.conns[i].cfg.peerDevice)})
      else h
  }

  function RunHub(h: Hub, es: seq<Input>): Hub
    decreases |es|
  {
    if es == [] then h else RunHub(Next(h, es[0]), es[1..])
  }

  // ---------------------------------------------------------------- each connection is a peer by itself

  /** A message is heard by the connections before which none throws. */
  predicate IsHeard(conns: seq<Pairing.Link>, user: string, device: string, m: Message, i: nat) {
    i < |conns| && forall j | 0 <= j < i :: !ThrowsOne(conns[j], user, device, m)
  }

  /** What the input comes to for connection `i`. */
  ghost function ToldBy(h: Hub, e: Input, i: nat): seq<RepeatedKeys.Event> {
    match e
    case Accept(_, _, _) => []
    case HearAccept(user, device, _) =>
      var id := IdOf(user, device);
      if id !in h.current && i == |h.conns| then [Begins]
      else if id in h.current && i == h.current[id] && i < |h.conns| && h.conns[i].peer.status == Connecting then [Begins]
      else []
    case Begin(conn) => if i == conn then [Begins] else []
    case Pass(user, device, m) => if IsHeard(h.conns, user, device, m, i) then [Hears(user, device, m)] else []
    case Say(conn, payload) => if i == conn then [Says(payload)] else []
    case Close(conn) => if i == conn then [Leaves] else []
  }

  /** All that connection `i` is told in the run, from when it is made. */
  ghost function Told(h: Hub, es: seq<Input>, i: nat): seq<RepeatedKeys.Event>
    decreases |es|
  {
    if es == [] then []
    else
      (if i < |Next(h, es[0]).conns| then ToldBy(h, es[0], i) else []) + Told(Next(h, es[0]), es[1..], i)
  }

  lemma {:induction false} RunAppend(cfg: Config, p: Peer, es: seq<RepeatedKeys.Event>, fs: seq<RepeatedKeys.Event>)
    ensures RepeatedKeys.Run(cfg, p, es + fs) == RepeatedKeys.Run(cfg, RepeatedKeys.Run(cfg, p, es), fs)
    decreases |es|
  {
    hide RepeatedKeys.Step;
    if es == [] {
      assert es + fs == fs;
    } else {
      assert (es + fs)[1..] == es[1..] + fs;
      RunAppend(cfg, RepeatedKeys.Step(cfg, p, es[0]), es[1..], fs);
    }
  }

  lemma RunOne(cfg: Config, p: Peer, e: RepeatedKeys.Event)
    ensures RepeatedKeys.Run(cfg, p, [e]) == RepeatedKeys.Step(cfg, p, e)
    ensures RepeatedKeys.Run(cfg, p, []) == p
  {
    assert [e][1..] == [];
  }

  lemma {:induction false} PassTells(conns: seq<Pairing.Link>, user: string, device: string, m: Message, i: nat)
    requires i < |conns|
    ensures PassAll(conns, user, device, m)[i]
         == if IsHeard(conns, user, device, m, i) then PassOne(conns[i], user, device, m) else conns[i]
    decreases |conns|
  {
    hide ThrowsOne, PassOne;
    if i > 0 && !ThrowsOne(conns[0], user, device, m) {
      PassTells(conns[1..], user, device, m, i - 1);
      assert IsHeard(conns, user, device, m, i) <==> IsHeard(conns[1..], user, device, m, i - 1) by {
        HeardLater(conns, user, device, m, i);
      }
    }
  }

  lemma HeardLater(conns: seq<Pairing.Link>, user: string, device: string, m: Message, i: nat)
    requires 0 < i < |conns| && !ThrowsOne(conns[0], user, device, m)
    ensures IsHeard(conns, user, device, m, i) <==> IsHeard(conns[1..], user, device, m, i - 1)
  {
    hide ThrowsOne;
    if IsHeard(conns[1..], user, device, m, i - 1) {
      forall j | 0 < j < i
        ensures !ThrowsOne(conns[j], user, device, m)
      {
        assert conns[1..][j - 1] == conns[j];
      }
    }
  }

  lemma NextTells(h: Hub, e: Input, i: nat)
    requires i < |Next(h, e).conns|
    ensures |h.conns| <= |Next(h, e).conns|
    ensures var conn, before := Next(h, e).conns[i], if i < |h.conns| then h.conns[i].peer else FRESH;
            && (i < |h.conns| ==> conn.cfg == h.conns[i].cfg)
            && conn.peer == RepeatedKeys.Run(conn.cfg, before, ToldBy(h, e, i))
  {
    var conn, before := Next(h, e).conns[i], if i < |h.conns| then h.conns[i].peer else FRESH;
    if e.Pass? {
      PassTells(h.conns, e.user, e.device, e.message, i);
    }
    var told := ToldBy(h, e, i);
    RunOne(conn.cfg, before, if told == [] then Leaves else told[0]);
    hide RepeatedKeys.Run, Handle, ThrowsOne, IsHeard, PassAll, ClosesOne, Send;
    assert told == [] || told == [told[0]];
  }

  /**
   In every run of a manager every connection, replaced or not, is in the state that it would be in by
   itself after what it was told: being started, sending and closing by name, and of the messages passed
   on those before which no older connection throws.
   */
  lemma {:induction false} RunTells(h: Hub, es: seq<Input>, i: nat)
    requires i < |RunHub(h, es).conns|
    ensures var conn, before := RunHub(h, es).conns[i], if i < |h.conns| then h.conns[i].peer else FRESH;
            && (i < |h.conns| ==> conn.cfg == h.conns[i].cfg)
            && conn.peer == RepeatedKeys.Run(conn.cfg, before, Told(h, es, i))
    decreases |es|
  {
    hide Next, ToldBy, RepeatedKeys.Step;
    if es != [] {
      var m, conn := Next(h, es[0]), RunHub(h, es).conns[i];
      RunTells(m, es[1..], i);
      if i < |m.conns| {
        NextTells(h, es[0], i);
        var before := if i < |h.conns| then h.conns[i].peer else FRESH;
        RunAppend(conn.cfg, before, ToldBy(h, es[0], i), Told(m, es[1..], i));
      } else {
        NextGrows(h, es[0]);
        assert [] + Told(m, es[1..], i) == Told(m, es[1..], i);
      }
    }
  }

  lemma NextGrows(h: Hub, e: Input)
    ensures |h.conns| <= |Next(h, e).conns| <= |h.conns| + 1
  {
  }

  /** So what is proved of a peer alone holds of every connection in every run of a manager. */
  lemma EveryConnectionLogs(es: seq<Input>, i: nat)
    requires i < |RunHub(Hub([], map[]), es).conns|
    ensures var conn := RunHub(Hub([], map[]), es).conns[i]; LogOk(conn.cfg, conn.peer)
  {
    var conn := RunHub(Hub([], map[]), es).conns[i];
    RunTells(Hub([], map[]), es, i);
    FreshLogs(conn.cfg);
    RunLogs(conn.cfg, FRESH, Told(Hub([], map[]), es, i));
  }

  // ---------------------------------------------------------------- the manager's map

  /** Every entry of the map names a connection to the peer it is for. */
  ghost predicate WellNamed(h: Hub) {
    forall id | id in h.current ::
      && h.current[id] < |h.conns|
      && IdOf(h.conns[h.current[id]].cfg.peerUser, h.conns[h.current[id]].cfg.peerDevice) == id
  }

  /** The connections that the map names: those that the manager keeps. */
  ghost function Named(h: Hub): map<string, Pairing.Link>
    requires WellNamed(h)
  {
    map id | id in h.current :: h.conns[h.current[id]]
  }

  lemma NextNamed(h: Hub, e: Input)
    requires WellNamed(h)
    ensures WellNamed(Next(h, e))
  {
    var t := Next(h, e);
    forall id | id in t.current
      ensures t.current[id] < |t.conns|
      ensures IdOf(t.conns[t.current[id]].cfg.peerUser, t.conns[t.current[id]].cfg.peerDevice) == id
    {
      NextGrows(h, e);
      assert id in h.current ==> h.current[id] < |h.conns|;
      NextTells(h, e, t.current[id]);
    }
  }

  /** In every run of a manager its map names connections to the right peers. */
  lemma {:induction false} RunNamed(h: Hub, es: seq<Input>)
    requires WellNamed(h)
    ensures WellNamed(RunHub(h, es))
    decreases |es|
  {
    hide Next, WellNamed;
    if es != [] {
      NextNamed(h, es[0]);
      RunNamed(Next(h, es[0]), es[1..]);
    }
  }

  /** And the connections it names move as pairing says, when the manager accepts, */
  lemma NamedAccept(h: Hub, user: string, device: string, cfg: Config)
    requires WellNamed(h)
    ensures var t := Next(h, Accept(user, device, cfg));
            && WellNamed(t)
            && Named(t) == AcceptRequest(Named(h), IdOf(user, device), cfg.(peerUser := user, peerDevice := device))
  {
    NextNamed(h, Accept(user, device, cfg));
    hide IdOf;
  }

  /** when it hears of an acceptance, */
  lemma NamedHears(h: Hub, user: string, device: string, cfg: Config)
    requires WellNamed(h)
    ensures var t := Next(h, HearAccept(user, device, cfg));
            && WellNamed(t)
            && Named(t) == PairAccepted(Named(h), IdOf(user, device), cfg.(peerUser := user, peerDevice := device))
  {
    NextNamed(h, HearAccept(user, device, cfg));
    var id := IdOf(user, device);
    NewOrStarted(cfg, user, device);
    hide IdOf, StartHandshake, NewLink, StartOne, FRESH;
    if id in h.current {
      UpdateNamed(h, id, StartOne(h.conns[h.current[id]]));
    } else {
      AppendNamed(h, id, StartOne(NewLink(cfg, Guest, user, device)));
    }
  }

  lemma NewOrStarted(cfg: Config, user: string, device: string)
    ensures NewLink(cfg, Guest, user, device)
         == Pairing.Link(cfg.(peerUser := user, peerDevice := device).(role := Guest), FRESH)
    ensures forall conn: Pairing.Link ::
              StartOne(conn) == if conn.peer.status == Connecting
                                then conn.(peer := StartHandshake(conn.cfg, conn.peer)) else conn
  {
  }

  lemma UpdateNamed(h: Hub, id: string, conn: Pairing.Link)
    requires WellNamed(h) && id in h.current && conn.cfg == h.conns[h.current[id]].cfg
    ensures var t := h.(conns := h.conns[h.current[id] := conn]); WellNamed(t) && Named(t) == Named(h)[id := conn]
  {
    hide IdOf;
  }

  lemma AppendNamed(h: Hub, id: string, conn: Pairing.Link)
    requires WellNamed(h) && IdOf(conn.cfg.peerUser, conn.cfg.peerDevice) == id
    ensures var t := Hub(h.conns + [conn], h.current[id := |h.conns|]); WellNamed(t) && Named(t) == Named(h)[id := conn]
  {
    hide IdOf;
  }

  /** and when one of all its connections closes. */
  lemma NamedCloses(h: Hub, i: nat)
    requires WellNamed(h) && i < |h.conns| && h.conns[i].peer.status != Disconnected
    ensures var t := Next(h, Input.Close(i));
            && WellNamed(t)
            && Named(t) == Removed(Named(h), IdOf(h.conns[i].cfg.peerUser, h.conns[i].cfg.peerDevice))
  {
    NextNamed(h, Input.Close(i));
    hide IdOf, Disconnect;
  }

  /** A message takes an entry from the map exactly if it closes one of the connections to that peer. */
  lemma PassCloses(h: Hub, user: string, device: string, m: Message, id: string)
    requires id in h.current
    ensures var t := Next(h, Pass(user, device, m));
            && |t.conns| == |h.conns|
            && (id !in t.current <==>
                  exists i :: 0 <= i < |h.conns| && Hangs(h.conns[i], t.conns[i]) && id == IdOf(user, device))
            && (id in t.current ==> t.current[id] == h.current[id])
  {
    var t := Next(h, Pass(user, device, m));
    hide IdOf, HandleKeyExchange, DecryptAndEmit;
    forall i | 0 <= i < |h.conns|
      ensures Hangs(h.conns[i], t.conns[i])
         <==> m.DisconnectMsg? && Listens(h.conns[i].cfg, h.conns[i].peer, user, device)
              && h.conns[i].peer.status != Disconnected
    {
      PassTells(h.conns, user, device, m, i);
      HangsIff(h.conns[i], user, device, m);
      assert m.DisconnectMsg? ==> IsHeard(h.conns, user, device, m, i);
    }
  }

  /** The connection listened before and does not any more. */
  predicate Hangs(before: Pairing.Link, after: Pairing.Link) {
    before.peer.subscribed && !after.peer.subscribed
  }

  lemma HangsIff(conn: Pairing.Link, user: string, device: string, m: Message)
    ensures Hangs(conn, PassOne(conn, user, device, m))
       <==> m.DisconnectMsg? && Listens(conn.cfg, conn.peer, user, device) && conn.peer.status != Disconnected
  {
    if m.KeyExchange? {
      if CreateCipher(conn.cfg, m.publicKey).Some? {
        KeyFrame(conn.cfg, conn.peer, m.publicKey);
      } else {
        KeyThenFlush(conn.cfg, conn.peer, m.publicKey);
      }
    }
    hide HandleKeyExchange, CreateCipher, Flushes, Taken, Decrypt;
  }

  // ---------------------------------------------------------------- key exchanges of the whole manager

  function KeysIn(sent: seq<Message>): nat {
    if sent == [] then 0
    else
      var n := |sent| - 1;
      KeysIn(sent[..n]) + if sent[n].KeyExchange? then 1 else 0
  }

  /** The key exchanges sent by all connections together. */
  function KeysOf(conns: seq<Pairing.Link>): nat
    decreases |conns|
  {
    if conns == [] then 0 else KeysIn(conns[0].peer.sent) + KeysOf(conns[1..])
  }

  /** The connection answers a key exchange of this peer with its own: it does not wait in its own handshake. */
  predicate Answers(conn: Pairing.Link, user: string, device: string) {
    Listens(conn.cfg, conn.peer, user, device) && conn.peer.status != Handshake
  }

  function Answering(conns: seq<Pairing.Link>, user: string, device: string): nat
    decreases |conns|
  {
    if conns == [] then 0 else (if Answers(conns[0], user, device) then 1 else 0) + Answering(conns[1..], user, device)
  }

  lemma KeysAppend(sent: seq<Message>, m: Message)
    ensures KeysIn(sent + [m]) == KeysIn(sent) + if m.KeyExchange? then 1 else 0
  {
    assert (sent + [m])[..|sent|] == sent;
  }

  lemma OneAnswers(conn: Pairing.Link, user: string, device: string, der: string)
    ensures KeysIn(PassOne(conn, user, device, KeyExchange(der)).peer.sent)
         == KeysIn(conn.peer.sent) + if Answers(conn, user, device) then 1 else 0
  {
    var cfg, p := conn.cfg, conn.peer;
    if CreateCipher(cfg, der).Some? {
      KeyFrame(cfg, p, der);
    } else {
      KeyThenFlush(cfg, p, der);
    }
    KeysAppend(p.sent, KeyExchange(Public(cfg)));
    hide HandleKeyExchange, KeysIn, CreateCipher, Flushes, Taken;
  }

  /** The message reaches the first `k` connections and no more: none throws but perhaps the last of them. */
  predicate ReachesFirst(conns: seq<Pairing.Link>, user: string, device: string, m: Message, k: nat) {
    && k <= |conns|
    && (forall i | 0 <= i < k - 1 :: !ThrowsOne(conns[i], user, device, m))
    && (k == |conns| || (k > 0 && ThrowsOne(conns[k - 1], user, device, m)))
  }

  /**
   A key exchange is answered once by each connection that hears it, listens to the peer and does not
   wait in its own handshake, replaced or not.  It reaches the connections up to the first that throws,
   and leaves the others as they were.
   */
  lemma {:induction false} AnswersAre(conns: seq<Pairing.Link>, user: string, device: string, der: string, k: nat)
    requires ReachesFirst(conns, user, device, KeyExchange(der), k)
    ensures var after := PassAll(conns, user, device, KeyExchange(der));
            && after[k..] == conns[k..]
            && (forall i | 0 <= i < k :: after[i] == PassOne(conns[i], user, device, KeyExchange(der)))
            && KeysOf(after) == KeysOf(conns) + Answering(conns[..k], user, device)
    decreases |conns|
  {
    if conns != [] {
      var m := KeyExchange(der);
      OneAnswers(conns[0], user, device, der);
      hide ThrowsOne, PassOne, Answers, KeysIn;
      if k == 1 && ThrowsOne(conns[0], user, device, m) {
        assert conns[..1][1..] == [];
      } else {
        AnswersAre(conns[1..], user, device, der, k - 1);
        assert conns[..k][1..] == conns[1..][..k - 1] && conns[k..] == conns[1..][k - 1..];
      }
    }
  }

  /** Connections that do not listen to the peer, or no longer do, make no difference to who answers. */
  lemma BehindSilent(
      conns: seq<Pairing.Link>, more: seq<Pairing.Link>, user: string, device: string, der: string, k: nat)
    requires forall i | 0 <= i < |conns| :: !Listens(conns[i].cfg, conns[i].peer, user, device)
    requires ReachesFirst(more, user, device, KeyExchange(der), k)
    ensures KeysOf(PassAll(conns + more, user, device, KeyExchange(der)))
         == KeysOf(conns + more) + Answering(more[..k], user, device)
  {
    hide PassAll, KeysOf, Listens, Answering;
    forall i | 0 <= i < |conns|
      ensures !ThrowsOne(conns[i], user, device, KeyExchange(der))
    {
    }
    assert ReachesFirst(conns + more, user, device, KeyExchange(der), |conns| + k) by { hide ThrowsOne; }
    AnswersAre(conns + more, user, device, der, |conns| + k);
    assert (conns + more)[..|conns| + k] == conns + more[..k];
    NoneAnswers(conns, more[..k], user, device);
  }

  /**
   Accepting a request twice before the peer's key arrives makes the manager answer that key twice if
   and only if the first connection's errors are heard or the key imports; otherwise that connection
   throws, and only it answers.
   */
  lemma AcceptedTwiceIff(h: Hub, user: string, device: string, cfg: Config, cfg': Config, der: string)
    requires forall i | 0 <= i < |h.conns| :: !Listens(h.conns[i].cfg, h.conns[i].peer, user, device)
    ensures var once := Next(h, Accept(user, device, cfg));
            var twice := Next(once, Accept(user, device, cfg'));
            && KeysOf(Next(once, Pass(user, device, KeyExchange(der))).conns) == KeysOf(once.conns) + 1
            && KeysOf(Next(twice, Pass(user, device, KeyExchange(der))).conns)
               == KeysOf(twice.conns) + if cfg.heard || cfg.prim.decode(der).Some? then 2 else 1
  {
    var m := KeyExchange(der);
    var conn, conn' := NewLink(cfg, Host, user, device), NewLink(cfg', Host, user, device);
    FreshThrowsIff(conn, der);
    var k := if ThrowsOne(conn, user, device, m) then 1 else 2;
    BehindSilent(h.conns, [conn], user, device, der, 1);
    BehindSilent(h.conns, [conn, conn'], user, device, der, k);
    FreshAnswer(conn, conn', user, device);
    hide PassAll, KeysOf, ThrowsOne, Answering;
    assert h.conns + [conn] + [conn'] == h.conns + [conn, conn'];
    assert [conn, conn'][..1] == [conn][..1] == [conn] && [conn, conn'][..2] == [conn, conn'];
  }

  lemma FreshAnswer(conn: Pairing.Link, conn': Pairing.Link, user: string, device: string)
    requires Answers(conn, user, device) && Answers(conn', user, device)
    ensures Answering([conn], user, device) == 1 && Answering([conn, conn'], user, device) == 2
  {
    hide Answers;
    assert [conn, conn'][1..] == [conn'] && [conn][1..] == [] && [conn'][1..] == [];
    assert Answering([conn'], user, device) == 1;
  }

  /** Every message reaches some first few of the connections. */
  lemma {:induction false} ReachesSome(conns: seq<Pairing.Link>, user: string, device: string, m: Message)
    returns (k: nat)
    ensures ReachesFirst(conns, user, device, m, k)
    decreases |conns|
  {
    hide ThrowsOne;
    k := 0;
    if conns != [] {
      k := 1;
      if !ThrowsOne(conns[0], user, device, m) {
        k := ReachesSome(conns[1..], user, device, m);
        k := k + 1;
      }
    }
  }

  /** When both are also started by hand, as the application does, each sends its key then, and neither answers. */
  lemma BegunTwice(h: Hub, user: string, device: string, cfg: Config, cfg': Config, der: string)
    requires forall i | 0 <= i < |h.conns| :: !Listens(h.conns[i].cfg, h.conns[i].peer, user, device)
    ensures var n := |h.conns|;
            var once := Next(Next(h, Accept(user, device, cfg)), Begin(n));
            var twice := Next(Next(once, Accept(user, device, cfg')), Begin(n + 1));
            && KeysOf(twice.conns) == KeysOf(h.conns) + 2
            && KeysOf(Next(twice, Pass(user, device, KeyExchange(der))).conns) == KeysOf(twice.conns)
  {
    var n := |h.conns|;
    var once := Next(Next(h, Accept(user, device, cfg)), Begin(n));
    var twice := Next(Next(once, Accept(user, device, cfg')), Begin(n + 1));
    var both := [BeginOne(NewLink(cfg, Host, user, device)), BeginOne(NewLink(cfg', Host, user, device))];
    assert twice.conns == h.conns + both;
    var k := ReachesSome(both, user, device, KeyExchange(der));
    BehindSilent(h.conns, both, user, device, der, k);
    NoneWaiting(both[..k], user, device);
    hide PassAll, KeysOf, Answering, Listens;
    KeysOfAppend(h.conns, both);
    BegunKeys(both[0].cfg, both[1].cfg);
  }

  lemma BegunKeys(cfg: Config, cfg': Config)
    ensures KeysOf([Pairing.Link(cfg, StartHandshake(cfg, FRESH)), Pairing.Link(cfg', StartHandshake(cfg', FRESH))]) == 2
  {
    var first, second := Pairing.Link(cfg, StartHandshake(cfg, FRESH)), Pairing.Link(cfg', StartHandshake(cfg', FRESH));
    KeysAppend([], KeyExchange(Public(cfg)));
    KeysAppend([], KeyExchange(Public(cfg')));
    assert [first, second][1..] == [second] && [second][1..] == [];
    assert KeysOf([second]) == KeysIn(second.peer.sent) + KeysOf([]);
  }

  lemma {:induction false} NoneWaiting(conns: seq<Pairing.Link>, user: string, device: string)
    requires forall i | 0 <= i < |conns| :: conns[i].peer.status == Handshake
    ensures Answering(conns, user, device) == 0
    decreases |conns|
  {
    if conns != [] {
      NoneWaiting(conns[1..], user, device);
    }
  }

  lemma {:induction false} KeysOfAppend(conns: seq<Pairing.Link>, more: seq<Pairing.Link>)
    ensures KeysOf(conns + more) == KeysOf(conns) + KeysOf(more)
    decreases |conns|
  {
    if conns == [] {
      assert conns + more == more;
    } else {
      assert (conns + more)[1..] == conns[1..] + more;
      KeysOfAppend(conns[1..], more);
    }
  }

  lemma FreshThrowsIff(conn: Pairing.Link, der: string)
    requires conn.peer == FRESH
    ensures ThrowsOne(conn, conn.cfg.peerUser, conn.cfg.peerDevice, KeyExchange(der))
       <==> !conn.cfg.heard && conn.cfg.prim.decode(der).None?
  {
  }

  lemma {:induction false} NoneAnswers(conns: seq<Pairing.Link>, more: seq<Pairing.Link>, user: string, device: string)
    requires forall i | 0 <= i < |conns| :: !Listens(conns[i].cfg, conns[i].peer, user, device)
    ensures Answering(conns + more, user, device) == Answering(more, user, device)
    decreases |conns|
  {
    hide Listens;
    if conns == [] {
      assert conns + more == more;
    } else {
      assert (conns + more)[1..] == conns[1..] + more;
      NoneAnswers(conns[1..], more, user, device);
    }
  }
}
