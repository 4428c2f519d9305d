/**
 Two peers and the network between them, as a step relation.  The network delivers each KEY_EXCHANGE
 at most once or loses it; it may drop, repeat and reorder encrypted messages at will.  It does not
 forge messages, and a run sends no peer its own messages; what one that comes back does is said apart.
 */
module Channel {
  import opened Wrappers
  import opened Nonces
  import opened Ciphers
  import opened Peers

  /** One end: the peer, and which of its key exchanges have been delivered or lost. */
  datatype End = End(peer: Peer, gone: set<nat>)

  datatype System = System(a: End, b: End)

  datatype Side = A | B

  datatype Action =
    | Starts
    | KeyArrives(index: nat)    // message `index` of the other end
    | KeyLost(index: nat)
    | ChunkArrives(index: nat)
    | Sends(payload: Payload)
    | Announces(payload: Payload)
    | PlainArrives(index: nat)  // unencrypted message `index` of the other end
    | Disconnects

  const INITIAL := System(End(FRESH, {}), End(FRESH, {}))

  function Me(s: System, side: Side): End {
    if side == A then s.a else s.b
  }

  function Other(s: System, side: Side): End {
    if side == A then s.b else s.a
  }

  function With(s: System, side: Side, me: End, other: End): System {
    if side == A then System(me, other) else System(other, me)
  }

  /** Messages of these kinds are not plain ones: the first two have their own actions, so has the effect of the third. */
  predicate IsPlain(payload: Payload) {
    payload.kind !in {"KEY_EXCHANGE", "ENCRYPTED", "DISCONNECT"}
  }

  /** A handshake is only started from `connecting`; a key exchange in flight arrives or is lost once. */
  predicate Enabled(me: End, other: End, act: Action) {
    match act
    case Starts => me.peer.status == Connecting
    case KeyArrives(i) => i < |other.peer.sent| && other.peer.sent[i].KeyExchange? && i !in other.gone
    case KeyLost(i) => i < |other.peer.sent| && other.peer.sent[i].KeyExchange? && i !in other.gone
    case ChunkArrives(i) => i < |other.peer.sent| && other.peer.sent[i].EncryptedMsg?
    case Sends(_) => true
    case Announces(payload) => IsPlain(payload)
    case PlainArrives(i) => i < |other.peer.announced|
    case Disconnects => true
  }

  function Act(cfg: Config, me: End, other: End, act: Action): (End, End)
    requires Enabled(me, other, act)
  {
    match act
    case Starts => (me.(peer := StartHandshake(cfg, me.peer)), other)
    case KeyArrives(i) =>
      (me.(peer := Handle(cfg, me.peer, cfg.peerUser, cfg.peerDevice, other.peer.sent[i])),
       other.(gone := other.gone + {i}))
    case KeyLost(i) => (me, other.(gone := other.gone + {i}))
    case ChunkArrives(i) =>
      (me.(peer := Handle(cfg, me.peer, cfg.peerUser, cfg.peerDevice, other.peer.sent[i])), other)
    case Sends(payload) => (me.(peer := Send(me.peer, payload).0), other)
    case Announces(payload) => (me.(peer := SendUnencrypted(me.peer, payload)), other)
    case PlainArrives(i) =>
      (me.(peer := Handle(cfg, me.peer, cfg.peerUser, cfg.peerDevice, Control(other.peer.announced[i]))), other)
    case Disconnects => (me.(peer := Disconnect(me.peer)), other)
  }

  datatype Configs = Configs(a: Config, b: Config)

  ghost predicate Agreeable(cs: Configs) {
    Laws(cs.a.prim) && cs.b.prim == cs.a.prim
  }

  function ConfigOf(cs: Configs, side: Side): Config {
    if side == A then cs.a else cs.b
  }

  datatype Step = Step(side: Side, act: Action)

  predicate StepEnabled(s: System, step: Step) {
    Enabled(Me(s, step.side), Other(s, step.side), step.act)
  }

  function Next(cs: Configs, s: System, step: Step): System
    requires StepEnabled(s, step)
  {
    var (me, other) := Act(ConfigOf(cs, step.side), Me(s, step.side), Other(s, step.side), step.act);
    With(s, step.side, me, other)
  }

  /** Every step of the run is possible where it is taken. */
  predicate IsRun(cs: Configs, s: System, steps: seq<Step>)
    decreases |steps|
  {
    steps != [] ==> StepEnabled(s, steps[0]) && IsRun(cs, Next(cs, s, steps[0]), steps[1..])
  }

  function Run(cs: Configs, s: System, steps: seq<Step>): System
    requires IsRun(cs, s, steps)
    decreases |steps|
  {
    if steps == [] then s else Run(cs, Next(cs, s, steps[0]), steps[1..])
  }

  /** Such primitives exist: numbers written in unary, and a product for the agreement. */
  lemma AgreeableExist()
    ensures exists cs :: Agreeable(cs)
  {
    var prim := Primitives(x => x, (n: nat) => seq(n, _ => 'x'), s => Some(|s|), (a, b) => a * b, x => x);
    forall a: nat, b: nat
      ensures prim.agree(a, prim.point(b)) == prim.agree(b, prim.point(a))
    {
      assert a * b == b * a;
    }
    var cfg := Config(prim, 0, Host, "", "", false);
    assert Agreeable(Configs(cfg, cfg));
  }

  // ---------------------------------------------------------------- the invariant

  function SharedKey(cfg: Config, peer: Config): Key {
    cfg.prim.hkdf(cfg.prim.agree(cfg.ownKey, cfg.prim.point(peer.ownKey)))
  }

  /** The payloads of the encrypted messages sent, in order: all messages but the first. */
  function Payloads(sent: seq<Message>): seq<Payload>
    requires AllJson(sent)
  {
    seq(if sent == [] then 0 else |sent| - 1, i requires 0 <= i < |sent| - 1 =>
      sent[i + 1].chunk.ciphertext.plain.payload)
  }

  predicate AllJson(sent: seq<Message>) {
    forall i | 1 <= i < |sent| :: IsJson(sent[i])
  }

  predicate IsJson(m: Message) {
    m.EncryptedMsg? && m.chunk.ciphertext.Sealed? && m.chunk.ciphertext.plain.Json?
  }

  /** What an end has sent: one key exchange, then its chunks, numbered from zero under the shared key. */
  ghost predicate SentOk(cfg: Config, peer: Config, sent: seq<Message>) {
    && (sent != [] ==> sent[0] == KeyExchange(Public(cfg)))
    && |sent| <= MAX_COUNTER + 1
    && AllJson(sent)
    && (forall i | 1 <= i < |sent| :: sent[i] == EncryptedMsg(
          SentChunk(SharedKey(cfg, peer), SenderId(cfg.role), i - 1, sent[i].chunk.ciphertext.plain)))
  }

  /** The end's own state, given how much it has sent; only unheard errors make it give up or leave chunks queued. */
  ghost predicate StateOk(cfg: Config, peer: Config, p: Peer) {
    && (p.status == Connecting ==> p.sent == [] && p.cipher.None?)
    && (p.status == Handshake ==> |p.sent| == 1 && p.cipher.None?)
    && (p.status == Encrypted ==> p.cipher.Some? && p.pending == [])
    && (!p.subscribed ==> p.status == Disconnected)
    && (p.subscribed && p.status == Disconnected ==> p.cipher.Some? && !cfg.heard)
    && (p.cipher.None? ==> |p.sent| <= 1)
    && (p.cipher.Some? ==> CipherOk(cfg, peer, p) && (cfg.heard ==> p.pending == []))
    && (CipherFailed in p.notices ==> !cfg.heard)
  }

  ghost predicate CipherOk(cfg: Config, peer: Config, p: Peer)
    requires p.cipher.Some?
  {
    && |p.sent| >= 1
    && p.cipher.value.lastReceived >= -1
    && p.cipher.value == NewCipher(SharedKey(cfg, peer), SenderId(cfg.role)).(
         sendCounter := |p.sent| - 1, lastReceived := p.cipher.value.lastReceived)
  }

  /** The chunk is one of the encrypted messages of `sent`. */
  ghost predicate IsSent(sent: seq<Message>, chunk: Chunk) {
    exists i :: 1 <= i < |sent| && sent[i] == EncryptedMsg(chunk)
  }

  function Received(notices: seq<Notice>): seq<Payload> {
    if notices == [] then []
    else
      var n := |notices| - 1;
      Received(notices[..n]) + if notices[n].Delivered? then [notices[n].payload] else []
  }

  /** `got` is a subsequence of `items`, at positions no greater than `high`. */
  ghost predicate Subsequence<T(!new)>(got: seq<T>, items: seq<T>, high: int) {
    exists idx: seq<nat> :: Picks(got, items, idx, high)
  }

  ghost predicate Picks<T>(got: seq<T>, items: seq<T>, idx: seq<nat>, high: int) {
    Increasing(idx, -1, |items|) && got == Pick(items, idx) && forall i | 0 <= i < |idx| :: idx[i] <= high
  }

  function High(p: Peer): int {
    if p.cipher.Some? then p.cipher.value.lastReceived else -1
  }

  /** A notice that delivers nothing of the encrypted traffic: its only failures are replays and giving up. */
  predicate IsQuiet(n: Notice, said: seq<Payload>) {
    n in {Ready, Close, CipherFailed, DecryptFailed(ReplayDetected)} || (n.Announced? && n.payload in said)
  }

  /** The notices so far: nothing but what the other end sent, and the only failures are replays. */
  ghost predicate NoticesOk(p: Peer, theirs: seq<Message>, said: seq<Payload>) {
    && AllJson(theirs)
    && Subsequence(Received(p.notices), Payloads(theirs), High(p))
    && (forall i | 0 <= i < |p.notices| :: p.notices[i].Delivered? || IsQuiet(p.notices[i], said))
  }

  /** What holds of one end in every reachable state, given the other. */
  ghost predicate EndOk(cfg: Config, peer: Config, me: End, other: End) {
    && SentOk(cfg, peer, me.peer.sent)
    && StateOk(cfg, peer, me.peer)
    && me.gone <= {0} && (me.gone != {} ==> me.peer.sent != [])
    && (me.peer.cipher.Some? ==> 0 in other.gone)
    && (forall i | 0 <= i < |me.peer.pending| :: IsSent(other.peer.sent, me.peer.pending[i]))
    && NoticesOk(me.peer, other.peer.sent, other.peer.announced)
  }

  ghost predicate Inv(cs: Configs, s: System) {
    EndOk(cs.a, cs.b, s.a, s.b) && EndOk(cs.b, cs.a, s.b, s.a)
  }

  // ---------------------------------------------------------------- subsequences

  lemma SubsequenceAppend<T(!new)>(got: seq<T>, items: seq<T>, high: int, k: nat)
    requires Subsequence(got, items, high) && high < k < |items|
    ensures Subsequence(got + [items[k]], items, k)
  {
    var idx: seq<nat> :| Picks(got, items, idx, high);
    PickAppend(items, idx, k);
    assert Picks(got + [items[k]], items, idx + [k], k);
  }

  lemma SubsequenceGrow<T(!new)>(got: seq<T>, items: seq<T>, high: int, x: T)
    requires Subsequence(got, items, high)
    ensures Subsequence(got, items + [x], high)
  {
    var idx: seq<nat> :| Picks(got, items, idx, high);
    assert Pick(items + [x], idx) == Pick(items, idx);
    assert Picks(got, items + [x], idx, high);
  }

  lemma ReceivedAppend(notices: seq<Notice>, n: Notice)
    ensures Received(notices + [n]) == Received(notices) + if n.Delivered? then [n.payload] else []
  {
    assert (notices + [n])[..|notices|] == notices;
  }

  // ---------------------------------------------------------------- receiving

  lemma SharedKeySymmetric(cs: Configs)
    requires Agreeable(cs)
    ensures SharedKey(cs.a, cs.b) == SharedKey(cs.b, cs.a)
  {
  }

  /** Decrypting a chunk the other end sent delivers its payload, or reports a replay. */
  lemma EmitKeeps(cfg: Config, peer: Config, p: Peer, theirs: seq<Message>, said: seq<Payload>, chunk: Chunk)
    requires SharedKey(cfg, peer) == SharedKey(peer, cfg)
    requires SentOk(peer, cfg, theirs) && p.cipher.Some? && CipherOk(cfg, peer, p)
    requires NoticesOk(p, theirs, said) && IsSent(theirs, chunk)
    ensures var q := DecryptAndEmit(p, chunk);
            q.cipher.Some? && CipherOk(cfg, peer, q) && NoticesOk(q, theirs, said)
  {
    var i :| 1 <= i < |theirs| && theirs[i] == EncryptedMsg(chunk);
    hide *;
    EmitKeepsAt(cfg, peer, p, theirs, said, i);
  }

  lemma EmitKeepsAt(cfg: Config, peer: Config, p: Peer, theirs: seq<Message>, said: seq<Payload>, i: nat)
    requires SharedKey(cfg, peer) == SharedKey(peer, cfg)
    requires SentOk(peer, cfg, theirs) && p.cipher.Some? && CipherOk(cfg, peer, p)
    requires NoticesOk(p, theirs, said) && 1 <= i < |theirs| && theirs[i].EncryptedMsg?
    ensures var q := DecryptAndEmit(p, theirs[i].chunk);
            q.cipher.Some? && CipherOk(cfg, peer, q) && NoticesOk(q, theirs, said)
  {
    EmitIs(cfg, peer, p, theirs, i);
    hide SentOk, NoticesOk, DecryptAndEmit, SharedKey, IsSent, AllJson, Payloads;
    var q := DecryptAndEmit(p, theirs[i].chunk);
    if i - 1 > High(p) {
      DeliveredKeeps(p, q, theirs, said, i);
    } else {
      QuietKeeps(p, q, theirs, said, DecryptFailed(ReplayDetected));
    }
  }

  /** A chunk of the other end is delivered if its counter is new, and is a replay otherwise. */
  lemma EmitIs(cfg: Config, peer: Config, p: Peer, theirs: seq<Message>, i: nat)
    requires SharedKey(cfg, peer) == SharedKey(peer, cfg)
    requires SentOk(peer, cfg, theirs) && p.cipher.Some? && CipherOk(cfg, peer, p)
    requires AllJson(theirs) && 1 <= i < |theirs|
    ensures DecryptAndEmit(p, theirs[i].chunk)
         == if i - 1 > High(p)
            then p.(cipher := Some(p.cipher.value.(lastReceived := i - 1)),
                    notices := p.notices + [Delivered(Payloads(theirs)[i - 1])])
            else p.(notices := p.notices + [DecryptFailed(ReplayDetected)])
  {
    assert IsJson(theirs[i]);
    var plain := theirs[i].chunk.ciphertext.plain;
    assert theirs[i].chunk == SentChunk(SharedKey(peer, cfg), SenderId(peer.role), i - 1, plain);
    assert Payloads(theirs)[i - 1] == plain.payload;
    assert p.cipher.value.key == SharedKey(cfg, peer);
    hide SentOk, CipherOk, SharedKey, Payloads, AllJson, DecryptAndEmit;
    EmitSealed(p, SenderId(peer.role), i - 1, plain.payload);
  }

  /** A chunk sealed under the cipher's key, whoever sealed it, is delivered if and only if its counter is new. */
  lemma EmitSealed(p: Peer, senderId: nat, n: nat, payload: Payload)
    requires p.cipher.Some? && p.cipher.value.lastReceived >= -1 && n < MAX_COUNTER
    ensures DecryptAndEmit(p, SentChunk(p.cipher.value.key, senderId, n, Json(payload)))
         == if n > High(p)
            then p.(cipher := Some(p.cipher.value.(lastReceived := n)), notices := p.notices + [Delivered(payload)])
            else p.(notices := p.notices + [DecryptFailed(ReplayDetected)])
  {
    CounterReadsBack(senderId, n);
  }

  lemma DeliveredKeeps(p: Peer, q: Peer, theirs: seq<Message>, said: seq<Payload>, i: nat)
    requires NoticesOk(p, theirs, said) && 1 <= i < |theirs| && High(p) < i - 1 == High(q)
    requires q.notices == p.notices + [Delivered(Payloads(theirs)[i - 1])]
    ensures NoticesOk(q, theirs, said)
  {
    ReceivedAppend(p.notices, Delivered(Payloads(theirs)[i - 1]));
    SubsequenceAppend(Received(p.notices), Payloads(theirs), High(p), i - 1);
  }

  /** A notice that delivers nothing. */
  lemma QuietKeeps(p: Peer, q: Peer, theirs: seq<Message>, said: seq<Payload>, n: Notice)
    requires NoticesOk(p, theirs, said) && High(p) == High(q) && q.notices == p.notices + [n]
    requires IsQuiet(n, said)
    ensures NoticesOk(q, theirs, said)
  {
    hide Subsequence, AllJson, Payloads, High;
    ReceivedAppend(p.notices, n);
    assert Received(p.notices) + [] == Received(p.notices);
  }

  lemma {:induction false} FlushKeeps(cfg: Config, peer: Config, p: Peer, theirs: seq<Message>, said: seq<Payload>)
    requires SharedKey(cfg, peer) == SharedKey(peer, cfg)
    requires SentOk(peer, cfg, theirs) && p.cipher.Some? && CipherOk(cfg, peer, p) && NoticesOk(p, theirs, said)
    requires forall i | 0 <= i < |p.pending| :: IsSent(theirs, p.pending[i])
    ensures var q := FlushPending(cfg.heard, p);
            && q.cipher.Some? && CipherOk(cfg, peer, q) && NoticesOk(q, theirs, said)
            && q == p.(pending := q.pending, cipher := q.cipher, notices := q.notices)
            && (!FlushThrows(cfg.heard, p) ==> q.pending == [])
            && (forall i | 0 <= i < |q.pending| :: IsSent(theirs, q.pending[i]))
            && (CipherFailed in q.notices ==> CipherFailed in p.notices)
    ensures FlushThrows(cfg.heard, p) <==> !cfg.heard && !ClimbsFrom(High(p), p.pending)
    decreases |p.pending|
  {
    if p.pending != [] {
      EmitFirst(cfg, peer, p, theirs, said);
      hide SentOk, CipherOk, NoticesOk, IsSent, SharedKey, DecryptAndEmit, CounterIn, High, Fails;
      FlushKeeps(cfg, peer, DecryptAndEmit(p.(pending := p.pending[1..]), p.pending[0]), theirs, said);
    }
  }

  /** The first chunk of the queue. */
  lemma EmitFirst(cfg: Config, peer: Config, p: Peer, theirs: seq<Message>, said: seq<Payload>)
    requires SharedKey(cfg, peer) == SharedKey(peer, cfg)
    requires SentOk(peer, cfg, theirs) && p.cipher.Some? && CipherOk(cfg, peer, p) && NoticesOk(p, theirs, said)
    requires p.pending != [] && IsSent(theirs, p.pending[0])
    ensures var chunk := p.pending[0];
            var q := DecryptAndEmit(p.(pending := p.pending[1..]), chunk);
            && q.cipher.Some? && CipherOk(cfg, peer, q) && NoticesOk(q, theirs, said)
            && q == p.(pending := p.pending[1..], cipher := q.cipher, notices := q.notices)
            && (CipherFailed in q.notices ==> CipherFailed in p.notices)
            && (Fails(p.cipher.value, chunk) <==> CounterIn(chunk) <= High(p))
            && (!Fails(p.cipher.value, chunk) ==> High(q) == CounterIn(chunk))
  {
    var r := p.(pending := p.pending[1..]);
    EmitKeeps(cfg, peer, r, theirs, said, p.pending[0]);
    SentFailsIff(cfg, peer, p, theirs, p.pending[0]);
    hide SentOk, CipherOk, NoticesOk, IsSent, SharedKey, Decrypt, CounterIn, Fails;
  }

  /** A chunk's counter, if it has one. */
  function CounterIn(chunk: Chunk): int {
    if |chunk.nonce| == NONCE_BYTES then CounterOf(chunk.nonce) else -1
  }

  /** The counters of the chunks increase from above `low`. */
  predicate ClimbsFrom(low: int, chunks: seq<Chunk>)
    decreases |chunks|
  {
    chunks == [] || (low < CounterIn(chunks[0]) && ClimbsFrom(CounterIn(chunks[0]), chunks[1..]))
  }

  /** A chunk of the other end fails if and only if its counter is not new; taking it moves the counter there. */
  lemma SentFailsIff(cfg: Config, peer: Config, p: Peer, theirs: seq<Message>, chunk: Chunk)
    requires SharedKey(cfg, peer) == SharedKey(peer, cfg)
    requires SentOk(peer, cfg, theirs) && p.cipher.Some? && CipherOk(cfg, peer, p) && IsSent(theirs, chunk)
    ensures Fails(p.cipher.value, chunk) <==> CounterIn(chunk) <= High(p)
    ensures !Fails(p.cipher.value, chunk) ==> Decrypt(p.cipher.value, chunk).0.lastReceived == CounterIn(chunk)
  {
    var i :| 1 <= i < |theirs| && theirs[i] == EncryptedMsg(chunk);
    assert IsJson(theirs[i]);
    assert theirs[i] == EncryptedMsg(SentChunk(SharedKey(peer, cfg), SenderId(peer.role), i - 1,
                                               theirs[i].chunk.ciphertext.plain));
    CounterReadsBack(SenderId(peer.role), i - 1);
    hide SharedKey, SentOk;
  }

  // ---------------------------------------------------------------- one step

  /** The other end only sees this end's messages grow and, when it is its key, one more arrival. */
  lemma OtherKeeps(cfg: Config, peer: Config, me: End, other: End, m: seq<Message>, gone: set<nat>)
    requires EndOk(peer, cfg, other, me)
    requires |m| <= 1 && SentOk(cfg, peer, me.peer.sent + m)
    requires other.gone <= gone <= {0} && (gone != {} ==> other.peer.sent != [])
    ensures forall me': End | me'.peer.sent == me.peer.sent + m && me'.gone == me.gone
                              && me.peer.announced <= me'.peer.announced ::
              EndOk(peer, cfg, other.(gone := gone), me')
  {
    var now := me.peer.sent + m;
    if m == [] {
      assert now == me.peer.sent;
    } else if me.peer.sent == [] {
      assert Payloads(now) == Payloads(me.peer.sent) == [];
    } else {
      assert IsJson(now[|me.peer.sent|]);
      assert Payloads(now) == Payloads(me.peer.sent) + [m[0].chunk.ciphertext.plain.payload];
      SubsequenceGrow(Received(other.peer.notices), Payloads(me.peer.sent), High(other.peer),
                      m[0].chunk.ciphertext.plain.payload);
    }
    forall i | 0 <= i < |other.peer.pending|
      ensures IsSent(now, other.peer.pending[i])
    {
      assert IsSent(me.peer.sent, other.peer.pending[i]);
      var j :| 1 <= j < |me.peer.sent| && me.peer.sent[j] == EncryptedMsg(other.peer.pending[i]);
      assert now[j] == me.peer.sent[j];
    }
  }

  /** The end hears its errors, or what it has queued came in order and without repeats. */
  predicate KeyIsSafe(cfg: Config, p: Peer) {
    cfg.heard || ClimbsFrom(-1, p.pending)
  }

  /** The first key exchange of the other end, on the receiving peer alone. */
  lemma KeyReaches(cfg: Config, peer: Config, me: End, other: End)
    requires Laws(cfg.prim) && peer.prim == cfg.prim && SharedKey(cfg, peer) == SharedKey(peer, cfg)
    requires EndOk(cfg, peer, me, other) && EndOk(peer, cfg, other, me)
    requires me.peer.cipher.None? && me.peer.subscribed
    ensures var p := HandleKeyExchange(cfg, me.peer, Public(peer));
            && StateOk(cfg, peer, p) && NoticesOk(p, other.peer.sent, other.peer.announced)
            && p.cipher.Some? && p.sent == [KeyExchange(Public(cfg))]
            && p.status == (if KeyIsSafe(cfg, me.peer) then Encrypted else Disconnected)
            && p.subscribed && p.announced == me.peer.announced
            && (forall i | 0 <= i < |p.pending| :: IsSent(other.peer.sent, p.pending[i]))
  {
    var q := Rekeyed(cfg, me.peer, Public(peer));
    var theirs, said := other.peer.sent, other.peer.announced;
    RekeyedOk(cfg, peer, me, other);
    FlushKeeps(cfg, peer, q, theirs, said);
    var r := FlushPending(cfg.heard, q);
    KeyIsHandled(cfg, me.peer, Public(peer));
    hide HandleKeyExchange, FlushPending, FlushThrows, NoticesOk, SharedKey, SentOk, IsSent, ClimbsFrom, EndOk;
    hide Rekeyed, StateOk, CipherOk;
    if FlushThrows(cfg.heard, q) {
      QuietKeeps(r, GiveUp(r), theirs, said, CipherFailed);
    }
    Settled(cfg, peer, q, r, FlushThrows(cfg.heard, q));
  }

  /** The state in which a flush leaves a peer, and the state if it threw. */
  lemma Settled(cfg: Config, peer: Config, q: Peer, r: Peer, threw: bool)
    requires q.status == Encrypted && q.subscribed && |q.sent| == 1
    requires r.cipher.Some? && CipherOk(cfg, peer, r)
    requires r == q.(pending := r.pending, cipher := r.cipher, notices := r.notices)
    requires if threw then !cfg.heard else r.pending == []
    requires CipherFailed in r.notices ==> !cfg.heard
    ensures StateOk(cfg, peer, if threw then GiveUp(r) else r)
  {
    hide SharedKey;
  }

  lemma KeyIsHandled(cfg: Config, p: Peer, der: string)
    requires CreateCipher(cfg, der).Some?
    ensures var q := Rekeyed(cfg, p, der);
            HandleKeyExchange(cfg, p, der) == if FlushThrows(cfg.heard, q) then GiveUp(FlushPending(cfg.heard, q))
                                              else FlushPending(cfg.heard, q)
  {
    hide FlushPending, FlushThrows;
  }

  lemma RekeyedOk(cfg: Config, peer: Config, me: End, other: End)
    requires Laws(cfg.prim) && peer.prim == cfg.prim && SharedKey(cfg, peer) == SharedKey(peer, cfg)
    requires EndOk(cfg, peer, me, other) && EndOk(peer, cfg, other, me)
    requires me.peer.cipher.None? && me.peer.subscribed
    ensures CreateCipher(cfg, Public(peer)) == Some(NewCipher(SharedKey(cfg, peer), SenderId(cfg.role)))
    ensures var q := Rekeyed(cfg, me.peer, Public(peer));
            && q.sent == [KeyExchange(Public(cfg))] && q.cipher.Some? && High(q) == -1
            && CipherOk(cfg, peer, q) && NoticesOk(q, other.peer.sent, other.peer.announced)
            && q.pending == me.peer.pending && q.subscribed && q.status == Encrypted
            && q.announced == me.peer.announced
            && (CipherFailed in q.notices ==> !cfg.heard)
  {
    var started := if me.peer.status == Handshake then me.peer else StartHandshake(cfg, me.peer);
    var q := Rekeyed(cfg, me.peer, Public(peer));
    assert started.sent == [KeyExchange(Public(cfg))];
    QuietKeeps(me.peer, q, other.peer.sent, other.peer.announced, Ready);
  }

  lemma KeyArrivesKeeps(cfg: Config, peer: Config, me: End, other: End)
    requires Laws(cfg.prim) && peer.prim == cfg.prim && SharedKey(cfg, peer) == SharedKey(peer, cfg)
    requires EndOk(cfg, peer, me, other) && EndOk(peer, cfg, other, me)
    requires other.peer.sent != [] && 0 !in other.gone
    ensures var (me', other') := Act(cfg, me, other, KeyArrives(0));
            EndOk(cfg, peer, me', other') && EndOk(peer, cfg, other', me')
  {
    var (me', other') := Act(cfg, me, other, KeyArrives(0));
    KeyIsFirst(cfg, peer, me, other);
    var m: seq<Message> := [];
    if me.peer.subscribed {
      KeyReaches(cfg, peer, me, other);
      m := if me.peer.status == Handshake then [] else [KeyExchange(Public(cfg))];
    }
    hide HandleKeyExchange, Handle, NoticesOk, IsSent, StateOk, SharedKey, Public;
    assert me'.peer.sent == me.peer.sent + m;
    assert SentOk(cfg, peer, me'.peer.sent);
    hide SentOk;
    OtherKeeps(cfg, peer, me, other, m, {0});
    assert other' == other.(gone := {0});
  }

  lemma KeyIsFirst(cfg: Config, peer: Config, me: End, other: End)
    requires EndOk(cfg, peer, me, other) && EndOk(peer, cfg, other, me)
    requires other.peer.sent != [] && 0 !in other.gone
    ensures me.peer.cipher.None? && other.gone == {}
    ensures var (me', other') := Act(cfg, me, other, KeyArrives(0));
            me'.peer == if me.peer.subscribed then HandleKeyExchange(cfg, me.peer, Public(peer)) else me.peer
    ensures me.peer.subscribed ==>
              me.peer.sent == if me.peer.status == Handshake then [KeyExchange(Public(cfg))] else []
  {
    hide HandleKeyExchange, NoticesOk;
  }

  lemma ChunkArrivesKeeps(cfg: Config, peer: Config, me: End, other: End, n: nat)
    requires SharedKey(cfg, peer) == SharedKey(peer, cfg)
    requires EndOk(cfg, peer, me, other) && EndOk(peer, cfg, other, me)
    requires Enabled(me, other, ChunkArrives(n))
    ensures var (me', other') := Act(cfg, me, other, ChunkArrives(n));
            EndOk(cfg, peer, me', other') && EndOk(peer, cfg, other', me')
  {
    var chunk := other.peer.sent[n].chunk;
    assert IsSent(other.peer.sent, chunk);
    var (me', other') := Act(cfg, me, other, ChunkArrives(n));
    if me.peer.subscribed && me.peer.cipher.Some? {
      EmitKeeps(cfg, peer, me.peer, other.peer.sent, other.peer.announced, chunk);
    }
    assert me'.peer.sent == me.peer.sent + [];
    hide NoticesOk, IsSent;
    OtherKeeps(cfg, peer, me, other, [], other.gone);
    assert other' == other.(gone := other.gone);
  }

  lemma SendKeeps(cfg: Config, peer: Config, p: Peer, payload: Payload)
    requires SentOk(cfg, peer, p.sent) && StateOk(cfg, peer, p)
    ensures var q := Send(p, payload).0;
            && SentOk(cfg, peer, q.sent) && StateOk(cfg, peer, q)
            && |p.sent| <= |q.sent| <= |p.sent| + 1 && q.sent[..|p.sent|] == p.sent
            && (p.sent == [] ==> q.sent == [])
            && q == p.(cipher := q.cipher, sent := q.sent)
            && q.cipher.Some? == p.cipher.Some? && High(q) == High(p)
  {
    var q := Send(p, payload).0;
    if |q.sent| > |p.sent| {
      assert IsJson(q.sent[|p.sent|]);
    }
  }

  lemma SendsKeeps(cfg: Config, peer: Config, me: End, other: End, payload: Payload)
    requires EndOk(cfg, peer, me, other) && EndOk(peer, cfg, other, me)
    ensures var (me', other') := Act(cfg, me, other, Sends(payload));
            EndOk(cfg, peer, me', other') && EndOk(peer, cfg, other', me')
  {
    var (me', other') := Act(cfg, me, other, Sends(payload));
    var m := me'.peer.sent[|me.peer.sent|..];
    SendKeeps(cfg, peer, me.peer, payload);
    assert me'.peer.sent == me.peer.sent + m;
    hide NoticesOk, IsSent, SentOk, StateOk, Send;
    OtherKeeps(cfg, peer, me, other, m, other.gone);
    assert other' == other.(gone := other.gone);
  }

  lemma StartsKeeps(cfg: Config, peer: Config, me: End, other: End)
    requires EndOk(cfg, peer, me, other) && EndOk(peer, cfg, other, me)
    requires me.peer.status == Connecting
    ensures var (me', other') := Act(cfg, me, other, Starts);
            EndOk(cfg, peer, me', other') && EndOk(peer, cfg, other', me')
  {
    var (me', other') := Act(cfg, me, other, Starts);
    hide NoticesOk, IsSent;
    OtherKeeps(cfg, peer, me, other, [KeyExchange(Public(cfg))], other.gone);
    assert other' == other.(gone := other.gone);
  }

  lemma CloseKeeps(p: Peer, theirs: seq<Message>, said: seq<Payload>)
    requires NoticesOk(p, theirs, said)
    ensures NoticesOk(Disconnect(p), theirs, said)
  {
    hide NoticesOk;
    if p.status != Disconnected {
      QuietKeeps(p, Disconnect(p), theirs, said, Close);
    }
  }

  lemma DisconnectsKeeps(cfg: Config, peer: Config, me: End, other: End)
    requires EndOk(cfg, peer, me, other) && EndOk(peer, cfg, other, me)
    ensures var (me', other') := Act(cfg, me, other, Disconnects);
            EndOk(cfg, peer, me', other') && EndOk(peer, cfg, other', me')
  {
    var (me', other') := Act(cfg, me, other, Disconnects);
    CloseKeeps(me.peer, other.peer.sent, other.peer.announced);
    assert me'.peer.sent == me.peer.sent + [];
    hide NoticesOk, IsSent;
    OtherKeeps(cfg, peer, me, other, [], other.gone);
    assert other' == other.(gone := other.gone);
  }

  lemma AnnouncesKeeps(cfg: Config, peer: Config, me: End, other: End, payload: Payload)
    requires EndOk(cfg, peer, me, other) && EndOk(peer, cfg, other, me) && IsPlain(payload)
    ensures var (me', other') := Act(cfg, me, other, Announces(payload));
            EndOk(cfg, peer, me', other') && EndOk(peer, cfg, other', me')
  {
    var (me', other') := Act(cfg, me, other, Announces(payload));
    assert me'.peer.sent == me.peer.sent + [];
    hide NoticesOk, IsSent;
    SameNotices(me.peer, me'.peer, other.peer.sent, other.peer.announced);
    OtherKeeps(cfg, peer, me, other, [], other.gone);
    assert other' == other.(gone := other.gone);
  }

  lemma SameNotices(p: Peer, q: Peer, theirs: seq<Message>, said: seq<Payload>)
    requires NoticesOk(p, theirs, said) && q.notices == p.notices && q.cipher == p.cipher
    ensures NoticesOk(q, theirs, said)
  {
  }

  lemma PlainArrivesKeeps(cfg: Config, peer: Config, me: End, other: End, i: nat)
    requires EndOk(cfg, peer, me, other) && EndOk(peer, cfg, other, me) && i < |other.peer.announced|
    ensures var (me', other') := Act(cfg, me, other, PlainArrives(i));
            EndOk(cfg, peer, me', other') && EndOk(peer, cfg, other', me')
  {
    var (me', other') := Act(cfg, me, other, PlainArrives(i));
    assert me'.peer.sent == me.peer.sent + [];
    hide NoticesOk, IsSent;
    if me.peer.subscribed {
      QuietKeeps(me.peer, me'.peer, other.peer.sent, other.peer.announced, Announced(other.peer.announced[i]));
    }
    OtherKeeps(cfg, peer, me, other, [], other.gone);
    assert other' == other.(gone := other.gone);
  }

  lemma KeyLostKeeps(cfg: Config, peer: Config, me: End, other: End)
    requires EndOk(cfg, peer, me, other) && EndOk(peer, cfg, other, me)
    requires other.peer.sent != []
    requires 0 !in other.gone
    ensures var (me', other') := Act(cfg, me, other, KeyLost(0));
            EndOk(cfg, peer, me', other') && EndOk(peer, cfg, other', me')
  {
  }

  lemma ActKeeps(cfg: Config, peer: Config, me: End, other: End, act: Action)
    requires Laws(cfg.prim) && peer.prim == cfg.prim && SharedKey(cfg, peer) == SharedKey(peer, cfg)
    requires EndOk(cfg, peer, me, other) && EndOk(peer, cfg, other, me)
    requires Enabled(me, other, act)
    ensures var (me', other') := Act(cfg, me, other, act);
            EndOk(cfg, peer, me', other') && EndOk(peer, cfg, other', me')
  {
    match act
    case Starts => StartsKeeps(cfg, peer, me, other);
    case KeyArrives(i) =>
      OnlyFirstIsKey(peer, cfg, other.peer.sent, i);
      KeyArrivesKeeps(cfg, peer, me, other);
    case KeyLost(i) =>
      OnlyFirstIsKey(peer, cfg, other.peer.sent, i);
      KeyLostKeeps(cfg, peer, me, other);
    case ChunkArrives(n) => ChunkArrivesKeeps(cfg, peer, me, other, n);
    case Sends(payload) => SendsKeeps(cfg, peer, me, other, payload);
    case Announces(payload) => AnnouncesKeeps(cfg, peer, me, other, payload);
    case PlainArrives(i) => PlainArrivesKeeps(cfg, peer, me, other, i);
    case Disconnects => DisconnectsKeeps(cfg, peer, me, other);
  }

  lemma OnlyFirstIsKey(cfg: Config, peer: Config, sent: seq<Message>, i: nat)
    requires SentOk(cfg, peer, sent) && i < |sent| && sent[i].KeyExchange?
    ensures i == 0 && sent[0] == KeyExchange(Public(cfg))
  {
    forall j | 1 <= j < |sent|
      ensures !sent[j].KeyExchange?
    {
      assert IsJson(sent[j]);
    }
  }

  lemma NextKeeps(cs: Configs, s: System, step: Step)
    requires Agreeable(cs) && Inv(cs, s) && StepEnabled(s, step)
    ensures Inv(cs, Next(cs, s, step))
  {
    SharedKeySymmetric(cs);
    hide EndOk, Act, Enabled;
    if step.side == A {
      ActKeeps(cs.a, cs.b, s.a, s.b, step.act);
    } else {
      ActKeeps(cs.b, cs.a, s.b, s.a, step.act);
    }
  }

  lemma InitialOk(cs: Configs)
    ensures Inv(cs, INITIAL)
  {
    var none: seq<Payload> := [];
    var idx: seq<nat> := [];
    assert Pick(none, idx) == [];
    assert Picks(none, none, idx, -1);
    assert Payloads([]) == none;
    assert Subsequence(Received([]), Payloads([]), -1);
  }

  /** The invariant holds in every reachable state of the two-peer system. */
  lemma {:induction false} RunKeeps(cs: Configs, s: System, steps: seq<Step>)
    requires Agreeable(cs) && Inv(cs, s) && IsRun(cs, s, steps)
    ensures Inv(cs, Run(cs, s, steps))
    decreases |steps|
  {
    hide Next, Inv;
    if steps != [] {
      NextKeeps(cs, s, steps[0]);
      RunKeeps(cs, Next(cs, s, steps[0]), steps[1..]);
    }
  }

  // ---------------------------------------------------------------- what the invariant gives

  /** In every reachable state each side has sent at most one key exchange, its own public key. */
  lemma OneKeyExchange(cs: Configs, steps: seq<Step>, side: Side, i: nat)
    requires Agreeable(cs) && IsRun(cs, INITIAL, steps)
    ensures var sent := Me(Run(cs, INITIAL, steps), side).peer.sent;
            i < |sent| && sent[i].KeyExchange? ==> i == 0 && sent[0] == KeyExchange(Public(ConfigOf(cs, side)))
  {
    InitialOk(cs);
    RunKeeps(cs, INITIAL, steps);
    var s := Run(cs, INITIAL, steps);
    if i < |Me(s, side).peer.sent| && Me(s, side).peer.sent[i].KeyExchange? {
      OnlyFirstIsKey(ConfigOf(cs, side), if side == A then cs.b else cs.a, Me(s, side).peer.sent, i);
    }
  }

  /** In every reachable state two ciphers hold one key, and their sender ids differ as the roles do. */
  lemma CiphersAgree(cs: Configs, steps: seq<Step>)
    requires Agreeable(cs) && IsRun(cs, INITIAL, steps)
    ensures var s := Run(cs, INITIAL, steps);
            s.a.peer.cipher.Some? && s.b.peer.cipher.Some? ==>
              && s.a.peer.cipher.value.key == s.b.peer.cipher.value.key
              && (s.a.peer.cipher.value.senderId != s.b.peer.cipher.value.senderId <==> cs.a.role != cs.b.role)
  {
    InitialOk(cs);
    RunKeeps(cs, INITIAL, steps);
    SharedKeySymmetric(cs);
  }

  // ---------------------------------------------------------------- what was asked to be sent

  function Opposite(side: Side): Side {
    if side == A then B else A
  }

  /** The payloads that a side was asked to send in the run while it could send, in order. */
  function Said(cs: Configs, s: System, steps: seq<Step>, side: Side): seq<Payload>
    requires IsRun(cs, s, steps)
    decreases |steps|
  {
    if steps == [] then []
    else
      (if steps[0].side == side then SaidBy(Me(s, side).peer, steps[0].act) else [])
      + Said(cs, Next(cs, s, steps[0]), steps[1..], side)
  }

  function SaidBy(p: Peer, act: Action): seq<Payload> {
    if act.Sends? && CanSend(p) then [act.payload] else []
  }

  /** And those it was asked to send in the clear. */
  function Shouted(steps: seq<Step>, side: Side): seq<Payload> {
    if steps == [] then []
    else (if steps[0].side == side then ShoutedBy(steps[0].act) else []) + Shouted(steps[1..], side)
  }

  function ShoutedBy(act: Action): seq<Payload> {
    if act.Announces? then [act.payload] else []
  }

  lemma SendSays(cfg: Config, peer: Config, p: Peer, payload: Payload)
    requires SentOk(cfg, peer, p.sent) && StateOk(cfg, peer, p)
    ensures var q := Send(p, payload).0;
            && AllJson(q.sent) && q.announced == p.announced
            && Payloads(q.sent) == Payloads(p.sent) + SaidBy(p, Sends(payload))
  {
    SendKeeps(cfg, peer, p, payload);
    if !CanSend(p) {
      assert Payloads(p.sent) + [] == Payloads(p.sent);
    }
  }

  lemma KeySays(cfg: Config, peer: Config, me: End, other: End)
    requires Laws(cfg.prim) && peer.prim == cfg.prim && SharedKey(cfg, peer) == SharedKey(peer, cfg)
    requires EndOk(cfg, peer, me, other) && EndOk(peer, cfg, other, me)
    requires other.peer.sent != [] && 0 !in other.gone
    ensures var (me', other') := Act(cfg, me, other, KeyArrives(0));
            && other'.peer == other.peer && me'.peer.announced == me.peer.announced
            && AllJson(me'.peer.sent) && AllJson(me.peer.sent) && Payloads(me'.peer.sent) == Payloads(me.peer.sent)
  {
    KeyIsFirst(cfg, peer, me, other);
    if me.peer.subscribed {
      KeyReaches(cfg, peer, me, other);
      hide EndOk, HandleKeyExchange, Handle;
      assert Payloads(me.peer.sent) == [] && Payloads([KeyExchange(Public(cfg))]) == [];
    }
  }

  /** What an action adds to the payloads sealed, and to those sent in the clear. */
  lemma ActSays(cfg: Config, peer: Config, me: End, other: End, act: Action)
    requires Laws(cfg.prim) && peer.prim == cfg.prim && SharedKey(cfg, peer) == SharedKey(peer, cfg)
    requires EndOk(cfg, peer, me, other) && EndOk(peer, cfg, other, me) && Enabled(me, other, act)
    ensures var (me', other') := Act(cfg, me, other, act);
            && other'.peer == other.peer && AllJson(me'.peer.sent) && AllJson(me.peer.sent)
            && Payloads(me'.peer.sent) == Payloads(me.peer.sent) + SaidBy(me.peer, act)
            && me'.peer.announced == me.peer.announced + ShoutedBy(act)
  {
    assert Payloads(me.peer.sent) + [] == Payloads(me.peer.sent) && me.peer.announced + [] == me.peer.announced;
    match act
    case KeyArrives(i) =>
      OnlyFirstIsKey(peer, cfg, other.peer.sent, i);
      KeySays(cfg, peer, me, other);
      hide Act, EndOk;
    case Sends(payload) =>
      SendSays(cfg, peer, me.peer, payload);
      hide EndOk, Send;
    case Starts => assert Payloads(me.peer.sent) == [] && Payloads(StartHandshake(cfg, me.peer).sent) == [];
    case _ => hide EndOk, DecryptAndEmit, NoticesOk;
  }

  lemma NextSays(cs: Configs, s: System, step: Step, side: Side)
    requires Agreeable(cs) && Inv(cs, s) && StepEnabled(s, step)
    ensures var p, q := Me(s, side).peer, Me(Next(cs, s, step), side).peer;
            && AllJson(p.sent) && AllJson(q.sent)
            && Payloads(q.sent) == Payloads(p.sent) + (if step.side == side then SaidBy(p, step.act) else [])
            && q.announced == p.announced + (if step.side == side then ShoutedBy(step.act) else [])
  {
    SharedKeySymmetric(cs);
    var cfg, peer := ConfigOf(cs, step.side), if step.side == A then cs.b else cs.a;
    var me, other := Me(s, step.side), Other(s, step.side);
    assert EndOk(cfg, peer, me, other) && EndOk(peer, cfg, other, me);
    ActSays(cfg, peer, me, other, step.act);
    EndPayloads(peer, cfg, other, me);
    hide EndOk, Act, Enabled, Payloads, AllJson;
    var p := Me(s, side).peer;
    assert Payloads(p.sent) + [] == Payloads(p.sent) && p.announced + [] == p.announced;
  }

  lemma EndPayloads(cfg: Config, peer: Config, me: End, other: End)
    requires EndOk(cfg, peer, me, other)
    ensures AllJson(me.peer.sent)
  {
  }

  /**
   In every run, the payloads sealed in a side's messages are those it was asked to send while it could,
   in order, and what it sent in the clear is what it was asked to announce.
   */
  lemma {:induction false} RunSays(cs: Configs, s: System, steps: seq<Step>, side: Side)
    requires Agreeable(cs) && Inv(cs, s) && IsRun(cs, s, steps)
    ensures var p, q := Me(s, side).peer, Me(Run(cs, s, steps), side).peer;
            && AllJson(p.sent) && AllJson(q.sent)
            && Payloads(q.sent) == Payloads(p.sent) + Said(cs, s, steps, side)
            && q.announced == p.announced + Shouted(steps, side)
    decreases |steps|
  {
    hide Next, Inv, SaidBy, ShoutedBy, Payloads, AllJson;
    var p := Me(s, side).peer;
    if steps == [] {
      EndPayloads(ConfigOf(cs, side), if side == A then cs.b else cs.a, Me(s, side), Other(s, side)) by {
        InvParts(cs, s, side);
      }
      assert Payloads(p.sent) + [] == Payloads(p.sent) && p.announced + [] == p.announced;
    } else {
      NextKeeps(cs, s, steps[0]);
      NextSays(cs, s, steps[0], side);
      RunSays(cs, Next(cs, s, steps[0]), steps[1..], side);
    }
  }

  lemma InvParts(cs: Configs, s: System, side: Side)
    requires Inv(cs, s)
    ensures EndOk(ConfigOf(cs, side), if side == A then cs.b else cs.a, Me(s, side), Other(s, side))
  {
  }

  lemma SaysFromStart(cs: Configs, steps: seq<Step>, side: Side)
    requires Agreeable(cs) && IsRun(cs, INITIAL, steps)
    ensures var q := Me(Run(cs, INITIAL, steps), side).peer;
            && Inv(cs, Run(cs, INITIAL, steps)) && AllJson(q.sent)
            && Payloads(q.sent) == Said(cs, INITIAL, steps, side)
            && q.announced == Shouted(steps, side)
  {
    InitialOk(cs);
    RunKeeps(cs, INITIAL, steps);
    RunSays(cs, INITIAL, steps, side);
    hide Run, Said, Shouted, Inv;
    assert Payloads([]) + Said(cs, INITIAL, steps, side) == Said(cs, INITIAL, steps, side);
    assert [] + Shouted(steps, side) == Shouted(steps, side);
  }

  /**
   In every reachable state, whatever the network dropped, repeated or reordered: the payloads a side
   has delivered are a subsequence of those the other side was asked to send while it could, the others
   it announced the other was asked to send in the clear, nothing failed but replays, and only an end
   that does not hear its errors has given up.
   */
  lemma ReachableDelivers(cs: Configs, steps: seq<Step>, side: Side)
    requires Agreeable(cs) && IsRun(cs, INITIAL, steps)
    ensures var me, said := Me(Run(cs, INITIAL, steps), side).peer, Said(cs, INITIAL, steps, Opposite(side));
            && (exists idx: seq<nat> :: Increasing(idx, -1, |said|) && Received(me.notices) == Pick(said, idx))
            && (forall n | n in me.notices && n.Announced? :: n.payload in Shouted(steps, Opposite(side)))
            && (forall n | n in me.notices :: n.DecryptFailed? ==> n.error == ReplayDetected)
            && ParseFailed !in me.notices && (CipherFailed in me.notices ==> !ConfigOf(cs, side).heard)
  {
    hide Run, SentOk, NoticesOk, Said, Shouted;
    var s := Run(cs, INITIAL, steps);
    SaysFromStart(cs, steps, Opposite(side));
    assert Me(s, Opposite(side)) == Other(s, side);
    NoticesShow(Me(s, side).peer, Other(s, side).peer.sent, Other(s, side).peer.announced);
  }

  lemma NoticesShow(p: Peer, theirs: seq<Message>, said: seq<Payload>)
    requires NoticesOk(p, theirs, said)
    ensures AllJson(theirs)
    ensures exists idx: seq<nat> ::
              Increasing(idx, -1, |Payloads(theirs)|) && Received(p.notices) == Pick(Payloads(theirs), idx)
    ensures forall n | n in p.notices && n.Announced? :: n.payload in said
    ensures forall n | n in p.notices :: n.DecryptFailed? ==> n.error == ReplayDetected
    ensures ParseFailed !in p.notices
  {
    var idx: seq<nat> :| Picks(Received(p.notices), Payloads(theirs), idx, High(p));
  }

  /**
   Across both directions of a session no nonce is used twice, if the roles differ; with equal roles
   the first chunks of the two sides already share one.
   */
  lemma ReachableNoncesDistinct(cs: Configs, steps: seq<Step>)
    requires Agreeable(cs) && IsRun(cs, INITIAL, steps)
    ensures var s := Run(cs, INITIAL, steps);
            var a, b := s.a.peer.sent, s.b.peer.sent;
            && AllJson(a) && AllJson(b)
            && (forall i, j | 1 <= i < |a| && 1 <= j < |a| && i != j :: a[i].chunk.nonce != a[j].chunk.nonce)
            && (forall i, j | 1 <= i < |b| && 1 <= j < |b| && i != j :: b[i].chunk.nonce != b[j].chunk.nonce)
            && (|a| > 1 && |b| > 1 ==>
                  (cs.a.role != cs.b.role <==>
                   forall i, j | 1 <= i < |a| && 1 <= j < |b| :: a[i].chunk.nonce != b[j].chunk.nonce))
  {
    InitialOk(cs);
    RunKeeps(cs, INITIAL, steps);
    var s := Run(cs, INITIAL, steps);
    var a, b := s.a.peer.sent, s.b.peer.sent;
    forall i, j | 1 <= i < |a| && 1 <= j < |a| && i != j
      ensures a[i].chunk.nonce != a[j].chunk.nonce
    {
      NoncesApart(cs.a, cs.b, a, cs.a, cs.b, a, i, j);
    }
    forall i, j | 1 <= i < |b| && 1 <= j < |b| && i != j
      ensures b[i].chunk.nonce != b[j].chunk.nonce
    {
      NoncesApart(cs.b, cs.a, b, cs.b, cs.a, b, i, j);
    }
    forall i, j | 1 <= i < |a| && 1 <= j < |b|
      ensures a[i].chunk.nonce == b[j].chunk.nonce <==> cs.a.role == cs.b.role && i == j
    {
      NoncesApart(cs.a, cs.b, a, cs.b, cs.a, b, i, j);
    }
    if |a| > 1 && |b| > 1 && cs.a.role == cs.b.role {
      assert a[1].chunk.nonce == b[1].chunk.nonce;
    }
  }

  lemma NoncesApart(
      cfg: Config, peer: Config, xs: seq<Message>, cfg': Config, peer': Config, ys: seq<Message>, i: nat, j: nat)
    requires SentOk(cfg, peer, xs) && SentOk(cfg', peer', ys)
    requires 1 <= i < |xs| && 1 <= j < |ys|
    ensures IsJson(xs[i]) && IsJson(ys[j])
    ensures xs[i].chunk.nonce == ys[j].chunk.nonce <==> cfg.role == cfg'.role && i == j
  {
    NonceInjective(SenderId(cfg.role), i - 1, SenderId(cfg'.role), j - 1);
  }

  // ---------------------------------------------------------------- an end's own messages sent back to it

  /** An own chunk is taken like one of the other end: its sender id is not looked at. */
  lemma EmitOwn(cfg: Config, peer: Config, p: Peer, i: nat)
    requires SentOk(cfg, peer, p.sent) && p.cipher.Some? && CipherOk(cfg, peer, p)
    requires AllJson(p.sent) && 1 <= i < |p.sent|
    ensures DecryptAndEmit(p, p.sent[i].chunk)
         == if i - 1 > High(p)
            then p.(cipher := Some(p.cipher.value.(lastReceived := i - 1)),
                    notices := p.notices + [Delivered(Payloads(p.sent)[i - 1])])
            else p.(notices := p.notices + [DecryptFailed(ReplayDetected)])
  {
    assert IsJson(p.sent[i]);
    var plain := p.sent[i].chunk.ciphertext.plain;
    assert p.sent[i].chunk == SentChunk(SharedKey(cfg, peer), SenderId(cfg.role), i - 1, plain);
    assert Payloads(p.sent)[i - 1] == plain.payload;
    assert p.cipher.value.key == SharedKey(cfg, peer);
    hide SentOk, CipherOk, SharedKey, Payloads, AllJson, DecryptAndEmit;
    EmitSealed(p, SenderId(cfg.role), i - 1, plain.payload);
  }

  /**
   In every reachable state, an end to which one of its own encrypted messages comes back under the
   other's name delivers it if and only if it listens and has taken no counter as high; from then on it
   refuses every message of the other end up to that counter.
   */
  lemma ReflectionDeliversIff(cs: Configs, steps: seq<Step>, side: Side, i: nat)
    requires Agreeable(cs) && IsRun(cs, INITIAL, steps)
    requires 1 <= i < |Me(Run(cs, INITIAL, steps), side).peer.sent|
    ensures var s, cfg := Run(cs, INITIAL, steps), ConfigOf(cs, side);
            var p, theirs := Me(s, side).peer, Other(s, side).peer.sent;
            var q := Handle(cfg, p, cfg.peerUser, cfg.peerDevice, p.sent[i]);
            && AllJson(p.sent) && AllJson(theirs)
            && (q.notices == p.notices + [Delivered(Payloads(p.sent)[i - 1])] <==> p.subscribed && i - 1 > High(p))
            && (p.subscribed && i - 1 > High(p) ==>
                  q.cipher.Some? && forall j | 1 <= j <= i && j < |theirs| :: Fails(q.cipher.value, theirs[j].chunk))
  {
    InitialOk(cs);
    RunKeeps(cs, INITIAL, steps);
    SharedKeySymmetric(cs);
    var s := Run(cs, INITIAL, steps);
    hide Run, IsRun;
    OwnComesBack(ConfigOf(cs, side), if side == A then cs.b else cs.a, Me(s, side), Other(s, side), i);
  }

  lemma OwnComesBack(cfg: Config, peer: Config, me: End, other: End, i: nat)
    requires SharedKey(cfg, peer) == SharedKey(peer, cfg)
    requires EndOk(cfg, peer, me, other) && EndOk(peer, cfg, other, me) && 1 <= i < |me.peer.sent|
    ensures var p, theirs := me.peer, other.peer.sent;
            var q := Handle(cfg, p, cfg.peerUser, cfg.peerDevice, p.sent[i]);
            && AllJson(p.sent) && AllJson(theirs)
            && (q.notices == p.notices + [Delivered(Payloads(p.sent)[i - 1])] <==> p.subscribed && i - 1 > High(p))
            && (p.subscribed && i - 1 > High(p) ==>
                  q.cipher.Some? && forall j | 1 <= j <= i && j < |theirs| :: Fails(q.cipher.value, theirs[j].chunk))
  {
    var p, theirs := me.peer, other.peer.sent;
    assert IsJson(p.sent[i]) && p.cipher.Some?;
    EmitOwn(cfg, peer, p, i);
    var q := Handle(cfg, p, cfg.peerUser, cfg.peerDevice, p.sent[i]);
    hide Handle, HandleKeyExchange, DecryptAndEmit, SharedKey, Received, Payloads, Fails;
    assert q == if p.subscribed then DecryptAndEmit(p, p.sent[i].chunk) else p by { OwnIsHandled(cfg, p, i); }
    assert |p.notices + [DecryptFailed(ReplayDetected)]| == |p.notices| + 1;
    LastDiffers(p.notices, Delivered(Payloads(p.sent)[i - 1]), DecryptFailed(ReplayDetected));
    if p.subscribed && i - 1 > High(p) {
      forall j | 1 <= j <= i && j < |theirs|
        ensures Fails(q.cipher.value, theirs[j].chunk)
      {
        RefusedUpTo(cfg, peer, q, theirs, i, j);
      }
    }
  }

  lemma LastDiffers(notices: seq<Notice>, n: Notice, m: Notice)
    requires n != m
    ensures notices + [n] != notices + [m] && notices != notices + [n]
  {
    assert (notices + [n])[|notices|] == n && (notices + [m])[|notices|] == m;
  }

  lemma OwnIsHandled(cfg: Config, p: Peer, i: nat)
    requires i < |p.sent| && p.sent[i].EncryptedMsg? && p.cipher.Some?
    ensures Handle(cfg, p, cfg.peerUser, cfg.peerDevice, p.sent[i])
         == if p.subscribed then DecryptAndEmit(p, p.sent[i].chunk) else p
  {
  }

  lemma RefusedUpTo(cfg: Config, peer: Config, q: Peer, theirs: seq<Message>, i: nat, j: nat)
    requires SharedKey(cfg, peer) == SharedKey(peer, cfg) && SentOk(peer, cfg, theirs)
    requires q.cipher.Some? && CipherOk(cfg, peer, q) && High(q) == i - 1 && 1 <= j <= i && j < |theirs|
    ensures Fails(q.cipher.value, theirs[j].chunk)
  {
    assert IsJson(theirs[j]) && IsSent(theirs, theirs[j].chunk);
    SentFailsIff(cfg, peer, q, theirs, theirs[j].chunk);
    CounterReadsBack(SenderId(peer.role), j - 1);
  }

  // ---------------------------------------------------------------- the handshake completes

  predicate Lossless(step: Step) {
    !step.act.KeyLost? && !step.act.Disconnects?
  }

  /** How many ends have no cipher yet. */
  function Keyless(s: System): nat {
    (if s.a.peer.cipher.None? then 1 else 0) + (if s.b.peer.cipher.None? then 1 else 0)
  }

  /** As long as nothing is lost, both ends listen, and one without a cipher has not used up the other's key. */
  ghost predicate Live(s: System) {
    && s.a.peer.subscribed && s.b.peer.subscribed
    && (s.a.peer.cipher.None? ==> s.b.gone == {})
    && (s.b.peer.cipher.None? ==> s.a.gone == {})
  }

  ghost predicate Started(s: System) {
    s.a.peer.sent != [] || s.b.peer.sent != []
  }

  predicate KeyInFlight(s: System, side: Side) {
    StepEnabled(s, Step(side, KeyArrives(0)))
  }

  /** No end has a cipher and yet has given up. */
  predicate NoneGaveUp(s: System) {
    && (s.a.peer.cipher.Some? ==> s.a.peer.status == Encrypted)
    && (s.b.peer.cipher.Some? ==> s.b.peer.status == Encrypted)
  }

  /** A key that arrives finds errors heard, or the queue in order and without repeats. */
  predicate IsSafe(cs: Configs, s: System, step: Step) {
    step.act.KeyArrives? ==> KeyIsSafe(ConfigOf(cs, step.side), Me(s, step.side).peer)
  }

  /**
   No lossless step unmakes progress, and every key that arrives makes some; only an unsafe one makes
   an end give up.
   */
  lemma LosslessStep(cs: Configs, s: System, step: Step)
    requires Agreeable(cs) && Inv(cs, s) && Live(s) && StepEnabled(s, step) && Lossless(step)
    ensures Live(Next(cs, s, step))
    ensures Keyless(Next(cs, s, step)) == Keyless(s) - if step.act.KeyArrives? then 1 else 0
    ensures Started(s) ==> Started(Next(cs, s, step))
    ensures NoneGaveUp(Next(cs, s, step)) <==> NoneGaveUp(s) && IsSafe(cs, s, step)
  {
    SharedKeySymmetric(cs);
    var cfg, peer := ConfigOf(cs, step.side), if step.side == A then cs.b else cs.a;
    var me, other := Me(s, step.side), Other(s, step.side);
    assert EndOk(cfg, peer, me, other) && EndOk(peer, cfg, other, me);
    LosslessAct(cfg, peer, me, other, step.act);
    hide EndOk, Act, Enabled, KeyIsSafe;
  }

  lemma LosslessAct(cfg: Config, peer: Config, me: End, other: End, act: Action)
    requires Laws(cfg.prim) && peer.prim == cfg.prim && SharedKey(cfg, peer) == SharedKey(peer, cfg)
    requires EndOk(cfg, peer, me, other) && EndOk(peer, cfg, other, me)
    requires me.peer.subscribed && (me.peer.cipher.None? ==> other.gone == {})
    requires Enabled(me, other, act) && !act.KeyLost? && !act.Disconnects?
    ensures var (me', other') := Act(cfg, me, other, act);
            && other'.peer == other.peer && me'.gone == me.gone
            && me'.peer.subscribed && |me.peer.sent| <= |me'.peer.sent|
            && (if act.KeyArrives? then
                  && me.peer.cipher.None? && me'.peer.cipher.Some?
                  && (me'.peer.status == Encrypted <==> KeyIsSafe(cfg, me.peer))
                else
                  && other'.gone == other.gone && (me'.peer.cipher.Some? <==> me.peer.cipher.Some?)
                  && (me.peer.cipher.Some? ==> me'.peer.status == me.peer.status))
  {
    match act
    case KeyArrives(i) =>
      OnlyFirstIsKey(peer, cfg, other.peer.sent, i);
      KeyIsFirst(cfg, peer, me, other);
      KeyReaches(cfg, peer, me, other);
      hide EndOk, HandleKeyExchange, Handle;
    case Sends(payload) => SendKeeps(cfg, peer, me.peer, payload);
    case _ =>
  }

  /** Once either side has started, some key is in flight until both sides have a cipher. */
  lemma {:induction false} KeyStaysInFlight(cs: Configs, s: System)
    requires Agreeable(cs) && Inv(cs, s) && Live(s) && Started(s)
    ensures Keyless(s) == 0 <==> !KeyInFlight(s, A) && !KeyInFlight(s, B)
  {
  }

  function KeyArrivals(steps: seq<Step>): nat {
    if steps == [] then 0 else (if steps[0].act.KeyArrives? then 1 else 0) + KeyArrivals(steps[1..])
  }

  predicate AllSafe(cs: Configs, s: System, steps: seq<Step>)
    requires IsRun(cs, s, steps)
    decreases |steps|
  {
    steps != [] ==> IsSafe(cs, s, steps[0]) && AllSafe(cs, Next(cs, s, steps[0]), steps[1..])
  }

  lemma {:induction false} LosslessRun(cs: Configs, s: System, steps: seq<Step>)
    requires Agreeable(cs) && Inv(cs, s) && Live(s) && IsRun(cs, s, steps)
    requires forall i | 0 <= i < |steps| :: Lossless(steps[i])
    ensures var t := Run(cs, s, steps);
            && Inv(cs, t) && Live(t) && (Started(s) ==> Started(t))
            && KeyArrivals(steps) + Keyless(t) == Keyless(s)
            && (NoneGaveUp(t) <==> NoneGaveUp(s) && AllSafe(cs, s, steps))
    decreases |steps|
  {
    hide Next, Inv, Live, Started, Keyless, NoneGaveUp, IsSafe;
    if steps != [] {
      NextKeeps(cs, s, steps[0]);
      LosslessStep(cs, s, steps[0]);
      LosslessRun(cs, Next(cs, s, steps[0]), steps[1..]);
    }
  }

  /**
   If nothing is lost, at most two keys arrive.  Once either side has started, both sides are encrypted
   if and only if no key is left to arrive and every key that arrived found errors heard, or only chunks
   that had come in order and without repeats.
   */
  lemma {:induction false} HandshakeCompletesIff(cs: Configs, steps: seq<Step>)
    requires Agreeable(cs) && IsRun(cs, INITIAL, steps)
    requires forall i | 0 <= i < |steps| :: Lossless(steps[i])
    ensures var t := Run(cs, INITIAL, steps);
            && KeyArrivals(steps) <= 2
            && (Started(t) ==>
                  (t.a.peer.status == Encrypted && t.b.peer.status == Encrypted
                   <==> !KeyInFlight(t, A) && !KeyInFlight(t, B) && AllSafe(cs, INITIAL, steps)))
  {
    InitialOk(cs);
    LosslessRun(cs, INITIAL, steps);
    var t := Run(cs, INITIAL, steps);
    if Started(t) {
      KeyStaysInFlight(cs, t);
    }
    hide Run, AllSafe, KeyInFlight, IsRun;
  }

  // ---------------------------------------------------------------- a lossless run that gives up

  lemma RunsOn(cs: Configs, s: System, step: Step, steps: seq<Step>)
    requires StepEnabled(s, step) && IsRun(cs, Next(cs, s, step), steps)
    ensures IsRun(cs, s, [step] + steps) && Run(cs, s, [step] + steps) == Run(cs, Next(cs, s, step), steps)
  {
    hide Next, StepEnabled;
    assert ([step] + steps)[1..] == steps;
  }

  /** What B's one message, come twice, and then B's key do at A. */
  function TwiceThenKey(): seq<Step> {
    [Step(A, ChunkArrives(1))] + ([Step(A, ChunkArrives(1))] + ([Step(A, KeyArrives(0))] + []))
  }

  /** A starts, B answers and sends, and what B sent reaches A twice before B's key. */
  function TwiceEarly(x: Payload): seq<Step> {
    [Step(A, Starts)] + ([Step(B, KeyArrives(0))] + ([Step(B, Sends(x))] + TwiceThenKey()))
  }

  lemma OneSends(cs: Configs, x: Payload) returns (s3: System)
    requires Agreeable(cs)
    ensures IsRun(cs, s3, TwiceThenKey()) ==>
              IsRun(cs, INITIAL, TwiceEarly(x)) && Run(cs, INITIAL, TwiceEarly(x)) == Run(cs, s3, TwiceThenKey())
    ensures Inv(cs, s3) && HasQueued(s3, [])
  {
    var s1, s2 := BothStart(cs);
    s3 := Next(cs, s2, Step(B, Sends(x)));
    ThenSends(cs, s2, x);
    hide *;
    if IsRun(cs, s3, TwiceThenKey()) {
      SendsEnabled(s2, x);
      RunsOn(cs, s2, Step(B, Sends(x)), TwiceThenKey());
      RunsOn(cs, s1, Step(B, KeyArrives(0)), [Step(B, Sends(x))] + TwiceThenKey());
      RunsOn(cs, INITIAL, Step(A, Starts), [Step(B, KeyArrives(0))] + ([Step(B, Sends(x))] + TwiceThenKey()));
      TwiceEarlyIs(x);
    }
  }

  lemma TwiceEarlyIs(x: Payload)
    ensures TwiceEarly(x)
         == [Step(A, Starts)] + ([Step(B, KeyArrives(0))] + ([Step(B, Sends(x))] + TwiceThenKey()))
  {
  }

  /** A waits for B's key, and B is encrypted. */
  ghost predicate OneReady(s: System) {
    && s.a.peer.status == Handshake && s.a.peer.subscribed && s.a.peer.pending == [] && s.a.peer.cipher.None?
    && s.b.peer.status == Encrypted && s.b.peer.cipher.Some? && s.b.peer.cipher.value.sendCounter == 0
    && |s.b.peer.sent| == 1 && s.b.peer.sent[0].KeyExchange? && s.b.gone == {}
  }

  lemma BothStart(cs: Configs) returns (s1: System, s2: System)
    requires Agreeable(cs)
    ensures StepEnabled(INITIAL, Step(A, Starts)) && s1 == Next(cs, INITIAL, Step(A, Starts))
    ensures StepEnabled(s1, Step(B, KeyArrives(0))) && s2 == Next(cs, s1, Step(B, KeyArrives(0)))
    ensures Inv(cs, s2) && OneReady(s2)
  {
    s1 := Next(cs, INITIAL, Step(A, Starts));
    s2 := Next(cs, s1, Step(B, KeyArrives(0)));
    KeyFrame(cs.b, FRESH, Public(cs.a));
    InitialOk(cs);
    NextKeeps(cs, INITIAL, Step(A, Starts));
    NextKeeps(cs, s1, Step(B, KeyArrives(0)));
    hide Inv, HandleKeyExchange, Flushes, Taken;
  }

  lemma ThenSends(cs: Configs, s2: System, x: Payload)
    requires Agreeable(cs) && Inv(cs, s2) && OneReady(s2)
    ensures var s3 := Next(cs, s2, Step(B, Sends(x))); Inv(cs, s3) && HasQueued(s3, [])
  {
    NextKeeps(cs, s2, Step(B, Sends(x)));
    hide Inv;
  }

  lemma SendsEnabled(s: System, x: Payload)
    ensures StepEnabled(s, Step(B, Sends(x)))
  {
  }

  lemma ThenGivesUp(cs: Configs, s3: System)
    requires Agreeable(cs) && !cs.a.heard && Inv(cs, s3) && HasQueued(s3, [])
    ensures IsRun(cs, s3, TwiceThenKey())
    ensures Run(cs, s3, TwiceThenKey()).a.peer.status == Disconnected
  {
    hide Next, StepEnabled, Inv, IsRun, Run, KeyIsSafe, HasQueued;
    assert |s3.b.peer.sent| == 2 && s3.b.peer.sent[1].EncryptedMsg? by { QueuedIs(s3, []); }
    var chunk := s3.b.peer.sent[1].chunk;
    Queues(cs, s3, []);
    var s4 := Next(cs, s3, Step(A, ChunkArrives(1)));
    assert [] + [chunk] == [chunk] && [chunk] + [chunk] == [chunk, chunk];
    Queues(cs, s4, [chunk]);
    var s5 := Next(cs, s4, Step(A, ChunkArrives(1)));
    QueuedIs(s5, [chunk, chunk]);
    NotSafe(cs.a, s5.a.peer, chunk);
    KeyGivesUp(cs, s5);
    RunNothing(cs, Next(cs, s5, Step(A, KeyArrives(0))));
    RunsOn(cs, s5, Step(A, KeyArrives(0)), []);
    RunsOn(cs, s4, Step(A, ChunkArrives(1)), [Step(A, KeyArrives(0))] + []);
    RunsOn(cs, s3, Step(A, ChunkArrives(1)), [Step(A, ChunkArrives(1))] + ([Step(A, KeyArrives(0))] + []));
  }

  lemma QueuedIs(s: System, chunks: seq<Chunk>)
    requires HasQueued(s, chunks)
    ensures s.a.peer.pending == chunks && s.a.peer.subscribed
    ensures |s.b.peer.sent| == 2 && s.b.peer.sent[1].EncryptedMsg?
  {
  }

  lemma NotSafe(cfg: Config, p: Peer, chunk: Chunk)
    requires !cfg.heard && p.pending == [chunk, chunk]
    ensures !KeyIsSafe(cfg, p)
  {
    assert p.pending[1..] == [chunk] && !ClimbsFrom(CounterIn(chunk), [chunk]);
  }

  lemma RunNothing(cs: Configs, s: System)
    ensures IsRun(cs, s, []) && Run(cs, s, []) == s
  {
  }

  /** A waits for B's key with these chunks queued. */
  ghost predicate HasQueued(s: System, chunks: seq<Chunk>) {
    && s.a.peer.status == Handshake && s.a.peer.subscribed && s.a.peer.pending == chunks && s.a.peer.cipher.None?
    && |s.b.peer.sent| == 2 && s.b.peer.sent[0].KeyExchange? && s.b.peer.sent[1].EncryptedMsg? && s.b.gone == {}
  }

  lemma Queues(cs: Configs, s: System, chunks: seq<Chunk>)
    requires Agreeable(cs) && Inv(cs, s) && HasQueued(s, chunks)
    ensures StepEnabled(s, Step(A, ChunkArrives(1)))
    ensures var t := Next(cs, s, Step(A, ChunkArrives(1)));
            && Inv(cs, t) && HasQueued(t, chunks + [s.b.peer.sent[1].chunk]) && t.b == s.b
            && StepEnabled(t, Step(A, ChunkArrives(1))) && StepEnabled(t, Step(A, KeyArrives(0)))
  {
    NextKeeps(cs, s, Step(A, ChunkArrives(1)));
    hide Inv;
  }

  lemma KeyGivesUp(cs: Configs, s: System)
    requires Agreeable(cs) && Inv(cs, s) && StepEnabled(s, Step(A, KeyArrives(0))) && s.a.peer.subscribed
    requires !KeyIsSafe(cs.a, s.a.peer)
    ensures Next(cs, s, Step(A, KeyArrives(0))).a.peer.status == Disconnected
  {
    SharedKeySymmetric(cs);
    KeyIsFirst(cs.a, cs.b, s.a, s.b);
    KeyReaches(cs.a, cs.b, s.a, s.b);
    hide EndOk, HandleKeyExchange, Handle, KeyIsSafe;
  }

  /** Without any loss, one early message that comes twice makes an end that does not hear its errors give up. */
  lemma EarlyRepeatGivesUp(cs: Configs, x: Payload)
    requires Agreeable(cs) && !cs.a.heard
    ensures IsRun(cs, INITIAL, TwiceEarly(x)) && (forall i | 0 <= i < |TwiceEarly(x)| :: Lossless(TwiceEarly(x)[i]))
    ensures Run(cs, INITIAL, TwiceEarly(x)).a.peer.status == Disconnected
  {
    hide Run, IsRun, Inv, HasQueued;
    var s3 := OneSends(cs, x);
    ThenGivesUp(cs, s3);
  }
}
