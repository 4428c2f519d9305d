/**
 One end of the peer channel: the handshake, the queue for ciphertext that arrives before the key,
 and the encrypted traffic.  What goes to the network and to listeners is logged in order.
 */
module Peers {
  import opened Wrappers
  import opened Nonces
  import opened Ciphers

  /**
   The key agreement, uninterpreted: `point` makes public points of private keys, `encode` and
   `decode` are the wire form, `agree` is X25519 (section 6.1 of RFC 7748), `hkdf` the derivation
   of section 2 of RFC 5869.
   */
  datatype Primitives = Primitives(
    point: nat -> nat,
    encode: nat -> string,
    decode: string -> Option<nat>,
    agree: (nat, nat) -> nat,
    hkdf: nat -> Key)

  ghost predicate Laws(p: Primitives) {
    && (forall x: nat :: p.decode(p.encode(x)) == Some(x))
    && (forall a: nat, b: nat :: p.agree(a, p.point(b)) == p.agree(b, p.point(a)))
  }

  /**
   How a connection was made, and whether anyone listens for its `error` event: emitting that event
   when no one does throws.
   */
  datatype Config = Config(
    prim: Primitives, ownKey: nat, role: Role, peerUser: string, peerDevice: string, heard: bool)

  datatype Status = Connecting | Handshake | Encrypted | Disconnected

  datatype Message =
    | KeyExchange(publicKey: string)
    | EncryptedMsg(chunk: Chunk)
    | DisconnectMsg
    | Control(payload: Payload)

  /** Events for listeners; `Delivered` and `Announced` are one event, of an encrypted and a plain message. */
  datatype Notice =
    | Ready
    | Delivered(payload: Payload)
    | Announced(payload: Payload)
    | ParseFailed
    | DecryptFailed(error: Error)
    | CipherFailed
    | Close

  datatype Peer = Peer(
    status: Status,
    cipher: Option<Cipher>,
    peerKey: Option<string>,
    pending: seq<Chunk>,
    subscribed: bool,
    sent: seq<Message>,       // the handshake and the encrypted messages
    announced: seq<Payload>,  // what was sent unencrypted
    notices: seq<Notice>)

  const FRESH := Peer(Connecting, None, None, [], true, [], [], [])

  function Public(cfg: Config): string {
    cfg.prim.encode(cfg.prim.point(cfg.ownKey))
  }

  /** `createSessionCipher`; it throws when the key does not import. */
  function CreateCipher(cfg: Config, der: string): Option<Cipher> {
    match cfg.prim.decode(der)
    case None => None
    case Some(point) => Some(NewCipher(cfg.prim.hkdf(cfg.prim.agree(cfg.ownKey, point)), SenderId(cfg.role)))
  }

  function StartHandshake(cfg: Config, p: Peer): Peer {
    p.(status := Handshake, sent := p.sent + [KeyExchange(Public(cfg))])
  }

  function NoticeOf(got: Result<Plaintext, Error>): Notice {
    match got
    case Ok(Json(payload)) => Delivered(payload)
    case Ok(NotJson(_)) => ParseFailed
    case Err(e) => DecryptFailed(e)
  }

  function DecryptAndEmit(p: Peer, chunk: Chunk): Peer {
    if p.cipher.None? then p
    else
      var (c, got) := Decrypt(p.cipher.value, chunk);
      p.(cipher := Some(c), notices := p.notices + [NoticeOf(got)])
  }

  predicate IsFailure(n: Notice) {
    n.ParseFailed? || n.DecryptFailed? || n.CipherFailed?
  }

  /** Taking this chunk emits an error. */
  predicate Fails(c: Cipher, chunk: Chunk) {
    IsFailure(NoticeOf(Decrypt(c, chunk).1))
  }

  /** Empties the queue; an error that nobody hears leaves the loop, with the rest still queued. */
  function FlushPending(heard: bool, p: Peer): Peer
    decreases |p.pending|
  {
    if p.cipher.None? || p.pending == [] then p
    else
      var q := DecryptAndEmit(p.(pending := p.pending[1..]), p.pending[0]);
      if !heard && Fails(p.cipher.value, p.pending[0]) then q else FlushPending(heard, q)
  }

  predicate FlushThrows(heard: bool, p: Peer)
    decreases |p.pending|
  {
    if p.cipher.None? || p.pending == [] then false
    else
      (!heard && Fails(p.cipher.value, p.pending[0]))
      || FlushThrows(heard, DecryptAndEmit(p.(pending := p.pending[1..]), p.pending[0]))
  }

  /** The handler around the making of the cipher, which also catches what the flush throws. */
  function GiveUp(p: Peer): Peer {
    p.(status := Disconnected, notices := p.notices + [CipherFailed])
  }

  function FinalizeHandshake(cfg: Config, p: Peer, der: string): Peer {
    if p.status == Encrypted then p
    else
      match CreateCipher(cfg, der)
      case None => GiveUp(p)
      case Some(c) =>
        var q := p.(cipher := Some(c), status := Encrypted, notices := p.notices + [Ready]);
        if FlushThrows(cfg.heard, q) then GiveUp(FlushPending(cfg.heard, q)) else FlushPending(cfg.heard, q)
  }

  /** The peer once a key exchange has made its cipher, before it reads the queue. */
  function Rekeyed(cfg: Config, p: Peer, der: string): Peer {
    var started := if p.status == Handshake then p else StartHandshake(cfg, p);
    started.(peerKey := Some(der), cipher := CreateCipher(cfg, der), status := Encrypted,
             notices := p.notices + [Ready])
  }

  function HandleKeyExchange(cfg: Config, p: Peer, der: string): Peer {
    var q := p.(peerKey := Some(der));
    if q.status == Handshake then FinalizeHandshake(cfg, q, der)
    else FinalizeHandshake(cfg, StartHandshake(cfg, q), der)
  }

  function Disconnect(p: Peer): Peer {
    if p.status == Disconnected then p
    else p.(status := Disconnected, subscribed := false, notices := p.notices + [Close])
  }

  /** A message event of the network; only the peer's own messages count, and only while subscribed. */
  function Handle(cfg: Config, p: Peer, user: string, device: string, m: Message): Peer {
    if !Listens(cfg, p, user, device) then p
    else
      match m
      case KeyExchange(der) => HandleKeyExchange(cfg, p, der)
      case EncryptedMsg(chunk) =>
        if p.cipher.None? then p.(pending := p.pending + [chunk]) else DecryptAndEmit(p, chunk)
      case DisconnectMsg => Disconnect(p)
      case Control(payload) => p.(notices := p.notices + [Announced(payload)])
  }

  predicate Listens(cfg: Config, p: Peer, user: string, device: string) {
    p.subscribed && user == cfg.peerUser && device == cfg.peerDevice
  }

  /** Handling the message ends in an exception: it emits an error that nobody hears. */
  predicate Throws(cfg: Config, p: Peer, user: string, device: string, m: Message) {
    && Listens(cfg, p, user, device) && !cfg.heard
    && match m
       case KeyExchange(der) =>
         CreateCipher(cfg, der).None? || FlushThrows(false, Rekeyed(cfg, p, der))
       case EncryptedMsg(chunk) => p.cipher.Some? && Fails(p.cipher.value, chunk)
       case DisconnectMsg => false
       case Control(_) => false
  }

  /** Handling a message throws exactly if it ends in an error that nobody hears. */
  lemma ThrowsIff(cfg: Config, p: Peer, user: string, device: string, m: Message)
    ensures var notices := Handle(cfg, p, user, device, m).notices;
            Throws(cfg, p, user, device, m)
            <==> !cfg.heard && |p.notices| < |notices| && IsFailure(notices[|notices| - 1])
  {
    if m.KeyExchange? && Listens(cfg, p, user, device) {
      KeyThrowsIff(cfg, p, m.publicKey);
    }
    hide HandleKeyExchange, FlushThrows, CreateCipher, Decrypt;
  }

  lemma KeyThrowsIff(cfg: Config, p: Peer, der: string)
    ensures var notices := HandleKeyExchange(cfg, p, der).notices;
            && |p.notices| < |notices|
            && (!cfg.heard ==>
                  (CreateCipher(cfg, der).None? || FlushThrows(false, Rekeyed(cfg, p, der))
                   <==> IsFailure(notices[|notices| - 1])))
  {
    if CreateCipher(cfg, der).Some? {
      var q := Rekeyed(cfg, p, der);
      FlushNotes(cfg.heard, q);
      hide FlushPending, FlushThrows, CreateCipher;
    }
  }

  /** What a flush notes is more and more, and unless it throws or its errors are heard, no error. */
  lemma {:induction false} FlushNotes(heard: bool, p: Peer)
    ensures var notices := FlushPending(heard, p).notices;
            && |p.notices| <= |notices|
            && (!heard && !FlushThrows(heard, p) && p.notices != [] && !IsFailure(p.notices[|p.notices| - 1]) ==>
                  notices != [] && !IsFailure(notices[|notices| - 1]))
    decreases |p.pending|
  {
    if p.cipher.Some? && p.pending != [] {
      FlushNotes(heard, DecryptAndEmit(p.(pending := p.pending[1..]), p.pending[0]));
    }
  }

  datatype SendError = NotEncrypted | CipherError(error: Error)

  function Send(p: Peer, payload: Payload): (Peer, Option<SendError>) {
    if p.status != Encrypted || p.cipher.None? then (p, Some(NotEncrypted))
    else
      var (c, sent) := Encrypt(p.cipher.value, Json(payload));
      match sent
      case Err(e) => (p, Some(CipherError(e)))
      case Ok(chunk) => (p.(cipher := Some(c), sent := p.sent + [EncryptedMsg(chunk)]), None)
  }

  function SendUnencrypted(p: Peer, payload: Payload): Peer {
    p.(announced := p.announced + [payload])
  }

  /** A message can go out: the handshake is through, and there is a counter left. */
  predicate CanSend(p: Peer) {
    p.status == Encrypted && p.cipher.Some? && p.cipher.value.sendCounter < MAX_COUNTER
  }

  /**
   A message goes out exactly when it can, and then every receiver with that key that has taken no
   counter as high opens it to the payload that was given; otherwise nothing changes and the error says why.
   */
  lemma SendOpens(p: Peer, payload: Payload, receiver: Cipher)
    ensures var (q, error) := Send(p, payload);
            && (error == None <==> CanSend(p))
            && (error.Some? ==>
                  && q == p
                  && error.value == if p.status == Encrypted && p.cipher.Some? then CipherError(CounterTooLarge)
                                    else NotEncrypted)
            && (error == None ==>
                  && |q.sent| == |p.sent| + 1 && p.sent <= q.sent && q.sent[|p.sent|].EncryptedMsg?
                  && q == p.(cipher := q.cipher, sent := q.sent) && q.cipher.Some?
                  && q.cipher.value == p.cipher.value.(sendCounter := p.cipher.value.sendCounter + 1)
                  && (receiver.key == p.cipher.value.key && receiver.lastReceived < p.cipher.value.sendCounter ==>
                        Decrypt(receiver, q.sent[|p.sent|].chunk)
                        == (receiver.(lastReceived := p.cipher.value.sendCounter), Ok(Json(payload)))))
  {
    if CanSend(p) {
      CounterReadsBack(p.cipher.value.senderId, p.cipher.value.sendCounter);
    }
  }

  // ---------------------------------------------------------------- early ciphertext

  /** The peer's messages, handled in order. */
  function Deliver(cfg: Config, p: Peer, ms: seq<Message>): Peer
    decreases |ms|
  {
    if ms == [] then p
    else Deliver(cfg, Handle(cfg, p, cfg.peerUser, cfg.peerDevice, ms[0]), ms[1..])
  }

  function Wire(chunks: seq<Chunk>): (ms: seq<Message>)
    ensures |ms| == |chunks|
  {
    seq(|chunks|, i requires 0 <= i < |chunks| => EncryptedMsg(chunks[i]))
  }

  function EmitAll(p: Peer, chunks: seq<Chunk>): Peer
    decreases |chunks|
  {
    if chunks == [] then p else EmitAll(DecryptAndEmit(p, chunks[0]), chunks[1..])
  }

  lemma {:induction false} DeliverAppend(cfg: Config, p: Peer, ms: seq<Message>, ns: seq<Message>)
    ensures Deliver(cfg, p, ms + ns) == Deliver(cfg, Deliver(cfg, p, ms), ns)
    decreases |ms|
  {
    hide Handle;
    if ms == [] {
      assert ms + ns == ns;
    } else {
      DeliverAppend(cfg, Handle(cfg, p, cfg.peerUser, cfg.peerDevice, ms[0]), ms[1..], ns);
      assert (ms + ns)[1..] == ms[1..] + ns;
    }
  }

  lemma {:induction false} EmitAppend(p: Peer, xs: seq<Chunk>, ys: seq<Chunk>)
    ensures EmitAll(p, xs + ys) == EmitAll(EmitAll(p, xs), ys)
    decreases |xs|
  {
    hide DecryptAndEmit;
    if xs == [] {
      assert xs + ys == ys;
    } else {
      EmitAppend(DecryptAndEmit(p, xs[0]), xs[1..], ys);
      assert (xs + ys)[1..] == xs[1..] + ys;
    }
  }

  lemma {:induction false} BufferAll(cfg: Config, p: Peer, xs: seq<Chunk>)
    requires p.cipher.None? && p.subscribed
    ensures Deliver(cfg, p, Wire(xs)) == p.(pending := p.pending + xs)
    decreases |xs|
  {
    if xs == [] {
      assert p.pending + xs == p.pending;
    } else {
      BufferAll(cfg, p.(pending := p.pending + [xs[0]]), xs[1..]);
      assert Wire(xs)[1..] == Wire(xs[1..]);
      assert (p.pending + [xs[0]]) + xs[1..] == p.pending + xs;
    }
  }

  lemma {:induction false} EmitsAll(cfg: Config, p: Peer, xs: seq<Chunk>)
    requires p.cipher.Some? && p.subscribed
    ensures Deliver(cfg, p, Wire(xs)) == EmitAll(p, xs)
    decreases |xs|
  {
    if xs != [] {
      EmitsAll(cfg, DecryptAndEmit(p, xs[0]), xs[1..]);
      assert Wire(xs)[1..] == Wire(xs[1..]);
    }
  }

  /** How many of the chunks a flush takes: all of them, or those up to the first unheard failure. */
  function Taken(heard: bool, c: Cipher, chunks: seq<Chunk>): (k: nat)
    ensures k <= |chunks|
    decreases |chunks|
  {
    if chunks == [] then 0
    else if !heard && Fails(c, chunks[0]) then 1
    else Taken(heard, Decrypt(c, chunks[0]).0, chunks[1..]) + 1
  }

  /** Each of the chunks in turn opens, and parses. */
  predicate AllOpen(c: Cipher, chunks: seq<Chunk>)
    decreases |chunks|
  {
    chunks == [] || (!Fails(c, chunks[0]) && AllOpen(Decrypt(c, chunks[0]).0, chunks[1..]))
  }

  lemma {:induction false} TakenAll(heard: bool, c: Cipher, chunks: seq<Chunk>)
    requires heard || AllOpen(c, chunks)
    ensures Taken(heard, c, chunks) == |chunks|
    decreases |chunks|
  {
    hide Fails, Decrypt;
    if chunks != [] {
      TakenAll(heard, Decrypt(c, chunks[0]).0, chunks[1..]);
    }
  }

  lemma {:induction false} AllOpenAppend(c: Cipher, xs: seq<Chunk>, ys: seq<Chunk>)
    ensures AllOpen(c, xs + ys) ==> AllOpen(c, xs)
    ensures !AllOpen(c, xs) ==> Taken(false, c, xs + ys) == Taken(false, c, xs)
    decreases |xs|
  {
    hide Fails, Decrypt;
    if xs != [] {
      AllOpenAppend(Decrypt(c, xs[0]).0, xs[1..], ys);
      assert (xs + ys)[1..] == xs[1..] + ys;
    }
  }

  /** A flush handles the chunks it takes as if they arrived one by one, and throws unless it may take all. */
  lemma {:induction false} FlushEmits(heard: bool, p: Peer)
    requires p.cipher.Some?
    ensures var k := Taken(heard, p.cipher.value, p.pending);
            FlushPending(heard, p) == EmitAll(p.(pending := p.pending[k..]), p.pending[..k])
    ensures FlushThrows(heard, p) <==> !heard && !AllOpen(p.cipher.value, p.pending)
    decreases |p.pending|
  {
    if p.pending != [] {
      var k := Taken(heard, p.cipher.value, p.pending);
      var q := DecryptAndEmit(p.(pending := p.pending[1..]), p.pending[0]);
      FlushEmits(heard, q);
      hide Fails, Decrypt;
      if !heard && Fails(p.cipher.value, p.pending[0]) {
        assert p.pending[..1] == [p.pending[0]] && [p.pending[0]][1..] == [];
        assert EmitAll(q, []) == q;
      } else {
        assert p.pending[..k][1..] == p.pending[1..][..k - 1] && p.pending[k..] == p.pending[1..][k - 1..];
      }
    }
  }

  lemma {:induction false} EmitFrame(p: Peer, xs: seq<Chunk>)
    ensures EmitAll(p, xs) == p.(cipher := EmitAll(p, xs).cipher, notices := EmitAll(p, xs).notices)
    ensures EmitAll(p, xs).cipher.Some? == p.cipher.Some?
    ensures p.cipher.Some? ==>
              EmitAll(p, xs).cipher.value == p.cipher.value.(lastReceived := EmitAll(p, xs).cipher.value.lastReceived)
    decreases |xs|
  {
    if xs != [] {
      EmitFrame(DecryptAndEmit(p, xs[0]), xs[1..]);
    }
  }

  /** The queue is taken in full, so the flush does not throw. */
  predicate Flushes(cfg: Config, c: Cipher, chunks: seq<Chunk>) {
    cfg.heard || AllOpen(c, chunks)
  }

  /** What a key exchange does, in any state. */
  lemma KeyThenFlush(cfg: Config, p: Peer, der: string)
    ensures p.subscribed ==> Deliver(cfg, p, [KeyExchange(der)]) == HandleKeyExchange(cfg, p, der)
    ensures HandleKeyExchange(cfg, p, der) ==
              match CreateCipher(cfg, der)
              case None =>
                GiveUp((if p.status == Handshake then p else StartHandshake(cfg, p)).(peerKey := Some(der)))
              case Some(c) =>
                var k := Taken(cfg.heard, c, p.pending);
                var q := EmitAll(Rekeyed(cfg, p, der).(pending := p.pending[k..]), p.pending[..k]);
                if Flushes(cfg, c, p.pending) then q else GiveUp(q)
  {
    if CreateCipher(cfg, der).Some? {
      FlushEmits(cfg.heard, Rekeyed(cfg, p, der));
    }
    hide AllOpen, Taken, EmitAll, FlushPending, FlushThrows, CreateCipher;
    assert [KeyExchange(der)][1..] == [];
  }

  /** Wherever the key arrives, the chunks before it wait and those after it are taken as they come. */
  lemma KeyBetween(cfg: Config, p: Peer, der: string, xs: seq<Chunk>, ys: seq<Chunk>)
    requires p.cipher.None? && p.subscribed
    ensures Deliver(cfg, p, Wire(xs) + [KeyExchange(der)] + Wire(ys))
         == Deliver(cfg, HandleKeyExchange(cfg, p.(pending := p.pending + xs), der), Wire(ys))
  {
    hide Deliver, HandleKeyExchange;
    DeliverAppend(cfg, p, Wire(xs) + [KeyExchange(der)], Wire(ys));
    DeliverAppend(cfg, p, Wire(xs), [KeyExchange(der)]);
    BufferAll(cfg, p, xs);
    KeyThenFlush(cfg, p.(pending := p.pending + xs), der);
  }

  /**
   Early ciphertext is transparent, the whole state afterwards being as if the key had arrived first,
   if and only if none arrived early, the key does not import, errors are heard, or every chunk in the
   queue opens.
   */
  lemma EarlyCiphertextIff(cfg: Config, p: Peer, der: string, xs: seq<Chunk>, ys: seq<Chunk>)
    requires p.cipher.None? && p.subscribed
    ensures Deliver(cfg, p, Wire(xs) + [KeyExchange(der)] + Wire(ys))
         == Deliver(cfg, p, [KeyExchange(der)] + Wire(xs + ys))
       <==> xs == [] || CreateCipher(cfg, der).None? || Flushes(cfg, CreateCipher(cfg, der).value, p.pending + xs)
  {
    KeyBetween(cfg, p, der, xs, ys);
    KeyBetween(cfg, p, der, [], xs + ys);
    assert p.pending + [] == p.pending && Wire([]) + [KeyExchange(der)] == [KeyExchange(der)];
    var queued := p.(pending := p.pending + xs);
    hide Deliver, Flushes;
    if xs == [] {
      assert queued == p && xs + ys == ys;
    } else if CreateCipher(cfg, der).None? {
      NoKeyEither(cfg, p, der, xs, ys);
    } else {
      KeyThenFlush(cfg, p, der);
      KeyThenFlush(cfg, queued, der);
      var first, late := HandleKeyExchange(cfg, p, der), HandleKeyExchange(cfg, queued, der);
      KeyFrame(cfg, p, der);
      KeyFrame(cfg, queued, der);
      hide HandleKeyExchange;
      EmitsAll(cfg, first, xs + ys);
      EmitsAll(cfg, late, ys);
      if Flushes(cfg, CreateCipher(cfg, der).value, p.pending + xs) {
        SameAfterFlush(cfg, p, der, xs, ys);
      } else {
        OtherAfterFlush(cfg, p, der, xs);
        EmitFrame(first, xs + ys);
        EmitFrame(late, ys);
      }
    }
  }

  /** What a key exchange that imports leaves of a peer, in any state. */
  lemma KeyFrame(cfg: Config, p: Peer, der: string)
    requires CreateCipher(cfg, der).Some?
    ensures var q, c := HandleKeyExchange(cfg, p, der), CreateCipher(cfg, der).value;
            && q.cipher.Some?
            && q == Rekeyed(cfg, p, der).(status := if Flushes(cfg, c, p.pending) then Encrypted else Disconnected,
                                          cipher := Some(c.(lastReceived := q.cipher.value.lastReceived)),
                                          pending := p.pending[Taken(cfg.heard, c, p.pending)..],
                                          notices := q.notices)
            && (Flushes(cfg, c, p.pending) ==> q.pending == [])
            && (p.pending == [] ==> q.cipher == Some(c) && q.notices == p.notices + [Ready])
  {
    KeyThenFlush(cfg, p, der);
    var c := CreateCipher(cfg, der).value;
    var k := Taken(cfg.heard, c, p.pending);
    EmitFrame(Rekeyed(cfg, p, der).(pending := p.pending[k..]), p.pending[..k]);
    if Flushes(cfg, c, p.pending) {
      TakenAll(cfg.heard, c, p.pending);
    }
    assert p.pending == [] ==> p.pending[..k] == [] && AllOpen(c, p.pending);
    hide HandleKeyExchange, CreateCipher, AllOpen, Taken;
  }

  lemma NoKeyEither(cfg: Config, p: Peer, der: string, xs: seq<Chunk>, ys: seq<Chunk>)
    requires p.cipher.None? && p.subscribed && CreateCipher(cfg, der).None?
    ensures Deliver(cfg, HandleKeyExchange(cfg, p.(pending := p.pending + xs), der), Wire(ys))
         == Deliver(cfg, HandleKeyExchange(cfg, p, der), Wire(xs + ys))
  {
    hide Deliver;
    BufferAll(cfg, HandleKeyExchange(cfg, p, der), xs + ys);
    BufferAll(cfg, HandleKeyExchange(cfg, p.(pending := p.pending + xs), der), ys);
    assert (p.pending + xs) + ys == p.pending + (xs + ys);
  }

  lemma SameAfterFlush(cfg: Config, p: Peer, der: string, xs: seq<Chunk>, ys: seq<Chunk>)
    requires p.cipher.None? && p.subscribed && CreateCipher(cfg, der).Some?
    requires Flushes(cfg, CreateCipher(cfg, der).value, p.pending + xs)
    ensures EmitAll(HandleKeyExchange(cfg, p.(pending := p.pending + xs), der), ys)
         == EmitAll(HandleKeyExchange(cfg, p, der), xs + ys)
  {
    var c, queue, queued := CreateCipher(cfg, der).value, p.pending + xs, p.(pending := p.pending + xs);
    AllOpenAppend(c, p.pending, xs);
    TakenAll(cfg.heard, c, p.pending);
    TakenAll(cfg.heard, c, queue);
    KeyThenFlush(cfg, p, der);
    KeyThenFlush(cfg, queued, der);
    hide HandleKeyExchange, CreateCipher, EmitAll, AllOpen, Taken;
    var base := Rekeyed(cfg, p, der).(pending := []);
    assert Rekeyed(cfg, queued, der).(pending := []) == base;
    assert p.pending[|p.pending|..] == [] && p.pending[..|p.pending|] == p.pending;
    assert queue[|queue|..] == [] && queue[..|queue|] == queue;
    EmitAppend(base, p.pending, xs);
    EmitAppend(EmitAll(base, p.pending), xs, ys);
  }

  lemma OtherAfterFlush(cfg: Config, p: Peer, der: string, xs: seq<Chunk>)
    requires p.cipher.None? && p.subscribed && CreateCipher(cfg, der).Some? && xs != []
    requires !Flushes(cfg, CreateCipher(cfg, der).value, p.pending + xs)
    ensures var first, late := HandleKeyExchange(cfg, p, der), HandleKeyExchange(cfg, p.(pending := p.pending + xs), der);
            first.status != late.status || |first.pending| != |late.pending|
  {
    AllOpenAppend(CreateCipher(cfg, der).value, p.pending, xs);
    KeyFrame(cfg, p, der);
    KeyFrame(cfg, p.(pending := p.pending + xs), der);
    hide HandleKeyExchange, CreateCipher, AllOpen, Taken;
  }

  /**
   So two positions of the key among the encrypted messages lead to the same state if and only if they
   are one, the key does not import, errors are heard, or every chunk before the later one opens.
   */
  lemma KeyPositionIff(cfg: Config, p: Peer, der: string, chunks: seq<Chunk>, i: nat, j: nat)
    requires p.cipher.None? && p.subscribed && i <= j <= |chunks|
    ensures Deliver(cfg, p, Wire(chunks[..i]) + [KeyExchange(der)] + Wire(chunks[i..]))
         == Deliver(cfg, p, Wire(chunks[..j]) + [KeyExchange(der)] + Wire(chunks[j..]))
       <==> i == j || CreateCipher(cfg, der).None?
            || Flushes(cfg, CreateCipher(cfg, der).value, p.pending + chunks[..j])
  {
    hide *;
    var p', xs, ys := p.(pending := p.pending + chunks[..i]), chunks[i..j], chunks[j..];
    KeyBetween(cfg, p, der, chunks[..i], chunks[i..]);
    KeyBetween(cfg, p, der, chunks[..j], chunks[j..]);
    KeyBetween(cfg, p', der, [], chunks[i..]);
    KeyBetween(cfg, p', der, xs, ys);
    assert p'.pending + [] == p'.pending && p'.pending + xs == p.pending + chunks[..j] && xs + ys == chunks[i..];
    assert Wire([]) + [KeyExchange(der)] == [KeyExchange(der)];
    EarlyCiphertextIff(cfg, p', der, xs, ys);
  }
}

module PeerConnections {
  import opened Wrappers
  import C = Ciphers
  import S = SessionCiphers
  import P = Peers

  class PeerConnection {
    const cfg: P.Config
    var status: P.Status
    var cipher: S.SessionCipher?
    var peerPublicKey: Option<string>
    var pendingEncrypted: seq<C.Chunk>
    var subscribed: bool
    var sent: seq<P.Message>       // calls of network.sendToPeer, and
    var announced: seq<C.Payload>  // those of sendUnencrypted
    var notices: seq<P.Notice>     // events emitted to listeners

    ghost function Repr(): set<object>
      reads this
    {
      {this} + if cipher == null then {} else {cipher}
    }

    ghost predicate Valid()
      reads Repr()
    {
      cipher != null ==> cipher.Valid()
    }

    ghost function View(): P.Peer
      reads Repr()
    {
      P.Peer(status, if cipher == null then None else Some(cipher.View()), peerPublicKey,
             pendingEncrypted, subscribed, sent, announced, notices)
    }

    constructor (cfg: P.Config)
      ensures Valid() && fresh(Repr()) && View() == P.FRESH
      ensures this.cfg == cfg
    {
      this.cfg := cfg;
      status, cipher, peerPublicKey := P.Connecting, null, None;
      pendingEncrypted, subscribed, sent, announced, notices := [], true, [], [], [];
    }

    // A method that can end in an exception says so by `threw`.

    method HandleEnvelope(user: string, device: string, m: P.Message) returns (threw: bool)
      requires Valid()
      modifies Repr()
      ensures Valid() && fresh(Repr() - old(Repr()))
      ensures View() == P.Handle(cfg, old(View()), user, device, m)
      ensures threw == P.Throws(cfg, old(View()), user, device, m)
    {
      threw := false;
      if !subscribed || user != cfg.peerUser || device != cfg.peerDevice {
        return;
      }
      match m
      case KeyExchange(der) => threw := HandleKeyExchange(der);
      case EncryptedMsg(chunk) =>
        if cipher == null {
          pendingEncrypted := pendingEncrypted + [chunk];
        } else {
          threw := DecryptAndEmit(chunk);
        }
      case DisconnectMsg => Disconnect();
      case Control(payload) => notices := notices + [P.Announced(payload)];
    }

    method StartHandshake()
      requires Valid()
      modifies this
      ensures Valid() && cipher == old(cipher)
      ensures View() == P.StartHandshake(cfg, old(View()))
    {
      status := P.Handshake;
      sent := sent + [P.KeyExchange(P.Public(cfg))];
    }

    method HandleKeyExchange(der: string) returns (threw: bool)
      requires Valid()
      modifies Repr()
      ensures Valid() && fresh(Repr() - old(Repr()))
      ensures View() == P.HandleKeyExchange(cfg, old(View()), der)
      ensures threw <==> !cfg.heard && (P.CreateCipher(cfg, der).None?
                                        || P.FlushThrows(false, P.Rekeyed(cfg, old(View()), der)))
    {
      hide P.FlushPending, P.FlushThrows;
      peerPublicKey := Some(der);
      if status == P.Handshake {
        threw := FinalizeHandshake(der);
      } else {
        StartHandshake();
        threw := FinalizeHandshake(der);
      }
    }

    method FinalizeHandshake(der: string) returns (threw: bool)
      requires Valid()
      modifies Repr()
      ensures Valid() && fresh(Repr() - old(Repr()))
      ensures View() == P.FinalizeHandshake(cfg, old(View()), der)
      ensures threw <==> !cfg.heard && old(status) != P.Encrypted
                         && (P.CreateCipher(cfg, der).None?
                             || P.FlushThrows(false, old(View()).(
                                  cipher := P.CreateCipher(cfg, der), status := P.Encrypted,
                                  notices := old(notices) + [P.Ready])))
    {
      hide P.FlushPending, P.FlushThrows;
      if status == P.Encrypted {
        return false;
      }
      var caught := false;
      var point := cfg.prim.decode(der);
      match point {
        case None => caught := true;
        case Some(p) =>
          cipher := new S.SessionCipher(cfg.prim.hkdf(cfg.prim.agree(cfg.ownKey, p)), C.SenderId(cfg.role));
          status := P.Encrypted;
          notices := notices + [P.Ready];
          caught := FlushPendingEncrypted();
      }
      if caught {
        status := P.Disconnected;
        notices := notices + [P.CipherFailed];
      }
      return caught && !cfg.heard;
    }

    method FlushPendingEncrypted() returns (threw: bool)
      requires Valid()
      modifies Repr()
      ensures Valid() && cipher == old(cipher)
      ensures View() == P.FlushPending(cfg.heard, old(View()))
      ensures threw == P.FlushThrows(cfg.heard, old(View()))
      ensures threw ==> !cfg.heard
    {
      while cipher != null && pendingEncrypted != []
        invariant Valid() && cipher == old(cipher)
        invariant P.FlushPending(cfg.heard, View()) == P.FlushPending(cfg.heard, old(View()))
        invariant P.FlushThrows(cfg.heard, View()) == P.FlushThrows(cfg.heard, old(View()))
        decreases |pendingEncrypted|
      {
        var chunk := pendingEncrypted[0];
        pendingEncrypted := pendingEncrypted[1..];
        var thrown := DecryptAndEmit(chunk);
        if thrown {
          return true;
        }
      }
      return false;
    }

    method DecryptAndEmit(chunk: C.Chunk) returns (threw: bool)
      requires Valid()
      modifies Repr()
      ensures Valid() && cipher == old(cipher)
      ensures View() == P.DecryptAndEmit(old(View()), chunk)
      ensures threw <==> cipher != null && !cfg.heard && P.Fails(old(View()).cipher.value, chunk)
    {
      if cipher == null {
        return false;
      }
      var got := cipher.Decrypt(chunk);
      notices := notices + [P.NoticeOf(got)];
      return P.IsFailure(P.NoticeOf(got)) && !cfg.heard;
    }

    method Send(payload: C.Payload) returns (error: Option<P.SendError>)
      requires Valid()
      modifies Repr()
      ensures Valid() && cipher == old(cipher)
      ensures (View(), error) == P.Send(old(View()), payload)
    {
      if status != P.Encrypted || cipher == null {
        return Some(P.NotEncrypted);
      }
      var encrypted := cipher.Encrypt(C.Json(payload));
      if encrypted.Err? {
        return Some(P.CipherError(encrypted.error));
      }
      sent := sent + [P.EncryptedMsg(encrypted.value)];
      return None;
    }

    method SendUnencrypted(payload: C.Payload)
      requires Valid()
      modifies this`announced
      ensures Valid() && cipher == old(cipher)
      ensures View() == P.SendUnencrypted(old(View()), payload)
    {
      announced := announced + [payload];
    }

    method Disconnect()
      requires Valid()
      modifies this
      ensures Valid() && cipher == old(cipher)
      ensures View() == P.Disconnect(old(View()))
    {
      if status == P.Disconnected {
        return;
      }
      status := P.Disconnected;
      subscribed := false;
      notices := notices + [P.Close];
    }
  }
}
