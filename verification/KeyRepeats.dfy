/**
 What a repeated key exchange does to one peer: it rebuilds the cipher, so both counters start again.
 */
module RepeatedKeys {
  import opened Wrappers
  import opened Nonces
  import opened Ciphers
  import opened Peers

  // ---------------------------------------------------------------- any peer, whatever it hears

  datatype Event =
    | Hears(user: string, device: string, message: Message)
    | Begins
    | Says(payload: Payload)
    | Leaves

  function Step(cfg: Config, p: Peer, e: Event): Peer {
    match e
    case Hears(user, device, m) => Handle(cfg, p, user, device, m)
    case Begins => StartHandshake(cfg, p)
    case Says(payload) => Send(p, payload).0
    case Leaves => Disconnect(p)
  }

  function Run(cfg: Config, p: Peer, es: seq<Event>): Peer
    decreases |es|
  {
    if es == [] then p else Run(cfg, Step(cfg, p, es[0]), es[1..])
  }

  /** A logged message is the `n`-th chunk under its key. */
  predicate IsChunk(m: Message, key: Key, senderId: nat, n: nat) {
    && m.EncryptedMsg? && m.chunk.ciphertext.Sealed?
    && m.chunk.ciphertext.key == key && m.chunk.nonce == NonceOf(senderId, n)
  }

  ghost predicate HasFirst(sent: seq<Message>, key: Key, senderId: nat) {
    exists j :: 0 <= j < |sent| && IsChunk(sent[j], key, senderId, 0)
  }

  ghost predicate IsLogged(sent: seq<Message>, i: nat, senderId: nat)
    requires i < |sent|
  {
    sent[i].EncryptedMsg? ==> sent[i].chunk.ciphertext.Sealed? && HasFirst(sent, sent[i].chunk.ciphertext.key, senderId)
  }

  /** Every key that sealed a chunk sealed the one with counter zero. */
  ghost predicate LogOk(cfg: Config, p: Peer) {
    && (forall i | 0 <= i < |p.sent| :: IsLogged(p.sent, i, SenderId(cfg.role)))
    && (p.cipher.Some? ==>
          && p.cipher.value.senderId == SenderId(cfg.role)
          && (p.cipher.value.sendCounter > 0 ==> HasFirst(p.sent, p.cipher.value.key, SenderId(cfg.role))))
  }

  lemma FirstStays(sent: seq<Message>, m: Message, key: Key, senderId: nat)
    requires HasFirst(sent, key, senderId)
    ensures HasFirst(sent + [m], key, senderId)
  {
    var j :| 0 <= j < |sent| && IsChunk(sent[j], key, senderId, 0);
    assert IsChunk((sent + [m])[j], key, senderId, 0);
  }

  lemma LogGrows(sent: seq<Message>, m: Message, senderId: nat)
    requires forall i | 0 <= i < |sent| :: IsLogged(sent, i, senderId)
    requires m.EncryptedMsg? ==>
               && m.chunk.ciphertext.Sealed?
               && (HasFirst(sent, m.chunk.ciphertext.key, senderId) || IsChunk(m, m.chunk.ciphertext.key, senderId, 0))
    ensures forall i | 0 <= i <= |sent| :: IsLogged(sent + [m], i, senderId)
  {
    forall i | 0 <= i <= |sent|
      ensures IsLogged(sent + [m], i, senderId)
    {
      if i < |sent| {
        assert IsLogged(sent, i, senderId);
        if sent[i].EncryptedMsg? {
          FirstStays(sent, m, sent[i].chunk.ciphertext.key, senderId);
        }
      } else if m.EncryptedMsg? {
        var key := m.chunk.ciphertext.key;
        if HasFirst(sent, key, senderId) {
          FirstStays(sent, m, key, senderId);
        } else {
          assert IsChunk((sent + [m])[i], key, senderId, 0);
        }
      }
    }
  }

  lemma SendLogs(cfg: Config, p: Peer, payload: Payload)
    requires LogOk(cfg, p)
    ensures LogOk(cfg, Send(p, payload).0)
  {
    var q := Send(p, payload).0;
    if q != p {
      var m := q.sent[|p.sent|];
      LogGrows(p.sent, m, SenderId(cfg.role));
      if p.cipher.value.sendCounter > 0 {
        FirstStays(p.sent, m, p.cipher.value.key, SenderId(cfg.role));
      } else {
        assert IsChunk(q.sent[|p.sent|], p.cipher.value.key, SenderId(cfg.role), 0);
      }
    }
  }

  lemma StartLogs(cfg: Config, p: Peer)
    requires LogOk(cfg, p)
    ensures LogOk(cfg, StartHandshake(cfg, p))
  {
    LogGrows(p.sent, KeyExchange(Public(cfg)), SenderId(cfg.role));
    if p.cipher.Some? && p.cipher.value.sendCounter > 0 {
      FirstStays(p.sent, KeyExchange(Public(cfg)), p.cipher.value.key, SenderId(cfg.role));
    }
  }

  lemma KeyLogs(cfg: Config, p: Peer, der: string)
    requires LogOk(cfg, p)
    ensures LogOk(cfg, HandleKeyExchange(cfg, p, der))
  {
    StartLogs(cfg, p);
    if CreateCipher(cfg, der).Some? {
      KeyFrame(cfg, p, der);
    }
    hide IsLogged, HasFirst, Flushes, Taken, FlushPending, FlushThrows;
  }

  /** In every state a peer can reach, the log is as the next theorem needs it. */
  lemma {:induction false} RunLogs(cfg: Config, p: Peer, es: seq<Event>)
    requires LogOk(cfg, p)
    ensures LogOk(cfg, Run(cfg, p, es))
    decreases |es|
  {
    if es != [] {
      StepLogs(cfg, p, es[0]);
      hide Step, LogOk;
      RunLogs(cfg, Step(cfg, p, es[0]), es[1..]);
    }
  }

  lemma StepLogs(cfg: Config, p: Peer, e: Event)
    requires LogOk(cfg, p)
    ensures LogOk(cfg, Step(cfg, p, e))
  {
    hide HandleKeyExchange, StartHandshake, Send, IsLogged, HasFirst;
    match e
    case Hears(user, device, m) =>
      if m.KeyExchange? {
        KeyLogs(cfg, p, m.publicKey);
      }
    case Begins => StartLogs(cfg, p);
    case Says(payload) => SendLogs(cfg, p, payload);
    case Leaves =>
  }

  lemma FreshLogs(cfg: Config)
    ensures LogOk(cfg, FRESH)
  {
  }

  // ---------------------------------------------------------------- sending after another key

  /** One of the messages logged was sealed under this message's key and nonce. */
  ghost predicate Repeats(sent: seq<Message>, m: Message) {
    exists i :: 0 <= i < |sent| && SameSeal(sent[i], m)
  }

  predicate SameSeal(m: Message, n: Message) {
    && m.EncryptedMsg? && n.EncryptedMsg? && m.chunk.ciphertext.Sealed? && n.chunk.ciphertext.Sealed?
    && m.chunk.ciphertext.key == n.chunk.ciphertext.key && m.chunk.nonce == n.chunk.nonce
  }

  predicate SealedUnder(m: Message, key: Key) {
    m.EncryptedMsg? && m.chunk.ciphertext.Sealed? && m.chunk.ciphertext.key == key
  }

  /** What is sent next after a key exchange: nothing, if the flush was broken off. */
  lemma FirstAfterKey(cfg: Config, p: Peer, der: string, payload: Payload)
    requires p.subscribed && CreateCipher(cfg, der).Some?
    ensures var q := Handle(cfg, p, cfg.peerUser, cfg.peerDevice, KeyExchange(der));
            var (r, error) := Send(q, payload);
            var c := CreateCipher(cfg, der).value;
            && p.sent <= q.sent && (forall i | |p.sent| <= i < |q.sent| :: q.sent[i].KeyExchange?)
            && (error == None <==> Flushes(cfg, c, p.pending))
            && (error.Some? ==> r == q)
            && (error == None ==>
                  r.sent == q.sent + [EncryptedMsg(SentChunk(c.key, SenderId(cfg.role), 0, Json(payload)))])
  {
    KeyFrame(cfg, p, der);
    hide HandleKeyExchange, Flushes, Taken;
  }

  /**
   After any key exchange that imports, the next message goes out and repeats the key and nonce of a
   message already sent if and only if the queue flushes in full and some message already sent was
   sealed under the new key.
   */
  lemma NextRepeatsIff(cfg: Config, p: Peer, der: string, payload: Payload)
    requires LogOk(cfg, p) && p.subscribed && CreateCipher(cfg, der).Some?
    ensures var q := Handle(cfg, p, cfg.peerUser, cfg.peerDevice, KeyExchange(der));
            var (r, error) := Send(q, payload);
            && (error == None <==> Flushes(cfg, CreateCipher(cfg, der).value, p.pending))
            && (error == None ==> |r.sent| == |q.sent| + 1)
            && (error == None && Repeats(q.sent, r.sent[|q.sent|])
                <==> Flushes(cfg, CreateCipher(cfg, der).value, p.pending)
                     && exists i :: 0 <= i < |p.sent| && SealedUnder(p.sent[i], CreateCipher(cfg, der).value.key))
  {
    FirstAfterKey(cfg, p, der, payload);
    hide Handle, Send, CreateCipher, Flushes;
    var key := CreateCipher(cfg, der).value.key;
    var q := Handle(cfg, p, cfg.peerUser, cfg.peerDevice, KeyExchange(der));
    if Send(q, payload).1 == None {
      var m := Send(q, payload).0.sent[|q.sent|];
      if Repeats(q.sent, m) {
        var i :| 0 <= i < |q.sent| && SameSeal(q.sent[i], m);
        assert i < |p.sent| && SealedUnder(p.sent[i], key);
      }
      if i :| 0 <= i < |p.sent| && SealedUnder(p.sent[i], key) {
        assert IsLogged(p.sent, i, SenderId(cfg.role));
        var j :| 0 <= j < |p.sent| && IsChunk(p.sent[j], key, SenderId(cfg.role), 0);
        assert q.sent[j] == p.sent[j] && SameSeal(q.sent[j], m);
      }
    }
  }

  /** All that was sent so far was sealed under the present cipher's key. */
  ghost predicate OneKey(p: Peer) {
    && p.cipher.Some?
    && forall i | 0 <= i < |p.sent| :: p.sent[i].EncryptedMsg? ==> SealedUnder(p.sent[i], p.cipher.value.key)
  }

  /**
   A second key exchange makes the next message go out and repeat a key and nonce if and only if the
   queue, empty unless an earlier flush was broken off, flushes in full, the key is the one the peer
   already had, and something was sent under it.
   */
  lemma SecondKeyExchangeReusesNonceIff(cfg: Config, p: Peer, der: string, payload: Payload)
    requires LogOk(cfg, p) && p.subscribed && CreateCipher(cfg, der).Some? && OneKey(p)
    ensures var q := Handle(cfg, p, cfg.peerUser, cfg.peerDevice, KeyExchange(der));
            var (r, error) := Send(q, payload);
            && (error == None ==> |r.sent| == |q.sent| + 1)
            && (error == None && Repeats(q.sent, r.sent[|q.sent|])
                <==> Flushes(cfg, CreateCipher(cfg, der).value, p.pending)
                     && CreateCipher(cfg, der).value.key == p.cipher.value.key
                     && exists i :: 0 <= i < |p.sent| && p.sent[i].EncryptedMsg?)
  {
    NextRepeatsIff(cfg, p, der, payload);
    hide Handle, Send, CreateCipher, LogOk, Repeats, Flushes;
    if i :| 0 <= i < |p.sent| && p.sent[i].EncryptedMsg? {
      assert SealedUnder(p.sent[i], p.cipher.value.key);
    }
  }

  // ---------------------------------------------------------------- receiving after another key

  /**
   A chunk that the peer has already taken is refused.  After a second key exchange it is taken again
   if and only if that gives the key the peer already had and the flush of what was queued, if
   anything, took no counter as high; with an empty queue every counter is new.
   */
  lemma SecondKeyExchangeRepeatsDeliveryIff(cfg: Config, p: Peer, der: string, chunk: Chunk)
    requires p.subscribed && p.cipher.Some? && CreateCipher(cfg, der).Some?
    requires WellFormed(chunk) && Opens(p.cipher.value.key, chunk)
    requires CounterOf(chunk.nonce) <= p.cipher.value.lastReceived
    ensures Handle(cfg, p, cfg.peerUser, cfg.peerDevice, EncryptedMsg(chunk))
         == p.(notices := p.notices + [DecryptFailed(ReplayDetected)])
    ensures var q := Handle(cfg, p, cfg.peerUser, cfg.peerDevice, KeyExchange(der));
            var r := Handle(cfg, q, cfg.peerUser, cfg.peerDevice, EncryptedMsg(chunk));
            && q.cipher.Some? && (p.pending == [] ==> q.cipher.value.lastReceived == -1)
            && (r.notices == q.notices + [NoticeOf(Ok(chunk.ciphertext.plain))]
                <==> CreateCipher(cfg, der).value.key == p.cipher.value.key
                     && q.cipher.value.lastReceived < CounterOf(chunk.nonce))
  {
    KeyFrame(cfg, p, der);
    hide HandleKeyExchange, Flushes, Taken;
    var q := Handle(cfg, p, cfg.peerUser, cfg.peerDevice, KeyExchange(der));
    var got, wanted := NoticeOf(Decrypt(q.cipher.value, chunk).1), NoticeOf(Ok(chunk.ciphertext.plain));
    assert (q.notices + [got])[|q.notices|] == got && (q.notices + [wanted])[|q.notices|] == wanted;
  }
}
