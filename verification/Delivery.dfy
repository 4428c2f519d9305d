/**
 What a peer delivers to its listeners, whatever chunks arrive and wherever the key arrives among them.
 */
module Delivery {
  import opened Wrappers
  import opened Ciphers
  import opened Peers
  import opened Channel

  /** The payloads among the texts, leaving out what does not parse. */
  function PayloadsOf(texts: seq<Plaintext>): seq<Payload> {
    if texts == [] then []
    else (if texts[0].Json? then [texts[0].payload] else []) + PayloadsOf(texts[1..])
  }

  /** Emitting is receiving: the cipher advances as it does on its own, and its payloads go to the listeners. */
  lemma {:induction false} EmitsReceived(p: Peer, chunks: seq<Chunk>)
    requires p.cipher.Some?
    ensures var (c, texts) := Receive(p.cipher.value, chunks);
            var q := EmitAll(p, chunks);
            q.cipher == Some(c) && Received(q.notices) == Received(p.notices) + PayloadsOf(texts)
    decreases |chunks|
  {
    hide Received, Decrypt;
    if chunks == [] {
      assert Received(p.notices) + [] == Received(p.notices);
    } else {
      var (d, got) := Decrypt(p.cipher.value, chunks[0]);
      ReceivedAppend(p.notices, NoticeOf(got));
      EmitsReceived(DecryptAndEmit(p, chunks[0]), chunks[1..]);
      var rest := Receive(d, chunks[1..]).1;
      assert [] + rest == rest && [] + PayloadsOf(rest) == PayloadsOf(rest);
      assert got.Ok? ==> ([got.value] + rest)[1..] == rest;
      Associates(Received(p.notices), if got.Ok? && got.value.Json? then [got.value.payload] else [], PayloadsOf(rest));
    }
  }

  lemma Associates(a: seq<Payload>, b: seq<Payload>, c: seq<Payload>)
    ensures a + b + c == a + (b + c)
  {
  }

  /** Emitting two runs of chunks, with anything else changed in between. */
  lemma EmitsBoth(p: Peer, xs: seq<Chunk>, q: Peer, ys: seq<Chunk>)
    requires p.cipher.Some? && q.cipher == EmitAll(p, xs).cipher
    requires Received(q.notices) == Received(EmitAll(p, xs).notices)
    ensures Received(EmitAll(q, ys).notices)
         == Received(p.notices) + PayloadsOf(MaximaTexts(p.cipher.value.key, p.cipher.value.lastReceived, xs + ys))
  {
    hide Received, EmitAll, Receive, MaximaTexts;
    EmitsReceived(p, xs);
    EmitsReceived(q, ys);
    ReceiveAppend(p.cipher.value, xs, ys);
    DeliversMaxima(p.cipher.value, xs + ys);
    var got, more := Receive(p.cipher.value, xs).1, Receive(q.cipher.value, ys).1;
    PayloadsAppend(got, more);
    Associates(Received(p.notices), PayloadsOf(got), PayloadsOf(more));
  }

  lemma {:induction false} PayloadsAppend(a: seq<Plaintext>, b: seq<Plaintext>)
    ensures PayloadsOf(a + b) == PayloadsOf(a) + PayloadsOf(b)
  {
    if a == [] {
      assert a + b == b;
    } else {
      PayloadsAppend(a[1..], b);
      assert (a + b)[1..] == a[1..] + b;
    }
  }

  /**
   A peer that has delivered nothing yet delivers the payloads of the left-to-right maxima of the
   counters of the chunks it takes, and nothing else: those after its key, and of those before it the
   ones that the flush takes.
   */
  lemma PeerDeliversMaxima(cfg: Config, p: Peer, der: string, chunks: seq<Chunk>, i: nat)
    requires p.cipher.None? && p.subscribed && p.pending == [] && Received(p.notices) == []
    requires CreateCipher(cfg, der).Some? && i <= |chunks|
    ensures var q := Deliver(cfg, p, Wire(chunks[..i]) + [KeyExchange(der)] + Wire(chunks[i..]));
            var c := CreateCipher(cfg, der).value;
            var k := Taken(cfg.heard, c, chunks[..i]);
            Received(q.notices) == PayloadsOf(MaximaTexts(c.key, -1, chunks[..k] + chunks[i..]))
  {
    var c := CreateCipher(cfg, der).value;
    var k := Taken(cfg.heard, c, chunks[..i]);
    var queued := p.(pending := p.pending + chunks[..i]);
    var base := Rekeyed(cfg, queued, der).(pending := chunks[..i][k..]);
    assert queued.pending == chunks[..i] && chunks[..i][..k] == chunks[..k];
    assert c.lastReceived == -1;
    KeyBetween(cfg, p, der, chunks[..i], chunks[i..]);
    KeyThenFlush(cfg, queued, der);
    KeyFrame(cfg, queued, der);
    var late := HandleKeyExchange(cfg, queued, der);
    EmitsAll(cfg, late, chunks[i..]);
    ReceivedAppend(p.notices, Ready);
    ReceivedAppend(EmitAll(base, chunks[..k]).notices, CipherFailed);
    hide HandleKeyExchange, CreateCipher, Received, EmitAll, Deliver, MaximaTexts, Taken, Flushes;
    assert Received(p.notices) + [] == Received(p.notices);
    assert Received(EmitAll(base, chunks[..k]).notices) + [] == Received(EmitAll(base, chunks[..k]).notices);
    EmitsBoth(base, chunks[..k], late, chunks[i..]);
    var payloads := PayloadsOf(MaximaTexts(c.key, -1, chunks[..k] + chunks[i..]));
    assert [] + payloads == payloads;
  }

  /** If every chunk before the key opens, or errors are heard, those are the maxima of all that arrive. */
  lemma PeerDeliversAllMaxima(cfg: Config, p: Peer, der: string, chunks: seq<Chunk>, i: nat)
    requires p.cipher.None? && p.subscribed && p.pending == [] && Received(p.notices) == []
    requires CreateCipher(cfg, der).Some? && i <= |chunks| && Flushes(cfg, CreateCipher(cfg, der).value, chunks[..i])
    ensures var q := Deliver(cfg, p, Wire(chunks[..i]) + [KeyExchange(der)] + Wire(chunks[i..]));
            Received(q.notices) == PayloadsOf(MaximaTexts(CreateCipher(cfg, der).value.key, -1, chunks))
  {
    TakenAll(cfg.heard, CreateCipher(cfg, der).value, chunks[..i]);
    PeerDeliversMaxima(cfg, p, der, chunks, i);
    hide *;
    assert chunks[..i] + chunks[i..] == chunks;
  }
}
