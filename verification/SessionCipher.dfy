/**
 The session cipher: nonce counters on the sending side, replay protection on the receiving side.
 AES-GCM is ideal: a sealed text opens under the key and nonce it was sealed with, and nothing else opens.
 */
module Ciphers {
  import opened Wrappers
  import opened Nonces

  type Key = nat

  datatype Payload = Payload(kind: string, body: string)

  /** `JSON.stringify` and `JSON.parse` as ideal inverses; other text does not parse. */
  datatype Plaintext = Json(payload: Payload) | NotJson(text: string)

  /** What decodes from Base64: the output of the cipher, or any other bytes. */
  datatype Ciphertext =
    | Sealed(key: Key, nonce: seq<Byte>, plain: Plaintext)
    | Junk(length: nat)

  datatype Chunk = Chunk(ciphertext: Ciphertext, nonce: seq<Byte>)

  datatype Error = InvalidNonceLength | CiphertextTooShort | ReplayDetected | AuthenticationFailed | CounterTooLarge

  datatype Role = Host | Guest

  const TAG_BYTES := 16

  function SenderId(role: Role): nat {
    match role
    case Host => 1
    case Guest => 2
  }

  datatype Cipher = Cipher(key: Key, senderId: nat, sendCounter: nat, lastReceived: int)

  function NewCipher(key: Key, senderId: nat): Cipher {
    Cipher(key, senderId, 0, -1)
  }

  /** The chunk with number `n` of the sender `senderId`. */
  function SentChunk(key: Key, senderId: nat, n: nat, plain: Plaintext): Chunk {
    Chunk(Sealed(key, NonceOf(senderId, n), plain), NonceOf(senderId, n))
  }

  function Encrypt(c: Cipher, plain: Plaintext): (Cipher, Result<Chunk, Error>) {
    if c.sendCounter >= MAX_COUNTER then (c, Err(CounterTooLarge))
    else (c.(sendCounter := c.sendCounter + 1), Ok(SentChunk(c.key, c.senderId, c.sendCounter, plain)))
  }

  predicate TooShort(ct: Ciphertext) {
    ct.Junk? && ct.length < TAG_BYTES
  }

  predicate WellFormed(chunk: Chunk) {
    |chunk.nonce| == NONCE_BYTES && !TooShort(chunk.ciphertext)
  }

  predicate Opens(key: Key, chunk: Chunk) {
    chunk.ciphertext.Sealed? && chunk.ciphertext.key == key && chunk.ciphertext.nonce == chunk.nonce
  }

  /** The received counter moves before the tag is checked, so it moves for forged chunks too. */
  function Decrypt(c: Cipher, chunk: Chunk): (Cipher, Result<Plaintext, Error>) {
    if |chunk.nonce| != NONCE_BYTES then (c, Err(InvalidNonceLength))
    else if TooShort(chunk.ciphertext) then (c, Err(CiphertextTooShort))
    else
      var counter := CounterOf(chunk.nonce);
      if counter <= c.lastReceived then (c, Err(ReplayDetected))
      else
        (c.(lastReceived := counter),
         if Opens(c.key, chunk) then Ok(chunk.ciphertext.plain) else Err(AuthenticationFailed))
  }

  /** Each error comes exactly when its check is the first to fail, and only a new counter moves the received one. */
  lemma DecryptIff(c: Cipher, chunk: Chunk)
    ensures var (d, got) := Decrypt(c, chunk);
            var isNew := WellFormed(chunk) && CounterOf(chunk.nonce) > c.lastReceived;
            && (got.Ok? <==> isNew && Opens(c.key, chunk)) && (got.Ok? ==> got.value == chunk.ciphertext.plain)
            && (got == Err(AuthenticationFailed) <==> isNew && !Opens(c.key, chunk))
            && (got == Err(ReplayDetected) <==> WellFormed(chunk) && !isNew)
            && (got == Err(CiphertextTooShort) <==> |chunk.nonce| == NONCE_BYTES && !WellFormed(chunk))
            && (got == Err(InvalidNonceLength) <==> |chunk.nonce| != NONCE_BYTES)
            && d == if isNew then c.(lastReceived := CounterOf(chunk.nonce)) else c
  {
  }

  // ---------------------------------------------------------------- a stream of arriving chunks

  /** Decrypt the chunks in order, keeping what decrypts. */
  function Receive(c: Cipher, chunks: seq<Chunk>): (Cipher, seq<Plaintext>)
    decreases |chunks|
  {
    if chunks == [] then (c, [])
    else
      var (d, got) := Decrypt(c, chunks[0]);
      var (e, rest) := Receive(d, chunks[1..]);
      (e, (if got.Ok? then [got.value] else []) + rest)
  }

  /** Chunk `i` has a counter above `last` and above that of every well-formed chunk before it. */
  ghost predicate IsMaximum(last: int, chunks: seq<Chunk>, i: nat)
    requires i < |chunks|
  {
    && WellFormed(chunks[i])
    && last < CounterOf(chunks[i].nonce)
    && forall j | 0 <= j < i && WellFormed(chunks[j]) :: CounterOf(chunks[j].nonce) < CounterOf(chunks[i].nonce)
  }

  /** The texts of the left-to-right maxima, in order, leaving out what does not open. */
  ghost function MaximaTexts(key: Key, last: int, chunks: seq<Chunk>): seq<Plaintext> {
    if chunks == [] then []
    else
      var n := |chunks| - 1;
      MaximaTexts(key, last, chunks[..n])
      + if IsMaximum(last, chunks, n) && Opens(key, chunks[n]) then [chunks[n].ciphertext.plain] else []
  }

  lemma {:induction false} ReceiveAppend(c: Cipher, xs: seq<Chunk>, ys: seq<Chunk>)
    ensures var (d, got) := Receive(c, xs);
            var (e, more) := Receive(d, ys);
            Receive(c, xs + ys) == (e, got + more)
    decreases |xs|
  {
    if xs == [] {
      assert xs + ys == ys;
      assert [] + Receive(c, ys).1 == Receive(c, ys).1;
    } else {
      var (d, first) := Decrypt(c, xs[0]);
      ReceiveAppend(d, xs[1..], ys);
      assert (xs + ys)[1..] == xs[1..] + ys;
      var (e, got) := Receive(d, xs[1..]);
      var head := if first.Ok? then [first.value] else [];
      assert head + (got + Receive(e, ys).1) == (head + got) + Receive(e, ys).1;
    }
  }

  lemma ReceiveLast(c: Cipher, chunks: seq<Chunk>)
    requires chunks != []
    ensures var n := |chunks| - 1;
            var (d, got) := Receive(c, chunks[..n]);
            var (e, last) := Decrypt(d, chunks[n]);
            Receive(c, chunks) == (e, got + if last.Ok? then [last.value] else [])
  {
    var n := |chunks| - 1;
    ReceiveAppend(c, chunks[..n], chunks[n..]);
    assert chunks[..n] + chunks[n..] == chunks;
    var d := Receive(c, chunks[..n]).0;
    var (e, last) := Decrypt(d, chunks[n]);
    assert chunks[n..] == [chunks[n]];
    assert Receive(e, chunks[n..][1..]) == (e, []);
    var tail := if last.Ok? then [last.value] else [];
    assert Receive(d, chunks[n..]) == (e, tail + []);
    assert tail + [] == tail;
  }

  /** The last received counter is the greatest well-formed counter so far. */
  ghost predicate IsHighest(last: int, chunks: seq<Chunk>, high: int) {
    && last <= high
    && (forall i | 0 <= i < |chunks| && WellFormed(chunks[i]) :: CounterOf(chunks[i].nonce) <= high)
    && (high == last || exists i :: 0 <= i < |chunks| && WellFormed(chunks[i]) && CounterOf(chunks[i].nonce) == high)
  }

  /**
   For every sequence of arriving chunks, duplicated, reordered, dropped or forged: what is
   delivered is exactly the left-to-right maxima of the counters that also open.
   */
  lemma {:induction false} DeliversMaxima(c: Cipher, chunks: seq<Chunk>)
    ensures Receive(c, chunks).1 == MaximaTexts(c.key, c.lastReceived, chunks)
    ensures Receive(c, chunks).0 == c.(lastReceived := Receive(c, chunks).0.lastReceived)
    ensures IsHighest(c.lastReceived, chunks, Receive(c, chunks).0.lastReceived)
  {
    if chunks != [] {
      var n := |chunks| - 1;
      DeliversMaxima(c, chunks[..n]);
      ReceiveLast(c, chunks);
      var d := Receive(c, chunks[..n]).0;
      assert forall j | 0 <= j < n :: chunks[..n][j] == chunks[j];
      if WellFormed(chunks[n]) {
        assert CounterOf(chunks[n].nonce) > d.lastReceived <==> IsMaximum(c.lastReceived, chunks, n);
      }
    }
  }

  // ---------------------------------------------------------------- chunks from one honest sender

  /** The chunk is one the sender produced: number `n` of its texts, `n` being its counter. */
  ghost predicate FromSender(key: Key, senderId: nat, texts: seq<Plaintext>, chunk: Chunk) {
    && WellFormed(chunk)
    && CounterOf(chunk.nonce) < |texts|
    && chunk == SentChunk(key, senderId, CounterOf(chunk.nonce), texts[CounterOf(chunk.nonce)])
  }

  lemma SentIsFromSender(key: Key, senderId: nat, texts: seq<Plaintext>, n: nat)
    requires n < |texts| && n < MAX_COUNTER
    ensures FromSender(key, senderId, texts, SentChunk(key, senderId, n, texts[n]))
    ensures CounterOf(SentChunk(key, senderId, n, texts[n]).nonce) == n
  {
    CounterReadsBack(senderId, n);
  }

  ghost predicate Increasing(idx: seq<nat>, low: int, bound: nat) {
    && (forall i | 0 <= i < |idx| :: low < idx[i] < bound)
    && (forall i, j | 0 <= i < j < |idx| :: idx[i] < idx[j])
  }

  function Pick<T>(items: seq<T>, idx: seq<nat>): seq<T>
    requires forall i | 0 <= i < |idx| :: idx[i] < |items|
  {
    seq(|idx|, i requires 0 <= i < |idx| => items[idx[i]])
  }

  /** The counters of the left-to-right maxima. */
  ghost function MaximaCounters(last: int, chunks: seq<Chunk>): seq<nat> {
    if chunks == [] then []
    else
      var n := |chunks| - 1;
      MaximaCounters(last, chunks[..n])
      + if IsMaximum(last, chunks, n) then [CounterOf(chunks[n].nonce)] else []
  }

  ghost predicate Carries(chunks: seq<Chunk>, k: nat) {
    exists i :: 0 <= i < |chunks| && WellFormed(chunks[i]) && CounterOf(chunks[i].nonce) == k
  }

  lemma {:induction false} MaximaIncrease(last: int, chunks: seq<Chunk>, bound: nat)
    requires forall i | 0 <= i < |chunks| && WellFormed(chunks[i]) :: CounterOf(chunks[i].nonce) < bound
    ensures Increasing(MaximaCounters(last, chunks), last, bound)
    ensures forall m | 0 <= m < |MaximaCounters(last, chunks)| :: Carries(chunks, MaximaCounters(last, chunks)[m])
  {
    if chunks != [] {
      var n := |chunks| - 1;
      MaximaIncrease(last, chunks[..n], bound);
      var before := MaximaCounters(last, chunks[..n]);
      forall m | 0 <= m < |before|
        ensures Carries(chunks, before[m])
        ensures IsMaximum(last, chunks, n) ==> before[m] < CounterOf(chunks[n].nonce)
      {
        var i :| 0 <= i < n && WellFormed(chunks[..n][i]) && CounterOf(chunks[..n][i].nonce) == before[m];
        assert chunks[i] == chunks[..n][i];
      }
      assert IsMaximum(last, chunks, n) ==> Carries(chunks, CounterOf(chunks[n].nonce));
    }
  }

  lemma {:induction false} MaximaArePicked(
      key: Key, senderId: nat, last: int, texts: seq<Plaintext>, chunks: seq<Chunk>)
    requires forall i | 0 <= i < |chunks| :: FromSender(key, senderId, texts, chunks[i])
    ensures Increasing(MaximaCounters(last, chunks), last, |texts|)
    ensures MaximaTexts(key, last, chunks) == Pick(texts, MaximaCounters(last, chunks))
  {
    MaximaIncrease(last, chunks, |texts|);
    if chunks != [] {
      var n := |chunks| - 1;
      MaximaArePicked(key, senderId, last, texts, chunks[..n]);
      assert FromSender(key, senderId, texts, chunks[n]);
      PickAppend(texts, MaximaCounters(last, chunks[..n]), CounterOf(chunks[n].nonce));
    }
  }

  lemma PickAppend<T>(items: seq<T>, idx: seq<nat>, k: nat)
    requires k < |items| && forall i | 0 <= i < |idx| :: idx[i] < |items|
    ensures Pick(items, idx + [k]) == Pick(items, idx) + [items[k]]
  {
  }

  /**
   When every arriving chunk comes from the sender, in any order and any number of times, the
   delivered texts are the sender's texts at strictly increasing positions: a subsequence of what
   was sent, in order, each at most once.
   */
  lemma DeliversSubsequence(c: Cipher, senderId: nat, texts: seq<Plaintext>, chunks: seq<Chunk>)
    requires forall i | 0 <= i < |chunks| :: FromSender(c.key, senderId, texts, chunks[i])
    ensures Increasing(MaximaCounters(c.lastReceived, chunks), c.lastReceived, |texts|)
    ensures Receive(c, chunks).1 == Pick(texts, MaximaCounters(c.lastReceived, chunks))
  {
    MaximaArePicked(c.key, senderId, c.lastReceived, texts, chunks);
    DeliversMaxima(c, chunks);
  }

  /** The sender's first `count` chunks, in order. */
  function InOrder(key: Key, senderId: nat, texts: seq<Plaintext>, count: nat): seq<Chunk>
    requires count <= |texts|
  {
    if count == 0 then []
    else InOrder(key, senderId, texts, count - 1) + [SentChunk(key, senderId, count - 1, texts[count - 1])]
  }

  /** Over a loss-free network in order, what is delivered is exactly what was sent so far. */
  lemma {:induction false} InOrderDeliversAll(key: Key, senderId: nat, own: nat, texts: seq<Plaintext>, count: nat)
    requires count <= |texts| && count <= MAX_COUNTER
    ensures var (c, got) := Receive(NewCipher(key, own), InOrder(key, senderId, texts, count));
            c == NewCipher(key, own).(lastReceived := count - 1) && got == texts[..count]
  {
    if count > 0 {
      InOrderDeliversAll(key, senderId, own, texts, count - 1);
      var chunks := InOrder(key, senderId, texts, count);
      assert chunks[..|chunks| - 1] == InOrder(key, senderId, texts, count - 1);
      ReceiveLast(NewCipher(key, own), chunks);
      CounterReadsBack(senderId, count - 1);
      assert texts[..count] == texts[..count - 1] + [texts[count - 1]];
    }
  }

  // ---------------------------------------------------------------- the sending side

  /** Encrypt the texts in order, keeping what was sent. */
  function SendAll(c: Cipher, texts: seq<Plaintext>): (Cipher, seq<Chunk>)
    decreases |texts|
  {
    if texts == [] then (c, [])
    else
      var (d, sent) := Encrypt(c, texts[0]);
      var (e, rest) := SendAll(d, texts[1..]);
      (e, (if sent.Ok? then [sent.value] else []) + rest)
  }

  /** How many of `n` texts the counters left suffice for. */
  function Room(c: Cipher, n: nat): nat {
    if c.sendCounter >= MAX_COUNTER then 0
    else if n <= MAX_COUNTER - c.sendCounter then n
    else MAX_COUNTER - c.sendCounter
  }

  /**
   Round trip: whatever texts are encrypted, as many as there are counters for, a receiver with that key
   that has taken no counter as high gets them all, as they were and in order.
   */
  lemma {:induction false} SentArrives(c: Cipher, receiver: Cipher, texts: seq<Plaintext>)
    requires receiver.key == c.key && receiver.lastReceived < c.sendCounter
    ensures var (d, chunks) := SendAll(c, texts);
            && d == c.(sendCounter := c.sendCounter + Room(c, |texts|)) && |chunks| == Room(c, |texts|)
            && Receive(receiver, chunks).1 == texts[..Room(c, |texts|)]
    decreases |texts|
  {
    if texts != [] {
      var d := Encrypt(c, texts[0]).0;
      var rest := SendAll(d, texts[1..]).1;
      var n := Room(d, |texts| - 1);
      SendsFirst(c, texts);
      if c.sendCounter >= MAX_COUNTER {
        SentArrives(c, receiver, texts[1..]);
        hide SendAll, Receive;
        assert [] + rest == rest;
      } else {
        FirstArrives(c, receiver, texts[0], rest);
        SentArrives(d, receiver.(lastReceived := c.sendCounter), texts[1..]);
        hide SendAll, Receive, SentChunk;
        assert texts[..n + 1] == [texts[0]] + texts[1..][..n];
      }
    }
  }

  lemma FirstArrives(c: Cipher, receiver: Cipher, text: Plaintext, rest: seq<Chunk>)
    requires receiver.key == c.key && receiver.lastReceived < c.sendCounter < MAX_COUNTER
    ensures var chunk := SentChunk(c.key, c.senderId, c.sendCounter, text);
            Receive(receiver, [chunk] + rest).1
            == [text] + Receive(receiver.(lastReceived := c.sendCounter), rest).1
  {
    CounterReadsBack(c.senderId, c.sendCounter);
    var chunk := SentChunk(c.key, c.senderId, c.sendCounter, text);
    assert ([chunk] + rest)[1..] == rest;
  }

  /** The chunks carry consecutive nonces of one sender, from `first` on. */
  ghost predicate Numbered(chunks: seq<Chunk>, senderId: nat, first: nat) {
    forall i | 0 <= i < |chunks| ::
      first + i < MAX_COUNTER && chunks[i].nonce == NonceOf(senderId, first + i)
  }

  lemma {:induction false} SentIsNumbered(c: Cipher, texts: seq<Plaintext>)
    ensures Numbered(SendAll(c, texts).1, c.senderId, c.sendCounter)
    decreases |texts|
  {
    if texts != [] {
      var (d, sent) := Encrypt(c, texts[0]);
      SentIsNumbered(d, texts[1..]);
      var rest := SendAll(d, texts[1..]).1;
      hide SendAll;
      if sent.Err? {
        assert [] + rest == rest;
      } else {
        NumberedFrom(sent.value, rest, c.senderId, c.sendCounter);
      }
      SendsFirst(c, texts);
    }
  }

  lemma SendsFirst(c: Cipher, texts: seq<Plaintext>)
    requires texts != []
    ensures var (d, sent) := Encrypt(c, texts[0]);
            && SendAll(c, texts).0 == SendAll(d, texts[1..]).0
            && SendAll(c, texts).1 == (if sent.Ok? then [sent.value] else []) + SendAll(d, texts[1..]).1
  {
  }

  lemma NumberedFrom(chunk: Chunk, rest: seq<Chunk>, senderId: nat, first: nat)
    requires first < MAX_COUNTER && chunk.nonce == NonceOf(senderId, first)
    requires Numbered(rest, senderId, first + 1)
    ensures Numbered([chunk] + rest, senderId, first)
  {
    forall i | 0 < i <= |rest|
      ensures first + i < MAX_COUNTER && ([chunk] + rest)[i].nonce == NonceOf(senderId, first + i)
    {
      assert ([chunk] + rest)[i] == rest[i - 1];
    }
  }

  lemma NumberedApart(xs: seq<Chunk>, a: nat, ys: seq<Chunk>, b: nat, i: nat, j: nat)
    requires a < 0x1_0000_0000 && b < 0x1_0000_0000
    requires Numbered(xs, a, 0) && Numbered(ys, b, 0) && i < |xs| && j < |ys|
    ensures xs[i].nonce == ys[j].nonce <==> a == b && i == j
  {
    assert xs[i].nonce == NonceOf(a, 0 + i) && ys[j].nonce == NonceOf(b, 0 + j);
    NonceInjective(a, i, b, j);
  }

  /** The two roles' ciphers never use one nonce twice, whatever each encrypts and however often. */
  lemma NoncesNeverRepeat(key: Key, sent: seq<Plaintext>, answered: seq<Plaintext>)
    ensures var host := SendAll(NewCipher(key, SenderId(Host)), sent).1;
            var guest := SendAll(NewCipher(key, SenderId(Guest)), answered).1;
            && (forall i, j | 0 <= i < |host| && 0 <= j < |host| && i != j :: host[i].nonce != host[j].nonce)
            && (forall i, j | 0 <= i < |guest| && 0 <= j < |guest| && i != j :: guest[i].nonce != guest[j].nonce)
            && (forall i, j | 0 <= i < |host| && 0 <= j < |guest| :: host[i].nonce != guest[j].nonce)
  {
    hide SendAll, Numbered;
    SentIsNumbered(NewCipher(key, SenderId(Host)), sent);
    SentIsNumbered(NewCipher(key, SenderId(Guest)), answered);
    var host := SendAll(NewCipher(key, SenderId(Host)), sent).1;
    var guest := SendAll(NewCipher(key, SenderId(Guest)), answered).1;
    forall i, j | 0 <= i < |host| && 0 <= j < |host| && i != j
      ensures host[i].nonce != host[j].nonce
    {
      NumberedApart(host, 1, host, 1, i, j);
    }
    forall i, j | 0 <= i < |guest| && 0 <= j < |guest| && i != j
      ensures guest[i].nonce != guest[j].nonce
    {
      NumberedApart(guest, 2, guest, 2, i, j);
    }
    forall i, j | 0 <= i < |host| && 0 <= j < |guest|
      ensures host[i].nonce != guest[j].nonce
    {
      NumberedApart(host, 1, guest, 2, i, j);
    }
  }
}

module SessionCiphers {
  import opened Wrappers
  import opened Nonces
  import opened C = Ciphers

  class SessionCipher {
    const key: Key
    const senderId: nat
    var sendCounter: nat
    const senderPrefix: seq<Byte>
    var lastReceivedCounter: int

    ghost predicate Valid()
      reads this
    {
      senderPrefix == BigEndian(senderId, 4)
    }

    function View(): Cipher
      reads this
    {
      Cipher(key, senderId, sendCounter, lastReceivedCounter)
    }

    constructor (key: Key, senderId: nat)
      ensures Valid() && View() == NewCipher(key, senderId)
    {
      this.key, this.senderId := key, senderId;
      this.senderPrefix := BigEndian(senderId, 4);
      this.sendCounter, this.lastReceivedCounter := 0, -1;
    }

    method BuildNonce(counter: nat) returns (nonce: array<Byte>)
      requires Valid() && counter < MAX_COUNTER
      ensures fresh(nonce) && nonce[..] == NonceOf(senderId, counter)
    {
      nonce := new Byte[NONCE_BYTES];
      forall i | 0 <= i < 4 {
        nonce[i] := senderPrefix[i];
      }
      var bytes := BigEndian(counter, 8);
      forall i | 4 <= i < 12 {
        nonce[i] := bytes[i - 4];
      }
    }

    method Encrypt(plain: Plaintext) returns (reply: Result<Chunk, Error>)
      requires Valid()
      modifies this`sendCounter
      ensures Valid()
      ensures (View(), reply) == C.Encrypt(old(View()), plain)
    {
      if sendCounter >= MAX_COUNTER {
        return Err(CounterTooLarge);
      }
      var nonce := BuildNonce(sendCounter);
      sendCounter := sendCounter + 1;
      return Ok(Chunk(Sealed(key, nonce[..], plain), nonce[..]));
    }

    method Decrypt(chunk: Chunk) returns (reply: Result<Plaintext, Error>)
      requires Valid()
      modifies this`lastReceivedCounter
      ensures Valid()
      ensures (View(), reply) == C.Decrypt(old(View()), chunk)
    {
      if |chunk.nonce| != NONCE_BYTES {
        return Err(InvalidNonceLength);
      }
      if TooShort(chunk.ciphertext) {
        return Err(CiphertextTooShort);
      }
      var counter := ReadBigEndian(chunk.nonce[4..12]);
      if counter <= lastReceivedCounter {
        return Err(ReplayDetected);
      }
      lastReceivedCounter := counter;
      if !Opens(key, chunk) {
        return Err(AuthenticationFailed);
      }
      return Ok(chunk.ciphertext.plain);
    }
  }
}
