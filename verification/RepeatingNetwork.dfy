/**
 Two peers over a network that may also repeat a KEY_EXCHANGE: when nonces still differ, and when
 each message is still delivered at most once.
 */
module RepeatingNetwork {
  import opened Wrappers
  import opened Nonces
  import opened Ciphers
  import opened Peers
  import opened Channel
  import opened RepeatedKeys

  // ---------------------------------------------------------------- the system

  datatype Occurrence = Of(act: Action) | KeyRepeats(index: nat)

  predicate Possible(me: End, other: End, e: Occurrence) {
    match e
    case Of(act) => Enabled(me, other, act)
    case KeyRepeats(i) => i < |other.peer.sent| && other.peer.sent[i].KeyExchange?
  }

  function Perform(cfg: Config, me: End, other: End, e: Occurrence): (End, End)
    requires Possible(me, other, e)
  {
    match e
    case Of(act) => Act(cfg, me, other, act)
    case KeyRepeats(i) =>
      (me.(peer := Handle(cfg, me.peer, cfg.peerUser, cfg.peerDevice, other.peer.sent[i])), other)
  }

  /**
   Which of the other end's messages wait in the queue and which were delivered, by their places in
   its log; `since` of the deliveries were made before the present cipher.
   */
  datatype Trail = Trail(waiting: seq<nat>, got: seq<nat>, since: nat)

  const NO_TRAIL := Trail([], [], 0)

  /** What a flush delivers of the queue: an error that nobody hears ends it. */
  function FlushGot(heard: bool, c: Cipher, theirs: seq<Message>, waiting: seq<nat>): seq<nat>
    requires AreChunks(theirs, waiting)
    decreases |waiting|
  {
    if waiting == [] then []
    else
      var (d, r) := Decrypt(c, theirs[waiting[0]].chunk);
      if r.Ok? then [waiting[0]] + FlushGot(heard, d, theirs, waiting[1..])
      else if heard then FlushGot(heard, d, theirs, waiting[1..])
      else []
  }

  /** What it leaves queued. */
  function FlushLeft(heard: bool, c: Cipher, theirs: seq<Message>, waiting: seq<nat>): seq<nat>
    requires AreChunks(theirs, waiting)
    decreases |waiting|
  {
    if waiting == [] then []
    else
      var (d, r) := Decrypt(c, theirs[waiting[0]].chunk);
      if r.Ok? || heard then FlushLeft(heard, d, theirs, waiting[1..]) else waiting[1..]
  }

  predicate AreChunks(theirs: seq<Message>, places: seq<nat>) {
    forall k | 0 <= k < |places| :: places[k] < |theirs| && theirs[places[k]].EncryptedMsg?
  }

  function KeyTrail(cfg: Config, me: End, other: End, t: Trail, i: nat): Trail
    requires i < |other.peer.sent| && other.peer.sent[i].KeyExchange?
  {
    var c := CreateCipher(cfg, other.peer.sent[i].publicKey);
    if !me.peer.subscribed || c.None? || !AreChunks(other.peer.sent, t.waiting) then t
    else
      Trail(FlushLeft(cfg.heard, c.value, other.peer.sent, t.waiting),
            t.got + FlushGot(cfg.heard, c.value, other.peer.sent, t.waiting), |t.got|)
  }

  function NextTrail(cfg: Config, me: End, other: End, t: Trail, e: Occurrence): Trail
    requires Possible(me, other, e)
  {
    match e
    case KeyRepeats(i) => KeyTrail(cfg, me, other, t, i)
    case Of(KeyArrives(i)) => KeyTrail(cfg, me, other, t, i)
    case Of(ChunkArrives(i)) =>
      if !me.peer.subscribed then t
      else if me.peer.cipher.None? then t.(waiting := t.waiting + [i])
      else if Decrypt(me.peer.cipher.value, other.peer.sent[i].chunk).1.Ok? then t.(got := t.got + [i])
      else t
    case Of(_) => t
  }

  datatype State = State(sys: System, a: Trail, b: Trail)

  const START := State(INITIAL, NO_TRAIL, NO_TRAIL)

  datatype Move = Move(side: Side, event: Occurrence)

  function TrailOf(s: State, side: Side): Trail {
    if side == A then s.a else s.b
  }

  predicate CanStep(s: State, step: Move) {
    Possible(Me(s.sys, step.side), Other(s.sys, step.side), step.event)
  }

  function After(cs: Configs, s: State, step: Move): State
    requires CanStep(s, step)
  {
    var cfg, me, other := ConfigOf(cs, step.side), Me(s.sys, step.side), Other(s.sys, step.side);
    var (me', other') := Perform(cfg, me, other, step.event);
    var t := NextTrail(cfg, me, other, TrailOf(s, step.side), step.event);
    State(With(s.sys, step.side, me', other'),
          if step.side == A then t else s.a, if step.side == B then t else s.b)
  }

  predicate IsRepeatingRun(cs: Configs, s: State, steps: seq<Move>)
    decreases |steps|
  {
    steps != [] ==> CanStep(s, steps[0]) && IsRepeatingRun(cs, After(cs, s, steps[0]), steps[1..])
  }

  function RunAll(cs: Configs, s: State, steps: seq<Move>): State
    requires IsRepeatingRun(cs, s, steps)
    decreases |steps|
  {
    if steps == [] then s else RunAll(cs, After(cs, s, steps[0]), steps[1..])
  }

  // ---------------------------------------------------------------- the log of an end

  /** How many chunks were sent since the last key exchange before place `i`. */
  function Since(sent: seq<Message>, i: nat): (n: nat)
    requires i <= |sent|
    ensures n <= i
  {
    if i == 0 || sent[i - 1].KeyExchange? then 0 else Since(sent, i - 1) + 1
  }

  ghost predicate EntryOk(cfg: Config, peer: Config, sent: seq<Message>, i: nat)
    requires i < |sent|
  {
    if sent[i].KeyExchange? then sent[i] == KeyExchange(Public(cfg))
    else
      && IsJson(sent[i]) && Since(sent, i) < MAX_COUNTER
      && sent[i] == EncryptedMsg(SentChunk(SharedKey(cfg, peer), SenderId(cfg.role), Since(sent, i),
                                           sent[i].chunk.ciphertext.plain))
  }

  ghost predicate LogForm(cfg: Config, peer: Config, sent: seq<Message>) {
    && (sent != [] ==> sent[0].KeyExchange?)
    && forall i | 0 <= i < |sent| :: EntryOk(cfg, peer, sent, i)
  }

  /** Only an end that does not hear its errors gives up, or has chunks queued beside a cipher. */
  ghost predicate StateForm(cfg: Config, peer: Config, p: Peer) {
    && (p.status == Connecting ==> p.sent == [] && p.cipher.None?)
    && (p.status == Handshake ==> |p.sent| == 1 && p.cipher.None?)
    && (p.status == Encrypted ==> p.cipher.Some? && p.pending == [])
    && (!p.subscribed ==> p.status == Disconnected)
    && (p.subscribed && p.status == Disconnected ==> p.cipher.Some? && !cfg.heard)
    && (p.cipher.Some? ==> CipherForm(cfg, peer, p) && (cfg.heard ==> p.pending == []))
  }

  ghost predicate CipherForm(cfg: Config, peer: Config, p: Peer)
    requires p.cipher.Some?
  {
    && p.sent != [] && p.cipher.value.lastReceived >= -1
    && p.cipher.value == NewCipher(SharedKey(cfg, peer), SenderId(cfg.role)).(
         sendCounter := Since(p.sent, |p.sent|), lastReceived := p.cipher.value.lastReceived)
  }

  lemma {:induction false} SinceStays(sent: seq<Message>, more: seq<Message>, i: nat)
    requires i <= |sent|
    ensures Since(sent + more, i) == Since(sent, i)
  {
    if i > 0 {
      SinceStays(sent, more, i - 1);
      assert (sent + more)[i - 1] == sent[i - 1];
    }
  }

  lemma EntryStays(cfg: Config, peer: Config, sent: seq<Message>, m: Message, i: nat)
    requires i < |sent| && EntryOk(cfg, peer, sent, i)
    ensures EntryOk(cfg, peer, sent + [m], i)
  {
    SinceStays(sent, [m], i);
    assert (sent + [m])[i] == sent[i];
  }

  lemma LogAppends(cfg: Config, peer: Config, sent: seq<Message>, m: Message)
    requires LogForm(cfg, peer, sent)
    requires m == KeyExchange(Public(cfg))
          || (sent != [] && IsJson(m) && Since(sent, |sent|) < MAX_COUNTER
              && m == EncryptedMsg(SentChunk(SharedKey(cfg, peer), SenderId(cfg.role), Since(sent, |sent|),
                                             m.chunk.ciphertext.plain)))
    ensures LogForm(cfg, peer, sent + [m])
    ensures Since(sent + [m], |sent| + 1) == if m.KeyExchange? then 0 else Since(sent, |sent|) + 1
  {
    var now := sent + [m];
    LastEntry(cfg, peer, sent, m);
    hide EntryOk, SharedKey, Since, IsJson, SentChunk, Public;
    forall i | 0 <= i < |sent|
      ensures EntryOk(cfg, peer, now, i)
    {
      EntryStays(cfg, peer, sent, m, i);
    }
    assert sent != [] ==> now[0] == sent[0];
  }

  lemma LastEntry(cfg: Config, peer: Config, sent: seq<Message>, m: Message)
    requires m == KeyExchange(Public(cfg))
          || (IsJson(m) && Since(sent, |sent|) < MAX_COUNTER
              && m == EncryptedMsg(SentChunk(SharedKey(cfg, peer), SenderId(cfg.role), Since(sent, |sent|),
                                             m.chunk.ciphertext.plain)))
    ensures EntryOk(cfg, peer, sent + [m], |sent|)
    ensures Since(sent + [m], |sent| + 1) == if m.KeyExchange? then 0 else Since(sent, |sent|) + 1
  {
    SinceLast(sent, m);
    hide Since, SentChunk, SharedKey, Public, SenderId;
    assert (sent + [m])[|sent|] == m;
  }

  lemma SinceLast(sent: seq<Message>, m: Message)
    ensures Since(sent + [m], |sent|) == Since(sent, |sent|)
    ensures Since(sent + [m], |sent| + 1) == if m.KeyExchange? then 0 else Since(sent, |sent|) + 1
  {
    var now := sent + [m];
    SinceStays(sent, [m], |sent|);
    assert now[|sent|] == m;
    assert Since(now, |sent| + 1) == if now[|sent|].KeyExchange? then 0 else Since(now, |sent|) + 1;
  }

  // ---------------------------------------------------------------- nonces

  /** No two chunks of the log have one nonce. */
  ghost predicate NoncesDiffer(sent: seq<Message>) {
    forall i, j | 0 <= i < j < |sent| && sent[i].EncryptedMsg? && sent[j].EncryptedMsg? ::
      sent[i].chunk.nonce != sent[j].chunk.nonce
  }

  /** No key exchange stands between two chunks. */
  ghost predicate Unbroken(sent: seq<Message>) {
    forall i, j, k | 0 <= i < j < k < |sent| && sent[i].EncryptedMsg? && sent[k].EncryptedMsg? ::
      !sent[j].KeyExchange?
  }

  lemma {:induction false} SinceGrows(sent: seq<Message>, i: nat, j: nat)
    requires i <= j <= |sent| && forall k | i <= k < j :: !sent[k].KeyExchange?
    ensures Since(sent, j) == Since(sent, i) + (j - i)
  {
    if i < j {
      SinceGrows(sent, i, j - 1);
    }
  }

  /** The chunks since the last key exchange start with one of counter zero. */
  lemma {:induction false} SinceStarts(sent: seq<Message>, i: nat)
    requires i <= |sent|
    ensures Since(sent, i - Since(sent, i)) == 0
    ensures forall k | i - Since(sent, i) <= k < i :: !sent[k].KeyExchange?
  {
    if i > 0 && !sent[i - 1].KeyExchange? {
      SinceStarts(sent, i - 1);
    }
  }

  lemma EntriesAre(cfg: Config, peer: Config, sent: seq<Message>, i: nat)
    requires LogForm(cfg, peer, sent) && i < |sent|
    ensures !sent[i].KeyExchange? <==> sent[i].EncryptedMsg?
    ensures sent[i].EncryptedMsg? ==>
              && Since(sent, i) < MAX_COUNTER
              && sent[i].chunk.nonce == NonceOf(SenderId(cfg.role), Since(sent, i))
              && CounterOf(sent[i].chunk.nonce) == Since(sent, i)
  {
    assert EntryOk(cfg, peer, sent, i);
    if sent[i].EncryptedMsg? {
      CounterReadsBack(SenderId(cfg.role), Since(sent, i));
    }
  }

  lemma FirstOfEpoch(cfg: Config, peer: Config, sent: seq<Message>, i: nat) returns (z: nat)
    requires LogForm(cfg, peer, sent) && i < |sent| && sent[i].EncryptedMsg?
    ensures z <= i && sent[z].EncryptedMsg? && Since(sent, z) == 0
    ensures forall k | z <= k <= i :: !sent[k].KeyExchange?
  {
    z := i - Since(sent, i);
    SinceStarts(sent, i);
    EntriesAre(cfg, peer, sent, i);
    EntriesAre(cfg, peer, sent, z);
  }

  /** The nonces of a log differ if and only if no key exchange stands between two of its chunks. */
  lemma NoncesDifferIff(cfg: Config, peer: Config, sent: seq<Message>)
    requires LogForm(cfg, peer, sent)
    ensures NoncesDiffer(sent) <==> Unbroken(sent)
  {
    hide LogForm, Since;
    if Unbroken(sent) {
      forall i, j | 0 <= i < j < |sent| && sent[i].EncryptedMsg? && sent[j].EncryptedMsg?
        ensures sent[i].chunk.nonce != sent[j].chunk.nonce
      {
        SinceGrows(sent, i, j);
        EntriesAre(cfg, peer, sent, i);
        EntriesAre(cfg, peer, sent, j);
      }
    }
    forall i, j, k | 0 <= i < j < k < |sent| && sent[i].EncryptedMsg? && sent[k].EncryptedMsg? && sent[j].KeyExchange?
      ensures !NoncesDiffer(sent)
    {
      var y := FirstOfEpoch(cfg, peer, sent, i);
      var z := FirstOfEpoch(cfg, peer, sent, k);
      EntriesAre(cfg, peer, sent, y);
      EntriesAre(cfg, peer, sent, z);
      assert y < z && sent[y].chunk.nonce == sent[z].chunk.nonce;
    }
  }

  // ---------------------------------------------------------------- deliveries

  function PayloadOf(m: Message): Payload
    requires IsJson(m)
  {
    m.chunk.ciphertext.plain.payload
  }

  predicate GotOk(theirs: seq<Message>, got: seq<nat>) {
    forall k | 0 <= k < |got| :: got[k] < |theirs| && IsJson(theirs[got[k]])
  }

  function PayloadsAt(theirs: seq<Message>, got: seq<nat>): (payloads: seq<Payload>)
    requires GotOk(theirs, got)
    ensures |payloads| == |got|
  {
    seq(|got|, k requires 0 <= k < |got| => PayloadOf(theirs[got[k]]))
  }

  /** The deliveries from `since` on have increasing counters, none above `high`. */
  ghost predicate Climbs(theirs: seq<Message>, got: seq<nat>, since: nat, high: int)
    requires GotOk(theirs, got)
  {
    && (forall k | since <= k < |got| :: Since(theirs, got[k]) <= high)
    && (forall j, k | since <= j < k < |got| :: Since(theirs, got[j]) < Since(theirs, got[k]))
  }

  ghost predicate Queued(theirs: seq<Message>, waiting: seq<nat>, pending: seq<Chunk>) {
    && |waiting| == |pending|
    && forall k | 0 <= k < |waiting| :: waiting[k] < |theirs| && theirs[waiting[k]] == EncryptedMsg(pending[k])
  }

  /** The trail says which messages the notices deliver, and which ones wait. */
  ghost predicate TrailForm(p: Peer, theirs: seq<Message>, t: Trail) {
    && Queued(theirs, t.waiting, p.pending)
    && GotOk(theirs, t.got) && t.since <= |t.got|
    && (p.cipher.None? ==> t.got == [])
    && Climbs(theirs, t.got, t.since, High(p))
    && Received(p.notices) == PayloadsAt(theirs, t.got)
  }

  ghost predicate EndForm(cfg: Config, peer: Config, p: Peer, theirs: seq<Message>, t: Trail) {
    LogForm(cfg, peer, p.sent) && StateForm(cfg, peer, p) && TrailForm(p, theirs, t)
  }

  /** What holds in every reachable state. */
  ghost predicate Form(cs: Configs, s: State) {
    && EndForm(cs.a, cs.b, s.sys.a.peer, s.sys.b.peer.sent, s.a)
    && EndForm(cs.b, cs.a, s.sys.b.peer, s.sys.a.peer.sent, s.b)
  }

  /** A chunk is taken if its counter is new to the present cipher, and refused as a replay otherwise. */
  lemma TakenIff(cfg: Config, peer: Config, c: Cipher, theirs: seq<Message>, i: nat)
    requires SharedKey(cfg, peer) == SharedKey(peer, cfg) && c.key == SharedKey(cfg, peer)
    requires LogForm(peer, cfg, theirs) && i < |theirs| && theirs[i].EncryptedMsg?
    ensures IsJson(theirs[i])
    ensures Decrypt(c, theirs[i].chunk)
         == if Since(theirs, i) > c.lastReceived
            then (c.(lastReceived := Since(theirs, i)), Ok(theirs[i].chunk.ciphertext.plain))
            else (c, Err(ReplayDetected))
  {
    assert EntryOk(peer, cfg, theirs, i);
    EntriesAre(peer, cfg, theirs, i);
  }

  lemma PayloadsAppend(theirs: seq<Message>, got: seq<nat>, i: nat)
    requires GotOk(theirs, got) && i < |theirs| && IsJson(theirs[i])
    ensures GotOk(theirs, got + [i])
    ensures PayloadsAt(theirs, got + [i]) == PayloadsAt(theirs, got) + [PayloadOf(theirs[i])]
  {
  }

  /** A cipher that takes the trail's messages, and what its owner has delivered of them. */
  ghost predicate Reads(p: Peer, key: Key, theirs: seq<Message>, got: seq<nat>, since: nat) {
    && p.cipher.Some? && p.cipher.value.key == key && High(p) >= -1
    && GotOk(theirs, got) && since <= |got| && Climbs(theirs, got, since, High(p))
    && Received(p.notices) == PayloadsAt(theirs, got)
  }

  /** Only the received counter and the notices have changed. */
  predicate OnlyRead(p: Peer, q: Peer) {
    && p.cipher.Some? && q.cipher.Some?
    && q == p.(cipher := Some(p.cipher.value.(lastReceived := q.cipher.value.lastReceived)), notices := q.notices)
  }

  /** Taking one more chunk in the present epoch. */
  lemma TakesOne(cfg: Config, peer: Config, p: Peer, theirs: seq<Message>, got: seq<nat>, since: nat, i: nat)
    requires SharedKey(cfg, peer) == SharedKey(peer, cfg)
    requires LogForm(peer, cfg, theirs) && Reads(p, SharedKey(cfg, peer), theirs, got, since)
    requires i < |theirs| && theirs[i].EncryptedMsg?
    ensures var q := DecryptAndEmit(p, theirs[i].chunk);
            var first := if Decrypt(p.cipher.value, theirs[i].chunk).1.Ok? then [i] else [];
            OnlyRead(p, q) && Reads(q, SharedKey(cfg, peer), theirs, got + first, since)
  {
    TakenIff(cfg, peer, p.cipher.value, theirs, i);
    ReceivedAppend(p.notices, NoticeOf(Decrypt(p.cipher.value, theirs[i].chunk).1));
    PayloadsAppend(theirs, got, i);
    hide LogForm, Received, SharedKey, Since, Decrypt, PayloadsAt;
    assert Received(p.notices) + [] == Received(p.notices) && got + [] == got;
  }

  lemma {:induction false} FlushTakes(
      cfg: Config, peer: Config, p: Peer, theirs: seq<Message>, waiting: seq<nat>, got: seq<nat>, since: nat)
    requires SharedKey(cfg, peer) == SharedKey(peer, cfg)
    requires LogForm(peer, cfg, theirs) && Reads(p, SharedKey(cfg, peer), theirs, got, since)
    requires Queued(theirs, waiting, p.pending)
    ensures AreChunks(theirs, waiting)
    ensures var q := FlushPending(cfg.heard, p);
            && OnlyRead(p.(pending := q.pending), q)
            && Reads(q, SharedKey(cfg, peer), theirs, got + FlushGot(cfg.heard, p.cipher.value, theirs, waiting), since)
            && Queued(theirs, FlushLeft(cfg.heard, p.cipher.value, theirs, waiting), q.pending)
            && (if FlushThrows(cfg.heard, p) then !cfg.heard else q.pending == [])
    decreases |p.pending|
  {
    if p.pending == [] {
      FlushNone(cfg.heard, p, theirs, waiting, got);
    } else {
      QueueTail(theirs, waiting, p.pending);
      var i := waiting[0];
      hide *;
      var rest := p.(pending := p.pending[1..]);
      var r := Decrypt(p.cipher.value, theirs[i].chunk).1;
      var first := if r.Ok? then [i] else [];
      var q := DecryptAndEmit(rest, theirs[i].chunk);
      assert IsJson(theirs[i]) && KeepsPlain(p.cipher.value, theirs[i].chunk) by {
        TakenIff(cfg, peer, p.cipher.value, theirs, i);
      }
      FlushFirst(cfg, peer, p, theirs, waiting, got, since);
      if r.Ok? || cfg.heard {
        FlushTakes(cfg, peer, q, theirs, waiting[1..], got + first, since);
        FlushRest(cfg.heard, p, theirs, waiting, got);
      } else {
        FlushStops(p, theirs, waiting, got);
      }
    }
  }

  lemma FlushNone(heard: bool, p: Peer, theirs: seq<Message>, waiting: seq<nat>, got: seq<nat>)
    requires p.cipher.Some? && p.pending == [] && Queued(theirs, waiting, p.pending)
    ensures AreChunks(theirs, waiting) && FlushPending(heard, p) == p && OnlyRead(p, p) && !FlushThrows(heard, p)
    ensures got + FlushGot(heard, p.cipher.value, theirs, waiting) == got
    ensures FlushLeft(heard, p.cipher.value, theirs, waiting) == waiting
  {
    assert got + [] == got;
  }

  /** The first of the queue is taken as if it arrived now. */
  lemma FlushFirst(
      cfg: Config, peer: Config, p: Peer, theirs: seq<Message>, waiting: seq<nat>, got: seq<nat>, since: nat)
    requires SharedKey(cfg, peer) == SharedKey(peer, cfg)
    requires LogForm(peer, cfg, theirs) && Reads(p, SharedKey(cfg, peer), theirs, got, since)
    requires Queued(theirs, waiting, p.pending) && p.pending != []
    requires |waiting| > 0 && waiting[0] < |theirs| && theirs[waiting[0]].EncryptedMsg?
    ensures var i, rest := waiting[0], p.(pending := p.pending[1..]);
            var first := if Decrypt(p.cipher.value, theirs[i].chunk).1.Ok? then [i] else [];
            var q := DecryptAndEmit(rest, theirs[i].chunk);
            OnlyRead(rest, q) && Reads(q, SharedKey(cfg, peer), theirs, got + first, since)
  {
    var rest := p.(pending := p.pending[1..]);
    hide Decrypt, LogForm, SharedKey, Climbs, GotOk, Queued, Received, PayloadsAt, DecryptAndEmit;
    assert Reads(rest, SharedKey(cfg, peer), theirs, got, since);
    TakesOne(cfg, peer, rest, theirs, got, since, waiting[0]);
  }

  /** The rest of the queue, when the first of it opens or errors are heard. */
  lemma FlushRest(heard: bool, p: Peer, theirs: seq<Message>, waiting: seq<nat>, got: seq<nat>)
    requires p.cipher.Some? && p.pending != [] && Queued(theirs, waiting, p.pending)
    requires |waiting| > 0 && AreChunks(theirs, waiting) && AreChunks(theirs, waiting[1..])
    requires IsJson(theirs[waiting[0]])
    requires Decrypt(p.cipher.value, theirs[waiting[0]].chunk).1.Ok? || heard
    requires KeepsPlain(p.cipher.value, theirs[waiting[0]].chunk)
    ensures var i, rest := waiting[0], p.(pending := p.pending[1..]);
            var (d, r) := Decrypt(p.cipher.value, theirs[i].chunk);
            var first := if r.Ok? then [i] else [];
            var q := DecryptAndEmit(rest, theirs[i].chunk);
            var end := FlushPending(heard, p);
            && end == FlushPending(heard, q) && FlushThrows(heard, p) == FlushThrows(heard, q)
            && q.cipher == Some(d) && q.pending == p.pending[1..]
            && got + FlushGot(heard, p.cipher.value, theirs, waiting)
               == got + first + FlushGot(heard, d, theirs, waiting[1..])
            && FlushLeft(heard, p.cipher.value, theirs, waiting) == FlushLeft(heard, d, theirs, waiting[1..])
            && (OnlyRead(q.(pending := end.pending), end) ==> OnlyRead(p.(pending := end.pending), end))
  {
    var i := waiting[0];
    assert theirs[i] == EncryptedMsg(p.pending[0]);
    var (d, r) := Decrypt(p.cipher.value, theirs[i].chunk);
    var first := if r.Ok? then [i] else [];
    OnlyMovesCounter(p.cipher.value, theirs[i].chunk);
    hide Decrypt;
    var tail := FlushGot(heard, d, theirs, waiting[1..]);
    assert got + (first + tail) == got + first + tail && [] + tail == tail;
  }

  /** What opens is what was sealed. */
  predicate KeepsPlain(c: Cipher, chunk: Chunk) {
    var r := Decrypt(c, chunk).1;
    r.Ok? ==> chunk.ciphertext.Sealed? && r.value == chunk.ciphertext.plain
  }

  /** An error that nobody hears leaves the rest of the queue as it was. */
  lemma FlushStops(p: Peer, theirs: seq<Message>, waiting: seq<nat>, got: seq<nat>)
    requires p.cipher.Some? && p.pending != [] && Queued(theirs, waiting, p.pending)
    requires |waiting| > 0 && AreChunks(theirs, waiting) && Decrypt(p.cipher.value, theirs[waiting[0]].chunk).1.Err?
    ensures var q := DecryptAndEmit(p.(pending := p.pending[1..]), theirs[waiting[0]].chunk);
            && FlushPending(false, p) == q && FlushThrows(false, p) && q.pending == p.pending[1..]
            && FlushGot(false, p.cipher.value, theirs, waiting) == [] && got + [] == got
            && FlushLeft(false, p.cipher.value, theirs, waiting) == waiting[1..]
  {
    assert theirs[waiting[0]] == EncryptedMsg(p.pending[0]);
    hide Decrypt;
  }

  lemma OnlyMovesCounter(c: Cipher, chunk: Chunk)
    ensures Decrypt(c, chunk).0 == c.(lastReceived := Decrypt(c, chunk).0.lastReceived)
  {
  }

  lemma QueueTail(theirs: seq<Message>, waiting: seq<nat>, pending: seq<Chunk>)
    requires Queued(theirs, waiting, pending) && pending != []
    ensures Queued(theirs, waiting[1..], pending[1..])
    ensures |waiting| > 0 && waiting[0] < |theirs| && theirs[waiting[0]] == EncryptedMsg(pending[0])
    ensures AreChunks(theirs, waiting) && AreChunks(theirs, waiting[1..])
  {
  }

  // ---------------------------------------------------------------- every step keeps the form

  lemma StartForm(cfg: Config, peer: Config, p: Peer, theirs: seq<Message>, t: Trail)
    requires EndForm(cfg, peer, p, theirs, t) && p.status == Connecting
    ensures EndForm(cfg, peer, StartHandshake(cfg, p), theirs, t)
  {
    LogAppends(cfg, peer, p.sent, KeyExchange(Public(cfg)));
    hide LogForm, Received, PayloadsAt, GotOk, Climbs, Queued;
  }

  lemma SendForm(cfg: Config, peer: Config, p: Peer, theirs: seq<Message>, t: Trail, payload: Payload)
    requires EndForm(cfg, peer, p, theirs, t)
    ensures EndForm(cfg, peer, Send(p, payload).0, theirs, t)
    ensures var q := Send(p, payload).0; q.sent == p.sent || (|q.sent| == |p.sent| + 1 && p.sent <= q.sent)
  {
    var q := Send(p, payload).0;
    if q != p {
      LogAppends(cfg, peer, p.sent, q.sent[|p.sent|]);
      assert q.sent == p.sent + [q.sent[|p.sent|]];
    }
    hide LogForm, Received, PayloadsAt, GotOk, Climbs, Queued, Since, SharedKey, SentChunk;
  }

  /** A notice that delivers nothing. */
  lemma QuietForm(cfg: Config, peer: Config, p: Peer, q: Peer, theirs: seq<Message>, t: Trail, n: Notice)
    requires EndForm(cfg, peer, p, theirs, t) && !n.Delivered?
    requires q == p.(notices := p.notices + [n], status := q.status, subscribed := q.subscribed)
    requires (q.status == p.status && q.subscribed == p.subscribed) || (q.status == Disconnected && !q.subscribed)
    ensures EndForm(cfg, peer, q, theirs, t)
  {
    ReceivedAppend(p.notices, n);
    assert Received(p.notices) + [] == Received(p.notices);
    hide LogForm, Received, PayloadsAt, GotOk, Climbs, Queued, Since, SharedKey;
  }

  lemma ChunkForm(cfg: Config, peer: Config, p: Peer, theirs: seq<Message>, t: Trail, i: nat)
    requires SharedKey(cfg, peer) == SharedKey(peer, cfg) && LogForm(peer, cfg, theirs)
    requires EndForm(cfg, peer, p, theirs, t) && i < |theirs| && theirs[i].EncryptedMsg? && p.subscribed
    ensures var q := Handle(cfg, p, cfg.peerUser, cfg.peerDevice, theirs[i]);
            && q.sent == p.sent
            && EndForm(cfg, peer, q, theirs,
                       if p.cipher.None? then t.(waiting := t.waiting + [i])
                       else if Decrypt(p.cipher.value, theirs[i].chunk).1.Ok? then t.(got := t.got + [i]) else t)
  {
    if p.cipher.Some? {
      TakeForm(cfg, peer, p, theirs, t, i);
    } else {
      WaitForm(cfg, peer, p, theirs, t, i);
    }
  }

  lemma TakeForm(cfg: Config, peer: Config, p: Peer, theirs: seq<Message>, t: Trail, i: nat)
    requires SharedKey(cfg, peer) == SharedKey(peer, cfg) && LogForm(peer, cfg, theirs)
    requires EndForm(cfg, peer, p, theirs, t) && i < |theirs| && theirs[i].EncryptedMsg? && p.cipher.Some?
    ensures var q := DecryptAndEmit(p, theirs[i].chunk);
            && q.sent == p.sent
            && EndForm(cfg, peer, q, theirs,
                       if Decrypt(p.cipher.value, theirs[i].chunk).1.Ok? then t.(got := t.got + [i]) else t)
  {
    hide LogForm, Received, PayloadsAt, GotOk, Climbs, Since, SharedKey, Decrypt, TooShort, DecryptAndEmit;
    assert Reads(p, SharedKey(cfg, peer), theirs, t.got, t.since);
    TakesOne(cfg, peer, p, theirs, t.got, t.since, i);
    assert t.got + [] == t.got;
  }

  lemma WaitForm(cfg: Config, peer: Config, p: Peer, theirs: seq<Message>, t: Trail, i: nat)
    requires EndForm(cfg, peer, p, theirs, t) && i < |theirs| && theirs[i].EncryptedMsg? && p.cipher.None?
    ensures EndForm(cfg, peer, p.(pending := p.pending + [theirs[i].chunk]), theirs, t.(waiting := t.waiting + [i]))
  {
    hide LogForm, Received, PayloadsAt, GotOk, Climbs, Since, SharedKey;
  }

  /** The other end's key makes the cipher that both share. */
  lemma KeyMakes(cfg: Config, peer: Config, theirs: seq<Message>, i: nat)
    requires Laws(cfg.prim) && peer.prim == cfg.prim
    requires LogForm(peer, cfg, theirs) && i < |theirs| && theirs[i].KeyExchange?
    ensures CreateCipher(cfg, theirs[i].publicKey) == Some(NewCipher(SharedKey(cfg, peer), SenderId(cfg.role)))
  {
    assert EntryOk(peer, cfg, theirs, i);
  }

  lemma KeyForm(cfg: Config, peer: Config, p: Peer, theirs: seq<Message>, t: Trail, i: nat)
    requires Laws(cfg.prim) && peer.prim == cfg.prim && SharedKey(cfg, peer) == SharedKey(peer, cfg)
    requires LogForm(peer, cfg, theirs) && EndForm(cfg, peer, p, theirs, t)
    requires i < |theirs| && theirs[i].KeyExchange? && p.subscribed
    ensures AreChunks(theirs, t.waiting)
    ensures var q := Handle(cfg, p, cfg.peerUser, cfg.peerDevice, theirs[i]);
            var c := NewCipher(SharedKey(cfg, peer), SenderId(cfg.role));
            && CreateCipher(cfg, theirs[i].publicKey) == Some(c)
            && (q.sent == p.sent || (|q.sent| == |p.sent| + 1 && p.sent <= q.sent))
            && EndForm(cfg, peer, q, theirs,
                       Trail(FlushLeft(cfg.heard, c, theirs, t.waiting),
                             t.got + FlushGot(cfg.heard, c, theirs, t.waiting), |t.got|))
  {
    hide *;
    var q := Rekeyed(cfg, p, theirs[i].publicKey);
    var c := NewCipher(SharedKey(cfg, peer), SenderId(cfg.role));
    KeyMakes(cfg, peer, theirs, i);
    KeyHandled(cfg, peer, p, theirs, t, i);
    FlushTakes(cfg, peer, q, theirs, t.waiting, t.got, |t.got|);
    ReadsForm(cfg, peer, q, FlushPending(cfg.heard, q), FlushThrows(cfg.heard, q), theirs,
              Trail(FlushLeft(cfg.heard, c, theirs, t.waiting),
                    t.got + FlushGot(cfg.heard, c, theirs, t.waiting), |t.got|));
  }

  lemma KeyHandled(cfg: Config, peer: Config, p: Peer, theirs: seq<Message>, t: Trail, i: nat)
    requires i < |theirs| && theirs[i].KeyExchange? && p.subscribed
    requires EndForm(cfg, peer, p, theirs, t)
    requires CreateCipher(cfg, theirs[i].publicKey) == Some(NewCipher(SharedKey(cfg, peer), SenderId(cfg.role)))
    ensures var q := Rekeyed(cfg, p, theirs[i].publicKey);
            && Handle(cfg, p, cfg.peerUser, cfg.peerDevice, theirs[i])
               == (if FlushThrows(cfg.heard, q) then GiveUp(FlushPending(cfg.heard, q)) else FlushPending(cfg.heard, q))
            && LogForm(cfg, peer, q.sent) && q.sent != [] && Since(q.sent, |q.sent|) == 0
            && (q.sent == p.sent || (|q.sent| == |p.sent| + 1 && p.sent <= q.sent))
            && q.status == Encrypted && q.subscribed
            && q.cipher == Some(NewCipher(SharedKey(cfg, peer), SenderId(cfg.role)))
            && Reads(q, SharedKey(cfg, peer), theirs, t.got, |t.got|)
            && Queued(theirs, t.waiting, q.pending)
  {
    KeyIsHandled(cfg, p, theirs[i].publicKey);
    KeySends(cfg, peer, p);
    ReceivedAppend(p.notices, Ready);
    hide HandleKeyExchange, FlushPending, FlushThrows, CreateCipher, LogForm, Received, PayloadsAt, GotOk, Since,
         SharedKey, StateForm;
    assert Received(p.notices) + [] == Received(p.notices);
  }

  /** A peer that has only read since its cipher was made, and gave up if that threw. */
  lemma ReadsForm(cfg: Config, peer: Config, q: Peer, r: Peer, threw: bool, theirs: seq<Message>, t: Trail)
    requires LogForm(cfg, peer, q.sent) && q.sent != [] && Since(q.sent, |q.sent|) == 0
    requires q.status == Encrypted && q.subscribed
    requires q.cipher == Some(NewCipher(SharedKey(cfg, peer), SenderId(cfg.role)))
    requires OnlyRead(q.(pending := r.pending), r) && Reads(r, SharedKey(cfg, peer), theirs, t.got, t.since)
    requires Queued(theirs, t.waiting, r.pending) && if threw then !cfg.heard else r.pending == []
    ensures var s := if threw then GiveUp(r) else r;
            EndForm(cfg, peer, s, theirs, t) && s.sent == q.sent
  {
    ReceivedAppend(r.notices, CipherFailed);
    hide LogForm, Received, PayloadsAt, GotOk, Climbs, SharedKey, Since, Queued;
    assert Received(r.notices) + [] == Received(r.notices);
  }

  /** A key exchange leaves the log with none but key exchanges since the last one: none. */
  lemma KeySends(cfg: Config, peer: Config, p: Peer)
    requires LogForm(cfg, peer, p.sent) && StateForm(cfg, peer, p) && p.subscribed
    ensures var started := if p.status == Handshake then p else StartHandshake(cfg, p);
            && LogForm(cfg, peer, started.sent) && started.sent != [] && Since(started.sent, |started.sent|) == 0
            && (started.sent == p.sent || started.sent == p.sent + [KeyExchange(Public(cfg))])
  {
    if p.status == Handshake {
      assert p.sent[0].KeyExchange?;
    } else {
      LogAppends(cfg, peer, p.sent, KeyExchange(Public(cfg)));
    }
  }

  /** More messages of the other end change nothing of a trail. */
  lemma TrailGrows(p: Peer, theirs: seq<Message>, m: Message, t: Trail)
    requires TrailForm(p, theirs, t)
    ensures TrailForm(p, theirs + [m], t)
  {
    forall k | 0 <= k < |t.got|
      ensures Since(theirs + [m], t.got[k]) == Since(theirs, t.got[k])
    {
      SinceStays(theirs, [m], t.got[k]);
    }
    hide Since, Received, IsJson;
    assert GotOk(theirs + [m], t.got);
    assert PayloadsAt(theirs + [m], t.got) == PayloadsAt(theirs, t.got);
  }

  lemma PerformForm(cfg: Config, peer: Config, me: End, other: End, t: Trail, e: Occurrence)
    requires Laws(cfg.prim) && peer.prim == cfg.prim && SharedKey(cfg, peer) == SharedKey(peer, cfg)
    requires EndForm(cfg, peer, me.peer, other.peer.sent, t) && LogForm(peer, cfg, other.peer.sent)
    requires Possible(me, other, e)
    ensures var (me', other') := Perform(cfg, me, other, e);
            && other'.peer == other.peer
            && EndForm(cfg, peer, me'.peer, other.peer.sent, NextTrail(cfg, me, other, t, e))
            && (me'.peer.sent == me.peer.sent
                || (|me'.peer.sent| == |me.peer.sent| + 1 && me.peer.sent <= me'.peer.sent))
  {
    hide EndForm, LogForm, SharedKey, FlushGot, Decrypt, HandleKeyExchange, DecryptAndEmit, Send;
    var p, theirs := me.peer, other.peer.sent;
    match e
    case KeyRepeats(i) => KeyEvent(cfg, peer, me, other, t, i);
    case Of(KeyArrives(i)) => KeyEvent(cfg, peer, me, other, t, i);
    case Of(ChunkArrives(i)) =>
      if p.subscribed {
        ChunkForm(cfg, peer, p, theirs, t, i);
      }
    case Of(Starts) => StartForm(cfg, peer, p, theirs, t);
    case Of(Sends(payload)) => SendForm(cfg, peer, p, theirs, t, payload);
    case Of(Announces(payload)) => AnnounceForm(cfg, peer, p, theirs, t, payload);
    case Of(PlainArrives(i)) =>
      if p.subscribed {
        var q := Handle(cfg, p, cfg.peerUser, cfg.peerDevice, Control(other.peer.announced[i]));
        QuietForm(cfg, peer, p, q, theirs, t, Announced(other.peer.announced[i]));
      }
    case Of(Disconnects) =>
      if p.status != Disconnected {
        QuietForm(cfg, peer, p, Disconnect(p), theirs, t, Close);
      }
    case Of(KeyLost(_)) =>
  }

  lemma AnnounceForm(cfg: Config, peer: Config, p: Peer, theirs: seq<Message>, t: Trail, payload: Payload)
    requires EndForm(cfg, peer, p, theirs, t)
    ensures EndForm(cfg, peer, SendUnencrypted(p, payload), theirs, t)
  {
    hide LogForm, Received, PayloadsAt, GotOk, Climbs, Queued, Since, SharedKey;
  }

  lemma KeyEvent(cfg: Config, peer: Config, me: End, other: End, t: Trail, i: nat)
    requires Laws(cfg.prim) && peer.prim == cfg.prim && SharedKey(cfg, peer) == SharedKey(peer, cfg)
    requires EndForm(cfg, peer, me.peer, other.peer.sent, t) && LogForm(peer, cfg, other.peer.sent)
    requires i < |other.peer.sent| && other.peer.sent[i].KeyExchange?
    ensures var q := Handle(cfg, me.peer, cfg.peerUser, cfg.peerDevice, other.peer.sent[i]);
            && EndForm(cfg, peer, q, other.peer.sent, KeyTrail(cfg, me, other, t, i))
            && (q.sent == me.peer.sent || (|q.sent| == |me.peer.sent| + 1 && me.peer.sent <= q.sent))
  {
    hide EndForm, LogForm, SharedKey, FlushGot, CreateCipher, HandleKeyExchange;
    if me.peer.subscribed {
      KeyForm(cfg, peer, me.peer, other.peer.sent, t, i);
    }
  }

  lemma PairForm(cfg: Config, peer: Config, me: End, other: End, t: Trail, u: Trail, e: Occurrence)
    requires Laws(cfg.prim) && peer.prim == cfg.prim && SharedKey(cfg, peer) == SharedKey(peer, cfg)
    requires EndForm(cfg, peer, me.peer, other.peer.sent, t) && EndForm(peer, cfg, other.peer, me.peer.sent, u)
    requires Possible(me, other, e)
    ensures var (me', other') := Perform(cfg, me, other, e);
            && EndForm(cfg, peer, me'.peer, other'.peer.sent, NextTrail(cfg, me, other, t, e))
            && EndForm(peer, cfg, other'.peer, me'.peer.sent, u)
  {
    hide *;
    FormHasLog(peer, cfg, other.peer, me.peer.sent, u);
    PerformForm(cfg, peer, me, other, t, e);
    EndGrows(peer, cfg, other.peer, me.peer.sent, Perform(cfg, me, other, e).0.peer.sent, u);
  }

  lemma EndGrows(cfg: Config, peer: Config, p: Peer, theirs: seq<Message>, more: seq<Message>, t: Trail)
    requires EndForm(cfg, peer, p, theirs, t)
    requires more == theirs || (|more| == |theirs| + 1 && theirs <= more)
    ensures EndForm(cfg, peer, p, more, t)
  {
    hide LogForm, StateForm, TrailForm;
    if more != theirs {
      assert more == theirs + [more[|theirs|]];
      TrailGrows(p, theirs, more[|theirs|], t);
    }
  }

  lemma FormHasLog(cfg: Config, peer: Config, p: Peer, theirs: seq<Message>, t: Trail)
    requires EndForm(cfg, peer, p, theirs, t)
    ensures LogForm(cfg, peer, p.sent)
  {
  }

  lemma AfterForm(cs: Configs, s: State, step: Move)
    requires Agreeable(cs) && Form(cs, s) && CanStep(s, step)
    ensures Form(cs, After(cs, s, step))
  {
    SharedKeySymmetric(cs);
    hide EndForm, Perform, Possible, NextTrail;
    if step.side == A {
      PairForm(cs.a, cs.b, s.sys.a, s.sys.b, s.a, s.b, step.event);
    } else {
      PairForm(cs.b, cs.a, s.sys.b, s.sys.a, s.b, s.a, step.event);
    }
  }

  lemma {:induction false} RunForm(cs: Configs, s: State, steps: seq<Move>)
    requires Agreeable(cs) && Form(cs, s) && IsRepeatingRun(cs, s, steps)
    ensures Form(cs, RunAll(cs, s, steps))
    decreases |steps|
  {
    hide After, Form;
    if steps != [] {
      AfterForm(cs, s, steps[0]);
      RunForm(cs, After(cs, s, steps[0]), steps[1..]);
    }
  }

  lemma StartsInForm(cs: Configs)
    ensures Form(cs, START)
  {
  }
}
