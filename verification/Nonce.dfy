/**
 Nonces: a four-byte sender id followed by an eight-byte big-endian counter, the deterministic
 construction of section 8.2.1 of NIST SP 800-38D and section 3.2 of RFC 5116.
 */
module Nonces {
  type Byte = b: int | 0 <= b < 256

  const NONCE_BYTES := 12
  const MAX_COUNTER := 0x1_0000_0000_0000_0000  // writeBigUInt64BE throws from here on

  function Power256(width: nat): (p: nat)
    ensures p > 0
  {
    if width == 0 then 1 else 256 * Power256(width - 1)
  }

  /** The low `width` bytes of `n`, most significant first. */
  function BigEndian(n: nat, width: nat): (bytes: seq<Byte>)
    ensures |bytes| == width
  {
    if width == 0 then [] else BigEndian(n / 256, width - 1) + [n % 256]
  }

  function ReadBigEndian(bytes: seq<Byte>): nat {
    if bytes == [] then 0 else 256 * ReadBigEndian(bytes[..|bytes| - 1]) + bytes[|bytes| - 1]
  }

  lemma {:induction false} ReadInvertsWrite(n: nat, width: nat)
    requires n < Power256(width)
    ensures ReadBigEndian(BigEndian(n, width)) == n
  {
    if width > 0 {
      ReadInvertsWrite(n / 256, width - 1);
      ReadLast(BigEndian(n / 256, width - 1), n % 256);
    }
  }

  lemma ReadLast(bytes: seq<Byte>, last: Byte)
    ensures ReadBigEndian(bytes + [last]) == 256 * ReadBigEndian(bytes) + last
  {
    assert (bytes + [last])[..|bytes|] == bytes;
  }

  lemma {:induction false} WriteInvertsRead(bytes: seq<Byte>)
    ensures ReadBigEndian(bytes) < Power256(|bytes|)
    ensures BigEndian(ReadBigEndian(bytes), |bytes|) == bytes
  {
    if bytes != [] {
      var front := bytes[..|bytes| - 1];
      WriteInvertsRead(front);
      assert bytes == front + [bytes[|bytes| - 1]];
    }
  }

  /** The nonce of the `counter`-th chunk of the sender `senderId`. */
  function NonceOf(senderId: nat, counter: nat): (nonce: seq<Byte>)
    ensures |nonce| == NONCE_BYTES
  {
    BigEndian(senderId, 4) + BigEndian(counter, 8)
  }

  /** What `decrypt` reads back: bytes 4 to 11. */
  function CounterOf(nonce: seq<Byte>): nat
    requires |nonce| == NONCE_BYTES
  {
    ReadBigEndian(nonce[4..12])
  }

  lemma Widths()
    ensures Power256(4) == 0x1_0000_0000 && Power256(8) == MAX_COUNTER
  {
    assert Power256(2) == 0x1_0000;
    assert Power256(4) == 0x1_0000_0000;
    assert Power256(6) == 0x1_0000_0000_0000;
  }

  lemma CounterReadsBack(senderId: nat, counter: nat)
    requires counter < MAX_COUNTER
    ensures CounterOf(NonceOf(senderId, counter)) == counter
  {
    Widths();
    ReadInvertsWrite(counter, 8);
    assert NonceOf(senderId, counter)[4..12] == BigEndian(counter, 8);
  }

  lemma SenderReadsBack(senderId: nat, counter: nat)
    requires senderId < 0x1_0000_0000
    ensures ReadBigEndian(NonceOf(senderId, counter)[..4]) == senderId
  {
    Widths();
    ReadInvertsWrite(senderId, 4);
    assert NonceOf(senderId, counter)[..4] == BigEndian(senderId, 4);
  }

  /** The nonce encoding is injective, in sender and counter together, and covers every 12-byte nonce. */
  lemma NonceInjective(a: nat, i: nat, b: nat, j: nat)
    requires a < 0x1_0000_0000 && b < 0x1_0000_0000 && i < MAX_COUNTER && j < MAX_COUNTER
    ensures NonceOf(a, i) == NonceOf(b, j) <==> a == b && i == j
  {
    CounterReadsBack(a, i);
    CounterReadsBack(b, j);
    SenderReadsBack(a, i);
    SenderReadsBack(b, j);
  }

  lemma NonceSurjective(nonce: seq<Byte>)
    requires |nonce| == NONCE_BYTES
    ensures CounterOf(nonce) < MAX_COUNTER
    ensures nonce == NonceOf(ReadBigEndian(nonce[..4]), CounterOf(nonce))
  {
    Widths();
    WriteInvertsRead(nonce[..4]);
    WriteInvertsRead(nonce[4..12]);
  }
}
