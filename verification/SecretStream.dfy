/**
 The secretstream construction as functions on values: one message sealed, one
 chunk opened. The block cipher and the authenticator are arbitrary functions;
 everything around them is spelled out byte by byte.
 */
module SecretStream {
  import opened Bytes

  const TAG_MESSAGE: byte := 0
  const TAG_FINAL: byte := 3

  /** Bytes a sealed chunk has beyond its message: the tag byte and the mac. */
  const OVERHEAD: nat := 17

  type Key = s: seq<byte> | |s| == 32 witness Zeros(32)
  type Nonce = s: seq<byte> | |s| == 12 witness Zeros(12)
  type Mac = s: seq<byte> | |s| == 16 witness Zeros(16)

  /**
   The foreign code: the ChaCha20 key stream byte at a position, the Poly1305
   authenticator under a one-time key, and HChaCha20 on a key and 16 bytes.
   */
  datatype Primitives = Primitives(
    keystream: (Key, Nonce, nat) -> byte,
    poly1305: (Key, seq<byte>) -> Mac,
    hchacha20: (Key, seq<byte>) -> Key)

  datatype State = State(k: Key, nonce: Nonce)

  datatype Message = Message(text: seq<byte>, tag: byte)

  datatype Opened = InvalidInput | CryptoFailure | Accepted(message: Message, next: State)

  /** n bytes of key stream from a position on. */
  function KeyStream(p: Primitives, s: State, at: nat, n: nat): (r: seq<byte>)
    ensures |r| == n
  {
    seq<byte>(n, i requires 0 <= i < n => p.keystream(s.k, s.nonce, at + i))
  }

  function Crypt(p: Primitives, s: State, at: nat, text: seq<byte>): (r: seq<byte>)
    ensures |r| == |text|
  {
    XorSeq(text, KeyStream(p, s, at, |text|))
  }

  lemma CryptTwice(p: Primitives, s: State, at: nat, text: seq<byte>)
    ensures Crypt(p, s, at, Crypt(p, s, at, text)) == text
  {
    XorTwice(text, KeyStream(p, s, at, |text|));
  }

  /** The block that carries the tag: block 1 of the key stream with the tag mixed into byte 0. */
  function TagBlock(p: Primitives, s: State, tag: byte): (r: seq<byte>)
    ensures |r| == 64
  {
    Crypt(p, s, 64, [tag] + Zeros(63))
  }

  /** (0x10 - 64 + n) & 0xf: the mask keeps the remainder modulo 16, also of a negative number. */
  function PadLength(n: nat): (r: nat)
    ensures r == n % 16
  {
    (16 - 64 + n) % 16
  }

  /** What the authenticator is fed: tag block, ciphertext, padding, and two 64-bit lengths. */
  function Transcript(block: seq<byte>, c: seq<byte>): seq<byte> {
    block + c + Zeros(PadLength(|c|)) + LeBytes(0, 8) + LeBytes(64 + |c|, 8)
  }

  function MacOf(p: Primitives, s: State, block: seq<byte>, c: seq<byte>): Mac {
    p.poly1305(KeyStream(p, s, 0, 32), Transcript(block, c))
  }

  /** The counter steps and the inner nonce absorbs the mac; the key stays. */
  function Advance(s: State, mac: Mac): State {
    State(s.k, Incremented(s.nonce[..4]) + XorSeq(s.nonce[4..], mac))
  }

  function Sealed(p: Primitives, s: State, m: Message): (c: seq<byte>)
    ensures |c| == |m.text| + OVERHEAD
  {
    var block, c := TagBlock(p, s, m.tag), Crypt(p, s, 128, m.text);
    [block[0]] + c + MacOf(p, s, block, c)
  }

  function AfterSeal(p: Primitives, s: State, m: Message): State {
    Advance(s, MacOf(p, s, TagBlock(p, s, m.tag), Crypt(p, s, 128, m.text)))
  }

  /** The tag block decoded from the first byte of a chunk: byte 0 is the tag. */
  function Decoded(p: Primitives, s: State, chunk: seq<byte>): (block: seq<byte>)
    requires |chunk| >= OVERHEAD
    ensures |block| == 64
  {
    Crypt(p, s, 64, [chunk[0]] + Zeros(63))
  }

  function ExpectedMac(p: Primitives, s: State, chunk: seq<byte>): Mac
    requires |chunk| >= OVERHEAD
  {
    MacOf(p, s, Decoded(p, s, chunk)[0 := chunk[0]], chunk[1..|chunk| - 16])
  }

  /** Opening a chunk; a rejected chunk leaves the caller's state alone. */
  function Open(p: Primitives, s: State, chunk: seq<byte>): Opened {
    if |chunk| < OVERHEAD then InvalidInput
    else
      var mac := ExpectedMac(p, s, chunk);
      if mac != chunk[|chunk| - 16..] then CryptoFailure
      else
        var text := Crypt(p, s, 128, chunk[1..|chunk| - 16]);
        Accepted(Message(text, Decoded(p, s, chunk)[0]), Advance(s, mac))
  }

  /** The counter part of the nonce as a number. */
  function Counter(s: State): (n: nat)
    ensures n < 0x1_0000_0000
  {
    assert Pow256(4) == 0x1_0000_0000;
    LeValue(s.nonce[..4])
  }

  function Initial(p: Primitives, key: Key, header: seq<byte>): State
    requires |header| == 24
  {
    State(p.hchacha20(key, header[..16]), [1, 0, 0, 0] + header[16..])
  }

  /** A header as the decryptor copies it: at most 24 bytes, and what is missing stays zero. */
  function FitHeader(header: seq<byte>): (h: seq<byte>)
    ensures |h| == 24
    ensures |header| == 24 ==> h == header
  {
    if |header| >= 24 then header[..24] else header + Zeros(24 - |header|)
  }

  // ---- one chunk ----

  /**
   A chunk byte by byte: the tag under key stream byte 64, the text under the bytes from 128 on, and
   the mac of the transcript under the key stream's first 32 bytes.
   */
  lemma SealedBytes(p: Primitives, s: State, m: Message)
    ensures
      var c, n, stream := Sealed(p, s, m), |m.text|, (i: nat) => p.keystream(s.k, s.nonce, i);
      && c[0] == Xor(m.tag, stream(64))
      && (forall i :: 0 <= i < n ==> c[1 + i] == Xor(m.text[i], stream(128 + i)))
      && c[1 + n..] == p.poly1305(seq(32, i requires 0 <= i => stream(i)),
                                  Transcript([c[0]] + seq(63, i requires 0 <= i => stream(65 + i)), c[1..1 + n]))
  {
    var c, n := Sealed(p, s, m), |m.text|;
    var stream := (i: nat) => p.keystream(s.k, s.nonce, i);
    var block := TagBlock(p, s, m.tag);
    forall i | 1 <= i < 64 ensures block[i] == stream(64 + i) {
      XorLaws(stream(64 + i), 0);
    }
    assert block == [c[0]] + seq(63, i requires 0 <= i => stream(65 + i));
    assert KeyStream(p, s, 0, 32) == seq(32, i requires 0 <= i => stream(i));
    assert c[1..1 + n] == Crypt(p, s, 128, m.text);
  }

  /** The state after a chunk: same key, the counter stepped, and the chunk's mac mixed into the inner nonce. */
  lemma ChainedWithMac(p: Primitives, s: State, m: Message)
    ensures
      var next := AfterSeal(p, s, m);
      && next.k == s.k && Counter(next) == (Counter(s) + 1) % 0x1_0000_0000
      && next.nonce[4..] == XorSeq(s.nonce[4..], Sealed(p, s, m)[|m.text| + 1..])
  {
    var next := AfterSeal(p, s, m);
    assert Pow256(4) == 0x1_0000_0000;
    assert next.nonce[..4] == Incremented(s.nonce[..4]);
    IncrementedValue(s.nonce[..4]);
    NextIsModular(Counter(s), 4);
    assert Sealed(p, s, m)[|m.text| + 1..] == MacOf(p, s, TagBlock(p, s, m.tag), Crypt(p, s, 128, m.text));
  }

  /** Under one key and counter a state is its inner nonce. */
  lemma SameInner(s: State, s': State)
    requires s.k == s'.k && Counter(s) == Counter(s')
    ensures s == s' <==> s.nonce[4..] == s'.nonce[4..]
  {
    ValueInjective(s.nonce[..4], s'.nonce[..4]);
    assert s.nonce == s.nonce[..4] + s.nonce[4..] && s'.nonce == s'.nonce[..4] + s'.nonce[4..];
  }

  lemma XorInjective(a: byte, b: byte, c: byte)
    ensures Xor(a, b) == Xor(a, c) <==> b == c
  {
    XorCommutes(a, b);
    XorCommutes(a, c);
    XorLaws(b, a);
    XorLaws(c, a);
  }

  lemma XorSeqInjective(a: seq<byte>, b: seq<byte>, c: seq<byte>)
    requires |a| <= |b| && |a| <= |c|
    ensures XorSeq(a, b) == XorSeq(a, c) <==> b[..|a|] == c[..|a|]
  {
    var x, y := XorSeq(a, b), XorSeq(a, c);
    forall i | 0 <= i < |a| ensures x[i] == y[i] <==> b[..|a|][i] == c[..|a|][i] {
      XorInjective(a[i], b[i], c[i]);
    }
    if x == y {
      assert forall i :: 0 <= i < |a| ==> b[..|a|][i] == c[..|a|][i];
    }
  }

  /** After two messages from one state the states are the same exactly when the macs agree in their first 8 bytes. */
  lemma MacsSeparateStates(p: Primitives, s: State, m: Message, m': Message)
    ensures AfterSeal(p, s, m) == AfterSeal(p, s, m')
       <==> Sealed(p, s, m)[|m.text| + 1..][..8] == Sealed(p, s, m')[|m'.text| + 1..][..8]
  {
    ChainedWithMac(p, s, m);
    ChainedWithMac(p, s, m');
    SameInner(AfterSeal(p, s, m), AfterSeal(p, s, m'));
    XorSeqInjective(s.nonce[4..], Sealed(p, s, m)[|m.text| + 1..], Sealed(p, s, m')[|m'.text| + 1..]);
  }

  /** The tag block the receiver rebuilds from the first byte is the one the sender built. */
  lemma TagBlockRebuilt(p: Primitives, s: State, tag: byte, first: byte)
    ensures
      var plain := Crypt(p, s, 64, [first] + Zeros(63));
      (TagBlock(p, s, tag)[0] == first <==> plain[0] == tag) &&
      (plain[0] == tag ==> plain[0 := first] == TagBlock(p, s, tag))
  {
    var ks := p.keystream(s.k, s.nonce, 64);
    XorLaws(tag, ks);
    XorLaws(first, ks);
  }

  /** A chunk is accepted as a message exactly when it is that message sealed in the same state. */
  lemma AcceptsExactlySealed(p: Primitives, s: State, chunk: seq<byte>, m: Message, next: State)
    ensures Open(p, s, chunk) == Accepted(m, next)
       <==> chunk == Sealed(p, s, m) && next == AfterSeal(p, s, m)
  {
    if |chunk| >= OVERHEAD {
      var c, stored := chunk[1..|chunk| - 16], chunk[|chunk| - 16..];
      TagBlockRebuilt(p, s, m.tag, chunk[0]);
      CryptTwice(p, s, 128, c);
      CryptTwice(p, s, 128, m.text);
      var block, body := TagBlock(p, s, m.tag), Crypt(p, s, 128, m.text);
      assert chunk == [chunk[0]] + c + stored;
      if chunk == Sealed(p, s, m) {
        assert chunk[0] == block[0] && c == body && stored == MacOf(p, s, block, body);
      }
    }
  }

  /** The state after an accepted chunk is chained with the mac the chunk ends in. */
  lemma AcceptedFollows(p: Primitives, s: State, chunk: seq<byte>)
    ensures
      Open(p, s, chunk).Accepted? ==>
        var next := Open(p, s, chunk).next;
        && |chunk| >= OVERHEAD && next.k == s.k && Counter(next) == (Counter(s) + 1) % 0x1_0000_0000
        && next.nonce[4..] == XorSeq(s.nonce[4..], chunk[|chunk| - 16..])
  {
    if Open(p, s, chunk).Accepted? {
      var m := Open(p, s, chunk).message;
      AcceptsExactlySealed(p, s, chunk, m, Open(p, s, chunk).next);
      ChainedWithMac(p, s, m);
    }
  }

  /** Sealing is injective in a state: two messages with one chunk are one message. */
  lemma SealedInjective(p: Primitives, s: State, m: Message, m': Message)
    requires Sealed(p, s, m) == Sealed(p, s, m')
    ensures m == m'
  {
    AcceptsExactlySealed(p, s, Sealed(p, s, m), m, AfterSeal(p, s, m));
    AcceptsExactlySealed(p, s, Sealed(p, s, m), m', AfterSeal(p, s, m'));
  }

  lemma LengthField(n: nat, n': nat)
    requires n < Pow256(8) && n' < Pow256(8) && LeBytes(n, 8) == LeBytes(n', 8)
    ensures n == n'
  {
    ValueOfBytes(n, 8);
    ValueOfBytes(n', 8);
  }

  /** Where the parts are found in a transcript: block, ciphertext, zeros, an empty length and the real one. */
  ghost predicate HasParts(t: seq<byte>, block: seq<byte>, c: seq<byte>) {
    && |block| == 64 && |t| == 64 + |c| + |c| % 16 + 16
    && t[..64] == block && t[64..64 + |c|] == c
    && (forall i :: 64 + |c| <= i < |t| - 8 ==> t[i] == 0)
    && t[|t| - 8..] == LeBytes(64 + |c|, 8)
  }

  lemma {:induction false} ZeroBytes(n: nat)
    ensures LeBytes(0, n) == Zeros(n)
  {
    if n > 0 {
      ZeroBytes(n - 1);
      assert LeBytes(0, n) == [0] + Zeros(n - 1);
    }
  }

  /** These parts, at these places, make up the transcript and nothing else does. */
  lemma TranscriptParts(block: seq<byte>, c: seq<byte>, t: seq<byte>)
    requires |block| == 64
    ensures t == Transcript(block, c) <==> HasParts(t, block, c)
  {
    ZeroBytes(8);
    var n := 64 + |c|;
    if HasParts(t, block, c) {
      assert t == t[..64] + t[64..n] + t[n..n + PadLength(|c|)] + t[n + PadLength(|c|)..|t| - 8] + t[|t| - 8..];
      assert t[n..n + PadLength(|c|)] == Zeros(PadLength(|c|));
      assert t[n + PadLength(|c|)..|t| - 8] == Zeros(8);
    }
  }

  lemma PartsInjective(t: seq<byte>, block: seq<byte>, c: seq<byte>, block': seq<byte>, c': seq<byte>)
    requires HasParts(t, block, c) && HasParts(t, block', c')
    requires 64 + |c| < Pow256(8) && 64 + |c'| < Pow256(8)
    ensures block == block' && c == c'
  {
    LengthField(64 + |c|, 64 + |c'|);
  }

  /**
   The transcript determines the tag block and the ciphertext, although the padding
   alone does not separate lengths; texts are shorter than 2^64 - 64 bytes so that
   the 64-bit length field does not wrap.
   */
  lemma TranscriptInjective(block: seq<byte>, c: seq<byte>, block': seq<byte>, c': seq<byte>)
    requires |block| == |block'| == 64
    requires 64 + |c| < Pow256(8) && 64 + |c'| < Pow256(8)
    requires Transcript(block, c) == Transcript(block', c')
    ensures block == block' && c == c'
  {
    TranscriptParts(block, c, Transcript(block, c));
    TranscriptParts(block', c', Transcript(block', c'));
    PartsInjective(Transcript(block, c), block, c, block', c');
  }

  /** The pad16 of section 2.8.1 of RFC 8439: up to the next multiple of 16. */
  function Pad16(n: nat): nat {
    (16 - n % 16) % 16
  }

  /** The pad written here is pad16 only on multiples of 8. */
  lemma PadIsNotPad16(n: nat)
    ensures PadLength(n) == Pad16(n) <==> n % 8 == 0
  {
    var q, r := n / 16, n % 16;
    assert n % 8 == r % 8;
  }

  /** The padding alone separates no lengths: 8 and 16 bytes of ciphertext fill the same run. */
  lemma PaddingAloneIsAmbiguous()
    ensures Zeros(8) + Zeros(PadLength(8)) == Zeros(16) + Zeros(PadLength(16))
  {}
}
