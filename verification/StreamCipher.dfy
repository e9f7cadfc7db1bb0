/**
 The stream cipher as the mutable object of stream.go: a key, a 12-byte nonce
 buffer, and Push and Pull, which overwrite it. Each method is proved against the
 function of SecretStream it computes.
 */
module StreamCipher {
  import opened Bytes
  import opened SecretStream

  /** A ChaCha20 cipher object: key stream is consumed from a running position. */
  class ChaCha20 {
    const p: Primitives
    const key: State
    var position: nat

    constructor (p: Primitives, key: State)
      ensures this.p == p && this.key == key && position == 0
    {
      this.p, this.key, position := p, key, 0;
    }

    /** XORKeyStream into the slice dst[lo:]. */
    method XorKeyStream(dst: array<byte>, lo: nat, src: seq<byte>)
      requires lo + |src| <= dst.Length
      modifies this, dst
      ensures position == old(position) + |src|
      ensures dst[..lo] == old(dst[..lo]) && dst[lo + |src|..] == old(dst[lo + |src|..])
      ensures dst[lo..lo + |src|] == Crypt(p, key, old(position), src)
    {
      var pad := KeyStream(p, key, position, |src|);
      for i := 0 to |src|
        invariant position == old(position)
        invariant forall j :: 0 <= j < lo || lo + i <= j < dst.Length ==> dst[j] == old(dst[j])
        invariant forall j :: 0 <= j < i ==> dst[lo + j] == Xor(src[j], pad[j])
      {
        dst[lo + i] := Xor(src[i], pad[i]);
      }
      position := position + |src|;
    }
  }

  /** A Poly1305 authenticator object: it collects what is written to it. */
  class Poly1305 {
    const p: Primitives
    const key: Key
    var written: seq<byte>

    constructor (p: Primitives, key: Key)
      ensures this.p == p && this.key == key && written == []
    {
      this.p, this.key, written := p, key, [];
    }

    method Write(data: seq<byte>)
      modifies this
      ensures written == old(written) + data
    {
      written := written + data;
    }

    method Sum() returns (mac: Mac)
      ensures mac == p.poly1305(key, written)
    {
      mac := p.poly1305(key, written);
    }
  }

  /** binary.LittleEndian.PutUint64 of a value taken modulo 2^64. */
  method PutUint64(b: array<byte>, v: nat)
    requires b.Length == 8
    modifies b
    ensures b[..] == LeBytes(v, 8)
  {
    var rest := v;
    for i := 0 to 8
      invariant b[..i] + LeBytes(rest, 8 - i) == LeBytes(v, 8)
    {
      ghost var done, was := b[..i], rest;
      b[i], rest := rest % 256, rest / 256;
      assert b[..i + 1] == done + [was % 256];
      assert LeBytes(was, 8 - i) == [was % 256] + LeBytes(rest, 8 - i - 1);
    }
    assert b[..8] == b[..];
  }

  /** copy(dst[lo:], src) of a source that fits. */
  method CopyTo(dst: array<byte>, lo: nat, src: seq<byte>)
    requires lo + |src| == dst.Length
    modifies dst
    ensures dst[..] == old(dst[..lo]) + src
  {
    forall i | 0 <= i < |src| {
      dst[lo + i] := src[i];
    }
  }

  datatype Created = InvalidKey | Created(cipher: Cipher)

  datatype PullResult = InvalidInputError | CryptoError | Pulled(text: seq<byte>, tag: byte)

  class Cipher {
    const p: Primitives
    var k: Key
    const nonce: array<byte>

    ghost predicate Valid()
      reads this, nonce
    {
      nonce.Length == 12
    }

    ghost function Value(): State
      reads this, nonce
      requires Valid()
    {
      State(k, nonce[..])
    }

    constructor (p: Primitives, k: Key)
      ensures Valid() && fresh(nonce) && this.p == p
      ensures Value() == State(k, Zeros(12))
    {
      this.p, this.k := p, k;
      nonce := new byte[12](_ => 0);
      new;
      assert nonce[..] == Zeros(12);
    }

    /** The counter becomes one and the inner nonce zero. */
    method Reset()
      requires Valid()
      modifies nonce
      ensures Value() == State(k, [1] + Zeros(11))
    {
      MemZero(nonce);
      nonce[0] := 1;
      assert nonce[..] == [1] + Zeros(11);
    }

    /** copy(nonce[4:], tail): at most 8 bytes are taken. */
    method SetInnerNonce(tail: seq<byte>)
      requires Valid()
      modifies nonce
      ensures var n := if |tail| < 8 then |tail| else 8;
              nonce[..] == old(nonce[..4]) + tail[..n] + old(nonce[4 + n..])
    {
      var n := if |tail| < 8 then |tail| else 8;
      for i := 0 to n
        invariant forall j :: 0 <= j < 4 || 4 + i <= j < 12 ==> nonce[j] == old(nonce[j])
        invariant forall j :: 0 <= j < i ==> nonce[4 + j] == tail[j]
      {
        nonce[4 + i] := tail[i];
      }
    }

    /** The header is the 24 random bytes the source draws here. */
    static method NewEncryptor(p: Primitives, key: seq<byte>, header: seq<byte>) returns (r: Created)
      requires |header| == 24
      ensures r.InvalidKey? <==> |key| != 32
      ensures r.Created? ==> fresh(r.cipher) && r.cipher.Valid() && fresh(r.cipher.nonce) && r.cipher.p == p
                             && r.cipher.Value() == Initial(p, key, header)
      ensures r.Created? ==> r.cipher.k == p.hchacha20(key, header[..16])
                             && r.cipher.nonce[..] == [1, 0, 0, 0] + header[16..]
    {
      if |key| != 32 {
        return InvalidKey;
      }
      var c := new Cipher(p, p.hchacha20(key, header[..16]));
      c.Reset();
      c.SetInnerNonce(header[16..]);
      return Created(c);
    }

    /** A short or long header is copied as far as it goes; one below 16 bytes is a fault of the caller. */
    static method NewDecryptor(p: Primitives, key: seq<byte>, header: seq<byte>) returns (r: Created)
      requires |header| >= 16
      ensures r.InvalidKey? <==> |key| != 32
      ensures r.Created? ==> fresh(r.cipher) && r.cipher.Valid() && fresh(r.cipher.nonce) && r.cipher.p == p
      ensures r.Created? ==> r.cipher.Value() == Initial(p, key, FitHeader(header))
      ensures r.Created? && |header| == 24 ==> r.cipher.k == p.hchacha20(key, header[..16])
                                               && r.cipher.nonce[..] == [1, 0, 0, 0] + header[16..]
    {
      if |key| != 32 {
        return InvalidKey;
      }
      var c := new Cipher(p, p.hchacha20(key, header[..16]));
      c.Reset();
      c.SetInnerNonce(header[16..]);
      assert FitHeader(header)[..16] == header[..16];
      return Created(c);
    }

    /** The one-time authenticator key is the first half of key stream block 0. */
    method OneTimeKey() returns (chacha: ChaCha20, poly: Poly1305, block: array<byte>)
      requires Valid()
      ensures fresh(chacha) && fresh(poly) && fresh(block) && block.Length == 64
      ensures chacha.p == p && chacha.key == Value() && chacha.position == 64
      ensures poly.p == p && poly.key == KeyStream(p, Value(), 0, 32) && poly.written == []
    {
      chacha := new ChaCha20(p, State(k, nonce[..]));
      block := new byte[64](_ => 0);
      assert block[..] == Zeros(64);
      chacha.XorKeyStream(block, 0, block[..]);
      ZeroCrypt(p, Value(), 0, 64);
      assert block[..] == block[0..64] == KeyStream(p, Value(), 0, 64);
      assert block[..32] == KeyStream(p, Value(), 0, 32);
      poly := new Poly1305(p, block[..32]);
    }

    /** What Push and Pull begin with: then block 1 is mixed with the given first byte. */
    method Begin(first: byte) returns (chacha: ChaCha20, poly: Poly1305, block: array<byte>)
      requires Valid()
      ensures fresh(chacha) && fresh(poly) && fresh(block) && block.Length == 64
      ensures chacha.p == p && chacha.key == Value() && chacha.position == 128
      ensures poly.p == p && poly.key == KeyStream(p, Value(), 0, 32) && poly.written == []
      ensures block[..] == Crypt(p, Value(), 64, [first] + Zeros(63))
    {
      chacha, poly, block := OneTimeKey();
      MemZero(block);
      block[0] := first;
      assert block[..] == [first] + Zeros(63);
      chacha.XorKeyStream(block, 0, block[..]);
      assert block[..] == block[0..64];
    }

    /** A length field is written. */
    method WriteLength(poly: Poly1305, slen: array<byte>, n: nat)
      requires slen.Length == 8
      modifies poly, slen
      ensures poly.written == old(poly.written) + LeBytes(n, 8)
    {
      PutUint64(slen, n);
      poly.Write(slen[..]);
    }

    /** Tag block, ciphertext, padding and the two length fields are authenticated. */
    method Authenticate(poly: Poly1305, block: seq<byte>, c: seq<byte>) returns (mac: Mac)
      requires Valid() && poly.p == p && poly.key == KeyStream(p, Value(), 0, 32) && poly.written == []
      modifies poly
      ensures mac == MacOf(p, Value(), block, c)
    {
      ghost var s := Value();
      poly.Write(block);
      assert poly.written == block;
      poly.Write(c);
      poly.Write(Zeros(PadLength(|c|)));
      var slen := new byte[8];
      WriteLength(poly, slen, 0);
      WriteLength(poly, slen, 64 + |c|);
      assert Value() == s;
      mac := poly.Sum();
    }

    /** The mac is mixed into the inner nonce and the counter is stepped. */
    method Absorb(mac: Mac)
      requires Valid()
      modifies nonce
      ensures Value() == Advance(old(Value()), mac)
    {
      XorBuf(nonce, 4, mac);
      assert nonce[..4] == old(nonce[..4]);
      ghost var inner := nonce[4..];
      BufInc(nonce, 0, 4);
      assert nonce[..] == nonce[0..4] + nonce[4..];
    }

    /** Seals a message and moves the state on. */
    method Push(plain: seq<byte>, tag: byte) returns (sealed: seq<byte>)
      requires Valid()
      modifies nonce
      ensures sealed == Sealed(p, old(Value()), Message(plain, tag))
      ensures Value() == AfterSeal(p, old(Value()), Message(plain, tag))
      ensures Value().k == old(k) && Counter(Value()) == (Counter(old(Value())) + 1) % 0x1_0000_0000
      ensures Value().nonce[4..] == XorSeq(old(Value()).nonce[4..], sealed[|plain| + 1..])
    {
      ChainedWithMac(p, Value(), Message(plain, tag));
      var mlen := |plain|;
      var out := new byte[mlen + OVERHEAD](_ => 0);
      var chacha, poly, block := Begin(tag);
      out[0] := block[0];
      chacha.XorKeyStream(out, 1, plain);
      ghost var body := out[1..1 + mlen];
      assert out[..1 + mlen] == [block[0]] + body;
      var mac := Authenticate(poly, block[..], out[1..1 + mlen]);
      CopyTo(out, 1 + mlen, mac);
      sealed := out[..];
      Absorb(mac);
    }

    /** The part of Pull up to the comparison: the decoded tag and the recomputed mac. */
    method Check(chunk: seq<byte>) returns (chacha: ChaCha20, tag: byte, mac: Mac)
      requires Valid() && |chunk| >= OVERHEAD
      ensures fresh(chacha) && chacha.p == p && chacha.key == Value() && chacha.position == 128
      ensures tag == Decoded(p, Value(), chunk)[0]
      ensures mac == ExpectedMac(p, Value(), chunk)
    {
      var block, poly;
      chacha, poly, block := Begin(chunk[0]);
      tag := block[0];
      ghost var decoded := block[..];
      block[0] := chunk[0];
      assert block[..] == decoded[0 := chunk[0]];
      mac := Authenticate(poly, block[..], chunk[1..|chunk| - 16]);
    }

    /** The ciphertext of a chunk mixed with the next stretch of key stream. */
    method Plain(chacha: ChaCha20, c: seq<byte>) returns (text: seq<byte>)
      modifies chacha
      ensures text == Crypt(chacha.p, chacha.key, old(chacha.position), c)
    {
      var m := new byte[|c|](_ => 0);
      chacha.XorKeyStream(m, 0, c);
      assert m[..] == m[0..|c|];
      text := m[..];
    }

    /** Opens a chunk; only an accepted one moves the state on. */
    method Pull(chunk: seq<byte>) returns (r: PullResult)
      requires Valid()
      modifies nonce
      ensures match Open(p, old(Value()), chunk)
              case InvalidInput => r == InvalidInputError && Value() == old(Value())
              case CryptoFailure => r == CryptoError && Value() == old(Value())
              case Accepted(m, next) => r == Pulled(m.text, m.tag) && Value() == next
      ensures r.Pulled? ==>
                && |chunk| >= OVERHEAD
                && Value().k == old(k) && Counter(Value()) == (Counter(old(Value())) + 1) % 0x1_0000_0000
                && Value().nonce[4..] == XorSeq(old(Value()).nonce[4..], chunk[|chunk| - 16..])
    {
      if |chunk| < OVERHEAD {
        return InvalidInputError;
      }
      var mlen := |chunk| - OVERHEAD;
      assert 1 + mlen == |chunk| - 16;
      ghost var s := Value();
      AcceptedFollows(p, s, chunk);
      var chacha, tag, mac := Check(chunk);
      assert Value() == s;
      if mac != chunk[1 + mlen..] {
        return CryptoError;
      }
      var m := Plain(chacha, chunk[1..1 + mlen]);
      Absorb(mac);
      return Pulled(m, tag);
    }
  }

  /** Encrypting zeros shows the key stream itself. */
  lemma ZeroCrypt(p: Primitives, s: State, at: nat, n: nat)
    ensures Crypt(p, s, at, Zeros(n)) == KeyStream(p, s, at, n)
  {
    var ks := KeyStream(p, s, at, n);
    forall i | 0 <= i < n ensures Xor(0, ks[i]) == ks[i] {
      XorLaws(ks[i], 0);
    }
  }
}
