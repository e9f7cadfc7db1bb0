/**
 Byte buffers: the little-endian value of a buffer, its inverse, and the
 in-place byte loops the stream cipher is built from.
 */
module Bytes {
  type byte = x: nat | x < 256

  function Pow2(n: nat): (p: nat)
    ensures p >= 1
  {
    if n == 0 then 1 else 2 * Pow2(n - 1)
  }

  /** Exclusive or of the low n bits of two numbers. */
  function XorBits(a: nat, b: nat, n: nat): (r: nat)
    ensures r < Pow2(n)
  {
    if n == 0 then 0 else (if a % 2 == b % 2 then 0 else 1) + 2 * XorBits(a / 2, b / 2, n - 1)
  }

  lemma {:induction false} XorBitsTwice(a: nat, b: nat, n: nat)
    requires a < Pow2(n)
    ensures XorBits(XorBits(a, b, n), b, n) == a
  {
    if n > 0 {
      var x := XorBits(a, b, n);
      XorBitsTwice(a / 2, b / 2, n - 1);
      assert x / 2 == XorBits(a / 2, b / 2, n - 1);
      assert x % 2 == if a % 2 == b % 2 then 0 else 1;
    }
  }

  lemma {:induction false} XorBitsZero(a: nat, n: nat)
    requires a < Pow2(n)
    ensures XorBits(a, 0, n) == a == XorBits(0, a, n)
  {
    if n > 0 {
      XorBitsZero(a / 2, n - 1);
    }
  }

  lemma {:induction false} XorBitsCommute(a: nat, b: nat, n: nat)
    ensures XorBits(a, b, n) == XorBits(b, a, n)
  {
    if n > 0 {
      XorBitsCommute(a / 2, b / 2, n - 1);
    }
  }

  /** Bit i of a number. */
  predicate Bit(a: nat, i: nat) {
    if i == 0 then a % 2 == 1 else Bit(a / 2, i - 1)
  }

  /** A bit of the exclusive or is set exactly when it is set in one of the two numbers only. */
  lemma {:induction false} XorBitsBit(a: nat, b: nat, n: nat, i: nat)
    requires i < n
    ensures Bit(XorBits(a, b, n), i) <==> Bit(a, i) != Bit(b, i)
  {
    assert XorBits(a, b, n) / 2 == XorBits(a / 2, b / 2, n - 1);
    if i > 0 {
      XorBitsBit(a / 2, b / 2, n - 1, i - 1);
    }
  }

  lemma EightBits()
    ensures Pow2(8) == 256
  {}

  function Xor(a: byte, b: byte): (r: byte) {
    EightBits();
    XorBits(a, b, 8)
  }

  /** Xor with the same byte twice is the identity, and with zero is no change. */
  lemma XorLaws(a: byte, b: byte)
    ensures Xor(Xor(a, b), b) == a
    ensures Xor(a, 0) == a == Xor(0, a)
  {
    EightBits();
    XorBitsTwice(a, b, 8);
    XorBitsZero(a, 8);
  }

  lemma XorCommutes(a: byte, b: byte)
    ensures Xor(a, b) == Xor(b, a)
  {
    XorBitsCommute(a, b, 8);
  }

  /** The exclusive or of two bytes, bit by bit. */
  lemma XorIsBitwise(a: byte, b: byte, i: nat)
    requires i < 8
    ensures Bit(Xor(a, b), i) <==> Bit(a, i) != Bit(b, i)
  {
    XorBitsBit(a, b, 8, i);
  }

  /** A run of zero bytes. */
  function Zeros(n: nat): (s: seq<byte>)
    ensures |s| == n
    ensures forall i :: 0 <= i < n ==> s[i] == 0
  {
    seq(n, _ => 0)
  }

  /** Position-wise exclusive or, over the length of the first argument. */
  function XorSeq(a: seq<byte>, b: seq<byte>): (r: seq<byte>)
    requires |a| <= |b|
    ensures |r| == |a|
    ensures forall i :: 0 <= i < |a| ==> r[i] == Xor(a[i], b[i])
  {
    seq(|a|, i requires 0 <= i < |a| => Xor(a[i], b[i]))
  }

  function Pow256(n: nat): (p: nat)
    ensures p >= 1
  {
    if n == 0 then 1 else 256 * Pow256(n - 1)
  }

  /** The number a buffer spells, least significant byte first. */
  function LeValue(s: seq<byte>): (v: nat)
    ensures v < Pow256(|s|)
  {
    if s == [] then 0 else s[0] + 256 * LeValue(s[1..])
  }

  /** The low n bytes of v, least significant byte first. */
  function LeBytes(v: nat, n: nat): (s: seq<byte>)
    ensures |s| == n
  {
    if n == 0 then [] else [v % 256] + LeBytes(v / 256, n - 1)
  }

  /** The number after v among the numbers of n bytes: the last is followed by zero. */
  function NextNumber(v: nat, n: nat): (w: nat)
    requires v < Pow256(n)
    ensures w < Pow256(n)
  {
    if v + 1 == Pow256(n) then 0 else v + 1
  }

  /** The buffer spelling the next number. */
  function Incremented(s: seq<byte>): (r: seq<byte>)
    ensures |r| == |s|
  {
    LeBytes(NextNumber(LeValue(s), |s|), |s|)
  }

  lemma {:induction false} ValueOfBytes(v: nat, n: nat)
    requires v < Pow256(n)
    ensures LeValue(LeBytes(v, n)) == v
  {
    if n > 0 {
      ValueOfBytes(v / 256, n - 1);
      assert LeBytes(v, n)[1..] == LeBytes(v / 256, n - 1);
    }
  }

  lemma {:induction false} BytesOfValue(s: seq<byte>)
    ensures LeBytes(LeValue(s), |s|) == s
  {
    if s != [] {
      var v := LeValue(s);
      assert v % 256 == s[0] && v / 256 == LeValue(s[1..]);
      BytesOfValue(s[1..]);
      assert s == [s[0]] + s[1..];
    }
  }

  /** Buffers of one length are determined by their values. */
  lemma ValueInjective(a: seq<byte>, b: seq<byte>)
    requires |a| == |b| && LeValue(a) == LeValue(b)
    ensures a == b
  {
    BytesOfValue(a);
    BytesOfValue(b);
  }

  lemma IncrementedValue(s: seq<byte>)
    ensures LeValue(Incremented(s)) == NextNumber(LeValue(s), |s|)
  {
    ValueOfBytes(NextNumber(LeValue(s), |s|), |s|);
  }

  /** Taking the next number adds one modulo 256^n. */
  lemma NextIsModular(v: nat, n: nat)
    requires v < Pow256(n)
    ensures NextNumber(v, n) == (v + 1) % Pow256(n)
  {
    SmallModulus(v + 1, Pow256(n));
  }

  lemma SmallModulus(v: nat, p: nat)
    requires 0 < v <= p
    ensures v % p == if v == p then 0 else v
  {}

  lemma MulSwap(a: int, b: int, c: int)
    ensures a * (b * c) == b * (a * c)
  {}

  lemma {:induction false} ValueOfSnoc(s: seq<byte>, b: byte)
    ensures LeValue(s + [b]) == LeValue(s) + b * Pow256(|s|)
  {
    if s == [] {
      assert s + [b] == [b];
    } else {
      assert (s + [b])[1..] == s[1..] + [b];
      ValueOfSnoc(s[1..], b);
      MulSwap(256, b, Pow256(|s| - 1));
    }
  }

  lemma ValueOfOne()
    ensures LeValue([1, 0, 0, 0]) == 1
  {}

  /** Xor with the same pad twice is the identity. */
  lemma XorTwice(a: seq<byte>, pad: seq<byte>)
    requires |a| <= |pad|
    ensures XorSeq(XorSeq(a, pad), pad) == a
  {
    forall i | 0 <= i < |a| ensures Xor(Xor(a[i], pad[i]), pad[i]) == a[i] {
      XorLaws(a[i], pad[i]);
    }
  }

  method MemZero(b: array<byte>)
    modifies b
    ensures b[..] == Zeros(b.Length)
  {
    for i := 0 to b.Length
      invariant forall j :: 0 <= j < i ==> b[j] == 0
    {
      b[i] := 0;
    }
  }

  /** xorBuf on the slice buf[lo:]: every byte is replaced by its xor with the input. */
  method XorBuf(buf: array<byte>, lo: nat, input: seq<byte>)
    requires lo <= buf.Length && buf.Length - lo <= |input|
    modifies buf
    ensures buf[..lo] == old(buf[..lo])
    ensures buf[lo..] == XorSeq(old(buf[lo..]), input)
  {
    for i := lo to buf.Length
      invariant forall j :: 0 <= j < lo || i <= j < buf.Length ==> buf[j] == old(buf[j])
      invariant forall j :: lo <= j < i ==> buf[j] == Xor(old(buf[j]), input[j - lo])
    {
      buf[i] := Xor(buf[i], input[i - lo]);
    }
    ghost var was := old(buf[lo..]);
    forall k | 0 <= k < buf.Length - lo ensures buf[lo + k] == Xor(was[k], input[k]) {
      assert buf[lo + k] == Xor(old(buf[lo + k]), input[lo + k - lo]);
    }
    assert buf[lo..] == XorSeq(was, input);
  }

  /** A carry bit weighed at the end of a buffer of n bytes. */
  ghost function CarryAt(c: nat, n: nat): nat {
    if c == 0 then 0 else Pow256(n)
  }

  /** One turn of the carry loop keeps the value of the bytes done so far, carry included. */
  lemma CarryTurn(done: seq<byte>, was: seq<byte>, c: nat, b: byte, digit: byte, carry: nat)
    requires |done| == |was| && c <= 1 && carry <= 1 && c + b == digit + 256 * carry
    requires LeValue(done) + CarryAt(c, |done|) == LeValue(was) + 1
    ensures LeValue(done + [digit]) + CarryAt(carry, |done| + 1) == LeValue(was + [b]) + 1
  {
    ValueOfSnoc(done, digit);
    ValueOfSnoc(was, b);
    Weighed(c, b, digit, carry, Pow256(|done|));
  }

  lemma Weighed(c: nat, b: nat, digit: nat, carry: nat, p: nat)
    requires c <= 1 && carry <= 1 && c + b == digit + 256 * carry
    ensures digit * p + (if carry == 0 then 0 else 256 * p) == (if c == 0 then 0 else p) + b * p
  {
    assert (c + b) * p == (digit + 256 * carry) * p;
  }

  /** A last carry is dropped. */
  lemma CarryDone(done: seq<byte>, was: seq<byte>, c: nat)
    requires |done| == |was| && c <= 1 && LeValue(done) + CarryAt(c, |done|) == LeValue(was) + 1
    ensures done == Incremented(was)
  {
    assert LeValue(done) == NextNumber(LeValue(was), |was|);
    IncrementedValue(was);
    ValueInjective(done, Incremented(was));
  }

  /** The sum of a byte and the carry: its low byte and what is carried on. */
  method AddCarry(c: nat, b: byte) returns (digit: byte, carry: nat)
    requires c <= 1
    ensures carry <= 1 && c + b == digit + 256 * carry
  {
    digit, carry := (c + b) % 256, (c + b) / 256;
  }

  /** bufInc on the slice n[lo:hi]: it comes to spell the next number. */
  method BufInc(n: array<byte>, lo: nat, hi: nat)
    requires lo <= hi <= n.Length
    modifies n
    ensures n[..lo] == old(n[..lo]) && n[hi..] == old(n[hi..])
    ensures n[lo..hi] == Incremented(old(n[lo..hi]))
  {
    var c: nat := 1;
    ghost var n0, done: seq<byte> := n[..], [];
    for i := lo to hi
      invariant c <= 1 && |done| == i - lo
      invariant n[..i] == n0[..lo] + done && n[i..] == n0[i..]
      invariant LeValue(done) + CarryAt(c, |done|) == LeValue(n0[lo..i]) + 1
    {
      assert n[i] == n0[i] && n0[lo..i + 1] == n0[lo..i] + [n0[i]];
      var digit, carry := AddCarry(c, n[i]);
      CarryTurn(done, n0[lo..i], c, n[i], digit, carry);
      n[i], c, done := digit, carry, done + [digit];
    }
    assert n[lo..hi] == done;
    CarryDone(done, n0[lo..hi], c);
  }
}
