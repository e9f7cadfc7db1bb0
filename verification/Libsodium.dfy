/**
 What libsodium does and the port leaves as a TODO: after a message with the rekey
 bit, or when the counter wraps to zero, the key and inner nonce are replaced.
 */
module Libsodium {
  import opened Bytes
  import opened SecretStream
  import opened Streams

  predicate HasRekeyBit(tag: byte) {
    (tag / 2) % 2 == 1
  }

  /** Key and inner nonce encrypt themselves, and the counter restarts at 1. */
  function Rekeyed(p: Primitives, s: State): State {
    var renewed := Crypt(p, s, 0, s.k + s.nonce[4..]);
    State(renewed[..32], [1, 0, 0, 0] + renewed[32..])
  }

  predicate Rekeys(s: State, tag: byte) {
    HasRekeyBit(tag) || Counter(s) == 0
  }

  function SodiumAfter(p: Primitives, s: State, m: Message): State {
    var next := AfterSeal(p, s, m);
    if Rekeys(next, m.tag) then Rekeyed(p, next) else next
  }

  function SodiumStateAfter(p: Primitives, s: State, ms: seq<Message>): State
    decreases |ms|
  {
    if ms == [] then s else SodiumStateAfter(p, SodiumAfter(p, s, ms[0]), ms[1..])
  }

  function SodiumSealAll(p: Primitives, s: State, ms: seq<Message>): (cs: seq<seq<byte>>)
    ensures |cs| == |ms|
    decreases |ms|
  {
    if ms == [] then [] else [Sealed(p, s, ms[0])] + SodiumSealAll(p, SodiumAfter(p, s, ms[0]), ms[1..])
  }

  /** libsodium's pull: the checks are those of Open, only the successor state differs. */
  function SodiumOpen(p: Primitives, s: State, chunk: seq<byte>): Opened {
    match Open(p, s, chunk)
    case Accepted(m, next) => Accepted(m, SodiumAfter(p, s, m))
    case rejected => rejected
  }

  /** A stream started at counter n that never rekeys before its last message. */
  ghost predicate RekeysOnlyAtEnd(n: nat, ms: seq<Message>) {
    && n + |ms| <= 0x1_0000_0000
    && forall i :: 0 <= i < |ms| - 1 ==> !HasRekeyBit(ms[i].tag)
  }

  /** Before the last message of such a stream both move to the same state, with the rest still such a stream. */
  lemma HeadAgrees(p: Primitives, s: State, ms: seq<Message>)
    requires |ms| > 1 && RekeysOnlyAtEnd(Counter(s), ms)
    ensures SodiumAfter(p, s, ms[0]) == AfterSeal(p, s, ms[0])
    ensures RekeysOnlyAtEnd(Counter(AfterSeal(p, s, ms[0])), ms[1..])
  {
    CounterStep(p, s, ms[0]);
    assert forall i :: 0 <= i < |ms[1..]| - 1 ==> ms[1..][i] == ms[i + 1];
  }

  /** On such a stream the port and libsodium write the same bytes and pass through the same states. */
  lemma {:induction false} SameBytes(p: Primitives, s: State, ms: seq<Message>)
    requires RekeysOnlyAtEnd(Counter(s), ms)
    ensures SodiumSealAll(p, s, ms) == SealAll(p, s, ms)
    ensures ms != [] ==> SodiumStateAfter(p, s, ms[..|ms| - 1]) == StateAfter(p, s, ms[..|ms| - 1])
    decreases |ms|
  {
    if |ms| > 1 {
      HeadAgrees(p, s, ms);
      SameBytes(p, AfterSeal(p, s, ms[0]), ms[1..]);
      assert ms[..|ms| - 1][1..] == ms[1..][..|ms[1..]| - 1];
    }
  }

  /** The rekey bit is the second one: the tags of a rekey and of the end of a stream have it. */
  lemma RekeyTags(tag: byte)
    ensures HasRekeyBit(tag) <==> Bit(tag, 1)
    ensures HasRekeyBit(2) && HasRekeyBit(TAG_FINAL) && !HasRekeyBit(TAG_MESSAGE) && !HasRekeyBit(1)
  {}

  /** A rekey byte by byte: key and inner nonce under the first 40 bytes of key stream, and the counter 1. */
  lemma RekeyedBytes(p: Primitives, s: State)
    ensures Counter(Rekeyed(p, s)) == 1
    ensures forall i :: 0 <= i < 32 ==> Rekeyed(p, s).k[i] == Xor(s.k[i], p.keystream(s.k, s.nonce, i))
    ensures forall i {:trigger Rekeyed(p, s).nonce[i]} :: 4 <= i < 12 ==>
              Rekeyed(p, s).nonce[i] == Xor(s.nonce[i], p.keystream(s.k, s.nonce, 28 + i))
  {
    ValueOfOne();
    assert Rekeyed(p, s).nonce[..4] == [1, 0, 0, 0];
  }

  // ---- the condition is exact ----

  /** Primitives whose key stream shows, in the tag byte, whether the counter is 1. */
  function Telltale(): Primitives {
    Primitives(
      (k: Key, n: Nonce, at: nat) => if n[..4] == [1, 0, 0, 0] then 1 else 0,
      (k: Key, t: seq<byte>) => Zeros(16),
      (k: Key, h: seq<byte>) => k)
  }

  lemma XorOne(b: byte)
    ensures Xor(b, 1) != Xor(b, 0)
  {}

  lemma CounterIsOne(s: State)
    ensures s.nonce[..4] == [1, 0, 0, 0] <==> Counter(s) == 1
  {
    ValueOfOne();
    if Counter(s) == 1 {
      ValueInjective(s.nonce[..4], [1, 0, 0, 0]);
    }
  }

  lemma TelltaleTagByte(s: State, m: Message)
    ensures Sealed(Telltale(), s, m)[0] == Xor(m.tag, if Counter(s) == 1 then 1 else 0)
  {
    CounterIsOne(s);
  }

  /** The chunk after a rekey differs from the one without it. */
  lemma RekeyShowsNext(s: State, m: Message, m': Message)
    requires 1 <= Counter(s) <= 0xFFFF_FFFF && Rekeys(AfterSeal(Telltale(), s, m), m.tag)
    ensures Sealed(Telltale(), SodiumAfter(Telltale(), s, m), m')[0] != Sealed(Telltale(),
        AfterSeal(Telltale(), s, m), m')[0]
  {
    var next, sodium := AfterSeal(Telltale(), s, m), SodiumAfter(Telltale(), s, m);
    CounterStep(Telltale(), s, m);
    ValueOfOne();
    assert sodium.nonce[..4] == [1, 0, 0, 0];
    TelltaleTagByte(next, m');
    TelltaleTagByte(sodium, m');
    XorOne(m'.tag);
  }

  /** An early rekey shows: some primitives make the two ciphertexts differ. */
  lemma {:induction false} EarlyRekeyShows(s: State, ms: seq<Message>)
    requires 1 <= Counter(s) <= 0xFFFF_FFFF
    requires !RekeysOnlyAtEnd(Counter(s), ms)
    ensures SodiumSealAll(Telltale(), s, ms) != SealAll(Telltale(), s, ms)
    decreases |ms|
  {
    var p := Telltale();
    var next, sodium := AfterSeal(p, s, ms[0]), SodiumAfter(p, s, ms[0]);
    CounterStep(p, s, ms[0]);
    if Rekeys(next, ms[0].tag) {
      RekeyShowsNext(s, ms[0], ms[1]);
      assert SodiumSealAll(p, s, ms)[1] != SealAll(p, s, ms)[1];
    } else {
      EarlyRekeyShows(next, ms[1..]);
      assert SodiumSealAll(p, s, ms)[1..] != SealAll(p, s, ms)[1..];
    }
  }

  /** Refinement of libsodium, exactly: for all primitives the bytes agree iff no rekey is due before the end. */
  lemma RefinesLibsodium(s: State, ms: seq<Message>)
    requires Counter(s) == 1
    ensures (forall p :: SodiumSealAll(p, s, ms) == SealAll(p, s, ms))
       <==> |ms| <= 0xFFFF_FFFF && forall i :: 0 <= i < |ms| - 1 ==> !HasRekeyBit(ms[i].tag)
  {
    if RekeysOnlyAtEnd(1, ms) {
      forall p ensures SodiumSealAll(p, s, ms) == SealAll(p, s, ms) {
        SameBytes(p, s, ms);
      }
    } else {
      EarlyRekeyShows(s, ms);
    }
  }

  /** The same of a stream as the encryptor starts it: its counter is 1. */
  lemma NewStreamRefines(key: Key, header: seq<byte>, ms: seq<Message>)
    requires |header| == 24
    ensures (forall p :: SodiumSealAll(p, Initial(p, key, header), ms) == SealAll(p, Initial(p, key, header), ms))
       <==> |ms| <= 0xFFFF_FFFF && forall i :: 0 <= i < |ms| - 1 ==> !HasRekeyBit(ms[i].tag)
  {
    if RekeysOnlyAtEnd(1, ms) {
      forall p ensures SodiumSealAll(p, Initial(p, key, header), ms) == SealAll(p, Initial(p, key, header), ms) {
        InitialCounter(p, key, header);
        SameBytes(p, Initial(p, key, header), ms);
      }
    } else {
      InitialCounter(Telltale(), key, header);
      EarlyRekeyShows(Initial(Telltale(), key, header), ms);
    }
  }
}
