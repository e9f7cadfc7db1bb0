/**
 Whole streams: a list of messages sealed one after the other, and a receiver that
 is fed chunks and skips the ones it rejects.
 */
module Streams {
  import opened Bytes
  import opened SecretStream

  function StateAfter(p: Primitives, s: State, ms: seq<Message>): State
    decreases |ms|
  {
    if ms == [] then s else StateAfter(p, AfterSeal(p, s, ms[0]), ms[1..])
  }

  function SealAll(p: Primitives, s: State, ms: seq<Message>): (cs: seq<seq<byte>>)
    ensures |cs| == |ms|
    decreases |ms|
  {
    if ms == [] then [] else [Sealed(p, s, ms[0])] + SealAll(p, AfterSeal(p, s, ms[0]), ms[1..])
  }

  datatype Received = Received(messages: seq<Message>, state: State)

  /** The receiver's messages and final state when it is fed the chunks in order. */
  function OpenAll(p: Primitives, s: State, chunks: seq<seq<byte>>): Received
    decreases |chunks|
  {
    if chunks == [] then Received([], s)
    else match Open(p, s, chunks[0])
      case Accepted(m, next) =>
        var rest := OpenAll(p, next, chunks[1..]);
        Received([m] + rest.messages, rest.state)
      case _ => OpenAll(p, s, chunks[1..])
  }

  /** The chunks among them that the receiver accepts. */
  function AcceptedChunks(p: Primitives, s: State, chunks: seq<seq<byte>>): seq<seq<byte>>
    decreases |chunks|
  {
    if chunks == [] then []
    else match Open(p, s, chunks[0])
      case Accepted(_, next) => [chunks[0]] + AcceptedChunks(p, next, chunks[1..])
      case _ => AcceptedChunks(p, s, chunks[1..])
  }

  /**
   The sealed messages arrive in order, with other chunks anywhere between them, each
   one rejected in the state the sender has reached.
   */
  ghost predicate Delivers(p: Primitives, s: State, ms: seq<Message>, chunks: seq<seq<byte>>)
    decreases |chunks|
  {
    if chunks == [] then ms == []
    else
      || (!Open(p, s, chunks[0]).Accepted? && Delivers(p, s, ms, chunks[1..]))
      || (ms != [] && chunks[0] == Sealed(p, s, ms[0])
          && Delivers(p, AfterSeal(p, s, ms[0]), ms[1..], chunks[1..]))
  }

  /** Round trip with noise: the receiver gets exactly the messages and the sender's state. */
  lemma {:induction false} RoundTrip(p: Primitives, s: State, ms: seq<Message>, chunks: seq<seq<byte>>)
    requires Delivers(p, s, ms, chunks)
    ensures OpenAll(p, s, chunks) == Received(ms, StateAfter(p, s, ms))
    decreases |chunks|
  {
    if chunks != [] {
      if ms != [] && chunks[0] == Sealed(p, s, ms[0])
         && Delivers(p, AfterSeal(p, s, ms[0]), ms[1..], chunks[1..])
      {
        var next := AfterSeal(p, s, ms[0]);
        AcceptsExactlySealed(p, s, chunks[0], ms[0], next);
        RoundTrip(p, next, ms[1..], chunks[1..]);
        assert ms == [ms[0]] + ms[1..];
      } else {
        RoundTrip(p, s, ms, chunks[1..]);
      }
    }
  }

  /** Whatever is fed in, the accepted chunks are the received messages sealed in order. */
  lemma {:induction false} OnlySealedIsAccepted(p: Primitives, s: State, chunks: seq<seq<byte>>)
    ensures
      var got := OpenAll(p, s, chunks);
      AcceptedChunks(p, s, chunks) == SealAll(p, s, got.messages) &&
      got.state == StateAfter(p, s, got.messages)
    decreases |chunks|
  {
    if chunks != [] {
      match Open(p, s, chunks[0])
      case Accepted(m, next) =>
        AcceptsExactlySealed(p, s, chunks[0], m, next);
        OnlySealedIsAccepted(p, next, chunks[1..]);
        assert OpenAll(p, s, chunks).messages[1..] == OpenAll(p, next, chunks[1..]).messages;
      case _ =>
        OnlySealedIsAccepted(p, s, chunks[1..]);
    }
  }

  lemma {:induction false} SealedStreamDelivers(p: Primitives, s: State, ms: seq<Message>)
    ensures Delivers(p, s, ms, SealAll(p, s, ms))
    decreases |ms|
  {
    if ms != [] {
      SealedStreamDelivers(p, AfterSeal(p, s, ms[0]), ms[1..]);
    }
  }

  lemma {:induction false} SealAllOfPrefix(p: Primitives, s: State, ms: seq<Message>, i: nat)
    requires i <= |ms|
    ensures SealAll(p, s, ms)[..i] == SealAll(p, s, ms[..i])
    decreases i
  {
    if i > 0 {
      var next := AfterSeal(p, s, ms[0]);
      SealAllOfPrefix(p, next, ms[1..], i - 1);
      var pre := ms[..i];
      assert pre[0] == ms[0] && pre[1..] == ms[1..][..i - 1];
      assert SealAll(p, s, pre) == [Sealed(p, s, ms[0])] + SealAll(p, next, pre[1..]);
      PrefixOfCons(Sealed(p, s, ms[0]), SealAll(p, next, ms[1..]), i);
    }
  }

  lemma PrefixOfCons(c: seq<byte>, rest: seq<seq<byte>>, i: nat)
    requires 0 < i <= |rest| + 1
    ensures ([c] + rest)[..i] == [c] + rest[..i - 1]
  {}

  /** The two ends hold the same key and nonce after every chunk of the stream. */
  lemma InStep(p: Primitives, s: State, ms: seq<Message>, i: nat)
    requires i <= |ms|
    ensures OpenAll(p, s, SealAll(p, s, ms)[..i]) == Received(ms[..i], StateAfter(p, s, ms[..i]))
  {
    SealAllOfPrefix(p, s, ms, i);
    SealedStreamDelivers(p, s, ms[..i]);
    RoundTrip(p, s, ms[..i], SealAll(p, s, ms[..i]));
  }

  /** Two streams from one state with the same chunks carry the same messages. */
  lemma SealAllInjective(p: Primitives, s: State, ms: seq<Message>, ms': seq<Message>)
    requires SealAll(p, s, ms) == SealAll(p, s, ms')
    ensures ms == ms'
  {
    InStep(p, s, ms, |ms|);
    InStep(p, s, ms', |ms'|);
    assert ms[..|ms|] == ms && ms'[..|ms'|] == ms';
  }

  // ---- the inner nonce ----

  /** Bytes that have absorbed the macs of the chunks, the last 16 bytes of each, in turn. */
  function Absorbed(inner: seq<byte>, chunks: seq<seq<byte>>): (r: seq<byte>)
    requires |inner| == 8 && forall c :: c in chunks ==> |c| >= OVERHEAD
    ensures |r| == 8
    decreases |chunks|
  {
    if chunks == [] then inner
    else Absorbed(XorSeq(inner, chunks[0][|chunks[0]| - 16..]), chunks[1..])
  }

  /** The chain: the inner nonce after a stream is the first one with the macs of all chunks on the wire mixed in. */
  lemma {:induction false} ChainAfter(p: Primitives, s: State, ms: seq<Message>)
    ensures forall c :: c in SealAll(p, s, ms) ==> |c| >= OVERHEAD
    ensures StateAfter(p, s, ms).nonce[4..] == Absorbed(s.nonce[4..], SealAll(p, s, ms))
    decreases |ms|
  {
    if ms != [] {
      var next := AfterSeal(p, s, ms[0]);
      ChainedWithMac(p, s, ms[0]);
      ChainAfter(p, next, ms[1..]);
      assert SealAll(p, s, ms)[1..] == SealAll(p, next, ms[1..]);
    }
  }

  // ---- the counter ----

  lemma CounterStep(p: Primitives, s: State, m: Message)
    ensures Counter(AfterSeal(p, s, m)) == if Counter(s) == 0xFFFF_FFFF then 0 else Counter(s) + 1
    ensures AfterSeal(p, s, m).k == s.k
  {
    ChainedWithMac(p, s, m);
  }

  lemma ResidueStep(x: nat, k: nat)
    requires x < 0x1_0000_0000
    ensures ((if x == 0xFFFF_FFFF then 0 else x + 1) + k) % 0x1_0000_0000 == (x + 1 + k) % 0x1_0000_0000
  {}

  /** After k messages the counter has moved k steps and the key has not moved at all. */
  lemma {:induction false} CounterAfter(p: Primitives, s: State, ms: seq<Message>)
    ensures Counter(StateAfter(p, s, ms)) == (Counter(s) + |ms|) % 0x1_0000_0000
    ensures StateAfter(p, s, ms).k == s.k
    decreases |ms|
  {
    if ms != [] {
      CounterStep(p, s, ms[0]);
      CounterAfter(p, AfterSeal(p, s, ms[0]), ms[1..]);
      ResidueStep(Counter(s), |ms| - 1);
    }
  }

  /** The first counter of a stream is 1. */
  lemma InitialCounter(p: Primitives, key: Key, header: seq<byte>)
    requires |header| == 24
    ensures Counter(Initial(p, key, header)) == 1
  {
    assert Initial(p, key, header).nonce[..4] == [1, 0, 0, 0];
    ValueOfOne();
  }

  /** Nonce freshness: messages i and j of a stream fewer than 2^32 apart use different nonces. */
  lemma NonceFresh(p: Primitives, s: State, ms: seq<Message>, i: nat, j: nat)
    requires i < j <= |ms| && j - i < 0x1_0000_0000
    ensures StateAfter(p, s, ms[..i]).k == StateAfter(p, s, ms[..j]).k
    ensures StateAfter(p, s, ms[..i]).nonce != StateAfter(p, s, ms[..j]).nonce
  {
    CounterAfter(p, s, ms[..i]);
    CounterAfter(p, s, ms[..j]);
    DistinctResidues(Counter(s) + i, Counter(s) + j);
  }

  lemma DistinctResidues(x: nat, y: nat)
    requires x < y && y - x < 0x1_0000_0000
    ensures x % 0x1_0000_0000 != y % 0x1_0000_0000
  {}
}
