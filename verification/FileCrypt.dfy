/**
 File decryption in chunks. A file is the concatenation of its sealed pieces, and
 the decryptors cut it again at fixed offsets, so everything rests on alignment.
 One set of functions serves both ends: `rekey` is true for libsodium, which the
 Rust client calls, and false for the Go port.
 */
module FileCrypt {
  import opened Bytes
  import opened SecretStream
  import opened Streams
  import opened Libsodium
  import opened StreamCipher

  const PIECE: nat := 4 * 1024 * 1024
  const CHUNK: nat := PIECE + OVERHEAD

  datatype Outcome = Failed | Plain(text: seq<byte>)

  function Min(a: nat, b: nat): nat {
    if a < b then a else b
  }

  function Concat(cs: seq<seq<byte>>): seq<byte> {
    if cs == [] then [] else cs[0] + Concat(cs[1..])
  }

  function Texts(ms: seq<Message>): seq<byte> {
    if ms == [] then [] else ms[0].text + Texts(ms[1..])
  }

  function AfterWith(p: Primitives, s: State, m: Message, rekey: bool): State {
    if rekey then SodiumAfter(p, s, m) else AfterSeal(p, s, m)
  }

  function SealAllWith(p: Primitives, s: State, ms: seq<Message>, rekey: bool): seq<seq<byte>> {
    if rekey then SodiumSealAll(p, s, ms) else SealAll(p, s, ms)
  }

  function OpenWith(p: Primitives, s: State, chunk: seq<byte>, rekey: bool): Opened {
    if rekey then SodiumOpen(p, s, chunk) else Open(p, s, chunk)
  }

  /** The encrypted file. */
  function FileOf(p: Primitives, s: State, ms: seq<Message>, rekey: bool): seq<byte> {
    Concat(SealAllWith(p, s, ms, rekey))
  }

  /** Full non-final pieces, then one final piece that may be short. */
  ghost predicate WellCut(ms: seq<Message>) {
    && ms != []
    && (forall i :: 0 <= i < |ms| - 1 ==> |ms[i].text| == PIECE && ms[i].tag != TAG_FINAL)
    && |ms[|ms| - 1].text| <= PIECE && ms[|ms| - 1].tag == TAG_FINAL
  }

  lemma OnePiece(text: seq<byte>)
    requires |text| <= PIECE
    ensures WellCut([Message(text, TAG_FINAL)]) && Texts([Message(text, TAG_FINAL)]) == text
  {
    assert [Message(text, TAG_FINAL)][1..] == [];
  }

  lemma PieceInFront(text: seq<byte>, rest: seq<Message>)
    requires |text| == PIECE && WellCut(rest)
    ensures
      var ms := [Message(text, TAG_MESSAGE)] + rest;
      WellCut(ms) && Texts(ms) == text + Texts(rest)
  {
    var ms := [Message(text, TAG_MESSAGE)] + rest;
    assert ms[1..] == rest;
    assert forall i :: 0 < i < |ms| ==> ms[i] == rest[i - 1];
  }

  /** The canonical cut of a text: full pieces, and a last one, possibly empty, that is marked final. */
  function Cut(text: seq<byte>): (ms: seq<Message>)
    ensures WellCut(ms) && Texts(ms) == text
    decreases |text|
  {
    if |text| <= PIECE then
      OnePiece(text);
      [Message(text, TAG_FINAL)]
    else
      var rest := Cut(text[PIECE..]);
      PieceInFront(text[..PIECE], rest);
      assert text[..PIECE] + text[PIECE..] == text;
      [Message(text[..PIECE], TAG_MESSAGE)] + rest
  }

  /** The number of pieces, and the size of a chunk before the last: 4 MiB of text and 17 bytes. */
  lemma {:induction false} CutSizes(p: Primitives, s: State, text: seq<byte>, i: nat)
    requires i < |Cut(text)|
    ensures |Cut(text)| == if text == [] then 1 else (|text| + 4194303) / 4194304
    ensures i < |Cut(text)| - 1 ==>
              Cut(text)[i].tag == 0 && |Sealed(p, s, Cut(text)[i])| == 4194304 + 17 == CHUNK
    ensures Cut(text)[|Cut(text)| - 1].tag == 3
    decreases |text|
  {
    if |text| > PIECE {
      CutSizes(p, s, text[PIECE..], if i == 0 then 0 else i - 1);
    }
  }

  lemma FileOfHead(p: Primitives, s: State, ms: seq<Message>, rekey: bool)
    requires ms != []
    ensures FileOf(p, s, ms, rekey) == Sealed(p, s, ms[0]) + FileOf(p, AfterWith(p, s, ms[0], rekey), ms[1..], rekey)
  {}

  lemma OpensSealed(p: Primitives, s: State, m: Message, rekey: bool)
    ensures OpenWith(p, s, Sealed(p, s, m), rekey) == Accepted(m, AfterWith(p, s, m, rekey))
  {
    AcceptsExactlySealed(p, s, Sealed(p, s, m), m, AfterSeal(p, s, m));
  }

  lemma OpenedWasSealed(p: Primitives, s: State, chunk: seq<byte>, rekey: bool)
    requires OpenWith(p, s, chunk, rekey).Accepted?
    ensures
      var r := OpenWith(p, s, chunk, rekey);
      chunk == Sealed(p, s, r.message) && r.next == AfterWith(p, s, r.message, rekey)
  {
    var r := Open(p, s, chunk);
    AcceptsExactlySealed(p, s, chunk, r.message, r.next);
  }

  // ---- decryption, with the sizes of successive reads given by the environment ----

  /** What read number i returns when `left` bytes are left: at least one byte, never more than the buffer. */
  function ReadSize(sizes: nat -> nat, i: nat, left: nat): (n: nat)
    requires left > 0
    ensures 1 <= n <= left && n <= CHUNK
  {
    var most := Min(CHUNK, left);
    if sizes(i) == 0 then 1 else Min(sizes(i), most)
  }

  /** Reads are full when each one fills the buffer or reaches the end of the file. */
  ghost predicate FullReads(sizes: nat -> nat) {
    forall i: nat :: sizes(i) >= CHUNK
  }

  function Prepend(text: seq<byte>, r: Outcome): Outcome {
    match r
    case Plain(rest) => Plain(text + rest)
    case Failed => Failed
  }

  /** The loop from read number i on: decrypt, append, stop at the final tag or the end of the data. */
  function DecryptFrom(p: Primitives, s: State, data: seq<byte>, sizes: nat -> nat, i: nat, rekey: bool): Outcome
    decreases |data|
  {
    if data == [] then Plain([])
    else
      var n := ReadSize(sizes, i, |data|);
      match OpenWith(p, s, data[..n], rekey)
      case Accepted(m, next) =>
        if m.tag == TAG_FINAL then Plain(m.text)
        else Prepend(m.text, DecryptFrom(p, next, data[n..], sizes, i + 1, rekey))
      case _ => Failed
  }

  /** Read number i covers piece i of the stream. */
  ghost predicate ReadsCover(ms: seq<Message>, sizes: nat -> nat, i: nat) {
    forall j :: 0 <= j < |ms| ==> sizes(i + j) >= |ms[j].text| + OVERHEAD
  }

  lemma RestIsCut(ms: seq<Message>)
    requires WellCut(ms) && |ms| > 1
    ensures WellCut(ms[1..]) && |ms[0].text| == PIECE && ms[0].tag != TAG_FINAL
  {}

  lemma RestIsCovered(ms: seq<Message>, sizes: nat -> nat, i: nat)
    requires ms != []
    ensures ReadsCover(ms, sizes, i)
       <==> sizes(i) >= |ms[0].text| + OVERHEAD && ReadsCover(ms[1..], sizes, i + 1)
  {}

  /** A covering read of the first chunk ends on its boundary. */
  lemma FirstRead(p: Primitives, s: State, ms: seq<Message>, sizes: nat -> nat, i: nat, rekey: bool)
    requires WellCut(ms) && sizes(i) >= |ms[0].text| + OVERHEAD
    ensures
      var data := FileOf(p, s, ms, rekey);
      data != [] &&
      var n := ReadSize(sizes, i, |data|);
      data[..n] == Sealed(p, s, ms[0]) && data[n..] == FileOf(p, AfterWith(p, s, ms[0], rekey), ms[1..], rekey)
  {
    FileOfHead(p, s, ms, rekey);
    if |ms| == 1 {
      assert ms[1..] == [];
    } else {
      RestIsCut(ms);
    }
  }

  lemma DecryptsHead(p: Primitives, s: State, data: seq<byte>, sizes: nat -> nat, i: nat, rekey: bool, m: Message)
    requires data != [] && data[..ReadSize(sizes, i, |data|)] == Sealed(p, s, m)
    ensures
      var rest := data[ReadSize(sizes, i, |data|)..];
      DecryptFrom(p, s, data, sizes, i, rekey)
        == if m.tag == TAG_FINAL then Plain(m.text)
           else Prepend(m.text, DecryptFrom(p, AfterWith(p, s, m, rekey), rest, sizes, i + 1, rekey))
  {
    OpensSealed(p, s, m, rekey);
  }

  /** Alignment: the reads fall on the chunk boundaries, so the whole text comes back. */
  lemma {:induction false} RealignsFrom(p: Primitives, s: State, ms: seq<Message>, sizes: nat -> nat, i: nat,
                                        rekey: bool)
    requires WellCut(ms) && ReadsCover(ms, sizes, i)
    ensures DecryptFrom(p, s, FileOf(p, s, ms, rekey), sizes, i, rekey) == Plain(Texts(ms))
    decreases |ms|
  {
    var data := FileOf(p, s, ms, rekey);
    assert sizes(i) >= |ms[0].text| + OVERHEAD && ReadsCover(ms[1..], sizes, i + 1) by {
      RestIsCovered(ms, sizes, i);
    }
    FirstRead(p, s, ms, sizes, i, rekey);
    DecryptsHead(p, s, data, sizes, i, rekey, ms[0]);
    if |ms| == 1 {
      assert Texts(ms) == ms[0].text + Texts([]) == ms[0].text;
    } else {
      RestIsCut(ms);
      RealignsFrom(p, AfterWith(p, s, ms[0], rekey), ms[1..], sizes, i + 1, rekey);
    }
  }

  const FULL: nat -> nat := (i: nat) => CHUNK

  /** Chunked file decryption: any text, cut at 4 MiB and sealed, is read back whole. */
  lemma FileRoundTrip(p: Primitives, s: State, text: seq<byte>, sizes: nat -> nat, rekey: bool)
    requires FullReads(sizes)
    ensures DecryptFrom(p, s, FileOf(p, s, Cut(text), rekey), sizes, 0, rekey) == Plain(text)
  {
    RealignsFrom(p, s, Cut(text), sizes, 0, rekey);
  }

  // ---- the reads must cover the chunks ----

  /** Primitives that add nothing to a text and sign everything with one repeated byte. */
  function Transparent(b: byte): Primitives {
    Primitives(
      (k: Key, n: Nonce, at: nat) => 0,
      (k: Key, t: seq<byte>) => seq<byte>(16, _ => b),
      (k: Key, h: seq<byte>) => k)
  }

  lemma TransparentChunk(b: byte, s: State, m: Message)
    ensures Sealed(Transparent(b), s, m) == [m.tag] + m.text + seq(16, _ => b)
  {
    var p := Transparent(b);
    XorLaws(m.tag, 0);
    forall i | 0 <= i < |m.text| ensures Crypt(p, s, 128, m.text)[i] == m.text[i] {
      XorLaws(m.text[i], 0);
    }
    assert Crypt(p, s, 128, m.text) == m.text;
  }

  /** A chunk cut short is rejected when the last 16 bytes read are not the constant mac. */
  lemma CutChunkRejected(b: byte, s: State, m: Message, r: nat)
    requires r < |m.text| + OVERHEAD
    requires r >= OVERHEAD ==> m.text[r - OVERHEAD] != b
    ensures !Open(Transparent(b), s, Sealed(Transparent(b), s, m)[..r]).Accepted?
  {
    TransparentChunk(b, s, m);
    var chunk := Sealed(Transparent(b), s, m)[..r];
    if r >= OVERHEAD {
      assert chunk[r - 16..][0] == m.text[r - OVERHEAD];
    }
  }

  function Loop(b: byte, s: State, ms: seq<Message>, sizes: nat -> nat, i: nat): Outcome {
    DecryptFrom(Transparent(b), s, FileOf(Transparent(b), s, ms, false), sizes, i, false)
  }

  lemma RejectedFails(p: Primitives, s: State, data: seq<byte>, sizes: nat -> nat, i: nat, rekey: bool)
    requires data != [] && !OpenWith(p, s, data[..ReadSize(sizes, i, |data|)], rekey).Accepted?
    ensures DecryptFrom(p, s, data, sizes, i, rekey) == Failed
  {}

  lemma HeadPrefix(p: Primitives, s: State, ms: seq<Message>, r: nat)
    requires ms != [] && r < |ms[0].text| + OVERHEAD
    ensures r < |FileOf(p, s, ms, false)| && FileOf(p, s, ms, false)[..r] == Sealed(p, s, ms[0])[..r]
  {
    FileOfHead(p, s, ms, false);
  }

  lemma ShortHeadFails(b: byte, s: State, ms: seq<Message>, sizes: nat -> nat, i: nat)
    requires WellCut(ms)
    requires
      var r := if sizes(i) == 0 then 1 else sizes(i);
      r < |ms[0].text| + OVERHEAD && (r >= OVERHEAD ==> ms[0].text[r - OVERHEAD] != b)
    ensures Loop(b, s, ms, sizes, i) == Failed
  {
    var p, r := Transparent(b), if sizes(i) == 0 then 1 else sizes(i);
    var data := FileOf(p, s, ms, false);
    HeadPrefix(p, s, ms, r);
    assert |ms[0].text| <= PIECE;
    assert ReadSize(sizes, i, |data|) == r;
    assert !OpenWith(p, s, data[..r], false).Accepted? by {
      CutChunkRejected(b, s, ms[0], r);
    }
    RejectedFails(p, s, data, sizes, i, false);
  }

  lemma LaterFailureFails(b: byte, s: State, ms: seq<Message>, sizes: nat -> nat, i: nat)
    requires WellCut(ms) && |ms| > 1 && sizes(i) >= |ms[0].text| + OVERHEAD
    requires Loop(b, AfterSeal(Transparent(b), s, ms[0]), ms[1..], sizes, i + 1) == Failed
    ensures Loop(b, s, ms, sizes, i) == Failed
  {
    RestIsCut(ms);
    FirstRead(Transparent(b), s, ms, sizes, i, false);
    DecryptsHead(Transparent(b), s, FileOf(Transparent(b), s, ms, false), sizes, i, false, ms[0]);
  }

  /** When a read falls short of its piece, some primitives make the loop fail. */
  lemma {:induction false} ShortReadFails(ms: seq<Message>, sizes: nat -> nat, i: nat) returns (b: byte)
    requires WellCut(ms) && !ReadsCover(ms, sizes, i)
    ensures forall s :: Loop(b, s, ms, sizes, i) == Failed
    decreases |ms|
  {
    var r := if sizes(i) == 0 then 1 else sizes(i);
    if r < |ms[0].text| + OVERHEAD {
      b := if r < OVERHEAD then 0 else if ms[0].text[r - OVERHEAD] == 0 then 1 else 0;
      forall s ensures Loop(b, s, ms, sizes, i) == Failed {
        ShortHeadFails(b, s, ms, sizes, i);
      }
    } else {
      RestIsCovered(ms, sizes, i);
      assert |ms| > 1;
      RestIsCut(ms);
      b := ShortReadFails(ms[1..], sizes, i + 1);
      forall s ensures Loop(b, s, ms, sizes, i) == Failed {
        LaterFailureFails(b, s, ms, sizes, i);
      }
    }
  }

  /** The Go loop returns the text whatever the primitives are iff every read covers its piece. */
  lemma ReadsMustCover(ms: seq<Message>, sizes: nat -> nat)
    requires WellCut(ms)
    ensures (forall p, s :: DecryptFrom(p, s, FileOf(p, s, ms, false), sizes, 0, false) == Plain(Texts(ms)))
       <==> ReadsCover(ms, sizes, 0)
  {
    if ReadsCover(ms, sizes, 0) {
      forall p, s ensures DecryptFrom(p, s, FileOf(p, s, ms, false), sizes, 0, false) == Plain(Texts(ms)) {
        RealignsFrom(p, s, ms, sizes, 0, false);
      }
    } else {
      var b := ShortReadFails(ms, sizes, 0);
      var s := State(Zeros(32), Zeros(12));
      assert Loop(b, s, ms, sizes, 0) == Failed;
    }
  }

  // ---- what a successful decryption says about the data ----

  /**
   The data are these messages sealed in order; only the last may be final, and bytes behind a final
   chunk are ignored.
   */
  ghost predicate Explains(p: Primitives, s: State, ms: seq<Message>, data: seq<byte>, rekey: bool)
    decreases |ms|
  {
    if ms == [] then data == []
    else
      && data != []
      && var n := Min(CHUNK, |data|);
      && data[..n] == Sealed(p, s, ms[0])
      && if ms[0].tag == TAG_FINAL then ms[1..] == []
         else Explains(p, AfterWith(p, s, ms[0], rekey), ms[1..], data[n..], rekey)
  }

  lemma {:induction false} ExplainedDecrypts(p: Primitives, s: State, ms: seq<Message>, data: seq<byte>, i: nat,
                                             rekey: bool)
    requires Explains(p, s, ms, data, rekey)
    ensures DecryptFrom(p, s, data, FULL, i, rekey) == Plain(Texts(ms))
    decreases |ms|
  {
    if ms != [] {
      OpensSealed(p, s, ms[0], rekey);
      if ms[0].tag == TAG_FINAL {
        assert Texts(ms) == ms[0].text + Texts([]) == ms[0].text;
      } else {
        ExplainedDecrypts(p, AfterWith(p, s, ms[0], rekey), ms[1..], data[Min(CHUNK, |data|)..], i + 1, rekey);
      }
    }
  }

  lemma {:induction false} DecryptedIsExplained(p: Primitives, s: State, data: seq<byte>, i: nat, rekey: bool)
    returns (ms: seq<Message>)
    requires DecryptFrom(p, s, data, FULL, i, rekey).Plain?
    ensures Explains(p, s, ms, data, rekey)
    ensures DecryptFrom(p, s, data, FULL, i, rekey) == Plain(Texts(ms))
    decreases |data|
  {
    if data == [] {
      ms := [];
    } else {
      var n := Min(CHUNK, |data|);
      var r := OpenWith(p, s, data[..n], rekey);
      OpenedWasSealed(p, s, data[..n], rekey);
      if r.message.tag == TAG_FINAL {
        ms := [r.message];
        assert Texts(ms) == r.message.text + Texts([]) == r.message.text;
      } else {
        var rest := DecryptedIsExplained(p, r.next, data[n..], i + 1, rekey);
        ms := [r.message] + rest;
        assert ms[1..] == rest;
      }
    }
  }

  /** Full reads decrypt the data to a text exactly when sealed messages with that text explain the data. */
  lemma DecryptsExactly(p: Primitives, s: State, data: seq<byte>, text: seq<byte>, rekey: bool)
    ensures DecryptFrom(p, s, data, FULL, 0, rekey) == Plain(text)
       <==> exists ms :: Explains(p, s, ms, data, rekey) && Texts(ms) == text
  {
    if DecryptFrom(p, s, data, FULL, 0, rekey) == Plain(text) {
      var ms := DecryptedIsExplained(p, s, data, 0, rekey);
    }
    forall ms | Explains(p, s, ms, data, rekey) && Texts(ms) == text
      ensures DecryptFrom(p, s, data, FULL, 0, rekey) == Plain(text)
    {
      ExplainedDecrypts(p, s, ms, data, 0, rekey);
    }
  }

  // ---- the loops ----

  lemma PrependTwice(x: seq<byte>, y: seq<byte>, r: Outcome)
    ensures Prepend(x, Prepend(y, r)) == Prepend(x + y, r)
  {
    if r.Plain? {
      assert x + (y + r.text) == (x + y) + r.text;
    }
  }

  /** One turn of a decryption loop that has written `text` so far. */
  lemma LoopTurn(p: Primitives, s: State, text: seq<byte>, left: seq<byte>, sizes: nat -> nat, i: nat, rekey: bool)
    requires left != []
    ensures
      var n := ReadSize(sizes, i, |left|);
      var whole := Prepend(text, DecryptFrom(p, s, left, sizes, i, rekey));
      var r := OpenWith(p, s, left[..n], rekey);
      whole == if !r.Accepted? then Failed
               else if r.message.tag == TAG_FINAL then Plain(text + r.message.text)
               else Prepend(text + r.message.text, DecryptFrom(p, r.next, left[n..], sizes, i + 1, rekey))
  {
    var n := ReadSize(sizes, i, |left|);
    var r := OpenWith(p, s, left[..n], rekey);
    if r.Accepted? {
      PrependTwice(text, r.message.text, DecryptFrom(p, r.next, left[n..], sizes, i + 1, rekey));
    } else {
      RejectedFails(p, s, left, sizes, i, rekey);
    }
  }

  lemma NotSealedFails(p: Primitives, s: State, chunk: seq<byte>)
    requires forall m :: chunk != Sealed(p, s, m)
    ensures !OpenWith(p, s, chunk, true).Accepted?
  {
    if OpenWith(p, s, chunk, true).Accepted? {
      OpenedWasSealed(p, s, chunk, true);
    }
  }

  /** The Rust client's decryptor, a libsodium pull state. */
  class StreamDecryptor {
    const p: Primitives
    var state: State

    constructor (p: Primitives, key: Key, header: seq<byte>)
      requires |header| == 24
      ensures this.p == p && state == Initial(p, key, header)
    {
      this.p, state := p, Initial(p, key, header);
    }

    /**
     A chunk is taken iff it is some message sealed in the present state, and yields that message; a
     refused one leaves the state alone.
     */
    method Pull(chunk: seq<byte>) returns (ok: bool, m: Message)
      modifies this
      ensures ok ==> chunk == Sealed(p, old(state), m) && state == SodiumAfter(p, old(state), m)
      ensures !ok ==> state == old(state) && forall m' :: chunk != Sealed(p, old(state), m')
    {
      var r := SodiumOpen(p, state, chunk);
      if r.Accepted? {
        OpenedWasSealed(p, state, chunk, true);
      } else {
        forall m' ensures chunk != Sealed(p, state, m') {
          OpensSealed(p, state, m', true);
        }
      }
      ok := r.Accepted?;
      m := if ok then r.message else Message([], TAG_MESSAGE);
      state := if ok then r.next else state;
    }
  }

  lemma NextSlice(data: seq<byte>, offset: nat, i: nat)
    requires offset < |data|
    ensures
      var left, end := data[offset..], Min(offset + CHUNK, |data|);
      && ReadSize(FULL, i, |left|) == end - offset
      && left[..end - offset] == data[offset..end] && left[end - offset..] == data[end..]
  {}

  /** One turn of the slicing loop, as the decryptor's answer decides it. */
  lemma SliceTurn(p: Primitives, s: State, text: seq<byte>, data: seq<byte>, offset: nat, i: nat, ok: bool,
                  m: Message, s': State)
    requires offset < |data|
    requires
      var chunk := data[offset..Min(offset + CHUNK, |data|)];
      if ok then chunk == Sealed(p, s, m) && s' == SodiumAfter(p, s, m) else forall m' :: chunk != Sealed(p, s, m')
    ensures
      Prepend(text, DecryptFrom(p, s, data[offset..], FULL, i, true))
      == if !ok then Failed
         else if m.tag == TAG_FINAL then Plain(text + m.text)
         else Prepend(text + m.text, DecryptFrom(p, s', data[Min(offset + CHUNK, |data|)..], FULL, i + 1, true))
  {
    var left, chunk := data[offset..], data[offset..Min(offset + CHUNK, |data|)];
    NextSlice(data, offset, i);
    LoopTurn(p, s, text, left, FULL, i, true);
    if ok {
      OpensSealed(p, s, m, true);
    } else {
      NotSealedFails(p, s, chunk);
    }
  }

  /** decrypt_file_data: slices of CHUNK bytes, the last one shorter. */
  method DecryptFileData(p: Primitives, data: seq<byte>, header: seq<byte>, key: seq<byte>) returns (r: Outcome)
    ensures |key| != 32 || |header| != 24 ==> r == Failed
    ensures |key| == 32 && |header| == 24 ==> r == DecryptFrom(p, Initial(p, key, header), data, FULL, 0, true)
  {
    if |key| != 32 || |header| != 24 {
      return Failed;
    }
    var decryptor := new StreamDecryptor(p, key, header);
    var result: seq<byte>, offset := [], 0;
    ghost var i: nat, whole := 0, DecryptFrom(p, Initial(p, key, header), data, FULL, 0, true);
    assert data[0..] == data;
    while offset < |data|
      invariant 0 <= offset <= |data| && decryptor.p == p
      invariant whole == Prepend(result, DecryptFrom(p, decryptor.state, data[offset..], FULL, i, true))
    {
      var end := Min(offset + CHUNK, |data|);
      ghost var s := decryptor.state;
      var ok, m := decryptor.Pull(data[offset..end]);
      SliceTurn(p, s, result, data, offset, i, ok, m, decryptor.state);
      if !ok {
        return Failed;
      }
      result, offset, i := result + m.text, end, i + 1;
      if m.tag == TAG_FINAL {
        return Plain(result);
      }
    }
    return Plain(result);
  }

  /** DecryptFile: successive reads into one buffer, whose sizes the environment decides. */
  method DecryptFile(p: Primitives, input: seq<byte>, key: seq<byte>, nonce: seq<byte>, sizes: nat -> nat)
    returns (r: Outcome)
    requires |nonce| >= 16
    ensures |key| != 32 ==> r == Failed
    ensures |key| == 32 ==> r == DecryptFrom(p, Initial(p, key, FitHeader(nonce)), input, sizes, 0, false)
  {
    var created := Cipher.NewDecryptor(p, key, nonce);
    if created.InvalidKey? {
      return Failed;
    }
    var decryptor := created.cipher;
    var written: seq<byte>, left, i: nat := [], input, 0;
    ghost var whole := DecryptFrom(p, Initial(p, key, FitHeader(nonce)), input, sizes, 0, false);
    while left != []
      invariant decryptor.Valid() && decryptor.p == p && fresh(decryptor.nonce)
      invariant whole == Prepend(written, DecryptFrom(p, decryptor.Value(), left, sizes, i, false))
      decreases |left|
    {
      var n := ReadSize(sizes, i, |left|);
      LoopTurn(p, decryptor.Value(), written, left, sizes, i, false);
      var pulled := decryptor.Pull(left[..n]);
      if !pulled.Pulled? {
        return Failed;
      }
      written, left, i := written + pulled.text, left[n..], i + 1;
      if pulled.tag == TAG_FINAL {
        return Plain(written);
      }
    }
    return Plain(written);
  }

  // ---- one-shot encryption of small values ----

  datatype OneShot = InvalidKeyError | InvalidTag | PullFailed | Text(text: seq<byte>)

  /** What decryptChaCha20poly1305 answers; the V2 form also takes a message tag. */
  function DecryptOnce(p: Primitives, s: State, data: seq<byte>, messageTagToo: bool): OneShot {
    match Open(p, s, data)
    case Accepted(m, _) =>
      if m.tag == TAG_FINAL || (messageTagToo && m.tag == TAG_MESSAGE) then Text(m.text) else InvalidTag
    case _ =>
      // a failed pull reports tag 0, and the tag is looked at before the error
      if messageTagToo then PullFailed else InvalidTag
  }

  method DecryptChaCha20Poly1305(p: Primitives, data: seq<byte>, key: seq<byte>, nonce: seq<byte>, v2: bool)
    returns (r: OneShot)
    requires |nonce| >= 16
    ensures |key| != 32 ==> r == InvalidKeyError
    ensures |key| == 32 ==> r == DecryptOnce(p, Initial(p, key, FitHeader(nonce)), data, v2)
  {
    var created := Cipher.NewDecryptor(p, key, nonce);
    if created.InvalidKey? {
      return InvalidKeyError;
    }
    var pulled := created.cipher.Pull(data);
    var tag := if pulled.Pulled? then pulled.tag else 0;
    if tag != TAG_FINAL && !(v2 && tag == TAG_MESSAGE) {
      return InvalidTag;
    }
    if !pulled.Pulled? {
      return PullFailed;
    }
    return Text(pulled.text);
  }

  method EncryptChaCha20Poly1305(p: Primitives, data: seq<byte>, key: seq<byte>, header: seq<byte>)
    returns (ok: bool, encoded: seq<byte>)
    requires |header| == 24
    ensures ok <==> |key| == 32
    ensures ok ==> encoded == Sealed(p, Initial(p, key, header), Message(data, TAG_FINAL))
  {
    var created := Cipher.NewEncryptor(p, key, header);
    if created.InvalidKey? {
      return false, [];
    }
    encoded := created.cipher.Push(data, TAG_FINAL);
    ok := true;
  }

  lemma OpensExactly(p: Primitives, s: State, data: seq<byte>, m: Message)
    ensures Open(p, s, data).Accepted? && Open(p, s, data).message == m <==> data == Sealed(p, s, m)
  {
    AcceptsExactlySealed(p, s, data, m, AfterSeal(p, s, m));
    if Open(p, s, data).Accepted? {
      AcceptsExactlySealed(p, s, data, Open(p, s, data).message, Open(p, s, data).next);
    }
  }

  /** One-shot decryption yields a text exactly for that text sealed with an admitted tag. */
  lemma DecryptOnceExactly(p: Primitives, s: State, data: seq<byte>, text: seq<byte>, v2: bool)
    ensures DecryptOnce(p, s, data, v2) == Text(text)
       <==> data == Sealed(p, s, Message(text, TAG_FINAL)) || (v2 && data == Sealed(p, s, Message(text, TAG_MESSAGE)))
  {
    OpensExactly(p, s, data, Message(text, TAG_FINAL));
    OpensExactly(p, s, data, Message(text, TAG_MESSAGE));
  }

  ghost predicate IsSealed(p: Primitives, s: State, data: seq<byte>) {
    exists m :: data == Sealed(p, s, m)
  }

  /**
   The two errors: data that is no sealed message fails the pull in the V2 form and has an invalid tag
   in the other, and a sealed message with a tag that is not admitted has an invalid tag in both.
   */
  lemma DecryptOnceErrors(p: Primitives, s: State, data: seq<byte>, v2: bool)
    ensures DecryptOnce(p, s, data, v2) == PullFailed <==> v2 && !IsSealed(p, s, data)
    ensures DecryptOnce(p, s, data, v2) == InvalidTag
       <==> if !IsSealed(p, s, data) then !v2
            else exists m :: data == Sealed(p, s, m) && m.tag != TAG_FINAL && !(v2 && m.tag == TAG_MESSAGE)
  {
    if Open(p, s, data).Accepted? {
      OpensExactly(p, s, data, Open(p, s, data).message);
    }
    forall m | data == Sealed(p, s, m) ensures Open(p, s, data).Accepted? && Open(p, s, data).message == m {
      OpensExactly(p, s, data, m);
    }
  }
}
