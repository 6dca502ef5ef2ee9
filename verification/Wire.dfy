/** The packed little-endian wire format: the 29-byte `Head`, the 21-byte `fHead`,
    the 40981-byte file frame and the 1024-byte chat buffer. */
module Wire {

  type byte = x: int | 0 <= x < 256

  const WORD: int := 0x1_0000_0000
  const HALF: int := 0x8000_0000

  const HEAD_SIZE: nat := 29
  const FHEAD_SIZE: nat := 21
  const CHUNK: nat := 40960
  const FRAME: nat := 40981
  const CHAT_BUFFER: nat := 1024

  // The `reback` codes that the file protocol looks at.
  const READERROR: int := 3
  const FITRFAIL: int := 11
  const FIRETRST: int := 13

  const FILE_KIND: byte := 102  // 'f'

  datatype Option<+T> = None | Some(value: T)

  datatype Head = Head(
    kind: byte, length: int, id: int, packid: int,
    account: int, mima: int, sendto: int, status: int)

  datatype FHead = FHead(kind: byte, length: int, id: int, packid: int, offset: int, status: int)

  predicate IsU32(n: int) { 0 <= n < WORD }

  predicate IsI32(n: int) { -HALF <= n < HALF }

  /** Every field fits its C++ type; `packid` is the only signed one. */
  predicate ValidHead(h: Head) {
    IsU32(h.length) && IsU32(h.id) && IsI32(h.packid) && IsU32(h.account)
    && IsU32(h.mima) && IsU32(h.sendto) && IsU32(h.status)
  }

  predicate ValidFHead(h: FHead) {
    IsI32(h.length) && IsI32(h.id) && IsI32(h.packid) && IsI32(h.offset) && IsI32(h.status)
  }

  function Signed(u: int): int {
    if u >= HALF then u - WORD else u
  }

  function LE32(n: int): (b: seq<byte>)
    ensures |b| == 4
  {
    var u := n % WORD;
    [u % 256, u / 256 % 256, u / 256 / 256 % 256, u / 256 / 256 / 256]
  }

  function Word(b0: int, b1: int, b2: int, b3: int): int {
    b0 + 256 * (b1 + 256 * (b2 + 256 * b3))
  }

  function U32At(b: seq<byte>, o: nat): (u: int)
    requires o + 4 <= |b|
    ensures IsU32(u)
  {
    Word(b[o], b[o + 1], b[o + 2], b[o + 3])
  }

  /** Packed fields: one word right after the other. */
  function EncodeWords(ns: seq<int>): (b: seq<byte>)
    ensures |b| == 4 * |ns|
  {
    if ns == [] then [] else LE32(ns[0]) + EncodeWords(ns[1..])
  }

  function EncodeHead(h: Head): (b: seq<byte>)
    ensures |b| == HEAD_SIZE
  {
    [h.kind] + EncodeWords(HeadWords(h))
  }

  /** The next `n` words of a buffer. */
  function DecodeWords(b: seq<byte>, o: nat, n: nat): (w: seq<int>)
    requires o + 4 * n <= |b|
    ensures |w| == n && forall k :: 0 <= k < n ==> IsU32(w[k])
    decreases n
  {
    if n == 0 then [] else [U32At(b, o)] + DecodeWords(b, o + 4, n - 1)
  }

  function DecodeHead(b: seq<byte>): (h: Head)
    requires |b| >= HEAD_SIZE
    ensures ValidHead(h)
  {
    var w := DecodeWords(b, 1, 7);
    Head(b[0], w[0], w[1], Signed(w[2]), w[3], w[4], w[5], w[6])
  }

  function EncodeFHead(h: FHead): (b: seq<byte>)
    ensures |b| == FHEAD_SIZE
  {
    [h.kind] + EncodeWords(FHeadWords(h))
  }

  function DecodeFHead(b: seq<byte>): (h: FHead)
    requires |b| >= FHEAD_SIZE
    ensures ValidFHead(h)
  {
    var w := DecodeWords(b, 1, 5);
    FHead(b[0], Signed(w[0]), Signed(w[1]), Signed(w[2]), Signed(w[3]), Signed(w[4]))
  }

  /** The header as its C++ struct holds it: each field reduced to 32 bits, `packid` signed. */
  function WrapHead(h: Head): Head {
    Head(h.kind, h.length % WORD, h.id % WORD, Signed(h.packid % WORD), h.account % WORD,
         h.mima % WORD, h.sendto % WORD, h.status % WORD)
  }

  /** The header as a 32-bit machine holds it: each field reduced to a signed word. */
  function WrapFHead(h: FHead): FHead {
    FHead(h.kind, Signed(h.length % WORD), Signed(h.id % WORD), Signed(h.packid % WORD),
          Signed(h.offset % WORD), Signed(h.status % WORD))
  }

  // ---------------------------------------------------------------- words

  lemma WordAt(b: seq<byte>, o: nat, n: int)
    requires o + 4 <= |b|
    requires b[o..o + 4] == LE32(n)
    ensures U32At(b, o) == n % WORD
  {
  }

  lemma LowByte(lo: int, hi: int)
    requires 0 <= lo < 256
    ensures (lo + 256 * hi) % 256 == lo && (lo + 256 * hi) / 256 == hi
  {
  }

  lemma SplitWord(b0: byte, b1: byte, b2: byte, b3: byte, n: int)
    requires n % WORD == Word(b0, b1, b2, b3)
    ensures LE32(n) == [b0, b1, b2, b3]
  {
    var u2 := b2 + 256 * b3;
    var u1 := b1 + 256 * u2;
    LowByte(b2, b3);
    LowByte(b1, u2);
    LowByte(b0, u1);
  }

  predicate SameWords(ns: seq<int>, w: seq<int>) {
    |ns| == |w| && forall k :: 0 <= k < |ns| ==> w[k] == ns[k] % WORD
  }

  /** Packed words are read back, each reduced to 32 bits, wherever they stand in a buffer. */
  lemma {:induction false} WordsRoundTrip(pre: seq<byte>, ns: seq<int>, rest: seq<byte>)
    ensures SameWords(ns, DecodeWords(pre + EncodeWords(ns) + rest, |pre|, |ns|))
    decreases |ns|
  {
    if ns == [] {
    } else {
      var b := pre + EncodeWords(ns) + rest;
      assert b[|pre|..|pre| + 4] == LE32(ns[0]);
      WordAt(b, |pre|, ns[0]);
      assert b == (pre + LE32(ns[0])) + EncodeWords(ns[1..]) + rest;
      WordsRoundTrip(pre + LE32(ns[0]), ns[1..], rest);
    }
  }

  lemma WordBack(b: seq<byte>, o: nat, n: int)
    requires o + 4 <= |b|
    requires U32At(b, o) == n % WORD
    ensures LE32(n) == b[o..o + 4]
  {
    SplitWord(b[o], b[o + 1], b[o + 2], b[o + 3], n);
  }

  lemma {:induction false} WordsBack(b: seq<byte>, o: nat, ns: seq<int>)
    requires o + 4 * |ns| <= |b|
    requires SameWords(ns, DecodeWords(b, o, |ns|))
    ensures EncodeWords(ns) == b[o..o + 4 * |ns|]
    decreases |ns|
  {
    if ns == [] {
    } else {
      var w := DecodeWords(b, o, |ns|);
      assert w[1..] == DecodeWords(b, o + 4, |ns| - 1);
      assert w[0] == U32At(b, o);
      WordBack(b, o, ns[0]);
      WordsBack(b, o + 4, ns[1..]);
      assert b[o..o + 4 * |ns|] == b[o..o + 4] + b[o + 4..o + 4 * |ns|];
    }
  }

  lemma WrapWord(n: int)
    ensures IsU32(n) ==> n % WORD == n
    ensures Signed(n % WORD) == n <==> IsI32(n)
    ensures IsI32(n) ==> Signed(n % WORD) % WORD == n % WORD
  {
  }

  lemma UnwrapWord(w: int)
    requires IsU32(w)
    ensures w % WORD == w && Signed(w) % WORD == w
  {
  }

  // --------------------------------------------------------------- headers

  function HeadWords(h: Head): seq<int> {
    [h.length, h.id, h.packid, h.account, h.mima, h.sendto, h.status]
  }

  function FHeadWords(h: FHead): seq<int> {
    [h.length, h.id, h.packid, h.offset, h.status]
  }

  /** Whatever follows it in the buffer, an encoded header is read back reduced to its struct. */
  lemma HeadWraps(h: Head, rest: seq<byte>)
    ensures DecodeHead(EncodeHead(h) + rest) == WrapHead(h)
  {
    var ns := HeadWords(h);
    WordsRoundTrip([h.kind], ns, rest);
    assert ns[0] == h.length && ns[1] == h.id && ns[2] == h.packid && ns[3] == h.account;
    assert ns[4] == h.mima && ns[5] == h.sendto && ns[6] == h.status;
  }

  /** A header whose fields fit is read back exactly, and no other is. */
  lemma HeadRoundTrip(h: Head, rest: seq<byte>)
    ensures DecodeHead(EncodeHead(h) + rest) == h <==> ValidHead(h)
  {
    hide DecodeHead, EncodeHead;
    HeadWraps(h, rest);
    assert ValidHead(DecodeHead(EncodeHead(h) + rest));
    forall k | 0 <= k < |HeadWords(h)|
      ensures IsU32(HeadWords(h)[k]) ==> HeadWords(h)[k] % WORD == HeadWords(h)[k]
    {
      WrapWord(HeadWords(h)[k]);
    }
    WrapWord(h.packid);
  }

  /** The four bytes at o, little-endian, are n: unsigned, or in two's complement. */
  predicate UnsignedAt(n: int, b: seq<byte>, o: nat)
    requires o + 4 <= |b|
  {
    n == b[o] as int + 256 * (b[o + 1] as int) + 65536 * (b[o + 2] as int) + 16777216 * (b[o + 3] as int)
  }

  predicate SignedAt(n: int, b: seq<byte>, o: nat)
    requires o + 4 <= |b|
  {
    UnsignedAt(if b[o + 3] < 128 then n else n + 4294967296, b, o)
  }

  /** The layout of `Head`, field by field. */
  predicate HeadAt(h: Head, b: seq<byte>)
    requires |b| >= 29
  {
    && b[0] == h.kind && UnsignedAt(h.length, b, 1) && UnsignedAt(h.id, b, 5) && SignedAt(h.packid, b, 9)
    && UnsignedAt(h.account, b, 13) && UnsignedAt(h.mima, b, 17) && UnsignedAt(h.sendto, b, 21)
    && UnsignedAt(h.status, b, 25)
  }

  /** The layout of `fHead`, field by field. */
  predicate FHeadAt(h: FHead, b: seq<byte>)
    requires |b| >= 21
  {
    && b[0] == h.kind && SignedAt(h.length, b, 1) && SignedAt(h.id, b, 5) && SignedAt(h.packid, b, 9)
    && SignedAt(h.offset, b, 13) && SignedAt(h.status, b, 17)
  }

  lemma WordLayout(b: seq<byte>, o: nat)
    requires o + 4 <= |b|
    ensures forall n :: UnsignedAt(n, b, o) <==> U32At(b, o) == n
    ensures forall n :: SignedAt(n, b, o) <==> Signed(U32At(b, o)) == n
  {
  }

  lemma {:induction false} WordsAre(b: seq<byte>, o: nat, n: nat, k: nat)
    requires o + 4 * n <= |b| && k < n
    ensures DecodeWords(b, o, n)[k] == U32At(b, o + 4 * k)
    decreases k
  {
    if k > 0 {
      WordsAre(b, o + 4, n - 1, k - 1);
    }
  }

  /** Field k of n packed words behind the kind byte. */
  lemma FieldAt(b: seq<byte>, n: nat, k: nat, o: nat)
    requires k < n && 1 + 4 * n <= |b| && o == 1 + 4 * k
    ensures DecodeWords(b, 1, n)[k] == U32At(b, o)
    ensures forall m :: UnsignedAt(m, b, o) <==> U32At(b, o) == m
    ensures forall m :: SignedAt(m, b, o) <==> Signed(U32At(b, o)) == m
  {
    WordsAre(b, 1, n, k);
    WordLayout(b, o);
  }

  lemma DecodesAt(h: Head, b: seq<byte>)
    requires |b| >= HEAD_SIZE
    ensures HeadAt(h, b) <==> DecodeHead(b) == h
  {
    hide DecodeWords, U32At, Signed, UnsignedAt, SignedAt;
    FieldAt(b, 7, 0, 1);
    FieldAt(b, 7, 1, 5);
    FieldAt(b, 7, 2, 9);
    FieldAt(b, 7, 3, 13);
    FieldAt(b, 7, 4, 17);
    FieldAt(b, 7, 5, 21);
    FieldAt(b, 7, 6, 25);
  }

  lemma DecodesFAt(h: FHead, b: seq<byte>)
    requires |b| >= FHEAD_SIZE
    ensures FHeadAt(h, b) <==> DecodeFHead(b) == h
  {
    hide DecodeWords, U32At, Signed, UnsignedAt, SignedAt;
    FieldAt(b, 5, 0, 1);
    FieldAt(b, 5, 1, 5);
    FieldAt(b, 5, 2, 9);
    FieldAt(b, 5, 3, 13);
    FieldAt(b, 5, 4, 17);
  }

  /** A received header is what the layout says, and a header that fits is sent so laid out. */
  lemma HeadLayout(h: Head, b: seq<byte>)
    requires |b| >= HEAD_SIZE
    ensures HeadAt(h, b) <==> DecodeHead(b) == h
    ensures ValidHead(h) ==> (HeadAt(h, b) <==> EncodeHead(h) == b[..HEAD_SIZE])
  {
    hide DecodeHead, HeadAt, EncodeHead;
    DecodesAt(h, b);
    HeadBytesBack(b);
    HeadRoundTrip(h, b[HEAD_SIZE..]);
    assert b[..HEAD_SIZE] + b[HEAD_SIZE..] == b;
  }

  lemma FHeadLayout(h: FHead, b: seq<byte>)
    requires |b| >= FHEAD_SIZE
    ensures FHeadAt(h, b) <==> DecodeFHead(b) == h
    ensures ValidFHead(h) ==> (FHeadAt(h, b) <==> EncodeFHead(h) == b[..FHEAD_SIZE])
  {
    hide DecodeFHead, FHeadAt, EncodeFHead;
    DecodesFAt(h, b);
    FHeadBytesBack(b);
    FHeadRoundTrip(h, b[FHEAD_SIZE..]);
    assert b[..FHEAD_SIZE] + b[FHEAD_SIZE..] == b;
  }

  /** No byte of a received header is lost: re-encoding gives the same 29 bytes. */
  lemma HeadBytesBack(b: seq<byte>)
    requires |b| >= HEAD_SIZE
    ensures EncodeHead(DecodeHead(b)) == b[..HEAD_SIZE]
  {
    var w := DecodeWords(b, 1, 7);
    forall k | 0 <= k < 7
      ensures w[k] % WORD == w[k] && Signed(w[k]) % WORD == w[k]
    {
      UnwrapWord(w[k]);
    }
    WordsBack(b, 1, HeadWords(DecodeHead(b)));
  }

  /** A packet header is read back reduced to 32-bit words, so unchanged exactly when it fits. */
  lemma FHeadRoundTrip(h: FHead, rest: seq<byte>)
    ensures DecodeFHead(EncodeFHead(h) + rest) == WrapFHead(h)
    ensures WrapFHead(h) == h <==> ValidFHead(h)
  {
    var ns := FHeadWords(h);
    WordsRoundTrip([h.kind], ns, rest);
    forall k | 0 <= k < |ns|
      ensures Signed(ns[k] % WORD) == ns[k] <==> IsI32(ns[k])
    {
      WrapWord(ns[k]);
    }
    assert ns[0] == h.length && ns[1] == h.id && ns[2] == h.packid && ns[3] == h.offset && ns[4] == h.status;
  }

  lemma FHeadBytesBack(b: seq<byte>)
    requires |b| >= FHEAD_SIZE
    ensures EncodeFHead(DecodeFHead(b)) == b[..FHEAD_SIZE]
  {
    var w := DecodeWords(b, 1, 5);
    forall k | 0 <= k < 5
      ensures Signed(w[k]) % WORD == w[k]
    {
      UnwrapWord(w[k]);
    }
    WordsBack(b, 1, FHeadWords(DecodeFHead(b)));
  }

  // ---------------------------------------------------------------- frames

  /** A file packet: the header, then the whole chunk buffer, stale tail included. */
  function EncodeFrame(h: FHead, body: seq<byte>): (b: seq<byte>)
    requires |body| == CHUNK
    ensures |b| == FRAME
  {
    EncodeFHead(h) + body
  }

  /** What the receiver takes out of a frame whose length field stays inside it. */
  function DecodeFrame(frame: seq<byte>): (FHead, seq<byte>)
    requires |frame| == FRAME
    requires 0 <= DecodeFHead(frame).length <= CHUNK
  {
    var h := DecodeFHead(frame);
    (h, frame[FHEAD_SIZE..FHEAD_SIZE + h.length])
  }

  lemma FrameRoundTrip(h: FHead, body: seq<byte>)
    requires ValidFHead(h) && |body| == CHUNK && 0 <= h.length <= CHUNK
    ensures DecodeFHead(EncodeFrame(h, body)) == h
    ensures DecodeFrame(EncodeFrame(h, body)) == (h, body[..h.length])
  {
    hide EncodeFHead, DecodeFHead;
    FHeadRoundTrip(h, body);
    assert EncodeFrame(h, body)[FHEAD_SIZE..FHEAD_SIZE + h.length] == body[..h.length];
  }

  function Concat(parts: seq<seq<byte>>): seq<byte> {
    if parts == [] then [] else parts[0] + Concat(parts[1..])
  }

  /** Cuts a TCP byte stream the way `transfer_exactly(40981)` does, read after read. */
  function SplitFrames(stream: seq<byte>): (frames: seq<seq<byte>>)
    ensures forall i :: 0 <= i < |frames| ==> |frames[i]| == FRAME
    decreases |stream|
  {
    if |stream| < FRAME then [] else [stream[..FRAME]] + SplitFrames(stream[FRAME..])
  }

  lemma SplitFirst(stream: seq<byte>)
    requires FRAME <= |stream|
    ensures SplitFrames(stream) == [stream[..FRAME]] + SplitFrames(stream[FRAME..])
  {
  }

  /** Read k takes the k-th 40981 bytes, wherever the stream goes on to. */
  lemma {:induction false} SplitAt(stream: seq<byte>, k: nat, at: nat)
    requires at == FRAME * k && at + FRAME <= |stream|
    ensures k < |SplitFrames(stream)| && SplitFrames(stream)[k] == stream[at..at + FRAME]
    decreases k
  {
    hide SplitFrames;
    var rest := stream[FRAME..];
    SplitFirst(stream);
    if k == 0 {
    } else {
      SplitAt(rest, k - 1, at - FRAME);
      assert SplitFrames(stream)[k] == SplitFrames(rest)[k - 1];
      assert rest[at - FRAME..at] == stream[at..at + FRAME];
    }
  }

  /** There are as many reads as whole frames: bytes short of one more are not taken. */
  lemma {:induction false} SplitCount(stream: seq<byte>)
    ensures |SplitFrames(stream)| == |stream| / FRAME
    decreases |stream|
  {
    if |stream| >= FRAME {
      SplitCount(stream[FRAME..]);
    }
  }

  lemma {:induction false} SplitConcat(frames: seq<seq<byte>>)
    requires forall i :: 0 <= i < |frames| ==> |frames[i]| == FRAME
    ensures SplitFrames(Concat(frames)) == frames
  {
    if frames == [] {
    } else {
      var c := Concat(frames);
      assert c[..FRAME] == frames[0];
      assert c[FRAME..] == Concat(frames[1..]);
      SplitConcat(frames[1..]);
    }
  }

  function EncodeStream(heads: seq<FHead>, bodies: seq<seq<byte>>): (stream: seq<byte>)
    requires |heads| == |bodies|
    requires forall i :: 0 <= i < |bodies| ==> |bodies[i]| == CHUNK
  {
    Concat(seq(|heads|, i requires 0 <= i < |heads| => EncodeFrame(heads[i], bodies[i])))
  }

  /** A whole stream of packets is cut and decoded back packet by packet, and the payloads
      depend only on the first `length` bytes of each buffer, never on its stale tail. */
  lemma PacketStreamRoundTrip(heads: seq<FHead>, bodies: seq<seq<byte>>)
    requires |heads| == |bodies|
    requires forall i :: 0 <= i < |bodies| ==> |bodies[i]| == CHUNK
    requires forall i :: 0 <= i < |heads| ==> ValidFHead(heads[i]) && 0 <= heads[i].length <= CHUNK
    ensures var frames := SplitFrames(EncodeStream(heads, bodies));
            |frames| == |heads|
            && forall i :: 0 <= i < |frames| ==>
                 DecodeFHead(frames[i]) == heads[i]
                 && DecodeFrame(frames[i]) == (heads[i], bodies[i][..heads[i].length])
  {
    hide EncodeFHead, DecodeFHead, SplitFrames, Concat;
    var fs := seq(|heads|, i requires 0 <= i < |heads| => EncodeFrame(heads[i], bodies[i]));
    SplitConcat(fs);
    forall i | 0 <= i < |fs|
      ensures DecodeFHead(fs[i]) == heads[i]
      ensures DecodeFrame(fs[i]) == (heads[i], bodies[i][..heads[i].length])
    {
      FrameRoundTrip(heads[i], bodies[i]);
    }
  }

  // ---------------------------------------------------------- chat messages

  function Zeros(n: nat): (z: seq<byte>)
    ensures |z| == n && forall k :: 0 <= k < n ==> z[k] == 0
  {
    seq(n, _ => 0)
  }

  /** One `read_some` into the cleared 1024-byte buffer. */
  function ReadIntoBuffer(message: seq<byte>): (buf: seq<byte>)
    ensures |buf| == CHAT_BUFFER
    ensures forall k :: 0 <= k < CHAT_BUFFER ==> buf[k] == if k < |message| then message[k] else 0
  {
    if |message| >= CHAT_BUFFER then message[..CHAT_BUFFER] else message + Zeros(CHAT_BUFFER - |message|)
  }

  /** `handle_message`'s header and text; None where the text range leaves the buffer. */
  function ParseChat(buf: seq<byte>): (r: Option<(Head, seq<byte>)>)
    requires |buf| >= HEAD_SIZE
    ensures r.Some? <==> HEAD_SIZE + DecodeHead(buf).length <= |buf|
    ensures r.Some? ==> r.value.0 == DecodeHead(buf) && |r.value.1| == r.value.0.length
                        && forall k :: 0 <= k < |r.value.1| ==> r.value.1[k] == buf[HEAD_SIZE + k]
  {
    var h := DecodeHead(buf);
    if HEAD_SIZE + h.length <= |buf| then Some((h, buf[HEAD_SIZE..HEAD_SIZE + h.length])) else None
  }

  /** A chat message survives the trip exactly when header and text fit the 1024-byte buffer. */
  lemma ChatRoundTrip(h: Head, text: seq<byte>)
    requires ValidHead(h) && h.length == |text|
    ensures ParseChat(ReadIntoBuffer(EncodeHead(h) + text)) == Some((h, text))
            <==> HEAD_SIZE + |text| <= CHAT_BUFFER
    ensures HEAD_SIZE + |text| > CHAT_BUFFER ==> ParseChat(ReadIntoBuffer(EncodeHead(h) + text)) == None
  {
    var m := EncodeHead(h) + text;
    var buf := ReadIntoBuffer(m);
    if |m| >= CHAT_BUFFER {
      assert buf == EncodeHead(h) + text[..CHAT_BUFFER - HEAD_SIZE];
      assert |text| == CHAT_BUFFER - HEAD_SIZE ==> buf[HEAD_SIZE..] == text;
      HeadRoundTrip(h, text[..CHAT_BUFFER - HEAD_SIZE]);
    } else {
      assert buf == EncodeHead(h) + (text + Zeros(CHAT_BUFFER - |m|));
      HeadRoundTrip(h, text + Zeros(CHAT_BUFFER - |m|));
      assert buf[HEAD_SIZE..HEAD_SIZE + |text|] == text;
    }
  }
}
