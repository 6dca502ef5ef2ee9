/** What the sender's theorems say of the bytes that leave it, for the bytes that reach it. */
module SenderFrames {
  import opened Wire
  import opened FileSender
  import opened SenderProofs

  /** Reply buffers are read one whole `Head` at a time. */
  predicate Replies(replies: seq<seq<byte>>) {
    forall i :: 0 <= i < |replies| ==> |replies[i]| == HEAD_SIZE
  }

  /** What the loop puts on the socket for these replies. */
  function FramesFor(file: File, id: int, isOpen: bool, stale: seq<byte>, replies: seq<seq<byte>>): seq<seq<byte>>
    requires |stale| == CHUNK && Replies(replies)
  {
    FramesOf(Run(file, id, isOpen, stale, Statuses(replies)).sent)
  }

  /** The bytes that stand in the chunk buffer before packet k is read into it. */
  function Before(stale: seq<byte>, sent: seq<Sent>, k: nat): seq<byte>
    requires k <= |sent|
  {
    if k == 0 then stale else sent[k - 1].body
  }

  /** A packet that carries the thread's id field and, behind its chunk, what the buffer held. */
  predicate Layer(id: int, before: seq<byte>, p: Sent) {
    && p.head.id == id && 0 <= p.head.length <= CHUNK == |p.body|
    && (forall j :: p.head.length <= j < CHUNK && j < |before| ==> p.body[j] == before[j])
  }

  predicate Layered(id: int, stale: seq<byte>, sent: seq<Sent>) {
    forall k :: 0 <= k < |sent| ==> Layer(id, Before(stale, sent, k), sent[k])
  }

  lemma BeforeSnoc(stale: seq<byte>, sent: seq<Sent>, p: Sent, k: nat)
    requires k <= |sent|
    ensures Before(stale, sent + [p], k) == Before(stale, sent, k)
  {
  }

  lemma LayeredSnoc(id: int, stale: seq<byte>, sent: seq<Sent>, p: Sent)
    requires Layered(id, stale, sent) && Layer(id, Before(stale, sent, |sent|), p)
    ensures Layered(id, stale, sent + [p])
  {
    hide Layer, Before;
    forall k | 0 <= k < |sent + [p]|
      ensures Layer(id, Before(stale, sent + [p], k), (sent + [p])[k])
    {
      BeforeSnoc(stale, sent, p, k);
      if k < |sent| {
        assert (sent + [p])[k] == sent[k];
      }
    }
  }

  lemma StepLayers(file: File, id: int, s: State, r: int, stale: seq<byte>)
    requires |s.buff| == CHUNK && Layered(id, stale, s.sent)
    requires s.phase == Running ==> s.buff == Before(stale, s.sent, |s.sent|)
    ensures var t := Step(file, id, s, r);
            Layered(id, stale, t.sent) && (t.phase == Running ==> t.buff == Before(stale, t.sent, |t.sent|))
  {
    var u := React(s, r);
    var n := Count(file, u.stream);
    if s.phase == Running && r != FITRFAIL && n > 0 {
      hide Layered;
      LayeredSnoc(id, stale, s.sent, Sent(u.stream.pos, PacketHead(n, id, u.packid), Filled(file, u.stream, u.buff)));
    }
  }

  lemma {:induction false} RunLayers(file: File, id: int, isOpen: bool, stale: seq<byte>, codes: seq<int>)
    requires |stale| == CHUNK
    ensures var s := Run(file, id, isOpen, stale, codes);
            Layered(id, stale, s.sent) && (s.phase == Running ==> s.buff == Before(stale, s.sent, |s.sent|))
    decreases |codes|
  {
    hide Step;
    if codes == [] {
    } else {
      var n := |codes| - 1;
      RunLayers(file, id, isOpen, stale, codes[..n]);
      StepLayers(file, id, Run(file, id, isOpen, stale, codes[..n]), codes[n], stale);
    }
  }

  /** The frame of a packet, byte by byte: the packed header fields as 32-bit words, the file from
      offset `at`, and behind a short chunk what was in the buffer before. */
  predicate FrameIs(file: File, id: int, packid: int, at: nat, before: seq<byte>, frame: seq<byte>) {
    && |frame| == FRAME && at < |file|
    && DecodeFHead(frame)
       == FHead(FILE_KIND, Min(CHUNK, |file| - at), Signed(id % WORD), Signed(packid % WORD), 0,
                if |file| - at < CHUNK then 2 else 1)
    && (forall j :: 0 <= j < CHUNK && at + j < |file| ==> frame[FHEAD_SIZE..][j] == file[at + j])
    && (forall j :: 0 <= j < CHUNK && at + j >= |file| && j < |before| ==> frame[FHEAD_SIZE..][j] == before[j])
  }

  /** The bytes of a frame behind its header. */
  function Tail(frame: seq<byte>): seq<byte> {
    if |frame| == FRAME then frame[FHEAD_SIZE..] else []
  }

  lemma FrameOfIs(file: File, id: int, before: seq<byte>, p: Sent)
    requires Faithful(file, p) && Layer(id, before, p)
    ensures FrameIs(file, id, p.head.packid, p.at, before, FrameOf(p)) && Tail(FrameOf(p)) == p.body
    ensures DecodeFHead(FrameOf(p)) == WrapFHead(p.head)
  {
    hide EncodeFHead, DecodeFHead;
    FHeadRoundTrip(p.head, p.body);
    WrapWord(p.head.length);
    WrapWord(p.head.status);
    var frame, n := FrameOf(p), p.head.length;
    assert frame[FHEAD_SIZE..] == p.body;
    forall j | 0 <= j < CHUNK
      ensures frame[FHEAD_SIZE..][j] == p.body[j]
      ensures j < n ==> p.body[j] == file[p.at + j]
    {
      assert j < n ==> p.body[..n][j] == file[p.at..p.at + n][j];
    }
  }

  /** Every frame of every run, byte by byte: packet k, read at `at`, carries the file from there,
      and what follows a short chunk is left over from the frame before it. */
  lemma {:induction false} FramesAre(file: File, id: int, isOpen: bool, stale: seq<byte>, replies: seq<seq<byte>>, k: nat)
    requires |stale| == CHUNK && Replies(replies)
    requires k < |FramesFor(file, id, isOpen, stale, replies)|
    ensures var sent := Run(file, id, isOpen, stale, Statuses(replies)).sent;
            var frames := FramesFor(file, id, isOpen, stale, replies);
            && |sent| == |frames|
            && FrameIs(file, id, sent[k].head.packid, sent[k].at, if k == 0 then stale else Tail(frames[k - 1]), frames[k])
            && DecodeFHead(frames[k]) == WrapFHead(sent[k].head) && frames[k][FHEAD_SIZE..] == sent[k].body
  {
    hide Run, FrameIs, FrameOf, DecodeFHead;
    var codes := Statuses(replies);
    var sent := Run(file, id, isOpen, stale, codes).sent;
    RunLayers(file, id, isOpen, stale, codes);
    RunFaithful(file, id, isOpen, stale, codes);
    FrameOfIs(file, id, Before(stale, sent, k), sent[k]);
    if k > 0 {
      FrameOfIs(file, id, Before(stale, sent, k - 1), sent[k - 1]);
    }
  }

  /** The frame whose header says number j carries chunk j of the file. */
  predicate CarriesItsChunk(file: File, frame: seq<byte>) {
    |frame| == FRAME
    && var h := DecodeFHead(frame);
       && 0 <= CHUNK * h.packid < |file| && h.length == Min(CHUNK, |file| - CHUNK * h.packid)
       && frame[FHEAD_SIZE..FHEAD_SIZE + h.length] == file[CHUNK * h.packid..][..h.length]
  }

  /** The number in a frame names its chunk: under the timing of `readerror` that `NumberedIffTimed`
      is about, the frame numbered j carries the j-th chunk of the file, first time or resent. */
  lemma {:induction false} FramesAreNumbered(file: File, id: int, isOpen: bool, stale: seq<byte>, replies: seq<seq<byte>>, k: nat)
    requires |stale| == CHUNK && Replies(replies)
    requires k < |FramesFor(file, id, isOpen, stale, replies)|
    requires Timed(Statuses(replies), |FramesFor(file, id, isOpen, stale, replies)|)
    ensures CarriesItsChunk(file, FramesFor(file, id, isOpen, stale, replies)[k])
  {
    hide Run, FrameOf, DecodeFHead, Timed;
    FramesAre(file, id, isOpen, stale, replies, k);
    NumberedIffTimed(file, id, isOpen, stale, Statuses(replies));
    var p := Run(file, id, isOpen, stale, Statuses(replies)).sent[k];
    assert p.at == CHUNK * p.head.packid;
    WrapWord(p.head.packid);
    var frame, n := FramesOf(Run(file, id, isOpen, stale, Statuses(replies)).sent)[k], Min(CHUNK, |file| - p.at);
    forall j | 0 <= j < n
      ensures frame[FHEAD_SIZE..FHEAD_SIZE + n][j] == file[p.at..][..n][j]
    {
      assert frame[FHEAD_SIZE..][j] == file[p.at + j];
    }
  }

  // ---------------------------------------------------------------- delivery

  /** The payload a peer cuts out of a frame. */
  function FramePayload(frame: seq<byte>): seq<byte> {
    if |frame| == FRAME && 0 <= DecodeFHead(frame).length <= CHUNK
    then frame[FHEAD_SIZE..FHEAD_SIZE + DecodeFHead(frame).length] else []
  }

  /** What a peer has accepted that answers the announcement with reply 0 and frame k with reply
      k + 1: the payloads of the frames it acked, in order. */
  function Stored(frames: seq<seq<byte>>, replies: seq<seq<byte>>): seq<byte>
    requires |replies| <= |frames| + 1 && Replies(replies)
  {
    if |replies| <= 1 then []
    else
      var n := |replies| - 1;
      Stored(frames, replies[..n]) + if DecodeHead(replies[n]).status == FIRETRST then FramePayload(frames[n - 1]) else []
  }

  lemma PayloadOnWire(file: File, id: int, before: seq<byte>, p: Sent)
    requires Faithful(file, p) && p.head.id == id
    ensures FramePayload(FrameOf(p)) == Payload(p)
  {
    hide EncodeFHead, DecodeFHead;
    FHeadRoundTrip(p.head, p.body);
    WrapWord(p.head.length);
    assert FrameOf(p)[FHEAD_SIZE..FHEAD_SIZE + p.head.length] == p.body[..p.head.length];
  }

  lemma {:induction false} StoredIsAccepted(file: File, sent: seq<Sent>, replies: seq<seq<byte>>)
    requires AllFaithful(file, sent) && Replies(replies) && |replies| <= |sent| + 1
    ensures Stored(FramesOf(sent), replies) == Accepted(sent, Statuses(replies))
    decreases |replies|
  {
    hide DecodeHead, FrameOf, FramePayload, Faithful;
    if |replies| > 1 {
      var n := |replies| - 1;
      StoredIsAccepted(file, sent, replies[..n]);
      assert Statuses(replies)[..n] == Statuses(replies[..n]);
      PayloadOnWire(file, sent[n - 1].head.id, [], sent[n - 1]);
    }
  }

  /** The payloads of the acked frames are the file if and only if it is empty, or it was opened, no
      unknown code was followed by an ack, and the reply to the last frame is an ack. Otherwise they
      are shorter. */
  predicate DeliversExactly(file: File, isOpen: bool, frames: seq<seq<byte>>, replies: seq<seq<byte>>)
    requires |replies| == |frames| + 1 && Replies(replies)
  {
    && (Stored(frames, replies) == file <==>
          file == [] || (isOpen && Clean(Statuses(replies)) && DecodeHead(replies[|frames|]).status == FIRETRST))
    && (Stored(frames, replies) != file ==> |Stored(frames, replies)| < |file|)
  }

  /** Delivery on the wire, when the thread reports success: the reply after its last frame ended it,
      and what the acked frames carried is the file under exactly that condition. */
  lemma {:induction false} FramesDeliver(file: File, id: int, isOpen: bool, stale: seq<byte>, replies: seq<seq<byte>>)
    requires |stale| == CHUNK && Replies(replies)
    requires Run(file, id, isOpen, stale, Statuses(replies)).phase == Finished
    ensures var frames := FramesFor(file, id, isOpen, stale, replies);
            |frames| < |replies| && DeliversExactly(file, isOpen, frames, replies[..|frames| + 1])
  {
    hide Run, Stored, Accepted, DecodeHead, FrameOf, Clean;
    var codes := Statuses(replies);
    var s := Run(file, id, isOpen, stale, codes);
    FinishedDelivers(file, id, isOpen, stale, codes);
    RunFaithful(file, id, isOpen, stale, codes);
    var heard := replies[..|s.sent| + 1];
    assert Statuses(heard) == codes[..|s.heard|] == s.heard;
    StoredIsAccepted(file, s.sent, heard);
  }
}
