/** The sending side of the file protocol: `Widget::lifilethread`.

    `Step` is one turn of its loop on values, `Run` the whole loop over an arbitrary list of
    reply codes, and `LiFileThread` the loop itself, over a file stream and a byte buffer that
    it updates in place. */
module FileSender {
  import opened Wire

  /** `length` is an `int` and `pretellg` a 32-bit `long`: files stay below 2^31 bytes. */
  type File = f: seq<byte> | |f| < HALF

  // ------------------------------------------------------------ the fstream

  /** An input stream: read position and failbit. */
  datatype Stream = Stream(pos: nat, failed: bool)

  function TellG(st: Stream): int {
    if st.failed then -1 else st.pos
  }

  function SeekG(st: Stream, p: int): Stream {
    if st.failed then st else if p < 0 then st.(failed := true) else st.(pos := p)
  }

  /** `gcount()` of a read of one chunk. */
  function Count(file: File, st: Stream): (n: nat)
    ensures n <= CHUNK
    ensures n > 0 ==> st.pos + n <= |file|
  {
    if st.failed || st.pos >= |file| then 0
    else if |file| - st.pos < CHUNK then |file| - st.pos else CHUNK
  }

  /** A read that comes up short sets failbit. */
  function AfterRead(file: File, st: Stream): Stream {
    if st.failed then st else Stream(st.pos + Count(file, st), Count(file, st) < CHUNK)
  }

  /** The buffer after the read: fresh bytes in front, what was there before behind them. */
  function Filled(file: File, st: Stream, buff: seq<byte>): (b: seq<byte>)
    requires |buff| == CHUNK
    ensures |b| == CHUNK
  {
    var n := Count(file, st);
    if n == 0 then buff else file[st.pos..st.pos + n] + buff[n..]
  }

  lemma FilledIs(file: File, st: Stream, before: seq<byte>, after: seq<byte>)
    requires |before| == |after| == CHUNK
    requires var n := Count(file, st);
             && (forall k :: 0 <= k < n ==> after[k] == file[st.pos + k])
             && (forall k :: n <= k < CHUNK ==> after[k] == before[k])
    ensures after == Filled(file, st, before)
  {
  }

  class InFile {
    const data: File
    var pos: nat
    var failed: bool

    ghost function Abs(): Stream
      reads this
    {
      Stream(pos, failed)
    }

    constructor Open(data: File, isOpen: bool)
      ensures this.data == data && Abs() == Stream(0, !isOpen)
      ensures pos == 0 && (failed <==> !isOpen)
    {
      this.data := data;
      pos := 0;
      failed := !isOpen;
    }

    method Tellg() returns (p: int)
      ensures p == TellG(Abs())
      ensures p == if failed then -1 else pos
    {
      p := if failed then -1 else pos;
    }

    method Seekg(p: int)
      modifies this
      ensures Abs() == SeekG(old(Abs()), p)
      ensures failed == (old(failed) || p < 0)
      ensures pos == if failed then old(pos) else p
    {
      if !failed {
        if p < 0 { failed := true; } else { pos := p; }
      }
    }

    method Read(buff: array<byte>) returns (gcount: nat)
      requires buff.Length == CHUNK
      modifies this, buff
      ensures gcount == Count(data, old(Abs()))
      ensures Abs() == AfterRead(data, old(Abs()))
      ensures buff[..] == Filled(data, old(Abs()), old(buff[..]))
      ensures old(failed) ==> gcount == 0
      ensures !old(failed) ==> pos == old(pos) + gcount && (gcount == CHUNK || |data| <= pos)
      ensures gcount > 0 ==> pos <= |data|
      ensures failed <==> old(failed) || gcount < CHUNK
      ensures forall k :: 0 <= k < CHUNK ==> buff[k] == if k < gcount then data[old(pos) + k] else old(buff[k])
    {
      gcount := 0;
      if failed { return; }
      var start := pos;
      while gcount < CHUNK && pos < |data|
        invariant start <= pos == start + gcount && gcount <= CHUNK
        invariant gcount > 0 ==> pos <= |data|
        invariant !failed
        invariant forall k :: 0 <= k < gcount ==> buff[k] == data[start + k]
        invariant forall k :: gcount <= k < CHUNK ==> buff[k] == old(buff[k])
        decreases CHUNK - gcount
      {
        buff[gcount] := data[pos];
        gcount, pos := gcount + 1, pos + 1;
      }
      failed := gcount < CHUNK;
      FilledIs(data, old(Abs()), old(buff[..]), buff[..]);
    }
  }

  // -------------------------------------------------------------- the loop

  /** A packet that went out: where the stream stood before its read, and what was sent. */
  datatype Sent = Sent(at: nat, head: FHead, body: seq<byte>)

  datatype Phase = Running | Finished | Aborted

  datatype State = State(
    stream: Stream, pretellg: int, packid: int, buff: seq<byte>,
    heard: seq<int>, sent: seq<Sent>, phase: Phase)

  function Init(isOpen: bool, stale: seq<byte>): State {
    State(Stream(0, !isOpen), 0, 0, stale, [], [], Running)
  }

  /** What a reply other than `fitrfail` does before the next read. */
  function React(s: State, r: int): (t: State)
    ensures t.buff == s.buff && t.sent == s.sent && t.phase == s.phase && t.heard == s.heard + [r]
  {
    var h := s.heard + [r];
    if r == FIRETRST then s.(heard := h, pretellg := TellG(s.stream))
    else if r == READERROR then s.(heard := h, packid := s.packid - 1, stream := SeekG(s.stream, s.pretellg))
    else s.(heard := h)
  }

  /** Status 2 marks a chunk that came up short. */
  function PacketHead(n: nat, id: int, packid: int): FHead {
    FHead(FILE_KIND, n, id, packid, 0, if n < CHUNK then 2 else 1)
  }

  function Fetch(file: File, id: int, s: State): State
    requires |s.buff| == CHUNK
  {
    var n := Count(file, s.stream);
    var t := s.(stream := AfterRead(file, s.stream), buff := Filled(file, s.stream, s.buff));
    if n == 0 then t.(phase := Finished)
    else
      t.(packid := s.packid + 1, sent := s.sent + [Sent(s.stream.pos, PacketHead(n, id, s.packid), t.buff)])
  }

  function Step(file: File, id: int, s: State, r: int): (t: State)
    requires |s.buff| == CHUNK
    ensures |t.buff| == CHUNK
  {
    if s.phase != Running then s
    else if r == FITRFAIL then s.(heard := s.heard + [r], phase := Aborted)
    else Fetch(file, id, React(s, r))
  }

  /** The loop over the replies that arrive; when they end while it is Running,
      the next `read_some` throws and the thread returns. */
  function Run(file: File, id: int, isOpen: bool, stale: seq<byte>, replies: seq<int>): (s: State)
    requires |stale| == CHUNK
    ensures |s.buff| == CHUNK
  {
    if replies == [] then Init(isOpen, stale)
    else Step(file, id, Run(file, id, isOpen, stale, replies[..|replies| - 1]), replies[|replies| - 1])
  }

  function Statuses(replies: seq<seq<byte>>): (r: seq<int>)
    requires forall i :: 0 <= i < |replies| ==> |replies[i]| == HEAD_SIZE
    ensures |r| == |replies|
    ensures forall i :: 0 <= i < |replies| ==> r[i] == DecodeHead(replies[i]).status
  {
    seq(|replies|, i requires 0 <= i < |replies| => DecodeHead(replies[i]).status)
  }

  /** A packet on the wire. */
  function FrameOf(p: Sent): seq<byte> {
    if |p.body| == CHUNK then EncodeFrame(p.head, p.body) else []
  }

  function FramesOf(sent: seq<Sent>): (frames: seq<seq<byte>>)
    ensures |frames| == |sent|
    ensures forall i :: 0 <= i < |sent| ==> frames[i] == FrameOf(sent[i])
  {
    seq(|sent|, i requires 0 <= i < |sent| => FrameOf(sent[i]))
  }

  function Resize(s: seq<byte>, n: nat): (t: seq<byte>)
    ensures |t| == n
  {
    if |s| >= n then s[..n] else s + Zeros(n - |s|)
  }

  /** What a reply other than `fitrfail` does to the offsets and the stream. */
  method Respond(ff: InFile, status: int, packid: int, pretellg: int, ghost s: State)
    returns (packid': int, pretellg': int)
    requires s.stream == ff.Abs() && s.packid == packid && s.pretellg == pretellg
    modifies ff
    ensures var t := React(s, status);
            t.stream == ff.Abs() && t.packid == packid' && t.pretellg == pretellg'
  {
    packid', pretellg' := packid, pretellg;
    if status == FIRETRST {
      pretellg' := ff.Tellg();
    } else if status == READERROR {
      packid' := packid - 1;
      ff.Seekg(pretellg);
    }
  }

  /** The read and the packet made of it; an empty read makes none. */
  method ReadPacket(ff: InFile, buff: array<byte>, id: int, packid: int, ghost t: State)
    returns (ret: nat, frame: seq<byte>, ghost p: Sent)
    requires buff.Length == CHUNK && t.stream == ff.Abs() && t.buff == buff[..] && t.packid == packid
    modifies ff, buff
    ensures var u := Fetch(ff.data, id, t);
            && u.stream == ff.Abs() && u.buff == buff[..] && u.pretellg == t.pretellg
            && (ret == 0 ==> u.phase == Finished && u.sent == t.sent)
            && (ret > 0 ==> (
                  && u.phase == t.phase && u.packid == packid + 1 && u.sent == t.sent + [p]
                  && |p.body| == CHUNK && frame == FrameOf(p) && |frame| == FRAME))
  {
    frame := [];
    p := Sent(ff.pos, PacketHead(Count(ff.data, t.stream), id, packid), Filled(ff.data, t.stream, t.buff));
    ret := ff.Read(buff);
    if ret == 0 { return; }
    var fHe := FHead(FILE_KIND, ret, id, packid, 0, 1);
    if ret < CHUNK {
      fHe := fHe.(status := 2);
    }
    frame := EncodeFHead(fHe) + buff[..];
  }

  /** The program's variables hold what the running state says. */
  ghost predicate Tracks(ff: InFile, buff: array<byte>, packid: int, pretellg: int, s: State)
    reads ff, buff
  {
    s.phase == Running && s.stream == ff.Abs() && s.buff == buff[..] && s.packid == packid && s.pretellg == pretellg
  }

  /** One turn of the loop: wait for a reply, act on it, read the next chunk and send it. */
  method TakeTurn(ff: InFile, buff: array<byte>, id: int, reply: seq<byte>, st: seq<byte>,
                  packid: int, pretellg: int, frames: seq<seq<byte>>, ghost s: State)
    returns (st': seq<byte>, packid': int, pretellg': int, frames': seq<seq<byte>>, phase: Phase)
    requires buff.Length == CHUNK && |reply| == HEAD_SIZE <= |st|
    requires Tracks(ff, buff, packid, pretellg, s) && frames == FramesOf(s.sent)
    modifies ff, buff
    ensures |st'| >= HEAD_SIZE
    ensures var t := Step(ff.data, id, s, DecodeHead(reply).status);
            t.phase == phase && frames' == FramesOf(t.sent)
            && (phase == Running ==> Tracks(ff, buff, packid', pretellg', t))
  {
    st', packid', pretellg', frames' := reply + st[HEAD_SIZE..], packid, pretellg, frames;
    var he := DecodeHead(st');
    SameHead(st', reply);
    if he.status == FITRFAIL {
      phase := Aborted;
      return;
    }
    packid', pretellg' := Respond(ff, he.status, packid, pretellg, s);
    ghost var heard := React(s, he.status);
    var ret, frame, p := ReadPacket(ff, buff, id, packid', heard);
    if ret == 0 {
      phase := Finished;
      return;
    }
    FramesSnoc(s.sent, p);
    packid' := packid' + 1;
    st' := frame;
    frames' := frames + [st'];
    phase := Running;
  }

  /** The `while (1)` loop, from the first wait for a reply to whichever way it ends.
      `replies` is what arrives on the socket. */
  method SendLoop(ff: InFile, buff: array<byte>, id: int, opening: seq<byte>, replies: seq<seq<byte>>)
    returns (frames: seq<seq<byte>>, phase: Phase)
    requires buff.Length == CHUNK && ff.pos == 0
    requires forall i :: 0 <= i < |replies| ==> |replies[i]| == HEAD_SIZE
    modifies ff, buff
    ensures var s := Run(ff.data, id, !old(ff.failed), old(buff[..]), Statuses(replies));
            phase == s.phase && frames == FramesOf(s.sent)
  {
    hide Run, Step, DecodeHead;
    var st := Resize(opening, CHUNK + 48);
    var packid, pretellg := 0, 0;
    frames, phase := [], Running;
    ghost var isOpen, stale, codes := !ff.failed, buff[..], Statuses(replies);
    ghost var s := Init(isOpen, stale);
    RunStart(ff.data, id, isOpen, stale, codes);
    var i := 0;
    while phase == Running && i < |replies|
      invariant 0 <= i <= |replies| && |st| >= HEAD_SIZE
      invariant s == Run(ff.data, id, isOpen, stale, codes[..i])
      invariant s.phase == phase && frames == FramesOf(s.sent)
      invariant phase == Running ==> Tracks(ff, buff, packid, pretellg, s)
      decreases |replies| - i
    {
      RunSnoc(ff.data, id, isOpen, stale, codes, i);
      st, packid, pretellg, frames, phase := TakeTurn(ff, buff, id, replies[i], st, packid, pretellg, frames, s);
      i := i + 1;
      s := Run(ff.data, id, isOpen, stale, codes[..i]);
    }
    RunToEnd(ff.data, id, isOpen, stale, codes, i);
  }

  /** `lifilethread` past its connect, for account `acc` and addressee `sen`. `junk` and `notice` stand
      for its two uninitialised headers, `stale` for the uninitialised buffer, and `elapsed` says
      whether the clock moved. `pushed` is what it hands to the message writer. */
  method LiFileThread(data: File, isOpen: bool, name: seq<byte>, id: int, acc: int, sen: int, junk: Head,
                      notice: Head, stale: seq<byte>, replies: seq<seq<byte>>, elapsed: bool)
    returns (opening: seq<byte>, frames: seq<seq<byte>>, phase: Phase, pushed: seq<seq<byte>>)
    requires |stale| == CHUNK
    requires forall i :: 0 <= i < |replies| ==> |replies[i]| == HEAD_SIZE
    ensures opening == EncodeHead(junk.(kind := FILE_KIND, length := |name|, packid := -1, id := 0,
                                        status := if isOpen then |data| else -1)) + name
    ensures var s := Run(data, id, isOpen, stale, Statuses(replies));
            phase == s.phase && frames == FramesOf(s.sent)
    ensures pushed == if phase == Finished && elapsed
                      then [EncodeHead(notice.(kind := FILE_KIND, account := acc, sendto := sen,
                                               length := |name|, status := 1)) + name]
                      else []
  {
    pushed := [];
    var ff := new InFile.Open(data, isOpen);
    ff.Seekg(|data|);
    var length := ff.Tellg();
    ff.Seekg(0);
    opening := EncodeHead(junk.(kind := FILE_KIND, length := |name|, packid := -1, id := 0, status := length)) + name;
    var buff := new byte[CHUNK](i requires 0 <= i < |stale| => stale[i]);
    assert buff[..] == stale;
    frames, phase := SendLoop(ff, buff, id, opening, replies);
    if phase == Finished && elapsed {
      var wr_he := notice.(kind := FILE_KIND, account := acc, sendto := sen, length := |name|, status := 1);
      pushed := [EncodeHead(wr_he) + name];
    }
  }

  lemma FramesSnoc(sent: seq<Sent>, p: Sent)
    ensures FramesOf(sent + [p]) == FramesOf(sent) + [FrameOf(p)]
  {
  }

  lemma SameHead(st: seq<byte>, reply: seq<byte>)
    requires |reply| == HEAD_SIZE <= |st| && st[..HEAD_SIZE] == reply
    ensures DecodeHead(st) == DecodeHead(reply)
  {
  }

  lemma RunSnoc(file: File, id: int, isOpen: bool, stale: seq<byte>, replies: seq<int>, n: nat)
    requires |stale| == CHUNK && n < |replies|
    ensures Run(file, id, isOpen, stale, replies[..n + 1])
            == Step(file, id, Run(file, id, isOpen, stale, replies[..n]), replies[n])
  {
    assert replies[..n + 1][..n] == replies[..n];
  }

  lemma RunStart(file: File, id: int, isOpen: bool, stale: seq<byte>, replies: seq<int>)
    requires |stale| == CHUNK
    ensures Run(file, id, isOpen, stale, replies[..0]) == Init(isOpen, stale)
  {
  }

  lemma RunToEnd(file: File, id: int, isOpen: bool, stale: seq<byte>, replies: seq<int>, n: nat)
    requires |stale| == CHUNK && n <= |replies|
    requires n == |replies| || Run(file, id, isOpen, stale, replies[..n]).phase != Running
    ensures Run(file, id, isOpen, stale, replies) == Run(file, id, isOpen, stale, replies[..n])
  {
    if n == |replies| {
      assert replies[..n] == replies;
    } else {
      StaysStopped(file, id, isOpen, stale, replies, n);
    }
  }

  /** Once the loop has ended, later replies change nothing. */
  lemma {:induction false} StaysStopped(file: File, id: int, isOpen: bool, stale: seq<byte>, replies: seq<int>, n: nat)
    requires |stale| == CHUNK && n <= |replies|
    requires Run(file, id, isOpen, stale, replies[..n]).phase != Running
    ensures Run(file, id, isOpen, stale, replies) == Run(file, id, isOpen, stale, replies[..n])
    decreases |replies|
  {
    if n == |replies| {
      assert replies[..n] == replies;
    } else {
      var front := replies[..|replies| - 1];
      assert front[..n] == replies[..n];
      StaysStopped(file, id, isOpen, stale, front, n);
    }
  }
}
