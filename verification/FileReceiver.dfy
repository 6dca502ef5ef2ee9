/** The receiving side of the file protocol: `Widget::refilethread` and `rebackfalse`. */
module FileReceiver {
  import opened Wire

  const BUFFER: nat := 41984   // 40 * 1024 + 1024
  const ROOM: nat := 41963     // what the buffer holds behind a packet header
  const ASK: byte := 121       // 'y'

  // ------------------------------------------------------ the output file

  /** An output stream. A write that cannot take all its bytes sets badbit, after which
      nothing more is written. */
  class OutFile {
    const isOpen: bool
    var bad: bool
    var contents: seq<byte>

    constructor Open(isOpen: bool)
      ensures this.isOpen == isOpen && !bad && contents == []
    {
      this.isOpen := isOpen;
      bad := false;
      contents := [];
    }

    /** `room` is how many bytes the device takes of this write. */
    method Write(data: seq<byte>, room: nat)
      modifies this
      ensures contents == (if old(bad) then old(contents) else old(contents) + Taken(data, room))
      ensures bad == (old(bad) || room < |data|)
      ensures !old(bad) ==> old(contents) <= contents <= old(contents) + data
                            && |contents| - |old(contents)| == if room < |data| then room else |data|
    {
      if !bad {
        contents := contents + Taken(data, room);
      }
      bad := bad || room < |data|;
    }
  }

  function Taken(data: seq<byte>, room: nat): (t: seq<byte>)
    ensures t <= data && |t| == if room < |data| then room else |data|
  {
    if room < |data| then data[..room] else data
  }

  // -------------------------------------------------------------- the loop

  /** One turn as the environment decides it: the ack or the read may throw, or a frame comes in
      and the disk has room for so many bytes of its payload. */
  datatype Turn = AckThrows | ReadThrows | Packet(frame: seq<byte>, room: nat)

  /** Frames are whole, and a length beyond the buffer is undefined behaviour in the program. */
  predicate Legal(t: Turn) {
    t.Packet? ==> |t.frame| == FRAME && DecodeFHead(t.frame).length <= ROOM
  }

  predicate AllLegal(turns: seq<Turn>) {
    forall i :: 0 <= i < |turns| ==> Legal(turns[i])
  }

  /** What a turn amounts to: nothing usable, or a payload with its packet's status. */
  datatype Event = Broken | Piece(body: seq<byte>, status: int, room: nat)

  /** The payload is cut from the receive buffer, whose last 1003 bytes are never written;
      a negative length makes that throw, like a failed socket call. */
  function Parse(t: Turn): (e: Event)
    requires Legal(t)
    ensures e.Piece? ==> t.Packet? && |e.body| == DecodeFHead(t.frame).length
  {
    if !t.Packet? || DecodeFHead(t.frame).length < 0 then Broken
    else
      var h := DecodeFHead(t.frame);
      Piece((t.frame + Zeros(BUFFER - FRAME))[FHEAD_SIZE..FHEAD_SIZE + h.length], h.status, t.room)
  }

  function Events(turns: seq<Turn>): (es: seq<Event>)
    requires AllLegal(turns)
    ensures |es| == |turns|
  {
    seq(|turns|, i requires 0 <= i < |turns| => Parse(turns[i]))
  }

  datatype Verdict = Receiving | Succeeded | Failed

  datatype State = State(cursize: int, out: seq<byte>, bad: bool, got: seq<Event>, verdict: Verdict)

  const START: State := State(0, [], false, [], Receiving)

  /** `trfalse` is raised by a file that is not open and by a final packet with the wrong total;
      both end the loop in the same turn, but the success exit comes before that check. */
  function Step(isOpen: bool, filelength: int, s: State, e: Event): State {
    if s.verdict != Receiving then s
    else
      var s1 := s.(got := s.got + [e]);
      if e.Broken? then s1.(verdict := Failed)
      else
        var s2 := s1.(cursize := s.cursize + |e.body|);
        var s3 := if isOpen && !s.bad then s2.(out := s.out + Taken(e.body, e.room), bad := e.room < |e.body|) else s2;
        if e.status == 2 && s3.cursize == filelength then s3.(verdict := Succeeded)
        else if e.status == 2 || s3.bad || !isOpen then s3.(verdict := Failed)
        else s3
  }

  function Run(isOpen: bool, filelength: int, events: seq<Event>): State {
    if events == [] then START
    else Step(isOpen, filelength, Run(isOpen, filelength, events[..|events| - 1]), events[|events| - 1])
  }

  /** Where the part before the loop may throw. */
  datatype Setup = AskThrows | AnswerThrows | DecodeThrows | ResizeThrows | Announced(head: Head)

  /** The message that `rebackfalse` and the success path hand to the writer. */
  function Report(notice: Head, acc: int, sen: int, name: seq<byte>, status: int): seq<byte> {
    EncodeHead(notice.(kind := FILE_KIND, account := acc, sendto := sen, length := |name|, status := status)) + name
  }

  /** What asks the server for the file. */
  function Request(junk: Head, name: seq<byte>): seq<byte> {
    EncodeHead(junk.(kind := ASK, length := |name|, status := 1)) + name
  }

  /** What goes out at the head of every turn. */
  function Ack(announced: Head): seq<byte> {
    EncodeHead(announced.(status := FIRETRST))
  }

  /** The request, then one ack for each turn taken, save a last one whose ack threw. */
  predicate WroteAll(written: seq<seq<byte>>, request: seq<byte>, ack: seq<byte>, taken: seq<Turn>) {
    && |written| == 1 + |taken| - (if taken != [] && taken[|taken| - 1].AckThrows? then 1 else 0)
    && written[0] == request
    && forall i :: 1 <= i < |written| ==> written[i] == ack
  }

  /** One turn of the loop past its ack, over the buffer and the file in place. */
  method TakePacket(ff: OutFile, buf: array<byte>, cursize: int, filelength: int, t: Turn, ghost s: State)
    returns (cursize': int, verdict: Verdict)
    requires Legal(t) && t.Packet? && buf.Length == BUFFER && buf[FRAME..] == Zeros(BUFFER - FRAME)
    requires s.verdict == Receiving && s.cursize == cursize && s.out == ff.contents && s.bad == ff.bad
    modifies ff, buf
    ensures buf[FRAME..] == Zeros(BUFFER - FRAME)
    ensures var n := Step(ff.isOpen, filelength, s, Parse(t));
            n.cursize == cursize' && n.out == ff.contents && n.bad == ff.bad && n.verdict == verdict
  {
    cursize', verdict := cursize, Receiving;
    ReadExactly(buf, t.frame);
    assert buf[..] == t.frame + Zeros(BUFFER - FRAME);
    var fhe := DecodeFHead(buf[..]);
    assert fhe == DecodeFHead(t.frame) by { SameFHead(buf[..], t.frame); }
    if fhe.length < 0 {
      return cursize, Failed;
    }
    var data := buf[FHEAD_SIZE..FHEAD_SIZE + fhe.length];
    assert data == Parse(t).body;
    cursize' := cursize' + fhe.length;
    var trfalse := false;
    if ff.isOpen {
      ff.Write(data, t.room);
    } else {
      trfalse := true;
    }
    if fhe.status == 2 {
      if cursize' == filelength {
        return cursize', Succeeded;
      } else {
        trfalse := true;
      }
    }
    if ff.bad || trfalse {
      verdict := Failed;
    }
  }

  /** `transfer_exactly(40981)` overwrites the front of the buffer and nothing else. */
  method ReadExactly(buf: array<byte>, frame: seq<byte>)
    requires buf.Length == BUFFER && |frame| == FRAME
    modifies buf
    ensures buf[..] == frame + old(buf[FRAME..])
  {
    for i := 0 to FRAME
      invariant forall k :: 0 <= k < i ==> buf[k] == frame[k]
      invariant forall k :: i <= k < BUFFER ==> buf[k] == old(buf[k])
    {
      buf[i] := frame[i];
    }
  }

  lemma SameFHead(buf: seq<byte>, frame: seq<byte>)
    requires |frame| == FRAME <= |buf| && buf[..FRAME] == frame
    ensures DecodeFHead(buf) == DecodeFHead(frame)
  {
  }

  // ------------------------------------------------ the turns as they come

  /** A packet whose payload can be cut out. */
  predicate Usable(t: Turn)
    requires Legal(t)
  {
    t.Packet? && 0 <= DecodeFHead(t.frame).length
  }

  /** The payload: what stands behind the header, and zeros beyond the end of the frame. */
  function Carried(t: Turn): (d: seq<byte>)
    requires Legal(t) && Usable(t)
    ensures |d| == DecodeFHead(t.frame).length
    ensures forall k :: 0 <= k < |d| ==> d[k] == if k < CHUNK then t.frame[FHEAD_SIZE..][k] else 0
  {
    seq(DecodeFHead(t.frame).length, k requires 0 <= k => if k < CHUNK then t.frame[FHEAD_SIZE..][k] else 0)
  }

  /** Not the last packet, and the file takes all of it. */
  predicate Passed(isOpen: bool, t: Turn)
    requires Legal(t)
  {
    isOpen && Usable(t) && |Carried(t)| <= t.room && DecodeFHead(t.frame).status != 2
  }

  /** All payloads of these turns, in order. */
  function Received(turns: seq<Turn>): seq<byte>
    requires AllLegal(turns)
  {
    if turns == [] then []
    else
      var t := turns[|turns| - 1];
      Received(turns[..|turns| - 1]) + if Usable(t) then Carried(t) else []
  }

  /** The packet marked as the last one, at the right total. */
  predicate Closes(total: int, before: seq<Turn>, t: Turn)
    requires AllLegal(before) && Legal(t)
  {
    Usable(t) && DecodeFHead(t.frame).status == 2 && |Received(before)| + |Carried(t)| == total
  }

  /** What the file takes of the packet the loop stops on. */
  function LastBytes(isOpen: bool, t: Turn): (d: seq<byte>)
    requires Legal(t)
    ensures !isOpen || !Usable(t) ==> d == []
    ensures isOpen && Usable(t) ==> d <= Carried(t) && |d| == if t.room < |Carried(t)| then t.room else |Carried(t)|
  {
    if !isOpen || !Usable(t) then [] else if t.room < |Carried(t)| then Carried(t)[..t.room] else Carried(t)
  }

  /** The loop got past n turns and stopped on the next one, if there is one. */
  predicate StopsAfter(isOpen: bool, turns: seq<Turn>, n: nat)
    requires AllLegal(turns)
  {
    n <= |turns| && (forall i :: 0 <= i < n ==> Passed(isOpen, turns[i])) && (n < |turns| ==> !Passed(isOpen, turns[n]))
  }

  lemma ParseIs(t: Turn)
    requires Legal(t)
    ensures Parse(t) == if Usable(t) then Piece(Carried(t), DecodeFHead(t.frame).status, t.room) else Broken
  {
    if Usable(t) {
      assert Parse(t).body == Carried(t);
    }
  }

  lemma {:induction false} ReceivedIs(turns: seq<Turn>)
    requires AllLegal(turns)
    ensures Received(turns) == Bodies(Events(turns))
    decreases |turns|
  {
    hide Parse, Legal, Carried, DecodeFHead;
    if turns != [] {
      var n := |turns| - 1;
      ParseIs(turns[n]);
      ReceivedIs(turns[..n]);
      assert Events(turns)[..n] == Events(turns[..n]);
    }
  }

  lemma PassIsMiddle(isOpen: bool, t: Turn, e: Event)
    requires Legal(t) && e == Parse(t)
    ensures Middle(isOpen, e) <==> Passed(isOpen, t)
  {
    ParseIs(t);
  }

  /** What the turn the loop stops on does. */
  lemma LastTurn(isOpen: bool, filelength: int, before: seq<Turn>, s: State, t: Turn)
    requires AllLegal(before) && Legal(t) && !Passed(isOpen, t)
    requires s.verdict == Receiving && !s.bad && s.out == Bodies(s.got) == Received(before) && s.cursize == |s.out|
    ensures var n := Step(isOpen, filelength, s, Parse(t));
            && n.got == s.got + [Parse(t)] && n.verdict != Receiving
            && (n.verdict == Succeeded <==> Closes(filelength, before, t))
            && n.out == Received(before) + LastBytes(isOpen, t)
  {
    hide Parse, Legal, Carried, DecodeFHead, Received;
    ParseIs(t);
    StepStores(isOpen, filelength, s, Parse(t));
    assert !isOpen || !Usable(t) ==> s.out + [] == s.out;
  }

  lemma PassedTurns(isOpen: bool, filelength: int, turns: seq<Turn>)
    requires AllLegal(turns) && forall i :: 0 <= i < |turns| ==> Passed(isOpen, turns[i])
    ensures var s := Run(isOpen, filelength, Events(turns));
            && s.verdict == Receiving && !s.bad && |s.got| == |turns|
            && s.out == Bodies(s.got) == Received(turns) && s.cursize == |s.out|
  {
    hide Run, Step, Parse, Legal, Passed, Received, Middle;
    var es := Events(turns);
    forall i | 0 <= i < |turns|
      ensures Middle(isOpen, es[i])
    {
      PassIsMiddle(isOpen, turns[i], es[i]);
    }
    ReceivedIs(turns);
    ReceivingStores(isOpen, filelength, es);
  }

  function FirstStop(isOpen: bool, turns: seq<Turn>): (n: nat)
    requires AllLegal(turns)
    ensures StopsAfter(isOpen, turns, n)
  {
    if turns == [] || !Passed(isOpen, turns[0]) then 0 else 1 + FirstStop(isOpen, turns[1..])
  }

  /** The loop over the turns, whichever way it ends. */
  lemma {:induction false} LoopOverTurns(isOpen: bool, filelength: int, turns: seq<Turn>, n: nat)
    requires AllLegal(turns) && StopsAfter(isOpen, turns, n)
    ensures var s := Run(isOpen, filelength, Events(turns));
            && (s.verdict == Receiving <==> n == |turns|)
            && (s.verdict == Succeeded <==> n < |turns| && Closes(filelength, turns[..n], turns[n]))
            && |s.got| == (if n < |turns| then n + 1 else n)
            && s.out == Received(turns[..n]) + if n < |turns| then LastBytes(isOpen, turns[n]) else []
  {
    hide Run, Step, Parse, Legal, Passed, Received, Closes, LastBytes, Bodies;
    var es := Events(turns);
    assert Events(turns[..n]) == es[..n];
    PassedTurns(isOpen, filelength, turns[..n]);
    if n < |turns| {
      LastTurn(isOpen, filelength, turns[..n], Run(isOpen, filelength, es[..n]), turns[n]);
      RunSnoc(isOpen, filelength, es, n);
      StaysStopped(isOpen, filelength, es, n + 1);
    } else {
      assert turns[..n] == turns;
    }
  }

  /** `refilethread` past its connect, for account `acc` and addressee `sen`; `junk` and `notice` are
      its uninitialised headers and `written` is what it puts on the file socket. When the turns end
      while it is still receiving, the connection is gone and its next socket call throws. It reports
      exactly once when it fails, and when it succeeds once at most: not when the clock has not
      moved. `n` is how many turns the loop got past. */
  method ReFileThread(isOpen: bool, setup: Setup, turns: seq<Turn>, name: seq<byte>, acc: int, sen: int,
                      junk: Head, notice: Head, elapsed: bool)
    returns (verdict: Verdict, out: seq<byte>, written: seq<seq<byte>>, pushed: seq<seq<byte>>, ghost n: nat)
    requires AllLegal(turns)
    ensures setup.Announced? ==>
              var total := Signed(setup.head.length % WORD);
              && StopsAfter(isOpen, turns, n)
              && verdict == (if n < |turns| && Closes(total, turns[..n], turns[n]) then Succeeded else Failed)
              && out == Received(turns[..n]) + (if n < |turns| then LastBytes(isOpen, turns[n]) else [])
              && |written| == 1 + n + (if n < |turns| && !turns[n].AckThrows? then 1 else 0)
              && var s := Run(isOpen, total, Events(turns)); out == s.out && (verdict == Succeeded <==> s.verdict == Succeeded)
    ensures !setup.Announced? ==> verdict == Failed && out == [] && |written| == if setup.AskThrows? then 0 else 1
    ensures written != [] ==> IsMessage(written[0], WrapHead(junk.(kind := ASK, length := |name|, status := 1)), name)
    ensures setup.Announced? ==>
              forall i :: 1 <= i < |written| ==> IsMessage(written[i], WrapHead(setup.head.(status := FIRETRST)), [])
    ensures |pushed| == if verdict == Failed || elapsed then 1 else 0
    ensures pushed != [] ==>
              IsMessage(pushed[0],
                        WrapHead(notice.(kind := FILE_KIND, account := acc, sendto := sen, length := |name|,
                                         status := if verdict == Succeeded then 2 else 3)),
                        name)
  {
    hide Run, Events, Report, Request, Ack, IsMessage, WrapHead, DecodeFHead, Received, LastBytes, WroteAll;
    var ff := new OutFile.Open(isOpen);
    n := 0;
    RequestIs(junk, name);
    ReportIs(notice, acc, sen, name, 3);
    ReportIs(notice, acc, sen, name, 2);
    if setup.AskThrows? {
      return Failed, [], [], [Report(notice, acc, sen, name, 3)], n;
    }
    written := [Request(junk, name)];
    if !setup.Announced? {
      return Failed, [], written, [Report(notice, acc, sen, name, 3)], n;
    }
    AckIs(setup.head);
    var filelength := Signed(setup.head.length % WORD);
    n := FirstStop(isOpen, turns);
    LoopOverTurns(isOpen, filelength, turns, n);
    ghost var s;
    verdict, written, s := ReceiveLoop(ff, filelength, turns, Request(junk, name), Ack(setup.head));
    out := ff.contents;
    WrittenIs(written, Request(junk, name), Ack(setup.head), turns, |s.got|);
    if verdict != Succeeded {
      return Failed, out, written, [Report(notice, acc, sen, name, 3)], n;
    }
    pushed := if elapsed then [Report(notice, acc, sen, name, 2)] else [];
  }

  /** A message: the header as it decodes, and exactly this text behind it. */
  predicate IsMessage(m: seq<byte>, h: Head, text: seq<byte>) {
    |m| == HEAD_SIZE + |text| && DecodeHead(m) == h && m[HEAD_SIZE..] == text
  }

  lemma ReportIs(notice: Head, acc: int, sen: int, name: seq<byte>, status: int)
    ensures IsMessage(Report(notice, acc, sen, name, status),
                      WrapHead(notice.(kind := FILE_KIND, account := acc, sendto := sen, length := |name|,
                                       status := status)),
                      name)
  {
    HeadWraps(notice.(kind := FILE_KIND, account := acc, sendto := sen, length := |name|, status := status), name);
  }

  lemma RequestIs(junk: Head, name: seq<byte>)
    ensures IsMessage(Request(junk, name), WrapHead(junk.(kind := ASK, length := |name|, status := 1)), name)
  {
    HeadWraps(junk.(kind := ASK, length := |name|, status := 1), name);
  }

  lemma AckIs(announced: Head)
    ensures IsMessage(Ack(announced), WrapHead(announced.(status := FIRETRST)), [])
  {
    HeadWraps(announced.(status := FIRETRST), []);
    assert Ack(announced) + [] == Ack(announced);
  }

  lemma WrittenIs(written: seq<seq<byte>>, request: seq<byte>, ack: seq<byte>, turns: seq<Turn>, taken: nat)
    requires taken <= |turns| && WroteAll(written, request, ack, turns[..taken])
    ensures |written| == 1 + taken - (if taken > 0 && turns[taken - 1].AckThrows? then 1 else 0)
    ensures written[0] == request && forall i :: 1 <= i < |written| ==> written[i] == ack
  {
  }

  /** The `while (1)` loop, from its first ack to whichever way it ends. */
  method ReceiveLoop(ff: OutFile, filelength: int, turns: seq<Turn>, request: seq<byte>, a: seq<byte>)
    returns (verdict: Verdict, written: seq<seq<byte>>, ghost s: State)
    requires AllLegal(turns) && !ff.bad && ff.contents == []
    modifies ff
    ensures s == Run(ff.isOpen, filelength, Events(turns))
    ensures s.verdict == verdict && s.out == ff.contents && |s.got| <= |turns|
    ensures WroteAll(written, request, a, turns[..|s.got|])
  {
    hide Run, Step, Parse;
    var buf := new byte[BUFFER](_ => 0);
    assert buf[FRAME..] == Zeros(BUFFER - FRAME);
    var cursize := 0;
    verdict, written := Receiving, [request];
    s := START;
    RunStart(ff.isOpen, filelength, Events(turns));
    ghost var events := Events(turns);
    var i := 0;
    while verdict == Receiving && i < |turns|
      invariant 0 <= i <= |turns| && fresh(buf) && buf.Length == BUFFER
      invariant buf[FRAME..] == Zeros(BUFFER - FRAME)
      invariant s == Run(ff.isOpen, filelength, events[..i]) && |s.got| == i
      invariant s.cursize == cursize && s.out == ff.contents && s.bad == ff.bad && s.verdict == verdict
      invariant WroteAll(written, request, a, turns[..i])
      invariant verdict == Receiving && i > 0 ==> !turns[i - 1].AckThrows?
      decreases |turns| - i
    {
      RunTurn(ff.isOpen, filelength, turns, i);
      var t := turns[i];
      ghost var next := Run(ff.isOpen, filelength, events[..i + 1]);
      WroteMore(written, request, a, turns, i);
      if t.AckThrows? {
        verdict := Failed;
      } else {
        written := written + [a];
        if t.ReadThrows? {
          verdict := Failed;
        } else {
          cursize, verdict := TakePacket(ff, buf, cursize, filelength, t, s);
        }
      }
      s, i := next, i + 1;
    }
    if verdict == Receiving {
      assert events[..i] == events;
    } else {
      StaysStopped(ff.isOpen, filelength, events, i);
    }
  }

  lemma WroteMore(written: seq<seq<byte>>, request: seq<byte>, a: seq<byte>, turns: seq<Turn>, i: nat)
    requires i < |turns| && WroteAll(written, request, a, turns[..i]) && (i > 0 ==> !turns[i - 1].AckThrows?)
    ensures WroteAll(if turns[i].AckThrows? then written else written + [a], request, a, turns[..i + 1])
  {
  }

  lemma RunStart(isOpen: bool, filelength: int, es: seq<Event>)
    ensures Run(isOpen, filelength, es[..0]) == START
  {
  }

  lemma RunTurn(isOpen: bool, filelength: int, turns: seq<Turn>, i: nat)
    requires AllLegal(turns) && i < |turns|
    ensures var s, t := Run(isOpen, filelength, Events(turns)[..i]), Run(isOpen, filelength, Events(turns)[..i + 1]);
            t == Step(isOpen, filelength, s, Parse(turns[i]))
            && (s.verdict == Receiving ==> |t.got| == |s.got| + 1)
            && (s.verdict == Receiving && !turns[i].Packet? ==> t == s.(got := t.got, verdict := Failed))
  {
    RunSnoc(isOpen, filelength, Events(turns), i);
  }

  lemma RunSnoc(isOpen: bool, filelength: int, es: seq<Event>, n: nat)
    requires n < |es|
    ensures Run(isOpen, filelength, es[..n + 1]) == Step(isOpen, filelength, Run(isOpen, filelength, es[..n]), es[n])
  {
    assert es[..n + 1][..n] == es[..n];
  }

  /** After the verdict nothing changes. */
  lemma {:induction false} StaysStopped(isOpen: bool, filelength: int, es: seq<Event>, n: nat)
    requires n <= |es| && Run(isOpen, filelength, es[..n]).verdict != Receiving
    ensures Run(isOpen, filelength, es) == Run(isOpen, filelength, es[..n])
    decreases |es|
  {
    if n == |es| {
      assert es[..n] == es;
    } else {
      var front := es[..|es| - 1];
      assert front[..n] == es[..n];
      StaysStopped(isOpen, filelength, front, n);
    }
  }

  // ------------------------------------------------------------- properties

  function Bodies(es: seq<Event>): seq<byte> {
    if es == [] then []
    else Bodies(es[..|es| - 1]) + if es[|es| - 1].Piece? then es[|es| - 1].body else []
  }

  /** A turn the loop gets past: a packet in the middle of the file, stored in full. */
  predicate Middle(isOpen: bool, e: Event) {
    isOpen && e.Piece? && |e.body| <= e.room && e.status != 2
  }

  predicate AllMiddle(isOpen: bool, es: seq<Event>) {
    forall i :: 0 <= i < |es| ==> Middle(isOpen, es[i])
  }

  /** The final packet of a file of this length, after these packets. */
  predicate Completes(filelength: int, before: seq<Event>, e: Event) {
    e.Piece? && e.status == 2 && |Bodies(before)| + |e.body| == filelength
  }

  lemma StepStores(isOpen: bool, filelength: int, s: State, e: Event)
    requires s.verdict == Receiving && !s.bad && s.out == Bodies(s.got) && s.cursize == |s.out|
    ensures var n := Step(isOpen, filelength, s, e);
            && n.got == s.got + [e]
            && (n.verdict == Receiving <==> Middle(isOpen, e))
            && (n.verdict == Succeeded <==> Completes(filelength, s.got, e))
            && (n.verdict == Receiving ==> n.out == Bodies(n.got) && n.cursize == |n.out| && !n.bad)
            && (n.verdict == Succeeded ==>
                  && n.cursize == filelength == |Bodies(n.got)| && n.out <= Bodies(n.got)
                  && (n.out == Bodies(n.got) <==> e.body == [] || (isOpen && |e.body| <= e.room)))
  {
  }

  lemma MiddleSnoc(isOpen: bool, es: seq<Event>)
    requires es != []
    ensures AllMiddle(isOpen, es) <==> AllMiddle(isOpen, es[..|es| - 1]) && Middle(isOpen, es[|es| - 1])
  {
  }

  /** While it receives, the file holds exactly the payloads so far and `cursize` is its length. */
  lemma {:induction false} ReceivingStores(isOpen: bool, filelength: int, es: seq<Event>)
    ensures var s := Run(isOpen, filelength, es);
            && (s.verdict == Receiving <==> AllMiddle(isOpen, es))
            && (s.verdict == Receiving ==>
                  s.got == es && s.out == Bodies(es) && s.cursize == |s.out| && !s.bad)
    decreases |es|
  {
    if es == [] {
    } else {
      var n := |es| - 1;
      ReceivingStores(isOpen, filelength, es[..n]);
      assert es == es[..n] + [es[n]];
      MiddleSnoc(isOpen, es);
      var s := Run(isOpen, filelength, es[..n]);
      if s.verdict == Receiving {
        StepStores(isOpen, filelength, s, es[n]);
      }
    }
  }

  /** The turn on which the loop ended. */
  lemma {:induction false} VerdictTurn(isOpen: bool, filelength: int, es: seq<Event>) returns (n: nat)
    requires Run(isOpen, filelength, es).verdict != Receiving
    ensures n < |es| && Run(isOpen, filelength, es[..n]).verdict == Receiving
    ensures Run(isOpen, filelength, es) == Step(isOpen, filelength, Run(isOpen, filelength, es[..n]), es[n])
    decreases |es|
  {
    n := |es| - 1;
    if Run(isOpen, filelength, es[..n]).verdict != Receiving {
      var front := es[..n];
      n := VerdictTurn(isOpen, filelength, front);
      assert front[..n] == es[..n];
    }
  }

  /** The receiver's verdict against any peer and any disk, in closed form: it succeeds exactly when
      some run of middle packets, all stored, is followed by a final packet that brings the total
      to the announced length. `cursize` is unbounded here: for totals of 2^31 bytes and more the
      program's `int` overflows and the statement does not speak for it. */
  lemma {:induction false} SucceedsExactly(isOpen: bool, filelength: int, es: seq<Event>)
    ensures Run(isOpen, filelength, es).verdict == Succeeded <==>
              exists n :: 0 <= n < |es| && AllMiddle(isOpen, es[..n]) && Completes(filelength, es[..n], es[n])
  {
    hide Run;
    if Run(isOpen, filelength, es).verdict == Succeeded {
      var n := VerdictTurn(isOpen, filelength, es);
      ReceivingStores(isOpen, filelength, es[..n]);
      StepStores(isOpen, filelength, Run(isOpen, filelength, es[..n]), es[n]);
      assert AllMiddle(isOpen, es[..n]) && Completes(filelength, es[..n], es[n]);
    }
    if n :| 0 <= n < |es| && AllMiddle(isOpen, es[..n]) && Completes(filelength, es[..n], es[n]) {
      VerdictOf(isOpen, filelength, es, n);
    }
  }

  /** The verdict is decided by the first packet that is not a stored middle one: a final packet
      with any other total, a short write or a failed socket call ends in failure. */
  lemma {:induction false} VerdictOf(isOpen: bool, filelength: int, es: seq<Event>, n: nat)
    requires n < |es| && AllMiddle(isOpen, es[..n]) && !Middle(isOpen, es[n])
    ensures Run(isOpen, filelength, es).verdict
            == if Completes(filelength, es[..n], es[n]) then Succeeded else Failed
  {
    hide Run;
    ReceivingStores(isOpen, filelength, es[..n]);
    StepStores(isOpen, filelength, Run(isOpen, filelength, es[..n]), es[n]);
    RunSnoc(isOpen, filelength, es, n);
    StaysStopped(isOpen, filelength, es, n + 1);
  }

  /** What success says about the disk: the totals match, but the success exit is taken before the
      disk is checked, so the file is complete if and only if the last payload is empty or went to
      an open file in full. */
  lemma {:induction false} SuccessStores(isOpen: bool, filelength: int, es: seq<Event>) returns (n: nat)
    requires Run(isOpen, filelength, es).verdict == Succeeded
    ensures n < |es| && es[n].Piece?
    ensures var s := Run(isOpen, filelength, es);
            && s.got == es[..n + 1]
            && s.cursize == filelength == |Bodies(es[..n + 1])|
            && s.out <= Bodies(es[..n + 1])
            && (s.out == Bodies(es[..n + 1]) <==> es[n].body == [] || (isOpen && |es[n].body| <= es[n].room))
  {
    hide Run;
    n := VerdictTurn(isOpen, filelength, es);
    ReceivingStores(isOpen, filelength, es[..n]);
    assert es[..n] + [es[n]] == es[..n + 1];
    EndStores(isOpen, filelength, Run(isOpen, filelength, es[..n]), es[n], es[..n + 1]);
  }

  /** The failing case: a one-packet file reports success with nothing of it stored when the output
      did not open, and with as much of it as fitted when the disk was full. */
  lemma SuccessWithoutFile(isOpen: bool, body: seq<byte>, room: nat)
    requires !isOpen || room < |body|
    ensures var s := Run(isOpen, |body|, [Piece(body, 2, room)]);
            s.verdict == Succeeded && s.out == (if isOpen then body[..room] else [])
            && (body != [] ==> s.out != Bodies(s.got) == body)
  {
    var es := [Piece(body, 2, room)];
    assert es[..0] == [] && es[..1] == es;
    RunSnoc(isOpen, |body|, es, 0);
    var s := Run(isOpen, |body|, es);
    assert s.got == es && Bodies(es) == body;
    assert isOpen ==> |s.out| < |body|;
  }

  lemma EndStores(isOpen: bool, filelength: int, s: State, e: Event, got: seq<Event>)
    requires s.verdict == Receiving && !s.bad && s.out == Bodies(s.got) && s.cursize == |s.out|
    requires got == s.got + [e] && Step(isOpen, filelength, s, e).verdict == Succeeded
    ensures var n := Step(isOpen, filelength, s, e);
            && e.Piece? && n.got == got
            && n.cursize == filelength == |Bodies(got)| && n.out <= Bodies(got)
            && (n.out == Bodies(got) <==> e.body == [] || (isOpen && |e.body| <= e.room))
  {
  }
}
