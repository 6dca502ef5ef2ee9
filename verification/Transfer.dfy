/** Sender and receiver together, over a relay that carries bytes in order in both directions and
    may refuse a packet: it then drops it and answers `readerror` in the receiver's place. */
module Transfer {
  import opened Wire
  import S = FileSender
  import P = SenderProofs
  import R = FileReceiver

  /** `lost`: the sender's read threw because the receiver had gone. `toAck`: the receiver is at
      its write, not at its read. `budget`: how many packets the relay may still refuse. */
  datatype Net = Net(
    s: S.State, lost: bool, r: R.State, toAck: bool,
    acks: seq<byte>, wire: seq<byte>, budget: nat)

  datatype Move = SendAck | Deliver | Refuse | Reply | ReceiverEof | SenderEof

  function Start(stale: seq<byte>, budget: nat): Net {
    Net(S.Init(true, stale), false, R.START, true, [], [], budget)
  }

  function Answer(h: Head, status: int): (b: seq<byte>)
    ensures |b| == HEAD_SIZE
  {
    EncodeHead(h.(status := status))
  }

  predicate SenderGone(n: Net) {
    n.s.phase != S.Running || n.lost
  }

  /** What the receiver's read takes off the wire; its disk takes all of it. */
  function NextPacket(n: Net): R.Turn
    requires |n.wire| >= FRAME
  {
    R.Packet(n.wire[..FRAME], FRAME)
  }

  predicate Enabled(n: Net, m: Move) {
    match m
    case SendAck => n.r.verdict == R.Receiving && n.toAck
    case Deliver => n.r.verdict == R.Receiving && !n.toAck && |n.wire| >= FRAME && R.Legal(NextPacket(n))
    case Refuse => |n.wire| >= FRAME && n.budget > 0
    case Reply => !SenderGone(n) && |n.acks| >= HEAD_SIZE
    case ReceiverEof => n.r.verdict == R.Receiving && !n.toAck && |n.wire| < FRAME && SenderGone(n)
    case SenderEof => !SenderGone(n) && |n.acks| < HEAD_SIZE && n.r.verdict != R.Receiving
  }

  /** `h` is the header both ends fill their answers into, `id` the sender's unset field. */
  function Next(file: S.File, id: int, h: Head, n: Net, m: Move): (t: Net)
    requires Enabled(n, m) && |n.s.buff| == CHUNK
    ensures |t.s.buff| == CHUNK
  {
    match m
    case SendAck => n.(toAck := false, acks := n.acks + R.Ack(h))
    case Deliver =>
      n.(wire := n.wire[FRAME..], toAck := true, r := R.Step(true, |file|, n.r, R.Parse(NextPacket(n))))
    case Refuse => n.(wire := n.wire[FRAME..], budget := n.budget - 1, acks := n.acks + Answer(h, READERROR))
    case Reply =>
      var s := S.Step(file, id, n.s, DecodeHead(n.acks).status);
      n.(s := s, acks := n.acks[HEAD_SIZE..],
         wire := n.wire + if |s.sent| > |n.s.sent| then S.FrameOf(s.sent[|s.sent| - 1]) else [])
    case ReceiverEof => n.(r := R.Step(true, |file|, n.r, R.Broken))
    case SenderEof => n.(lost := true)
  }

  // -------------------------------------------------------------- invariant

  predicate Heard(s: S.State) {
    forall i :: 0 <= i < |s.heard| ==> s.heard[i] == FIRETRST || s.heard[i] == READERROR
  }

  /** The sender as this peer keeps it: committed up to its last packet; a failed stream means the
      short last packet went out, on an ack. */
  predicate Sending(file: S.File, s: S.State) {
    && P.Inv(file, true, s) && Heard(s)
    && (s.sent != [] ==> s.pretellg == P.Last(s).at)
    && (s.stream.failed ==> s.heard != [] && s.heard[|s.heard| - 1] == FIRETRST)
  }

  function Tail(file: S.File): (n: nat)
    ensures n <= |file|
  {
    |file| % CHUNK
  }

  predicate Stores(r: R.State, data: seq<byte>) {
    r.verdict == R.Receiving && r.out == data && r.cursize == |data| && !r.bad
  }

  predicate Idle(n: Net) {
    n.acks == [] && n.wire == []
  }

  /** Everything sent so far is on the receiver's disk. */
  predicate Caught(file: S.File, n: Net) {
    && Sending(file, n.s) && !n.lost && !n.s.stream.failed && n.wire == []
    && P.Upto(n.s) <= |file| && Stores(n.r, file[..P.Upto(n.s)])
  }

  predicate ToAck(file: S.File, n: Net) {
    Caught(file, n) && n.toAck && n.acks == []
  }

  predicate Acked(file: S.File, h: Head, n: Net) {
    Caught(file, n) && !n.toAck && n.acks == Answer(h, FIRETRST)
  }

  /** The last packet sent is not on the disk yet. */
  predicate Behind(file: S.File, n: Net) {
    && Sending(file, n.s) && !n.lost && !n.toAck && n.s.sent != []
    && Stores(n.r, file[..n.s.pretellg])
  }

  predicate Refused(file: S.File, h: Head, n: Net) {
    Behind(file, n) && n.wire == [] && n.acks == Answer(h, READERROR)
  }

  predicate InFlight(file: S.File, n: Net) {
    Behind(file, n) && n.acks == [] && n.wire == S.FrameOf(P.Last(n.s))
  }

  predicate Received(file: S.File, n: Net) {
    && Sending(file, n.s) && n.s.stream.failed && Idle(n)
    && n.r.verdict == R.Succeeded && n.r.out == file && n.r.cursize == |file| && Tail(file) != 0
  }

  /** The sender has reported success: every full chunk is on the disk, and a short tail is not. */
  predicate SenderDone(file: S.File, n: Net) {
    && n.s.phase == S.Finished && !n.lost && Idle(n) && !n.toAck && Heard(n.s) && n.s.heard != []
    && n.r.verdict != R.Succeeded && n.r.out == file[..|file| - Tail(file)]
    && (Tail(file) != 0 <==> n.s.heard[|n.s.heard| - 1] == READERROR)
  }

  predicate NetInv(file: S.File, h: Head, n: Net) {
    && |n.s.buff| == CHUNK
    && (|| ToAck(file, n) || Acked(file, h, n) || Refused(file, h, n) || InFlight(file, n)
        || Received(file, n) || SenderDone(file, n))
  }

  // ------------------------------------------------------------- each move

  lemma AnswerDecodes(h: Head, status: int)
    requires ValidHead(h) && IsU32(status)
    ensures DecodeHead(Answer(h, status)).status == status
  {
    HeadRoundTrip(h.(status := status), []);
    assert Answer(h, status) + [] == Answer(h, status);
  }

  lemma FrameFields(file: S.File, p: S.Sent)
    requires P.Faithful(file, p)
    ensures |S.FrameOf(p)| == FRAME && S.FrameOf(p)[FHEAD_SIZE..] == p.body
    ensures var h := DecodeFHead(S.FrameOf(p)); h.length == p.head.length && h.status == p.head.status
  {
    hide EncodeFHead, DecodeFHead;
    FHeadRoundTrip(p.head, p.body);
    WrapWord(p.head.length);
    WrapWord(p.head.status);
  }

  lemma ParseFrame(file: S.File, p: S.Sent)
    requires P.Faithful(file, p)
    ensures var t := R.Packet(S.FrameOf(p), FRAME);
            R.Legal(t) && R.Parse(t) == R.Piece(P.Payload(p), p.head.status, FRAME)
  {
    FrameFields(file, p);
    hide S.FrameOf, DecodeFHead;
    var frame, k := S.FrameOf(p), p.head.length;
    assert frame[FHEAD_SIZE..FHEAD_SIZE + k] == p.body[..k];
    assert (frame + Zeros(R.BUFFER - FRAME))[FHEAD_SIZE..FHEAD_SIZE + k] == frame[FHEAD_SIZE..FHEAD_SIZE + k];
  }

  /** The chunk that the last packet carries, and what it leaves. */
  lemma LastChunk(file: S.File, s: S.State)
    requires P.Inv(file, true, s) && s.sent != []
    ensures var at := P.Last(s).at;
            && P.Faithful(file, P.Last(s)) && 0 <= at < |file| && at % CHUNK == 0
            && at < P.Upto(s) <= |file| && P.Payload(P.Last(s)) == file[at..P.Upto(s)]
            && (s.stream.failed ==> P.Upto(s) == |file| && Tail(file) == |file| - at)
            && (s.stream.failed <==> P.Last(s).head.status == 2)
            && (!s.stream.failed ==> P.Upto(s) == at + CHUNK == s.stream.pos)
  {
  }

  lemma HeardSnoc(file: S.File, s: S.State, r: int, t: S.State)
    requires Heard(s) && t.heard == s.heard + [r] && (r == FIRETRST || r == READERROR)
    ensures Heard(t) && t.heard[|t.heard| - 1] == r
  {
  }

  /** The sender's next state once it has heard an ack for everything on the receiver's disk. */
  lemma AckTurn(file: S.File, s: S.State, t: S.State)
    requires Sending(file, s) && !s.stream.failed && P.Inv(file, true, t) && P.Turned(s, FIRETRST, t)
    ensures Sending(file, t) && t.sent != [] && t.pretellg == P.Upto(s)
  {
  }

  lemma AckEnd(file: S.File, s: S.State, t: S.State)
    requires Sending(file, s) && !s.stream.failed && P.Ended(file, s, FIRETRST, t)
    ensures t.phase == S.Finished && Heard(t) && t.heard[|t.heard| - 1] == FIRETRST
    ensures P.Upto(s) == |file| && Tail(file) == 0
  {
  }

  /** A reply that is the answer with this status makes the sender's next turn. */
  lemma ReplyTurn(file: S.File, id: int, h: Head, n: Net, status: int)
    requires ValidHead(h) && IsU32(status) && |n.s.buff| == CHUNK
    requires !SenderGone(n) && n.acks == Answer(h, status) && n.wire == []
    ensures var t := S.Step(file, id, n.s, status);
            Next(file, id, h, n, Reply)
            == n.(s := t, acks := [], wire := if |t.sent| > |n.s.sent| then S.FrameOf(t.sent[|t.sent| - 1]) else [])
  {
    hide S.Step, S.FrameOf, R.Step, R.Parse, EncodeHead, DecodeHead;
    AnswerDecodes(h, status);
  }

  lemma AckSends(file: S.File, n: Net, m: Net)
    requires Caught(file, n) && !n.toAck && |m.s.buff| == CHUNK
    requires P.Inv(file, true, m.s) && P.Turned(n.s, FIRETRST, m.s)
    requires m == n.(s := m.s, acks := [], wire := S.FrameOf(P.Last(m.s)))
    ensures InFlight(file, m)
  {
    hide S.FrameOf;
    AckTurn(file, n.s, m.s);
  }

  lemma AckStops(file: S.File, n: Net, m: Net)
    requires Caught(file, n) && !n.toAck && P.Ended(file, n.s, FIRETRST, m.s)
    requires m == n.(s := m.s, acks := [], wire := [])
    ensures SenderDone(file, m) && Tail(file) == 0
  {
    AckEnd(file, n.s, m.s);
  }

  lemma AckHeard(file: S.File, id: int, h: Head, n: Net)
    requires ValidHead(h) && |n.s.buff| == CHUNK && Acked(file, h, n)
    ensures var m := Next(file, id, h, n, Reply);
            |m.s.buff| == CHUNK && (InFlight(file, m) || (SenderDone(file, m) && Tail(file) == 0))
  {
    hide S.Step, S.FrameOf, Next, Answer;
    ReplyTurn(file, id, h, n, FIRETRST);
    P.StepInv(file, id, true, n.s, FIRETRST);
    var m := Next(file, id, h, n, Reply);
    if m.s.phase == S.Running {
      AckSends(file, n, m);
    } else {
      AckStops(file, n, m);
    }
  }

  lemma RefusalSends(file: S.File, n: Net, m: Net)
    requires Behind(file, n) && !n.s.stream.failed && |m.s.buff| == CHUNK
    requires P.Inv(file, true, m.s) && P.Turned(n.s, READERROR, m.s)
    requires m == n.(s := m.s, acks := [], wire := S.FrameOf(P.Last(m.s)))
    ensures InFlight(file, m)
  {
    hide S.FrameOf;
    HeardSnoc(file, n.s, READERROR, m.s);
    LastChunk(file, n.s);
    LastChunk(file, m.s);
  }

  lemma RefusalStops(file: S.File, n: Net, m: Net)
    requires Behind(file, n) && P.Ended(file, n.s, READERROR, m.s)
    requires m == n.(s := m.s, acks := [], wire := [])
    ensures n.s.stream.failed && SenderDone(file, m) && Tail(file) != 0
  {
    HeardSnoc(file, n.s, READERROR, m.s);
    LastChunk(file, n.s);
  }

  /** The sender resends what was refused, unless that was the short last packet: then it stops. */
  lemma RefusalHeard(file: S.File, id: int, h: Head, n: Net)
    requires ValidHead(h) && |n.s.buff| == CHUNK && Refused(file, h, n)
    ensures var m := Next(file, id, h, n, Reply);
            |m.s.buff| == CHUNK
            && if n.s.stream.failed then SenderDone(file, m) && Tail(file) != 0 else InFlight(file, m)
  {
    hide S.Step, S.FrameOf, Next, Answer;
    ReplyTurn(file, id, h, n, READERROR);
    P.StepInv(file, id, true, n.s, READERROR);
    var m := Next(file, id, h, n, Reply);
    if m.s.phase == S.Running {
      RefusalSends(file, n, m);
    } else {
      RefusalStops(file, n, m);
    }
  }

  /** What the receiver makes of the packet in flight. */
  lemma Stored(file: S.File, s: S.State, r: R.State)
    requires Sending(file, s) && s.sent != [] && Stores(r, file[..s.pretellg])
    ensures var e := R.Piece(P.Payload(P.Last(s)), P.Last(s).head.status, FRAME);
            var q := R.Step(true, |file|, r, e);
            if s.stream.failed then q.verdict == R.Succeeded && q.out == file && q.cursize == |file|
            else Stores(q, file[..P.Upto(s)])
  {
    LastChunk(file, s);
    assert file[..s.pretellg] + file[s.pretellg..P.Upto(s)] == file[..P.Upto(s)];
    assert file[..|file|] == file;
  }

  lemma Delivered(file: S.File, id: int, h: Head, n: Net)
    requires |n.s.buff| == CHUNK && InFlight(file, n)
    ensures Enabled(n, Deliver)
    ensures var m := Next(file, id, h, n, Deliver);
            if n.s.stream.failed then Received(file, m) else ToAck(file, m)
  {
    LastChunk(file, n.s);
    ParseFrame(file, P.Last(n.s));
    hide R.Step, R.Parse, R.Legal, S.FrameOf;
    Stored(file, n.s, n.r);
    assert n.wire[..FRAME] == n.wire && n.wire[FRAME..] == [];
  }

  /** Neither read fails while a message is still to come. */
  lemma EofKeepsInv(file: S.File, id: int, h: Head, n: Net, m: Move)
    requires NetInv(file, h, n) && Enabled(n, m) && (m == ReceiverEof || m == SenderEof)
    ensures NetInv(file, h, Next(file, id, h, n, m))
  {
    hide Answer;
  }

  lemma AckIsAnswer(h: Head)
    ensures R.Ack(h) == Answer(h, FIRETRST)
  {
  }

  lemma MoveKeepsInv(file: S.File, id: int, h: Head, n: Net, m: Move)
    requires ValidHead(h) && NetInv(file, h, n) && Enabled(n, m)
    ensures NetInv(file, h, Next(file, id, h, n, m))
  {
    hide S.Step, R.Step, R.Parse, R.Ack, Answer;
    match m
    case SendAck => AckIsAnswer(h);
    case Deliver => Delivered(file, id, h, n);
    case Refuse =>
      assert n.wire[FRAME..] == [];
    case Reply =>
      if Acked(file, h, n) { AckHeard(file, id, h, n); } else { RefusalHeard(file, id, h, n); }
    case _ => EofKeepsInv(file, id, h, n, m);
  }

  // ------------------------------------------------------------ whole runs

  /** Each move was possible when it was made. */
  predicate Runs(file: S.File, id: int, h: Head, n: Net, moves: seq<Move>)
    requires |n.s.buff| == CHUNK
    decreases |moves|
  {
    moves == [] || (Enabled(n, moves[0]) && Runs(file, id, h, Next(file, id, h, n, moves[0]), moves[1..]))
  }

  function After(file: S.File, id: int, h: Head, n: Net, moves: seq<Move>): (t: Net)
    requires |n.s.buff| == CHUNK && Runs(file, id, h, n, moves)
    ensures |t.s.buff| == CHUNK
    decreases |moves|
  {
    if moves == [] then n else After(file, id, h, Next(file, id, h, n, moves[0]), moves[1..])
  }

  predicate Over(n: Net) {
    n.r.verdict != R.Receiving && SenderGone(n)
  }

  /** How many moves a run can still take. */
  function Remaining(file: S.File, n: Net): int {
    2 * n.budget
    + if n.r.verdict != R.Receiving then (if SenderGone(n) then 0 else 1)
      else if SenderGone(n) then 1
      else 3 * (P.Chunks(file) - |n.r.out| / CHUNK) + (if n.toAck then 3 else if n.acks != [] then 2 else 1)
  }

  lemma StartInv(file: S.File, h: Head, stale: seq<byte>, budget: nat)
    requires |stale| == CHUNK
    ensures NetInv(file, h, Start(stale, budget))
  {
  }

  lemma OutChunks(file: S.File, h: Head, n: Net)
    requires NetInv(file, h, n)
    ensures |n.r.out| / CHUNK <= P.Chunks(file)
    ensures InFlight(file, n) ==> |n.r.out| / CHUNK + 1 <= P.Chunks(file)
    ensures InFlight(file, n) && !n.s.stream.failed ==> P.Upto(n.s) / CHUNK == |n.r.out| / CHUNK + 1
  {
  }

  lemma DeliverySpends(file: S.File, id: int, h: Head, n: Net)
    requires NetInv(file, h, n) && InFlight(file, n) && Enabled(n, Deliver)
    ensures 0 <= Remaining(file, Next(file, id, h, n, Deliver)) < Remaining(file, n)
  {
    hide Next, S.FrameOf;
    Delivered(file, id, h, n);
    OutChunks(file, h, n);
    LastChunk(file, n.s);
    var m := Next(file, id, h, n, Deliver);
    DeliveryKeeps(file, id, h, n);
    if !n.s.stream.failed {
      OutChunks(file, h, m);
    }
  }

  lemma DeliveryKeeps(file: S.File, id: int, h: Head, n: Net)
    requires |n.s.buff| == CHUNK && Enabled(n, Deliver)
    ensures var m := Next(file, id, h, n, Deliver);
            m.s == n.s && m.lost == n.lost && m.budget == n.budget && m.acks == n.acks && m.toAck
  {
    hide R.Step, R.Parse;
  }

  lemma ReplySpends(file: S.File, id: int, h: Head, n: Net)
    requires ValidHead(h) && NetInv(file, h, n) && (Acked(file, h, n) || Refused(file, h, n))
    ensures 0 <= Remaining(file, Next(file, id, h, n, Reply)) < Remaining(file, n)
  {
    hide S.Step, S.FrameOf, Next, Answer;
    OutChunks(file, h, n);
    if Acked(file, h, n) {
      AckHeard(file, id, h, n);
      ReplyTurn(file, id, h, n, FIRETRST);
    } else {
      RefusalHeard(file, id, h, n);
      ReplyTurn(file, id, h, n, READERROR);
    }
  }

  /** Each move brings the end nearer. */
  lemma MoveSpends(file: S.File, id: int, h: Head, n: Net, m: Move)
    requires ValidHead(h) && NetInv(file, h, n) && Enabled(n, m)
    ensures 0 <= Remaining(file, Next(file, id, h, n, m)) < Remaining(file, n)
  {
    hide S.Step, S.FrameOf, R.Parse, Answer;
    match m
    case Deliver => DeliverySpends(file, id, h, n);
    case Reply => ReplySpends(file, id, h, n);
    case _ => OutChunks(file, h, n);
  }

  /** What can happen next is determined, but for the relay's choice to refuse a packet in flight. */
  lemma NextMoves(file: S.File, h: Head, n: Net, m: Move)
    requires NetInv(file, h, n)
    ensures ToAck(file, n) ==> (Enabled(n, m) <==> m == SendAck)
    ensures Acked(file, h, n) || Refused(file, h, n) ==> (Enabled(n, m) <==> m == Reply)
    ensures InFlight(file, n) ==> (Enabled(n, m) <==> m == Deliver || (m == Refuse && n.budget > 0))
    ensures Received(file, n) ==> (Enabled(n, m) <==> m == SenderEof && !n.lost)
    ensures SenderDone(file, n) ==> (Enabled(n, m) <==> m == ReceiverEof && n.r.verdict == R.Receiving)
  {
    hide Answer, S.FrameOf;
    if InFlight(file, n) {
      Delivered(file, 0, h, n);
      LastChunk(file, n.s);
      FrameFields(file, P.Last(n.s));
    }
  }

  /** Nothing can be stuck: as long as one end is still waiting, some move is possible. */
  lemma NotStuck(file: S.File, h: Head, n: Net)
    requires NetInv(file, h, n) && !Over(n)
    ensures exists m :: Enabled(n, m) && m != Refuse
  {
    var m := Going(file, h, n);
  }

  lemma Going(file: S.File, h: Head, n: Net) returns (m: Move)
    requires NetInv(file, h, n) && !Over(n)
    ensures Enabled(n, m) && m != Refuse
  {
    hide Answer, S.FrameOf;
    if ToAck(file, n) {
      m := SendAck;
    } else if Acked(file, h, n) || Refused(file, h, n) {
      m := Reply;
    } else if InFlight(file, n) {
      Delivered(file, 0, h, n);
      m := Deliver;
    } else if Received(file, n) {
      m := SenderEof;
    } else {
      m := ReceiverEof;
    }
  }

  lemma {:induction false} RunKeepsInv(file: S.File, id: int, h: Head, n: Net, moves: seq<Move>)
    requires ValidHead(h) && NetInv(file, h, n) && Runs(file, id, h, n, moves)
    ensures NetInv(file, h, After(file, id, h, n, moves))
    ensures |moves| + Remaining(file, After(file, id, h, n, moves)) <= Remaining(file, n)
    decreases |moves|
  {
    if moves == [] {
    } else {
      MoveKeepsInv(file, id, h, n, moves[0]);
      MoveSpends(file, id, h, n, moves[0]);
      RunKeepsInv(file, id, h, Next(file, id, h, n, moves[0]), moves[1..]);
    }
  }

  /** Stop-and-wait, at every reachable state: the receiver's file is a prefix of the sender's,
      and at most one message, a whole one, is under way. */
  lemma {:induction false} StopAndWait(file: S.File, id: int, h: Head, stale: seq<byte>, budget: nat, moves: seq<Move>)
    requires ValidHead(h) && |stale| == CHUNK && Runs(file, id, h, Start(stale, budget), moves)
    ensures var n := After(file, id, h, Start(stale, budget), moves);
            && n.r.out <= file
            && ((n.wire == [] && |n.acks| in {0, HEAD_SIZE}) || (|n.wire| == FRAME && n.acks == []))
  {
    hide Runs, After, Answer;
    StartInv(file, h, stale, budget);
    RunKeepsInv(file, id, h, Start(stale, budget), moves);
    var n := After(file, id, h, Start(stale, budget), moves);
    if InFlight(file, n) {
      LastChunk(file, n.s);
    }
  }

  lemma {:induction false} FinishFrom(file: S.File, id: int, h: Head, n: Net) returns (moves: seq<Move>)
    requires ValidHead(h) && NetInv(file, h, n)
    ensures Runs(file, id, h, n, moves) && Over(After(file, id, h, n, moves)) && Refuse !in moves
    decreases Remaining(file, n) + 1
  {
    hide Next, Enabled, Remaining, Over, Sending, Stores, S.FrameOf, Answer;
    moves := [];
    if !Over(n) {
      var m := Going(file, h, n);
      MoveKeepsInv(file, id, h, n, m);
      MoveSpends(file, id, h, n, m);
      var rest := FinishFrom(file, id, h, Next(file, id, h, n, m));
      moves := [m] + rest;
      assert moves[1..] == rest;
    }
  }

  /** Every run can be finished without a refusal more. */
  lemma {:induction false} CanFinish(file: S.File, id: int, h: Head, stale: seq<byte>, budget: nat, moves: seq<Move>)
    returns (more: seq<Move>)
    requires ValidHead(h) && |stale| == CHUNK && Runs(file, id, h, Start(stale, budget), moves)
    ensures var n := After(file, id, h, Start(stale, budget), moves);
            Runs(file, id, h, n, more) && Over(After(file, id, h, n, more)) && Refuse !in more
  {
    hide Runs, After, NetInv, Over, Start;
    StartInv(file, h, stale, budget);
    RunKeepsInv(file, id, h, Start(stale, budget), moves);
    more := FinishFrom(file, id, h, After(file, id, h, Start(stale, budget), moves));
  }

  /** Every run ends, within two moves per refusal and three per chunk, and not before both ends
      have stopped. */
  lemma {:induction false} EveryRunEnds(file: S.File, id: int, h: Head, stale: seq<byte>, budget: nat, moves: seq<Move>)
    requires ValidHead(h) && |stale| == CHUNK && Runs(file, id, h, Start(stale, budget), moves)
    ensures |moves| <= 2 * budget + 3 * P.Chunks(file) + 3
    ensures var n := After(file, id, h, Start(stale, budget), moves);
            Over(n) <==> forall m :: !Enabled(n, m)
  {
    StartInv(file, h, stale, budget);
    RunKeepsInv(file, id, h, Start(stale, budget), moves);
    var n := After(file, id, h, Start(stale, budget), moves);
    OutChunks(file, h, n);
    if Over(n) {
      EndedIdle(file, h, n);
    } else {
      NotStuck(file, h, n);
    }
  }

  lemma EndedIdle(file: S.File, h: Head, n: Net)
    requires NetInv(file, h, n) && Over(n)
    ensures Idle(n) && forall m :: !Enabled(n, m)
  {
  }

  // ------------------------------------------------- who reports success

  /** Somewhere in the run the relay refused a packet marked as the last one. */
  predicate RefusesTail(file: S.File, id: int, h: Head, n: Net, moves: seq<Move>)
    requires |n.s.buff| == CHUNK && Runs(file, id, h, n, moves)
    decreases |moves|
  {
    moves != []
    && (|| (moves[0] == Refuse && DecodeFHead(n.wire).status == 2)
        || RefusesTail(file, id, h, Next(file, id, h, n, moves[0]), moves[1..]))
  }

  /** The short last packet was refused: the sender is about to stop on it, or has. */
  predicate TailLost(file: S.File, h: Head, n: Net) {
    (Refused(file, h, n) && n.s.stream.failed) || (SenderDone(file, n) && Tail(file) != 0)
  }

  lemma AnswersDiffer(h: Head)
    requires ValidHead(h)
    ensures Answer(h, FIRETRST) != Answer(h, READERROR)
  {
    hide EncodeHead, DecodeHead;
    AnswerDecodes(h, FIRETRST);
    AnswerDecodes(h, READERROR);
  }

  /** The last packet is lost by the move that refuses it, and by no other. */
  lemma MoveLosesTail(file: S.File, id: int, h: Head, n: Net, m: Move)
    requires ValidHead(h) && NetInv(file, h, n) && Enabled(n, m)
    ensures TailLost(file, h, Next(file, id, h, n, m))
            <==> TailLost(file, h, n) || (m == Refuse && DecodeFHead(n.wire).status == 2)
  {
    AnswersDiffer(h);
    match m
    case Refuse => RefuseLosesTail(file, id, h, n);
    case Deliver => DeliveryLosesNothing(file, id, h, n);
    case Reply => ReplyLosesNothing(file, id, h, n);
    case _ => hide S.Step, R.Parse, Answer, S.FrameOf;
  }

  lemma RefuseLosesTail(file: S.File, id: int, h: Head, n: Net)
    requires NetInv(file, h, n) && Enabled(n, Refuse)
    ensures InFlight(file, n) && Refused(file, h, Next(file, id, h, n, Refuse))
    ensures n.s.stream.failed <==> DecodeFHead(n.wire).status == 2
  {
    hide DecodeFHead, Answer, S.FrameOf;
    LastChunk(file, n.s);
    FrameFields(file, P.Last(n.s));
    assert n.wire[FRAME..] == [];
  }

  lemma DeliveryLosesNothing(file: S.File, id: int, h: Head, n: Net)
    requires ValidHead(h) && NetInv(file, h, n) && Enabled(n, Deliver)
    ensures !TailLost(file, h, n) && !TailLost(file, h, Next(file, id, h, n, Deliver))
  {
    hide Next, Answer, S.FrameOf;
    Delivered(file, id, h, n);
    DeliveryKeeps(file, id, h, n);
  }

  lemma ReplyLosesNothing(file: S.File, id: int, h: Head, n: Net)
    requires ValidHead(h) && NetInv(file, h, n) && Enabled(n, Reply) && Answer(h, FIRETRST) != Answer(h, READERROR)
    ensures TailLost(file, h, Next(file, id, h, n, Reply)) <==> TailLost(file, h, n)
  {
    hide Next, Answer, S.FrameOf, S.Step;
    if Acked(file, h, n) {
      AckHeard(file, id, h, n);
    } else {
      RefusalHeard(file, id, h, n);
    }
  }

  lemma {:induction false} RunLosesTail(file: S.File, id: int, h: Head, n: Net, moves: seq<Move>)
    requires ValidHead(h) && NetInv(file, h, n) && Runs(file, id, h, n, moves)
    ensures TailLost(file, h, After(file, id, h, n, moves))
            <==> TailLost(file, h, n) || RefusesTail(file, id, h, n, moves)
    decreases |moves|
  {
    hide Next, Enabled, TailLost, Sending, Stores, S.FrameOf, Answer, DecodeFHead;
    if moves == [] {
    } else {
      MoveKeepsInv(file, id, h, n, moves[0]);
      MoveLosesTail(file, id, h, n, moves[0]);
      RunLosesTail(file, id, h, Next(file, id, h, n, moves[0]), moves[1..]);
    }
  }

  lemma StartLosesNothing(file: S.File, h: Head, stale: seq<byte>, budget: nat)
    requires |stale| == CHUNK
    ensures !TailLost(file, h, Start(stale, budget))
  {
  }

  /** The two ways to end, told apart by whether the short last packet was lost. */
  lemma OverState(file: S.File, h: Head, n: Net)
    requires NetInv(file, h, n) && Over(n)
    ensures n.s.heard != []
    ensures n.r.verdict == R.Succeeded <==> Tail(file) != 0 && !TailLost(file, h, n)
    ensures if n.r.verdict == R.Succeeded
            then n.s.phase != S.Finished && n.r.out == file && n.r.cursize == |file|
                 && n.s.heard[|n.s.heard| - 1] == FIRETRST
            else n.s.phase == S.Finished && n.r.out == file[..|file| - Tail(file)]
                 && (Tail(file) != 0 <==> n.s.heard[|n.s.heard| - 1] == READERROR)
  {
    hide Answer, S.FrameOf;
  }

  /** How a run ends: exactly one end reports success. It is the receiver, with the whole file and
      the announced count, if and only if the length leaves a remainder and the relay never refused
      the packet that carries it; otherwise it is the sender, and the receiver has the full chunks
      only. The sender sees the difference in the last reply it heard. */
  lemma {:induction false} OneEndSucceeds(file: S.File, id: int, h: Head, stale: seq<byte>, budget: nat, moves: seq<Move>)
    requires ValidHead(h) && |stale| == CHUNK && Runs(file, id, h, Start(stale, budget), moves)
    requires Over(After(file, id, h, Start(stale, budget), moves))
    ensures var n := After(file, id, h, Start(stale, budget), moves);
            && (n.r.verdict == R.Succeeded <==> n.s.phase != S.Finished)
            && (n.r.verdict == R.Succeeded <==>
                  |file| % CHUNK != 0 && !RefusesTail(file, id, h, Start(stale, budget), moves))
            && n.s.heard != []
            && (n.r.verdict == R.Succeeded <==>
                  |file| % CHUNK != 0 && n.s.heard[|n.s.heard| - 1] != READERROR)
            && (n.r.verdict == R.Succeeded ==> n.r.out == file && n.r.cursize == |file|)
            && (n.r.verdict != R.Succeeded ==> n.r.out == file[..|file| - |file| % CHUNK])
  {
    hide Runs, After, RefusesTail, NetInv, TailLost, Over, Start;
    StartInv(file, h, stale, budget);
    StartLosesNothing(file, h, stale, budget);
    RunKeepsInv(file, id, h, Start(stale, budget), moves);
    RunLosesTail(file, id, h, Start(stale, budget), moves);
    OverState(file, h, After(file, id, h, Start(stale, budget), moves));
  }

  lemma {:induction false} NoRefuseKeepsTail(file: S.File, id: int, h: Head, n: Net, moves: seq<Move>)
    requires |n.s.buff| == CHUNK && Runs(file, id, h, n, moves) && Refuse !in moves
    ensures !RefusesTail(file, id, h, n, moves)
    decreases |moves|
  {
    hide Next, Enabled, DecodeFHead;
    if moves == [] {
    } else {
      NoRefuseKeepsTail(file, id, h, Next(file, id, h, n, moves[0]), moves[1..]);
    }
  }

  /** Over a relay that refuses nothing, the receiver ends with the whole file and reports success
      if and only if the length is not a multiple of the chunk size. */
  lemma {:induction false} FaithfulRelay(file: S.File, id: int, h: Head, stale: seq<byte>, budget: nat, moves: seq<Move>)
    requires ValidHead(h) && |stale| == CHUNK && Runs(file, id, h, Start(stale, budget), moves) && Refuse !in moves
    requires Over(After(file, id, h, Start(stale, budget), moves))
    ensures var n := After(file, id, h, Start(stale, budget), moves);
            n.r.out == file && (n.r.verdict == R.Succeeded <==> |file| % CHUNK != 0)
  {
    hide Runs, After, RefusesTail;
    NoRefuseKeepsTail(file, id, h, Start(stale, budget), moves);
    OneEndSucceeds(file, id, h, stale, budget, moves);
    assert file[..|file|] == file;
  }
}
