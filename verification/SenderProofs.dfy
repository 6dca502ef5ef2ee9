/** What every run of the sender keeps, for every file and every list of reply codes. */
module SenderProofs {
  import opened Wire
  import opened FileSender

  // ------------------------------------------------------ the peer's view

  predicate Unknown(r: int) {
    r != FIRETRST && r != READERROR && r != FITRFAIL
  }

  function Min(a: int, b: int): int {
    if a < b then a else b
  }

  function Payload(p: Sent): seq<byte> {
    if 0 <= p.head.length <= |p.body| then p.body[..p.head.length] else []
  }

  /** What the peer has accepted: packet i is answered by reply i + 1, and counts when that
      answer is `firetrst`. The first reply answers the announcement. */
  function Accepted(sent: seq<Sent>, heard: seq<int>): seq<byte>
    requires |heard| <= |sent| + 1
  {
    if |heard| <= 1 then []
    else
      var n := |heard| - 1;
      Accepted(sent, heard[..n]) + if heard[n] == FIRETRST then Payload(sent[n - 1]) else []
  }

  /** No packet was answered by a code outside the protocol and then passed over by an ack. */
  predicate Clean(heard: seq<int>) {
    forall i :: 1 <= i < |heard| - 1 && Unknown(heard[i]) ==> heard[i + 1] != FIRETRST
  }

  /** Every `readerror` that led to a packet answers exactly one packet:
      it is not the first reply and does not come after an unknown answer. */
  predicate Timed(heard: seq<int>, n: nat) {
    forall i :: 0 <= i < n && i < |heard| && heard[i] == READERROR ==>
      i >= 1 && (i == 1 || !Unknown(heard[i - 1]))
  }

  /** The packet numbered k was read at offset 40960 * k. */
  predicate Numbered(sent: seq<Sent>) {
    forall k :: 0 <= k < |sent| ==> sent[k].at == CHUNK * sent[k].head.packid
  }

  function Chunk(file: File, at: nat): seq<byte>
    requires at <= |file|
  {
    file[at..Min(at + CHUNK, |file|)]
  }

  /** A packet carries the chunk at its offset, and status 2 exactly when that chunk is short. */
  predicate Faithful(file: File, p: Sent) {
    && p.at % CHUNK == 0 && p.at < |file|
    && |p.body| == CHUNK
    && p.head.kind == FILE_KIND && p.head.offset == 0
    && p.head.length == Min(CHUNK, |file| - p.at)
    && p.body[..p.head.length] == Chunk(file, p.at)
    && p.head.status == if p.head.length < CHUNK then 2 else 1
  }

  predicate AllFaithful(file: File, sent: seq<Sent>) {
    forall k :: 0 <= k < |sent| ==> Faithful(file, sent[k])
  }

  function Retries(heard: seq<int>): (n: nat)
    ensures n <= |heard|
  {
    if heard == [] then 0
    else Retries(heard[..|heard| - 1]) + if heard[|heard| - 1] == READERROR then 1 else 0
  }

  function Chunks(file: File): nat {
    (|file| + CHUNK - 1) / CHUNK
  }

  // ------------------------------------------------------- one turn's facts

  function Last(s: State): Sent
    requires s.sent != []
  {
    s.sent[|s.sent| - 1]
  }

  /** The stream after the read at offset `at`: one chunk further, or failed by a short read. */
  predicate ReadFrom(file: File, st: Stream, at: int) {
    (st.failed <==> at + CHUNK > |file|) && (!st.failed ==> st.pos == at + CHUNK)
  }

  /** The invariant of the loop while it runs. */
  predicate Inv(file: File, isOpen: bool, s: State) {
    && s.phase == Running
    && |s.buff| == CHUNK && |s.heard| == |s.sent|
    && 0 <= s.pretellg <= |file| && s.pretellg % CHUNK == 0
    && AllFaithful(file, s.sent)
    && (s.sent == [] ==> s.stream == Stream(0, !isOpen) && s.pretellg == 0 && s.packid == 0)
    && (s.sent != [] ==>
          && isOpen
          && s.pretellg <= Last(s).at
          && (s.pretellg == Last(s).at <==> |s.heard| == 1 || !Unknown(s.heard[|s.heard| - 1]))
          && ReadFrom(file, s.stream, Last(s).at))
  }

  /** A turn from s on reply r that sent one more packet and goes on in t. */
  predicate Turned(s: State, r: int, t: State) {
    && r != FITRFAIL && !s.stream.failed && t.phase == Running
    && t.heard == s.heard + [r]
    && t.sent != [] && t.sent == s.sent + [Last(t)]
    && Last(t).at == (if r == READERROR then s.pretellg else s.stream.pos)
    && Last(t).head.packid == (if r == READERROR then s.packid - 1 else s.packid)
    && t.packid == Last(t).head.packid + 1
    && t.pretellg == (if r == FIRETRST then s.stream.pos else s.pretellg)
  }

  /** A turn from s on reply r that ended the loop: an abort, or an empty read at the end of the
      file or on a stream that had already failed. */
  predicate Ended(file: File, s: State, r: int, t: State) {
    && t.sent == s.sent && t.heard == s.heard + [r] && t.phase != Running
    && (t.phase == Aborted <==> r == FITRFAIL)
    && t.packid == (if r == READERROR then s.packid - 1 else s.packid)
    && (t.phase == Finished ==>
          s.stream.failed || (r != READERROR && s.stream.pos == |file|) || file == [])
  }

  lemma FetchFaithful(file: File, id: int, s: State)
    requires |s.buff| == CHUNK && Count(file, s.stream) > 0 && s.stream.pos % CHUNK == 0
    ensures var t := Fetch(file, id, s);
            && t.phase == s.phase && t.heard == s.heard && t.pretellg == s.pretellg
            && t.sent != [] && t.sent == s.sent + [Last(t)]
            && Last(t).at == s.stream.pos && Last(t).head.packid == s.packid && t.packid == s.packid + 1
            && Faithful(file, Last(t)) && ReadFrom(file, t.stream, Last(t).at)
  {
  }

  /** Where the stream stands once reply r has been dealt with. */
  lemma Reposition(file: File, isOpen: bool, s: State, r: int)
    requires Inv(file, isOpen, s) && r != FITRFAIL
    ensures var t := React(s, r);
            && (s.stream.failed ==> t.stream == s.stream)
            && (!s.stream.failed ==> (
                  && !t.stream.failed && 0 <= t.pretellg <= t.stream.pos <= |file|
                  && t.stream.pos % CHUNK == 0 && t.pretellg % CHUNK == 0
                  && t.stream.pos == (if r == READERROR then s.pretellg else s.stream.pos)
                  && t.pretellg == (if r == FIRETRST then s.stream.pos else s.pretellg)))
  {
    if s.sent != [] {
      assert Faithful(file, Last(s));
    }
  }

  lemma StepInv(file: File, id: int, isOpen: bool, s: State, r: int)
    requires Inv(file, isOpen, s)
    ensures var t := Step(file, id, s, r);
            if t.phase == Running then Inv(file, isOpen, t) && Turned(s, r, t) else Ended(file, s, r, t)
  {
    if r != FITRFAIL {
      Reposition(file, isOpen, s, r);
      var u := React(s, r);
      if Count(file, u.stream) > 0 {
        FetchFaithful(file, id, u);
        TurnKeepsInv(file, isOpen, s, r, Fetch(file, id, u));
      } else if s.sent != [] {
        assert Faithful(file, Last(s));
      }
    }
  }

  lemma TurnKeepsInv(file: File, isOpen: bool, s: State, r: int, t: State)
    requires Inv(file, isOpen, s) && Turned(s, r, t)
    requires |t.buff| == CHUNK && Faithful(file, Last(t)) && ReadFrom(file, t.stream, Last(t).at)
    ensures Inv(file, isOpen, t)
  {
  }

  // -------------------------------------------------------------- all runs

  lemma {:induction false} RunInv(file: File, id: int, isOpen: bool, stale: seq<byte>, replies: seq<int>)
    requires |stale| == CHUNK
    requires Run(file, id, isOpen, stale, replies).phase == Running
    ensures Inv(file, isOpen, Run(file, id, isOpen, stale, replies))
    ensures Run(file, id, isOpen, stale, replies).heard == replies
    decreases |replies|
  {
    if replies == [] {
    } else {
      var n := |replies| - 1;
      RunInv(file, id, isOpen, stale, replies[..n]);
      StepInv(file, id, isOpen, Run(file, id, isOpen, stale, replies[..n]), replies[n]);
      assert replies == replies[..n] + [replies[n]];
    }
  }

  /** A running loop reached its state by a turn that sent a packet. */
  lemma {:induction false} LastTurn(file: File, id: int, isOpen: bool, stale: seq<byte>, replies: seq<int>)
    requires |stale| == CHUNK && replies != []
    requires Run(file, id, isOpen, stale, replies).phase == Running
    ensures var u := Run(file, id, isOpen, stale, replies[..|replies| - 1]);
            var s := Run(file, id, isOpen, stale, replies);
            Inv(file, isOpen, u) && Inv(file, isOpen, s) && Turned(u, replies[|replies| - 1], s)
            && u.heard == replies[..|replies| - 1] && s.heard == replies
  {
    var n := |replies| - 1;
    RunInv(file, id, isOpen, stale, replies);
    RunInv(file, id, isOpen, stale, replies[..n]);
    StepInv(file, id, isOpen, Run(file, id, isOpen, stale, replies[..n]), replies[n]);
  }

  /** A loop that ended did so on one particular reply; nothing was sent after it. */
  lemma {:induction false} EndingTurn(file: File, id: int, isOpen: bool, stale: seq<byte>, replies: seq<int>) returns (n: nat)
    requires |stale| == CHUNK
    requires Run(file, id, isOpen, stale, replies).phase != Running
    ensures n < |replies| && Run(file, id, isOpen, stale, replies[..n]).phase == Running
    ensures var u := Run(file, id, isOpen, stale, replies[..n]);
            Inv(file, isOpen, u) && u.heard == replies[..n]
            && Ended(file, u, replies[n], Run(file, id, isOpen, stale, replies))
    decreases |replies|
  {
    n := |replies| - 1;
    if Run(file, id, isOpen, stale, replies[..n]).phase != Running {
      var front := replies[..n];
      n := EndingTurn(file, id, isOpen, stale, front);
      assert front[..n] == replies[..n];
    } else {
      RunInv(file, id, isOpen, stale, replies[..n]);
      StepInv(file, id, isOpen, Run(file, id, isOpen, stale, replies[..n]), replies[n]);
    }
  }

  /** What was heard is the replies as they came, up to the one that ended the loop. */
  predicate HeardOf(s: State, replies: seq<int>) {
    s.heard <= replies && |s.heard| == |s.sent| + if s.phase == Running then 0 else 1
  }

  lemma {:induction false} RunHears(file: File, id: int, isOpen: bool, stale: seq<byte>, replies: seq<int>)
    requires |stale| == CHUNK
    ensures HeardOf(Run(file, id, isOpen, stale, replies), replies)
  {
    hide Run;
    if Run(file, id, isOpen, stale, replies).phase == Running {
      RunInv(file, id, isOpen, stale, replies);
    } else {
      var n := EndingTurn(file, id, isOpen, stale, replies);
      assert replies[..n] + [replies[n]] <= replies;
    }
  }

  // --------------------------------------------- delivery under retransmission

  lemma {:induction false} AcceptedKeeps(sent: seq<Sent>, more: seq<Sent>, heard: seq<int>)
    requires |heard| <= |sent| + 1
    ensures Accepted(sent + more, heard) == Accepted(sent, heard)
    decreases |heard|
  {
    if |heard| <= 1 {
    } else {
      AcceptedKeeps(sent, more, heard[..|heard| - 1]);
    }
  }

  lemma CleanSnoc(heard: seq<int>, r: int)
    ensures Clean(heard + [r]) <==>
            Clean(heard) && !(|heard| >= 2 && Unknown(heard[|heard| - 1]) && r == FIRETRST)
  {
    var h := heard + [r];
    if Clean(h) {
      forall i | 1 <= i < |heard| - 1 && Unknown(heard[i])
        ensures heard[i + 1] != FIRETRST
      {
        assert h[i] == heard[i] && h[i + 1] == heard[i + 1];
      }
      if |heard| >= 2 {
        assert h[|heard| - 1] == heard[|heard| - 1] && h[|heard| - 1 + 1] == r;
      }
    }
  }

  /** What is accepted is the committed prefix when every passed-over packet was resent,
      and falls short of it otherwise. */
  predicate Tally(file: File, a: seq<byte>, committed: int, clean: bool) {
    0 <= committed <= |file| && |a| <= committed && (clean <==> |a| == committed) && (clean ==> a == file[..committed])
  }

  lemma TallyAck(file: File, a: seq<byte>, committed: int, clean: bool, at: int, payload: seq<byte>)
    requires Tally(file, a, committed, clean) && committed <= at && at + |payload| <= |file|
    requires payload == file[at..at + |payload|] && payload != []
    ensures Tally(file, a + payload, at + |payload|, clean && committed == at)
  {
  }

  lemma FaithfulPayload(file: File, p: Sent)
    requires Faithful(file, p)
    ensures var n := |Payload(p)|;
            0 < n == p.head.length && 0 <= p.at && p.at + n <= |file| && Payload(p) == file[p.at..p.at + n]
            && (n < CHUNK ==> p.at + n == |file|)
  {
  }

  lemma AcceptedSnoc(sent: seq<Sent>, heard: seq<int>, r: int)
    requires 0 < |heard| <= |sent|
    ensures Accepted(sent, heard + [r])
            == Accepted(sent, heard) + if r == FIRETRST then Payload(sent[|heard| - 1]) else []
  {
  }

  /** The end of what the last packet carries. */
  function Upto(s: State): int {
    if s.sent == [] then 0 else Last(s).at + |Payload(Last(s))|
  }

  predicate Tallied(file: File, s: State, heard: seq<int>, committed: int) {
    |heard| <= |s.sent| + 1 && Tally(file, Accepted(s.sent, heard), committed, Clean(heard))
  }

  /** What an answer needs to know of the state: the last packet's bytes and the committed offset. */
  predicate Standing(file: File, s: State) {
    && |s.heard| == |s.sent| && 0 <= s.pretellg <= |file|
    && (s.sent == [] ==> s.pretellg == 0)
    && (s.sent != [] ==>
          var at, n := Last(s).at, |Payload(Last(s))|;
          && s.pretellg <= at && 0 < n && at + n <= |file| && Payload(Last(s)) == file[at..at + n]
          && (s.pretellg == at <==> |s.heard| == 1 || !Unknown(s.heard[|s.heard| - 1])))
  }

  lemma InvStanding(file: File, isOpen: bool, s: State)
    requires Inv(file, isOpen, s)
    ensures Standing(file, s)
  {
  }

  /** One more answer: an ack of the last packet commits everything read so far. */
  lemma AnswerTally(file: File, s: State, r: int)
    requires Standing(file, s) && Tallied(file, s, s.heard, s.pretellg)
    ensures Tallied(file, s, s.heard + [r], if r == FIRETRST then Upto(s) else s.pretellg)
  {
    CleanSnoc(s.heard, r);
    if s.sent != [] {
      var p := Last(s);
      AcceptedSnoc(s.sent, s.heard, r);
      if r == FIRETRST {
        TallyAck(file, Accepted(s.sent, s.heard), s.pretellg, Clean(s.heard), p.at, Payload(p));
      }
    }
  }

  lemma {:induction false} RunTally(file: File, id: int, isOpen: bool, stale: seq<byte>, replies: seq<int>)
    requires |stale| == CHUNK
    requires Run(file, id, isOpen, stale, replies).phase == Running
    ensures var s := Run(file, id, isOpen, stale, replies);
            Tallied(file, s, s.heard, s.pretellg)
    decreases |replies|
  {
    if replies == [] {
    } else {
      hide Run;
      var u := Run(file, id, isOpen, stale, replies[..|replies| - 1]);
      LastTurn(file, id, isOpen, stale, replies);
      RunTally(file, id, isOpen, stale, replies[..|replies| - 1]);
      TurnTally(file, isOpen, u, replies[|replies| - 1], Run(file, id, isOpen, stale, replies));
    }
  }

  lemma TurnTally(file: File, isOpen: bool, s: State, r: int, t: State)
    requires Inv(file, isOpen, s) && Turned(s, r, t) && Tallied(file, s, s.heard, s.pretellg)
    ensures Tallied(file, t, t.heard, t.pretellg)
  {
    InvStanding(file, isOpen, s);
    AnswerTally(file, s, r);
    AcceptedKeeps(s.sent, [Last(t)], t.heard);
    if s.sent != [] {
      FaithfulPayload(file, Last(s));
    }
  }

  /** The accepted bytes are a prefix of the file at every moment of every run that has not
      acknowledged past an unanswered packet, and never more than the file in any run. */
  lemma {:induction false} AcceptedIsPrefix(file: File, id: int, isOpen: bool, stale: seq<byte>, replies: seq<int>)
    requires |stale| == CHUNK
    ensures var s := Run(file, id, isOpen, stale, replies);
            HeardOf(s, replies)
            && |Accepted(s.sent, s.heard)| <= |file|
            && (Clean(s.heard) ==> Accepted(s.sent, s.heard) <= file)
  {
    hide Run;
    RunHears(file, id, isOpen, stale, replies);
    if Run(file, id, isOpen, stale, replies).phase == Running {
      RunTally(file, id, isOpen, stale, replies);
    } else {
      var n := EndingTurn(file, id, isOpen, stale, replies);
      RunTally(file, id, isOpen, stale, replies[..n]);
      InvStanding(file, isOpen, Run(file, id, isOpen, stale, replies[..n]));
      AnswerTally(file, Run(file, id, isOpen, stale, replies[..n]), replies[n]);
    }
  }

  /** Delivery, exactly: a run that ends with the success report has had the whole file accepted
      if and only if the file is empty, or it could be opened, the last reply is an ack, and no
      unanswered packet was passed over. Otherwise strictly less than the file was accepted. */
  lemma {:induction false} FinishedDelivers(file: File, id: int, isOpen: bool, stale: seq<byte>, replies: seq<int>)
    requires |stale| == CHUNK
    requires Run(file, id, isOpen, stale, replies).phase == Finished
    ensures var s := Run(file, id, isOpen, stale, replies);
            && HeardOf(s, replies)
            && (Accepted(s.sent, s.heard) == file <==>
                  file == [] || (isOpen && Clean(s.heard) && s.heard[|s.heard| - 1] == FIRETRST))
            && (Accepted(s.sent, s.heard) != file ==> |Accepted(s.sent, s.heard)| < |file|)
  {
    hide Run;
    RunHears(file, id, isOpen, stale, replies);
    var n := EndingTurn(file, id, isOpen, stale, replies);
    var u := Run(file, id, isOpen, stale, replies[..n]);
    RunTally(file, id, isOpen, stale, replies[..n]);
    EndTally(file, isOpen, u, replies[n], Run(file, id, isOpen, stale, replies));
  }

  lemma EndTally(file: File, isOpen: bool, s: State, r: int, t: State)
    requires Inv(file, isOpen, s) && Ended(file, s, r, t) && t.phase == Finished && Tallied(file, s, s.heard, s.pretellg)
    ensures |t.heard| == |t.sent| + 1
    ensures var a := Accepted(t.sent, t.heard);
            && (a == file <==> file == [] || (isOpen && Clean(t.heard) && r == FIRETRST))
            && (a != file ==> |a| < |file|)
  {
    hide Accepted, Faithful;
    InvStanding(file, isOpen, s);
    AnswerTally(file, s, r);
    if s.sent != [] {
      FaithfulPayload(file, Last(s));
    }
  }

  /** The code's one way to lose data inside its own vocabulary: a `readerror` for the short last
      packet finds a failed stream, and the loop ends as a success. */
  lemma RejectedTailReportsSuccess(file: File, id: int, stale: seq<byte>)
    requires |stale| == CHUNK && 0 < |file| < CHUNK
    ensures var s := Run(file, id, true, stale, [FIRETRST, READERROR]);
            s.phase == Finished && |s.sent| == 1 && |s.heard| == 2 && Accepted(s.sent, s.heard) == []
  {
    var rs := [FIRETRST, READERROR];
    assert rs[..0] == [] && rs[..1] == [FIRETRST] && rs[..2] == rs;
    RunSnoc(file, id, true, stale, rs, 0);
    RunSnoc(file, id, true, stale, rs, 1);
    var s1 := Step(file, id, Init(true, stale), FIRETRST);
    assert s1.stream.failed && |s1.sent| == 1 && s1.heard == [FIRETRST];
    var s := Run(file, id, true, stale, rs);
    assert s == Step(file, id, s1, READERROR);
    assert s.heard == rs && s.heard[..1] == [FIRETRST];
  }

  lemma SecondChunkOut(file: File, id: int, stale: seq<byte>, x: int)
    requires |stale| == CHUNK && CHUNK < |file| <= 2 * CHUNK && Unknown(x)
    ensures var s := Run(file, id, true, stale, [FIRETRST, x]);
            Inv(file, true, s) && |s.sent| == 2 && Last(s).at == CHUNK && s.heard == [FIRETRST, x]
  {
    var rs := [FIRETRST, x];
    assert rs[..0] == [] && rs[..1] == [FIRETRST] && rs[..2] == rs;
    RunSnoc(file, id, true, stale, rs, 0);
    RunSnoc(file, id, true, stale, rs, 1);
    hide Run, Step;
    var s0, s1 := Init(true, stale), Run(file, id, true, stale, rs[..1]);
    StepInv(file, id, true, s0, FIRETRST);
    GoesOn(file, id, s0, FIRETRST);
    StepInv(file, id, true, s1, x);
    GoesOn(file, id, s1, x);
  }

  lemma OnlySecondAccepted(sent: seq<Sent>, x: int)
    requires |sent| == 2 && Unknown(x)
    ensures Accepted(sent, [FIRETRST, x, FIRETRST]) == Payload(sent[1])
  {
    AcceptedSnoc(sent, [FIRETRST], x);
    AcceptedSnoc(sent, [FIRETRST, x], FIRETRST);
    assert [FIRETRST] + [x] == [FIRETRST, x];
    assert [FIRETRST, x] + [FIRETRST] == [FIRETRST, x, FIRETRST];
  }

  lemma OnlySecondKept(file: File, s: State, x: int, t: State)
    requires Inv(file, true, s) && |s.sent| == 2 && Last(s).at == CHUNK && s.heard == [FIRETRST, x] && Unknown(x)
    requires Ended(file, s, FIRETRST, t) && |file| <= 2 * CHUNK
    ensures |t.sent| == 2 && t.heard == [FIRETRST, x, FIRETRST]
    ensures Accepted(t.sent, t.heard) == file[CHUNK..] && file[CHUNK..] != file
  {
    hide Accepted;
    FaithfulPayload(file, Last(s));
    OnlySecondAccepted(s.sent, x);
    assert |file[CHUNK..]| < |file|;
  }

  /** A code outside the protocol loses a packet for good when an ack follows: on a file of two
      chunks the run finishes with both sent, and only the second was ever accepted. */
  lemma PassedOverChunkIsLost(file: File, id: int, stale: seq<byte>, x: int)
    requires |stale| == CHUNK && CHUNK < |file| <= 2 * CHUNK && Unknown(x)
    ensures var s := Run(file, id, true, stale, [FIRETRST, x, FIRETRST]);
            s.phase == Finished && |s.sent| == 2 && s.heard == [FIRETRST, x, FIRETRST]
            && Accepted(s.sent, s.heard) == file[CHUNK..] && file[CHUNK..] != file
  {
    var rs := [FIRETRST, x, FIRETRST];
    assert rs[..2] == [FIRETRST, x] && rs[..3] == rs;
    RunSnoc(file, id, true, stale, rs, 2);
    hide Run, Step, Accepted;
    SecondChunkOut(file, id, stale, x);
    var s2 := Run(file, id, true, stale, rs[..2]);
    StepInv(file, id, true, s2, FIRETRST);
    StopsAtEnd(file, id, s2);
    OnlySecondKept(file, s2, x, Run(file, id, true, stale, rs));
  }

  /** With data left at the position the reply leads to, the loop goes on. */
  lemma GoesOn(file: File, id: int, s: State, r: int)
    requires Inv(file, true, s) && r != FITRFAIL && !s.stream.failed
    requires (if r == READERROR then s.pretellg else s.stream.pos) < |file|
    ensures Step(file, id, s, r).phase == Running
  {
    Reposition(file, true, s, r);
  }

  /** An ack for the last chunk of the file ends it. */
  lemma StopsAtEnd(file: File, id: int, s: State)
    requires Inv(file, true, s) && s.sent != [] && Last(s).at + CHUNK >= |file|
    ensures Step(file, id, s, FIRETRST).phase == Finished
  {
  }

  /** A file that cannot be opened is reported as sent as soon as the peer answers at all. */
  lemma UnopenedReportsSuccess(file: File, id: int, stale: seq<byte>, r: int)
    requires |stale| == CHUNK
    ensures var s := Run(file, id, false, stale, [r]);
            s.sent == [] && (s.phase == Finished <==> r != FITRFAIL)
  {
  }

  // ------------------------------------------------------------- numbering

  predicate Ranked(s: State) {
    s.sent != [] ==> CHUNK * s.packid == Last(s).at + CHUNK
  }

  lemma TimedSnoc(heard: seq<int>, r: int)
    ensures Timed(heard + [r], |heard| + 1) <==>
            Timed(heard, |heard|)
            && (r == READERROR ==> |heard| >= 1 && (|heard| == 1 || !Unknown(heard[|heard| - 1])))
  {
    var h := heard + [r];
    if Timed(h, |heard| + 1) {
      forall i | 0 <= i < |heard| && heard[i] == READERROR
        ensures i >= 1 && (i == 1 || !Unknown(heard[i - 1]))
      {
        assert h[i] == heard[i];
        assert i >= 1 ==> h[i - 1] == heard[i - 1];
      }
      if r == READERROR {
        assert h[|heard|] == r;
        assert |heard| >= 1 ==> h[|heard| - 1] == heard[|heard| - 1];
      }
    }
  }

  lemma NumberedSnoc(sent: seq<Sent>, p: Sent)
    ensures Numbered(sent + [p]) <==> Numbered(sent) && p.at == CHUNK * p.head.packid
  {
    var t := sent + [p];
    if Numbered(t) {
      assert t[|sent|] == p;
      assert forall k :: 0 <= k < |sent| ==> t[k] == sent[k];
    }
  }

  lemma TurnNumbered(file: File, isOpen: bool, s: State, r: int, t: State)
    requires Inv(file, isOpen, s) && Turned(s, r, t)
    requires Numbered(s.sent) <==> Timed(s.heard, |s.sent|)
    requires Numbered(s.sent) ==> Ranked(s)
    ensures Numbered(t.sent) <==> Timed(t.heard, |t.sent|)
    ensures Numbered(t.sent) ==> Ranked(t)
  {
    TimedSnoc(s.heard, r);
    NumberedSnoc(s.sent, Last(t));
  }

  lemma EndNumbered(file: File, isOpen: bool, s: State, r: int, t: State)
    requires Inv(file, isOpen, s) && Ended(file, s, r, t)
    ensures Timed(t.heard, |t.sent|) <==> Timed(s.heard, |s.sent|)
  {
    assert forall i :: 0 <= i < |s.heard| ==> t.heard[i] == s.heard[i];
  }

  lemma {:induction false} RunNumbered(file: File, id: int, isOpen: bool, stale: seq<byte>, replies: seq<int>)
    requires |stale| == CHUNK
    requires Run(file, id, isOpen, stale, replies).phase == Running
    ensures var s := Run(file, id, isOpen, stale, replies);
            (Numbered(s.sent) <==> Timed(s.heard, |s.sent|)) && (Numbered(s.sent) ==> Ranked(s))
    decreases |replies|
  {
    if replies == [] {
    } else {
      hide Run;
      LastTurn(file, id, isOpen, stale, replies);
      RunNumbered(file, id, isOpen, stale, replies[..|replies| - 1]);
      TurnNumbered(file, isOpen, Run(file, id, isOpen, stale, replies[..|replies| - 1]), replies[|replies| - 1],
                   Run(file, id, isOpen, stale, replies));
    }
  }

  /** Rewind, exactly: every packet ever sent with number k was read at 40960 * k if and only if
      every `readerror` the sender acted on answered exactly one packet. */
  lemma {:induction false} NumberedIffTimed(file: File, id: int, isOpen: bool, stale: seq<byte>, replies: seq<int>)
    requires |stale| == CHUNK
    ensures var s := Run(file, id, isOpen, stale, replies);
            HeardOf(s, replies) && (Numbered(s.sent) <==> Timed(replies, |s.sent|))
  {
    hide Run;
    RunHears(file, id, isOpen, stale, replies);
    var s := Run(file, id, isOpen, stale, replies);
    TimedFront(s.heard, replies, |s.sent|);
    if s.phase == Running {
      RunNumbered(file, id, isOpen, stale, replies);
    } else {
      var n := EndingTurn(file, id, isOpen, stale, replies);
      RunNumbered(file, id, isOpen, stale, replies[..n]);
      EndNumbered(file, isOpen, Run(file, id, isOpen, stale, replies[..n]), replies[n], s);
    }
  }

  lemma TimedFront(heard: seq<int>, replies: seq<int>, n: nat)
    requires heard <= replies && n <= |heard|
    ensures Timed(heard, n) <==> Timed(replies, n)
  {
    assert forall i :: 0 <= i < |heard| ==> replies[i] == heard[i];
  }

  /** The failing case: a first reply of `readerror` numbers the chunk at offset 0 with -1. */
  lemma RefusedAnnouncementMisnumbers(file: File, id: int, stale: seq<byte>)
    requires |stale| == CHUNK && file != []
    ensures var s := Run(file, id, true, stale, [READERROR]);
            |s.sent| == 1 && s.sent[0].at == 0 && s.sent[0].head.packid == -1 && !Numbered(s.sent)
  {
    var rs := [READERROR];
    assert rs[..0] == [] && rs[..1] == rs;
    RunSnoc(file, id, true, stale, rs, 0);
  }

  lemma {:induction false} RunFaithful(file: File, id: int, isOpen: bool, stale: seq<byte>, replies: seq<int>)
    requires |stale| == CHUNK
    ensures AllFaithful(file, Run(file, id, isOpen, stale, replies).sent)
  {
    if Run(file, id, isOpen, stale, replies).phase == Running {
      RunInv(file, id, isOpen, stale, replies);
    } else {
      var n := EndingTurn(file, id, isOpen, stale, replies);
    }
  }

  /** Every packet of every run carries the chunk at the offset it was read from; under
      `Timed` that is the chunk its number names, first time or resent. */
  lemma {:induction false} PacketsCarryTheirChunk(file: File, id: int, isOpen: bool, stale: seq<byte>, replies: seq<int>, k: nat)
    requires |stale| == CHUNK
    requires k < |Run(file, id, isOpen, stale, replies).sent|
    ensures var s := Run(file, id, isOpen, stale, replies);
            Faithful(file, s.sent[k])
            && (Timed(replies, |s.sent|) ==>
                  var num := s.sent[k].head.packid;
                  0 <= CHUNK * num < |file| && Payload(s.sent[k]) == file[CHUNK * num..Min(CHUNK * (num + 1), |file|)])
  {
    hide Run;
    var s := Run(file, id, isOpen, stale, replies);
    RunFaithful(file, id, isOpen, stale, replies);
    NumberedIffTimed(file, id, isOpen, stale, replies);
    FaithfulPayload(file, s.sent[k]);
  }

  // -------------------------------------------------------- the final packet

  predicate FullBeforeLast(sent: seq<Sent>) {
    forall k :: 0 <= k < |sent| - 1 ==> sent[k].head.status == 1
  }

  lemma TurnFull(file: File, isOpen: bool, s: State, r: int, t: State)
    requires Inv(file, isOpen, s) && Turned(s, r, t) && FullBeforeLast(s.sent)
    ensures FullBeforeLast(t.sent)
  {
  }

  /** While the loop runs, only the last packet can be a short one. */
  lemma {:induction false} ShortIsLast(file: File, id: int, isOpen: bool, stale: seq<byte>, replies: seq<int>)
    requires |stale| == CHUNK
    requires Run(file, id, isOpen, stale, replies).phase == Running
    ensures FullBeforeLast(Run(file, id, isOpen, stale, replies).sent)
    decreases |replies|
  {
    if replies == [] {
    } else {
      hide Run;
      LastTurn(file, id, isOpen, stale, replies);
      ShortIsLast(file, id, isOpen, stale, replies[..|replies| - 1]);
      TurnFull(file, isOpen, Run(file, id, isOpen, stale, replies[..|replies| - 1]), replies[|replies| - 1],
               Run(file, id, isOpen, stale, replies));
    }
  }

  lemma Remainder(file: File, at: int)
    requires at % CHUNK == 0 && 0 <= at < |file| <= at + CHUNK
    ensures |file| % CHUNK == (if |file| == at + CHUNK then 0 else |file| - at)
  {
  }

  /** Final-packet marking, whatever the replies were: in a finished run over an opened file a
      packet has status 2 exactly when it is the last one and the length leaves a remainder,
      and that packet carries exactly the remainder. */
  lemma {:induction false} FinalPacketMarking(file: File, id: int, stale: seq<byte>, replies: seq<int>)
    requires |stale| == CHUNK
    requires Run(file, id, true, stale, replies).phase == Finished
    ensures var s := Run(file, id, true, stale, replies);
            && (file != [] <==> s.sent != [])
            && (forall k :: 0 <= k < |s.sent| ==>
                  (s.sent[k].head.status == 2 <==> k == |s.sent| - 1 && |file| % CHUNK != 0))
            && (|file| % CHUNK != 0 ==> Payload(Last(s)) == file[|file| - |file| % CHUNK..])
  {
    hide Run;
    var n := EndingTurn(file, id, true, stale, replies);
    var u := Run(file, id, true, stale, replies[..n]);
    ShortIsLast(file, id, true, stale, replies[..n]);
    EndMarking(file, u, replies[n], Run(file, id, true, stale, replies));
  }

  lemma EndMarking(file: File, s: State, r: int, t: State)
    requires Inv(file, true, s) && Ended(file, s, r, t) && t.phase == Finished && FullBeforeLast(s.sent)
    ensures file != [] <==> t.sent != []
    ensures forall k :: 0 <= k < |t.sent| ==>
              (t.sent[k].head.status == 2 <==> k == |t.sent| - 1 && |file| % CHUNK != 0)
    ensures |file| % CHUNK != 0 ==> Payload(Last(t)) == file[|file| - |file| % CHUNK..]
  {
    if s.sent != [] {
      assert Faithful(file, Last(s));
      FaithfulPayload(file, Last(s));
      Remainder(file, Last(s).at);
    }
  }

  // ------------------------------------------------------------ work bound

  predicate AllKnown(heard: seq<int>) {
    forall i :: 0 <= i < |heard| ==> !Unknown(heard[i])
  }

  lemma ChunkIndex(file: File, at: int)
    requires 0 <= at < |file| && at % CHUNK == 0
    ensures 0 <= at / CHUNK && at / CHUNK + 1 <= Chunks(file) && at == CHUNK * (at / CHUNK)
    ensures (at + CHUNK) / CHUNK == at / CHUNK + 1
    ensures at + CHUNK >= |file| ==> at / CHUNK + 1 == Chunks(file)
  {
  }

  /** The packets of r passes over the whole file. */
  function Passes(file: File, r: nat): nat {
    if r == 0 then 0 else Passes(file, r - 1) + Chunks(file)
  }

  lemma {:induction false} PassesProduct(file: File, r: nat)
    ensures Passes(file, r) == r * Chunks(file)
  {
    if r == 0 {
    } else {
      PassesProduct(file, r - 1);
    }
  }

  /** With known replies every packet is either progress or a retry; in general a retry costs
      at most one more pass over the file. */
  predicate Counted(file: File, s: State, retries: nat) {
    s.sent != [] ==>
      && |s.sent| <= Passes(file, retries) + Last(s).at / CHUNK + 1
      && (AllKnown(s.heard) ==> |s.sent| == retries + Last(s).at / CHUNK + 1)
  }

  lemma TurnCounted(file: File, isOpen: bool, s: State, r: int, t: State, retries: nat)
    requires Inv(file, isOpen, s) && Inv(file, isOpen, t) && Turned(s, r, t) && s.sent != [] && Counted(file, s, retries)
    ensures Counted(file, t, if r == READERROR then retries + 1 else retries)
  {
    assert Faithful(file, Last(s)) && Faithful(file, Last(t));
    ChunkIndex(file, Last(s).at);
    ChunkIndex(file, Last(t).at);
    if AllKnown(t.heard) {
      assert forall i :: 0 <= i < |s.heard| ==> t.heard[i] == s.heard[i];
    }
  }

  lemma FirstCounted(file: File, isOpen: bool, s: State, r: int, t: State)
    requires Inv(file, isOpen, s) && Turned(s, r, t) && s.sent == []
    ensures Counted(file, t, 0)
  {
  }

  lemma RetriesSnoc(replies: seq<int>)
    requires |replies| >= 2
    ensures var n := |replies| - 1;
            Retries(replies[1..]) == Retries(replies[..n][1..]) + if replies[n] == READERROR then 1 else 0
  {
    assert replies[1..][..|replies| - 2] == replies[..|replies| - 1][1..];
  }

  lemma {:induction false} RunCounted(file: File, id: int, isOpen: bool, stale: seq<byte>, replies: seq<int>)
    requires |stale| == CHUNK && replies != []
    requires Run(file, id, isOpen, stale, replies).phase == Running
    ensures Counted(file, Run(file, id, isOpen, stale, replies), Retries(replies[1..]))
    decreases |replies|
  {
    hide Run;
    var n := |replies| - 1;
    LastTurn(file, id, isOpen, stale, replies);
    if n == 0 {
      FirstCounted(file, isOpen, Run(file, id, isOpen, stale, replies[..n]), replies[0], Run(file, id, isOpen, stale, replies));
    } else {
      RunCounted(file, id, isOpen, stale, replies[..n]);
      RetriesSnoc(replies);
      TurnCounted(file, isOpen, Run(file, id, isOpen, stale, replies[..n]), replies[n],
                  Run(file, id, isOpen, stale, replies), Retries(replies[..n][1..]));
    }
  }

  lemma CountedBound(file: File, isOpen: bool, s: State, retries: nat)
    requires Inv(file, isOpen, s) && s.sent != [] && Counted(file, s, retries)
    ensures |s.sent| <= (retries + 1) * Chunks(file)
    ensures AllKnown(s.heard) ==> |s.sent| <= retries + Chunks(file)
  {
    assert Faithful(file, Last(s));
    ChunkIndex(file, Last(s).at);
    PassesProduct(file, retries + 1);
    assert Passes(file, retries + 1) == Passes(file, retries) + Chunks(file);
  }

  /** Termination for any peer: a loop still running after R `readerror`s past the first reply has
      heard at most R + 1 replies per chunk, and with protocol codes only at most one per chunk
      and one per `readerror`. So any longer list of replies has ended it. */
  lemma {:induction false} RunningIsBounded(file: File, id: int, isOpen: bool, stale: seq<byte>, replies: seq<int>)
    requires |stale| == CHUNK && replies != []
    ensures Run(file, id, isOpen, stale, replies).phase == Running ==>
              var r := Retries(replies[1..]);
              |replies| <= (r + 1) * Chunks(file) && (AllKnown(replies) ==> |replies| <= r + Chunks(file))
  {
    hide Run;
    if Run(file, id, isOpen, stale, replies).phase == Running {
      RunInv(file, id, isOpen, stale, replies);
      RunCounted(file, id, isOpen, stale, replies);
      CountedBound(file, isOpen, Run(file, id, isOpen, stale, replies), Retries(replies[1..]));
    }
  }

  /** How far the packet counter lags behind: by one if the announcement was refused. */
  function Lag(heard: seq<int>): nat {
    if heard != [] && heard[0] == READERROR then 1 else 0
  }

  predicate Lagging(s: State) {
    AllKnown(s.heard) && s.sent != [] ==> CHUNK * (s.packid + Lag(s.heard)) == Last(s).at + CHUNK
  }

  lemma TurnLagging(file: File, isOpen: bool, s: State, r: int, t: State)
    requires Inv(file, isOpen, s) && Turned(s, r, t) && Lagging(s)
    ensures Lagging(t)
  {
    KnownSnoc(s.heard, r);
  }

  lemma KnownSnoc(heard: seq<int>, r: int)
    ensures AllKnown(heard + [r]) <==> AllKnown(heard) && !Unknown(r)
    ensures heard != [] ==> Lag(heard + [r]) == Lag(heard)
  {
    assert forall i :: 0 <= i < |heard| ==> (heard + [r])[i] == heard[i];
    assert (heard + [r])[|heard|] == r;
  }

  lemma {:induction false} RunLagging(file: File, id: int, isOpen: bool, stale: seq<byte>, replies: seq<int>)
    requires |stale| == CHUNK
    requires Run(file, id, isOpen, stale, replies).phase == Running
    ensures Lagging(Run(file, id, isOpen, stale, replies))
    decreases |replies|
  {
    if replies == [] {
    } else {
      hide Run;
      LastTurn(file, id, isOpen, stale, replies);
      RunLagging(file, id, isOpen, stale, replies[..|replies| - 1]);
      TurnLagging(file, isOpen, Run(file, id, isOpen, stale, replies[..|replies| - 1]), replies[|replies| - 1],
                  Run(file, id, isOpen, stale, replies));
    }
  }

  /** The exact cost of a finished run that heard only protocol codes: one packet per chunk plus
      one per `readerror` that answered a packet and was followed by another. Its packet counter
      ends at the number of chunks, less one for a refused announcement and less one for a
      `readerror` that ended the run; so it is that number if and only if neither happened. */
  lemma {:induction false} ExactWork(file: File, id: int, stale: seq<byte>, replies: seq<int>)
    requires |stale| == CHUNK
    requires Run(file, id, true, stale, replies).phase == Finished
    requires AllKnown(Run(file, id, true, stale, replies).heard)
    ensures var s := Run(file, id, true, stale, replies);
            var m := |s.sent|;
            && m < |replies| && s.heard == replies[..m + 1]
            && m == Chunks(file) + (if m == 0 then 0 else Retries(replies[1..m]))
            && s.packid == Chunks(file) - Lag(replies) - (if m > 0 && replies[m] == READERROR then 1 else 0)
  {
    hide Run;
    var n := EndingTurn(file, id, true, stale, replies);
    assert replies[..n + 1] == replies[..n] + [replies[n]];
    var u := Run(file, id, true, stale, replies[..n]);
    KnownSnoc(u.heard, replies[n]);
    RunLagging(file, id, true, stale, replies[..n]);
    if n == 0 {
      EndCounted(file, u, replies[n], Run(file, id, true, stale, replies), 0);
    } else {
      RunCounted(file, id, true, stale, replies[..n]);
      assert replies[1..n] == replies[..n][1..];
      EndCounted(file, u, replies[n], Run(file, id, true, stale, replies), Retries(replies[1..n]));
    }
  }

  lemma EndCounted(file: File, s: State, r: int, t: State, retries: nat)
    requires Inv(file, true, s) && Ended(file, s, r, t) && t.phase == Finished
    requires AllKnown(t.heard) && AllKnown(s.heard) && Counted(file, s, retries) && Lagging(s)
    ensures |t.sent| == Chunks(file) + (if t.sent == [] then 0 else retries)
    ensures t.packid == Chunks(file) - Lag(t.heard) - (if t.sent != [] && r == READERROR then 1 else 0)
  {
    if s.sent != [] {
      assert Faithful(file, Last(s));
      ChunkIndex(file, Last(s).at);
      assert t.heard[0] == s.heard[0];
    }
  }
}
