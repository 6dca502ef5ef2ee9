/** The outgoing message queue: `clint::write_thread` and the threads that push to it. */
module WriteQueue {
  import opened Wire

  type Message = seq<byte>

  // ------------------------------------------------ the critical sections

  class Outbox {
    var writequ: seq<Message>
    var is_have_task: bool
    var socket: seq<Message>

    constructor ()
      ensures writequ == [] && !is_have_task && socket == []
    {
      writequ, is_have_task, socket := [], false, [];
    }

    /** The fields are those of the machine below in state s. */
    ghost predicate Shows(s: State)
      reads this
    {
      writequ == s.queue && is_have_task == s.flag && socket == s.written
    }

    /** A producer's block under the lock: the machine's Push and Raise. */
    method Push(m: Message)
      modifies this`writequ, this`is_have_task
      ensures writequ == old(writequ) + [m] && is_have_task
      ensures forall s: State, i :: old(Shows(s)) && At(s, i, Locked(m)) ==>
                Shows(Next(Next(s, Move.Push(i)), Raise(i)))
    {
      writequ := writequ + [m];
      is_have_task := true;
    }

    /** The writer's block under its second lock: everything queued goes out in order. It is the
        machine's drain from Draining to the unlock. */
    method Drain()
      modifies this
      ensures socket == old(socket) + old(writequ)
      ensures writequ == [] && !is_have_task
      ensures forall s: State :: old(Shows(s)) && s.writer == Draining ==>
                Runs(s, DrainMoves(|s.queue|)) && Shows(After(s, DrainMoves(|s.queue|)))
    {
      var isnew := false;
      var wr_buf := [];
      while writequ != []
        invariant !isnew
        invariant socket + writequ == old(socket) + old(writequ)
        decreases |writequ|
      {
        if |writequ| > 0 {
          wr_buf := writequ[0];
          writequ := writequ[1..];
          isnew := true;
        }
        if isnew {
          socket := socket + [wr_buf];
          isnew := false;
        }
      }
      is_have_task := false;
      forall s: State | old(Shows(s)) && s.writer == Draining
        ensures Runs(s, DrainMoves(|s.queue|)) && Shows(After(s, DrainMoves(|s.queue|)))
      {
        DrainWritesQueue(s);
      }
    }
  }

  // ---------------------------------------------------- the interleavings

  /** Where the writer is. Outside: before its first lock. Testing, Deciding, Asleep, Woken: inside
      the condition wait (predicate to be tested, found false, blocked, to relock). Leaving: the wait
      returned. Gap: between the two locks. Draining, Writing: in the loop. Done: flag cleared. */
  datatype WriterPc =
    | Outside | Testing | Deciding | Asleep | Woken | Leaving | Gap
    | Draining | Writing(hand: Message) | Done

  datatype ProducerPc = Ready | Locked(m: Message) | Pushed | Flagged | Notifying

  datatype Owner = Free | Writer | Producer(i: nat)

  datatype State = State(
    owner: Owner, flag: bool, queue: seq<Message>,
    writer: WriterPc, producers: seq<ProducerPc>,
    pushed: seq<Message>, written: seq<Message>)

  datatype Move =
    | Lock | Test | Sleep | Spurious | Relock | Leave | LockAgain | Take | Finish | Write | Unlock
    | Start(i: nat, m: Message) | Push(i: nat) | Raise(i: nat) | Release(i: nat) | Notify(i: nat)

  function Initial(n: nat): State {
    State(Free, false, [], Outside, seq(n, _ => Ready), [], [])
  }

  predicate At(s: State, i: nat, pc: ProducerPc) {
    i < |s.producers| && s.producers[i] == pc
  }

  predicate Enabled(s: State, m: Move) {
    match m
    case Lock => s.owner == Free && s.writer == Outside
    case Test => s.writer == Testing
    case Sleep => s.writer == Deciding
    case Spurious => s.writer == Asleep
    case Relock => s.owner == Free && s.writer == Woken
    case Leave => s.writer == Leaving
    case LockAgain => s.owner == Free && s.writer == Gap
    case Take => s.writer == Draining && s.queue != []
    case Finish => s.writer == Draining && s.queue == []
    case Write => s.writer.Writing?
    case Unlock => s.writer == Done
    case Start(i, _) => s.owner == Free && At(s, i, Ready)
    case Push(i) => i < |s.producers| && s.producers[i].Locked?
    case Raise(i) => At(s, i, Pushed)
    case Release(i) => At(s, i, Flagged)
    case Notify(i) => At(s, i, Notifying)
  }

  function Next(s: State, m: Move): State
    requires Enabled(s, m)
  {
    match m
    case Lock => s.(owner := Writer, writer := Testing)
    case Test => s.(writer := if s.flag then Leaving else Deciding)
    case Sleep => s.(owner := Free, writer := Asleep)
    case Spurious => s.(writer := Woken)
    case Relock => s.(owner := Writer, writer := Testing)
    case Leave => s.(owner := Free, writer := Gap)
    case LockAgain => s.(owner := Writer, writer := Draining)
    case Take => s.(queue := s.queue[1..], writer := Writing(s.queue[0]))
    case Finish => s.(flag := false, writer := Done)
    case Write => s.(written := s.written + [s.writer.hand], writer := Draining)
    case Unlock => s.(owner := Free, writer := Outside)
    case Start(i, msg) => s.(owner := Producer(i), producers := s.producers[i := Locked(msg)])
    case Push(i) =>
      var msg := s.producers[i].m;
      s.(queue := s.queue + [msg], pushed := s.pushed + [msg], producers := s.producers[i := Pushed])
    case Raise(i) => s.(flag := true, producers := s.producers[i := Flagged])
    case Release(i) => s.(owner := Free, producers := s.producers[i := Notifying])
    case Notify(i) =>
      s.(producers := s.producers[i := Ready], writer := if s.writer == Asleep then Woken else s.writer)
  }

  predicate Runs(s: State, moves: seq<Move>)
    decreases |moves|
  {
    moves == [] || (Enabled(s, moves[0]) && Runs(Next(s, moves[0]), moves[1..]))
  }

  function After(s: State, moves: seq<Move>): State
    requires Runs(s, moves)
    decreases |moves|
  {
    if moves == [] then s else After(Next(s, moves[0]), moves[1..])
  }

  // -------------------------------------------------------------- invariant

  predicate Holding(pc: ProducerPc) {
    pc.Locked? || pc.Pushed? || pc.Flagged?
  }

  /** A producer that has set the flag and has not yet called `notify_all`. */
  predicate Owes(pc: ProducerPc) {
    pc.Flagged? || pc.Notifying?
  }

  function Hand(w: WriterPc): seq<Message> {
    if w.Writing? then [w.hand] else []
  }

  predicate Exclusive(s: State) {
    && (s.owner == Writer <==> !(s.writer in {Outside, Asleep, Woken, Gap}))
    && (forall i :: 0 <= i < |s.producers| ==> (Holding(s.producers[i]) <==> s.owner == Producer(i)))
    && (s.owner.Producer? ==> s.owner.i < |s.producers|)
  }

  /** How the flag stands to the queue, by who is at work. */
  predicate FlagRight(s: State) {
    match s.owner
    case Free => s.flag <==> s.queue != []
    case Writer =>
      (match s.writer
       case Testing => s.flag <==> s.queue != []
       case Deciding => !s.flag && s.queue == []
       case Leaving => s.flag && s.queue != []
       case Draining => s.flag
       case Writing(_) => s.flag
       case Done => !s.flag && s.queue == []
       case _ => true)
    case Producer(i) =>
      i < |s.producers| &&
      (match s.producers[i]
       case Locked(_) => s.flag <==> s.queue != []
       case Pushed => s.queue != []
       case Flagged => s.flag && s.queue != []
       case _ => true)
  }

  predicate Wakeable(s: State) {
    s.writer == Asleep && s.flag ==> exists i :: 0 <= i < |s.producers| && Owes(s.producers[i])
  }

  predicate Conserved(s: State) {
    s.written + Hand(s.writer) + s.queue == s.pushed
  }

  predicate Inv(s: State) {
    Exclusive(s) && FlagRight(s) && Wakeable(s) && Conserved(s) && (s.writer == Gap ==> s.flag)
  }

  predicate ByProducer(m: Move) {
    m.Start? || m.Push? || m.Raise? || m.Release? || m.Notify?
  }

  /** A producer's moves up to the push, and the message it adds. */
  lemma PushStep(s: State, m: Move)
    requires Inv(s) && Enabled(s, m) && (m.Start? || m.Push?)
    ensures Inv(Next(s, m))
  {
  }

  /** Its moves from the raise to the notification, which settles what it owes. */
  lemma RaiseStep(s: State, m: Move)
    requires Inv(s) && Enabled(s, m) && (m.Raise? || m.Release? || m.Notify?)
    ensures Inv(Next(s, m))
  {
  }

  lemma WriterStep(s: State, m: Move)
    requires Inv(s) && Enabled(s, m) && !ByProducer(m)
    ensures Inv(Next(s, m))
  {
  }

  lemma MoveKeepsInv(s: State, m: Move)
    requires Inv(s) && Enabled(s, m)
    ensures Inv(Next(s, m))
  {
    hide Inv, Next;
    if m.Start? || m.Push? {
      PushStep(s, m);
    } else if ByProducer(m) {
      RaiseStep(s, m);
    } else {
      WriterStep(s, m);
    }
  }

  lemma {:induction false} RunKeepsInv(s: State, moves: seq<Move>)
    requires Inv(s) && Runs(s, moves)
    ensures Inv(After(s, moves))
    decreases |moves|
  {
    if moves == [] {
    } else {
      MoveKeepsInv(s, moves[0]);
      RunKeepsInv(Next(s, moves[0]), moves[1..]);
    }
  }

  /** No wakeup is lost, for any number of producers and any interleaving: a writer asleep on a
      raised flag has a producer that still owes its `notify_all`. */
  lemma {:induction false} NoLostWakeup(n: nat, moves: seq<Move>)
    requires Runs(Initial(n), moves)
    ensures var s := After(Initial(n), moves);
            s.writer == Asleep && s.flag ==> exists i :: 0 <= i < |s.producers| && Owes(s.producers[i])
  {
    RunKeepsInv(Initial(n), moves);
  }

  /** Nothing is lost, doubled or reordered, and with the mutex free the flag tells the queue. */
  lemma {:induction false} ConservesMessages(n: nat, moves: seq<Move>)
    requires Runs(Initial(n), moves)
    ensures var s := After(Initial(n), moves);
            s.written + Hand(s.writer) + s.queue == s.pushed
            && (s.owner == Free ==> (s.flag <==> s.queue != []))
  {
    RunKeepsInv(Initial(n), moves);
  }

  /** Unlocking and locking again between the wait and the drain does no harm: in the gap the flag
      is up, and when the drain gets the lock there is something to drain. */
  lemma {:induction false} GapIsHarmless(n: nat, moves: seq<Move>)
    requires Runs(Initial(n), moves)
    ensures var s := After(Initial(n), moves);
            && (s.writer == Gap || s.writer == Draining || s.writer.Writing? ==> s.flag)
            && (Enabled(s, LockAgain) ==> Next(s, LockAgain).flag && Next(s, LockAgain).queue != [])
  {
    RunKeepsInv(Initial(n), moves);
  }

  // ------------------------------------------------------ delivery in the end

  /** Moves the threads make by themselves; the others are new pushes and spurious wakeups. */
  predicate Internal(m: Move) {
    !m.Start? && !m.Spurious?
  }

  function ProducerDebt(pc: ProducerPc): nat {
    match pc
    case Ready => 0
    case Locked(_) => 18
    case Pushed => 15
    case Flagged => 5
    case Notifying => 4
  }

  function WriterDebt(w: WriterPc, flag: bool): nat {
    match w
    case Outside => if flag then 9 else 3
    case Testing => if flag then 8 else 2
    case Deciding => 1
    case Asleep => if flag then 9 else 0
    case Woken => if flag then 9 else 3
    case Leaving => 7
    case Gap => 6
    case Draining => 5
    case Writing(_) => 6
    case Done => 4
  }

  function Debts(ps: seq<ProducerPc>): nat {
    if ps == [] then 0 else ProducerDebt(ps[0]) + Debts(ps[1..])
  }

  /** An upper bound on the internal moves still to come. */
  function Debt(s: State): nat {
    Debts(s.producers) + WriterDebt(s.writer, s.flag) + 2 * |s.queue|
  }

  lemma {:induction false} DebtsUpdate(ps: seq<ProducerPc>, i: nat, pc: ProducerPc)
    requires i < |ps|
    ensures Debts(ps[i := pc]) == Debts(ps) - ProducerDebt(ps[i]) + ProducerDebt(pc)
    decreases |ps|
  {
    if i == 0 {
      assert ps[i := pc][1..] == ps[1..];
    } else {
      assert ps[i := pc][1..] == ps[1..][i - 1 := pc];
      DebtsUpdate(ps[1..], i - 1, pc);
    }
  }

  lemma WriterPays(s: State, m: Move)
    requires Inv(s) && Enabled(s, m) && !ByProducer(m)
    ensures Debt(Next(s, m)) <= Debt(s) + (if m.Spurious? then 3 else -1)
  {
    hide Debts, Wakeable, Conserved;
  }

  lemma ProducerPays(s: State, m: Move)
    requires Inv(s) && Enabled(s, m) && ByProducer(m)
    ensures Debt(Next(s, m)) <= Debt(s) + (if m.Start? then 18 else -1)
  {
    hide Debts, Inv;
    match m
    case Start(i, msg) => DebtsUpdate(s.producers, i, Locked(msg));
    case Push(i) => DebtsUpdate(s.producers, i, Pushed);
    case Raise(i) => DebtsUpdate(s.producers, i, Flagged);
    case Release(i) => DebtsUpdate(s.producers, i, Notifying);
    case Notify(i) => DebtsUpdate(s.producers, i, Ready);
  }

  function Starts(moves: seq<Move>): nat {
    if moves == [] then 0 else (if moves[0].Start? then 1 else 0) + Starts(moves[1..])
  }

  function Wakes(moves: seq<Move>): nat {
    if moves == [] then 0 else (if moves[0].Spurious? then 1 else 0) + Wakes(moves[1..])
  }

  lemma {:induction false} RunPays(s: State, moves: seq<Move>)
    requires Inv(s) && Runs(s, moves)
    ensures |moves| + Debt(After(s, moves)) <= Debt(s) + 19 * Starts(moves) + 4 * Wakes(moves)
    decreases |moves|
  {
    if moves == [] {
    } else {
      MoveKeepsInv(s, moves[0]);
      if ByProducer(moves[0]) { ProducerPays(s, moves[0]); } else { WriterPays(s, moves[0]); }
      RunPays(Next(s, moves[0]), moves[1..]);
    }
  }

  /** No thread can go on by itself. */
  ghost predicate Stuck(s: State) {
    forall m :: Internal(m) ==> !Enabled(s, m)
  }

  lemma StuckProducer(s: State, i: nat)
    requires Inv(s) && Stuck(s) && i < |s.producers|
    ensures s.producers[i] == Ready
  {
    assert !Enabled(s, Push(i)) && !Enabled(s, Raise(i)) && !Enabled(s, Release(i)) && !Enabled(s, Notify(i));
  }

  lemma StuckWriter(s: State)
    requires Inv(s) && Stuck(s)
    ensures s.owner != Writer
  {
    assert !Enabled(s, Test) && !Enabled(s, Sleep) && !Enabled(s, Leave) && !Enabled(s, Take);
    assert !Enabled(s, Finish) && !Enabled(s, Write) && !Enabled(s, Unlock);
  }

  /** Then the writer sleeps, the producers are between pushes, and nothing is queued. */
  lemma StuckIsDone(s: State)
    requires Inv(s) && Stuck(s)
    ensures s.writer == Asleep && !s.flag && s.queue == [] && s.written == s.pushed
  {
    forall i | 0 <= i < |s.producers|
      ensures s.producers[i] == Ready
    {
      StuckProducer(s, i);
    }
    StuckWriter(s);
    assert s.owner == Free;
    assert !Enabled(s, Lock) && !Enabled(s, Relock) && !Enabled(s, LockAgain);
  }

  /** Delivery: a run takes at most 19 moves per push, 4 per spurious wakeup and 3 more, and when
      the threads have nothing left to do, everything pushed has been written, in lock order. */
  lemma {:induction false} EverythingIsWritten(n: nat, moves: seq<Move>)
    requires Runs(Initial(n), moves)
    ensures |moves| <= 19 * Starts(moves) + 4 * Wakes(moves) + 3
    ensures var s := After(Initial(n), moves);
            Stuck(s) ==> s.written == s.pushed && s.queue == [] && s.writer == Asleep
  {
    AllReady(n);
    RunPays(Initial(n), moves);
    RunKeepsInv(Initial(n), moves);
    var s := After(Initial(n), moves);
    if Stuck(s) {
      StuckIsDone(s);
    }
  }

  lemma {:induction false} AllReady(n: nat)
    ensures Debts(seq(n, _ => Ready)) == 0
  {
    if n > 0 {
      assert seq(n, _ => Ready)[1..] == seq(n - 1, _ => Ready);
      AllReady(n - 1);
    }
  }

  // --------------------------------------------- the drain as one block

  /** Undisturbed, the machine's drain has exactly the effect `Outbox.Drain` is specified with. */
  function DrainMoves(k: nat): seq<Move> {
    if k == 0 then [Finish, Unlock] else [Take, Write] + DrainMoves(k - 1)
  }

  lemma {:induction false} DrainWritesQueue(s: State)
    requires s.writer == Draining
    ensures Runs(s, DrainMoves(|s.queue|))
    ensures After(s, DrainMoves(|s.queue|))
            == s.(owner := Free, flag := false, writer := Outside, queue := [], written := s.written + s.queue)
    decreases |s.queue|
  {
    var k := |s.queue|;
    var moves := DrainMoves(k);
    if k == 0 {
      assert moves[1..] == [Unlock] && [Unlock][1..] == [];
      assert s.written + s.queue == s.written;
    } else {
      var t := Next(Next(s, Take), Write);
      assert moves[1..] == [Write] + DrainMoves(k - 1);
      assert moves[1..][1..] == DrainMoves(k - 1);
      DrainWritesQueue(t);
      assert t.written + t.queue == s.written + s.queue;
    }
  }

  // ------------------------------------------------- every push gets through

  /** One move more at the end of a run that has come to t. */
  lemma {:induction false} Extend(start: State, moves: seq<Move>, t: State, m: Move)
    requires Runs(start, moves) && After(start, moves) == t && Enabled(t, m)
    ensures Runs(start, moves + [m]) && After(start, moves + [m]) == Next(t, m)
    decreases |moves|
  {
    var longer := moves + [m];
    if moves == [] {
      assert longer[1..] == [];
    } else {
      assert longer[1..] == moves[1..] + [m];
      Extend(Next(start, moves[0]), moves[1..], t, m);
    }
  }

  /** And a whole run more. */
  lemma {:induction false} Append(start: State, moves: seq<Move>, t: State, more: seq<Move>)
    requires Runs(start, moves) && After(start, moves) == t && Runs(t, more)
    ensures Runs(start, moves + more) && After(start, moves + more) == After(t, more)
    decreases |more|
  {
    hide Next, Enabled;
    if more == [] {
      assert moves + more == moves;
    } else {
      Extend(start, moves, t, more[0]);
      Append(start, moves + [more[0]], Next(t, more[0]), more[1..]);
      assert moves + [more[0]] + more[1..] == moves + more;
    }
  }

  /** A producer's block under the lock, up to its unlock. */
  lemma {:induction false} LockedPush(start: State, moves: seq<Move>, t: State, i: nat, m: Message) returns (longer: seq<Move>)
    requires Runs(start, moves) && After(start, moves) == t
    requires t.owner == Free && i < |t.producers| && t.producers[i] == Ready
    ensures Runs(start, longer) && moves < longer && longer[|moves|] == Start(i, m)
    ensures After(start, longer)
            == t.(owner := Producer(i), queue := t.queue + [m], pushed := t.pushed + [m], flag := true,
                  producers := t.producers[i := Flagged])
  {
    hide Runs, After;
    Extend(start, moves, t, Start(i, m));
    var s1, m1 := Next(t, Start(i, m)), moves + [Start(i, m)];
    Extend(start, m1, s1, Move.Push(i));
    var s2, m2 := Next(s1, Move.Push(i)), m1 + [Move.Push(i)];
    Extend(start, m2, s2, Raise(i));
    longer := m2 + [Raise(i)];
    assert t.producers[i := Locked(m)][i := Pushed][i := Flagged] == t.producers[i := Flagged];
  }

  /** With the mutex free a producer between pushes can push, whatever the writer is doing: asleep,
      woken, outside or in its gap. A sleeping writer is woken by it. */
  lemma {:induction false} PushGoes(start: State, moves: seq<Move>, t: State, i: nat, m: Message) returns (longer: seq<Move>)
    requires Runs(start, moves) && After(start, moves) == t
    requires t.owner == Free && i < |t.producers| && t.producers[i] == Ready
    ensures Runs(start, longer) && moves < longer && longer[|moves|] == Start(i, m)
    ensures After(start, longer)
            == t.(queue := t.queue + [m], pushed := t.pushed + [m], flag := true,
                  writer := if t.writer == Asleep then Woken else t.writer)
  {
    hide Runs, After;
    var m1 := LockedPush(start, moves, t, i, m);
    var s1 := After(start, m1);
    Extend(start, m1, s1, Release(i));
    Extend(start, m1 + [Release(i)], Next(s1, Release(i)), Notify(i));
    longer := m1 + [Release(i)] + [Notify(i)];
    assert t.producers[i := Flagged][i := Notifying][i := Ready] == t.producers;
  }

  /** The writer gets the lock, first or again after a wakeup, and tests the flag. */
  lemma {:induction false} TestFlag(start: State, moves: seq<Move>, t: State) returns (s: State, longer: seq<Move>)
    requires Runs(start, moves) && After(start, moves) == t
    requires t.owner == Free && (t.writer == Outside || t.writer == Woken)
    ensures Runs(start, longer) && moves <= longer && After(start, longer) == s
    ensures s == t.(owner := Writer, writer := if t.flag then Leaving else Deciding)
  {
    hide Runs, After;
    var lock := if t.writer == Outside then Lock else Relock;
    Extend(start, moves, t, lock);
    Extend(start, moves + [lock], Next(t, lock), Test);
    s, longer := Next(Next(t, lock), Test), moves + [lock] + [Test];
  }

  lemma {:induction false} FallAsleep(start: State, moves: seq<Move>, t: State) returns (longer: seq<Move>)
    requires Runs(start, moves) && After(start, moves) == t
    requires t.owner == Free && (t.writer == Outside || t.writer == Woken) && !t.flag
    ensures Runs(start, longer) && moves <= longer && After(start, longer) == t.(writer := Asleep)
  {
    hide Runs, After;
    var s1, m1 := TestFlag(start, moves, t);
    Extend(start, m1, s1, Sleep);
    longer := m1 + [Sleep];
  }

  /** On a raised flag the writer comes out of its wait and into the gap between its two locks. */
  lemma {:induction false} IntoGap(start: State, moves: seq<Move>, t: State) returns (longer: seq<Move>)
    requires Runs(start, moves) && After(start, moves) == t
    requires t.owner == Free && (t.writer == Outside || t.writer == Woken) && t.flag
    ensures Runs(start, longer) && moves <= longer && After(start, longer) == t.(writer := Gap)
  {
    hide Runs, After;
    var s1, m1 := TestFlag(start, moves, t);
    Extend(start, m1, s1, Leave);
    longer := m1 + [Leave];
  }

  /** Out of the gap it writes everything that is queued by then. */
  lemma {:induction false} DrainFromGap(start: State, moves: seq<Move>, t: State) returns (longer: seq<Move>)
    requires Runs(start, moves) && After(start, moves) == t
    requires t.owner == Free && t.writer == Gap
    ensures Runs(start, longer) && moves <= longer
    ensures After(start, longer) == t.(flag := false, writer := Outside, queue := [], written := t.written + t.queue)
  {
    hide Runs, After, DrainMoves;
    Extend(start, moves, t, LockAgain);
    var s1, m1 := Next(t, LockAgain), moves + [LockAgain];
    DrainWritesQueue(s1);
    Append(start, m1, s1, DrainMoves(|s1.queue|));
    longer := m1 + DrainMoves(|s1.queue|);
  }

  /** From outside or woken, the writer goes through its gap and its drain. */
  lemma {:induction false} Serve(start: State, moves: seq<Move>, t: State) returns (longer: seq<Move>)
    requires Runs(start, moves) && After(start, moves) == t
    requires t.owner == Free && (t.writer == Outside || t.writer == Woken) && t.flag
    ensures Runs(start, longer) && moves <= longer
    ensures After(start, longer) == t.(flag := false, writer := Outside, queue := [], written := t.written + t.queue)
  {
    hide Runs, After;
    var m1 := IntoGap(start, moves, t);
    longer := DrainFromGap(start, m1, After(start, m1));
  }

  /** A push while nothing is queued, and the writer's answer to it. */
  lemma {:induction false} PushAndServe(start: State, moves: seq<Move>, t: State, i: nat, m: Message) returns (longer: seq<Move>)
    requires Runs(start, moves) && After(start, moves) == t
    requires t.owner == Free && i < |t.producers| && t.producers[i] == Ready && t.queue == []
    requires t.writer in {Asleep, Outside, Woken}
    ensures Runs(start, longer) && moves + [Start(i, m)] <= longer
    ensures After(start, longer)
            == t.(pushed := t.pushed + [m], written := t.written + [m], flag := false, writer := Outside)
  {
    hide Runs, After;
    var m1 := PushGoes(start, moves, t, i, m);
    var s1 := After(start, m1);
    assert s1.queue == [m];
    longer := Serve(start, m1, s1);
    assert moves + [Start(i, m)] <= m1;
  }

  lemma MoveKeepsCount(s: State, m: Move)
    requires Enabled(s, m)
    ensures |Next(s, m).producers| == |s.producers|
  {
  }

  lemma {:induction false} RunKeepsCount(s: State, moves: seq<Move>)
    requires Runs(s, moves)
    ensures |After(s, moves).producers| == |s.producers|
    decreases |moves|
  {
    hide Next, Enabled;
    if moves != [] {
      MoveKeepsCount(s, moves[0]);
      RunKeepsCount(Next(s, moves[0]), moves[1..]);
    }
  }

  /** Left to themselves the threads come to rest. */
  lemma {:induction false} ComeToRest(start: State, moves: seq<Move>, t: State) returns (longer: seq<Move>)
    requires Runs(start, moves) && After(start, moves) == t && Inv(t)
    ensures Runs(start, longer) && moves <= longer
    ensures Inv(After(start, longer)) && Stuck(After(start, longer))
    decreases Debt(t)
  {
    hide Runs, After, Next, Enabled, Inv, Debt, Internal;
    longer := moves;
    if !Stuck(t) {
      var m :| Internal(m) && Enabled(t, m);
      Extend(start, moves, t, m);
      MoveKeepsInv(t, m);
      InternalPays(t, m);
      longer := ComeToRest(start, moves + [m], Next(t, m));
    }
  }

  lemma InternalPays(s: State, m: Move)
    requires Inv(s) && Enabled(s, m) && Internal(m)
    ensures Debt(Next(s, m)) < Debt(s)
  {
    hide Inv, Enabled, Debt, Next;
    if ByProducer(m) { ProducerPays(s, m); } else { WriterPays(s, m); }
  }

  lemma StuckIsFree(s: State)
    requires Inv(s) && Stuck(s)
    ensures s.owner == Free && forall i :: 0 <= i < |s.producers| ==> s.producers[i] == Ready
  {
    forall i | 0 <= i < |s.producers|
      ensures s.producers[i] == Ready
    {
      StuckProducer(s, i);
    }
    StuckWriter(s);
  }

  /** From every reachable state any producer can still push any message: some continuation makes the
      push and ends with that message last, everything pushed written, and the mutex free. */
  lemma {:induction false} PushGetsThrough(n: nat, moves: seq<Move>, i: nat, m: Message) returns (longer: seq<Move>)
    requires Runs(Initial(n), moves) && i < n
    ensures Runs(Initial(n), longer) && moves < longer && Start(i, m) in longer[|moves|..]
    ensures var s := After(Initial(n), longer);
            s.pushed != [] && s.pushed[|s.pushed| - 1] == m && s.written == s.pushed && s.queue == [] && s.owner == Free
  {
    var start := Initial(n);
    RunKeepsInv(start, moves);
    hide Runs, After, Next, Enabled, Inv, Stuck, Initial;
    var rest := ComeToRest(start, moves, After(start, moves));
    var t := After(start, rest);
    StuckIsDone(t);
    StuckIsFree(t);
    RunKeepsCount(start, rest);
    assert |start.producers| == n by { InitialCount(n); }
    longer := PushAndServe(start, rest, t, i, m);
    InSuffix(moves, rest, longer, Start(i, m));
  }

  lemma InSuffix(moves: seq<Move>, rest: seq<Move>, longer: seq<Move>, m: Move)
    requires moves <= rest && rest + [m] <= longer
    ensures moves < longer && m in longer[|moves|..]
  {
    assert longer[|moves|..][|rest| - |moves|] == (rest + [m])[|rest|];
  }

  lemma InitialCount(n: nat)
    ensures |Initial(n).producers| == n && forall i :: 0 <= i < n ==> Initial(n).producers[i] == Ready
    ensures Initial(n).owner == Free && Initial(n).writer == Outside && !Initial(n).flag
    ensures Initial(n).queue == Initial(n).pushed == Initial(n).written == []
  {
  }

  /** A push wakes a sleeping writer, which writes the message and sleeps again. */
  lemma {:induction false} PushWakesWriter(n: nat, i: nat, m: Message) returns (asleep: seq<Move>, moves: seq<Move>)
    requires i < n
    ensures Runs(Initial(n), asleep) && After(Initial(n), asleep).writer == Asleep
    ensures Runs(Initial(n), moves) && asleep + [Start(i, m)] <= moves
    ensures After(Initial(n), moves).written == [m] && After(Initial(n), moves).writer == Asleep
  {
    var start := Initial(n);
    InitialCount(n);
    asleep := FallAsleep(start, [], start);
    hide Runs, After, Initial;
    var m1 := PushAndServe(start, asleep, After(start, asleep), i, m);
    moves := FallAsleep(start, m1, After(start, m1));
  }

  /** A spurious wakeup with nothing queued sends the writer back to sleep, in the same state. */
  lemma {:induction false} SpuriousIsHarmless(start: State, moves: seq<Move>, t: State) returns (longer: seq<Move>)
    requires Runs(start, moves) && After(start, moves) == t
    requires t.owner == Free && t.writer == Asleep && !t.flag
    ensures Runs(start, longer) && moves + [Spurious] <= longer && After(start, longer) == t
  {
    hide Runs, After;
    Extend(start, moves, t, Spurious);
    longer := FallAsleep(start, moves + [Spurious], Next(t, Spurious));
  }

  lemma {:induction false} FirstGap(n: nat, i: nat, m: Message) returns (gap: seq<Move>)
    requires i < n
    ensures Runs(Initial(n), gap)
    ensures var t := After(Initial(n), gap);
            && t.owner == Free && t.writer == Gap && t.queue == [m] && t.written == []
            && t.producers == Initial(n).producers
  {
    var start := Initial(n);
    InitialCount(n);
    gap := PushGoes(start, [], start, i, m);
    hide Runs, After, Next, Enabled, Initial;
    gap := IntoGap(start, gap, After(start, gap));
  }

  /** A push in the gap goes out with the message that opened it. */
  lemma {:induction false} PushInGap(n: nat, i: nat, m: Message, j: nat, m': Message) returns (gap: seq<Move>, moves: seq<Move>)
    requires i < n && j < n
    ensures Runs(Initial(n), gap) && After(Initial(n), gap).writer == Gap && After(Initial(n), gap).queue == [m]
    ensures Runs(Initial(n), moves) && gap + [Start(j, m')] <= moves
    ensures After(Initial(n), moves).written == [m, m'] && After(Initial(n), moves).queue == []
  {
    var start := Initial(n);
    InitialCount(n);
    hide Runs, After, Next, Enabled, Initial;
    gap := FirstGap(n, i, m);
    var m1 := PushGoes(start, gap, After(start, gap), j, m');
    assert gap + [Start(j, m')] <= m1;
    moves := DrainFromGap(start, m1, After(start, m1));
    assert [] + ([m] + [m']) == [m, m'];
  }

  // ------------------------------------------------------- who has to wait

  /** A producer waits for the mutex, before its push, and for nothing else. */
  lemma ProducerWaits(s: State, i: nat, msg: Message)
    requires i < |s.producers|
    ensures s.producers[i] == Ready && s.owner != Free
            <==> forall m | m in {Start(i, msg), Move.Push(i), Raise(i), Release(i), Notify(i)} :: !Enabled(s, m)
  {
    match s.producers[i]
    case Ready => assert s.owner == Free ==> Enabled(s, Start(i, msg));
    case Locked(_) => assert Enabled(s, Move.Push(i));
    case Pushed => assert Enabled(s, Raise(i));
    case Flagged => assert Enabled(s, Release(i));
    case Notifying => assert Enabled(s, Notify(i));
  }

  /** The writer waits in its sleep, and for the mutex: at its start, once woken, and in its gap. */
  lemma WriterWaits(s: State)
    ensures s.writer == Asleep || (s.owner != Free && s.writer in {Outside, Woken, Gap})
            <==> forall m | !ByProducer(m) && m != Spurious :: !Enabled(s, m)
  {
    match s.writer
    case Outside => assert s.owner == Free ==> Enabled(s, Lock);
    case Testing => assert Enabled(s, Test);
    case Deciding => assert Enabled(s, Sleep);
    case Asleep =>
    case Woken => assert s.owner == Free ==> Enabled(s, Relock);
    case Leaving => assert Enabled(s, Leave);
    case Gap => assert s.owner == Free ==> Enabled(s, LockAgain);
    case Draining => assert if s.queue != [] then Enabled(s, Take) else Enabled(s, Finish);
    case Writing(_) => assert Enabled(s, Write);
    case Done => assert Enabled(s, Unlock);
  }
}
