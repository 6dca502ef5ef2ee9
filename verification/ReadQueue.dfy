/** The incoming message queue: `clint::read_thread` hands over to `Widget::handle_message`.
    The reader raises its flag outside the lock and the handler takes one message per raise. */
module ReadQueue {
  import opened Wire

  type Message = seq<byte>

  // ------------------------------------------------ the critical sections

  class Inbox {
    var readqu: seq<Message>
    var haveMes: bool

    constructor ()
      ensures readqu == [] && !haveMes
    {
      readqu, haveMes := [], false;
    }

    /** The fields are those of the machine below in state s. */
    ghost predicate Shows(s: State)
      reads this
    {
      readqu == s.queue && haveMes == s.flag
    }

    /** The reader's block under the lock: the cleared buffer with what one read put there. It is
        the machine's Push. */
    method Receive(arrived: seq<byte>)
      modifies this`readqu
      ensures readqu == old(readqu) + [ReadIntoBuffer(arrived)]
      ensures forall s: State :: old(Shows(s)) && s.reader == Holding(ReadIntoBuffer(arrived)) ==> Shows(Next(s, Push))
    {
      var re_buf := ReadIntoBuffer(arrived);
      readqu := readqu + [re_buf];
    }

    /** The reader's store after it has unlocked: the machine's Raise. */
    method RaiseFlag()
      modifies this`haveMes
      ensures haveMes
      ensures forall s: State :: old(Shows(s)) && s.reader == Raising ==> Shows(Next(s, Raise))
    {
      haveMes := true;
    }

    /** The wait predicate: it puts the flag down when it finds it up. Undisturbed, it is the
        machine's Test, and its Clear when the test succeeds. */
    method TestAndClear() returns (ok: bool)
      modifies this`haveMes
      ensures ok == old(haveMes) && !haveMes
      ensures forall s: State :: old(Shows(s)) && s.handler == Testing ==>
                var t := Next(s, Test);
                if ok then t.handler == Clearing && Shows(Next(t, Clear)) else t.handler == Deciding && Shows(t)
    {
      if haveMes {
        haveMes := false;
        return true;
      }
      return false;
    }

    /** The handler's block once the wait has returned; None is its `continue`. It is the machine's
        Pop, with the message in hand or on its way to skip. */
    method TakeOne() returns (m: Option<Message>)
      modifies this`readqu
      ensures old(readqu) == [] ==> m == None && readqu == []
      ensures old(readqu) != [] ==> m == Some(old(readqu)[0]) && readqu == old(readqu)[1..]
      ensures forall s: State :: old(Shows(s)) && s.handler == Popping ==>
                && Shows(Next(s, Pop))
                && Next(s, Pop).handler == (match m case Some(x) => Popped(x) case None => Skipping)
    {
      if |readqu| > 0 {
        m := Some(readqu[0]);
        readqu := readqu[1..];
      } else {
        m := None;
      }
    }
  }

  // ---------------------------------------------------- the interleavings

  /** Reading: in `read_some`. Arrived: with the filled buffer, about to lock. Holding: has the lock, then Queued with the
      message pushed. Raising: unlocked, about to set the flag. Notifying: flag set. */
  datatype ReaderPc = Reading | Arrived(m: Message) | Holding(m: Message) | Queued | Raising | Notifying

  /** The wait predicate loads the flag (Testing) and stores false (Clearing) in two atomic steps;
      between finding it down (Deciding) and blocking (Asleep) the handler holds the lock, which
      the raise does not need. */
  datatype HandlerPc =
    | Outside | Testing | Clearing | Deciding | Asleep | Woken | Popping | Skipping | Popped(m: Message) | Handling(m: Message)

  datatype Owner = Free | Reader | Handler

  /** `received` and `handled` are history: the messages pushed, and those handled. */
  datatype State = State(
    owner: Owner, flag: bool, queue: seq<Message>, reader: ReaderPc, handler: HandlerPc,
    received: seq<Message>, handled: seq<Message>)

  datatype Move =
    | Arrive(data: seq<byte>) | ReaderLock | Push | ReaderUnlock | Raise | Notify
    | HandlerLock | Test | Clear | Sleep | Spurious | Relock | Pop | Skip | HandlerUnlock | Handle

  predicate IsInitial(s: State) {
    && s.owner == Free && !s.flag && s.queue == [] && s.reader == Reading && s.handler == Outside
    && s.received == [] && s.handled == []
  }

  predicate Enabled(s: State, m: Move) {
    match m
    case Arrive(_) => s.reader == Reading
    case ReaderLock => s.owner == Free && s.reader.Arrived?
    case Push => s.reader.Holding?
    case ReaderUnlock => s.reader == Queued
    case Raise => s.reader == Raising
    case Notify => s.reader == Notifying
    case HandlerLock => s.owner == Free && s.handler == Outside
    case Test => s.handler == Testing
    case Clear => s.handler == Clearing
    case Sleep => s.handler == Deciding
    case Spurious => s.handler == Asleep
    case Relock => s.owner == Free && s.handler == Woken
    case Pop => s.handler == Popping
    case Skip => s.handler == Skipping
    case HandlerUnlock => s.handler.Popped?
    case Handle => s.handler.Handling?
  }

  function Next(s: State, m: Move): State
    requires Enabled(s, m)
  {
    match m
    case Arrive(data) => s.(reader := Arrived(ReadIntoBuffer(data)))
    case ReaderLock => s.(owner := Reader, reader := Holding(s.reader.m))
    case Push => s.(queue := s.queue + [s.reader.m], received := s.received + [s.reader.m], reader := Queued)
    case ReaderUnlock => s.(owner := Free, reader := Raising)
    case Raise => s.(flag := true, reader := Notifying)
    case Notify => s.(reader := Reading, handler := if s.handler == Asleep then Woken else s.handler)
    case HandlerLock => s.(owner := Handler, handler := Testing)
    case Test => s.(handler := if s.flag then Clearing else Deciding)
    case Clear => s.(flag := false, handler := Popping)
    case Sleep => s.(owner := Free, handler := Asleep)
    case Spurious => s.(handler := Woken)
    case Relock => s.(owner := Handler, handler := Testing)
    case Pop =>
      if s.queue == [] then s.(handler := Skipping)
      else s.(queue := s.queue[1..], handler := Popped(s.queue[0]))
    case Skip => s.(owner := Free, handler := Outside)
    case HandlerUnlock => s.(owner := Free, handler := Handling(s.handler.m))
    case Handle => s.(handled := s.handled + [s.handler.m], handler := Outside)
  }

  predicate Runs(s: State, moves: seq<Move>)
    decreases |moves|
  {
    moves == [] || (Enabled(s, moves[0]) && Runs(Next(s, moves[0]), moves[1..]))
  }

  function After(s: State, moves: seq<Move>): State
    requires Runs(s, moves)
    decreases |moves|
  {
    if moves == [] then s else After(Next(s, moves[0]), moves[1..])
  }

  // ------------------------------------------------- counted on the moves

  /** How many times a move was made. */
  function Times(moves: seq<Move>, m: Move): nat {
    if moves == [] then 0 else (if moves[0] == m then 1 else 0) + Times(moves[1..], m)
  }

  /** How many raises found the flag already up. */
  function MergedRaises(s: State, moves: seq<Move>): nat
    requires Runs(s, moves)
    decreases |moves|
  {
    if moves == [] then 0
    else (if moves[0] == Raise && s.flag then 1 else 0) + MergedRaises(Next(s, moves[0]), moves[1..])
  }

  /** A raise that still stood was notified while the handler was between finding the flag down and
      blocking, and the handler has not tested the flag since. */
  predicate NotifyLost(s: State, moves: seq<Move>)
    requires Runs(s, moves)
    decreases |moves|
  {
    moves != []
    && (|| (moves[0] == Notify && s.handler == Deciding && s.flag && Test !in moves[1..])
        || NotifyLost(Next(s, moves[0]), moves[1..]))
  }

  // -------------------------------------------------------------- invariant

  function Bit(b: bool): nat {
    if b then 1 else 0
  }

  function Hand(h: HandlerPc): seq<Message> {
    if h.Popped? || h.Handling? then [h.m] else []
  }

  /** A message is in the queue and its raise is still to come. */
  predicate Unraised(r: ReaderPc) {
    r == Queued || r == Raising
  }

  predicate Exclusive(s: State) {
    && (s.owner == Reader <==> s.reader.Holding? || s.reader == Queued)
    && (s.owner == Handler <==> !(s.handler in {Outside, Asleep, Woken} || s.handler.Handling?))
  }

  /** The messages queued beyond those announced by the flag, by a raise to come or by a cleared
      flag whose message is still to be popped. */
  function Surplus(s: State): int {
    |s.queue| - Bit(s.flag) - Bit(Unraised(s.reader)) - Bit(s.handler == Popping)
  }

  predicate Inv(s: State) {
    && Exclusive(s)
    && s.handled + Hand(s.handler) + s.queue == s.received
    && s.handler != Skipping && Surplus(s) >= 0
    && (s.handler == Clearing ==> s.flag)
  }

  predicate ByReader(m: Move) {
    m.Arrive? || m.ReaderLock? || m.Push? || m.ReaderUnlock? || m.Raise? || m.Notify?
  }

  lemma ReaderStep(s: State, m: Move)
    requires Inv(s) && Enabled(s, m) && ByReader(m)
    ensures Inv(Next(s, m)) && Surplus(Next(s, m)) == Surplus(s) + Bit(m == Raise && s.flag)
  {
    if m.Push? {
      assert s.handled + Hand(s.handler) + (s.queue + [s.reader.m]) == s.received + [s.reader.m];
    }
  }

  /** The handler's moves up to the end of its wait. */
  predicate InWait(m: Move) {
    m.HandlerLock? || m.Test? || m.Clear? || m.Sleep? || m.Spurious? || m.Relock?
  }

  lemma WaitStep(s: State, m: Move)
    requires Inv(s) && Enabled(s, m) && InWait(m)
    ensures Inv(Next(s, m)) && Surplus(Next(s, m)) == Surplus(s)
  {
  }

  lemma PopStep(s: State)
    requires Inv(s) && Enabled(s, Pop)
    ensures Inv(Next(s, Pop)) && Surplus(Next(s, Pop)) == Surplus(s)
  {
    assert s.queue != [];
    assert s.handled + [s.queue[0]] + s.queue[1..] == s.handled + s.queue;
  }

  lemma TakeStep(s: State, m: Move)
    requires Inv(s) && Enabled(s, m) && (m.Skip? || m.HandlerUnlock? || m.Handle?)
    ensures Inv(Next(s, m)) && Surplus(Next(s, m)) == Surplus(s)
  {
    if m.Handle? {
      assert s.handled + [s.handler.m] + s.queue == s.received;
    }
  }

  lemma MoveKeepsInv(s: State, m: Move)
    requires Inv(s) && Enabled(s, m)
    ensures Inv(Next(s, m)) && Surplus(Next(s, m)) == Surplus(s) + Bit(m == Raise && s.flag)
  {
    hide Inv, Next, Surplus;
    if ByReader(m) {
      ReaderStep(s, m);
    } else if InWait(m) {
      WaitStep(s, m);
    } else if m.Pop? {
      PopStep(s);
    } else {
      TakeStep(s, m);
    }
  }

  lemma {:induction false} RunKeepsInv(s: State, moves: seq<Move>)
    requires Inv(s) && Runs(s, moves)
    ensures Inv(After(s, moves)) && Surplus(After(s, moves)) == Surplus(s) + MergedRaises(s, moves)
    decreases |moves|
  {
    hide Inv, Next, Surplus, Enabled;
    if moves == [] {
    } else {
      MoveKeepsInv(s, moves[0]);
      RunKeepsInv(Next(s, moves[0]), moves[1..]);
    }
  }

  lemma StartInv(start: State)
    requires IsInitial(start)
    ensures Inv(start) && Surplus(start) == 0
  {
  }

  /** How pushes, raises and cleared flags add up along a run. */
  lemma {:induction false} RunCounts(s: State, moves: seq<Move>)
    requires Inv(s) && Runs(s, moves)
    ensures var t := After(s, moves);
            && |t.received| - Bit(Unraised(t.reader)) == |s.received| - Bit(Unraised(s.reader)) + Times(moves, Raise)
            && Times(moves, Raise) == Times(moves, Clear) + Bit(t.flag) - Bit(s.flag) + MergedRaises(s, moves)
            && |t.handled| + |Hand(t.handler)| + Bit(t.handler == Popping)
               == |s.handled| + |Hand(s.handler)| + Bit(s.handler == Popping) + Times(moves, Clear)
    decreases |moves|
  {
    if moves == [] {
    } else {
      MoveCounts(s, moves[0]);
      MoveKeepsInv(s, moves[0]);
      hide Inv, Next, Enabled;
      RunCounts(Next(s, moves[0]), moves[1..]);
    }
  }

  lemma MoveCounts(s: State, m: Move)
    requires Inv(s) && Enabled(s, m)
    ensures var t := Next(s, m);
            && |t.received| - Bit(Unraised(t.reader)) == |s.received| - Bit(Unraised(s.reader)) + Bit(m == Raise)
            && Bit(m == Raise) == Bit(m == Clear) + Bit(t.flag) - Bit(s.flag) + Bit(m == Raise && s.flag)
            && |t.handled| + |Hand(t.handler)| + Bit(t.handler == Popping)
               == |s.handled| + |Hand(s.handler)| + Bit(s.handler == Popping) + Bit(m == Clear)
  {
  }

  /** Order and accounting in every interleaving: nothing received is lost, doubled or reordered on
      its way through the queue; every push has its raise, save the one whose raise is to come;
      every raise was cleared, is still up or merged into one that was; and every message taken
      used up a cleared flag of its own. */
  lemma {:induction false} ReadAccounting(start: State, moves: seq<Move>)
    requires IsInitial(start) && Runs(start, moves)
    ensures var s := After(start, moves);
            && s.handled + Hand(s.handler) + s.queue == s.received
            && |s.received| == Times(moves, Raise) + Bit(Unraised(s.reader))
            && Times(moves, Raise) == Times(moves, Clear) + Bit(s.flag) + MergedRaises(start, moves)
            && Times(moves, Clear) == |s.handled| + |Hand(s.handler)| + Bit(s.handler == Popping)
            && (s.flag ==> s.queue != [])
  {
    RunKeepsInv(start, moves);
    RunCounts(start, moves);
  }

  /** The `continue` on an empty queue is never taken. */
  lemma {:induction false} NeverSkips(start: State, moves: seq<Move>)
    requires IsInitial(start) && Runs(start, moves)
    ensures var s := After(start, moves);
            s.handler != Skipping && (s.handler == Popping ==> s.queue != [])
  {
    RunKeepsInv(start, moves);
  }

  // ------------------------------------------------------- who has to wait

  /** The reader waits for the mutex and for nothing else. */
  lemma ReaderWaits(s: State)
    requires Inv(s)
    ensures s.reader.Arrived? && s.owner != Free <==> forall m | ByReader(m) :: !Enabled(s, m)
  {
    hide Inv;
    assert Enabled(s, Arrive([])) || Enabled(s, ReaderLock) || Enabled(s, Push) || Enabled(s, ReaderUnlock)
           || Enabled(s, Raise) || Enabled(s, Notify) || (s.reader.Arrived? && s.owner != Free);
  }

  /** The handler waits for the mutex, at its start or once woken, and in its sleep. */
  lemma HandlerWaits(s: State)
    requires Inv(s)
    ensures s.handler == Asleep || (s.owner != Free && (s.handler == Outside || s.handler == Woken))
            <==> forall m | !ByReader(m) && m != Spurious :: !Enabled(s, m)
  {
    assert s.handler != Skipping;
    hide Inv;
    match s.handler
    case Outside => assert s.owner == Free ==> Enabled(s, HandlerLock);
    case Testing => assert Enabled(s, Test);
    case Clearing => assert Enabled(s, Clear);
    case Deciding => assert Enabled(s, Sleep);
    case Asleep =>
    case Woken => assert s.owner == Free ==> Enabled(s, Relock);
    case Popping => assert Enabled(s, Pop);
    case Popped(_) => assert Enabled(s, HandlerUnlock);
    case Handling(_) => assert Enabled(s, Handle);
  }

  // ----------------------------------------------- what stays behind, exactly

  /** No move is left but a new message from the network or a spurious wakeup. */
  ghost predicate Idle(s: State) {
    forall m :: Enabled(s, m) ==> m.Arrive? || m.Spurious?
  }

  /** Both threads wait: the reader for the network, the handler for a notification. */
  predicate Quiet(s: State) {
    s.reader == Reading && s.handler == Asleep
  }

  lemma IdleIsQuiet(s: State)
    requires Inv(s)
    ensures Idle(s) <==> Quiet(s)
  {
    if Idle(s) {
      ReaderWaits(s);
      HandlerWaits(s);
    }
  }

  lemma QuietState(s: State)
    requires Inv(s) && Quiet(s)
    ensures |s.queue| == Surplus(s) + Bit(s.flag)
    ensures s.handled == s.received <==> s.queue == []
  {
    assert s.handled + s.queue == s.received;
  }

  /** Without a test the handler can only have come to sleep from its gap. */
  lemma {:induction false} NoTest(s: State, moves: seq<Move>)
    requires Inv(s) && Runs(s, moves) && Test !in moves && Quiet(After(s, moves))
    ensures s.handler == Asleep || s.handler == Deciding
    ensures After(s, moves).flag <==> s.flag || NotifyLost(s, moves)
    ensures s.flag && s.reader == Notifying ==> NotifyLost(s, moves)
    decreases |moves|
  {
    if moves == [] {
    } else {
      MoveKeepsInv(s, moves[0]);
      NoTest(Next(s, moves[0]), moves[1..]);
    }
  }

  /** The flag is up in the end exactly when the last notification that mattered was lost. */
  lemma {:induction false} FlagIsLost(s: State, moves: seq<Move>)
    requires Inv(s) && Runs(s, moves) && Test in moves && Quiet(After(s, moves))
    ensures After(s, moves).flag <==> NotifyLost(s, moves)
    decreases |moves|
  {
    var u, rest := Next(s, moves[0]), moves[1..];
    MoveKeepsInv(s, moves[0]);
    if Test in rest {
      FlagIsLost(u, rest);
    } else {
      NoTest(u, rest);
    }
  }

  /** When no thread can go on by itself, both wait, and what stays in the queue is exactly one
      message per raise that found the flag up and one more if the notification of a standing raise
      fell into the handler's gap between test and sleep. So everything received has been handled if
      and only if neither happened. */
  lemma {:induction false} LeftBehind(start: State, moves: seq<Move>)
    requires IsInitial(start) && Runs(start, moves) && Idle(After(start, moves))
    ensures var s := After(start, moves);
            && Quiet(s) && (s.flag <==> NotifyLost(start, moves))
            && |s.queue| == MergedRaises(start, moves) + Bit(NotifyLost(start, moves))
            && (s.handled == s.received <==> MergedRaises(start, moves) == 0 && !NotifyLost(start, moves))
  {
    hide Runs, After, Enabled, MergedRaises, NotifyLost, Surplus, Inv, Idle;
    StartInv(start);
    RunKeepsInv(start, moves);
    var s := After(start, moves);
    IdleIsQuiet(s);
    QuietState(s);
    if Test !in moves {
      NoTest(start, moves);
    } else {
      FlagIsLost(start, moves);
    }
  }

  /** One move more at the end of a run that has come to t. */
  lemma {:induction false} Extend(start: State, moves: seq<Move>, t: State, m: Move)
    requires Runs(start, moves) && After(start, moves) == t && Enabled(t, m)
    ensures Runs(start, moves + [m]) && After(start, moves + [m]) == Next(t, m)
    decreases |moves|
  {
    var longer := moves + [m];
    if moves == [] {
      assert longer[1..] == [];
    } else {
      assert longer[1..] == moves[1..] + [m];
      Extend(Next(start, moves[0]), moves[1..], t, m);
    }
  }

  /** A message comes in whatever the handler is doing without the lock, and wakes it if it sleeps. */
  lemma {:induction false} Incoming(start: State, moves: seq<Move>, t: State, data: seq<byte>) returns (longer: seq<Move>)
    requires Runs(start, moves) && After(start, moves) == t
    requires t.owner == Free && t.reader == Reading
    ensures Runs(start, longer)
    ensures After(start, longer)
            == t.(queue := t.queue + [ReadIntoBuffer(data)], received := t.received + [ReadIntoBuffer(data)],
                  flag := true, handler := if t.handler == Asleep then Woken else t.handler)
  {
    hide Runs, After;
    var s1, m1 := Pushing(start, moves, t, data);
    Extend(start, m1, s1, Raise);
    Extend(start, m1 + [Raise], Next(s1, Raise), Notify);
    longer := m1 + [Raise] + [Notify];
  }

  /** The reader's part up to its raise. */
  lemma {:induction false} Pushing(start: State, moves: seq<Move>, t: State, data: seq<byte>)
    returns (s: State, longer: seq<Move>)
    requires Runs(start, moves) && After(start, moves) == t
    requires t.owner == Free && t.reader == Reading
    ensures Runs(start, longer) && After(start, longer) == s
    ensures s == t.(queue := t.queue + [ReadIntoBuffer(data)], received := t.received + [ReadIntoBuffer(data)],
                    reader := Raising)
  {
    hide Runs, After;
    Extend(start, moves, t, Arrive(data));
    var s1, m1 := Next(t, Arrive(data)), moves + [Arrive(data)];
    Extend(start, m1, s1, ReaderLock);
    var s2, m2 := Next(s1, ReaderLock), m1 + [ReaderLock];
    Extend(start, m2, s2, Push);
    var s3, m3 := Next(s2, Push), m2 + [Push];
    Extend(start, m3, s3, ReaderUnlock);
    s, longer := Next(s3, ReaderUnlock), m3 + [ReaderUnlock];
  }

  /** The handler gets the lock, first or again after a wakeup, and tests the flag. */
  lemma {:induction false} TestFlag(start: State, moves: seq<Move>, t: State) returns (s: State, longer: seq<Move>)
    requires Runs(start, moves) && After(start, moves) == t
    requires t.owner == Free && (t.handler == Outside || t.handler == Woken)
    ensures moves <= longer
    ensures Runs(start, longer) && After(start, longer) == s
    ensures s == t.(owner := Handler, handler := if t.flag then Clearing else Deciding)
  {
    hide Runs, After;
    var lock := if t.handler == Outside then HandlerLock else Relock;
    Extend(start, moves, t, lock);
    Extend(start, moves + [lock], Next(t, lock), Test);
    s, longer := Next(Next(t, lock), Test), moves + [lock] + [Test];
  }

  /** The handler does one message and comes back outside. */
  lemma {:induction false} Serve(start: State, moves: seq<Move>, t: State) returns (longer: seq<Move>)
    requires Runs(start, moves) && After(start, moves) == t
    requires t.owner == Free && (t.handler == Outside || t.handler == Woken) && t.flag && t.queue != []
    ensures moves <= longer
    ensures Runs(start, longer)
    ensures After(start, longer)
            == t.(queue := t.queue[1..], handled := t.handled + [t.queue[0]], flag := false, handler := Outside)
  {
    hide Runs, After;
    var s1, m1 := TestFlag(start, moves, t);
    Extend(start, m1, s1, Clear);
    var s2, m2 := Next(s1, Clear), m1 + [Clear];
    Extend(start, m2, s2, Pop);
    var s3, m3 := Next(s2, Pop), m2 + [Pop];
    Extend(start, m3, s3, HandlerUnlock);
    Extend(start, m3 + [HandlerUnlock], Next(s3, HandlerUnlock), Handle);
    longer := m3 + [HandlerUnlock] + [Handle];
  }

  /** The handler finds the flag down and goes to sleep. */
  lemma {:induction false} FallAsleep(start: State, moves: seq<Move>, t: State) returns (longer: seq<Move>)
    requires Runs(start, moves) && After(start, moves) == t
    requires t.owner == Free && (t.handler == Outside || t.handler == Woken) && !t.flag
    ensures Runs(start, longer)
    ensures After(start, longer) == t.(handler := Asleep)
  {
    hide Runs, After;
    var s1, m1 := TestFlag(start, moves, t);
    Extend(start, m1, s1, Sleep);
    longer := m1 + [Sleep];
  }

  lemma {:induction false} OneMore(start: State, moves: seq<Move>, t: State, data: seq<byte>) returns (longer: seq<Move>)
    requires Runs(start, moves) && After(start, moves) == t
    requires Quiet(t) && !t.flag && t.owner == Free && t.queue == []
    ensures Runs(start, longer)
    ensures After(start, longer)
            == t.(received := t.received + [ReadIntoBuffer(data)], handled := t.handled + [ReadIntoBuffer(data)])
  {
    hide Runs, After, ReadIntoBuffer;
    longer := Incoming(start, moves, t, data);
    var s1 := After(start, longer);
    longer := Serve(start, longer, s1);
    longer := FallAsleep(start, longer, After(start, longer));
  }

  /** Messages that come one by one, each to a sleeping handler, are all handled, in order. */
  lemma {:induction false} OneByOne(start: State, data: seq<seq<byte>>) returns (moves: seq<Move>)
    requires IsInitial(start)
    ensures Runs(start, moves)
    ensures var s := After(start, moves);
            && Quiet(s) && !s.flag && s.owner == Free && s.queue == []
            && s.handled == s.received && |s.received| == |data|
            && forall k :: 0 <= k < |data| ==> s.received[k] == ReadIntoBuffer(data[k])
    decreases |data|
  {
    if data == [] {
      moves := FallAsleep(start, [], start);
    } else {
      var n := |data| - 1;
      moves := OneByOne(start, data[..n]);
      hide Runs, After, ReadIntoBuffer;
      moves := OneMore(start, moves, After(start, moves), data[n]);
    }
  }

  /** The read side does not deliver: two messages that arrive before the handler looks merge into
      one raise, and the second stays behind with both threads waiting. */
  lemma {:induction false} TwoMessagesMerge(start: State, data: seq<byte>, data': seq<byte>) returns (moves: seq<Move>)
    requires IsInitial(start)
    ensures Runs(start, moves) && Quiet(After(start, moves))
    ensures After(start, moves).received == [ReadIntoBuffer(data), ReadIntoBuffer(data')]
    ensures After(start, moves).handled == [ReadIntoBuffer(data)]
  {
    moves := Incoming(start, [], start, data);
    moves := Incoming(start, moves, After(start, moves), data');
    moves := Serve(start, moves, After(start, moves));
    moves := FallAsleep(start, moves, After(start, moves));
    assert [ReadIntoBuffer(data)] + [ReadIntoBuffer(data')] == [ReadIntoBuffer(data), ReadIntoBuffer(data')];
  }

  /** Nor is the notification safe: a raise and its `notify_all` between the handler's test and its
      sleep leave it asleep on a raised flag, with nobody to wake it. */
  lemma {:induction false} WakeupLost(start: State, data: seq<byte>) returns (moves: seq<Move>)
    requires IsInitial(start)
    ensures Runs(start, moves) && Quiet(After(start, moves))
    ensures After(start, moves).received == [ReadIntoBuffer(data)] && After(start, moves).handled == [] && After(start, moves).flag
  {
    var s1, m1 := Pushing(start, [], start, data);
    hide Runs, After;
    var s2, m2 := TestFlag(start, m1, s1);
    Extend(start, m2, s2, Raise);
    var s3, m3 := Next(s2, Raise), m2 + [Raise];
    Extend(start, m3, s3, Notify);
    Extend(start, m3 + [Notify], Next(s3, Notify), Sleep);
    moves := m3 + [Notify] + [Sleep];
  }

  /** Only a spurious wakeup, or the next message, brings a handler that sleeps on a raised flag back
      to the message that is waiting. */
  lemma {:induction false} SpuriousRecovers(start: State, moves: seq<Move>, t: State) returns (longer: seq<Move>)
    requires Runs(start, moves) && After(start, moves) == t
    requires t.owner == Free && Quiet(t) && t.flag && t.queue != []
    ensures forall m :: Enabled(t, m) ==> m.Arrive? || m.Spurious?
    ensures Runs(start, longer) && moves + [Spurious] <= longer
    ensures After(start, longer)
            == t.(queue := t.queue[1..], handled := t.handled + [t.queue[0]], flag := false, handler := Outside)
  {
    hide Runs, After;
    Extend(start, moves, t, Spurious);
    longer := Serve(start, moves + [Spurious], Next(t, Spurious));
  }

  /** A notification in the same gap, but of a raise that the handler has already used up, loses
      nothing: that is why `NotifyLost` asks whether the raise still stands. */
  lemma {:induction false} LateNotifyIsHarmless(start: State, data: seq<byte>) returns (moves: seq<Move>)
    requires IsInitial(start)
    ensures Runs(start, moves) && After(start, moves).handler == Deciding && Enabled(After(start, moves), Notify)
    ensures Runs(start, moves + [Notify] + [Sleep])
    ensures var s := After(start, moves + [Notify] + [Sleep]);
            Quiet(s) && s.handled == s.received == [ReadIntoBuffer(data)]
  {
    var s1, m1 := Pushing(start, [], start, data);
    hide Runs, After;
    Extend(start, m1, s1, Raise);
    moves := Serve(start, m1 + [Raise], Next(s1, Raise));
    var s2;
    s2, moves := TestFlag(start, moves, After(start, moves));
    Extend(start, moves, s2, Notify);
    Extend(start, moves + [Notify], Next(s2, Notify), Sleep);
  }
}
