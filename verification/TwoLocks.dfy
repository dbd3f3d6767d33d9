/** The bridge mutex and the ledger RWMutex under any number of concurrent callers
    (internal/bridge/bridge.go, internal/market/ledger.go).

    A thread runs one operation at a time, one shared-memory action per step. Lock,
    ProcessBurn and Reconcile take b.mu and then the ledger; the consensus apply path
    takes the ledger alone; a balance query takes the ledger for reading. Writing a
    counter may fail after the value has moved: the store refuses the second commit, or
    RecordLock refuses the record. */
module TwoLocks {
  import opened Options

  datatype Op =
    | LockOp(amount: nat)          // Bridge.Lock
    | BurnOp(amount: nat)          // Bridge.ProcessBurn
    | ReconcileOp                  // Bridge.Reconcile
    | EngineLockOp(amount: nat)    // applyBridgeLock: moveToEscrow, then RecordLock
    | EngineUnlockOp(amount: nat)  // ApplyAttestedUnlock
    | BalanceOp                    // Ledger.Balance

  predicate NeedsMu(op: Op) { op.LockOp? || op.BurnOp? || op.ReconcileOp? }
  predicate Writes(op: Op) { !op.ReconcileOp? && !op.BalanceOp? }
  predicate Locks(op: Op) { op.LockOp? || op.EngineLockOp? }

  datatype Pc =
    | Idle
    | WantMu
    | WantLedger
    | Inside
    | HasRead(counter: nat)             // this writer's counter, read in the section
    | HasMoved(counter: nat)            // value moved after the read
    | EngineMoved                       // value moved, counter not read yet
    | EngineRead(counter: nat)
    | SnapLocked(lk: nat)
    | SnapBoth(lk: nat, un: nat)
    | SnapAll(lk: nat, un: nat, es: nat)
    | Finished                          // counters written, or the operation refused
    | LeftLedger

  datatype Thread = Thread(op: Op, pc: Pc)

  /** `lockedSum` and `unlockedSum` are what the committed operations add up to, `adrift`
      what was moved into escrow less what was moved out of it without being counted. */
  datatype State = State(
    mu: Option<nat>,
    writer: Option<nat>,
    readers: set<nat>,
    threads: seq<Thread>,
    locked: nat,
    unlocked: nat,
    escrow: nat,
    lockedSum: nat,
    unlockedSum: nat,
    adrift: int)

  predicate InSection(t: Thread) {
    !t.pc.Idle? && !t.pc.WantMu? && !t.pc.WantLedger? && !t.pc.LeftLedger?
  }

  predicate HoldsMu(t: Thread) {
    NeedsMu(t.op) && !t.pc.Idle? && !t.pc.WantMu?
  }

  predicate QueuedWriter(t: Thread) { t.pc.WantLedger? && Writes(t.op) }

  /** Go's RWMutex: a waiting writer holds back new readers. */
  predicate WriterWaiting(s: State) {
    exists t :: 0 <= t < |s.threads| && QueuedWriter(s.threads[t])
  }

  predicate Blocked(s: State, t: nat)
    requires t < |s.threads|
  {
    var th := s.threads[t];
    match th.pc
    case WantMu => s.mu.Some?
    case WantLedger =>
      if Writes(th.op) then s.writer.Some? || s.readers != {} else s.writer.Some? || WriterWaiting(s)
    case _ => false
  }

  function Put(s: State, t: nat, pc: Pc): State
    requires t < |s.threads|
  {
    s.(threads := s.threads[t := Thread(s.threads[t].op, pc)])
  }

  /** Value a thread has moved but not accounted for yet. */
  function InFlight(th: Thread): int {
    if th.pc.HasMoved? || th.pc.EngineMoved? || th.pc.EngineRead? then
      match th.op
      case LockOp(a) => a as int
      case EngineLockOp(a) => a as int
      case BurnOp(a) => 0 - a as int
      case EngineUnlockOp(a) => 0 - a as int
      case _ => 0
    else 0
  }

  /** The next action of thread t. `funded` says whether a lock's sender can pay, `kept`
      whether a move of value gets counted; an idle thread starts `op`. */
  function Step(s: State, t: nat, op: Op, funded: bool, kept: bool): State
    requires t < |s.threads| && !Blocked(s, t)
  {
    var th := s.threads[t];
    match th.pc
    case Idle => s.(threads := s.threads[t := Thread(op, if NeedsMu(op) then WantMu else WantLedger)])
    case WantMu => Put(s, t, WantLedger).(mu := Some(t))
    case WantLedger =>
      if Writes(th.op) then Put(s, t, Inside).(writer := Some(t))
      else Put(s, t, Inside).(readers := s.readers + {t})
    case Inside => (
      match th.op
      case LockOp(_) => Put(s, t, HasRead(s.locked))
      case BurnOp(_) => Put(s, t, HasRead(s.unlocked))
      case EngineUnlockOp(_) => Put(s, t, HasRead(s.unlocked))
      case EngineLockOp(amount) =>
        if funded then Put(s, t, EngineMoved).(escrow := s.escrow + amount) else Put(s, t, Finished)
      case ReconcileOp => Put(s, t, SnapLocked(s.locked))
      case BalanceOp => Put(s, t, Finished)
    )
    case HasRead(counter) =>
      if th.op.LockOp? then
        if funded then Put(s, t, HasMoved(counter)).(escrow := s.escrow + th.op.amount) else Put(s, t, Finished)
      else if th.op.BurnOp? || th.op.EngineUnlockOp? then
        if th.op.amount <= s.escrow then Put(s, t, HasMoved(counter)).(escrow := s.escrow - th.op.amount)
        else Put(s, t, Finished)
      else s
    case HasMoved(counter) =>
      if !kept then Put(s, t, Finished).(adrift := s.adrift + InFlight(th))
      else if th.op.LockOp? then
        Put(s, t, Finished).(locked := counter + th.op.amount, lockedSum := s.lockedSum + th.op.amount)
      else if th.op.BurnOp? || th.op.EngineUnlockOp? then
        Put(s, t, Finished).(unlocked := counter + th.op.amount, unlockedSum := s.unlockedSum + th.op.amount)
      else s
    case EngineMoved => Put(s, t, EngineRead(s.locked))
    case EngineRead(counter) =>
      if !kept then Put(s, t, Finished).(adrift := s.adrift + InFlight(th))
      else if th.op.EngineLockOp? then
        Put(s, t, Finished).(locked := counter + th.op.amount, lockedSum := s.lockedSum + th.op.amount)
      else s
    case SnapLocked(lk) => Put(s, t, SnapBoth(lk, s.unlocked))
    case SnapBoth(lk, un) => Put(s, t, SnapAll(lk, un, s.escrow))
    case SnapAll(_, _, _) => Put(s, t, Finished)
    case Finished =>
      var next := Put(s, t, if NeedsMu(th.op) then LeftLedger else Idle);
      if Writes(th.op) then next.(writer := None) else next.(readers := s.readers - {t})
    case LeftLedger => Put(s, t, Idle).(mu := None)
  }

  // ---------------------------------------------------------------- the invariant

  /** Which points of its program an operation can be at, and what its registers say
      about the shared counters while it is there. */
  predicate WellPlaced(s: State, th: Thread) {
    match th.pc
    case Idle => true
    case WantMu => NeedsMu(th.op)
    case WantLedger => true
    case Inside => true
    case HasRead(counter) =>
      (th.op.LockOp? && counter == s.locked) || ((th.op.BurnOp? || th.op.EngineUnlockOp?) && counter == s.unlocked)
    case HasMoved(counter) =>
      (th.op.LockOp? && counter == s.locked) || ((th.op.BurnOp? || th.op.EngineUnlockOp?) && counter == s.unlocked)
    case EngineMoved => th.op.EngineLockOp?
    case EngineRead(counter) => th.op.EngineLockOp? && counter == s.locked
    case SnapLocked(lk) => th.op.ReconcileOp? && lk == s.locked
    case SnapBoth(lk, un) => th.op.ReconcileOp? && lk == s.locked && un == s.unlocked
    case SnapAll(lk, un, es) => th.op.ReconcileOp? && lk == s.locked && un == s.unlocked && es == s.escrow
    case Finished => true
    case LeftLedger => NeedsMu(th.op)
  }

  /** b.mu is held by exactly the thread whose program says so; likewise the ledger. */
  predicate MuHeld(s: State) {
    && (forall t :: 0 <= t < |s.threads| ==> (HoldsMu(s.threads[t]) <==> s.mu == Some(t)))
    && (s.mu.Some? ==> s.mu.value < |s.threads|)
  }

  predicate WriterHeld(s: State) {
    && (forall t :: 0 <= t < |s.threads| ==>
          (InSection(s.threads[t]) && Writes(s.threads[t].op) <==> s.writer == Some(t)))
    && (s.writer.Some? ==> s.writer.value < |s.threads| && s.readers == {})
  }

  predicate ReadersHeld(s: State) {
    && (forall t :: 0 <= t < |s.threads| ==>
          (InSection(s.threads[t]) && !Writes(s.threads[t].op) <==> t in s.readers))
    && (forall t :: t in s.readers ==> t < |s.threads|)
  }

  predicate Exclusive(s: State) {
    MuHeld(s) && WriterHeld(s) && ReadersHeld(s)
  }

  predicate Placed(s: State) {
    forall t :: 0 <= t < |s.threads| ==> WellPlaced(s, s.threads[t])
  }

  /** Escrow is locked minus unlocked, up to what went adrift and what the one writer has
      in flight. */
  predicate Books(s: State)
    requires s.writer.Some? ==> s.writer.value < |s.threads|
  {
    s.escrow + s.unlocked
    == s.locked + s.adrift + if s.writer.Some? then InFlight(s.threads[s.writer.value]) else 0
  }

  predicate Counted(s: State, lockedAtStart: nat, unlockedAtStart: nat) {
    s.locked == lockedAtStart + s.lockedSum && s.unlocked == unlockedAtStart + s.unlockedSum
  }

  predicate Invariant(s: State, lockedAtStart: nat, unlockedAtStart: nat) {
    Exclusive(s) && Placed(s) && Books(s) && Counted(s, lockedAtStart, unlockedAtStart)
  }

  /** What a step may do to the locks, by what the thread was and became. */
  lemma StepLocks(s: State, t: nat, op: Op, funded: bool, kept: bool)
    requires Exclusive(s) && Placed(s) && t < |s.threads| && !Blocked(s, t)
    ensures var s' := Step(s, t, op, funded, kept);
            var was, now := s.threads[t], s'.threads[t];
            && s'.threads == s.threads[t := now]
            && (if HoldsMu(now) then s'.mu == Some(t) && (HoldsMu(was) || s.mu.None?)
                else s'.mu == if HoldsMu(was) then None else s.mu)
            && (if InSection(now) && Writes(now.op) then s'.writer == Some(t)
                else s'.writer == if InSection(was) && Writes(was.op) then None else s.writer)
            && (if InSection(now) && !Writes(now.op) then s'.readers == s.readers + {t}
                else s'.readers == s.readers - {t})
            && (InSection(now) && !InSection(was) ==> s.writer.None? && (Writes(now.op) ==> s.readers == {}))
            && (InSection(now) && InSection(was) ==> now.op == was.op)
  {
    assert WellPlaced(s, s.threads[t]);
    assert s.threads[t := s.threads[t]] == s.threads;
  }

  lemma StepKeepsExclusive(s: State, t: nat, op: Op, funded: bool, kept: bool)
    requires Exclusive(s) && Placed(s) && t < |s.threads| && !Blocked(s, t)
    ensures Exclusive(Step(s, t, op, funded, kept))
  {
    StepLocks(s, t, op, funded, kept);
    var s' := Step(s, t, op, funded, kept);
    LocksFollow(s, s', t);
  }

  lemma LocksFollow(s: State, s': State, t: nat)
    requires Exclusive(s) && t < |s.threads| && |s'.threads| == |s.threads|
    requires s'.threads == s.threads[t := s'.threads[t]]
    requires var was, now := s.threads[t], s'.threads[t];
             && (if HoldsMu(now) then s'.mu == Some(t) && (HoldsMu(was) || s.mu.None?)
                 else s'.mu == if HoldsMu(was) then None else s.mu)
             && (if InSection(now) && Writes(now.op) then s'.writer == Some(t)
                 else s'.writer == if InSection(was) && Writes(was.op) then None else s.writer)
             && (if InSection(now) && !Writes(now.op) then s'.readers == s.readers + {t}
                 else s'.readers == s.readers - {t})
             && (InSection(now) && !InSection(was) ==> s.writer.None? && (Writes(now.op) ==> s.readers == {}))
             && (InSection(now) && InSection(was) ==> now.op == was.op)
    ensures Exclusive(s')
  {
  }

  /** Only a thread inside the write section changes a counter or the escrow, and then
      no other thread is inside any section. */
  lemma StepKeepsPlaced(s: State, t: nat, op: Op, funded: bool, kept: bool)
    requires Exclusive(s) && Placed(s) && t < |s.threads| && !Blocked(s, t)
    ensures Placed(Step(s, t, op, funded, kept))
  {
    var s' := Step(s, t, op, funded, kept);
    StepLocks(s, t, op, funded, kept);
    StepTouches(s, t, op, funded, kept);
    forall i | 0 <= i < |s'.threads| ensures WellPlaced(s', s'.threads[i]) {
      if i != t {
        assert s'.threads[i] == s.threads[i] && WellPlaced(s, s.threads[i]);
        if s.writer == Some(t) { assert !InSection(s.threads[i]); }
      }
    }
  }

  /** The stepping thread's own next place, and who may touch the counters. */
  lemma StepTouches(s: State, t: nat, op: Op, funded: bool, kept: bool)
    requires Exclusive(s) && Placed(s) && t < |s.threads| && !Blocked(s, t)
    ensures var s' := Step(s, t, op, funded, kept);
            && |s'.threads| == |s.threads| && WellPlaced(s', s'.threads[t])
            && (s.writer != Some(t) ==> s'.locked == s.locked && s'.unlocked == s.unlocked && s'.escrow == s.escrow)
  {
    assert WellPlaced(s, s.threads[t]);
  }

  /** Whatever a step does to the three totals, it does to its own value in flight. */
  lemma StepBalances(s: State, t: nat, op: Op, funded: bool, kept: bool, l0: nat, u0: nat)
    requires Placed(s) && t < |s.threads| && !Blocked(s, t) && Counted(s, l0, u0)
    ensures var s' := Step(s, t, op, funded, kept);
            && |s'.threads| == |s.threads| && Counted(s', l0, u0)
            && s'.escrow + s'.unlocked - s'.locked - s'.adrift - InFlight(s'.threads[t])
               == s.escrow + s.unlocked - s.locked - s.adrift - InFlight(s.threads[t])
  {
    assert WellPlaced(s, s.threads[t]);
  }

  lemma OnlyWriterInFlight(s: State, t: nat)
    requires WriterHeld(s) && t < |s.threads| && s.writer != Some(t)
    ensures InFlight(s.threads[t]) == 0
  {
  }

  lemma StepKeepsBooks(s: State, t: nat, op: Op, funded: bool, kept: bool, l0: nat, u0: nat)
    requires Invariant(s, l0, u0) && t < |s.threads| && !Blocked(s, t)
    requires Exclusive(Step(s, t, op, funded, kept))
    ensures Books(Step(s, t, op, funded, kept)) && Counted(Step(s, t, op, funded, kept), l0, u0)
  {
    var s' := Step(s, t, op, funded, kept);
    StepLocks(s, t, op, funded, kept);
    StepBalances(s, t, op, funded, kept, l0, u0);
    if s.writer != Some(t) { OnlyWriterInFlight(s, t); }
    if s'.writer != Some(t) { OnlyWriterInFlight(s', t); }
  }

  lemma StepKeepsInvariant(s: State, t: nat, op: Op, funded: bool, kept: bool, l0: nat, u0: nat)
    requires Invariant(s, l0, u0) && t < |s.threads| && !Blocked(s, t)
    ensures Invariant(Step(s, t, op, funded, kept), l0, u0)
  {
    StepKeepsExclusive(s, t, op, funded, kept);
    StepKeepsPlaced(s, t, op, funded, kept);
    StepKeepsBooks(s, t, op, funded, kept, l0, u0);
  }

  // ---------------------------------------------------------------- runs

  datatype Move = Move(thread: nat, op: Op, funded: bool, kept: bool)

  predicate Runs(s: State, moves: seq<Move>)
    decreases moves
  {
    moves != [] ==>
      && moves[0].thread < |s.threads| && !Blocked(s, moves[0].thread)
      && Runs(Step(s, moves[0].thread, moves[0].op, moves[0].funded, moves[0].kept), moves[1..])
  }

  function After(s: State, moves: seq<Move>): State
    requires Runs(s, moves)
    decreases moves
  {
    if moves == [] then s
    else After(Step(s, moves[0].thread, moves[0].op, moves[0].funded, moves[0].kept), moves[1..])
  }

  /** Every thread idle, both locks free, the books off by what went adrift. */
  predicate AtRest(s: State) {
    && s.mu.None? && s.writer.None? && s.readers == {}
    && (forall t :: 0 <= t < |s.threads| ==> s.threads[t].pc.Idle?)
    && s.escrow + s.unlocked == s.locked + s.adrift
  }

  lemma {:induction false} RunKeepsInvariant(s: State, moves: seq<Move>, l0: nat, u0: nat)
    requires Invariant(s, l0, u0) && Runs(s, moves)
    ensures Invariant(After(s, moves), l0, u0)
    decreases moves
  {
    if moves != [] {
      StepKeepsInvariant(s, moves[0].thread, moves[0].op, moves[0].funded, moves[0].kept, l0, u0);
      RunKeepsInvariant(Step(s, moves[0].thread, moves[0].op, moves[0].funded, moves[0].kept), moves[1..], l0, u0);
    }
  }

  /** In every state any interleaving reaches: each counter is its opening value plus
      every amount committed, so no update is lost; the books are off by exactly what went
      adrift whenever no writer is inside the ledger section; and a Reconcile that has
      taken its snapshot finds its three figures in agreement exactly when nothing is
      adrift, however many writers ran around it. */
  lemma NoUpdateLostNoTornSnapshot(s: State, moves: seq<Move>)
    requires AtRest(s) && s.lockedSum == s.unlockedSum == 0 && Runs(s, moves)
    ensures var s' := After(s, moves);
            && s'.locked == s.locked + s'.lockedSum && s'.unlocked == s.unlocked + s'.unlockedSum
            && (s'.writer.None? ==> s'.escrow + s'.unlocked == s'.locked + s'.adrift)
            && forall t :: 0 <= t < |s'.threads| && s'.threads[t].pc.SnapAll? ==>
                 var snap := s'.threads[t].pc;
                 && s'.writer.None? && snap.es + snap.un == snap.lk + s'.adrift
                 && (snap.un <= snap.lk && snap.es == snap.lk - snap.un <==> s'.adrift == 0)
  {
    RunKeepsInvariant(s, moves, s.locked, s.unlocked);
    var s' := After(s, moves);
    forall t | 0 <= t < |s'.threads| && s'.threads[t].pc.SnapAll?
      ensures s'.writer.None? && WellPlaced(s', s'.threads[t])
    {
      assert WellPlaced(s', s'.threads[t]) && t in s'.readers;
    }
  }

  /** As long as every move of value is counted, nothing goes adrift. */
  predicate AllKept(moves: seq<Move>) { forall i :: 0 <= i < |moves| ==> moves[i].kept }

  lemma {:induction false} KeptMovesStayOnTheBooks(s: State, moves: seq<Move>)
    requires Runs(s, moves) && AllKept(moves)
    ensures After(s, moves).adrift == s.adrift
    decreases moves
  {
    if moves != [] {
      assert moves[0].kept;
      KeptMovesStayOnTheBooks(Step(s, moves[0].thread, moves[0].op, moves[0].funded, moves[0].kept), moves[1..]);
    }
  }

  // ---------------------------------------------------------------- progress

  /** Some busy thread can always move: whoever is inside a section is never blocked;
      if nobody is, a queued writer gets in; if none waits, a reader does; and whoever
      holds b.mu is then either waiting for the ledger or about to release it. */
  lemma SomebodyCanMove(s: State, busy: nat) returns (t: nat)
    requires Exclusive(s) && Placed(s) && busy < |s.threads| && !s.threads[busy].pc.Idle?
    ensures t < |s.threads| && !s.threads[t].pc.Idle? && !Blocked(s, t)
  {
    if s.writer.Some? {
      t := s.writer.value;
    } else if s.readers != {} {
      t :| t in s.readers;
    } else if WriterWaiting(s) {
      t :| 0 <= t < |s.threads| && QueuedWriter(s.threads[t]);
    } else if s.mu.Some? {
      t := s.mu.value;
    } else {
      t := busy;
    }
  }

  /** How many steps a thread still has before it is idle. */
  function Remaining(pc: Pc): nat {
    match pc
    case Idle => 0
    case LeftLedger => 1
    case Finished => 2
    case HasMoved(_) => 3
    case EngineRead(_) => 3
    case SnapAll(_, _, _) => 3
    case HasRead(_) => 4
    case EngineMoved => 4
    case SnapBoth(_, _) => 4
    case SnapLocked(_) => 5
    case Inside => 6
    case WantLedger => 7
    case WantMu => 8
  }

  function Work(threads: seq<Thread>): nat {
    if threads == [] then 0 else Work(threads[..|threads| - 1]) + Remaining(threads[|threads| - 1].pc)
  }

  lemma {:induction false} WorkUpdate(threads: seq<Thread>, t: nat, th: Thread)
    requires t < |threads|
    ensures Work(threads[t := th]) == Work(threads) - Remaining(threads[t].pc) + Remaining(th.pc)
  {
    var n := |threads| - 1;
    if t == n {
      assert threads[t := th][..n] == threads[..n];
    } else {
      WorkUpdate(threads[..n], t, th);
      assert threads[t := th][..n] == threads[..n][t := th];
    }
  }

  lemma StepDoesWork(s: State, t: nat, op: Op, funded: bool, kept: bool)
    requires Placed(s) && t < |s.threads| && !Blocked(s, t) && !s.threads[t].pc.Idle?
    ensures |Step(s, t, op, funded, kept).threads| == |s.threads|
    ensures Work(Step(s, t, op, funded, kept).threads) < Work(s.threads)
  {
    StepAdvances(s, t, op, funded, kept);
    WorkUpdate(s.threads, t, Step(s, t, op, funded, kept).threads[t]);
  }

  lemma StepAdvances(s: State, t: nat, op: Op, funded: bool, kept: bool)
    requires Placed(s) && t < |s.threads| && !Blocked(s, t) && !s.threads[t].pc.Idle?
    ensures var s' := Step(s, t, op, funded, kept);
            && |s'.threads| == |s.threads| && s'.threads == s.threads[t := s'.threads[t]]
            && Remaining(s'.threads[t].pc) < Remaining(s.threads[t].pc)
  {
    assert WellPlaced(s, s.threads[t]);
  }

  lemma {:induction false} IdleMeansNoWork(threads: seq<Thread>)
    ensures Work(threads) == 0 <==> forall t :: 0 <= t < |threads| ==> threads[t].pc.Idle?
  {
    if threads != [] { IdleMeansNoWork(threads[..|threads| - 1]); }
  }

  /** No deadlock and no livelock: from every reachable state, whatever is in progress
      can be run to the end, and the end is a state at rest. */
  lemma {:induction false} EverythingCanFinish(s: State, l0: nat, u0: nat) returns (moves: seq<Move>)
    requires Invariant(s, l0, u0)
    ensures Runs(s, moves) && AtRest(After(s, moves))
    ensures |moves| <= Work(s.threads)
    decreases Work(s.threads)
  {
    IdleMeansNoWork(s.threads);
    if Work(s.threads) == 0 {
      moves := [];
      RestWhenIdle(s, l0, u0);
    } else {
      var busy :| 0 <= busy < |s.threads| && !s.threads[busy].pc.Idle?;
      var t := SomebodyCanMove(s, busy);
      StepDoesWork(s, t, BalanceOp, true, true);
      StepKeepsInvariant(s, t, BalanceOp, true, true, l0, u0);
      var rest := EverythingCanFinish(Step(s, t, BalanceOp, true, true), l0, u0);
      moves := [Move(t, BalanceOp, true, true)] + rest;
      assert moves[1..] == rest;
    }
  }

  lemma RestWhenIdle(s: State, l0: nat, u0: nat)
    requires Invariant(s, l0, u0) && forall t :: 0 <= t < |s.threads| ==> s.threads[t].pc.Idle?
    ensures AtRest(s)
  {
    var inside := set t | 0 <= t < |s.threads| && InSection(s.threads[t]);
    assert inside == {} && s.readers <= inside;
  }

  /** Every state any interleaving reaches from rest is free of deadlock. */
  lemma NeverDeadlocked(s: State, moves: seq<Move>) returns (rest: seq<Move>)
    requires AtRest(s) && s.lockedSum == s.unlockedSum == 0 && Runs(s, moves)
    ensures Runs(After(s, moves), rest) && AtRest(After(After(s, moves), rest))
  {
    RunKeepsInvariant(s, moves, s.locked, s.unlocked);
    rest := EverythingCanFinish(After(s, moves), s.locked, s.unlocked);
  }
}
