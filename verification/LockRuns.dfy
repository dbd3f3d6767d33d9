/** The lock table over whole runs: sequence numbers, and which lock ids are new. The
    node numbers its own locks from one counter; a committed lock brings its sender's
    transaction nonce instead, and both kinds share one table. */
module LockRuns {
  import opened Bytes
  import opened Options
  import opened NativeLedger
  import opened LockIds
  import opened Bridge
  import opened BridgeRuns
  import opened Backing

  // ---------------------------------------------------------------- what a step records

  /** The id a step records a lock under, if it records one. A step cut off does not. */
  function RecordedBy(s: State, step: Step): Option<Digest> {
    match step
    case DirectLock(from, recipient, amount) =>
      if LockAccepted(s, from, amount) then Some(DeriveLockId((s.lockSeq + 1) % TWO_64, from, recipient, amount))
      else None
    case EngineLock(nonce, from, recipient, amount) =>
      var id := DeriveLockId(nonce, from, recipient, amount);
      if amount <= BalanceOf(s.balances, from) && Recordable(s, id, amount) then Some(id) else None
    case ReplayRecord(id, _, _, amount) => if Recordable(s, id, amount) then Some(id) else None
    case _ => None
  }

  /** What recording a lock does to the table: the lock enters with its own fields, and
      nothing else there changes. */
  predicate Records(s: State, s': State, ev: LockEvent) {
    s'.locks == s.locks[ev.id := ev] && s'.locked == s.locked + ev.amount
  }

  predicate RecordsNothing(s: State, s': State) {
    s'.locks == s.locks && s'.lockSeq == s.lockSeq
  }

  /** An accepted direct lock takes the next number. */
  lemma DirectLockRecords(s: State, from: Account, recipient: Address, amount: uint64)
    ensures var (s', id) := (Apply(s, DirectLock(from, recipient, amount)),
                             RecordedBy(s, DirectLock(from, recipient, amount)));
            && (id.None? ==> RecordsNothing(s, s'))
            && (id.Some? ==>
                  && s'.lockSeq == (s.lockSeq + 1) % 0x1_0000_0000_0000_0000
                  && Records(s, s', LockEvent(id.value, s'.lockSeq, from, recipient, amount)))
  {
  }

  /** A committed lock is recorded only under an id of its own, and takes no number. */
  lemma EngineLockRecords(s: State, nonce: uint64, from: Account, recipient: Address, amount: uint64)
    ensures var (s', id) := (Apply(s, EngineLock(nonce, from, recipient, amount)),
                             RecordedBy(s, EngineLock(nonce, from, recipient, amount)));
            && (id.None? ==> RecordsNothing(s, s'))
            && (id.Some? ==>
                  && id.value == DeriveLockId(nonce, from, recipient, amount) && id.value !in s.locks
                  && s'.lockSeq == s.lockSeq && Records(s, s', LockEvent(id.value, 0, from, recipient, amount)))
  {
  }

  lemma ReplayRecords(s: State, id: Digest, from: Account, recipient: Address, amount: uint64)
    ensures var s' := Apply(s, ReplayRecord(id, from, recipient, amount));
            if RecordedBy(s, ReplayRecord(id, from, recipient, amount)) == None then RecordsNothing(s, s')
            else id !in s.locks && s'.lockSeq == s.lockSeq
                 && Records(s, s', LockEvent(id, 0, from, recipient, amount))
  {
  }

  /** No other step touches the table or the numbering, and neither does an operation
      that is cut off. */
  lemma OthersRecordNothing(s: State, step: Step)
    requires !step.DirectLock? && !step.EngineLock? && !step.ReplayRecord?
    ensures RecordedBy(s, step) == None && RecordsNothing(s, Apply(s, step))
  {
  }

  lemma StepRecords(s: State, step: Step)
    ensures var (s', id) := (Apply(s, step), RecordedBy(s, step));
            && s'.locks.Keys == s.locks.Keys + (if id.Some? then {id.value} else {})
            && (forall other :: other in s.locks && Some(other) != id ==> s'.locks[other] == s.locks[other])
            && s'.lockSeq == (if step.DirectLock? && id.Some? then (s.lockSeq + 1) % TWO_64 else s.lockSeq)
  {
    match step
    case DirectLock(from, recipient, amount) => DirectLockRecords(s, from, recipient, amount);
    case EngineLock(nonce, from, recipient, amount) => EngineLockRecords(s, nonce, from, recipient, amount);
    case ReplayRecord(id, from, recipient, amount) => ReplayRecords(s, id, from, recipient, amount);
    case _ => OthersRecordNothing(s, step);
  }

  function Recorded(s: State, steps: seq<Step>): seq<Digest>
    decreases steps
  {
    if steps == [] then []
    else
      var id := RecordedBy(s, steps[0]);
      (if id.Some? then [id.value] else []) + Recorded(Apply(s, steps[0]), steps[1..])
  }

  /** The table holds what was there and what was recorded, and nothing else. */
  lemma {:induction false} TableIsWhatWasRecorded(s: State, steps: seq<Step>, id: Digest)
    ensures id in Run(s, steps).locks <==> id in s.locks || id in Recorded(s, steps)
    ensures id in s.locks && id !in Recorded(s, steps) ==> Run(s, steps).locks[id] == s.locks[id]
    decreases steps
  {
    if steps != [] {
      StepRecords(s, steps[0]);
      TableIsWhatWasRecorded(Apply(s, steps[0]), steps[1..], id);
    }
  }

  // ---------------------------------------------------------------- sequence numbers

  /** The direct locks a run accepts, as their callers see them. */
  function DirectLocks(s: State, steps: seq<Step>): seq<LockEvent>
    decreases steps
  {
    if steps == [] then [] else DirectLockOf(s, steps[0]) + DirectLocks(Apply(s, steps[0]), steps[1..])
  }

  function DirectLockOf(s: State, step: Step): seq<LockEvent> {
    match step
    case DirectLock(from, recipient, amount) =>
      var r := LockStep(s, from, recipient, amount).1;
      if r.Ok? then [r.value] else []
    case _ => []
  }

  /** An event's id is made of its own fields, its sequence number among them. */
  predicate OwnId(ev: LockEvent) { ev.id == DeriveLockId(ev.lockSeq, ev.from, ev.recipient, ev.amount) }

  lemma DirectLockIs(s: State, step: Step)
    ensures |DirectLockOf(s, step)| == if step.DirectLock? && LockAccepted(s, step.from, step.amount) then 1 else 0
    ensures DirectLockOf(s, step) != [] ==>
              var ev := DirectLockOf(s, step)[0];
              && ev == LockEvent(ev.id, (s.lockSeq + 1) % TWO_64, step.from, step.recipient, step.amount)
              && OwnId(ev) && RecordedBy(s, step) == Some(ev.id) && Apply(s, step).locks == s.locks[ev.id := ev]
  {
  }

  lemma StepNumbers(s: State, step: Step)
    requires s.lockSeq + |DirectLockOf(s, step)| < TWO_64
    ensures Apply(s, step).lockSeq == s.lockSeq + |DirectLockOf(s, step)|
    ensures NumberedFrom(s.lockSeq + 1, DirectLockOf(s, step))
  {
    StepRecords(s, step);
    DirectLockIs(s, step);
  }

  /** Whatever else goes on, direct locks are numbered consecutively, and each has the id
      its number and fields make. */
  lemma {:induction false} NumberedConsecutively(s: State, steps: seq<Step>)
    requires s.lockSeq + |DirectLocks(s, steps)| < TWO_64
    ensures Run(s, steps).lockSeq == s.lockSeq + |DirectLocks(s, steps)|
    ensures NumberedFrom(s.lockSeq + 1, DirectLocks(s, steps))
    decreases steps
  {
    if steps != [] {
      var s' := Apply(s, steps[0]);
      StepNumbers(s, steps[0]);
      NumberedConsecutively(s', steps[1..]);
      NumberedOn(s.lockSeq + 1, DirectLockOf(s, steps[0]), DirectLocks(s', steps[1..]));
    }
  }

  predicate NumberedFrom(n: nat, evs: seq<LockEvent>) {
    forall i :: 0 <= i < |evs| ==> evs[i].lockSeq == n + i && OwnId(evs[i])
  }

  lemma NumberedOn(n: nat, a: seq<LockEvent>, b: seq<LockEvent>)
    requires NumberedFrom(n, a) && NumberedFrom(n + |a|, b)
    ensures NumberedFrom(n, a + b)
  {
  }

  /** Different numbers make different ids, whatever the other fields. */
  lemma NumberSeparates(n: uint64, s: Account, r: Address, a: nat, n': uint64, s': Account, r': Address, a': nat)
    requires n != n'
    ensures DeriveLockId(n, s, r, a) != DeriveLockId(n', s', r', a')
  {
    PowersOf256();
    var p, p' := LockPreimage(n, s, r, a), LockPreimage(n', s', r', a');
    if p == p' {
      assert U64(n) == p[..8] && U64(n') == p'[..8];
      BigEndianInjective(n, n', 8);
    }
  }

  lemma EventsDiffer(a: LockEvent, b: LockEvent)
    requires OwnId(a) && OwnId(b) && a.lockSeq < TWO_64 && b.lockSeq < TWO_64 && a.lockSeq != b.lockSeq
    ensures a.id != b.id
  {
    NumberSeparates(a.lockSeq, a.from, a.recipient, a.amount, b.lockSeq, b.from, b.recipient, b.amount);
  }

  /** So over any run with fewer than 2^64 of them no two direct locks share an id. */
  lemma DirectIdsDiffer(s: State, steps: seq<Step>)
    requires s.lockSeq + |DirectLocks(s, steps)| < TWO_64
    ensures var evs := DirectLocks(s, steps);
            forall i, j :: 0 <= i < j < |evs| ==> evs[i].id != evs[j].id
  {
    var evs := DirectLocks(s, steps);
    NumberedConsecutively(s, steps);
    forall i, j | 0 <= i < j < |evs| ensures evs[i].id != evs[j].id {
      EventsDiffer(evs[i], evs[j]);
    }
  }

  /** A direct lock's entry is there to attest to for ever after: later ones have other
      numbers, and a committed or replayed lock never takes a place that is taken. */
  lemma {:induction false} EntryStays(s: State, steps: seq<Step>, ev: LockEvent)
    requires s.lockSeq + |DirectLocks(s, steps)| < TWO_64
    requires OwnId(ev) && ev.lockSeq <= s.lockSeq && ev.id in s.locks && s.locks[ev.id] == ev
    ensures ev.id in Run(s, steps).locks && Run(s, steps).locks[ev.id] == ev
    decreases steps
  {
    if steps != [] {
      EntryStaysBy(s, steps[0], ev);
      StepNumbers(s, steps[0]);
      EntryStays(Apply(s, steps[0]), steps[1..], ev);
    }
  }

  lemma EntryStaysBy(s: State, step: Step, ev: LockEvent)
    requires s.lockSeq + |DirectLockOf(s, step)| < TWO_64
    requires OwnId(ev) && ev.lockSeq <= s.lockSeq && ev.id in s.locks && s.locks[ev.id] == ev
    ensures ev.id in Apply(s, step).locks && Apply(s, step).locks[ev.id] == ev
  {
    match step
    case DirectLock(from, recipient, amount) =>
      DirectLockIs(s, step);
      DirectLockRecords(s, from, recipient, amount);
      if DirectLockOf(s, step) != [] { EventsDiffer(ev, DirectLockOf(s, step)[0]); }
    case EngineLock(nonce, from, recipient, amount) => EngineLockRecords(s, nonce, from, recipient, amount);
    case ReplayRecord(id, from, recipient, amount) => ReplayRecords(s, id, from, recipient, amount);
    case _ => OthersRecordNothing(s, step);
  }

  lemma {:induction false} DirectEntriesStay(s: State, steps: seq<Step>)
    requires s.lockSeq + |DirectLocks(s, steps)| < TWO_64
    ensures forall ev :: ev in DirectLocks(s, steps) ==>
              ev.id in Run(s, steps).locks && Run(s, steps).locks[ev.id] == ev
    decreases steps
  {
    if steps != [] {
      var s' := Apply(s, steps[0]);
      StepNumbers(s, steps[0]);
      DirectLockIs(s, steps[0]);
      DirectEntriesStay(s', steps[1..]);
      forall ev | ev in DirectLockOf(s, steps[0]) ensures ev.id in Run(s', steps[1..]).locks
      ensures Run(s', steps[1..]).locks[ev.id] == ev {
        EntryStays(s', steps[1..], ev);
      }
    }
  }

  // ---------------------------------------------------------------- new ids

  /** No lock of this sender is in the table under a number above n. */
  ghost predicate UsedUpTo(s: State, from: Account, n: int) {
    forall k: uint64, r: Address, a: uint64 :: DeriveLockId(k, from, r, a) in s.locks ==> k <= n
  }

  /** What keeps a sender's own numbers free: whoever also locks through the node brings
      committed nonces no greater than its counter, and only recorded locks are replayed. */
  predicate Trails(s: State, step: Step, direct: set<Account>) {
    match step
    case DirectLock(from, _, _) => from in direct
    case EngineLock(nonce, from, _, _) => |from| < TWO_32 && (from in direct ==> nonce <= s.lockSeq)
    case ReplayRecord(id, _, _, _) => id in s.locks
    case _ => true
  }

  predicate TrailsThroughout(s: State, steps: seq<Step>, direct: set<Account>)
    decreases steps
  {
    steps != [] ==> Trails(s, steps[0], direct) && TrailsThroughout(Apply(s, steps[0]), steps[1..], direct)
  }

  ghost predicate Behind(s: State, direct: set<Account>) {
    forall from :: from in direct ==> |from| < TWO_32 && UsedUpTo(s, from, s.lockSeq)
  }

  /** A step that records a lock of this sender, if any, does so under number k. */
  lemma RecordedNumber(s: State, step: Step, from: Account, k: uint64, r: Address, a: uint64)
    requires |from| < TWO_32 && (step.DirectLock? || step.EngineLock?) && |step.from| < TWO_32
    requires RecordedBy(s, step) == Some(DeriveLockId(k, from, r, a))
    ensures step.from == from && k == if step.DirectLock? then (s.lockSeq + 1) % TWO_64 else step.nonce
  {
    var n := if step.DirectLock? then (s.lockSeq + 1) % TWO_64 else step.nonce;
    LockIdInjective(n, step.from, step.recipient, step.amount, k, from, r, a);
  }

  lemma StepTrails(s: State, step: Step, direct: set<Account>)
    requires Behind(s, direct) && Trails(s, step, direct) && s.lockSeq + |DirectLockOf(s, step)| < TWO_64
    ensures Behind(Apply(s, step), direct)
  {
    var s' := Apply(s, step);
    StepRecords(s, step);
    StepNumbers(s, step);
    DirectLockIs(s, step);
    forall from, k: uint64, r: Address, a: uint64 | from in direct && DeriveLockId(k, from, r, a) in s'.locks
      ensures k <= s'.lockSeq
    {
      if DeriveLockId(k, from, r, a) !in s.locks { RecordedNumber(s, step, from, k, r, a); }
    }
  }

  predicate NewFor(s: State, step: Step) {
    step.DirectLock? && RecordedBy(s, step).Some? ==> RecordedBy(s, step).value !in s.locks
  }

  /** Every direct lock of the run enters the table under an id not there before. */
  predicate NewThroughout(s: State, steps: seq<Step>)
    decreases steps
  {
    steps != [] ==> NewFor(s, steps[0]) && NewThroughout(Apply(s, steps[0]), steps[1..])
  }

  lemma StepIsNew(s: State, step: Step, direct: set<Account>)
    requires Behind(s, direct) && Trails(s, step, direct) && s.lockSeq + |DirectLockOf(s, step)| < TWO_64
    ensures NewFor(s, step)
  {
    DirectLockIs(s, step);
    StepNumbers(s, step);
    if DirectLockOf(s, step) != [] { AboveIsFree(s, s.lockSeq, DirectLockOf(s, step)[0]); }
  }

  lemma AboveIsFree(s: State, n: nat, ev: LockEvent)
    requires UsedUpTo(s, ev.from, n) && OwnId(ev) && n < ev.lockSeq < TWO_64 && ev.amount < TWO_64
    ensures ev.id !in s.locks
  {
  }

  /** Over any run with fewer than 2^64 direct locks, whatever is cut off in it, in which
      the committed nonces of whoever also locks directly trail the counter: every direct
      lock's id is new. */
  lemma {:induction false} DirectLocksAreNew(s: State, steps: seq<Step>, direct: set<Account>)
    requires Behind(s, direct) && TrailsThroughout(s, steps, direct)
    requires s.lockSeq + |DirectLocks(s, steps)| < TWO_64
    ensures NewThroughout(s, steps) && Behind(Run(s, steps), direct)
    decreases steps
  {
    if steps != [] {
      StepIsNew(s, steps[0], direct);
      StepTrails(s, steps[0], direct);
      StepNumbers(s, steps[0]);
      DirectLocksAreNew(Apply(s, steps[0]), steps[1..], direct);
    }
  }

  /** Then no entry of the table is ever displaced. */
  lemma {:induction false} NothingIsDisplaced(s: State, steps: seq<Step>)
    requires NewThroughout(s, steps)
    ensures forall id :: id in s.locks ==> id in Run(s, steps).locks && Run(s, steps).locks[id] == s.locks[id]
    decreases steps
  {
    if steps != [] {
      var step := steps[0];
      NothingIsDisplaced(Apply(s, step), steps[1..]);
      match step
      case DirectLock(from, recipient, amount) => DirectLockRecords(s, from, recipient, amount);
      case EngineLock(nonce, from, recipient, amount) => EngineLockRecords(s, nonce, from, recipient, amount);
      case ReplayRecord(id, from, recipient, amount) => ReplayRecords(s, id, from, recipient, amount);
      case _ => OthersRecordNothing(s, step);
    }
  }

  /** A node whose table is empty is behind nobody. */
  lemma EmptyIsBehind(s: State, direct: set<Account>)
    requires s.locks == map[] && forall from :: from in direct ==> |from| < TWO_32
    ensures Behind(s, direct)
  {
  }

  /** And a direct lock then brings escrow exactly what it claims: nothing is gained. */
  predicate NoDirectGain(c: Chains, moves: seq<Move>)
    decreases moves
  {
    moves != [] ==>
      && (moves[0].Native? && moves[0].step.DirectLock? ==> Gain(c, moves[0]) == 0)
      && NoDirectGain(Moved(c, moves[0]), moves[1..])
  }

  lemma {:induction false} NewLocksGainNothing(c: Chains, moves: seq<Move>)
    requires NewThroughout(c.native, NativeSteps(moves))
    ensures NoDirectGain(c, moves)
    decreases moves
  {
    if moves != [] {
      var rest := NativeSteps(moves[1..]);
      if moves[0].Native? {
        assert ([moves[0].step] + rest)[1..] == rest;
        NewGainsNothing(c, moves[0].step);
      } else {
        assert [] + rest == rest;
      }
      NewLocksGainNothing(Moved(c, moves[0]), moves[1..]);
    }
  }

  lemma NewGainsNothing(c: Chains, step: Step)
    requires NewFor(c.native, step)
    ensures step.DirectLock? ==> Gain(c, Native(step)) == 0
  {
  }

  // ---------------------------------------------------------------- committed locks

  /** A sender that locks only through the chain, with rising nonces. */
  predicate Rises(s: State, steps: seq<Step>, from: Account, floor: int)
    decreases steps
  {
    steps != [] ==>
      && (match steps[0]
          case DirectLock(sender, _, _) => |sender| < TWO_32 && sender != from
          case EngineLock(nonce, sender, _, _) => |sender| < TWO_32 && (sender == from ==> nonce > floor)
          case ReplayRecord(id, _, _, _) => id in s.locks
          case _ => true)
      && Rises(Apply(s, steps[0]), steps[1..], from, NextFloor(steps[0], from, floor))
  }

  function NextFloor(step: Step, from: Account, floor: int): int {
    if step.EngineLock? && step.from == from then step.nonce else floor
  }

  /** Each of its locks is recorded exactly when it is large enough and fits the running
      total, and then escrow gains nothing beyond the claim. */
  predicate RecordedWheneverItFits(s: State, steps: seq<Step>, from: Account)
    decreases steps
  {
    steps != [] ==>
      && (steps[0].EngineLock? && steps[0].from == from ==>
            (Recordable(s, DeriveLockId(steps[0].nonce, from, steps[0].recipient, steps[0].amount), steps[0].amount)
             <==> steps[0].amount >= MIN_LOCK && s.locked + steps[0].amount < TWO_64))
      && RecordedWheneverItFits(Apply(s, steps[0]), steps[1..], from)
  }

  lemma StepRises(s: State, step: Step, from: Account, floor: int)
    requires |from| < TWO_32 && UsedUpTo(s, from, floor)
    requires step.DirectLock? ==> |step.from| < TWO_32 && step.from != from
    requires step.EngineLock? ==> |step.from| < TWO_32 && (step.from == from ==> step.nonce > floor)
    requires step.ReplayRecord? ==> step.id in s.locks
    ensures UsedUpTo(Apply(s, step), from, NextFloor(step, from, floor))
  {
    var s' := Apply(s, step);
    StepRecords(s, step);
    forall k: uint64, r: Address, a: uint64 | DeriveLockId(k, from, r, a) in s'.locks
      ensures k <= NextFloor(step, from, floor)
    {
      if DeriveLockId(k, from, r, a) !in s.locks { RecordedNumber(s, step, from, k, r, a); }
    }
  }

  /** A committed lock is never refused for its id, as long as its sender's nonces rise
      and the sender makes no direct locks. */
  lemma {:induction false} CommittedLocksAreRecorded(s: State, steps: seq<Step>, from: Account, floor: int)
    requires |from| < TWO_32 && UsedUpTo(s, from, floor) && Rises(s, steps, from, floor)
    ensures RecordedWheneverItFits(s, steps, from)
    decreases steps
  {
    if steps != [] {
      StepRises(s, steps[0], from, floor);
      CommittedLocksAreRecorded(Apply(s, steps[0]), steps[1..], from, NextFloor(steps[0], from, floor));
    }
  }

  lemma RecordedCommittedGainsNothing(
      c: Chains, nonce: uint64, from: Account, recipient: Address, amount: uint64)
    requires Recordable(c.native, DeriveLockId(nonce, from, recipient, amount), amount)
    ensures Gain(c, Native(EngineLock(nonce, from, recipient, amount))) == 0
  {
  }

  /** A direct lock's id is a committed one's exactly when the nonce is the next number and
      every other field agrees. */
  lemma DirectIdMatches(s: State, from: Account, r: Address, a: uint64,
                        nonce: uint64, from': Account, r': Address, a': uint64)
    requires |from| < TWO_32 && |from'| < TWO_32 && s.lockSeq + 1 < TWO_64 && LockAccepted(s, from, a)
    ensures RecordedBy(s, DirectLock(from, r, a)) == Some(DeriveLockId(nonce, from', r', a'))
            <==> nonce == s.lockSeq + 1 && from == from' && r == r' && a == a'
  {
    var n: uint64 := s.lockSeq + 1;
    NextNumber(s, n, from, r, a);
    LockIdInjective(n, from, r, a, nonce, from', r', a');
  }

  lemma NextNumber(s: State, n: uint64, from: Account, r: Address, a: uint64)
    requires n == s.lockSeq + 1 && LockAccepted(s, from, a)
    ensures RecordedBy(s, DirectLock(from, r, a)) == Some(DeriveLockId(n, from, r, a))
  {
    assert (s.lockSeq + 1) % TWO_64 == n;
  }

  lemma DirectAfter(s: State, id: Digest, from: Account, r: Address, a: uint64)
    requires id in s.locks && LockAccepted(s, from, a)
    ensures var (s', id') := (Apply(s, DirectLock(from, r, a)), RecordedBy(s, DirectLock(from, r, a)));
            && s'.locked == s.locked + a
            && (id' == Some(id) ==> s'.locks.Keys == s.locks.Keys)
            && (id' != Some(id) ==> id in s'.locks && s'.locks[id] == s.locks[id])
  {
    StepRecords(s, DirectLock(from, r, a));
    DirectLockRecords(s, from, r, a);
  }

  /** The condition is needed. A committed lock whose nonce is the next number of the
      counter, and then a direct lock of the same sender, recipient and amount: both are
      counted, and one entry is left to mint against. With any other nonce, sender,
      recipient or amount the committed lock keeps its entry. */
  lemma NextNumberCollides(s: State, nonce: uint64, from: Account, r: Address, a: uint64,
                           from': Account, r': Address, a': uint64)
    requires |from| < TWO_32 && |from'| < TWO_32 && s.lockSeq + 1 < TWO_64
    requires RecordedBy(s, EngineLock(nonce, from, r, a)).Some?
    requires LockAccepted(Apply(s, EngineLock(nonce, from, r, a)), from', a')
    ensures var s2 := Apply(Apply(s, EngineLock(nonce, from, r, a)), DirectLock(from', r', a'));
            var id := DeriveLockId(nonce, from, r, a);
            && s2.locked == s.locked + a + a'
            && (if nonce == s.lockSeq + 1 && from == from' && r == r' && a == a'
                then s2.locks.Keys == s.locks.Keys + {id}
                else id in s2.locks && s2.locks[id] == LockEvent(id, 0, from, r, a))
  {
    var s1 := Apply(s, EngineLock(nonce, from, r, a));
    EngineLockRecords(s, nonce, from, r, a);
    DirectIdMatches(s1, from', r', a', nonce, from, r, a);
    DirectAfter(s1, DeriveLockId(nonce, from, r, a), from', r', a');
  }
}
