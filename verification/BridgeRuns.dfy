/** What every run of bridge operations keeps: the accounting equation, the total
    supply, and one release per burn across both release routes; and what an operation
    cut off between its two commits does to each. */
module BridgeRuns {
  import opened Bytes
  import opened Options
  import opened NativeLedger
  import opened LockIds
  import opened Bridge

  /** Sizes the store guarantees: uint64 counters, and a supply that fits one
      (token.NativeMaxSupply is 10^18). */
  ghost predicate Sized(s: State) {
    s.locked < TWO_64 && s.unlocked < TWO_64 && Sum(s.balances) < TWO_64
  }

  ghost predicate Backed(s: State) {
    Sized(s) && s.unlocked <= s.locked && Escrow(s) == s.locked - s.unlocked
  }

  /** Reconcile reports success exactly on backed states, and then its figures are
      the outstanding supply on both scales. */
  lemma ReconcileIffBacked(s: State)
    requires Sized(s)
    ensures ReconcileStep(s).Ok? <==> Backed(s)
    ensures ReconcileStep(s).Ok? ==>
              var r := ReconcileStep(s).value;
              && r.escrow == r.outstanding == r.locked - r.unlocked
              && r.outstandingErc20 == Escrow(s) * ERC20_PER_NATIVE
  {
  }

  // ---------------------------------------------------------------- single steps

  /** Lock's guards, in its caller's terms. */
  predicate LockAccepted(s: State, from: Account, amount: uint64) {
    amount >= MIN_LOCK && from != [] && s.locked + amount < TWO_64 && amount <= BalanceOf(s.balances, from)
  }

  /** ProcessBurn's guards: an id, a recipient, an exact positive amount, a bridge that
      releases by itself, a burn not marked yet, and escrow that covers it. */
  predicate BurnAccepted(s: State, burnId: bytes, to: Account, erc20: Option<int>) {
    && burnId != [] && to != [] && !s.consensusOrdered && HashOf(burnId) !in s.burns
    && erc20.Some? && 0 < erc20.value < TWO_64 * ERC20_PER_NATIVE && erc20.value % ERC20_PER_NATIVE == 0
    && erc20.value <= ERC20_PER_NATIVE * Escrow(s)
  }

  predicate UnlockAccepted(s: State, hash: BurnHash, to: Account, native: uint64) {
    s.consensusOrdered && hash != NoHash && to != [] && 0 < native <= Escrow(s) && hash !in s.burns
  }

  /** The guards are what decides. */
  lemma BurnGuardsDecide(s: State, burnId: bytes, to: Account, erc20: Option<int>)
    ensures ProcessBurnStep(s, burnId, to, erc20).1.Ok? <==> BurnAccepted(s, burnId, to, erc20)
  {
    var n := Erc20ToNative(erc20);
    if n.Some? {
      assert n.value * ERC20_PER_NATIVE <= ERC20_PER_NATIVE * Escrow(s) <==> n.value <= Escrow(s);
    }
  }

  lemma UnlockGuardsDecide(s: State, hash: BurnHash, to: Account, native: uint64)
    ensures AttestedUnlockStep(s, hash, to, native).1.Ok? <==> UnlockAccepted(s, hash, to, native)
  {
  }

  /** Value moved into escrow, the locked total with it, under a new sequence
      number; the equation survives exactly when the source was not escrow itself. */
  lemma LockEffect(s: State, from: Account, recipient: Address, amount: uint64)
    requires Backed(s)
    ensures var (s', r) := LockStep(s, from, recipient, amount);
            && Sized(s') && Sum(s'.balances) == Sum(s.balances)
            && (r.Ok? <==> LockAccepted(s, from, amount))
            && (r.Err? ==> s' == s)
            && (r.Ok? ==> s'.lockSeq == (s.lockSeq + 1) % 0x1_0000_0000_0000_0000 && r.value.lockSeq == s'.lockSeq)
            && (Backed(s') <==> r.Err? || from != ESCROW)
            && (r.Ok? && from == ESCROW ==> s'.balances == s.balances)
            && (r.Ok? && from != ESCROW ==>
                  && Escrow(s') == Escrow(s) + amount
                  && BalanceOf(s'.balances, from) == BalanceOf(s.balances, from) - amount
                  && s'.locked == s.locked + amount
                  && s'.locks == s.locks[r.value.id := r.value]
                  && r.value.from == from && r.value.amount == amount && r.value.recipient == recipient)
  {
    if Transferred(s.balances, from, ESCROW, amount).Some? {
      TransferConserves(s.balances, from, ESCROW, amount);
    }
  }

  predicate Recordable(s: State, id: Digest, amount: nat) {
    amount >= MIN_LOCK && id !in s.locks && s.locked + amount < TWO_64
  }

  /** A committed lock keeps the equation exactly when it moved nothing or was also
      recorded, and its sender is not the escrow account. A reused id or a full
      `locked` counter leaves value in escrow that no total accounts for. */
  lemma EngineLockEffect(s: State, nonce: uint64, from: Account, recipient: Address, amount: uint64)
    requires Backed(s)
    ensures var (s', moved) := EngineLockStep(s, nonce, from, recipient, amount);
            var recorded := Recordable(s, DeriveLockId(nonce, from, recipient, amount), amount);
            && Sized(s') && Sum(s'.balances) == Sum(s.balances)
            && (moved <==> amount <= BalanceOf(s.balances, from))
            && (!moved ==> s' == s)
            && (moved ==> Escrow(s') == Escrow(s) + if from == ESCROW then 0 else amount)
            && (Backed(s') <==> !moved || amount == 0 || (recorded <==> from != ESCROW))
  {
    if Transferred(s.balances, from, ESCROW, amount).Some? {
      TransferConserves(s.balances, from, ESCROW, amount);
    }
  }

  /** Recording a lock the table already holds changes nothing at all. */
  lemma ReplayedRecordIsFree(s: State, id: Digest, from: Account, recipient: Address, amount: uint64)
    requires id in s.locks && amount >= MIN_LOCK
    ensures RecordLockStep(s, id, from, recipient, amount) == (s, Ok(()))
  {
  }

  /** A release pays out of escrow what it adds to the unlocked total, whose
      unguarded uint64 addition cannot wrap while the books balance. */
  lemma ReleaseEffect(s: State, hash: BurnHash, to: Account, native: uint64, marker: Marker)
    requires Backed(s) && native > 0
    ensures var (s', r) := ReleaseStep(s, hash, to, native, marker);
            && Sized(s') && Sum(s'.balances) == Sum(s.balances)
            && (r.Ok? <==> hash !in s.burns && native <= Escrow(s))
            && (r.Err? ==> s' == s)
            && (Backed(s') <==> r.Err? || to != ESCROW)
            && (r.Ok? ==>
                  && s'.unlocked == s.unlocked + native <= s.locked
                  && s'.burns.Keys == s.burns.Keys + {hash}
                  && (to != ESCROW ==>
                        && Escrow(s') == Escrow(s) - native
                        && BalanceOf(s'.balances, to) == BalanceOf(s.balances, to) + native))
  {
    if Transferred(s.balances, ESCROW, to, native).Some? {
      TransferConserves(s.balances, ESCROW, to, native);
    }
  }

  // ---------------------------------------------------------------- runs

  datatype Step =
    | DirectLock(from: Account, recipient: Address, amount: uint64)
    | EngineLock(nonce: uint64, from: Account, recipient: Address, amount: uint64)
    | ReplayRecord(id: Digest, from: Account, recipient: Address, amount: uint64)
    | Burn(burnId: bytes, to: Account, erc20: Option<int>)
    | Unlock(hash: BurnHash, to: Account, native: uint64)
    | Pay(from: Account, to: Account, amount: uint64)
    | Adopt
    | Restart(consensusOrdered: bool)
    | CutOff(op: Step)  // op, cut off after its first commit

  function Apply(s: State, step: Step): State {
    match step
    case DirectLock(from, recipient, amount) => LockStep(s, from, recipient, amount).0
    case EngineLock(nonce, from, recipient, amount) => EngineLockStep(s, nonce, from, recipient, amount).0
    case ReplayRecord(id, from, recipient, amount) => RecordLockStep(s, id, from, recipient, amount).0
    case Burn(burnId, to, erc20) => ProcessBurnStep(s, burnId, to, erc20).0
    case Unlock(hash, to, native) => AttestedUnlockStep(s, hash, to, native).0
    case Pay(from, to, amount) =>
      var b := Transferred(s.balances, from, to, amount);
      if b.Some? then s.(balances := b.value) else s
    case Adopt => AdoptStep(s)
    case Restart(mode) => s.(consensusOrdered := mode)
    case CutOff(op) => Torn(s, Apply(s, op))
  }

  /** The burn a step releases and marks, if it does. */
  function Releases(s: State, step: Step): (r: Option<BurnHash>) {
    match step
    case Burn(burnId, to, erc20) => if ProcessBurnStep(s, burnId, to, erc20).1.Ok? then Some(HashOf(burnId)) else None
    case Unlock(hash, to, native) => if AttestedUnlockStep(s, hash, to, native).1.Ok? then Some(hash) else None
    case _ => None
  }

  /** What must hold before a step for the books to keep balancing: escrow is nobody's
      sender or recipient, a committed lock's id is fresh and its amount fits the
      running total, and no operation that moves value is cut off. */
  predicate Benign(s: State, step: Step) {
    match step
    case DirectLock(from, recipient, amount) => from != ESCROW || !LockAccepted(s, from, amount)
    case EngineLock(nonce, from, recipient, amount) =>
      || amount == 0 || BalanceOf(s.balances, from) < amount
      || (Recordable(s, DeriveLockId(nonce, from, recipient, amount), amount) <==> from != ESCROW)
    case ReplayRecord(id, from, recipient, amount) => !Recordable(s, id, amount)
    case Burn(burnId, to, erc20) => to != ESCROW || !BurnAccepted(s, burnId, to, erc20)
    case Unlock(hash, to, native) => to != ESCROW || !UnlockAccepted(s, hash, to, native)
    case Pay(from, to, amount) =>
      amount == 0 || BalanceOf(s.balances, from) < amount || from == to || (from != ESCROW && to != ESCROW)
    case Adopt => true
    case Restart(_) => true
    case CutOff(op) => BenignTorn(s, op)
  }

  /** Cut off, an operation is harmless exactly when it moved nothing in or out of
      escrow. */
  predicate BenignTorn(s: State, op: Step) {
    match op
    case DirectLock(from, recipient, amount) => from == ESCROW || !LockAccepted(s, from, amount)
    case EngineLock(nonce, from, recipient, amount) =>
      from == ESCROW || amount == 0 || BalanceOf(s.balances, from) < amount
    case Burn(burnId, to, erc20) => to == ESCROW || !BurnAccepted(s, burnId, to, erc20)
    case Unlock(hash, to, native) => to == ESCROW || !UnlockAccepted(s, hash, to, native)
    case Pay(from, to, amount) =>
      amount == 0 || BalanceOf(s.balances, from) < amount || from == to || (from != ESCROW && to != ESCROW)
    case CutOff(inner) => BenignTorn(s, inner)
    case _ => true
  }

  /** A burn accepted pays its recipient the wrapped amount's worth out of escrow and
      nobody else anything, and is marked and counted. */
  lemma BurnEffect(s: State, burnId: bytes, to: Account, erc20: Option<int>)
    requires Backed(s) && BurnAccepted(s, burnId, to, erc20)
    ensures var s' := ProcessBurnStep(s, burnId, to, erc20).0;
            ReleasedTo(s, s', to, erc20.value / 1_000_000_000) && s'.unlocked <= s.locked
            && s'.burns == s.burns[HashOf(burnId) := DirectBurn(burnId, to, erc20.value)]
  {
    BurnGuardsDecide(s, burnId, to, erc20);
    TransferConserves(s.balances, ESCROW, to, Erc20ToNative(erc20).value);
  }

  lemma UnlockEffect(s: State, hash: BurnHash, to: Account, native: uint64)
    requires Backed(s) && UnlockAccepted(s, hash, to, native)
    ensures var s' := AttestedUnlockStep(s, hash, to, native).0;
            ReleasedTo(s, s', to, native) && s'.unlocked <= s.locked
            && s'.burns == s.burns[hash := AttestedUnlock(hash, to, native)]
  {
    TransferConserves(s.balances, ESCROW, to, native);
  }

  /** Escrow paid exactly this account exactly this much, and counted it. */
  ghost predicate ReleasedTo(s: State, s': State, to: Account, native: nat) {
    && (forall a :: BalanceOf(s'.balances, a)
                    == BalanceOf(s.balances, a) + (if a == to then native else 0) - if a == ESCROW then native else 0)
    && s'.unlocked == s.unlocked + native
    && s' == s.(balances := s'.balances, unlocked := s'.unlocked, burns := s'.burns)
  }

  lemma BurnKeepsBackingIff(s: State, burnId: bytes, to: Account, erc20: Option<int>)
    requires Backed(s)
    ensures var s' := ProcessBurnStep(s, burnId, to, erc20).0;
            && Sized(s') && Sum(s'.balances) == Sum(s.balances)
            && (Backed(s') <==> to != ESCROW || !BurnAccepted(s, burnId, to, erc20))
            && (Escrow(s') == Escrow(s) <==> to == ESCROW || !BurnAccepted(s, burnId, to, erc20))
  {
    BurnGuardsDecide(s, burnId, to, erc20);
    var native := Erc20ToNative(erc20);
    if native.Some? && native.value > 0 {
      ReleaseEffect(s, HashOf(burnId), to, native.value, DirectBurn(burnId, to, erc20.value));
    }
  }

  lemma UnlockKeepsBackingIff(s: State, hash: BurnHash, to: Account, native: uint64)
    requires Backed(s)
    ensures var s' := AttestedUnlockStep(s, hash, to, native).0;
            && Sized(s') && Sum(s'.balances) == Sum(s.balances)
            && (Backed(s') <==> to != ESCROW || !UnlockAccepted(s, hash, to, native))
            && (Escrow(s') == Escrow(s) <==> to == ESCROW || !UnlockAccepted(s, hash, to, native))
  {
    if native > 0 {
      ReleaseEffect(s, hash, to, native, AttestedUnlock(hash, to, native));
    }
  }

  /** A payment between accounts keeps the books exactly when it stays clear of escrow. */
  lemma PayKeepsBackingIff(s: State, from: Account, to: Account, amount: uint64)
    requires Backed(s)
    ensures var s' := Apply(s, Pay(from, to, amount));
            && Sized(s') && Sum(s'.balances) == Sum(s.balances)
            && (Backed(s') <==> Benign(s, Pay(from, to, amount)))
  {
    if Transferred(s.balances, from, to, amount).Some? {
      TransferConserves(s.balances, from, to, amount);
    }
  }

  /** Of an operation cut off between its commits only the balances remain, and the
      totals they were to match do not: the books balance exactly when escrow's
      balance is what it was. */
  lemma {:induction false} TornKeepsBackingIff(s: State, op: Step)
    requires Backed(s)
    ensures var s' := Torn(s, Apply(s, op));
            && Sized(s') && Sum(s'.balances) == Sum(s.balances)
            && (Backed(s') <==> Escrow(s') == Escrow(s))
            && (Backed(s') <==> BenignTorn(s, op))
    decreases op
  {
    match op
    case DirectLock(from, recipient, amount) => LockEffect(s, from, recipient, amount);
    case EngineLock(nonce, from, recipient, amount) => EngineLockEffect(s, nonce, from, recipient, amount);
    case ReplayRecord(_, _, _, _) =>
    case Burn(burnId, to, erc20) => BurnKeepsBackingIff(s, burnId, to, erc20);
    case Unlock(hash, to, native) => UnlockKeepsBackingIff(s, hash, to, native);
    case Pay(from, to, amount) => PayKeepsBackingIff(s, from, to, amount);
    case Adopt =>
    case Restart(_) =>
    case CutOff(inner) => TornKeepsBackingIff(s, inner);
  }

  /** A lock cut off before its record, on either route: the sender is debited, escrow
      holds the value, there is no lock to attest, and Reconcile reports the gap. */
  lemma TornLockStrandsValue(s: State, op: Step)
    requires Backed(s) && (op.DirectLock? || op.EngineLock?) && !BenignTorn(s, op)
    ensures var s' := Apply(s, CutOff(op));
            && op.from != ESCROW && op.amount > 0
            && BalanceOf(s'.balances, op.from) == BalanceOf(s.balances, op.from) - op.amount
            && Escrow(s') == Escrow(s) + op.amount
            && s' == s.(balances := s'.balances)
            && ReconcileStep(s') == Err(EscrowMismatch)
  {
    TransferConserves(s.balances, op.from, ESCROW, op.amount);
  }

  /** One step from balanced books: the supply is conserved whatever the step, and the
      books balance afterwards exactly when the step was benign. */
  lemma StepKeepsBackingIff(s: State, step: Step)
    requires Backed(s)
    ensures Sized(Apply(s, step)) && Sum(Apply(s, step).balances) == Sum(s.balances)
    ensures Backed(Apply(s, step)) <==> Benign(s, step)
  {
    match step
    case DirectLock(from, recipient, amount) => LockEffect(s, from, recipient, amount);
    case EngineLock(nonce, from, recipient, amount) => EngineLockEffect(s, nonce, from, recipient, amount);
    case ReplayRecord(_, _, _, _) =>
    case Burn(burnId, to, erc20) => BurnKeepsBackingIff(s, burnId, to, erc20);
    case Unlock(hash, to, native) => UnlockKeepsBackingIff(s, hash, to, native);
    case Pay(from, to, amount) => PayKeepsBackingIff(s, from, to, amount);
    case Adopt =>
    case Restart(_) =>
    case CutOff(op) => TornKeepsBackingIff(s, op);
  }

  function Run(s: State, steps: seq<Step>): State
    decreases steps
  {
    if steps == [] then s else Run(Apply(s, steps[0]), steps[1..])
  }

  ghost predicate ReconcilesThroughout(s: State, steps: seq<Step>)
    decreases steps
  {
    ReconcileStep(s).Ok? && (steps != [] ==> ReconcilesThroughout(Apply(s, steps[0]), steps[1..]))
  }

  predicate BenignThroughout(s: State, steps: seq<Step>)
    decreases steps
  {
    steps != [] ==> Benign(s, steps[0]) && BenignThroughout(Apply(s, steps[0]), steps[1..])
  }

  /** Over any run, in any mixture of routes and modes, Reconcile succeeds in every
      state visited exactly when every step was benign where it was taken; the
      supply is conserved either way up to that point. */
  lemma {:induction false} RunReconcilesIff(s: State, steps: seq<Step>)
    requires Backed(s)
    ensures ReconcilesThroughout(s, steps) <==> BenignThroughout(s, steps)
    ensures BenignThroughout(s, steps) ==> Backed(Run(s, steps)) && Sum(Run(s, steps).balances) == Sum(s.balances)
    decreases steps
  {
    ReconcileIffBacked(s);
    if steps != [] {
      var s' := Apply(s, steps[0]);
      StepKeepsBackingIff(s, steps[0]);
      ReconcileIffBacked(s');
      if Backed(s') {
        RunReconcilesIff(s', steps[1..]);
      }
    }
  }

  /** The run the node starts with: whatever a genesis handed the escrow account,
      adopting it balances the books, and a chain with history is left alone. */
  lemma GenesisIsBacked(opening: Balances, consensusOrdered: bool)
    requires Sum(opening) < TWO_64
    ensures var s := State(opening, 0, 0, 0, map[], map[], consensusOrdered);
            && Backed(AdoptStep(s))
            && (ReconcileStep(s).Ok? <==> BalanceOf(opening, ESCROW) == 0)
            && AdoptStep(AdoptStep(s)) == AdoptStep(s)
  {
    if ESCROW in opening { SumBounds(opening, ESCROW); }
  }

  /** A chain with history is left alone, whatever its books say. */
  lemma AdoptsOnlyWithoutHistory(s: State)
    ensures s.locked != 0 || s.unlocked != 0 ==> AdoptStep(s) == s
    ensures s.locked == 0 && s.unlocked == 0 ==> AdoptStep(s) == s.(locked := BalanceOf(s.balances, ESCROW))
  {
  }

  /** All burns released along a run, in order. */
  function ReleasedBy(s: State, steps: seq<Step>): seq<BurnHash>
    decreases steps
  {
    if steps == [] then [] else
      (var r := Releases(s, steps[0]); if r.Some? then [r.value] else [])
      + ReleasedBy(Apply(s, steps[0]), steps[1..])
  }

  lemma ReleaseMarks(s: State, step: Step)
    ensures var r := Releases(s, step);
            && Apply(s, step).burns.Keys == s.burns.Keys + (if r.Some? then {r.value} else {})
            && (r.Some? ==> r.value !in s.burns)
  {
  }

  /** Whatever the mixture of direct burns, attested unlocks, replays and restarts
      that switch mode, and even if the books do not balance: every burn is released
      at most once, never again once marked, and the markers are exactly the burns
      released. */
  lemma {:induction false} EachBurnReleasedOnce(s: State, steps: seq<Step>)
    ensures var out := ReleasedBy(s, steps);
            && (forall i, j :: 0 <= i < j < |out| ==> out[i] != out[j])
            && (forall i :: 0 <= i < |out| ==> out[i] !in s.burns)
            && Run(s, steps).burns.Keys == s.burns.Keys + set h | h in out
    decreases steps
  {
    if steps != [] {
      ReleaseMarks(s, steps[0]);
      EachBurnReleasedOnce(Apply(s, steps[0]), steps[1..]);
    }
  }

  // ---------------------------------------------------------------- what burns are paid

  datatype Payment = Payment(burn: BurnHash, to: Account, native: nat)

  /** What a step takes out of escrow on account of a burn, whole or cut off. */
  function Payout(s: State, step: Step): Option<Payment> {
    match step
    case Burn(burnId, to, erc20) =>
      if BurnAccepted(s, burnId, to, erc20) then Some(Payment(HashOf(burnId), to, erc20.value / ERC20_PER_NATIVE))
      else None
    case Unlock(hash, to, native) =>
      if UnlockAccepted(s, hash, to, native) then Some(Payment(hash, to, native)) else None
    case CutOff(op) => Payout(s, op)
    case _ => None
  }

  predicate IsBurnStep(step: Step) {
    step.Burn? || step.Unlock? || (step.CutOff? && IsBurnStep(step.op))
  }

  /** The payout is what the ledger did: exactly that transfer out of escrow, or
      nothing; and a whole payout marks its burn while a torn one does not. */
  lemma {:induction false} PayoutIsTheTransfer(s: State, step: Step)
    requires IsBurnStep(step)
    ensures var p := Payout(s, step);
            && (p.None? ==> Apply(s, step) == s)
            && (p.Some? ==>
                  && p.value.burn !in s.burns
                  && Transferred(s.balances, ESCROW, p.value.to, p.value.native) == Some(Apply(s, step).balances)
                  && Apply(s, step).burns.Keys == s.burns.Keys + if step.CutOff? then {} else {p.value.burn})
    decreases step
  {
    match step
    case Burn(burnId, to, erc20) =>
      BurnGuardsDecide(s, burnId, to, erc20);
    case Unlock(hash, to, native) =>
    case CutOff(op) => PayoutIsTheTransfer(s, op);
  }

  /** Every step that names burn h carries the amount its log carries. */
  predicate Carries(step: Step, h: BurnHash, native: nat) {
    match step
    case Burn(burnId, _, erc20) => HashOf(burnId) == h ==> Erc20ToNative(erc20) == Some(native)
    case Unlock(hash, _, amount) => hash == h ==> amount == native
    case CutOff(op) => Carries(op, h, native)
    case _ => true
  }

  /** Every step that names burn h names this recipient. */
  predicate Names(step: Step, h: BurnHash, to: Account) {
    match step
    case Burn(burnId, account, _) => HashOf(burnId) == h ==> account == to
    case Unlock(hash, account, _) => hash == h ==> account == to
    case CutOff(op) => Names(op, h, to)
    case _ => true
  }

  /** What a run takes out of escrow for burn h, and how often it was cut off doing so. */
  function PaidFor(s: State, steps: seq<Step>, h: BurnHash): nat
    decreases steps
  {
    if steps == [] then 0
    else
      var p := Payout(s, steps[0]);
      (if p.Some? && p.value.burn == h then p.value.native else 0) + PaidFor(Apply(s, steps[0]), steps[1..], h)
  }

  function TornFor(s: State, steps: seq<Step>, h: BurnHash): nat
    decreases steps
  {
    if steps == [] then 0
    else
      var p := Payout(s, steps[0]);
      (if p.Some? && p.value.burn == h && steps[0].CutOff? then 1 else 0) + TornFor(Apply(s, steps[0]), steps[1..], h)
  }

  /** A step other than a burn's leaves every marker alone. */
  lemma {:induction false} OtherStepsMarkNothing(s: State, step: Step)
    requires !IsBurnStep(step)
    ensures Apply(s, step).burns == s.burns && Payout(s, step).None?
    decreases step
  {
    if step.CutOff? { OtherStepsMarkNothing(s, step.op); }
  }

  lemma {:induction false} PayoutCarries(s: State, step: Step, h: BurnHash, native: nat)
    requires Carries(step, h, native)
    ensures var p := Payout(s, step); p.Some? && p.value.burn == h ==> p.value.native == native
    decreases step
  {
    if step.CutOff? { PayoutCarries(s, step.op, h, native); }
  }

  predicate AllCarry(steps: seq<Step>, h: BurnHash, native: nat) {
    forall i :: 0 <= i < |steps| ==> Carries(steps[i], h, native)
  }

  predicate AllName(steps: seq<Step>, h: BurnHash, to: Account) {
    forall i :: 0 <= i < |steps| ==> Names(steps[i], h, to)
  }

  function Marked(s: State, steps: seq<Step>, h: BurnHash): nat {
    if h in Run(s, steps).burns && h !in s.burns then 1 else 0
  }

  /** What one step adds to both sides of the count. */
  lemma PaymentStep(s: State, step: Step, h: BurnHash, native: nat)
    requires Carries(step, h, native)
    ensures var p := Payout(s, step);
            var hit := p.Some? && p.value.burn == h;
            && (hit ==> p.value.native == native && h !in s.burns)
            && (h in Apply(s, step).burns <==> h in s.burns || (hit && !step.CutOff?))
  {
    PayoutCarries(s, step, h, native);
    if IsBurnStep(step) { PayoutIsTheTransfer(s, step); } else { OtherStepsMarkNothing(s, step); }
  }

  /** Over any run, through either route, whatever is locked or paid in between: what
      leaves escrow for a burn is its amount once for the marker and once more for
      every time it was cut off after the transfer. */
  lemma {:induction false} PaidOncePerCommit(s: State, steps: seq<Step>, h: BurnHash, native: nat)
    requires AllCarry(steps, h, native)
    ensures PaidFor(s, steps, h) == native * (TornFor(s, steps, h) + Marked(s, steps, h))
    ensures h in s.burns ==> h in Run(s, steps).burns && TornFor(s, steps, h) == 0
    decreases steps
  {
    if steps != [] {
      var s' := Apply(s, steps[0]);
      PaidOncePerCommit(s', steps[1..], h, native);
      PaymentStep(s, steps[0], h, native);
      var p := Payout(s, steps[0]);
      if p.Some? && p.value.burn == h {
        OneMore(native, TornFor(s', steps[1..], h) + Marked(s', steps[1..], h));
      }
    }
  }

  /** The payments a run makes for burn h, in order. */
  function PaymentsFor(s: State, steps: seq<Step>, h: BurnHash): seq<Payment>
    decreases steps
  {
    if steps == [] then []
    else
      var p := Payout(s, steps[0]);
      (if p.Some? && p.value.burn == h then [p.value] else []) + PaymentsFor(Apply(s, steps[0]), steps[1..], h)
  }

  function Copies<T>(x: T, n: nat): seq<T> { seq(n, _ => x) }

  lemma {:induction false} PayoutNames(s: State, step: Step, h: BurnHash, to: Account)
    requires Names(step, h, to)
    ensures var p := Payout(s, step); p.Some? && p.value.burn == h ==> p.value.to == to
    decreases step
  {
    if step.CutOff? { PayoutNames(s, step.op, h, to); }
  }

  /** And each time it is that recipient who is paid, that amount. */
  lemma {:induction false} PaymentsAreCopies(s: State, steps: seq<Step>, h: BurnHash, to: Account, native: nat)
    requires AllCarry(steps, h, native) && AllName(steps, h, to)
    ensures PaymentsFor(s, steps, h)
            == Copies(Payment(h, to, native), TornFor(s, steps, h) + Marked(s, steps, h))
    decreases steps
  {
    if steps != [] {
      var s' := Apply(s, steps[0]);
      PaymentsAreCopies(s', steps[1..], h, to, native);
      PaymentStep(s, steps[0], h, native);
      PayoutNames(s, steps[0], h, to);
      PaidOncePerCommit(s', steps[1..], h, native);
    }
  }

  lemma OneMore(native: nat, n: nat)
    ensures native * (n + 1) == native + native * n
  {
  }

  lemma OnceIff(native: nat, n: nat)
    requires native > 0
    ensures native * (n + 1) == native <==> n == 0
  {
    if n > 0 { Product(1, n, native); }
  }

  /** So a burn that got its marker was paid exactly once exactly when no cut-off hit
      it while it could be paid. */
  lemma PaidExactlyOnceIff(s: State, steps: seq<Step>, h: BurnHash, native: nat)
    requires AllCarry(steps, h, native) && native > 0 && Marked(s, steps, h) == 1
    ensures PaidFor(s, steps, h) == native <==> TornFor(s, steps, h) == 0
  {
    PaidOncePerCommit(s, steps, h, native);
    OnceIff(native, TornFor(s, steps, h));
  }

  /** After a release was cut off the burn is unmarked, and stays so through any run
      that does not release it, however long and with whatever locks in it. Observed
      again it is paid again exactly when escrow then covers it. */
  lemma TornReleasePaysAgain(s: State, burnId: bytes, to: Account, erc20: Option<int>, steps: seq<Step>)
    requires BurnAccepted(s, burnId, to, erc20)
    requires HashOf(burnId) !in ReleasedBy(Apply(s, CutOff(Burn(burnId, to, erc20))), steps)
    ensures var s' := Run(Apply(s, CutOff(Burn(burnId, to, erc20))), steps);
            Payout(s', Burn(burnId, to, erc20))
            == if !s'.consensusOrdered && erc20.value <= ERC20_PER_NATIVE * Escrow(s')
               then Payout(s, Burn(burnId, to, erc20)) else None
  {
    var torn := Apply(s, CutOff(Burn(burnId, to, erc20)));
    EachBurnReleasedOnce(torn, steps);
  }
}
