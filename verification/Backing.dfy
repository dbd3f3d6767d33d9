/** The two chains together: native locks and releases on one side, WrappedMatrix
    mints and burns on the other, observed late, twice, or after a restart, and any
    operation cut off between its two commits.

    Assumed of the other chain (WrappedMatrix.sol:213-266): a lock id mints once and
    only for a lock validators can read from the native table, and every burn is a
    positive multiple of 10^9 that fits its event and has a log of its own. */
module Backing {
  import opened Bytes
  import opened Options
  import opened NativeLedger
  import opened LockIds
  import opened Bridge
  import opened BridgeRuns
  import L = BurnLog

  /** burn(amount, recipient) by burner, and where its log is. */
  datatype EthBurn = EthBurn(burner: bytes, recipient: bytes, amount: nat, txHash: bytes, logIndex: uint64)

  /** The log id a burn is replay-protected under, and the account it pays. */
  function IdOf(b: EthBurn): bytes { L.LogId(b.txHash, b.logIndex) }
  function Payee(b: EthBurn): Account { L.NormalizeNativeRecipient(b.recipient) }

  /** Within WrappedMatrix's own guards, and those of an event. */
  predicate Burnable(b: EthBurn) {
    L.Emittable(b.burner, b.recipient, b.amount, b.txHash) && b.amount > 0 && b.amount % ERC20_PER_NATIVE == 0
  }

  function LogOf(b: EthBurn): L.EthLog
    requires Burnable(b)
  {
    L.EmittedLog(b.burner, b.recipient, b.amount, b.txHash, b.logIndex)
  }

  datatype Chains = Chains(
    native: State,
    minted: set<Digest>,
    supply: nat,
    mintCap: nat,
    burned: map<bytes, EthBurn>)

  /** Locks recorded but not minted yet, in wrapped units. */
  ghost function Unminted(c: Chains): map<Digest, nat> {
    map id | id in c.native.locks && id !in c.minted :: c.native.locks[id].amount * ERC20_PER_NATIVE
  }

  /** Burns logged but not released yet. */
  ghost function Pending(c: Chains): map<bytes, nat> {
    map id | id in c.burned && HashOf(id) !in c.native.burns :: c.burned[id].amount
  }

  /** What escrow holds beyond everything that could ever be claimed from it. */
  ghost function Surplus(c: Chains): int {
    ERC20_PER_NATIVE * Escrow(c.native) - c.supply - Sum(Pending(c)) - Sum(Unminted(c))
  }

  ghost predicate WellFormed(c: Chains) {
    && Sum(c.native.balances) < TWO_64
    && c.minted <= c.native.locks.Keys
    && forall id :: id in c.burned ==> Burnable(c.burned[id]) && id == IdOf(c.burned[id])
  }

  ghost predicate FullyBacked(c: Chains) {
    WellFormed(c) && Surplus(c) >= 0
  }

  datatype Move =
    | Native(step: Step)
    | Mint(id: Digest)
    | BurnWrapped(burn: EthBurn)

  function MintStep(c: Chains, id: Digest): Chains {
    if id !in c.native.locks || id in c.minted then c
    else
      var amount := c.native.locks[id].amount * ERC20_PER_NATIVE;
      if amount == 0 || c.supply + amount > c.mintCap then c
      else c.(minted := c.minted + {id}, supply := c.supply + amount)
  }

  function BurnStep(c: Chains, b: EthBurn): Chains {
    if IdOf(b) in c.burned || HashOf(IdOf(b)) in c.native.burns then c
    else if !Burnable(b) || b.amount > c.supply then c
    else c.(supply := c.supply - b.amount, burned := c.burned[IdOf(b) := b])
  }

  function Moved(c: Chains, move: Move): Chains {
    match move
    case Native(step) => c.(native := Apply(c.native, step))
    case Mint(id) => MintStep(c, id)
    case BurnWrapped(b) => BurnStep(c, b)
  }

  /** The environment's half of a native step: escrow never signs, the engine replays
      only locks it has recorded, and what is observed or attested is a logged burn
      with what its log names: the recipient in the one spelling of an account, no NUL
      byte in it, and the amount. */
  predicate Honest(c: Chains, step: Step) {
    match step
    case DirectLock(from, _, _) => from != ESCROW
    case EngineLock(_, from, _, _) => from != ESCROW
    case ReplayRecord(id, _, _, _) => id in c.native.locks
    case Burn(burnId, to, erc20) => erc20.Some? && Observed(c, burnId, to, erc20.value)
    case Unlock(hash, to, native) => hash.HashOf? && Observed(c, hash.burnId, to, native * ERC20_PER_NATIVE)
    case Pay(from, _, _) => from != ESCROW
    case CutOff(op) => Honest(c, op)
    case _ => true
  }

  predicate Observed(c: Chains, burnId: bytes, to: Account, amount: int) {
    && burnId in c.burned
    && 0 !in c.burned[burnId].recipient && to == Payee(c.burned[burnId]) && amount == c.burned[burnId].amount
  }

  predicate Allowed(c: Chains, move: Move) { move.Native? ==> Honest(c, move.step) }

  // ---------------------------------------------------------------- what a move does to the surplus

  /** Only a release cut off after its transfer loses anything: what it paid. */
  function Loss(c: Chains, move: Move): nat {
    if move.Native? && move.step.CutOff? then TornLoss(c.native, move.step.op) else 0
  }

  function TornLoss(s: State, op: Step): nat {
    match Payout(s, op)
    case None => 0
    case Some(p) => if p.to == ESCROW then 0 else ERC20_PER_NATIVE * p.native
  }

  /** Value that reaches escrow without a claim on it: a payment into it, a lock cut off
      or refused before its record, a lock that takes another's place in the table, a
      burn that names escrow itself. */
  function Gain(c: Chains, move: Move): nat {
    if !move.Native? then 0
    else match move.step
      case DirectLock(from, recipient, amount) =>
        var id := DeriveLockId((c.native.lockSeq + 1) % TWO_64, from, recipient, amount);
        if !LockAccepted(c.native, from, amount) || id !in c.native.locks then 0
        else ERC20_PER_NATIVE * if id in c.minted then amount else c.native.locks[id].amount
      case EngineLock(nonce, from, recipient, amount) =>
        if Recordable(c.native, DeriveLockId(nonce, from, recipient, amount), amount) then 0
        else TornGain(c.native, move.step)
      case Burn(_, _, _) => SelfPayout(c.native, move.step)
      case Unlock(_, _, _) => SelfPayout(c.native, move.step)
      case Pay(_, _, _) => TornGain(c.native, move.step)
      case CutOff(op) => TornGain(c.native, op)
      case _ => 0
  }

  /** A release back to escrow settles a claim with nothing. */
  function SelfPayout(s: State, step: Step): nat {
    match Payout(s, step)
    case None => 0
    case Some(p) => if p.to == ESCROW then ERC20_PER_NATIVE * p.native else 0
  }

  /** What an operation's first commit alone brings into escrow. */
  function TornGain(s: State, op: Step): nat {
    match op
    case DirectLock(from, _, amount) => if LockAccepted(s, from, amount) then ERC20_PER_NATIVE * amount else 0
    case EngineLock(_, from, _, amount) =>
      if amount <= BalanceOf(s.balances, from) then ERC20_PER_NATIVE * amount else 0
    case Pay(from, to, amount) =>
      if to == ESCROW && amount <= BalanceOf(s.balances, from) then ERC20_PER_NATIVE * amount else 0
    case CutOff(inner) => TornGain(s, inner)
    case _ => 0
  }

  /** While no table changes, only escrow's balance moves the surplus. */
  lemma SameClaims(c: Chains, c': Chains)
    requires c' == c.(native := c'.native)
    requires c'.native.locks == c.native.locks && c'.native.burns == c.native.burns
    ensures Surplus(c') == Surplus(c) + ERC20_PER_NATIVE * (Escrow(c'.native) - Escrow(c.native))
  {
    assert Unminted(c') == Unminted(c) && Pending(c') == Pending(c);
  }

  lemma RecordingAddsClaim(c: Chains, c': Chains, ev: LockEvent)
    requires c' == c.(native := c'.native)
    requires c'.native.locks == c.native.locks[ev.id := ev] && c'.native.burns == c.native.burns
    requires c.minted <= c.native.locks.Keys
    ensures Pending(c') == Pending(c)
    ensures Sum(Unminted(c')) == Sum(Unminted(c)) + ERC20_PER_NATIVE *
              if ev.id in c.minted then 0
              else if ev.id in c.native.locks then ev.amount - c.native.locks[ev.id].amount
              else ev.amount
  {
    if ev.id in c.minted {
      assert Unminted(c') == Unminted(c);
    } else {
      assert Unminted(c') == Unminted(c)[ev.id := ev.amount * ERC20_PER_NATIVE];
      SumUpdate(Unminted(c), ev.id, ev.amount * ERC20_PER_NATIVE);
    }
  }

  /** A direct lock backs its own future mint to the unit; the claim it displaces, if
      its id was taken, is the gain. */
  lemma DirectLockSurplus(c: Chains, from: Account, recipient: Address, amount: uint64)
    requires WellFormed(c) && from != ESCROW
    ensures var move := Native(DirectLock(from, recipient, amount));
            WellFormed(Moved(c, move)) && Surplus(Moved(c, move)) == Surplus(c) + Gain(c, move)
  {
    var (s, r) := LockStep(c.native, from, recipient, amount);
    DirectLockMoves(c.native, from, recipient, amount);
    if r.Ok? { RecordingAddsClaim(c, c.(native := s), r.value); }
  }

  lemma DirectLockMoves(s: State, from: Account, recipient: Address, amount: uint64)
    requires Sum(s.balances) < TWO_64 && from != ESCROW
    ensures var (s', r) := LockStep(s, from, recipient, amount);
            && (r.Ok? <==> LockAccepted(s, from, amount)) && (r.Err? ==> s' == s)
            && (r.Ok? ==>
                  && Escrow(s') == Escrow(s) + amount && Sum(s'.balances) == Sum(s.balances)
                  && r.value.id == DeriveLockId((s.lockSeq + 1) % TWO_64, from, recipient, amount)
                  && r.value.amount == amount && s'.locks == s.locks[r.value.id := r.value] && s'.burns == s.burns)
  {
    if LockAccepted(s, from, amount) { TransferConserves(s.balances, from, ESCROW, amount); }
  }

  /** A committed lock backs its mint if it is recorded, and is all gain if not. */
  lemma EngineLockSurplus(c: Chains, nonce: uint64, from: Account, recipient: Address, amount: uint64)
    requires WellFormed(c) && from != ESCROW
    ensures var move := Native(EngineLock(nonce, from, recipient, amount));
            WellFormed(Moved(c, move)) && Surplus(Moved(c, move)) == Surplus(c) + Gain(c, move)
  {
    var (s, moved) := EngineLockStep(c.native, nonce, from, recipient, amount);
    if moved {
      var id := DeriveLockId(nonce, from, recipient, amount);
      TransferConserves(c.native.balances, from, ESCROW, amount);
      if Recordable(c.native, id, amount) {
        RecordingAddsClaim(c, c.(native := s), LockEvent(id, 0, from, recipient, amount));
      } else {
        SameClaims(c, c.(native := s));
      }
    }
  }

  lemma MintKeepsSurplus(c: Chains, id: Digest)
    requires WellFormed(c)
    ensures WellFormed(MintStep(c, id)) && Surplus(MintStep(c, id)) == Surplus(c)
  {
    var c' := MintStep(c, id);
    if c' != c {
      assert Pending(c') == Pending(c);
      assert Unminted(c') == Unminted(c) - {id};
      SumRemove(Unminted(c), id);
    }
  }

  lemma BurnKeepsSurplus(c: Chains, b: EthBurn)
    requires WellFormed(c)
    ensures var c' := BurnStep(c, b);
            WellFormed(c') && Surplus(c') == Surplus(c)
  {
    if BurnStep(c, b) != c { LoggingAddsClaim(c, BurnStep(c, b), IdOf(b), b); }
  }

  lemma LoggingAddsClaim(c: Chains, c': Chains, id: bytes, b: EthBurn)
    requires c' == c.(supply := c'.supply, burned := c.burned[id := b])
    requires id !in c.burned && HashOf(id) !in c.native.burns
    ensures Unminted(c') == Unminted(c) && Sum(Pending(c')) == Sum(Pending(c)) + b.amount
  {
    assert Unminted(c') == Unminted(c);
    assert Pending(c') == Pending(c)[id := b.amount];
    SumUpdate(Pending(c), id, b.amount);
  }

  /** A release settles one pending burn with exactly its own value; only a release
      back to escrow itself leaves the value behind. */
  lemma ReleaseSurplus(c: Chains, burnId: bytes, to: Account, native: uint64, marker: Marker)
    requires WellFormed(c) && burnId in c.burned && c.burned[burnId].amount == native * ERC20_PER_NATIVE
    requires HashOf(burnId) !in c.native.burns && native <= Escrow(c.native)
    ensures var c' := c.(native := ReleaseStep(c.native, HashOf(burnId), to, native, marker).0);
            WellFormed(c') && Surplus(c') == Surplus(c) + if to == ESCROW then ERC20_PER_NATIVE * native else 0
  {
    var c' := c.(native := ReleaseStep(c.native, HashOf(burnId), to, native, marker).0);
    TransferConserves(c.native.balances, ESCROW, to, native);
    MarkingSettlesClaim(c, c', burnId);
  }

  lemma MarkingSettlesClaim(c: Chains, c': Chains, burnId: bytes)
    requires burnId in c.burned && HashOf(burnId) !in c.native.burns
    requires c' == c.(native := c'.native) && c'.native.locks == c.native.locks
    requires c'.native.burns.Keys == c.native.burns.Keys + {HashOf(burnId)}
    ensures Unminted(c') == Unminted(c) && Sum(Pending(c')) == Sum(Pending(c)) - c.burned[burnId].amount
  {
    assert Unminted(c') == Unminted(c);
    assert Pending(c') == Pending(c) - {burnId};
    SumRemove(Pending(c), burnId);
  }

  lemma ReleaseStepSurplus(c: Chains, step: Step)
    requires WellFormed(c) && Honest(c, step) && (step.Burn? || step.Unlock?)
    ensures var c' := Moved(c, Native(step));
            WellFormed(c') && Surplus(c') == Surplus(c) + SelfPayout(c.native, step)
  {
    PayoutIsTheTransfer(c.native, step);
    var p := Payout(c.native, step);
    if p.Some? {
      match step
      case Burn(burnId, to, erc20) =>
        ReleaseSurplus(c, burnId, to, p.value.native, DirectBurn(burnId, to, erc20.value));
      case Unlock(hash, to, native) =>
        ReleaseSurplus(c, hash.burnId, to, native, AttestedUnlock(hash, to, native));
    }
  }

  /** The first commit alone brings its gain into escrow and pays its loss out of it. */
  ghost predicate TornMoves(s: State, op: Step) {
    var b := Apply(s, op).balances;
    && Sum(b) == Sum(s.balances)
    && ERC20_PER_NATIVE * (BalanceOf(b, ESCROW) - Escrow(s)) == TornGain(s, op) - TornLoss(s, op)
  }

  lemma TornDirectLock(s: State, op: Step)
    requires Sum(s.balances) < TWO_64 && op.DirectLock? && op.from != ESCROW
    ensures TornMoves(s, op)
  {
    if LockAccepted(s, op.from, op.amount) { TransferConserves(s.balances, op.from, ESCROW, op.amount); }
  }

  lemma TornEngineLock(s: State, op: Step)
    requires Sum(s.balances) < TWO_64 && op.EngineLock? && op.from != ESCROW
    ensures TornMoves(s, op)
  {
    if op.amount <= BalanceOf(s.balances, op.from) {
      TransferConserves(s.balances, op.from, ESCROW, op.amount);
      assert Apply(s, op).balances == Transferred(s.balances, op.from, ESCROW, op.amount).value;
    }
  }

  lemma TornPay(s: State, op: Step)
    requires Sum(s.balances) < TWO_64 && op.Pay? && op.from != ESCROW
    ensures TornMoves(s, op)
  {
    if op.amount <= BalanceOf(s.balances, op.from) { TransferConserves(s.balances, op.from, op.to, op.amount); }
  }

  lemma TornPayout(s: State, op: Step)
    requires Sum(s.balances) < TWO_64 && (op.Burn? || op.Unlock?)
    ensures TornMoves(s, op)
  {
    PayoutIsTheTransfer(s, op);
    var p := Payout(s, op);
    if p.Some? { TransferConserves(s.balances, ESCROW, p.value.to, p.value.native); }
  }

  lemma {:induction false} TornEscrow(c: Chains, op: Step)
    requires Sum(c.native.balances) < TWO_64 && Honest(c, op)
    ensures TornMoves(c.native, op)
    decreases op
  {
    match op
    case DirectLock(_, _, _) => TornDirectLock(c.native, op);
    case EngineLock(_, _, _, _) => TornEngineLock(c.native, op);
    case Pay(_, _, _) => TornPay(c.native, op);
    case CutOff(inner) => TornEscrow(c, inner);
    case ReplayRecord(_, _, _, _) =>
    case Adopt =>
    case Restart(_) =>
    case Burn(_, _, _) => TornPayout(c.native, op);
    case Unlock(_, _, _) => TornPayout(c.native, op);
  }

  /** Every move changes the surplus by exactly its gain less its loss. */
  lemma MoveSurplus(c: Chains, move: Move)
    requires WellFormed(c) && Allowed(c, move)
    ensures WellFormed(Moved(c, move))
    ensures Surplus(Moved(c, move)) == Surplus(c) + Gain(c, move) - Loss(c, move)
  {
    match move
    case Mint(id) => MintKeepsSurplus(c, id);
    case BurnWrapped(b) => BurnKeepsSurplus(c, b);
    case Native(step) => NativeSurplus(c, step);
  }

  lemma NativeSurplus(c: Chains, step: Step)
    requires WellFormed(c) && Honest(c, step)
    ensures var move := Native(step);
            WellFormed(Moved(c, move)) && Surplus(Moved(c, move)) == Surplus(c) + Gain(c, move) - Loss(c, move)
  {
    match step
    case DirectLock(from, recipient, amount) => DirectLockSurplus(c, from, recipient, amount);
    case EngineLock(nonce, from, recipient, amount) => EngineLockSurplus(c, nonce, from, recipient, amount);
    case Burn(_, _, _) => ReleaseStepSurplus(c, step);
    case Unlock(_, _, _) => ReleaseStepSurplus(c, step);
    case Pay(_, _, _) => BalancesOnly(c, step, step);
    case CutOff(op) => BalancesOnly(c, step, op);
    case ReplayRecord(_, _, _, _) =>
    case Adopt => SameClaims(c, Moved(c, Native(step)));
    case Restart(_) => SameClaims(c, Moved(c, Native(step)));
  }

  /** Moves that touch nothing but balances. */
  lemma BalancesOnly(c: Chains, step: Step, op: Step)
    requires WellFormed(c) && Honest(c, op) && (step == CutOff(op) || (step == op && op.Pay?))
    ensures var c' := Moved(c, Native(step));
            WellFormed(c') && Surplus(c') == Surplus(c) + TornGain(c.native, op) - TornLoss(c.native, op)
  {
    TornEscrow(c, op);
    SameClaims(c, Moved(c, Native(step)));
  }

  // ---------------------------------------------------------------- whole runs

  function After(c: Chains, moves: seq<Move>): Chains
    decreases moves
  {
    if moves == [] then c else After(Moved(c, moves[0]), moves[1..])
  }

  predicate AllAllowed(c: Chains, moves: seq<Move>)
    decreases moves
  {
    moves != [] ==> Allowed(c, moves[0]) && AllAllowed(Moved(c, moves[0]), moves[1..])
  }

  function Gained(c: Chains, moves: seq<Move>): nat
    decreases moves
  {
    if moves == [] then 0 else Gain(c, moves[0]) + Gained(Moved(c, moves[0]), moves[1..])
  }

  function Lost(c: Chains, moves: seq<Move>): nat
    decreases moves
  {
    if moves == [] then 0 else Loss(c, moves[0]) + Lost(Moved(c, moves[0]), moves[1..])
  }

  /** Over any run, with operations cut off anywhere: the surplus has moved by what was
      gained less what torn releases paid, so the claims are still covered exactly when
      the surplus and the gains could bear the losses. */
  lemma {:induction false} BackedIffLossesBorne(c: Chains, moves: seq<Move>)
    requires WellFormed(c) && AllAllowed(c, moves)
    ensures WellFormed(After(c, moves))
    ensures Surplus(After(c, moves)) == Surplus(c) + Gained(c, moves) - Lost(c, moves)
    ensures FullyBacked(After(c, moves)) <==> Lost(c, moves) <= Surplus(c) + Gained(c, moves)
    decreases moves
  {
    if moves != [] {
      MoveSurplus(c, moves[0]);
      BackedIffLossesBorne(Moved(c, moves[0]), moves[1..]);
    }
  }

  /** So without a torn release, in every reachable state 10^9 times the escrow covers
      the wrapped supply, every burn not yet released and every lock not yet minted;
      and to the unit, when nothing was gained. */
  lemma EscrowCoversEveryClaim(c: Chains, moves: seq<Move>)
    requires FullyBacked(c) && AllAllowed(c, moves) && Lost(c, moves) == 0
    ensures var c' := After(c, moves);
            var claims := c'.supply + Sum(Pending(c')) + Sum(Unminted(c'));
            && FullyBacked(c') && ERC20_PER_NATIVE * Escrow(c'.native) >= claims
            && (ERC20_PER_NATIVE * Escrow(c'.native) == claims + Surplus(c) <==> Gained(c, moves) == 0)
  {
    BackedIffLossesBorne(c, moves);
  }

  /** The native side of a run of both chains. */
  function NativeSteps(moves: seq<Move>): seq<Step> {
    if moves == [] then []
    else (if moves[0].Native? then [moves[0].step] else []) + NativeSteps(moves[1..])
  }

  /** On the native side it is a run of the bridge. */
  lemma {:induction false} NativeRun(c: Chains, moves: seq<Move>)
    ensures After(c, moves).native == Run(c.native, NativeSteps(moves))
    decreases moves
  {
    if moves != [] {
      var rest := NativeSteps(moves[1..]);
      NativeRun(Moved(c, moves[0]), moves[1..]);
      if moves[0].Native? {
        assert ([moves[0].step] + rest)[1..] == rest;
      } else {
        assert [] + rest == rest;
      }
    }
  }

  /** A log once written stays. */
  lemma {:induction false} BurnedOnlyGrows(c: Chains, moves: seq<Move>, id: bytes)
    requires id in c.burned
    ensures id in After(c, moves).burned && After(c, moves).burned[id] == c.burned[id]
    decreases moves
  {
    if moves != [] { BurnedOnlyGrows(Moved(c, moves[0]), moves[1..], id); }
  }

  lemma {:induction false} HonestCarries(c: Chains, step: Step, id: bytes, b: EthBurn, native: uint64)
    requires Honest(c, step)
    requires id in c.burned ==> c.burned[id] == b
    requires b.amount == native * ERC20_PER_NATIVE
    ensures Carries(step, HashOf(id), native) && Names(step, HashOf(id), Payee(b))
    decreases step
  {
    if step.CutOff? { HonestCarries(c, step.op, id, b, native); }
  }

  lemma {:induction false} RunCarries(c: Chains, moves: seq<Move>, id: bytes, b: EthBurn, native: uint64)
    requires AllAllowed(c, moves)
    requires id in After(c, moves).burned && After(c, moves).burned[id] == b
    requires b.amount == native * ERC20_PER_NATIVE
    ensures AllCarry(NativeSteps(moves), HashOf(id), native) && AllName(NativeSteps(moves), HashOf(id), Payee(b))
    decreases moves
  {
    if moves != [] {
      RunCarries(Moved(c, moves[0]), moves[1..], id, b, native);
      if id in c.burned { BurnedOnlyGrows(c, moves, id); }
      if moves[0].Native? { HonestCarries(c, moves[0].step, id, b, native); }
    }
  }

  /** What leaves escrow for a burn the other chain logged goes to the account its log
      names and is the amount it logged, once for the marker and once more for every
      release of it that was cut off, through whatever both chains do in between. */
  lemma LoggedBurnPaidOncePerCommit(c: Chains, moves: seq<Move>, id: bytes, native: uint64)
    requires AllAllowed(c, moves)
    requires id in After(c, moves).burned && After(c, moves).burned[id].amount == native * ERC20_PER_NATIVE
    ensures After(c, moves).native == Run(c.native, NativeSteps(moves))
    ensures PaidPerCommit(c.native, NativeSteps(moves), HashOf(id), Payee(After(c, moves).burned[id]), native)
  {
    NativeRun(c, moves);
    RunCarries(c, moves, id, After(c, moves).burned[id], native);
    CarriedIsPaid(c.native, NativeSteps(moves), HashOf(id), Payee(After(c, moves).burned[id]), native);
  }

  ghost predicate PaidPerCommit(s: State, steps: seq<Step>, h: BurnHash, to: Account, native: nat) {
    var times := TornFor(s, steps, h) + Marked(s, steps, h);
    PaidFor(s, steps, h) == native * times && PaymentsFor(s, steps, h) == Copies(Payment(h, to, native), times)
  }

  lemma CarriedIsPaid(s: State, steps: seq<Step>, h: BurnHash, to: Account, native: nat)
    requires AllCarry(steps, h, native) && AllName(steps, h, to)
    ensures PaidPerCommit(s, steps, h, to, native)
  {
    PaidOncePerCommit(s, steps, h, native);
    PaymentsAreCopies(s, steps, h, to, native);
  }

  /** No release pays and is then cut off. */
  predicate NoneTorn(c: Chains, moves: seq<Move>)
    decreases moves
  {
    moves != [] ==> !TornPays(c, moves[0]) && NoneTorn(Moved(c, moves[0]), moves[1..])
  }

  predicate TornPays(c: Chains, move: Move) {
    move.Native? && move.step.CutOff? && Payout(c.native, move.step).Some?
  }

  lemma {:induction false} NoneTornLosesNothing(c: Chains, moves: seq<Move>, h: BurnHash)
    requires NoneTorn(c, moves)
    ensures Lost(c, moves) == 0 && TornFor(c.native, NativeSteps(moves), h) == 0
    decreases moves
  {
    if moves != [] {
      var rest := NativeSteps(moves[1..]);
      NoneTornLosesNothing(Moved(c, moves[0]), moves[1..], h);
      if moves[0].Native? {
        assert ([moves[0].step] + rest)[1..] == rest;
      } else {
        assert [] + rest == rest;
      }
    }
  }

  /** A relaunch: escrow carried over in the genesis, against at most as much wrapped
      supply still held on the other chain. */
  lemma GenesisIsFullyBacked(opening: Balances, supply: nat, mintCap: nat, consensusOrdered: bool)
    requires Sum(opening) < TWO_64
    ensures var c := Chains(AdoptStep(State(opening, 0, 0, 0, map[], map[], consensusOrdered)),
                            {}, supply, mintCap, map[]);
            && Surplus(c) == ERC20_PER_NATIVE * BalanceOf(opening, ESCROW) - supply
            && (FullyBacked(c) <==> supply <= ERC20_PER_NATIVE * BalanceOf(opening, ESCROW))
  {
    var c := Chains(AdoptStep(State(opening, 0, 0, 0, map[], map[], consensusOrdered)),
                    {}, supply, mintCap, map[]);
    assert Pending(c) == map[] && Unminted(c) == map[];
  }

  /** In a backed state the release of an unreleased burn never fails for lack of
      escrow: whichever route the node is on accepts it exactly when the burn names a
      recipient. Its log can be read at all exactly when that has no NUL byte. */
  lemma GenuineBurnReleases(c: Chains, burnId: bytes)
    requires FullyBacked(c) && burnId in c.burned && HashOf(burnId) !in c.native.burns
    ensures var b := c.burned[burnId];
            var (to, native) := (Payee(b), b.amount / ERC20_PER_NATIVE);
            && native < TWO_64 && b.amount <= ERC20_PER_NATIVE * Escrow(c.native)
            && (Honest(c, Burn(burnId, to, Some(b.amount))) <==> 0 !in b.recipient)
            && (Honest(c, Unlock(HashOf(burnId), to, native)) <==> 0 !in b.recipient)
            && (!c.native.consensusOrdered ==>
                  (BurnAccepted(c.native, burnId, to, Some(b.amount)) <==> b.recipient != []))
            && (c.native.consensusOrdered ==>
                  (UnlockAccepted(c.native, HashOf(burnId), to, native) <==> b.recipient != []))
  {
    assert burnId in Pending(c);
    SumBounds(Pending(c), burnId);
    if ESCROW in c.native.balances { SumBounds(c.native.balances, ESCROW); }
    L.NormalizedIsNamed(c.burned[burnId].recipient);
  }
}
