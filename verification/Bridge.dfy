/** The native side of the lock-and-mint bridge (internal/bridge/bridge.go).

    Every operation has a specification function on `State`, and the class below
    carries the source's own fields and early returns and is proved equal to it.

    An operation that moves value commits twice: the ledger commits the transfer,
    and then the bridge commits its own batch. `Torn` is the store when the second
    commit is missing, because the process died or the store refused it. */
module Bridge {
  import opened Bytes
  import opened Options
  import opened NativeLedger
  import opened LockIds

  /** "bridge/escrow" */
  const ESCROW: Account := [98, 114, 105, 100, 103, 101, 47, 101, 115, 99, 114, 111, 119]
  /** 100 whole MATRIX. */
  const MIN_LOCK: nat := 100_000_000_000
  const ERC20_PER_NATIVE: nat := 1_000_000_000

  /** The hex sha256 of a burn id; the consensus path may also hand over "". */
  datatype BurnHash = NoHash | HashOf(burnId: bytes)

  datatype LockEvent = LockEvent(id: Digest, lockSeq: nat, from: Account, recipient: Address, amount: nat)

  datatype Marker =
    | DirectBurn(burnId: bytes, directTo: Account, erc20: int)
    | AttestedUnlock(hash: BurnHash, attestedTo: Account, native: nat)

  datatype Error =
    | ZeroAmount | BelowMinimum | InvalidAccount | LockedOverflow | InsufficientFunds
    | EmptyId | Conversion | AlreadyProcessed | ConsensusOrdered | NotConsensusOrdered
    | UnlockedExceedsLocked | EscrowMismatch | StoreFailed

  datatype Result<+T> = Ok(value: T) | Err(error: Error)

  datatype Reconciliation = Reconciliation(
    locked: nat, unlocked: nat, outstanding: nat, escrow: nat, outstandingErc20: nat)

  /** Everything the bridge keeps durably, and its release mode. */
  datatype State = State(
    balances: Balances,
    lockSeq: nat,
    locked: nat,
    unlocked: nat,
    locks: map<Digest, LockEvent>,
    burns: map<BurnHash, Marker>,
    consensusOrdered: bool)

  function Escrow(s: State): nat { BalanceOf(s.balances, ESCROW) }

  /** token.ERC20ToNative; None stands for a nil amount. */
  function Erc20ToNative(erc20: Option<int>): (r: Option<nat>)
    ensures r.Some? <==> erc20.Some? && 0 <= erc20.value < TWO_64 * ERC20_PER_NATIVE
                         && erc20.value % ERC20_PER_NATIVE == 0
    ensures r.Some? ==> r.value < TWO_64 && r.value * ERC20_PER_NATIVE == erc20.value
  {
    if erc20.None? || erc20.value < 0 then None
    else if erc20.value % ERC20_PER_NATIVE != 0 then None
    else if erc20.value / ERC20_PER_NATIVE >= TWO_64 then None
    else Some(erc20.value / ERC20_PER_NATIVE)
  }

  // ---------------------------------------------------------------- steps

  function LockStep(s: State, from: Account, recipient: Address, amount: uint64): (State, Result<LockEvent>) {
    if amount == 0 then (s, Err(ZeroAmount))
    else if amount < MIN_LOCK then (s, Err(BelowMinimum))
    else if from == [] then (s, Err(InvalidAccount))
    else if s.locked > TWO_64 - 1 - amount then (s, Err(LockedOverflow))
    else match Transferred(s.balances, from, ESCROW, amount)
      case None => (s, Err(InsufficientFunds))
      case Some(b) =>
        var n := (s.lockSeq + 1) % TWO_64;
        var ev := LockEvent(DeriveLockId(n, from, recipient, amount), n, from, recipient, amount);
        (s.(balances := b, lockSeq := n, locked := s.locked + amount, locks := s.locks[ev.id := ev]), Ok(ev))
  }

  function RecordLockStep(s: State, id: Digest, from: Account, recipient: Address, amount: uint64)
    : (State, Result<()>)
  {
    if amount == 0 then (s, Err(ZeroAmount))
    else if amount < MIN_LOCK then (s, Err(BelowMinimum))
    else if id in s.locks then (s, Ok(()))
    else if s.locked > TWO_64 - 1 - amount then (s, Err(LockedOverflow))
    else (s.(locked := s.locked + amount, locks := s.locks[id := LockEvent(id, 0, from, recipient, amount)]), Ok(()))
  }

  /** consensus.applyBridgeLock: move the value, then record it; a failed record
      is printed and the block goes on. Ok(false) is an unaffordable lock. */
  function EngineLockStep(s: State, nonce: uint64, from: Account, recipient: Address, amount: uint64): (State, bool) {
    match Transferred(s.balances, from, ESCROW, amount)
    case None => (s, false)
    case Some(b) =>
      (RecordLockStep(s.(balances := b), DeriveLockId(nonce, from, recipient, amount), from, recipient, amount).0, true)
  }

  function ReleaseStep(s: State, hash: BurnHash, to: Account, native: uint64, marker: Marker): (State, Result<()>) {
    if hash in s.burns then (s, Err(AlreadyProcessed))
    else match Transferred(s.balances, ESCROW, to, native)
      case None => (s, Err(InsufficientFunds))
      case Some(b) =>
        (s.(balances := b, burns := s.burns[hash := marker], unlocked := (s.unlocked + native) % TWO_64), Ok(()))
  }

  function ProcessBurnStep(s: State, burnId: bytes, to: Account, erc20: Option<int>): (State, Result<()>) {
    if burnId == [] then (s, Err(EmptyId))
    else if to == [] then (s, Err(InvalidAccount))
    else match Erc20ToNative(erc20)
      case None => (s, Err(Conversion))
      case Some(native) =>
        if native == 0 then (s, Err(ZeroAmount))
        else if s.consensusOrdered then (s, Err(ConsensusOrdered))
        else ReleaseStep(s, HashOf(burnId), to, native, DirectBurn(burnId, to, erc20.value))
  }

  function AttestedUnlockStep(s: State, hash: BurnHash, to: Account, native: uint64): (State, Result<()>) {
    if !s.consensusOrdered then (s, Err(NotConsensusOrdered))
    else if hash == NoHash then (s, Err(EmptyId))
    else if to == [] then (s, Err(InvalidAccount))
    else if native == 0 then (s, Err(ZeroAmount))
    else ReleaseStep(s, hash, to, native, AttestedUnlock(hash, to, native))
  }

  /** A chain with escrow and no history takes the balance as its opening total. */
  function AdoptStep(s: State): State {
    if s.locked != 0 || s.unlocked != 0 then s else s.(locked := Escrow(s))
  }

  function ReconcileStep(s: State): Result<Reconciliation> {
    if s.unlocked > s.locked then Err(UnlockedExceedsLocked)
    else if Escrow(s) != s.locked - s.unlocked then Err(EscrowMismatch)
    else Ok(Reconciliation(s.locked, s.unlocked, s.locked - s.unlocked, Escrow(s),
                           (s.locked - s.unlocked) * ERC20_PER_NATIVE))
  }

  /** An operation cut off after the ledger's commit: value moved, nothing recorded. */
  function Torn(s: State, whole: State): State { s.(balances := whole.balances) }

  /** What the caller of such an operation is left with, when the process lives on. */
  function TornResult<T>(s: State, whole: (State, Result<T>)): (State, Result<T>) {
    (Torn(s, whole.0), if whole.1.Ok? then Err(StoreFailed) else whole.1)
  }

  // ---------------------------------------------------------------- the object

  /** In every method `commits` says whether the bridge's own batch commits, once it
      gets that far. */

  class Bridge {
    const ledger: Ledger
    const consensusOrdered: bool
    var lockSeq: nat
    var locked: nat
    var unlocked: nat
    var locks: map<Digest, LockEvent>
    var burns: map<BurnHash, Marker>

    /** A bridge opened over what an earlier process left in the store, in the
        mode this process was configured with. */
    constructor (ledger: Ledger, stored: State, consensusOrdered: bool)
      requires stored.balances == ledger.balances
      ensures this.ledger == ledger
      ensures View() == stored.(consensusOrdered := consensusOrdered)
    {
      this.ledger, this.consensusOrdered := ledger, consensusOrdered;
      lockSeq, locked, unlocked := stored.lockSeq, stored.locked, stored.unlocked;
      locks, burns := stored.locks, stored.burns;
    }

    ghost function View(): State
      reads this, ledger
    {
      State(ledger.balances, lockSeq, locked, unlocked, locks, burns, consensusOrdered)
    }

    method Lock(from: Account, recipient: Address, amount: uint64, commits: bool) returns (r: Result<LockEvent>)
      modifies this, ledger
      ensures var whole := LockStep(old(View()), from, recipient, amount);
              (View(), r) == if commits then whole else TornResult(old(View()), whole)
      ensures lockSeq == if r.Ok? then (old(lockSeq) + 1) % TWO_64 else old(lockSeq)
    {
      if amount == 0 { return Err(ZeroAmount); }
      if amount < MIN_LOCK { return Err(BelowMinimum); }
      if from == [] { return Err(InvalidAccount); }
      if locked > TWO_64 - 1 - amount { return Err(LockedOverflow); }
      var moved := ledger.Transfer(from, ESCROW, amount);
      if !moved { return Err(InsufficientFunds); }
      var n := (lockSeq + 1) % TWO_64;
      var event := LockEvent(DeriveLockId(n, from, recipient, amount), n, from, recipient, amount);
      if !commits { return Err(StoreFailed); }
      lockSeq := n;
      locks := locks[event.id := event];
      locked := locked + amount;
      return Ok(event);
    }

    /** One commit only, so without it nothing happens at all. */
    method RecordLock(id: Digest, from: Account, recipient: Address, amount: uint64, commits: bool)
      returns (r: Result<()>)
      modifies this
      ensures commits ==> (View(), r) == RecordLockStep(old(View()), id, from, recipient, amount)
      ensures !commits ==> View() == old(View())
      ensures !commits ==> (r.Ok? <==> amount >= MIN_LOCK && id in old(locks))
    {
      if amount == 0 { return Err(ZeroAmount); }
      if amount < MIN_LOCK { return Err(BelowMinimum); }
      if id in locks { return Ok(()); }
      if locked > TWO_64 - 1 - amount { return Err(LockedOverflow); }
      if !commits { return Err(StoreFailed); }
      locks := locks[id := LockEvent(id, 0, from, recipient, amount)];
      locked := locked + amount;
      return Ok(());
    }

    method ReleaseLocked(hash: BurnHash, to: Account, native: uint64, marker: Marker, commits: bool)
      returns (r: Result<()>)
      modifies this, ledger
      ensures var whole := ReleaseStep(old(View()), hash, to, native, marker);
              (View(), r) == if commits then whole else TornResult(old(View()), whole)
    {
      if hash in burns { return Err(AlreadyProcessed); }
      var moved := ledger.Transfer(ESCROW, to, native);
      if !moved { return Err(InsufficientFunds); }
      if !commits { return Err(StoreFailed); }
      burns := burns[hash := marker];
      unlocked := (unlocked + native) % TWO_64;
      return Ok(());
    }

    method ProcessBurn(burnId: bytes, to: Account, erc20: Option<int>, commits: bool) returns (r: Result<()>)
      modifies this, ledger
      ensures var whole := ProcessBurnStep(old(View()), burnId, to, erc20);
              (View(), r) == if commits then whole else TornResult(old(View()), whole)
    {
      if burnId == [] { return Err(EmptyId); }
      if to == [] { return Err(InvalidAccount); }
      var native := Erc20ToNative(erc20);
      if native.None? { return Err(Conversion); }
      if native.value == 0 { return Err(ZeroAmount); }
      if consensusOrdered { return Err(ConsensusOrdered); }
      r := ReleaseLocked(HashOf(burnId), to, native.value, DirectBurn(burnId, to, erc20.value), commits);
    }

    method ApplyAttestedUnlock(hash: BurnHash, to: Account, native: uint64, commits: bool) returns (r: Result<()>)
      modifies this, ledger
      ensures var whole := AttestedUnlockStep(old(View()), hash, to, native);
              (View(), r) == if commits then whole else TornResult(old(View()), whole)
    {
      if !consensusOrdered { return Err(NotConsensusOrdered); }
      if hash == NoHash { return Err(EmptyId); }
      if to == [] { return Err(InvalidAccount); }
      if native == 0 { return Err(ZeroAmount); }
      r := ReleaseLocked(hash, to, native, AttestedUnlock(hash, to, native), commits);
    }

    method AdoptGenesisEscrow()
      modifies this
      ensures View() == AdoptStep(old(View()))
    {
      if locked != 0 || unlocked != 0 { return; }
      var escrow := BalanceOf(ledger.balances, ESCROW);
      if escrow == 0 { return; }
      locked := escrow;
    }

    method Reconcile() returns (r: Result<Reconciliation>)
      ensures r == ReconcileStep(View())
    {
      var escrow := BalanceOf(ledger.balances, ESCROW);
      if unlocked > locked { return Err(UnlockedExceedsLocked); }
      var outstanding := locked - unlocked;
      if escrow != outstanding { return Err(EscrowMismatch); }
      return Ok(Reconciliation(locked, unlocked, outstanding, escrow, outstanding * ERC20_PER_NATIVE));
    }
  }

  /** consensus.applyBridgeLock on a node with a bridge: the escrow move, then the
      record, whose failure is only reported. */
  method ApplyBridgeLock(
      bridge: Bridge, nonce: uint64, from: Account, recipient: Address, amount: uint64, commits: bool)
    returns (moved: bool)
    modifies bridge, bridge.ledger
    ensures var whole := EngineLockStep(old(bridge.View()), nonce, from, recipient, amount);
            && moved == whole.1
            && bridge.View() == if commits then whole.0 else Torn(old(bridge.View()), whole.0)
  {
    moved := bridge.ledger.Transfer(from, ESCROW, amount);
    if !moved { return; }
    var recorded := bridge.RecordLock(DeriveLockId(nonce, from, recipient, amount), from, recipient, amount, commits);
  }
}
