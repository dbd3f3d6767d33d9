/** The relayer, the bridge it drives and the other chain together: passes of the
    watcher in any mixture with locks, payments, mints, burns, unlocks and restarts,
    releases cut off between their two commits included. */
module Schedules {
  import opened Bytes
  import opened Options
  import opened NativeLedger
  import opened Bridge
  import opened BridgeRuns
  import opened Backing
  import opened Scan
  import L = BurnLog
  import W = Watcher

  datatype System = System(chains: Chains, next: nat, saved: nat)

  datatype Happening = Relayed(e: W.Event) | Elsewhere(move: Move)

  function WorldOf(sys: System): W.World { W.World(sys.chains.native, sys.next, sys.saved) }

  /** The log is one WrappedMatrix emitted, for the burn it recorded. */
  ghost predicate Emitted(c: Chains, log: L.EthLog) {
    var id := L.LogId(log.txHash, log.logIndex);
    id in c.burned && Burnable(c.burned[id]) && log == LogOf(c.burned[id])
  }

  ghost predicate AllEmitted(c: Chains, logs: seq<L.EthLog>) { forall log :: log in logs ==> Emitted(c, log) }

  /** A claim is a burn the other chain has logged, for the recipient and the worth it
      was logged with, and names somebody. */
  predicate Genuine(c: Chains, claim: Option<Claim>) {
    claim.Some? ==>
      && claim.value.to != []
      && Observed(c, claim.value.burnId, claim.value.to, claim.value.native * ERC20_PER_NATIVE)
  }

  /** What a log the contract emitted claims is the burn it recorded. */
  lemma EmittedIsGenuine(c: Chains, log: L.EthLog)
    requires Emitted(c, log)
    ensures Genuine(c, W.ClaimOf(log))
    ensures W.ClaimOf(log).Some? ==> W.ClaimOf(log).value.burnId == L.LogId(log.txHash, log.logIndex)
  {
    var b := c.burned[L.LogId(log.txHash, log.logIndex)];
    W.ClaimOfEmitted(b.burner, b.recipient, b.amount, b.txHash, b.logIndex);
    L.NormalizedIsNamed(b.recipient);
  }

  lemma EmittedAreGenuine(chain: W.Chain, c: Chains, a: nat, next: nat, spanEnd: nat, partial: nat)
    requires a <= next <= spanEnd && AllEmitted(c, W.LogsIn(chain, a, spanEnd))
    requires partial <= |W.ClaimsIn(chain, next, spanEnd)|
    ensures AllGenuine(c, W.VisitedIn(chain, a, next, spanEnd, partial))
  {
    W.LogsInSplit(chain, a, next, spanEnd);
    forall claim | claim in W.VisitedIn(chain, a, next, spanEnd, partial) ensures Genuine(c, claim) {
      if claim in W.ClaimsIn(chain, a, next) {
        ClaimedIsGenuine(c, W.LogsIn(chain, a, next), claim);
      } else {
        ClaimedIsGenuine(c, W.LogsIn(chain, next, spanEnd), claim);
      }
    }
  }

  lemma ClaimedIsGenuine(c: Chains, logs: seq<L.EthLog>, claim: Option<Claim>)
    requires AllEmitted(c, logs) && claim in W.Map(W.ClaimOf, logs)
    ensures Genuine(c, claim)
  {
    var i :| 0 <= i < |logs| && W.Map(W.ClaimOf, logs)[i] == claim;
    assert logs[i] in logs;
    EmittedIsGenuine(c, logs[i]);
  }

  ghost predicate AllGenuine(c: Chains, cs: Claims) { forall claim :: claim in cs ==> Genuine(c, claim) }

  /** The claims a pass visits, and the moves it makes of them. */
  ghost function Visits(chain: W.Chain, sys: System, e: W.Event): Claims
    requires e.Polled? ==> e.partial <= |W.ClaimsIn(chain, e.next, e.spanEnd)|
  {
    if e.Polled? then W.VisitedIn(chain, sys.next, e.next, e.spanEnd, e.partial) else []
  }

  function ClaimStep(c: Claim): Step { Burn(c.burnId, c.to, Some(c.native * ERC20_PER_NATIVE)) }

  function VisitMove(c: Claim, commits: bool): Move {
    Native(if commits then ClaimStep(c) else CutOff(ClaimStep(c)))
  }

  function VisitMoves(cs: Claims, at: nat, commits: nat -> bool): seq<Move> {
    if cs == [] then []
    else
      var n := |cs| - 1;
      VisitMoves(cs[..n], at, commits)
      + if cs[n].None? then [] else [VisitMove(cs[n].value, commits(at + n))]
  }

  /** What the relayer is handed are logs of burns the other chain recorded. */
  ghost predicate Possible(chain: W.Chain, span: nat, sys: System, h: Happening) {
    match h
    case Elsewhere(move) => Allowed(sys.chains, move)
    case Relayed(e) =>
      e.Polled? ==>
        && W.Possible(chain, span, e.spanEnd, WorldOf(sys), e)
        && AllEmitted(sys.chains, W.LogsIn(chain, sys.next, e.spanEnd))
  }

  ghost function Next(chain: W.Chain, start: nat, sys: System, h: Happening): System
    requires h.Relayed? && h.e.Polled? ==> h.e.partial <= |W.ClaimsIn(chain, h.e.next, h.e.spanEnd)|
  {
    match h
    case Elsewhere(move) => sys.(chains := Moved(sys.chains, move))
    case Relayed(e) =>
      var w := W.After(chain, start, WorldOf(sys), e);
      System(sys.chains.(native := w.bridge), w.next, w.saved)
  }

  ghost function MovesOf(chain: W.Chain, sys: System, h: Happening): seq<Move>
    requires h.Relayed? && h.e.Polled? ==> h.e.partial <= |W.ClaimsIn(chain, h.e.next, h.e.spanEnd)|
  {
    match h
    case Elsewhere(move) => [move]
    case Relayed(e) => if e.Polled? then VisitMoves(Visits(chain, sys, e), 0, e.commits) else []
  }

  ghost predicate PossibleRun(chain: W.Chain, span: nat, start: nat, sys: System, hs: seq<Happening>)
    decreases hs
  {
    hs != [] ==>
      Possible(chain, span, sys, hs[0]) && PossibleRun(chain, span, start, Next(chain, start, sys, hs[0]), hs[1..])
  }

  ghost function Outcome(chain: W.Chain, span: nat, start: nat, sys: System, hs: seq<Happening>): System
    requires PossibleRun(chain, span, start, sys, hs)
    decreases hs
  {
    if hs == [] then sys else Outcome(chain, span, start, Next(chain, start, sys, hs[0]), hs[1..])
  }

  ghost function AllMoves(chain: W.Chain, span: nat, start: nat, sys: System, hs: seq<Happening>): seq<Move>
    requires PossibleRun(chain, span, start, sys, hs)
    decreases hs
  {
    if hs == [] then []
    else MovesOf(chain, sys, hs[0]) + AllMoves(chain, span, start, Next(chain, start, sys, hs[0]), hs[1..])
  }

  // ---------------------------------------------------------------- a schedule is a run of both chains

  lemma GenuinePart(c: Chains, cs: Claims, n: nat)
    requires AllGenuine(c, cs) && n < |cs|
    ensures AllGenuine(c, cs[..n]) && Genuine(c, cs[n])
  {
    assert cs[n] in cs;
  }

  lemma GenuineStays(c: Chains, s: State, claim: Option<Claim>)
    requires Genuine(c, claim)
    ensures Genuine(c.(native := s), claim)
  {
  }

  lemma {:induction false} AfterConcat(c: Chains, a: seq<Move>, b: seq<Move>)
    ensures After(c, a + b) == After(After(c, a), b)
    ensures AllAllowed(c, a) && AllAllowed(After(c, a), b) ==> AllAllowed(c, a + b)
    ensures NoneTorn(c, a) && NoneTorn(After(c, a), b) ==> NoneTorn(c, a + b)
    decreases a
  {
    if a == [] {
      assert a + b == b;
    } else {
      AfterConcat(Moved(c, a[0]), a[1..], b);
      assert (a + b)[1..] == a[1..] + b;
    }
  }

  lemma AfterOne(c: Chains, move: Move)
    ensures After(c, [move]) == Moved(c, move)
    ensures Allowed(c, move) ==> AllAllowed(c, [move])
    ensures !TornPays(c, move) ==> NoneTorn(c, [move])
  {
    assert [move][1..] == [];
  }

  lemma AfterSnoc(c: Chains, before: seq<Move>, move: Move)
    ensures After(c, before + [move]) == Moved(After(c, before), move)
    ensures AllAllowed(c, before) && Allowed(After(c, before), move) ==> AllAllowed(c, before + [move])
    ensures NoneTorn(c, before) && !TornPays(After(c, before), move) ==> NoneTorn(c, before + [move])
  {
    AfterOne(After(c, before), move);
    AfterConcat(c, before, [move]);
  }

  predicate Solid(claim: Option<Claim>) {
    claim.Some? ==> claim.value.burnId != [] && claim.value.to != [] && claim.value.native > 0
  }

  lemma GenuineIsSolid(c: Chains, claim: Option<Claim>)
    requires WellFormed(c) && Genuine(c, claim)
    ensures Solid(claim)
  {
  }

  lemma ClaimIsABurnStep(s: State, claim: Claim)
    requires Solid(Some(claim))
    ensures ApplyClaim(s, Some(claim)) == Apply(s, ClaimStep(claim))
  {
    assert Erc20ToNative(Some(claim.native * ERC20_PER_NATIVE)) == Some(claim.native);
  }

  lemma VisitIsABurn(c: Chains, claim: Claim, commits: bool)
    requires Solid(Some(claim))
    ensures Moved(c, VisitMove(claim, commits)) == c.(native := ApplyVisit(c.native, Some(claim), commits))
  {
    ClaimIsABurnStep(c.native, claim);
  }

  lemma {:induction false} VisitsAreBurns(c: Chains, cs: Claims, at: nat, commits: nat -> bool)
    requires forall claim :: claim in cs ==> Solid(claim)
    ensures After(c, VisitMoves(cs, at, commits)) == c.(native := Visited(c.native, cs, at, commits))
  {
    if cs != [] {
      var n := |cs| - 1;
      var before := VisitMoves(cs[..n], at, commits);
      VisitsAreBurns(c, cs[..n], at, commits);
      assert cs[n] in cs;
      if cs[n].Some? {
        VisitIsABurn(After(c, before), cs[n].value, commits(at + n));
        AfterSnoc(c, before, VisitMove(cs[n].value, commits(at + n)));
      } else {
        assert before + [] == before;
      }
    }
  }

  lemma GenuineIsAllowed(c: Chains, claim: Claim, commits: bool)
    requires Genuine(c, Some(claim))
    ensures Allowed(c, VisitMove(claim, commits))
  {
  }

  lemma VisitAllowed(c: Chains, before: seq<Move>, all: seq<Move>, s: State, claim: Claim, commits: bool)
    requires AllAllowed(c, before) && After(c, before) == c.(native := s) && Genuine(c, Some(claim))
    requires all == before + [VisitMove(claim, commits)]
    ensures AllAllowed(c, all)
  {
    GenuineStays(c, s, Some(claim));
    GenuineIsAllowed(c.(native := s), claim, commits);
    AfterSnoc(c, before, VisitMove(claim, commits));
  }

  lemma {:induction false} VisitsAreAllowed(c: Chains, cs: Claims, at: nat, commits: nat -> bool)
    requires AllGenuine(c, cs) && forall claim :: claim in cs ==> Solid(claim)
    ensures AllAllowed(c, VisitMoves(cs, at, commits))
  {
    if cs != [] {
      var n := |cs| - 1;
      var before, all := VisitMoves(cs[..n], at, commits), VisitMoves(cs, at, commits);
      GenuinePart(c, cs, n);
      VisitsAreAllowed(c, cs[..n], at, commits);
      VisitsAreBurns(c, cs[..n], at, commits);
      if cs[n].Some? {
        VisitAllowed(c, before, all, After(c, before).native, cs[n].value, commits(at + n));
      } else {
        assert all == before;
      }
    }
  }

  lemma VisitsAreMoves(c: Chains, cs: Claims, at: nat, commits: nat -> bool)
    requires WellFormed(c) && AllGenuine(c, cs)
    ensures var moves := VisitMoves(cs, at, commits);
            AllAllowed(c, moves) && After(c, moves) == c.(native := Visited(c.native, cs, at, commits))
  {
    forall claim | claim in cs ensures Solid(claim) { GenuineIsSolid(c, claim); }
    VisitsAreBurns(c, cs, at, commits);
    VisitsAreAllowed(c, cs, at, commits);
  }

  lemma HappeningIsMoves(chain: W.Chain, span: nat, start: nat, sys: System, h: Happening)
    requires WellFormed(sys.chains) && Possible(chain, span, sys, h)
    ensures var moves := MovesOf(chain, sys, h);
            && AllAllowed(sys.chains, moves)
            && Next(chain, start, sys, h).chains == After(sys.chains, moves)
            && WellFormed(Next(chain, start, sys, h).chains)
  {
    match h {
    case Elsewhere(move) => AfterOne(sys.chains, move);
    case Relayed(e) =>
      if e.Polled? {
        EmittedAreGenuine(chain, sys.chains, sys.next, e.next, e.spanEnd, e.partial);
        VisitsAreMoves(sys.chains, Visits(chain, sys, e), 0, e.commits);
      }
    }
    BackedIffLossesBorne(sys.chains, MovesOf(chain, sys, h));
  }

  /** Whatever the schedule, what the two chains went through is a run of both, with
      every release as a burn step, whole or cut off. */
  lemma {:induction false} ScheduleIsARun(chain: W.Chain, span: nat, start: nat, sys: System, hs: seq<Happening>)
    requires WellFormed(sys.chains) && PossibleRun(chain, span, start, sys, hs)
    ensures var moves := AllMoves(chain, span, start, sys, hs);
            && AllAllowed(sys.chains, moves)
            && Outcome(chain, span, start, sys, hs).chains == After(sys.chains, moves)
    decreases hs
  {
    if hs != [] {
      var sys' := Next(chain, start, sys, hs[0]);
      HappeningIsMoves(chain, span, start, sys, hs[0]);
      ScheduleIsARun(chain, span, start, sys', hs[1..]);
      AfterConcat(sys.chains, MovesOf(chain, sys, hs[0]), AllMoves(chain, span, start, sys', hs[1..]));
    }
  }

  // ---------------------------------------------------------------- no burn is skipped

  lemma BackedCoversClaim(c: Chains, claim: Claim)
    requires FullyBacked(c) && !c.native.consensusOrdered && Genuine(c, Some(claim))
    ensures Covers(c.native, Some(claim))
    ensures var c' := c.(native := ApplyClaim(c.native, Some(claim)));
            FullyBacked(c') && !c'.native.consensusOrdered
  {
    if Key(claim) !in c.native.burns { GenuineBurnReleases(c, claim.burnId); }
    GenuineIsSolid(c, Some(claim));
    ClaimIsABurnStep(c.native, claim);
    GenuineIsAllowed(c, claim, true);
    MoveSurplus(c, Native(ClaimStep(claim)));
  }

  /** A fully backed bridge covers every genuine claim in its turn, and an uncut pass
      leaves it fully backed. */
  lemma {:induction false} BackedCoversVisits(c: Chains, cs: Claims, at: nat, commits: nat -> bool)
    requires FullyBacked(c) && !c.native.consensusOrdered && AllGenuine(c, cs)
    requires cs != [] ==> AllCommit(at, |cs| - 1, commits)
    ensures CoveredVisits(c.native, cs, at, commits)
    ensures var c' := c.(native := Visited(c.native, cs, at, commits));
            && !c'.native.consensusOrdered
            && (AllCommit(at, |cs|, commits) ==> FullyBacked(c'))
  {
    if cs != [] {
      var n := |cs| - 1;
      GenuinePart(c, cs, n);
      BackedCoversVisits(c, cs[..n], at, commits);
      var mid, last := c.(native := Visited(c.native, cs[..n], at, commits)), cs[n];
      if last.Some? {
        GenuineStays(c, mid.native, last);
        BackedCoversClaim(mid, last.value);
      }
    }
  }

  /** What a pass needs to leave no burn behind: an escrow that backs every claim when it
      begins, a bridge that releases by itself, and no release cut off unless the process
      dies with it. */
  ghost predicate SoundPass(chain: W.Chain, sys: System, e: W.Event)
    requires e.Polled? ==> e.partial <= |W.ClaimsIn(chain, e.next, e.spanEnd)|
  {
    e.Polled? ==>
      && FullyBacked(sys.chains) && !sys.chains.native.consensusOrdered
      && AllCommit(0, |Visits(chain, sys, e)| - (if e.partial > 0 then 1 else 0), e.commits)
  }

  ghost predicate Sound(chain: W.Chain, span: nat, start: nat, sys: System, hs: seq<Happening>)
    requires PossibleRun(chain, span, start, sys, hs)
    decreases hs
  {
    hs != [] ==>
      && (hs[0].Relayed? ==> SoundPass(chain, sys, hs[0].e))
      && Sound(chain, span, start, Next(chain, start, sys, hs[0]), hs[1..])
  }

  /** The log's burn is on record, and marked if it can be paid at all. */
  ghost predicate Passed(c: Chains, log: L.EthLog) { Emitted(c, log) && Settled(c.native, W.ClaimOf(log)) }

  /** Every log below `high`, the furthest block the cursor ever stood at, is done. */
  ghost predicate SettledBelow(chain: W.Chain, start: nat, sys: System, high: nat) {
    && start <= sys.next <= high && sys.saved <= high
    && forall log :: log in W.LogsIn(chain, start, high) ==> Passed(sys.chains, log)
  }

  lemma {:induction false} SettledStays(c: Chains, moves: seq<Move>, claim: Option<Claim>)
    requires Settled(c.native, claim)
    ensures Settled(After(c, moves).native, claim)
    decreases moves
  {
    if moves != [] {
      if moves[0].Native? { ReleaseMarks(c.native, moves[0].step); }
      SettledStays(Moved(c, moves[0]), moves[1..], claim);
    }
  }

  lemma PassedStays(c: Chains, moves: seq<Move>, log: L.EthLog)
    requires Passed(c, log)
    ensures Passed(After(c, moves), log)
  {
    BurnedOnlyGrows(c, moves, L.LogId(log.txHash, log.logIndex));
    SettledStays(c, moves, W.ClaimOf(log));
  }

  lemma VisitIsSettled(c: Chains, cs: Claims, k: nat, commits: nat -> bool)
    requires FullyBacked(c) && !c.native.consensusOrdered && AllGenuine(c, cs)
    requires k < |cs| && commits(k) && AllCommit(0, |cs| - 1, commits)
    ensures Settled(Visited(c.native, cs, 0, commits), cs[k])
  {
    assert cs[k] in cs;
    if cs[k].Some? {
      var h := Key(cs[k].value);
      BackedCoversVisits(c, cs, 0, commits);
      VisitMarksIffCommitted(c.native, cs, h, 0, commits);
      assert CommittedVisit(cs, h, 0, commits) by { assert commits(0 + k); }
    }
  }

  /** The claims visited begin with those of the blocks the pass completed. */
  lemma VisitedLog(chain: W.Chain, a: nat, next: nat, spanEnd: nat, partial: nat, k: nat)
    requires a <= next <= spanEnd && partial <= |W.ClaimsIn(chain, next, spanEnd)|
    requires k < |W.LogsIn(chain, a, next)|
    ensures var (cs, log) := (W.VisitedIn(chain, a, next, spanEnd, partial), W.LogsIn(chain, a, next)[k]);
            && |cs| == |W.LogsIn(chain, a, next)| + partial && cs[k] == W.ClaimOf(log)
            && log in W.LogsIn(chain, a, spanEnd)
  {
    W.LogsInSplit(chain, a, next, spanEnd);
    assert W.LogsIn(chain, a, spanEnd)[k] == W.LogsIn(chain, a, next)[k];
  }

  lemma PassSettles(chain: W.Chain, span: nat, start: nat, sys: System, e: W.Event, k: nat)
    requires Possible(chain, span, sys, Relayed(e)) && e.Polled? && SoundPass(chain, sys, e)
    requires k < |W.LogsIn(chain, sys.next, e.next)|
    ensures Passed(Next(chain, start, sys, Relayed(e)).chains, W.LogsIn(chain, sys.next, e.next)[k])
  {
    VisitedLog(chain, sys.next, e.next, e.spanEnd, e.partial, k);
    EmittedAreGenuine(chain, sys.chains, sys.next, e.next, e.spanEnd, e.partial);
    VisitIsSettled(sys.chains, Visits(chain, sys, e), k, e.commits);
  }

  lemma HappeningSettles(chain: W.Chain, span: nat, start: nat, sys: System, h: Happening, high: nat)
    returns (high': nat)
    requires WellFormed(sys.chains) && Possible(chain, span, sys, h)
    requires h.Relayed? ==> SoundPass(chain, sys, h.e)
    requires SettledBelow(chain, start, sys, high)
    ensures SettledBelow(chain, start, Next(chain, start, sys, h), high')
  {
    var sys' := Next(chain, start, sys, h);
    HappeningIsMoves(chain, span, start, sys, h);
    forall log | Passed(sys.chains, log) ensures Passed(sys'.chains, log) {
      PassedStays(sys.chains, MovesOf(chain, sys, h), log);
    }
    high' := if sys'.next > high then sys'.next else high;
    if sys'.next > high {
      W.LogsInSplit(chain, start, sys.next, sys'.next);
      W.LogsInSplit(chain, start, sys.next, high);
      forall log | log in W.LogsIn(chain, start, high') ensures Passed(sys'.chains, log) {
        if log in W.LogsIn(chain, sys.next, sys'.next) {
          var k :| 0 <= k < |W.LogsIn(chain, sys.next, sys'.next)| && W.LogsIn(chain, sys.next, sys'.next)[k] == log;
          PassSettles(chain, span, start, sys, h.e, k);
        } else {
          assert log in W.LogsIn(chain, start, sys.next) && log in W.LogsIn(chain, start, high);
        }
      }
    }
  }

  /** However passes, crashes and restarts mix with what else both chains do: every burn
      in every block below the furthest the cursor ever stood at has been released. */
  lemma {:induction false} NoBurnIsSkipped(
      chain: W.Chain, span: nat, start: nat, sys: System, hs: seq<Happening>, high: nat)
    returns (high': nat)
    requires WellFormed(sys.chains) && PossibleRun(chain, span, start, sys, hs)
    requires Sound(chain, span, start, sys, hs) && SettledBelow(chain, start, sys, high)
    ensures SettledBelow(chain, start, Outcome(chain, span, start, sys, hs), high')
    decreases hs
  {
    if hs == [] {
      high' := high;
    } else {
      var h1 := HappeningSettles(chain, span, start, sys, hs[0], high);
      HappeningIsMoves(chain, span, start, sys, hs[0]);
      high' := NoBurnIsSkipped(chain, span, start, Next(chain, start, sys, hs[0]), hs[1..], h1);
    }
  }

  // ---------------------------------------------------------------- what each burn is paid

  /** What the bridge went through, step by step. */
  ghost function StepsOf(chain: W.Chain, span: nat, start: nat, sys: System, hs: seq<Happening>): seq<Step>
    requires PossibleRun(chain, span, start, sys, hs)
  {
    NativeSteps(AllMoves(chain, span, start, sys, hs))
  }

  /** A burn somebody can be paid for: it names a recipient, in bytes the ABI string
      reader accepts, and its worth fits a uint64. */
  predicate Payable(b: EthBurn) {
    b.recipient != [] && 0 !in b.recipient && b.amount < 0x1_0000_0000_0000_0000 * 1_000_000_000
  }

  /** Its recipient was paid its worth once, and once more per release of it that was cut
      off after the transfer; nobody, if it cannot be paid. */
  ghost predicate PaidAsLogged(s: State, steps: seq<Step>, b: EthBurn) {
    var h := HashOf(L.LogId(b.txHash, b.logIndex));
    PaymentsFor(s, steps, h)
    == if !Payable(b) then []
       else Copies(Payment(h, L.NormalizeNativeRecipient(b.recipient), b.amount / 1_000_000_000),
                   1 + TornFor(s, steps, h))
  }

  /** The burn a log was emitted for, once it is on record. */
  function BurnOf(c: Chains, log: L.EthLog): EthBurn
    requires L.LogId(log.txHash, log.logIndex) in c.burned
  {
    c.burned[L.LogId(log.txHash, log.logIndex)]
  }

  lemma {:induction false} UnpayableIsNeverPaidBy(c: Chains, step: Step, id: bytes, b: EthBurn)
    requires Honest(c, step) && !Payable(b) && (id in c.burned ==> c.burned[id] == b)
    ensures var p := Payout(c.native, step); p.Some? ==> p.value.burn != HashOf(id)
    decreases step
  {
    L.NormalizedIsNamed(b.recipient);
    if step.CutOff? { UnpayableIsNeverPaidBy(c, step.op, id, b); }
  }

  /** A burn that names nobody, or names somebody with a NUL byte, or is worth more than
      there is, stays unpaid over any run. */
  lemma {:induction false} UnpayableIsNeverPaid(c: Chains, moves: seq<Move>, id: bytes, b: EthBurn)
    requires AllAllowed(c, moves) && !Payable(b)
    requires id in After(c, moves).burned && After(c, moves).burned[id] == b
    ensures PaymentsFor(c.native, NativeSteps(moves), HashOf(id)) == []
    decreases moves
  {
    if moves != [] {
      var rest := NativeSteps(moves[1..]);
      UnpayableIsNeverPaid(Moved(c, moves[0]), moves[1..], id, b);
      if id in c.burned { BurnedOnlyGrows(c, moves, id); }
      if moves[0].Native? {
        UnpayableIsNeverPaidBy(c, moves[0].step, id, b);
        assert ([moves[0].step] + rest)[1..] == rest;
      } else {
        assert [] + rest == rest;
      }
    }
  }

  /** A log that is done has its burn marked, if that can be paid. */
  lemma PassedIsMarked(c: Chains, log: L.EthLog)
    requires Passed(c, log) && Payable(BurnOf(c, log))
    ensures HashOf(L.LogId(log.txHash, log.logIndex)) in c.native.burns
    ensures BurnOf(c, log).amount == BurnOf(c, log).amount / ERC20_PER_NATIVE * ERC20_PER_NATIVE
  {
    var b := BurnOf(c, log);
    W.ClaimOfEmitted(b.burner, b.recipient, b.amount, b.txHash, b.logIndex);
  }

  lemma PaidPerCommitOnce(s: State, steps: seq<Step>, h: BurnHash, to: Account, native: nat)
    requires PaidPerCommit(s, steps, h, to, native) && h in Run(s, steps).burns && h !in s.burns
    ensures PaymentsFor(s, steps, h) == Copies(Payment(h, to, native), 1 + TornFor(s, steps, h))
  {
  }

  lemma PassedIsPaid(c0: Chains, moves: seq<Move>, log: L.EthLog)
    requires AllAllowed(c0, moves) && Passed(After(c0, moves), log)
    requires HashOf(L.LogId(log.txHash, log.logIndex)) !in c0.native.burns
    ensures PaidAsLogged(c0.native, NativeSteps(moves), BurnOf(After(c0, moves), log))
  {
    var (id, b) := (L.LogId(log.txHash, log.logIndex), BurnOf(After(c0, moves), log));
    if Payable(b) {
      PassedIsMarked(After(c0, moves), log);
      LoggedBurnPaidOncePerCommit(c0, moves, id, b.amount / ERC20_PER_NATIVE);
      PaidPerCommitOnce(c0.native, NativeSteps(moves), HashOf(id), Payee(b), b.amount / ERC20_PER_NATIVE);
    } else {
      UnpayableIsNeverPaid(c0, moves, id, b);
    }
  }

  /** Every burn logged in every block the relayer passed has paid the account its log
      names the amount's worth once, and once more for each time a release of it was cut
      off after its transfer; and a burn that cannot be paid, nobody. */
  lemma PassedBurnsPaidOncePerCommit(chain: W.Chain, span: nat, start: nat, c0: Chains, hs: seq<Happening>)
    returns (high: nat)
    requires WellFormed(c0) && PossibleRun(chain, span, start, System(c0, start, 0), hs)
    requires Sound(chain, span, start, System(c0, start, 0), hs)
    ensures var sys := System(c0, start, 0);
            var sys' := Outcome(chain, span, start, sys, hs);
            && start <= sys'.next <= high && sys'.saved <= high
            && forall k: nat, log :: start <= k < high && log in chain(k) ==>
                 && Passed(sys'.chains, log)
                 && (HashOf(L.LogId(log.txHash, log.logIndex)) !in c0.native.burns ==>
                       PaidAsLogged(c0.native, StepsOf(chain, span, start, sys, hs), BurnOf(sys'.chains, log)))
  {
    var sys := System(c0, start, 0);
    var moves := AllMoves(chain, span, start, sys, hs);
    high := NoBurnIsSkipped(chain, span, start, sys, hs, start);
    ScheduleIsARun(chain, span, start, sys, hs);
    var c' := Outcome(chain, span, start, sys, hs).chains;
    forall k: nat, log | start <= k < high && log in chain(k)
      ensures Passed(c', log)
      ensures HashOf(L.LogId(log.txHash, log.logIndex)) !in c0.native.burns ==>
                PaidAsLogged(c0.native, NativeSteps(moves), BurnOf(c', log))
    {
      W.LogsOfBlocks(chain, start, high, log);
      if HashOf(L.LogId(log.txHash, log.logIndex)) !in c0.native.burns { PassedIsPaid(c0, moves, log); }
    }
  }

  /** No release cut off: every pass commits whatever it applies, and passes run only
      while the bridge releases by itself. */
  ghost predicate Untorn(chain: W.Chain, sys: System, h: Happening)
    requires h.Relayed? && h.e.Polled? ==> h.e.partial <= |W.ClaimsIn(chain, h.e.next, h.e.spanEnd)|
  {
    match h
    case Elsewhere(move) => !TornPays(sys.chains, move)
    case Relayed(e) =>
      e.Polled? ==> !sys.chains.native.consensusOrdered && AllCommit(0, |Visits(chain, sys, e)|, e.commits)
  }

  ghost predicate UntornRun(chain: W.Chain, span: nat, start: nat, sys: System, hs: seq<Happening>)
    requires PossibleRun(chain, span, start, sys, hs)
    decreases hs
  {
    hs != [] ==>
      Untorn(chain, sys, hs[0]) && UntornRun(chain, span, start, Next(chain, start, sys, hs[0]), hs[1..])
  }

  lemma {:induction false} UncutMovesPayWhole(c: Chains, cs: Claims, at: nat, commits: nat -> bool)
    requires AllCommit(at, |cs|, commits)
    ensures NoneTorn(c, VisitMoves(cs, at, commits))
  {
    if cs != [] {
      var n := |cs| - 1;
      UncutMovesPayWhole(c, cs[..n], at, commits);
      if cs[n].Some? {
        AfterSnoc(c, VisitMoves(cs[..n], at, commits), VisitMove(cs[n].value, true));
      } else {
        assert VisitMoves(cs[..n], at, commits) + [] == VisitMoves(cs[..n], at, commits);
      }
    }
  }

  lemma UntornMoves(chain: W.Chain, span: nat, start: nat, sys: System, h: Happening)
    requires FullyBacked(sys.chains) && Possible(chain, span, sys, h) && Untorn(chain, sys, h)
    ensures NoneTorn(sys.chains, MovesOf(chain, sys, h)) && FullyBacked(Next(chain, start, sys, h).chains)
    ensures h.Relayed? ==> SoundPass(chain, sys, h.e)
  {
    var moves := MovesOf(chain, sys, h);
    HappeningIsMoves(chain, span, start, sys, h);
    if h.Relayed? && h.e.Polled? { UncutMovesPayWhole(sys.chains, Visits(chain, sys, h.e), 0, h.e.commits); }
    NoneTornLosesNothing(sys.chains, moves, NoHash);
    BackedIffLossesBorne(sys.chains, moves);
  }

  /** Backing is then never lost, so it covers every pass. */
  lemma {:induction false} UntornIsSound(chain: W.Chain, span: nat, start: nat, sys: System, hs: seq<Happening>)
    requires FullyBacked(sys.chains) && PossibleRun(chain, span, start, sys, hs)
    requires UntornRun(chain, span, start, sys, hs)
    ensures Sound(chain, span, start, sys, hs)
    ensures NoneTorn(sys.chains, AllMoves(chain, span, start, sys, hs))
    decreases hs
  {
    if hs != [] {
      var sys' := Next(chain, start, sys, hs[0]);
      UntornMoves(chain, span, start, sys, hs[0]);
      HappeningIsMoves(chain, span, start, sys, hs[0]);
      UntornIsSound(chain, span, start, sys', hs[1..]);
      AfterConcat(sys.chains, MovesOf(chain, sys, hs[0]), AllMoves(chain, span, start, sys', hs[1..]));
    }
  }

  lemma UntornPaysOnce(c0: Chains, moves: seq<Move>, b: EthBurn)
    requires NoneTorn(c0, moves) && PaidAsLogged(c0.native, NativeSteps(moves), b)
    ensures PaidOnce(c0.native, NativeSteps(moves), b)
  {
    NoneTornLosesNothing(c0, moves, HashOf(L.LogId(b.txHash, b.logIndex)));
  }

  /** One payment, to the account the log names, of the amount's worth. */
  ghost predicate PaidOnce(s: State, steps: seq<Step>, b: EthBurn) {
    var h := HashOf(L.LogId(b.txHash, b.logIndex));
    PaymentsFor(s, steps, h)
    == if !Payable(b) then []
       else [Payment(h, L.NormalizeNativeRecipient(b.recipient), b.amount / 1_000_000_000)]
  }

  /** From a fully backed start, as long as no release is cut off between its commits: for
      any schedule of passes, RPC failures, lost cursor writes, crashes and restarts, mixed
      with any locks, payments, mints, burns and unlocks, every burn in every block the
      relayer passed is paid exactly once, to the account it names, and escrow still covers
      every claim. */
  lemma UntornScheduleReleasesEachOnce(chain: W.Chain, span: nat, start: nat, c0: Chains, hs: seq<Happening>)
    returns (high: nat)
    requires FullyBacked(c0) && PossibleRun(chain, span, start, System(c0, start, 0), hs)
    requires UntornRun(chain, span, start, System(c0, start, 0), hs)
    ensures var sys := System(c0, start, 0);
            var sys' := Outcome(chain, span, start, sys, hs);
            && FullyBacked(sys'.chains) && start <= sys'.next <= high && sys'.saved <= high
            && forall k: nat, log :: start <= k < high && log in chain(k) ==>
                 && Passed(sys'.chains, log)
                 && (HashOf(L.LogId(log.txHash, log.logIndex)) !in c0.native.burns ==>
                       PaidOnce(c0.native, StepsOf(chain, span, start, sys, hs), BurnOf(sys'.chains, log)))
  {
    var sys := System(c0, start, 0);
    var moves := AllMoves(chain, span, start, sys, hs);
    UntornIsSound(chain, span, start, sys, hs);
    high := PassedBurnsPaidOncePerCommit(chain, span, start, c0, hs);
    ScheduleIsARun(chain, span, start, sys, hs);
    NoneTornLosesNothing(c0, moves, NoHash);
    EscrowCoversEveryClaim(c0, moves);
    var c' := Outcome(chain, span, start, sys, hs).chains;
    forall k: nat, log | start <= k < high && log in chain(k)
      ensures HashOf(L.LogId(log.txHash, log.logIndex)) !in c0.native.burns ==>
                PaidOnce(c0.native, NativeSteps(moves), BurnOf(c', log))
    {
      if HashOf(L.LogId(log.txHash, log.logIndex)) !in c0.native.burns {
        UntornPaysOnce(c0, moves, BurnOf(c', log));
      }
    }
  }
}
