/** Applying a sequence of burn claims to a direct bridge: what one scan does, what
    scanning again adds, and what a release cut off between its commits leaves. */
module Scan {
  import opened Bytes
  import opened Options
  import opened NativeLedger
  import opened Bridge

  /** The release a burn log entitles its recipient to; None for a log that can never
      be released. */
  datatype Claim = Claim(burnId: bytes, to: Account, native: uint64)
  type Claims = seq<Option<Claim>>

  function Key(c: Claim): BurnHash { HashOf(c.burnId) }

  /** A refused or unreadable claim is reported and passed over. */
  function ApplyClaim(s: State, c: Option<Claim>): State {
    if c.None? || s.consensusOrdered then s
    else ReleaseStep(s, Key(c.value), c.value.to, c.value.native,
                     DirectBurn(c.value.burnId, c.value.to, c.value.native * ERC20_PER_NATIVE)).0
  }

  function ApplyClaims(s: State, cs: Claims): State {
    if cs == [] then s else ApplyClaim(ApplyClaims(s, cs[..|cs| - 1]), cs[|cs| - 1])
  }

  /** The same when a release may be cut off after its transfer: `commits(k)` says
      whether the k-th visit's second commit goes through. */
  function ApplyVisit(s: State, c: Option<Claim>, commits: bool): State {
    if commits then ApplyClaim(s, c) else Torn(s, ApplyClaim(s, c))
  }

  function Visited(s: State, cs: Claims, at: nat, commits: nat -> bool): State {
    if cs == [] then s
    else
      var n := |cs| - 1;
      ApplyVisit(Visited(s, cs[..n], at, commits), cs[n], commits(at + n))
  }

  ghost function Keys(cs: Claims): set<BurnHash> {
    set c | c in cs && c.Some? :: Key(c.value)
  }

  /** The claims, one per burn not already done, in order. */
  ghost function Payouts(done: set<BurnHash>, cs: Claims): seq<Claim> {
    if cs == [] then []
    else
      var before, c := cs[..|cs| - 1], cs[|cs| - 1];
      if c.Some? && Key(c.value) !in done + Keys(before) then Payouts(done, before) + [c.value]
      else Payouts(done, before)
  }

  function SumNative(ps: seq<Claim>): nat {
    if ps == [] then 0 else SumNative(ps[..|ps| - 1]) + ps[|ps| - 1].native
  }

  function PaidTo(ps: seq<Claim>, a: Account): nat {
    if ps == [] then 0
    else PaidTo(ps[..|ps| - 1], a) + if ps[|ps| - 1].to == a then ps[|ps| - 1].native else 0
  }

  predicate Settled(s: State, c: Option<Claim>) {
    c.Some? ==> Key(c.value) in s.burns
  }

  lemma SumAppend(ps: seq<Claim>, c: Claim)
    ensures SumNative(ps + [c]) == SumNative(ps) + c.native
    ensures forall a :: PaidTo(ps + [c], a) == PaidTo(ps, a) + if c.to == a then c.native else 0
  {
    assert (ps + [c])[..|ps + [c]| - 1] == ps;
  }

  lemma TakeTwice(cs: Claims, m: nat, j: nat)
    requires m <= j <= |cs|
    ensures cs[..j] == cs[..m] + cs[m..j]
  {
  }

  lemma {:induction false} ApplyConcat(s: State, a: Claims, b: Claims)
    ensures ApplyClaims(s, a + b) == ApplyClaims(ApplyClaims(s, a), b)
    decreases b
  {
    if b == [] {
      assert a + b == a;
    } else {
      ApplyConcat(s, a, b[..|b| - 1]);
      assert (a + b)[..|a + b| - 1] == a + b[..|b| - 1];
    }
  }

  lemma KeysAppend(before: Claims, c: Option<Claim>)
    ensures Keys(before + [c]) == Keys(before) + if c.Some? then {Key(c.value)} else {}
  {
    var cs := before + [c];
    forall k | k in Keys(before) + (if c.Some? then {Key(c.value)} else {}) ensures k in Keys(cs) {
      if k in Keys(before) {
        var d :| d in before && d.Some? && Key(d.value) == k;
        assert d in cs;
      } else {
        assert c in cs;
      }
    }
  }

  // ---------------------------------------------------------------- one scan

  /** A bridge that applies burns itself, whose counters fit: on balanced books
      unlocked plus escrow is the locked total. */
  ghost predicate Direct(s: State) {
    !s.consensusOrdered && Sum(s.balances) < TWO_64 && s.unlocked + Escrow(s) < TWO_64
  }

  ghost predicate Coverable(s: State, cs: Claims) {
    Direct(s) && SumNative(Payouts(s.burns.Keys, cs)) <= Escrow(s)
  }

  ghost predicate Credited(s: State, s': State, ps: seq<Claim>) {
    forall a :: a != ESCROW ==> BalanceOf(s'.balances, a) == BalanceOf(s.balances, a) + PaidTo(ps, a)
  }

  /** s' is s after paying exactly ps out of escrow and marking exactly ks. */
  ghost predicate PaidOut(s: State, s': State, ps: seq<Claim>, ks: set<BurnHash>) {
    && !s'.consensusOrdered && Sum(s'.balances) == Sum(s.balances)
    && s'.burns.Keys == s.burns.Keys + ks
    && s'.unlocked == s.unlocked + SumNative(ps)
    && Escrow(s') == Escrow(s) - SumNative(ps) + PaidTo(ps, ESCROW)
    && Credited(s, s', ps)
    && s'.locked == s.locked && s'.locks == s.locks
  }

  lemma PayCovered(s: State, c: Claim)
    requires Sum(s.balances) < TWO_64 && s.unlocked + c.native < TWO_64 && !s.consensusOrdered
    requires Key(c) !in s.burns && c.native <= Escrow(s)
    ensures var s' := ApplyClaim(s, Some(c));
            && s'.burns.Keys == s.burns.Keys + {Key(c)}
            && s' == s.(balances := s'.balances, burns := s'.burns, unlocked := s.unlocked + c.native)
            && Sum(s'.balances) == Sum(s.balances)
            && Escrow(s') == Escrow(s) - c.native + (if c.to == ESCROW then c.native else 0)
            && Credited1(s, s', c)
  {
    TransferConserves(s.balances, ESCROW, c.to, c.native);
  }

  ghost predicate Credited1(s: State, s': State, c: Claim) {
    forall a :: a != ESCROW ==>
      BalanceOf(s'.balances, a) == BalanceOf(s.balances, a) + if c.to == a then c.native else 0
  }

  lemma CreditedAppend(s: State, mid: State, s': State, ps: seq<Claim>, c: Claim)
    requires Credited(s, mid, ps) && Credited1(mid, s', c)
    ensures Credited(s, s', ps + [c])
  {
    SumAppend(ps, c);
  }

  lemma PayOne(s: State, mid: State, ps: seq<Claim>, ks: set<BurnHash>, c: Claim)
    requires Direct(s) && PaidOut(s, mid, ps, ks)
    requires Key(c) !in mid.burns && SumNative(ps) + c.native <= Escrow(s)
    ensures PaidOut(s, ApplyClaim(mid, Some(c)), ps + [c], ks + {Key(c)})
  {
    SumAppend(ps, c);
    PaidToAtMost(ps, ESCROW);
    PayCovered(mid, c);
    CreditedAppend(s, mid, ApplyClaim(mid, Some(c)), ps, c);
  }

  /** A scan the escrow can cover is one release per distinct burn and nothing else:
      every recipient is credited exactly its claims, escrow debited their sum, and the
      markers are exactly the burns seen. */
  lemma {:induction false} ScanReleasesEachOnce(s: State, cs: Claims)
    requires Coverable(s, cs)
    ensures PaidOut(s, ApplyClaims(s, cs), Payouts(s.burns.Keys, cs), Keys(cs))
  {
    if cs == [] {
      assert Keys(cs) == {};
    } else {
      var n := |cs| - 1;
      var before, c := cs[..n], cs[n];
      var mid, last := ApplyClaims(s, before), Payouts(s.burns.Keys, before);
      assert cs == before + [c];
      KeysAppend(before, c);
      if c.Some? && Key(c.value) !in s.burns.Keys + Keys(before) {
        SumAppend(last, c.value);
        ScanReleasesEachOnce(s, before);
        PayOne(s, mid, last, Keys(before), c.value);
      } else {
        ScanReleasesEachOnce(s, before);
        assert ApplyClaim(mid, c) == mid;
        assert s.burns.Keys + Keys(cs) == s.burns.Keys + Keys(before);
      }
    }
  }

  lemma {:induction false} PaidToAtMost(ps: seq<Claim>, a: Account)
    ensures 0 <= PaidTo(ps, a) <= SumNative(ps)
  {
    if ps != [] { PaidToAtMost(ps[..|ps| - 1], a); }
  }

  ghost predicate DistinctKeys(ps: seq<Claim>, done: set<BurnHash>, seen: set<BurnHash>) {
    && (forall i :: 0 <= i < |ps| ==> Key(ps[i]) !in done && Key(ps[i]) in seen)
    && (forall i, j :: 0 <= i < j < |ps| ==> Key(ps[i]) != Key(ps[j]))
  }

  lemma DistinctAppend(ps: seq<Claim>, c: Claim, done: set<BurnHash>, seen: set<BurnHash>)
    requires DistinctKeys(ps, done, seen) && Key(c) !in done + seen
    ensures DistinctKeys(ps + [c], done, seen + {Key(c)})
  {
  }

  /** No burn appears twice among the payouts, and none that was already done. */
  lemma {:induction false} PayoutsDistinct(done: set<BurnHash>, cs: Claims)
    ensures DistinctKeys(Payouts(done, cs), done, Keys(cs))
  {
    if cs != [] {
      var before, c := cs[..|cs| - 1], cs[|cs| - 1];
      assert cs == before + [c];
      KeysAppend(before, c);
      PayoutsDistinct(done, before);
      if c.Some? && Key(c.value) !in done + Keys(before) {
        DistinctAppend(Payouts(done, before), c.value, done, Keys(before));
      }
    }
  }

  lemma {:induction false} PayoutsPrefix(done: set<BurnHash>, a: Claims, b: Claims)
    ensures SumNative(Payouts(done, a)) <= SumNative(Payouts(done, a + b))
    decreases b
  {
    if b == [] {
      assert a + b == a;
    } else {
      var before := a + b[..|b| - 1];
      PayoutsPrefix(done, a, b[..|b| - 1]);
      assert (a + b)[..|a + b| - 1] == before;
      var c := (a + b)[|a + b| - 1];
      if c.Some? { SumAppend(Payouts(done, before), c.value); }
    }
  }

  // ---------------------------------------------------------------- scanning again

  lemma {:induction false} SettledReplayIsFree(s: State, cs: Claims)
    requires forall c :: c in cs ==> Settled(s, c)
    ensures ApplyClaims(s, cs) == s
  {
    if cs != [] {
      SettledReplayIsFree(s, cs[..|cs| - 1]);
      assert cs[|cs| - 1] in cs;
    }
  }

  lemma ScannedAreSettled(s: State, cs: Claims)
    requires Coverable(s, cs)
    ensures forall c :: c in cs ==> Settled(ApplyClaims(s, cs), c)
  {
    ScanReleasesEachOnce(s, cs);
  }

  /** Scanning positions i..j again, after the first m >= i were applied, is the same
      as having applied the first max(m, j): what was done is not done twice, and
      what comes after follows on. */
  lemma RescanAbsorbed(s: State, cs: Claims, m: nat, i: nat, j: nat)
    requires Coverable(s, cs) && i <= m <= |cs| && i <= j <= |cs|
    ensures ApplyClaims(ApplyClaims(s, cs[..m]), cs[i..j]) == ApplyClaims(s, cs[..if m < j then j else m])
  {
    var done := ApplyClaims(s, cs[..m]);
    assert cs[..m] + cs[m..] == cs;
    PayoutsPrefix(s.burns.Keys, cs[..m], cs[m..]);
    ScannedAreSettled(s, cs[..m]);
    if j <= m {
      assert forall c :: c in cs[i..j] ==> c in cs[..m];
      SettledReplayIsFree(done, cs[i..j]);
    } else {
      assert forall c :: c in cs[i..m] ==> c in cs[..m];
      SettledReplayIsFree(done, cs[i..m]);
      assert cs[i..j] == cs[i..m] + cs[m..j];
      ApplyConcat(done, cs[i..m], cs[m..j]);
      TakeTwice(cs, m, j);
      ApplyConcat(s, cs[..m], cs[m..j]);
    }
  }

  // ---------------------------------------------------------------- releases cut off

  lemma VisitedAppend(s: State, cs: Claims, c: Option<Claim>, at: nat, commits: nat -> bool)
    ensures Visited(s, cs + [c], at, commits) == ApplyVisit(Visited(s, cs, at, commits), c, commits(at + |cs|))
  {
    assert (cs + [c])[..|cs|] == cs;
  }

  lemma VisitedNext(s: State, cs: Claims, k: nat, at: nat, commits: nat -> bool)
    requires k < |cs|
    ensures Visited(s, cs[..k + 1], at, commits) == ApplyVisit(Visited(s, cs[..k], at, commits), cs[k], commits(at + k))
  {
    assert cs[..k + 1] == cs[..k] + [cs[k]];
    VisitedAppend(s, cs[..k], cs[k], at, commits);
  }

  lemma {:induction false} VisitedConcat(s: State, a: Claims, b: Claims, at: nat, commits: nat -> bool)
    ensures Visited(s, a + b, at, commits) == Visited(Visited(s, a, at, commits), b, at + |a|, commits)
    decreases b
  {
    if b == [] {
      assert a + b == a;
    } else {
      var before, c := b[..|b| - 1], b[|b| - 1];
      VisitedConcat(s, a, before, at, commits);
      assert a + b == (a + before) + [c];
      VisitedAppend(s, a + before, c, at, commits);
    }
  }

  ghost predicate AllCommit(at: nat, n: nat, commits: nat -> bool) {
    forall k :: at <= k < at + n ==> commits(k)
  }

  lemma {:induction false} UncutIsApplied(s: State, cs: Claims, at: nat, commits: nat -> bool)
    requires AllCommit(at, |cs|, commits)
    ensures Visited(s, cs, at, commits) == ApplyClaims(s, cs)
  {
    if cs != [] { UncutIsApplied(s, cs[..|cs| - 1], at, commits); }
  }

  /** Escrow is there for a claim when its turn comes, unless it is already done. */
  ghost predicate Covers(s: State, c: Option<Claim>) {
    c.Some? ==> Key(c.value) in s.burns || (!s.consensusOrdered && c.value.native <= Escrow(s))
  }

  ghost predicate CoveredVisits(s: State, cs: Claims, at: nat, commits: nat -> bool) {
    cs == [] || (
      var n := |cs| - 1;
      CoveredVisits(s, cs[..n], at, commits) && Covers(Visited(s, cs[..n], at, commits), cs[n]))
  }

  /** Whether burn h has a visit among cs whose second commit goes through. */
  ghost predicate CommittedVisit(cs: Claims, h: BurnHash, at: nat, commits: nat -> bool) {
    exists k :: 0 <= k < |cs| && cs[k].Some? && Key(cs[k].value) == h && commits(at + k)
  }

  lemma CommittedAppend(cs: Claims, c: Option<Claim>, h: BurnHash, at: nat, commits: nat -> bool)
    ensures CommittedVisit(cs + [c], h, at, commits)
            <==> CommittedVisit(cs, h, at, commits) || (c.Some? && Key(c.value) == h && commits(at + |cs|))
  {
    var all := cs + [c];
    if CommittedVisit(cs, h, at, commits) {
      var k :| 0 <= k < |cs| && cs[k].Some? && Key(cs[k].value) == h && commits(at + k);
      assert all[k] == cs[k];
    }
    if c.Some? && Key(c.value) == h && commits(at + |cs|) { assert all[|cs|] == c; }
  }

  /** With escrow there each time, a burn is marked afterwards exactly when it was
      before or one of its visits committed: one cut off leaves no trace, and the cursor
      passes it all the same. */
  lemma {:induction false} VisitMarksIffCommitted(s: State, cs: Claims, h: BurnHash, at: nat, commits: nat -> bool)
    requires CoveredVisits(s, cs, at, commits)
    ensures h in Visited(s, cs, at, commits).burns <==> h in s.burns || CommittedVisit(cs, h, at, commits)
  {
    if cs != [] {
      var n := |cs| - 1;
      VisitMarksIffCommitted(s, cs[..n], h, at, commits);
      CommittedAppend(cs[..n], cs[n], h, at, commits);
      assert cs[..n] + [cs[n]] == cs;
    }
  }

  /** An uncut scan of claims whose sum escrow covers finds each covered in its turn. */
  lemma {:induction false} CoverableCovers(s: State, cs: Claims, at: nat, commits: nat -> bool)
    requires Coverable(s, cs) && (cs != [] ==> AllCommit(at, |cs| - 1, commits))
    ensures CoveredVisits(s, cs, at, commits)
  {
    if cs != [] {
      var before, c := cs[..|cs| - 1], cs[|cs| - 1];
      assert cs == before + [c];
      PayoutsPrefix(s.burns.Keys, before, [c]);
      CoverableCovers(s, before, at, commits);
      UncutIsApplied(s, before, at, commits);
      ScanReleasesEachOnce(s, before);
      if c.Some? { SumAppend(Payouts(s.burns.Keys, before), c.value); }
    }
  }

  // ---------------------------------------------------------------- when escrow is short

  /** One claim per burn id, and none of them back to escrow. */
  ghost predicate Plain(cs: Claims) {
    && (forall c :: c in cs && c.Some? ==> c.value.to != ESCROW && c.value.native > 0)
    && (forall c, d :: c in cs && d in cs && c.Some? && d.Some? && c.value.burnId == d.value.burnId ==> c == d)
  }

  /** Escrow only shrinks, so a claim it could not pay stays unpaid. */
  lemma StillShort(s: State, left: Claim, c: Option<Claim>)
    requires Direct(s) && Key(left) !in s.burns && left.native > Escrow(s)
    requires c.Some? ==> c.value.to != ESCROW && (c.value.burnId == left.burnId ==> c.value == left)
    ensures var s' := ApplyClaim(s, c);
            Direct(s') && Key(left) !in s'.burns && left.native > Escrow(s')
  {
    if c.Some? && Key(c.value) !in s.burns && c.value.native <= Escrow(s) {
      TransferConserves(s.balances, ESCROW, c.value.to, c.value.native);
    }
  }

  lemma {:induction false} ShortScanLeavesOne(s: State, cs: Claims) returns (left: Claim)
    requires Direct(s) && Plain(cs) && SumNative(Payouts(s.burns.Keys, cs)) > Escrow(s)
    ensures var s' := ApplyClaims(s, cs);
            Direct(s') && Some(left) in cs && Key(left) !in s'.burns && left.native > Escrow(s')
  {
    var n := |cs| - 1;
    var before, c := cs[..n], cs[n];
    var last := Payouts(s.burns.Keys, before);
    assert cs == before + [c] && c in cs;
    if SumNative(last) > Escrow(s) {
      left := ShortScanLeavesOne(s, before);
      assert Some(left) in cs;
      StillShort(ApplyClaims(s, before), left, c);
    } else {
      left := c.value;
      SumAppend(last, left);
      LastIsShort(s, before, left);
    }
  }

  /** A new burn that no longer fits escrow is passed over. */
  lemma LastIsShort(s: State, before: Claims, c: Claim)
    requires Direct(s) && Plain(before + [Some(c)]) && SumNative(Payouts(s.burns.Keys, before)) <= Escrow(s)
    requires Key(c) !in s.burns.Keys + Keys(before)
    requires SumNative(Payouts(s.burns.Keys, before)) + c.native > Escrow(s)
    ensures var s1 := ApplyClaims(s, before); var s' := ApplyClaim(s1, Some(c));
            Direct(s') && Key(c) !in s'.burns && c.native > Escrow(s')
  {
    assert forall d :: d in before ==> d in before + [Some(c)];
    ScanReleasesEachOnce(s, before);
    NonePaidToEscrow(s.burns.Keys, before);
  }

  lemma {:induction false} NonePaidToEscrow(done: set<BurnHash>, cs: Claims)
    requires Plain(cs)
    ensures PaidTo(Payouts(done, cs), ESCROW) == 0
  {
    if cs != [] {
      var before, c := cs[..|cs| - 1], cs[|cs| - 1];
      assert cs == before + [c];
      NonePaidToEscrow(done, before);
      if c.Some? { SumAppend(Payouts(done, before), c.value); }
    }
  }

  /** The cursor moves past a burn whether or not it was released, so a scan settles
      every burn it passes exactly when escrow covers them all. */
  lemma ScanSettlesAllIffCovered(s: State, cs: Claims)
    requires Direct(s) && Plain(cs)
    ensures (forall c :: c in cs ==> Settled(ApplyClaims(s, cs), c))
            <==> SumNative(Payouts(s.burns.Keys, cs)) <= Escrow(s)
  {
    if SumNative(Payouts(s.burns.Keys, cs)) <= Escrow(s) {
      ScannedAreSettled(s, cs);
    } else {
      var left := ShortScanLeavesOne(s, cs);
    }
  }
}
