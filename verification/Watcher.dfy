/** The polling relayer (internal/bridge/watcher.go) driving a bridge, through failed
    calls, failed cursor writes, releases cut off between their two commits, crashes
    and restarts. */
module Watcher {
  import opened Bytes
  import opened Options
  import opened NativeLedger
  import opened Bridge
  import opened Scan
  import L = BurnLog

  /** What ProcessBurn will make of a log, read from the log alone. */
  function ClaimOf(log: L.EthLog): Option<Claim> {
    match L.DecodeBurnedLog(log)
    case Err(_) => None
    case Ok(d) =>
      var native := Erc20ToNative(Some(d.amount));
      if d.id == [] || d.recipient == [] || native.None? || native.value == 0 then None
      else Some(Claim(d.id, d.recipient, native.value))
  }

  /** Who a burn pays: the contract's own log entitles the recipient it names, in the one
      spelling of an account, to the wrapped amount's worth; it entitles nobody when the
      recipient is empty or has a NUL byte, or the amount is nothing, not whole native
      units, or more than a uint64 of them. */
  lemma ClaimOfEmitted(burner: bytes, recipient: bytes, amount: nat, txHash: bytes, logIndex: uint64)
    requires L.Emittable(burner, recipient, amount, txHash)
    ensures ClaimOf(L.EmittedLog(burner, recipient, amount, txHash, logIndex))
            == if (recipient == [] || (0 in recipient) || amount == 0 || amount % 1_000_000_000 != 0
                   || amount >= 0x1_0000_0000_0000_0000 * 1_000_000_000) then None
               else Some(Claim(L.LogId(txHash, logIndex), L.NormalizeNativeRecipient(recipient),
                               amount / 1_000_000_000))
  {
    L.EmittedLogDecodes(burner, recipient, amount, txHash, logIndex);
    L.NormalizedIsNamed(recipient);
  }

  function Map<A, B>(f: A -> B, s: seq<A>): (r: seq<B>)
    ensures |r| == |s|
  {
    seq(|s|, i requires 0 <= i < |s| => f(s[i]))
  }

  lemma MapConcat<A, B>(f: A -> B, a: seq<A>, b: seq<A>)
    ensures Map(f, a + b) == Map(f, a) + Map(f, b)
  {
  }

  /** The finalized Burned logs of each block. */
  type Chain = nat -> seq<L.EthLog>

  /** FilterBurnedLogs over blocks from..to-1. */
  function LogsIn(chain: Chain, from: nat, to: nat): seq<L.EthLog>
    decreases to
  {
    if from >= to then [] else LogsIn(chain, from, to - 1) + chain(to - 1)
  }

  function ClaimsIn(chain: Chain, from: nat, to: nat): Claims {
    Map(ClaimOf, LogsIn(chain, from, to))
  }

  /** Every log of every block in the range, and nothing else. */
  lemma {:induction false} LogsOfBlocks(chain: Chain, a: nat, b: nat, log: L.EthLog)
    ensures log in LogsIn(chain, a, b) <==> exists k: nat :: a <= k < b && log in chain(k)
    decreases b
  {
    if a < b {
      LogsOfBlocks(chain, a, b - 1, log);
      if log in chain(b - 1) { assert a <= b - 1 < b; }
    }
  }

  lemma LogsOfOneBlock(chain: Chain, k: nat)
    ensures LogsIn(chain, k, k + 1) == chain(k)
  {
    assert LogsIn(chain, k, k) + chain(k) == chain(k);
  }

  lemma ClaimsOfLogs(chain: Chain, from: nat, to: nat, log: L.EthLog)
    requires log in LogsIn(chain, from, to)
    ensures ClaimOf(log) in ClaimsIn(chain, from, to)
  {
    var i :| 0 <= i < |LogsIn(chain, from, to)| && LogsIn(chain, from, to)[i] == log;
    assert ClaimsIn(chain, from, to)[i] == ClaimOf(log);
  }

  lemma {:induction false} LogsInSplit(chain: Chain, a: nat, b: nat, c: nat)
    requires a <= b <= c
    ensures LogsIn(chain, a, c) == LogsIn(chain, a, b) + LogsIn(chain, b, c)
    decreases c
  {
    if b < c { LogsInSplit(chain, a, b, c - 1); }
  }

  lemma ClaimsInSplit(chain: Chain, a: nat, b: nat, c: nat)
    requires a <= b <= c
    ensures ClaimsIn(chain, a, c) == ClaimsIn(chain, a, b) + ClaimsIn(chain, b, c)
  {
    LogsInSplit(chain, a, b, c);
    MapConcat(ClaimOf, LogsIn(chain, a, b), LogsIn(chain, b, c));
  }

  // ---------------------------------------------------------------- runs

  /** What survives in the bridge and the cursor key, and the in-memory cursor. */
  datatype World = World(bridge: State, next: nat, saved: nat)

  /** One poll as the outside sees it: whole spans up to `next`, then `partial` logs of
      the span ending at `spanEnd` if the process died inside it, and whatever cursor
      write last succeeded. `commits(k)` says whether the k-th log it applied got as far
      as its second commit. */
  datatype Event =
    | Polled(next: nat, spanEnd: nat, partial: nat, saved: nat, commits: nat -> bool)
    | Restarted

  /** The claims of blocks a..next-1, and then of the first `partial` logs up to spanEnd. */
  ghost function VisitedIn(chain: Chain, a: nat, next: nat, spanEnd: nat, partial: nat): Claims
    requires partial <= |ClaimsIn(chain, next, spanEnd)|
  {
    ClaimsIn(chain, a, next) + ClaimsIn(chain, next, spanEnd)[..partial]
  }

  ghost predicate Possible(chain: Chain, span: nat, horizon: nat, w: World, e: Event) {
    e.Polled? ==>
      && w.next <= e.next <= e.spanEnd <= e.next + span
      && (e.spanEnd <= horizon || e.spanEnd == w.next)
      && e.partial <= |ClaimsIn(chain, e.next, e.spanEnd)|
      && (e.saved == w.saved || w.next < e.saved <= e.next)
  }

  ghost function After(chain: Chain, start: nat, w: World, e: Event): World
    requires e.Polled? ==> e.partial <= |ClaimsIn(chain, e.next, e.spanEnd)|
  {
    match e
    case Polled(next, spanEnd, partial, saved, commits) =>
      World(Visited(w.bridge, VisitedIn(chain, w.next, next, spanEnd, partial), 0, commits), next, saved)
    case Restarted => w.(next := if w.saved > start then w.saved else start)
  }

  /** A poll none of whose releases is cut off. */
  ghost predicate Uncut(chain: Chain, w: World, e: Event)
    requires e.Polled? ==> e.partial <= |ClaimsIn(chain, e.next, e.spanEnd)|
  {
    e.Polled? ==> AllCommit(0, |VisitedIn(chain, w.next, e.next, e.spanEnd, e.partial)|, e.commits)
  }

  /** The bridge stands where scanning the first m claims from s0 leaves it: all those
      below `high`, the furthest block the cursor ever stood at, and at most a span
      more. */
  ghost predicate Tracks(chain: Chain, span: nat, start: nat, horizon: nat, s0: State, w: World, high: nat, m: nat) {
    var cs := ClaimsIn(chain, start, horizon);
    && start <= w.next <= high <= horizon && w.saved <= high
    && |ClaimsIn(chain, start, high)| <= m <= |cs|
    && (high + span <= horizon ==> m <= |ClaimsIn(chain, start, high + span)|)
    && w.bridge == ApplyClaims(s0, cs[..m])
  }

  lemma PositionMonotone(chain: Chain, start: nat, a: nat, b: nat)
    requires start <= a <= b
    ensures |ClaimsIn(chain, start, a)| <= |ClaimsIn(chain, start, b)|
  {
    ClaimsInSplit(chain, start, a, b);
  }

  lemma PollSlice(chain: Chain, start: nat, horizon: nat, from: nat, next: nat, spanEnd: nat, partial: nat)
    requires start <= from <= next <= spanEnd <= horizon && partial <= |ClaimsIn(chain, next, spanEnd)|
    ensures var cs := ClaimsIn(chain, start, horizon);
            var i, j := |ClaimsIn(chain, start, from)|, |ClaimsIn(chain, start, next)| + partial;
            && i <= j <= |cs| && j <= |ClaimsIn(chain, start, spanEnd)|
            && VisitedIn(chain, from, next, spanEnd, partial) == cs[i..j]
  {
    ClaimsInSplit(chain, start, from, next);
    ClaimsInSplit(chain, start, next, spanEnd);
    ClaimsInSplit(chain, start, spanEnd, horizon);
    MiddleSlice(ClaimsIn(chain, start, from), ClaimsIn(chain, from, next), ClaimsIn(chain, next, spanEnd),
                ClaimsIn(chain, spanEnd, horizon), partial);
  }

  lemma MiddleSlice(a: Claims, b: Claims, c: Claims, d: Claims, p: nat)
    requires p <= |c|
    ensures (a + b + c + d)[|a|..|a| + |b| + p] == b + c[..p]
  {
  }

  /** What a poll adds to a bridge that stands at claim m: nothing below m again. */
  lemma PollAbsorbed(chain: Chain, start: nat, horizon: nat, s0: State, w: World, e: Event, m: nat)
    returns (m': nat)
    requires Coverable(s0, ClaimsIn(chain, start, horizon))
    requires e.Polled? && start <= w.next <= e.next <= e.spanEnd <= horizon
    requires e.partial <= |ClaimsIn(chain, e.next, e.spanEnd)| && Uncut(chain, w, e)
    requires |ClaimsIn(chain, start, w.next)| <= m <= |ClaimsIn(chain, start, horizon)|
    requires w.bridge == ApplyClaims(s0, ClaimsIn(chain, start, horizon)[..m])
    ensures m <= m' <= |ClaimsIn(chain, start, horizon)| && |ClaimsIn(chain, start, e.next)| <= m'
    ensures m' == m || m' <= |ClaimsIn(chain, start, e.spanEnd)|
    ensures After(chain, start, w, e).bridge == ApplyClaims(s0, ClaimsIn(chain, start, horizon)[..m'])
  {
    var cs := ClaimsIn(chain, start, horizon);
    var i, j := |ClaimsIn(chain, start, w.next)|, |ClaimsIn(chain, start, e.next)| + e.partial;
    PollSlice(chain, start, horizon, w.next, e.next, e.spanEnd, e.partial);
    UncutIsApplied(w.bridge, VisitedIn(chain, w.next, e.next, e.spanEnd, e.partial), 0, e.commits);
    RescanAbsorbed(s0, cs, m, i, j);
    m' := if m < j then j else m;
  }

  /** A poll reaches at most a span past the furthest block. */
  lemma WithinASpan(
      chain: Chain, span: nat, start: nat, horizon: nat, high: nat, high': nat, spanEnd: nat, m: nat, m': nat)
    requires start <= high <= high' && start <= spanEnd <= high' + span && high' + span <= horizon
    requires m <= |ClaimsIn(chain, start, high + span)|
    requires m' == m || m' <= |ClaimsIn(chain, start, spanEnd)|
    ensures m' <= |ClaimsIn(chain, start, high' + span)|
  {
    PositionMonotone(chain, start, spanEnd, high' + span);
    PositionMonotone(chain, start, high + span, high' + span);
  }

  lemma EventTracks(chain: Chain, span: nat, start: nat, horizon: nat, s0: State, w: World, e: Event, high: nat, m: nat)
    returns (high': nat, m': nat)
    requires Coverable(s0, ClaimsIn(chain, start, horizon))
    requires Tracks(chain, span, start, horizon, s0, w, high, m)
    requires Possible(chain, span, horizon, w, e) && Uncut(chain, w, e)
    ensures Tracks(chain, span, start, horizon, s0, After(chain, start, w, e), high', m')
  {
    match e
    case Restarted => high', m' := high, m;
    case Polled(next, spanEnd, partial, saved, _) =>
      PositionMonotone(chain, start, w.next, high);
      m' := PollAbsorbed(chain, start, horizon, s0, w, e, m);
      high' := if high < next then next else high;
      PositionMonotone(chain, start, next, high');
      if high' + span <= horizon {
        WithinASpan(chain, span, start, horizon, high, high', spanEnd, m, m');
      }
  }

  ghost predicate PossibleRun(chain: Chain, span: nat, start: nat, horizon: nat, w: World, events: seq<Event>)
    decreases events
  {
    events != [] ==>
      && Possible(chain, span, horizon, w, events[0])
      && PossibleRun(chain, span, start, horizon, After(chain, start, w, events[0]), events[1..])
  }

  ghost function AfterRun(chain: Chain, span: nat, start: nat, horizon: nat, w: World, events: seq<Event>): World
    requires PossibleRun(chain, span, start, horizon, w, events)
    decreases events
  {
    if events == [] then w
    else AfterRun(chain, span, start, horizon, After(chain, start, w, events[0]), events[1..])
  }

  ghost predicate UncutRun(chain: Chain, span: nat, start: nat, horizon: nat, w: World, events: seq<Event>)
    requires PossibleRun(chain, span, start, horizon, w, events)
    decreases events
  {
    events != [] ==>
      && Uncut(chain, w, events[0])
      && UncutRun(chain, span, start, horizon, After(chain, start, w, events[0]), events[1..])
  }

  lemma {:induction false} RunTracks(chain: Chain, span: nat, start: nat, horizon: nat, s0: State, w: World,
                                     events: seq<Event>, high: nat, m: nat)
    returns (high': nat, m': nat)
    requires Coverable(s0, ClaimsIn(chain, start, horizon))
    requires Tracks(chain, span, start, horizon, s0, w, high, m)
    requires PossibleRun(chain, span, start, horizon, w, events)
    requires UncutRun(chain, span, start, horizon, w, events)
    ensures Tracks(chain, span, start, horizon, s0, AfterRun(chain, span, start, horizon, w, events), high', m')
    decreases events
  {
    if events == [] {
      high', m' := high, m;
    } else {
      var h1, m1 := EventTracks(chain, span, start, horizon, s0, w, events[0], high, m);
      high', m' := RunTracks(chain, span, start, horizon, s0, After(chain, start, w, events[0]), events[1..], h1, m1);
    }
  }

  /** For any schedule of polls, RPC failures, lost cursor writes, restarts and crashes
      that fall inside no release, from a fixed start block and a covering escrow: the
      bridge is what one uninterrupted scan of some prefix of the chain's logs leaves. The prefix
      holds every log below the cursor and reaches at most one span past the furthest
      block the cursor ever stood at, so no block is skipped; and the ledger has been
      moved by exactly one release per distinct burn in it. */
  lemma AnyScheduleIsOneScan(chain: Chain, span: nat, start: nat, horizon: nat, s0: State, events: seq<Event>)
    returns (high: nat, m: nat)
    requires start <= horizon && Coverable(s0, ClaimsIn(chain, start, horizon))
    requires PossibleRun(chain, span, start, horizon, World(s0, start, 0), events)
    requires UncutRun(chain, span, start, horizon, World(s0, start, 0), events)
    ensures var w := AfterRun(chain, span, start, horizon, World(s0, start, 0), events);
            var cs := ClaimsIn(chain, start, horizon);
            && start <= w.next <= high <= horizon
            && |ClaimsIn(chain, start, high)| <= m <= |cs|
            && (high + span <= horizon ==> m <= |ClaimsIn(chain, start, high + span)|)
            && w.bridge == ApplyClaims(s0, cs[..m])
            && PaidOut(s0, w.bridge, Payouts(s0.burns.Keys, cs[..m]), Keys(cs[..m]))
            && DistinctKeys(Payouts(s0.burns.Keys, cs[..m]), s0.burns.Keys, Keys(cs[..m]))
  {
    var cs := ClaimsIn(chain, start, horizon);
    high, m := RunTracks(chain, span, start, horizon, s0, World(s0, start, 0), events, start, 0);
    assert cs[..m] + cs[m..] == cs;
    PayoutsPrefix(s0.burns.Keys, cs[..m], cs[m..]);
    ScanReleasesEachOnce(s0, cs[..m]);
    PayoutsDistinct(s0.burns.Keys, cs[..m]);
  }

  /** Where a poll that began at block a leaves the bridge. */
  ghost function Scanned(
      chain: Chain, s: State, a: nat, next: nat, spanEnd: nat, partial: nat, commits: nat -> bool): State
    requires partial <= |ClaimsIn(chain, next, spanEnd)|
  {
    Visited(s, VisitedIn(chain, a, next, spanEnd, partial), 0, commits)
  }

  lemma ScannedNothing(chain: Chain, s: State, a: nat, commits: nat -> bool)
    ensures Scanned(chain, s, a, a, a, 0, commits) == s && ClaimsIn(chain, a, a) == []
  {
  }

  lemma ScannedSpan(chain: Chain, s: State, a: nat, from: nat, to: nat, done: nat, commits: nat -> bool)
    requires a <= from <= to && done <= |ClaimsIn(chain, from, to)|
    ensures Visited(Scanned(chain, s, a, from, from, 0, commits), ClaimsIn(chain, from, to)[..done],
                    |ClaimsIn(chain, a, from)|, commits)
            == Scanned(chain, s, a, from, to, done, commits)
    ensures done == |ClaimsIn(chain, from, to)| ==>
              && Scanned(chain, s, a, from, to, done, commits) == Scanned(chain, s, a, to, to, 0, commits)
              && |ClaimsIn(chain, a, from)| + done == |ClaimsIn(chain, a, to)|
  {
    var was, cs := ClaimsIn(chain, a, from), ClaimsIn(chain, from, to);
    assert was + ClaimsIn(chain, from, from)[..0] == was;
    VisitedConcat(s, was, cs[..done], 0, commits);
    if done == |cs| {
      ClaimsInSplit(chain, a, from, to);
      assert was + cs[..done] == ClaimsIn(chain, a, to) + ClaimsIn(chain, to, to)[..0];
    }
  }

  // ---------------------------------------------------------------- the object

  /** The kv key the cursor lives under; 0 when absent. */
  class CursorStore {
    var saved: nat
    constructor (saved: nat) ensures this.saved == saved { this.saved := saved; }
  }

  datatype PollEnd = Finished | HeadFailed | LogsFailed | Died
  datatype SpanEnd = NoLogs | Killed | Through

  class Watcher {
    const bridge: Bridge
    const store: CursorStore
    const startBlock: nat
    const confirmations: nat
    const maxBlockSpan: nat
    var next: nat

    /** NewWatcher: resume from the persisted cursor unless StartBlock is ahead of it. */
    constructor (bridge: Bridge, store: CursorStore, startBlock: nat, confirmations: nat, maxBlockSpan: nat)
      ensures this.bridge == bridge && this.store == store
      ensures this.startBlock == startBlock && this.confirmations == confirmations
      ensures this.maxBlockSpan == if maxBlockSpan == 0 then 2000 else maxBlockSpan
      ensures next == if store.saved > startBlock then store.saved else startBlock
    {
      this.bridge, this.store := bridge, store;
      this.startBlock, this.confirmations := startBlock, confirmations;
      this.maxBlockSpan := if maxBlockSpan == 0 then 2000 else maxBlockSpan;
      next := if store.saved > startBlock then store.saved else startBlock;
    }

    ghost function View(): World
      reads this, bridge, bridge.ledger, store
    {
      World(bridge.View(), next, store.saved)
    }

    /** One past the last block deep enough under `head` to be final. */
    function Horizon(head: Option<nat>): nat {
      if head.Some? && head.value >= confirmations then head.value - confirmations + 1 else 0
    }

    method ApplyLog(log: L.EthLog, commits: bool) returns (applied: nat)
      modifies bridge, bridge.ledger
      ensures bridge.View() == ApplyVisit(old(bridge.View()), ClaimOf(log), commits)
      ensures applied == |bridge.burns| - |old(bridge.burns)|
    {
      var decoded := L.DecodeBurnedLog(log);
      if decoded.Err? { return 0; }
      var d := decoded.value;
      var r := bridge.ProcessBurn(d.id, d.recipient, Some(d.amount), commits);
      return if r.Ok? then 1 else 0;
    }

    /** One span's logs, until they run out or the process dies after `actions` of them;
        `at` were applied before in this pass. */
    method ApplySpan(logs: seq<L.EthLog>, actions: nat, at: nat, commits: nat -> bool)
      returns (done: nat, applied: nat)
      modifies bridge, bridge.ledger
      ensures done == if actions < |logs| then actions else |logs|
      ensures bridge.View() == Visited(old(bridge.View()), Map(ClaimOf, logs)[..done], at, commits)
      ensures applied == |bridge.burns| - |old(bridge.burns)|
    {
      done, applied := 0, 0;
      ghost var cs := Map(ClaimOf, logs);
      while done < |logs| && done < actions
        invariant done <= |logs| && done <= actions
        invariant bridge.View() == Visited(old(bridge.View()), cs[..done], at, commits)
        invariant applied == |bridge.burns| - |old(bridge.burns)|
      {
        var n := ApplyLog(logs[done], commits(at + done));
        VisitedNext(old(bridge.View()), cs, done, at, commits);
        done, applied := done + 1, applied + n;
      }
    }

    /** One span, whose end is the block after its last: fetch, apply every log, advance
        the cursor, then persist it. `was` is the bridge when the poll began, at block
        `start`; `at` logs were applied since. */
    method ScanSpan(
        chain: Chain, from: nat, end: nat, putOk: nat -> bool, actions: nat, at: nat, commits: nat -> bool,
        ghost was: State, ghost start: nat)
      returns (died: bool, done: nat, applied: nat)
      requires start <= from == next < end && at == |ClaimsIn(chain, start, from)|
      requires bridge.View() == Scanned(chain, was, start, from, from, 0, commits)
      modifies this, bridge, bridge.ledger, store
      ensures done <= |ClaimsIn(chain, from, end)|
      ensures next == from ==> bridge.View() == Scanned(chain, was, start, from, end, done, commits)
      ensures next != from ==> bridge.View() == Scanned(chain, was, start, end, end, 0, commits)
                               && at + done == |ClaimsIn(chain, start, end)|
      ensures applied == |bridge.burns| - |old(bridge.burns)|
      ensures next == from || next == end
      ensures !died ==> next == end && done < actions
      ensures store.saved == old(store.saved) || (store.saved == end == next && !died)
    {
      var logs := LogsIn(chain, from, end);
      done, applied := ApplySpan(logs, actions, at, commits);
      ScannedSpan(chain, was, start, from, end, done, commits);
      if done < |logs| { return true, done, applied; }
      next := end;
      if done == actions { return true, done, applied; }
      if putOk(end) { store.saved := end; }
      died := false;
    }

    /** The loop body: the next span up to target, if its logs can be had. `was` is the
        bridge when the poll began, at block `start`; `at` logs were applied since. */
    method PollSpan(
        chain: Chain, target: nat, rpcOk: nat -> bool, putOk: nat -> bool, left: nat, at: nat, commits: nat -> bool,
        ghost was: State, ghost start: nat)
      returns (end: SpanEnd, done: nat, applied: nat, ghost spanEnd: nat, ghost partial: nat)
      requires maxBlockSpan > 0 && start <= next <= target && at == |ClaimsIn(chain, start, next)|
      requires bridge.View() == Scanned(chain, was, start, next, next, 0, commits)
      modifies this, bridge, bridge.ledger, store
      ensures next == old(next) || old(next) < next <= target + 1
      ensures next <= spanEnd <= next + maxBlockSpan && (spanEnd <= target + 1)
      ensures partial <= |ClaimsIn(chain, next, spanEnd)|
      ensures bridge.View() == Scanned(chain, was, start, next, spanEnd, partial, commits)
      ensures end != Killed ==> partial == 0 && spanEnd == next
      ensures end == Through ==> next > old(next) && done < left && at + done == |ClaimsIn(chain, start, next)|
      ensures store.saved == old(store.saved) || start < store.saved <= next
      ensures applied == |bridge.burns| - |old(bridge.burns)|
    {
      var from, to := next, next + maxBlockSpan - 1;
      if to > target { to := target; }
      if !rpcOk(from) { return NoLogs, 0, 0, from, 0; }
      var died;
      died, done, applied := ScanSpan(chain, from, to + 1, putOk, left, at, commits, was, start);
      if next == from { return Killed, done, applied, to + 1, done; }
      end := if died then Killed else Through;
      spanEnd, partial := next, 0;
    }

    /** One pass. `head` is None when BlockNumber fails; `rpcOk` says which getLogs calls
        succeed, `putOk` which cursor writes, and `commits` which of the logs applied get
        as far as their second commit; `actions` is how many log applications and cursor
        writes there are before the process dies. What it held in memory dies with it. */
    method Poll(
        chain: Chain, head: Option<nat>, rpcOk: nat -> bool, putOk: nat -> bool, actions: nat, commits: nat -> bool)
      returns (end: PollEnd, applied: nat, ghost spanEnd: nat, ghost partial: nat)
      requires maxBlockSpan > 0
      modifies this, bridge, bridge.ledger, store
      ensures Possible(chain, maxBlockSpan, Horizon(head), old(View()),
                       Polled(next, spanEnd, partial, store.saved, commits))
      ensures View() == After(chain, startBlock, old(View()), Polled(next, spanEnd, partial, store.saved, commits))
      ensures end == Finished ==> head.Some? && next == if old(next) < Horizon(head) then Horizon(head) else old(next)
      ensures spanEnd > old(next) ==> head.Some? && spanEnd - 1 + confirmations <= head.value
      ensures end == Finished && next > old(next) ==> next - 1 + confirmations == head.value
      ensures end != Died ==> partial == 0
      ensures applied == |bridge.burns| - |old(bridge.burns)|
    {
      spanEnd, partial, applied := next, 0, 0;
      ghost var was, start := bridge.View(), next;
      ScannedNothing(chain, was, start, commits);
      if head.None? { return HeadFailed, 0, next, 0; }
      if head.value < confirmations { return Finished, 0, next, 0; }
      var target := head.value - confirmations;
      var left: nat, at: nat := actions, 0;
      while next <= target
        invariant start <= next && (next <= target + 1 || next == start)
        invariant at == |ClaimsIn(chain, start, next)|
        invariant bridge.View() == Scanned(chain, was, start, next, next, 0, commits)
        invariant store.saved == old(store.saved) || start < store.saved <= next
        invariant applied == |bridge.burns| - |old(bridge.burns)|
        decreases target + 1 - next
      {
        var span, done, n;
        span, done, n, spanEnd, partial := PollSpan(chain, target, rpcOk, putOk, left, at, commits, was, start);
        applied := applied + n;
        if span == NoLogs { return LogsFailed, applied, spanEnd, partial; }
        if span == Killed { return Died, applied, spanEnd, partial; }
        left, at := left - done - 1, at + done;
      }
      return Finished, applied, next, 0;
    }
  }
}
