/** Stored deployments: Deploy, SweepRent, eviction, restart and the bounded inboxes
    (internal/agentapi/manager.go, internal/agentapi/rent.go). */
module Deployments {
  import opened Bytes
  import opened Options
  import opened Rent

  type Id = bytes
  type Account = bytes

  datatype Deployment = Deployment(
    moduleHash: Digest,
    moduleSize: nat,
    ran: bool,
    lastCharge: nat,
    createdAt: int,
    deployer: Account,
    rentPaidThrough: int,
    rentPaid: nat,
    delinquentSince: int,
    rentRate: nat)

  /** MeterConfig, with the defaults resolved. */
  datatype Meter = Meter(price: nat, storagePrice: nat, grace: int, defaultDeployer: Account, maxModuleBytes: nat)

  predicate RentEnabled(m: Meter) { m.storagePrice > 0 }

  // ---------------------------------------------------------------- one record

  /** The record Deploy writes: today's price and clock, unless an earlier record of the
      same id already fixed them. */
  function Deployed(m: Meter, prev: Option<Deployment>, code: bytes, payer: Account, now: int, charged: nat, ran: bool)
    : Deployment
  {
    var first := Deployment(Sha256(code), |code|, ran, charged, now, payer,
                            if RentEnabled(m) then now else 0, 0, 0, m.storagePrice);
    match prev
    case None => first
    case Some(p) =>
      first.(createdAt := if p.createdAt != 0 then p.createdAt else now,
             rentPaidThrough := if p.rentPaidThrough != 0 then p.rentPaidThrough else first.rentPaidThrough,
             rentPaid := p.rentPaid,
             delinquentSince := p.delinquentSince,
             rentRate := if p.rentRate != 0 then p.rentRate else first.rentRate)
  }

  /** What a sweep charges a record now; 0 for one it does not bill. */
  function Owed(m: Meter, rec: Deployment, now: int): nat {
    if !RentEnabled(m) || rec.deployer == [] || rec.rentPaidThrough == 0 || rec.rentRate == 0 then 0
    else RentOwed(rec.moduleSize, rec.rentRate, now - rec.rentPaidThrough).0
  }

  /** A record after a charge for `covered` nanoseconds went through or failed. */
  function Settled(m: Meter, rec: Deployment, credits: nat, covered: int, now: int, settled: bool): Option<Deployment> {
    if settled then
      Some(rec.(rentPaidThrough := rec.rentPaidThrough + covered,
                rentPaid := (rec.rentPaid + credits) % TWO_64,
                delinquentSince := 0))
    else
      var since := if rec.delinquentSince == 0 then now else rec.delinquentSince;
      if now - since >= m.grace then None else Some(rec.(delinquentSince := since))
  }

  /** A record after one sweep; None when it is evicted. */
  function SweptRecord(m: Meter, rec: Deployment, now: int, settled: bool): Option<Deployment> {
    if !RentEnabled(m) || rec.deployer == [] then Some(rec)
    else if rec.rentPaidThrough == 0 || rec.rentRate == 0 then
      Some(rec.(rentPaidThrough := now, rentRate := m.storagePrice))
    else
      var (credits, covered) := RentOwed(rec.moduleSize, rec.rentRate, now - rec.rentPaidThrough);
      if credits == 0 then Some(rec) else Settled(m, rec, credits, covered, now, settled)
  }

  /** The sweep moves a pinned record's two figures exactly as the rent arithmetic
      does, so everything proved of a tenancy holds of a stored deployment. */
  lemma SweepIsTenancySweep(m: Meter, rec: Deployment, now: int, settled: bool)
    requires RentEnabled(m) && rec.deployer != [] && rec.rentPaidThrough != 0 && rec.rentRate != 0
    requires SweptRecord(m, rec, now, settled).Some?
    ensures var rec' := SweptRecord(m, rec, now, settled).value;
            && Tenancy(rec'.rentPaidThrough, rec'.rentPaid)
               == Sweep(Tenancy(rec.rentPaidThrough, rec.rentPaid), rec.moduleSize, rec.rentRate, now, settled)
            && rec'.moduleSize == rec.moduleSize && rec'.rentRate == rec.rentRate && rec'.deployer == rec.deployer
  {
  }

  // ---------------------------------------------------------------- the life of one id

  /** What happens to one id: a deploy or a sweep, each under the configuration of the
      process then running, so a restart with new prices is a change of `meter`. */
  datatype Event =
    | Deploy(meter: Meter, code: bytes, payer: Account, now: int, charged: nat, ran: bool)
    | SweepAll(meter: Meter, now: int, settled: bool)

  /** `failingSince` is when the current stretch without a settled charge first failed,
      read off the history and not off the record. */
  datatype Life = Life(rec: Option<Deployment>, clock: int, failingSince: Option<int>)

  function Live(l: Life, e: Event): Life {
    match e
    case Deploy(meter, code, payer, now, charged, ran) =>
      Life(Some(Deployed(meter, l.rec, code, payer, now, charged, ran)), now,
           if l.rec.None? then None else l.failingSince)
    case SweepAll(meter, now, settled) =>
      if l.rec.None? then l.(clock := now)
      else
        var owed := Owed(meter, l.rec.value, now) > 0;
        var rec' := SweptRecord(meter, l.rec.value, now, settled);
        Life(rec', now,
             if !owed then l.failingSince
             else if settled || rec'.None? then None
             else if l.failingSince.None? then Some(now) else l.failingSince)
  }

  /** A monotone clock after 1970, a positive grace, prices under the ceiling. */
  predicate Timely(l: Life, e: Event) {
    && 0 < e.now < TWO_63 && l.clock <= e.now && e.meter.grace > 0
  }

  predicate LivesWell(l: Life, events: seq<Event>)
    decreases events
  {
    events != [] ==> Timely(l, events[0]) && LivesWell(Live(l, events[0]), events[1..])
  }

  function LiveAll(l: Life, events: seq<Event>): Life
    decreases events
  {
    if events == [] then l else LiveAll(Live(l, events[0]), events[1..])
  }

  /** The record's clock and rate run together and never ahead of time; its grace clock
      is the history's. */
  predicate Consistent(l: Life) {
    l.rec.Some? ==>
      var r := l.rec.value;
      && (r.rentPaidThrough == 0 <==> r.rentRate == 0)
      && 0 <= r.rentPaidThrough <= l.clock
      && (match l.failingSince
          case None => r.delinquentSince == 0
          case Some(since) => r.delinquentSince == since && 0 < since <= l.clock)
  }

  lemma EventKeepsConsistent(l: Life, e: Event)
    requires Consistent(l) && Timely(l, e)
    ensures Consistent(Live(l, e))
  {
    if e.SweepAll? && l.rec.Some? && Owed(e.meter, l.rec.value, e.now) > 0 {
      var r := l.rec.value;
      CoveredNeverExceedsElapsed(r.moduleSize, r.rentRate, e.now - r.rentPaidThrough);
    }
  }

  /** A pinned rate is never repriced and the watermark never moves back or passes now,
      whatever is deployed over it and whatever the prices in force; both hold until the
      id is evicted. */
  lemma EventKeepsPin(l: Life, e: Event)
    requires Consistent(l) && Timely(l, e) && l.rec.Some? && Live(l, e).rec.Some?
    ensures var was, now := l.rec.value, Live(l, e).rec.value;
            && (was.rentRate != 0 ==> now.rentRate == was.rentRate)
            && was.rentPaidThrough <= now.rentPaidThrough <= e.now
  {
    EventKeepsConsistent(l, e);
    if e.SweepAll? && Owed(e.meter, l.rec.value, e.now) > 0 {
      var r := l.rec.value;
      CoveredNeverExceedsElapsed(r.moduleSize, r.rentRate, e.now - r.rentPaidThrough);
    }
  }

  /** An id disappears only in a sweep whose charge failed, at least the grace period
      after the first failure of a stretch in which no charge settled. */
  lemma EvictionNeedsGrace(l: Life, e: Event)
    requires Consistent(l) && Timely(l, e) && l.rec.Some?
    ensures Live(l, e).rec.None? <==>
              && e.SweepAll? && !e.settled && Owed(e.meter, l.rec.value, e.now) > 0
              && l.failingSince.Some? && e.now - l.failingSince.value >= e.meter.grace
  {
  }

  predicate EverySurvivor(l: Life, events: seq<Event>)
    decreases events
  {
    l.rec.Some? && (events != [] ==> EverySurvivor(Live(l, events[0]), events[1..]))
  }

  /** Over any interleaving of deploys, sweeps and restarts with changed prices that does
      not evict the id: its first non-zero rate is its rate, and its watermark only moved
      forward. */
  lemma {:induction false} PinHoldsForLife(l: Life, events: seq<Event>)
    requires Consistent(l) && LivesWell(l, events) && EverySurvivor(l, events)
    ensures LiveAll(l, events).rec.Some?
    ensures var was, now := l.rec.value, LiveAll(l, events).rec.value;
            && Consistent(LiveAll(l, events))
            && (was.rentRate != 0 ==> now.rentRate == was.rentRate)
            && was.rentPaidThrough <= now.rentPaidThrough <= LiveAll(l, events).clock
    decreases events
  {
    if events != [] {
      EventKeepsConsistent(l, events[0]);
      EventKeepsPin(l, events[0]);
      PinHoldsForLife(Live(l, events[0]), events[1..]);
    }
  }

  /** A redeploy is the same tenancy with a new module: what was paid, since when nothing
      was, and the times and rate already fixed all stay. */
  lemma RedeployKeepsTenancy(
      m: Meter, p: Deployment, code: bytes, payer: Account, now: int, charged: nat, ran: bool)
    requires p.createdAt != 0 && p.rentPaidThrough != 0 && p.rentRate != 0
    ensures Deployed(m, Some(p), code, payer, now, charged, ran)
            == p.(moduleHash := Sha256(code), moduleSize := |code|, ran := ran, lastCharge := charged,
                  deployer := payer)
  {
  }

  /** What an event adds to the rent paid for an id. */
  function BilledBy(l: Life, e: Event): nat {
    match e
    case Deploy(_, _, _, _, _, _) => 0
    case SweepAll(meter, now, settled) => if l.rec.Some? && settled then Owed(meter, l.rec.value, now) else 0
  }

  function BilledOver(l: Life, events: seq<Event>): nat
    decreases events
  {
    if events == [] then 0 else BilledBy(l, events[0]) + BilledOver(Live(l, events[0]), events[1..])
  }

  lemma PaidGrows(l: Life, e: Event)
    requires l.rec.Some? && l.rec.value.rentPaid < TWO_64 && Live(l, e).rec.Some?
    ensures Live(l, e).rec.value.rentPaid == (l.rec.value.rentPaid + BilledBy(l, e)) % TWO_64
  {
  }

  /** Over the life of an id, redeploys and all: the rent on record is what it was and
      every bill since that settled, in a uint64. */
  lemma {:induction false} PaidIsWhatWasBilled(l: Life, events: seq<Event>)
    requires EverySurvivor(l, events) && l.rec.value.rentPaid < TWO_64
    ensures LiveAll(l, events).rec.Some?
    ensures LiveAll(l, events).rec.value.rentPaid
            == (l.rec.value.rentPaid + BilledOver(l, events)) % 0x1_0000_0000_0000_0000
    decreases events
  {
    if events != [] {
      PaidGrows(l, events[0]);
      PaidIsWhatWasBilled(Live(l, events[0]), events[1..]);
      WrapOnce(l.rec.value.rentPaid + BilledBy(l, events[0]), BilledOver(Live(l, events[0]), events[1..]));
    }
  }

  /** The nanoseconds before now that any later bill of a record counts. */
  function CountedBefore(m: Meter, rec: Deployment, now: int): nat {
    if RentEnabled(m) && rec.deployer != [] && rec.rentRate != 0 && 0 != rec.rentPaidThrough < now
    then now - rec.rentPaidThrough
    else 0
  }

  /** A later bill is that time and the time since now, together, at the record's own
      size and rate. */
  lemma BillCounts(m: Meter, rec: Deployment, now: int, later: int)
    requires RentEnabled(m) && rec.deployer != [] && rec.rentRate != 0 && 0 != rec.rentPaidThrough <= now <= later
    ensures Owed(m, rec, later)
            == RentOwed(rec.moduleSize, rec.rentRate, CountedBefore(m, rec, now) + (later - now)).0
  {
  }

  /** A record whose clock runs but whose rate was never pinned predates the field. A
      redeploy pins today's price behind the old clock, so the bill counts time before
      the price was agreed: exactly for such a record, while rent is on. A sweep of any
      record without a price leaves no time before it to bill. */
  lemma RedeployBackdatesLegacy(
      m: Meter, p: Deployment, code: bytes, payer: Account, now: int, charged: nat, ran: bool, later: int)
    requires payer != [] && p.rentPaidThrough < now <= later
    ensures var d := Deployed(m, Some(p), code, payer, now, charged, ran);
            && (CountedBefore(m, d, now) > 0 && d.rentRate != p.rentRate
                <==> RentEnabled(m) && p.rentPaidThrough != 0 && p.rentRate == 0)
            && (RentEnabled(m) && p.rentPaidThrough != 0 && p.rentRate == 0 ==>
                  Owed(m, d, later)
                  == RentOwed(|code|, m.storagePrice, (now - p.rentPaidThrough) + (later - now)).0)
    ensures RentEnabled(m) && p.deployer != [] && (p.rentPaidThrough == 0 || p.rentRate == 0) && now != 0 ==>
              forall settled :: SweptRecord(m, p, now, settled).Some?
                && var r := SweptRecord(m, p, now, settled).value;
                   && CountedBefore(m, r, now) == 0
                   && Owed(m, r, later) == RentOwed(p.moduleSize, m.storagePrice, later - now).0
  {
    if RentEnabled(m) && p.rentPaidThrough != 0 && p.rentRate == 0 {
      BillCounts(m, Deployed(m, Some(p), code, payer, now, charged, ran), now, later);
    }
  }

  /** What was stored since the watermark, in byte-nanoseconds: the old module up to the
      redeploy, the new one after it. */
  function Held(p: Deployment, code: bytes, now: int, later: int): int {
    p.moduleSize * (now - p.rentPaidThrough) + |code| * (later - now)
  }

  /** A redeploy between two charges keeps watermark and rate but not the size, so the
      next bill takes the new module to have been there all along: less than what was
      held exactly when the module shrank, more exactly when it grew. A one-byte module
      deployed just before a sweep settles a large one's storage. */
  lemma RedeployRebillsAtNewSize(
      m: Meter, p: Deployment, code: bytes, payer: Account, now: int, charged: nat, ran: bool, later: int)
    requires RentEnabled(m) && payer != [] && p.rentRate != 0 && 0 < p.rentPaidThrough < now <= later
    ensures var d := Deployed(m, Some(p), code, payer, now, charged, ran);
            var billed := |code| * (later - p.rentPaidThrough);
            && Owed(m, d, later) == RentOwed(|code|, p.rentRate, later - p.rentPaidThrough).0
            && (billed < Held(p, code, now, later) <==> |code| < p.moduleSize)
            && (billed > Held(p, code, now, later) <==> |code| > p.moduleSize)
  {
    var before := now - p.rentPaidThrough;
    assert |code| * (later - p.rentPaidThrough) == |code| * before + |code| * (later - now);
    MulOrder(before, |code|, p.moduleSize);
    MulOrder(before, p.moduleSize, |code|);
  }

  // ---------------------------------------------------------------- the manager

  const MAX_INBOX_MESSAGES: nat := 1024
  const MAX_INBOX_BYTES: nat := 8_388_608

  datatype Error =
    | EmptyId | EmptyModule | ModuleTooLarge | InvalidLimits
    | NoSigningAccount | MeterNotApplied | NoSuchAgent | InboxFull
  datatype Result<+T> = Ok(value: T) | Err(error: Error)

  /** agent.ResourceLimits; the run time is a signed duration in nanoseconds. */
  datatype Limits = Limits(memoryPages: nat, runTime: int)
  const DEFAULT_LIMITS: Limits := Limits(256, 5_000_000_000)
  const MAX_ALLOWED: Limits := Limits(1024, 30_000_000_000)

  function NormalizeLimits(l: Limits): Limits {
    var pages := if l.memoryPages == 0 then DEFAULT_LIMITS.memoryPages else l.memoryPages;
    var runTime := if l.runTime <= 0 then DEFAULT_LIMITS.runTime else l.runTime;
    Limits(if pages > MAX_ALLOWED.memoryPages then MAX_ALLOWED.memoryPages else pages,
           if runTime > MAX_ALLOWED.runTime then MAX_ALLOWED.runTime else runTime)
  }

  /** ResourceLimits.Validate. */
  predicate LimitsValid(l: Limits) { 0 < l.memoryPages <= 65536 && l.runTime >= 0 }

  datatype Outcome = Outcome(
    considered: nat, charged: nat, billed: seq<Id>, unowned: seq<Id>, delinquent: seq<Id>, evicted: seq<Id>)

  /** The line a sweep's report gains from one deployment. */
  function Tally(out: Outcome, id: Id, billed: bool, unowned: bool, gone: bool, credits: nat): Outcome {
    if billed then out.(charged := (out.charged + credits) % TWO_64, billed := out.billed + [id])
    else if unowned then out.(unowned := out.unowned + [id])
    else if gone then out.(evicted := out.evicted + [id])
    else if credits > 0 then out.(delinquent := out.delinquent + [id])
    else out
  }

  function SizeOf(msgs: seq<bytes>): nat {
    if msgs == [] then 0 else SizeOf(msgs[..|msgs| - 1]) + |msgs[|msgs| - 1]|
  }

  /** The kv store: records and module bytes under their two prefixes. */
  class Store {
    var records: map<Id, Deployment>
    var modules: map<Id, bytes>
    constructor () ensures records == map[] && modules == map[] { records, modules := map[], map[]; }

    /** Every record has the module it was written with, and no module is orphaned. */
    predicate Paired()
      reads this
    {
      && records.Keys == modules.Keys
      && forall id :: id in records ==>
           records[id].moduleSize == |modules[id]| && records[id].moduleHash == Sha256(modules[id])
    }
  }

  function Lookup(m: map<Id, Deployment>, id: Id): Option<Deployment> {
    if id in m then Some(m[id]) else None
  }

  /** How the consensus engine answers a charge: payer, amount, nonce. */
  type Settler = (Account, nat, nat) -> bool

  function NonceOf(nonces: map<Account, nat>, payer: Account): nat {
    if payer in nonces then nonces[payer] else 0
  }

  /** A charge goes through when the node can sign for the payer and the engine applies
      the transfer under the payer's next nonce. */
  predicate WouldSettle(
      accounts: set<Account>, settles: Settler, payer: Account, amount: nat, nonces: map<Account, nat>)
  {
    payer != [] && payer in accounts && settles(payer, amount, NonceOf(nonces, payer))
  }

  /** The nonces a charge leaves: whatever becomes of it, one is used up once there is
      something to pay and somebody to sign for. */
  function NoncesAfter(accounts: set<Account>, payer: Account, amount: nat, nonces: map<Account, nat>)
    : map<Account, nat>
  {
    if amount == 0 || payer == [] || payer !in accounts then nonces
    else nonces[payer := (NonceOf(nonces, payer) + 1) % TWO_64]
  }

  /** An inbox table after one send to a named deployment: the bytes queued at the end, or
      nothing, when there is no such deployment or no room. */
  function Delivered(stored: set<Id>, inbox: map<Id, seq<bytes>>, target: Id, payload: bytes): map<Id, seq<bytes>> {
    var queued := if target in inbox then inbox[target] else [];
    if target !in stored || |queued| >= MAX_INBOX_MESSAGES || SizeOf(queued) + |payload| > MAX_INBOX_BYTES then inbox
    else inbox[target := queued + [payload]]
  }

  function DeliveredAll(stored: set<Id>, inbox: map<Id, seq<bytes>>, sends: seq<(Id, bytes)>): map<Id, seq<bytes>> {
    if sends == [] then inbox
    else
      var n := |sends| - 1;
      Delivered(stored, DeliveredAll(stored, inbox, sends[..n]), sends[n].0, sends[n].1)
  }

  /** What is queued stays queued, in order, and only stored deployments are sent to. */
  lemma {:induction false} DeliveredAllKeeps(stored: set<Id>, inbox: map<Id, seq<bytes>>, sends: seq<(Id, bytes)>)
    ensures var after := DeliveredAll(stored, inbox, sends);
            && (forall id :: id in inbox ==> id in after && inbox[id] <= after[id])
            && (forall id :: id in after ==> id in inbox || id in stored)
  {
    if sends != [] { DeliveredAllKeeps(stored, inbox, sends[..|sends| - 1]); }
  }

  class Manager {
    const store: Store
    const meter: Meter
    const accounts: set<Account>
    const settles: Settler
    var records: map<Id, Deployment>
    var inbox: map<Id, seq<bytes>>
    var inboxBytes: map<Id, nat>
    var nonce: map<Account, nat>

    /** Memory and store agree, and the inboxes keep their bounds. */
    predicate Valid()
      reads this, store
    {
      && records == store.records && store.Paired()
      && inbox.Keys == inboxBytes.Keys && inbox.Keys <= records.Keys
      && forall id :: id in inbox ==>
           && inboxBytes[id] == SizeOf(inbox[id]) <= MAX_INBOX_BYTES
           && |inbox[id]| <= MAX_INBOX_MESSAGES
    }

    /** NewManager over a store: a restart rebuilds the same records, and nothing else
        survives it. */
    constructor (store: Store, meter: Meter, accounts: set<Account>, settles: Settler)
      requires store.Paired()
      ensures Valid() && this.store == store && this.meter == meter
      ensures this.accounts == accounts && this.settles == settles
      ensures records == store.records && inbox == map[] && nonce == map[]
    {
      this.store, this.meter, this.accounts, this.settles := store, meter, accounts, settles;
      records, inbox, inboxBytes, nonce := store.records, map[], map[], map[];
    }

    method NextNonce(payer: Account) returns (n: nat)
      modifies this`nonce
      ensures n == if payer in old(nonce) then old(nonce)[payer] else 0
      ensures nonce == old(nonce)[payer := (n + 1) % TWO_64]
    {
      n := if payer in nonce then nonce[payer] else 0;
      nonce := nonce[payer := (n + 1) % TWO_64];
    }

    /** charge and chargeRent: a payer that cannot sign, and a transfer that does not
        apply, both leave the charge unpaid. */
    method Charge(payer: Account, amount: nat) returns (r: Result<nat>)
      modifies this`nonce
      ensures r.Ok? <==> amount == 0 || WouldSettle(accounts, settles, payer, amount, old(nonce))
      ensures r.Ok? ==> r.value == amount
      ensures nonce == NoncesAfter(accounts, payer, amount, old(nonce))
      ensures r.Err? ==> r.error == if payer == [] || payer !in accounts then NoSigningAccount else MeterNotApplied
    {
      if amount == 0 { return Ok(0); }
      if payer == [] || payer !in accounts { return Err(NoSigningAccount); }
      var n := NextNonce(payer);
      if !settles(payer, amount, n) { return Err(MeterNotApplied); }
      return Ok(amount);
    }

    /** A permitted send to a named deployment. */
    method Deliver(target: Id, payload: bytes) returns (r: Result<()>)
      requires Valid()
      modifies this`inbox, this`inboxBytes
      ensures Valid()
      ensures var queued := if target in old(inbox) then old(inbox)[target] else [];
              && (r.Ok? <==> target in records && |queued| < MAX_INBOX_MESSAGES
                             && SizeOf(queued) + |payload| <= MAX_INBOX_BYTES)
              && (r.Ok? ==> inbox == old(inbox)[target := queued + [payload]])
              && (r.Err? ==> inbox == old(inbox) && inboxBytes == old(inboxBytes))
              && (r == Err(NoSuchAgent) <==> target !in records)
    {
      if target !in records { return Err(NoSuchAgent); }
      var queued := if target in inbox then inbox[target] else [];
      var size := if target in inboxBytes then inboxBytes[target] else 0;
      if |queued| >= MAX_INBOX_MESSAGES { return Err(InboxFull); }
      if size + |payload| > MAX_INBOX_BYTES { return Err(InboxFull); }
      assert (queued + [payload])[..|queued|] == queued;
      inbox := inbox[target := queued + [payload]];
      inboxBytes := inboxBytes[target := size + |payload|];
      return Ok(());
    }

    /** The messages, and an empty inbox. */
    method DrainInbox(id: Id) returns (msgs: seq<bytes>)
      requires Valid()
      modifies this`inbox, this`inboxBytes
      ensures Valid()
      ensures msgs == if id in old(inbox) then old(inbox)[id] else []
      ensures inbox == old(inbox) - {id}
    {
      msgs := if id in inbox then inbox[id] else [];
      inbox := inbox - {id};
      inboxBytes := inboxBytes - {id};
    }

    /** Running a module: whatever it sends is queued, in order, for deployments that
        existed when it ran. */
    method RunModule(sends: seq<(Id, bytes)>)
      requires Valid()
      modifies this`inbox, this`inboxBytes
      ensures Valid()
      ensures inbox == DeliveredAll(records.Keys, old(inbox), sends)
    {
      for k := 0 to |sends|
        invariant Valid()
        invariant inbox == DeliveredAll(records.Keys, old(inbox), sends[..k])
      {
        assert sends[..k + 1][..k] == sends[..k];
        var _ := Deliver(sends[k].0, sends[k].1);
      }
      assert sends[..|sends|] == sends;
    }

    /** Record and module in one batch, then the in-memory record. */
    method Persist(id: Id, rec: Deployment, code: bytes)
      requires Valid() && rec.moduleSize == |code| && rec.moduleHash == Sha256(code)
      modifies this`records, store
      ensures Valid()
      ensures records == old(records)[id := rec] && store.modules == old(store.modules)[id := code]
    {
      store.records := store.records[id := rec];
      store.modules := store.modules[id := code];
      records := records[id := rec];
    }

    function PayerOf(deployer: Account): Account {
      if deployer == [] then meter.defaultDeployer else deployer
    }

    /** Deploy: checks, the run charge, the run, then record and module in one batch.
        `sends` and `ran` are what the module does when run. A metered deploy never
        runs unpaid, nothing is stored rent-free without an owner, and the refusal of
        invalid limits is dead: whatever was asked for is valid once normalized. */
    method Deploy(
        id: Id, code: bytes, limits: Limits, deployer: Account, now: int, sends: seq<(Id, bytes)>, ran: bool)
      returns (r: Result<Deployment>)
      requires Valid()
      modifies this, store
      ensures Valid()
      ensures r.Ok? <==>
                && id != [] && 0 < |code| <= meter.maxModuleBytes
                && (meter.price > 0 ==> WouldSettle(accounts, settles, PayerOf(deployer), meter.price, old(nonce)))
                && (RentEnabled(meter) ==> PayerOf(deployer) != [])
      ensures r.Ok? ==>
                && r.value == Deployed(meter, Lookup(old(records), id), code, PayerOf(deployer), now, meter.price, ran)
                && records == old(records)[id := r.value]
                && store.modules == old(store.modules)[id := code]
      ensures r.Err? ==> records == old(records) && store.modules == old(store.modules)
      ensures inbox == if r.Ok? then DeliveredAll(old(records).Keys, old(inbox), sends) else old(inbox)
      ensures nonce == if id == [] || code == [] || |code| > meter.maxModuleBytes then old(nonce)
                       else NoncesAfter(accounts, PayerOf(deployer), meter.price, old(nonce))
      ensures r != Err(InvalidLimits)
    {
      if id == [] { return Err(EmptyId); }
      if code == [] { return Err(EmptyModule); }
      if |code| > meter.maxModuleBytes { return Err(ModuleTooLarge); }
      if !LimitsValid(NormalizeLimits(limits)) { return Err(InvalidLimits); }
      var payer := PayerOf(deployer);
      var charged := Charge(payer, meter.price);
      if charged.Err? { return Err(charged.error); }
      if RentEnabled(meter) && payer == [] { return Err(NoSigningAccount); }
      var rec := Deployed(meter, Lookup(records, id), code, payer, now, charged.value, ran);
      RunModule(sends);
      Persist(id, rec, code);
      return Ok(rec);
    }

    method Evict(id: Id)
      requires Valid()
      modifies this, store
      ensures Valid()
      ensures records == old(records) - {id} && store.modules == old(store.modules) - {id}
      ensures inbox == old(inbox) - {id} && nonce == old(nonce)
    {
      store.records := store.records - {id};
      store.modules := store.modules - {id};
      records := records - {id};
      inbox := inbox - {id};
      inboxBytes := inboxBytes - {id};
    }

    method SaveRecord(id: Id, rec: Deployment)
      requires Valid() && id in records
      requires rec.moduleSize == records[id].moduleSize && rec.moduleHash == records[id].moduleHash
      modifies this`records, store`records
      ensures Valid() && records == old(records)[id := rec]
    {
      store.records := store.records[id := rec];
      records := records[id := rec];
    }

    /** Charging a deployment what it owes: paid, it is credited the time `covered`; unpaid,
        it is kept until its grace has run out. */
    method SettleRent(id: Id, owed: nat, covered: int, now: int) returns (billed: bool)
      requires Valid() && id in records && owed > 0
      modifies this, store
      ensures Valid()
      ensures billed <==> WouldSettle(accounts, settles, old(records)[id].deployer, owed, old(nonce))
      ensures nonce == NoncesAfter(accounts, old(records)[id].deployer, owed, old(nonce))
      ensures Lookup(records, id) == Settled(meter, old(records)[id], owed, covered, now, billed)
      ensures records - {id} == old(records) - {id}
      ensures inbox == if id in records then old(inbox) else old(inbox) - {id}
    {
      var rec := records[id];
      var paid := Charge(rec.deployer, owed);
      if paid.Err? {
        if rec.delinquentSince == 0 { rec := rec.(delinquentSince := now); }
        if now - rec.delinquentSince >= meter.grace {
          Evict(id);
        } else {
          SaveRecord(id, rec);
        }
        return false;
      }
      SaveRecord(id, rec.(rentPaidThrough := rec.rentPaidThrough + covered,
                          rentPaid := (rec.rentPaid + owed) % TWO_64,
                          delinquentSince := 0));
      return true;
    }

    /** One deployment's turn in a sweep: charged at its own rate, then kept, marked
        delinquent or evicted. */
    method SweepOne(id: Id, now: int) returns (billed: bool, credits: nat)
      requires Valid() && id in records && RentEnabled(meter)
      modifies this, store
      ensures Valid()
      ensures credits == Owed(meter, old(records)[id], now)
      ensures billed <==> credits > 0 && WouldSettle(accounts, settles, old(records)[id].deployer, credits, old(nonce))
      ensures nonce == NoncesAfter(accounts, old(records)[id].deployer, credits, old(nonce))
      ensures Lookup(records, id) == SweptRecord(meter, old(records)[id], now, billed)
      ensures records - {id} == old(records) - {id}
      ensures inbox == if id in records then old(inbox) else old(inbox) - {id}
    {
      var rec := records[id];
      if rec.deployer == [] { return false, 0; }
      if rec.rentPaidThrough == 0 || rec.rentRate == 0 {
        SaveRecord(id, rec.(rentPaidThrough := now, rentRate := meter.storagePrice));
        return false, 0;
      }
      var (owed, covered) := RentOwed(rec.moduleSize, rec.rentRate, now - rec.rentPaidThrough);
      if owed == 0 { return false, 0; }
      billed := SettleRent(id, owed, covered, now);
      credits := owed;
    }

    /** The sweep's loop. */
    method SweepEach(ids: seq<Id>, now: int) returns (out: Outcome)
      requires Valid() && RentEnabled(meter) && AllOf(ids, records)
      modifies this, store
      ensures Valid()
      ensures var settled := Settlements(meter, accounts, settles, old(records), ids, old(nonce), now);
              records == SweptInOrder(meter, old(records), ids, settled, now)
              && out == Report(meter, old(records), ids, settled, now)
      ensures nonce == NoncesAt(meter, accounts, old(records), ids, old(nonce), now)
      ensures Thinned(old(inbox), inbox, records)
    {
      out := Outcome(|ids|, 0, [], [], [], []);
      ghost var settled: seq<bool> := [];
      for k := 0 to |ids|
        invariant Valid() && |settled| == k
        invariant settled == Settlements(meter, accounts, settles, old(records), ids[..k], old(nonce), now)
        invariant nonce == NoncesAt(meter, accounts, old(records), ids[..k], old(nonce), now)
        invariant records == SweptInOrder(meter, old(records), ids[..k], settled, now)
        invariant out == Report(meter, old(records), ids[..k], settled, now).(considered := |ids|)
        invariant Thinned(old(inbox), inbox, records)
      {
        var id := ids[k];
        LaterIdsStay(meter, old(records), ids, settled, now);
        var was := records[id];
        ghost var before := records;
        SettledNext(meter, accounts, settles, old(records), ids, k, old(nonce), now);
        var billed, credits := SweepOne(id, now);
        SwappedOut(before, records, id);
        SweptNext(meter, old(records), ids, settled, billed, now);
        out := Tally(out, id, billed, was.deployer == [], id !in records, credits);
        settled := settled + [billed];
      }
      assert ids[..|ids|] == ids;
    }

    /** The whole sweep, over the ids in any order: every deployment is swept exactly
        once, at its own figures, its charge put to the engine under its payer's next
        nonce, and nothing else is touched. A deployment that goes takes its module and
        its inbox with it (Valid), one that stays keeps them. The report has every list,
        in order, and the total. */
    method SweepRent(ids: seq<Id>, now: int) returns (out: Outcome)
      requires Valid() && AllOf(ids, records) && forall id :: id in records ==> id in ids
      modifies this, store
      ensures Valid()
      ensures !RentEnabled(meter) ==>
                && records == old(records) && inbox == old(inbox) && nonce == old(nonce)
                && out == Outcome(0, 0, [], [], [], [])
      ensures RentEnabled(meter) ==>
                var settled := Settlements(meter, accounts, settles, old(records), ids, old(nonce), now);
                && out == Report(meter, old(records), ids, settled, now)
                && Pointwise(meter, old(records), ids, settled, now, records)
                && nonce == NoncesAt(meter, accounts, old(records), ids, old(nonce), now)
                && Thinned(old(inbox), inbox, records)
    {
      if !RentEnabled(meter) { return Outcome(0, 0, [], [], [], []); }
      out := SweepEach(ids, now);
      SweptInOrderPointwise(
        meter, old(records), ids, Settlements(meter, accounts, settles, old(records), ids, old(nonce), now), now);
    }
  }

  // ---------------------------------------------------------------- which charges go through

  /** The nonces after these ids' turns in a sweep. */
  function NoncesAt(
      m: Meter, accounts: set<Account>, recs: map<Id, Deployment>, ids: seq<Id>, nonces: map<Account, nat>, now: int)
    : map<Account, nat>
    requires forall i :: 0 <= i < |ids| ==> ids[i] in recs
  {
    if ids == [] then nonces
    else
      var n := |ids| - 1;
      NoncesAfter(accounts, recs[ids[n]].deployer, Owed(m, recs[ids[n]], now),
                  NoncesAt(m, accounts, recs, ids[..n], nonces, now))
  }

  /** Whether the charge for ids[i] goes through: it owes something, and the engine
      applies it under the nonce its payer has by then. */
  predicate SettlesAt(
      m: Meter, accounts: set<Account>, settles: Settler, recs: map<Id, Deployment>, ids: seq<Id>,
      nonces: map<Account, nat>, now: int, i: nat)
    requires i < |ids| && forall j :: 0 <= j < |ids| ==> ids[j] in recs
  {
    var (payer, owed) := (recs[ids[i]].deployer, Owed(m, recs[ids[i]], now));
    owed > 0 && WouldSettle(accounts, settles, payer, owed, NoncesAt(m, accounts, recs, ids[..i], nonces, now))
  }

  function Settlements(
      m: Meter, accounts: set<Account>, settles: Settler, recs: map<Id, Deployment>, ids: seq<Id>,
      nonces: map<Account, nat>, now: int)
    : (settled: seq<bool>)
    requires forall i :: 0 <= i < |ids| ==> ids[i] in recs
    ensures |settled| == |ids|
  {
    seq(|ids|, i requires 0 <= i < |ids| => SettlesAt(m, accounts, settles, recs, ids, nonces, now, i))
  }

  lemma SettlesAtPrefix(
      m: Meter, accounts: set<Account>, settles: Settler, recs: map<Id, Deployment>, ids: seq<Id>,
      nonces: map<Account, nat>, now: int, k: nat, i: nat)
    requires i < k <= |ids| && forall j :: 0 <= j < |ids| ==> ids[j] in recs
    ensures SettlesAt(m, accounts, settles, recs, ids[..k], nonces, now, i)
            == SettlesAt(m, accounts, settles, recs, ids, nonces, now, i)
  {
    assert ids[..k][..i] == ids[..i];
  }

  lemma SettledNext(
      m: Meter, accounts: set<Account>, settles: Settler, recs: map<Id, Deployment>, ids: seq<Id>, k: nat,
      nonces: map<Account, nat>, now: int)
    requires k < |ids| && forall i :: 0 <= i < |ids| ==> ids[i] in recs
    ensures NoncesAt(m, accounts, recs, ids[..k + 1], nonces, now)
            == NoncesAfter(accounts, recs[ids[k]].deployer, Owed(m, recs[ids[k]], now),
                           NoncesAt(m, accounts, recs, ids[..k], nonces, now))
    ensures Settlements(m, accounts, settles, recs, ids[..k + 1], nonces, now)
            == Settlements(m, accounts, settles, recs, ids[..k], nonces, now)
               + [SettlesAt(m, accounts, settles, recs, ids, nonces, now, k)]
  {
    assert ids[..k + 1][..k] == ids[..k];
    SettlementsAre(m, accounts, settles, recs, ids, nonces, now, k);
    SettlementsAre(m, accounts, settles, recs, ids, nonces, now, k + 1);
  }

  lemma SettlementsAre(
      m: Meter, accounts: set<Account>, settles: Settler, recs: map<Id, Deployment>, ids: seq<Id>,
      nonces: map<Account, nat>, now: int, k: nat)
    requires k <= |ids| && forall i :: 0 <= i < |ids| ==> ids[i] in recs
    ensures forall i :: 0 <= i < k ==>
              Settlements(m, accounts, settles, recs, ids[..k], nonces, now)[i]
              == SettlesAt(m, accounts, settles, recs, ids, nonces, now, i)
  {
    forall i | 0 <= i < k
      ensures Settlements(m, accounts, settles, recs, ids[..k], nonces, now)[i]
              == SettlesAt(m, accounts, settles, recs, ids, nonces, now, i)
    {
      SettlesAtPrefix(m, accounts, settles, recs, ids, nonces, now, k, i);
    }
  }

  /** How many of these ids charge this payer something. */
  function ChargesTo(m: Meter, recs: map<Id, Deployment>, ids: seq<Id>, payer: Account, now: int): nat
    requires forall i :: 0 <= i < |ids| ==> ids[i] in recs
  {
    if ids == [] then 0
    else
      var rec := recs[ids[|ids| - 1]];
      ChargesTo(m, recs, ids[..|ids| - 1], payer, now) + if rec.deployer == payer && Owed(m, rec, now) > 0 then 1 else 0
  }

  /** A payer's nonce at a turn is what it was and one more for every earlier charge to the
      same payer, applied or not; nobody else's charges move it. */
  lemma {:induction false} NoncesCountCharges(
      m: Meter, accounts: set<Account>, recs: map<Id, Deployment>, ids: seq<Id>, nonces: map<Account, nat>, now: int,
      payer: Account)
    requires forall i :: 0 <= i < |ids| ==> ids[i] in recs
    requires payer != [] && payer in accounts && NonceOf(nonces, payer) < TWO_64
    ensures NonceOf(NoncesAt(m, accounts, recs, ids, nonces, now), payer)
            == (NonceOf(nonces, payer) + ChargesTo(m, recs, ids, payer, now)) % 0x1_0000_0000_0000_0000
  {
    if ids != [] {
      var before := ids[..|ids| - 1];
      NoncesCountCharges(m, accounts, recs, before, nonces, now, payer);
      CountOneMore(m, accounts, recs, ids, nonces, now, payer, NonceOf(nonces, payer));
    }
  }

  lemma CountOneMore(
      m: Meter, accounts: set<Account>, recs: map<Id, Deployment>, ids: seq<Id>, nonces: map<Account, nat>, now: int,
      payer: Account, n: nat)
    requires ids != [] && forall i :: 0 <= i < |ids| ==> ids[i] in recs
    requires payer != [] && payer in accounts
    requires var before := ids[..|ids| - 1];
             NonceOf(NoncesAt(m, accounts, recs, before, nonces, now), payer)
             == (n + ChargesTo(m, recs, before, payer, now)) % TWO_64
    ensures NonceOf(NoncesAt(m, accounts, recs, ids, nonces, now), payer)
            == (n + ChargesTo(m, recs, ids, payer, now)) % TWO_64
  {
    var before, rec := ids[..|ids| - 1], recs[ids[|ids| - 1]];
    NonceAfterCharge(accounts, rec.deployer, Owed(m, rec, now), NoncesAt(m, accounts, recs, before, nonces, now), payer,
                     n + ChargesTo(m, recs, before, payer, now));
  }

  lemma NonceAfterCharge(
      accounts: set<Account>, charged: Account, amount: nat, nonces: map<Account, nat>, payer: Account, n: nat)
    requires payer != [] && payer in accounts && NonceOf(nonces, payer) == n % TWO_64
    ensures NonceOf(NoncesAfter(accounts, charged, amount, nonces), payer)
            == (n + if charged == payer && amount > 0 then 1 else 0) % TWO_64
  {
    WrapOnce(n, 1);
  }

  /** What a charge makes of a record that owes something. */
  lemma FateWhenCharged(m: Meter, rec: Deployment, now: int, settled: bool)
    requires RentEnabled(m) && rec.deployer != [] && Owed(m, rec, now) > 0
    ensures var since := if rec.delinquentSince == 0 then now else rec.delinquentSince;
            var (r, fate) := (SweptRecord(m, rec, now, settled), FateOf(m, rec, now, settled));
            && (settled ==>
                  && fate == Billed && r.Some? && r.value.delinquentSince == 0
                  && r.value.rentPaid == (rec.rentPaid + Owed(m, rec, now)) % TWO_64)
            && (!settled && now - since >= m.grace ==> fate == Evicted && r == None)
            && (!settled && now - since < m.grace ==>
                  && fate == Delinquent && r == Some(rec.(delinquentSince := since)))
  {
  }

  lemma FateIsReported(m: Meter, recs: map<Id, Deployment>, ids: seq<Id>, settled: seq<bool>, now: int, i: nat)
    requires |settled| == |ids| && AllOf(ids, recs) && i < |ids|
    ensures var (out, fate) := (Report(m, recs, ids, settled, now), FateOf(m, recs[ids[i]], now, settled[i]));
            && (ids[i] in out.billed <==> fate == Billed) && (ids[i] in out.delinquent <==> fate == Delinquent)
            && (ids[i] in out.evicted <==> fate == Evicted) && (ids[i] in out.unowned <==> fate == Unowned)
    ensures Lookup(SweptInOrder(m, recs, ids, settled, now), ids[i]) == SweptRecord(m, recs[ids[i]], now, settled[i])
  {
    SweptInOrderPointwise(m, recs, ids, settled, now);
    NamedOnce(m, recs, ids, settled, now, i, Billed);
    NamedOnce(m, recs, ids, settled, now, i, Delinquent);
    NamedOnce(m, recs, ids, settled, now, i, Evicted);
    NamedOnce(m, recs, ids, settled, now, i, Unowned);
  }

  /** A deployment billed, in the report and in the records: on no other list, nothing
      outstanding, what it owed on record as paid. */
  ghost predicate ShownBilled(out: Outcome, left: map<Id, Deployment>, id: Id, paid: nat) {
    && id in out.billed && id !in out.delinquent && id !in out.evicted
    && id in left && left[id].delinquentSince == 0 && left[id].rentPaid == paid
  }

  /** One not billed: gone if it is overdue, marked since when it has been failing if not. */
  ghost predicate ShownUnpaid(
      out: Outcome, left: map<Id, Deployment>, id: Id, rec: Deployment, since: int, overdue: bool)
  {
    && id !in out.billed && (id in out.evicted <==> overdue) && (id in out.delinquent <==> !overdue)
    && Lookup(left, id) == if overdue then None else Some(rec.(delinquentSince := since))
  }

  /** What the report and the records show of a charge. */
  ghost predicate Shown(
      m: Meter, out: Outcome, left: map<Id, Deployment>, id: Id, rec: Deployment, now: int, settled: bool)
  {
    var since := if rec.delinquentSince == 0 then now else rec.delinquentSince;
    if settled then ShownBilled(out, left, id, (rec.rentPaid + Owed(m, rec, now)) % TWO_64)
    else ShownUnpaid(out, left, id, rec, since, now - since >= m.grace)
  }

  lemma FateIsShown(
      m: Meter, out: Outcome, left: map<Id, Deployment>, id: Id, rec: Deployment, now: int, settled: bool)
    requires RentEnabled(m) && rec.deployer != [] && Owed(m, rec, now) > 0
    requires Lookup(left, id) == SweptRecord(m, rec, now, settled)
    requires var fate := FateOf(m, rec, now, settled);
             && (id in out.billed <==> fate == Billed) && (id in out.delinquent <==> fate == Delinquent)
             && (id in out.evicted <==> fate == Evicted)
    ensures Shown(m, out, left, id, rec, now, settled)
  {
    FateWhenCharged(m, rec, now, settled);
  }

  lemma ChargeIsShown(m: Meter, recs: map<Id, Deployment>, ids: seq<Id>, settled: seq<bool>, now: int, i: nat)
    requires |settled| == |ids| && AllOf(ids, recs) && i < |ids| && RentEnabled(m)
    requires recs[ids[i]].deployer != [] && Owed(m, recs[ids[i]], now) > 0
    ensures Shown(m, Report(m, recs, ids, settled, now), SweptInOrder(m, recs, ids, settled, now), ids[i], recs[ids[i]],
                  now, settled[i])
  {
    FateIsReported(m, recs, ids, settled, now, i);
    FateIsShown(m, Report(m, recs, ids, settled, now), SweptInOrder(m, recs, ids, settled, now), ids[i], recs[ids[i]],
                now, settled[i]);
  }

  /** An owner the node can sign for, whose transfers the engine always applies, pays for
      everything it owes: whatever else is in the sweep, its deployment is billed and kept
      with nothing outstanding. */
  lemma SolventOwnerIsBilled(
      m: Meter, accounts: set<Account>, settles: Settler, recs: map<Id, Deployment>, ids: seq<Id>,
      nonces: map<Account, nat>, now: int, i: nat)
    requires AllOf(ids, recs) && i < |ids| && RentEnabled(m)
    requires Owed(m, recs[ids[i]], now) > 0
    requires recs[ids[i]].deployer != [] && recs[ids[i]].deployer in accounts
    requires forall amount, n :: settles(recs[ids[i]].deployer, amount, n)
    ensures var settled := Settlements(m, accounts, settles, recs, ids, nonces, now);
            ShownBilled(Report(m, recs, ids, settled, now), SweptInOrder(m, recs, ids, settled, now), ids[i],
                        (recs[ids[i]].rentPaid + Owed(m, recs[ids[i]], now)) % 0x1_0000_0000_0000_0000)
  {
    assert SettlesAt(m, accounts, settles, recs, ids, nonces, now, i);
    ChargeIsShown(m, recs, ids, Settlements(m, accounts, settles, recs, ids, nonces, now), now, i);
  }

  /** An owner the engine refuses is never billed, and goes exactly when its grace has
      run out. */
  lemma RefusedOwnerIsNotBilled(
      m: Meter, accounts: set<Account>, settles: Settler, recs: map<Id, Deployment>, ids: seq<Id>,
      nonces: map<Account, nat>, now: int, i: nat)
    requires AllOf(ids, recs) && i < |ids| && RentEnabled(m)
    requires recs[ids[i]].deployer != [] && Owed(m, recs[ids[i]], now) > 0
    requires recs[ids[i]].deployer !in accounts || forall amount, n :: !settles(recs[ids[i]].deployer, amount, n)
    ensures var settled := Settlements(m, accounts, settles, recs, ids, nonces, now);
            var since := if recs[ids[i]].delinquentSince == 0 then now else recs[ids[i]].delinquentSince;
            ShownUnpaid(Report(m, recs, ids, settled, now), SweptInOrder(m, recs, ids, settled, now), ids[i],
                        recs[ids[i]], since, now - since >= m.grace)
  {
    assert !SettlesAt(m, accounts, settles, recs, ids, nonces, now, i);
    ChargeIsShown(m, recs, ids, Settlements(m, accounts, settles, recs, ids, nonces, now), now, i);
  }

  /** An id of a distinct list is on the list of its own fate and on no other. */
  lemma NamedOnce(
      m: Meter, recs: map<Id, Deployment>, ids: seq<Id>, settled: seq<bool>, now: int, i: nat, fate: Fate)
    requires |settled| == |ids| && AllOf(ids, recs) && i < |ids|
    ensures ids[i] in Named(m, recs, ids, settled, now, fate) <==> FateOf(m, recs[ids[i]], now, settled[i]) == fate
  {
    NamedAre(m, recs, ids, settled, now, fate);
  }

  /** Distinct ids of stored deployments. */
  predicate AllOf(ids: seq<Id>, records: map<Id, Deployment>) {
    && (forall i :: 0 <= i < |ids| ==> ids[i] in records)
    && (forall i, j :: 0 <= i < j < |ids| ==> ids[i] != ids[j])
  }

  /** Inboxes may have gone with their deployments, and changed in no other way. */
  predicate Thinned(was: map<Id, seq<bytes>>, now: map<Id, seq<bytes>>, records: map<Id, Deployment>) {
    && (forall id :: id in now ==> id in was && now[id] == was[id])
    && (forall id :: id in was && id in records ==> id in now)
  }

  /** What a sweep makes of one deployment. */
  datatype Fate = Unowned | Quiet | Billed | Delinquent | Evicted

  function FateOf(m: Meter, rec: Deployment, now: int, settled: bool): Fate {
    if rec.deployer == [] then Unowned
    else if Owed(m, rec, now) == 0 then Quiet
    else if settled then Billed
    else if SweptRecord(m, rec, now, false).None? then Evicted
    else Delinquent
  }

  /** The ids that met a fate, in order. */
  function Named(m: Meter, recs: map<Id, Deployment>, ids: seq<Id>, settled: seq<bool>, now: int, fate: Fate): seq<Id>
    requires |settled| == |ids|
  {
    if ids == [] then []
    else
      var n := |ids| - 1;
      Named(m, recs, ids[..n], settled[..n], now, fate)
      + if ids[n] in recs && FateOf(m, recs[ids[n]], now, settled[n]) == fate then [ids[n]] else []
  }

  function OwedBy(m: Meter, rec: Option<Deployment>, now: int): nat {
    if rec.Some? then Owed(m, rec.value, now) else 0
  }

  function SumOwed(m: Meter, recs: map<Id, Deployment>, ids: seq<Id>, now: int): nat {
    if ids == [] then 0
    else SumOwed(m, recs, ids[..|ids| - 1], now) + OwedBy(m, Lookup(recs, ids[|ids| - 1]), now)
  }

  /** The whole report: every deployment with an owner and something to pay on exactly one
      of three lists, those without an owner on the fourth, and the total of what the
      billed ones owed, in a uint64. */
  function Report(m: Meter, recs: map<Id, Deployment>, ids: seq<Id>, settled: seq<bool>, now: int): Outcome
    requires |settled| == |ids|
  {
    var billed := Named(m, recs, ids, settled, now, Billed);
    Outcome(|ids|, SumOwed(m, recs, billed, now) % TWO_64, billed,
            Named(m, recs, ids, settled, now, Unowned), Named(m, recs, ids, settled, now, Delinquent),
            Named(m, recs, ids, settled, now, Evicted))
  }

  /** A list names exactly the deployments whose fate it is. */
  lemma {:induction false} NamedAre(
      m: Meter, recs: map<Id, Deployment>, ids: seq<Id>, settled: seq<bool>, now: int, fate: Fate)
    requires |settled| == |ids|
    ensures forall id :: id in Named(m, recs, ids, settled, now, fate) <==>
              exists i :: 0 <= i < |ids| && ids[i] == id && id in recs && FateOf(m, recs[id], now, settled[i]) == fate
  {
    if ids != [] {
      var n := |ids| - 1;
      NamedAre(m, recs, ids[..n], settled[..n], now, fate);
      assert forall i :: 0 <= i < n ==> ids[..n][i] == ids[i] && settled[..n][i] == settled[i];
    }
  }

  lemma NamedNext(
      m: Meter, recs: map<Id, Deployment>, ids: seq<Id>, settled: seq<bool>, id: Id, flag: bool, now: int, fate: Fate)
    requires |settled| == |ids| && id in recs
    ensures var (before, after) :=
              (Named(m, recs, ids, settled, now, fate), Named(m, recs, ids + [id], settled + [flag], now, fate));
            if FateOf(m, recs[id], now, flag) == fate then after == before + [id] else after == before
  {
    assert (ids + [id])[..|ids|] == ids && (settled + [flag])[..|ids|] == settled;
  }

  lemma SumOwedNext(m: Meter, recs: map<Id, Deployment>, ids: seq<Id>, id: Id, now: int)
    requires id in recs
    ensures SumOwed(m, recs, ids + [id], now) == SumOwed(m, recs, ids, now) + Owed(m, recs[id], now)
  {
    assert (ids + [id])[..|ids|] == ids;
  }

  /** The report with one more deployment of this fate. */
  function ByFate(out: Outcome, id: Id, fate: Fate, owed: nat): Outcome {
    match fate
    case Unowned => out.(unowned := out.unowned + [id])
    case Quiet => out
    case Billed => out.(charged := (out.charged + owed) % TWO_64, billed := out.billed + [id])
    case Delinquent => out.(delinquent := out.delinquent + [id])
    case Evicted => out.(evicted := out.evicted + [id])
  }

  /** The loop's own branches tell the same fates apart. */
  lemma TallyIsByFate(m: Meter, rec: Deployment, now: int, flag: bool, out: Outcome, id: Id)
    requires RentEnabled(m) && (flag ==> Owed(m, rec, now) > 0)
    ensures Tally(out, id, flag, rec.deployer == [], SweptRecord(m, rec, now, flag).None?, Owed(m, rec, now))
            == ByFate(out, id, FateOf(m, rec, now, flag), Owed(m, rec, now))
  {
  }

  lemma ReportByFate(
      m: Meter, recs: map<Id, Deployment>, ids: seq<Id>, settled: seq<bool>, id: Id, flag: bool, now: int, size: nat,
      fate: Fate, owed: nat)
    requires |settled| == |ids| && id in recs
    requires fate == FateOf(m, recs[id], now, flag) && owed == Owed(m, recs[id], now)
    ensures Report(m, recs, ids + [id], settled + [flag], now).(considered := size)
            == ByFate(Report(m, recs, ids, settled, now).(considered := size), id, fate, owed)
  {
    var billed := Named(m, recs, ids, settled, now, Billed);
    NamedNext(m, recs, ids, settled, id, flag, now, Billed);
    NamedNext(m, recs, ids, settled, id, flag, now, Unowned);
    NamedNext(m, recs, ids, settled, id, flag, now, Delinquent);
    NamedNext(m, recs, ids, settled, id, flag, now, Evicted);
    if fate == Billed {
      SumOwedNext(m, recs, billed, id, now);
      WrapOnce(SumOwed(m, recs, billed, now), owed);
    }
  }

  lemma WrapOnce(a: nat, b: nat)
    ensures (a % TWO_64 + b) % TWO_64 == (a + b) % TWO_64
  {
  }

  lemma SweptAppend(
      m: Meter, recs: map<Id, Deployment>, ids: seq<Id>, settled: seq<bool>, id: Id, flag: bool, now: int)
    requires |settled| == |ids| && id in SweptInOrder(m, recs, ids, settled, now)
    ensures var r := SweptInOrder(m, recs, ids, settled, now);
            SweptInOrder(m, recs, ids + [id], settled + [flag], now)
            == Replace(r, id, SweptRecord(m, r[id], now, flag))
  {
    assert (ids + [id])[..|ids|] == ids && (settled + [flag])[..|ids|] == settled;
  }

  /** One turn more, on the table and on the report. */
  lemma SweptNext(m: Meter, recs: map<Id, Deployment>, ids: seq<Id>, settled: seq<bool>, flag: bool, now: int)
    requires |settled| < |ids| && AllOf(ids, recs) && RentEnabled(m)
    requires flag ==> Owed(m, recs[ids[|settled|]], now) > 0
    ensures var k := |settled|; var id := ids[k];
            var r := SweptInOrder(m, recs, ids[..k], settled, now);
            && id in r && r[id] == recs[id]
            && SweptInOrder(m, recs, ids[..k + 1], settled + [flag], now)
               == Replace(r, id, SweptRecord(m, recs[id], now, flag))
            && Report(m, recs, ids[..k + 1], settled + [flag], now).(considered := |ids|)
               == Tally(Report(m, recs, ids[..k], settled, now).(considered := |ids|), id, flag,
                        recs[id].deployer == [], SweptRecord(m, recs[id], now, flag).None?, Owed(m, recs[id], now))
  {
    var k := |settled|;
    LaterIdsStay(m, recs, ids, settled, now);
    assert ids[..k + 1] == ids[..k] + [ids[k]];
    SweptAppend(m, recs, ids[..k], settled, ids[k], flag, now);
    var rec := recs[ids[k]];
    ReportByFate(m, recs, ids[..k], settled, ids[k], flag, now, |ids|, FateOf(m, rec, now, flag), Owed(m, rec, now));
    TallyIsByFate(m, rec, now, flag, Report(m, recs, ids[..k], settled, now).(considered := |ids|), ids[k]);
  }

  lemma LaterIdsStay(m: Meter, recs: map<Id, Deployment>, ids: seq<Id>, settled: seq<bool>, now: int)
    requires |settled| < |ids| && AllOf(ids, recs)
    ensures var r := SweptInOrder(m, recs, ids[..|settled|], settled, now);
            ids[|settled|] in r && r[ids[|settled|]] == recs[ids[|settled|]]
  {
    SweptInOrderPointwise(m, recs, ids[..|settled|], settled, now);
    assert ids[|settled|] !in ids[..|settled|];
    assert Lookup(SweptInOrder(m, recs, ids[..|settled|], settled, now), ids[|settled|])
           == Lookup(recs, ids[|settled|]);
  }

  function Replace(m: map<Id, Deployment>, id: Id, rec: Option<Deployment>): map<Id, Deployment> {
    match rec
    case Some(r) => m[id := r]
    case None => m - {id}
  }

  /** The table after sweeping the ids one by one. */
  function SweptInOrder(m: Meter, recs: map<Id, Deployment>, ids: seq<Id>, settled: seq<bool>, now: int)
    : map<Id, Deployment>
    requires |settled| == |ids|
    decreases |ids|
  {
    if ids == [] then recs
    else
      var n := |ids| - 1;
      var r := SweptInOrder(m, recs, ids[..n], settled[..n], now);
      if ids[n] in r then Replace(r, ids[n], SweptRecord(m, r[ids[n]], now, settled[n])) else r
  }

  lemma SwappedOut(a: map<Id, Deployment>, b: map<Id, Deployment>, id: Id)
    requires a - {id} == b - {id}
    ensures b == Replace(a, id, Lookup(b, id))
  {
    SameElsewhere(a, b, id);
    forall other ensures Lookup(b, other) == Lookup(Replace(a, id, Lookup(b, id)), other) {}
    assert forall other :: other in b <==> Lookup(b, other).Some?;
    assert forall other ::
        other in Replace(a, id, Lookup(b, id)) <==> Lookup(Replace(a, id, Lookup(b, id)), other).Some?;
  }

  lemma ReplaceEffect(m: map<Id, Deployment>, id: Id, rec: Option<Deployment>)
    requires id in m
    ensures Lookup(Replace(m, id, rec), id) == rec
    ensures forall other :: other != id ==> Lookup(Replace(m, id, rec), other) == Lookup(m, other)
    ensures Replace(m, id, rec).Keys <= m.Keys
  {
  }

  /** Each id's record after a sweep of distinct ids: its own, swept alone; ids not listed
      keep theirs. */
  ghost predicate Pointwise(
      m: Meter, recs: map<Id, Deployment>, ids: seq<Id>, settled: seq<bool>, now: int, r: map<Id, Deployment>)
    requires |settled| == |ids|
  {
    && (forall i :: 0 <= i < |ids| ==>
          ids[i] in recs && Lookup(r, ids[i]) == SweptRecord(m, recs[ids[i]], now, settled[i]))
    && (forall id :: id !in ids ==> Lookup(r, id) == Lookup(recs, id))
    && r.Keys <= recs.Keys
  }

  lemma PointwiseExtends(m: Meter, recs: map<Id, Deployment>, ids: seq<Id>, settled: seq<bool>, now: int,
                         r: map<Id, Deployment>, id: Id, flag: bool)
    requires |settled| == |ids| && Pointwise(m, recs, ids, settled, now, r)
    requires id !in ids && id in recs
    ensures id in r && r[id] == recs[id]
    ensures Pointwise(m, recs, ids + [id], settled + [flag], now, Replace(r, id, SweptRecord(m, recs[id], now, flag)))
  {
    var rec := SweptRecord(m, recs[id], now, flag);
    assert Lookup(r, id) == Lookup(recs, id);
    ReplaceEffect(r, id, rec);
    var r' := Replace(r, id, rec);
    forall i | 0 <= i < |ids| ensures Lookup(r', ids[i]) == Lookup(r, ids[i]) {
      assert ids[i] in ids;
    }
  }

  /** The order of a sweep does not matter. */
  lemma {:induction false} SweptInOrderPointwise(
      m: Meter, recs: map<Id, Deployment>, ids: seq<Id>, settled: seq<bool>, now: int)
    requires |settled| == |ids| && AllOf(ids, recs)
    ensures Pointwise(m, recs, ids, settled, now, SweptInOrder(m, recs, ids, settled, now))
    decreases |ids|
  {
    if ids != [] {
      var n := |ids| - 1;
      SweptInOrderPointwise(m, recs, ids[..n], settled[..n], now);
      assert ids[n] !in ids[..n] && ids == ids[..n] + [ids[n]] && settled == settled[..n] + [settled[n]];
      PointwiseExtends(m, recs, ids[..n], settled[..n], now,
                       SweptInOrder(m, recs, ids[..n], settled[..n], now), ids[n], settled[n]);
    }
  }

  lemma SameElsewhere(a: map<Id, Deployment>, b: map<Id, Deployment>, id: Id)
    requires a - {id} == b - {id}
    ensures forall other :: other != id ==> Lookup(a, other) == Lookup(b, other)
  {
    forall other | other != id ensures Lookup(a, other) == Lookup(b, other) {
      assert other in a <==> other in a - {id};
      assert other in b <==> other in b - {id};
    }
  }
}
