# Verified models of the Matrix OS node, bridge and clients

Dafny models of the parts of the repository whose correctness is hard to see from
any one function, and proofs of what those parts promise. `dafny verify
dfyconfig.toml` checks the whole project.

## What is modelled

**The bridge** (`Ledger`, `LockIds`, `Bridge`, `BridgeRuns`, `Backing`, `LockRuns`,
`TwoLocks`).
The native side is a class over the ledger, with the escrow account, two running
totals, a lock table and a replay table; every method is proved equal to a step
function that spells out each refusal. An operation that moves value commits twice,
the transfer first and the bridge's own batch after it, and every method says what is
left when the second commit is missing. `BridgeRuns` takes the steps over any run,
cut off or whole, both release routes and mode-switching restarts included. `Backing`
puts the wrapped token beside it as an environment that mints once per lock id and
emits a log per burn, with the burner, recipient and amount it was called with.
`LockRuns` follows the lock table: which numbers and ids locks get, and when an id is
new. `TwoLocks` is the same operations split into single
shared-memory actions of any number of threads under the bridge mutex and the ledger
lock, with any counter write allowed to fail.

**The relayer** (`BurnLog`, `Scan`, `Watcher`, `Schedules`). The event decoder on
bytes; a scan as the application of a sequence of claims; the watcher object, whose
passes may lose the head, the logs or the cursor write, die after any log, or find
that a release got no further than its first commit; and `Schedules`, which mixes such
passes with everything else both chains do. What a pass is handed there are logs of
burns the contract recorded, and what they pay, to whom, is derived from those.

**Rent and deployments** (`Rent`, `Deployments`). The arithmetic with its two
opposite roundings; one deployment's life under changing prices; and the manager
with its store, modules, inboxes and nonces, each charge decided by the engine's answer
at the nonce its payer has reached.

**Signed bytes** (`Bytes`, `SigningLayouts`, `SignedFields`, `Protocol`, `SdkBuffers`,
`FrameStream`, `Base64`). Text is its UTF-8 bytes, a float is its bit pattern, and a 64-bit number
is written modulo 2^64. The layouts are proved unambiguous, and `SignedFields` spells
each out as a list of fields and octets; the builders of the
protocol package and the SDK's offset-driven copies are proved equal to them. The
streaming reader is proved independent of chunking.

**Keccak** (`Keccak`, `Keccak256`, `LaneBits`, `KeccakLanes`, `KeccakBits`). The permutation and the sponge are
stated over any lane arithmetic, because what the in-place code must get right is
where lanes and bytes go; `KeccakLanes` is the 64-bit instance, its tables proved
against FIPS 202 (padding byte 0x01, not 0x06), and `KeccakBits` proves it to be the
permutation of section 3 of FIPS 202 bit by bit.

**PNG** (`PngFilters`, `Png`, `PngCodec`, `PngRoundTrip`, `PngResize`, `PngPixels`). Deflate,
inflate and CRC-32 are parameters; CRCs are not checked on reading, as in the code.

**Attestations** (`Attestation`, `Committee`). Signature recovery is a function of
the signature over a fixed digest, shared by the node, the script and the contract.

SHA-256 is modelled as injective where an id is a hash; settlement is a function of
payer, amount and nonce; the Ethereum endpoint is a function from blocks to logs;
the clock is a parameter.

## Where the code does not meet its own description

The model follows the code. Each of these has its exact condition proved.

- `Bridge.Lock` from the escrow account, or a burn that names it, moves nothing but
  counts as a move, and `Reconcile` fails from then on (`LockEffect`,
  `BurnKeepsBackingIff`, `UnlockKeepsBackingIff`).
- A committed lock moves value before it is recorded. When the record is refused,
  because the counter is full or the id is already in the table, the value stays in
  escrow unaccounted for (`EngineLockEffect`).
- `Atomically` is one critical section but not one commit: the transfer commits its own
  batch before the record or marker commits. An operation cut off between the two
  leaves the books balanced exactly when it moved nothing in or out of escrow
  (`TornKeepsBackingIff`); `RunReconcilesIff` covers such steps.
  - A lock cut off debits the sender and leaves nothing to attest
    (`TornLockStrandsValue`).
  - A release cut off leaves its burn unmarked, to be paid again whenever it is
    observed with escrow to cover it, however much later (`TornReleasePaysAgain`). What
    a burn is paid in all is its amount once for its marker and once for every such
    cut-off (`PaidOncePerCommit`), so exactly once exactly when none hit it while it
    could be paid (`PaidExactlyOnceIff`).
  - The claims of the other chain stay covered exactly while the surplus and what was
    gained bear what torn releases paid (`BackedIffLossesBorne`).
  - When the process lives on after such a release, the cursor passes the burn
    unmarked (`VisitMarksIffCommitted`).
- Committed locks share the lock table with the node's own, but bring a transaction nonce
  where those bring a counter. A committed lock whose nonce is the counter's next number,
  and then a direct lock of the same sender, recipient and amount, leave one entry to mint
  against; any other difference keeps them apart (`NextNumberCollides`). It cannot happen
  while the nonces of whoever also locks directly trail the counter (`DirectLocksAreNew`).
- A burn whose recipient has a NUL byte is logged by the contract and refused by the
  decoder, so it is never paid (`UnpayableIsNeverPaid`).
- The cursor passes a burn that failed for lack of escrow and never returns to it
  (`ScanSettlesAllIffCovered`); a backed bridge has no such burn
  (`BackedCoversVisits`).
- The log decoder accepts an empty recipient; `ProcessBurn` is what refuses it
  (`DecodeBurnedLog`, `GenuineBurnReleases`).
- The attestation digest drops the sign of the amount and the chain id, and panics
  beyond 256 bits (`AttestationIsUnambiguous`).
- At a rate above a credit per nanosecond a charge can leave the watermark in place
  (`ChargeStallsIff`); the price ceiling and the default module cap exclude it.
- Redeploying a record that predates the pinned rate bills the past at today's price
  (`RedeployBackdatesLegacy`).
- A redeploy keeps the watermark but not the size, so the time since the last charge is
  billed at the new module's size: less than what was stored exactly when the module
  shrank (`RedeployRebillsAtNewSize`).
- The 32-bit length prefix is not guarded: fields of 2^32 bytes collide
  (`OversizeFieldsCollide`). Below that length the layouts are unambiguous.
- The base64 decoder writes one byte past its buffer when one character is left
  over; the write is dropped (`BufferSufficesIff`, `FromBase64`).

## Model

| member | source | states |
|---|---|---|
| NativeLedger.TransferConserves | services/core/internal/market/ledger.go:371-406 | a transfer makes and loses no coin: the total is kept, the credit never wraps, and exactly the two named accounts move by exactly the amount |
| NativeLedger.Ledger.Transfer | services/core/internal/market/ledger.go:362-406 | the object applies the transfer or, when the source is short, changes nothing |
| LockIds.LockIdInjective | services/core/internal/bridge/bridge.go:190-210 | two locks share an id exactly when nonce, sender, recipient and amount all agree |
| Bridge.Erc20ToNative | services/core/internal/token/supply.go:97-114 | succeeds on exactly the non-negative multiples of 10^9 whose quotient fits a uint64, and multiplies back to the input |
| Bridge.Bridge.constructor | services/core/internal/bridge/bridge.go:134-150 | a restart finds every table and total of the store, in the release mode of the new process |
| Bridge.Bridge.Lock | services/core/internal/bridge/bridge.go:221-290 | a direct lock is the whole transition (escrow, sequence number, lock table and total together), no change on any refusal, and the balance change alone when its second commit is missing; the sequence number moves by one exactly when the lock is accepted |
| Bridge.Bridge.RecordLock | services/core/internal/bridge/bridge.go:625-670 | a committed lock is entered once: a known id is a no-op, a full counter or a sub-minimum amount is refused unchanged, and a failed commit changes nothing |
| Bridge.Bridge.ReleaseLocked | services/core/internal/bridge/bridge.go:402-435 | a release pays, adds to the unlocked total and marks the burn, or changes nothing; without its second commit it has paid and neither counted nor marked |
| Bridge.Bridge.ProcessBurn | services/core/internal/bridge/bridge.go:310-340 | every refusal of the direct route (empty id, empty recipient, inexact amount, zero, consensus-ordered mode, replay, short escrow) leaves the bridge unchanged; otherwise the burn is released, whole or without its marker |
| Bridge.Bridge.ApplyAttestedUnlock | services/core/internal/bridge/bridge.go:365-387 | the consensus-ordered route, with its own refusals, over the same replay table, whole or without its marker |
| Bridge.Bridge.AdoptGenesisEscrow | services/core/internal/bridge/bridge.go:544-585 | adopts an opening escrow balance as locked exactly on a bridge with no history |
| Bridge.Bridge.Reconcile | services/core/internal/bridge/bridge.go:490-525 | reports the three figures, or the first inconsistency, and changes nothing |
| Bridge.ApplyBridgeLock | services/core/internal/consensus/bridgelock.go:184-233 | a committed lock is the escrow move and then the record, whose refusal or failed commit leaves the move standing |
| BridgeRuns.BurnGuardsDecide | services/core/internal/bridge/bridge.go:310-340 | a direct burn is released exactly when it has an id, a recipient, an exact positive amount, no marker and escrow to cover it, on a bridge that releases by itself |
| BridgeRuns.UnlockGuardsDecide | services/core/internal/bridge/bridge.go:365-387 | the same for an attested unlock, on a consensus-ordered bridge |
| BridgeRuns.ReconcileIffBacked | services/core/internal/bridge/bridge.go:490-525 | Reconcile succeeds exactly when escrow equals locked minus unlocked and unlocked is at most locked |
| BridgeRuns.LockEffect | services/core/internal/bridge/bridge.go:221-290 | a lock moves value and total together under the next sequence number, entering the table as itself; the books still balance exactly when the source is not the escrow account |
| BridgeRuns.EngineLockEffect | services/core/internal/consensus/bridgelock.go:184-233 | a committed lock keeps the books exactly when it moved nothing, or was recorded too and did not come from escrow: the value moves before the record is attempted |
| BridgeRuns.ReplayedRecordIsFree | services/core/internal/bridge/bridge.go:625-670 | recording a lock already in the table changes nothing |
| BridgeRuns.ReleaseEffect | services/core/internal/bridge/bridge.go:402-435 | a release adds to the unlocked total what it takes from escrow; while the books balance the unguarded sum of line 428 cannot wrap |
| BridgeRuns.BurnEffect | services/core/internal/bridge/bridge.go:310-340 | an accepted burn pays its recipient the wrapped amount over 10^9 out of escrow and nobody else anything, adds that to the unlocked total and leaves its own marker |
| BridgeRuns.UnlockEffect | services/core/internal/bridge/bridge.go:365-387 | the same for an attested unlock and its amount |
| BridgeRuns.BurnKeepsBackingIff | services/core/internal/bridge/bridge.go:310-340 | a direct burn keeps the books exactly when it released nothing or paid someone other than escrow |
| BridgeRuns.UnlockKeepsBackingIff | services/core/internal/bridge/bridge.go:365-387 | the same for an attested unlock |
| BridgeRuns.PayKeepsBackingIff | services/core/internal/market/ledger.go:362-406 | a payment between accounts keeps the books exactly when it moves nothing in or out of escrow |
| BridgeRuns.TornKeepsBackingIff | services/core/internal/bridge/bridge.go:247-275 | an operation of any kind cut off after its first commit leaves the books balanced exactly when escrow holds what it held, spelled out in its guards |
| BridgeRuns.TornLockStrandsValue | services/core/internal/consensus/bridgelock.go:206-218 | any other cut-off lock, on either route, has debited its sender and recorded nothing, and Reconcile reports the mismatch |
| BridgeRuns.StepKeepsBackingIff | services/core/internal/bridge/bridge.go:221-435 | one step of any kind, whole or cut off, conserves the native supply and keeps the books balanced exactly when it is one of the benign ones, by guards that can be read before the step |
| BridgeRuns.RunReconcilesIff | services/core/internal/bridge/bridge.go:484-525 | over any run of locks, recorded and replayed locks, burns, unlocks, payments, adoption, mode-switching restarts and operations cut off between their commits, Reconcile succeeds throughout exactly when every step was benign where it was taken |
| BridgeRuns.GenesisIsBacked | services/core/internal/bridge/bridge.go:544-585 | adoption balances the books whatever a genesis gave escrow, is idempotent, and is needed exactly when that was not zero |
| BridgeRuns.AdoptsOnlyWithoutHistory | services/core/internal/bridge/bridge.go:544-585 | with anything ever locked or unlocked, adoption changes nothing |
| BridgeRuns.EachBurnReleasedOnce | services/core/internal/bridge/bridge.go:402-435 | over any run across both routes, balanced or not, no burn is released twice and the markers are exactly the burns released |
| BridgeRuns.TornReleasePaysAgain | services/core/internal/bridge/bridge.go:419-433 | a release cut off between the transfer's own commit (market/ledger.go:393-404) and the marker's stays unmarked through any run that does not release it, and observed again is paid again exactly when escrow then covers it |
| BridgeRuns.PayoutIsTheTransfer | services/core/internal/bridge/bridge.go:402-435 | what counts as a burn's payout is exactly the transfer out of escrow its step made, and a whole one marks the burn while a torn one does not |
| BridgeRuns.PaidOncePerCommit | services/core/internal/bridge/bridge.go:402-435 | over any run what leaves escrow for a burn is its amount times the number of its torn releases plus one for its marker, and nothing once it is marked |
| BridgeRuns.PaymentsAreCopies | services/core/internal/bridge/bridge.go:402-435 | over any run in which every step that names a burn names its recipient and amount, the payments made for it are that one payment, once for its marker and once per torn release |
| BridgeRuns.PaidExactlyOnceIff | services/core/internal/bridge/bridge.go:402-435 | a burn that got its marker was paid exactly once exactly when no cut-off hit it while it could be paid |
| Backing.DirectLockSurplus | services/core/internal/bridge/bridge.go:221-290 | a direct lock backs its own future mint to the unit; if its id was taken the surplus grows by the claim it displaces |
| Backing.EngineLockSurplus | services/core/internal/bridge/bridge.go:625-670 | a committed lock backs its mint to the unit if it is recorded, and all it moved is surplus if not |
| Backing.MintKeepsSurplus | contracts/contracts/WrappedMatrix.sol:213-251 | a mint turns an unminted lock into supply, once per lock id and under the cap, one for one |
| Backing.BurnKeepsSurplus | contracts/contracts/WrappedMatrix.sol:253-266 | a burn turns supply into a pending release, one for one |
| Backing.ReleaseSurplus | services/core/internal/bridge/bridge.go:402-435 | a release settles a pending burn with exactly its value; only a release to escrow itself leaves a surplus |
| Backing.MoveSurplus | services/core/internal/bridge/bridge.go:221-435 | every move of the two chains, whole or cut off, changes the surplus of escrow over all claims by exactly its gain less its loss, both read off its guards; only a torn release loses, and what it paid |
| Backing.BackedIffLossesBorne | services/core/internal/bridge/bridge.go:221-435 | over any run, with operations cut off anywhere, every claim is still covered exactly when what torn releases paid is at most the opening surplus plus the gains |
| Backing.EscrowCoversEveryClaim | services/core/internal/bridge/bridge.go:221-435 | so with no torn release, in every reachable state 10^9 times escrow covers wrapped supply plus unreleased burns plus unminted locks, to the unit exactly when nothing was gained |
| Backing.NativeRun | services/core/internal/bridge/bridge.go:221-435 | on the native side a run of both chains is a run of the bridge, so what holds of every such run holds here |
| Backing.LoggedBurnPaidOncePerCommit | services/core/internal/bridge/bridge.go:402-435 | a burn the other chain logged pays the account its log names, in the one spelling, the amount it logged: that payment once for its marker and once per torn release, and no other, whatever both chains do in between |
| Backing.GenesisIsFullyBacked | services/core/internal/bridge/bridge.go:544-585 | a relaunch is backed exactly when the carried-over escrow covers the wrapped supply still held |
| Backing.GenuineBurnReleases | services/core/internal/bridge/bridge.go:402-435 | so an unreleased burn never fails for lack of escrow: on either route it is accepted exactly when it names a recipient, and it can be observed at all exactly when that has no NUL byte |
| LockRuns.DirectLockRecords | services/core/internal/bridge/bridge.go:247-275 | a direct lock that is accepted takes the next number and enters the table as itself, changing no other entry; a refused one changes neither table nor number |
| LockRuns.EngineLockRecords | services/core/internal/consensus/bridgelock.go:206-218 | a committed lock takes no number and is recorded only under an id not in the table |
| LockRuns.TableIsWhatWasRecorded | services/core/internal/bridge/bridge.go:247-275 | after any run the table holds what it held and what the run recorded, and nothing else |
| LockRuns.NumberedConsecutively | services/core/internal/bridge/bridge.go:249-260 | over any run with fewer than 2^64 of them, cut-off and committed locks included, the direct locks are numbered consecutively from the stored counter and each has the id its number and fields make |
| LockRuns.DirectIdsDiffer | services/core/internal/bridge/bridge.go:190-203 | so no two of them share an id |
| LockRuns.DirectEntriesStay | services/core/internal/bridge/bridge.go:625-670 | and each one's entry is in the table, unchanged, ever after |
| LockRuns.DirectLocksAreNew | services/core/internal/bridge/bridge.go:255-275 | while the committed nonces of whoever also locks directly trail the counter, every direct lock's id was not in the table before |
| LockRuns.NothingIsDisplaced | services/core/internal/bridge/bridge.go:255-275 | then no entry is ever displaced |
| LockRuns.NewLocksGainNothing | services/core/internal/bridge/bridge.go:221-290 | and a direct lock never brings escrow more than it claims |
| LockRuns.CommittedLocksAreRecorded | services/core/internal/consensus/bridgelock.go:206-218 | a sender that locks only through the chain, with rising nonces, has every lock that is large enough and fits the total recorded |
| LockRuns.NextNumberCollides | services/core/internal/consensus/bridgelock.go:115-142 | a committed lock and the next direct lock share an entry exactly when the nonce is the counter's next number and sender, recipient and amount agree, and then both are counted and one can be minted |
| BurnLog.DecodesCanonical | services/core/internal/bridge/burnlog.go:228-279 | decoding the ABI encoding of a string and a uint256 returns that pair exactly when the string has no NUL byte, and refuses it otherwise |
| BurnLog.DecodesIff | services/core/internal/bridge/burnlog.go:228-279 | for any data: it decodes to a pair exactly when it is whole words, the amount in the second, and the first the position of a NUL-free string whose length and bytes lie inside; the additions never wrap |
| BurnLog.DataLayout | contracts/contracts/WrappedMatrix.sol:253-266 | the event's data word by word: offset 64, amount, length, the bytes, zeros to a whole word |
| BurnLog.LogIdInjective | services/core/internal/bridge/burnlog.go:120-155 | a transaction hash and log index make a replay key no other log has |
| BurnLog.NormalizeIdempotent | services/core/internal/bridge/burnlog.go:194-212 | normalizing a normalized recipient changes nothing |
| BurnLog.SpellingsAgree | services/core/internal/bridge/burnlog.go:194-212 | every spelling of one account id (prefix or none, any case, surrounding white space) reaches the ledger as one value |
| BurnLog.SpacesAreUnicodes | services/core/internal/bridge/burnlog.go:194-212 | what is trimmed is the UTF-8 of exactly the code points Go calls white space |
| BurnLog.DecodeBurnedLog | services/core/internal/bridge/burnlog.go:120-155 | succeeds exactly on a log with the fixed topic, a hash, an address topic padded with zeros and decodable data, and then carries that address's 20 bytes, the decoded amount, the recipient normalized from the one on chain (empty if that is), and the key of its own position |
| BurnLog.EmittedLogDecodes | contracts/contracts/WrappedMatrix.sol:253-266 | the log the contract emits decodes to the burner, recipient, amount and key it was emitted with; a NUL byte in the recipient is refused |
| Watcher.ClaimOfEmitted | services/core/internal/bridge/watcher.go:341-358 | the contract's own log claims its amount over 10^9 for the recipient it names, normalized, under the key of its position; nothing exactly for a NUL byte, an empty recipient, or a zero, inexact or too large amount |
| Watcher.LogsOfBlocks | services/core/internal/bridge/watcher.go:306-311 | the logs of a range are those of its blocks, every one and no other |
| Scan.ScanReleasesEachOnce | services/core/internal/bridge/watcher.go:341-358 | a scan escrow can cover credits every recipient exactly its distinct claims, debits escrow their sum and marks exactly the burns seen |
| Scan.PayoutsDistinct | services/core/internal/bridge/watcher.go:341-358 | no burn is among the payouts twice, nor one that was already done |
| Scan.ScannedAreSettled | services/core/internal/bridge/watcher.go:341-358 | after a covered scan every claim in it is marked |
| Scan.RescanAbsorbed | services/core/internal/bridge/watcher.go:173-195 | scanning positions again after a crash or restart is as if each had been scanned once |
| Scan.ScanSettlesAllIffCovered | services/core/internal/bridge/watcher.go:312-337 | the cursor passes a failed burn without retrying it, so a scan settles every burn it passes exactly when escrow covers them all |
| Scan.VisitMarksIffCommitted | services/core/internal/bridge/watcher.go:341-358 | with escrow there each time, a burn visited is marked afterwards exactly when it was before or one of its visits got as far as the second commit |
| Scan.CoverableCovers | services/core/internal/bridge/watcher.go:341-358 | a scan whose distinct claims escrow covers in sum finds each covered when its turn comes |
| Watcher.Watcher.constructor | services/core/internal/bridge/watcher.go:150-196 | resumes from the stored cursor, or from StartBlock when that is ahead |
| Watcher.Watcher.ApplyLog | services/core/internal/bridge/watcher.go:341-358 | one log is its claim applied, or only paid when its second commit is missing; what it reports is whether a burn was newly marked |
| Watcher.Watcher.ScanSpan | services/core/internal/bridge/watcher.go:306-337 | one span: its logs in order up to where the process dies, any of them possibly cut off between its commits, then the cursor, then the stored cursor |
| Watcher.Watcher.Poll | services/core/internal/bridge/watcher.go:280-337 | one pass is a run of whole contiguous spans never past head minus confirmations, plus a prefix of the next one if the process dies in it, each log whole or cut off; a pass that finishes ends just behind that block |
| Watcher.PollAbsorbed | services/core/internal/bridge/watcher.go:280-337 | a pass with no release cut off, over blocks already applied, adds nothing below where the bridge stands |
| Watcher.EventTracks | services/core/internal/bridge/watcher.go:173-195 | such a pass or a restart keeps: no block skipped, the stored cursor not ahead, the bridge at one position of the log sequence |
| Watcher.AnyScheduleIsOneScan | services/core/internal/bridge/watcher.go:173-195 | for any schedule of passes, failures, lost cursor writes, restarts and crashes that fall inside no release, the bridge is what one uninterrupted scan of a prefix leaves, with one release per distinct burn |
| Schedules.ScheduleIsARun | services/core/internal/bridge/watcher.go:173-195 | passes over logs the contract emitted, mixed with any moves of both chains, are one run of both chains, every log applied being a burn step, whole or cut off |
| Schedules.EmittedIsGenuine | services/core/internal/bridge/watcher.go:341-358 | what a log the contract emitted claims is the burn the contract recorded: its recipient and its worth |
| Schedules.UnpayableIsNeverPaid | services/core/internal/bridge/burnlog.go:262-279 | over any run a burn that names nobody, has a NUL byte in its recipient or is worth more than a uint64 is paid to nobody |
| Schedules.BackedCoversVisits | services/core/internal/bridge/watcher.go:312-337 | a fully backed bridge has the escrow for every genuine claim of a pass when its turn comes |
| Schedules.NoBurnIsSkipped | services/core/internal/bridge/watcher.go:173-195 | whatever locks, payments, mints, unlocks, crashes and restarts come between backed passes, every log in every block below the furthest the cursor stood at is of a recorded burn and, if that can be paid, marked, as long as a release is cut off only by the process dying |
| Schedules.PassedBurnsPaidOncePerCommit | services/core/internal/bridge/watcher.go:341-358 | each burn logged in those blocks has paid exactly the recipient it names, its amount over 10^9, once plus once per release of it that was cut off; one with no recipient, a NUL byte in it or too large an amount has paid nobody |
| Schedules.UntornIsSound | services/core/internal/bridge/watcher.go:173-195 | with no release cut off, a fully backed start stays backed through every schedule, so escrow is there for every pass |
| Schedules.UntornScheduleReleasesEachOnce | services/core/internal/bridge/watcher.go:173-195 | so from a fully backed start every such burn is one payment to the recipient it names and every claim stays covered, with no condition on escrow along the way |
| TwoLocks.StepKeepsInvariant | services/core/internal/bridge/bridge.go:115-128 | no step of any thread, a refused record or failed commit included, breaks mutual exclusion, the books at rest, or the bookkeeping of values in flight and adrift |
| TwoLocks.NoUpdateLostNoTornSnapshot | services/core/internal/bridge/bridge.go:484-510 | in every interleaving each counter is its opening value plus every amount committed, the books are off by exactly what was moved and not counted, and a Reconcile's figures agree exactly when nothing was |
| TwoLocks.KeptMovesStayOnTheBooks | services/core/internal/bridge/bridge.go:600-611 | while every move of value gets counted nothing is |
| TwoLocks.SomebodyCanMove | services/core/internal/bridge/bridge.go:352-364 | in every reachable state with work in progress some thread can move, though one route takes both locks and the other only the second |
| TwoLocks.EverythingCanFinish | services/core/internal/bridge/bridge.go:600-611 | and from each the work in progress can be run to completion |
| TwoLocks.NeverDeadlocked | services/core/internal/bridge/bridge.go:330-339 | no reachable state is deadlocked |
| Rent.Roundings | services/core/internal/agentapi/rent.go:55-70 | the first rounding drops less than a credit, the second less than a nanosecond |
| Rent.PriceIsPerMiBDay | services/core/internal/agentapi/rent.go:44-70 | the price is per MiB and 24 hours: m MiB for d days owe m times d times the price, for exactly that time |
| Rent.CoveredNeverExceedsElapsed | services/core/internal/agentapi/rent.go:71-100 | for every int64 duration the covered time is at most the elapsed time and fits, so both clamps are dead; the credits are exact whenever they fit a uint64 |
| Rent.CeilingsKeepRentHonest | services/core/internal/agentapi/rent.go:71-100 | at up to one credit per nanosecond the credits always fit and every positive charge moves the watermark |
| Rent.DefaultsAreUnderCeilings | services/core/internal/agentapi/manager.go:91-104 | the price ceiling and the default module cap keep every rate below that |
| Rent.ChargeStallsIff | services/core/internal/agentapi/rent.go:90-99 | for every size, price and duration: credits are charged and no time covered exactly when the duration is one nanosecond at more than a credit, not a whole number of them and not beyond a uint64 |
| Rent.SweepAccounts | services/core/internal/agentapi/rent.go:176-227 | one sweep keeps the two-sided bound between rent paid and watermark advance |
| Rent.SettledCoversAll | services/core/internal/agentapi/rent.go:191-227 | after a sweep that did not fail, the rent paid is at least what one charge for the whole time would have been |
| Rent.TenancyAccounting | services/core/internal/agentapi/rent.go:55-100 | over any sequence of paid and failed sweeps rate times advance is at most the rent paid, which exceeds it by at most one nanosecond's rent per paid sweep |
| Deployments.SweepIsTenancySweep | services/core/internal/agentapi/rent.go:191-227 | the sweep of a stored record moves its two figures exactly as the rent arithmetic says |
| Deployments.EventKeepsConsistent | services/core/internal/agentapi/rent.go:160-227 | clock and rate start together, the clock is never ahead of time, and the grace clock is the first failure of the current stretch |
| Deployments.EventKeepsPin | services/core/internal/agentapi/manager.go:514-553 | a pinned rate is never repriced and the watermark never moves back, whatever is redeployed at whatever prices |
| Deployments.EvictionNeedsGrace | services/core/internal/agentapi/rent.go:195-218 | an id is evicted exactly by a failing charge at least the grace period after the first failure since the last success |
| Deployments.PinHoldsForLife | services/core/internal/agentapi/manager.go:536-553 | both hold over any interleaving of deploys, sweeps and restarts that does not evict |
| Deployments.RedeployBackdatesLegacy | services/core/internal/agentapi/manager.go:536-553 | for every record with an owner, a later bill counts time before the redeploy at a rate the record did not have exactly when rent is on, its clock runs and its rate was never pinned, and then all of it at today's price; after a sweep it counts none |
| Deployments.RedeployRebillsAtNewSize | services/core/internal/agentapi/manager.go:532-553 | a redeploy bills the time since the last charge at the new module's size: less than what was held exactly when the module shrank, more exactly when it grew |
| Deployments.RedeployKeepsTenancy | services/core/internal/agentapi/manager.go:532-553 | a redeploy replaces the module and the payer and keeps every figure of the tenancy |
| Deployments.PaidIsWhatWasBilled | services/core/internal/agentapi/rent.go:220-227 | over any life of an id, redeploys included, the rent on record is what it was plus every bill that settled, in a uint64 |
| Deployments.DeliveredAllKeeps | services/core/internal/agentapi/manager.go:658-686 | sends extend inboxes of stored deployments and never drop or reorder what was queued |
| Deployments.NoncesCountCharges | services/core/internal/agentapi/manager.go:611-617 | at its turn in a sweep a payer's nonce is what it was plus the charges made to it before, applied or not |
| Deployments.SolventOwnerIsBilled | services/core/internal/agentapi/rent.go:191-227 | an owner the node can sign for and the engine always applies is billed for all it owes, and its deployment kept with nothing outstanding, whatever else is in the sweep |
| Deployments.RefusedOwnerIsNotBilled | services/core/internal/agentapi/rent.go:195-218 | one the engine refuses is never billed: marked since when it has been failing, and gone exactly when its grace has run out |
| Deployments.Manager.constructor | services/core/internal/agentapi/manager.go:442-453 | a restart rebuilds the same records from the store; inboxes and nonces start empty |
| Deployments.Manager.NextNonce | services/core/internal/agentapi/manager.go:611-617 | nonces of one payer count up by one, in a uint64 |
| Deployments.Manager.Charge | services/core/internal/agentapi/manager.go:581-608 | a charge succeeds exactly when there is nothing to pay or the node can sign and the engine applies the transfer under the payer's next nonce; one nonce is used up whenever it gets as far as signing, and the records are untouched |
| Deployments.Manager.Deliver | services/core/internal/agentapi/manager.go:658-686 | a message enters an existing deployment's inbox within both limits, keeping the byte counter the exact sum of what is queued |
| Deployments.Manager.DrainInbox | services/core/internal/agentapi/manager.go:709-716 | returns the queued messages and empties both the queue and its counter |
| Deployments.Manager.RunModule | services/core/internal/agentapi/manager.go:623-646 | what a module sends is queued, in order, only in inboxes of deployments that existed when it ran and had room |
| Deployments.Manager.Persist | services/core/internal/agentapi/manager.go:729-746 | record and module land together, so store, modules and memory stay in step |
| Deployments.Manager.Deploy | services/core/internal/agentapi/manager.go:472-574 | succeeds exactly when id, size, run charge and owner allow it, the limits check being dead; every refusal keeps the records and the inboxes, success stores the record and module this deploy makes, queues what it sent and changes nothing else; the payer's nonce moves exactly when a charge was signed |
| Deployments.Manager.Evict | services/core/internal/agentapi/rent.go:278-296 | record, module, inbox and counter go together |
| Deployments.Manager.SaveRecord | services/core/internal/agentapi/rent.go:302-314 | the record in memory and in the store change together |
| Deployments.Manager.SettleRent | services/core/internal/agentapi/rent.go:191-227 | a charge that the engine applies credits the time, one that it does not keeps or evicts the record by its grace; either way it uses the payer's nonce |
| Deployments.Manager.SweepOne | services/core/internal/agentapi/rent.go:148-227 | one deployment's turn is exactly the sweep of its record, settled exactly when it owes something and the engine applies the charge under its payer's next nonce |
| Deployments.Manager.SweepRent | services/core/internal/agentapi/rent.go:132-230 | every deployment is swept exactly once at its own figures, settled exactly when the engine applies its charge under the nonce its payer has by then, and nothing else changes; the report has the four lists in order and the total in a uint64 |
| Deployments.NamedAre | services/core/internal/agentapi/rent.go:103-121 | a list of the report names exactly the deployments whose fate it is |
| Deployments.SweptInOrderPointwise | services/core/internal/agentapi/rent.go:138-147 | the order of a sweep does not affect what it does to any record |
| SigningLayouts.PaymentBytesAreUnambiguous | packages/protocol/src/index.ts:117-126 | two payments have the same signed bytes exactly when every field agrees |
| SigningLayouts.WordsAreExact | packages/protocol/src/index.ts:73-87 | uint64 amounts and int64 timestamps that are written alike are equal, so for values in range the agreement modulo 2^64 is equality |
| SigningLayouts.OversizeFieldsCollide | packages/protocol/src/index.ts:95-97 | with a field of 2^32 bytes, which the layout does not refuse, two different payments have the same bytes |
| SigningLayouts.RequestBytesAreUnambiguous | packages/protocol/src/index.ts:238-297 | two requests hash the same bytes exactly when turns, budget, temperature bits, tools and tool metadata agree, absent reading as empty, although the tool block is conditional |
| SigningLayouts.NoSurfaceIsToolFree | packages/protocol/src/index.ts:267-270 | the bytes are those of the request without its tool fields exactly when it has no tool surface |
| SigningLayouts.RunBytesAreUnambiguous | packages/protocol/src/index.ts:205-222 | a run authorization is for one key, provider, model, moment and request |
| SigningLayouts.DomainSeparatesPayments | packages/protocol/src/index.ts:201-222 | no run authorization has the bytes of a payment under a key that is not 37 bytes long |
| SigningLayouts.ExchangeBytesAreUnambiguous | packages/protocol/src/receipt.ts:83-98 | two exchanges hash the same bytes exactly when turns, completion and working agree; tool metadata is not covered |
| SigningLayouts.ReceiptBytesAreUnambiguous | packages/protocol/src/receipt.ts:108-128 | two receipts have the same signed bytes exactly when all fourteen fields agree |
| SignedFields.PaymentLayout | packages/protocol/src/index.ts:117-126 | a payment's bytes, octet by octet: key, recipient, amount, nonce, moment, previous hash, in that order |
| SignedFields.LockLayout | services/core/internal/bridge/bridge.go:190-210 | what a lock id hashes, octet by octet: nonce, length-prefixed sender, recipient, amount |
| SignedFields.RequestLayout | packages/protocol/src/index.ts:238-297 | a request's: the counted turns, budget, temperature, and the tool block of definitions and metadata |
| SignedFields.RunLayout | packages/protocol/src/index.ts:205-222 | a run authorization's: its domain, key, provider, model, request digest, moment |
| SignedFields.ExchangeLayout | packages/protocol/src/receipt.ts:83-98 | an exchange's: its domain, the counted turns, completion, working |
| SignedFields.ReceiptLayout | packages/protocol/src/receipt.ts:108-128 | a receipt's: its domain, five texts, seven numbers, exchange digest, key |
| Protocol.Concat | packages/protocol/src/index.ts:53-63 | the buffer is the parts one behind the other, every byte written once |
| Protocol.ToolBlock | packages/protocol/src/index.ts:283-297 | the pushed parts are the tool block of the layout |
| Protocol.MessagesDigest | packages/protocol/src/index.ts:238-257 | the digest is the hash of the request layout |
| SdkBuffers.PaymentBuffer | packages/sdk/src/index.ts:796-829 | the cursor-filled buffer is the shared payment layout |
| SdkBuffers.LockIdBuffer | packages/sdk/src/index.ts:438-464 | the cursor-filled payload is the lock id preimage of the bridge; refused exactly when a number is not a safe uint64, the sender overflows its prefix or the recipient is not twenty bytes of hex |
| SdkBuffers.CheckedIsExact | packages/sdk/src/index.ts:368-380 | a bigint passes exactly within 64 bits, a number exactly when it is a whole one up to 2^53 - 1, and keeps its value |
| SdkBuffers.EthereumAddressBytes | packages/sdk/src/index.ts:404-420 | parses exactly twenty bytes of hex, with or without a prefix |
| SdkBuffers.AddressSpellings | packages/sdk/src/index.ts:404-420 | two spellings are one address exactly when they differ in nothing but prefix and letter case |
| SdkBuffers.AddressIsItsHex | packages/sdk/src/index.ts:404-420 | each byte is what its two hex digits say, high digit first |
| SdkBuffers.PrefixIsOptional | packages/sdk/src/index.ts:404-420 | forty hex digits are the same address by themselves and behind 0x or 0X |
| SdkBuffers.RolesAreSpelled | packages/sdk/src/index.ts:1040-1056 | the roles are signed as system, user, assistant and tool, unset as user, and a name outside the enum not at all |
| SdkBuffers.SdkMessagesDigest | packages/sdk/src/index.ts:947-1022 | the SDK's digest is the protocol package's under the role mapping, refused exactly when some role is unknown |
| SdkBuffers.RunAuthorizationBuffer | packages/sdk/src/index.ts:872-937 | the cursor-filled authorization is the shared layout over the effective conversation |
| SdkBuffers.AuthorizedIsTheInput | packages/sdk/src/index.ts:872-937 | what is signed is what was asked for: every turn with its tool fields, each bound as given, zero or empty where unset |
| SdkBuffers.PromptIsOneUserTurn | packages/sdk/src/index.ts:898-911 | a bare prompt and the equivalent one-turn conversation sign the same bytes |
| FrameStream.CallStreaming | packages/sdk/src/index.ts:1994-2050 | for every way of cutting the stream into chunks the reader yields the same values and ends the same way as reading it all at once, frame by frame |
| FrameStream.FrameOnTheWire | packages/sdk/src/index.ts:2010-2035 | a frame byte for byte: flags, four length bytes from the high one down, payload; bit 0x02 of the flags ends the stream with the payload's verdict, and without it the payload is yielded and reading goes on |
| FrameStream.LaterBytesOnlyAdd | packages/sdk/src/index.ts:2009-2035 | more bytes only add to what was yielded, and nothing after an end frame or failure is looked at |
| FrameStream.SentIsReceived | packages/sdk/src/index.ts:2010-2035 | what a sender frames comes out value for value with the end frame's verdict |
| FrameStream.EveryCutIsReported | packages/sdk/src/index.ts:2043-2050 | a stream cut anywhere before its end frame is complete is reported as truncated |
| Keccak.ThetaInPlace | packages/protocol/src/keccak.ts:62-70 | the two loops are theta |
| Keccak.RhoPi | packages/protocol/src/keccak.ts:72-78 | the scatter is rho followed by pi: every lane lands where it belongs, none is overwritten |
| Keccak.ChiInPlace | packages/protocol/src/keccak.ts:80-85 | the row loops are chi |
| Keccak.KeccakF | packages/protocol/src/keccak.ts:60-90 | the in-place permutation is twenty-four rounds of theta, rho, pi, chi and iota |
| Keccak.RhoOffsetsFollowTheWalk | packages/protocol/src/keccak.ts:46-52 | the rotation table is what section 3.2.2 of FIPS 202 computes |
| KeccakLanes.RoundConstantsAreTheRegister | packages/protocol/src/keccak.ts:34-43 | the round constants are what section 3.2.5 of FIPS 202 computes |
| KeccakLanes.RotlRotates | packages/protocol/src/keccak.ts:54-57 | the two shifts are the rotation, for every offset in use |
| KeccakLanes.PushedByteComesBack | packages/protocol/src/keccak.ts:112-118 | packing a byte into a lane and taking it out again are inverse |
| KeccakLanes.PackedBytes | packages/protocol/src/keccak.ts:112-118 | byte k of a packed lane is byte k of the block |
| KeccakLanes.DigestBytes | packages/protocol/src/keccak.ts:120-133 | the digest is the first four lanes, low byte first |
| KeccakBits.ThetaOfLanes | packages/protocol/src/keccak.ts:62-70 | theta of section 3.2.1 of FIPS 202 on every bit of the lanes: the parities of columns (x-1, z) and (x+1, z-1) |
| KeccakBits.RhoOfLanes | packages/protocol/src/keccak.ts:72-78 | rho of section 3.2.2 on every bit: z minus the offset of the walk |
| KeccakBits.PiOfLanes | packages/protocol/src/keccak.ts:72-78 | pi of section 3.2.3 on every bit: lane ((x + 3y) mod 5, x) |
| KeccakBits.ChiOfLanes | packages/protocol/src/keccak.ts:80-85 | chi of section 3.2.4 on every bit |
| KeccakBits.PermutationIsTheStandards | packages/protocol/src/keccak.ts:60-90 | all twenty-four rounds on every bit, iota's constants included |
| Keccak256.PadInjective | packages/protocol/src/keccak.ts:99-111 | two inputs have the same padding only when they are equal |
| Keccak256.PadIsPad101 | packages/protocol/src/keccak.ts:99-111 | the padding is pad10*1 of FIPS 202 section 5.1 on bits, in blocks of 136 bytes: a one, the fewest zeros, a one |
| Keccak256.BlockAt | packages/protocol/src/keccak.ts:103-111 | a chunk is the next 136 bytes of the padded input, the 0x01 and 0x80 collapsing to 0x81 |
| Keccak256.BlockIsAbsorbed | packages/protocol/src/keccak.ts:103-118 | each block is xored into the first seventeen lanes, eight bytes a lane, before the state is permuted |
| Keccak256.Hash | packages/protocol/src/keccak.ts:96-133 | the block loop and the squeeze are the sponge over the padded input |
| KeccakLanes.HashBytes | packages/protocol/src/keccak.ts:96-133 | the same for the 64-bit lanes |
| PngFilters.UnfilterInverts | apps/web/scripts/brand/pngtool.py:39-57 | reconstruction inverts each of the five filters, for any pixel size |
| PngFilters.ReconstructionIsTheStandards | apps/web/scripts/brand/pngtool.py:39-57 | each byte of a row is the line's plus what its filter type predicts from left, above and upper left, as clauses 9.2 and 9.4 have it, modulo 256 |
| PngFilters.PaethPredictor | apps/web/scripts/brand/pngtool.py:51-57 | the three distances choose the predictor of clause 9.4 |
| PngFilters.UndoFilter | apps/web/scripts/brand/pngtool.py:39-59 | the in-place loop is the reconstruction of clause 9.2; an unknown type is refused |
| Png.WalkChunks | apps/web/scripts/brand/pngtool.py:15-29 | the chunk loop finds the header and joins the data chunks up to the end chunk |
| Png.CopyRow | apps/web/scripts/brand/pngtool.py:60-63 | a row of RGB or RGBA pixels lands as RGBA, opaque without an alpha channel |
| PngCodec.FillRows | apps/web/scripts/brand/pngtool.py:31-65 | the scanline loop is row-by-row reconstruction into one buffer |
| PngCodec.Decode | apps/web/scripts/brand/pngtool.py:11-65 | decode is the file's image, or exactly which failure |
| PngCodec.Encode | apps/web/scripts/brand/pngtool.py:91-106 | encode writes signature, header, one data chunk and end, or fails on a size that does not fit its field |
| PngCodec.EncodedLayout | apps/web/scripts/brand/pngtool.py:91-106 | the file byte by byte: signature, header chunk of width, height, 8 bits and RGBA, data chunk, empty end chunk, each with its length before it and the CRC of type and body behind it |
| PngCodec.DataCollected | apps/web/scripts/brand/pngtool.py:15-28 | data chunks come out joined whatever skipped chunks lie between them |
| PngRoundTrip.ScanRead | apps/web/scripts/brand/pngtool.py:31-65 | rows come back from any choice of filter per line, three or four channels |
| PngRoundTrip.AnyEncodingDecodes | apps/web/scripts/brand/pngtool.py:11-65 | any filtering and any chunking of an 8-bit RGB or RGBA image decodes to its pixels |
| PngRoundTrip.DecodeInvertsEncode | apps/web/scripts/brand/pngtool.py:91-106 | decode inverts encode on every RGBA image; encode fails exactly when a size does not fit |
| PngResize.BoxesInBounds | apps/web/scripts/brand/pngtool.py:73-75 | every box is a non-empty stretch of the source, at any two sizes |
| PngResize.BoxesTileIffNotEnlarged | apps/web/scripts/brand/pngtool.py:73-75 | each box ends where the next begins exactly when the image is not enlarged |
| PngResize.EachLineInOneBox | apps/web/scripts/brand/pngtool.py:73-75 | downscaling, every source line is in one box and no other |
| PngResize.AverageStaysWithin | apps/web/scripts/brand/pngtool.py:76-87 | a target colour lies between the least and greatest visible colour of its box |
| PngResize.ClampIsRedundant | apps/web/scripts/brand/pngtool.py:86 | the minimum with 255 changes nothing |
| PngResize.SameSizeKeepsVisiblePixels | apps/web/scripts/brand/pngtool.py:68-88 | resized to its own size an image keeps every visible pixel |
| PngResize.Resize | apps/web/scripts/brand/pngtool.py:68-88 | every target pixel is the average of its box; fails exactly when there is something to draw and nothing to draw it from |
| PngPixels.ResizedPixel | apps/web/scripts/brand/pngtool.py:72-87 | the pixel at (tx, ty) has the sum of alphas over all pixels of its box divided by their number, and each colour the alpha-weighted sum over them divided by the alphas, or nothing where those are nothing |
| PngPixels.TotalSplits | apps/web/scripts/brand/pngtool.py:77-83 | those sums count every pixel of the box once |
| Attestation.AttestationIsUnambiguous | services/core/internal/bridge/attestation.go:44-52 | under a hash that tells the messages apart, one digest is one recipient, amount and lock on one chain and contract, up to the sign of amount and chain id |
| Attestation.SignedIsWhatTheContractPacks | contracts/contracts/WrappedMatrix.sol:190-198 | for uint256 figures the bytes attestors sign are the one string the contract packs: recipient, amount, lock id, chain id, own address at their places |
| Attestation.SignAttestation | services/core/internal/bridge/attestation.go:156-181 | the signatures of the given attestors over the lock's digest, in order; refused without an amount or an attestor, or when one is missing or cannot sign |
| Attestation.SignedIsAccepted | services/core/internal/bridge/attestation.go:156-181 | what distinct registered attestors sign, Verify accepts |
| Attestation.Verify | services/core/internal/bridge/attestation.go:81-109 | accepts exactly when the threshold is met by distinct registered signers and nothing else is in the set; every refusal names the first signature at fault |
| Attestation.SortSignaturesForChain | services/core/internal/bridge/attestation.go:118-141 | a permutation of the signatures in signer order; refused exactly when one does not recover |
| Attestation.ByteOrderIsIntegerOrder | services/core/internal/bridge/attestation.go:132-134 | comparing addresses as bytes and as integers is the same order |
| Committee.MintAccepts | contracts/contracts/WrappedMatrix.sol:221-238 | the contract's loop accepts exactly the sets Verify accepts whose signers strictly ascend |
| Committee.OrderedForTheChain | services/core/internal/bridge/attestation.go:111-141 | in signer order a set is accepted with strictly ascending signers exactly when Verify accepts it in any order |
| Committee.OneOrder | contracts/scripts/bridge-mint.ts:159-161 | there is one ascending order, so node and script submit the same signatures in the same places |
| Committee.OrderSignatures | contracts/scripts/bridge-mint.ts:135-162 | refuses exactly an unrecoverable signature or a repeated signer; otherwise a strictly ascending permutation with its signers |
| Committee.RealCommittees | contracts/scripts/deploy-bridge.ts:31-110 | on a real network a committee stands exactly when it is named, free of repeats, needs more than two thirds, and is not a lone signer outside a rehearsal |
| Committee.TwoAcceptedSetsShareAThird | contracts/scripts/deploy-bridge.ts:103-108 | any two accepted signature sets share more than a third of such a committee |
| Base64.ToBase64 | packages/sdk/src/index.ts:1078-1090 | the output is the encoding of RFC 4648 section 4, padding included |
| Base64.FromBase64 | packages/sdk/src/index.ts:1062-1076 | the output is the decoding of the input's alphabet characters, and the offset runs as far as the characters say |
| Base64.AlphabetIsTheTable | packages/sdk/src/index.ts:762 | the characters are the alphabet of RFC 4648 in order |
| Base64.OnlyTheTable | packages/sdk/src/index.ts:762-1070 | and no other character stands for a sextet |
| Base64.DecodeInvertsEncode | packages/sdk/src/index.ts:1062-1090 | decoding what was encoded gives every byte string back |
| Base64.BufferSufficesIff | packages/sdk/src/index.ts:1064 | the computed buffer holds everything written exactly when the cleaned length is not 1 modulo 4 |
| Base64.BufferFitsEncoded | packages/sdk/src/index.ts:1064 | on the encoder's output the buffer is filled exactly |

## Left out

- Bridge.Bridge.Lock: the JSON marshalling of lock events, store reads that fail, and a transfer whose own commit fails (which changes nothing).
- Bridge.Bridge.AdoptGenesisEscrow: the race of adoption with other callers during startup; `TwoLocks` starts once startup is over.
- Backing.EscrowCoversEveryClaim: per-holder ERC-20 balances; the wrapped supply is one number.
- Watcher.Watcher.Poll: wrap-around of a block number past 2^64, cancellation, and the ticker of `Watcher.Run`.
- Schedules.NoBurnIsSkipped: other operations interleave between passes of the relayer, not between two logs of one pass; that the endpoint hands over the contract's logs of final blocks, all of them, is assumed.
- BurnLog.SpellingsAgree: white space and letter case beyond what the decoder's own trimming and lower-casing can turn into an account id.
- TwoLocks.EverythingCanFinish: fairness of the scheduler; work can always be finished, not that a given scheduler does.
- Deployments.Manager.Deploy: the stored limits and output fields, the wasm run itself (what it sends and whether it fails are parameters), the interleaving of a sweep with a running deploy, and wall-clock reads.
- Deployments.Manager.constructor: a store that cannot be read.
- SigningLayouts.RequestBytesAreUnambiguous: lone surrogates, which UTF-8 encoding maps to one replacement character.
- SdkBuffers.RunAuthorizationBuffer: the fallback UTF-8 encoder for runtimes without TextEncoder; what trims to nothing is a parameter.
- SigningLayouts.ReceiptBytesAreUnambiguous: base64 fields are the bytes they decode to; checking a receipt's signature and arithmetic.
- FrameStream.CallStreaming: the HTTP exchange before the first frame, cancellation, and a caller that stops early.
- Keccak256.Hash: nothing is claimed about collision resistance.
- PngCodec.FillRows: the row's byte position is a running offset instead of a product recomputed per pixel.
- PngCodec.Decode: reading and writing the file, and memory limits.
- Attestation.Verify: an amount beyond 256 bits, on which computing the digest panics.
- Attestation.SortSignaturesForChain: which of several signatures by one signer comes first; the library's sort does not promise it either.
- Committee.MintAccepts: the amount, replay and cap checks around the signature loop, which `Backing` has.
- Committee.RealCommittees: splitting and checksumming the address list.
- `crop` in pngtool.py, `parseAttestations`, receipt checking, stake and EIP-712 encodings: guards and copies that would only add easy facts.
- secp256k1, ed25519, keystores, the consensus engine, the Merkle state root, wazero, HTTP and RPC plumbing, the consoles and the deploy scripts other than the two named.
- API keys, log trimming, send budgets and the console's demo market.
