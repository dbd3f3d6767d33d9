/** Storage rent: the two roundings of rentOwed and what they add up to over any
    sequence of sweeps (internal/agentapi/rent.go). */
module Rent {
  import opened Bytes

  const NS_PER_DAY: nat := 86_400_000_000_000
  /** bytesPerMiB * nsPerDay */
  const DEN: nat := 1_048_576 * NS_PER_DAY
  const MAX_STORAGE_PRICE: nat := 1_000_000_000_000
  const DEFAULT_MAX_MODULE_BYTES: nat := 33_554_432

  /** rentOwed, its three fallback branches included. */
  function RentOwed(sizeBytes: nat, price: nat, elapsed: int): (nat, int) {
    if sizeBytes == 0 || price == 0 || elapsed <= 0 then (0, 0)
    else
      var rate := sizeBytes * price;
      var whole := rate * elapsed / DEN;
      if whole >= TWO_64 then (TWO_64 - 1, elapsed)
      else if whole == 0 then (0, 0)
      else
        var covered := whole * DEN / rate;
        if covered >= TWO_63 then (whole, elapsed)
        else if covered > elapsed then (whole, elapsed)
        else (whole, covered)
  }

  /** The unit of the price: so many credits per MiB and day. m MiB kept for d days of
      24 hours owe m * d times the price, and it pays for the whole time. */
  lemma PriceIsPerMiBDay(m: nat, d: nat, price: nat)
    requires m > 0 && d > 0 && price > 0
    requires m * price * d < 0x1_0000_0000_0000_0000 && d * (24 * 3600 * 1_000_000_000) < TWO_63
    ensures RentOwed(m * (1024 * 1024), price, d * (24 * 3600 * 1_000_000_000))
            == (m * price * d, d * (24 * 3600 * 1_000_000_000))
  {
    var (size, elapsed) := (m * (1024 * 1024), d * (24 * 3600 * 1_000_000_000));
    var (rate, owed) := (size * price, m * price * d);
    DayRegroups(m, d, price);
    ExactDivision(owed, DEN);
    ProductPositive(m, price);
    ProductPositive(m * price, d);
    ProductPositive(size, price);
    ExactDivision(elapsed, rate);
    assert rate * elapsed == owed * DEN && rate * elapsed / DEN == owed;
    assert owed * DEN / rate == elapsed;
  }

  lemma DayRegroups(m: nat, d: nat, price: nat)
    ensures m * (1024 * 1024) * price * (d * (24 * 3600 * 1_000_000_000)) == m * price * d * DEN
  {
    assert m * (1024 * 1024) * price == m * price * (1024 * 1024);
    Interchange(m * price, 1024 * 1024, d, 24 * 3600 * 1_000_000_000);
  }

  lemma Interchange(a: nat, b: nat, c: nat, d: nat)
    ensures (a * b) * (c * d) == (a * c) * (b * d)
  {
    assert (a * b) * (c * d) == a * (b * (c * d)) == a * (c * (b * d));
  }

  lemma ProductPositive(a: nat, b: nat)
    requires a > 0 && b > 0
    ensures a * b > 0
  {
  }

  lemma ExactDivision(q: nat, d: nat)
    requires d > 0
    ensures q * d / d == q && d * q / d == q
  {
    DivBrackets(q * d, d);
    MulOrder(d, q * d / d, q);
    MulOrder(d, q, q * d / d + 1);
  }

  lemma DivPositive(a: nat, b: nat)
    requires 0 < b <= a
    ensures a / b >= 1
  {
    DivBrackets(a, b);
    MulOrder(b, 1, a / b + 1);
  }

  lemma MulOrder(a: nat, b: int, c: int)
    requires a > 0
    ensures a * b <= a * c <==> b <= c
    ensures a * b < a * c <==> b < c
  {
    if b <= c { MulNonNegative(a, c - b); assert a * c - a * b == a * (c - b); }
    if c < b { MulNonNegative(a, b - c - 1); assert a * b - a * c == a * (b - c - 1) + a; }
    if b < c { MulNonNegative(a, c - b - 1); assert a * c - a * b == a * (c - b - 1) + a; }
  }

  lemma MulNonNegative(a: nat, b: nat)
    ensures a * b >= 0
  {
  }

  /** The whole credits in a stretch of time, and the time those credits buy: the first
      rounding drops less than a credit, the second less than a nanosecond. */
  lemma Roundings(rate: nat, elapsed: nat)
    requires rate > 0
    ensures var whole := rate * elapsed / DEN;
            var covered := whole * DEN / rate;
            && whole * DEN <= rate * elapsed < (whole + 1) * DEN
            && rate * covered <= whole * DEN < rate * (covered + 1)
            && 0 <= covered <= elapsed
  {
    MulNonNegative(rate, elapsed);
    var total := rate * elapsed;
    DivBrackets(total, DEN);
    var bought := total / DEN * DEN;
    DivBrackets(bought, rate);
    var covered := bought / rate;
    assert rate * covered == covered * rate && rate * (covered + 1) == (covered + 1) * rate;
    MulOrder(rate, covered, elapsed);
  }

  /** For every input: the covered time never passes the elapsed time and fits an
      int64, so two of the three fallbacks are dead; the third is taken exactly when
      the rent would not fit a uint64. */
  lemma CoveredNeverExceedsElapsed(sizeBytes: nat, price: nat, elapsed: int)
    requires 0 - TWO_63 <= elapsed < TWO_63
    ensures var (credits, covered) := RentOwed(sizeBytes, price, elapsed);
            && credits < TWO_64 && 0 <= covered < TWO_63
            && (elapsed >= 0 ==> covered <= elapsed)
            && (sizeBytes > 0 && price > 0 && elapsed > 0 ==>
                  var rate := sizeBytes * price;
                  var whole := rate * elapsed / DEN;
                  && rate > 0
                  && whole * DEN / rate <= elapsed
                  && (whole < TWO_64 ==> credits == whole && covered == whole * DEN / rate))
  {
    if sizeBytes > 0 && price > 0 && elapsed > 0 {
      MulOrder(sizeBytes, 0, price);
      Roundings(sizeBytes * price, elapsed);
    }
  }

  /** A rate of at most one credit per nanosecond, whatever caps keep it there. */
  predicate Ceilings(sizeBytes: nat, price: nat) {
    0 < sizeBytes && 0 < price && sizeBytes * price <= DEN
  }

  /** The price ceiling and the default module cap keep below that rate. */
  lemma DefaultsAreUnderCeilings(sizeBytes: nat, price: nat)
    requires 0 < sizeBytes <= DEFAULT_MAX_MODULE_BYTES && 0 < price <= MAX_STORAGE_PRICE
    ensures Ceilings(sizeBytes, price) && sizeBytes * price < DEN
  {
    MulOrder(sizeBytes, price, MAX_STORAGE_PRICE);
    MulOrder(MAX_STORAGE_PRICE, sizeBytes, DEFAULT_MAX_MODULE_BYTES);
  }

  /** Under it the credits fit a uint64 for every int64 duration, and any positive charge
      moves the watermark forward. */
  lemma CeilingsKeepRentHonest(sizeBytes: nat, price: nat, elapsed: int)
    requires Ceilings(sizeBytes, price) && elapsed < TWO_63
    ensures var (credits, covered) := RentOwed(sizeBytes, price, elapsed);
            && (credits == 0 <==> covered == 0)
            && (elapsed > 0 ==>
                  && credits == sizeBytes * price * elapsed / DEN < TWO_64
                  && covered == credits * DEN / (sizeBytes * price) <= elapsed)
  {
    if elapsed > 0 {
      var rate := sizeBytes * price;
      MulOrder(sizeBytes, 0, price);
      Roundings(rate, elapsed);
      var whole := rate * elapsed / DEN;
      MulOrder(elapsed, rate, DEN);
      assert whole * DEN <= rate * elapsed == elapsed * rate <= elapsed * DEN;
      MulOrder(DEN, whole, elapsed);
      if whole > 0 {
        MulOrder(DEN, 1, whole);
        assert DEN * 1 <= DEN * whole == whole * DEN;
        DivPositive(whole * DEN, rate);
      }
    }
  }

  lemma CoveredZeroIff(bought: nat, rate: nat)
    requires rate > 0
    ensures bought / rate == 0 <==> bought < rate
  {
    DivBrackets(bought, rate);
    var q := bought / rate;
    assert q * rate == rate * q;
    if q > 0 { MulOrder(rate, 1, q); }
  }

  /** Whole credits that buy less than one nanosecond: only a single nanosecond can have
      bought them, at more than one credit and not a whole number of them. */
  lemma StallNeedsOneNanosecond(rate: nat, elapsed: nat)
    requires rate > 0 && elapsed > 0
    ensures var whole := rate * elapsed / DEN;
            whole > 0 && whole * DEN < rate <==> elapsed == 1 && rate > DEN && rate % DEN != 0
  {
    var whole := rate * elapsed / DEN;
    MulNonNegative(rate, elapsed);
    DivBrackets(rate * elapsed, DEN);
    if elapsed >= 2 {
      MulOrder(rate, 2, elapsed);
    } else {
      assert rate * elapsed == rate;
    }
  }

  /** Above that rate a charge can leave the watermark where it was, and bill the same
      time again: exactly a charge for one single nanosecond at more than a credit, and
      not a whole number of credits, per nanosecond. */
  lemma ChargeStallsIff(sizeBytes: nat, price: nat, elapsed: int)
    requires 0 < sizeBytes && 0 < price && 0 < elapsed < TWO_63
    ensures var (credits, covered) := RentOwed(sizeBytes, price, elapsed);
            var rate := sizeBytes * price;
            credits > 0 && covered == 0 <==> elapsed == 1 && DEN < rate < TWO_64 * DEN && rate % DEN != 0
  {
    var rate := sizeBytes * price;
    MulOrder(sizeBytes, 0, price);
    CoveredNeverExceedsElapsed(sizeBytes, price, elapsed);
    StallNeedsOneNanosecond(rate, elapsed);
    var whole := rate * elapsed / DEN;
    MulNonNegative(whole, DEN);
    CoveredZeroIff(whole * DEN, rate);
    if elapsed == 1 { FitsIff(rate); }
  }

  lemma FitsIff(rate: nat)
    ensures rate * 1 / DEN < TWO_64 <==> rate < TWO_64 * DEN
  {
    DivBrackets(rate, DEN);
  }

  // ---------------------------------------------------------------- sweeps of one tenancy

  /** The two figures a paid sweep moves. */
  datatype Tenancy = Tenancy(paidThrough: int, rentPaid: nat)

  /** One sweep of a deployment whose rate is pinned; a charge that does not settle
      moves neither figure. RentPaid is a uint64. */
  function Sweep(t: Tenancy, sizeBytes: nat, price: nat, now: int, settled: bool): Tenancy {
    var (credits, covered) := RentOwed(sizeBytes, price, now - t.paidThrough);
    if credits == 0 || !settled then t
    else Tenancy(t.paidThrough + covered, (t.rentPaid + credits) % TWO_64)
  }

  predicate Pays(t: Tenancy, sizeBytes: nat, price: nat, now: int, settled: bool) {
    settled && RentOwed(sizeBytes, price, now - t.paidThrough).0 > 0
  }

  predicate Fails(t: Tenancy, sizeBytes: nat, price: nat, now: int, settled: bool) {
    !settled && RentOwed(sizeBytes, price, now - t.paidThrough).0 > 0
  }

  datatype SweepAt = SweepAt(now: int, settled: bool)

  function Swept(t: Tenancy, sizeBytes: nat, price: nat, sweeps: seq<SweepAt>): Tenancy {
    if sweeps == [] then t
    else
      var last := sweeps[|sweeps| - 1];
      Sweep(Swept(t, sizeBytes, price, sweeps[..|sweeps| - 1]), sizeBytes, price, last.now, last.settled)
  }

  function PaidSweeps(t: Tenancy, sizeBytes: nat, price: nat, sweeps: seq<SweepAt>): nat {
    if sweeps == [] then 0
    else
      var before, last := sweeps[..|sweeps| - 1], sweeps[|sweeps| - 1];
      PaidSweeps(t, sizeBytes, price, before)
      + if Pays(Swept(t, sizeBytes, price, before), sizeBytes, price, last.now, last.settled) then 1 else 0
  }

  /** The books of a tenancy that opened at w0 and has been charged n times: the credits
      paid cover the watermark's advance, and exceed it by less than a nanosecond of
      rent per charge. */
  predicate Accounted(t: Tenancy, w0: int, rate: nat, n: nat) {
    && t.rentPaid < TWO_64
    && n <= t.paidThrough - w0
    && rate * (t.paidThrough - w0) <= t.rentPaid * DEN <= rate * (t.paidThrough - w0 + n)
  }

  /** Credits bounded by twice the time they can have covered: RentPaid cannot wrap. */
  lemma AccountedFits(paid: nat, advance: nat, n: nat, rate: nat)
    requires rate <= DEN && n <= advance < TWO_63
    requires paid * DEN <= rate * (advance + n)
    ensures paid < TWO_64
  {
    if rate > 0 {
      MulOrder(rate, advance + n, 2 * advance);
    }
    MulNonNegative(advance, 2);
    if advance > 0 { MulOrder(2 * advance, rate, DEN); }
    assert paid * DEN <= 2 * advance * DEN;
    MulOrder(DEN, paid, 2 * advance);
  }

  /** A charge adds its own two bounds to those of what was paid before. */
  lemma ChargeAdds(paid: nat, credits: nat, a: nat, covered: nat, n: nat, rate: nat)
    requires rate * a <= paid * DEN <= rate * (a + n)
    requires rate * covered <= credits * DEN < rate * (covered + 1)
    ensures rate * (a + covered) <= (paid + credits) * DEN <= rate * (a + covered + (n + 1))
  {
    assert rate * (a + covered) == rate * a + rate * covered;
    assert (paid + credits) * DEN == paid * DEN + credits * DEN;
    assert rate * (a + n) + rate * (covered + 1) == rate * (a + covered + (n + 1));
  }

  lemma SweepAccounts(t: Tenancy, sizeBytes: nat, price: nat, now: int, settled: bool, w0: int, n: nat)
    requires Ceilings(sizeBytes, price) && Accounted(t, w0, sizeBytes * price, n)
    requires now - w0 < TWO_63 && t.paidThrough <= now
    ensures var t' := Sweep(t, sizeBytes, price, now, settled);
            var n' := n + if Pays(t, sizeBytes, price, now, settled) then 1 else 0;
            && Accounted(t', w0, sizeBytes * price, n')
            && t.paidThrough <= t'.paidThrough <= now
            && (n' > n ==> t.paidThrough < t'.paidThrough)
  {
    var rate, e := sizeBytes * price, now - t.paidThrough;
    var (credits, covered) := RentOwed(sizeBytes, price, e);
    CeilingsKeepRentHonest(sizeBytes, price, e);
    if credits > 0 && settled {
      MulOrder(sizeBytes, 0, price);
      Roundings(rate, e);
      var a := t.paidThrough - w0;
      ChargeAdds(t.rentPaid, credits, a, covered, n, rate);
      AccountedFits(t.rentPaid + credits, a + covered, n + 1, rate);
    }
  }

  /** Adding a floor to whole credits already paid is the floor of the sum. */
  lemma FloorAbsorbs(paid: nat, rate: nat, a: nat, e: nat)
    requires rate * a <= paid * DEN && rate > 0
    ensures paid + rate * e / DEN >= rate * (a + e) / DEN
  {
    MulNonNegative(rate, e);
    MulNonNegative(rate, a + e);
    DivBrackets(rate * e, DEN);
    DivBrackets(rate * (a + e), DEN);
    var f, g := rate * e / DEN, rate * (a + e) / DEN;
    assert rate * (a + e) == rate * a + rate * e;
    assert g * DEN < (paid + f + 1) * DEN by {
      assert (paid + f + 1) * DEN == paid * DEN + (f + 1) * DEN;
    }
    MulOrder(DEN, g, paid + f + 1);
  }

  /** Times at which the sweeper runs, in order, none before the tenancy opened. */
  predicate Timed(sweeps: seq<SweepAt>, w0: int) {
    && (forall i :: 0 <= i < |sweeps| ==> w0 <= sweeps[i].now && sweeps[i].now - w0 < TWO_63)
    && (forall i, j :: 0 <= i < j < |sweeps| ==> sweeps[i].now <= sweeps[j].now)
  }

  lemma NoWrap(t: Tenancy, sizeBytes: nat, price: nat, now: int, w0: int, n: nat)
    requires Ceilings(sizeBytes, price) && Accounted(t, w0, sizeBytes * price, n)
    requires now - w0 < TWO_63 && t.paidThrough <= now
    ensures t.rentPaid + RentOwed(sizeBytes, price, now - t.paidThrough).0 < TWO_64
  {
    var rate, e := sizeBytes * price, now - t.paidThrough;
    var (credits, covered) := RentOwed(sizeBytes, price, e);
    CeilingsKeepRentHonest(sizeBytes, price, e);
    if credits > 0 {
      MulOrder(sizeBytes, 0, price);
      Roundings(rate, e);
      var a := t.paidThrough - w0;
      ChargeAdds(t.rentPaid, credits, a, covered, n, rate);
      AccountedFits(t.rentPaid + credits, a + covered, n + 1, rate);
    }
  }

  /** A sweep that does not fail leaves at least the one-shot rent paid. */
  lemma SettledCoversAll(t: Tenancy, sizeBytes: nat, price: nat, now: int, w0: int, n: nat)
    requires Ceilings(sizeBytes, price) && Accounted(t, w0, sizeBytes * price, n)
    requires now - w0 < TWO_63 && w0 <= t.paidThrough <= now
    ensures Sweep(t, sizeBytes, price, now, true).rentPaid >= RentOwed(sizeBytes, price, now - w0).0
  {
    var rate, a, e := sizeBytes * price, t.paidThrough - w0, now - t.paidThrough;
    MulOrder(sizeBytes, 0, price);
    CreditsAre(sizeBytes, price, e);
    CreditsAre(sizeBytes, price, a + e);
    FloorAbsorbs(t.rentPaid, rate, a, e);
    SettledSweepAdds(t, sizeBytes, price, now, w0, n);
    assert now - w0 == a + e;
  }

  lemma SettledSweepAdds(t: Tenancy, sizeBytes: nat, price: nat, now: int, w0: int, n: nat)
    requires Ceilings(sizeBytes, price) && Accounted(t, w0, sizeBytes * price, n)
    requires now - w0 < TWO_63 && w0 <= t.paidThrough <= now
    ensures Sweep(t, sizeBytes, price, now, true).rentPaid
            == t.rentPaid + RentOwed(sizeBytes, price, now - t.paidThrough).0
  {
    NoWrap(t, sizeBytes, price, now, w0, n);
  }

  lemma CreditsAre(sizeBytes: nat, price: nat, elapsed: nat)
    requires Ceilings(sizeBytes, price) && elapsed < TWO_63
    ensures RentOwed(sizeBytes, price, elapsed).0 == sizeBytes * price * elapsed / DEN
  {
    CeilingsKeepRentHonest(sizeBytes, price, elapsed);
    if elapsed == 0 { assert sizeBytes * price * elapsed == 0; }
  }

  /** Over any sequence of paid and failed sweeps of a fixed module at its pinned rate:
      rate times the watermark's advance is at most the rent paid, which is at most rate
      times (advance plus the number of paid sweeps), in the same units; the watermark
      only moves forward and never past the last sweep; and once a sweep does not fail,
      the rent paid is at least what one single sweep of the whole time would have
      charged. Sweeping often loses nothing. */
  lemma {:induction false} TenancyAccounting(w0: int, sizeBytes: nat, price: nat, sweeps: seq<SweepAt>)
    requires Ceilings(sizeBytes, price) && Timed(sweeps, w0)
    ensures var t := Swept(Tenancy(w0, 0), sizeBytes, price, sweeps);
            var n := PaidSweeps(Tenancy(w0, 0), sizeBytes, price, sweeps);
            && Accounted(t, w0, sizeBytes * price, n)
            && w0 <= t.paidThrough
            && (sweeps != [] ==> t.paidThrough <= sweeps[|sweeps| - 1].now)
            && (sweeps != [] ==>
                  var last := sweeps[|sweeps| - 1];
                  var t0 := Swept(Tenancy(w0, 0), sizeBytes, price, sweeps[..|sweeps| - 1]);
                  !Fails(t0, sizeBytes, price, last.now, last.settled)
                  ==> t.rentPaid >= RentOwed(sizeBytes, price, last.now - w0).0)
  {
    if sweeps != [] {
      var before, last := sweeps[..|sweeps| - 1], sweeps[|sweeps| - 1];
      var t, n := Swept(Tenancy(w0, 0), sizeBytes, price, before), PaidSweeps(Tenancy(w0, 0), sizeBytes, price, before);
      TenancyAccounting(w0, sizeBytes, price, before);
      if before != [] { assert before[|before| - 1] == sweeps[|before| - 1]; }
      SweepAccounts(t, sizeBytes, price, last.now, last.settled, w0, n);
      if !Fails(t, sizeBytes, price, last.now, last.settled) { SettledCoversAll(t, sizeBytes, price, last.now, w0, n); }
    } else {
      assert sizeBytes * price * 0 == 0;
    }
  }
}
