/** The native balance ledger the bridge moves value on (internal/market/ledger.go).

    Go strings are byte strings, so an account id is one too. */
module NativeLedger {
  import opened Bytes
  import opened Options

  type Account = bytes
  type Balances = map<Account, nat>

  /** A missing key reads as zero. */
  function BalanceOf(b: Balances, a: Account): nat {
    if a in b then b[a] else 0
  }

  /** transferLocked: affordability first, a self-transfer is a no-op, and the two
      writes land in one batch. The credit is a uint64 addition, so it wraps. */
  function Transferred(b: Balances, from: Account, to: Account, amount: nat): Option<Balances> {
    if BalanceOf(b, from) < amount then None
    else if from == to then Some(b)
    else Some(b[from := BalanceOf(b, from) - amount][to := (BalanceOf(b, to) + amount) % TWO_64])
  }

  /** The sum of a finite table. */
  ghost function Sum<K>(m: map<K, nat>): nat
    decreases |m|
  {
    if m == map[] then 0
    else
      var k :| k in m;
      assert (m - {k}).Keys == m.Keys - {k};
      m[k] + Sum(m - {k})
  }

  /** The sum does not depend on the order entries are taken in. */
  lemma {:induction false} SumRemove<K>(m: map<K, nat>, k: K)
    requires k in m
    ensures Sum(m) == m[k] + Sum(m - {k})
    decreases |m|
  {
    var j :| j in m && Sum(m) == m[j] + Sum(m - {j});
    assert (m - {j}).Keys == m.Keys - {j};
    if j != k {
      SumRemove(m - {j}, k);
      assert (m - {k}).Keys == m.Keys - {k};
      SumRemove(m - {k}, j);
      assert m - {j} - {k} == m - {k} - {j};
    }
  }

  lemma SumUpdate<K>(m: map<K, nat>, k: K, v: nat)
    ensures Sum(m[k := v]) == Sum(m) + v - (if k in m then m[k] else 0)
  {
    SumRemove(m[k := v], k);
    assert m[k := v] - {k} == m - {k};
    if k in m {
      SumRemove(m, k);
    } else {
      assert m - {k} == m;
    }
  }

  lemma SumBounds<K>(m: map<K, nat>, k: K)
    requires k in m
    ensures m[k] <= Sum(m)
  {
    SumRemove(m, k);
  }

  /** Two accounts together never hold more than the whole. */
  lemma TwoBounded(b: Balances, x: Account, y: Account)
    requires x != y
    ensures BalanceOf(b, x) + BalanceOf(b, y) <= Sum(b)
  {
    if x in b { SumRemove(b, x); }
    if y in b - {x} { SumRemove(b - {x}, y); }
    if x !in b && y in b { SumRemove(b, y); }
  }

  lemma SumSet(b: Balances, a: Account, v: nat)
    ensures Sum(b[a := v]) == Sum(b) + v - BalanceOf(b, a)
  {
    SumUpdate(b, a, v);
  }

  lemma TransferTotal(b: Balances, from: Account, to: Account, debit: nat, credit: nat)
    requires from != to
    ensures Sum(b[from := debit][to := credit]) == Sum(b) + debit - BalanceOf(b, from) + credit - BalanceOf(b, to)
  {
    var debited := b[from := debit];
    SumSet(b, from, debit);
    SumSet(debited, to, credit);
  }

  /** No coin is made or lost: as long as the supply fits the counter, a transfer
      keeps the total, never wraps, and moves exactly `amount` between exactly the
      two accounts named. */
  lemma TransferConserves(b: Balances, from: Account, to: Account, amount: nat)
    requires Sum(b) < TWO_64
    requires Transferred(b, from, to, amount).Some?
    ensures var b' := Transferred(b, from, to, amount).value;
            && Sum(b') == Sum(b)
            && (from == to ==> b' == b)
            && (from != to ==> BalanceOf(b', from) == BalanceOf(b, from) - amount)
            && (from != to ==> BalanceOf(b', to) == BalanceOf(b, to) + amount)
            && forall a :: a != from && a != to ==> BalanceOf(b', a) == BalanceOf(b, a)
  {
    if from != to {
      TwoBounded(b, from, to);
      TransferTotal(b, from, to, BalanceOf(b, from) - amount, BalanceOf(b, to) + amount);
    }
  }

  class Ledger {
    var balances: Balances

    constructor (opening: Balances)
      ensures balances == opening
    {
      balances := opening;
    }

    method Transfer(from: Account, to: Account, amount: nat) returns (moved: bool)
      modifies this
      ensures moved <==> amount <= BalanceOf(old(balances), from)
      ensures !moved ==> balances == old(balances)
      ensures moved ==> Some(balances) == Transferred(old(balances), from, to, amount)
    {
      var fromBalance := BalanceOf(balances, from);
      if fromBalance < amount {
        return false;
      }
      if from == to {
        return true;
      }
      var toBalance := BalanceOf(balances, to);
      balances := balances[from := fromBalance - amount];
      balances := balances[to := (toBalance + amount) % TWO_64];
      return true;
    }
  }
}
