/** What the contract accepts, and why two accepted sets overlap: the mint loop of
    WrappedMatrix.sol, orderSignatures of contracts/scripts/bridge-mint.ts and
    resolveAttestors of contracts/scripts/deploy-bridge.ts. */
module Committee {
  import opened Attestation
  import opened Bytes
  import opened LockIds
  import opened Options

  const ZERO_ADDRESS: Address := seq(20, _ => 0)

  lemma {:induction false} ZerosAreZero(n: nat)
    ensures FromBigEndian(seq(n, _ => 0)) == 0
  {
    if n > 0 {
      var b: bytes := seq(n, _ => 0);
      assert b[..n - 1] == seq(n - 1, _ => 0);
      ZerosAreZero(n - 1);
    }
  }

  /** The signature loop of mint: enough signatures, each by a registered attestor
      above the one before. The constructor lets no committee hold the zero address
      and no threshold be zero. */
  method MintAccepts(sigs: seq<bytes>, attestors: set<Address>, threshold: nat, recover: Recover) returns (ok: bool)
    requires threshold > 0 && ZERO_ADDRESS !in attestors
    ensures ok <==> Accepts(sigs, attestors, threshold, recover)
                    && AllRecover(sigs, recover) && StrictlyAscending(sigs, recover)
  {
    if |sigs| < threshold {
      return false;
    }
    var valid := 0;
    var last := ZERO_ADDRESS;
    ZerosAreZero(20);
    for i := 0 to |sigs|
      invariant valid == i
      invariant forall j :: 0 <= j < i ==> recover(sigs[j]).Some? && recover(sigs[j]).value in attestors
      invariant last == if i == 0 then ZERO_ADDRESS else recover(sigs[i - 1]).value
      invariant forall j, k :: 0 <= j < k < i ==> Key(recover(sigs[j]).value) < Key(recover(sigs[k]).value)
    {
      var signer := recover(sigs[i]);
      if signer.None? {
        return false;
      }
      if Key(signer.value) <= Key(last) {
        if i == 0 {
          KeysTellApart(signer.value, ZERO_ADDRESS);
        } else {
          assert recover(sigs[i - 1]).value == last;
        }
        return false;
      }
      if signer.value !in attestors {
        return false;
      }
      last := signer.value;
      valid := valid + 1;
    }
    ok := valid >= threshold;
  }

  // ---- Order does not matter to Verify, and is unique for the chain --------

  lemma HeadAndTail<T>(s: seq<T>)
    requires s != []
    ensures multiset(s) == multiset(s[1..]) + multiset{s[0]}
  {
    assert s == [s[0]] + s[1..];
  }

  /** Without repetition in it, a list holds a value at most once. */
  lemma {:induction false} AtMostOnce<T>(s: seq<T>, x: T)
    requires forall i, j :: 0 <= i < j < |s| ==> s[i] != s[j]
    ensures multiset(s)[x] <= 1
  {
    if s != [] {
      HeadAndTail(s);
      AtMostOnce(s[1..], x);
      if x == s[0] {
        assert x !in s[1..];
        assert x !in multiset(s[1..]);
      }
    }
  }

  lemma HeldTwice<T>(t: seq<T>, i: nat, j: nat)
    requires i < j < |t| && t[i] == t[j]
    ensures multiset(t)[t[i]] >= 2
  {
    assert t == t[..j] + [t[j]] + t[j + 1..];
    assert t[i] in t[..j];
  }

  /** Elements that differ under f still do in another order. */
  lemma DistinctInAnyOrder<T, K>(s: seq<T>, t: seq<T>, f: T -> K, i: nat, j: nat)
    requires multiset(s) == multiset(t) && i < j < |t|
    requires forall p, q :: 0 <= p < q < |s| ==> f(s[p]) != f(s[q])
    ensures f(t[i]) != f(t[j])
  {
    forall p, q | 0 <= p < q < |s|
      ensures s[p] != s[q]
    {
      assert f(s[p]) != f(s[q]);
    }
    AtMostOnce(s, t[i]);
    if t[i] == t[j] {
      HeldTwice(t, i, j);
    } else {
      assert t[i] in multiset(s) && t[j] in multiset(s);
      var p :| 0 <= p < |s| && s[p] == t[i];
      var q :| 0 <= q < |s| && s[q] == t[j];
      assert p < q || q < p;
    }
  }

  lemma AcceptedWhateverOrder(s: seq<bytes>, t: seq<bytes>, attestors: set<Address>, threshold: int, recover: Recover)
    requires multiset(s) == multiset(t) && Accepts(s, attestors, threshold, recover)
    ensures Accepts(t, attestors, threshold, recover)
  {
    assert |multiset(s)| == |multiset(t)|;
    forall i | 0 <= i < |t|
      ensures recover(t[i]).Some? && recover(t[i]).value in attestors
    {
      assert t[i] in multiset(s);
    }
    forall i, j | 0 <= i < j < |t|
      ensures recover(t[i]) != recover(t[j])
    {
      DistinctInAnyOrder(s, t, recover, i, j);
    }
  }

  /** A set Verify accepts, put in signer order, is a set Verify still accepts with
      strictly ascending signers, which is what mint asks for; and mint accepts no
      ordering of a set Verify refuses. */
  lemma OrderedForTheChain(s: seq<bytes>, t: seq<bytes>, attestors: set<Address>, threshold: int, recover: Recover)
    requires multiset(s) == multiset(t) && AllRecover(t, recover) && InOrder(t, recover)
    ensures Accepts(s, attestors, threshold, recover)
            <==> Accepts(t, attestors, threshold, recover) && StrictlyAscending(t, recover)
  {
    if Accepts(s, attestors, threshold, recover) {
      AcceptedWhateverOrder(s, t, attestors, threshold, recover);
      forall i, j | 0 <= i < j < |t|
        ensures Key(recover(t[i]).value) < Key(recover(t[j]).value)
      {
        assert recover(t[i]) != recover(t[j]);
        if Key(recover(t[i]).value) == Key(recover(t[j]).value) {
          KeysTellApart(recover(t[i]).value, recover(t[j]).value);
        }
      }
    }
    if Accepts(t, attestors, threshold, recover) {
      AcceptedWhateverOrder(t, s, attestors, threshold, recover);
    }
  }

  lemma FirstIsLeast(s: seq<bytes>, t: seq<bytes>, recover: Recover)
    requires multiset(s) == multiset(t) && s != [] && t != []
    requires AllRecover(s, recover) && AllRecover(t, recover) && InOrder(s, recover)
    ensures Key(recover(s[0]).value) <= Key(recover(t[0]).value)
  {
    assert t[0] in multiset(s);
    var i :| 0 <= i < |s| && s[i] == t[0];
  }

  /** There is one strictly ascending order, so the node and the script, however they
      sort, hand the contract the same signatures in the same places. */
  lemma {:induction false} OneOrder(s: seq<bytes>, t: seq<bytes>, recover: Recover)
    requires multiset(s) == multiset(t) && AllRecover(s, recover) && AllRecover(t, recover)
    requires StrictlyAscending(s, recover) && InOrder(t, recover)
    ensures s == t
  {
    assert |multiset(s)| == |multiset(t)|;
    if s != [] {
      FirstIsLeast(s, t, recover);
      FirstIsLeast(t, s, recover);
      assert t[0] in multiset(s);
      var i :| 0 <= i < |s| && s[i] == t[0];
      assert i == 0;
      HeadAndTail(s);
      HeadAndTail(t);
      Cancel(multiset(s[1..]), multiset(t[1..]), s[0]);
      OneOrder(s[1..], t[1..], recover);
    }
  }

  /** orderSignatures: refuses a signature that does not recover and a signer that
      signed twice, else the signatures with their signers, ascending. */
  method OrderSignatures(sigs: seq<bytes>, recover: Recover) returns (r: Option<seq<Item>>)
    ensures r.Some? <==> AllRecover(sigs, recover)
                         && forall i, j :: 0 <= i < j < |sigs| ==> recover(sigs[i]) != recover(sigs[j])
    ensures r.Some? ==> multiset(Sigs(r.value)) == multiset(sigs) && Recovered(r.value, recover)
    ensures r.Some? ==> AllRecover(Sigs(r.value), recover) && StrictlyAscending(Sigs(r.value), recover)
  {
    var items: seq<Item> := [];
    for i := 0 to |sigs|
      invariant |items| == i && Recovered(items, recover)
      invariant forall j :: 0 <= j < i ==> items[j].sig == sigs[j]
    {
      var signer := recover(sigs[i]);
      if signer.None? {
        return None;
      }
      items := items + [Item(sigs[i], signer.value)];
    }
    var seen: set<Address> := {};
    for i := 0 to |items|
      invariant forall a :: a in seen <==> exists j :: 0 <= j < i && items[j].addr == a
      invariant forall j, k :: 0 <= j < k < i ==> items[j].addr != items[k].addr
    {
      if items[i].addr in seen {
        var j :| 0 <= j < i && items[j].addr == items[i].addr;
        assert recover(sigs[j]) == recover(sigs[i]);
        return None;
      }
      seen := seen + {items[i].addr};
    }
    assert Sigs(items) == sigs;
    var ordered := SortItems(items);
    AscendingItems(items, ordered, recover);
    r := Some(ordered);
  }

  lemma AscendingItems(items: seq<Item>, ordered: seq<Item>, recover: Recover)
    requires multiset(ordered) == multiset(items) && Ordered(ordered, KeyOf) && Recovered(items, recover)
    requires forall j, k :: 0 <= j < k < |items| ==> items[j].addr != items[k].addr
    ensures Recovered(ordered, recover) && multiset(Sigs(ordered)) == multiset(Sigs(items))
    ensures AllRecover(Sigs(ordered), recover) && StrictlyAscending(Sigs(ordered), recover)
  {
    SameSigs(ordered, items);
    forall i | 0 <= i < |ordered|
      ensures recover(ordered[i].sig) == Some(ordered[i].addr)
    {
      assert ordered[i] in multiset(items);
    }
    forall i, j | 0 <= i < j < |ordered|
      ensures KeyOf(ordered[i]) < KeyOf(ordered[j])
    {
      DistinctInAnyOrder(items, ordered, (it: Item) => it.addr, i, j);
      if KeyOf(ordered[i]) == KeyOf(ordered[j]) {
        KeysTellApart(ordered[i].addr, ordered[j].addr);
      }
    }
    var t := Sigs(ordered);
    forall i, j | 0 <= i < j < |t|
      ensures Key(recover(t[i]).value) < Key(recover(t[j]).value)
    {
      assert KeyOf(ordered[i]) < KeyOf(ordered[j]);
    }
  }

  // ---- Committees a deployment admits -------------------------------------

  /** mainnet and base are production; sepolia and baseSepolia are real too. */
  datatype Network = Local | Testnet | Production

  /** ATTESTORS after splitting: not set, an address that does not parse, a list. */
  datatype Configured = Unset | Malformed | Listed(attestors: seq<Address>)

  datatype Resolution =
    | Resolved(attestors: seq<Address>, warned: bool)
    | BadThresholdNumber
    | NoFallback
    | BadAddress
    | EmptySet
    | Duplicates
    | ThresholdOutOfRange
    | ProductionNeedsTwo
    | SingleAttestor
    | WeakThreshold

  predicate NoDuplicates(attestors: seq<Address>) {
    forall i, j :: 0 <= i < j < |attestors| ==> attestors[i] != attestors[j]
  }

  /** The guards, in the order the script applies them. */
  function Guards(net: Network, attestors: seq<Address>, threshold: int, allowSingle: bool): Resolution {
    if |attestors| == 0 then EmptySet
    else if !NoDuplicates(attestors) then Duplicates
    else if threshold < 1 || threshold > |attestors| then ThresholdOutOfRange
    else if net.Production? && |attestors| < 2 then ProductionNeedsTwo
    else if !net.Local? && |attestors| == 1 && !allowSingle then SingleAttestor
    else if !net.Local? && 3 * threshold <= 2 * |attestors| then WeakThreshold
    else Resolved(attestors, !net.Local? && |attestors| == 1)
  }

  function ResolveAttestors(
      net: Network, configured: Configured, signers: seq<Address>, threshold: int, allowSingle: bool): Resolution
  {
    if threshold < 1 then BadThresholdNumber
    else
      match configured
      case Malformed => BadAddress
      case Listed(attestors) => Guards(net, attestors, threshold, allowSingle)
      case Unset =>
        if !net.Local? then NoFallback
        else
          var n := if threshold > 3 then threshold else 3;
          Guards(net, if n < |signers| then signers[..n] else signers, threshold, allowSingle)
  }

  /** On a real network a committee stands only when it was named, without repeats,
      with more than two thirds needed, and not alone outside a rehearsal. */
  lemma RealCommittees(net: Network, configured: Configured, signers: seq<Address>, threshold: int, allowSingle: bool)
    requires !net.Local?
    ensures ResolveAttestors(net, configured, signers, threshold, allowSingle).Resolved?
            <==> configured.Listed? && NoDuplicates(configured.attestors)
                 && 1 <= threshold <= |configured.attestors| && 2 * |configured.attestors| < 3 * threshold
                 && (|configured.attestors| > 1 || (net.Testnet? && allowSingle))
  {
  }

  function Signers(sigs: seq<bytes>, n: nat, recover: Recover): set<Address>
    requires n <= |sigs|
  {
    if n == 0 then {}
    else
      var rest := Signers(sigs, n - 1, recover);
      if recover(sigs[n - 1]).Some? then rest + {recover(sigs[n - 1]).value} else rest
  }

  lemma {:induction false} SignersAre(sigs: seq<bytes>, n: nat, recover: Recover)
    requires n <= |sigs|
    ensures forall a :: a in Signers(sigs, n, recover) <==> exists i :: 0 <= i < n && recover(sigs[i]) == Some(a)
  {
    if n > 0 { SignersAre(sigs, n - 1, recover); }
  }

  /** Good signatures have as many signers as there are of them, all registered. */
  lemma {:induction false} SignersCount(sigs: seq<bytes>, n: nat, attestors: set<Address>, recover: Recover)
    requires n <= |sigs| && GoodUpTo(sigs, n, attestors, recover)
    ensures |Signers(sigs, n, recover)| == n && Signers(sigs, n, recover) <= attestors
  {
    if n > 0 {
      var rest, last := Signers(sigs, n - 1, recover), recover(sigs[n - 1]);
      SignersCount(sigs, n - 1, attestors, recover);
      assert last.Some? && last.value in attestors && last.value !in rest by {
        SignersAre(sigs, n - 1, recover);
      }
      assert Signers(sigs, n, recover) == rest + {last.value};
    }
  }

  lemma Overlap<T>(a: set<T>, b: set<T>, c: set<T>, m: nat)
    requires a <= c && b <= c && |a| >= m && |b| >= m
    ensures |a * b| >= 2 * m - |c|
  {
    assert |a + b| == |a| + |b| - |a * b|;
    var out := c - (a + b);
    assert c == (a + b) + out && (a + b) * out == {};
    assert |c| == |a + b| + |out|;
  }

  /** Any two accepted signature sets, over any two locks, share more than a third of
      a committee that a real network admits: with at most a third of it dishonest,
      some honest attestor signed both. */
  lemma TwoAcceptedSetsShareAThird(
      net: Network, configured: Configured, signers: seq<Address>, threshold: nat, allowSingle: bool,
      s: seq<bytes>, t: seq<bytes>, recoverS: Recover, recoverT: Recover, committee: set<Address>)
    requires !net.Local? && ResolveAttestors(net, configured, signers, threshold, allowSingle).Resolved?
    requires committee == set a | a in configured.attestors
    requires Accepts(s, committee, threshold, recoverS) && Accepts(t, committee, threshold, recoverT)
    ensures |committee| == |configured.attestors|
    ensures 3 * |Signers(s, |s|, recoverS) * Signers(t, |t|, recoverT)| > |committee|
  {
    RealCommittees(net, configured, signers, threshold, allowSingle);
    DistinctCount(configured.attestors);
    SignersCount(s, |s|, committee, recoverS);
    SignersCount(t, |t|, committee, recoverT);
    Overlap(Signers(s, |s|, recoverS), Signers(t, |t|, recoverT), committee, threshold);
  }

  lemma {:induction false} DistinctCount(attestors: seq<Address>)
    requires NoDuplicates(attestors)
    ensures |set a | a in attestors| == |attestors|
  {
    if attestors != [] {
      var rest := attestors[1..];
      DistinctCount(rest);
      assert (set a | a in attestors) == {attestors[0]} + (set a | a in rest);
      assert attestors[0] !in rest;
    }
  }
}
