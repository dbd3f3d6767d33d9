/** Lock attestations (internal/bridge/attestation.go), the order the contract wants
    its signatures in (contracts/scripts/bridge-mint.ts, WrappedMatrix.sol), and the
    committee guards (contracts/scripts/deploy-bridge.ts). */
module Attestation {
  import opened Bytes
  import opened LockIds
  import opened Options

  /** RecoverAddress over one digest: the signer of a signature, if it has one. */
  type Recover = bytes -> Option<Address>

  datatype Verdict =
    | Accepted
    | NilAmount
    | BadThreshold
    | Unrecoverable(at: nat)
    | Foreign(at: nat)
    | Duplicate(at: nat)
    | TooFew

  // ---- What is signed -----------------------------------------------------

  const UINT256: nat := 32

  type Bytes32 = b: bytes | |b| == 32 witness seq(32, _ => 0)

  function Abs(v: int): nat { if v < 0 then 0 - v else v }

  /** bigTo32: big.Int.Bytes drops the sign, and a magnitude beyond 32 bytes panics. */
  function Word(v: int): Option<bytes> {
    if Abs(v) >= Pow256(UINT256) then None else Some(BigEndian(Abs(v), UINT256))
  }

  /** recipient, amount, lock id, chain id and bridge, packed at fixed widths; None for
      the panic. */
  function AttestationPreimage(recipient: Address, amount: int, lockId: Bytes32, chainId: int, bridge: Address)
    : (p: Option<bytes>)
    ensures p.Some? ==> |p.value| == 136
  {
    var (a, c) := (Word(amount), Word(chainId));
    if a.None? || c.None? then None else Some(recipient + a.value + lockId + c.value + bridge)
  }

  /** AttestationDigest. */
  function AttestationDigest(
      recipient: Address, amount: int, lockId: Bytes32, chainId: int, bridge: Address, keccak: bytes -> bytes)
    : Option<bytes>
  {
    match AttestationPreimage(recipient, amount, lockId, chainId, bridge)
    case None => None
    case Some(p) => Some(keccak(p))
  }

  /** abi.encodePacked of the mint's recipient, amount and lock id, the chain id and the
      contract's own address, as WrappedMatrix puts them together. */
  predicate PackedForMint(
      p: bytes, recipient: Address, amount: nat, lockId: Bytes32, chainId: nat, contractAddress: Address)
  {
    && |p| == 136 && p[..20] == recipient && FromBigEndian(p[20..52]) == amount
    && p[52..84] == lockId && FromBigEndian(p[84..116]) == chainId && p[116..] == contractAddress
  }

  /** The two sides agree byte for byte: what is signed for a lock of uint256 figures is the
      one string the contract packs for its mint. */
  lemma SignedIsWhatTheContractPacks(
      recipient: Address, amount: nat, lockId: Bytes32, chainId: nat, bridge: Address, p: bytes, n: nat)
    requires n == UINT256 && amount < Pow256(n) && chainId < Pow256(n)
    ensures AttestationPreimage(recipient, amount, lockId, chainId, bridge) == Some(p)
            <==> PackedForMint(p, recipient, amount, lockId, chainId, bridge)
  {
    PreimageIs(recipient, amount, lockId, chainId, bridge, n);
    WordsArePacked(recipient, amount, lockId, chainId, bridge, p, BigEndian(amount, n), BigEndian(chainId, n), n);
  }

  lemma PreimageIs(recipient: Address, amount: nat, lockId: Bytes32, chainId: nat, bridge: Address, n: nat)
    requires n == UINT256 && amount < Pow256(n) && chainId < Pow256(n)
    ensures AttestationPreimage(recipient, amount, lockId, chainId, bridge)
            == Some(recipient + BigEndian(amount, n) + lockId + BigEndian(chainId, n) + bridge)
  {
  }

  lemma WordsArePacked(
      recipient: Address, amount: nat, lockId: Bytes32, chainId: nat, bridge: Address, p: bytes, a: bytes, c: bytes,
      n: nat)
    requires n == 32 && amount < Pow256(n) && chainId < Pow256(n)
    requires a == BigEndian(amount, n) && c == BigEndian(chainId, n)
    ensures p == recipient + a + lockId + c + bridge <==> PackedForMint(p, recipient, amount, lockId, chainId, bridge)
  {
    PackedParts(recipient, a, lockId, c, bridge, p);
    if |p| == 136 {
      WordReadsBack(p[20..52], amount, n);
      WordReadsBack(p[84..116], chainId, n);
    }
  }

  lemma PackedParts(r: bytes, a: bytes, l: bytes, c: bytes, b: bytes, p: bytes)
    requires |r| == |b| == 20 && |a| == |l| == |c| == 32
    ensures p == r + a + l + c + b
            <==> |p| == 136 && p[..20] == r && p[20..52] == a && p[52..84] == l && p[84..116] == c && p[116..] == b
  {
    var q := r + a + l + c + b;
    assert q[..20] == r && q[20..52] == a && q[52..84] == l && q[84..116] == c && q[116..] == b;
    if |p| == 136 { assert p == p[..20] + p[20..52] + p[52..84] + p[84..116] + p[116..]; }
  }

  /** A word of n bytes is the value's exactly when it reads as the value. */
  lemma WordReadsBack(w: bytes, v: nat, n: nat)
    requires |w| == n && v < Pow256(n)
    ensures w == BigEndian(v, n) <==> FromBigEndian(w) == v
  {
    BigEndianRoundTrip(v, n);
    FromBigEndianRoundTrip(w);
  }

  lemma SameFirst(a: bytes, x: bytes, b: bytes, y: bytes)
    requires |a| == |b| && a + x == b + y
    ensures a == b && x == y
  {
    assert a == (a + x)[..|a|] && b == (b + y)[..|b|];
    assert x == (a + x)[|a|..] && y == (b + y)[|b|..];
  }

  lemma SameParts(
      a: bytes, b: bytes, c: bytes, d: bytes, e: bytes, a': bytes, b': bytes, c': bytes, d': bytes, e': bytes)
    requires |a| == |a'| && |b| == |b'| && |c| == |c'| && |d| == |d'|
    requires a + b + c + d + e == a' + b' + c' + d' + e'
    ensures a == a' && b == b' && c == c' && d == d' && e == e'
  {
    SameFirst(a + b + c + d, e, a' + b' + c' + d', e');
    SameFirst(a + b + c, d, a' + b' + c', d');
    SameFirst(a + b, c, a' + b', c');
    SameFirst(a, b, a', b');
  }

  lemma WordsTellApart(v: int, w: int, n: nat)
    requires n == UINT256 && Word(v).Some? && Word(w).Some?
    ensures Word(v) == Word(w) <==> Abs(v) == Abs(w)
  {
    if BigEndian(Abs(v), n) == BigEndian(Abs(w), n) { BigEndianInjective(Abs(v), Abs(w), n); }
  }

  /** No two of the messages hash to one digest. */
  ghost predicate TellsApart(keccak: bytes -> bytes) {
    forall p, q {:trigger keccak(p), keccak(q)} :: |p| == |q| == 136 && keccak(p) == keccak(q) ==> p == q
  }

  /** One digest is one mint: one recipient, amount and lock, on one chain and one
      contract. The sign of amount and chain id is the one thing it does not say. */
  lemma AttestationIsUnambiguous(
      r: Address, a: int, l: Bytes32, c: int, b: Address, r': Address, a': int, l': Bytes32, c': int, b': Address,
      keccak: bytes -> bytes)
    requires TellsApart(keccak)
    requires AttestationDigest(r, a, l, c, b, keccak).Some? && AttestationDigest(r', a', l', c', b', keccak).Some?
    ensures AttestationDigest(r, a, l, c, b, keccak) == AttestationDigest(r', a', l', c', b', keccak)
            <==> r == r' && Abs(a) == Abs(a') && l == l' && Abs(c) == Abs(c') && b == b'
  {
    WordsTellApart(a, a', UINT256);
    WordsTellApart(c, c', UINT256);
    var (w, w') := (Word(a).value, Word(a').value);
    var (v, v') := (Word(c).value, Word(c').value);
    if r + w + l + v + b == r' + w' + l' + v' + b' {
      SameParts(r, w, l, v, b, r', w', l', v', b');
    }
  }

  /** The signatures of the given attestors over the lock's digest, in their order;
      refused without an amount or an attestor, or when one is missing or cannot sign. */
  method SignAttestation<K>(
      recipient: Address, amount: Option<int>, lockId: Bytes32, chainId: int, bridge: Address, keccak: bytes -> bytes,
      signers: seq<Option<K>>, sign: (K, bytes) -> Option<bytes>)
    returns (r: Option<seq<bytes>>)
    ensures r.Some? <==>
              && amount.Some? && signers != []
              && var digest := AttestationDigest(recipient, amount.value, lockId, chainId, bridge, keccak);
                 && digest.Some?
                 && forall i :: 0 <= i < |signers| ==> signers[i].Some? && sign(signers[i].value, digest.value).Some?
    ensures r.Some? ==>
              var digest := AttestationDigest(recipient, amount.value, lockId, chainId, bridge, keccak).value;
              && |r.value| == |signers|
              && forall i :: 0 <= i < |signers| ==> sign(signers[i].value, digest) == Some(r.value[i])
  {
    if amount.None? || signers == [] {
      return None;
    }
    var hashed := AttestationDigest(recipient, amount.value, lockId, chainId, bridge, keccak);
    if hashed.None? {
      return None;
    }
    var digest := hashed.value;
    var sigs: seq<bytes> := [];
    for i := 0 to |signers|
      invariant |sigs| == i
      invariant forall j :: 0 <= j < i ==> signers[j].Some? && sign(signers[j].value, digest) == Some(sigs[j])
    {
      if signers[i].None? {
        return None;
      }
      var sig := sign(signers[i].value, digest);
      if sig.None? {
        return None;
      }
      sigs := sigs + [sig.value];
    }
    r := Some(sigs);
  }

  /** What distinct registered attestors sign, Verify accepts. */
  lemma SignedIsAccepted<K>(
      keys: seq<K>, sigs: seq<bytes>, sign: K -> Option<bytes>, address: K -> Address,
      attestors: set<Address>, threshold: int, recover: Recover)
    requires |sigs| == |keys| && 0 < threshold <= |keys|
    requires forall i :: 0 <= i < |keys| ==>
               sign(keys[i]) == Some(sigs[i]) && recover(sigs[i]) == Some(address(keys[i]))
    requires forall i :: 0 <= i < |keys| ==> address(keys[i]) in attestors
    requires forall i, j :: 0 <= i < j < |keys| ==> address(keys[i]) != address(keys[j])
    ensures Accepts(sigs, attestors, threshold, recover)
  {
    forall i, j | 0 <= i < j < |sigs|
      ensures recover(sigs[i]) != recover(sigs[j])
    {
      assert address(keys[i]) != address(keys[j]);
    }
  }

  // ---- Verify -------------------------------------------------------------

  /** The first n signatures recover to distinct registered attestors. */
  predicate GoodUpTo(sigs: seq<bytes>, n: nat, attestors: set<Address>, recover: Recover)
    requires n <= |sigs|
  {
    && (forall i :: 0 <= i < n ==> recover(sigs[i]).Some? && recover(sigs[i]).value in attestors)
    && (forall i, j :: 0 <= i < j < n ==> recover(sigs[i]) != recover(sigs[j]))
  }

  predicate Accepts(sigs: seq<bytes>, attestors: set<Address>, threshold: int, recover: Recover) {
    0 < threshold <= |sigs| && GoodUpTo(sigs, |sigs|, attestors, recover)
  }

  /** The verdict names the first signature at fault, and what its fault is. */
  method Verify(amount: Option<nat>, sigs: seq<bytes>, attestors: set<Address>, threshold: int, recover: Recover)
    returns (v: Verdict)
    ensures v.Accepted? <==> amount.Some? && Accepts(sigs, attestors, threshold, recover)
    ensures v.NilAmount? <==> amount.None?
    ensures v.BadThreshold? <==> amount.Some? && threshold <= 0
    ensures v.Unrecoverable? ==> v.at < |sigs| && GoodUpTo(sigs, v.at, attestors, recover) && recover(sigs[v.at]).None?
    ensures v.Foreign? ==> v.at < |sigs| && GoodUpTo(sigs, v.at, attestors, recover)
                           && recover(sigs[v.at]).Some? && recover(sigs[v.at]).value !in attestors
    ensures v.Duplicate? ==> v.at < |sigs| && GoodUpTo(sigs, v.at, attestors, recover)
                             && recover(sigs[v.at]).Some? && recover(sigs[v.at]).value in attestors
                             && exists j :: 0 <= j < v.at && recover(sigs[j]) == recover(sigs[v.at])
    ensures v.TooFew? <==>
              amount.Some? && 0 < threshold && |sigs| < threshold && GoodUpTo(sigs, |sigs|, attestors, recover)
  {
    if amount.None? {
      return NilAmount;
    }
    if threshold <= 0 {
      return BadThreshold;
    }
    var seen: set<Address> := {};
    var valid := 0;
    for i := 0 to |sigs|
      invariant valid == i && GoodUpTo(sigs, i, attestors, recover)
      invariant forall a :: a in seen <==> exists j :: 0 <= j < i && recover(sigs[j]) == Some(a)
    {
      var addr := recover(sigs[i]);
      if addr.None? {
        return Unrecoverable(i);
      }
      if addr.value !in attestors {
        return Foreign(i);
      }
      if addr.value in seen {
        return Duplicate(i);
      }
      seen := seen + {addr.value};
      valid := valid + 1;
    }
    if valid < threshold {
      return TooFew;
    }
    v := Accepted;
  }

  // ---- Address order ------------------------------------------------------

  /** bytes.Compare < 0. */
  predicate LexLess(a: bytes, b: bytes) {
    if b == [] then false
    else if a == [] then true
    else a[0] < b[0] || (a[0] == b[0] && LexLess(a[1..], b[1..]))
  }

  lemma ShiftIn(x: nat, p: nat, rest: nat, last: nat)
    ensures (x * p + rest) * 256 + last == x * (256 * p) + (rest * 256 + last)
  {
  }

  lemma InnerSlice(b: bytes, n: nat)
    requires 0 < n == |b| - 1
    ensures b[..n][1..] == b[1..][..n - 1] && b[..n][0] == b[0] && b[1..][n - 1] == b[n]
  {
  }

  lemma {:induction false} FromFront(b: bytes)
    requires b != []
    ensures FromBigEndian(b) == b[0] * Pow256(|b| - 1) + FromBigEndian(b[1..])
  {
    var n := |b| - 1;
    if n > 0 {
      FromFront(b[..n]);
      InnerSlice(b, n);
      ShiftIn(b[0], Pow256(n - 1), FromBigEndian(b[1..][..n - 1]), b[n]);
    }
  }

  /** On byte strings of one length, byte order is the order of the integers they
      spell: the script, which compares integers, and the node, which compares
      bytes, agree. */
  lemma {:induction false} ByteOrderIsIntegerOrder(a: bytes, b: bytes)
    requires |a| == |b|
    ensures LexLess(a, b) <==> FromBigEndian(a) < FromBigEndian(b)
  {
    if a != [] {
      FromFront(a);
      FromFront(b);
      ByteOrderIsIntegerOrder(a[1..], b[1..]);
      FromBigEndianBound(a[1..]);
      FromBigEndianBound(b[1..]);
      var p := Pow256(|a| - 1);
      if a[0] < b[0] {
        LeadingByte(a[0], b[0], p);
      } else if b[0] < a[0] {
        LeadingByte(b[0], a[0], p);
      }
    }
  }

  lemma LeadingByte(x: nat, y: nat, p: nat)
    requires x < y
    ensures x * p + p <= y * p
  {
    Product(x + 1, y, p);
    assert (x + 1) * p == x * p + p;
  }

  function Key(a: Address): nat { FromBigEndian(a) }

  lemma KeysTellApart(a: Address, b: Address)
    requires Key(a) == Key(b)
    ensures a == b
  {
    FromBigEndianRoundTrip(a);
    FromBigEndianRoundTrip(b);
  }

  // ---- Sorting for the chain ----------------------------------------------

  datatype Item = Item(sig: bytes, addr: Address)

  predicate Ordered<T>(items: seq<T>, key: T -> nat) {
    forall i, j :: 0 <= i < j < |items| ==> key(items[i]) <= key(items[j])
  }

  function With<T>(items: seq<T>, k: nat, it: T): seq<T>
    requires k <= |items|
  {
    items[..k] + [it] + items[k..]
  }

  lemma WithAt<T>(items: seq<T>, k: nat, it: T, i: nat)
    requires k <= |items| && i <= |items|
    ensures With(items, k, it)[i] == if i < k then items[i] else if i == k then it else items[i - 1]
  {
  }

  lemma WithAdds<T>(items: seq<T>, k: nat, it: T)
    requires k <= |items|
    ensures multiset(With(items, k, it)) == multiset(items) + multiset{it}
  {
    assert items == items[..k] + items[k..];
  }

  lemma OrderedWith<T>(items: seq<T>, k: nat, it: T, key: T -> nat)
    requires Ordered(items, key) && k <= |items|
    requires k > 0 ==> key(items[k - 1]) <= key(it)
    requires k < |items| ==> key(it) <= key(items[k])
    ensures Ordered(With(items, k, it), key)
  {
    var r := With(items, k, it);
    forall i, j | 0 <= i < j < |r|
      ensures key(r[i]) <= key(r[j])
    {
      WithAt(items, k, it, i);
      WithAt(items, k, it, j);
    }
  }

  function KeyOf(it: Item): nat { Key(it.addr) }

  method Insert(items: seq<Item>, it: Item) returns (r: seq<Item>)
    requires Ordered(items, KeyOf)
    ensures Ordered(r, KeyOf) && multiset(r) == multiset(items) + multiset{it}
  {
    var k := |items|;
    while k > 0 && LexLess(it.addr, items[k - 1].addr)
      invariant 0 <= k <= |items|
      invariant k < |items| ==> KeyOf(it) <= KeyOf(items[k])
    {
      ByteOrderIsIntegerOrder(it.addr, items[k - 1].addr);
      k := k - 1;
    }
    if k > 0 {
      ByteOrderIsIntegerOrder(it.addr, items[k - 1].addr);
    }
    OrderedWith(items, k, it, KeyOf);
    WithAdds(items, k, it);
    r := With(items, k, it);
  }

  /** A sort by signer: which of equal signers comes first is not promised. */
  method SortItems(items: seq<Item>) returns (sorted: seq<Item>)
    ensures multiset(sorted) == multiset(items) && Ordered(sorted, KeyOf)
  {
    sorted := [];
    for i := 0 to |items|
      invariant Ordered(sorted, KeyOf) && multiset(sorted) == multiset(items[..i])
    {
      assert items[..i + 1] == items[..i] + [items[i]];
      sorted := Insert(sorted, items[i]);
    }
    assert items[..|items|] == items;
  }

  function Sigs(items: seq<Item>): seq<bytes> { seq(|items|, i requires 0 <= i < |items| => items[i].sig) }

  predicate Recovered(items: seq<Item>, recover: Recover) {
    forall i :: 0 <= i < |items| ==> recover(items[i].sig) == Some(items[i].addr)
  }

  predicate AllRecover(sigs: seq<bytes>, recover: Recover) {
    forall i :: 0 <= i < |sigs| ==> recover(sigs[i]).Some?
  }

  /** Signers from first to last, each at least the one before. */
  predicate InOrder(sigs: seq<bytes>, recover: Recover)
    requires AllRecover(sigs, recover)
  {
    forall i, j :: 0 <= i < j < |sigs| ==> Key(recover(sigs[i]).value) <= Key(recover(sigs[j]).value)
  }

  predicate StrictlyAscending(sigs: seq<bytes>, recover: Recover)
    requires AllRecover(sigs, recover)
  {
    forall i, j :: 0 <= i < j < |sigs| ==> Key(recover(sigs[i]).value) < Key(recover(sigs[j]).value)
  }

  /** The signatures reordered by signer, none lost or gained; refused when one does
      not recover. */
  method SortSignaturesForChain(sigs: seq<bytes>, recover: Recover) returns (r: Option<seq<bytes>>)
    ensures r.Some? <==> AllRecover(sigs, recover)
    ensures r.Some? ==> multiset(r.value) == multiset(sigs) && AllRecover(r.value, recover) && InOrder(r.value, recover)
  {
    var items: seq<Item> := [];
    for i := 0 to |sigs|
      invariant |items| == i && Recovered(items, recover)
      invariant forall j :: 0 <= j < i ==> items[j].sig == sigs[j]
    {
      var addr := recover(sigs[i]);
      if addr.None? {
        return None;
      }
      items := items + [Item(sigs[i], addr.value)];
    }
    var ordered := SortItems(items);
    forall i | 0 <= i < |ordered|
      ensures recover(ordered[i].sig) == Some(ordered[i].addr)
    {
      assert ordered[i] in multiset(ordered);
      assert ordered[i] in items;
    }
    SameSigs(items, ordered);
    assert Sigs(items) == sigs;
    r := Some(Sigs(ordered));
  }

  lemma SigsSplit(items: seq<Item>, k: nat)
    requires k < |items|
    ensures Sigs(items) == Sigs(items[..k]) + [items[k].sig] + Sigs(items[k + 1..])
    ensures Sigs(items[..k] + items[k + 1..]) == Sigs(items[..k]) + Sigs(items[k + 1..])
    ensures multiset(items) == multiset(items[..k] + items[k + 1..]) + multiset{items[k]}
  {
    assert items == items[..k] + [items[k]] + items[k + 1..];
  }

  lemma Uncons(items: seq<Item>)
    requires items != []
    ensures Sigs(items) == [items[0].sig] + Sigs(items[1..])
    ensures multiset(items) == multiset(items[1..]) + multiset{items[0]}
  {
    assert items == [items[0]] + items[1..];
  }

  lemma Cancel<T>(a: multiset<T>, b: multiset<T>, x: T)
    requires a + multiset{x} == b + multiset{x}
    ensures a == b
  {
    assert a == (a + multiset{x}) - multiset{x};
    assert b == (b + multiset{x}) - multiset{x};
  }

  lemma {:induction false} SameSigs(a: seq<Item>, b: seq<Item>)
    requires multiset(a) == multiset(b)
    ensures multiset(Sigs(a)) == multiset(Sigs(b))
  {
    if a == [] {
      assert |multiset(b)| == |b|;
      assert Sigs(a) == Sigs(b);
    } else {
      assert a[0] in multiset(b);
      var k :| 0 <= k < |b| && b[k] == a[0];
      var rest := b[..k] + b[k + 1..];
      SigsSplit(b, k);
      Uncons(a);
      Cancel(multiset(a[1..]), multiset(rest), a[0]);
      SameSigs(a[1..], rest);
      assert multiset(Sigs(rest)) + multiset{a[0].sig} == multiset(Sigs(b));
    }
  }
}
