/** The id of a bridge lock: sha256 over the length-prefixed lock fields. */
module LockIds {
  import opened Bytes

  type Address = a: bytes | |a| == 20 witness seq(20, _ => 0)

  /** u64 nonce, u32 sender length, sender, 20 recipient bytes, u64 amount. */
  function LockPreimage(nonce: nat, sender: bytes, recipient: Address, amount: nat): bytes {
    U64(nonce) + U32(|sender|) + sender + recipient + U64(amount)
  }

  function DeriveLockId(nonce: nat, sender: bytes, recipient: Address, amount: nat): Digest {
    Sha256(LockPreimage(nonce, sender, recipient, amount))
  }

  /** Two locks share an id exactly when every field agrees. */
  lemma LockIdInjective(n: uint64, s: bytes, r: Address, a: uint64, n': uint64, s': bytes, r': Address, a': uint64)
    requires |s| < TWO_32 && |s'| < TWO_32
    ensures DeriveLockId(n, s, r, a) == DeriveLockId(n', s', r', a')
            <==> n == n' && s == s' && r == r' && a == a'
  {
    var p, p' := LockPreimage(n, s, r, a), LockPreimage(n', s', r', a');
    if p == p' {
      PowersOf256();
      assert U64(n) == p[..8] && U64(n') == p'[..8];
      BigEndianInjective(n, n', 8);
      assert U32(|s|) == p[8..12] && U32(|s'|) == p'[8..12];
      BigEndianInjective(|s|, |s'|, 4);
      var at := 12 + |s|;
      assert s == p[12..at] && s' == p'[12..at];
      assert r == p[at..at + 20] && r' == p'[at..at + 20];
      assert U64(a) == p[at + 20..] && U64(a') == p'[at + 20..];
      BigEndianInjective(a, a', 8);
    }
  }
}
