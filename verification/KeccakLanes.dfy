/** The 64-bit lanes of Keccak-256 (packages/protocol/src/keccak.ts): their
    arithmetic, and the round constants against section 3.2.5 of FIPS 202. */
module KeccakLanes {
  import opened Bytes
  import opened Keccak
  import opened Keccak256

  type Lane = bv64

  const ROUND_CONSTANTS: seq<Lane> := [
    0x0000000000000001, 0x0000000000008082, 0x800000000000808a, 0x8000000080008000,
    0x000000000000808b, 0x0000000080000001, 0x8000000080008081, 0x8000000000008009,
    0x000000000000008a, 0x0000000000000088, 0x0000000080008009, 0x000000008000000a,
    0x000000008000808b, 0x800000000000008b, 0x8000000000008089, 0x8000000000008003,
    0x8000000000008002, 0x8000000000000080, 0x000000000000800a, 0x800000008000000a,
    0x8000000080008081, 0x8000000000008080, 0x0000000080000001, 0x8000000080008008]

  /** Left rotation by fewer than 64 bits: two shifts and an or. */
  function Rotl(v: Lane, n: nat): Lane {
    if n == 0 || n >= 64 then v else (v << n) | (v >> (64 - n))
  }

  function Push(v: Lane, b: byte): Lane { (v << 8) | ((b as bv8) as bv64) }
  function Low(v: Lane): byte { ((v & 0xff) as bv8) as int }

  const LANES: Arithmetic<Lane> := Arithmetic(
    0, (a, b) => a ^ b, (a, b) => !a & b, (v, n) => Rotl(v, n),
    (v, b) => Push(v, b), v => Low(v), v => v >> 8, ROUND_CONSTANTS)

  /** The two shifts are the rotation, for every offset in use. */
  lemma RotlRotates(v: Lane)
    ensures Rotl(v, 1) == v.RotateLeft(1) && Rotl(v, 62) == v.RotateLeft(62) && Rotl(v, 28) == v.RotateLeft(28)
    ensures Rotl(v, 27) == v.RotateLeft(27) && Rotl(v, 36) == v.RotateLeft(36) && Rotl(v, 44) == v.RotateLeft(44)
    ensures Rotl(v, 6) == v.RotateLeft(6) && Rotl(v, 55) == v.RotateLeft(55) && Rotl(v, 20) == v.RotateLeft(20)
    ensures Rotl(v, 3) == v.RotateLeft(3) && Rotl(v, 10) == v.RotateLeft(10) && Rotl(v, 43) == v.RotateLeft(43)
    ensures Rotl(v, 25) == v.RotateLeft(25) && Rotl(v, 39) == v.RotateLeft(39) && Rotl(v, 41) == v.RotateLeft(41)
    ensures Rotl(v, 45) == v.RotateLeft(45) && Rotl(v, 15) == v.RotateLeft(15) && Rotl(v, 21) == v.RotateLeft(21)
    ensures Rotl(v, 8) == v.RotateLeft(8) && Rotl(v, 18) == v.RotateLeft(18) && Rotl(v, 2) == v.RotateLeft(2)
    ensures Rotl(v, 61) == v.RotateLeft(61) && Rotl(v, 56) == v.RotateLeft(56) && Rotl(v, 14) == v.RotateLeft(14)
  {
  }

  lemma LowBits(v: Lane, x: bv8)
    ensures (((v << 8) | (x as bv64)) & 0xff) as bv8 == x
    ensures ((v << 8) | (x as bv64)) >> 8 == v & 0x00ff_ffff_ffff_ffff
  {
  }

  /** A byte pushed in is the low byte, and shifting it out again leaves the lane
      with its top byte gone. */
  lemma PushedByteComesBack(v: Lane, x: bv8)
    ensures Low(Push(v, x as int)) == x as int
    ensures Push(v, x as int) >> 8 == v & 0x00ff_ffff_ffff_ffff
  {
    assert (x as int) as bv8 == x;
    LowBits(v, x);
  }

  // ---- Bytes and lanes ----------------------------------------------------

  /** Byte k of a lane, the low one being byte 0. */
  function ByteAt(v: Lane, k: nat): byte
    requires k < 8
  {
    match k
    case 0 => ((v & 0xff) as bv8) as int
    case 1 => (((v >> 8) & 0xff) as bv8) as int
    case 2 => (((v >> 16) & 0xff) as bv8) as int
    case 3 => (((v >> 24) & 0xff) as bv8) as int
    case 4 => (((v >> 32) & 0xff) as bv8) as int
    case 5 => (((v >> 40) & 0xff) as bv8) as int
    case 6 => (((v >> 48) & 0xff) as bv8) as int
    case _ => (((v >> 56) & 0xff) as bv8) as int
  }

  lemma ShiftedBytes(v: Lane, k: nat)
    requires k < 7
    ensures ByteAt(v >> 8, k) == ByteAt(v, k + 1)
  {
  }

  lemma PushedBytes(v: Lane, x: bv8, k: nat)
    requires k < 7
    ensures ByteAt((v << 8) | (x as bv64), k + 1) == ByteAt(v, k)
    ensures ByteAt((v << 8) | (x as bv64), 0) == x as int
  {
  }

  lemma ByteSteps(v: Lane, b: byte)
    ensures LANES.low(v) == ByteAt(v, 0) && LANES.shift(v) == v >> 8
    ensures LANES.push(v, b) == (v << 8) | ((b as bv8) as bv64)
  {
  }

  lemma ShiftStep(v: Lane, k: nat)
    requires k < 7
    ensures ByteAt(LANES.shift(v), k) == ByteAt(v, k + 1)
  {
    ByteSteps(v, 0);
    ShiftedBytes(v, k);
  }

  lemma LowIsByte(v: Lane)
    ensures Low(v) == ByteAt(v, 0)
  {
  }

  lemma PushLow(v: Lane, x: bv8)
    ensures ByteAt(LANES.push(v, x as int), 0) == x as int
  {
    PushedByteComesBack(v, x);
    LowIsByte(LANES.push(v, x as int));
  }

  lemma SameByte(x: bv8)
    ensures (x as int) as bv8 == x
  {
  }

  lemma PushHigh(v: Lane, x: bv8, k: nat)
    requires k < 7
    ensures ByteAt(LANES.push(v, x as int), k + 1) == ByteAt(v, k)
  {
    SameByte(x);
    ByteSteps(v, x as int);
    PushedBytes(v, x, k);
  }

  function Octets(xs: seq<bv8>): (b: bytes)
    ensures |b| == |xs|
  {
    seq(|xs|, i requires 0 <= i < |xs| => xs[i] as int)
  }

  lemma {:induction false} ShiftedDown(v: Lane, k: nat, j: nat)
    requires j + k < 8
    ensures ByteAt(ShiftBy(v, k, LANES), j) == ByteAt(v, j + k)
    decreases k
  {
    if k > 0 {
      ShiftStep(ShiftBy(v, k - 1, LANES), j);
      ShiftedDown(v, k - 1, j + 1);
    }
  }

  /** Up to eight bytes packed into a lane are its bytes, the first one lowest. */
  lemma {:induction false} PackedBytes(xs: seq<bv8>, k: nat)
    requires k < |xs| <= 8
    ensures ByteAt(Pack(Octets(xs), LANES), k) == xs[k] as int
    decreases |xs|
  {
    var rest := Pack(Octets(xs[1..]), LANES);
    assert Octets(xs)[1..] == Octets(xs[1..]);
    if k == 0 {
      PushLow(rest, xs[0]);
    } else {
      PushHigh(rest, xs[0], k - 1);
      PackedBytes(xs[1..], k - 1);
    }
  }

  /** The digest is the first four lanes, byte by byte, low ones first. */
  lemma DigestBytes(s: seq<Lane>, i: nat, k: nat)
    requires |s| == 25 && i < 4 && k < 8
    ensures Squeezed(s, LANES)[8 * i + k] == ByteAt(s[i], k)
  {
    SplitByEight(i, k);
    LowByte(s[i], k);
  }

  lemma SplitByEight(i: nat, k: nat)
    requires k < 8
    ensures (8 * i + k) / 8 == i && (8 * i + k) % 8 == k
  {
  }

  lemma LowByte(v: Lane, k: nat)
    requires k < 8
    ensures LANES.low(ShiftBy(v, k, LANES)) == ByteAt(v, k)
  {
    ShiftedDown(v, k, 0);
    ByteSteps(ShiftBy(v, k, LANES), 0);
  }

  // ---- The round constants ------------------------------------------------

  /** One step of the 8-bit feedback register of rc(t); bit k is R[k]. */
  function Next(r: bv8): bv8 { (r << 1) ^ (if r & 0x80 == 0x80 then 0x71 else 0) }

  function NextSeven(r: bv8): bv8 { Next(Next(Next(Next(Next(Next(Next(r))))))) }

  /** The register before round i, seven steps a round. */
  function Register(i: nat): bv8 { if i == 0 then 1 else NextSeven(Register(i - 1)) }

  /** Bit 2^j - 1 of the constant is bit 0 of the register after j more steps. */
  function Constant(r: bv8): bv64 {
    var r1 := Next(r);
    var r2 := Next(r1);
    var r3 := Next(r2);
    var r4 := Next(r3);
    var r5 := Next(r4);
    var r6 := Next(r5);
    (r & 1) as bv64 | ((r1 & 1) as bv64 << 1) | ((r2 & 1) as bv64 << 3) | ((r3 & 1) as bv64 << 7)
    | ((r4 & 1) as bv64 << 15) | ((r5 & 1) as bv64 << 31) | ((r6 & 1) as bv64 << 63)
  }

  function RegisterAt(i: nat): bv8 {
    match i
    case 0 => 0x01
    case 1 => 0x80
    case 2 => 0xd8
    case 3 => 0x1a
    case 4 => 0xdf
    case 5 => 0x09
    case 6 => 0x35
    case 7 => 0x4f
    case 8 => 0xca
    case 9 => 0x70
    case 10 => 0x41
    case 11 => 0xec
    case 12 => 0xd5
    case 13 => 0xcd
    case 14 => 0x63
    case 15 => 0xab
    case 16 => 0xaa
    case 17 => 0x2a
    case 18 => 0xf2
    case 19 => 0xe8
    case 20 => 0x37
    case 21 => 0x3e
    case 22 => 0x0b
    case _ => 0x44
  }

  lemma RegisterStep(i: nat)
    requires i < 23
    ensures RegisterAt(i + 1) == NextSeven(RegisterAt(i))
  {
    if i < 8 { EarlySteps(i); } else if i < 16 { MiddleSteps(i); } else { LateSteps(i); }
  }

  lemma EarlySteps(i: nat)
    requires i < 8
    ensures RegisterAt(i + 1) == NextSeven(RegisterAt(i))
  {
  }

  lemma MiddleSteps(i: nat)
    requires 8 <= i < 16
    ensures RegisterAt(i + 1) == NextSeven(RegisterAt(i))
  {
  }

  lemma LateSteps(i: nat)
    requires 16 <= i < 23
    ensures RegisterAt(i + 1) == NextSeven(RegisterAt(i))
  {
  }

  lemma {:induction false} RegisterIs(i: nat, at: nat -> bv8)
    requires i < 24 && at(0) == 1
    requires forall k: nat :: k < 23 ==> at(k + 1) == NextSeven(at(k))
    ensures Register(i) == at(i)
  {
    if i > 0 {
      RegisterIs(i - 1, at);
      assert at(i - 1 + 1) == at(i);
    }
  }

  lemma ConstantAt(i: nat)
    requires i < 24
    ensures ROUND_CONSTANTS[i] == Constant(RegisterAt(i))
  {
    if i < 12 { EarlyConstants(i); } else { LateConstants(i); }
  }

  lemma EarlyConstants(i: nat)
    requires i < 12
    ensures ROUND_CONSTANTS[i] == Constant(RegisterAt(i))
  {
  }

  lemma LateConstants(i: nat)
    requires 12 <= i < 24
    ensures ROUND_CONSTANTS[i] == Constant(RegisterAt(i))
  {
  }

  /** The table holds what section 3.2.5 computes, round by round. */
  lemma RoundConstantsAreTheRegister(i: nat)
    requires i < 24
    ensures ROUND_CONSTANTS[i] == Constant(Register(i))
  {
    forall k: nat | k < 23
      ensures RegisterAt(k + 1) == NextSeven(RegisterAt(k))
    {
      RegisterStep(k);
    }
    RegisterIs(i, (k: nat) => RegisterAt(k));
    ConstantAt(i);
  }

  // ---- The hash -----------------------------------------------------------

  /** keccak256 over raw bytes. */
  method HashBytes(input: bytes) returns (out: array<byte>)
    ensures fresh(out) && out[..] == Sponge(input, LANES)
  {
    out := Hash(input, LANES);
  }
}
