/** The sponge around the permutation (packages/protocol/src/keccak.ts), sections 4
    and 5.1 of FIPS 202 with the original padding, and the 64-bit instance. */
module Keccak256 {
  import opened Bytes
  import opened Keccak

  const RATE: nat := 136

  // ---- Padding ------------------------------------------------------------

  /** 0x01, zeros, 0x80; one 0x81 when a single byte is left in the block. */
  function Pad(input: bytes): (p: bytes)
    ensures |p| == (|input| / RATE + 1) * RATE
    ensures |input| < |p| && p[..|input|] == input
  {
    var r := |input| % RATE;
    if r == RATE - 1 then input + [0x81]
    else input + [0x01] + seq(RATE - 2 - r, _ => 0) + [0x80]
  }

  /** Two inputs have the same padding only when they are the same input. */
  lemma PadInjective(a: bytes, b: bytes)
    ensures Pad(a) == Pad(b) <==> a == b
  {
    if Pad(a) == Pad(b) {
      PadMarks(a);
      PadMarks(b);
      assert |a| == |b|;
      assert a == Pad(a)[..|a|] && b == Pad(b)[..|b|];
    }
  }

  /** The first padding byte is odd, and no later one is. */
  lemma PadMarks(a: bytes)
    ensures Pad(a)[|a|] % 2 == 1
    ensures forall i :: |a| < i < |Pad(a)| ==> Pad(a)[i] % 2 == 0
  {
  }

  /** Bit i of a byte string, low bit first, as in appendix B.1. */
  function Bit(b: bytes, i: nat): bool
    requires i < 8 * |b|
  {
    b[i / 8] / [1, 2, 4, 8, 16, 32, 64, 128][i % 8] % 2 == 1
  }

  /** The padding is pad10*1 of section 5.1 on bits: a one, the fewest zeros that
      fill the last block of 1088 bits, a one. */
  lemma PadIsPad101(input: bytes, i: nat)
    requires 8 * |input| <= i < 8 * |Pad(input)|
    ensures |Pad(input)| - |input| <= 136 && |Pad(input)| % 136 == 0
    ensures Bit(Pad(input), i) <==> i == 8 * |input| || i == 8 * |Pad(input)| - 1
  {
    var p, n := Pad(input), |input|;
    if n < i / 8 < |p| - 1 {
      assert p[i / 8] == 0;
    }
  }

  // ---- Absorbing and squeezing --------------------------------------------

  /** Little-endian: the first byte is the low one. */
  function Pack<L>(b: bytes, a: Arithmetic<L>): L {
    if b == [] then a.zero else a.push(Pack(b[1..], a), b[0])
  }

  function XorBlock<L>(s: seq<L>, block: bytes, n: nat, a: Arithmetic<L>): (r: seq<L>)
    requires |s| == 25 && |block| == RATE && n <= RATE / 8
    ensures |r| == 25
  {
    seq(25, i requires 0 <= i < 25 => if i < n then a.xor(s[i], Pack(block[8 * i..8 * i + 8], a)) else s[i])
  }

  /** The state after the first k blocks, each xored in and permuted. */
  function Absorbed<L>(p: bytes, k: nat, a: Arithmetic<L>): (s: seq<L>)
    requires RATE * k <= |p|
    ensures |s| == 25
    decreases k
  {
    if k == 0 then seq(25, _ => a.zero)
    else Permuted(XorBlock(Absorbed(p, k - 1, a), p[RATE * (k - 1)..RATE * k], RATE / 8, a), a)
  }

  lemma XoredLane<L>(s: seq<L>, block: bytes, i: nat, a: Arithmetic<L>)
    requires |s| == 25 && |block| == 136 && i < 25
    ensures XorBlock(s, block, 17, a)[i] == if i < 17 then a.xor(s[i], Pack(block[8 * i..8 * i + 8], a)) else s[i]
  {
  }

  /** A block is xored into the first seventeen lanes, eight bytes to a lane, and the state
      permuted. */
  lemma BlockIsAbsorbed<L>(p: bytes, k: nat, i: nat, a: Arithmetic<L>) returns (block: bytes, s: seq<L>)
    requires k > 0 && 136 * k <= |p| && i < 25
    ensures block == p[136 * (k - 1)..136 * k] && |s| == 25 && Absorbed(p, k, a) == Permuted(s, a)
    ensures s[i] == if i < 17 then a.xor(Absorbed(p, k - 1, a)[i], Pack(block[8 * i..8 * i + 8], a))
                    else Absorbed(p, k - 1, a)[i]
  {
    block := p[136 * (k - 1)..136 * k];
    s := XorBlock(Absorbed(p, k - 1, a), block, 17, a);
    XoredLane(Absorbed(p, k - 1, a), block, i, a);
  }

  function ShiftBy<L>(v: L, n: nat, a: Arithmetic<L>): L {
    if n == 0 then v else a.shift(ShiftBy(v, n - 1, a))
  }

  /** The first 32 bytes of the state. */
  function Squeezed<L>(s: seq<L>, a: Arithmetic<L>): (d: bytes)
    requires |s| == 25
    ensures |d| == 32
  {
    seq<byte>(32, i requires 0 <= i < 32 => a.low(ShiftBy(s[i / 8], i % 8, a)))
  }

  /** The sponge over the padded input. */
  function Sponge<L>(input: bytes, a: Arithmetic<L>): (d: bytes)
    ensures |d| == 32
  {
    Squeezed(Absorbed(Pad(input), |input| / RATE + 1, a), a)
  }

  lemma SpongeOf<L>(input: bytes, s: seq<L>, a: Arithmetic<L>)
    requires s == Absorbed(Pad(input), |input| / RATE + 1, a)
    ensures Sponge(input, a) == Squeezed(s, a)
  {
  }

  // ---- The program --------------------------------------------------------

  function Pow2(n: nat): nat { if n == 0 then 1 else 2 * Pow2(n - 1) }

  /** Bitwise or of the low n bits. */
  function OrBits(a: nat, b: nat, n: nat): (r: nat)
    ensures r < Pow2(n)
  {
    if n == 0 then 0
    else 2 * OrBits(a / 2, b / 2, n - 1) + (if a % 2 == 1 || b % 2 == 1 then 1 else 0)
  }

  function Or(a: byte, b: byte): byte {
    assert Pow2(8) == 256;
    OrBits(a, b, 8)
  }

  lemma {:induction false} OrZero(b: nat, n: nat)
    requires b < Pow2(n)
    ensures OrBits(0, b, n) == b
  {
    if n > 0 { OrZero(b / 2, n - 1); }
  }

  lemma PaddingBits()
    ensures Or(0, 0x01) == 0x01 && Or(0, 0x80) == 0x80 && Or(0x01, 0x80) == 0x81
  {
    assert Pow2(8) == 256 && Pow2(7) == 128;
    OrZero(0x01, 8);
    OrZero(0x80, 8);
    OrZero(0x40, 7);
  }

  /** The padded input, byte by byte. */
  lemma PadAt(input: bytes, k: nat)
    requires k < |Pad(input)|
    ensures Pad(input)[k] ==
            if k < |input| then input[k]
            else if k == |input| then (if k == |Pad(input)| - 1 then 0x81 else 0x01)
            else if k == |Pad(input)| - 1 then 0x80
            else 0
  {
  }

  /** Where block k lies in the input: wholly inside it, or over its end. */
  lemma BlockLies(n: nat, k: nat)
    requires k <= n / RATE
    ensures k < n / RATE ==> RATE * k + RATE <= n
    ensures k == n / RATE ==> RATE * k <= n < RATE * k + RATE
  {
  }

  /** What block k holds before its padding bits are set. */
  predicate Copied(chunk: bytes, input: bytes, at: nat) {
    |chunk| == RATE
    && forall i :: 0 <= i < RATE ==> chunk[i] == if at + i < |input| then input[at + i] else 0
  }

  lemma BlockIsPadded(input: bytes, chunk: bytes, k: nat, at: nat)
    requires k <= |input| / RATE && at == RATE * k && |chunk| == RATE
    requires forall i :: 0 <= i < RATE ==>
               chunk[i] == if at + i < |input| then input[at + i]
                           else if k < |input| / RATE then 0
                           else if at + i == |input| then (if i == RATE - 1 then 0x81 else 0x01)
                           else if i == RATE - 1 then 0x80 else 0
    ensures chunk == Pad(input)[at..at + RATE]
  {
    BlockLies(|input|, k);
    var p := Pad(input);
    forall i | 0 <= i < RATE ensures chunk[i] == p[at + i] {
      PadAt(input, at + i);
    }
  }

  method CopyBlock(input: bytes, at: nat) returns (chunk: array<byte>)
    requires at <= |input|
    ensures fresh(chunk) && Copied(chunk[..], input, at)
  {
    chunk := new byte[RATE](_ => 0);
    var end := if at + RATE < |input| then at + RATE else |input|;
    var part := input[at..end];
    forall i | 0 <= i < |part| {
      chunk[i] := part[i];
    }
  }

  /** One block of the input, the last one padded. */
  method BlockAt(input: bytes, block: nat) returns (chunk: array<byte>)
    requires block <= |input| / RATE
    ensures fresh(chunk) && chunk[..] == Pad(input)[RATE * block..RATE * (block + 1)]
  {
    var offset := block * RATE;
    BlockLies(|input|, block);
    chunk := CopyBlock(input, offset);
    ghost var copied := chunk[..];
    if block == |input| / RATE {
      var padAt := |input| - offset;
      PaddingBits();
      chunk[padAt] := Or(chunk[padAt], 0x01);
      chunk[RATE - 1] := Or(chunk[RATE - 1], 0x80);
    }
    BlockIsPadded(input, chunk[..], block, offset);
  }

  method LaneAt<L>(chunk: array<byte>, lane: nat, a: Arithmetic<L>) returns (value: L)
    requires chunk.Length == RATE && lane < RATE / 8
    ensures value == Pack(chunk[8 * lane..8 * lane + 8], a)
  {
    value := a.zero;
    var i := 7;
    ghost var b := chunk[8 * lane..8 * lane + 8];
    while i >= 0
      invariant -1 <= i <= 7
      invariant value == Pack(b[i + 1..], a)
    {
      value := a.push(value, chunk[lane * 8 + i]);
      assert b[i..][1..] == b[i + 1..];
      i := i - 1;
    }
  }

  method XorIn<L>(state: array<L>, chunk: array<byte>, a: Arithmetic<L>)
    requires state.Length == 25 && chunk.Length == RATE
    modifies state
    ensures state[..] == XorBlock(old(state[..]), old(chunk[..]), RATE / 8, a)
  {
    ghost var block := chunk[..];
    for lane := 0 to RATE / 8
      invariant chunk[..] == block
      invariant state[..] == XorBlock(old(state[..]), block, lane, a)
    {
      var value := LaneAt(chunk, lane, a);
      assert chunk[8 * lane..8 * lane + 8] == block[8 * lane..8 * lane + 8];
      state[lane] := a.xor(state[lane], value);
    }
  }

  method AbsorbBlock<L(0)>(state: array<L>, input: bytes, ghost p: bytes, block: nat, a: Arithmetic<L>)
    requires state.Length == 25 && block <= |input| / RATE && |a.constants| == ROUNDS
    requires p == Pad(input) && state[..] == Absorbed(p, block, a)
    modifies state
    ensures state[..] == Absorbed(p, block + 1, a)
  {
    var chunk := BlockAt(input, block);
    XorIn(state, chunk, a);
    KeccakF(state, a);
  }

  method Squeeze<L>(state: array<L>, ghost d: bytes, a: Arithmetic<L>) returns (out: array<byte>)
    requires state.Length == 25 && d == Squeezed(state[..], a)
    ensures fresh(out) && out[..] == d
  {
    out := new byte[32](_ => 0);
    for lane := 0 to 4
      invariant forall i :: 0 <= i < 8 * lane ==> out[i] == d[i]
    {
      var value := state[lane];
      for k := 0 to 8
        invariant value == ShiftBy(state[lane], k, a)
        invariant forall i :: 0 <= i < 8 * lane + k ==> out[i] == d[i]
      {
        out[lane * 8 + k] := a.low(value);
        assert (lane * 8 + k) / 8 == lane && (lane * 8 + k) % 8 == k;
        value := a.shift(value);
      }
    }
  }

  /** An all-zero state takes in the blocks one by one. */
  method Absorb<L(0)>(input: bytes, a: Arithmetic<L>) returns (state: array<L>)
    requires |a.constants| == ROUNDS
    ensures fresh(state) && state.Length == 25
    ensures state[..] == Absorbed(Pad(input), |input| / RATE + 1, a)
  {
    state := new L[25](_ => a.zero);
    var blocks := |input| / RATE + 1;
    ghost var p := Pad(input);
    for block := 0 to blocks
      invariant |p| == RATE * blocks
      invariant state[..] == Absorbed(p, block, a)
    {
      AbsorbBlock(state, input, p, block, a);
    }
  }

  /** The block loop is the sponge over the padded input. */
  method Hash<L(0)>(input: bytes, a: Arithmetic<L>) returns (out: array<byte>)
    requires |a.constants| == ROUNDS
    ensures fresh(out) && out[..] == Sponge(input, a)
  {
    var state := Absorb(input, a);
    out := Finish(input, state, a);
  }

  method Finish<L>(input: bytes, state: array<L>, a: Arithmetic<L>) returns (out: array<byte>)
    requires state.Length == 25 && state[..] == Absorbed(Pad(input), |input| / RATE + 1, a)
    ensures fresh(out) && out[..] == Sponge(input, a)
  {
    SpongeOf(input, state[..], a);
    out := Squeeze(state, Sponge(input, a), a);
  }
}
