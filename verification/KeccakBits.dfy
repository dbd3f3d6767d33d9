/** The permutation bit by bit, against section 3.2 of FIPS 202.

    The standard's state is a function of x, y and z. Lanes are related to it through
    what reads a bit of a lane, so that the only facts about words that are needed are
    those of `Bitwise`; the 64-bit lanes of the program have them. */
module KeccakBits {
  import opened Bytes
  import opened Keccak
  import opened KeccakLanes
  import opened LaneBits

  type Bits = (nat, nat, Index) -> bool

  // ---- The step mappings of the standard ----------------------------------

  function Parity(a: Bits, x: nat, z: Index): bool {
    Xor(Xor(Xor(Xor(a(x, 0, z), a(x, 1, z)), a(x, 2, z)), a(x, 3, z)), a(x, 4, z))
  }

  /** Section 3.2.1. */
  function StandardTheta(a: Bits, x: nat, y: nat, z: Index): bool {
    Xor(a(x, y, z), Xor(Parity(a, (x + 4) % 5, z), Parity(a, (x + 1) % 5, z - 1)))
  }

  /** Table 2 of section 3.2.2, modulo 64. */
  function Offset(x: nat, y: nat): Index {
    match x
    case 0 => if y == 0 then 0 else if y == 1 then 36 else if y == 2 then 3 else if y == 3 then 41 else 18
    case 1 => if y == 0 then 1 else if y == 1 then 44 else if y == 2 then 10 else if y == 3 then 45 else 2
    case 2 => if y == 0 then 62 else if y == 1 then 6 else if y == 2 then 43 else if y == 3 then 15 else 61
    case 3 => if y == 0 then 28 else if y == 1 then 55 else if y == 2 then 25 else if y == 3 then 21 else 56
    case _ => if y == 0 then 27 else if y == 1 then 20 else if y == 2 then 39 else if y == 3 then 8 else 14
  }

  /** Section 3.2.2. */
  function StandardRho(a: Bits, x: nat, y: nat, z: Index): bool { a(x, y, z - Offset(x, y)) }

  /** Section 3.2.3. */
  function StandardPi(a: Bits, x: nat, y: nat, z: Index): bool { a((x + 3 * y) % 5, x, z) }

  /** Section 3.2.4. */
  function StandardChi(a: Bits, x: nat, y: nat, z: Index): bool {
    Xor(a(x, y, z), Xor(a((x + 1) % 5, y, z), true) && a((x + 2) % 5, y, z))
  }

  /** Section 3.2.5, with the bits of the round's constant. */
  function StandardIota(a: Bits, constant: Index -> bool, x: nat, y: nat, z: Index): bool {
    if x == 0 && y == 0 then Xor(a(x, y, z), constant(z)) else a(x, y, z)
  }

  /** Section 3.3: theta, rho, pi, chi, iota. */
  function StandardRound(a: Bits, constant: Index -> bool): Bits {
    var b: Bits := (x: nat, y: nat, z: Index) => StandardTheta(a, x, y, z);
    var c: Bits := (x: nat, y: nat, z: Index) => StandardRho(b, x, y, z);
    var d: Bits := (x: nat, y: nat, z: Index) => StandardPi(c, x, y, z);
    var e: Bits := (x: nat, y: nat, z: Index) => StandardChi(d, x, y, z);
    (x: nat, y: nat, z: Index) => StandardIota(e, constant, x, y, z)
  }

  function StandardRounds(a: Bits, constants: seq<Index -> bool>, n: nat): Bits
    requires n <= |constants|
  {
    if n == 0 then a else StandardRound(StandardRounds(a, constants, n - 1), constants[n - 1])
  }

  // ---- Lanes as bits ------------------------------------------------------

  /** Lane (x, y) holds the bits (x, y, z). */
  ghost predicate Shows<L>(s: seq<L>, bit: (L, Index) -> bool, a: Bits)
    requires |s| == 25
  {
    forall x: nat, y: nat, z: Index {:trigger a(x, y, z)} :: x < 5 && y < 5 ==> bit(At(s, x, y), z) == a(x, y, z)
  }

  /** What the gates do to single bits. */
  ghost predicate Gates<L(!new)>(a: Arithmetic<L>, bit: (L, Index) -> bool) {
    && (forall u, v, z {:trigger bit(a.xor(u, v), z)} :: bit(a.xor(u, v), z) == Xor(bit(u, z), bit(v, z)))
    && (forall u, v, z {:trigger bit(a.notAnd(u, v), z)} ::
          bit(a.notAnd(u, v), z) == (Xor(bit(u, z), true) && bit(v, z)))
  }

  /** Rotated by n, a lane has its bits n higher. */
  ghost predicate TurnsBy<L(!new)>(a: Arithmetic<L>, bit: (L, Index) -> bool, n: nat, k: Index) {
    forall v, z {:trigger bit(a.rotl(v, n), z)} :: bit(a.rotl(v, n), z) == bit(v, z - k)
  }

  ghost predicate TurnsByOffsets<L(!new)>(a: Arithmetic<L>, bit: (L, Index) -> bool) {
    && TurnsBy(a, bit, 0, 0)
    && TurnsBy(a, bit, 1, 1) && TurnsBy(a, bit, 62, 62) && TurnsBy(a, bit, 28, 28) && TurnsBy(a, bit, 27, 27)
    && TurnsBy(a, bit, 36, 36) && TurnsBy(a, bit, 44, 44) && TurnsBy(a, bit, 6, 6) && TurnsBy(a, bit, 55, 55)
    && TurnsBy(a, bit, 20, 20) && TurnsBy(a, bit, 3, 3) && TurnsBy(a, bit, 10, 10) && TurnsBy(a, bit, 43, 43)
    && TurnsBy(a, bit, 25, 25) && TurnsBy(a, bit, 39, 39) && TurnsBy(a, bit, 41, 41) && TurnsBy(a, bit, 45, 45)
    && TurnsBy(a, bit, 15, 15) && TurnsBy(a, bit, 21, 21) && TurnsBy(a, bit, 8, 8) && TurnsBy(a, bit, 18, 18)
    && TurnsBy(a, bit, 2, 2) && TurnsBy(a, bit, 61, 61) && TurnsBy(a, bit, 56, 56) && TurnsBy(a, bit, 14, 14)
  }

  lemma OffsetTurns<L(!new)>(a: Arithmetic<L>, bit: (L, Index) -> bool, x: nat, y: nat)
    requires TurnsByOffsets(a, bit) && x < 5 && y < 5
    ensures TurnsBy(a, bit, At(RHO_OFFSETS, x, y), Offset(x, y))
  {
  }

  ghost predicate Bitwise<L(!new)>(a: Arithmetic<L>, bit: (L, Index) -> bool) {
    Gates(a, bit) && TurnsByOffsets(a, bit)
  }

  lemma LaneIndex(x: nat, y: nat, i: nat)
    requires x < 5 && y < 5 && i == x + 5 * y
    ensures i < 25 && i % 5 == x && i / 5 == y
  {
  }

  lemma ShownBit<L>(s: seq<L>, bit: (L, Index) -> bool, b: Bits, x: nat, y: nat, z: Index)
    requires |s| == 25 && Shows(s, bit, b) && x < 5 && y < 5
    ensures bit(At(s, x, y), z) == b(x, y, z)
  {
    assert b(x, y, z) == b(x, y, z);
  }

  lemma ParityBit<L(!new)>(s: seq<L>, x: nat, z: Index, a: Arithmetic<L>, bit: (L, Index) -> bool, b: Bits)
    requires |s| == 25 && x < 5 && Gates(a, bit) && Shows(s, bit, b)
    ensures bit(Column(s, x, a), z) == Parity(b, x, z)
  {
    ShownBit(s, bit, b, x, 0, z);
    ShownBit(s, bit, b, x, 1, z);
    ShownBit(s, bit, b, x, 2, z);
    ShownBit(s, bit, b, x, 3, z);
    ShownBit(s, bit, b, x, 4, z);
  }

  lemma EffectBit<L(!new)>(s: seq<L>, x: nat, z: Index, a: Arithmetic<L>, bit: (L, Index) -> bool, b: Bits)
    requires |s| == 25 && x < 5 && Gates(a, bit) && TurnsBy(a, bit, 1, 1) && Shows(s, bit, b)
    ensures bit(Effect(s, x, a), z) == Xor(Parity(b, (x + 4) % 5, z), Parity(b, (x + 1) % 5, z - 1))
  {
    ParityBit(s, (x + 4) % 5, z, a, bit, b);
    ParityBit(s, (x + 1) % 5, z - 1, a, bit, b);
  }

  lemma ThetaLane<L>(s: seq<L>, x: nat, y: nat, a: Arithmetic<L>)
    requires |s| == 25 && x < 5 && y < 5
    ensures At(Theta(s, a), x, y) == a.xor(At(s, x, y), Effect(s, x, a))
  {
    LaneIndex(x, y, x + 5 * y);
  }

  /** Theta mixes into a bit the parities of the columns on either side. */
  lemma ThetaBit<L(!new)>(s: seq<L>, a: Arithmetic<L>, bit: (L, Index) -> bool, b: Bits, x: nat, y: nat, z: Index)
    requires |s| == 25 && Gates(a, bit) && TurnsBy(a, bit, 1, 1) && Shows(s, bit, b) && x < 5 && y < 5
    ensures bit(At(Theta(s, a), x, y), z) == StandardTheta(b, x, y, z)
  {
    ThetaLane(s, x, y, a);
    EffectBit(s, x, z, a, bit, b);
    ShownBit(s, bit, b, x, y, z);
  }

  lemma RhoLane<L>(s: seq<L>, x: nat, y: nat, a: Arithmetic<L>)
    requires |s| == 25 && x < 5 && y < 5
    ensures At(Rho(s, a), x, y) == a.rotl(At(s, x, y), At(RHO_OFFSETS, x, y))
  {
    LaneIndex(x, y, x + 5 * y);
  }

  /** Rho moves a bit up its lane by the lane's offset. */
  lemma RhoBit<L(!new)>(s: seq<L>, a: Arithmetic<L>, bit: (L, Index) -> bool, b: Bits, x: nat, y: nat, z: Index)
    requires |s| == 25 && TurnsByOffsets(a, bit) && Shows(s, bit, b) && x < 5 && y < 5
    ensures bit(At(Rho(s, a), x, y), z) == StandardRho(b, x, y, z)
  {
    RhoLane(s, x, y, a);
    OffsetTurns(a, bit, x, y);
    ShownBit(s, bit, b, x, y, z - Offset(x, y));
  }

  lemma PiLane<L>(s: seq<L>, x: nat, y: nat, i: nat)
    requires |s| == 25 && x == i % 5 && y == i / 5 && i < 25
    ensures Pi(s)[i] == At(s, (x + 3 * y) % 5, x)
  {
  }

  /** Pi takes lane (x, y) from (x + 3y, x). */
  lemma PiBit<L>(s: seq<L>, bit: (L, Index) -> bool, b: Bits, x: nat, y: nat, z: Index)
    requires |s| == 25 && Shows(s, bit, b) && x < 5 && y < 5
    ensures bit(At(Pi(s), x, y), z) == StandardPi(b, x, y, z)
  {
    LaneIndex(x, y, x + 5 * y);
    PiLane(s, x, y, x + 5 * y);
    ShownBit(s, bit, b, (x + 3 * y) % 5, x, z);
  }

  lemma ChiLaneIs<L>(s: seq<L>, x: nat, y: nat, a: Arithmetic<L>)
    requires |s| == 25 && x < 5 && y < 5
    ensures At(Chi(s, a), x, y) == a.xor(At(s, x, y), a.notAnd(At(s, (x + 1) % 5, y), At(s, (x + 2) % 5, y)))
  {
    LaneIndex(x, y, x + 5 * y);
  }

  lemma ChiGate<L(!new)>(p: L, q: L, r: L, z: Index, a: Arithmetic<L>, bit: (L, Index) -> bool)
    requires Gates(a, bit)
    ensures bit(a.xor(p, a.notAnd(q, r)), z) == Xor(bit(p, z), Xor(bit(q, z), true) && bit(r, z))
  {
  }

  /** Chi flips a bit where the next of its row is clear and the one after it set. */
  lemma ChiBit<L(!new)>(s: seq<L>, a: Arithmetic<L>, bit: (L, Index) -> bool, b: Bits, x: nat, y: nat, z: Index)
    requires |s| == 25 && Gates(a, bit) && Shows(s, bit, b) && x < 5 && y < 5
    ensures bit(At(Chi(s, a), x, y), z) == StandardChi(b, x, y, z)
  {
    ChiLaneIs(s, x, y, a);
    ShownBit(s, bit, b, x, y, z);
    ShownBit(s, bit, b, (x + 1) % 5, y, z);
    ShownBit(s, bit, b, (x + 2) % 5, y, z);
    ChiGate(At(s, x, y), At(s, (x + 1) % 5, y), At(s, (x + 2) % 5, y), z, a, bit);
  }

  /** Iota touches lane (0, 0) alone. */
  lemma IotaBit<L(!new)>(
      s: seq<L>, round: nat, a: Arithmetic<L>, bit: (L, Index) -> bool, b: Bits, constant: Index -> bool,
      x: nat, y: nat, z: Index)
    requires |s| == 25 && round < |a.constants| && Gates(a, bit) && Shows(s, bit, b) && x < 5 && y < 5
    requires constant(z) == bit(a.constants[round], z)
    ensures bit(At(Iota(s, round, a), x, y), z) == StandardIota(b, constant, x, y, z)
  {
    ShownBit(s, bit, b, x, y, z);
    LaneIndex(x, y, x + 5 * y);
  }

  lemma ShowsAll<L>(s: seq<L>, bit: (L, Index) -> bool, step: Bits)
    requires |s| == 25
    requires forall x: nat, y: nat, z: Index {:trigger step(x, y, z)} ::
               x < 5 && y < 5 ==> bit(At(s, x, y), z) == step(x, y, z)
    ensures Shows(s, bit, step)
  {
  }

  lemma ThetaShows<L(!new)>(s: seq<L>, a: Arithmetic<L>, bit: (L, Index) -> bool, b: Bits, step: Bits)
    requires |s| == 25 && Gates(a, bit) && TurnsBy(a, bit, 1, 1) && Shows(s, bit, b)
    requires step == ((x: nat, y: nat, z: Index) => StandardTheta(b, x, y, z))
    ensures Shows(Theta(s, a), bit, step)
  {
    forall x: nat, y: nat, z: Index | x < 5 && y < 5
      ensures bit(At(Theta(s, a), x, y), z) == step(x, y, z)
    {
      ThetaBit(s, a, bit, b, x, y, z);
    }
  }

  lemma RhoShows<L(!new)>(s: seq<L>, a: Arithmetic<L>, bit: (L, Index) -> bool, b: Bits, step: Bits)
    requires |s| == 25 && TurnsByOffsets(a, bit) && Shows(s, bit, b)
    requires step == ((x: nat, y: nat, z: Index) => StandardRho(b, x, y, z))
    ensures Shows(Rho(s, a), bit, step)
  {
    forall x: nat, y: nat, z: Index | x < 5 && y < 5
      ensures bit(At(Rho(s, a), x, y), z) == step(x, y, z)
    {
      RhoBit(s, a, bit, b, x, y, z);
    }
  }

  lemma PiShows<L>(s: seq<L>, bit: (L, Index) -> bool, b: Bits, step: Bits)
    requires |s| == 25 && Shows(s, bit, b)
    requires step == ((x: nat, y: nat, z: Index) => StandardPi(b, x, y, z))
    ensures Shows(Pi(s), bit, step)
  {
    forall x: nat, y: nat, z: Index | x < 5 && y < 5
      ensures bit(At(Pi(s), x, y), z) == step(x, y, z)
    {
      PiBit(s, bit, b, x, y, z);
    }
  }

  lemma ChiShows<L(!new)>(s: seq<L>, a: Arithmetic<L>, bit: (L, Index) -> bool, b: Bits, step: Bits)
    requires |s| == 25 && Gates(a, bit) && Shows(s, bit, b)
    requires step == ((x: nat, y: nat, z: Index) => StandardChi(b, x, y, z))
    ensures Shows(Chi(s, a), bit, step)
  {
    forall x: nat, y: nat, z: Index | x < 5 && y < 5
      ensures bit(At(Chi(s, a), x, y), z) == step(x, y, z)
    {
      ChiBit(s, a, bit, b, x, y, z);
    }
  }

  /** One round over lanes is one round of the standard over their bits. */
  lemma RoundShows<L(!new)>(
      s: seq<L>, round: nat, a: Arithmetic<L>, bit: (L, Index) -> bool, b: Bits, constant: Index -> bool)
    requires |s| == 25 && round < |a.constants| && Bitwise(a, bit) && Shows(s, bit, b)
    requires forall z {:trigger constant(z)} :: constant(z) == bit(a.constants[round], z)
    ensures Shows(Round(s, round, a), bit, StandardRound(b, constant))
  {
    var b1: Bits := (x: nat, y: nat, z: Index) => StandardTheta(b, x, y, z);
    var b2: Bits := (x: nat, y: nat, z: Index) => StandardRho(b1, x, y, z);
    var b3: Bits := (x: nat, y: nat, z: Index) => StandardPi(b2, x, y, z);
    var b4: Bits := (x: nat, y: nat, z: Index) => StandardChi(b3, x, y, z);
    var t := Theta(s, a);
    ThetaShows(s, a, bit, b, b1);
    var r := Rho(t, a);
    RhoShows(t, a, bit, b1, b2);
    var p := Pi(r);
    PiShows(r, bit, b2, b3);
    var c := Chi(p, a);
    ChiShows(p, a, bit, b3, b4);
    forall x: nat, y: nat, z: Index | x < 5 && y < 5
      ensures bit(At(Iota(c, round, a), x, y), z) == StandardRound(b, constant)(x, y, z)
    {
      IotaBit(c, round, a, bit, b4, constant, x, y, z);
    }
  }

  ghost predicate ConstantsShown<L>(a: Arithmetic<L>, bit: (L, Index) -> bool, constants: seq<Index -> bool>) {
    && |constants| == |a.constants|
    && forall i, z {:trigger constants[i](z)} :: 0 <= i < |constants| ==> constants[i](z) == bit(a.constants[i], z)
  }

  lemma ConstantShown<L>(
      i: nat, a: Arithmetic<L>, bit: (L, Index) -> bool, constants: seq<Index -> bool>, constant: Index -> bool)
    requires ConstantsShown(a, bit, constants) && i < |constants| && constant == constants[i]
    ensures forall z {:trigger constant(z)} :: constant(z) == bit(a.constants[i], z)
  {
    forall z ensures constant(z) == bit(a.constants[i], z) {
      assert constants[i](z) == bit(a.constants[i], z);
    }
  }

  function Iterate<S>(s: S, n: nat, step: (S, nat) -> S): S {
    if n == 0 then s else step(Iterate(s, n - 1, step), n - 1)
  }

  lemma {:induction false} IterateTogether<S(!new), T(!new)>(
      s: S, t: T, n: nat, f: (S, nat) -> S, g: (T, nat) -> T, related: (S, T) -> bool)
    requires related(s, t)
    requires forall u, v, i: nat {:trigger f(u, i), g(v, i)} :: i < n && related(u, v) ==> related(f(u, i), g(v, i))
    ensures related(Iterate(s, n, f), Iterate(t, n, g))
  {
    if n > 0 { IterateTogether(s, t, n - 1, f, g, related); }
  }

  function LaneStep<L>(a: Arithmetic<L>): (seq<L>, nat) -> seq<L> {
    (s: seq<L>, i: nat) => if |s| == 25 && i < |a.constants| then Round(s, i, a) else s
  }

  function BitStep(constants: seq<Index -> bool>): (Bits, nat) -> Bits {
    (b: Bits, i: nat) => if i < |constants| then StandardRound(b, constants[i]) else b
  }

  lemma {:induction false} IterateIs<S(!new)>(at: nat -> S, n: nat, step: (S, nat) -> S)
    requires forall i: nat {:trigger step(at(i), i)} :: i < n ==> at(i + 1) == step(at(i), i)
    ensures Iterate(at(0), n, step) == at(n)
  {
    if n > 0 {
      IterateIs(at, n - 1, step);
      assert at(n - 1 + 1) == step(at(n - 1), n - 1);
    }
  }

  lemma NextRound<L>(s: seq<L>, i: nat, a: Arithmetic<L>)
    requires |s| == 25 && i < |a.constants|
    ensures Rounds(s, i + 1, a) == LaneStep(a)(Rounds(s, i, a), i)
  {
  }

  function RoundsFrom<L>(s: seq<L>, a: Arithmetic<L>): nat -> seq<L>
    requires |s| == 25
  {
    (i: nat) => if i <= |a.constants| then Rounds(s, i, a) else s
  }

  lemma RoundsStep<L>(s: seq<L>, i: nat, a: Arithmetic<L>)
    requires |s| == 25 && i < |a.constants|
    ensures RoundsFrom(s, a)(i + 1) == LaneStep(a)(RoundsFrom(s, a)(i), i)
  {
    NextRound(s, i, a);
  }

  lemma LanesIterate<L(!new)>(s: seq<L>, n: nat, a: Arithmetic<L>)
    requires |s| == 25 && n <= |a.constants|
    ensures Iterate(s, n, LaneStep(a)) == Rounds(s, n, a)
  {
    var at, step := RoundsFrom(s, a), LaneStep(a);
    forall i: nat | i < n ensures at(i + 1) == step(at(i), i) {
      RoundsStep(s, i, a);
    }
    IterateIs(at, n, step);
  }

  lemma {:induction false} BitsIterate(b: Bits, n: nat, constants: seq<Index -> bool>)
    requires n <= |constants|
    ensures Iterate(b, n, BitStep(constants)) == StandardRounds(b, constants, n)
    decreases n
  {
    if n > 0 { BitsIterate(b, n - 1, constants); }
  }

  /** And so are any number of rounds. */
  lemma RoundsShow<L(!new)>(
      s: seq<L>, n: nat, a: Arithmetic<L>, bit: (L, Index) -> bool, b: Bits, constants: seq<Index -> bool>,
      related: (seq<L>, Bits) -> bool)
    requires |s| == 25 && n <= |a.constants| && Bitwise(a, bit) && ConstantsShown(a, bit, constants)
    requires Shows(s, bit, b)
    requires forall t, c {:trigger related(t, c)} :: related(t, c) <==> |t| == 25 && Shows(t, bit, c)
    ensures related(Rounds(s, n, a), StandardRounds(b, constants, n))
  {
    var f, g := LaneStep(a), BitStep(constants);
    assert related(s, b);
    forall t: seq<L>, c: Bits, i: nat | i < n && related(t, c)
      ensures related(f(t, i), g(c, i))
    {
      ConstantShown(i, a, bit, constants, constants[i]);
      RoundShows(t, i, a, bit, c, constants[i]);
    }
    IterateTogether(s, b, n, f, g, related);
    LanesIterate(s, n, a);
    BitsIterate(b, n, constants);
  }

  // ---- The lanes of the program -------------------------------------------

  function LaneBit(): (Lane, Index) -> bool { (v: Lane, z: Index) => BitAt(v, z) }

  lemma LaneBitIs(v: Lane, z: Index)
    ensures LaneBit()(v, z) == BitAt(v, z)
  {
  }

  lemma GatesOfLanes(u: Lane, v: Lane)
    ensures LANES.xor(u, v) == u ^ v && LANES.notAnd(u, v) == !u & v
  {
  }

  lemma LaneGates(u: Lane, v: Lane, z: Index)
    ensures BitAt(LANES.xor(u, v), z) == Xor(BitAt(u, z), BitAt(v, z))
    ensures BitAt(LANES.notAnd(u, v), z) == (Xor(BitAt(u, z), true) && BitAt(v, z))
  {
    GatesOfLanes(u, v);
    XorBit(u, v, z);
    NotAndBit(u, v, z);
  }

  lemma LanesHaveGates()
    ensures Gates(LANES, LaneBit())
  {
    forall u: Lane, v: Lane, z: Index
      ensures LaneBit()(LANES.xor(u, v), z) == Xor(LaneBit()(u, z), LaneBit()(v, z))
    {
      LaneGates(u, v, z);
    }
    forall u: Lane, v: Lane, z: Index
      ensures LaneBit()(LANES.notAnd(u, v), z) == (Xor(LaneBit()(u, z), true) && LaneBit()(v, z))
    {
      LaneGates(u, v, z);
    }
  }

  lemma TurnsBy1()
    ensures TurnsBy(LANES, LaneBit(), 1, 1)
  {
    forall v: Lane, z: Index ensures LaneBit()(LANES.rotl(v, 1), z) == LaneBit()(v, z - 1) {
      RotlRotates(v);
      FirstTurns(v, z);
    }
  }

  lemma TurnsBy62()
    ensures TurnsBy(LANES, LaneBit(), 62, 62)
  {
    forall v: Lane, z: Index ensures LaneBit()(LANES.rotl(v, 62), z) == LaneBit()(v, z - 62) {
      RotlRotates(v);
      FirstTurns(v, z);
    }
  }

  lemma TurnsBy28()
    ensures TurnsBy(LANES, LaneBit(), 28, 28)
  {
    forall v: Lane, z: Index ensures LaneBit()(LANES.rotl(v, 28), z) == LaneBit()(v, z - 28) {
      RotlRotates(v);
      FirstTurns(v, z);
    }
  }

  lemma TurnsBy27()
    ensures TurnsBy(LANES, LaneBit(), 27, 27)
  {
    forall v: Lane, z: Index ensures LaneBit()(LANES.rotl(v, 27), z) == LaneBit()(v, z - 27) {
      RotlRotates(v);
      FirstTurns(v, z);
    }
  }

  lemma TurnsBy36()
    ensures TurnsBy(LANES, LaneBit(), 36, 36)
  {
    forall v: Lane, z: Index ensures LaneBit()(LANES.rotl(v, 36), z) == LaneBit()(v, z - 36) {
      RotlRotates(v);
      SecondTurns(v, z);
    }
  }

  lemma TurnsBy44()
    ensures TurnsBy(LANES, LaneBit(), 44, 44)
  {
    forall v: Lane, z: Index ensures LaneBit()(LANES.rotl(v, 44), z) == LaneBit()(v, z - 44) {
      RotlRotates(v);
      SecondTurns(v, z);
    }
  }

  lemma TurnsBy6()
    ensures TurnsBy(LANES, LaneBit(), 6, 6)
  {
    forall v: Lane, z: Index ensures LaneBit()(LANES.rotl(v, 6), z) == LaneBit()(v, z - 6) {
      RotlRotates(v);
      SecondTurns(v, z);
    }
  }

  lemma TurnsBy55()
    ensures TurnsBy(LANES, LaneBit(), 55, 55)
  {
    forall v: Lane, z: Index ensures LaneBit()(LANES.rotl(v, 55), z) == LaneBit()(v, z - 55) {
      RotlRotates(v);
      SecondTurns(v, z);
    }
  }

  lemma TurnsBy20()
    ensures TurnsBy(LANES, LaneBit(), 20, 20)
  {
    forall v: Lane, z: Index ensures LaneBit()(LANES.rotl(v, 20), z) == LaneBit()(v, z - 20) {
      RotlRotates(v);
      ThirdTurns(v, z);
    }
  }

  lemma TurnsBy3()
    ensures TurnsBy(LANES, LaneBit(), 3, 3)
  {
    forall v: Lane, z: Index ensures LaneBit()(LANES.rotl(v, 3), z) == LaneBit()(v, z - 3) {
      RotlRotates(v);
      ThirdTurns(v, z);
    }
  }

  lemma TurnsBy10()
    ensures TurnsBy(LANES, LaneBit(), 10, 10)
  {
    forall v: Lane, z: Index ensures LaneBit()(LANES.rotl(v, 10), z) == LaneBit()(v, z - 10) {
      RotlRotates(v);
      ThirdTurns(v, z);
    }
  }

  lemma TurnsBy43()
    ensures TurnsBy(LANES, LaneBit(), 43, 43)
  {
    forall v: Lane, z: Index ensures LaneBit()(LANES.rotl(v, 43), z) == LaneBit()(v, z - 43) {
      RotlRotates(v);
      ThirdTurns(v, z);
    }
  }

  lemma TurnsBy25()
    ensures TurnsBy(LANES, LaneBit(), 25, 25)
  {
    forall v: Lane, z: Index ensures LaneBit()(LANES.rotl(v, 25), z) == LaneBit()(v, z - 25) {
      RotlRotates(v);
      FourthTurns(v, z);
    }
  }

  lemma TurnsBy39()
    ensures TurnsBy(LANES, LaneBit(), 39, 39)
  {
    forall v: Lane, z: Index ensures LaneBit()(LANES.rotl(v, 39), z) == LaneBit()(v, z - 39) {
      RotlRotates(v);
      FourthTurns(v, z);
    }
  }

  lemma TurnsBy41()
    ensures TurnsBy(LANES, LaneBit(), 41, 41)
  {
    forall v: Lane, z: Index ensures LaneBit()(LANES.rotl(v, 41), z) == LaneBit()(v, z - 41) {
      RotlRotates(v);
      FourthTurns(v, z);
    }
  }

  lemma TurnsBy45()
    ensures TurnsBy(LANES, LaneBit(), 45, 45)
  {
    forall v: Lane, z: Index ensures LaneBit()(LANES.rotl(v, 45), z) == LaneBit()(v, z - 45) {
      RotlRotates(v);
      FourthTurns(v, z);
    }
  }

  lemma TurnsBy15()
    ensures TurnsBy(LANES, LaneBit(), 15, 15)
  {
    forall v: Lane, z: Index ensures LaneBit()(LANES.rotl(v, 15), z) == LaneBit()(v, z - 15) {
      RotlRotates(v);
      FifthTurns(v, z);
    }
  }

  lemma TurnsBy21()
    ensures TurnsBy(LANES, LaneBit(), 21, 21)
  {
    forall v: Lane, z: Index ensures LaneBit()(LANES.rotl(v, 21), z) == LaneBit()(v, z - 21) {
      RotlRotates(v);
      FifthTurns(v, z);
    }
  }

  lemma TurnsBy8()
    ensures TurnsBy(LANES, LaneBit(), 8, 8)
  {
    forall v: Lane, z: Index ensures LaneBit()(LANES.rotl(v, 8), z) == LaneBit()(v, z - 8) {
      RotlRotates(v);
      FifthTurns(v, z);
    }
  }

  lemma TurnsBy18()
    ensures TurnsBy(LANES, LaneBit(), 18, 18)
  {
    forall v: Lane, z: Index ensures LaneBit()(LANES.rotl(v, 18), z) == LaneBit()(v, z - 18) {
      RotlRotates(v);
      FifthTurns(v, z);
    }
  }

  lemma TurnsBy2()
    ensures TurnsBy(LANES, LaneBit(), 2, 2)
  {
    forall v: Lane, z: Index ensures LaneBit()(LANES.rotl(v, 2), z) == LaneBit()(v, z - 2) {
      RotlRotates(v);
      SixthTurns(v, z);
    }
  }

  lemma TurnsBy61()
    ensures TurnsBy(LANES, LaneBit(), 61, 61)
  {
    forall v: Lane, z: Index ensures LaneBit()(LANES.rotl(v, 61), z) == LaneBit()(v, z - 61) {
      RotlRotates(v);
      SixthTurns(v, z);
    }
  }

  lemma TurnsBy56()
    ensures TurnsBy(LANES, LaneBit(), 56, 56)
  {
    forall v: Lane, z: Index ensures LaneBit()(LANES.rotl(v, 56), z) == LaneBit()(v, z - 56) {
      RotlRotates(v);
      SixthTurns(v, z);
    }
  }

  lemma TurnsBy14()
    ensures TurnsBy(LANES, LaneBit(), 14, 14)
  {
    forall v: Lane, z: Index ensures LaneBit()(LANES.rotl(v, 14), z) == LaneBit()(v, z - 14) {
      RotlRotates(v);
      SixthTurns(v, z);
    }
  }

  lemma TurnsBy0()
    ensures TurnsBy(LANES, LaneBit(), 0, 0)
  {
  }

  lemma LanesAreBitwise()
    ensures Bitwise(LANES, LaneBit())
  {
    LanesHaveGates();
    TurnsBy0();
    TurnsBy1();
    TurnsBy62();
    TurnsBy28();
    TurnsBy27();
    TurnsBy36();
    TurnsBy44();
    TurnsBy6();
    TurnsBy55();
    TurnsBy20();
    TurnsBy3();
    TurnsBy10();
    TurnsBy43();
    TurnsBy25();
    TurnsBy39();
    TurnsBy41();
    TurnsBy45();
    TurnsBy15();
    TurnsBy21();
    TurnsBy8();
    TurnsBy18();
    TurnsBy2();
    TurnsBy61();
    TurnsBy56();
    TurnsBy14();
  }

  /** Bit (x, y, z) of a state: bit z of the word at x + 5y. */
  function B(s: seq<Lane>, x: nat, y: nat, z: Index): bool
    requires |s| == 25 && x < 5 && y < 5
  {
    BitAt(s[x + 5 * y], z)
  }

  function BitsOf(s: seq<Lane>): Bits
    requires |s| == 25
  {
    (x: nat, y: nat, z: Index) => if x < 5 && y < 5 then B(s, x, y, z) else false
  }

  lemma BitsShown(s: seq<Lane>)
    requires |s| == 25
    ensures Shows(s, LaneBit(), BitsOf(s))
  {
    forall x: nat, y: nat, z: Index | x < 5 && y < 5
      ensures LaneBit()(At(s, x, y), z) == BitsOf(s)(x, y, z)
    {
      LaneBitIs(At(s, x, y), z);
    }
  }

  lemma LaneBitOf(s: seq<Lane>, x: nat, y: nat, z: Index)
    requires |s| == 25 && x < 5 && y < 5
    ensures LaneBit()(At(s, x, y), z) == B(s, x, y, z)
  {
    LaneBitIs(At(s, x, y), z);
  }

  /** The parity of a column of lanes. */
  function P(s: seq<Lane>, x: nat, z: Index): bool
    requires |s| == 25 && x < 5
  {
    Xor(Xor(Xor(Xor(B(s, x, 0, z), B(s, x, 1, z)), B(s, x, 2, z)), B(s, x, 3, z)), B(s, x, 4, z))
  }

  lemma ThetaOfLanes(s: seq<Lane>, x: nat, y: nat, z: Index)
    requires |s| == 25 && x < 5 && y < 5
    ensures B(Theta(s, LANES), x, y, z) == Xor(B(s, x, y, z), Xor(P(s, (x + 4) % 5, z), P(s, (x + 1) % 5, z - 1)))
  {
    BitsShown(s);
    LanesAreBitwise();
    ThetaBit(s, LANES, LaneBit(), BitsOf(s), x, y, z);
    LaneBitOf(Theta(s, LANES), x, y, z);
  }

  lemma RhoOfLanes(s: seq<Lane>, x: nat, y: nat, z: Index)
    requires |s| == 25 && x < 5 && y < 5
    ensures B(Rho(s, LANES), x, y, z) == B(s, x, y, z - Offset(x, y))
  {
    BitsShown(s);
    LanesAreBitwise();
    RhoBit(s, LANES, LaneBit(), BitsOf(s), x, y, z);
    LaneBitOf(Rho(s, LANES), x, y, z);
  }

  lemma PiOfLanes(s: seq<Lane>, x: nat, y: nat, z: Index)
    requires |s| == 25 && x < 5 && y < 5
    ensures B(Pi(s), x, y, z) == B(s, (x + 3 * y) % 5, x, z)
  {
    BitsShown(s);
    PiBit(s, LaneBit(), BitsOf(s), x, y, z);
    LaneBitOf(Pi(s), x, y, z);
  }

  lemma ChiOfLanes(s: seq<Lane>, x: nat, y: nat, z: Index)
    requires |s| == 25 && x < 5 && y < 5
    ensures B(Chi(s, LANES), x, y, z)
            == Xor(B(s, x, y, z), Xor(B(s, (x + 1) % 5, y, z), true) && B(s, (x + 2) % 5, y, z))
  {
    BitsShown(s);
    LanesAreBitwise();
    ChiBit(s, LANES, LaneBit(), BitsOf(s), x, y, z);
    LaneBitOf(Chi(s, LANES), x, y, z);
  }

  /** The round constants' bits, round by round. */
  function ConstantBits(): seq<Index -> bool> {
    seq(24, i requires 0 <= i < 24 => (z: Index) => BitAt(ROUND_CONSTANTS[i], z))
  }

  lemma LaneConstants()
    ensures ConstantsShown(LANES, LaneBit(), ConstantBits())
  {
    forall i, z: Index | 0 <= i < 24
      ensures ConstantBits()[i](z) == LaneBit()(LANES.constants[i], z)
    {
      LaneBitIs(ROUND_CONSTANTS[i], z);
    }
  }

  lemma PermutedShows(s: seq<Lane>, b: Bits)
    requires |s| == 25 && Shows(s, LaneBit(), b)
    requires Bitwise(LANES, LaneBit()) && ConstantsShown(LANES, LaneBit(), ConstantBits())
    ensures Shows(Permuted(s, LANES), LaneBit(), StandardRounds(b, ConstantBits(), 24))
  {
    ghost var related: (seq<Lane>, Bits) -> bool := (t: seq<Lane>, c: Bits) => |t| == 25 && Shows(t, LaneBit(), c);
    RoundsShow(s, 24, LANES, LaneBit(), b, ConstantBits(), related);
  }

  /** The permutation of the 64-bit lanes is Keccak-f[1600] of section 3.4, on bits. */
  lemma PermutationIsTheStandards(s: seq<Lane>, x: nat, y: nat, z: Index)
    requires |s| == 25 && x < 5 && y < 5
    ensures B(Permuted(s, LANES), x, y, z) == StandardRounds(BitsOf(s), ConstantBits(), 24)(x, y, z)
  {
    BitsShown(s);
    LanesAreBitwise();
    LaneConstants();
    PermutedShows(s, BitsOf(s));
    LaneBitOf(Permuted(s, LANES), x, y, z);
    ShownBit(Permuted(s, LANES), LaneBit(), StandardRounds(BitsOf(s), ConstantBits(), 24), x, y, z);
  }
}
