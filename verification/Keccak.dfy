/** The permutation inside Keccak-256 (packages/protocol/src/keccak.ts), against
    the step mappings of FIPS 202 section 3.2. Lane (x, y) is at index x + 5y.

    What the in-place code has to get right is where every lane goes. So the
    permutation is stated over any lane arithmetic and any round constants; the
    64-bit one of the program is an instance. */
module Keccak {

  import opened Bytes

  /** Exclusive or, (not a) and b, left rotation; a lane shifted up by a byte that
      is put in below it; a lane's low byte, and the lane shifted down past it. */
  datatype Arithmetic<!L> = Arithmetic(
    zero: L, xor: (L, L) -> L, notAnd: (L, L) -> L, rotl: (L, nat) -> L,
    push: (L, byte) -> L, low: L -> byte, shift: L -> L, constants: seq<L>)

  const ROUNDS: nat := 24

  const RHO_OFFSETS: seq<nat> := [
    0, 1, 62, 28, 27,
    36, 44, 6, 55, 20,
    3, 10, 43, 25, 39,
    41, 45, 15, 21, 8,
    18, 2, 61, 56, 14
  ]

  // ---- The step mappings --------------------------------------------------

  function At<L>(s: seq<L>, x: nat, y: nat): L
    requires |s| == 25 && x < 5 && y < 5
  {
    s[x + 5 * y]
  }

  function Column<L>(s: seq<L>, x: nat, a: Arithmetic<L>): L
    requires |s| == 25 && x < 5
  {
    a.xor(a.xor(a.xor(a.xor(At(s, x, 0), At(s, x, 1)), At(s, x, 2)), At(s, x, 3)), At(s, x, 4))
  }

  /** What every lane of a column is mixed with. */
  function Effect<L>(s: seq<L>, x: nat, a: Arithmetic<L>): L
    requires |s| == 25 && x < 5
  {
    a.xor(Column(s, (x + 4) % 5, a), a.rotl(Column(s, (x + 1) % 5, a), 1))
  }

  /** The columns before n mixed, each with its effect. */
  function Mixed<L>(s: seq<L>, effects: seq<L>, n: nat, a: Arithmetic<L>): (r: seq<L>)
    requires |s| == 25 && |effects| == 5
    ensures |r| == 25
  {
    seq(25, i requires 0 <= i < 25 => if i % 5 < n then a.xor(s[i], effects[i % 5]) else s[i])
  }

  function Theta<L>(s: seq<L>, a: Arithmetic<L>): (r: seq<L>)
    requires |s| == 25
    ensures |r| == 25
  {
    Mixed(s, seq(5, x requires 0 <= x < 5 => Effect(s, x, a)), 5, a)
  }

  function Rho<L>(s: seq<L>, a: Arithmetic<L>): (r: seq<L>)
    requires |s| == 25
    ensures |r| == 25
  {
    seq(25, i requires 0 <= i < 25 => a.rotl(s[i], RHO_OFFSETS[i]))
  }

  function Pi<L>(s: seq<L>): (r: seq<L>)
    requires |s| == 25
    ensures |r| == 25
  {
    seq(25, i requires 0 <= i < 25 => At(s, (i % 5 + 3 * (i / 5)) % 5, i % 5))
  }

  function ChiLane<L>(m: seq<L>, x: nat, y: nat, a: Arithmetic<L>): L
    requires |m| == 25 && x < 5 && y < 5
  {
    a.xor(At(m, x, y), a.notAnd(At(m, (x + 1) % 5, y), At(m, (x + 2) % 5, y)))
  }

  function Chi<L>(s: seq<L>, a: Arithmetic<L>): (r: seq<L>)
    requires |s| == 25
    ensures |r| == 25
  {
    seq(25, i requires 0 <= i < 25 => ChiLane(s, i % 5, i / 5, a))
  }

  function Iota<L>(s: seq<L>, round: nat, a: Arithmetic<L>): (r: seq<L>)
    requires |s| == 25 && round < |a.constants|
    ensures |r| == 25
  {
    s[0 := a.xor(s[0], a.constants[round])]
  }

  function Round<L>(s: seq<L>, round: nat, a: Arithmetic<L>): (r: seq<L>)
    requires |s| == 25 && round < |a.constants|
    ensures |r| == 25
  {
    Iota(Chi(Pi(Rho(Theta(s, a), a)), a), round, a)
  }

  function Rounds<L>(s: seq<L>, n: nat, a: Arithmetic<L>): (r: seq<L>)
    requires |s| == 25 && n <= |a.constants|
    ensures |r| == 25
    decreases n
  {
    if n == 0 then s else Round(Rounds(s, n - 1, a), n - 1, a)
  }

  /** Keccak-f: a round for every constant. */
  function Permuted<L>(s: seq<L>, a: Arithmetic<L>): (r: seq<L>)
    requires |s| == 25
    ensures |r| == 25
  {
    Rounds(s, |a.constants|, a)
  }

  // ---- The permutation in place -------------------------------------------

  method Columns<L(0)>(state: array<L>, a: Arithmetic<L>) returns (c: array<L>)
    requires state.Length == 25
    ensures fresh(c) && c.Length == 5 && forall x :: 0 <= x < 5 ==> c[x] == Column(state[..], x, a)
  {
    c := new L[5];
    for x := 0 to 5
      invariant forall k :: 0 <= k < x ==> c[k] == Column(state[..], k, a)
    {
      c[x] := a.xor(a.xor(a.xor(a.xor(state[x], state[x + 5]), state[x + 10]), state[x + 15]), state[x + 20]);
    }
  }

  method MixColumn<L>(state: array<L>, x: nat, d: L, a: Arithmetic<L>)
    requires state.Length == 25 && x < 5
    modifies state
    ensures forall i :: 0 <= i < 25 ==> state[i] == if i % 5 == x then a.xor(old(state[i]), d) else old(state[i])
  {
    var y := 0;
    while y < 25
      invariant 0 <= y <= 25 && y % 5 == 0
      invariant forall i :: 0 <= i < 25 ==>
        state[i] == if i % 5 == x && i < y then a.xor(old(state[i]), d) else old(state[i])
    {
      state[x + y] := a.xor(state[x + y], d);
      y := y + 5;
    }
  }

  method ThetaInPlace<L(0)>(state: array<L>, a: Arithmetic<L>)
    requires state.Length == 25
    modifies state
    ensures state[..] == Theta(old(state[..]), a)
  {
    var c := Columns(state, a);
    ghost var s := state[..];
    ghost var effects := seq(5, x requires 0 <= x < 5 => Effect(s, x, a));
    MixColumns(state, c, effects, a);
  }

  method MixColumns<L>(state: array<L>, c: array<L>, ghost effects: seq<L>, a: Arithmetic<L>)
    requires state.Length == 25 && c.Length == 5 == |effects| && state != c
    requires forall x :: 0 <= x < 5 ==> effects[x] == a.xor(c[(x + 4) % 5], a.rotl(c[(x + 1) % 5], 1))
    modifies state
    ensures state[..] == Mixed(old(state[..]), effects, 5, a)
  {
    for x := 0 to 5
      invariant c[..] == old(c[..])
      invariant state[..] == Mixed(old(state[..]), effects, x, a)
    {
      var d := a.xor(c[(x + 4) % 5], a.rotl(c[(x + 1) % 5], 1));
      MixColumn(state, x, d, a);
    }
  }

  /** Where rho and pi together put lane (x, y). */
  function Target(x: nat, y: nat): (i: nat)
    requires x < 5 && y < 5
    ensures i < 25
  {
    y + 5 * ((2 * x + 3 * y) % 5)
  }

  lemma Mod5(x: nat, m: int)
    requires x < 5
    ensures (x + 5 * m) % 5 == x && (x + 5 * m) / 5 == m
  {
  }

  /** Lane (x, y) comes back from column y and row q of its target. */
  lemma TargetUndone(x: nat, y: nat, q: nat)
    requires x < 5 && y < 5 && q == (2 * x + 3 * y) % 5
    ensures (y + 3 * q) % 5 == x
  {
    var k := (2 * x + 3 * y) / 5;
    assert y + 3 * q == x + 5 * (x + 2 * y - 3 * k);
    Mod5(x, x + 2 * y - 3 * k);
  }

  lemma TargetsDiffer(x: nat, y: nat, u: nat, v: nat)
    requires x < 5 && y < 5 && u < 5 && v < 5
    ensures Target(x, y) == Target(u, v) ==> x == u && y == v
  {
    var (p, q) := ((2 * x + 3 * y) % 5, (2 * u + 3 * v) % 5);
    TargetUndone(x, y, p);
    TargetUndone(u, v, q);
    SplitBy5(y, p, v, q);
  }

  lemma SplitBy5(y: nat, p: nat, v: nat, q: nat)
    requires y < 5 && v < 5
    ensures y + 5 * p == v + 5 * q ==> y == v && p == q
  {
  }

  lemma TargetOf(i: nat)
    requires i < 25
    ensures Target((i % 5 + 3 * (i / 5)) % 5, i % 5) == i
  {
    var (v, q) := (i % 5, i / 5);
    var x := (v + 3 * q) % 5;
    var k := (v + 3 * q) / 5;
    assert 2 * x + 3 * v == q + 5 * (v + q - 2 * k);
    Mod5(q, v + q - 2 * k);
  }

  /** The lanes before (x, y), column by column, are where they belong. */
  ghost predicate Placed<L>(moved: seq<L>, r: seq<L>, x: nat, y: nat) {
    && |moved| == 25 == |r|
    && forall u, v :: 0 <= u < 5 && 0 <= v < 5 && (u < x || (u == x && v < y)) ==> moved[Target(u, v)] == At(r, u, v)
  }

  /** Lanes that reached their targets are the pi of what they were. */
  lemma TargetsArePi<L>(moved: seq<L>, r: seq<L>)
    requires Placed(moved, r, 5, 0)
    ensures moved == Pi(r)
  {
    forall i | 0 <= i < 25
      ensures moved[i] == Pi(r)[i]
    {
      TargetOf(i);
      PlacedAt(moved, r, (i % 5 + 3 * (i / 5)) % 5, i % 5);
    }
  }

  lemma PlacedAt<L>(moved: seq<L>, r: seq<L>, x: nat, y: nat)
    requires Placed(moved, r, 5, 0) && x < 5 && y < 5
    ensures moved[Target(x, y)] == At(r, x, y)
  {
  }

  method RhoPi<L(0)>(state: array<L>, a: Arithmetic<L>) returns (moved: array<L>)
    requires state.Length == 25
    ensures fresh(moved) && moved[..] == Pi(Rho(state[..], a))
  {
    moved := Scatter(state, Rho(state[..], a), a);
    TargetsArePi(moved[..], Rho(state[..], a));
  }

  lemma PlacedNext<L>(moved: seq<L>, r: seq<L>, x: nat, y: nat)
    requires x < 5 && y < 5 && Placed(moved, r, x, y)
    ensures Placed(moved[Target(x, y) := At(r, x, y)], r, x, y + 1)
  {
    var next := moved[Target(x, y) := At(r, x, y)];
    forall u, v | 0 <= u < 5 && 0 <= v < 5 && (u < x || (u == x && v < y + 1))
      ensures next[Target(u, v)] == At(r, u, v)
    {
      TargetsDiffer(u, v, x, y);
    }
  }

  method Scatter<L(0)>(state: array<L>, ghost r: seq<L>, a: Arithmetic<L>) returns (moved: array<L>)
    requires state.Length == 25 == |r| && forall i :: 0 <= i < 25 ==> r[i] == a.rotl(state[i], RHO_OFFSETS[i])
    ensures fresh(moved) && Placed(moved[..], r, 5, 0)
  {
    moved := new L[25];
    for x := 0 to 5
      invariant Placed(moved[..], r, x, 0)
    {
      for y := 0 to 5
        invariant Placed(moved[..], r, x, y)
      {
        PlacedNext(moved[..], r, x, y);
        moved[y + 5 * ((2 * x + 3 * y) % 5)] := a.rotl(state[x + 5 * y], RHO_OFFSETS[x + 5 * y]);
      }
    }
  }

  method ChiInPlace<L>(state: array<L>, moved: array<L>, a: Arithmetic<L>)
    requires state.Length == 25 && moved.Length == 25 && state != moved
    modifies state
    ensures state[..] == Chi(moved[..], a)
  {
    ghost var m := moved[..];
    ghost var r := Chi(m, a);
    forall x, y | 0 <= x < 5 && 0 <= y < 5
      ensures At(r, x, y) == ChiLane(m, x, y, a)
    {
      Mod5(x, y);
    }
    Rows(state, moved, r, a);
  }

  method Rows<L>(state: array<L>, moved: array<L>, ghost r: seq<L>, a: Arithmetic<L>)
    requires state.Length == 25 && moved.Length == 25 == |r| && state != moved
    requires forall x, y :: 0 <= x < 5 && 0 <= y < 5 ==> At(r, x, y) == ChiLane(moved[..], x, y, a)
    modifies state
    ensures state[..] == r
  {
    var y := 0;
    ghost var row := 0;
    while y < 25
      invariant 0 <= row <= 5 && y == 5 * row
      invariant forall i :: 0 <= i < y ==> state[i] == r[i]
    {
      for x := 0 to 5
        invariant forall i :: 0 <= i < y + x ==> state[i] == r[i]
      {
        state[x + y] := a.xor(moved[x + y], a.notAnd(moved[(x + 1) % 5 + y], moved[(x + 2) % 5 + y]));
        assert state[x + y] == ChiLane(moved[..], x, row, a);
        assert At(r, x, row) == state[x + y];
      }
      y := y + 5;
      row := row + 1;
    }
  }

  method KeccakF<L(0)>(state: array<L>, a: Arithmetic<L>)
    requires state.Length == 25 && |a.constants| == ROUNDS
    modifies state
    ensures state[..] == Permuted(old(state[..]), a)
  {
    ghost var s := state[..];
    for round := 0 to ROUNDS
      invariant state[..] == Rounds(s, round, a)
    {
      ThetaInPlace(state, a);
      var moved := RhoPi(state, a);
      ChiInPlace(state, moved, a);
      state[0] := a.xor(state[0], a.constants[round]);
    }
  }

  // ---- The rotation table -------------------------------------------------

  datatype Position = Position(x: nat, y: nat)

  /** The lane rho visits at step t: from (1, 0), always on to (y, 2x + 3y). */
  function Walk(t: nat): Position {
    if t == 0 then Position(1, 0)
    else
      var p := Walk(t - 1);
      Position(p.y, (2 * p.x + 3 * p.y) % 5)
  }

  /** The walk, step by step. */
  function PathAt(t: nat): (p: Position)
    ensures p.x < 5 && p.y < 5
  {
    match t
    case 0 => Position(1, 0)
    case 1 => Position(0, 2)
    case 2 => Position(2, 1)
    case 3 => Position(1, 2)
    case 4 => Position(2, 3)
    case 5 => Position(3, 3)
    case 6 => Position(3, 0)
    case 7 => Position(0, 1)
    case 8 => Position(1, 3)
    case 9 => Position(3, 1)
    case 10 => Position(1, 4)
    case 11 => Position(4, 4)
    case 12 => Position(4, 0)
    case 13 => Position(0, 3)
    case 14 => Position(3, 4)
    case 15 => Position(4, 3)
    case 16 => Position(3, 2)
    case 17 => Position(2, 2)
    case 18 => Position(2, 0)
    case 19 => Position(0, 4)
    case 20 => Position(4, 2)
    case 21 => Position(2, 4)
    case 22 => Position(4, 1)
    case _ => Position(1, 1)
  }

  lemma PathStep(t: nat)
    requires t < 23
    ensures PathAt(t + 1) == Position(PathAt(t).y, (2 * PathAt(t).x + 3 * PathAt(t).y) % 5)
  {
  }

  lemma {:induction false} WalkIs(t: nat, path: nat -> Position)
    requires t < 24 && path(0) == Position(1, 0)
    requires forall s: nat :: s < 23 ==> path(s + 1) == Position(path(s).y, (2 * path(s).x + 3 * path(s).y) % 5)
    ensures Walk(t) == path(t)
  {
    if t > 0 {
      WalkIs(t - 1, path);
      assert path(t - 1 + 1) == path(t);
    }
  }

  lemma WalkIsPath(t: nat)
    requires t < 24
    ensures Walk(t) == PathAt(t)
  {
    forall s: nat | s < 23
      ensures PathAt(s + 1) == Position(PathAt(s).y, (2 * PathAt(s).x + 3 * PathAt(s).y) % 5)
    {
      PathStep(s);
    }
    WalkIs(t, (s: nat) => PathAt(s));
  }

  predicate OnPath(t: nat) {
    At(RHO_OFFSETS, PathAt(t).x, PathAt(t).y) == (t + 1) * (t + 2) / 2 % 64
  }

  lemma FirstOffsets(t: nat)
    requires t < 6
    ensures OnPath(t)
  {
  }

  lemma SecondOffsets(t: nat)
    requires 6 <= t < 12
    ensures OnPath(t)
  {
  }

  lemma ThirdOffsets(t: nat)
    requires 12 <= t < 18
    ensures OnPath(t)
  {
  }

  lemma LastOffsets(t: nat)
    requires 18 <= t < 24
    ensures OnPath(t)
  {
  }

  lemma OffsetOnPath(t: nat)
    requires t < 24
    ensures OnPath(t)
  {
    if t < 6 { FirstOffsets(t); }
    else if t < 12 { SecondOffsets(t); }
    else if t < 18 { ThirdOffsets(t); }
    else { LastOffsets(t); }
  }

  /** The step at which the walk is on lane i. */
  function StepOf(i: nat): (t: nat)
    ensures t < 24
  {
    match i
    case 1 => 0
    case 2 => 18
    case 3 => 6
    case 4 => 12
    case 5 => 7
    case 6 => 23
    case 7 => 2
    case 8 => 9
    case 9 => 22
    case 10 => 1
    case 11 => 3
    case 12 => 17
    case 13 => 16
    case 14 => 20
    case 15 => 13
    case 16 => 8
    case 17 => 4
    case 18 => 5
    case 19 => 15
    case 20 => 19
    case 21 => 10
    case 22 => 21
    case 23 => 14
    case _ => 11
  }

  lemma PathCovers(i: nat)
    requires 0 < i < 25
    ensures PathAt(StepOf(i)) == Position(i % 5, i / 5)
  {
  }

  /** The table holds what section 3.2.2 computes: lane (0, 0) stays, and every other
      lane is on the walk and rotates by (t + 1)(t + 2) / 2 at its step t. */
  lemma RhoOffsetsFollowTheWalk(i: nat)
    requires i < 25
    ensures i == 0 ==> RHO_OFFSETS[i] == 0
    ensures i > 0 ==> exists t: nat :: t < 24 && Walk(t) == Position(i % 5, i / 5)
                                    && RHO_OFFSETS[i] == (t + 1) * (t + 2) / 2 % 64
  {
    if i > 0 {
      var t := StepOf(i);
      PathCovers(i);
      WalkIsPath(t);
      OffsetOnPath(t);
    }
  }
}
