/** Single bits of 64-bit words. An index is a bv6, so its arithmetic is modulo 64. */
module LaneBits {
  type Index = bv6

  /** Bit z, the low bit being bit 0. */
  function BitAt(v: bv64, z: Index): bool { (v >> (z as bv64)) & 1 == 1 }

  function Xor(a: bool, b: bool): bool { a != b }

  lemma XorBit(a: bv64, b: bv64, z: Index)
    ensures BitAt(a ^ b, z) == Xor(BitAt(a, z), BitAt(b, z))
  {
  }

  lemma NotAndBit(a: bv64, b: bv64, z: Index)
    ensures BitAt(!a & b, z) == (Xor(BitAt(a, z), true) && BitAt(b, z))
  {
  }

  lemma FirstTurns(v: bv64, z: Index)
    ensures BitAt(v.RotateLeft(1), z) == BitAt(v, z - 1) && BitAt(v.RotateLeft(62), z) == BitAt(v, z - 62)
    ensures BitAt(v.RotateLeft(28), z) == BitAt(v, z - 28) && BitAt(v.RotateLeft(27), z) == BitAt(v, z - 27)
  {
  }

  lemma SecondTurns(v: bv64, z: Index)
    ensures BitAt(v.RotateLeft(36), z) == BitAt(v, z - 36) && BitAt(v.RotateLeft(44), z) == BitAt(v, z - 44)
    ensures BitAt(v.RotateLeft(6), z) == BitAt(v, z - 6) && BitAt(v.RotateLeft(55), z) == BitAt(v, z - 55)
  {
  }

  lemma ThirdTurns(v: bv64, z: Index)
    ensures BitAt(v.RotateLeft(20), z) == BitAt(v, z - 20) && BitAt(v.RotateLeft(3), z) == BitAt(v, z - 3)
    ensures BitAt(v.RotateLeft(10), z) == BitAt(v, z - 10) && BitAt(v.RotateLeft(43), z) == BitAt(v, z - 43)
  {
  }

  lemma FourthTurns(v: bv64, z: Index)
    ensures BitAt(v.RotateLeft(25), z) == BitAt(v, z - 25) && BitAt(v.RotateLeft(39), z) == BitAt(v, z - 39)
    ensures BitAt(v.RotateLeft(41), z) == BitAt(v, z - 41) && BitAt(v.RotateLeft(45), z) == BitAt(v, z - 45)
  {
  }

  lemma FifthTurns(v: bv64, z: Index)
    ensures BitAt(v.RotateLeft(15), z) == BitAt(v, z - 15) && BitAt(v.RotateLeft(21), z) == BitAt(v, z - 21)
    ensures BitAt(v.RotateLeft(8), z) == BitAt(v, z - 8) && BitAt(v.RotateLeft(18), z) == BitAt(v, z - 18)
  {
  }

  lemma SixthTurns(v: bv64, z: Index)
    ensures BitAt(v.RotateLeft(2), z) == BitAt(v, z - 2) && BitAt(v.RotateLeft(61), z) == BitAt(v, z - 61)
    ensures BitAt(v.RotateLeft(56), z) == BitAt(v, z - 56) && BitAt(v.RotateLeft(14), z) == BitAt(v, z - 14)
  {
  }
}
