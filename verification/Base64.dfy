/** The SDK's base64 codec (packages/sdk/src/index.ts, toBase64 and fromBase64)
    against section 4 of RFC 4648. On bytes, shifts and masks are divisions and
    remainders, and an or of disjoint bits is a sum. */
module Base64 {
  import opened Bytes
  import opened Options

  type Sextet = x: int | 0 <= x < 64

  // ---- The alphabet -------------------------------------------------------

  /** Table 1: A-Z, a-z, 0-9, +, /. */
  function CharOf(s: Sextet): char {
    if s < 26 then ('A' as int + s) as char
    else if s < 52 then ('a' as int + s - 26) as char
    else if s < 62 then ('0' as int + s - 52) as char
    else if s == 62 then '+'
    else '/'
  }

  /** BASE64_ALPHABET.indexOf, none for a character outside it. */
  function IndexOf(c: char): (r: Option<Sextet>)
    ensures r.Some? ==> CharOf(r.value) == c
  {
    if 'A' <= c <= 'Z' then Some(c as int - 'A' as int)
    else if 'a' <= c <= 'z' then Some(c as int - 'a' as int + 26)
    else if '0' <= c <= '9' then Some(c as int - '0' as int + 52)
    else if c == '+' then Some(62)
    else if c == '/' then Some(63)
    else None
  }

  lemma IndexInverts(s: Sextet)
    ensures IndexOf(CharOf(s)) == Some(s)
  {
  }

  const UPPER_CASE: string := "ABCDEFGHIJKLMNOPQRSTUVWXYZ"
  const LOWER_CASE: string := "abcdefghijklmnopqrstuvwxyz"
  const DIGITS: string := "0123456789"
  const ALPHABET: string := UPPER_CASE + LOWER_CASE + DIGITS + "+/"

  lemma LettersAre(n: nat)
    requires n < 26
    ensures |UPPER_CASE| == |LOWER_CASE| == 26
    ensures UPPER_CASE[n] == ('A' as int + n) as char && LOWER_CASE[n] == ('a' as int + n) as char
  {
  }

  lemma DigitsAre(n: nat)
    requires n < 10
    ensures |DIGITS| == 10 && DIGITS[n] == ('0' as int + n) as char
  {
  }

  lemma Concatenated(a: string, b: string, c: string, d: string, i: nat)
    requires i < |a| + |b| + |c| + |d|
    ensures (a + b + c + d)[i] == if i < |a| then a[i] else if i < |a| + |b| then b[i - |a|]
                                  else if i < |a| + |b| + |c| then c[i - |a| - |b|] else d[i - |a| - |b| - |c|]
  {
  }

  /** The table, read out: every sextet has its character. */
  lemma AlphabetIsTheTable(s: Sextet)
    ensures |ALPHABET| == 64 && CharOf(s) == ALPHABET[s]
  {
    LettersAre(0);
    DigitsAre(0);
    Concatenated(UPPER_CASE, LOWER_CASE, DIGITS, "+/", s);
    if s < 26 {
      LettersAre(s);
    } else if s < 52 {
      LettersAre(s - 26);
    } else if s < 62 {
      DigitsAre(s - 52);
    }
  }

  /** And no other character stands for one. */
  lemma OnlyTheTable(c: char)
    ensures IndexOf(c).Some? <==> c in ALPHABET
  {
    AlphabetIsTheTable(0);
    if IndexOf(c).Some? { AlphabetIsTheTable(IndexOf(c).value); }
    if c in ALPHABET {
      var k :| 0 <= k < 64 && ALPHABET[k] == c;
      AlphabetIsTheTable(k);
      IndexInverts(k);
    }
  }

  /** The input without what is not in the alphabet, as sextets. */
  function Cleaned(value: string): seq<Sextet> {
    if value == [] then []
    else
      var rest := Cleaned(value[..|value| - 1]);
      match IndexOf(value[|value| - 1])
      case None => rest
      case Some(s) => rest + [s]
  }

  // ---- RFC 4648 section 4 -------------------------------------------------

  /** A 24-bit group, and its four 6-bit groups from the left. */
  function Group(b0: byte, b1: byte, b2: byte): nat { 65536 * b0 + 256 * b1 + b2 }
  function Part(g: nat, k: nat): Sextet
    requires k < 4
  {
    match k
    case 0 => g / 262144 % 64
    case 1 => g / 4096 % 64
    case 2 => g / 64 % 64
    case _ => g % 64
  }

  /** Three bytes are four characters; a last byte or two is padded with zero bits to
      whole 6-bit groups and with `=` to four characters. */
  function Encoded(b: bytes): string {
    if |b| == 0 then []
    else if |b| == 1 then
      var g := Group(b[0], 0, 0);
      [CharOf(Part(g, 0)), CharOf(Part(g, 1)), '=', '=']
    else if |b| == 2 then
      var g := Group(b[0], b[1], 0);
      [CharOf(Part(g, 0)), CharOf(Part(g, 1)), CharOf(Part(g, 2)), '=']
    else
      var g := Group(b[0], b[1], b[2]);
      [CharOf(Part(g, 0)), CharOf(Part(g, 1)), CharOf(Part(g, 2)), CharOf(Part(g, 3))] + Encoded(b[3..])
  }

  lemma Parts01(b0: byte, b1: byte, b2: byte)
    ensures Part(Group(b0, b1, b2), 0) == b0 / 4
    ensures Part(Group(b0, b1, b2), 1) == Join(b0 % 4, 16, b1 / 16)
  {
    var g := Group(b0, b1, b2);
    Quotient(g, 262144, b0 / 4, 65536 * (b0 % 4) + 256 * b1 + b2);
    Quotient(g, 4096, 16 * b0 + b1 / 16, 256 * (b1 % 16) + b2);
    Quotient(16 * b0 + b1 / 16, 64, b0 / 4, Join(b0 % 4, 16, b1 / 16));
    Quotient(b0 / 4, 64, 0, b0 / 4);
  }

  lemma Quotient(g: int, d: nat, q: int, r: int)
    requires 0 <= r < d && g == d * q + r
    ensures g / d == q && g % d == r
  {
    assert g == d * (g / d) + g % d;
    var k := q - g / d;
    assert d * k == g % d - r;
    Multiples(d, k);
  }

  lemma Multiples(d: nat, k: int)
    ensures k >= 1 ==> d * k >= d
    ensures k <= -1 ==> d * k <= 0 - d
  {
    if k >= 1 { assert d * k == d * (k - 1) + d; }
    if k <= -1 { assert d * k == d * (k + 1) - d; }
  }

  lemma LowBits(b0: byte, b1: byte, b2: byte)
    ensures Group(b0, b1, b2) / 64 == 1024 * b0 + 4 * b1 + b2 / 64
    ensures Group(b0, b1, b2) % 64 == b2 % 64
  {
    assert Group(b0, b1, b2) == 64 * (1024 * b0 + 4 * b1 + b2 / 64) + b2 % 64;
  }

  lemma Parts23(b0: byte, b1: byte, b2: byte)
    ensures Part(Group(b0, b1, b2), 2) == Join(b1 % 16, 4, b2 / 64)
    ensures Part(Group(b0, b1, b2), 3) == b2 % 64
  {
    LowBits(b0, b1, b2);
    var q := 1024 * b0 + 4 * b1 + b2 / 64;
    Quotient(q, 64, 16 * b0 + b1 / 16, Join(b1 % 16, 4, b2 / 64));
  }

  /** High bits moved up, low bits put in below them. */
  function Join(high: int, shift: int, low: int): int { high * shift + low }

  function At(b: bytes, i: nat): byte { if i < |b| then b[i] else 0 }

  /** The four characters the loop appends for the group at the head of b. */
  function Turn(b: bytes): string {
    [CharOf(At(b, 0) / 4), CharOf(Join(At(b, 0) % 4, 16, At(b, 1) / 16)),
     if 1 < |b| then CharOf(Join(At(b, 1) % 16, 4, At(b, 2) / 64)) else '=',
     if 2 < |b| then CharOf(At(b, 2) % 64) else '=']
  }

  lemma EncodedTurn(b: bytes)
    requires b != []
    ensures Encoded(b) == Turn(b) + (if |b| > 3 then Encoded(b[3..]) else [])
  {
    Parts01(At(b, 0), At(b, 1), At(b, 2));
    Parts23(At(b, 0), At(b, 1), At(b, 2));
    if |b| == 3 {
      assert b[3..] == [];
    }
  }

  /** The characters of what is left from byte i on. */
  function EncodedFrom(b: bytes, i: nat): string { if i < |b| then Encoded(b[i..]) else [] }

  lemma TurnFrom(b: bytes, i: nat, b0: byte, b1: byte, b2: byte)
    requires i < |b| && b0 == b[i]
    requires b1 == (if i + 1 < |b| then b[i + 1] else 0) && b2 == (if i + 2 < |b| then b[i + 2] else 0)
    ensures Turn(b[i..]) ==
            [CharOf(b0 / 4), CharOf(Join(b0 % 4, 16, b1 / 16)),
             if i + 1 < |b| then CharOf(Join(b1 % 16, 4, b2 / 64)) else '=',
             if i + 2 < |b| then CharOf(b2 % 64) else '=']
    ensures EncodedFrom(b, i) == Turn(b[i..]) + EncodedFrom(b, i + 3)
  {
    var rest := b[i..];
    assert At(rest, 0) == b0 && At(rest, 1) == b1 && At(rest, 2) == b2;
    EncodedTurn(rest);
    assert i + 3 < |b| ==> rest[3..] == b[i + 3..];
  }

  lemma Append(before: string, c0: char, c1: char, c2: char, c3: char, tail: string)
    ensures before + [c0] + [c1] + [c2] + [c3] + tail == before + ([c0, c1, c2, c3] + tail)
  {
  }

  /** The loop's body: four characters behind the ones before. */
  method AppendTurn(b: bytes, i: nat, before: string) returns (out: string)
    requires i < |b|
    ensures out + EncodedFrom(b, i + 3) == before + EncodedFrom(b, i)
  {
    var b0 := b[i];
    var b1 := if i + 1 < |b| then b[i + 1] else 0;
    var b2 := if i + 2 < |b| then b[i + 2] else 0;
    var c0 := CharOf(b0 / 4);
    var c1 := CharOf(Join(b0 % 4, 16, b1 / 16));
    var c2 := if i + 1 < |b| then CharOf(Join(b1 % 16, 4, b2 / 64)) else '=';
    var c3 := if i + 2 < |b| then CharOf(b2 % 64) else '=';
    out := before + [c0] + [c1] + [c2] + [c3];
    TurnFrom(b, i, b0, b1, b2);
    Append(before, c0, c1, c2, c3, EncodedFrom(b, i + 3));
  }

  /** toBase64: three bytes a turn, absent ones read as zero and print as `=`. */
  method ToBase64(b: bytes) returns (out: string)
    ensures out == Encoded(b)
  {
    out := [];
    var i: nat := 0;
    ghost var all := EncodedFrom(b, 0);
    assert b[0..] == b;
    assert out + all == all;
    while i < |b|
      invariant out + EncodedFrom(b, i) == all
    {
      out := AppendTurn(b, i, out);
      i := i + 3;
    }
    assert out + [] == out;
  }

  // ---- Decoding -----------------------------------------------------------

  /** Sextets to bytes: four to three, a last three to two, a last two to one, and a
      last single one to nothing. */
  function Decoded(s: seq<Sextet>): bytes {
    if |s| < 2 then []
    else if |s| == 2 then [Join(s[0], 4, s[1] / 16)]
    else if |s| == 3 then [Join(s[0], 4, s[1] / 16), Join(s[1] % 16, 16, s[2] / 4)]
    else
      [Join(s[0], 4, s[1] / 16), Join(s[1] % 16, 16, s[2] / 4), Join(s[2] % 4, 64, s[3])] + Decoded(s[4..])
  }

  /** How many bytes the decoder's loop writes for n sextets. */
  function Written(n: nat): nat {
    if n == 0 then 0 else if n <= 2 then 1 else if n == 3 then 2 else 3 + Written(n - 4)
  }

  /** The buffer the decoder sizes: floor(n * 3 / 4). */
  function BufferSize(n: nat): nat { n * 3 / 4 }

  lemma FourMore(n: nat)
    requires n >= 4
    ensures BufferSize(n) == BufferSize(n - 4) + 3 && n % 4 == (n - 4) % 4
  {
  }

  lemma {:induction false} WrittenIs(n: nat)
    ensures Written(n) == if n % 4 == 1 then BufferSize(n) + 1 else BufferSize(n)
  {
    if n >= 4 {
      WrittenIs(n - 4);
      FourMore(n);
    }
  }

  lemma {:induction false} DecodedLength(s: seq<Sextet>)
    ensures |Decoded(s)| == BufferSize(|s|)
  {
    if |s| >= 4 {
      DecodedLength(s[4..]);
      FourMore(|s|);
    }
  }

  /** The computed buffer holds everything the loop writes, and is exactly filled,
      unless one sextet is left over; then the loop writes one byte past its end. */
  lemma BufferSufficesIff(n: nat)
    ensures Written(n) <= BufferSize(n) <==> n % 4 != 1
    ensures n % 4 != 1 ==> Written(n) == BufferSize(n)
  {
    WrittenIs(n);
  }

  /** An element store of a typed array: past the end it does nothing. */
  method Store(out: array<byte>, o: nat, v: byte)
    modifies out
    ensures o < out.Length ==> out[..o + 1] == old(out[..o]) + [v]
    ensures o >= out.Length ==> out[..] == old(out[..])
  {
    if o < out.Length {
      out[o] := v;
    }
  }

  /** (c0 << 2) | (c1 >> 4) as a byte; a missing c1 is -1. */
  function FirstByte(c0: Sextet, c1: int): byte
    requires c1 < 64
  {
    if c1 < 0 then 255 else Join(c0, 4, c1 / 16)
  }

  function DecodedFrom(s: seq<Sextet>, i: nat): bytes { if i < |s| then Decoded(s[i..]) else [] }

  /** The bytes of the group at i. */
  function GroupBytes(s: seq<Sextet>, i: nat): bytes {
    var n := |s| - i;
    if n < 2 then []
    else if n == 2 then [Join(s[i], 4, s[i + 1] / 16)]
    else if n == 3 then [Join(s[i], 4, s[i + 1] / 16), Join(s[i + 1] % 16, 16, s[i + 2] / 4)]
    else [Join(s[i], 4, s[i + 1] / 16), Join(s[i + 1] % 16, 16, s[i + 2] / 4), Join(s[i + 2] % 4, 64, s[i + 3])]
  }

  lemma GroupDecoded(s: seq<Sextet>, i: nat)
    requires i < |s|
    ensures DecodedFrom(s, i) == GroupBytes(s, i) + DecodedFrom(s, i + 4)
  {
    var rest := s[i..];
    if |rest| >= 4 {
      assert rest[4..] == s[i + 4..];
      assert Decoded(rest[4..]) == DecodedFrom(s, i + 4);
    } else {
      assert GroupBytes(s, i) + [] == GroupBytes(s, i);
    }
  }

  /** One group of up to four sextets, stored from o on. */
  method StoreGroup(out: array<byte>, s: seq<Sextet>, i: nat, o: nat) returns (next: nat)
    requires i < |s| && o + BufferSize(|s| - i) == out.Length
    modifies out
    ensures next == o + Written(if |s| - i < 4 then |s| - i else 4)
    ensures |s| - i != 1 ==> next <= out.Length && out[..next] == old(out[..o]) + GroupBytes(s, i)
    ensures |s| - i == 1 ==> out[..] == old(out[..])
  {
    ghost var before := out[..o];
    var c0 := s[i];
    var c1 := if i + 1 < |s| then s[i + 1] else -1;
    var c2 := if i + 2 < |s| then s[i + 2] else -1;
    var c3 := if i + 3 < |s| then s[i + 3] else -1;
    Store(out, o, FirstByte(c0, c1));
    next := o + 1;
    if c2 >= 0 {
      Store(out, next, Join(c1 % 16, 16, c2 / 4));
      next := next + 1;
    }
    if c3 >= 0 {
      Store(out, next, Join(c2 % 4, 64, c3));
      next := next + 1;
    }
  }

  function Left(n: nat, i: nat): nat { if i < n then n - i else 0 }

  lemma NextGroup(n: nat, i: nat)
    requires i < n
    ensures Written(n - i) == Written(if n - i < 4 then n - i else 4) + Written(Left(n, i + 4))
    ensures n - i != 1 ==> BufferSize(n - i) == Written(if n - i < 4 then n - i else 4) + BufferSize(Left(n, i + 4))
  {
    if n - i >= 4 {
      assert BufferSize(n - i) == 3 + BufferSize(n - i - 4);
    }
  }

  /** fromBase64: the bytes, and how far the loop's offset ran. */
  method FromBase64(value: string) returns (r: bytes, written: nat)
    ensures r == Decoded(Cleaned(value))
    ensures written == Written(|Cleaned(value)|)
  {
    var clean := Cleaned(value);
    var out := new byte[BufferSize(|clean|)](_ => 0);
    var o: nat, i: nat := 0, 0;
    ghost var over := false;
    ghost var all := DecodedFrom(clean, 0);
    assert clean[0..] == clean;
    assert out[..o] + all == all;
    while i < |clean|
      invariant o + Written(Left(|clean|, i)) == Written(|clean|)
      invariant !over ==> o + BufferSize(Left(|clean|, i)) == out.Length && out[..o] + DecodedFrom(clean, i) == all
      invariant over ==> i >= |clean| && o == out.Length + 1 && out[..] == all
    {
      NextGroup(|clean|, i);
      GroupDecoded(clean, i);
      Assoc(out[..o], GroupBytes(clean, i), DecodedFrom(clean, i + 4));
      if |clean| - i == 1 {
        assert out[..o] == out[..] == out[..] + [];
        over := true;
      }
      o := StoreGroup(out, clean, i, o);
      i := i + 4;
    }
    written := o;
    r := if o <= out.Length then out[..o] else out[..];
    assert out[..] + [] == out[..];
  }

  // ---- The round trip -----------------------------------------------------

  lemma {:induction false} CleanedAppend(a: string, b: string)
    ensures Cleaned(a + b) == Cleaned(a) + Cleaned(b)
  {
    if b == [] {
      assert a + b == a;
    } else {
      var n := |b| - 1;
      assert (a + b)[..|a + b| - 1] == a + b[..n];
      CleanedAppend(a, b[..n]);
    }
  }

  lemma CleanedChars(c0: Sextet, c1: Sextet)
    ensures Cleaned([CharOf(c0), CharOf(c1)]) == [c0, c1]
    ensures Cleaned("==") == [] && Cleaned("=") == []
    ensures Cleaned([CharOf(c0)]) == [c0]
  {
    IndexInverts(c0);
    IndexInverts(c1);
    var s := [CharOf(c0), CharOf(c1)];
    assert s[..1] == [CharOf(c0)];
    assert [CharOf(c0)][..0] == [];
    assert Cleaned([CharOf(c0)]) == [] + [c0];
    assert Cleaned(s) == [c0] + [c1];
    assert "=="[..1] == "=" && "="[..0] == [];
  }

  lemma CleanedTurn(c: seq<Sextet>, pad: string)
    requires |c| <= 4 && pad in {"", "=", "=="}
    ensures Cleaned(CharsOf(c) + pad) == c
  {
    CleanedAppend(CharsOf(c), pad);
    CleanedChars(0, 0);
    CleanedText(c);
    assert c + [] == c;
  }

  function CharsOf(c: seq<Sextet>): string { seq(|c|, i requires 0 <= i < |c| => CharOf(c[i])) }

  lemma {:induction false} CleanedText(c: seq<Sextet>)
    ensures Cleaned(CharsOf(c)) == c
  {
    if c != [] {
      var n := |c| - 1;
      CleanedText(c[..n]);
      IndexInverts(c[n]);
      assert CharsOf(c)[..n] == CharsOf(c[..n]);
      assert c == c[..n] + [c[n]];
    }
  }

  /** The sextets of the group at the head of b, without padding. */
  function TurnSextets(b: bytes): (c: seq<Sextet>)
    requires b != []
    ensures |c| == if |b| < 3 then |b| + 1 else 4
  {
    var (b0, b1, b2) := (At(b, 0), At(b, 1), At(b, 2));
    if |b| == 1 then [b0 / 4, Join(b0 % 4, 16, 0)]
    else if |b| == 2 then [b0 / 4, Join(b0 % 4, 16, b1 / 16), Join(b1 % 16, 4, 0)]
    else [b0 / 4, Join(b0 % 4, 16, b1 / 16), Join(b1 % 16, 4, b2 / 64), b2 % 64]
  }

  lemma TurnText(b: bytes)
    requires b != []
    ensures Cleaned(Turn(b)) == TurnSextets(b)
  {
    var c := TurnSextets(b);
    var pad := if |b| == 1 then "==" else if |b| == 2 then "=" else "";
    assert Turn(b) == CharsOf(c) + pad;
    CleanedTurn(c, pad);
  }

  lemma SextetsBack(b0: byte, b1: byte, b2: byte)
    ensures Join(b0 / 4, 4, Join(b0 % 4, 16, b1 / 16) / 16) == b0
    ensures Join(Join(b0 % 4, 16, b1 / 16) % 16, 16, Join(b1 % 16, 4, b2 / 64) / 4) == b1
    ensures Join(Join(b1 % 16, 4, b2 / 64) % 4, 64, b2 % 64) == b2
  {
  }

  /** The sextets a text carries, group by group. */
  function SextetsOf(b: bytes): seq<Sextet> {
    if |b| == 0 then [] else TurnSextets(b) + (if |b| > 3 then SextetsOf(b[3..]) else [])
  }

  lemma {:induction false} EncodedCarries(b: bytes)
    ensures Cleaned(Encoded(b)) == SextetsOf(b)
    decreases |b|
  {
    if b != [] {
      EncodedTurn(b);
      TurnText(b);
      if |b| > 3 {
        EncodedCarries(b[3..]);
        CleanedAppend(Turn(b), Encoded(b[3..]));
      } else {
        assert Turn(b) + [] == Turn(b);
        assert TurnSextets(b) + [] == TurnSextets(b);
      }
    }
  }

  lemma {:induction false} SextetsCount(b: bytes)
    ensures |SextetsOf(b)| % 4 != 1
    decreases |b|
  {
    if |b| > 3 {
      SextetsCount(b[3..]);
      var n := |SextetsOf(b[3..])|;
      assert |SextetsOf(b)| == n + 4;
      assert (n + 4) % 4 == n % 4;
    }
  }

  lemma FourAtHead(x0: Sextet, x1: Sextet, x2: Sextet, x3: Sextet, tail: seq<Sextet>, b0: byte, b1: byte, b2: byte)
    requires Join(x0, 4, x1 / 16) == b0 && Join(x1 % 16, 16, x2 / 4) == b1 && Join(x2 % 4, 64, x3) == b2
    ensures GroupBytes([x0, x1, x2, x3] + tail, 0) == [b0, b1, b2]
  {
    var c := [x0, x1, x2, x3] + tail;
    assert c[0] == x0 && c[1] == x1 && c[2] == x2 && c[3] == x3;
  }

  lemma GroupOfThree(b0: byte, b1: byte, b2: byte, tail: seq<Sextet>)
    ensures GroupBytes([b0 / 4, Join(b0 % 4, 16, b1 / 16), Join(b1 % 16, 4, b2 / 64), b2 % 64] + tail, 0)
            == [b0, b1, b2]
  {
    SextetsBack(b0, b1, b2);
    FourAtHead(b0 / 4, Join(b0 % 4, 16, b1 / 16), Join(b1 % 16, 4, b2 / 64), b2 % 64, tail, b0, b1, b2);
  }

  lemma GroupOfTwo(b0: byte, b1: byte)
    ensures GroupBytes([b0 / 4, Join(b0 % 4, 16, b1 / 16), Join(b1 % 16, 4, 0)], 0) == [b0, b1]
  {
    SextetsBack(b0, b1, 0);
  }

  lemma GroupOfOne(b0: byte)
    ensures GroupBytes([b0 / 4, Join(b0 % 4, 16, 0)], 0) == [b0]
  {
    SextetsBack(b0, 0, 0);
  }

  /** The group at the head comes back, whole or cut short. */
  lemma GroupBack(b: bytes, tail: seq<Sextet>)
    requires b != [] && (|b| < 3 ==> tail == [])
    ensures GroupBytes(TurnSextets(b) + tail, 0) == if |b| < 3 then b else b[..3]
  {
    if |b| >= 3 {
      GroupOfThree(b[0], b[1], b[2], tail);
      assert b[..3] == [b[0], b[1], b[2]];
    } else {
      assert TurnSextets(b) + tail == TurnSextets(b);
      if |b| == 2 { GroupOfTwo(b[0], b[1]); } else { GroupOfOne(b[0]); }
    }
  }

  lemma {:induction false} SextetsDecode(b: bytes)
    ensures Decoded(SextetsOf(b)) == b
    decreases |b|
  {
    if b != [] {
      var tail := if |b| > 3 then SextetsOf(b[3..]) else [];
      var c := TurnSextets(b) + tail;
      GroupBack(b, tail);
      GroupDecoded(c, 0);
      assert c[0..] == c;
      if |b| > 3 {
        SextetsDecode(b[3..]);
        assert c[4..] == tail;
        assert b == b[..3] + b[3..];
      } else {
        assert DecodedFrom(c, 4) == [];
        assert b[..|b|] == b;
      }
    }
  }

  /** The decoder gives back what was encoded, for every byte string. */
  lemma DecodeInvertsEncode(b: bytes)
    ensures Decoded(Cleaned(Encoded(b))) == b
  {
    EncodedCarries(b);
    SextetsDecode(b);
  }

  /** On the encoder's output the decoder's buffer is exactly the bytes. */
  lemma BufferFitsEncoded(b: bytes)
    ensures var n := |Cleaned(Encoded(b))|; Written(n) == BufferSize(n) == |b|
  {
    EncodedCarries(b);
    SextetsDecode(b);
    SextetsCount(b);
    DecodedLength(SextetsOf(b));
    WrittenIs(|SextetsOf(b)|);
  }
}
