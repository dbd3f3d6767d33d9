/** Decoding an on-chain Burned log (internal/bridge/burnlog.go). */
module BurnLog {
  import opened Bytes

  const WORD: nat := 32
  const TWO_256: nat := 0x1_0000_0000_0000_0000_0000_0000_0000_0000_0000_0000_0000_0000_0000_0000_0000_0000

  datatype LogError = WrongTopic | Malformed
  datatype Result<+T> = Ok(value: T) | Err(error: LogError)

  type Word = b: bytes | |b| == WORD witness seq(WORD, _ => 0)
  datatype EthLog = EthLog(topics: seq<Word>, data: GoBytes, txHash: bytes, logIndex: uint64)
  datatype DecodedBurn = DecodedBurn(burner: bytes, recipient: bytes, rawRecipient: bytes, amount: nat, id: bytes)

  /** A Go byte slice is no longer than an int. */
  type GoBytes = b: bytes | |b| < TWO_63

  /** ABI-decodes (string, uint256). The additions are uint64 additions; that every
      slice below is in bounds is what the guards before it are for. */
  function DecodeStringUint(data: GoBytes): Result<(bytes, nat)> {
    if |data| < 3 * WORD || |data| % WORD != 0 then Err(Malformed)
    else
      var off := FromBigEndian(data[..WORD]);
      var amount := FromBigEndian(data[WORD..2 * WORD]);
      if off >= TWO_64 then Err(Malformed)
      else if off % WORD != 0 || off > |data| - WORD then Err(Malformed)
      else
        var start := (off + WORD) % TWO_64;
        var strLen := FromBigEndian(data[off..start]);
        if strLen >= TWO_64 || strLen > |data| - start then Err(Malformed)
        else
          var s := data[start..(start + strLen) % TWO_64];
          if 0 in s then Err(Malformed) else Ok((s, amount))
  }

  /** Zero bytes up to the next word boundary. */
  function Padding(n: nat): bytes {
    seq((WORD - n % WORD) % WORD, _ => 0)
  }

  /** The canonical ABI encoding of (string, uint256) as event data: the head holds
      the tail's offset and the amount, the tail the length and the padded bytes. */
  function AbiEncode(s: bytes, amount: nat): bytes {
    var amountWord := BigEndian(amount, WORD);
    BigEndian(2 * |amountWord|, WORD) + amountWord + BigEndian(|s|, WORD) + s + Padding(|s|)
  }

  lemma {:induction false} PowSum(m: nat, n: nat)
    ensures Pow256(m + n) == Pow256(m) * Pow256(n)
    decreases m
  {
    if m > 0 {
      PowSum(m - 1, n);
      Regroup(256, Pow256(m - 1), Pow256(n));
    }
  }

  lemma Regroup(a: nat, b: nat, c: nat)
    ensures a * (b * c) == (a * b) * c
  {
  }

  lemma WordPower(n: nat)
    requires n == WORD
    ensures Pow256(n) == TWO_256
  {
    PowersOf256();
    var k := n / 4;
    PowSum(k, k);
    PowSum(k + k, k + k);
  }

  /** What decodes is what the ABI reader accepts, for any data at all: whole words, the
      first the byte position of a string whose length word and bytes all lie inside, the
      second the amount; and no NUL byte in the string. The uint64 additions never wrap. */
  lemma DecodesIff(data: GoBytes, s: bytes, amount: nat)
    ensures DecodeStringUint(data) == Ok((s, amount)) <==>
              && |data| >= 96 && |data| % 32 == 0 && FromBigEndian(data[32..64]) == amount
              && StringAt(data, FromBigEndian(data[..32]), s)
  {
    if |data| >= 3 * WORD && |data| % WORD == 0 {
      var at := FromBigEndian(data[..WORD]);
      if at % WORD == 0 && at <= |data| - WORD {
        assert (at + WORD) % TWO_64 == at + WORD;
        var n := FromBigEndian(data[at..at + WORD]);
        if n <= |data| - (at + WORD) { assert (at + WORD + n) % TWO_64 == at + WORD + n; }
      }
    }
  }

  /** A string the ABI way: its length in a word of 32 bytes, its bytes behind that. */
  predicate StringAt(data: bytes, at: nat, s: bytes) {
    && at % 32 == 0 && at + 32 <= |data| && FromBigEndian(data[at..at + 32]) == |s| && at + 32 + |s| <= |data|
    && data[at + 32..at + 32 + |s|] == s && 0 !in s
  }

  lemma DecodesLayout(data: GoBytes, s: bytes, amount: nat)
    requires |data| >= 3 * WORD && |data| % WORD == 0 && |s| <= |data| - 3 * WORD
    requires FromBigEndian(data[..WORD]) == 2 * WORD
    requires FromBigEndian(data[WORD..2 * WORD]) == amount
    requires FromBigEndian(data[2 * WORD..3 * WORD]) == |s|
    requires data[3 * WORD..3 * WORD + |s|] == s
    ensures DecodeStringUint(data) == if 0 in s then Err(Malformed) else Ok((s, amount))
  {
  }

  lemma Slices(w0: bytes, w1: bytes, w2: bytes, s: bytes, pad: bytes, n: nat)
    requires |w0| == |w1| == |w2| == n
    ensures var data := w0 + w1 + w2 + s + pad;
            data[..n] == w0 && data[n..2 * n] == w1 && data[2 * n..3 * n] == w2 && data[3 * n..3 * n + |s|] == s
  {
  }

  lemma DecodesWords(w0: bytes, w1: bytes, w2: bytes, s: bytes, pad: bytes, n: nat, amount: nat)
    requires |w0| == |w1| == |w2| == n == WORD && |pad| == (n - |s| % n) % n
    requires |w0 + w1 + w2 + s + pad| < TWO_63
    requires FromBigEndian(w0) == 2 * n && FromBigEndian(w1) == amount && FromBigEndian(w2) == |s|
    ensures DecodeStringUint(w0 + w1 + w2 + s + pad) == if 0 in s then Err(Malformed) else Ok((s, amount))
  {
    Slices(w0, w1, w2, s, pad, n);
    DecodesLayout(w0 + w1 + w2 + s + pad, s, amount);
  }

  /** Decoding the canonical encoding gives the pair back, exactly when the string
      is free of NUL bytes; otherwise the log is refused. */
  lemma DecodesCanonical(s: bytes, amount: nat)
    requires amount < TWO_256 && |AbiEncode(s, amount)| < TWO_63
    ensures DecodeStringUint(AbiEncode(s, amount)) == if 0 in s then Err(Malformed) else Ok((s, amount))
  {
    var n := |BigEndian(amount, WORD)|;
    WordRoundTrip(2 * n, n);
    WordRoundTrip(|s|, n);
    WordRoundTrip(amount, n);
    DecodesWords(BigEndian(2 * n, n), BigEndian(amount, n), BigEndian(|s|, n), s, Padding(|s|), n, amount);
  }

  lemma WordRoundTrip(v: nat, n: nat)
    requires v < TWO_256 && n == WORD
    ensures FromBigEndian(BigEndian(v, n)) == v
  {
    WordPower(n);
    BigEndianRoundTrip(v, n);
  }

  // ---------------------------------------------------------------- log ids

  function Decimal(n: nat): (d: bytes)
    ensures d != [] && forall c :: c in d ==> 48 <= c <= 57
  {
    if n < 10 then [48 + n] else Decimal(n / 10) + [48 + n % 10]
  }

  function FromDecimal(d: bytes): int {
    if d == [] then 0 else FromDecimal(d[..|d| - 1]) * 10 + d[|d| - 1] - 48
  }

  lemma {:induction false} DecimalRoundTrip(n: nat)
    ensures FromDecimal(Decimal(n)) == n
  {
    var d := Decimal(n);
    if n >= 10 {
      DecimalRoundTrip(n / 10);
      assert d[..|d| - 1] == Decimal(n / 10);
    } else {
      assert d[..|d| - 1] == [];
    }
  }

  /** "txHash:logIndex" */
  function LogId(txHash: bytes, logIndex: nat): bytes {
    txHash + [58] + Decimal(logIndex)
  }

  lemma LastColon(t: bytes, d: bytes)
    requires forall c :: c in d ==> c != 58
    ensures var a := t + [58] + d;
            a[|t|] == 58 && forall j :: |t| < j < |a| ==> a[j] != 58
  {
    var a := t + [58] + d;
    forall j | |t| < j < |a| ensures a[j] != 58 {
      assert a[j] == d[j - |t| - 1];
      assert a[j] in d;
    }
  }

  /** The replay key names one log: no two (transaction, index) pairs share it. */
  lemma LogIdInjective(t: bytes, i: nat, t': bytes, i': nat)
    ensures LogId(t, i) == LogId(t', i') <==> t == t' && i == i'
  {
    var a, b := LogId(t, i), LogId(t', i');
    if a == b {
      LastColon(t, Decimal(i));
      LastColon(t', Decimal(i'));
      assert |t| == |t'|;
      assert t == a[..|t|] && t' == b[..|t|];
      assert Decimal(i) == a[|t| + 1..] && Decimal(i') == b[|t| + 1..];
      DecimalRoundTrip(i);
      DecimalRoundTrip(i');
    }
  }

  // ---------------------------------------------------------------- recipients

  /** One of unicode.IsSpace's characters in UTF-8, k bytes long, at position i. */
  predicate SpaceAt(s: bytes, i: int, k: nat)
    requires 0 <= i && i + k <= |s|
  {
    || (k == 1 && (9 <= s[i] <= 13 || s[i] == 32))
    || (k == 2 && s[i] == 0xC2 && (s[i + 1] == 0x85 || s[i + 1] == 0xA0))
    || (k == 3 && s[i] == 0xE1 && s[i + 1] == 0x9A && s[i + 2] == 0x80)
    || (k == 3 && s[i] == 0xE2 && s[i + 1] == 0x80
        && (0x80 <= s[i + 2] <= 0x8A || s[i + 2] == 0xA8 || s[i + 2] == 0xA9 || s[i + 2] == 0xAF))
    || (k == 3 && s[i] == 0xE2 && s[i + 1] == 0x81 && s[i + 2] == 0x9F)
    || (k == 3 && s[i] == 0xE3 && s[i + 1] == 0x80 && s[i + 2] == 0x80)
  }

  /** unicode.IsSpace. */
  predicate IsSpace(point: nat) {
    || 9 <= point <= 13 || point == 32 || point == 0x85 || point == 0xA0 || point == 0x1680
    || 0x2000 <= point <= 0x200A || point in {0x2028, 0x2029, 0x202F, 0x205F, 0x3000}
  }

  /** A code point below 0x10000 in UTF-8. */
  function Utf8(point: nat): bytes
    requires point < 0x1_0000
  {
    if point < 0x80 then [point]
    else if point < 0x800 then [0xC0 + point / 64, 0x80 + point % 64]
    else [0xE0 + point / 4096, 0x80 + point / 64 % 64, 0x80 + point % 64]
  }

  predicate Spells(s: bytes, i: int, k: nat, point: nat)
    requires 0 <= i && i + k <= |s|
  {
    point < 0x1_0000 && IsSpace(point) && s[i..i + k] == Utf8(point)
  }

  /** The spaces of two and of three bytes, from their bytes. */
  function TwoBytes(y: byte): (point: nat)
    ensures y in {0x85, 0xA0} ==> IsSpace(point) && point < 0x1_0000 && Utf8(point) == [0xC2, y]
  {
    y
  }

  function ThreeBytes(x: byte, y: byte, z: byte): (point: nat)
    ensures x == 0xE2 && y == 0x80 && (0x80 <= z <= 0x8A || z in {0xA8, 0xA9, 0xAF}) ==>
              IsSpace(point) && point < 0x1_0000 && Utf8(point) == [x, y, z]
    ensures (x, y, z) in {(0xE1, 0x9A, 0x80), (0xE2, 0x81, 0x9F), (0xE3, 0x80, 0x80)} ==>
              IsSpace(point) && point < 0x1_0000 && Utf8(point) == [x, y, z]
  {
    if x == 0xE1 then 0x1680 else if x == 0xE3 then 0x3000 else if y == 0x81 then 0x205F else 0x1F80 + z
  }

  /** White space is the UTF-8 of a code point Go calls a space. */
  lemma SpacesAreUnicodes(s: bytes, i: int, k: nat)
    requires 0 <= i && i + k <= |s|
    ensures SpaceAt(s, i, k) <==> exists point: nat :: Spells(s, i, k, point)
  {
    if SpaceAt(s, i, k) {
      var point := if k == 1 then s[i] else if k == 2 then TwoBytes(s[i + 1]) else ThreeBytes(s[i], s[i + 1], s[i + 2]);
      if k == 1 {
        assert s[i..i + k] == [s[i]];
      } else if k == 2 {
        assert s[i..i + k] == [s[i], s[i + 1]];
      } else {
        assert s[i..i + k] == [s[i], s[i + 1], s[i + 2]];
      }
      assert Spells(s, i, k, point);
    }
    forall point: nat | Spells(s, i, k, point) ensures SpaceAt(s, i, k) {
      SpelledIsSpace(s, i, k, point);
    }
  }

  lemma SpelledIsSpace(s: bytes, i: int, k: nat, point: nat)
    requires 0 <= i && i + k <= |s| && Spells(s, i, k, point)
    ensures SpaceAt(s, i, k)
  {
    var u := Utf8(point);
    assert |u| == k && forall j :: 0 <= j < k ==> s[i + j] == s[i..i + k][j] == u[j];
    if k == 1 {
      assert s[i] == u[0];
    } else if k == 2 {
      assert s[i] == u[0] && s[i + 1] == u[1];
    } else {
      assert s[i] == u[0] && s[i + 1] == u[1] && s[i + 2] == u[2];
    }
  }

  /** The length of the white-space character s starts with, 0 if it starts with
      none. */
  function LeadingSpace(s: bytes): (k: nat)
    ensures k <= |s|
  {
    if |s| >= 1 && SpaceAt(s, 0, 1) then 1
    else if |s| >= 2 && SpaceAt(s, 0, 2) then 2
    else if |s| >= 3 && SpaceAt(s, 0, 3) then 3
    else 0
  }

  function TrailingSpace(s: bytes): (k: nat)
    ensures k <= |s|
  {
    if |s| >= 1 && SpaceAt(s, |s| - 1, 1) then 1
    else if |s| >= 2 && SpaceAt(s, |s| - 2, 2) then 2
    else if |s| >= 3 && SpaceAt(s, |s| - 3, 3) then 3
    else 0
  }

  function TrimLeft(s: bytes): bytes
    decreases |s|
  {
    var k := LeadingSpace(s);
    if k == 0 then s else TrimLeft(s[k..])
  }

  function TrimRight(s: bytes): bytes
    decreases |s|
  {
    var k := TrailingSpace(s);
    if k == 0 then s else TrimRight(s[..|s| - k])
  }

  function TrimPrefix(s: bytes, p: bytes): bytes {
    if |p| <= |s| && s[..|p|] == p then s[|p|..] else s
  }

  /** Lower-casing as far as it can produce a hex digit; any other character is
      refused after it. */
  function Lower(s: bytes): (r: bytes)
    ensures |r| == |s|
  {
    seq(|s|, i requires 0 <= i < |s| => if 65 <= s[i] <= 90 then s[i] + 32 else s[i])
  }

  /** A to Z become a to z, and nothing else changes. */
  lemma LowerFolds(s: bytes, i: nat)
    requires i < |s|
    ensures Lower(s)[i] == s[i] || ('A' as int <= s[i] <= 'Z' as int && Lower(s)[i] - s[i] == 'a' as int - 'A' as int)
    ensures Lower(s)[i] < 'A' as int || 'Z' as int < Lower(s)[i]
  {
  }

  predicate IsHexDigit(c: byte) { 48 <= c <= 57 || 97 <= c <= 102 }

  /** 64 lower-case hex digits. */
  predicate IsAccountId(s: bytes) { |s| == 64 && forall c :: c in s ==> IsHexDigit(c) }

  const LOWER_0X: bytes := [48, 120]
  const UPPER_0X: bytes := [48, 88]

  function NormalizeNativeRecipient(raw: bytes): bytes {
    var trimmed := TrimPrefix(TrimPrefix(TrimRight(TrimLeft(raw)), LOWER_0X), UPPER_0X);
    var lowered := Lower(trimmed);
    if IsAccountId(lowered) then lowered else raw
  }

  /** No white space, no letter x: nothing about it can be stripped. */
  lemma HexIsBare(s: bytes)
    requires |s| == 64 && IsAccountId(Lower(s))
    ensures LeadingSpace(s) == 0 && TrailingSpace(s) == 0
    ensures s[..2] != LOWER_0X && s[..2] != UPPER_0X
  {
    forall i | 0 <= i < 64 ensures s[i] < 0x80 && s[i] != 120 && s[i] != 88 && s[i] > 32 {
      assert Lower(s)[i] in Lower(s);
    }
    assert s[..2][1] == s[1];
  }

  lemma NormalizeIdempotent(raw: bytes)
    ensures var n := NormalizeNativeRecipient(raw);
            && (n == raw || IsAccountId(n))
            && NormalizeNativeRecipient(n) == n
  {
    var n := NormalizeNativeRecipient(raw);
    if n != raw {
      LowerKeepsIds(n);
      HexIsBare(n);
    }
  }

  lemma LowerKeepsIds(id: bytes)
    requires IsAccountId(id)
    ensures Lower(id) == id
  {
    assert forall i :: 0 <= i < |id| ==> id[i] in id;
  }

  /** White space read from the left, and from the right. */
  predicate BlankLeft(s: bytes)
    decreases |s|
  {
    s == [] || (LeadingSpace(s) > 0 && BlankLeft(s[LeadingSpace(s)..]))
  }

  predicate BlankRight(s: bytes)
    decreases |s|
  {
    s == [] || (TrailingSpace(s) > 0 && BlankRight(s[..|s| - TrailingSpace(s)]))
  }

  lemma LeadingSpaceExtends(ws: bytes, s: bytes)
    requires LeadingSpace(ws) > 0
    ensures LeadingSpace(ws + s) == LeadingSpace(ws)
  {
  }

  lemma TrailingSpaceExtends(s: bytes, ws: bytes)
    requires TrailingSpace(ws) > 0
    ensures TrailingSpace(s + ws) == TrailingSpace(ws)
  {
  }

  lemma {:induction false} TrimLeftBlank(ws: bytes, s: bytes)
    requires BlankLeft(ws) && LeadingSpace(s) == 0
    ensures TrimLeft(ws + s) == s
    decreases |ws|
  {
    if ws == [] {
      assert ws + s == s;
    } else {
      var k := LeadingSpace(ws);
      LeadingSpaceExtends(ws, s);
      assert (ws + s)[k..] == ws[k..] + s;
      TrimLeftBlank(ws[k..], s);
    }
  }

  lemma TakeConcat(s: bytes, ws: bytes, k: nat)
    requires k <= |ws|
    ensures (s + ws)[..|s + ws| - k] == s + ws[..|ws| - k]
  {
  }

  lemma TrimRightOnce(t: bytes, k: nat)
    requires k == TrailingSpace(t) > 0
    ensures TrimRight(t) == TrimRight(t[..|t| - k])
  {
  }

  lemma TrimRightStep(s: bytes, ws: bytes)
    requires TrailingSpace(ws) > 0
    ensures TrimRight(s + ws) == TrimRight(s + ws[..|ws| - TrailingSpace(ws)])
  {
    TrailingSpaceExtends(s, ws);
    TakeConcat(s, ws, TrailingSpace(ws));
    TrimRightOnce(s + ws, TrailingSpace(ws));
  }

  lemma {:induction false} TrimRightBlank(s: bytes, ws: bytes)
    requires BlankRight(ws) && TrailingSpace(s) == 0
    ensures TrimRight(s + ws) == s
    decreases |ws|
  {
    if ws == [] {
      assert s + ws == s;
    } else {
      TrimRightStep(s, ws);
      TrimRightBlank(s, ws[..|ws| - TrailingSpace(ws)]);
    }
  }

  lemma NotBlankWithin(s: bytes, ws: bytes)
    requires s != [] && s[0] < 0x80 && LeadingSpace(s) == 0
    ensures LeadingSpace(s + ws) == 0
  {
  }

  lemma PrefixStrips(spelled: bytes, prefix: bytes)
    requires |spelled| == 64 && IsAccountId(Lower(spelled))
    requires prefix in {[], LOWER_0X, UPPER_0X}
    ensures TrimPrefix(TrimPrefix(prefix + spelled, LOWER_0X), UPPER_0X) == spelled
    ensures LeadingSpace(prefix + spelled) == 0 && TrailingSpace(prefix + spelled) == 0
    ensures (prefix + spelled)[0] < 0x80
  {
    HexIsBare(spelled);
    assert Lower(spelled)[0] in Lower(spelled);
    var core := prefix + spelled;
    if prefix == [] {
      assert core == spelled;
    } else {
      assert core[2..] == spelled && core[..2] == prefix;
    }
  }

  /** Every spelling of one account id - either prefix or none, any mixture of case,
      any white space around it - reaches the ledger as the same value. */
  lemma SpellingsAgree(id: bytes, spelled: bytes, prefix: bytes, left: bytes, right: bytes)
    requires IsAccountId(id) && |spelled| == 64 && Lower(spelled) == id
    requires prefix in {[], LOWER_0X, UPPER_0X}
    requires BlankLeft(left) && BlankRight(right)
    ensures NormalizeNativeRecipient(left + (prefix + spelled + right)) == id
  {
    PrefixStrips(spelled, prefix);
    NotBlankWithin(prefix + spelled, right);
    TrimLeftBlank(left, prefix + spelled + right);
    TrimRightBlank(prefix + spelled, right);
  }

  // ---------------------------------------------------------------- whole logs

  /** keccak256("Burned(address,string,uint256)") */
  const BURNED_TOPIC: bytes := [
    0x80, 0x9e, 0xcc, 0x34, 0x52, 0x6d, 0xde, 0x62, 0xcd, 0x18, 0xe0, 0x78, 0xca, 0x7a, 0x02, 0xa7,
    0xaf, 0xfc, 0x5a, 0xe6, 0x17, 0xf8, 0x0e, 0x8d, 0xdb, 0x1a, 0xcb, 0x83, 0xc1, 0x1f, 0xfe, 0x97]

  function DecodeBurnedLog(log: EthLog): (r: Result<DecodedBurn>)
    ensures r == Err(WrongTopic) <==> |log.topics| >= 2 && log.topics[0] != BURNED_TOPIC
    ensures r.Ok? <==>
              && |log.topics| >= 2 && log.topics[0] == BURNED_TOPIC && log.txHash != []
              && (forall i :: 0 <= i < 12 ==> log.topics[1][i] == 0) && DecodeStringUint(log.data).Ok?
    ensures r.Ok? ==>
              && |r.value.burner| == 20 && log.topics[1] == seq(12, _ => 0) + r.value.burner
              && DecodeStringUint(log.data) == Ok((r.value.rawRecipient, r.value.amount))
              && 0 !in r.value.rawRecipient
              && r.value.recipient == NormalizeNativeRecipient(r.value.rawRecipient)
              && (r.value.recipient == [] <==> r.value.rawRecipient == [])
              && r.value.id == LogId(log.txHash, log.logIndex)
  {
    if |log.topics| < 2 then Err(Malformed)
    else if log.topics[0] != BURNED_TOPIC then Err(WrongTopic)
    else if log.txHash == [] then Err(Malformed)
    else if exists i :: 0 <= i < 12 && log.topics[1][i] != 0 then Err(Malformed)
    else match DecodeStringUint(log.data)
      case Err(e) => Err(e)
      case Ok((recipient, amount)) =>
        Ok(DecodedBurn(log.topics[1][12..], NormalizeNativeRecipient(recipient), recipient, amount,
                       LogId(log.txHash, log.logIndex)))
  }

  /** What fits a Burned event: an address, a uint256, data a Go program can hold. */
  predicate Emittable(burner: bytes, recipient: bytes, amount: nat, txHash: bytes) {
    |burner| == 20 && txHash != [] && amount < TWO_256 && |AbiEncode(recipient, amount)| < TWO_63
  }

  /** The log of burn(amount, recipient) called by burner. */
  function EmittedLog(burner: bytes, recipient: bytes, amount: nat, txHash: bytes, logIndex: uint64): EthLog
    requires Emittable(burner, recipient, amount, txHash)
  {
    EthLog([BURNED_TOPIC, seq(12, _ => 0) + burner], AbiEncode(recipient, amount), txHash, logIndex)
  }

  /** What the contract emits is what the node acts on: burner, recipient, amount and
      a replay key shared with no other log; a recipient with a NUL byte is refused. */
  lemma EmittedLogDecodes(burner: bytes, recipient: bytes, amount: nat, txHash: bytes, logIndex: uint64)
    requires Emittable(burner, recipient, amount, txHash)
    ensures DecodeBurnedLog(EmittedLog(burner, recipient, amount, txHash, logIndex))
            == if 0 in recipient then Err(Malformed)
               else Ok(DecodedBurn(burner, NormalizeNativeRecipient(recipient), recipient, amount,
                                   LogId(txHash, logIndex)))
  {
    DecodesCanonical(recipient, amount);
    var second: bytes := seq(12, _ => 0) + burner;
    assert second[12..] == burner;
  }

  lemma WordsAndPadding(w0: bytes, w1: bytes, w2: bytes, s: bytes, word: nat)
    requires word == 32 && |w0| == |w1| == |w2| == word
    ensures var data := w0 + w1 + w2 + s + Padding(|s|);
            && |data| == 3 * word + |s| + (word - |s| % word) % word
            && forall i :: 3 * word + |s| <= i < |data| ==> data[i] == 0
  {
  }

  lemma WholeWords(n: nat, word: nat)
    requires word == 32
    ensures (3 * word + n + (word - n % word) % word) % word == 0 && (word - n % word) % word < word
  {
  }

  /** The event's data as the ABI has it, in words of 32 bytes: the offset of the string,
      two words on, the amount, the string's length and bytes, zeros up to a whole word. */
  lemma DataLayout(s: bytes, amount: nat, word: nat)
    requires word == 32 && amount < TWO_256 && |s| < TWO_64
    ensures var data := AbiEncode(s, amount);
            && |data| % word == 0 && 3 * word + |s| <= |data| < 4 * word + |s|
            && FromBigEndian(data[..word]) == 2 * word && FromBigEndian(data[word..2 * word]) == amount
            && FromBigEndian(data[2 * word..3 * word]) == |s| && data[3 * word..3 * word + |s|] == s
            && forall i :: 3 * word + |s| <= i < |data| ==> data[i] == 0
  {
    WordRoundTrip(2 * word, word);
    WordRoundTrip(|s|, word);
    WordRoundTrip(amount, word);
    var (w0, w1, w2) := (BigEndian(2 * word, word), BigEndian(amount, word), BigEndian(|s|, word));
    Slices(w0, w1, w2, s, Padding(|s|), word);
    WordsAndPadding(w0, w1, w2, s, word);
    WholeWords(|s|, word);
  }

  lemma NormalizedIsNamed(raw: bytes)
    ensures NormalizeNativeRecipient(raw) == [] <==> raw == []
  {
  }
}
