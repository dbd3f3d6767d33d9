/** Reading a server stream (packages/sdk/src/index.ts, callStreaming): frames of
    the Connect protocol's Enveloped-Message form, one flag byte, a 32-bit
    length, a payload, out of a byte stream that arrives in arbitrary chunks. */
module FrameStream {
  import opened Bytes
  import opened Options

  /** A parsed payload. Null is JSON's null, whose fields cannot be read. */
  datatype Value = Null | Json(text: bytes, error: Option<bytes>)
  datatype Exception = SyntaxError | TypeError

  /** How a stream ends: an end frame, an end frame carrying an error, a payload
      the reader cannot use, or no end frame at all. */
  datatype Outcome = Clean | InBandError(error: bytes) | Raised(exception: Exception) | Truncated

  datatype Parsed = Parsed(values: seq<Value>, outcome: Outcome)

  /** TextDecoder.decode, and JSON.parse where None is a thrown SyntaxError. */
  datatype Codec = Codec(decode: bytes -> bytes, parse: bytes -> Option<Value>)

  const EMPTY_OBJECT: Value := Json([0x7b, 0x7d], None)

  function PayloadValue(payload: bytes, c: Codec): Option<Value> {
    var text := c.decode(payload);
    if text == [] then Some(EMPTY_OBJECT) else c.parse(text)
  }

  predicate EndFlag(flags: byte) { (flags / 2) % 2 == 1 }

  function EndOutcome(v: Value): Outcome {
    match v
    case Null => Raised(TypeError)
    case Json(_, None) => Clean
    case Json(_, Some(e)) => InBandError(e)
  }

  /** The length field of a frame at the head of s. */
  function FrameSize(s: bytes): (n: nat)
    requires |s| >= 5
    ensures n >= 5
  {
    5 + FromBigEndian(s[1..5])
  }

  predicate WholeFrame(s: bytes) { |s| >= 5 && |s| >= FrameSize(s) }

  /** A stream read all at once, up to its first end frame. */
  function Parse(s: bytes, c: Codec): Parsed
    decreases |s|
  {
    if !WholeFrame(s) then Parsed([], Truncated)
    else
      var n := FrameSize(s);
      var v := PayloadValue(s[5..n], c);
      if v.None? then Parsed([], Raised(SyntaxError))
      else if EndFlag(s[0]) then Parsed([], EndOutcome(v.value))
      else
        var rest := Parse(s[n..], c);
        Parsed([v.value] + rest.values, rest.outcome)
  }

  lemma FourBytes(b3: byte, b2: byte, b1: byte, b0: byte)
    ensures FromBigEndian([b3, b2, b1, b0]) == 0x100_0000 * b3 + 0x1_0000 * b2 + 0x100 * b1 + b0
  {
    ReadOneMore([], b3);
    ReadOneMore([b3], b2);
    ReadOneMore([b3, b2], b1);
    ReadOneMore([b3, b2, b1], b0);
    assert [] + [b3] == [b3] && [b3] + [b2] == [b3, b2] && [b3, b2] + [b1] == [b3, b2, b1];
    assert [b3, b2, b1] + [b0] == [b3, b2, b1, b0];
  }

  lemma BitValue(x: bv8)
    ensures x & 0x02 != 0 <==> (x as int) / 2 % 2 == 1
  {
  }

  lemma SecondBit(flags: bv8)
    ensures flags & 0x02 != 0 <==> EndFlag(flags as int)
  {
    BitValue(flags);
  }

  /** A frame on the wire, byte for byte: a flag byte, a length of four bytes from the
      high one down, the payload. It ends the stream with its payload's verdict exactly
      when bit 0x02 of the flags is set; otherwise the payload is yielded and reading
      goes on behind it. */
  lemma FrameOnTheWire(
      flags: bv8, l3: byte, l2: byte, l1: byte, l0: byte, payload: bytes, rest: bytes, c: Codec)
    requires |payload| == 0x100_0000 * l3 + 0x1_0000 * l2 + 0x100 * l1 + l0
    ensures var text := c.decode(payload);
            var value := if text == [] then Some(Json([0x7b, 0x7d], None)) else c.parse(text);
            Parse([flags as int, l3, l2, l1, l0] + payload + rest, c)
            == match value {
                 case None => Parsed([], Raised(SyntaxError))
                 case Some(v) =>
                   if flags & 0x02 != 0 then
                     Parsed([], match v {
                                  case Null => Raised(TypeError)
                                  case Json(_, None) => Clean
                                  case Json(_, Some(e)) => InBandError(e)
                                })
                   else Parsed([v] + Parse(rest, c).values, Parse(rest, c).outcome)
               }
  {
    var s := [flags as int, l3, l2, l1, l0] + payload + rest;
    FourBytes(l3, l2, l1, l0);
    SecondBit(flags);
    assert s[1..5] == [l3, l2, l1, l0];
    assert s[5..5 + |payload|] == payload && s[5 + |payload|..] == rest;
  }

  function Joined(chunks: seq<bytes>): bytes {
    if chunks == [] then [] else chunks[0] + Joined(chunks[1..])
  }

  lemma WholeFrameStays(s: bytes, t: bytes)
    requires WholeFrame(s)
    ensures WholeFrame(s + t) && FrameSize(s + t) == FrameSize(s)
    ensures (s + t)[0] == s[0] && (s + t)[5..FrameSize(s)] == s[5..FrameSize(s)]
    ensures (s + t)[FrameSize(s)..] == s[FrameSize(s)..] + t
  {
    assert (s + t)[1..5] == s[1..5];
  }

  /** Every chunking of a stream yields the same values and the same outcome: the
      ones of the stream read all at once. The last chunk arrives with `done`. */
  method CallStreaming(chunks: seq<bytes>, c: Codec) returns (result: Parsed)
    requires |chunks| > 0
    ensures result == Parse(Joined(chunks), c)
  {
    var buffer: bytes := [];
    var sawEnd := false;
    var yielded: seq<Value> := [];
    ghost var whole := Joined(chunks);
    ghost var rest := whole;
    assert buffer + rest == whole;
    for i := 0 to |chunks|
      invariant rest == Joined(chunks[i..])
      invariant !sawEnd
      invariant Parse(whole, c) == Onward(yielded, Parse(buffer + rest, c))
      invariant i > 0 ==> !WholeFrame(buffer)
    {
      var value := chunks[i];
      assert chunks[i..][1..] == chunks[i + 1..];
      ghost var after := Joined(chunks[i + 1..]);
      assert buffer + rest == (buffer + value) + after;
      if |value| > 0 {
        buffer := buffer + value;
      } else {
        assert buffer + value == buffer;
      }
      rest := after;
      while true
        invariant Parse(whole, c) == Onward(yielded, Parse(buffer + rest, c))
        invariant !sawEnd
        decreases |buffer|
      {
        if |buffer| < 5 { break; }
        var flags := buffer[0];
        var length := FromBigEndian(buffer[1..5]);
        if |buffer| < 5 + length { break; }
        WholeFrameStays(buffer, rest);
        var payload := buffer[5..5 + length];
        buffer := buffer[5 + length..];
        var parsed := PayloadValue(payload, c);
        if parsed.None? {
          return Parsed(yielded, Raised(SyntaxError));
        }
        if EndFlag(flags) {
          sawEnd := true;
          return Parsed(yielded, EndOutcome(parsed.value));
        }
        OnwardStep(yielded, parsed.value, Parse(buffer + rest, c));
        yielded := yielded + [parsed.value];
      }
    }
    assert buffer + rest == buffer;
    if !sawEnd {
      return Parsed(yielded, Truncated);
    }
  }

  /** What was yielded already, then the rest of the stream. */
  ghost function Onward(yielded: seq<Value>, p: Parsed): Parsed {
    Parsed(yielded + p.values, p.outcome)
  }

  lemma OnwardStep(yielded: seq<Value>, v: Value, p: Parsed)
    ensures Onward(yielded, Parsed([v] + p.values, p.outcome)) == Onward(yielded + [v], p)
  {
    assert yielded + ([v] + p.values) == (yielded + [v]) + p.values;
  }

  // ---- What arrives later ------------------------------------------------

  /** More bytes only add to what a prefix of the stream yields, and nothing after
      an end frame or a failure is looked at. */
  lemma {:induction false} LaterBytesOnlyAdd(s: bytes, t: bytes, c: Codec)
    ensures Parse(s, c).values <= Parse(s + t, c).values
    ensures !Parse(s, c).outcome.Truncated? ==> Parse(s + t, c) == Parse(s, c)
    decreases |s|
  {
    if WholeFrame(s) {
      WholeFrameStays(s, t);
      LaterBytesOnlyAdd(s[FrameSize(s)..], t, c);
    }
  }

  // ---- The sender's side --------------------------------------------------

  datatype Frame = Frame(flags: byte, payload: bytes)

  function Encode(f: Frame): bytes { [f.flags] + U32(|f.payload|) + f.payload }

  function EncodeAll(fs: seq<Frame>): bytes {
    if fs == [] then [] else Encode(fs[0]) + EncodeAll(fs[1..])
  }

  /** A message frame whose payload fits the length field and can be read. */
  predicate Readable(f: Frame, c: Codec) {
    |f.payload| < TWO_32 && PayloadValue(f.payload, c).Some?
  }

  predicate Sendable(fs: seq<Frame>, c: Codec) {
    forall i :: 0 <= i < |fs| ==> Readable(fs[i], c) && !EndFlag(fs[i].flags)
  }

  function Values(fs: seq<Frame>, c: Codec): seq<Value>
    requires Sendable(fs, c)
  {
    seq(|fs|, i requires 0 <= i < |fs| => PayloadValue(fs[i].payload, c).value)
  }

  lemma EncodedFrameHead(f: Frame, t: bytes)
    requires |f.payload| < TWO_32
    ensures var s := Encode(f) + t;
            |s| >= 5 && FrameSize(s) == |Encode(f)| && s[0] == f.flags
            && s[5..|Encode(f)|] == f.payload && s[|Encode(f)|..] == t
  {
    var s := Encode(f) + t;
    assert s[1..5] == U32(|f.payload|);
    PowersOf256();
    BigEndianRoundTrip(|f.payload|, 4);
  }

  /** What a sender frames, closed by an end frame, comes out value for value
      with the end frame's verdict, whatever bytes follow. */
  lemma {:induction false} SentIsReceived(fs: seq<Frame>, end: Frame, junk: bytes, c: Codec)
    requires Sendable(fs, c) && Readable(end, c) && EndFlag(end.flags)
    ensures Parse(EncodeAll(fs) + (Encode(end) + junk), c)
            == Parsed(Values(fs, c), EndOutcome(PayloadValue(end.payload, c).value))
  {
    var tail := Encode(end) + junk;
    if fs == [] {
      assert EncodeAll(fs) + tail == tail;
      EncodedFrameHead(end, junk);
    } else {
      var rest := EncodeAll(fs[1..]) + tail;
      assert EncodeAll(fs) + tail == Encode(fs[0]) + rest;
      EncodedFrameHead(fs[0], rest);
      SentIsReceived(fs[1..], end, junk, c);
      assert Values(fs, c) == [PayloadValue(fs[0].payload, c).value] + Values(fs[1..], c);
    }
  }

  lemma ShortOfAFrame(f: Frame, t: bytes, k: nat)
    requires |f.payload| < TWO_32 && k < |Encode(f)|
    ensures !WholeFrame((Encode(f) + t)[..k])
    ensures forall c {:trigger Parse((Encode(f) + t)[..k], c)} ::
              Parse((Encode(f) + t)[..k], c) == Parsed([], Truncated)
  {
    EncodedFrameHead(f, t);
    var s := Encode(f) + t;
    if k >= 5 {
      assert s[..k][1..5] == s[1..5];
    }
  }

  lemma FrameParsed(f: Frame, t: bytes, c: Codec)
    requires Readable(f, c) && !EndFlag(f.flags)
    ensures Parse(Encode(f) + t, c)
            == Parsed([PayloadValue(f.payload, c).value] + Parse(t, c).values, Parse(t, c).outcome)
  {
    EncodedFrameHead(f, t);
  }

  lemma CutBehind(a: bytes, b: bytes, e: bytes, k: nat)
    requires |a| <= k <= |a + b + e|
    ensures (a + b + e)[..k] == a + (b + e)[..k - |a|]
  {
  }

  lemma CutBefore(a: bytes, b: bytes, e: bytes, k: nat)
    requires k < |a|
    ensures (a + b + e)[..k] == (a + (b + e))[..k]
  {
  }

  lemma PrefixBehind(v: Value, a: seq<Value>, b: seq<Value>)
    requires a <= b
    ensures [v] + a <= [v] + b
  {
  }

  lemma ValuesNext(fs: seq<Frame>, c: Codec)
    requires fs != [] && Sendable(fs, c)
    ensures Sendable(fs[1..], c)
    ensures PayloadValue(fs[0].payload, c).Some?
    ensures Values(fs, c) == [PayloadValue(fs[0].payload, c).value] + Values(fs[1..], c)
  {
  }

  /** Cut off anywhere before the end frame is complete, the same stream is
      reported as truncated, with the values that arrived whole. */
  lemma {:induction false} EveryCutIsReported(fs: seq<Frame>, end: Frame, k: nat, c: Codec)
    requires Sendable(fs, c) && |end.payload| < TWO_32
    requires k < |EncodeAll(fs) + Encode(end)|
    ensures var p := Parse((EncodeAll(fs) + Encode(end))[..k], c);
            p.outcome == Truncated && p.values <= Values(fs, c)
  {
    if fs == [] {
      assert EncodeAll(fs) + Encode(end) == Encode(end) + [];
      ShortOfAFrame(end, [], k);
    } else {
      var first, others := Encode(fs[0]), EncodeAll(fs[1..]);
      if k < |first| {
        CutBefore(first, others, Encode(end), k);
        ShortOfAFrame(fs[0], others + Encode(end), k);
      } else {
        var cut := (others + Encode(end))[..k - |first|];
        CutBehind(first, others, Encode(end), k);
        FrameParsed(fs[0], cut, c);
        EveryCutIsReported(fs[1..], end, k - |first|, c);
        ValuesNext(fs, c);
        PrefixBehind(PayloadValue(fs[0].payload, c).value, Parse(cut, c).values, Values(fs[1..], c));
      }
    }
  }
}
