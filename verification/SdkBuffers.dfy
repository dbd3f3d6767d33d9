/** The SDK's own copies of the layouts (packages/sdk/src/index.ts): pre-sized
    buffers filled through a moving offset. Each equals the shared layout, so
    every write is in bounds and every byte is written exactly once. */
module SdkBuffers {
  import opened Bytes
  import opened LockIds
  import opened Options
  import opened Protocol
  import opened SigningLayouts

  // ---- Writing at an offset -----------------------------------------------

  /** DataView.setUint32 at the offset. */
  method PutUint32(out: array<byte>, at: nat, v: nat)
    requires at + 4 <= out.Length
    modifies out
    ensures out[..at + 4] == old(out[..at]) + U32(v)
  {
    SetBytes(out, at, U32(v));
  }

  /** DataView.setBigUint64 and setBigInt64 at the offset. */
  method PutWord64(out: array<byte>, at: nat, v: int)
    requires at + 8 <= out.Length
    modifies out
    ensures out[..at + 8] == old(out[..at]) + Word64(v)
  {
    SetBytes(out, at, Word64(v));
  }

  /** A length-prefixed field at the offset; the offset moves past it. */
  method PutField(out: array<byte>, at: nat, b: bytes) returns (next: nat)
    requires at + 4 + |b| <= out.Length
    modifies out
    ensures next == at + 4 + |b|
    ensures out[..next] == old(out[..at]) + Lp(b)
  {
    ghost var before := out[..at];
    var o := at;
    PutUint32(out, o, |b|);
    o := o + 4;
    SetBytes(out, o, b);
    next := o + |b|;
    Assoc(before, U32(|b|), b);
  }

  // ---- Payments -----------------------------------------------------------

  method PaymentBuffer(p: Payment) returns (out: array<byte>)
    ensures fresh(out) && out[..] == PaymentSigningBytes(p)
  {
    out := FillPayment(p.fromPublicKey, p.to, p.amount, p.nonce, p.timestamp, p.prevHash);
  }

  method FillPayment(key: bytes, to: bytes, amount: int, nonce: int, timestamp: int, prevHash: bytes)
    returns (out: array<byte>)
    ensures fresh(out)
    ensures out[..]
            == Lp(key) + (Lp(to) + (Word64(amount) + (Word64(nonce) + (Word64(timestamp) + Lp(prevHash)))))
  {
    out := new byte[4 + |key| + 4 + |to| + 8 + 8 + 8 + 4 + |prevHash|](_ => 0);
    var o := 0;
    o := PutField(out, o, key);
    o := PutField(out, o, to);
    PutWord64(out, o, amount);
    o := o + 8;
    PutWord64(out, o, nonce);
    o := o + 8;
    PutWord64(out, o, timestamp);
    o := o + 8;
    o := PutField(out, o, prevHash);
    assert out[..] == out[..o];
    SixParts(Lp(key), Lp(to), Word64(amount), Word64(nonce), Word64(timestamp), Lp(prevHash));
  }

  lemma SixParts(a: bytes, b: bytes, c: bytes, d: bytes, e: bytes, f: bytes)
    ensures ((((([] + a) + b) + c) + d) + e) + f == a + (b + (c + (d + (e + f))))
  {
    assert [] + a == a;
    Assoc(((a + b) + c) + d, e, f);
    Assoc((a + b) + c, d, e + f);
    Assoc(a + b, c, d + (e + f));
    Assoc(a, b, c + (d + (e + f)));
  }

  // ---- Lock ids -----------------------------------------------------------

  /** A number or a bigint. */
  datatype JsNumber = BigInt(big: int) | Number(value: real) | NotFinite

  const MAX_SAFE_INTEGER: int := 0x1F_FFFF_FFFF_FFFF

  /** uint64: a number must be a safe integer before it is a bigint. */
  function CheckedUint64(v: JsNumber): Option<uint64> {
    match v
    case NotFinite => None
    case BigInt(n) => if 0 <= n < TWO_64 then Some(n) else None
    case Number(x) =>
      var n := x.Floor;
      if n as real != x || n > MAX_SAFE_INTEGER || n < 0 then None else Some(n)
  }

  predicate IsSafeInteger(x: real, n: nat) { x == n as real && n <= 9_007_199_254_740_991 }

  /** A bigint passes when it fits 64 bits; a number when it is a whole one no greater than
      2^53 - 1. What passes keeps its value. */
  lemma CheckedIsExact(v: JsNumber)
    ensures CheckedUint64(v).Some? <==>
              || (v.BigInt? && 0 <= v.big <= 0xFFFF_FFFF_FFFF_FFFF)
              || (v.Number? && exists n: nat :: IsSafeInteger(v.value, n))
    ensures CheckedUint64(v).Some? && v.BigInt? ==> CheckedUint64(v).value == v.big
    ensures CheckedUint64(v).Some? && v.Number? ==> CheckedUint64(v).value as real == v.value
  {
    if v.Number? && CheckedUint64(v).Some? {
      assert IsSafeInteger(v.value, CheckedUint64(v).value);
    }
  }

  predicate IsHex(c: byte) { 48 <= c <= 57 || 65 <= c <= 70 || 97 <= c <= 102 }

  function Nibble(c: byte): nat
    requires IsHex(c)
  {
    if c <= 57 then c - 48 else if c <= 70 then c - 55 else c - 87
  }

  function LowerDigit(c: byte): byte { if 65 <= c <= 70 then c + 32 else c }

  function LowerHex(s: bytes): (r: bytes)
    ensures |r| == |s|
  {
    seq<byte>(|s|, i requires 0 <= i < |s| => LowerDigit(s[i]))
  }

  function Unprefixed(text: bytes): bytes {
    if |text| >= 2 && text[0] == 48 && (text[1] == 120 || text[1] == 88) then text[2..] else text
  }

  /** Twenty bytes of hex, with or without a prefix. */
  predicate SpellsAddress(text: bytes) {
    |Unprefixed(text)| == 40 && forall c :: c in Unprefixed(text) ==> IsHex(c)
  }

  function PairAt(raw: bytes, i: nat): byte
    requires 2 * i + 1 < |raw| && forall c :: c in raw ==> IsHex(c)
  {
    16 * Nibble(raw[2 * i]) + Nibble(raw[2 * i + 1])
  }

  function AddressOf(text: bytes): Address
    requires SpellsAddress(text)
  {
    seq<byte>(20, i requires 0 <= i < 20 => PairAt(Unprefixed(text), i))
  }

  lemma SameDigit(a: byte, b: byte)
    requires IsHex(a) && IsHex(b)
    ensures Nibble(a) == Nibble(b) <==> LowerDigit(a) == LowerDigit(b)
    ensures Nibble(a) < 16 && Nibble(b) < 16
  {
  }

  lemma SamePair(p: bytes, q: bytes, i: nat)
    requires 2 * i + 1 < |p| == |q| && (forall c :: c in p ==> IsHex(c)) && forall c :: c in q ==> IsHex(c)
    ensures PairAt(p, i) == PairAt(q, i)
            <==> LowerDigit(p[2 * i]) == LowerDigit(q[2 * i]) && LowerDigit(p[2 * i + 1]) == LowerDigit(q[2 * i + 1])
  {
    SameDigit(p[2 * i], q[2 * i]);
    SameDigit(p[2 * i + 1], q[2 * i + 1]);
  }

  /** Two spellings are one address exactly when prefix and letter case are all they
      differ in. */
  lemma AddressSpellings(a: bytes, b: bytes)
    requires SpellsAddress(a) && SpellsAddress(b)
    ensures AddressOf(a) == AddressOf(b) <==> LowerHex(Unprefixed(a)) == LowerHex(Unprefixed(b))
  {
    var (p, q) := (Unprefixed(a), Unprefixed(b));
    if AddressOf(a) == AddressOf(b) {
      forall k | 0 <= k < 40 ensures LowerDigit(p[k]) == LowerDigit(q[k]) {
        assert AddressOf(a)[k / 2] == AddressOf(b)[k / 2];
        SamePair(p, q, k / 2);
      }
    }
    if LowerHex(p) == LowerHex(q) {
      forall i | 0 <= i < 20 ensures PairAt(p, i) == PairAt(q, i) {
        assert LowerHex(p)[2 * i] == LowerHex(q)[2 * i] && LowerHex(p)[2 * i + 1] == LowerHex(q)[2 * i + 1];
        SamePair(p, q, i);
      }
    }
  }

  /** 0 to 9, a to f. */
  const HEX_DIGITS: bytes := [48, 49, 50, 51, 52, 53, 54, 55, 56, 57, 97, 98, 99, 100, 101, 102]

  lemma DigitIsRead(c: byte)
    requires IsHex(c)
    ensures Nibble(c) < 16 && LowerDigit(c) == HEX_DIGITS[Nibble(c)]
  {
  }

  lemma HexDigitsAre(c: byte)
    ensures IsHex(c) <==> c in HEX_DIGITS || c in [65, 66, 67, 68, 69, 70]
  {
  }

  /** Forty digits spell an address by themselves and behind 0x or 0X, the same one. */
  lemma PrefixIsOptional(digits: bytes, prefix: bytes)
    requires |digits| == 40 && (forall c :: c in digits ==> IsHex(c)) && prefix in {[], [48, 120], [48, 88]}
    ensures SpellsAddress(digits) && SpellsAddress(prefix + digits) && Unprefixed(prefix + digits) == digits
    ensures AddressOf(prefix + digits) == AddressOf(digits)
  {
    assert digits[1] in digits;
    if prefix == [] {
      assert prefix + digits == digits;
    } else {
      assert (prefix + digits)[2..] == digits;
    }
  }

  /** Each byte of the address is the one its two digits spell, high digit first. */
  lemma AddressIsItsHex(text: bytes, i: nat)
    requires SpellsAddress(text) && i < 20
    ensures var b := AddressOf(text)[i];
            && b / 16 < 16
            && LowerHex(Unprefixed(text))[2 * i] == HEX_DIGITS[b / 16]
            && LowerHex(Unprefixed(text))[2 * i + 1] == HEX_DIGITS[b % 16]
  {
    var raw := Unprefixed(text);
    DigitIsRead(raw[2 * i]);
    DigitIsRead(raw[2 * i + 1]);
    assert PairAt(raw, i) / 16 == Nibble(raw[2 * i]) && PairAt(raw, i) % 16 == Nibble(raw[2 * i + 1]);
  }

  /** ethereumAddressBytes: fails on anything but twenty bytes of hex. */
  method EthereumAddressBytes(text: bytes) returns (out: Option<array<byte>>)
    ensures out.Some? <==> SpellsAddress(text)
    ensures out.Some? ==> fresh(out.value) && out.value[..] == AddressOf(text)
  {
    var raw := Unprefixed(text);
    if |raw| != 40 || exists i :: 0 <= i < |raw| && !IsHex(raw[i]) {
      return None;
    }
    var filled := new byte[20](_ => 0);
    for i := 0 to 20
      invariant forall j :: 0 <= j < i ==> filled[j] == PairAt(raw, j)
    {
      filled[i] := 16 * Nibble(raw[2 * i]) + Nibble(raw[2 * i + 1]);
    }
    out := Some(filled);
  }

  /** Fails when a number is not a safe uint64, the sender overflows its prefix, or the
      recipient is not an address. */
  method LockIdBuffer(nonce: JsNumber, sender: bytes, recipient: bytes, amount: JsNumber)
    returns (out: Option<array<byte>>)
    ensures out.Some? <==>
              CheckedUint64(nonce).Some? && CheckedUint64(amount).Some? && |sender| < TWO_32 && SpellsAddress(recipient)
    ensures out.Some? ==>
              && fresh(out.value)
              && out.value[..]
                 == LockPreimage(CheckedUint64(nonce).value, sender, AddressOf(recipient), CheckedUint64(amount).value)
  {
    var checkedNonce := CheckedUint64(nonce);
    if checkedNonce.None? { return None; }
    var checkedAmount := CheckedUint64(amount);
    if checkedAmount.None? { return None; }
    if |sender| >= TWO_32 { return None; }
    var address := EthereumAddressBytes(recipient);
    if address.None? { return None; }
    var payload := FillLock(checkedNonce.value, sender, address.value[..], checkedAmount.value);
    out := Some(payload);
  }

  method FillLock(nonce: uint64, sender: bytes, recipient: Address, amount: uint64) returns (payload: array<byte>)
    ensures fresh(payload) && payload[..] == LockPreimage(nonce, sender, recipient, amount)
  {
    payload := new byte[8 + 4 + |sender| + 20 + 8](_ => 0);
    var o := 0;
    SetBytes(payload, o, U64(nonce));
    o := o + 8;
    PutUint32(payload, o, |sender|);
    o := o + 4;
    SetBytes(payload, o, sender);
    o := o + |sender|;
    SetBytes(payload, o, recipient);
    o := o + 20;
    SetBytes(payload, o, U64(amount));
    assert payload[..] == payload[..o + 8];
    assert [] + U64(nonce) == U64(nonce);
  }

  // ---- Chat roles ---------------------------------------------------------

  /** The SDK's proto enum names; any other string is Other. */
  datatype ChatRole = SystemRole | UserRole | UnspecifiedRole | AssistantRole | ToolRole | Other(name: bytes)

  datatype ChatMessage = ChatMessage(
    role: ChatRole, content: bytes, toolCallId: Option<bytes>, toolCalls: Option<seq<ToolCall>>)

  /** The signed spelling of a role: unset reads as user, unknown is refused. */
  function WireRole(r: ChatRole): Option<Role> {
    match r
    case SystemRole => Some(System)
    case UserRole => Some(User)
    case UnspecifiedRole => Some(User)
    case AssistantRole => Some(Assistant)
    case ToolRole => Some(Tool)
    case Other(_) => None
  }

  /** What each role is signed as: system, user, assistant or tool, user when unset; a name
      outside the enum has no spelling. */
  lemma RolesAreSpelled(r: ChatRole)
    ensures WireRole(r).Some? <==> !r.Other?
    ensures WireRole(r).Some? ==>
              RoleName(WireRole(r).value)
              == match r
                 case SystemRole => [0x73, 0x79, 0x73, 0x74, 0x65, 0x6d]
                 case AssistantRole => [0x61, 0x73, 0x73, 0x69, 0x73, 0x74, 0x61, 0x6e, 0x74]
                 case ToolRole => [0x74, 0x6f, 0x6f, 0x6c]
                 case _ => [0x75, 0x73, 0x65, 0x72]
  {
  }

  predicate AllKnown(ms: seq<ChatMessage>) {
    forall i :: 0 <= i < |ms| ==> WireRole(ms[i].role).Some?
  }

  function Wire(m: ChatMessage): Message
    requires WireRole(m.role).Some?
  {
    Message(WireRole(m.role).value, m.content, m.toolCallId, m.toolCalls)
  }

  /** The conversation as the protocol package would be given it. */
  function WireMessages(ms: seq<ChatMessage>): seq<Message>
    requires AllKnown(ms)
  {
    seq(|ms|, i requires 0 <= i < |ms| => Wire(ms[i]))
  }

  // ---- Requests -----------------------------------------------------------

  lemma LpPushed(parts: seq<bytes>, b: bytes)
    ensures Flatten(parts + [U32(|b|), b]) == Flatten(parts) + Lp(b)
  {
    FlattenTwo(parts, U32(|b|), b);
  }

  /** The length and the text go in as two parts; together they are one field. */
  method PushField(before: seq<bytes>, b: bytes) returns (parts: seq<bytes>)
    ensures Flatten(parts) == Flatten(before) + Lp(b)
  {
    LpPushed(before, b);
    parts := before + [U32(|b|), b];
  }

  method PushThree(before: seq<bytes>, a: bytes, b: bytes, c: bytes) returns (parts: seq<bytes>)
    ensures Flatten(parts) == Flatten(before) + (Lp(a) + (Lp(b) + Lp(c)))
  {
    parts := PushField(before, a);
    parts := PushField(parts, b);
    parts := PushField(parts, c);
    Assoc(Flatten(before), Lp(a), Lp(b));
    Assoc(Flatten(before), Lp(a) + Lp(b), Lp(c));
    Assoc(Lp(a), Lp(b), Lp(c));
  }

  /** The turns under their signed role names, up to the first unknown role. */
  method PushTurns(before: seq<bytes>, ms: seq<ChatMessage>) returns (parts: Option<seq<bytes>>)
    ensures parts.Some? <==> AllKnown(ms)
    ensures parts.Some? ==> Flatten(parts.value) == Flatten(before) + Turns(WireMessages(ms))
  {
    var out := before;
    for i := 0 to |ms|
      invariant AllKnown(ms[..i])
      invariant Flatten(out) == Flatten(before) + Turns(WireMessages(ms[..i]))
    {
      var role := WireRole(ms[i].role);
      if role.None? {
        return None;
      }
      ghost var start := out;
      out := PushField(out, RoleName(role.value));
      out := PushField(out, ms[i].content);
      WireNext(ms, i);
      Assoc(Flatten(start), Lp(RoleName(role.value)), Lp(ms[i].content));
      Assoc(Flatten(before), Turns(WireMessages(ms[..i])), Turn(Wire(ms[i])));
    }
    assert ms[..|ms|] == ms;
    parts := Some(out);
  }

  lemma WireNext(ms: seq<ChatMessage>, i: nat)
    requires i < |ms| && AllKnown(ms[..i]) && WireRole(ms[i].role).Some?
    ensures AllKnown(ms[..i + 1])
    ensures Turns(WireMessages(ms[..i + 1])) == Turns(WireMessages(ms[..i])) + Turn(Wire(ms[i]))
    ensures Metadata(WireMessages(ms[..i + 1])) == Metadata(WireMessages(ms[..i])) + Metadatum(Wire(ms[i]))
  {
    var w := WireMessages(ms[..i + 1]);
    assert w[..i] == WireMessages(ms[..i]) && w[i] == Wire(ms[i]);
  }

  method PushCalls(before: seq<bytes>, calls: seq<ToolCall>) returns (parts: seq<bytes>)
    ensures Flatten(parts) == Flatten(before) + CallList(calls)
  {
    parts := before;
    var one := (c: ToolCall) => Call(c);
    for i := 0 to |calls|
      invariant Flatten(parts) == Flatten(before) + Listing(calls[..i], one)
    {
      ListingNext(calls, i, one);
      parts := PushThree(parts, calls[i].id, calls[i].name, calls[i].arguments);
      Assoc(Flatten(before), Listing(calls[..i], one), one(calls[i]));
    }
    assert calls[..|calls|] == calls;
  }

  method PushDefinitions(before: seq<bytes>, tools: seq<ToolDefinition>) returns (parts: seq<bytes>)
    ensures Flatten(parts) == Flatten(before) + Definitions(tools)
  {
    parts := before;
    var one := (t: ToolDefinition) => Definition(t);
    for i := 0 to |tools|
      invariant Flatten(parts) == Flatten(before) + Listing(tools[..i], one)
    {
      ListingNext(tools, i, one);
      parts := PushThree(parts, tools[i].name, Text(tools[i].description), Text(tools[i].parameters));
      Assoc(Flatten(before), Listing(tools[..i], one), one(tools[i]));
    }
    assert tools[..|tools|] == tools;
  }

  method PushMetadata(before: seq<bytes>, ms: seq<ChatMessage>) returns (parts: seq<bytes>)
    requires AllKnown(ms)
    ensures Flatten(parts) == Flatten(before) + Metadata(WireMessages(ms))
  {
    parts := before;
    for i := 0 to |ms|
      invariant AllKnown(ms[..i])
      invariant Flatten(parts) == Flatten(before) + Metadata(WireMessages(ms[..i]))
    {
      ghost var start := Flatten(parts);
      parts := PushField(parts, Text(ms[i].toolCallId));
      var calls := if ms[i].toolCalls.Some? then ms[i].toolCalls.value else [];
      FlattenPush(parts, Word64(|calls|));
      parts := parts + [Word64(|calls|)];
      parts := PushCalls(parts, calls);
      MetadatumPushed(start, Wire(ms[i]));
      WireNext(ms, i);
      Assoc(Flatten(before), Metadata(WireMessages(ms[..i])), Metadatum(Wire(ms[i])));
    }
    assert ms[..|ms|] == ms;
  }

  predicate HoldsTools(m: ChatMessage) {
    Text(m.toolCallId) != [] || (m.toolCalls.Some? && |m.toolCalls.value| > 0)
  }

  predicate Surface(ms: seq<ChatMessage>, tools: seq<ToolDefinition>) {
    || |tools| > 0
    || exists i :: 0 <= i < |ms| && HoldsTools(ms[i])
  }

  lemma SurfaceOnTheWire(ms: seq<ChatMessage>, tools: seq<ToolDefinition>)
    requires AllKnown(ms)
    ensures Surface(ms, tools) <==> HasToolSurface(WireMessages(ms), tools)
  {
    var w := WireMessages(ms);
    forall i | 0 <= i < |ms|
      ensures CarriesTools(w[i]) <==> HoldsTools(ms[i])
    {
    }
    if Surface(ms, tools) && |tools| == 0 {
      var i :| 0 <= i < |ms| && HoldsTools(ms[i]);
      assert CarriesTools(w[i]);
    }
    if HasToolSurface(w, tools) && |tools| == 0 {
      var i :| 0 <= i < |w| && CarriesTools(w[i]);
      assert HoldsTools(ms[i]);
    }
  }

  /** The SDK's request digest is the protocol package's, or a refusal of an
      unknown role: never a digest of another conversation. */
  method SdkMessagesDigest(
      ms: seq<ChatMessage>, maxTokens: int, temperature: Float64Bits, tools: seq<ToolDefinition>, hash: bytes -> bytes)
    returns (digest: Option<bytes>)
    ensures digest.Some? <==> AllKnown(ms)
    ensures digest.Some? ==>
              digest.value == hash(RequestBytes(Request(WireMessages(ms), maxTokens, temperature, tools)))
  {
    var start: seq<bytes> := [Word64(|ms|)];
    FlattenOne(Word64(|ms|));
    var turns := PushTurns(start, ms);
    if turns.None? {
      return None;
    }
    var parts := turns.value;
    FlattenPush(parts, Word64(maxTokens));
    parts := parts + [Word64(maxTokens)];
    FlattenPush(parts, temperature);
    parts := parts + [temperature];
    ghost var head := Flatten(parts);
    ghost var r := Request(WireMessages(ms), maxTokens, temperature, tools);
    SurfaceOnTheWire(ms, tools);
    if Surface(ms, tools) {
      FlattenPush(parts, Word64(|tools|));
      parts := parts + [Word64(|tools|)];
      parts := PushDefinitions(parts, tools);
      parts := PushMetadata(parts, ms);
      BlockPushed(head, r);
    } else {
      assert head + [] == head;
    }
    RequestAssembled(r);
    var flat := Concat(parts);
    digest := Some(hash(flat[..]));
  }

  lemma BlockPushed(head: bytes, r: Request)
    ensures ((head + Word64(|r.tools|)) + Definitions(r.tools)) + Metadata(r.messages)
            == head + ToolBlockBytes(r.messages, r.tools)
  {
    Assoc(head + Word64(|r.tools|), Definitions(r.tools), Metadata(r.messages));
    Assoc(head, Word64(|r.tools|), Definitions(r.tools) + Metadata(r.messages));
  }

  // ---- Run authorizations -------------------------------------------------

  datatype RunInput = RunInput(
    fromPublicKey: bytes, provider: bytes, model: bytes, timestamp: int,
    prompt: Option<bytes>, messages: Option<seq<ChatMessage>>,
    maxTokens: Option<int>, temperature: Option<Float64Bits>, tools: Option<seq<ToolDefinition>>)

  /** The transcript when there is one, else the prompt as one user turn unless it
      trims to nothing. */
  function Effective(r: RunInput, blank: bytes -> bool): seq<ChatMessage> {
    if r.messages.Some? && |r.messages.value| > 0 then r.messages.value
    else if r.prompt.Some? && r.prompt.value != [] && !blank(r.prompt.value) then
      [ChatMessage(UserRole, r.prompt.value, None, None)]
    else []
  }

  /** Zero and positive zero are what an unset bound means. */
  function Authorized(r: RunInput, blank: bytes -> bool): RunAuthorization
    requires AllKnown(Effective(r, blank))
  {
    RunAuthorization(r.fromPublicKey, r.provider, r.model, r.timestamp,
      Request(WireMessages(Effective(r, blank)),
        if r.maxTokens.Some? then r.maxTokens.value else 0,
        if r.temperature.Some? then r.temperature.value else seq(8, _ => 0),
        if r.tools.Some? then r.tools.value else []))
  }

  /** Turn i of a signed conversation is turn i of the transcript, tool fields and all. */
  predicate SignedTurn(m: ChatMessage, k: Message) {
    WireRole(m.role) == Some(k.role) && k.content == m.content
    && k.toolCallId == m.toolCallId && k.toolCalls == m.toolCalls
  }

  /** What is signed is what was asked for: key, provider, model and moment, every turn of
      the transcript when there is one, and each bound, zero or empty where unset. */
  lemma AuthorizedIsTheInput(r: RunInput, blank: bytes -> bool)
    requires AllKnown(Effective(r, blank))
    ensures var a := Authorized(r, blank);
            && a.fromPublicKey == r.fromPublicKey && a.provider == r.provider && a.model == r.model
            && a.timestamp == r.timestamp
            && (r.maxTokens.Some? ==> a.request.maxTokens == r.maxTokens.value)
            && (r.maxTokens.None? ==> a.request.maxTokens == 0)
            && (r.temperature.Some? ==> a.request.temperature == r.temperature.value)
            && (r.temperature.None? ==> a.request.temperature == [0, 0, 0, 0, 0, 0, 0, 0])
            && a.request.tools == (if r.tools.Some? then r.tools.value else [])
    ensures var signed := Authorized(r, blank).request.messages;
            && (r.messages.Some? && r.messages.value != [] ==>
                  && |signed| == |r.messages.value|
                  && forall i :: 0 <= i < |signed| ==> SignedTurn(r.messages.value[i], signed[i]))
            && (r.messages.None? && r.prompt.None? ==> signed == [])
  {
  }

  method RunAuthorizationBuffer(r: RunInput, hash: bytes -> bytes, blank: bytes -> bool)
    returns (out: Option<array<byte>>)
    ensures out.Some? <==> AllKnown(Effective(r, blank))
    ensures out.Some? ==> fresh(out.value) && out.value[..] == RunSigningBytes(Authorized(r, blank), hash)
  {
    var messages := Effective(r, blank);
    var digest := SdkMessagesDigest(messages,
      if r.maxTokens.Some? then r.maxTokens.value else 0,
      if r.temperature.Some? then r.temperature.value else seq(8, _ => 0),
      if r.tools.Some? then r.tools.value else [], hash);
    if digest.None? {
      return None;
    }
    var buffer := FillRun(RunAuthDomain(), r.fromPublicKey, r.provider, r.model, digest.value, r.timestamp);
    out := Some(buffer);
  }

  method FillRun(domain: bytes, key: bytes, provider: bytes, model: bytes, digest: bytes, timestamp: int)
    returns (out: array<byte>)
    ensures fresh(out)
    ensures out[..] == Lp(domain) + (Lp(key) + (Lp(provider) + (Lp(model) + (Lp(digest) + Word64(timestamp)))))
  {
    out := new byte[4 + |domain| + 4 + |key| + 4 + |provider| + 4 + |model| + 4 + |digest| + 8](_ => 0);
    var o := 0;
    o := PutField(out, o, domain);
    o := PutField(out, o, key);
    o := PutField(out, o, provider);
    o := PutField(out, o, model);
    o := PutField(out, o, digest);
    PutWord64(out, o, timestamp);
    assert out[..] == out[..o + 8];
    SixParts(Lp(domain), Lp(key), Lp(provider), Lp(model), Lp(digest), Word64(timestamp));
  }

  /** Signing a bare prompt and signing the equivalent one-turn conversation under
      any spelling of the user role are the same authorization. */
  lemma PromptIsOneUserTurn(r: RunInput, prompt: bytes, role: ChatRole, blank: bytes -> bool, hash: bytes -> bytes)
    requires prompt != [] && !blank(prompt) && role in {UserRole, UnspecifiedRole}
    ensures var bare := r.(prompt := Some(prompt), messages := None);
            var turn := r.(prompt := None, messages := Some([ChatMessage(role, prompt, None, None)]));
            AllKnown(Effective(bare, blank)) && AllKnown(Effective(turn, blank))
            && RunSigningBytes(Authorized(bare, blank), hash) == RunSigningBytes(Authorized(turn, blank), hash)
  {
    var bare := r.(prompt := Some(prompt), messages := None);
    var turn := r.(prompt := None, messages := Some([ChatMessage(role, prompt, None, None)]));
    assert WireMessages(Effective(bare, blank)) == WireMessages(Effective(turn, blank));
  }
}
