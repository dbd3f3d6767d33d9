/** The byte layouts a client signs (packages/protocol/src/index.ts, receipt.ts).
    Text is its UTF-8 bytes. What the layouts are for is that two requests share
    their bytes only when they are the same request. */
module SigningLayouts {
  import opened Bytes
  import opened Options

  /** Fields are length-prefixed with 32 bits. */
  predicate Short(b: bytes) { |b| < TWO_32 }

  function Lp(b: bytes): bytes { U32(|b|) + b }

  /** setBigUint64 and setBigInt64 write the same bytes: the value modulo 2^64. */
  function Word64(v: int): bytes { BigEndian(v % TWO_64, 8) }

  function Ascii(s: string): bytes
    requires forall i :: 0 <= i < |s| ==> s[i] as int < 128
  {
    seq(|s|, i requires 0 <= i < |s| => s[i] as int)
  }

  // ---- Peeling a layout from the front ------------------------------------

  lemma CutLp(a: bytes, b: bytes, x: bytes, y: bytes)
    requires Short(a) && Short(b)
    requires Lp(a) + x == Lp(b) + y
    ensures a == b && x == y
  {
    var p, q := Lp(a) + x, Lp(b) + y;
    PowersOf256();
    assert p[..4] == U32(|a|) && q[..4] == U32(|b|);
    BigEndianInjective(|a|, |b|, 4);
    var at := 4 + |a|;
    assert p[4..at] == a && q[4..at] == b;
    assert p[at..] == x && q[at..] == y;
  }

  lemma CutWord(v: int, w: int, x: bytes, y: bytes)
    requires Word64(v) + x == Word64(w) + y
    ensures v % TWO_64 == w % TWO_64 && x == y
  {
    var p, q := Word64(v) + x, Word64(w) + y;
    PowersOf256();
    assert p[..8] == Word64(v) && q[..8] == Word64(w);
    BigEndianInjective(v % TWO_64, w % TWO_64, 8);
    assert p[8..] == x && q[8..] == y;
  }

  /** A list's count, ahead of the list. */
  lemma CutCount(m: nat, n: nat, x: bytes, y: bytes)
    requires m < TWO_64 && n < TWO_64
    requires Word64(m) + x == Word64(n) + y
    ensures m == n && x == y
  {
    CutWord(m, n, x, y);
    Fits(m);
    Fits(n);
  }

  lemma Fits(m: nat)
    requires m < TWO_64
    ensures m % TWO_64 == m
  {
  }

  /** The bytes of a list, item after item. */
  function Listing<T>(items: seq<T>, one: T -> bytes): bytes {
    if items == [] then []
    else Listing(items[..|items| - 1], one) + one(items[|items| - 1])
  }

  /** Items that can be told apart from the front, whatever follows them. */
  ghost predicate Separates<T(!new)>(one: T -> bytes, same: (T, T) -> bool, short: T -> bool) {
    forall t, u, x, y ::
      short(t) && short(u) && one(t) + x == one(u) + y ==> same(t, u) && x == y
  }

  /** Lists of equally many such items can be told apart, whatever follows them. */
  lemma {:induction false} CutListing<T(!new)>(
      a: seq<T>, b: seq<T>, x: bytes, y: bytes, one: T -> bytes, same: (T, T) -> bool, short: T -> bool)
    requires |a| == |b| && forall i :: 0 <= i < |a| ==> short(a[i]) && short(b[i])
    requires Separates(one, same, short)
    requires Listing(a, one) + x == Listing(b, one) + y
    ensures x == y && forall i :: 0 <= i < |a| ==> same(a[i], b[i])
  {
    if a == [] {
      assert x == Listing(a, one) + x && y == Listing(b, one) + y;
    } else {
      var n := |a| - 1;
      Assoc(Listing(a[..n], one), one(a[n]), x);
      Assoc(Listing(b[..n], one), one(b[n]), y);
      CutListing(a[..n], b[..n], one(a[n]) + x, one(b[n]) + y, one, same, short);
      assert one(a[n]) + x == one(b[n]) + y;
    }
  }

  lemma {:induction false} SameListing<T>(a: seq<T>, b: seq<T>, one: T -> bytes)
    requires |a| == |b| && forall i :: 0 <= i < |a| ==> one(a[i]) == one(b[i])
    ensures Listing(a, one) == Listing(b, one)
  {
    if a != [] {
      SameListing(a[..|a| - 1], b[..|b| - 1], one);
    }
  }

  // ---- Payments -----------------------------------------------------------

  datatype Payment = Payment(
    fromPublicKey: bytes, to: bytes, amount: int, nonce: int, timestamp: int, prevHash: bytes)

  function PaymentSigningBytes(p: Payment): bytes {
    Lp(p.fromPublicKey) + (Lp(p.to) + (Word64(p.amount) + (Word64(p.nonce) + (Word64(p.timestamp) + Lp(p.prevHash)))))
  }

  predicate ShortPayment(p: Payment) { Short(p.fromPublicKey) && Short(p.to) && Short(p.prevHash) }

  /** One payment, numbers as the 64-bit words they are sent as. */
  predicate SamePayment(p: Payment, q: Payment) {
    && p.fromPublicKey == q.fromPublicKey && p.to == q.to && p.prevHash == q.prevHash
    && p.amount % TWO_64 == q.amount % TWO_64
    && p.nonce % TWO_64 == q.nonce % TWO_64
    && p.timestamp % TWO_64 == q.timestamp % TWO_64
  }

  lemma PaymentBytesAreUnambiguous(p: Payment, q: Payment)
    requires ShortPayment(p) && ShortPayment(q)
    ensures PaymentSigningBytes(p) == PaymentSigningBytes(q) <==> SamePayment(p, q)
  {
    if PaymentSigningBytes(p) == PaymentSigningBytes(q) {
      var p5, q5 := Lp(p.prevHash), Lp(q.prevHash);
      var p4, q4 := Word64(p.timestamp) + p5, Word64(q.timestamp) + q5;
      var p3, q3 := Word64(p.nonce) + p4, Word64(q.nonce) + q4;
      var p2, q2 := Word64(p.amount) + p3, Word64(q.amount) + q3;
      CutLp(p.fromPublicKey, q.fromPublicKey, Lp(p.to) + p2, Lp(q.to) + q2);
      CutLp(p.to, q.to, p2, q2);
      CutWord(p.amount, q.amount, p3, q3);
      CutWord(p.nonce, q.nonce, p4, q4);
      CutWord(p.timestamp, q.timestamp, p5, q5);
      assert p5 + [] == q5 + [] by { assert p5 + [] == p5 && q5 + [] == q5; }
      CutLp(p.prevHash, q.prevHash, [], []);
    }
  }

  /** Int64 timestamps that agree modulo 2^64 are equal, and so are uint64 amounts. */
  lemma WordsAreExact(v: int, w: int)
    ensures 0 <= v < TWO_64 && 0 <= w < TWO_64 && v % TWO_64 == w % TWO_64 ==> v == w
    ensures 0 - TWO_63 <= v < TWO_63 && 0 - TWO_63 <= w < TWO_63 && v % TWO_64 == w % TWO_64 ==> v == w
  {
    assert v == TWO_64 * (v / TWO_64) + v % TWO_64;
    assert w == TWO_64 * (w / TWO_64) + w % TWO_64;
  }

  /** The 32-bit prefix is also the limit: one field of 2^32 bytes, which the
      layout does not refuse, and two different payments have the same bytes. */
  lemma OversizeFieldsCollide()
    ensures exists p, q :: PaymentSigningBytes(p) == PaymentSigningBytes(q) && p.to != q.to
  {
    var zeros: bytes := seq(TWO_32, _ => 0);
    var p, q := Payment(zeros, [], 0, 0, 0, []), Payment([], zeros, 0, 0, 0, []);
    AllZero(0, 4);
    ZeroWord(4);
    AllZero(0, 8);
    assert U32(TWO_32) == U32(0);
    assert Lp(zeros) == U32(0) + zeros && Lp([]) == U32(0);
    var rest := Word64(0) + (Word64(0) + (Word64(0) + U32(0)));
    assert Lp([]) + rest == U32(0) + rest;
    assert zeros + U32(0) == U32(0) + zeros;
    assert Lp(zeros) + (Lp([]) + rest) == U32(0) + ((zeros + U32(0)) + rest);
    assert Lp([]) + (Lp(zeros) + rest) == U32(0) + ((U32(0) + zeros) + rest);
    assert PaymentSigningBytes(p) == PaymentSigningBytes(q);
    assert p.to != q.to by { assert |p.to| != |q.to|; }
  }

  lemma {:induction false} AllZero(v: nat, n: nat)
    requires v == 0
    ensures forall i :: 0 <= i < n ==> BigEndian(v, n)[i] == 0
  {
    if n > 0 { AllZero(v / 256, n - 1); }
  }

  /** A multiple of 256^n leaves n zero bytes. */
  lemma {:induction false} ZeroWord(n: nat)
    ensures BigEndian(Pow256(n), n) == BigEndian(0, n)
  {
    if n > 0 {
      ZeroWord(n - 1);
      assert Pow256(n) / 256 == Pow256(n - 1);
    }
  }

  // ---- The run request ----------------------------------------------------

  datatype Role = System | User | Assistant | Tool

  function RoleName(r: Role): (name: bytes)
    ensures Short(name)
  {
    match r
    case System => [115, 121, 115, 116, 101, 109]  // "system"
    case User => [117, 115, 101, 114]  // "user"
    case Assistant => [97, 115, 115, 105, 115, 116, 97, 110, 116]  // "assistant"
    case Tool => [116, 111, 111, 108]  // "tool"
  }

  datatype ToolCall = ToolCall(id: bytes, name: bytes, arguments: bytes)
  datatype ToolDefinition = ToolDefinition(name: bytes, description: Option<bytes>, parameters: Option<bytes>)
  datatype Message = Message(role: Role, content: bytes, toolCallId: Option<bytes>, toolCalls: Option<seq<ToolCall>>)

  /** `?? ''` and `?? []`: absent reads as empty. */
  function Text(o: Option<bytes>): bytes { if o.Some? then o.value else [] }
  function Calls(m: Message): seq<ToolCall> { if m.toolCalls.Some? then m.toolCalls.value else [] }

  /** A float64 as its IEEE-754 bit pattern. */
  type Float64Bits = b: bytes | |b| == 8 witness seq(8, _ => 0)

  datatype Request = Request(
    messages: seq<Message>, maxTokens: int, temperature: Float64Bits, tools: seq<ToolDefinition>)

  function Turn(m: Message): bytes { Lp(RoleName(m.role)) + Lp(m.content) }

  function Turns(ms: seq<Message>): bytes { Listing(ms, m => Turn(m)) }

  function Definition(t: ToolDefinition): bytes {
    Lp(t.name) + (Lp(Text(t.description)) + Lp(Text(t.parameters)))
  }

  function Definitions(ts: seq<ToolDefinition>): bytes { Listing(ts, t => Definition(t)) }

  function Call(c: ToolCall): bytes { Lp(c.id) + (Lp(c.name) + Lp(c.arguments)) }

  function CallList(cs: seq<ToolCall>): bytes { Listing(cs, c => Call(c)) }

  function Metadatum(m: Message): bytes {
    Lp(Text(m.toolCallId)) + (Word64(|Calls(m)|) + CallList(Calls(m)))
  }

  function Metadata(ms: seq<Message>): bytes { Listing(ms, m => Metadatum(m)) }

  predicate CarriesTools(m: Message) { Text(m.toolCallId) != [] || Calls(m) != [] }

  predicate HasToolSurface(ms: seq<Message>, ts: seq<ToolDefinition>) {
    ts != [] || exists i :: 0 <= i < |ms| && CarriesTools(ms[i])
  }

  function ToolBlockBytes(ms: seq<Message>, ts: seq<ToolDefinition>): bytes {
    Word64(|ts|) + (Definitions(ts) + Metadata(ms))
  }

  /** The tool block is there only for a request that involves tools. */
  function Tail(r: Request): bytes {
    if HasToolSurface(r.messages, r.tools) then ToolBlockBytes(r.messages, r.tools) else []
  }

  /** What is hashed for a request. */
  function RequestBytes(r: Request): bytes {
    Word64(|r.messages|) + (Turns(r.messages) + (Word64(r.maxTokens) + (r.temperature + Tail(r))))
  }

  // ---- Requests are the same up to absent-equals-empty --------------------

  predicate SameTurns(a: seq<Message>, b: seq<Message>) {
    |a| == |b| && forall i :: 0 <= i < |a| ==> a[i].role == b[i].role && a[i].content == b[i].content
  }

  predicate SameDefinition(t: ToolDefinition, u: ToolDefinition) {
    t.name == u.name && Text(t.description) == Text(u.description) && Text(t.parameters) == Text(u.parameters)
  }

  predicate SameDefinitions(a: seq<ToolDefinition>, b: seq<ToolDefinition>) {
    |a| == |b| && forall i :: 0 <= i < |a| ==> SameDefinition(a[i], b[i])
  }

  predicate SameMetadatum(m: Message, k: Message) {
    Text(m.toolCallId) == Text(k.toolCallId) && Calls(m) == Calls(k)
  }

  predicate SameMetadata(a: seq<Message>, b: seq<Message>) {
    |a| == |b| && forall i :: 0 <= i < |a| ==> SameMetadatum(a[i], b[i])
  }

  predicate SameRequest(r: Request, s: Request) {
    && SameTurns(r.messages, s.messages) && SameMetadata(r.messages, s.messages)
    && SameDefinitions(r.tools, s.tools)
    && r.maxTokens % TWO_64 == s.maxTokens % TWO_64 && r.temperature == s.temperature
  }

  predicate ShortCall(c: ToolCall) { Short(c.id) && Short(c.name) && Short(c.arguments) }

  predicate ShortMessage(m: Message) {
    && Short(m.content) && Short(Text(m.toolCallId)) && |Calls(m)| < TWO_64
    && forall i :: 0 <= i < |Calls(m)| ==> ShortCall(Calls(m)[i])
  }

  predicate ShortMessages(ms: seq<Message>) {
    |ms| < TWO_64 && forall i :: 0 <= i < |ms| ==> ShortMessage(ms[i])
  }

  predicate ShortDefinition(t: ToolDefinition) {
    Short(t.name) && Short(Text(t.description)) && Short(Text(t.parameters))
  }

  predicate ShortDefinitions(ts: seq<ToolDefinition>) {
    |ts| < TWO_64 && forall i :: 0 <= i < |ts| ==> ShortDefinition(ts[i])
  }

  predicate ShortRequest(r: Request) { ShortMessages(r.messages) && ShortDefinitions(r.tools) }

  // ---- Peeling counted lists ----------------------------------------------

  lemma RoleNamesDiffer(r: Role, s: Role)
    ensures RoleName(r) == RoleName(s) ==> r == s
  {
    assert |RoleName(r)| == |RoleName(s)| ==> r == s || RoleName(r)[0] != RoleName(s)[0];
  }

  lemma CutTurn(m: Message, k: Message, x: bytes, y: bytes)
    requires Short(m.content) && Short(k.content)
    requires Turn(m) + x == Turn(k) + y
    ensures m.role == k.role && m.content == k.content && x == y
  {
    var (r, s) := (RoleName(m.role), RoleName(k.role));
    Assoc(Lp(r), Lp(m.content), x);
    Assoc(Lp(s), Lp(k.content), y);
    CutLp(r, s, Lp(m.content) + x, Lp(k.content) + y);
    RoleNamesDiffer(m.role, k.role);
    CutLp(m.content, k.content, x, y);
  }

  lemma CutTurns(a: seq<Message>, b: seq<Message>, x: bytes, y: bytes)
    requires |a| == |b| && ShortMessages(a) && ShortMessages(b)
    requires Turns(a) + x == Turns(b) + y
    ensures SameTurns(a, b) && x == y
  {
    var one := (m: Message) => Turn(m);
    var same := (m: Message, k: Message) => m.role == k.role && m.content == k.content;
    var short := (m: Message) => Short(m.content);
    forall m, k, v, w | short(m) && short(k) && one(m) + v == one(k) + w
      ensures same(m, k) && v == w
    {
      CutTurn(m, k, v, w);
    }
    CutListing(a, b, x, y, one, same, short);
  }

  lemma CutThree(a: bytes, b: bytes, c: bytes, d: bytes, e: bytes, f: bytes, x: bytes, y: bytes)
    requires Short(a) && Short(b) && Short(c) && Short(d) && Short(e) && Short(f)
    requires (Lp(a) + (Lp(b) + Lp(c))) + x == (Lp(d) + (Lp(e) + Lp(f))) + y
    ensures a == d && b == e && c == f && x == y
  {
    Assoc(Lp(a), Lp(b) + Lp(c), x);
    Assoc(Lp(b), Lp(c), x);
    Assoc(Lp(d), Lp(e) + Lp(f), y);
    Assoc(Lp(e), Lp(f), y);
    CutLp(a, d, Lp(b) + (Lp(c) + x), Lp(e) + (Lp(f) + y));
    CutLp(b, e, Lp(c) + x, Lp(f) + y);
    CutLp(c, f, x, y);
  }

  lemma CutDefinitions(a: seq<ToolDefinition>, b: seq<ToolDefinition>, x: bytes, y: bytes)
    requires |a| == |b| && ShortDefinitions(a) && ShortDefinitions(b)
    requires Definitions(a) + x == Definitions(b) + y
    ensures SameDefinitions(a, b) && x == y
  {
    var one := (t: ToolDefinition) => Definition(t);
    forall t, u, v, w | ShortDefinition(t) && ShortDefinition(u) && one(t) + v == one(u) + w
      ensures SameDefinition(t, u) && v == w
    {
      CutThree(t.name, Text(t.description), Text(t.parameters), u.name, Text(u.description), Text(u.parameters), v, w);
    }
    CutListing(a, b, x, y, one, (t, u) => SameDefinition(t, u), t => ShortDefinition(t));
  }

  lemma CutCallList(a: seq<ToolCall>, b: seq<ToolCall>, x: bytes, y: bytes)
    requires |a| == |b|
    requires forall i :: 0 <= i < |a| ==> ShortCall(a[i]) && ShortCall(b[i])
    requires CallList(a) + x == CallList(b) + y
    ensures a == b && x == y
  {
    var one := (c: ToolCall) => Call(c);
    forall c, d, v, w | ShortCall(c) && ShortCall(d) && one(c) + v == one(d) + w
      ensures c == d && v == w
    {
      CutThree(c.id, c.name, c.arguments, d.id, d.name, d.arguments, v, w);
    }
    CutListing(a, b, x, y, one, (c, d) => c == d, c => ShortCall(c));
  }

  lemma CutMetadatum(m: Message, k: Message, x: bytes, y: bytes)
    requires ShortMessage(m) && ShortMessage(k)
    requires Metadatum(m) + x == Metadatum(k) + y
    ensures SameMetadatum(m, k) && x == y
  {
    var (i, j) := (Text(m.toolCallId), Text(k.toolCallId));
    var (c, d) := (CallList(Calls(m)), CallList(Calls(k)));
    var (w, v) := (Word64(|Calls(m)|), Word64(|Calls(k)|));
    Assoc(Lp(i), w + c, x);
    Assoc(w, c, x);
    Assoc(Lp(j), v + d, y);
    Assoc(v, d, y);
    CutLp(i, j, w + (c + x), v + (d + y));
    CutCount(|Calls(m)|, |Calls(k)|, c + x, d + y);
    CutCallList(Calls(m), Calls(k), x, y);
  }

  lemma CutMetadata(a: seq<Message>, b: seq<Message>, x: bytes, y: bytes)
    requires |a| == |b| && ShortMessages(a) && ShortMessages(b)
    requires Metadata(a) + x == Metadata(b) + y
    ensures SameMetadata(a, b) && x == y
  {
    var one := (m: Message) => Metadatum(m);
    forall m, k, v, w | ShortMessage(m) && ShortMessage(k) && one(m) + v == one(k) + w
      ensures SameMetadatum(m, k) && v == w
    {
      CutMetadatum(m, k, v, w);
    }
    CutListing(a, b, x, y, one, (m, k) => SameMetadatum(m, k), m => ShortMessage(m));
  }

  // ---- The same request has the same bytes --------------------------------

  lemma SameTurnBytes(a: seq<Message>, b: seq<Message>)
    requires SameTurns(a, b)
    ensures Turns(a) == Turns(b)
  {
    SameListing(a, b, m => Turn(m));
  }

  lemma SameSurface(a: seq<Message>, b: seq<Message>, t: seq<ToolDefinition>, u: seq<ToolDefinition>)
    requires SameMetadata(a, b) && SameDefinitions(t, u)
    ensures HasToolSurface(a, t) ==> HasToolSurface(b, u)
  {
    if t == [] && HasToolSurface(a, t) {
      var i :| 0 <= i < |a| && CarriesTools(a[i]);
      assert CarriesTools(b[i]);
    }
  }

  lemma SameRequestSameBytes(r: Request, s: Request)
    requires SameRequest(r, s)
    ensures RequestBytes(r) == RequestBytes(s)
  {
    SameTurnBytes(r.messages, s.messages);
    SameListing(r.tools, s.tools, t => Definition(t));
    SameListing(r.messages, s.messages, m => Metadatum(m));
    SameSurface(r.messages, s.messages, r.tools, s.tools);
    SameSurface(s.messages, r.messages, s.tools, r.tools);
  }

  // ---- Different requests have different bytes ----------------------------

  lemma SameTailSameTools(r: Request, s: Request)
    requires ShortRequest(r) && ShortRequest(s) && |r.messages| == |s.messages|
    requires Tail(r) == Tail(s)
    ensures SameMetadata(r.messages, s.messages) && SameDefinitions(r.tools, s.tools)
  {
    if HasToolSurface(r.messages, r.tools) {
      assert |Tail(s)| >= 8;
      var x, y := Definitions(r.tools) + Metadata(r.messages), Definitions(s.tools) + Metadata(s.messages);
      CutCount(|r.tools|, |s.tools|, x, y);
      CutDefinitions(r.tools, s.tools, Metadata(r.messages), Metadata(s.messages));
      assert Metadata(r.messages) + [] == Metadata(s.messages) + [];
      CutMetadata(r.messages, s.messages, [], []);
    } else {
      assert !HasToolSurface(s.messages, s.tools);
      forall i | 0 <= i < |r.messages|
        ensures !CarriesTools(r.messages[i]) && !CarriesTools(s.messages[i])
      {
      }
    }
  }

  lemma SameBytesSameRequest(r: Request, s: Request)
    requires ShortRequest(r) && ShortRequest(s)
    requires RequestBytes(r) == RequestBytes(s)
    ensures SameRequest(r, s)
  {
    var r3, s3 := r.temperature + Tail(r), s.temperature + Tail(s);
    var r2, s2 := Word64(r.maxTokens) + r3, Word64(s.maxTokens) + s3;
    CutCount(|r.messages|, |s.messages|, Turns(r.messages) + r2, Turns(s.messages) + s2);
    CutTurns(r.messages, s.messages, r2, s2);
    CutWord(r.maxTokens, s.maxTokens, r3, s3);
    assert r.temperature == r3[..8] && s.temperature == s3[..8];
    assert Tail(r) == r3[8..] && Tail(s) == s3[8..];
    SameTailSameTools(r, s);
  }

  /** The hashed bytes are the request: although the tool block is conditional, two
      requests share their bytes exactly when they agree field by field, absent
      reading as empty. */
  lemma RequestBytesAreUnambiguous(r: Request, s: Request)
    requires ShortRequest(r) && ShortRequest(s)
    ensures RequestBytes(r) == RequestBytes(s) <==> SameRequest(r, s)
  {
    if RequestBytes(r) == RequestBytes(s) {
      SameBytesSameRequest(r, s);
    } else if SameRequest(r, s) {
      SameRequestSameBytes(r, s);
    }
  }

  function WithoutTools(ms: seq<Message>): (plain: seq<Message>)
    ensures SameTurns(ms, plain)
    ensures forall i :: 0 <= i < |plain| ==> !CarriesTools(plain[i])
  {
    seq(|ms|, i requires 0 <= i < |ms| => Message(ms[i].role, ms[i].content, None, None))
  }

  /** The bytes of a request are those of the conversation with every tool field
      dropped exactly when it has no tool surface, so a caller without tools is
      unaffected by the block and one with tools always signs them. */
  lemma NoSurfaceIsToolFree(r: Request)
    ensures RequestBytes(r) == RequestBytes(Request(WithoutTools(r.messages), r.maxTokens, r.temperature, []))
            <==> !HasToolSurface(r.messages, r.tools)
  {
    var plain := WithoutTools(r.messages);
    var s := Request(plain, r.maxTokens, r.temperature, []);
    SameTurnBytes(r.messages, plain);
    assert !HasToolSurface(plain, []);
    if HasToolSurface(r.messages, r.tools) {
      assert |Tail(r)| >= 8 && |Tail(s)| == 0;
      assert |RequestBytes(r)| > |RequestBytes(s)|;
    }
  }

  // ---- The run authorization ----------------------------------------------

  datatype RunAuthorization = RunAuthorization(
    fromPublicKey: bytes, provider: bytes, model: bytes, timestamp: int, request: Request)

  function RunAuthDomain(): (d: bytes)
    ensures |d| == 37
  {
    Ascii("matrix/inference/run-authorization/v1")
  }

  /** A 32-byte hash of any bytes. */
  ghost predicate IsSha256(hash: bytes -> bytes) { forall p: bytes :: |hash(p)| == 32 }

  function RunSigningBytes(a: RunAuthorization, hash: bytes -> bytes): bytes {
    Lp(RunAuthDomain()) + (Lp(a.fromPublicKey) + (Lp(a.provider) + (Lp(a.model) +
      (Lp(hash(RequestBytes(a.request))) + Word64(a.timestamp)))))
  }

  predicate ShortRun(a: RunAuthorization) {
    Short(a.fromPublicKey) && Short(a.provider) && Short(a.model) && ShortRequest(a.request)
  }

  /** One signature authorizes one run: one key, provider, model, moment and
      request, given that the hash tells the two requests apart. */
  lemma RunBytesAreUnambiguous(a: RunAuthorization, b: RunAuthorization, hash: bytes -> bytes)
    requires ShortRun(a) && ShortRun(b) && IsSha256(hash)
    requires hash(RequestBytes(a.request)) == hash(RequestBytes(b.request))
             ==> RequestBytes(a.request) == RequestBytes(b.request)
    ensures RunSigningBytes(a, hash) == RunSigningBytes(b, hash)
            <==> a.fromPublicKey == b.fromPublicKey && a.provider == b.provider && a.model == b.model
                 && a.timestamp % TWO_64 == b.timestamp % TWO_64 && SameRequest(a.request, b.request)
  {
    RequestBytesAreUnambiguous(a.request, b.request);
    if RunSigningBytes(a, hash) == RunSigningBytes(b, hash) {
      var d, e := hash(RequestBytes(a.request)), hash(RequestBytes(b.request));
      var a4, b4 := Word64(a.timestamp), Word64(b.timestamp);
      var a3, b3 := Lp(d) + a4, Lp(e) + b4;
      var a2, b2 := Lp(a.model) + a3, Lp(b.model) + b3;
      var a1, b1 := Lp(a.provider) + a2, Lp(b.provider) + b2;
      CutLp(RunAuthDomain(), RunAuthDomain(), Lp(a.fromPublicKey) + a1, Lp(b.fromPublicKey) + b1);
      CutLp(a.fromPublicKey, b.fromPublicKey, a1, b1);
      CutLp(a.provider, b.provider, a2, b2);
      CutLp(a.model, b.model, a3, b3);
      CutLp(d, e, a4, b4);
      assert a4 + [] == b4 + [];
      CutWord(a.timestamp, b.timestamp, [], []);
    }
  }

  /** The domain separates the two signatures one key makes: a payment has the
      bytes of a run authorization for no 20-byte or 32-byte key. */
  lemma DomainSeparatesPayments(a: RunAuthorization, p: Payment, hash: bytes -> bytes)
    requires Short(p.fromPublicKey) && |p.fromPublicKey| != |RunAuthDomain()|
    ensures RunSigningBytes(a, hash) != PaymentSigningBytes(p)
  {
    var x := Lp(a.fromPublicKey) + (Lp(a.provider) + (Lp(a.model) +
      (Lp(hash(RequestBytes(a.request))) + Word64(a.timestamp))));
    var y := Lp(p.to) + (Word64(p.amount) + (Word64(p.nonce) + (Word64(p.timestamp) + Lp(p.prevHash))));
    if RunSigningBytes(a, hash) == PaymentSigningBytes(p) {
      CutLp(RunAuthDomain(), p.fromPublicKey, x, y);
    }
  }

  // ---- Receipts -----------------------------------------------------------

  function ReceiptDomain(): (d: bytes)
    ensures Short(d)
  {
    Ascii("matrix/inference/receipt/v1")
  }

  datatype Exchange = Exchange(messages: seq<Message>, completion: bytes, reasoning: bytes)

  function ExchangeBytes(e: Exchange): bytes {
    Lp(ReceiptDomain()) + (Word64(|e.messages|) + (Turns(e.messages) + (Lp(e.completion) + Lp(e.reasoning))))
  }

  predicate ShortExchange(e: Exchange) {
    ShortMessages(e.messages) && Short(e.completion) && Short(e.reasoning)
  }

  /** An exchange digest commits to the turns, the completion and the working; the
      tool metadata of the turns is not part of it. */
  lemma ExchangeBytesAreUnambiguous(e: Exchange, f: Exchange)
    requires ShortExchange(e) && ShortExchange(f)
    ensures ExchangeBytes(e) == ExchangeBytes(f)
            <==> SameTurns(e.messages, f.messages) && e.completion == f.completion && e.reasoning == f.reasoning
  {
    if SameTurns(e.messages, f.messages) {
      SameTurnBytes(e.messages, f.messages);
    }
    if ExchangeBytes(e) == ExchangeBytes(f) {
      var e3, f3 := Lp(e.reasoning), Lp(f.reasoning);
      var e2, f2 := Lp(e.completion) + e3, Lp(f.completion) + f3;
      var e1, f1 := Turns(e.messages) + e2, Turns(f.messages) + f2;
      CutLp(ReceiptDomain(), ReceiptDomain(), Word64(|e.messages|) + e1, Word64(|f.messages|) + f1);
      CutCount(|e.messages|, |f.messages|, e1, f1);
      CutTurns(e.messages, f.messages, e2, f2);
      CutLp(e.completion, f.completion, e3, f3);
      assert e3 + [] == f3 + [];
      CutLp(e.reasoning, f.reasoning, [], []);
    }
  }

  /** What a receipt's signature covers; the two base64 fields as the bytes they decode to. */
  datatype Receipt = Receipt(
    jobId: bytes, buyer: bytes, provider: bytes, nodeId: bytes, model: bytes,
    promptTokens: int, completionTokens: int, totalTokens: int,
    units: int, pricePerUnit: int, total: int, issuedAt: int,
    exchangeDigest: bytes, publicKey: bytes)

  function ReceiptNumbers(r: Receipt): bytes {
    Word64(r.promptTokens) + (Word64(r.completionTokens) + (Word64(r.totalTokens) + (Word64(r.units) +
      (Word64(r.pricePerUnit) + (Word64(r.total) + Word64(r.issuedAt))))))
  }

  function ReceiptSigningBytes(r: Receipt): bytes {
    Lp(ReceiptDomain()) + (Lp(r.jobId) + (Lp(r.buyer) + (Lp(r.provider) + (Lp(r.nodeId) + (Lp(r.model) +
      (ReceiptNumbers(r) + (Lp(r.exchangeDigest) + Lp(r.publicKey))))))))
  }

  predicate ShortReceipt(r: Receipt) {
    && Short(r.jobId) && Short(r.buyer) && Short(r.provider) && Short(r.nodeId) && Short(r.model)
    && Short(r.exchangeDigest) && Short(r.publicKey)
  }

  predicate SameNumbers(r: Receipt, s: Receipt) {
    && r.promptTokens % TWO_64 == s.promptTokens % TWO_64
    && r.completionTokens % TWO_64 == s.completionTokens % TWO_64
    && r.totalTokens % TWO_64 == s.totalTokens % TWO_64
    && r.units % TWO_64 == s.units % TWO_64
    && r.pricePerUnit % TWO_64 == s.pricePerUnit % TWO_64
    && r.total % TWO_64 == s.total % TWO_64
    && r.issuedAt % TWO_64 == s.issuedAt % TWO_64
  }

  predicate SameReceipt(r: Receipt, s: Receipt) {
    && r.jobId == s.jobId && r.buyer == s.buyer && r.provider == s.provider
    && r.nodeId == s.nodeId && r.model == s.model && SameNumbers(r, s)
    && r.exchangeDigest == s.exchangeDigest && r.publicKey == s.publicKey
  }

  lemma CutNumbers(r: Receipt, s: Receipt)
    requires ReceiptNumbers(r) == ReceiptNumbers(s)
    ensures SameNumbers(r, s)
  {
    var r6, s6 := Word64(r.issuedAt), Word64(s.issuedAt);
    var r5, s5 := Word64(r.total) + r6, Word64(s.total) + s6;
    var r4, s4 := Word64(r.pricePerUnit) + r5, Word64(s.pricePerUnit) + s5;
    var r3, s3 := Word64(r.units) + r4, Word64(s.units) + s4;
    var r2, s2 := Word64(r.totalTokens) + r3, Word64(s.totalTokens) + s3;
    var r1, s1 := Word64(r.completionTokens) + r2, Word64(s.completionTokens) + s2;
    CutWord(r.promptTokens, s.promptTokens, r1, s1);
    CutWord(r.completionTokens, s.completionTokens, r2, s2);
    CutWord(r.totalTokens, s.totalTokens, r3, s3);
    CutWord(r.units, s.units, r4, s4);
    CutWord(r.pricePerUnit, s.pricePerUnit, r5, s5);
    CutWord(r.total, s.total, r6, s6);
    assert r6 + [] == s6 + [];
    CutWord(r.issuedAt, s.issuedAt, [], []);
  }

  /** A receipt's signature covers every field, each to its last bit. */
  lemma ReceiptBytesAreUnambiguous(r: Receipt, s: Receipt)
    requires ShortReceipt(r) && ShortReceipt(s)
    ensures ReceiptSigningBytes(r) == ReceiptSigningBytes(s) <==> SameReceipt(r, s)
  {
    if ReceiptSigningBytes(r) == ReceiptSigningBytes(s) {
      var r7, s7 := Lp(r.publicKey), Lp(s.publicKey);
      var r6, s6 := Lp(r.exchangeDigest) + r7, Lp(s.exchangeDigest) + s7;
      var r5, s5 := ReceiptNumbers(r) + r6, ReceiptNumbers(s) + s6;
      var r4, s4 := Lp(r.model) + r5, Lp(s.model) + s5;
      var r3, s3 := Lp(r.nodeId) + r4, Lp(s.nodeId) + s4;
      var r2, s2 := Lp(r.provider) + r3, Lp(s.provider) + s3;
      var r1, s1 := Lp(r.buyer) + r2, Lp(s.buyer) + s2;
      CutLp(ReceiptDomain(), ReceiptDomain(), Lp(r.jobId) + r1, Lp(s.jobId) + s1);
      CutLp(r.jobId, s.jobId, r1, s1);
      CutLp(r.buyer, s.buyer, r2, s2);
      CutLp(r.provider, s.provider, r3, s3);
      CutLp(r.nodeId, s.nodeId, r4, s4);
      CutLp(r.model, s.model, r5, s5);
      assert ReceiptNumbers(r) == r5[..56] && ReceiptNumbers(s) == s5[..56];
      assert r6 == r5[56..] && s6 == s5[56..];
      CutNumbers(r, s);
      CutLp(r.exchangeDigest, s.exchangeDigest, r7, s7);
      assert r7 + [] == s7 + [];
      CutLp(r.publicKey, s.publicKey, [], []);
    }
  }
}
