/** The signed layouts field by field (packages/protocol/src/index.ts, receipt.ts): which
    fields, in which order, each as the bytes it is. */
module SignedFields {
  import opened Bytes
  import opened LockIds
  import opened SigningLayouts

  /** A text behind its length in four bytes, a number modulo 2^64 in eight, both from the
      high byte down, or bytes as they are. */
  datatype Field = Prefixed(text: bytes) | Number(value: int) | Verbatim(raw: bytes)

  function FourOctets(v: nat): bytes {
    [v / 0x100_0000 % 0x100, v / 0x1_0000 % 0x100, v / 0x100 % 0x100, v % 0x100]
  }

  function EightOctets(v: nat): bytes {
    [v / 0x100_0000_0000_0000 % 0x100, v / 0x1_0000_0000_0000 % 0x100, v / 0x100_0000_0000 % 0x100,
     v / 0x1_0000_0000 % 0x100, v / 0x100_0000 % 0x100, v / 0x1_0000 % 0x100, v / 0x100 % 0x100, v % 0x100]
  }

  function Written(f: Field): bytes {
    match f
    case Prefixed(text) => FourOctets(|text|) + text
    case Number(value) => EightOctets(value % 0x1_0000_0000_0000_0000)
    case Verbatim(raw) => raw
  }

  function AllWritten(fs: seq<Field>): bytes {
    if fs == [] then [] else Written(fs[0]) + AllWritten(fs[1..])
  }

  /** The fields of a list of things, one thing behind the other. */
  function Each<T>(items: seq<T>, of: T -> seq<Field>): seq<Field> {
    if items == [] then [] else of(items[0]) + Each(items[1..], of)
  }

  // ---- Words --------------------------------------------------------------

  lemma {:induction false} OneOctetMore(v: nat, n: nat)
    ensures BigEndian(v, n + 1) == BigEndian(v / 0x100, n) + [v % 0x100]
  {
  }

  lemma DividedOn(v: nat)
    ensures v / 0x100 / 0x100 == v / 0x1_0000 && v / 0x1_0000 / 0x100 == v / 0x100_0000
    ensures v / 0x100_0000 / 0x100 == v / 0x1_0000_0000
  {
  }

  lemma DividedFurther(v: nat)
    ensures v / 0x1_0000_0000 / 0x100 == v / 0x100_0000_0000
    ensures v / 0x1_0000_0000 / 0x1_0000 == v / 0x1_0000_0000_0000
    ensures v / 0x1_0000_0000 / 0x100_0000 == v / 0x100_0000_0000_0000
  {
  }

  /** Behind n bytes of what is left of it, the low four bytes of v. */
  lemma LowFour(v: nat, n: nat)
    ensures BigEndian(v, n + 4) == BigEndian(v / 0x1_0000_0000, n) + FourOctets(v)
  {
    DividedOn(v);
    OneOctetMore(v, n + 3);
    OneOctetMore(v / 0x100, n + 2);
    OneOctetMore(v / 0x1_0000, n + 1);
    OneOctetMore(v / 0x100_0000, n);
    FourBehind(BigEndian(v / 0x1_0000_0000, n), v / 0x100_0000 % 0x100, v / 0x1_0000 % 0x100, v / 0x100 % 0x100,
               v % 0x100);
  }

  lemma FourBehind(x: bytes, a: byte, b: byte, c: byte, d: byte)
    ensures x + [a] + [b] + [c] + [d] == x + [a, b, c, d]
  {
  }

  lemma WordIsFourOctets(v: nat, n: nat)
    requires n == 4
    ensures BigEndian(v, n) == FourOctets(v)
  {
    LowFour(v, n - 4);
    assert [] + FourOctets(v) == FourOctets(v);
  }

  lemma WordIsEightOctets(v: nat, n: nat)
    requires n == 8
    ensures BigEndian(v, n) == EightOctets(v)
  {
    LowFour(v, n - 4);
    WordIsFourOctets(v / 0x1_0000_0000, n - 4);
    DividedFurther(v);
  }

  lemma TextIsWritten(text: bytes)
    ensures Lp(text) == Written(Prefixed(text))
  {
    WordIsFourOctets(|text|, 4);
  }

  lemma NumberIsWritten(value: int)
    ensures Word64(value) == Written(Number(value))
  {
    WordIsEightOctets(value % TWO_64, 8);
  }

  // ---- Lists of fields ----------------------------------------------------

  lemma Ahead(f: Field, fs: seq<Field>)
    ensures AllWritten([f] + fs) == Written(f) + AllWritten(fs)
  {
    assert ([f] + fs)[1..] == fs;
  }

  lemma {:induction false} WrittenConcat(a: seq<Field>, b: seq<Field>)
    ensures AllWritten(a + b) == AllWritten(a) + AllWritten(b)
  {
    if a == [] {
      assert a + b == b && [] + AllWritten(b) == AllWritten(b);
    } else {
      assert (a + b)[1..] == a[1..] + b;
      WrittenConcat(a[1..], b);
      Assoc(Written(a[0]), AllWritten(a[1..]), AllWritten(b));
    }
  }

  lemma TextAhead(text: bytes, fs: seq<Field>)
    ensures AllWritten([Prefixed(text)] + fs) == Lp(text) + AllWritten(fs)
  {
    TextIsWritten(text);
    Ahead(Prefixed(text), fs);
  }

  lemma NumberAhead(value: int, fs: seq<Field>)
    ensures AllWritten([Number(value)] + fs) == Word64(value) + AllWritten(fs)
  {
    NumberIsWritten(value);
    Ahead(Number(value), fs);
  }

  lemma LastText(text: bytes)
    ensures AllWritten([Prefixed(text)]) == Lp(text)
  {
    TextAhead(text, []);
    assert [Prefixed(text)] + [] == [Prefixed(text)] && Lp(text) + [] == Lp(text);
  }

  lemma LastNumber(value: int)
    ensures AllWritten([Number(value)]) == Word64(value)
  {
    NumberAhead(value, []);
    assert [Number(value)] + [] == [Number(value)] && Word64(value) + [] == Word64(value);
  }

  lemma ThreeTexts(a: bytes, b: bytes, c: bytes)
    ensures AllWritten([Prefixed(a), Prefixed(b), Prefixed(c)]) == Lp(a) + (Lp(b) + Lp(c))
  {
    LastText(c);
    TextAhead(b, [Prefixed(c)]);
    TextAhead(a, [Prefixed(b)] + [Prefixed(c)]);
    assert [Prefixed(a)] + ([Prefixed(b)] + [Prefixed(c)]) == [Prefixed(a), Prefixed(b), Prefixed(c)];
  }

  lemma {:induction false} EachEnds<T>(items: seq<T>, last: T, of: T -> seq<Field>)
    ensures Each(items + [last], of) == Each(items, of) + of(last)
  {
    if items == [] {
      assert items + [last] == [last] && [last][1..] == [];
      assert of(last) + [] == of(last) && [] + of(last) == of(last);
    } else {
      assert (items + [last])[1..] == items[1..] + [last];
      EachEnds(items[1..], last, of);
      assert of(items[0]) + (Each(items[1..], of) + of(last)) == of(items[0]) + Each(items[1..], of) + of(last);
    }
  }

  /** The bytes of a list are its things' fields in order, each thing once. */
  lemma {:induction false} ListingIsEach<T(!new)>(items: seq<T>, one: T -> bytes, of: T -> seq<Field>)
    requires forall t {:trigger one(t)} :: one(t) == AllWritten(of(t))
    ensures Listing(items, one) == AllWritten(Each(items, of))
  {
    if items != [] {
      var n := |items| - 1;
      ListingIsEach(items[..n], one, of);
      OneMoreWritten(items[..n], items[n], items, of);
    }
  }

  lemma OneMoreWritten<T>(items: seq<T>, last: T, all: seq<T>, of: T -> seq<Field>)
    requires all == items + [last]
    ensures AllWritten(Each(all, of)) == AllWritten(Each(items, of)) + AllWritten(of(last))
  {
    EachEnds(items, last, of);
    WrittenConcat(Each(items, of), of(last));
  }

  // ---- Payments and lock ids ----------------------------------------------

  /** A payment's bytes: sender's key, recipient, amount, nonce, moment, previous hash. */
  lemma PaymentLayout(p: Payment)
    ensures PaymentSigningBytes(p)
            == AllWritten([Prefixed(p.fromPublicKey), Prefixed(p.to), Number(p.amount), Number(p.nonce),
                           Number(p.timestamp), Prefixed(p.prevHash)])
  {
    var f5 := [Prefixed(p.prevHash)];
    var f4 := [Number(p.timestamp)] + f5;
    var f3 := [Number(p.nonce)] + f4;
    var f2 := [Number(p.amount)] + f3;
    var f1 := [Prefixed(p.to)] + f2;
    LastText(p.prevHash);
    NumberAhead(p.timestamp, f5);
    NumberAhead(p.nonce, f4);
    NumberAhead(p.amount, f3);
    TextAhead(p.to, f2);
    TextAhead(p.fromPublicKey, f1);
    assert [Prefixed(p.fromPublicKey)] + f1
        == [Prefixed(p.fromPublicKey), Prefixed(p.to), Number(p.amount), Number(p.nonce), Number(p.timestamp),
            Prefixed(p.prevHash)];
  }

  /** What a lock id hashes: nonce or sequence number, sender, recipient, amount. */
  lemma LockLayout(nonce: uint64, sender: bytes, recipient: Address, amount: uint64)
    ensures LockPreimage(nonce, sender, recipient, amount)
            == AllWritten([Number(nonce), Prefixed(sender), Verbatim(recipient), Number(amount)])
  {
    var f2 := [Verbatim(recipient)] + [Number(amount)];
    LastNumber(amount);
    Ahead(Verbatim(recipient), [Number(amount)]);
    TextAhead(sender, f2);
    NumberAhead(nonce, [Prefixed(sender)] + f2);
    assert [Number(nonce)] + ([Prefixed(sender)] + f2)
        == [Number(nonce), Prefixed(sender), Verbatim(recipient), Number(amount)];
    FiveParts(U64(nonce), U32(|sender|), sender, recipient, U64(amount));
    WordFits(nonce);
    WordFits(amount);
  }

  lemma WordFits(v: uint64)
    ensures Word64(v) == U64(v)
  {
  }

  lemma FiveParts(a: bytes, b: bytes, c: bytes, d: bytes, e: bytes)
    ensures a + b + c + d + e == a + ((b + c) + (d + e))
  {
  }

  // ---- Requests and runs --------------------------------------------------

  function TurnFields(ms: seq<Message>): seq<Field> {
    Each(ms, (m: Message) => [Prefixed(RoleName(m.role)), Prefixed(m.content)])
  }

  function DefinitionFields(ts: seq<ToolDefinition>): seq<Field> {
    Each(ts, (t: ToolDefinition) => [Prefixed(t.name), Prefixed(Text(t.description)), Prefixed(Text(t.parameters))])
  }

  function CallFields(cs: seq<ToolCall>): seq<Field> {
    Each(cs, (c: ToolCall) => [Prefixed(c.id), Prefixed(c.name), Prefixed(c.arguments)])
  }

  function MetadataFields(ms: seq<Message>): seq<Field> {
    Each(ms, (m: Message) => [Prefixed(Text(m.toolCallId)), Number(|Calls(m)|)] + CallFields(Calls(m)))
  }

  lemma TurnsLayout(ms: seq<Message>)
    ensures Turns(ms) == AllWritten(TurnFields(ms))
  {
    var of := (m: Message) => [Prefixed(RoleName(m.role)), Prefixed(m.content)];
    forall m: Message ensures Turn(m) == AllWritten(of(m)) {
      LastText(m.content);
      TextAhead(RoleName(m.role), [Prefixed(m.content)]);
      assert [Prefixed(RoleName(m.role))] + [Prefixed(m.content)] == of(m);
    }
    ListingIsEach(ms, m => Turn(m), of);
  }

  lemma DefinitionsLayout(ts: seq<ToolDefinition>)
    ensures Definitions(ts) == AllWritten(DefinitionFields(ts))
  {
    var of := (t: ToolDefinition) => [Prefixed(t.name), Prefixed(Text(t.description)), Prefixed(Text(t.parameters))];
    forall t: ToolDefinition ensures Definition(t) == AllWritten(of(t)) {
      ThreeTexts(t.name, Text(t.description), Text(t.parameters));
    }
    ListingIsEach(ts, t => Definition(t), of);
  }

  lemma CallsLayout(cs: seq<ToolCall>)
    ensures CallList(cs) == AllWritten(CallFields(cs))
  {
    var of := (c: ToolCall) => [Prefixed(c.id), Prefixed(c.name), Prefixed(c.arguments)];
    forall c: ToolCall ensures Call(c) == AllWritten(of(c)) {
      ThreeTexts(c.id, c.name, c.arguments);
    }
    ListingIsEach(cs, c => Call(c), of);
  }

  lemma MetadataLayout(ms: seq<Message>)
    ensures Metadata(ms) == AllWritten(MetadataFields(ms))
  {
    var of := (m: Message) => [Prefixed(Text(m.toolCallId)), Number(|Calls(m)|)] + CallFields(Calls(m));
    forall m: Message ensures Metadatum(m) == AllWritten(of(m)) {
      MetadatumLayout(m);
    }
    ListingIsEach(ms, m => Metadatum(m), of);
  }

  lemma MetadatumLayout(m: Message)
    ensures Metadatum(m)
            == AllWritten([Prefixed(Text(m.toolCallId)), Number(|Calls(m)|)] + CallFields(Calls(m)))
  {
    var calls := CallFields(Calls(m));
    CallsLayout(Calls(m));
    NumberAhead(|Calls(m)|, calls);
    TextAhead(Text(m.toolCallId), [Number(|Calls(m)|)] + calls);
    assert [Prefixed(Text(m.toolCallId))] + ([Number(|Calls(m)|)] + calls)
        == [Prefixed(Text(m.toolCallId)), Number(|Calls(m)|)] + calls;
  }

  /** A tool block, where there is one: the definitions behind their count, then what the
      turns carry of tools. */
  function ToolFields(r: Request): seq<Field> {
    if HasToolSurface(r.messages, r.tools)
    then [Number(|r.tools|)] + (DefinitionFields(r.tools) + MetadataFields(r.messages)) else []
  }

  lemma TailLayout(r: Request)
    ensures Tail(r) == AllWritten(ToolFields(r))
  {
    DefinitionsLayout(r.tools);
    MetadataLayout(r.messages);
    WrittenConcat(DefinitionFields(r.tools), MetadataFields(r.messages));
    NumberAhead(|r.tools|, DefinitionFields(r.tools) + MetadataFields(r.messages));
  }

  /** What is hashed for a request: the turns behind their count, the token budget, the
      temperature as it is, and the tool block. */
  lemma RequestLayout(r: Request)
    ensures RequestBytes(r)
            == AllWritten([Number(|r.messages|)] + TurnFields(r.messages)
                          + [Number(r.maxTokens), Verbatim(r.temperature)] + ToolFields(r))
  {
    var (turns, tools) := (TurnFields(r.messages), ToolFields(r));
    var (f2, f3) := ([Number(r.maxTokens)] + ([Verbatim(r.temperature)] + tools), [Verbatim(r.temperature)] + tools);
    TailLayout(r);
    TurnsLayout(r.messages);
    Ahead(Verbatim(r.temperature), tools);
    NumberAhead(r.maxTokens, f3);
    WrittenConcat(turns, f2);
    NumberAhead(|r.messages|, turns + f2);
    TwoBetween(Number(|r.messages|), turns, Number(r.maxTokens), Verbatim(r.temperature), tools);
  }

  lemma TwoBetween(a: Field, fs: seq<Field>, b: Field, c: Field, gs: seq<Field>)
    ensures [a] + (fs + ([b] + ([c] + gs))) == [a] + fs + [b, c] + gs
  {
  }

  /** Turn i is its role's name and its content, in that order, at its place. */
  lemma {:induction false} TurnAt(ms: seq<Message>, i: nat)
    requires i < |ms|
    ensures |TurnFields(ms)| == 2 * |ms|
    ensures TurnFields(ms)[2 * i] == Prefixed(RoleName(ms[i].role))
    ensures TurnFields(ms)[2 * i + 1] == Prefixed(ms[i].content)
    decreases ms
  {
    var first := [Prefixed(RoleName(ms[0].role)), Prefixed(ms[0].content)];
    assert TurnFields(ms) == first + TurnFields(ms[1..]);
    if |ms| > 1 { TurnAt(ms[1..], if i > 0 then i - 1 else 0); }
  }

  /** matrix/inference/run-authorization/v1 */
  const RUN_DOMAIN: bytes := [
    0x6d, 0x61, 0x74, 0x72, 0x69, 0x78, 0x2f, 0x69, 0x6e, 0x66, 0x65, 0x72, 0x65, 0x6e, 0x63, 0x65, 0x2f, 0x72,
    0x75, 0x6e, 0x2d, 0x61, 0x75, 0x74, 0x68, 0x6f, 0x72, 0x69, 0x7a, 0x61, 0x74, 0x69, 0x6f, 0x6e, 0x2f, 0x76,
    0x31]

  /** A run authorization: domain, key, provider, model, the request's digest, moment. */
  lemma RunLayout(a: RunAuthorization, hash: bytes -> bytes)
    ensures RunSigningBytes(a, hash)
            == AllWritten([Prefixed(RUN_DOMAIN), Prefixed(a.fromPublicKey), Prefixed(a.provider), Prefixed(a.model),
                           Prefixed(hash(RequestBytes(a.request))), Number(a.timestamp)])
  {
    var digest := hash(RequestBytes(a.request));
    var f5 := [Number(a.timestamp)];
    var f4 := [Prefixed(digest)] + f5;
    var f3 := [Prefixed(a.model)] + f4;
    var f2 := [Prefixed(a.provider)] + f3;
    var f1 := [Prefixed(a.fromPublicKey)] + f2;
    LastNumber(a.timestamp);
    TextAhead(digest, f5);
    TextAhead(a.model, f4);
    TextAhead(a.provider, f3);
    TextAhead(a.fromPublicKey, f2);
    TextAhead(RUN_DOMAIN, f1);
    RunDomainIs();
    assert [Prefixed(RUN_DOMAIN)] + f1
        == [Prefixed(RUN_DOMAIN), Prefixed(a.fromPublicKey), Prefixed(a.provider), Prefixed(a.model),
            Prefixed(digest), Number(a.timestamp)];
  }

  lemma RunDomainIs()
    ensures RunAuthDomain() == RUN_DOMAIN
  {
  }

  // ---- Receipts -----------------------------------------------------------

  /** matrix/inference/receipt/v1 */
  const RECEIPT_DOMAIN: bytes := [
    0x6d, 0x61, 0x74, 0x72, 0x69, 0x78, 0x2f, 0x69, 0x6e, 0x66, 0x65, 0x72, 0x65, 0x6e, 0x63, 0x65, 0x2f, 0x72,
    0x65, 0x63, 0x65, 0x69, 0x70, 0x74, 0x2f, 0x76, 0x31]

  lemma ReceiptDomainIs()
    ensures ReceiptDomain() == RECEIPT_DOMAIN
  {
  }

  /** An exchange: domain, the turns behind their count, completion, working. */
  lemma ExchangeLayout(e: Exchange)
    ensures ExchangeBytes(e)
            == AllWritten([Prefixed(RECEIPT_DOMAIN), Number(|e.messages|)] + TurnFields(e.messages)
                          + [Prefixed(e.completion), Prefixed(e.reasoning)])
  {
    var (turns, f3) := (TurnFields(e.messages), [Prefixed(e.completion)] + [Prefixed(e.reasoning)]);
    LastText(e.reasoning);
    TextAhead(e.completion, [Prefixed(e.reasoning)]);
    TurnsLayout(e.messages);
    WrittenConcat(turns, f3);
    NumberAhead(|e.messages|, turns + f3);
    TextAhead(RECEIPT_DOMAIN, [Number(|e.messages|)] + (turns + f3));
    ReceiptDomainIs();
    TwoAhead(Prefixed(RECEIPT_DOMAIN), Number(|e.messages|), turns, Prefixed(e.completion), Prefixed(e.reasoning));
  }

  lemma TwoAhead(a: Field, b: Field, fs: seq<Field>, c: Field, d: Field)
    ensures [a] + ([b] + (fs + ([c] + [d]))) == [a, b] + fs + [c, d]
  {
  }

  function NumberFields(r: Receipt): seq<Field> {
    [Number(r.promptTokens), Number(r.completionTokens), Number(r.totalTokens), Number(r.units),
     Number(r.pricePerUnit), Number(r.total), Number(r.issuedAt)]
  }

  lemma NumbersLayout(r: Receipt)
    ensures ReceiptNumbers(r) == AllWritten(NumberFields(r))
  {
    var f6 := [Number(r.issuedAt)];
    var f5 := [Number(r.total)] + f6;
    var f4 := [Number(r.pricePerUnit)] + f5;
    var f3 := [Number(r.units)] + f4;
    var f2 := [Number(r.totalTokens)] + f3;
    var f1 := [Number(r.completionTokens)] + f2;
    LastNumber(r.issuedAt);
    NumberAhead(r.total, f6);
    NumberAhead(r.pricePerUnit, f5);
    NumberAhead(r.units, f4);
    NumberAhead(r.totalTokens, f3);
    NumberAhead(r.completionTokens, f2);
    NumberAhead(r.promptTokens, f1);
    assert [Number(r.promptTokens)] + f1 == NumberFields(r);
  }

  /** A receipt: domain, five texts, seven numbers, the exchange's digest and the key. */
  lemma ReceiptLayout(r: Receipt)
    ensures ReceiptSigningBytes(r)
            == AllWritten([Prefixed(RECEIPT_DOMAIN), Prefixed(r.jobId), Prefixed(r.buyer), Prefixed(r.provider),
                           Prefixed(r.nodeId), Prefixed(r.model)] + NumberFields(r)
                          + [Prefixed(r.exchangeDigest), Prefixed(r.publicKey)])
  {
    var end := [Prefixed(r.exchangeDigest)] + [Prefixed(r.publicKey)];
    var f5 := NumberFields(r) + end;
    var f4 := [Prefixed(r.model)] + f5;
    var f3 := [Prefixed(r.nodeId)] + f4;
    var f2 := [Prefixed(r.provider)] + f3;
    var f1 := [Prefixed(r.buyer)] + f2;
    var f0 := [Prefixed(r.jobId)] + f1;
    LastText(r.publicKey);
    TextAhead(r.exchangeDigest, [Prefixed(r.publicKey)]);
    NumbersLayout(r);
    WrittenConcat(NumberFields(r), end);
    TextAhead(r.model, f5);
    TextAhead(r.nodeId, f4);
    TextAhead(r.provider, f3);
    TextAhead(r.buyer, f2);
    TextAhead(r.jobId, f1);
    TextAhead(RECEIPT_DOMAIN, f0);
    ReceiptDomainIs();
    SixAhead(Prefixed(RECEIPT_DOMAIN), Prefixed(r.jobId), Prefixed(r.buyer), Prefixed(r.provider), Prefixed(r.nodeId),
             Prefixed(r.model), NumberFields(r), Prefixed(r.exchangeDigest), Prefixed(r.publicKey));
  }

  lemma SixAhead(a: Field, b: Field, c: Field, d: Field, e: Field, f: Field, fs: seq<Field>, g: Field, h: Field)
    ensures [a] + ([b] + ([c] + ([d] + ([e] + ([f] + (fs + ([g] + [h])))))))
            == [a, b, c, d, e, f] + fs + [g, h]
  {
  }
}
