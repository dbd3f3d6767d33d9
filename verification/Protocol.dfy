/** The protocol package's builders (packages/protocol/src/index.ts): the loops that
    assemble a request's parts and flatten them. */
module Protocol {
  import opened Bytes
  import opened Options
  import opened SigningLayouts

  function Flatten(parts: seq<bytes>): bytes { Listing(parts, (p: bytes) => p) }

  lemma FlattenPush(parts: seq<bytes>, p: bytes)
    ensures Flatten(parts + [p]) == Flatten(parts) + p
  {
    assert (parts + [p])[..|parts|] == parts;
  }

  lemma FlattenOne(p: bytes)
    ensures Flatten([p]) == p
  {
    FlattenPush([], p);
  }

  lemma FlattenTwo(parts: seq<bytes>, p: bytes, q: bytes)
    ensures Flatten(parts + [p, q]) == Flatten(parts) + (p + q)
  {
    FlattenPush(parts, p);
    FlattenPush(parts + [p], q);
    assert parts + [p, q] == parts + [p] + [q];
    Assoc(Flatten(parts), p, q);
  }

  lemma FlattenThree(parts: seq<bytes>, p: bytes, q: bytes, r: bytes)
    ensures Flatten(parts + [p, q, r]) == Flatten(parts) + (p + (q + r))
  {
    FlattenTwo(parts, p, q);
    FlattenPush(parts + [p, q], r);
    assert parts + [p, q, r] == parts + [p, q] + [r];
    Assoc(Flatten(parts), p + q, r);
    Assoc(p, q, r);
  }

  lemma {:induction false} FlattenAppend(a: seq<bytes>, b: seq<bytes>)
    ensures Flatten(a + b) == Flatten(a) + Flatten(b)
  {
    if b == [] {
      assert a + b == a;
    } else {
      var n := |b| - 1;
      FlattenAppend(a, b[..n]);
      FlattenPush(a + b[..n], b[n]);
      assert a + b == a + b[..n] + [b[n]];
      Assoc(Flatten(a), Flatten(b[..n]), b[n]);
    }
  }

  lemma ListingNext<T>(items: seq<T>, i: nat, one: T -> bytes)
    requires i < |items|
    ensures Listing(items[..i + 1], one) == Listing(items[..i], one) + one(items[i])
  {
    assert items[..i + 1][..i] == items[..i];
  }

  lemma {:induction false} PartFits(parts: seq<bytes>, i: nat)
    requires i < |parts|
    ensures |Flatten(parts[..i])| + |parts[i]| <= |Flatten(parts)|
    decreases |parts| - i
  {
    ListingNext(parts, i, (p: bytes) => p);
    if i + 1 < |parts| {
      PartFits(parts, i + 1);
    } else {
      assert parts[..i + 1] == parts;
    }
  }

  /** TypedArray.set: the bytes land at the offset, the rest of the buffer keeps. */
  method SetBytes(out: array<byte>, at: nat, b: bytes)
    requires at + |b| <= out.Length
    modifies out
    ensures out[..at + |b|] == old(out[..at]) + b
    ensures out[at + |b|..] == old(out[at + |b|..])
  {
    forall i | 0 <= i < |b| {
      out[at + i] := b[i];
    }
  }

  /** The size is summed first, then every part is copied behind the one before: the
      buffer is exactly the parts, no byte left over and none written twice. */
  method Concat(parts: seq<bytes>) returns (out: array<byte>)
    ensures fresh(out) && out[..] == Flatten(parts)
  {
    var size := 0;
    for i := 0 to |parts|
      invariant size == |Flatten(parts[..i])|
    {
      ListingNext(parts, i, (p: bytes) => p);
      size := size + |parts[i]|;
    }
    assert parts[..|parts|] == parts;
    out := new byte[size](_ => 0);
    var at := 0;
    for i := 0 to |parts|
      invariant at == |Flatten(parts[..i])| <= out.Length == |Flatten(parts)|
      invariant out[..at] == Flatten(parts[..i])
    {
      PartFits(parts, i);
      ListingNext(parts, i, (p: bytes) => p);
      SetBytes(out, at, parts[i]);
      at := at + |parts[i]|;
    }
    assert out[..] == out[..at];
  }

  method CallParts(before: seq<bytes>, calls: seq<ToolCall>) returns (parts: seq<bytes>)
    ensures Flatten(parts) == Flatten(before) + CallList(calls)
  {
    parts := before;
    var one := (c: ToolCall) => Call(c);
    for i := 0 to |calls|
      invariant Flatten(parts) == Flatten(before) + Listing(calls[..i], one)
    {
      var c := calls[i];
      ListingNext(calls, i, one);
      FlattenThree(parts, Lp(c.id), Lp(c.name), Lp(c.arguments));
      Assoc(Flatten(before), Listing(calls[..i], one), one(c));
      parts := parts + [Lp(c.id), Lp(c.name), Lp(c.arguments)];
    }
    assert calls[..|calls|] == calls;
  }

  method DefinitionParts(before: seq<bytes>, tools: seq<ToolDefinition>) returns (parts: seq<bytes>)
    ensures Flatten(parts) == Flatten(before) + Definitions(tools)
  {
    parts := before;
    var one := (t: ToolDefinition) => Definition(t);
    for i := 0 to |tools|
      invariant Flatten(parts) == Flatten(before) + Listing(tools[..i], one)
    {
      var t := tools[i];
      ListingNext(tools, i, one);
      FlattenThree(parts, Lp(t.name), Lp(Text(t.description)), Lp(Text(t.parameters)));
      Assoc(Flatten(before), Listing(tools[..i], one), one(t));
      parts := parts + [Lp(t.name), Lp(Text(t.description)), Lp(Text(t.parameters))];
    }
    assert tools[..|tools|] == tools;
  }

  method MetadataParts(before: seq<bytes>, messages: seq<Message>) returns (parts: seq<bytes>)
    ensures Flatten(parts) == Flatten(before) + Metadata(messages)
  {
    parts := before;
    var one := (m: Message) => Metadatum(m);
    for i := 0 to |messages|
      invariant Flatten(parts) == Flatten(before) + Listing(messages[..i], one)
    {
      var m := messages[i];
      ghost var start := parts;
      FlattenPush(parts, Lp(Text(m.toolCallId)));
      parts := parts + [Lp(Text(m.toolCallId))];
      var calls := Calls(m);
      FlattenPush(parts, Word64(|calls|));
      parts := parts + [Word64(|calls|)];
      parts := CallParts(parts, calls);
      MetadatumPushed(Flatten(start), m);
      ListingNext(messages, i, one);
      Assoc(Flatten(before), Listing(messages[..i], one), one(m));
    }
    assert messages[..|messages|] == messages;
  }

  lemma MetadatumPushed(start: bytes, m: Message)
    ensures ((start + Lp(Text(m.toolCallId))) + Word64(|Calls(m)|)) + CallList(Calls(m)) == start + Metadatum(m)
  {
    Assoc(start + Lp(Text(m.toolCallId)), Word64(|Calls(m)|), CallList(Calls(m)));
    Assoc(start, Lp(Text(m.toolCallId)), Word64(|Calls(m)|) + CallList(Calls(m)));
  }

  /** The tool definitions in the order given, then every turn's tool metadata. */
  method ToolBlock(messages: seq<Message>, tools: seq<ToolDefinition>) returns (parts: seq<bytes>)
    ensures Flatten(parts) == ToolBlockBytes(messages, tools)
  {
    parts := [Word64(|tools|)];
    FlattenOne(Word64(|tools|));
    parts := DefinitionParts(parts, tools);
    parts := MetadataParts(parts, messages);
    Assoc(Word64(|tools|), Definitions(tools), Metadata(messages));
  }

  method TurnParts(before: seq<bytes>, messages: seq<Message>) returns (parts: seq<bytes>)
    ensures Flatten(parts) == Flatten(before) + Turns(messages)
  {
    parts := before;
    var one := (m: Message) => Turn(m);
    for i := 0 to |messages|
      invariant Flatten(parts) == Flatten(before) + Listing(messages[..i], one)
    {
      var m := messages[i];
      FlattenTwo(parts, Lp(RoleName(m.role)), Lp(m.content));
      ListingNext(messages, i, one);
      Assoc(Flatten(before), Listing(messages[..i], one), one(m));
      parts := parts + [Lp(RoleName(m.role)), Lp(m.content)];
    }
    assert messages[..|messages|] == messages;
  }

  /** The digest of a request is the hash of its layout. */
  method MessagesDigest(r: Request, hash: bytes -> bytes) returns (digest: bytes)
    ensures digest == hash(RequestBytes(r))
  {
    var parts: seq<bytes> := [Word64(|r.messages|)];
    FlattenOne(Word64(|r.messages|));
    parts := TurnParts(parts, r.messages);
    FlattenPush(parts, Word64(r.maxTokens));
    parts := parts + [Word64(r.maxTokens)];
    FlattenPush(parts, r.temperature);
    parts := parts + [r.temperature];
    ghost var head := Flatten(parts);
    if HasToolSurface(r.messages, r.tools) {
      var block := ToolBlock(r.messages, r.tools);
      FlattenAppend(parts, block);
      parts := parts + block;
    } else {
      assert head + [] == head;
    }
    RequestAssembled(r);
    var out := Concat(parts);
    digest := hash(out[..]);
  }

  lemma RequestAssembled(r: Request)
    ensures (((Word64(|r.messages|) + Turns(r.messages)) + Word64(r.maxTokens)) + r.temperature) + Tail(r)
            == RequestBytes(r)
  {
    var (n, t, w) := (Word64(|r.messages|), Turns(r.messages), Word64(r.maxTokens));
    Assoc((n + t) + w, r.temperature, Tail(r));
    Assoc(n + t, w, r.temperature + Tail(r));
    Assoc(n, t, w + (r.temperature + Tail(r)));
  }
}
