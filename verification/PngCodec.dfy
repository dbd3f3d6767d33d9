/** Decoding and encoding whole files (apps/web/scripts/brand/pngtool.py), and the
    round trips between them. */
module PngCodec {
  import opened Bytes
  import opened Options
  import opened PngFilters
  import opened Png

  // ---- Decoding -----------------------------------------------------------

  /** n rows of `stride` bytes. */
  function Total(stride: nat, n: nat): nat { if n == 0 then 0 else stride + Total(stride, n - 1) }

  lemma {:induction false} TotalIsProduct(w: nat, n: nat)
    ensures Total(4 * w, n) == 4 * (w * n)
  {
    if n > 0 {
      TotalIsProduct(w, n - 1);
      assert w * n == w * (n - 1) + w;
    }
  }

  /** One scanline: its filter undone in a buffer of its own. */
  method DecodeLine(ft: byte, line: bytes, prev: bytes, channels: Channels) returns (r: Result<bytes>)
    requires |line| == |prev|
    ensures r == if ft > 4 then Err(BadFilter) else Ok(Unfiltered(ft, line, prev, channels, |prev|))
  {
    var buffer := new byte[|line|](i requires 0 <= i < |line| => line[i]);
    assert buffer[..] == line;
    var ok := UndoFilter(ft, buffer, prev, channels);
    r := if ok then Ok(buffer[..]) else Err(BadFilter);
  }

  lemma DropTwice(s: bytes, m: nat, n: nat)
    requires m + n <= |s|
    ensures s[m..][n..] == s[m + n..]
  {
  }

  /** The reader is the one for these channels; spelled out only where a line is read. */
  ghost predicate Reads(reader: Reader, channels: Channels) {
    && (forall ft, line, prev {:trigger Unfiltered(ft, line, prev, channels, |prev|)} ::
          |line| == |prev| ==> reader.undo(ft, line, prev) == Unfiltered(ft, line, prev, channels, |prev|))
    && (forall row {:trigger Rgba(row, channels)} :: reader.rgba(row) == Rgba(row, channels))
  }

  /** The scanline at p, decoded or refused; `all` is what the whole loop gives. */
  method NextRow(
      raw: bytes, p: nat, prev: bytes, ghost n: nat, channels: Channels, ghost reader: Reader, ghost done: bytes,
      ghost all: Result<bytes>)
    returns (row: Result<bytes>)
    requires Reads(reader, channels)
    requires n > 0 && p <= |raw| && all == Rows(raw[p..], prev, n, reader, done)
    ensures row.Err? ==> all == Err(row.error)
    ensures row.Ok? ==> |row.value| == |prev| && p + 1 + |prev| <= |raw|
    ensures row.Ok? ==> all == Rows(raw[p + 1 + |prev|..], row.value, n - 1, reader, done + reader.rgba(row.value))
  {
    if p >= |raw| {
      return Err(IndexError);
    }
    if |raw| < p + 1 + |prev| {
      return Err(if raw[p] > 4 then BadFilter else IndexError);
    }
    DropTwice(raw, p, 1 + |prev|);
    assert raw[p..][1..1 + |prev|] == raw[p + 1..p + 1 + |prev|];
    row := DecodeLine(raw[p], raw[p + 1..p + 1 + |prev|], prev, channels);
  }

  /** The row's pixels, below the ones done. */
  method PutRow(
      out: array<byte>, at: nat, row: bytes, w: nat, channels: Channels, ghost reader: Reader, ghost done: bytes)
    requires Reads(reader, channels)
    requires |row| == Stride(w, channels) && at + 4 * w <= out.Length && out[..at] == done
    modifies out
    ensures out[..at + 4 * w] == done + reader.rgba(row)
  {
    CopyRow(out, at, row, w, channels, done);
  }

  /** The scanline loop: the rows one below the other in one RGBA buffer, row y at
      byte 4 * w * y. */
  method FillRows(raw: bytes, w: nat, height: nat, first: bytes, channels: Channels, ghost reader: Reader)
    returns (r: Result<bytes>)
    requires |first| == Stride(w, channels) && Reads(reader, channels)
    ensures r == Rows(raw, first, height, reader, [])
  {
    var out := new byte[Total(4 * w, height)](_ => 0);
    var prev := first;
    var p: nat, at: nat, left: nat := 0, 0, height;
    ghost var all := Rows(raw, first, height, reader, []);
    ghost var done: bytes := [];
    assert raw[0..] == raw;
    while left > 0
      invariant |prev| == Stride(w, channels) && at + Total(4 * w, left) == out.Length && p <= |raw|
      invariant out[..at] == done
      invariant all == Rows(raw[p..], prev, left, reader, done)
    {
      var row := NextRow(raw, p, prev, left, channels, reader, done, all);
      if row.Err? {
        return Err(row.error);
      }
      PutRow(out, at, row.value, w, channels, reader, done);
      done := done + reader.rgba(row.value);
      p, at, left := p + 1 + |prev|, at + 4 * w, left - 1;
      prev := row.value;
    }
    assert out[..] == out[..at];
    r := Ok(out[..]);
  }

  method DecodeRows(raw: bytes, h: Header) returns (r: Result<Image>)
    ensures r == DecodeRaw(raw, h)
  {
    var px := FillRows(raw, h.width, h.height, Zeros(Stride(h.width, h.channels)), h.channels, ReaderFor(h.channels));
    match px
    case Err(e) => r := Err(e);
    case Ok(pixels) => r := Ok(Image(h.width, h.height, pixels));
  }

  /** decode: the image of the file, or which of its failures. */
  method Decode(data: bytes, inflate: bytes -> Option<bytes>) returns (r: Result<Image>)
    ensures r == Decoded(data, inflate)
  {
    if Prefix(data, 8) != Signature() {
      return Err(NotPng);
    }
    var found := WalkChunks(data);
    if found.Err? {
      return Err(found.error);
    }
    if found.value.header.None? {
      return Err(NoHeader);
    }
    var raw := inflate(found.value.idat);
    if raw.None? {
      return Err(ZlibError);
    }
    r := DecodeRows(raw.value, found.value.header.value);
  }

  // ---- Encoding -----------------------------------------------------------

  /** n more rows of raw bytes behind the ones done: filter type 0, then the pixels. */
  function PlainLines(px: bytes, at: nat, stride: nat, n: nat, done: bytes): bytes
    decreases n
  {
    if n == 0 then done
    else PlainLines(px, at + stride, stride, n - 1, done + ([0] + Slice(px, at, stride)))
  }

  function Chunk(kind: bytes, body: bytes, crc: bytes -> nat): bytes {
    U32(|body|) + (kind + (body + U32(crc(kind + body) % TWO_32)))
  }

  function HeaderBody(h: Header): bytes {
    U32(h.width) + U32(h.height) + [8, if h.channels == 4 then 6 else 2, 0, 0, 0]
  }

  /** Signature, header, whatever lies between, end. */
  function File(h: Header, middle: bytes, crc: bytes -> nat, junk: bytes): bytes {
    Signature() + (Chunk(HeaderType(), HeaderBody(h), crc) + (middle + (Chunk(EndType(), [], crc) + junk)))
  }

  /** The file of an image, unless a size does not fit its 32-bit field. */
  function Encoded(im: Image, deflate: bytes -> bytes, crc: bytes -> nat): Result<bytes> {
    var z := deflate(PlainLines(im.pixels, 0, 4 * im.width, im.height, []));
    if im.width >= TWO_32 || im.height >= TWO_32 || |z| >= TWO_32 then Err(StructError)
    else Ok(File(Header(im.width, im.height, 4), Chunk(DataType(), z, crc), crc, []))
  }

  /** encode: the rows one behind the other, deflated into one data chunk. */
  method Encode(im: Image, deflate: bytes -> bytes, crc: bytes -> nat) returns (r: Result<bytes>)
    ensures r == Encoded(im, deflate, crc)
  {
    var raw: bytes := [];
    var stride := 4 * im.width;
    var at: nat, left: nat := 0, im.height;
    ghost var all := PlainLines(im.pixels, 0, stride, im.height, []);
    while left > 0
      invariant all == PlainLines(im.pixels, at, stride, left, raw)
    {
      raw := raw + ([0] + Slice(im.pixels, at, stride));
      at, left := at + stride, left - 1;
    }
    var z := deflate(raw);
    if im.width >= TWO_32 || im.height >= TWO_32 {
      return Err(StructError);
    }
    if |z| >= TWO_32 {
      return Err(StructError);
    }
    var header := Header(im.width, im.height, 4);
    var file := Signature();
    file := file + Chunk(HeaderType(), HeaderBody(header), crc);
    file := file + Chunk(DataType(), z, crc);
    file := file + Chunk(EndType(), [], crc);
    FileAssembled(Signature(), Chunk(HeaderType(), HeaderBody(header), crc), Chunk(DataType(), z, crc),
                  Chunk(EndType(), [], crc));
    r := Ok(file);
  }

  lemma FileAssembled(a: bytes, b: bytes, c: bytes, d: bytes)
    ensures ((a + b) + c) + d == a + (b + (c + (d + [])))
  {
    assert d + [] == d;
  }

  // ---- The bytes of a file ------------------------------------------------

  lemma Word32(v: nat)
    requires v < TWO_32
    ensures FromBigEndian(U32(v)) == v
  {
    PowersOf256();
    BigEndianRoundTrip(v, 4);
  }

  /** A chunk at byte `at` of a file: its length, its type, its body, and the CRC-32 of
      type and body. */
  ghost predicate ChunkAt(file: bytes, at: nat, kind: bytes, body: bytes, crc: bytes -> nat) {
    var end := at + 8 + |body|;
    && |kind| == 4 && end + 4 <= |file|
    && FromBigEndian(file[at..at + 4]) == |body| && file[at + 4..at + 8] == kind
    && file[at + 8..end] == body && FromBigEndian(file[end..end + 4]) == crc(kind + body) % 0x1_0000_0000
  }

  lemma ChunkIsAt(before: bytes, kind: bytes, body: bytes, after: bytes, crc: bytes -> nat)
    requires |kind| == 4 && |body| < TWO_32
    ensures |Chunk(kind, body, crc)| == 12 + |body|
    ensures ChunkAt(before + (Chunk(kind, body, crc) + after), |before|, kind, body, crc)
  {
    var (file, sum) := (before + (Chunk(kind, body, crc) + after), U32(crc(kind + body) % TWO_32));
    var (at, end) := (|before|, |before| + 8 + |body|);
    Word32(|body|);
    Word32(crc(kind + body) % TWO_32);
    assert file[at..at + 4] == U32(|body|) && file[at + 4..at + 8] == kind;
    assert file[at + 8..end] == body && file[end..end + 4] == sum;
  }

  /** IHDR, IDAT and IEND. */
  const HEADER_NAME: bytes := [0x49, 0x48, 0x44, 0x52]
  const DATA_NAME: bytes := [0x49, 0x44, 0x41, 0x54]
  const END_NAME: bytes := [0x49, 0x45, 0x4e, 0x44]

  /** What encode writes: the eight signature bytes, a header chunk that says width,
      height, eight bits, RGBA, and deflate, adaptive filtering and no interlacing, the
      deflated lines as one data chunk, and an end chunk with nothing behind it. */
  lemma EncodedLayout(im: Image, deflate: bytes -> bytes, crc: bytes -> nat, z: bytes, header: bytes)
    requires Encoded(im, deflate, crc).Ok?
    requires z == deflate(PlainLines(im.pixels, 0, 4 * im.width, im.height, []))
    requires header == U32(im.width) + U32(im.height) + [8, 6, 0, 0, 0]
    ensures var file := Encoded(im, deflate, crc).value;
            && |file| == 57 + |z| && file[..8] == [0x89, 0x50, 0x4e, 0x47, 0x0d, 0x0a, 0x1a, 0x0a]
            && ChunkAt(file, 8, HEADER_NAME, header, crc) && ChunkAt(file, 33, DATA_NAME, z, crc)
            && ChunkAt(file, 45 + |z|, END_NAME, [], crc)
            && FromBigEndian(header[..4]) == im.width && FromBigEndian(header[4..8]) == im.height
  {
    var (h, d, e) := (Chunk(HEADER_NAME, header, crc), Chunk(DATA_NAME, z, crc), Chunk(END_NAME, [], crc));
    var file := Encoded(im, deflate, crc).value;
    assert file == Signature() + (h + (d + (e + [])));
    ChunkIsAt(Signature(), HEADER_NAME, header, d + (e + []), crc);
    ChunkIsAt(Signature() + h, DATA_NAME, z, e + [], crc);
    ChunkIsAt(Signature() + h + d, END_NAME, [], [], crc);
    Assoc(Signature(), h, d + (e + []));
    Assoc(Signature() + h, d, e + []);
    HeaderWords(im, header);
  }

  lemma HeaderWords(im: Image, header: bytes)
    requires im.width < TWO_32 && im.height < TWO_32 && header == U32(im.width) + U32(im.height) + [8, 6, 0, 0, 0]
    ensures |header| == 13 && FromBigEndian(header[..4]) == im.width && FromBigEndian(header[4..8]) == im.height
  {
    Word32(im.width);
    Word32(im.height);
    assert header[..4] == U32(im.width) && header[4..8] == U32(im.height);
  }

  // ---- Reading chunks back ------------------------------------------------

  lemma HeaderParses(h: Header)
    requires h.width < TWO_32 && h.height < TWO_32
    ensures ParseHeader(HeaderBody(h)) == Ok(h)
  {
    var b := HeaderBody(h);
    PowersOf256();
    BigEndianRoundTrip(h.width, 4);
    BigEndianRoundTrip(h.height, 4);
    assert b[..4] == U32(h.width) && b[4..8] == U32(h.height);
  }

  /** A chunk at the head of the stream is read as what was written. */
  lemma ChunkRead(kind: bytes, body: bytes, rest: bytes, found: Found, crc: bytes -> nat)
    requires |kind| == 4 && |body| < TWO_32
    ensures Chunks(Chunk(kind, body, crc) + rest, found) == Proceed(Consume(kind, body, found), found, rest)
  {
    var s := Chunk(kind, body, crc) + rest;
    PowersOf256();
    BigEndianRoundTrip(|body|, 4);
    assert s[..4] == U32(|body|) && s[4..8] == kind;
    assert Slice(s, 8, |body|) == body;
    assert Suffix(s, 12 + |body|) == rest;
  }

  datatype RawChunk = RawChunk(kind: bytes, body: bytes)

  function ChunkBytes(cs: seq<RawChunk>, crc: bytes -> nat): bytes {
    if cs == [] then [] else Chunk(cs[0].kind, cs[0].body, crc) + ChunkBytes(cs[1..], crc)
  }

  function Carried(c: RawChunk): bytes { if c.kind == DataType() then c.body else [] }

  /** What the data chunks among them carry. */
  function DataIn(cs: seq<RawChunk>): bytes {
    if cs == [] then []
    else Carried(cs[0]) + DataIn(cs[1..])
  }

  predicate Skippable(c: RawChunk) {
    |c.kind| == 4 && c.kind != HeaderType() && c.kind != EndType() && |c.body| < TWO_32
  }

  /** Data chunks and chunks the decoder skips. */
  predicate Middle(cs: seq<RawChunk>) {
    forall i :: 0 <= i < |cs| ==> Skippable(cs[i])
  }

  lemma SkippableRead(c: RawChunk, rest: bytes, found: Found, crc: bytes -> nat)
    requires Skippable(c)
    ensures Chunks(Chunk(c.kind, c.body, crc) + rest, found) == Chunks(rest, found.(idat := found.idat + Carried(c)))
  {
    ChunkRead(c.kind, c.body, rest, found, crc);
    assert found.idat + [] == found.idat;
  }

  lemma EndRead(junk: bytes, found: Found, crc: bytes -> nat)
    ensures Chunks(Chunk(EndType(), [], crc) + junk, found) == Ok(found)
  {
    ChunkRead(EndType(), [], junk, found, crc);
  }

  /** The data chunks come out joined, whatever the skipped chunks between them. */
  lemma {:induction false} DataCollected(cs: seq<RawChunk>, found: Found, junk: bytes, crc: bytes -> nat)
    requires Middle(cs)
    ensures Chunks(ChunkBytes(cs, crc) + (Chunk(EndType(), [], crc) + junk), found)
            == Ok(found.(idat := found.idat + DataIn(cs)))
  {
    var end := Chunk(EndType(), [], crc) + junk;
    if cs == [] {
      assert ChunkBytes(cs, crc) + end == end;
      assert found.idat + [] == found.idat;
      EndRead(junk, found, crc);
    } else {
      var (c, rest) := (cs[0], ChunkBytes(cs[1..], crc) + end);
      Assoc(Chunk(c.kind, c.body, crc), ChunkBytes(cs[1..], crc), end);
      SkippableRead(c, rest, found, crc);
      DataCollected(cs[1..], found.(idat := found.idat + Carried(c)), junk, crc);
      Assoc(found.idat, Carried(c), DataIn(cs[1..]));
    }
  }
}
