/** The PNG codec of the brand scripts (apps/web/scripts/brand/pngtool.py, decode and
    encode). Deflate, inflate and CRC-32 are parameters. */
module Png {
  import opened Bytes
  import opened Options
  import opened PngFilters

  /** struct.error, IndexError, zlib.error and the three assertions. */
  datatype Error = NotPng | StructError | Unsupported | NoHeader | ZlibError | BadFilter | IndexError
  datatype Result<+T> = Ok(value: T) | Err(error: Error)
  datatype Image = Image(width: nat, height: nat, pixels: bytes)

  /** Python slices: out-of-range bounds are clamped. */
  function Suffix(s: bytes, n: nat): bytes { if n <= |s| then s[n..] else [] }
  function Prefix(s: bytes, n: nat): bytes { if n <= |s| then s[..n] else s }
  function Slice(s: bytes, from: nat, n: nat): bytes { Prefix(Suffix(s, from), n) }

  function Signature(): bytes { [0x89, 0x50, 0x4e, 0x47, 0x0d, 0x0a, 0x1a, 0x0a] }
  function HeaderType(): bytes { [0x49, 0x48, 0x44, 0x52] }  // IHDR
  function DataType(): bytes { [0x49, 0x44, 0x41, 0x54] }    // IDAT
  function EndType(): bytes { [0x49, 0x45, 0x4e, 0x44] }     // IEND

  // ---- The chunk walk -----------------------------------------------------

  type Channels = c: nat | c == 3 || c == 4 witness 4
  datatype Header = Header(width: nat, height: nat, channels: Channels)
  datatype Found = Found(header: Option<Header>, idat: bytes)

  /** 8-bit RGB or RGBA, not interlaced; anything else is refused. */
  function ParseHeader(body: bytes): Result<Header> {
    if |body| != 13 then Err(StructError)
    else if body[8] == 8 && (body[9] == 2 || body[9] == 6) && body[12] == 0 then
      Ok(Header(FromBigEndian(body[..4]), FromBigEndian(body[4..8]), if body[9] == 6 then 4 else 3))
    else Err(Unsupported)
  }

  /** What one chunk adds: Stop at the end chunk, otherwise what has been found. */
  datatype Step = Stop | Go(found: Found)

  function Consume(kind: bytes, body: bytes, found: Found): Result<Step> {
    if kind == HeaderType() then
      match ParseHeader(body)
      case Err(e) => Err(e)
      case Ok(h) => Ok(Go(found.(header := Some(h))))
    else if kind == DataType() then Ok(Go(found.(idat := found.idat + body)))
    else if kind == EndType() then Ok(Stop)
    else Ok(Go(found))
  }

  /** The chunks from here on: the last header, and the data bodies joined. */
  function Chunks(rest: bytes, found: Found): Result<Found>
    decreases |rest|
  {
    if rest == [] then Ok(found)
    else if |rest| < 8 then Err(StructError)
    else
      var n := FromBigEndian(rest[..4]);
      match Consume(rest[4..8], Slice(rest, 8, n), found)
      case Err(e) => Err(e)
      case Ok(Stop) => Ok(found)
      case Ok(Go(more)) => Chunks(Suffix(rest, 12 + n), more)
  }

  /** The walk once a chunk has been consumed. */
  function Proceed(step: Result<Step>, found: Found, next: bytes): Result<Found> {
    match step
    case Err(e) => Err(e)
    case Ok(Stop) => Ok(found)
    case Ok(Go(more)) => Chunks(next, more)
  }

  // ---- Scanlines ----------------------------------------------------------

  /** The bytes of w pixels. */
  function Stride(w: nat, channels: Channels): nat {
    if channels == 3 then w * 3 else w * 4
  }

  /** A row of pixels as RGBA; without an alpha channel, opaque. */
  function Rgba(row: bytes, channels: Channels): bytes {
    if channels == 4 then row
    else
      seq<byte>(4 * (|row| / 3), i requires 0 <= i < 4 * (|row| / 3) =>
        if i % 4 < 3 then row[3 * (i / 4) + i % 4] else 255)
  }

  /** How a line becomes a row, from its filter type and the row above, and how a row
      becomes pixels. */
  datatype Reader = Reader(undo: (byte, bytes, bytes) -> bytes, rgba: bytes -> bytes)

  function ReaderFor(channels: Channels): Reader {
    Reader(
      (ft, line, prev) => if |line| == |prev| then Unfiltered(ft, line, prev, channels, |prev|) else [],
      row => Rgba(row, channels))
  }

  /** The pixels of n more rows out of the inflated bytes, below the ones done: each
      is a filter type and a line. */
  function Rows(raw: bytes, prev: bytes, n: nat, reader: Reader, done: bytes): Result<bytes>
    decreases n
  {
    if n == 0 then Ok(done)
    else if |raw| == 0 then Err(IndexError)
    else if raw[0] > 4 then Err(BadFilter)
    else if |raw| <= |prev| then Err(IndexError)
    else
      var row := reader.undo(raw[0], raw[1..1 + |prev|], prev);
      Rows(raw[1 + |prev|..], row, n - 1, reader, done + reader.rgba(row))
  }

  function Zeros(n: nat): bytes { seq<byte>(n, _ => 0) }

  function DecodeRaw(raw: bytes, h: Header): Result<Image> {
    match Rows(raw, Zeros(Stride(h.width, h.channels)), h.height, ReaderFor(h.channels), [])
    case Err(e) => Err(e)
    case Ok(px) => Ok(Image(h.width, h.height, px))
  }

  /** The image a file holds. */
  function Decoded(data: bytes, inflate: bytes -> Option<bytes>): Result<Image> {
    if Prefix(data, 8) != Signature() then Err(NotPng)
    else
      match Chunks(Suffix(data, 8), Found(None, []))
      case Err(e) => Err(e)
      case Ok(Found(None, _)) => Err(NoHeader)
      case Ok(Found(Some(h), idat)) =>
        if inflate(idat).None? then Err(ZlibError)
        else DecodeRaw(inflate(idat).value, h)
  }

  // ---- The decoder --------------------------------------------------------

  lemma SuffixTwice(s: bytes, m: nat, n: nat)
    ensures Suffix(Suffix(s, m), n) == Suffix(s, m + n)
  {
  }

  /** The walk from the chunk at pos, by what that chunk adds. */
  lemma ChunkAt(data: bytes, pos: nat, n: nat, found: Found)
    requires pos + 8 <= |data| && n == FromBigEndian(data[pos..pos + 4])
    ensures var step := Consume(data[pos + 4..pos + 8], Slice(data, pos + 8, n), found);
            Chunks(Suffix(data, pos), found) == Proceed(step, found, Suffix(data, pos + 12 + n))
  {
    var rest := Suffix(data, pos);
    assert rest[..4] == data[pos..pos + 4] && rest[4..8] == data[pos + 4..pos + 8];
    SuffixTwice(data, pos, 8);
    SuffixTwice(data, pos, 12 + n);
  }

  /** The body of the chunk loop: one chunk read and consumed. */
  method NextChunk(data: bytes, pos: nat, found: Found) returns (r: Result<Step>, next: nat)
    requires pos < |data|
    ensures r.Ok? && r.value.Go? ==> next > pos
    ensures Chunks(Suffix(data, pos), found) == Proceed(r, found, Suffix(data, next))
  {
    next := pos;
    if pos + 8 > |data| {
      return Err(StructError), pos;
    }
    var n := FromBigEndian(data[pos..pos + 4]);
    ChunkAt(data, pos, n, found);
    r := ConsumeChunk(data[pos + 4..pos + 8], Slice(data, pos + 8, n), found);
    next := pos + 12 + n;
  }

  method ConsumeChunk(kind: bytes, body: bytes, found: Found) returns (r: Result<Step>)
    ensures r == Consume(kind, body, found)
  {
    if kind == HeaderType() {
      var h := ParseHeader(body);
      if h.Err? {
        return Err(h.error);
      }
      r := Ok(Go(found.(header := Some(h.value))));
    } else if kind == DataType() {
      r := Ok(Go(found.(idat := found.idat + body)));
    } else if kind == EndType() {
      r := Ok(Stop);
    } else {
      r := Ok(Go(found));
    }
  }

  /** The while loop over chunk positions. */
  method WalkChunks(data: bytes) returns (r: Result<Found>)
    ensures r == Chunks(Suffix(data, 8), Found(None, []))
  {
    var pos := 8;
    var found := Found(None, []);
    ghost var all := Chunks(Suffix(data, 8), found);
    while pos < |data|
      invariant all == Chunks(Suffix(data, pos), found)
      decreases |data| - pos
    {
      var step, next := NextChunk(data, pos, found);
      if step.Err? {
        return Err(step.error);
      }
      if step.value.Stop? {
        return Ok(found);
      }
      found := step.value.found;
      pos := next;
    }
    r := Ok(found);
  }

  /** Pixel x of a row, three or four bytes of it. */
  lemma RgbaPixel(line: bytes, w: nat, channels: Channels, x: nat)
    requires |line| == Stride(w, channels) && x < w
    ensures |Rgba(line, channels)| == 4 * w
    ensures var s := Stride(x, channels);
            s + channels <= |line| &&
            Rgba(line, channels)[4 * x..4 * x + 4]
            == [line[s], line[s + 1], line[s + 2], if channels == 4 then line[s + 3] else 255]
  {
    var px := Rgba(line, channels);
    assert px[4 * x + 0] == line[Stride(x, channels)] by { Quarter(x, 0); }
    assert px[4 * x + 1] == line[Stride(x, channels) + 1] by { Quarter(x, 1); }
    assert px[4 * x + 2] == line[Stride(x, channels) + 2] by { Quarter(x, 2); }
    assert px[4 * x + 3] == if channels == 4 then line[Stride(x, channels) + 3] else 255 by { Quarter(x, 3); }
  }

  lemma Quarter(x: nat, k: nat)
    requires k < 4
    ensures (4 * x + k) / 4 == x && (4 * x + k) % 4 == k
  {
  }

  lemma RgbaWidth(line: bytes, w: nat, channels: Channels)
    requires |line| == Stride(w, channels)
    ensures |Rgba(line, channels)| == 4 * w
  {
  }

  /** One row into the RGBA buffer, from byte `at` on. */
  method CopyRow(out: array<byte>, at: nat, line: bytes, w: nat, channels: Channels, ghost done: bytes)
    requires |line| == Stride(w, channels) && at + 4 * w <= out.Length && out[..at] == done
    modifies out
    ensures out[..at + 4 * w] == done + Rgba(line, channels)
  {
    ghost var rgba := Rgba(line, channels);
    RgbaWidth(line, w, channels);
    for x := 0 to w
      invariant out[..at] == done
      invariant forall k :: 0 <= k < 4 * x ==> out[at + k] == rgba[k]
    {
      var s, d := Stride(x, channels), at + 4 * x;
      RgbaPixel(line, w, channels, x);
      out[d] := line[s];
      out[d + 1] := line[s + 1];
      out[d + 2] := line[s + 2];
      out[d + 3] := if channels == 4 then line[s + 3] else 255;
    }
  }
}
