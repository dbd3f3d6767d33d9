/** What the PNG codec promises (apps/web/scripts/brand/pngtool.py): any filtering and
    any chunking of an image decodes to it, and so does the encoder's own output. */
module PngRoundTrip {
  import opened Bytes
  import opened Options
  import opened PngFilters
  import opened Png
  import opened PngCodec

  /** A row as it should come out, and the filter type the sender chose for it. */
  datatype Scanline = Scanline(filter: byte, row: bytes)

  predicate AllWide(lines: seq<Scanline>, stride: nat) {
    forall i :: 0 <= i < |lines| ==> |lines[i].row| == stride && lines[i].filter <= 4
  }

  /** The raw bytes of the lines, each filtered against the row above. */
  function Scan(lines: seq<Scanline>, prev: bytes, channels: Channels): bytes
    requires AllWide(lines, |prev|)
    decreases |lines|
  {
    if lines == [] then []
    else
      var l := lines[0];
      ([l.filter] + Filtered(l.filter, l.row, prev, channels)) + Scan(lines[1..], l.row, channels)
  }

  function PixelsOf(lines: seq<Scanline>, channels: Channels): bytes {
    if lines == [] then [] else Rgba(lines[0].row, channels) + PixelsOf(lines[1..], channels)
  }

  /** One line at the head of the raw bytes. */
  lemma LineRead(ft: byte, line: bytes, prev: bytes, n: nat, rest: bytes, reader: Reader, done: bytes)
    requires ft <= 4 && |line| == |prev| && n > 0
    ensures Rows(([ft] + line) + rest, prev, n, reader, done)
            == Rows(rest, reader.undo(ft, line, prev), n - 1, reader, done + reader.rgba(reader.undo(ft, line, prev)))
  {
    var raw := ([ft] + line) + rest;
    assert raw[1..1 + |prev|] == line && raw[1 + |prev|..] == rest;
  }

  lemma LineUndone(l: Scanline, prev: bytes, channels: Channels, reader: Reader)
    requires |l.row| == |prev| && Reads(reader, channels)
    ensures reader.undo(l.filter, Filtered(l.filter, l.row, prev, channels), prev) == l.row
    ensures reader.rgba(l.row) == Rgba(l.row, channels)
  {
    var f := Filtered(l.filter, l.row, prev, channels);
    UnfilterInverts(l.filter, l.row, prev, channels, |l.row|);
    assert reader.undo(l.filter, f, prev) == Unfiltered(l.filter, f, prev, channels, |prev|);
    assert l.row[..|l.row|] == l.row;
  }

  /** Rows come back from any choice of filters, three or four channels, and whatever
      raw bytes follow. */
  lemma {:induction false} ScanRead(
      lines: seq<Scanline>, prev: bytes, channels: Channels, reader: Reader, done: bytes, junk: bytes)
    requires AllWide(lines, |prev|) && Reads(reader, channels)
    ensures Rows(Scan(lines, prev, channels) + junk, prev, |lines|, reader, done)
            == Ok(done + PixelsOf(lines, channels))
    decreases |lines|
  {
    if lines == [] {
      assert done + [] == done;
    } else {
      var l := lines[0];
      var f := Filtered(l.filter, l.row, prev, channels);
      var rest := Scan(lines[1..], l.row, channels);
      Assoc([l.filter] + f, rest, junk);
      LineRead(l.filter, f, prev, |lines|, rest + junk, reader, done);
      LineUndone(l, prev, channels, reader);
      ScanRead(lines[1..], l.row, channels, reader, done + Rgba(l.row, channels), junk);
      Assoc(done, Rgba(l.row, channels), PixelsOf(lines[1..], channels));
    }
  }

  lemma SignatureFirst(rest: bytes)
    ensures Prefix(Signature() + rest, 8) == Signature() && Suffix(Signature() + rest, 8) == rest
  {
  }

  lemma HeaderRead(h: Header, rest: bytes, crc: bytes -> nat)
    requires h.width < TWO_32 && h.height < TWO_32
    ensures Chunks(Chunk(HeaderType(), HeaderBody(h), crc) + rest, Found(None, [])) == Chunks(rest, Found(Some(h), []))
  {
    HeaderParses(h);
    ChunkRead(HeaderType(), HeaderBody(h), rest, Found(None, []), crc);
  }

  lemma DataFromNothing(h: Header, cs: seq<RawChunk>, junk: bytes, crc: bytes -> nat)
    requires Middle(cs)
    ensures Chunks(ChunkBytes(cs, crc) + (Chunk(EndType(), [], crc) + junk), Found(Some(h), []))
            == Ok(Found(Some(h), DataIn(cs)))
  {
    DataCollected(cs, Found(Some(h), []), junk, crc);
    assert [] + DataIn(cs) == DataIn(cs);
  }

  lemma HeaderThenData(h: Header, cs: seq<RawChunk>, junk: bytes, crc: bytes -> nat)
    requires h.width < TWO_32 && h.height < TWO_32 && Middle(cs)
    ensures Chunks(Chunk(HeaderType(), HeaderBody(h), crc) + (ChunkBytes(cs, crc) + (Chunk(EndType(), [], crc) + junk)),
                   Found(None, []))
            == Ok(Found(Some(h), DataIn(cs)))
  {
    HeaderRead(h, ChunkBytes(cs, crc) + (Chunk(EndType(), [], crc) + junk), crc);
    DataFromNothing(h, cs, junk, crc);
  }

  /** The chunk walk over a file finds its header and all its data. */
  lemma FileWalked(h: Header, cs: seq<RawChunk>, junk: bytes, crc: bytes -> nat)
    requires h.width < TWO_32 && h.height < TWO_32 && Middle(cs)
    ensures var data := File(h, ChunkBytes(cs, crc), crc, junk);
            Prefix(data, 8) == Signature() && Chunks(Suffix(data, 8), Found(None, [])) == Ok(Found(Some(h), DataIn(cs)))
  {
    SignatureFirst(
      Chunk(HeaderType(), HeaderBody(h), crc) + (ChunkBytes(cs, crc) + (Chunk(EndType(), [], crc) + junk)));
    HeaderThenData(h, cs, junk, crc);
  }

  lemma ScanDecodes(h: Header, lines: seq<Scanline>, extra: bytes)
    requires |lines| == h.height && AllWide(lines, Stride(h.width, h.channels))
    ensures DecodeRaw(Scan(lines, Zeros(Stride(h.width, h.channels)), h.channels) + extra, h)
            == Ok(Image(h.width, h.height, PixelsOf(lines, h.channels)))
  {
    ScanRead(lines, Zeros(Stride(h.width, h.channels)), h.channels, ReaderFor(h.channels), [], extra);
    assert [] + PixelsOf(lines, h.channels) == PixelsOf(lines, h.channels);
  }

  /** Any 8-bit RGB or RGBA file of an image decodes to its pixels: whatever filters
      the lines use, however the deflated bytes are cut into data chunks, whatever
      other chunks lie between them and whatever follows the end chunk. */
  lemma AnyEncodingDecodes(
      h: Header, lines: seq<Scanline>, cs: seq<RawChunk>, extra: bytes, junk: bytes,
      inflate: bytes -> Option<bytes>, crc: bytes -> nat)
    requires h.width < TWO_32 && h.height < TWO_32 && |lines| == h.height && Middle(cs)
    requires AllWide(lines, Stride(h.width, h.channels))
    requires inflate(DataIn(cs)) == Some(Scan(lines, Zeros(Stride(h.width, h.channels)), h.channels) + extra)
    ensures Decoded(File(h, ChunkBytes(cs, crc), crc, junk), inflate)
            == Ok(Image(h.width, h.height, PixelsOf(lines, h.channels)))
  {
    FileWalked(h, cs, junk, crc);
    ScanDecodes(h, lines, extra);
  }

  // ---- The encoder's own output -------------------------------------------

  /** The rows of an image, each under filter type 0. */
  function LinesOf(px: bytes, stride: nat, n: nat): (lines: seq<Scanline>)
    ensures |lines| == n
    decreases n
  {
    if n == 0 then [] else [Scanline(0, Prefix(px, stride))] + LinesOf(Suffix(px, stride), stride, n - 1)
  }

  lemma FilterNone(row: bytes, prev: bytes, channels: Channels)
    requires |row| == |prev|
    ensures Filtered(0, row, prev, channels) == row
  {
  }

  lemma NextLine(px: bytes, at: nat, s: nat, n: nat)
    requires n > 0 && at + s <= |px|
    ensures LinesOf(px[at..], s, n) == [Scanline(0, px[at..at + s])] + LinesOf(px[at + s..], s, n - 1)
    ensures Slice(px, at, s) == px[at..at + s]
  {
    assert Prefix(px[at..], s) == px[at..at + s] && Suffix(px[at..], s) == px[at + s..];
  }

  lemma PixelsNext(row: bytes, rest: seq<Scanline>)
    ensures PixelsOf([Scanline(0, row)] + rest, 4) == row + PixelsOf(rest, 4)
    ensures AllWide(rest, |row|) ==> AllWide([Scanline(0, row)] + rest, |row|)
  {
    var lines := [Scanline(0, row)] + rest;
    assert lines[1..] == rest;
    assert forall i :: 0 < i < |lines| ==> lines[i] == rest[i - 1];
  }

  lemma CutJoins(px: bytes, s: nat)
    requires s <= |px|
    ensures Prefix(px, s) + Suffix(px, s) == px && |Prefix(px, s)| == s && |Suffix(px, s)| == |px| - s
  {
  }

  /** The lines of an image are its pixels, cut up. */
  lemma {:induction false} LinesJoin(px: bytes, s: nat, n: nat)
    requires |px| == Total(s, n)
    ensures AllWide(LinesOf(px, s, n), s)
    ensures PixelsOf(LinesOf(px, s, n), 4) == px
    decreases n
  {
    if n > 0 {
      CutJoins(px, s);
      LinesJoin(Suffix(px, s), s, n - 1);
      PixelsNext(Prefix(px, s), LinesOf(Suffix(px, s), s, n - 1));
    }
  }

  /** Lines under filter type 0 as they are. */
  function Flat(lines: seq<Scanline>): bytes {
    if lines == [] then [] else ([0] + lines[0].row) + Flat(lines[1..])
  }

  lemma {:induction false} FlatIsScan(lines: seq<Scanline>, prev: bytes)
    requires AllWide(lines, |prev|) && forall i :: 0 <= i < |lines| ==> lines[i].filter == 0
    ensures Scan(lines, prev, 4) == Flat(lines)
    decreases |lines|
  {
    if lines != [] {
      FilterNone(lines[0].row, prev, 4);
      FlatIsScan(lines[1..], lines[0].row);
    }
  }

  lemma {:induction false} LinesUnfiltered(px: bytes, s: nat, n: nat)
    ensures forall i :: 0 <= i < n ==> LinesOf(px, s, n)[i].filter == 0
    decreases n
  {
    if n > 0 { LinesUnfiltered(Suffix(px, s), s, n - 1); }
  }

  lemma PlainNext(px: bytes, at: nat, s: nat, n: nat, row: bytes, done: bytes, more: bytes)
    requires n > 0 && Slice(px, at, s) == row && more == done + ([0] + row)
    ensures PlainLines(px, at, s, n, done) == PlainLines(px, at + s, s, n - 1, more)
  {
  }

  lemma FlatNext(row: bytes, rest: seq<Scanline>, done: bytes)
    ensures done + Flat([Scanline(0, row)] + rest) == (done + ([0] + row)) + Flat(rest)
  {
    var lines := [Scanline(0, row)] + rest;
    assert lines[1..] == rest;
    Assoc(done, [0] + row, Flat(rest));
  }

  /** What encode deflates is the image's lines under filter 0. */
  lemma {:induction false} PlainIsFlat(px: bytes, at: nat, s: nat, n: nat, done: bytes)
    requires at <= |px| && |px| - at == Total(s, n)
    ensures PlainLines(px, at, s, n, done) == done + Flat(LinesOf(px[at..], s, n))
    decreases n
  {
    if n == 0 {
      assert done + [] == done;
    } else {
      var row := px[at..at + s];
      var more := done + ([0] + row);
      NextLine(px, at, s, n);
      PlainNext(px, at, s, n, row, done, more);
      FlatNext(row, LinesOf(px[at + s..], s, n - 1), done);
      PlainIsFlat(px, at + s, s, n - 1, more);
    }
  }

  /** decode inverts encode on every RGBA image that fits the format; encode fails
      exactly when a size does not fit its field. */
  lemma DecodeInvertsEncode(im: Image, deflate: bytes -> bytes, inflate: bytes -> Option<bytes>, crc: bytes -> nat)
    requires |im.pixels| == 4 * (im.width * im.height)
    requires forall raw {:trigger deflate(raw)} :: inflate(deflate(raw)) == Some(raw)
    ensures var r := Encoded(im, deflate, crc);
            (r.Ok? <==> im.width < TWO_32 && im.height < TWO_32
                        && |deflate(PlainLines(im.pixels, 0, 4 * im.width, im.height, []))| < TWO_32)
            && (r.Ok? ==> Decoded(r.value, inflate) == Ok(im))
  {
    var stride := 4 * im.width;
    var raw := PlainLines(im.pixels, 0, stride, im.height, []);
    var z := deflate(raw);
    if im.width < TWO_32 && im.height < TWO_32 && |z| < TWO_32 {
      var h := Header(im.width, im.height, 4);
      var lines := LinesOf(im.pixels, stride, im.height);
      var zeros := Zeros(stride);
      TotalIsProduct(im.width, im.height);
      assert im.pixels[0..] == im.pixels;
      LinesJoin(im.pixels, stride, im.height);
      PlainIsFlat(im.pixels, 0, stride, im.height, []);
      LinesUnfiltered(im.pixels, stride, im.height);
      FlatIsScan(lines, zeros);
      assert [] + Scan(lines, zeros, 4) == Scan(lines, zeros, 4) == Scan(lines, zeros, 4) + [];
      var cs := [RawChunk(DataType(), z)];
      OneDataChunk(z, crc);
      AnyEncodingDecodes(h, lines, cs, [], [], inflate, crc);
    }
  }

  lemma OneDataChunk(z: bytes, crc: bytes -> nat)
    ensures var cs := [RawChunk(DataType(), z)];
            DataIn(cs) == z && ChunkBytes(cs, crc) == Chunk(DataType(), z, crc)
  {
    var cs := [RawChunk(DataType(), z)];
    assert cs[1..] == [];
    assert z + [] == z;
    assert Chunk(DataType(), z, crc) + [] == Chunk(DataType(), z, crc);
  }
}
