/** Scanline filters of the PNG decoder (apps/web/scripts/brand/pngtool.py, decode),
    against clauses 9.2 and 9.4 of the W3C PNG specification. */
module PngFilters {
  import opened Bytes

  /** The sum, `& 0xFF`. */
  function Add(x: int, y: int): byte { (x + y) % 256 }
  function Subtract(x: int, y: int): byte { (x - y) % 256 }

  function Mean(x: byte, y: byte): byte {
    var sum: int := x as int + y as int;
    sum / 2
  }

  function Abs(x: int): nat { if x < 0 then -x else x }

  /** Clause 9.4: of left, above and upper left, the one nearest a + b - c; ties in
      that order. */
  function Paeth(a: byte, b: byte, c: byte): byte {
    var p := a + b - c;
    var (pa, pb, pc) := (Abs(p - a), Abs(p - b), Abs(p - c));
    if pa <= pb && pa <= pc then a
    else if pb <= pc then b
    else c
  }

  /** What filter type ft predicts from the left, above and upper left bytes. */
  function Predict(ft: byte, a: byte, b: byte, c: byte): byte {
    match ft
    case 1 => a
    case 2 => b
    case 3 => Mean(a, b)
    case 4 => Paeth(a, b, c)
    case _ => 0
  }

  /** The byte one pixel to the left, zero before the first pixel. */
  function Left(row: bytes, i: nat, channels: nat): byte
    requires i <= |row|
  {
    if 0 < channels <= i then row[i - channels] else 0
  }

  /** Clause 9.2: a row filtered against the row above. */
  function Filtered(ft: byte, row: bytes, prev: bytes, channels: nat): (f: bytes)
    requires |prev| == |row|
    ensures |f| == |row|
  {
    seq<byte>(|row|, i requires 0 <= i < |row| =>
      Subtract(row[i], Predict(ft, Left(row, i, channels), prev[i], Left(prev, i, channels))))
  }

  /** The first n bytes of a row reconstructed, each from the ones before it. */
  function Unfiltered(ft: byte, line: bytes, prev: bytes, channels: nat, n: nat): (r: bytes)
    requires |prev| == |line| && n <= |line|
    ensures |r| == n
  {
    if n == 0 then []
    else
      var r := Unfiltered(ft, line, prev, channels, n - 1);
      r + [Add(line[n - 1], Predict(ft, Left(r, n - 1, channels), prev[n - 1], Left(prev, n - 1, channels)))]
  }

  lemma ModInverse(x: byte, p: byte)
    ensures Add(Subtract(x, p), p) == x
  {
  }

  /** Undoing the filter of byte i gives the row's byte, once those before it are back. */
  ghost predicate ComesBack(ft: byte, f: bytes, row: bytes, prev: bytes, channels: nat, i: nat)
    requires |f| == |prev| == |row| && i < |row|
  {
    Add(f[i], Predict(ft, Left(row[..i], i, channels), prev[i], Left(prev, i, channels))) == row[i]
  }

  lemma FilteredComesBack(ft: byte, row: bytes, prev: bytes, channels: nat, i: nat)
    requires |prev| == |row| && i < |row|
    ensures ComesBack(ft, Filtered(ft, row, prev, channels), row, prev, channels, i)
  {
    assert Left(row[..i], i, channels) == Left(row, i, channels);
    ModInverse(row[i], Predict(ft, Left(row, i, channels), prev[i], Left(prev, i, channels)));
  }

  lemma TakeOneMore(row: bytes, i: nat)
    requires i < |row|
    ensures row[..i + 1] == row[..i] + [row[i]]
  {
  }

  lemma {:induction false} UnfilteredRow(ft: byte, f: bytes, row: bytes, prev: bytes, channels: nat, n: nat)
    requires |f| == |prev| == |row| && n <= |row|
    requires forall i :: 0 <= i < n ==> ComesBack(ft, f, row, prev, channels, i)
    ensures Unfiltered(ft, f, prev, channels, n) == row[..n]
  {
    if n > 0 {
      UnfilteredRow(ft, f, row, prev, channels, n - 1);
      assert ComesBack(ft, f, row, prev, channels, n - 1);
      TakeOneMore(row, n - 1);
    }
  }

  /** Reconstruction inverts each filter, for any row above and any pixel size. */
  lemma UnfilterInverts(ft: byte, row: bytes, prev: bytes, channels: nat, n: nat)
    requires |prev| == |row| && n <= |row|
    ensures Unfiltered(ft, Filtered(ft, row, prev, channels), prev, channels, n) == row[..n]
  {
    forall i | 0 <= i < n ensures ComesBack(ft, Filtered(ft, row, prev, channels), row, prev, channels, i) {
      FilteredComesBack(ft, row, prev, channels, i);
    }
    UnfilteredRow(ft, Filtered(ft, row, prev, channels), row, prev, channels, n);
  }

  /** The decoder's three distances are the specification's. */
  lemma PaethDistances(a: byte, b: byte, c: byte)
    ensures var p := a + b - c;
            Abs(p - a) == Abs(b - c) && Abs(p - b) == Abs(a - c) && Abs(p - c) == Abs(a + b - 2 * c)
  {
  }

  function Distance(x: int, y: int): nat { if x < y then y - x else x - y }

  /** Clause 9.2 and 9.4 of the prediction: nothing, left, above, their mean rounded down,
      or the nearest of the three to a + b - c, where left goes before above and above
      before upper left. */
  predicate Predicts(ft: byte, a: byte, b: byte, c: byte, pr: byte) {
    match ft
    case 0 => pr == 0
    case 1 => pr == a
    case 2 => pr == b
    case 3 => 2 * pr <= a + b < 2 * pr + 2
    case 4 =>
      var p := a + b - c;
      && pr in {a, b, c}
      && Distance(p, pr) <= Distance(p, a) && Distance(p, pr) <= Distance(p, b) && Distance(p, pr) <= Distance(p, c)
      && (pr != a ==> Distance(p, pr) < Distance(p, a))
      && (pr != a && pr != b ==> Distance(p, pr) < Distance(p, b))
    case _ => true
  }

  lemma PredictionIsTheStandards(ft: byte, a: byte, b: byte, c: byte)
    ensures Predicts(ft, a, b, c, Predict(ft, a, b, c))
  {
  }

  lemma {:induction false} UnfilteredPrefix(
      ft: byte, line: bytes, prev: bytes, channels: nat, m: nat, n: nat)
    requires |prev| == |line| && m <= n <= |line|
    ensures Unfiltered(ft, line, prev, channels, n)[..m] == Unfiltered(ft, line, prev, channels, m)
    decreases n
  {
    if m < n {
      UnfilteredPrefix(ft, line, prev, channels, m, n - 1);
      assert Unfiltered(ft, line, prev, channels, n)[..m] == Unfiltered(ft, line, prev, channels, n - 1)[..m];
    }
  }

  /** Each byte of a row is the line's byte and what its filter predicts from the bytes a
      pixel to the left, above, and above that one, modulo 256. */
  lemma ReconstructionIsTheStandards(ft: byte, line: bytes, prev: bytes, channels: nat, i: nat) returns (pr: byte)
    requires |prev| == |line| && i < |line| && channels > 0
    ensures var r := Unfiltered(ft, line, prev, channels, |line|);
            && r[i] == (line[i] + pr) % 256
            && Predicts(ft, if i < channels then 0 else r[i - channels], prev[i],
                        if i < channels then 0 else prev[i - channels], pr)
  {
    var r, before := Unfiltered(ft, line, prev, channels, |line|), Unfiltered(ft, line, prev, channels, i);
    UnfilteredPrefix(ft, line, prev, channels, i, |line|);
    UnfilteredPrefix(ft, line, prev, channels, i + 1, |line|);
    assert r[i] == r[..i + 1][i];
    var (a, c) := (Left(before, i, channels), Left(prev, i, channels));
    assert i >= channels ==> a == r[..i][i - channels] == r[i - channels];
    pr := Predict(ft, a, prev[i], c);
    PredictionIsTheStandards(ft, a, prev[i], c);
  }

  method PaethPredictor(a: byte, b: byte, c: byte) returns (pr: byte)
    ensures pr == Paeth(a, b, c)
  {
    var pa, pb, pc := Abs(b - c), Abs(a - c), Abs(a + b - 2 * c);
    PaethDistances(a, b, c);
    pr := if pa <= pb && pa <= pc then a else if pb <= pc then b else c;
  }

  /** What every filter loop has done when it reaches byte n. */
  ghost predicate Reconstructed(ft: byte, line: bytes, was: bytes, prev: bytes, channels: nat, n: nat) {
    && |line| == |was| == |prev| && n <= |line|
    && line[..n] == Unfiltered(ft, was, prev, channels, n)
    && line[n..] == was[n..]
  }

  lemma ReconstructedNext(ft: byte, line: bytes, was: bytes, prev: bytes, channels: nat, n: nat, v: byte)
    requires Reconstructed(ft, line, was, prev, channels, n) && n < |line| && channels > 0
    requires v == Add(line[n], Predict(ft, Left(line, n, channels), prev[n], Left(prev, n, channels)))
    ensures Reconstructed(ft, line[n := v], was, prev, channels, n + 1)
  {
    var r := Unfiltered(ft, was, prev, channels, n);
    assert line[n] == line[n..][0] == was[n];
    assert Left(r, n, channels) == Left(line, n, channels);
    assert line[n := v][..n + 1] == line[..n] + [v];
    assert line[n := v][n + 1..] == line[n..][1..];
  }

  /** Type 1 leaves the first pixel as it is: its left neighbour counts as zero. */
  lemma {:induction false} FirstPixelStays(line: bytes, prev: bytes, channels: nat, n: nat)
    requires |prev| == |line| && n <= |line| && n <= channels
    ensures Unfiltered(1, line, prev, channels, n) == line[..n]
  {
    if n > 0 {
      FirstPixelStays(line, prev, channels, n - 1);
      assert line[..n] == line[..n - 1] + [line[n - 1]];
    }
  }

  lemma {:induction false} NoFilter(line: bytes, prev: bytes, channels: nat, n: nat)
    requires |prev| == |line| && n <= |line|
    ensures Unfiltered(0, line, prev, channels, n) == line[..n]
  {
    if n > 0 {
      NoFilter(line, prev, channels, n - 1);
      assert line[..n] == line[..n - 1] + [line[n - 1]];
    }
  }

  method UndoSub(line: array<byte>, prev: bytes, channels: nat)
    requires line.Length == |prev| && channels > 0
    modifies line
    ensures line[..] == Unfiltered(1, old(line[..]), prev, channels, |prev|)
  {
    ghost var was := line[..];
    var i := channels;
    FirstPixelStays(was, prev, channels, if channels < |was| then channels else |was|);
    if channels >= line.Length {
      assert was == was[..|was|];
      return;
    }
    assert Reconstructed(1, line[..], was, prev, channels, i);
    while i < line.Length
      invariant channels <= i <= line.Length
      invariant Reconstructed(1, line[..], was, prev, channels, i)
    {
      ReconstructedNext(1, line[..], was, prev, channels, i, Add(line[i], line[i - channels]));
      line[i] := Add(line[i], line[i - channels]);
      i := i + 1;
    }
    assert line[..] == line[..i];
  }

  method UndoUp(line: array<byte>, prev: bytes, channels: nat)
    requires line.Length == |prev| && channels > 0
    modifies line
    ensures line[..] == Unfiltered(2, old(line[..]), prev, channels, |prev|)
  {
    ghost var was := line[..];
    for i := 0 to line.Length
      invariant Reconstructed(2, line[..], was, prev, channels, i)
    {
      ReconstructedNext(2, line[..], was, prev, channels, i, Add(line[i], prev[i]));
      line[i] := Add(line[i], prev[i]);
    }
    assert line[..] == line[..line.Length];
  }

  method UndoAverage(line: array<byte>, prev: bytes, channels: nat)
    requires line.Length == |prev| && channels > 0
    modifies line
    ensures line[..] == Unfiltered(3, old(line[..]), prev, channels, |prev|)
  {
    ghost var was := line[..];
    for i := 0 to line.Length
      invariant Reconstructed(3, line[..], was, prev, channels, i)
    {
      var a := if i >= channels then line[i - channels] else 0;
      ReconstructedNext(3, line[..], was, prev, channels, i, Add(line[i], Mean(a, prev[i])));
      line[i] := Add(line[i], Mean(a, prev[i]));
    }
    assert line[..] == line[..line.Length];
  }

  method UndoPaeth(line: array<byte>, prev: bytes, channels: nat)
    requires line.Length == |prev| && channels > 0
    modifies line
    ensures line[..] == Unfiltered(4, old(line[..]), prev, channels, |prev|)
  {
    ghost var was := line[..];
    for i := 0 to line.Length
      invariant Reconstructed(4, line[..], was, prev, channels, i)
    {
      var a := if i >= channels then line[i - channels] else 0;
      var c := if i >= channels then prev[i - channels] else 0;
      var b := prev[i];
      var pr := PaethPredictor(a, b, c);
      ReconstructedNext(4, line[..], was, prev, channels, i, Add(line[i], pr));
      line[i] := Add(line[i], pr);
    }
    assert line[..] == line[..line.Length];
  }

  /** One scanline in place; any other filter type is refused and nothing changes. */
  method UndoFilter(ft: byte, line: array<byte>, prev: bytes, channels: nat) returns (ok: bool)
    requires line.Length == |prev| && channels > 0
    modifies line
    ensures ok <==> ft <= 4
    ensures line[..] == if ok then Unfiltered(ft, old(line[..]), prev, channels, |prev|) else old(line[..])
  {
    ok := true;
    if ft == 1 {
      UndoSub(line, prev, channels);
    } else if ft == 2 {
      UndoUp(line, prev, channels);
    } else if ft == 3 {
      UndoAverage(line, prev, channels);
    } else if ft == 4 {
      UndoPaeth(line, prev, channels);
    } else if ft != 0 {
      ok := false;
    } else {
      NoFilter(line[..], prev, channels, |prev|);
      assert line[..] == line[..][..|prev|];
    }
  }
}
