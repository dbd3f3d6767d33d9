/** The area-average resampler (apps/web/scripts/brand/pngtool.py, resize). */
module PngResize {
  import opened Bytes
  import opened Options

  // ---- Boxes --------------------------------------------------------------

  /** Of n source lines, the first and the end of the box of target line t of tn. */
  function Lo(t: nat, n: nat, tn: nat): nat
    requires tn > 0
  {
    t * n / tn
  }

  function Hi(t: nat, n: nat, tn: nat): nat
    requires tn > 0
  {
    if Lo(t, n, tn) + 1 > Lo(t + 1, n, tn) then Lo(t, n, tn) + 1 else Lo(t + 1, n, tn)
  }

  lemma SmallerFactor(x: nat, y: nat, d: nat)
    requires x * d < y * d
    ensures x < y
  {
    if y <= x {
      Product(y, x, d);
    }
  }

  lemma LeastQuotient(a: nat, d: nat, q: nat)
    requires d > 0 && q * d <= a
    ensures q <= a / d
  {
    DivBrackets(a, d);
    SmallerFactor(q, a / d + 1, d);
  }

  lemma Ends(n: nat, tn: nat)
    requires tn > 0
    ensures Lo(0, n, tn) == 0 && Lo(tn, n, tn) == n
  {
    LeastQuotient(tn * n, tn, n);
    DivBrackets(tn * n, tn);
    assert Lo(tn, n, tn) * tn < (n + 1) * tn;
    SmallerFactor(Lo(tn, n, tn), n + 1, tn);
  }

  lemma LoGrows(t: nat, u: nat, n: nat, tn: nat)
    requires tn > 0 && t <= u
    ensures Lo(t, n, tn) <= Lo(u, n, tn)
  {
    DivBrackets(t * n, tn);
    Product(t, u, n);
    LeastQuotient(u * n, tn, Lo(t, n, tn));
  }

  /** Every box is a non-empty stretch of the source, whatever the two sizes. */
  lemma BoxesInBounds(t: nat, n: nat, tn: nat)
    requires t < tn && n > 0
    ensures Lo(t, n, tn) < Hi(t, n, tn) <= n
  {
    DivBrackets(t * n, tn);
    Product(t + 1, tn, n);
    assert (t + 1) * n == t * n + n;
    assert Lo(t, n, tn) * tn < n * tn;
    SmallerFactor(Lo(t, n, tn), n, tn);
    LoGrows(t + 1, tn, n, tn);
    Ends(n, tn);
  }

  /** Downscaling, a step along the target is at least a step along the source. */
  lemma StepsAdvance(t: nat, n: nat, tn: nat)
    requires 0 < tn <= n
    ensures Lo(t, n, tn) + 1 <= Lo(t + 1, n, tn)
  {
    DivBrackets(t * n, tn);
    assert (Lo(t, n, tn) + 1) * tn == Lo(t, n, tn) * tn + tn;
    assert (t + 1) * n == t * n + n;
    LeastQuotient((t + 1) * n, tn, Lo(t, n, tn) + 1);
  }

  /** Each box ends where the next begins. */
  predicate Tiles(n: nat, tn: nat)
    requires tn > 0
  {
    forall t :: 0 <= t < tn ==> Hi(t, n, tn) == Lo(t + 1, n, tn)
  }

  lemma {:induction false} TilesAdvance(t: nat, n: nat, tn: nat)
    requires 0 < tn && t <= tn && Tiles(n, tn)
    ensures Lo(t, n, tn) >= t
  {
    if t == 0 {
      Ends(n, tn);
    } else {
      TilesAdvance(t - 1, n, tn);
      assert Hi(t - 1, n, tn) == Lo(t - 1 + 1, n, tn);
    }
  }

  /** The boxes tile the source exactly when the image is not enlarged. */
  lemma BoxesTileIffNotEnlarged(n: nat, tn: nat)
    requires tn > 0
    ensures Tiles(n, tn) <==> tn <= n
  {
    if tn <= n {
      forall t | 0 <= t < tn
        ensures Hi(t, n, tn) == Lo(t + 1, n, tn)
      {
        StepsAdvance(t, n, tn);
      }
    }
    if Tiles(n, tn) {
      TilesAdvance(tn, n, tn);
      Ends(n, tn);
    }
  }

  /** The box that holds source line x: the last one that starts at or before it. */
  lemma {:induction false} SomeBoxHolds(x: nat, n: nat, tn: nat, t: nat) returns (box: nat)
    requires 0 < tn <= n && t < tn && x < n && Lo(t, n, tn) <= x
    ensures box < tn && Lo(box, n, tn) <= x < Hi(box, n, tn)
    decreases tn - t
  {
    StepsAdvance(t, n, tn);
    Ends(n, tn);
    if x < Lo(t + 1, n, tn) {
      box := t;
    } else {
      box := SomeBoxHolds(x, n, tn, t + 1);
    }
  }

  /** Downscaling, every source line is in one box and no other. */
  lemma EachLineInOneBox(x: nat, n: nat, tn: nat) returns (box: nat)
    requires 0 < tn <= n && x < n
    ensures box < tn
    ensures forall t :: 0 <= t < tn ==> (Lo(t, n, tn) <= x < Hi(t, n, tn) <==> t == box)
  {
    Ends(n, tn);
    box := SomeBoxHolds(x, n, tn, 0);
    forall t | 0 <= t < tn && t != box
      ensures !(Lo(t, n, tn) <= x < Hi(t, n, tn))
    {
      StepsAdvance(t, n, tn);
      StepsAdvance(box, n, tn);
      if t < box {
        LoGrows(t + 1, box, n, tn);
      } else {
        LoGrows(box + 1, t, n, tn);
      }
    }
  }

  // ---- Averages -----------------------------------------------------------

  /** Colours weighted by alpha, alpha, and the number of pixels. */
  datatype Sums = Sums(r: nat, g: nat, b: nat, a: nat, n: nat)

  function Add(s: Sums, px: bytes, i: nat): Sums
    requires i + 3 < |px|
  {
    var r: nat, g: nat, b: nat, al: nat := px[i], px[i + 1], px[i + 2], px[i + 3];
    Sums(s.r + r * al, s.g + g * al, s.b + b * al, s.a + al, s.n + 1)
  }

  /** The pixels from x0 to x of the row that starts at pixel `base`, added to s. */
  function RowSums(px: bytes, base: nat, x0: nat, x: nat, s: Sums): Sums
    requires x0 <= x && 4 * (base + x) <= |px|
  {
    if x == x0 then s else Add(RowSums(px, base, x0, x - 1, s), px, 4 * (base + x - 1))
  }

  /** A row of an image of w by h pixels ends inside it. */
  lemma RowInside(w: nat, h: nat, y: nat)
    requires y < h
    ensures y * w + w <= w * h
  {
    Product(y + 1, h, w);
  }

  /** The rows from y0 to y of the box of columns x0 to x1. */
  function BoxSums(px: bytes, w: nat, h: nat, y0: nat, y: nat, x0: nat, x1: nat): Sums
    requires |px| == 4 * (w * h) && y0 <= y <= h && x0 <= x1 <= w
    decreases y
  {
    if y == y0 then Sums(0, 0, 0, 0, 0)
    else
      RowInside(w, h, y - 1);
      RowSums(px, (y - 1) * w, x0, x1, BoxSums(px, w, h, y0, y - 1, x0, x1))
  }

  lemma AlphaFits(s: Sums)
    requires s.n > 0 && s.a <= 255 * s.n
    ensures s.a / s.n <= 255
  {
    DivBrackets(s.a, s.n);
    SmallerFactor(s.a / s.n, 256, s.n);
  }

  function Clamped(v: nat): byte { if v < 255 then v else 255 }

  function AverageColour(v: nat, s: Sums): byte { if s.a > 0 then Clamped(v / s.a) else 0 }

  function AverageAlpha(s: Sums): byte
    requires s.n > 0 && s.a <= 255 * s.n
  {
    AlphaFits(s);
    s.a / s.n
  }

  /** The target pixel: black where the box is wholly transparent. */
  function Average(s: Sums): (p: bytes)
    requires s.n > 0 && s.a <= 255 * s.n
    ensures |p| == 4
  {
    [AverageColour(s.r, s), AverageColour(s.g, s), AverageColour(s.b, s), AverageAlpha(s)]
  }

  // ---- The averages stay within the box -----------------------------------

  function Weighted(s: Sums, k: nat): nat
    requires k < 3
  {
    if k == 0 then s.r else if k == 1 then s.g else s.b
  }

  /** Channel k of pixel p, if it is visible, lies between lo and hi. */
  predicate PixelWithin(px: bytes, p: nat, k: nat, lo: nat, hi: nat)
    requires k < 3 && 4 * p + 4 <= |px|
  {
    px[4 * p + 3] > 0 ==> lo <= px[4 * p + k] <= hi
  }

  predicate RowWithin(px: bytes, base: nat, x0: nat, x1: nat, k: nat, lo: nat, hi: nat)
    requires k < 3 && 4 * (base + x1) <= |px|
  {
    forall p :: base + x0 <= p < base + x1 ==> PixelWithin(px, p, k, lo, hi)
  }

  predicate SumsWithin(s: Sums, k: nat, lo: nat, hi: nat)
    requires k < 3
  {
    lo * s.a <= Weighted(s, k) <= hi * s.a && s.a <= 255 * s.n
  }

  lemma AddWithin(s: Sums, px: bytes, p: nat, k: nat, lo: nat, hi: nat)
    requires k < 3 && 4 * p + 4 <= |px| && SumsWithin(s, k, lo, hi) && PixelWithin(px, p, k, lo, hi)
    ensures SumsWithin(Add(s, px, 4 * p), k, lo, hi)
  {
    var al: nat, c: nat := px[4 * p + 3], px[4 * p + k];
    WeightWithin(Weighted(s, k), s.a, c, al, lo, hi);
    assert Weighted(Add(s, px, 4 * p), k) == Weighted(s, k) + c * al;
  }

  lemma WeightWithin(v: nat, a: nat, c: nat, al: nat, lo: nat, hi: nat)
    requires lo * a <= v <= hi * a && (al > 0 ==> lo <= c <= hi)
    ensures lo * (a + al) <= v + c * al <= hi * (a + al)
  {
    if al > 0 {
      Product(lo, c, al);
      Product(c, hi, al);
    }
    assert lo * (a + al) == lo * a + lo * al && hi * (a + al) == hi * a + hi * al;
  }

  lemma {:induction false} RowSumsWithin(
      px: bytes, base: nat, x0: nat, x: nat, s: Sums, k: nat, lo: nat, hi: nat)
    requires k < 3 && x0 <= x && 4 * (base + x) <= |px|
    requires SumsWithin(s, k, lo, hi) && RowWithin(px, base, x0, x, k, lo, hi)
    ensures SumsWithin(RowSums(px, base, x0, x, s), k, lo, hi)
    ensures RowSums(px, base, x0, x, s).n == s.n + (x - x0)
    decreases x
  {
    if x > x0 {
      RowSumsWithin(px, base, x0, x - 1, s, k, lo, hi);
      AddWithin(RowSums(px, base, x0, x - 1, s), px, base + x - 1, k, lo, hi);
    }
  }

  predicate BoxWithin(px: bytes, w: nat, h: nat, y0: nat, y1: nat, x0: nat, x1: nat, k: nat, lo: nat, hi: nat)
    requires |px| == 4 * (w * h) && y1 <= h && x1 <= w && k < 3
  {
    forall y :: y0 <= y < y1 ==> (RowInside(w, h, y); RowWithin(px, y * w, x0, x1, k, lo, hi))
  }

  lemma {:induction false} BoxSumsWithin(
      px: bytes, w: nat, h: nat, y0: nat, y: nat, x0: nat, x1: nat, k: nat, lo: nat, hi: nat)
    requires |px| == 4 * (w * h) && y0 <= y <= h && x0 < x1 <= w && k < 3
    requires BoxWithin(px, w, h, y0, y, x0, x1, k, lo, hi)
    ensures var s := BoxSums(px, w, h, y0, y, x0, x1);
            SumsWithin(s, k, lo, hi) && s.n >= y - y0
    decreases y
  {
    if y > y0 {
      BoxSumsWithin(px, w, h, y0, y - 1, x0, x1, k, lo, hi);
      RowInside(w, h, y - 1);
      RowSumsWithin(px, (y - 1) * w, x0, x1, BoxSums(px, w, h, y0, y - 1, x0, x1), k, lo, hi);
    }
  }

  lemma QuotientWithin(v: nat, a: nat, lo: nat, hi: nat)
    requires a > 0 && lo * a <= v <= hi * a
    ensures lo <= v / a <= hi
  {
    LeastQuotient(v, a, lo);
    DivBrackets(v, a);
    assert v / a * a < (hi + 1) * a;
    SmallerFactor(v / a, hi + 1, a);
  }

  /** A colour of the target lies between the least and the greatest of the visible
      pixels of its box. So nothing is ever clamped (lo = 0, hi = 255), and a plain
      surface keeps its colour (lo = hi). */
  lemma AverageStaysWithin(
      px: bytes, w: nat, h: nat, y0: nat, y1: nat, x0: nat, x1: nat, k: nat, lo: nat, hi: nat)
    requires |px| == 4 * (w * h) && y0 < y1 <= h && x0 < x1 <= w && k < 3
    requires BoxWithin(px, w, h, y0, y1, x0, x1, k, lo, hi)
    ensures var s := BoxSums(px, w, h, y0, y1, x0, x1);
            s.n > 0 && s.a <= 255 * s.n && (s.a > 0 ==> lo <= Weighted(s, k) / s.a <= hi)
  {
    BoxSumsWithin(px, w, h, y0, y1, x0, x1, k, lo, hi);
    var s := BoxSums(px, w, h, y0, y1, x0, x1);
    if s.a > 0 {
      QuotientWithin(Weighted(s, k), s.a, lo, hi);
    }
  }

  lemma BytesAreWithin(px: bytes, base: nat, x0: nat, x1: nat, k: nat)
    requires k < 3 && 4 * (base + x1) <= |px|
    ensures RowWithin(px, base, x0, x1, k, 0, 255)
  {
  }

  lemma RowOfBytes(px: bytes, w: nat, h: nat, y: nat, x0: nat, x1: nat, k: nat)
    requires |px| == 4 * (w * h) && y < h && x1 <= w && k < 3
    ensures y * w + w <= w * h && RowWithin(px, y * w, x0, x1, k, 0, 255)
  {
    RowInside(w, h, y);
    BytesAreWithin(px, y * w, x0, x1, k);
  }

  lemma BoxOfBytes(px: bytes, w: nat, h: nat, y0: nat, y1: nat, x0: nat, x1: nat, k: nat)
    requires |px| == 4 * (w * h) && y1 <= h && x1 <= w && k < 3
    ensures BoxWithin(px, w, h, y0, y1, x0, x1, k, 0, 255)
  {
    forall y | y0 <= y < y1
      ensures y * w + w <= w * h && RowWithin(px, y * w, x0, x1, k, 0, 255)
    {
      RowOfBytes(px, w, h, y, x0, x1, k);
    }
  }

  /** The min with 255 in the resampler changes nothing. */
  lemma ClampIsRedundant(px: bytes, w: nat, h: nat, y0: nat, y1: nat, x0: nat, x1: nat, k: nat)
    requires |px| == 4 * (w * h) && y0 < y1 <= h && x0 < x1 <= w && k < 3
    ensures var s := BoxSums(px, w, h, y0, y1, x0, x1);
            s.n > 0 && s.a <= 255 * s.n && (s.a > 0 ==> Weighted(s, k) / s.a <= 255)
  {
    BoxOfBytes(px, w, h, y0, y1, x0, x1, k);
    AverageStaysWithin(px, w, h, y0, y1, x0, x1, k, 0, 255);
  }

  // ---- The resampler ------------------------------------------------------

  /** What one target pixel is made of. */
  function PixelSums(px: bytes, w: nat, h: nat, tw: nat, th: nat, tx: nat, ty: nat): (s: Sums)
    requires |px| == 4 * (w * h) && w > 0 && h > 0 && tx < tw && ty < th
    ensures s.n > 0 && s.a <= 255 * s.n
  {
    BoxesInBounds(ty, h, th);
    BoxesInBounds(tx, w, tw);
    ClampIsRedundant(px, w, h, Lo(ty, h, th), Hi(ty, h, th), Lo(tx, w, tw), Hi(tx, w, tw), 0);
    BoxSums(px, w, h, Lo(ty, h, th), Hi(ty, h, th), Lo(tx, w, tw), Hi(tx, w, tw))
  }

  /** The first tx pixels of target row ty. */
  function TargetRow(px: bytes, w: nat, h: nat, tw: nat, th: nat, tx: nat, ty: nat): (row: bytes)
    requires |px| == 4 * (w * h) && w > 0 && h > 0 && tx <= tw && ty < th
    ensures |row| == 4 * tx
  {
    if tx == 0 then []
    else TargetRow(px, w, h, tw, th, tx - 1, ty) + Average(PixelSums(px, w, h, tw, th, tx - 1, ty))
  }

  /** The first ty target rows. */
  function TargetRows(px: bytes, w: nat, h: nat, tw: nat, th: nat, ty: nat): bytes
    requires |px| == 4 * (w * h) && w > 0 && h > 0 && ty <= th
  {
    if ty == 0 then []
    else TargetRows(px, w, h, tw, th, ty - 1) + TargetRow(px, w, h, tw, th, tw, ty - 1)
  }

  /** The loop's body: one pixel on top of the sums so far. */
  method AddPixel(px: bytes, i: nat, s: Sums) returns (r: nat, g: nat, b: nat, a: nat, n: nat)
    requires i + 3 < |px|
    ensures Sums(r, g, b, a, n) == Add(s, px, i)
  {
    var pr: nat, pg: nat, pb: nat, al: nat := px[i], px[i + 1], px[i + 2], px[i + 3];
    r, g, b := s.r + pr * al, s.g + pg * al, s.b + pb * al;
    a, n := s.a + al, s.n + 1;
  }

  method SumRow(px: bytes, base: nat, x0: nat, x1: nat, start: Sums) returns (s: Sums)
    requires x0 <= x1 && 4 * (base + x1) <= |px|
    ensures s == RowSums(px, base, x0, x1, start)
  {
    s := start;
    for x := x0 to x1
      invariant s == RowSums(px, base, x0, x, start)
    {
      var r, g, b, a, n := AddPixel(px, 4 * (base + x), s);
      s := Sums(r, g, b, a, n);
    }
  }

  method SumBox(px: bytes, w: nat, h: nat, y0: nat, y1: nat, x0: nat, x1: nat) returns (s: Sums)
    requires |px| == 4 * (w * h) && y0 <= y1 <= h && x0 <= x1 <= w
    ensures s == BoxSums(px, w, h, y0, y1, x0, x1)
  {
    s := Sums(0, 0, 0, 0, 0);
    for y := y0 to y1
      invariant s == BoxSums(px, w, h, y0, y, x0, x1)
    {
      RowInside(w, h, y);
      s := SumRow(px, y * w, x0, x1, s);
    }
  }

  /** Colours are written only where something of the box is visible. */
  method PutPixel(out: array<byte>, d: nat, visible: bool, r: byte, g: byte, b: byte, a: byte, ghost before: bytes)
    requires d + 4 <= out.Length && out[..d] == before && forall i :: d <= i < out.Length ==> out[i] == 0
    modifies out
    ensures out[..d + 4] == before + (if visible then [r, g, b, a] else [0, 0, 0, a])
    ensures forall i :: d + 4 <= i < out.Length ==> out[i] == 0
  {
    if visible {
      out[d] := r;
      out[d + 1] := g;
      out[d + 2] := b;
    }
    out[d + 3] := a;
    assert out[..d + 4] == out[..d] + [out[d], out[d + 1], out[d + 2], out[d + 3]];
  }

  method FillTargetRow(
      out: array<byte>, d: nat, px: bytes, w: nat, h: nat, tw: nat, th: nat, ty: nat, ghost before: bytes)
    requires |px| == 4 * (w * h) && w > 0 && h > 0 && ty < th && d + 4 * tw <= out.Length
    requires out[..d] == before && forall i :: d <= i < out.Length ==> out[i] == 0
    modifies out
    ensures out[..d + 4 * tw] == before + TargetRow(px, w, h, tw, th, tw, ty)
    ensures forall i :: d + 4 * tw <= i < out.Length ==> out[i] == 0
  {
    var y0, y1 := Lo(ty, h, th), Hi(ty, h, th);
    BoxesInBounds(ty, h, th);
    ghost var done := before;
    assert before + [] == before;
    for tx := 0 to tw
      invariant out[..d + 4 * tx] == done == before + TargetRow(px, w, h, tw, th, tx, ty)
      invariant forall i :: d + 4 * tx <= i < out.Length ==> out[i] == 0
    {
      var x0, x1 := Lo(tx, w, tw), Hi(tx, w, tw);
      BoxesInBounds(tx, w, tw);
      var s := SumBox(px, w, h, y0, y1, x0, x1);
      assert s == PixelSums(px, w, h, tw, th, tx, ty);
      PutPixel(out, d + 4 * tx, s.a > 0,
        AverageColour(s.r, s), AverageColour(s.g, s), AverageColour(s.b, s), AverageAlpha(s), done);
      Assoc(before, TargetRow(px, w, h, tw, th, tx, ty), Average(s));
      done := done + Average(s);
    }
  }

  /** resize: every target pixel is the average of its box. Fails (IndexError) when
      there is something to draw and nothing to draw it from. */
  method Resize(w: nat, h: nat, px: bytes, tw: nat, th: nat) returns (r: Option<array<byte>>)
    requires |px| == 4 * (w * h)
    ensures r.None? <==> tw > 0 && th > 0 && (w == 0 || h == 0)
    ensures r.Some? ==> fresh(r.value) && r.value.Length == 4 * (tw * th)
    ensures r.Some? && w > 0 && h > 0 ==> r.value[..] == TargetRows(px, w, h, tw, th, th)
  {
    var out := new byte[4 * (tw * th)](_ => 0);
    if tw == 0 || th == 0 {
      if w > 0 && h > 0 {
        NoPixels(px, w, h, tw, th, th);
      }
      return Some(out);
    }
    if w == 0 || h == 0 {
      return None;
    }
    ghost var done: bytes, d: nat := [], 0;
    for ty := 0 to th
      invariant d == 4 * (tw * ty) <= out.Length
      invariant out[..d] == done == TargetRows(px, w, h, tw, th, ty)
      invariant forall i :: d <= i < out.Length ==> out[i] == 0
    {
      TargetRowFits(tw, th, ty);
      var at := 4 * (tw * ty);
      FillTargetRow(out, at, px, w, h, tw, th, ty, done);
      NextTargetRow(px, w, h, tw, th, ty);
      done, d := done + TargetRow(px, w, h, tw, th, tw, ty), at + 4 * tw;
    }
    assert out[..] == out[..d];
    r := Some(out);
  }

  lemma NextTargetRow(px: bytes, w: nat, h: nat, tw: nat, th: nat, ty: nat)
    requires |px| == 4 * (w * h) && w > 0 && h > 0 && ty < th
    ensures TargetRows(px, w, h, tw, th, ty + 1)
            == TargetRows(px, w, h, tw, th, ty) + TargetRow(px, w, h, tw, th, tw, ty)
  {
  }

  lemma TargetRowFits(tw: nat, th: nat, ty: nat)
    requires ty < th
    ensures 4 * (tw * ty) + 4 * tw == 4 * (tw * (ty + 1)) <= 4 * (tw * th)
  {
    Product(ty + 1, th, tw);
  }

  lemma {:induction false} NoPixels(px: bytes, w: nat, h: nat, tw: nat, th: nat, ty: nat)
    requires |px| == 4 * (w * h) && w > 0 && h > 0 && ty <= th && (tw == 0 || th == 0)
    ensures TargetRows(px, w, h, tw, th, ty) == []
  {
    if ty > 0 { NoPixels(px, w, h, tw, th, ty - 1); }
  }

  // ---- Resizing to the same size ------------------------------------------

  lemma ExactQuotient(c: nat, d: nat)
    requires d > 0
    ensures c * d / d == c
  {
    LeastQuotient(c * d, d, c);
    DivBrackets(c * d, d);
    SmallerFactor(c * d / d, c + 1, d);
  }

  lemma SameSizeBox(t: nat, n: nat)
    requires t < n
    ensures Lo(t, n, n) == t && Hi(t, n, n) == t + 1
  {
    ExactQuotient(t, n);
    ExactQuotient(t + 1, n);
  }

  function PixelOf(px: bytes, w: nat, h: nat, x: nat, y: nat): (p: bytes)
    requires |px| == 4 * (w * h) && x < w && y < h
    ensures |p| == 4
  {
    RowInside(w, h, y);
    px[4 * (y * w + x)..4 * (y * w + x) + 4]
  }

  /** Resized to its own size, an image keeps every visible pixel; a transparent one
      comes out black. */
  lemma SameSizeKeepsVisiblePixels(px: bytes, w: nat, h: nat, x: nat, y: nat)
    requires |px| == 4 * (w * h) && x < w && y < h
    ensures var p := PixelOf(px, w, h, x, y);
            Average(PixelSums(px, w, h, w, h, x, y)) == if p[3] > 0 then p else [0, 0, 0, 0]
  {
    RowInside(w, h, y);
    SameSizeBox(x, w);
    SameSizeBox(y, h);
    OnePixel(px, w, h, x, y);
    AverageOfOne(px, 4 * (y * w + x));
  }

  lemma AverageOfOne(px: bytes, i: nat)
    requires i + 4 <= |px|
    ensures Average(Add(Sums(0, 0, 0, 0, 0), px, i)) == if px[i + 3] > 0 then px[i..i + 4] else [0, 0, 0, 0]
  {
    if px[i + 3] > 0 {
      ExactQuotient(px[i], px[i + 3]);
      ExactQuotient(px[i + 1], px[i + 3]);
      ExactQuotient(px[i + 2], px[i + 3]);
    }
  }

  lemma OnePixel(px: bytes, w: nat, h: nat, x: nat, y: nat)
    requires |px| == 4 * (w * h) && x < w && y < h && y * w + w <= w * h
    ensures BoxSums(px, w, h, y, y + 1, x, x + 1) == Add(Sums(0, 0, 0, 0, 0), px, 4 * (y * w + x))
  {
    var zero := Sums(0, 0, 0, 0, 0);
    assert BoxSums(px, w, h, y, y, x, x + 1) == zero;
    assert RowSums(px, y * w, x, x, zero) == zero;
  }
}
