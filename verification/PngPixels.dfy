/** Each pixel of a resampled image, as sums over all pixels of its box
    (apps/web/scripts/brand/pngtool.py, resize). */
module PngPixels {
  import opened Bytes
  import opened PngResize

  // ---- Sums over a rectangle ----------------------------------------------

  function RowTotal(f: (nat, nat) -> nat, y: nat, x0: nat, x1: nat): nat
    requires x0 <= x1
  {
    if x0 == x1 then 0 else RowTotal(f, y, x0, x1 - 1) + f(x1 - 1, y)
  }

  /** f summed over the pixels of columns x0 to x1 in rows y0 to y1. */
  function Total(f: (nat, nat) -> nat, x0: nat, x1: nat, y0: nat, y1: nat): nat
    requires x0 <= x1 && y0 <= y1
  {
    if y0 == y1 then 0 else Total(f, x0, x1, y0, y1 - 1) + RowTotal(f, y1 - 1, x0, x1)
  }

  lemma {:induction false} RowTotalSplits(f: (nat, nat) -> nat, y: nat, x0: nat, x: nat, x1: nat)
    requires x0 <= x <= x1
    ensures RowTotal(f, y, x0, x1) == RowTotal(f, y, x0, x) + RowTotal(f, y, x, x1)
    decreases x1
  {
    if x < x1 { RowTotalSplits(f, y, x0, x, x1 - 1); }
  }

  /** One pixel counts for what f says of it, and a rectangle cut either way for its two
      parts: every pixel counts once. */
  lemma {:induction false} TotalSplits(f: (nat, nat) -> nat, x0: nat, x: nat, x1: nat, y0: nat, y: nat, y1: nat)
    requires x0 <= x <= x1 && y0 <= y <= y1
    ensures Total(f, x0, x1, y0, y1) == Total(f, x0, x, y0, y1) + Total(f, x, x1, y0, y1)
    ensures Total(f, x0, x1, y0, y1) == Total(f, x0, x1, y0, y) + Total(f, x0, x1, y, y1)
    ensures Total(f, x0, x0 + 1, y0, y0 + 1) == f(x0, y0)
    decreases y1
  {
    OnePixelTotal(f, x0, y0);
    if y0 < y1 {
      RowTotalSplits(f, y1 - 1, x0, x, x1);
      TotalSplits(f, x0, x, x1, y0, if y < y1 then y else y1 - 1, y1 - 1);
    }
  }

  lemma OnePixelTotal(f: (nat, nat) -> nat, x: nat, y: nat)
    ensures Total(f, x, x + 1, y, y + 1) == f(x, y)
  {
    assert RowTotal(f, y, x, x) == 0 && Total(f, x, x + 1, y, y) == 0;
  }

  // ---- Boxes --------------------------------------------------------------

  function ByteOf(px: bytes, i: nat): nat { if i < |px| then px[i] else 0 }

  /** Where a pixel's four bytes begin. */
  function At(w: nat, x: nat, y: nat): nat { 4 * (y * w + x) }

  /** A pixel's alpha, and a colour of it weighted by that. */
  function Alpha(px: bytes, w: nat): (nat, nat) -> nat {
    (x: nat, y: nat) => ByteOf(px, At(w, x, y) + 3)
  }

  function Weighed(colour: nat, alpha: nat): nat { colour * alpha }

  function Premultiplied(px: bytes, w: nat, k: nat): (nat, nat) -> nat {
    (x: nat, y: nat) => Weighed(ByteOf(px, At(w, x, y) + k), ByteOf(px, At(w, x, y) + 3))
  }

  lemma AddIsOne(px: bytes, w: nat, x: nat, y: nat, s: Sums, i: nat)
    requires i == At(w, x, y) && i + 3 < |px|
    ensures Add(s, px, i)
            == Sums(s.r + Premultiplied(px, w, 0)(x, y), s.g + Premultiplied(px, w, 1)(x, y),
                    s.b + Premultiplied(px, w, 2)(x, y), s.a + Alpha(px, w)(x, y), s.n + 1)
  {
  }

  lemma {:induction false} RowIsTotal(px: bytes, w: nat, y: nat, base: nat, x0: nat, x: nat, s: Sums)
    requires base == y * w && x0 <= x && 4 * (base + x) <= |px|
    ensures RowSums(px, base, x0, x, s)
            == Sums(s.r + RowTotal(Premultiplied(px, w, 0), y, x0, x),
                    s.g + RowTotal(Premultiplied(px, w, 1), y, x0, x),
                    s.b + RowTotal(Premultiplied(px, w, 2), y, x0, x), s.a + RowTotal(Alpha(px, w), y, x0, x),
                    s.n + (x - x0))
    decreases x
  {
    if x > x0 {
      RowIsTotal(px, w, y, base, x0, x - 1, s);
      AddIsOne(px, w, x - 1, y, RowSums(px, base, x0, x - 1, s), 4 * (base + x - 1));
    }
  }

  function Area(x0: nat, x1: nat, y0: nat, y1: nat): nat
    requires x0 <= x1 && y0 <= y1
  {
    (y1 - y0) * (x1 - x0)
  }

  lemma AreaNext(x0: nat, x1: nat, y0: nat, y: nat)
    requires x0 <= x1 && y0 < y
    ensures Area(x0, x1, y0, y) == Area(x0, x1, y0, y - 1) + (x1 - x0)
  {
    OneRowMore(y - y0, x1 - x0);
  }

  /** The sums of a box are the totals over all its pixels. */
  lemma {:induction false} BoxIsTotal(px: bytes, w: nat, h: nat, y0: nat, y: nat, x0: nat, x1: nat)
    requires |px| == 4 * (w * h) && y0 <= y <= h && x0 <= x1 <= w
    ensures BoxSums(px, w, h, y0, y, x0, x1)
            == Sums(Total(Premultiplied(px, w, 0), x0, x1, y0, y), Total(Premultiplied(px, w, 1), x0, x1, y0, y),
                    Total(Premultiplied(px, w, 2), x0, x1, y0, y), Total(Alpha(px, w), x0, x1, y0, y),
                    Area(x0, x1, y0, y))
    decreases y
  {
    if y > y0 {
      BoxIsTotal(px, w, h, y0, y - 1, x0, x1);
      RowInside(w, h, y - 1);
      RowIsTotal(px, w, y - 1, (y - 1) * w, x0, x1, BoxSums(px, w, h, y0, y - 1, x0, x1));
      AreaNext(x0, x1, y0, y);
    }
  }

  // ---- Where a pixel is ---------------------------------------------------

  lemma {:induction false} RowHolds(px: bytes, w: nat, h: nat, tw: nat, th: nat, tx: nat, ty: nat, n: nat)
    requires |px| == 4 * (w * h) && w > 0 && h > 0 && tx < n <= tw && ty < th
    ensures TargetRow(px, w, h, tw, th, n, ty)[4 * tx..4 * tx + 4] == Average(PixelSums(px, w, h, tw, th, tx, ty))
    decreases n
  {
    if tx < n - 1 {
      RowHolds(px, w, h, tw, th, tx, ty, n - 1);
      SliceLeft(TargetRow(px, w, h, tw, th, n - 1, ty), Average(PixelSums(px, w, h, tw, th, n - 1, ty)), 4 * tx);
    }
  }

  lemma SliceLeft(a: bytes, b: bytes, i: nat)
    requires i + 4 <= |a|
    ensures (a + b)[i..i + 4] == a[i..i + 4]
  {
  }

  lemma SliceRight(a: bytes, b: bytes, i: nat)
    requires i + 4 <= |b|
    ensures (a + b)[|a| + i..|a| + i + 4] == b[i..i + 4]
  {
  }

  /** Pixel tx of the last of the first ty + 1 rows, and of those it stays. */
  lemma LastRowHolds(px: bytes, w: nat, h: nat, tw: nat, th: nat, tx: nat, ty: nat, before: nat)
    requires |px| == 4 * (w * h) && w > 0 && h > 0 && tx < tw && ty < th
    requires before == |TargetRows(px, w, h, tw, th, ty)|
    ensures Holds(TargetRows(px, w, h, tw, th, ty + 1), before + 4 * tx, Average(PixelSums(px, w, h, tw, th, tx, ty)))
  {
    NextTargetRow(px, w, h, tw, th, ty);
    RowHolds(px, w, h, tw, th, tx, ty, tw);
    SliceRight(TargetRows(px, w, h, tw, th, ty), TargetRow(px, w, h, tw, th, tw, ty), 4 * tx);
  }

  predicate Holds(rows: bytes, d: nat, p: bytes) { d + 4 <= |rows| && rows[d..d + 4] == p }

  lemma {:induction false} RowsKeep(
      px: bytes, w: nat, h: nat, tw: nat, th: nat, m: nat, n: nat, d: nat, p: bytes)
    requires |px| == 4 * (w * h) && w > 0 && h > 0 && m <= n <= th && Holds(TargetRows(px, w, h, tw, th, m), d, p)
    ensures Holds(TargetRows(px, w, h, tw, th, n), d, p)
    decreases n
  {
    if m < n {
      RowsKeep(px, w, h, tw, th, m, n - 1, d, p);
      NextTargetRow(px, w, h, tw, th, n - 1);
      SliceLeft(TargetRows(px, w, h, tw, th, n - 1), TargetRow(px, w, h, tw, th, tw, n - 1), d);
    }
  }

  lemma OneRowMore(n: nat, tw: nat)
    requires n > 0
    ensures n * tw == (n - 1) * tw + tw
  {
  }

  lemma {:induction false} RowsLength(px: bytes, w: nat, h: nat, tw: nat, th: nat, n: nat)
    requires |px| == 4 * (w * h) && w > 0 && h > 0 && n <= th
    ensures |TargetRows(px, w, h, tw, th, n)| == 4 * (n * tw)
  {
    if n > 0 {
      RowsLength(px, w, h, tw, th, n - 1);
      OneRowMore(n, tw);
    }
  }

  // ---- The resampled image ------------------------------------------------

  /** The half-open range of source lines a target line draws on. */
  predicate Draws(t: nat, n: nat, tn: nat, lo: nat, hi: nat)
    requires tn > 0
  {
    lo == t * n / tn && hi == if (t + 1) * n / tn > lo + 1 then (t + 1) * n / tn else lo + 1
  }

  lemma PixelOfRows(px: bytes, w: nat, h: nat, tw: nat, th: nat, tx: nat, ty: nat, d: nat)
    requires |px| == 4 * (w * h) && w > 0 && h > 0 && tx < tw && ty < th && d == 4 * (ty * tw + tx)
    ensures Holds(TargetRows(px, w, h, tw, th, th), d, Average(PixelSums(px, w, h, tw, th, tx, ty)))
  {
    RowsLength(px, w, h, tw, th, ty);
    LastRowHolds(px, w, h, tw, th, tx, ty, 4 * (ty * tw));
    RowsKeep(px, w, h, tw, th, ty + 1, th, d, Average(PixelSums(px, w, h, tw, th, tx, ty)));
  }

  lemma BoxOf(px: bytes, w: nat, h: nat, tw: nat, th: nat, tx: nat, ty: nat, x0: nat, x1: nat, y0: nat, y1: nat)
    requires |px| == 4 * (w * h) && w > 0 && h > 0 && tx < tw && ty < th
    requires Draws(tx, w, tw, x0, x1) && Draws(ty, h, th, y0, y1)
    ensures x0 < x1 <= w && y0 < y1 <= h
    ensures PixelSums(px, w, h, tw, th, tx, ty) == BoxSums(px, w, h, y0, y1, x0, x1)
  {
    BoxesInBounds(tx, w, tw);
    BoxesInBounds(ty, h, th);
  }

  /** The pixel with the mean of alphas that come to a over n pixels, and where a is not
      nothing the colours weighted by alpha over a, all rounded down. */
  predicate IsMean(p: bytes, r: nat, g: nat, b: nat, a: nat, n: nat) {
    && |p| == 4 && n > 0 && p[3] == a / n
    && (a == 0 ==> p[0] == p[1] == p[2] == 0)
    && (a > 0 ==> p[0] == r / a && p[1] == g / a && p[2] == b / a)
  }

  lemma AverageIsMean(s: Sums)
    requires s.n > 0 && s.a <= 255 * s.n
    requires s.a > 0 ==> s.r / s.a <= 255 && s.g / s.a <= 255 && s.b / s.a <= 255
    ensures IsMean(Average(s), s.r, s.g, s.b, s.a, s.n)
  {
  }

  lemma BoxIsMean(px: bytes, w: nat, h: nat, x0: nat, x1: nat, y0: nat, y1: nat)
    requires |px| == 4 * (w * h) && x0 < x1 <= w && y0 < y1 <= h
    ensures var s := BoxSums(px, w, h, y0, y1, x0, x1);
            s.n > 0 && s.a <= 255 * s.n && IsMean(Average(s), s.r, s.g, s.b, s.a, s.n)
  {
    ClampIsRedundant(px, w, h, y0, y1, x0, x1, 0);
    ClampIsRedundant(px, w, h, y0, y1, x0, x1, 1);
    ClampIsRedundant(px, w, h, y0, y1, x0, x1, 2);
    AverageIsMean(BoxSums(px, w, h, y0, y1, x0, x1));
  }

  /** Every pixel of the target is the mean of its box. */
  lemma ResizedPixel(px: bytes, w: nat, h: nat, tw: nat, th: nat, tx: nat, ty: nat,
                     x0: nat, x1: nat, y0: nat, y1: nat, d: nat)
    requires |px| == 4 * (w * h) && w > 0 && h > 0 && tx < tw && ty < th && d == 4 * (ty * tw + tx)
    requires Draws(tx, w, tw, x0, x1) && Draws(ty, h, th, y0, y1)
    ensures x0 < x1 <= w && y0 < y1 <= h
    ensures var out := TargetRows(px, w, h, tw, th, th);
            d + 4 <= |out| && IsMean(out[d..d + 4],
              Total(Premultiplied(px, w, 0), x0, x1, y0, y1), Total(Premultiplied(px, w, 1), x0, x1, y0, y1),
              Total(Premultiplied(px, w, 2), x0, x1, y0, y1), Total(Alpha(px, w), x0, x1, y0, y1),
              Area(x0, x1, y0, y1))
  {
    BoxOf(px, w, h, tw, th, tx, ty, x0, x1, y0, y1);
    BoxIsMean(px, w, h, x0, x1, y0, y1);
    BoxIsTotal(px, w, h, y0, y1, x0, x1);
    PixelOfRows(px, w, h, tw, th, tx, ty, d);
  }
}
