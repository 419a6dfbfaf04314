/** The pixel scan shared by both signature trimmers: a row-major RGBA buffer
    of `w * h` pixels is walked row by row, each pixel is classified as ink or
    background, and a bounding box that starts from the sentinel
    (`w`, `h`, -1, -1) grows to cover every ink pixel. Also the padding and
    clamping of that box and the integer form of `Math.round`. */
module InkScan {
  import opened Wrappers

  /** The name of the exception `getImageData` throws for a canvas with no
      pixels (width or height 0). */
  const IndexSizeError: string := "IndexSizeError"

  /** The two ink tests. `ChannelThreshold(thr)`: alpha is not 0 and some
      channel of r, g, b is below `thr`. `Brightness(thr)`: alpha is at least
      5 and the mean `(r + g + b) / 3` is at most `thr`. */
  datatype InkTest = ChannelThreshold(thr: int) | Brightness(thr: int)

  predicate IsInkPixel(t: InkTest, r: int, g: int, b: int, a: int)
  {
    match t
    case ChannelThreshold(thr) => a != 0 && !(r >= thr && g >= thr && b >= thr)
    // (r + g + b) / 3 <= thr, over the rationals, with thr an integer
    case Brightness(thr) => !(a < 5) && r + g + b <= 3 * thr
  }

  /** Offset of the red byte of pixel (x, y). */
  function PixelOffset(w: nat, x: nat, y: nat): nat
  {
    (y * w + x) * 4
  }

  /** Pixel (x, y) of the buffer `s` is ink under test `t`. */
  predicate InkAt(s: seq<int>, w: nat, t: InkTest, x: nat, y: nat)
  {
    var i := PixelOffset(w, x, y);
    i + 3 < |s| && IsInkPixel(t, s[i], s[i + 1], s[i + 2], s[i + 3])
  }

  /** Every pixel of a `w` by `h` image has all four of its bytes inside a
      buffer of `w * h * 4` bytes. */
  lemma PixelIndexInBounds(w: nat, h: nat, x: nat, y: nat)
    requires x < w && y < h
    ensures PixelOffset(w, x, y) + 3 < w * h * 4
  {
    assert y * w + x < (y + 1) * w by {
      assert (y + 1) * w == y * w + w;
    }
    assert (y + 1) * w <= h * w by {
      MulMonotone(y + 1, h, w);
    }
    assert h * w == w * h;
  }

  lemma MulMonotone(a: nat, b: nat, c: nat)
    requires a <= b
    ensures a * c <= b * c
  {
    assert b * c == a * c + (b - a) * c;
  }

  /** The bounding box `{minX, minY, maxX, maxY}` (in the canvas version
      `{left, top, right, bottom}`). */
  datatype Box = Box(minX: int, minY: int, maxX: int, maxY: int)

  /** The starting value of the scan; it stands for "no ink seen". */
  function Sentinel(w: nat, h: nat): Box
  {
    Box(w, h, -1, -1)
  }

  /** One step of the scan at pixel (x, y). */
  function Visit(b: Box, x: int, y: int, ink: bool): Box
  {
    if !ink then b
    else Box(if x < b.minX then x else b.minX,
             if y < b.minY then y else b.minY,
             if x > b.maxX then x else b.maxX,
             if y > b.maxY then y else b.maxY)
  }

  /** The box after the scan has visited all rows above `y` and the first
      `x` pixels of row `y`. */
  function Scan(s: seq<int>, w: nat, h: nat, t: InkTest, y: nat, x: nat): Box
    requires x <= w
    decreases y, x
  {
    if x == 0 then (if y == 0 then Sentinel(w, h) else Scan(s, w, h, t, y - 1, w))
    else Visit(Scan(s, w, h, t, y, x - 1), x - 1, y, InkAt(s, w, t, x - 1, y))
  }

  /** Pixel (px, py) comes before position (x, y) in row-major order. */
  predicate Before(y: int, x: int, px: int, py: int)
  {
    py < y || (py == y && px < x)
  }

  /** (px, py) is an ink pixel that the scan has visited before (x, y). */
  predicate InkBefore(s: seq<int>, w: nat, t: InkTest, y: nat, x: nat, px: int, py: int)
  {
    0 <= px < w && 0 <= py && Before(y, x, px, py) && InkAt(s, w, t, px, py)
  }

  ghost predicate NoInkBefore(s: seq<int>, w: nat, t: InkTest, y: nat, x: nat)
  {
    forall px: int, py: int :: !InkBefore(s, w, t, y, x, px, py)
  }

  /** Moving to the next row start visits the same pixels as finishing the
      previous row. */
  lemma RowStart(s: seq<int>, w: nat, t: InkTest, y: nat, px: int, py: int)
    requires y > 0
    ensures InkBefore(s, w, t, y, 0, px, py) <==> InkBefore(s, w, t, y - 1, w, px, py)
  {
  }

  /** Advancing by one pixel adds exactly pixel (x - 1, y). */
  lemma StepBefore(s: seq<int>, w: nat, t: InkTest, y: nat, x: nat, px: int, py: int)
    requires 0 < x <= w
    ensures InkBefore(s, w, t, y, x, px, py) <==>
      InkBefore(s, w, t, y, x - 1, px, py) || (px == x - 1 && py == y && InkAt(s, w, t, x - 1, y))
  {
  }

  /** The scanned box covers every visited ink pixel. */
  lemma {:induction false} ScanCovers(s: seq<int>, w: nat, h: nat, t: InkTest, y: nat, x: nat, px: int, py: int)
    requires x <= w
    requires InkBefore(s, w, t, y, x, px, py)
    ensures var b := Scan(s, w, h, t, y, x);
      b.minX <= px <= b.maxX && b.minY <= py <= b.maxY
    decreases y, x
  {
    if x == 0 {
      RowStart(s, w, t, y, px, py);
      ScanCovers(s, w, h, t, y - 1, w, px, py);
    } else {
      StepBefore(s, w, t, y, x, px, py);
      if InkBefore(s, w, t, y, x - 1, px, py) {
        ScanCovers(s, w, h, t, y, x - 1, px, py);
      }
    }
  }

  /** The partial scan is either still the sentinel or a box inside the image. */
  lemma {:induction false} ScanShape(s: seq<int>, w: nat, h: nat, t: InkTest, y: nat, x: nat)
    requires x <= w && y <= h && (x > 0 ==> y < h)
    ensures var b := Scan(s, w, h, t, y, x);
      b == Sentinel(w, h) || (0 <= b.minX <= b.maxX < w && 0 <= b.minY <= b.maxY < h)
    decreases y, x
  {
    if x == 0 && y > 0 {
      ScanShape(s, w, h, t, y - 1, w);
    } else if x > 0 {
      ScanShape(s, w, h, t, y, x - 1);
    }
  }

  /** Once the box has left the sentinel, each of its sides is reached by a
      visited ink pixel; the four witnesses are returned. */
  lemma {:induction false} ScanReached(s: seq<int>, w: nat, h: nat, t: InkTest, y: nat, x: nat)
    returns (left: (int, int), top: (int, int), right: (int, int), bottom: (int, int))
    requires x <= w && y <= h && (x > 0 ==> y < h)
    requires Scan(s, w, h, t, y, x) != Sentinel(w, h)
    ensures var b := Scan(s, w, h, t, y, x);
      && InkBefore(s, w, t, y, x, left.0, left.1) && left.0 == b.minX
      && InkBefore(s, w, t, y, x, top.0, top.1) && top.1 == b.minY
      && InkBefore(s, w, t, y, x, right.0, right.1) && right.0 == b.maxX
      && InkBefore(s, w, t, y, x, bottom.0, bottom.1) && bottom.1 == b.maxY
    decreases y, x
  {
    if x == 0 {
      left, top, right, bottom := ScanReached(s, w, h, t, y - 1, w);
      RowStart(s, w, t, y, left.0, left.1);
      RowStart(s, w, t, y, top.0, top.1);
      RowStart(s, w, t, y, right.0, right.1);
      RowStart(s, w, t, y, bottom.0, bottom.1);
    } else {
      var p := (x - 1, y);
      var b0 := Scan(s, w, h, t, y, x - 1);
      if b0 == Sentinel(w, h) {
        left, top, right, bottom := p, p, p, p;
      } else {
        left, top, right, bottom := ScanReached(s, w, h, t, y, x - 1);
        StepBefore(s, w, t, y, x, left.0, left.1);
        StepBefore(s, w, t, y, x, top.0, top.1);
        StepBefore(s, w, t, y, x, right.0, right.1);
        StepBefore(s, w, t, y, x, bottom.0, bottom.1);
        if InkAt(s, w, t, x - 1, y) {
          if x - 1 < b0.minX { left := p; }
          if y < b0.minY { top := p; }
          if x - 1 > b0.maxX { right := p; }
          if y > b0.maxY { bottom := p; }
        }
      }
    }
  }

  /** Some pixel of the `w` by `h` image is ink. */
  ghost predicate HasInk(s: seq<int>, w: nat, h: nat, t: InkTest)
  {
    exists x: int, y: int :: 0 <= x < w && 0 <= y < h && InkAt(s, w, t, x, y)
  }

  /** `b` is the tight bounding box of the ink of the image: it contains
      every ink pixel and each of its sides is reached by one. */
  ghost predicate IsTightBox(s: seq<int>, w: nat, h: nat, t: InkTest, b: Box)
  {
    && 0 <= b.minX <= b.maxX < w && 0 <= b.minY <= b.maxY < h
    && (forall x: int, y: int :: 0 <= x < w && 0 <= y < h && InkAt(s, w, t, x, y) ==>
          b.minX <= x <= b.maxX && b.minY <= y <= b.maxY)
    && (exists y: int :: 0 <= y < h && InkAt(s, w, t, b.minX, y))
    && (exists y: int :: 0 <= y < h && InkAt(s, w, t, b.maxX, y))
    && (exists x: int :: 0 <= x < w && InkAt(s, w, t, x, b.minY))
    && (exists x: int :: 0 <= x < w && InkAt(s, w, t, x, b.maxY))
  }

  /** The scan of the whole image finds no ink exactly when its right side
      stays at -1, and otherwise yields the tight bounding box. */
  lemma FullScan(s: seq<int>, w: nat, h: nat, t: InkTest)
    ensures var b := Scan(s, w, h, t, h, 0);
      && (!HasInk(s, w, h, t) <==> b.maxX < 0)
      && (!HasInk(s, w, h, t) <==> b.maxY < 0)
      && (!HasInk(s, w, h, t) ==> b == Sentinel(w, h))
      && (HasInk(s, w, h, t) ==> IsTightBox(s, w, h, t, b))
  {
    var b := Scan(s, w, h, t, h, 0);
    ScanShape(s, w, h, t, h, 0);
    if b != Sentinel(w, h) {
      var left, top, right, bottom := ScanReached(s, w, h, t, h, 0);
      assert InkAt(s, w, t, left.0, left.1);
      forall x: int, y: int | 0 <= x < w && 0 <= y < h && InkAt(s, w, t, x, y)
        ensures b.minX <= x <= b.maxX && b.minY <= y <= b.maxY
      {
        ScanCovers(s, w, h, t, h, 0, x, y);
      }
      assert InkAt(s, w, t, b.minX, left.1);
      assert InkAt(s, w, t, b.maxX, right.1);
      assert InkAt(s, w, t, top.0, b.minY);
      assert InkAt(s, w, t, bottom.0, b.maxY);
    } else if HasInk(s, w, h, t) {
      var x: int, y: int :| 0 <= x < w && 0 <= y < h && InkAt(s, w, t, x, y);
      ScanCovers(s, w, h, t, h, 0, x, y);
    }
  }

  /** The scan as the source runs it: two nested loops over the buffer,
      reading the four bytes of each pixel. */
  method FindInkBox(data: array<int>, w: nat, h: nat, t: InkTest) returns (b: Box)
    requires data.Length == w * h * 4
    ensures b == Scan(data[..], w, h, t, h, 0)
  {
    b := Sentinel(w, h);
    var y := 0;
    while y < h
      invariant 0 <= y <= h
      invariant b == Scan(data[..], w, h, t, y, 0)
    {
      var x := 0;
      while x < w
        invariant 0 <= x <= w
        invariant b == Scan(data[..], w, h, t, y, x)
      {
        PixelIndexInBounds(w, h, x, y);
        var i := (y * w + x) * 4;
        var r, g, bl, a := data[i], data[i + 1], data[i + 2], data[i + 3];
        assert InkAt(data[..], w, t, x, y) == IsInkPixel(t, r, g, bl, a);
        if IsInkPixel(t, r, g, bl, a) {
          if x < b.minX { b := b.(minX := x); }
          if y < b.minY { b := b.(minY := y); }
          if x > b.maxX { b := b.(maxX := x); }
          if y > b.maxY { b := b.(maxY := y); }
        }
        x := x + 1;
      }
      y := y + 1;
    }
  }

  /** `Math.round(p / q)` for q > 0: JavaScript rounds halves up, that is
      `floor(p / q + 1/2)`, which is `(2p + q) div 2q` on the integers. */
  function RoundDiv(p: int, q: int): int
    requires q > 0
  {
    (2 * p + q) / (2 * q)
  }

  /** `RoundDiv` is the nearest integer, halves going up:
      r - 1/2 <= p / q < r + 1/2. */
  lemma RoundDivNearest(p: int, q: int)
    requires q > 0
    ensures var r := RoundDiv(p, q); 2 * q * r - q <= 2 * p < 2 * q * r + q
  {
    var d := 2 * q;
    var n := 2 * p + q;
    var r := n / d;
    assert n == d * r + n % d && 0 <= n % d < d;
    assert 2 * q * r == d * r;
  }

  /** Rounding an exact quotient gives it back. */
  lemma RoundDivExact(k: int, q: int)
    requires q > 0
    ensures RoundDiv(k * q, q) == k
  {
    assert 2 * (k * q) + q == (2 * q) * k + q;
    DivUnique(2 * (k * q) + q, 2 * q, k, q);
  }

  /** Integer division is determined by quotient and remainder. */
  lemma DivUnique(a: int, d: int, k: int, r: int)
    requires d > 0 && a == d * k + r && 0 <= r < d
    ensures a / d == k
  {
    var q := a / d;
    assert a == d * q + a % d;
    if q > k {
      MulMonotone(1, q - k, d);
    } else if q < k {
      MulMonotone(1, k - q, d);
    }
  }

  /** The box grown by `pad` on every side and clamped to the `w` by `h`
      image. */
  function PadBox(b: Box, pad: int, w: nat, h: nat): Box
  {
    Box(if b.minX - pad > 0 then b.minX - pad else 0,
        if b.minY - pad > 0 then b.minY - pad else 0,
        if b.maxX + pad < w - 1 then b.maxX + pad else w - 1,
        if b.maxY + pad < h - 1 then b.maxY + pad else h - 1)
  }

  predicate Inside(b: Box, w: int, h: int)
  {
    0 <= b.minX <= b.maxX <= w - 1 && 0 <= b.minY <= b.maxY <= h - 1
  }

  /** `outer` contains `inner`. */
  predicate Contains(outer: Box, inner: Box)
  {
    outer.minX <= inner.minX && inner.maxX <= outer.maxX
    && outer.minY <= inner.minY && inner.maxY <= outer.maxY
  }

  /** Padding a box that lies in the image keeps it in the image, keeps it
      non-empty with width and height between 1 and the image's, and the
      result contains the box. */
  lemma PadBoxInside(b: Box, pad: nat, w: nat, h: nat)
    requires Inside(b, w, h)
    ensures Inside(PadBox(b, pad, w, h), w, h)
    ensures Contains(PadBox(b, pad, w, h), b)
    ensures var p := PadBox(b, pad, w, h);
      1 <= p.maxX - p.minX + 1 <= w && 1 <= p.maxY - p.minY + 1 <= h
  {
  }

  /** More padding never gives a smaller rectangle. */
  lemma PadBoxMonotone(b: Box, pad1: int, pad2: int, w: nat, h: nat)
    requires pad1 <= pad2
    ensures Contains(PadBox(b, pad2, w, h), PadBox(b, pad1, w, h))
  {
  }

  /** With no padding the tight box of an image is unchanged. */
  lemma PadBoxZero(b: Box, w: nat, h: nat)
    requires Inside(b, w, h)
    ensures PadBox(b, 0, w, h) == b
  {
  }

  /** The geometry of a trimmed signature: the padded source rectangle, its
      width and height, the size of the rescaled output canvas and its
      background colour (`None`: left transparent). */
  datatype Crop = Crop(rect: Box, width: int, height: int, outWidth: int, outHeight: int,
                       background: Option<string>)

  function Max1(v: int): int
  {
    if v > 1 then v else 1
  }

  /** Pads and clamps the tight box `raw`, then sizes the output: with a
      target height `T` the scale is `T / height` and each side is rounded and
      kept at least 1; without one the scale is 1. */
  function CropOf(raw: Box, pad: nat, w: nat, h: nat, target: Option<int>, background: Option<string>): (c: Crop)
    requires Inside(raw, w, h)
    ensures Inside(c.rect, w, h) && Contains(c.rect, raw)
    ensures c.width == c.rect.maxX - c.rect.minX + 1 && c.height == c.rect.maxY - c.rect.minY + 1
    ensures 1 <= c.width <= w && 1 <= c.height <= h
    ensures c.outWidth >= 1
    ensures target.None? ==> c.outWidth == c.width && c.outHeight == c.height
    ensures target.Some? ==> c.outHeight == Max1(target.value)
    ensures c.background == background
  {
    PadBoxInside(raw, pad, w, h);
    var rect := PadBox(raw, pad, w, h);
    var tw := rect.maxX - rect.minX + 1;
    var th := rect.maxY - rect.minY + 1;
    match target
    case None => Crop(rect, tw, th, Max1(tw), Max1(th), background)
    case Some(t) =>
      RoundDivExact(t, th);
      assert th * t == t * th;
      Crop(rect, tw, th, Max1(RoundDiv(tw * t, th)), Max1(RoundDiv(th * t, th)), background)
  }

  /** With a target height the output keeps the aspect ratio of the crop:
      unless clamped to 1, the output width is `width * T / height` rounded to
      the nearest integer. */
  lemma CropAspect(raw: Box, pad: nat, w: nat, h: nat, t: int, background: Option<string>)
    requires Inside(raw, w, h)
    ensures var c := CropOf(raw, pad, w, h, Some(t), background);
      c.outWidth == 1 || 2 * c.height * c.outWidth - c.height <= 2 * (c.width * t) < 2 * c.height * c.outWidth + c.height
  {
    var c := CropOf(raw, pad, w, h, Some(t), background);
    RoundDivNearest(c.width * t, c.height);
  }

  /** More padding never gives a smaller crop rectangle. */
  lemma CropMonotone(raw: Box, pad1: nat, pad2: nat, w: nat, h: nat, target: Option<int>, background: Option<string>)
    requires Inside(raw, w, h) && pad1 <= pad2
    ensures Contains(CropOf(raw, pad2, w, h, target, background).rect,
                     CropOf(raw, pad1, w, h, target, background).rect)
  {
    PadBoxMonotone(raw, pad1, pad2, w, h);
  }
}
