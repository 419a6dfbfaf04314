/** The `SignaturePad` component: a canvas of device pixels filled white when
    the pad is set up, a `drawing` flag raised by pointer-down, strokes painted
    in #111827 while the flag is up, and on pointer-up the trimmed signature
    handed to `onChange`. `clear` fills the canvas's width and height in
    white and hands over `null`; since the drawing scale set up at mount is
    still in force, that rectangle covers the whole canvas only when the
    device pixel ratio is at least 1. */
module SignaturePad {
  import opened Wrappers
  import opened InkScan
  import TrimCanvas

  const DefaultTargetCssHeight: int := 60
  const DefaultPadCssWidth: nat := 520
  const DefaultPadCssHeight: nat := 180

  /** `Math.floor(css * dpr)` for the device pixel ratio `num / den`; a ratio
      of 0 falls back to 1 (`window.devicePixelRatio || 1`). */
  function DevicePixels(css: nat, num: nat, den: nat): (n: nat)
    requires den > 0
    ensures num == 0 ==> n == css
    ensures num > 0 ==> n * den <= css * num < (n + 1) * den
  {
    if num == 0 then css else (css * num) / den
  }

  /** The bytes of a canvas filled with "#fff": every channel 255. */
  function White(n: nat): (s: seq<int>)
    ensures |s| == n && forall i :: 0 <= i < n ==> s[i] == 255
  {
    seq(n, i => 255)
  }

  /** Pixel number `p` of a canvas `w` pixels wide lies in its top-left
      `cw` by `ch` rectangle. */
  predicate InFill(p: int, w: nat, cw: nat, ch: nat)
  {
    w > 0 && p % w < cw && p / w < ch
  }

  /** The canvas `s` (`w` pixels wide) after a white `fillRect` over its
      top-left `cw` by `ch` device pixels. */
  function FillWhite(s: seq<int>, w: nat, cw: nat, ch: nat): (t: seq<int>)
    ensures |t| == |s|
  {
    seq(|s|, i requires 0 <= i < |s| => if InFill(i / 4, w, cw, ch) then 255 else s[i])
  }

  /** Byte `k` of pixel (x, y) belongs to pixel number `y * w + x`, which is
      in column `x` and row `y`. */
  lemma PixelNumber(w: nat, x: nat, y: nat, k: nat)
    requires x < w && k < 4
    ensures (PixelOffset(w, x, y) + k) / 4 == y * w + x
    ensures (y * w + x) % w == x && (y * w + x) / w == y
  {
    DivUnique(PixelOffset(w, x, y) + k, 4, y * w + x, k);
    DivUnique(y * w + x, w, y, x);
  }

  /** A pixel outside the filled rectangle keeps its ink. */
  lemma FillKeepsInk(s: seq<int>, w: nat, cw: nat, ch: nat, t: InkTest, x: nat, y: nat)
    requires x < w && (x >= cw || y >= ch) && InkAt(s, w, t, x, y)
    ensures InkAt(FillWhite(s, w, cw, ch), w, t, x, y)
  {
    var i := PixelOffset(w, x, y);
    PixelNumber(w, x, y, 0);
    PixelNumber(w, x, y, 1);
    PixelNumber(w, x, y, 2);
    PixelNumber(w, x, y, 3);
  }

  /** A rectangle at least as large as the canvas whitens all of it. */
  lemma FillCoversAll(s: seq<int>, w: nat, h: nat, cw: nat, ch: nat)
    requires |s| == w * h * 4 && cw >= w && ch >= h
    ensures FillWhite(s, w, cw, ch) == White(|s|)
  {
    forall i | 0 <= i < |s|
      ensures InFill(i / 4, w, cw, ch)
    {
      var p := i / 4;
      assert p < w * h;
      assert w > 0;
      var y := p / w;
      assert p == w * y + p % w;
      if y >= h {
        MulMonotone(h, y, w);
        assert false;
      }
    }
  }

  /** With a ratio of at least 1, scaling a length does not shrink it. */
  lemma RatioAtLeastOne(css: nat, num: nat, den: nat)
    requires 0 < den <= num
    ensures DevicePixels(css, num, den) >= css
  {
    var n := DevicePixels(css, num, den);
    MulMonotone(den, num, css);
    assert den * css == css * den && num * css == css * num;
    if n < css {
      MulMonotone(n + 1, css, den);
      assert false;
    }
  }

  /** With a ratio below 1, scaling a positive length shrinks it. */
  lemma RatioBelowOne(css: nat, num: nat, den: nat)
    requires 0 < num < den && css > 0
    ensures DevicePixels(css, num, den) < css
  {
    var n := DevicePixels(css, num, den);
    assert css * den == css * num + css * (den - num);
    MulMonotone(1, den - num, css);
    if n >= css {
      MulMonotone(css, n, den);
      assert false;
    }
  }

  /** Channel `k` of the stroke colour #111827, fully opaque. */
  function StrokeChannel(k: int): int
  {
    if k == 0 then 0x11 else if k == 1 then 0x18 else if k == 2 then 0x27 else 255
  }

  /** The canvas `s` with the pixels whose numbers (`y * w + x`) are in
      `covered` painted in the stroke colour. */
  function Paint(s: seq<int>, covered: set<int>): (t: seq<int>)
    ensures |t| == |s|
  {
    seq(|s|, i requires 0 <= i < |s| => if i / 4 in covered then StrokeChannel(i % 4) else s[i])
  }

  /** A painted pixel is ink for both trimmers: for the pad's channel test and
      for the exporter's default brightness test. */
  lemma PaintedIsInk(s: seq<int>, w: nat, h: nat, covered: set<int>, x: nat, y: nat)
    requires |s| == w * h * 4 && x < w && y < h && y * w + x in covered
    ensures InkAt(Paint(s, covered), w, TrimCanvas.PadInk(), x, y)
    ensures InkAt(Paint(s, covered), w, Brightness(252), x, y)
  {
    PixelIndexInBounds(w, h, x, y);
    var i := PixelOffset(w, x, y);
    var p := y * w + x;
    assert i == 4 * p;
    assert i / 4 == p && (i + 1) / 4 == p && (i + 2) / 4 == p && (i + 3) / 4 == p;
    assert i % 4 == 0 && (i + 1) % 4 == 1 && (i + 2) % 4 == 2 && (i + 3) % 4 == 3;
  }

  class Pad {
    const width: nat
    const height: nat
    const targetCssHeight: int
    /** The device pixel ratio `ratioNum / ratioDen` the drawing context is
        scaled by: `window.devicePixelRatio || 1`. */
    const ratioNum: nat
    const ratioDen: nat
    /** RGBA bytes of the canvas, row by row. */
    var canvas: array<int>
    var drawing: bool
    /** Every value passed to `onChange`, oldest first. */
    var emitted: seq<Option<Crop>>

    ghost predicate Valid()
      reads this
    {
      && canvas.Length == width * height * 4
      && ratioNum > 0 && ratioDen > 0
    }

    /** Mounting the pad: the canvas is sized to the device pixels of the
        CSS size, the context scaled by the ratio, and the CSS size filled
        white, which under that scale covers every device pixel; nothing is
        drawn yet. */
    constructor(cssWidth: nat, cssHeight: nat, dprNum: nat, dprDen: nat, target: int)
      requires dprDen > 0
      ensures Valid()
      ensures width == DevicePixels(cssWidth, dprNum, dprDen)
      ensures height == DevicePixels(cssHeight, dprNum, dprDen)
      ensures targetCssHeight == target
      ensures dprNum == 0 ==> ratioNum == 1 && ratioDen == 1
      ensures dprNum > 0 ==> ratioNum == dprNum && ratioDen == dprDen
      ensures canvas[..] == White(width * height * 4)
      ensures !drawing && emitted == []
      ensures fresh(canvas)
    {
      width := DevicePixels(cssWidth, dprNum, dprDen);
      height := DevicePixels(cssHeight, dprNum, dprDen);
      targetCssHeight := target;
      ratioNum := if dprNum == 0 then 1 else dprNum;
      ratioDen := if dprNum == 0 then 1 else dprDen;
      canvas := new int[DevicePixels(cssWidth, dprNum, dprDen) * DevicePixels(cssHeight, dprNum, dprDen) * 4]
        (i => 255);
      drawing := false;
      emitted := [];
    }

    /** `onPointerDown`: starts a stroke. */
    method PointerDown()
      requires Valid()
      modifies this
      ensures Valid()
      ensures drawing
      ensures canvas == old(canvas) && emitted == old(emitted)
    {
      drawing := true;
    }

    /** `onPointerMove`: while drawing, strokes the path, painting the pixels
        it `covered`; otherwise nothing happens. */
    method PointerMove(covered: set<int>)
      requires Valid()
      modifies canvas
      ensures Valid()
      ensures old(drawing) ==> canvas[..] == Paint(old(canvas[..]), covered)
      ensures !old(drawing) ==> canvas[..] == old(canvas[..])
    {
      if !drawing {
        return;
      }
      forall i | 0 <= i < canvas.Length {
        canvas[i] := if i / 4 in covered then StrokeChannel(i % 4) else canvas[i];
      }
    }

    /** `onPointerUp`: ends a stroke and hands the trimmed canvas to
        `onChange`; ignored when no stroke is in progress. On a canvas
        without pixels the trim throws: `thrown` is that exception, which
        escapes the handler before `onChange` is called. */
    method PointerUp() returns (thrown: Option<string>)
      requires Valid()
      modifies this
      ensures Valid() && !drawing && canvas == old(canvas) && canvas[..] == old(canvas[..])
      ensures thrown.Some? <==> old(drawing) && (width == 0 || height == 0)
      ensures thrown.Some? ==> thrown.value == IndexSizeError
      ensures old(drawing) && thrown.None? ==>
        emitted == old(emitted) + [TrimCanvas.TrimGeometry(canvas[..], width, height, targetCssHeight)]
      ensures !old(drawing) || thrown.Some? ==> emitted == old(emitted)
    {
      thrown := None;
      if !drawing {
        return;
      }
      drawing := false;
      var trimmed := TrimCanvas.TrimSignatureCanvas(canvas, width, height, targetCssHeight);
      if trimmed.Failure? {
        return Some(trimmed.error);
      }
      emitted := emitted + [trimmed.value];
    }

    /** `clear`: `fillRect(0, 0, width, height)` in white under the mount's
        scale, so the device pixels of the top-left `width * ratio` by
        `height * ratio` rectangle turn white, then `null` goes to
        `onChange`; the drawing flag is left as it is. */
    method Clear()
      requires Valid()
      modifies canvas, this
      ensures Valid() && canvas == old(canvas) && drawing == old(drawing)
      ensures canvas[..] == FillWhite(old(canvas[..]), width,
        DevicePixels(width, ratioNum, ratioDen), DevicePixels(height, ratioNum, ratioDen))
      ensures emitted == old(emitted) + [None]
    {
      var cw := DevicePixels(width, ratioNum, ratioDen);
      var ch := DevicePixels(height, ratioNum, ratioDen);
      forall i | 0 <= i < canvas.Length {
        canvas[i] := if InFill(i / 4, width, cw, ch) then 255 else canvas[i];
      }
      emitted := emitted + [None];
    }
  }

  /** A white canvas holds no ink, so a pointer-up right after `clear` (or
      on a fresh pad) hands over `null`. */
  lemma WhiteTrimsToNone(w: nat, h: nat, target: int)
    ensures TrimCanvas.TrimGeometry(White(w * h * 4), w, h, target).None?
  {
    TrimCanvas.WhiteHasNoInk(White(w * h * 4), w, h);
    FullScan(White(w * h * 4), w, h, TrimCanvas.PadInk());
  }

  /** With a device pixel ratio of at least 1, `clear` whitens the whole
      canvas, and the next trim hands over `null`. */
  lemma ClearedTrimsToNone(s: seq<int>, w: nat, h: nat, num: nat, den: nat, target: int)
    requires |s| == w * h * 4 && 0 < den <= num
    ensures FillWhite(s, w, DevicePixels(w, num, den), DevicePixels(h, num, den)) == White(|s|)
    ensures TrimCanvas.TrimGeometry(FillWhite(s, w, DevicePixels(w, num, den), DevicePixels(h, num, den)), w, h, target).None?
  {
    RatioAtLeastOne(w, num, den);
    RatioAtLeastOne(h, num, den);
    FillCoversAll(s, w, h, DevicePixels(w, num, den), DevicePixels(h, num, den));
    WhiteTrimsToNone(w, h, target);
  }

  /** With a ratio below 1 (a zoomed-out page) the rectangle `clear` fills
      misses the last column of device pixels: ink there survives, and the
      next trim hands over a signature holding it rather than `null`. */
  lemma ZoomedOutClearKeepsInk(s: seq<int>, w: nat, h: nat, num: nat, den: nat, target: int, y: nat)
    requires |s| == w * h * 4 && 0 < num < den && w > 0 && y < h
    requires InkAt(s, w, TrimCanvas.PadInk(), w - 1, y)
    ensures var t := FillWhite(s, w, DevicePixels(w, num, den), DevicePixels(h, num, den));
      && TrimCanvas.TrimGeometry(t, w, h, target).Some?
      && var c := TrimCanvas.TrimGeometry(t, w, h, target).value;
         c.rect.minX <= w - 1 <= c.rect.maxX && c.rect.minY <= y <= c.rect.maxY
  {
    var cw, ch := DevicePixels(w, num, den), DevicePixels(h, num, den);
    RatioBelowOne(w, num, den);
    FillKeepsInk(s, w, cw, ch, TrimCanvas.PadInk(), w - 1, y);
    TrimCanvas.TrimKeepsInk(FillWhite(s, w, cw, ch), w, h, target, w - 1, y);
  }

  /** Once a stroke has painted a pixel of the pad, the trim hands over a
      signature (not `null`) whose rectangle holds that pixel. */
  lemma StrokeTrimsToSome(s: seq<int>, w: nat, h: nat, target: int, covered: set<int>, x: nat, y: nat)
    requires |s| == w * h * 4 && x < w && y < h && y * w + x in covered
    ensures TrimCanvas.TrimGeometry(Paint(s, covered), w, h, target).Some?
    ensures var c := TrimCanvas.TrimGeometry(Paint(s, covered), w, h, target).value;
      c.rect.minX <= x <= c.rect.maxX && c.rect.minY <= y <= c.rect.maxY
  {
    PaintedIsInk(s, w, h, covered, x, y);
    TrimCanvas.TrimKeepsInk(Paint(s, covered), w, h, target, x, y);
  }
}
