/** `exportTightSignatureDataURL`: the stand-alone signature exporter. Options
    not given fall back to white threshold 252, padding 6, target height 64
    and background "#fff"; a pixel is ink when its alpha is at least 5 and its
    mean brightness is at most the threshold. */
module SignatureTrim {
  import opened Wrappers
  import opened InkScan

  /** The caller's options; `None` is an option left out. For `background`,
      `Some(None)` is an explicit `null` (transparent output). */
  datatype TrimOptions = TrimOptions(
    whiteThreshold: Option<int>,
    padding: Option<nat>,
    targetHeight: Option<int>,
    background: Option<Option<string>>)

  /** The options after the defaults have been merged in. */
  datatype Settings = Settings(whiteThreshold: int, padding: nat, targetHeight: int, background: Option<string>)

  function OrElse<T>(o: Option<T>, d: T): T
  {
    if o.Some? then o.value else d
  }

  /** `{ whiteThreshold: 252, padding: 6, targetHeight: 64, background: '#fff', ...opts }`. */
  function Effective(opts: TrimOptions): (t: Settings)
    ensures opts.whiteThreshold.None? ==> t.whiteThreshold == 252
    ensures opts.padding.None? ==> t.padding == 6
    ensures opts.targetHeight.None? ==> t.targetHeight == 64
    ensures opts.background.None? ==> t.background == Some("#fff")
    ensures opts.whiteThreshold.Some? ==> t.whiteThreshold == opts.whiteThreshold.value
    ensures opts.padding.Some? ==> t.padding == opts.padding.value
    ensures opts.targetHeight.Some? ==> t.targetHeight == opts.targetHeight.value
    ensures opts.background.Some? ==> t.background == opts.background.value
  {
    Settings(OrElse(opts.whiteThreshold, 252), OrElse(opts.padding, 6),
             OrElse(opts.targetHeight, 64), OrElse(opts.background, Some("#fff")))
  }

  /** `t.targetHeight ? t.targetHeight / cropH : 1`: a target of 0 is falsy
      and leaves the crop unscaled. */
  function ScaleTarget(t: Settings): (target: Option<int>)
    ensures target.None? <==> t.targetHeight == 0
    ensures target.Some? ==> target.value == t.targetHeight
  {
    if t.targetHeight != 0 then Some(t.targetHeight) else None
  }

  /** `if (t.background)`: a missing or empty colour gives a transparent
      background. */
  function Fill(t: Settings): (fill: Option<string>)
    ensures fill.Some? <==> t.background.Some? && t.background.value != ""
    ensures fill.Some? ==> fill == t.background
  {
    if t.background.Some? && t.background.value != "" then t.background else None
  }

  /** What the exporter returns for the canvas bytes `s`. */
  ghost function ExportGeometry(s: seq<int>, w: nat, h: nat, opts: TrimOptions): Option<Crop>
  {
    var t := Effective(opts);
    var b := Scan(s, w, h, Brightness(t.whiteThreshold), h, 0);
    FullScan(s, w, h, Brightness(t.whiteThreshold));
    if b.maxX < 0 || b.maxY < 0 then None
    else Some(CropOf(b, t.padding, w, h, ScaleTarget(t), Fill(t)))
  }

  /** The outcome of the export: `getImageData` throws on a canvas without
      pixels; otherwise the geometry above. */
  ghost function ExportResult(s: seq<int>, w: nat, h: nat, opts: TrimOptions): Result<Option<Crop>>
  {
    if w == 0 || h == 0 then Failure(IndexSizeError) else Success(ExportGeometry(s, w, h, opts))
  }

  /** The exporter: reads the pixels (which throws for an empty canvas), the
      nested scan, `null` when nothing was drawn, then the padded, clamped and
      rescaled crop. */
  method ExportTightSignature(data: array<int>, w: nat, h: nat, opts: TrimOptions) returns (r: Result<Option<Crop>>)
    requires data.Length == w * h * 4
    ensures r == ExportResult(data[..], w, h, opts)
    ensures r.Failure? <==> w == 0 || h == 0
    ensures r.Failure? ==> r.error == IndexSizeError
    ensures var test := Brightness(Effective(opts).whiteThreshold);
      && (r.Success? ==> (r.value.None? <==> !HasInk(data[..], w, h, test)))
      && (r.Success? && r.value.Some? ==>
            && IsTightBox(data[..], w, h, test, Scan(data[..], w, h, test, h, 0))
            && Contains(r.value.value.rect, Scan(data[..], w, h, test, h, 0))
            && Inside(r.value.value.rect, w, h))
  {
    if w == 0 || h == 0 {
      return Failure(IndexSizeError);
    }
    var t := Effective(opts);
    var b := FindInkBox(data, w, h, Brightness(t.whiteThreshold));
    FullScan(data[..], w, h, Brightness(t.whiteThreshold));
    if b.maxX < 0 || b.maxY < 0 {
      return Success(None);
    }
    r := Success(Some(CropOf(b, t.padding, w, h, ScaleTarget(t), Fill(t))));
  }

  /** The output size: a target height of 0 keeps the crop's own size, any
      other target sets the height (at least 1) and scales the width with the
      crop's aspect ratio. */
  lemma ExportSize(s: seq<int>, w: nat, h: nat, opts: TrimOptions)
    requires ExportGeometry(s, w, h, opts).Some?
    ensures var c := ExportGeometry(s, w, h, opts).value;
      var T := Effective(opts).targetHeight;
      && (T == 0 ==> c.outWidth == c.width && c.outHeight == c.height)
      && (T != 0 ==> c.outHeight == Max1(T))
      && (T != 0 ==> (c.outWidth == 1 ||
            2 * c.height * c.outWidth - c.height <= 2 * (c.width * T) < 2 * c.height * c.outWidth + c.height))
  {
    var t := Effective(opts);
    var b := Scan(s, w, h, Brightness(t.whiteThreshold), h, 0);
    FullScan(s, w, h, Brightness(t.whiteThreshold));
    if t.targetHeight != 0 {
      CropAspect(b, t.padding, w, h, t.targetHeight, Fill(t));
    }
  }

  /** Every ink pixel lies in the exported crop, and with padding 0 the crop
      is exactly the tight box of the ink. */
  lemma ExportKeepsInk(s: seq<int>, w: nat, h: nat, opts: TrimOptions, x: nat, y: nat)
    requires x < w && y < h && InkAt(s, w, Brightness(Effective(opts).whiteThreshold), x, y)
    ensures ExportGeometry(s, w, h, opts).Some?
    ensures var c := ExportGeometry(s, w, h, opts).value;
      && c.rect.minX <= x <= c.rect.maxX && c.rect.minY <= y <= c.rect.maxY
      && (Effective(opts).padding == 0 ==>
            c.rect == Scan(s, w, h, Brightness(Effective(opts).whiteThreshold), h, 0))
  {
    var t := Effective(opts);
    FullScan(s, w, h, Brightness(t.whiteThreshold));
    var b := Scan(s, w, h, Brightness(t.whiteThreshold), h, 0);
    if t.padding == 0 {
      PadBoxZero(b, w, h);
    }
  }

  /** A larger padding option never yields a smaller crop. */
  lemma ExportPaddingMonotone(s: seq<int>, w: nat, h: nat, opts: TrimOptions, p1: nat, p2: nat)
    requires p1 <= p2
    requires ExportGeometry(s, w, h, opts.(padding := Some(p1))).Some?
    ensures ExportGeometry(s, w, h, opts.(padding := Some(p2))).Some?
    ensures Contains(ExportGeometry(s, w, h, opts.(padding := Some(p2))).value.rect,
                     ExportGeometry(s, w, h, opts.(padding := Some(p1))).value.rect)
  {
    var t1 := Effective(opts.(padding := Some(p1)));
    var t2 := Effective(opts.(padding := Some(p2)));
    var test := Brightness(t1.whiteThreshold);
    FullScan(s, w, h, test);
    var b := Scan(s, w, h, test, h, 0);
    CropMonotone(b, p1, p2, w, h, ScaleTarget(t1), Fill(t1));
  }

  /** A canvas whose pixels all have an alpha below 5 has no ink, whatever
      the threshold. */
  lemma TransparentHasNoInk(s: seq<int>, w: nat, h: nat, thr: int)
    requires forall i :: 0 <= i < |s| ==> (i % 4 != 3 || s[i] < 5)
    ensures !HasInk(s, w, h, Brightness(thr))
  {
    forall x: int, y: int | 0 <= x < w && 0 <= y < h
      ensures !InkAt(s, w, Brightness(thr), x, y)
    {
      var i := PixelOffset(w, x, y);
      if i + 3 < |s| {
        assert (i + 3) % 4 == 3;
      }
    }
  }
}
