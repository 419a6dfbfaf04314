/** `trimSignatureCanvas` of the signature pad: finds the ink of the pad's
    canvas (alpha not 0 and some channel below 245), pads the tight box by 3%
    of the smaller side, and rescales the crop to the requested height on a
    white background. The PNG it encodes is represented by that geometry. */
module TrimCanvas {
  import opened Wrappers
  import opened InkScan

  const WhiteThreshold: int := 245

  /** The ink test of the signature pad. */
  function PadInk(): InkTest
  {
    ChannelThreshold(WhiteThreshold)
  }

  /** `Math.round(Math.min(sw, sh) * 0.03)`. */
  function PadFor(sw: nat, sh: nat): (pad: nat)
    ensures 200 * pad <= 6 * (if sw < sh then sw else sh) + 100
    ensures 6 * (if sw < sh then sw else sh) < 200 * pad + 100
  {
    var m := if sw < sh then sw else sh;
    RoundDivNearest(3 * m, 100);
    RoundDiv(3 * m, 100)
  }

  /** What the trim returns for the canvas bytes `s`: `None` (the source's
      `null`) when no ink is found, otherwise the geometry of the PNG. */
  ghost function TrimGeometry(s: seq<int>, sw: nat, sh: nat, target: int): Option<Crop>
  {
    var b := Scan(s, sw, sh, PadInk(), sh, 0);
    FullScan(s, sw, sh, PadInk());
    if b.maxX < 0 || b.maxY < 0 then None
    else Some(CropOf(b, PadFor(sw, sh), sw, sh, Some(target), Some("#fff")))
  }

  /** The outcome of the trim: `getImageData` throws on a canvas without
      pixels; otherwise the geometry above. */
  ghost function TrimResult(s: seq<int>, sw: nat, sh: nat, target: int): Result<Option<Crop>>
  {
    if sw == 0 || sh == 0 then Failure(IndexSizeError) else Success(TrimGeometry(s, sw, sh, target))
  }

  /** The trim itself: reads the pixels (which throws for an empty canvas),
      scans them with the nested loops, stops with `None` when `right` or
      `bottom` is still -1, and otherwise sizes the padded crop. */
  method TrimSignatureCanvas(data: array<int>, sw: nat, sh: nat, target: int) returns (r: Result<Option<Crop>>)
    requires data.Length == sw * sh * 4
    ensures r == TrimResult(data[..], sw, sh, target)
    ensures r.Failure? <==> sw == 0 || sh == 0
    ensures r.Failure? ==> r.error == IndexSizeError
    ensures r.Success? ==> (r.value.None? <==> !HasInk(data[..], sw, sh, PadInk()))
    ensures r.Success? && r.value.Some? ==> var c := r.value.value;
      && IsTightBox(data[..], sw, sh, PadInk(), Scan(data[..], sw, sh, PadInk(), sh, 0))
      && Contains(c.rect, Scan(data[..], sw, sh, PadInk(), sh, 0))
      && Inside(c.rect, sw, sh)
      && c.outHeight == Max1(target)
      && c.background == Some("#fff")
  {
    if sw == 0 || sh == 0 {
      return Failure(IndexSizeError);
    }
    var b := FindInkBox(data, sw, sh, PadInk());
    FullScan(data[..], sw, sh, PadInk());
    if b.maxX < 0 || b.maxY < 0 {
      return Success(None);
    }
    var pad := PadFor(sw, sh);
    r := Success(Some(CropOf(b, pad, sw, sh, Some(target), Some("#fff"))));
  }

  /** Every ink pixel of the canvas lies in the returned crop rectangle. */
  lemma TrimKeepsInk(s: seq<int>, sw: nat, sh: nat, target: int, x: nat, y: nat)
    requires x < sw && y < sh && InkAt(s, sw, PadInk(), x, y)
    ensures TrimGeometry(s, sw, sh, target).Some?
    ensures var c := TrimGeometry(s, sw, sh, target).value;
      c.rect.minX <= x <= c.rect.maxX && c.rect.minY <= y <= c.rect.maxY
  {
    FullScan(s, sw, sh, PadInk());
  }

  /** A positive target height is met exactly, and the width follows the
      aspect ratio of the crop. */
  lemma TrimHeightAndAspect(s: seq<int>, sw: nat, sh: nat, target: int)
    requires target >= 1
    requires HasInk(s, sw, sh, PadInk())
    ensures TrimGeometry(s, sw, sh, target).Some?
    ensures var c := TrimGeometry(s, sw, sh, target).value;
      && c.outHeight == target
      && (c.outWidth == 1 ||
          2 * c.height * c.outWidth - c.height <= 2 * (c.width * target) < 2 * c.height * c.outWidth + c.height)
  {
    var b := Scan(s, sw, sh, PadInk(), sh, 0);
    FullScan(s, sw, sh, PadInk());
    CropAspect(b, PadFor(sw, sh), sw, sh, target, Some("#fff"));
  }

  /** A canvas whose every pixel is opaque white has no ink: the trim of a
      cleared pad is `None`. */
  lemma WhiteHasNoInk(s: seq<int>, sw: nat, sh: nat)
    requires forall i :: 0 <= i < |s| ==> (i % 4 == 3 || s[i] >= WhiteThreshold)
    ensures !HasInk(s, sw, sh, PadInk())
  {
    forall x: int, y: int | 0 <= x < sw && 0 <= y < sh
      ensures !InkAt(s, sw, PadInk(), x, y)
    {
      var i := PixelOffset(sw, x, y);
      if i + 3 < |s| {
        assert i % 4 == 0;
        assert (i + 1) % 4 == 1 && (i + 2) % 4 == 2;
      }
    }
  }
}
