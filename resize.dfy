/**
 * The size computation of `resize_image_aspect_ratio` (image_processing.py):
 * one scale factor, the smaller of the two box-to-image ratios, applied to
 * both sides and truncated to integers by `int(...)`.  The resampling
 * itself is not part of this model.
 */
module Resize {

  import opened Results

  datatype ResizeError = ZeroDivision

  /** Python's `int(x)` for a float: truncation toward zero. */
  function Trunc(x: real): (r: int)
    ensures x >= 0.0 ==> r as real <= x < r as real + 1.0
    ensures x < 0.0 ==> r as real - 1.0 < x <= r as real
  {
    if x >= 0.0 then x.Floor else -((-x).Floor)
  }

  function Min(a: real, b: real): real
  {
    if a <= b then a else b
  }

  /** The scale factor: `min(max_width / width, max_height / height)`. */
  function Scale(width: nat, height: nat, maxWidth: int, maxHeight: int): real
    requires width > 0 && height > 0
  {
    Min(maxWidth as real / width as real, maxHeight as real / height as real)
  }

  /** One side after scaling: `int(side * scale)`. */
  function Resized(side: nat, scale: real): int
  {
    Trunc(side as real * scale)
  }

  /** The new `(width, height)`; a zero side makes the division fail. */
  function NewSize(width: nat, height: nat, maxWidth: int, maxHeight: int): (r: Result<(int, int), ResizeError>)
    ensures r.Err? <==> width == 0 || height == 0
    ensures r.Err? ==> r.error == ZeroDivision
  {
    if width > 0 && height > 0 then
      var scale := Scale(width, height, maxWidth, maxHeight);
      Ok((Resized(width, scale), Resized(height, scale)))
    else
      Err(ZeroDivision)
  }

  lemma ScaledSide(side: nat, bound: nat)
    requires side > 0
    ensures side as real * (bound as real / side as real) == bound as real
    ensures bound as real / side as real >= 0.0
  {
  }

  lemma MulMonotone(a: real, b: real, c: real)
    requires 0.0 <= a && b <= c
    ensures a * b <= a * c
  {
  }

  /** The truncation error of two proportional lengths, cross-multiplied. */
  lemma CrossDifference(width: real, height: real, scale: real, fw: real, fh: real)
    ensures (width * scale - fw) * height - (height * scale - fh) * width == fh * width - fw * height
  {
  }

  lemma BelowOne(a: real, f: real)
    requires a > 0.0 && 0.0 <= f < 1.0
    ensures 0.0 <= f * a < a
  {
    assert (1.0 - f) * a > 0.0;
  }

  lemma FractionBound(width: real, height: real, fw: real, fh: real)
    requires width > 0.0 && height > 0.0 && 0.0 <= fw < 1.0 && 0.0 <= fh < 1.0
    ensures -height < fh * width - fw * height < width
  {
    BelowOne(width, fh);
    BelowOne(height, fw);
  }

  /**
   * `w x h` has the aspect ratio of `width x height` to within one pixel:
   * the cross products differ by less than one side.
   */
  predicate WithinOnePixel(w: int, h: int, width: real, height: real)
  {
    -height < w as real * height - h as real * width < width
  }

  /** Truncating two proportional non-negative lengths keeps their ratio to within one unit. */
  lemma TruncKeepsRatio(width: real, height: real, scale: real, w: int, h: int)
    requires width > 0.0 && height > 0.0 && scale >= 0.0
    requires w == Trunc(width * scale) && h == Trunc(height * scale)
    ensures WithinOnePixel(w, h, width, height)
  {
    var xw, xh := width * scale, height * scale;
    MulMonotone(width, 0.0, scale);
    MulMonotone(height, 0.0, scale);
    var fw, fh := xw - w as real, xh - h as real;
    assert w as real == xw - fw && h as real == xh - fh;
    CrossDifference(width, height, scale, fw, fh);
    FractionBound(width, height, fw, fh);
  }

  /** The scale is the smaller ratio, so it is at most each ratio and equal to one of them. */
  lemma ScaleIsSmallerRatio(width: nat, height: nat, maxWidth: nat, maxHeight: nat)
    requires width > 0 && height > 0
    ensures var sw, sh := maxWidth as real / width as real, maxHeight as real / height as real;
      var scale := Scale(width, height, maxWidth, maxHeight);
      0.0 <= scale <= sw && scale <= sh && (scale == sw || scale == sh)
  {
    ScaledSide(width, maxWidth);
    ScaledSide(height, maxHeight);
  }

  /**
   * For a non-negative box the result fits inside it, one side reaches the
   * box, and truncation keeps the aspect ratio to within one pixel on each
   * side: `-height < new_w * height - new_h * width < width`.
   */
  lemma NewSizeFits(width: nat, height: nat, maxWidth: nat, maxHeight: nat)
    requires width > 0 && height > 0
    ensures NewSize(width, height, maxWidth, maxHeight).Ok?
    ensures var (w, h) := NewSize(width, height, maxWidth, maxHeight).value;
      && 0 <= w <= maxWidth && 0 <= h <= maxHeight
      && (w == maxWidth || h == maxHeight)
      && WithinOnePixel(w, h, width as real, height as real)
  {
    var scale := Scale(width, height, maxWidth, maxHeight);
    ScaleIsSmallerRatio(width, height, maxWidth, maxHeight);
    ScaledSide(width, maxWidth);
    ScaledSide(height, maxHeight);
    FitsBox(width, height, maxWidth, maxHeight, scale,
      maxWidth as real / width as real, maxHeight as real / height as real);
  }

  /** The size facts for given sides, a scale and the two ratios. */
  lemma FitsBox(width: nat, height: nat, maxWidth: nat, maxHeight: nat, scale: real, sw: real, sh: real)
    requires width > 0 && height > 0
    requires width as real * sw == maxWidth as real && height as real * sh == maxHeight as real
    requires 0.0 <= scale <= sw && scale <= sh && (scale == sw || scale == sh)
    ensures var w, h := Resized(width, scale), Resized(height, scale);
      && 0 <= w <= maxWidth && 0 <= h <= maxHeight
      && (w == maxWidth || h == maxHeight)
      && WithinOnePixel(w, h, width as real, height as real)
  {
    TruncFits(width, scale, maxWidth, sw);
    TruncFits(height, scale, maxHeight, sh);
    TruncKeepsRatio(width as real, height as real, scale, Resized(width, scale), Resized(height, scale));
  }

  /** A side scaled by at most `ratio`, where `side * ratio == bound`, truncates to at most `bound`. */
  lemma TruncFits(side: nat, scale: real, bound: nat, ratio: real)
    requires side > 0 && 0.0 <= scale <= ratio && side as real * ratio == bound as real
    ensures 0 <= Resized(side, scale) <= bound
    ensures scale == ratio ==> Resized(side, scale) == bound
  {
    var x := side as real * scale;
    MulMonotone(side as real, scale, ratio);
    MulMonotone(side as real, 0.0, scale);
    TruncBetween(x, bound);
  }

  /** Truncating a real between 0 and `n` gives an integer between 0 and `n`, and `n` itself at `n`. */
  lemma TruncBetween(x: real, n: nat)
    requires 0.0 <= x <= n as real
    ensures 0 <= Trunc(x) <= n
    ensures x == n as real ==> Trunc(x) == n
  {
  }

  /**
   * When the image already fits in the box it is scaled up, not left alone:
   * both new sides are at least the old ones.
   */
  lemma NewSizeEnlargesSmallImage(width: nat, height: nat, maxWidth: nat, maxHeight: nat)
    requires 0 < width <= maxWidth && 0 < height <= maxHeight
    ensures NewSize(width, height, maxWidth, maxHeight).Ok?
    ensures var (w, h) := NewSize(width, height, maxWidth, maxHeight).value;
      w >= width && h >= height
  {
    var scale := Scale(width, height, maxWidth, maxHeight);
    ScaleIsSmallerRatio(width, height, maxWidth, maxHeight);
    RatioAtLeastOne(width, maxWidth);
    RatioAtLeastOne(height, maxHeight);
    ResizedGrows(width, scale);
    ResizedGrows(height, scale);
  }

  lemma RatioAtLeastOne(side: nat, bound: nat)
    requires 0 < side <= bound
    ensures bound as real / side as real >= 1.0
  {
  }

  lemma ResizedGrows(side: nat, scale: real)
    requires scale >= 1.0
    ensures Resized(side, scale) >= side
  {
    MulMonotone(side as real, 1.0, scale);
  }
}
