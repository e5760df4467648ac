/** The dimension arithmetic of `getImageBase64FromCanvas`: an image larger than the
    800 x 600 box is scaled down uniformly; a smaller one is never scaled up. Dimensions are
    idealised as real numbers. */
module ImageResize {

  const MaxWidth: real := 800.0
  const MaxHeight: real := 600.0

  datatype Size = Size(width: real, height: real)

  predicate Positive(s: Size)
  {
    s.width > 0.0 && s.height > 0.0
  }

  /** `s` fits in the 800 x 600 box. */
  predicate FitsBox(s: Size)
  {
    s.width <= MaxWidth && s.height <= MaxHeight
  }

  function Min(a: real, b: real): (m: real)
    ensures m <= a && m <= b && (m == a || m == b)
  {
    if a <= b then a else b
  }

  /** Scaling `x > 0` by a factor no larger than `bound / x` stays within `bound`. */
  lemma ScaleWithin(x: real, k: real, bound: real)
    requires x > 0.0 && k <= bound / x
    ensures x * k <= bound
  {
    calc {
      x * k;
    <= { assert x * (bound / x - k) >= 0.0; }
      x * (bound / x);
    ==
      bound;
    }
  }

  /** The canvas size for an image of size `s`. */
  function ScaledSize(s: Size): (r: Size)
    requires Positive(s)
    ensures FitsBox(s) ==> r == s
    ensures Positive(r) && FitsBox(r)
    ensures r.width * s.height == r.height * s.width
    ensures r.width <= s.width && r.height <= s.height
    ensures !FitsBox(s) ==> r.width == MaxWidth || r.height == MaxHeight
  {
    if s.width > MaxWidth || s.height > MaxHeight then
      var ratio := Min(MaxWidth / s.width, MaxHeight / s.height);
      ScaleWithin(s.width, ratio, MaxWidth);
      ScaleWithin(s.height, ratio, MaxHeight);
      assert ratio < 1.0;
      assert ratio == MaxWidth / s.width ==> s.width * ratio == MaxWidth;
      assert ratio == MaxHeight / s.height ==> s.height * ratio == MaxHeight;
      Size(s.width * ratio, s.height * ratio)
    else
      s
  }

  /** No uniform scaling by a factor up to 1 that fits the box gives a larger canvas:
      the result is the largest fitting size of the same shape that is not an enlargement. */
  lemma ScaledSizeIsLargestFit(s: Size, k: real)
    requires Positive(s) && 0.0 < k <= 1.0
    requires FitsBox(Size(s.width * k, s.height * k))
    ensures s.width * k <= ScaledSize(s).width
    ensures s.height * k <= ScaledSize(s).height
  {
    if !FitsBox(s) {
      var ratio := Min(MaxWidth / s.width, MaxHeight / s.height);
      assert k <= MaxWidth / s.width by {
        assert s.width * k <= MaxWidth;
      }
      assert k <= MaxHeight / s.height by {
        assert s.height * k <= MaxHeight;
      }
      assert k <= ratio;
    }
  }
}
