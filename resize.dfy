/** The dimension arithmetic of `resizeImage` (js/vision.js:107-147). Image
    decoding, canvas drawing and JPEG re-encoding are not part of this model;
    sizes are reals, so no floating-point rounding and no truncation to whole
    canvas pixels happen here. */
module Resize {

  /** Width and height of an image. */
  datatype Size = Size(width: real, height: real)

  /** The bound the caption pipeline passes for both axes (js/vision.js:28). */
  const MaxSide: real := 1000.0

  /** Sizes an image can have, and bounds a caller can pass: the image's natural
      dimensions are never negative, and the bounds are positive. */
  predicate ValidArgs(width: real, height: real, maxWidth: real, maxHeight: real) {
    0.0 <= width && 0.0 <= height && 0.0 < maxWidth && 0.0 < maxHeight
  }

  /** The rule as a value: only the dominant axis (the width when the image is
      strictly wider than tall, the height otherwise) is compared with its own
      bound, and the other axis is scaled by the same factor. */
  function Resized(width: real, height: real, maxWidth: real, maxHeight: real): Size
    requires ValidArgs(width, height, maxWidth, maxHeight)
  {
    if width > height then
      if width > maxWidth then Size(maxWidth, height * (maxWidth / width)) else Size(width, height)
    else
      if height > maxHeight then Size(width * (maxHeight / height), maxHeight) else Size(width, height)
  }

  /** The body of `img.onload`: the locals `width` and `height` start at the
      image's size and are reassigned in the branch that applies. */
  method ResizeDimensions(imgWidth: real, imgHeight: real, maxWidth: real, maxHeight: real)
    returns (width: real, height: real)
    requires ValidArgs(imgWidth, imgHeight, maxWidth, maxHeight)
    ensures Size(width, height) == Resized(imgWidth, imgHeight, maxWidth, maxHeight)
    ensures width * imgHeight == height * imgWidth
    ensures 0.0 <= width <= imgWidth && 0.0 <= height <= imgHeight
  {
    width := imgWidth;
    height := imgHeight;
    if width > height {
      if width > maxWidth {
        height := height * (maxWidth / width);
        width := maxWidth;
      }
    } else {
      if height > maxHeight {
        width := width * (maxHeight / height);
        height := maxHeight;
      }
    }
    PreservesAspectRatio(imgWidth, imgHeight, maxWidth, maxHeight);
    NeverEnlarges(imgWidth, imgHeight, maxWidth, maxHeight);
  }

  /** Both axes are multiplied by the same factor, so the ratio is exact. */
  lemma PreservesAspectRatio(width: real, height: real, maxWidth: real, maxHeight: real)
    requires ValidArgs(width, height, maxWidth, maxHeight)
    ensures Resized(width, height, maxWidth, maxHeight).width * height
         == Resized(width, height, maxWidth, maxHeight).height * width
  {
    if width > height && width > maxWidth {
      calc {
        height * (maxWidth / width) * width;
        height * ((maxWidth / width) * width);
        { assert (maxWidth / width) * width == maxWidth; }
        height * maxWidth;
      }
    } else if width <= height && height > maxHeight {
      calc {
        width * (maxHeight / height) * height;
        width * ((maxHeight / height) * height);
        { assert (maxHeight / height) * height == maxHeight; }
        width * maxHeight;
      }
    }
  }

  /** The factor is at most one: neither axis ever grows, and neither becomes negative. */
  lemma NeverEnlarges(width: real, height: real, maxWidth: real, maxHeight: real)
    requires ValidArgs(width, height, maxWidth, maxHeight)
    ensures var r := Resized(width, height, maxWidth, maxHeight);
      0.0 <= r.width <= width && 0.0 <= r.height <= height
  {
    if width > height && width > maxWidth {
      ScaleDown(height, maxWidth, width);
    } else if width <= height && height > maxHeight {
      ScaleDown(width, maxHeight, height);
    }
  }

  /** Scaling `x` by `bound / side` with `bound < side` shrinks it, and keeps it non-negative. */
  lemma ScaleDown(x: real, bound: real, side: real)
    requires 0.0 <= x && 0.0 < bound < side
    ensures 0.0 <= x * (bound / side) <= x
    ensures x < side ==> x * (bound / side) < bound
  {
    var f := bound / side;
    assert side * f == bound;
    assert 0.0 < f < 1.0 by {
      assert side / side == 1.0;
      assert (side - bound) / side == side / side - bound / side;
      assert (side - bound) / side > 0.0;
    }
    ScaleBelow(x, bound, side, f);
  }

  lemma ScaleBelow(x: real, bound: real, side: real, f: real)
    requires 0.0 <= x && 0.0 < f < 1.0 && side * f == bound
    ensures 0.0 <= x * f <= x
    ensures x < side ==> x * f < bound
  {
    assert x * f <= x * 1.0;
    assert bound - x * f == (side - x) * f;
    if x < side {
      assert (side - x) * f > 0.0;
    }
  }

  /** The dominant axis ends within its own bound. */
  lemma DominantAxisBounded(width: real, height: real, maxWidth: real, maxHeight: real)
    requires ValidArgs(width, height, maxWidth, maxHeight)
    ensures width > height ==> Resized(width, height, maxWidth, maxHeight).width <= maxWidth
    ensures width <= height ==> Resized(width, height, maxWidth, maxHeight).height <= maxHeight
  {
  }

  /** The bound of the axis that is not dominant is never consulted: an image
      whose dominant axis fits is returned as it is, however far its other
      axis exceeds that other bound. */
  lemma OtherBoundIgnored(width: real, height: real, maxWidth: real, maxHeight: real)
    requires ValidArgs(width, height, maxWidth, maxHeight)
    requires if width > height then width <= maxWidth else height <= maxHeight
    ensures Resized(width, height, maxWidth, maxHeight) == Size(width, height)
  {
  }

  /** A square image takes the height branch: it is clamped to `maxHeight` on
      both axes, whatever `maxWidth` is. */
  lemma SquareUsesHeightBound(side: real, maxWidth: real, maxHeight: real)
    requires ValidArgs(side, side, maxWidth, maxHeight)
    ensures Resized(side, side, maxWidth, maxHeight)
         == if side > maxHeight then Size(maxHeight, maxHeight) else Size(side, side)
  {
    if side > maxHeight {
      assert side * (maxHeight / side) == maxHeight;
    }
  }

  /** With the bounds the pipeline passes (1000 by 1000), both output axes are
      within 1000, as the call site promises. */
  lemma CallSiteBounds(width: real, height: real)
    requires 0.0 <= width && 0.0 <= height
    ensures var r := Resized(width, height, MaxSide, MaxSide);
      r.width <= MaxSide && r.height <= MaxSide
  {
    if width > height {
      if width > MaxSide {
        ScaleDown(height, MaxSide, width);
      }
    } else if height > MaxSide {
      ScaleDown(width, MaxSide, height);
    }
  }

  /** Resizing an already resized image changes nothing. */
  lemma Idempotent(width: real, height: real, maxWidth: real, maxHeight: real)
    requires ValidArgs(width, height, maxWidth, maxHeight)
    ensures var r := Resized(width, height, maxWidth, maxHeight);
      ValidArgs(r.width, r.height, maxWidth, maxHeight) &&
      Resized(r.width, r.height, maxWidth, maxHeight) == r
  {
    NeverEnlarges(width, height, maxWidth, maxHeight);
    if width > height && width > maxWidth {
      ScaleDown(height, maxWidth, width);
    } else if width <= height && height > maxHeight {
      ScaleDown(width, maxHeight, height);
      if width == height {
        assert width * (maxHeight / height) == maxHeight;
      }
    }
  }
}
