/**
 The bounding box of the image zoom tool: clamp the request to the image,
 enlarge a box that is too small, keep it inside the image, round outwards.
 Coordinates are reals.
 */
module ZoomBox {
  import opened Common

  const MIN_DIMENSION := 28

  datatype Box = Box(left: real, top: real, right: real, bottom: real) {
    function Width(): real { right - left }

    function Height(): real { bottom - top }

    /** Every point of `other` is a point of this box. */
    predicate Contains(other: Box) {
      left <= other.left && top <= other.top && other.right <= right && other.bottom <= bottom
    }
  }

  function Min(a: real, b: real): real { if b < a then b else a }

  function Max(a: real, b: real): real { if b > a then b else a }

  function Ceil(x: real): int { -((-x).Floor) }

  /** A proper box, at most a hundred times as long as it is wide or the other way round. */
  predicate ValidateBox(b: Box) {
    && b.left < b.right && b.top < b.bottom
    && Max(b.Height(), b.Width()) / Min(b.Height(), b.Width()) <= 100.0
  }

  function Image(width: int, height: int): Box {
    Box(0.0, 0.0, width as real, height as real)
  }

  /** The part of the request that lies in the image. */
  function Clamp(b: Box, image: Box): Box {
    Box(Max(0.0, b.left), Max(0.0, b.top), Min(image.right, b.right), Min(image.bottom, b.bottom))
  }

  predicate IsSmall(b: Box) {
    b.Height() < MIN_DIMENSION as real || b.Width() < MIN_DIMENSION as real
  }

  /** The factor by which a small box grows: up to the minimum, but not beyond the image. */
  function Factor(width: real, height: real, imageWidth: real, imageHeight: real): real
    requires width > 0.0 && height > 0.0
  {
    Min(MIN_DIMENSION as real / Min(height, width), Min(imageWidth / width, imageHeight / height))
  }

  /** Both sides of the enlarged box. */
  function TargetSides(width: real, height: real, imageWidth: real, imageHeight: real): (real, real)
    requires width > 0.0 && height > 0.0
  {
    var f := Factor(width, height, imageWidth, imageHeight);
    (width * f, height * f)
  }

  function Target(b: Box, image: Box): (real, real)
    requires ValidateBox(b)
  {
    TargetSides(b.Width(), b.Height(), image.right, image.bottom)
  }

  /** Where an interval of length `size` begins that is as near to centred on `center` as `[0, limit]` allows. */
  function Begin(center: real, size: real, limit: real): real {
    if center - size / 2.0 < 0.0 then 0.0
    else if center + size / 2.0 > limit then limit - size
    else center - size / 2.0
  }

  /** A box of the given size around the centre of `b`, moved into the image. */
  function Placed(b: Box, image: Box, width: real, height: real): Box {
    var left := Begin((b.left + b.right) / 2.0, width, image.right);
    var top := Begin((b.top + b.bottom) / 2.0, height, image.bottom);
    Box(left, top, left + width, top + height)
  }

  /** The enlarged box before rounding. */
  function Enlarged(b: Box, image: Box): Box
    requires ValidateBox(b)
  {
    Placed(b, image, Target(b, image).0, Target(b, image).1)
  }

  function Outward(b: Box): Box {
    Box(b.left.Floor as real, b.top.Floor as real, Ceil(b.right) as real, Ceil(b.bottom) as real)
  }

  /** The closing checks. */
  predicate Acceptable(b: Box) {
    && ValidateBox(b)
    && b.bottom.Floor - b.top.Floor >= MIN_DIMENSION && b.right.Floor - b.left.Floor >= MIN_DIMENSION
  }

  /** The box that the tool crops, if any. */
  function Resized(b: Box, imageWidth: int, imageHeight: int): Option<Box> {
    var image := Image(imageWidth, imageHeight);
    var c := Clamp(b, image);
    if !ValidateBox(c) then None
    else
      var final := if IsSmall(c) then Outward(Enlarged(c, image)) else c;
      if Acceptable(final) then Some(final) else None
  }

  // ---- the tool

  /** `_maybe_resize_bbox`: two successive scale-downs and four conditional shifts compute the enlarged box. */
  method MaybeResizeBbox(b: Box, imageWidth: int, imageHeight: int) returns (r: Option<Box>)
    ensures r == Resized(b, imageWidth, imageHeight)
  {
    ghost var image := Image(imageWidth, imageHeight);
    var left, top := Max(0.0, b.left), Max(0.0, b.top);
    var right, bottom := Min(imageWidth as real, b.right), Min(imageHeight as real, b.bottom);
    var current := Box(left, top, right, bottom);
    if !ValidateBox(current) {
      return None;
    }
    var height, width := bottom - top, right - left;
    if height < MIN_DIMENSION as real || width < MIN_DIMENSION as real {
      current := Enlarge(current, imageWidth, imageHeight);
    }
    if !ValidateBox(current) {
      return None;
    }
    var finalHeight := current.bottom.Floor - current.top.Floor;
    var finalWidth := current.right.Floor - current.left.Floor;
    if finalHeight < MIN_DIMENSION || finalWidth < MIN_DIMENSION {
      return None;
    }
    return Some(current);
  }

  /** The branch for boxes that are too small. */
  method Enlarge(b: Box, imageWidth: int, imageHeight: int) returns (r: Box)
    requires InImage(b, Image(imageWidth, imageHeight)) && IsSmall(b)
    ensures r == Outward(Enlarged(b, Image(imageWidth, imageHeight)))
  {
    var targetWidth, targetHeight := TargetOf(b, imageWidth, imageHeight);
    var e := Place(b, imageWidth as real, imageHeight as real, targetWidth, targetHeight);
    return Box(e.left.Floor as real, e.top.Floor as real, Ceil(e.right) as real, Ceil(e.bottom) as real);
  }

  /** The box is centred where the request was, then shifted where it leaves the image. */
  method Place(b: Box, imageWidth: real, imageHeight: real, targetWidth: real, targetHeight: real) returns (r: Box)
    requires targetWidth <= imageWidth && targetHeight <= imageHeight
    ensures r == Placed(b, Box(0.0, 0.0, imageWidth, imageHeight), targetWidth, targetHeight)
  {
    var centerX, centerY := (b.left + b.right) / 2.0, (b.top + b.bottom) / 2.0;
    var newLeft, newTop := centerX - targetWidth / 2.0, centerY - targetHeight / 2.0;
    if newLeft < 0.0 {
      newLeft := 0.0;
    }
    if newTop < 0.0 {
      newTop := 0.0;
    }
    if newLeft + targetWidth > imageWidth {
      newLeft := imageWidth - targetWidth;
    }
    if newTop + targetHeight > imageHeight {
      newTop := imageHeight - targetHeight;
    }
    return Box(newLeft, newTop, newLeft + targetWidth, newTop + targetHeight);
  }

  method TargetOf(b: Box, imageWidth: int, imageHeight: int) returns (targetWidth: real, targetHeight: real)
    requires InImage(b, Image(imageWidth, imageHeight)) && IsSmall(b)
    ensures (targetWidth, targetHeight) == Target(b, Image(imageWidth, imageHeight))
    ensures targetWidth <= imageWidth as real && targetHeight <= imageHeight as real
  {
    FactorRange(b, Image(imageWidth, imageHeight));
    targetWidth, targetHeight :=
      TargetSize(b.right - b.left, b.bottom - b.top, imageWidth as real, imageHeight as real);
  }

  /** Up to the minimum, then two scale-downs: both sides grow by the least of three factors. */
  method TargetSize(width: real, height: real, imageWidth: real, imageHeight: real)
    returns (targetWidth: real, targetHeight: real)
    requires 0.0 < width <= imageWidth && 0.0 < height <= imageHeight
    ensures (targetWidth, targetHeight) == TargetSides(width, height, imageWidth, imageHeight)
  {
    var ratio := MIN_DIMENSION as real / Min(height, width);
    targetWidth, targetHeight := width * ratio, height * ratio;
    ghost var f := ratio;
    targetWidth, targetHeight, f := ScaleToFit(targetWidth, targetHeight, imageWidth, width, height, f);
    targetHeight, targetWidth, f := ScaleToFit(targetHeight, targetWidth, imageHeight, height, width, f);
    SameProduct(width, f, Factor(width, height, imageWidth, imageHeight));
    SameProduct(height, f, Factor(width, height, imageWidth, imageHeight));
    assert targetWidth == TargetSides(width, height, imageWidth, imageHeight).0;
    assert targetHeight == TargetSides(width, height, imageWidth, imageHeight).1;
  }

  lemma SameProduct(side: real, f: real, g: real)
    requires f == g
    ensures side * f == side * g
  {
  }

  /** Scale both sides down if the first one exceeds the limit. */
  method ScaleToFit(target: real, otherTarget: real, limit: real, ghost side: real, ghost other: real, ghost f: real)
    returns (t: real, o: real, ghost g: real)
    requires side > 0.0 && limit > 0.0 && target == side * f && otherTarget == other * f
    ensures g == Min(f, limit / side) && t == side * g && o == other * g
  {
    t, o, g := target, otherTarget, f;
    FactorFits(side, f, limit);
    if target > limit {
      ScaleDown(side, other, f, limit);
      var scaleDown := limit / target;
      t := limit;
      o := o * scaleDown;
      g := limit / side;
    }
  }

  lemma FactorFits(side: real, f: real, limit: real)
    requires side > 0.0
    ensures side * f <= limit <==> f <= limit / side
    ensures side * (limit / side) == limit
  {
    var q := limit / side;
    assert side * q == limit;
    if f <= q {
      MulOrder(f, q, side);
    } else {
      MulStrict(q, f, side);
    }
  }

  lemma MulOrder(a: real, b: real, c: real)
    requires a <= b && c >= 0.0
    ensures a * c <= b * c && c * a <= c * b
  {
    MulSign(b - a, c);
    assert (b - a) * c == b * c - a * c;
  }

  lemma MulSign(a: real, b: real)
    requires a >= 0.0 && b >= 0.0
    ensures a * b >= 0.0
  {
  }

  lemma MulStrict(a: real, b: real, c: real)
    requires a < b && c > 0.0
    ensures a * c < b * c && c * a < c * b
  {
    MulPositive(b - a, c);
    assert (b - a) * c == b * c - a * c;
  }

  lemma MulPositive(a: real, b: real)
    requires a > 0.0 && b > 0.0
    ensures a * b > 0.0
  {
  }

  /** Scaling one side down to the limit scales the other side by the same factor. */
  lemma ScaleDown(side: real, other: real, f: real, limit: real)
    requires side > 0.0 && limit > 0.0 && side * f > limit
    ensures other * f * (limit / (side * f)) == other * (limit / side)
  {
    var big := side * f;
    var s, q := limit / big, limit / side;
    assert s * big == limit && q * side == limit;
    CancelSide(side, f * s, q);
  }

  lemma CancelSide(side: real, x: real, y: real)
    requires side > 0.0 && side * x == side * y
    ensures x == y
  {
    if x < y {
      MulStrict(x, y, side);
    } else if y < x {
      MulStrict(y, x, side);
    }
  }

  // ---- the enlarged box

  ghost predicate InImage(b: Box, image: Box) {
    ValidateBox(b) && image.Contains(b) && image.left == image.top == 0.0
  }

  /** A small box really grows, and stays within the size of the image. */
  lemma FactorRange(b: Box, image: Box)
    requires InImage(b, image) && IsSmall(b)
    ensures b.Width() <= Target(b, image).0 <= image.right
    ensures b.Height() <= Target(b, image).1 <= image.bottom
  {
    SidesRange(b.Width(), b.Height(), image.right, image.bottom);
  }

  lemma SidesRange(w: real, h: real, imageWidth: real, imageHeight: real)
    requires 0.0 < w <= imageWidth && 0.0 < h <= imageHeight && Min(h, w) < MIN_DIMENSION as real
    ensures w <= TargetSides(w, h, imageWidth, imageHeight).0 <= imageWidth
    ensures h <= TargetSides(w, h, imageWidth, imageHeight).1 <= imageHeight
  {
    var f, t := Factor(w, h, imageWidth, imageHeight), TargetSides(w, h, imageWidth, imageHeight);
    SidesOfTarget(w, h, imageWidth, imageHeight, f);
    FactorBounds(w, h, imageWidth, imageHeight, f);
    SideRange(w, f, imageWidth, t.0);
    SideRange(h, f, imageHeight, t.1);
  }

  lemma SidesOfTarget(w: real, h: real, imageWidth: real, imageHeight: real, f: real)
    requires w > 0.0 && h > 0.0 && f == Factor(w, h, imageWidth, imageHeight)
    ensures TargetSides(w, h, imageWidth, imageHeight).0 == w * f
    ensures TargetSides(w, h, imageWidth, imageHeight).1 == h * f
  {
    SameProduct(w, f, Factor(w, h, imageWidth, imageHeight));
    SameProduct(h, f, Factor(w, h, imageWidth, imageHeight));
  }

  lemma FactorBounds(w: real, h: real, imageWidth: real, imageHeight: real, f: real)
    requires 0.0 < w <= imageWidth && 0.0 < h <= imageHeight && Min(h, w) < MIN_DIMENSION as real
    requires f == Factor(w, h, imageWidth, imageHeight)
    ensures 1.0 <= f <= imageWidth / w && f <= imageHeight / h
  {
    QuotientAtLeastOne(Min(h, w), MIN_DIMENSION as real);
    QuotientAtLeastOne(w, imageWidth);
    QuotientAtLeastOne(h, imageHeight);
  }

  lemma QuotientAtLeastOne(side: real, limit: real)
    requires 0.0 < side <= limit
    ensures limit / side >= 1.0
  {
    FactorFits(side, 1.0, limit);
  }

  lemma SideRange(side: real, f: real, limit: real, grown: real)
    requires 0.0 < side && 1.0 <= f <= limit / side && grown == side * f
    ensures side <= grown <= limit
  {
    FactorFits(side, f, limit);
    MulOrder(1.0, f, side);
  }

  lemma BeginContains(low: real, high: real, size: real, limit: real)
    requires 0.0 <= low <= high <= limit && high - low <= size <= limit
    ensures
      var begin := Begin((low + high) / 2.0, size, limit);
      0.0 <= begin <= low && high <= begin + size <= limit
  {
  }

  /** The enlarged box lies in the image and covers the clamped request. */
  lemma EnlargedFits(b: Box, image: Box)
    requires InImage(b, image) && IsSmall(b)
    ensures image.Contains(Enlarged(b, image)) && Enlarged(b, image).Contains(b)
    ensures (Enlarged(b, image).Width(), Enlarged(b, image).Height()) == Target(b, image)
  {
    FactorRange(b, image);
    PlacedFits(b, image, Target(b, image).0, Target(b, image).1);
  }

  lemma PlacedFits(b: Box, image: Box, width: real, height: real)
    requires InImage(b, image) && b.Width() <= width <= image.right && b.Height() <= height <= image.bottom
    ensures image.Contains(Placed(b, image, width, height)) && Placed(b, image, width, height).Contains(b)
  {
    BeginContains(b.left, b.right, width, image.right);
    BeginContains(b.top, b.bottom, height, image.bottom);
  }

  lemma OutwardContains(b: Box, width: int, height: int)
    requires Image(width, height).Contains(b)
    ensures Image(width, height).Contains(Outward(b)) && Outward(b).Contains(b)
  {
    FloorAtLeast(b.left, 0);
    FloorAtLeast(b.top, 0);
    CeilAtMost(b.right, width);
    CeilAtMost(b.bottom, height);
  }

  lemma FloorAtLeast(x: real, n: int)
    requires n as real <= x
    ensures n <= x.Floor && x.Floor as real <= x
  {
  }

  lemma CeilAtMost(x: real, n: int)
    requires x <= n as real
    ensures Ceil(x) <= n && x <= Ceil(x) as real
  {
  }

  // ---- what the tool promises

  /**
   A returned box lies in the image, has sides of at least 28 and an aspect
   ratio of at most 100, and covers the whole part of the request that lies in
   the image.
   */
  lemma ReturnedBoxIsSound(b: Box, imageWidth: int, imageHeight: int)
    requires Resized(b, imageWidth, imageHeight).Some?
    ensures
      var r, image := Resized(b, imageWidth, imageHeight).value, Image(imageWidth, imageHeight);
      && image.Contains(r) && r.Contains(Clamp(b, image))
      && r.Width() >= MIN_DIMENSION as real && r.Height() >= MIN_DIMENSION as real
      && r.Width() <= 100.0 * r.Height() && r.Height() <= 100.0 * r.Width()
  {
    var r, image := Resized(b, imageWidth, imageHeight).value, Image(imageWidth, imageHeight);
    var c := Clamp(b, image);
    if IsSmall(c) {
      EnlargedFits(c, image);
      OutwardContains(Enlarged(c, image), imageWidth, imageHeight);
    }
    AspectBound(r);
  }

  lemma AspectBound(b: Box)
    requires b.left < b.right && b.top < b.bottom
    ensures ValidateBox(b) <==> b.Width() <= 100.0 * b.Height() && b.Height() <= 100.0 * b.Width()
  {
    FactorBound(Min(b.Height(), b.Width()), Max(b.Height(), b.Width()));
  }

  lemma FactorBound(low: real, high: real)
    requires 0.0 < low
    ensures high / low <= 100.0 <==> high <= 100.0 * low
  {
    var q := high / low;
    assert q * low == high;
    if q <= 100.0 {
      MulOrder(q, 100.0, low);
    } else {
      MulStrict(100.0, q, low);
    }
  }

  /** A proper box whose longer side is at most a hundred times the shorter one. */
  predicate IsProper(b: Box) {
    b.left < b.right && b.top < b.bottom && b.Width() <= 100.0 * b.Height() && b.Height() <= 100.0 * b.Width()
  }

  /** A request of which no proper box remains inside the image is refused. */
  lemma ImproperIsRefused(b: Box, imageWidth: int, imageHeight: int)
    requires !IsProper(Clamp(b, Image(imageWidth, imageHeight)))
    ensures Resized(b, imageWidth, imageHeight) == None
  {
    var c := Clamp(b, Image(imageWidth, imageHeight));
    if c.left < c.right && c.top < c.bottom {
      AspectBound(c);
    }
  }

  /** A proper request with sides of at least 28 is returned as clamped. */
  lemma LargeBoxIsKept(b: Box, imageWidth: int, imageHeight: int)
    requires
      var c := Clamp(b, Image(imageWidth, imageHeight));
      IsProper(c) && c.Width() >= 28.0 && c.Height() >= 28.0
    ensures Resized(b, imageWidth, imageHeight) == Some(Clamp(b, Image(imageWidth, imageHeight)))
  {
    var c := Clamp(b, Image(imageWidth, imageHeight));
    AspectBound(c);
    FloorDistance(c.left, c.right);
    FloorDistance(c.top, c.bottom);
  }

  lemma FloorDistance(x: real, y: real)
    requires y - x >= MIN_DIMENSION as real
    ensures y.Floor - x.Floor >= MIN_DIMENSION
  {
    assert y < y.Floor as real + 1.0 && x.Floor as real <= x;
  }

  /** Both sides grow by the same factor, so the enlarged box has the proportions of the clamped request. */
  lemma EnlargingKeepsTheAspect(b: Box, image: Box)
    requires InImage(b, image) && IsSmall(b)
    ensures Enlarged(b, image).Width() / b.Width() == Enlarged(b, image).Height() / b.Height() >= 1.0
  {
    EnlargedFits(b, image);
    FactorRange(b, image);
    SameFactor(b.Width(), b.Height(), image.right, image.bottom);
    QuotientAtLeastOne(b.Width(), Enlarged(b, image).Width());
  }

  lemma SameFactor(w: real, h: real, imageWidth: real, imageHeight: real)
    requires w > 0.0 && h > 0.0
    ensures
      var t := TargetSides(w, h, imageWidth, imageHeight);
      t.0 / w == t.1 / h
  {
    var f := Factor(w, h, imageWidth, imageHeight);
    QuotientOfProduct(w, f);
    QuotientOfProduct(h, f);
  }

  lemma QuotientOfProduct(side: real, f: real)
    requires side > 0.0
    ensures side * f / side == f
  {
    var q := side * f / side;
    assert q * side == side * f;
    CancelSide(side, q, f);
  }

  // ---- exactly how a box is enlarged

  /** Growing the shorter side to the minimum keeps both sides within the image. */
  predicate FitsUnscaled(width: real, height: real, imageWidth: real, imageHeight: real)
    requires width > 0.0 && height > 0.0
  {
    var ratio := MIN_DIMENSION as real / Min(height, width);
    width * ratio <= imageWidth && height * ratio <= imageHeight
  }

  /** The sides of the enlarged box: the shorter one reaches the minimum, or one of them the image. */
  lemma SidesAreExact(w: real, h: real, imageWidth: real, imageHeight: real)
    requires 0.0 < w <= imageWidth && 0.0 < h <= imageHeight
    ensures
      var t := TargetSides(w, h, imageWidth, imageHeight);
      if FitsUnscaled(w, h, imageWidth, imageHeight) then Min(t.1, t.0) == 28.0
      else Min(t.1, t.0) < 28.0 && (t.0 == imageWidth || t.1 == imageHeight)
  {
    var low, t := Min(h, w), TargetSides(w, h, imageWidth, imageHeight);
    var ratio, a, b, f := 28.0 / low, imageWidth / w, imageHeight / h, Factor(w, h, imageWidth, imageHeight);
    TargetBySides(w, h, imageWidth, imageHeight, f, ratio);
    SidesByFactors(w, h, imageWidth, imageHeight, low, ratio, a, b, f, t);
  }

  lemma SidesByFactors(w: real, h: real, imageWidth: real, imageHeight: real,
                       low: real, ratio: real, a: real, b: real, f: real, t: (real, real))
    requires 0.0 < w <= imageWidth && 0.0 < h <= imageHeight && low == Min(h, w)
    requires ratio == 28.0 / low && a == imageWidth / w && b == imageHeight / h && f == Min(ratio, Min(a, b))
    requires t.0 == w * f && t.1 == h * f
    ensures if w * ratio <= imageWidth && h * ratio <= imageHeight then Min(t.1, t.0) == 28.0
            else Min(t.1, t.0) < 28.0 && (t.0 == imageWidth || t.1 == imageHeight)
  {
    FactorFits(w, ratio, imageWidth);
    FactorFits(h, ratio, imageHeight);
    FactorFits(low, ratio, 28.0);
    QuotientAtLeastOne(w, imageWidth);
    QuotientAtLeastOne(h, imageHeight);
    QuotientPositive(low, ratio);
    SidesOfFactor(w, h, imageWidth, imageHeight, ratio, a, b, f);
  }

  lemma QuotientPositive(low: real, ratio: real)
    requires low > 0.0 && ratio == 28.0 / low
    ensures ratio > 0.0
  {
    assert ratio * low == 28.0;
    if ratio <= 0.0 {
      MulOrder(ratio, 0.0, low);
    }
  }

  lemma TargetBySides(w: real, h: real, imageWidth: real, imageHeight: real, f: real, ratio: real)
    requires w > 0.0 && h > 0.0 && f == Factor(w, h, imageWidth, imageHeight) && ratio == 28.0 / Min(h, w)
    ensures f == Min(ratio, Min(imageWidth / w, imageHeight / h))
    ensures TargetSides(w, h, imageWidth, imageHeight).0 == w * f
    ensures TargetSides(w, h, imageWidth, imageHeight).1 == h * f
    ensures FitsUnscaled(w, h, imageWidth, imageHeight) <==> w * ratio <= imageWidth && h * ratio <= imageHeight
  {
    SidesOfTarget(w, h, imageWidth, imageHeight, f);
    SameProduct(w, ratio, MIN_DIMENSION as real / Min(h, w));
    SameProduct(h, ratio, MIN_DIMENSION as real / Min(h, w));
  }

  /** The least of three factors: the one that makes the shorter side 28, and those that fill the image. */
  lemma SidesOfFactor(w: real, h: real, imageWidth: real, imageHeight: real, ratio: real, a: real, b: real, f: real)
    requires w > 0.0 && h > 0.0 && f > 0.0 && f == Min(ratio, Min(a, b))
    requires Min(h, w) * ratio == 28.0 && w * a == imageWidth && h * b == imageHeight
    requires (w * ratio <= imageWidth <==> ratio <= a) && (h * ratio <= imageHeight <==> ratio <= b)
    ensures if w * ratio <= imageWidth && h * ratio <= imageHeight then Min(h * f, w * f) == 28.0
            else Min(h * f, w * f) < 28.0 && (w * f == imageWidth || h * f == imageHeight)
  {
    ShorterSide(w, h, f);
    if f == ratio {
      SameProduct(Min(h, w), f, ratio);
    } else {
      MulStrict(f, ratio, Min(h, w));
    }
    if f == a {
      SameProduct(w, f, a);
    } else if f == b {
      SameProduct(h, f, b);
    }
  }

  lemma ShorterSide(w: real, h: real, f: real)
    requires f > 0.0
    ensures Min(h * f, w * f) == Min(h, w) * f
  {
    if w <= h {
      MulOrder(w, h, f);
    } else {
      MulOrder(h, w, f);
    }
  }

  /**
   A small box in the image grows until its shorter side is 28, if the image has
   room for that. Otherwise it grows until one side is as long as the image's,
   which leaves the shorter side below 28.
   */
  lemma EnlargedSize(b: Box, image: Box)
    requires InImage(b, image) && IsSmall(b)
    ensures
      var e := Enlarged(b, image);
      if FitsUnscaled(b.Width(), b.Height(), image.right, image.bottom)
      then Min(e.Height(), e.Width()) == 28.0
      else Min(e.Height(), e.Width()) < 28.0 && (e.Width() == image.right || e.Height() == image.bottom)
  {
    EnlargedFits(b, image);
    SidesAreExact(b.Width(), b.Height(), image.right, image.bottom);
  }

  /**
   The enlarged box stays centred on the request, on each axis, unless it would
   leave the image there: then it ends at that border.
   */
  lemma EnlargedPlace(b: Box, image: Box)
    requires InImage(b, image) && IsSmall(b)
    ensures
      var e := Enlarged(b, image);
      && CentredOrAtBorder(b.left, b.right, e.left, e.right, image.right)
      && CentredOrAtBorder(b.top, b.bottom, e.top, e.bottom, image.bottom)
  {
    EnlargedFits(b, image);
  }

  /** An interval on `[0, limit]` that replaces the interval from `low` to `high`. */
  predicate CentredOrAtBorder(low: real, high: real, from: real, to: real, limit: real) {
    if low + high < to - from then from == 0.0
    else if low + high > 2.0 * limit - (to - from) then to == limit
    else from + to == low + high
  }

  /** Clamping cuts off what lies outside of the image, and nothing else. */
  lemma ClampIsTheIntersection(b: Box, width: int, height: int, other: Box)
    ensures Clamp(b, Image(width, height)).Contains(other)
       <==> b.Contains(other) && Image(width, height).Contains(other)
  {
  }

  predicate WholeCoordinates(b: Box) {
    && b.left == b.left.Floor as real && b.top == b.top.Floor as real
    && b.right == b.right.Floor as real && b.bottom == b.bottom.Floor as real
  }

  /** Rounding gives the least box with whole coordinates around the enlarged box. */
  lemma OutwardIsLeast(b: Box, other: Box)
    ensures WholeCoordinates(Outward(b)) && Outward(b).Contains(b)
    ensures WholeCoordinates(other) && other.Contains(b) ==> other.Contains(Outward(b))
  {
    WholeCeil(b.right);
    WholeCeil(b.bottom);
    if WholeCoordinates(other) && other.Contains(b) {
      FloorAtLeast(b.left, other.left.Floor);
      FloorAtLeast(b.top, other.top.Floor);
      CeilAtMost(b.right, other.right.Floor);
      CeilAtMost(b.bottom, other.bottom.Floor);
    }
  }

  lemma WholeCeil(x: real)
    ensures x <= Ceil(x) as real && Ceil(x) as real == (Ceil(x) as real).Floor as real
  {
  }

  /** `r` is the least box with whole coordinates around `b`. */
  ghost predicate LeastAround(r: Box, b: Box) {
    WholeCoordinates(r) && r.Contains(b) && forall o: Box :: WholeCoordinates(o) && o.Contains(b) ==> o.Contains(r)
  }

  /**
   A small request is returned as the least whole box around the enlarged one,
   if that box has sides of at least 28 and an aspect of at most 100.
   */
  lemma SmallBoxIsRounded(b: Box, imageWidth: int, imageHeight: int, r: Box)
    requires
      var c := Clamp(b, Image(imageWidth, imageHeight));
      && IsProper(c) && (c.Width() < 28.0 || c.Height() < 28.0)
      && ValidateBox(c) && LeastAround(r, Enlarged(c, Image(imageWidth, imageHeight)))
    ensures
      Resized(b, imageWidth, imageHeight)
      == if 28.0 <= r.Width() <= 100.0 * r.Height() && 28.0 <= r.Height() <= 100.0 * r.Width() then Some(r) else None
  {
    var e := Enlarged(Clamp(b, Image(imageWidth, imageHeight)), Image(imageWidth, imageHeight));
    OutwardIsLeast(e, r);
    assert r == Outward(e);
    if r.left < r.right && r.top < r.bottom {
      AspectBound(r);
    }
  }

  /** A valid request of which a small box remains inside the image. */
  predicate IsSmallRequest(b: Box, imageWidth: int, imageHeight: int) {
    var c := Clamp(b, Image(imageWidth, imageHeight));
    ValidateBox(c) && IsSmall(c)
  }

  // ---- which small requests are refused

  /** The sides of the enlarged box, before rounding. */
  function EnlargedSides(b: Box, imageWidth: int, imageHeight: int): (real, real)
    requires IsSmallRequest(b, imageWidth, imageHeight)
  {
    Target(Clamp(b, Image(imageWidth, imageHeight)), Image(imageWidth, imageHeight))
  }

  /** Rounding outwards cannot make these sides fail a check. */
  predicate SidesOk(width: real, height: real) {
    Min(width, height) > 27.0 && Max(width, height) <= 2799.0
  }

  /** A small request is returned whenever its enlarged sides are above 27 and at most 2799. */
  lemma LongEnoughIsReturned(b: Box, imageWidth: int, imageHeight: int)
    requires IsSmallRequest(b, imageWidth, imageHeight)
    requires
      var sides := EnlargedSides(b, imageWidth, imageHeight);
      SidesOk(sides.0, sides.1)
    ensures Resized(b, imageWidth, imageHeight).Some?
  {
    var image := Image(imageWidth, imageHeight);
    var c := Clamp(b, image);
    EnlargedFits(c, image);
    SidesAccepted(Enlarged(c, image));
  }

  lemma SidesAccepted(e: Box)
    requires SidesOk(e.Width(), e.Height())
    ensures Acceptable(Outward(e))
  {
    RoundedSide(e.left, e.right);
    RoundedSide(e.top, e.bottom);
    WholeSidesAccepted(e.left.Floor, e.top.Floor, Ceil(e.right), Ceil(e.bottom));
  }

  lemma RoundedSide(x: real, y: real)
    requires 27.0 < y - x <= 2799.0
    ensures 28 <= Ceil(y) - x.Floor <= 2800
  {
    OutwardGrowth(x, y);
  }

  lemma WholeSidesAccepted(left: int, top: int, right: int, bottom: int)
    requires 28 <= right - left <= 2800 && 28 <= bottom - top <= 2800
    ensures Acceptable(Box(left as real, top as real, right as real, bottom as real))
  {
    AspectBound(Box(left as real, top as real, right as real, bottom as real));
  }

  /** A small request is refused whenever the image leaves its enlarged short side at most 26. */
  lemma TooShortIsRefused(b: Box, imageWidth: int, imageHeight: int)
    requires IsSmallRequest(b, imageWidth, imageHeight)
    requires
      var sides := EnlargedSides(b, imageWidth, imageHeight);
      Min(sides.0, sides.1) <= 26.0
    ensures Resized(b, imageWidth, imageHeight) == None
  {
    var image := Image(imageWidth, imageHeight);
    var c := Clamp(b, image);
    EnlargedFits(c, image);
    SidesRefused(Enlarged(c, image));
  }

  lemma SidesRefused(e: Box)
    requires Min(e.Width(), e.Height()) <= 26.0
    ensures !Acceptable(Outward(e))
  {
    OutwardGrowth(e.left, e.right);
    OutwardGrowth(e.top, e.bottom);
  }

  /** Rounding outwards adds less than two. */
  lemma OutwardGrowth(x: real, y: real)
    ensures y - x <= (Ceil(y) - x.Floor) as real < y - x + 2.0
  {
  }

  /** A request of 40 by 20 in an image of 53 by 100: the image allows 53 by 26.5. */
  function Wide(top: real): Box {
    Box(5.0, top, 45.0, top + 20.0)
  }

  lemma ScaledToWidth(top: real)
    requires 30.0 <= top <= 50.0
    ensures IsSmallRequest(Wide(top), 53, 100) && EnlargedSides(Wide(top), 53, 100) == (53.0, 26.5)
    ensures Resized(Wide(top), 53, 100).Some? <==> Acceptable(Outward(Box(0.0, top - 3.25, 53.0, top - 3.25 + 26.5)))
  {
    var b := Wide(top);
    AspectBound(b);
    assert Clamp(b, Image(53, 100)) == b && b.Width() == 40.0 && b.Height() == 20.0;
    assert Factor(40.0, 20.0, 53.0, 100.0) == 53.0 / 40.0;
    assert Enlarged(b, Image(53, 100)) == Box(0.0, top - 3.25, 53.0, top - 3.25 + 26.5);
  }

  /** Between 26 and 27 the place decides: this request is returned ... */
  lemma InBetweenReturned(top: real)
    requires top == 40.0
    ensures IsSmallRequest(Wide(top), 53, 100) && EnlargedSides(Wide(top), 53, 100) == (53.0, 26.5)
    ensures Resized(Wide(top), 53, 100).Some?
  {
    ScaledToWidth(top);
    RoundedBetween(top - 3.25, 37.0);
  }

  /** ... and the same request, shifted by a quarter, is refused. */
  lemma InBetweenRefused(top: real)
    requires top == 40.25
    ensures IsSmallRequest(Wide(top), 53, 100) && EnlargedSides(Wide(top), 53, 100) == (53.0, 26.5)
    ensures Resized(Wide(top), 53, 100) == None
  {
    ScaledToWidth(top);
    RoundedBetween(36.75, top - 3.25);
  }

  lemma RoundedBetween(x: real, y: real)
    requires x == 36.75 && y == 37.0
    ensures Acceptable(Outward(Box(0.0, x, 53.0, x + 26.5))) && !Acceptable(Outward(Box(0.0, y, 53.0, y + 26.5)))
  {
    WholeSidesAccepted(0, 36, 53, 64);
  }

  // ---- the limit on the proportions

  /** A small request whose clamped box is `aspect` times as long as it is wide and can grow to the minimum. */
  predicate RoomyRequest(b: Box, imageWidth: int, imageHeight: int, aspect: real) {
    && IsSmallRequest(b, imageWidth, imageHeight)
    && var c := Clamp(b, Image(imageWidth, imageHeight));
       && FitsUnscaled(c.Width(), c.Height(), imageWidth as real, imageHeight as real)
       && HasAspect(c.Width(), c.Height(), aspect)
  }

  predicate HasAspect(w: real, h: real, aspect: real) {
    Max(h, w) == aspect * Min(h, w)
  }

  /** Rounding may push proportions above this over the limit of 100. */
  const SAFE_ASPECT := 100.0 - 1.0 / 28.0

  /** A small valid request with room to grow is not refused if its proportions are safe. */
  lemma SmallBoxIsEnlarged(b: Box, imageWidth: int, imageHeight: int, aspect: real)
    requires RoomyRequest(b, imageWidth, imageHeight, aspect) && aspect <= SAFE_ASPECT
    ensures Resized(b, imageWidth, imageHeight).Some?
  {
    var c := Clamp(b, Image(imageWidth, imageHeight));
    UnscaledSides(c.Width(), c.Height(), imageWidth as real, imageHeight as real, aspect);
    assert EnlargedSides(b, imageWidth, imageHeight)
        == TargetSides(c.Width(), c.Height(), imageWidth as real, imageHeight as real);
    LongEnoughIsReturned(b, imageWidth, imageHeight);
  }

  lemma UnscaledSides(w: real, h: real, imageWidth: real, imageHeight: real, aspect: real)
    requires w > 0.0 && h > 0.0 && FitsUnscaled(w, h, imageWidth, imageHeight)
    requires HasAspect(w, h, aspect) && aspect <= SAFE_ASPECT
    ensures
      var t := TargetSides(w, h, imageWidth, imageHeight);
      SidesOk(t.0, t.1)
  {
    var ratio := MIN_DIMENSION as real / Min(h, w);
    FactorFits(w, ratio, imageWidth);
    FactorFits(h, ratio, imageHeight);
    FactorFits(Min(h, w), ratio, MIN_DIMENSION as real);
    LongSide(Min(h, w), Max(h, w), ratio, aspect);
  }

  lemma LongSide(low: real, high: real, f: real, aspect: real)
    requires 0.0 < low <= high == aspect * low && low * f == 28.0
    ensures 28.0 <= high * f == 28.0 * aspect
  {
    if f < 0.0 {
      MulStrict(f, 0.0, low);
    }
    MulOrder(low, high, f);
    assert aspect * low * f == aspect * (low * f);
  }

  /** A request of the given proportions, placed so that rounding adds a whole unit to its long side. */
  function Awkward(aspect: real): Box {
    var center := 3000.0 + (2801.0 - 28.0 * aspect) / 2.0 + 14.0 * aspect;
    Box(center - aspect / 2.0, 4999.5, center + aspect / 2.0, 5000.5)
  }

  /** Above the safe proportions some placement is refused, however large the image. */
  lemma AwkwardIsRefused(aspect: real)
    requires SAFE_ASPECT < aspect <= 100.0
    ensures RoomyRequest(Awkward(aspect), 10000, 10000, aspect)
    ensures Resized(Awkward(aspect), 10000, 10000) == None
  {
    var b, image := Awkward(aspect), Image(10000, 10000);
    assert Clamp(b, image) == b && b.Width() == aspect && b.Height() == 1.0;
    AspectBound(b);
    AwkwardSides(aspect);
    var left := 3000.0 + (2801.0 - 28.0 * aspect) / 2.0;
    assert Enlarged(b, image) == Box(left, 4986.0, left + 28.0 * aspect, 5014.0);
    AwkwardRounding(left, left + 28.0 * aspect);
  }

  lemma AwkwardSides(aspect: real)
    requires 99.0 < aspect <= 100.0
    ensures FitsUnscaled(aspect, 1.0, 10000.0, 10000.0)
    ensures TargetSides(aspect, 1.0, 10000.0, 10000.0) == (28.0 * aspect, 28.0)
  {
    FactorFits(aspect, 28.0, 10000.0);
  }

  lemma AwkwardRounding(x: real, y: real)
    requires 3000.0 < x < 3001.0 && 5801.0 - 1.0 < y && y - x <= 2800.0
    ensures !Acceptable(Outward(Box(x, 4986.0, y, 5014.0)))
  {
    var r := Outward(Box(x, 4986.0, y, 5014.0));
    assert r.left == 3000.0 && r.right >= 5801.0 && r.top == 4986.0 && r.bottom == 5014.0;
    AspectBound(r);
  }

  /** The bound is sharp: every placement of a roomy request is returned if and only if its proportions are safe. */
  lemma SafeAspectIsSharp(aspect: real)
    requires 1.0 <= aspect <= 100.0
    ensures (forall b, imageWidth, imageHeight :: RoomyRequest(b, imageWidth, imageHeight, aspect) ==>
               Resized(b, imageWidth, imageHeight).Some?)
            <==> aspect <= SAFE_ASPECT
  {
    if aspect <= SAFE_ASPECT {
      forall b, imageWidth, imageHeight | RoomyRequest(b, imageWidth, imageHeight, aspect)
        ensures Resized(b, imageWidth, imageHeight).Some?
      {
        SmallBoxIsEnlarged(b, imageWidth, imageHeight, aspect);
      }
    } else {
      AwkwardIsRefused(aspect);
    }
  }
}
