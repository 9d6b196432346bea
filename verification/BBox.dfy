/**
  The zoom tool's bounding boxes: clamp to the image, refuse degenerate ones, enlarge the ones
  that are too small. Coordinates are mathematical reals.
*/
module BBox {

  import opened Arithmetic
  import opened Wrappers

  const MIN_DIMENSION := 28

  datatype Box = Box(left: real, top: real, right: real, bottom: real)

  function Ceil(x: real): int { -(-x).Floor }

  function Width(b: Box): real { b.right - b.left }

  function Height(b: Box): real { b.bottom - b.top }

  /** The box inside the image, possibly empty or turned over. */
  function Clamp(b: Box, width: int, height: int): Box {
    Box(MaxReal(0.0, b.left), MaxReal(0.0, b.top), MinReal(width as real, b.right), MinReal(height as real, b.bottom))
  }

  /** The point lies in the box. */
  predicate Covers(b: Box, x: real, y: real) { b.left <= x <= b.right && b.top <= y <= b.bottom }

  /** Clamping intersects the box with the image. */
  lemma ClampIntersects(b: Box, width: int, height: int, x: real, y: real)
    ensures Covers(Clamp(b, width, height), x, y) <==>
            Covers(b, x, y) && Covers(Box(0.0, 0.0, width as real, height as real), x, y)
  {
  }

  lemma ClampIs(b: Box, width: int, height: int, c: Box)
    requires c.left == if b.left > 0.0 then b.left else 0.0
    requires c.top == if b.top > 0.0 then b.top else 0.0
    requires c.right == if b.right < width as real then b.right else width as real
    requires c.bottom == if b.bottom < height as real then b.bottom else height as real
    ensures c == Clamp(b, width, height) && (Proper(c) ==> Inside(c, width, height))
  {
  }

  /** Not empty, and no side more than a hundred times the other. */
  predicate Proper(b: Box) {
    b.left < b.right && b.top < b.bottom && MaxReal(Height(b), Width(b)) <= 100.0 * MinReal(Height(b), Width(b))
  }

  predicate Small(b: Box) { Height(b) < MIN_DIMENSION as real || Width(b) < MIN_DIMENSION as real }

  predicate Inside(b: Box, width: int, height: int) {
    0.0 <= b.left && 0.0 <= b.top && b.right <= width as real && b.bottom <= height as real
  }

  predicate Contains(b: Box, c: Box) {
    b.left <= c.left && b.top <= c.top && c.right <= b.right && c.bottom <= b.bottom
  }

  /** The pixel sides after truncation are long enough. */
  predicate LargeEnough(b: Box) {
    b.bottom.Floor - b.top.Floor >= MIN_DIMENSION && b.right.Floor - b.left.Floor >= MIN_DIMENSION
  }

  predicate OnGrid(b: Box) {
    && b.left == b.left.Floor as real && b.top == b.top.Floor as real
    && b.right == b.right.Floor as real && b.bottom == b.bottom.Floor as real
  }

  method ValidateBbox(b: Box) returns (ok: bool)
    ensures ok <==> Proper(b)
  {
    if !(b.left < b.right && b.top < b.bottom) { return false; }
    var height, width := Height(b), Width(b);
    if MinReal(height, width) == 0.0 { return false; }
    QuotientBound(MaxReal(height, width), MinReal(height, width));
    if MaxReal(height, width) / MinReal(height, width) > 100.0 { return false; }
    return true;
  }

  lemma QuotientBound(x: real, y: real)
    requires y > 0.0
    ensures x / y > 100.0 <==> x > 100.0 * y
  {
    assert (x / y) * y == x;
    Sign(x / y - 100.0, y);
    assert (x / y - 100.0) * y == (x / y) * y - 100.0 * y;
  }

  // ---------------------------------------------------------------- the target size

  function Scale(x: real, s: real): real { x * s }

  /** The sides (tw, th) have the shape of (w, h). */
  predicate SameShape(w: real, h: real, tw: real, th: real) { tw * h == th * w }

  lemma Rescale(w: real, h: real, tw: real, th: real, s: real, sw: real, sh: real)
    requires SameShape(w, h, tw, th) && sw == tw * s && sh == th * s
    ensures SameShape(w, h, sw, sh)
  {
    assert (tw * s) * h == (tw * h) * s;
    assert (th * s) * w == (th * w) * s;
  }

  lemma Swapped(w: real, h: real, tw: real, th: real)
    requires SameShape(w, h, tw, th)
    ensures SameShape(h, w, th, tw)
  {
  }

  /** A box of the same shape that is at least as wide is at least as high. */
  lemma Grows(w: real, h: real, tw: real, th: real)
    requires SameShape(w, h, tw, th) && w > 0.0 && h > 0.0 && tw >= w
    ensures th >= h
  {
    Sign(th - h, w);
    assert (th - h) * w == th * w - h * w;
    RealProduct(tw - w, h);
    assert (tw - w) * h == tw * h - w * h;
  }

  lemma ScaleDown(limit: real, x: real)
    requires 0.0 < limit < x
    ensures 0.0 < limit / x < 1.0 && x * (limit / x) == limit
  {
    var s := limit / x;
    assert s * x == limit;
    Sign(s, x);
    Sign(1.0 - s, x);
    assert (1.0 - s) * x == x - s * x;
  }

  lemma Shrinks(x: real, s: real)
    requires x > 0.0 && 0.0 < s < 1.0
    ensures 0.0 < x * s < x
  {
    Sign(x, s);
    Sign(1.0 - s, x);
    assert (1.0 - s) * x == x - x * s;
  }

  /** Scaling down to the limit of one side keeps the shape, and the other side stays at least
      as long as the box's. */
  lemma ScaledToFit(w: real, h: real, tw: real, th: real, limit: real, s: real, sh: real)
    requires SameShape(w, h, tw, th) && 0.0 < w <= limit < tw && 0.0 < h && 0.0 < th
    requires s == limit / tw && sh == Scale(th, s)
    ensures SameShape(w, h, limit, sh) && h <= sh < th
  {
    hide SameShape;
    ScaleDown(limit, tw);
    Rescale(w, h, tw, th, s, limit, sh);
    Shrinks(th, s);
    Grows(w, h, limit, sh);
  }

  lemma Enlarge(w: real, h: real, m: real, ratio: real, tw: real, th: real)
    requires 0.0 < m < MIN_DIMENSION as real && m == MinReal(h, w)
    requires ratio == MIN_DIMENSION as real / m && tw == Scale(w, ratio) && th == Scale(h, ratio)
    ensures tw >= w && th >= h && MinReal(th, tw) == MIN_DIMENSION as real && SameShape(w, h, tw, th)
  {
    assert ratio * m == MIN_DIMENSION as real;
    Sign(ratio - 1.0, m);
    assert (ratio - 1.0) * m == ratio * m - m;
    RealProduct(ratio - 1.0, w);
    RealProduct(ratio - 1.0, h);
    assert (ratio - 1.0) * w == w * ratio - w && (ratio - 1.0) * h == h * ratio - h;
    RealProduct(ratio, w - m);
    RealProduct(ratio, h - m);
    assert ratio * (w - m) == w * ratio - ratio * m && ratio * (h - m) == h * ratio - ratio * m;
    assert SameShape(w, h, w, h);
    Rescale(w, h, w, h, ratio, tw, th);
  }

  /** A side of 28 for the smaller of the two. */
  function Ratio(w: real, h: real): real
    requires MinReal(h, w) > 0.0
  {
    MIN_DIMENSION as real / MinReal(h, w)
  }

  /** The first side is at most the limit; the other shrinks with it. */
  function Fit(x: real, y: real, limit: int): (real, real)
    requires limit >= 0
  {
    if x > limit as real then (limit as real, Scale(y, limit as real / x)) else (x, y)
  }

  /** The sides (w, h), enlarged and then fitted into the image, the width first. */
  function Target(w: real, h: real, width: int, height: int): (real, real)
    requires MinReal(h, w) > 0.0 && width >= 0 && height >= 0
  {
    var (tw, th) := Fit(Scale(w, Ratio(w, h)), Scale(h, Ratio(w, h)), width);
    var (sh, sw) := Fit(th, tw, height);
    (sw, sh)
  }

  lemma TargetFits(w: real, h: real, width: int, height: int)
    requires 0.0 < w <= width as real && 0.0 < h <= height as real && MinReal(h, w) < MIN_DIMENSION as real
    ensures var (tw, th) := Target(w, h, width, height);
      && w <= tw <= width as real && h <= th <= height as real
      && SameShape(w, h, tw, th) && MinReal(th, tw) <= MIN_DIMENSION as real
      && (Scale(w, Ratio(w, h)) <= width as real && Scale(h, Ratio(w, h)) <= height as real ==>
            MinReal(th, tw) == MIN_DIMENSION as real)
  {
    hide SameShape, Scale;
    var tw, th := Scale(w, Ratio(w, h)), Scale(h, Ratio(w, h));
    Enlarge(w, h, MinReal(h, w), Ratio(w, h), tw, th);
    if tw > width as real {
      var scaleDown := width as real / tw;
      ScaledToFit(w, h, tw, th, width as real, scaleDown, Scale(th, scaleDown));
      tw, th := width as real, Scale(th, scaleDown);
    }
    if th > height as real {
      var scaleDown := height as real / th;
      Swapped(w, h, tw, th);
      ScaledToFit(h, w, th, tw, height as real, scaleDown, Scale(tw, scaleDown));
      Swapped(h, w, height as real, Scale(tw, scaleDown));
    }
  }

  /** Scale the box up until its smaller side is MIN_DIMENSION, but not beyond the image. The
      result is never smaller than the box. */
  method TargetSize(w: real, h: real, width: int, height: int) returns (tw: real, th: real)
    requires 0.0 < w <= width as real && 0.0 < h <= height as real && MinReal(h, w) < MIN_DIMENSION as real
    ensures (tw, th) == Target(w, h, width, height)
    ensures w <= tw <= width as real && h <= th <= height as real
    ensures SameShape(w, h, tw, th) && MinReal(th, tw) <= MIN_DIMENSION as real
    ensures Scale(w, Ratio(w, h)) <= width as real && Scale(h, Ratio(w, h)) <= height as real ==>
      MinReal(th, tw) == MIN_DIMENSION as real
  {
    hide SameShape, Scale;
    TargetFits(w, h, width, height);
    var ratio := MIN_DIMENSION as real / MinReal(h, w);
    tw, th := Scale(w, ratio), Scale(h, ratio);
    if tw > width as real {
      var scaleDown := width as real / tw;
      tw := width as real;
      th := Scale(th, scaleDown);
    }
    if th > height as real {
      var scaleDown := height as real / th;
      th := height as real;
      tw := Scale(tw, scaleDown);
    }
  }

  // ---------------------------------------------------------------- placing and rounding

  /** One axis: where a segment of length s starts that is centred on [a, b] and then shifted
      into [0, limit]. */
  function Place(a: real, b: real, s: real, limit: int): real {
    var x := MaxReal(0.0, (a + b) / 2.0 - s / 2.0);
    if x + s > limit as real then limit as real - s else x
  }

  /** A segment of length s >= b - a that is placed around [a, b] contains [a, b]. */
  lemma Shifted(a: real, b: real, s: real, limit: int)
    requires 0.0 <= a < b <= limit as real && b - a <= s <= limit as real
    ensures 0.0 <= Place(a, b, s, limit) <= a && b <= Place(a, b, s, limit) + s <= limit as real
  {
  }

  /** Rounding outwards keeps a segment inside a limit of whole pixels and adds less than two. */
  lemma Rounded(x: real, s: real, limit: int)
    requires 0.0 <= x && x + s <= limit as real
    ensures 0 <= x.Floor && Ceil(x + s) <= limit
    ensures x.Floor as real <= x && x + s <= Ceil(x + s) as real
    ensures s <= (Ceil(x + s) - x.Floor) as real < s + 2.0
  {
  }

  /** Sides of at least 28 stay so after truncation. */
  lemma Truncated(x: real, y: real)
    requires y - x >= MIN_DIMENSION as real
    ensures y.Floor - x.Floor >= MIN_DIMENSION
  {
  }

  /** There is room in the image for the sides when the smaller one becomes 28. */
  predicate Room(w: real, h: real, width: int, height: int)
    requires MinReal(h, w) > 0.0
  {
    Scale(w, Ratio(w, h)) <= width as real && Scale(h, Ratio(w, h)) <= height as real
  }

  /** The longer side when the smaller one becomes 28. */
  function LongSide(w: real, h: real): real
    requires MinReal(h, w) > 0.0
  {
    MaxReal(Scale(h, Ratio(w, h)), Scale(w, Ratio(w, h)))
  }

  /** There is room, and the longer side stays a pixel below the aspect bound. */
  predicate RoomBelowBound(w: real, h: real, width: int, height: int)
    requires MinReal(h, w) > 0.0
  {
    Room(w, h, width, height) && LongSide(w, h) <= (100 * MIN_DIMENSION - 1) as real
  }

  function RoundOut(left: real, top: real, tw: real, th: real): Box {
    Box(left.Floor as real, top.Floor as real, Ceil(left + tw) as real, Ceil(top + th) as real)
  }

  lemma RoundOutIs(left: real, top: real, tw: real, th: real)
    ensures RoundOut(left, top, tw, th) ==
            Box(left.Floor as real, top.Floor as real, Ceil(left + tw) as real, Ceil(top + th) as real)
  {
  }

  lemma RoundedOut(left: real, top: real, tw: real, th: real, width: int, height: int, c: Box)
    requires 0.0 <= left <= c.left && c.right <= left + tw <= width as real
    requires 0.0 <= top <= c.top && c.bottom <= top + th <= height as real
    ensures var r := RoundOut(left, top, tw, th);
      && OnGrid(r) && Inside(r, width, height) && Contains(r, c)
      && tw <= Width(r) < tw + 2.0 && th <= Height(r) < th + 2.0
  {
    Rounded(left, tw, width);
    Rounded(top, th, height);
  }

  /** Rounded outwards, a side of at most 2799 is at most 2800 when it is whole. */
  lemma SafeLength(short: real, long: real, a: int, b: int)
    requires 28.0 <= short <= long <= 2799.0 && short <= a as real && b as real < long + 2.0
    ensures a >= 28 && b as real <= 100.0 * a as real
  {
  }

  /** Sides from 28 up to one pixel less than the aspect bound are safe. */
  lemma SafeSides(r: Box, tw: real, th: real)
    requires OnGrid(r) && tw <= Width(r) < tw + 2.0 && th <= Height(r) < th + 2.0
    requires MinReal(th, tw) == MIN_DIMENSION as real && MaxReal(th, tw) <= (100 * MIN_DIMENSION - 1) as real
    ensures LargeEnough(r) && Proper(r)
  {
    var w, h := r.right.Floor - r.left.Floor, r.bottom.Floor - r.top.Floor;
    assert Width(r) == w as real && Height(r) == h as real;
    hide OnGrid;
    if tw <= th {
      SafeLength(tw, th, w, h);
    } else {
      SafeLength(th, tw, h, w);
    }
  }

  /** The enlarged box around c, on whole pixels. */
  function Enlargement(c: Box, width: int, height: int): Box
    requires Inside(c, width, height) && Proper(c)
  {
    var (tw, th) := Target(Width(c), Height(c), width, height);
    RoundOut(Place(c.left, c.right, tw, width), Place(c.top, c.bottom, th, height), tw, th)
  }

  method Enlarged(c: Box, width: int, height: int) returns (r: Box)
    requires Inside(c, width, height) && Proper(c) && Small(c)
    ensures r == Enlargement(c, width, height)
    ensures OnGrid(r) && Inside(r, width, height) && Contains(r, c)
    ensures MinReal(Height(r), Width(r)) < MIN_DIMENSION as real + 2.0
    ensures RoomBelowBound(Width(c), Height(c), width, height) ==>
      LargeEnough(r) && Proper(r)
  {
    hide SameShape, Scale, RoundOut, OnGrid, LargeEnough, Target;
    var centerX, centerY := (c.left + c.right) / 2.0, (c.top + c.bottom) / 2.0;
    var tw, th := TargetSize(Width(c), Height(c), width, height);
    var left, top := centerX - tw / 2.0, centerY - th / 2.0;
    if left < 0.0 { left := 0.0; }
    if top < 0.0 { top := 0.0; }
    if left + tw > width as real { left := width as real - tw; }
    if top + th > height as real { top := height as real - th; }
    Shifted(c.left, c.right, tw, width);
    Shifted(c.top, c.bottom, th, height);
    RoundedOut(left, top, tw, th, width, height, c);
    RoundOutIs(left, top, tw, th);
    r := Box(left.Floor as real, top.Floor as real, Ceil(left + tw) as real, Ceil(top + th) as real);
    if RoomBelowBound(Width(c), Height(c), width, height) {
      TargetWithRoom(Width(c), Height(c), width, height);
      SafeSides(r, tw, th);
    }
  }

  lemma TargetWithRoom(w: real, h: real, width: int, height: int)
    requires MinReal(h, w) > 0.0 && width >= 0 && height >= 0 && Room(w, h, width, height)
    ensures Target(w, h, width, height) == (Scale(w, Ratio(w, h)), Scale(h, Ratio(w, h)))
  {
    hide Scale;
  }

  /** What becomes of a request: nothing, the request inside the image, or its enlargement. */
  function Resize(b: Box, width: int, height: int): Option<Box> {
    var c := Clamp(b, width, height);
    if !Proper(c) then None
    else if !Small(c) then Some(c)
    else
      var r := Enlargement(c, width, height);
      if Proper(r) && LargeEnough(r) then Some(r) else None
  }

  /**
    Every box that is returned lies in the image, contains the clamped request, has pixel sides
    of at least 28 and keeps the aspect bound. A proper request with long enough sides is
    returned as it is; a small one is enlarged to whole pixels, its smaller side to 28 or 29,
    and it is not refused when the image has the room and the longer side stays a pixel below
    the aspect bound.
  */
  method MaybeResizeBbox(b: Box, width: int, height: int) returns (r: Option<Box>)
    ensures r == Resize(b, width, height)
    ensures r.Some? ==> Inside(r.value, width, height) && Contains(r.value, Clamp(b, width, height))
    ensures r.Some? ==> Proper(r.value) && LargeEnough(r.value)
    ensures !Proper(Clamp(b, width, height)) ==> r == None
    ensures Proper(Clamp(b, width, height)) && !Small(Clamp(b, width, height)) ==> r == Some(Clamp(b, width, height))
    ensures r.Some? && Small(Clamp(b, width, height)) ==>
      OnGrid(r.value) && MinReal(Height(r.value), Width(r.value)) < MIN_DIMENSION as real + 2.0
    ensures var c := Clamp(b, width, height);
      Proper(c) && Small(c) && RoomBelowBound(Width(c), Height(c), width, height)
      ==> r.Some?
  {
    var current := Box(
      if b.left > 0.0 then b.left else 0.0, if b.top > 0.0 then b.top else 0.0,
      if b.right < width as real then b.right else width as real,
      if b.bottom < height as real then b.bottom else height as real);
    ClampIs(b, width, height, current);
    hide Clamp, RoomBelowBound, Enlargement;
    var ok := ValidateBbox(current);
    if !ok { return None; }
    if current.bottom - current.top < MIN_DIMENSION as real || current.right - current.left < MIN_DIMENSION as real {
      current := Enlarged(current, width, height);
    } else {
      Truncated(current.left, current.right);
      Truncated(current.top, current.bottom);
    }
    ok := ValidateBbox(current);
    if !ok { return None; }
    var finalHeight := current.bottom.Floor - current.top.Floor;
    var finalWidth := current.right.Floor - current.left.Floor;
    if finalHeight < MIN_DIMENSION || finalWidth < MIN_DIMENSION { return None; }
    r := Some(current);
  }

  // ---------------------------------------------------------------- refusals

  /** The sides of a request that is proper and small. */
  predicate SmallSides(w: real, h: real) {
    0.0 < MinReal(h, w) < MIN_DIMENSION as real && MaxReal(h, w) <= 100.0 * MinReal(h, w)
  }

  lemma SmallSidesIff(c: Box)
    ensures SmallSides(Width(c), Height(c)) <==> Proper(c) && Small(c)
  {
  }

  /** The box of sides (w, h) centred on (x, y). */
  function Around(x: real, y: real, w: real, h: real): Box {
    Box(x - w / 2.0, y - h / 2.0, x + w / 2.0, y + h / 2.0)
  }

  /** The long side, placed at half its distance to 2801, covers 2801 pixels. */
  lemma Overhangs(long: real)
    requires 2799.0 < long <= 2800.0
    ensures var x := (2801.0 - long) / 2.0;
      x.Floor == 0 && Ceil(x + long) == 2801 && x + long <= 2802.0
  {
  }

  lemma Enlarged28(w: real, h: real)
    requires SmallSides(w, h)
    ensures var tw, th := Scale(w, Ratio(w, h)), Scale(h, Ratio(w, h));
      MinReal(th, tw) == 28.0 && tw >= w && th >= h && LongSide(w, h) <= 2800.0 && (tw >= th <==> w >= h)
  {
    var m, ratio := MinReal(h, w), Ratio(w, h);
    Enlarge(w, h, m, ratio, Scale(w, ratio), Scale(h, ratio));
    assert ratio * m == 28.0;
    RealProduct(ratio, 100.0 * m - MaxReal(h, w));
    assert ratio * (100.0 * m - MaxReal(h, w)) == 100.0 * (ratio * m) - Scale(MaxReal(h, w), ratio);
  }

  /** A place in an image with room, half a pixel off the grid; for sides that become longer than
      2799 it is refused. */
  function Unlucky(w: real, h: real): (Box, int, int)
    requires SmallSides(w, h)
  {
    if w >= h then (Around(1400.5, 14.0, w, h), 2802, 28) else (Around(14.0, 1400.5, w, h), 28, 2802)
  }

  lemma UnluckyRefused(w: real, h: real)
    requires SmallSides(w, h) && LongSide(w, h) > 2799.0
    ensures var (c, width, height) := Unlucky(w, h);
      && Width(c) == w && Height(c) == h && Inside(c, width, height) && Room(w, h, width, height)
      && Resize(c, width, height) == None
  {
    hide Scale;
    Enlarged28(w, h);
    var (c, width, height) := Unlucky(w, h);
    TargetWithRoom(w, h, width, height);
    Overhangs(LongSide(w, h));
    assert Clamp(c, width, height) == c;
  }

  /** A small request of sides (w, h) that the image has room to enlarge is never refused,
      wherever it lies, exactly when its longer side stays a pixel below the aspect bound. */
  lemma NeverRefusedIff(w: real, h: real)
    requires SmallSides(w, h)
    ensures (forall c: Box, width: int, height: int ::
        Width(c) == w && Height(c) == h && Inside(c, width, height) && Room(w, h, width, height) ==>
          Resize(c, width, height).Some?)
      <==> LongSide(w, h) <= 2799.0
  {
    if LongSide(w, h) > 2799.0 {
      UnluckyRefused(w, h);
      var (c, width, height) := Unlucky(w, h);
      assert Resize(c, width, height) == None;
    } else {
      forall c: Box, width: int, height: int
        | Width(c) == w && Height(c) == h && Inside(c, width, height) && Room(w, h, width, height)
        ensures Resize(c, width, height).Some?
      {
        RoomSuffices(c, width, height);
      }
    }
  }

  lemma RoomSuffices(c: Box, width: int, height: int)
    requires SmallSides(Width(c), Height(c)) && Inside(c, width, height)
    requires Room(Width(c), Height(c), width, height) && LongSide(Width(c), Height(c)) <= 2799.0
    ensures Resize(c, width, height).Some?
  {
    hide Scale, Target;
    var w, h := Width(c), Height(c);
    Enlarged28(w, h);
    TargetWithRoom(w, h, width, height);
    var tw, th := Scale(w, Ratio(w, h)), Scale(h, Ratio(w, h));
    Shifted(c.left, c.right, tw, width);
    Shifted(c.top, c.bottom, th, height);
    RoundedOut(Place(c.left, c.right, tw, width), Place(c.top, c.bottom, th, height), tw, th, width, height, c);
    SafeSides(Enlargement(c, width, height), tw, th);
    assert Clamp(c, width, height) == c;
  }

  // ---------------------------------------------------------------- images without room

  /** One axis of the enlargement, in pixels. */
  function Pixels(a: real, b: real, s: real, limit: int): int {
    Ceil(Place(a, b, s, limit) + s) - Place(a, b, s, limit).Floor
  }

  lemma WholeAxis(a: real, b: real, limit: int)
    requires 0.0 <= a < b <= limit as real
    ensures Pixels(a, b, limit as real, limit) == limit
  {
    Shifted(a, b, limit as real, limit);
  }

  lemma ShortAxis(a: real, b: real, s: real, limit: int)
    requires 0.0 <= a < b <= limit as real && b - a <= s <= limit as real
    ensures s <= Pixels(a, b, s, limit) as real < s + 2.0
    ensures s <= 26.0 ==> Pixels(a, b, s, limit) < 28
    ensures s > 27.0 ==> Pixels(a, b, s, limit) >= 28
  {
    Shifted(a, b, s, limit);
    Rounded(Place(a, b, s, limit), s, limit);
  }

  lemma ShortAxisAround(m: real, d: real, s: real, limit: int)
    requires 0.0 < d <= s < 28.0 <= limit as real
    ensures m == 14.0 && s > 26.0 ==> Pixels(m - d / 2.0, m + d / 2.0, s, limit) >= 28
    ensures m == s / 2.0 && s <= 27.0 ==> Pixels(m - d / 2.0, m + d / 2.0, s, limit) < 28
  {
  }

  /** Without room the long axis of the image limits the target, whose smaller side stays below
      28; the aspect bound is no matter then. */
  lemma TargetWithoutRoom(w: real, h: real, width: int, height: int)
    requires SmallSides(w, h) && w <= width as real && h <= height as real && width >= 28 && height >= 28
    requires !Room(w, h, width, height)
    ensures var (tw, th) := Target(w, h, width, height);
      if w >= h then tw == width as real && h <= th < 28.0 && tw <= 100.0 * th
      else th == height as real && w <= tw < 28.0 && th <= 100.0 * tw
  {
    hide SameShape, Scale;
    Enlarged28(w, h);
    TargetFits(w, h, width, height);
    var tw, th := Scale(w, Ratio(w, h)), Scale(h, Ratio(w, h));
    var sw, sh := Target(w, h, width, height).0, Target(w, h, width, height).1;
    Enlarge(w, h, MinReal(h, w), Ratio(w, h), tw, th);
    if w >= h {
      ScaledToFit(w, h, tw, th, width as real, width as real / tw, Scale(th, width as real / tw));
      AspectKept(w, h, sw, sh);
    } else {
      Swapped(w, h, tw, th);
      ScaledToFit(h, w, th, tw, height as real, height as real / th, Scale(tw, height as real / th));
      Swapped(w, h, sw, sh);
      AspectKept(h, w, sh, sw);
    }
  }

  lemma AspectKept(w: real, h: real, tw: real, th: real)
    requires SameShape(w, h, tw, th) && 0.0 < h && w <= 100.0 * h && 0.0 < th
    ensures tw <= 100.0 * th
  {
    RealProduct(th, 100.0 * h - w);
    assert th * (100.0 * h - w) == 100.0 * (th * h) - th * w;
    Sign(tw - 100.0 * th, h);
    assert (tw - 100.0 * th) * h == tw * h - 100.0 * (th * h);
  }

  /** The smaller side of the target. */
  function ShortSide(w: real, h: real, width: int, height: int): real
    requires MinReal(h, w) > 0.0 && width >= 0 && height >= 0
  {
    MinReal(Target(w, h, width, height).1, Target(w, h, width, height).0)
  }

  /** The pixels of that side, for a box in its place. */
  function ShortPixels(c: Box, width: int, height: int): int
    requires SmallSides(Width(c), Height(c)) && Inside(c, width, height)
  {
    var (tw, th) := Target(Width(c), Height(c), width, height);
    if Width(c) >= Height(c) then Pixels(c.top, c.bottom, th, height) else Pixels(c.left, c.right, tw, width)
  }

  lemma EnlargementSides(c: Box, width: int, height: int)
    requires SmallSides(Width(c), Height(c)) && Inside(c, width, height)
    ensures var r := Enlargement(c, width, height);
      var (tw, th) := Target(Width(c), Height(c), width, height);
      && OnGrid(r)
      && Width(r) == Pixels(c.left, c.right, tw, width) as real && Height(r) == Pixels(c.top, c.bottom, th, height) as real
  {
    hide Target;
  }

  lemma GridSides(r: Box, w: int, h: int)
    requires OnGrid(r) && Width(r) == w as real && Height(r) == h as real
    ensures LargeEnough(r) <==> w >= 28 && h >= 28
  {
  }

  /** In an image without room a small request is refused exactly when the image is smaller than
      28 by 28 or the smaller side of the target is rounded to fewer than 28 pixels. */
  lemma WithoutRoom(c: Box, width: int, height: int)
    requires SmallSides(Width(c), Height(c)) && Inside(c, width, height) && !Room(Width(c), Height(c), width, height)
    ensures Resize(c, width, height).Some? <==> width >= 28 && height >= 28 && ShortPixels(c, width, height) >= 28
  {
    hide Target, OnGrid, Pixels, LargeEnough, Enlargement, Room;
    var w, h := Width(c), Height(c);
    var (tw, th) := Target(w, h, width, height);
    assert Clamp(c, width, height) == c;
    var r := Enlargement(c, width, height);
    var m, n := Pixels(c.left, c.right, tw, width), Pixels(c.top, c.bottom, th, height);
    TargetFits(w, h, width, height);
    EnlargementSides(c, width, height);
    GridSides(r, m, n);
    PixelsInside(c.left, c.right, tw, width);
    PixelsInside(c.top, c.bottom, th, height);
    if width >= 28 && height >= 28 {
      TargetWithoutRoom(w, h, width, height);
      if w >= h {
        WholeAxis(c.left, c.right, width);
        ShortAxis(c.top, c.bottom, th, height);
      } else {
        WholeAxis(c.top, c.bottom, height);
        ShortAxis(c.left, c.right, tw, width);
      }
    }
  }

  lemma PixelsInside(a: real, b: real, s: real, limit: int)
    requires 0.0 <= a < b <= limit as real && b - a <= s <= limit as real
    ensures Pixels(a, b, s, limit) <= limit
  {
    Shifted(a, b, s, limit);
    Rounded(Place(a, b, s, limit), s, limit);
  }

  ghost predicate HasSides(c: Box, w: real, h: real, width: int, height: int) {
    Width(c) == w && Height(c) == h && Inside(c, width, height)
  }

  /** The box whose short axis lies around m and whose long one is in the middle of the image. */
  function Centred(w: real, h: real, width: int, height: int, m: real): Box {
    if w >= h then Around(width as real / 2.0, m, w, h) else Around(m, height as real / 2.0, w, h)
  }

  lemma CentredPixels(w: real, h: real, width: int, height: int, m: real)
    requires SmallSides(w, h) && w <= width as real && h <= height as real && width >= 28 && height >= 28
    requires !Room(w, h, width, height) && (m == 14.0 || m == ShortSide(w, h, width, height) / 2.0)
    ensures var c := Centred(w, h, width, height, m);
      && HasSides(c, w, h, width, height)
      && (m == 14.0 && ShortSide(w, h, width, height) > 26.0 ==> ShortPixels(c, width, height) >= 28)
      && (m != 14.0 && ShortSide(w, h, width, height) <= 27.0 ==> ShortPixels(c, width, height) < 28)
  {
    hide Target, Pixels, Room;
    var (tw, th) := Target(w, h, width, height);
    TargetWithoutRoom(w, h, width, height);
    if w >= h { ShortAxisAround(m, h, th, height); } else { ShortAxisAround(m, w, tw, width); }
  }

  lemma AnyPixels(c: Box, width: int, height: int)
    requires SmallSides(Width(c), Height(c)) && Inside(c, width, height) && width >= 28 && height >= 28
    requires !Room(Width(c), Height(c), width, height)
    ensures var short := ShortSide(Width(c), Height(c), width, height);
      && (short > 27.0 ==> ShortPixels(c, width, height) >= 28)
      && (short <= 26.0 ==> ShortPixels(c, width, height) < 28)
  {
    hide Target, Pixels, Room;
    var (tw, th) := Target(Width(c), Height(c), width, height);
    TargetWithoutRoom(Width(c), Height(c), width, height);
    if Width(c) >= Height(c) {
      ShortAxis(c.top, c.bottom, th, height);
    } else {
      ShortAxis(c.left, c.right, tw, width);
    }
  }

  /** Small requests of one size, in one image without room for their enlargement, are never
      refused exactly when the target's smaller side is more than 27, and always refused exactly
      when it is at most 26 or the image is smaller than 28 by 28; in between it depends on the
      place. */
  lemma WithoutRoomIff(w: real, h: real, width: int, height: int)
    requires SmallSides(w, h) && w <= width as real && h <= height as real && !Room(w, h, width, height)
    ensures (forall c: Box :: HasSides(c, w, h, width, height) ==> Resize(c, width, height).Some?)
            <==> width >= 28 && height >= 28 && ShortSide(w, h, width, height) > 27.0
    ensures (forall c: Box :: HasSides(c, w, h, width, height) ==> Resize(c, width, height).None?)
            <==> !(width >= 28 && height >= 28 && ShortSide(w, h, width, height) > 26.0)
  {
    hide Target, Resize, ShortPixels, Room, ShortSide, Centred;
    forall c: Box | HasSides(c, w, h, width, height)
      ensures Resize(c, width, height).Some? <==> width >= 28 && height >= 28 && ShortPixels(c, width, height) >= 28
    {
      WithoutRoom(c, width, height);
    }
    if width >= 28 && height >= 28 {
      forall c: Box | HasSides(c, w, h, width, height)
        ensures ShortSide(w, h, width, height) > 27.0 ==> ShortPixels(c, width, height) >= 28
        ensures ShortSide(w, h, width, height) <= 26.0 ==> ShortPixels(c, width, height) < 28
      {
        AnyPixels(c, width, height);
      }
      CentredPixels(w, h, width, height, 14.0);
      CentredPixels(w, h, width, height, ShortSide(w, h, width, height) / 2.0);
      ShortBelow(w, h, width, height);
    } else {
      var c := Around(width as real / 2.0, height as real / 2.0, w, h);
      assert HasSides(c, w, h, width, height);
    }
  }

  lemma ShortBelow(w: real, h: real, width: int, height: int)
    requires SmallSides(w, h) && w <= width as real && h <= height as real && width >= 28 && height >= 28
    requires !Room(w, h, width, height)
    ensures ShortSide(w, h, width, height) < 28.0
  {
    hide Target, Room;
    TargetWithoutRoom(w, h, width, height);
  }

  /** In a 10000 by 28 image this request is exactly 100 to 1 and there is room for its
      enlargement of 2800 by 28, which starts at x = 3650.5; rounded outwards it is 2801 wide,
      beyond the aspect bound, and the request is refused. */
  lemma RefusedAtTheBound()
    ensures var b := Box(5000.5, 0.0, 5100.5, 1.0);
      && Inside(b, 10000, 28) && Proper(b) && Small(b) && Room(Width(b), Height(b), 10000, 28)
      && Enlargement(b, 10000, 28) == Box(3650.0, 0.0, 6451.0, 28.0)
      && Resize(b, 10000, 28) == None
  {
    var b := Box(5000.5, 0.0, 5100.5, 1.0);
    TargetWithRoom(100.0, 1.0, 10000, 28);
    assert (3650.5).Floor == 3650;
    assert (-6450.5).Floor == -6451;
    assert Clamp(b, 10000, 28) == b;
  }
}
