/** Coordinate scaling between the 512 by 512 reference canvas and an image's own
    pixel dimensions (`image_utils`), and the drawing pass of
    `generate_meme_from_image`. The float quotient `original / processed` is taken
    as the exact rational, and `int()` as truncation toward zero. */
module ImageScaling {
  import opened Base
  import opened Canvas

  /** The default `processed_dims`. */
  const ProcessedDims: (int, int) := (512, 512)

  /** The `ZeroDivisionError` of a zero processed dimension. */
  datatype ScaleError = ZeroDivision

  function Abs(n: int): nat
  {
    if n < 0 then -n else n
  }

  /** `int(a / b)` for the exact quotient: truncation toward zero. */
  function TruncDiv(a: int, b: int): (q: int)
    requires b != 0
    ensures Abs(q) * Abs(b) <= Abs(a) < Abs(q) * Abs(b) + Abs(b)
    ensures (a < 0) == (b < 0) ==> q >= 0
    ensures (a < 0) != (b < 0) ==> q <= 0
  {
    var m := Abs(a) / Abs(b);
    DivBracket(Abs(a), Abs(b));
    var q := if (a < 0) != (b < 0) then -m else m;
    TruncBracket(q, a, b);
    q
  }

  /** A value whose magnitude is the floor of |a| / |b| brackets the exact quotient. */
  lemma TruncBracket(q: int, a: int, b: int)
    requires b != 0 && Abs(q) == Abs(a) / Abs(b)
    ensures Abs(q) * Abs(b) <= Abs(a) < Abs(q) * Abs(b) + Abs(b)
  {
    DivBracket(Abs(a), Abs(b));
  }

  /** Euclidean division brackets its dividend. */
  lemma DivBracket(n: nat, d: int)
    requires d > 0
    ensures 0 <= n / d
    ensures (n / d) * d <= n < (n / d) * d + d
  {
    assert n == d * (n / d) + n % d;
  }

  lemma MulNonNegative(a: int, b: int)
    requires a >= 0 && b >= 0
    ensures a * b >= 0
  {
  }

  lemma AbsMul(a: int, b: int)
    ensures Abs(a * b) == Abs(a) * Abs(b)
  {
    if a < 0 && b < 0 {
      assert a * b == (-a) * (-b);
    } else if a < 0 {
      assert -(a * b) == (-a) * b;
    } else if b < 0 {
      assert -(a * b) == a * (-b);
    }
  }

  /** x * c <= y * c with c > 0 gives x <= y. */
  lemma CancelLe(x: int, y: int, c: int)
    requires c > 0 && x * c <= y * c
    ensures x <= y
  {
  }

  /** x * c < y * c with c > 0 gives x < y. */
  lemma CancelLt(x: int, y: int, c: int)
    requires c > 0 && x * c < y * c
    ensures x < y
  {
  }

  /** One coordinate `p` scaled by `original / processed`, then `int()`. */
  function ScaleAxis(p: int, original: int, processed: int): (r: int)
    requires processed != 0
    ensures 0 <= p && 0 <= original && 0 < processed ==>
      r * processed <= p * original < r * processed + processed
  {
    TruncDiv(p * original, processed)
  }

  /** `scale_coordinates(point, original_dims, processed_dims)`. */
  function ScaleCoordinates(point: (int, int), original: (int, int), processed: (int, int)): (r: Result<(int, int), ScaleError>)
    ensures r.Success? <==> processed.0 != 0 && processed.1 != 0
    ensures r.Success? ==>
      && r.value.0 == ScaleAxis(point.0, original.0, processed.0)
      && r.value.1 == ScaleAxis(point.1, original.1, processed.1)
  {
    if processed.0 == 0 || processed.1 == 0 then Failure(ZeroDivision)
    else Success((ScaleAxis(point.0, original.0, processed.0), ScaleAxis(point.1, original.1, processed.1)))
  }

  /** Scaling a coordinate by a ratio of one leaves it where it was. */
  lemma ScaleAxisIdentity(p: int, d: int)
    requires d != 0
    ensures ScaleAxis(p, d, d) == p
  {
    var q := ScaleAxis(p, d, d);
    AbsMul(p, d);
    assert Abs(q) * Abs(d) <= Abs(p) * Abs(d) < (Abs(q) + 1) * Abs(d);
    CancelLe(Abs(q), Abs(p), Abs(d));
    CancelLt(Abs(p), Abs(q) + 1, Abs(d));
    if p > 0 {
      assert (p * d < 0) == (d < 0) by {
        if d < 0 {
          assert p * -d > 0;
        } else {
          MulNonNegative(p, d);
        }
      }
    } else if p < 0 {
      assert (p * d < 0) != (d < 0) by {
        if d < 0 {
          assert -p * -d > 0;
        } else {
          assert -p * d > 0;
        }
      }
    }
  }

  /** `scale_coordinates` with equal dimensions returns the point unchanged. */
  lemma ScaleCoordinatesIdentity(point: (int, int), dims: (int, int))
    requires dims.0 != 0 && dims.1 != 0
    ensures ScaleCoordinates(point, dims, dims) == Success(point)
  {
    ScaleAxisIdentity(point.0, dims.0);
    ScaleAxisIdentity(point.1, dims.1);
  }

  /** a / b < c / d for rationals with non-zero denominators. */
  predicate RatioLess(a: int, b: int, c: int, d: int)
    requires b != 0 && d != 0
  {
    if (b > 0) == (d > 0) then a * d < c * b else a * d > c * b
  }

  /** `int(font_size * min(original[0] / processed[0], original[1] / processed[1]))`.
      Python's `min` keeps its first argument unless the second is strictly smaller. */
  function ScaleFontSize(fontSize: int, original: (int, int), processed: (int, int)): (size: int)
    requires processed.0 != 0 && processed.1 != 0
    ensures size == ScaleAxis(fontSize, original.0, processed.0) || size == ScaleAxis(fontSize, original.1, processed.1)
  {
    if RatioLess(original.1, processed.1, original.0, processed.0)
    then ScaleAxis(fontSize, original.1, processed.1)
    else ScaleAxis(fontSize, original.0, processed.0)
  }

  /** Truncated scaling is monotone in the ratio, for non-negative values. */
  lemma ScaleAxisMonotone(p: int, a: int, b: int, c: int, d: int)
    requires p >= 0 && a >= 0 && b > 0 && c >= 0 && d > 0
    requires a * d <= c * b
    ensures ScaleAxis(p, a, b) <= ScaleAxis(p, c, d)
  {
    MulNonNegative(p, a);
    MulNonNegative(p, c);
    FloorMonotone(p, a, b, c, d, ScaleAxis(p, a, b), ScaleAxis(p, c, d));
  }

  /** x <= y scaled by a non-negative k. */
  lemma MulLeRight(x: int, y: int, k: int)
    requires x <= y && k >= 0
    ensures x * k <= y * k
  {
    MulNonNegative(y - x, k);
    assert (y - x) * k == y * k - x * k;
  }

  /** The arithmetic behind monotonicity: u = floor(p*a/b) and v = floor(p*c/d) with
      a/b <= c/d give u <= v. */
  lemma FloorMonotone(p: int, a: int, b: int, c: int, d: int, u: int, v: int)
    requires p >= 0 && b > 0 && d > 0
    requires a * d <= c * b
    requires u * b <= p * a
    requires p * c < v * d + d
    ensures u <= v
  {
    MulLeRight(u * b, p * a, d);
    MulLeRight(a * d, c * b, p);
    assert (u * d) * b <= (p * c) * b;
    CancelLe(u * d, p * c, b);
    assert u * d < (v + 1) * d;
    CancelLt(u, v + 1, d);
  }

  /** The font size follows the smaller of the two axis ratios: for positive dimensions
      and a non-negative size it is the smaller of the two per-axis scalings. */
  lemma ScaleFontSizeIsMin(fontSize: int, original: (int, int), processed: (int, int))
    requires fontSize >= 0 && original.0 >= 0 && original.1 >= 0 && processed.0 > 0 && processed.1 > 0
    ensures var sx := ScaleAxis(fontSize, original.0, processed.0);
            var sy := ScaleAxis(fontSize, original.1, processed.1);
            ScaleFontSize(fontSize, original, processed) == if sx <= sy then sx else sy
  {
    if RatioLess(original.1, processed.1, original.0, processed.0) {
      ScaleAxisMonotone(fontSize, original.1, processed.1, original.0, processed.0);
    } else {
      ScaleAxisMonotone(fontSize, original.0, processed.0, original.1, processed.1);
    }
  }

  /** A text position as the analysis step gives it, and as `scale_positions` returns it:
      only these four keys are carried. */
  datatype TextPosition = TextPosition(x: int, y: int, fontSize: int, text: string)

  /** The loop body of `scale_positions`. */
  function ScalePosition(pos: TextPosition, original: (int, int), processed: (int, int)): TextPosition
    requires processed.0 != 0 && processed.1 != 0
  {
    var point := ScaleCoordinates((pos.x, pos.y), original, processed).value;
    TextPosition(point.0, point.1, ScaleFontSize(pos.fontSize, original, processed), pos.text)
  }

  function ScaleAll(positions: seq<TextPosition>, original: (int, int), processed: (int, int)): (r: seq<TextPosition>)
    requires processed.0 != 0 && processed.1 != 0
    ensures |r| == |positions|
    ensures forall i :: 0 <= i < |r| ==> r[i] == ScalePosition(positions[i], original, processed)
    decreases |positions|
  {
    if |positions| == 0 then []
    else [ScalePosition(positions[0], original, processed)] + ScaleAll(positions[1..], original, processed)
  }

  /** `scale_positions(positions, original_dims, processed_dims)`. The ratio for the
      font size is computed before the loop, so a zero processed dimension raises even
      for an empty list. */
  function ScalePositions(positions: seq<TextPosition>, original: (int, int), processed: (int, int)): (r: Result<seq<TextPosition>, ScaleError>)
    ensures r.Success? <==> processed.0 != 0 && processed.1 != 0
    ensures r.Success? ==>
      && |r.value| == |positions|
      && forall i :: 0 <= i < |positions| ==>
        && r.value[i].text == positions[i].text
        && ScaleCoordinates((positions[i].x, positions[i].y), original, processed) == Success((r.value[i].x, r.value[i].y))
        && r.value[i].fontSize == ScaleFontSize(positions[i].fontSize, original, processed)
  {
    if processed.0 == 0 || processed.1 == 0 then Failure(ZeroDivision)
    else Success(ScaleAll(positions, original, processed))
  }

  /** With equal dimensions nothing moves and no size changes. */
  lemma ScalePositionsIdentity(positions: seq<TextPosition>, dims: (int, int))
    requires dims.0 != 0 && dims.1 != 0
    ensures ScalePositions(positions, dims, dims) == Success(positions)
  {
    var r := ScalePositions(positions, dims, dims).value;
    forall i | 0 <= i < |positions|
      ensures r[i] == positions[i]
    {
      ScaleAxisIdentity(positions[i].x, dims.0);
      ScaleAxisIdentity(positions[i].y, dims.1);
      ScaleAxisIdentity(positions[i].fontSize, dims.0);
      ScaleAxisIdentity(positions[i].fontSize, dims.1);
    }
    assert r == positions;
  }

  /** A 512 by 512 layout on a 1024 by 512 image keeps a font size of 40 (the smaller
      ratio is 1), while x doubles. */
  lemma FontSizeExample()
    ensures ScalePositions([TextPosition(100, 100, 40, "t")], (1024, 512), ProcessedDims)
         == Success([TextPosition(200, 100, 40, "t")])
  {
    assert ScaleAxis(100, 1024, 512) == 200;
    assert ScaleAxis(100, 512, 512) == 100;
    assert ScaleAxis(40, 512, 512) == 40;
    assert !RatioLess(1024, 512, 512, 512);
    assert RatioLess(512, 512, 1024, 512);
    assert ScaleFontSize(40, (1024, 512), ProcessedDims) == 40;
    var ps := [TextPosition(100, 100, 40, "t")];
    assert ScaleAll(ps, (1024, 512), ProcessedDims)[0] == TextPosition(200, 100, 40, "t");
    assert ScaleAll(ps, (1024, 512), ProcessedDims) == [TextPosition(200, 100, 40, "t")];
  }

  /** Scaling up and back down again is off by at most one pixel. */
  lemma {:induction false} RoundTripUp(p: int, target: int, reference: int)
    requires p >= 0 && 0 < reference <= target
    ensures var back := ScaleAxis(ScaleAxis(p, target, reference), reference, target);
            p - 1 <= back <= p
  {
    var r1 := ScaleAxis(p, target, reference);
    var r2 := ScaleAxis(r1, reference, target);
    assert r1 >= 0;
    MulNonNegative(p, target);
    assert r1 * reference <= p * target < r1 * reference + reference;
    assert r2 * target <= r1 * reference < r2 * target + target;
    CancelLe(r2, p, target);
    assert p * target - reference < r1 * reference;
    assert p * target - target <= p * target - reference;
    assert (p - 1) * target == p * target - target;
    assert (p - 1) * target < r2 * target + target;
    assert (p - 1) * target < (r2 + 1) * target;
    CancelLt(p - 1, r2 + 1, target);
  }

  /** Scaling down loses more: 3 on a 512 reference maps to 0 on a 100 pixel image,
      and 0 maps back to 0. */
  lemma RoundTripDownLoses()
    ensures ScaleAxis(ScaleAxis(3, 100, 512), 512, 100) == 0
  {
  }

  /** What `ImageFont.truetype("arial.ttf", size)` does: load, raise `OSError`, or raise
      anything else. */
  datatype FontLoad = Loaded(font: Font) | OsError | OtherError(message: string)

  /** A non-`OSError` failure escapes `generate_meme_from_image`. */
  datatype MemeError = FontLoadFailed(message: string)

  /** White fill with a two pixel black outline. */
  const MemeStyle: Style := Style([255, 255, 255], 2, [0, 0, 0])

  /** The font used for one position: an `OSError` falls back to the built-in font. */
  function MemeFont(arial: int -> FontLoad, builtin: Font, size: int): (font: Font)
    requires !arial(size).OtherError?
    ensures arial(size).Loaded? ==> font == arial(size).font
    ensures arial(size).OsError? ==> font == builtin
  {
    if arial(size).Loaded? then arial(size).font else builtin
  }

  /** One iteration of the drawing loop of `generate_meme_from_image`: the text is
      drawn at the position's y with its middle at the position's x. The text is taken
      to be a single line, so its `textbbox` width is the font's `width` of it. */
  function DrawOne(s: TextPosition, arial: int -> FontLoad, builtin: Font): (r: Result<seq<Draw>, MemeError>)
    ensures r.Failure? <==> arial(s.fontSize).OtherError?
    ensures r.Failure? ==> arial(s.fontSize) == OtherError(r.error.message)
    ensures r.Success? ==>
      var w := MemeFont(arial, builtin, s.fontSize).width(s.text);
      && |r.value| == 1
      && r.value[0].text == s.text
      && r.value[0].y == s.y
      && r.value[0].style == MemeStyle
      && (2 * r.value[0].x + w == 2 * s.x || 2 * r.value[0].x + w == 2 * s.x + 1)
  {
    match arial(s.fontSize)
    case OtherError(m) => Failure(FontLoadFailed(m))
    case _ =>
      var w := MemeFont(arial, builtin, s.fontSize).width(s.text);
      Success([Draw(s.x - w / 2, s.y, s.text, MemeStyle)])
  }

  /** The drawing loop of `generate_meme_from_image` over already scaled positions. */
  function DrawCentred(scaled: seq<TextPosition>, arial: int -> FontLoad, builtin: Font): (r: Result<seq<Draw>, MemeError>)
    ensures r.Success? <==> forall i :: 0 <= i < |scaled| ==> !arial(scaled[i].fontSize).OtherError?
    ensures r.Failure? ==>
      exists k ::
        && 0 <= k < |scaled|
        && arial(scaled[k].fontSize) == OtherError(r.error.message)
        && forall j :: 0 <= j < k ==> !arial(scaled[j].fontSize).OtherError?
    ensures r.Success? ==>
      && |r.value| == |scaled|
      && forall i :: 0 <= i < |scaled| ==>
        var w := MemeFont(arial, builtin, scaled[i].fontSize).width(scaled[i].text);
        && r.value[i].text == scaled[i].text
        && r.value[i].y == scaled[i].y
        && r.value[i].style == MemeStyle
        && (2 * r.value[i].x + w == 2 * scaled[i].x || 2 * r.value[i].x + w == 2 * scaled[i].x + 1)
  {
    var step := (s: TextPosition) => DrawOne(s, arial, builtin);
    var r := ChainMap(step, scaled);
    if r.Success? then
      ChainMapSingletons(step, scaled);
      r
    else r
  }

  /** `generate_meme_from_image(image_bytes, text_positions)` for an image of the given
      dimensions: positions are scaled from the reference canvas, then drawn centred on x. */
  function GenerateMemeFromImage(imageDims: (int, int), positions: seq<TextPosition>, arial: int -> FontLoad, builtin: Font): (r: Result<seq<Draw>, MemeError>)
    ensures r.Success? <==>
      forall i :: 0 <= i < |positions| ==> !arial(ScaleFontSize(positions[i].fontSize, imageDims, ProcessedDims)).OtherError?
    ensures r.Failure? ==>
      exists k ::
        && 0 <= k < |positions|
        && arial(ScaleFontSize(positions[k].fontSize, imageDims, ProcessedDims)) == OtherError(r.error.message)
        && forall j :: 0 <= j < k ==> !arial(ScaleFontSize(positions[j].fontSize, imageDims, ProcessedDims)).OtherError?
    ensures r.Success? ==>
      && |r.value| == |positions|
      && forall i :: 0 <= i < |positions| ==>
        && r.value[i].text == positions[i].text
        && r.value[i].y == ScaleAxis(positions[i].y, imageDims.1, ProcessedDims.1)
        && r.value[i].style == MemeStyle
        && var sx := ScaleAxis(positions[i].x, imageDims.0, ProcessedDims.0);
          var w := MemeFont(arial, builtin, ScaleFontSize(positions[i].fontSize, imageDims, ProcessedDims)).width(positions[i].text);
          2 * r.value[i].x + w == 2 * sx || 2 * r.value[i].x + w == 2 * sx + 1
  {
    var scaled := ScalePositions(positions, imageDims, ProcessedDims).value;
    assert forall i :: 0 <= i < |positions| ==> scaled[i].fontSize == ScaleFontSize(positions[i].fontSize, imageDims, ProcessedDims);
    DrawCentred(scaled, arial, builtin)
  }
}
