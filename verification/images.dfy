/** Fitting an image into its size limits by resizing and re-encoding. */
module Images {
  import opened Prelude
  import opened Text

  datatype Mime = Png | Jpeg | Gif | Webp

  datatype Options = Options(maxWidth: int, maxHeight: int, maxBase64Bytes: int, jpegQuality: int)

  const DEFAULT_OPTIONS := Options(2000, 2000, 4718592, 80)
  const JPEG_QUALITY_STEPS: seq<int> := [80, 85, 70, 55, 40]

  /** One encoding of an image. */
  datatype Encoded = Encoded(data: seq<Byte>, mime: Mime)

  datatype Format = AsPng | AsJpeg(quality: int)

  /** Opens the bytes, resizes to the given sides and encodes the result. */
  type Codec = (seq<Byte>, int, int, Format) -> seq<Byte>

  datatype ImageError = CannotBeResized | DivisionByZero

  function Max(a: int, b: int): int {
    if a < b then b else a
  }

  // ----- Rounding -----

  /** n / d rounded to the nearest integer, ties to even. */
  function RoundDown(n: int, d: int): (r: int)
    requires d > 0
    ensures 2 * n - d <= 2 * (d * r) <= 2 * n + d
    ensures 2 * (d * r) == 2 * n - d || 2 * (d * r) == 2 * n + d ==> r % 2 == 0
  {
    var q, rest := n / d, n % d;
    assert n == d * q + rest;
    assert d * (q + 1) == d * q + d;
    if 2 * rest < d || (2 * rest == d && q % 2 == 0) then q else q + 1
  }

  function Round(n: int, d: int): (r: int)
    requires d != 0
  {
    if d > 0 then RoundDown(n, d) else RoundDown(-n, -d)
  }

  lemma ProductNonNegative(d: int, x: int)
    requires d >= 0 && x >= 0
    ensures d * x >= 0
  {
  }

  lemma Cancel(d: int, x: int)
    requires d > 0 && d * x < d
    ensures x <= 0
  {
    assert d * (x - 1) == d * x - d;
    if x >= 1 {
      ProductNonNegative(d, x - 1);
    }
  }

  /** Rounding a part of k stays between 0 and k. */
  lemma RoundWithin(n: int, d: int, k: int)
    requires d > 0 && 0 <= n <= d * k
    ensures 0 <= RoundDown(n, d) <= k
  {
    var r := RoundDown(n, d);
    assert d * (r - k) == d * r - d * k;
    Cancel(d, r - k);
    assert d * -r == -(d * r);
    Cancel(d, -r);
  }

  // ----- Sizes -----

  datatype Size = Size(width: int, height: int)

  predicate Positive(size: Size) {
    size.width >= 1 && size.height >= 1
  }

  predicate InBox(size: Size, options: Options) {
    1 <= size.width <= options.maxWidth && 1 <= size.height <= options.maxHeight
  }

  /** Scales the height to the width limit. */
  function FitWidth(size: Size, options: Options): Size {
    if size.width > options.maxWidth && size.width != 0
    then Size(options.maxWidth, Round(size.height * options.maxWidth, size.width))
    else size
  }

  /** Scales the width to the height limit; a height of zero cannot be divided by. */
  function FitHeight(size: Size, options: Options): Result<Size, ImageError> {
    if size.height <= options.maxHeight then Ok(size)
    else if size.height == 0 then Err(DivisionByZero)
    else Ok(Size(Round(size.width * options.maxHeight, size.height), options.maxHeight))
  }

  function FitDimensions(size: Size, options: Options): Result<Size, ImageError>
    requires Positive(size)
  {
    match FitHeight(FitWidth(size, options), options)
    case Err(e) => Err(e)
    case Ok(fitted) => Ok(Size(Max(1, fitted.width), Max(1, fitted.height)))
  }

  function NextSide(side: int): int {
    if side == 1 then 1 else Max(1, 3 * side / 4)
  }

  function NextDimensions(size: Size): Size {
    var next := Size(NextSide(size.width), NextSide(size.height));
    if next == size then Size(1, 1) else next
  }

  // ----- Encodings -----

  /** The length of the base64 form: four characters for every started triple. */
  function Base64Size(data: seq<Byte>): int {
    4 * ((|data| + 2) / 3)
  }

  /** Four characters for every three octets, rounded up. */
  lemma Base64SizeIs(data: seq<Byte>)
    ensures var groups := Base64Size(data) / 4;
            Base64Size(data) == 4 * groups && 3 * groups - 2 <= |data| <= 3 * groups
  {
  }

  /** First occurrences, in order. */
  function Unique(values: seq<int>): seq<int> {
    if values == [] then []
    else
      var front, last := Unique(values[..|values| - 1]), values[|values| - 1];
      if last in front then front else front + [last]
  }

  lemma {:induction false} UniqueIs(values: seq<int>)
    ensures forall i, j :: 0 <= i < j < |Unique(values)| ==> Unique(values)[i] != Unique(values)[j]
    ensures forall v :: v in Unique(values) <==> v in values
    ensures values != [] ==> Unique(values) != [] && Unique(values)[0] == values[0]
  {
    if values != [] {
      UniqueIs(values[..|values| - 1]);
      Rejoin(values, |values| - 1);
    }
  }

  function Candidates(codec: Codec, data: seq<Byte>, size: Size, options: Options): (r: seq<Encoded>)
    ensures r != [] && r[0].mime == Png
  {
    var qualities := Unique([options.jpegQuality] + JPEG_QUALITY_STEPS);
    [Encoded(codec(data, size.width, size.height, AsPng), Png)]
    + seq(|qualities|, i requires 0 <= i < |qualities| =>
        Encoded(codec(data, size.width, size.height, AsJpeg(qualities[i])), Jpeg))
  }

  predicate Fits(data: seq<Byte>, options: Options) {
    Base64Size(data) < options.maxBase64Bytes
  }

  function SmallestIndex(candidates: seq<Encoded>): (k: nat)
    requires candidates != []
    ensures k < |candidates|
  {
    var n := |candidates| - 1;
    if n == 0 then 0
    else
      var k := SmallestIndex(candidates[..n]);
      if Base64Size(candidates[n].data) < Base64Size(candidates[k].data) then n else k
  }

  function FirstFitting(candidates: seq<Encoded>, options: Options): Option<Encoded> {
    if candidates == [] then None
    else if Fits(candidates[0].data, options) then Some(candidates[0])
    else FirstFitting(candidates[1..], options)
  }

  function Best(candidates: seq<Encoded>, options: Options): Encoded
    requires candidates != []
  {
    var first := FirstFitting(candidates, options);
    if first.Some? then first.value else candidates[SmallestIndex(candidates)]
  }

  // ----- The image and its processing, on values -----

  datatype Picture = Picture(encoded: Encoded, original: Size, size: Size, wasResized: bool)

  function Resized(codec: Codec, image: Picture, size: Size, options: Options): Picture {
    image.(encoded := Best(Candidates(codec, image.encoded.data, size, options), options),
           size := size, wasResized := true)
  }

  function Fitted(codec: Codec, image: Picture, options: Options): Result<Picture, ImageError>
    requires Positive(image.size)
  {
    match FitDimensions(image.size, options)
    case Err(e) => Err(e)
    case Ok(size) => if size == image.size then Ok(image) else Ok(Resized(codec, image, size, options))
  }

  function Shrunk(codec: Codec, image: Picture, options: Options): Picture {
    Resized(codec, image, NextDimensions(image.size), options)
  }

  /** The image after n shrinks. */
  function ShrunkTimes(codec: Codec, image: Picture, options: Options, n: nat): Picture {
    if n == 0 then image else Shrunk(codec, ShrunkTimes(codec, image, options, n - 1), options)
  }

  /** The image as loaded, or as transposed by its orientation tag. */
  function Oriented(image: Picture, transposed: Option<Picture>): Picture {
    if image.encoded.mime == Jpeg && transposed.Some?
    then image.(encoded := transposed.value.encoded, size := transposed.value.size, wasResized := false)
    else image
  }

  // ----- The processing loop -----

  class ProcessedImage {
    var encoded: Encoded
    const original: Size
    var size: Size
    var wasResized: bool

    function View(): Picture
      reads this
    {
      Picture(encoded, original, size, wasResized)
    }

    constructor (encoded: Encoded, size: Size)
      ensures View() == Picture(encoded, size, size, false)
    {
      this.encoded, this.original, this.size, this.wasResized := encoded, size, size, false;
    }

    method ApplyExifOrientation(transposed: Option<Picture>)
      modifies this
      ensures View() == Oriented(old(View()), transposed)
    {
      if encoded.mime != Jpeg {
        return;
      }
      if transposed.None? {
        return;
      }
      encoded, size, wasResized := transposed.value.encoded, transposed.value.size, false;
    }

    method Resize(codec: Codec, next: Size, options: Options)
      modifies this
      ensures View() == Resized(codec, old(View()), next, options)
    {
      var best := Best(Candidates(codec, encoded.data, next, options), options);
      encoded, size, wasResized := best, next, true;
    }

    method ResizeToFitDimensions(codec: Codec, options: Options) returns (failure: Option<ImageError>)
      requires Positive(size)
      modifies this
      ensures match Fitted(codec, old(View()), options)
              case Ok(fitted) => failure == None && View() == fitted
              case Err(e) => failure == Some(e) && View() == old(View())
    {
      var fit := FitDimensions(size, options);
      if fit.Err? {
        return Some(fit.error);
      }
      if fit.value != size {
        Resize(codec, fit.value, options);
      }
      return None;
    }

    /** One shrink. The guard against an unchanged size is never taken. */
    method ShrinkByFactor(codec: Codec, options: Options)
      requires Positive(size) && size != Size(1, 1)
      modifies this
      ensures View() == Shrunk(codec, old(View()), options)
      ensures Positive(size) && size.width + size.height < old(size.width + size.height)
    {
      var next := NextDimensions(size);
      if next == size {
        assert false;
      }
      Resize(codec, next, options);
    }
  }

  /** The first n images of the chain neither fit nor are a single pixel. */
  predicate TooLarge(codec: Codec, fitted: Picture, options: Options, n: nat) {
    forall k: nat :: k < n ==> MustShrink(ShrunkTimes(codec, fitted, options, k), options)
  }

  predicate MustShrink(image: Picture, options: Options) {
    !Fits(image.encoded.data, options) && image.size != Size(1, 1)
  }

  /** The answer is about the first image of the chain that fits or is a single pixel. */
  predicate AnswersAt(
    codec: Codec, fitted: Picture, options: Options, answer: Result<Picture, ImageError>, n: nat)
  {
    var last := ShrunkTimes(codec, fitted, options, n);
    && TooLarge(codec, fitted, options, n)
    && !MustShrink(last, options)
    && answer == if Fits(last.encoded.data, options) then Ok(last) else Err(CannotBeResized)
  }

  /** Shrinks until the encoding fits, or until a single pixel does not. */
  method ProcessImage(codec: Codec, encoded: Encoded, size: Size, transposed: Option<Picture>, options: Options)
    returns (answer: Result<Picture, ImageError>, shrinks: nat)
    requires Positive(size) && (transposed.Some? ==> Positive(transposed.value.size))
    ensures match Fitted(codec, Oriented(Picture(encoded, size, size, false), transposed), options)
            case Err(e) => answer == Err(e)
            case Ok(fitted) => AnswersAt(codec, fitted, options, answer, shrinks)
  {
    var image := new ProcessedImage(encoded, size);
    image.ApplyExifOrientation(transposed);
    var failure := image.ResizeToFitDimensions(codec, options);
    if failure.Some? {
      return Err(failure.value), 0;
    }
    answer, shrinks := ShrinkToFit(image, codec, options);
  }

  /** The loop. */
  method ShrinkToFit(image: ProcessedImage, codec: Codec, options: Options)
    returns (answer: Result<Picture, ImageError>, shrinks: nat)
    requires Positive(image.size)
    modifies image
    ensures AnswersAt(codec, old(image.View()), options, answer, shrinks)
  {
    shrinks := 0;
    while !Fits(image.encoded.data, options)
      invariant Positive(image.size)
      invariant image.View() == ShrunkTimes(codec, old(image.View()), options, shrinks)
      invariant TooLarge(codec, old(image.View()), options, shrinks)
      decreases image.size.width + image.size.height
    {
      if image.size == Size(1, 1) {
        return Err(CannotBeResized), shrinks;
      }
      image.ShrinkByFactor(codec, options);
      shrinks := shrinks + 1;
    }
    return Ok(image.View()), shrinks;
  }

  // ----- Fitting lands in the box -----

  lemma FitHeightWithin(size: Size, options: Options)
    requires options.maxHeight >= 1 && 0 <= size.width && 0 <= size.height
    ensures var r := FitHeight(size, options);
            && r.Ok? && 0 <= r.value.width <= size.width && 0 <= r.value.height <= options.maxHeight
            && (size.height > options.maxHeight ==> r.value.height == options.maxHeight)
            && (size.height <= options.maxHeight ==> r.value == size)
  {
    if size.height > options.maxHeight {
      var n := size.width * options.maxHeight;
      assert 0 <= n <= size.height * size.width;
      RoundWithin(n, size.height, size.width);
    }
  }

  lemma FitWidthWithin(size: Size, options: Options)
    requires options.maxWidth >= 1 && Positive(size)
    ensures var r := FitWidth(size, options);
            && 1 <= r.width <= options.maxWidth && 0 <= r.height <= size.height
            && (size.width > options.maxWidth ==> r.width == options.maxWidth)
            && (size.width <= options.maxWidth ==> r == size)
  {
    if size.width > options.maxWidth {
      var n := size.height * options.maxWidth;
      assert 0 <= n <= size.width * size.height;
      RoundWithin(n, size.width, size.height);
    }
  }

  /** The fitted size is in the box exactly when the box holds a pixel. It is then
      the size itself if that fits, and otherwise it touches the box. */
  lemma FitLandsInTheBox(size: Size, options: Options)
    requires Positive(size)
    ensures var r := FitDimensions(size, options);
            && (r.Ok? && InBox(r.value, options) <==> options.maxWidth >= 1 && options.maxHeight >= 1)
            && (r.Ok? ==> Positive(r.value))
            && (InBox(size, options) ==> r == Ok(size))
            && (options.maxWidth >= 1 && options.maxHeight >= 1 && !InBox(size, options)
                ==> r.value.width == options.maxWidth || r.value.height == options.maxHeight)
  {
    if options.maxWidth >= 1 && options.maxHeight >= 1 {
      FitWidthWithin(size, options);
      FitHeightWithin(FitWidth(size, options), options);
    }
  }

  /** The side that n / d asks for, up to half a pixel; a side is never 0. */
  predicate HalfPixel(n: int, d: int, side: int) {
    if 2 * n <= d then side == 1 else -d <= 2 * (d * side - n) <= d
  }

  /** Scaling keeps the proportions up to half a pixel, also when scaling to the
      width is followed by scaling to the height. */
  lemma ProportionsKept(size: Size, options: Options)
    requires Positive(size) && options.maxWidth >= 1 && options.maxHeight >= 1
    ensures var r, wide := FitDimensions(size, options), FitWidth(size, options);
            && r.Ok?
            && (if size.width > options.maxWidth
                then wide.width == options.maxWidth
                     && HalfPixel(size.height * options.maxWidth, size.width, Max(1, wide.height))
                else wide == size)
            && (if wide.height > options.maxHeight
                then r.value.height == options.maxHeight
                     && HalfPixel(wide.width * options.maxHeight, wide.height, r.value.width)
                else r.value == Size(wide.width, Max(1, wide.height)))
  {
    hide RoundDown;
    FitWidthWithin(size, options);
    var wide := FitWidth(size, options);
    if size.width > options.maxWidth {
      RoundsHalfPixel(size.height * options.maxWidth, size.width);
    }
    if wide.height > options.maxHeight {
      FitHeightWithin(wide, options);
      ProductNonNegative(wide.width, options.maxHeight);
      RoundsHalfPixel(wide.width * options.maxHeight, wide.height);
    }
  }

  lemma RoundsHalfPixel(n: int, d: int)
    requires d > 0
    ensures HalfPixel(n, d, Max(1, RoundDown(n, d)))
  {
    var r := RoundDown(n, d);
    assert d * (r - 1) == d * r - d;
    assert d * -r == -(d * r);
    if 2 * n <= d {
      Cancel(d, r - 1);
    } else {
      Cancel(d, -r);
    }
  }

  // ----- Shrinking ends -----

  /** A side is left alone only when it is 1, so the size changes until it is
      1 by 1: neither guard against no progress can be reached from the loop. */
  lemma NextShrinks(size: Size)
    requires Positive(size)
    ensures Positive(NextDimensions(size))
    ensures NextDimensions(size) == Size(NextSide(size.width), NextSide(size.height))
    ensures NextDimensions(size) == size <==> size == Size(1, 1)
    ensures size != Size(1, 1)
        ==> NextDimensions(size).width + NextDimensions(size).height < size.width + size.height
  {
  }

  function SideAfter(side: int, n: nat): int {
    if n == 0 then side else NextSide(SideAfter(side, n - 1))
  }

  lemma {:induction false} SizeAfter(codec: Codec, image: Picture, options: Options, n: nat)
    requires Positive(image.size)
    ensures Positive(ShrunkTimes(codec, image, options, n).size)
    ensures ShrunkTimes(codec, image, options, n).size
         == Size(SideAfter(image.size.width, n), SideAfter(image.size.height, n))
  {
    if n > 0 {
      SizeAfter(codec, image, options, n - 1);
      NextShrinks(ShrunkTimes(codec, image, options, n - 1).size);
    }
  }

  function Pow(b: nat, n: nat): nat {
    if n == 0 then 1 else b * Pow(b, n - 1)
  }

  lemma QuarterOff(p: nat, q: nat, before: int, after: int, side: int)
    requires 4 * after <= 3 * before && p * before <= q * side
    ensures (4 * p) * after <= (3 * q) * side
  {
    ProductNonNegative(p, 3 * before - 4 * after);
    assert p * (3 * before - 4 * after) == 3 * (p * before) - (4 * p) * after;
    assert (3 * q) * side == 3 * (q * side);
  }

  /** Each shrink takes off at least a quarter, until the side is 1. */
  lemma {:induction false} SideBound(side: int, n: nat)
    requires side >= 1
    ensures SideAfter(side, n) >= 1
    ensures SideAfter(side, n) == 1 || Pow(4, n) * SideAfter(side, n) <= Pow(3, n) * side
  {
    if n > 0 {
      SideBound(side, n - 1);
      if SideAfter(side, n) != 1 {
        QuarterOff(Pow(4, n - 1), Pow(3, n - 1), SideAfter(side, n - 1), SideAfter(side, n), side);
      }
    }
  }

  /** When 3^n * side < 2 * 4^n, n shrinks make the side 1. */
  lemma SideReachesOne(side: int, n: nat)
    requires side >= 1 && Pow(3, n) * side < 2 * Pow(4, n)
    ensures SideAfter(side, n) == 1
  {
    SideBound(side, n);
    PowPositive(4, n);
    var p, after := Pow(4, n), SideAfter(side, n);
    assert p * (after - 1) == p * after - p;
    if after != 1 {
      Cancel(p, after - 1);
    }
  }

  lemma {:induction false} PowPositive(b: nat, n: nat)
    requires b >= 1
    ensures Pow(b, n) >= 1
  {
    if n > 0 {
      PowPositive(b, n - 1);
      assert b * Pow(b, n - 1) >= 1;
    }
  }

  lemma {:induction false} SideMonotone(a: int, b: int, n: nat)
    requires 1 <= a <= b
    ensures 1 <= SideAfter(a, n) <= SideAfter(b, n)
  {
    if n > 0 {
      SideMonotone(a, b, n - 1);
    }
  }

  /** From anywhere in the default box 23 shrinks reach a single pixel, and from
      its corner no fewer do. */
  lemma TwentyThreeShrinks(side: int)
    requires 1 <= side <= 2000
    ensures SideAfter(side, 23) == 1
    ensures SideAfter(2000, 22) == 2
  {
    CornerSides(22);
    CornerSides(23);
    SideMonotone(side, 2000, 23);
  }

  const CORNER_SIDES: seq<int> :=
    [2000, 1500, 1125, 843, 632, 474, 355, 266, 199, 149, 111, 83,
     62, 46, 34, 25, 18, 13, 9, 6, 4, 3, 2, 1]

  lemma {:induction false} CornerSides(n: nat)
    requires n < |CORNER_SIDES|
    ensures SideAfter(2000, n) == CORNER_SIDES[n]
  {
    hide NextSide;
    if n > 0 {
      CornerSides(n - 1);
      NextCorner(n);
    }
  }

  lemma NextCorner(n: nat)
    requires 0 < n < |CORNER_SIDES|
    ensures NextSide(CORNER_SIDES[n - 1]) == CORNER_SIDES[n]
  {
  }

  lemma {:induction false} SideShrinks(side: int, n: nat)
    requires side >= 1
    ensures 1 <= SideAfter(side, n) <= side
  {
    if n > 0 {
      SideShrinks(side, n - 1);
    }
  }

  /** The loop's answer: an accepted image fits both limits; a rejected one was
      shrunk to a single pixel and never fitted; n shrinks are enough for a box
      with 3^n * side < 2 * 4^n, and 23 for the default box. */
  lemma AnswerIsSound(
    codec: Codec, fitted: Picture, options: Options, answer: Result<Picture, ImageError>, shrinks: nat, n: nat)
    requires InBox(fitted.size, options) && AnswersAt(codec, fitted, options, answer, shrinks)
    ensures answer.Ok? ==> Base64Size(answer.value.encoded.data) < options.maxBase64Bytes
    ensures answer.Ok? ==> InBox(answer.value.size, options)
    ensures answer.Err? ==> ShrunkTimes(codec, fitted, options, shrinks).size == Size(1, 1)
    ensures Pow(3, n) * options.maxWidth < 2 * Pow(4, n) && Pow(3, n) * options.maxHeight < 2 * Pow(4, n)
        ==> shrinks <= n
    ensures options.maxWidth <= DEFAULT_OPTIONS.maxWidth && options.maxHeight <= DEFAULT_OPTIONS.maxHeight
        ==> shrinks <= 23
  {
    SizeAfter(codec, fitted, options, shrinks);
    SideShrinks(fitted.size.width, shrinks);
    SideShrinks(fitted.size.height, shrinks);
    if Pow(3, n) * options.maxWidth < 2 * Pow(4, n) && Pow(3, n) * options.maxHeight < 2 * Pow(4, n) {
      SideReachesOne(options.maxWidth, n);
      SideReachesOne(options.maxHeight, n);
      EndsWithin(codec, fitted, options, answer, shrinks, n);
    }
    if options.maxWidth <= DEFAULT_OPTIONS.maxWidth && options.maxHeight <= DEFAULT_OPTIONS.maxHeight {
      TwentyThreeShrinks(options.maxWidth);
      TwentyThreeShrinks(options.maxHeight);
      EndsWithin(codec, fitted, options, answer, shrinks, 23);
    }
  }

  lemma EndsWithin(
    codec: Codec, fitted: Picture, options: Options, answer: Result<Picture, ImageError>, shrinks: nat, n: nat)
    requires InBox(fitted.size, options) && AnswersAt(codec, fitted, options, answer, shrinks)
    requires SideAfter(options.maxWidth, n) == 1 && SideAfter(options.maxHeight, n) == 1
    ensures shrinks <= n
  {
    SideMonotone(fitted.size.width, options.maxWidth, n);
    SideMonotone(fitted.size.height, options.maxHeight, n);
    SizeAfter(codec, fitted, options, n);
    assert !MustShrink(ShrunkTimes(codec, fitted, options, n), options);
  }

  // ----- The choice of an encoding -----

  /** The first candidate that fits, or else the first among the smallest. */
  lemma {:induction false} BestIs(candidates: seq<Encoded>, options: Options)
    requires candidates != []
    ensures exists k :: ChosenAt(candidates, options, k) && Best(candidates, options) == candidates[k]
  {
    FirstFittingIs(candidates, options);
    SmallestIs(candidates);
    if FirstFitting(candidates, options).Some? {
      var k :| FirstFitAt(candidates, options, k) && candidates[k] == FirstFitting(candidates, options).value;
      assert ChosenAt(candidates, options, k);
    } else {
      assert ChosenAt(candidates, options, SmallestIndex(candidates));
    }
  }

  /** A resized image is an encoding, at exactly the recorded sides, of what it was. */
  lemma ResizedIsEncoded(codec: Codec, image: Picture, size: Size, options: Options)
    ensures var r := Resized(codec, image, size, options);
            && r.size == size && r.wasResized && r.original == image.original
            && exists format :: EncodedAs(codec, image.encoded.data, size, options, format, r.encoded)
  {
    hide Base64Size;
    var candidates := Candidates(codec, image.encoded.data, size, options);
    BestIs(candidates, options);
    var k :| ChosenAt(candidates, options, k) && Best(candidates, options) == candidates[k];
    var format := CandidateIsEncoded(codec, image.encoded.data, size, options, k);
  }

  lemma CandidateIsEncoded(codec: Codec, data: seq<Byte>, size: Size, options: Options, k: nat)
    returns (format: Format)
    requires k < |Candidates(codec, data, size, options)|
    ensures EncodedAs(codec, data, size, options, format, Candidates(codec, data, size, options)[k])
  {
    hide Unique;
    var wanted := [options.jpegQuality] + JPEG_QUALITY_STEPS;
    var qualities := Unique(wanted);
    format := AsPng;
    if k > 0 {
      UniqueIs(wanted);
      assert qualities[k - 1] in wanted;
      format := AsJpeg(qualities[k - 1]);
    }
  }

  predicate EncodedAs(
    codec: Codec, data: seq<Byte>, size: Size, options: Options, format: Format, encoded: Encoded)
  {
    && encoded.data == codec(data, size.width, size.height, format)
    && encoded.mime == (if format.AsPng? then Png else Jpeg)
    && (format.AsJpeg? ==> format.quality == options.jpegQuality || format.quality in JPEG_QUALITY_STEPS)
  }

  predicate FirstFitAt(candidates: seq<Encoded>, options: Options, k: int) {
    && 0 <= k < |candidates| && Fits(candidates[k].data, options)
    && forall j :: 0 <= j < k ==> !Fits(candidates[j].data, options)
  }

  predicate SmallestAt(candidates: seq<Encoded>, k: int) {
    && 0 <= k < |candidates|
    && (forall j :: 0 <= j < |candidates| ==> Base64Size(candidates[k].data) <= Base64Size(candidates[j].data))
    && (forall j :: 0 <= j < k ==> Base64Size(candidates[k].data) < Base64Size(candidates[j].data))
  }

  predicate ChosenAt(candidates: seq<Encoded>, options: Options, k: int) {
    || FirstFitAt(candidates, options, k)
    || (SmallestAt(candidates, k) && forall j :: 0 <= j < |candidates| ==> !Fits(candidates[j].data, options))
  }

  lemma {:induction false} FirstFittingIs(candidates: seq<Encoded>, options: Options)
    ensures var r := FirstFitting(candidates, options);
            if r.Some? then exists k :: FirstFitAt(candidates, options, k) && candidates[k] == r.value
            else forall j :: 0 <= j < |candidates| ==> !Fits(candidates[j].data, options)
  {
    if candidates != [] {
      if Fits(candidates[0].data, options) {
        assert FirstFitAt(candidates, options, 0);
      } else {
        var rest := candidates[1..];
        FirstFittingIs(rest, options);
        if FirstFitting(rest, options).Some? {
          var k :| FirstFitAt(rest, options, k) && rest[k] == FirstFitting(rest, options).value;
          assert FirstFitAt(candidates, options, k + 1) by {
            forall j | 0 <= j < k + 1
              ensures !Fits(candidates[j].data, options)
            {
              assert j > 0 ==> candidates[j] == rest[j - 1];
            }
          }
        } else {
          forall j | 0 <= j < |candidates|
            ensures !Fits(candidates[j].data, options)
          {
            assert j > 0 ==> candidates[j] == rest[j - 1];
          }
        }
      }
    }
  }

  lemma SmallestExtends(front: seq<Encoded>, last: Encoded, k: int)
    requires SmallestAt(front, k)
    ensures SmallestAt(front + [last], if Base64Size(last.data) < Base64Size(front[k].data) then |front| else k)
  {
    hide Base64Size;
    var all := front + [last];
    assert all[|front|] == last && forall j :: 0 <= j < |front| ==> all[j] == front[j];
  }

  lemma {:induction false} SmallestIs(candidates: seq<Encoded>)
    requires candidates != []
    ensures SmallestAt(candidates, SmallestIndex(candidates))
  {
    hide Base64Size;
    var n := |candidates| - 1;
    if n > 0 {
      SmallestIs(candidates[..n]);
      SmallestExtends(candidates[..n], candidates[n], SmallestIndex(candidates[..n]));
      assert candidates == candidates[..n] + [candidates[n]];
    }
  }
}
