/** Cropping an icon to its visible part and resampling that part into the middle of a transparent square. */
module Icon {
  import opened Wrappers

  type u32 = x: nat | x < 0x1_0000_0000
  type byte = x: nat | x < 256

  const APP_ICON_PADDING: u32 := 6
  const APP_ICON_ALPHA_THRESHOLD: byte := 8

  // ----- Pixels -----

  /** The number of the pixel in column x of row y. */
  function Place(x: nat, y: nat, width: nat): nat {
    y * width + x
  }

  /** The four bytes of a pixel. */
  function PixelOf(rgba: seq<byte>, place: nat): seq<byte> {
    if 4 * place + 4 <= |rgba| then rgba[4 * place..4 * place + 4] else []
  }

  lemma PlaceInside(x: nat, y: nat, width: nat, height: nat)
    requires x < width && y < height
    ensures Place(x, y, width) < width * height
  {
    assert (y + 1) * width <= height * width;
  }

  lemma PlaceApart(x: nat, y: nat, u: nat, v: nat, width: nat)
    requires x < width && u < width && (x != u || y != v)
    ensures Place(x, y, width) != Place(u, v, width)
  {
    if y < v {
      assert (y + 1) * width <= v * width;
    } else if v < y {
      assert (v + 1) * width <= y * width;
    }
  }

  // ----- The visible part -----

  predicate Visible(rgba: seq<byte>, width: nat, x: nat, y: nat) {
    var alphaIndex := Place(x, y, width) * 4 + 3;
    alphaIndex < |rgba| && rgba[alphaIndex] > APP_ICON_ALPHA_THRESHOLD
  }

  /** A pixel is visible if its fourth byte is there and exceeds 8; rows follow one another without a gap. */
  lemma VisibleMeans(rgba: seq<byte>, width: nat, x: nat, y: nat)
    ensures Visible(rgba, width, x, y) <==>
            |PixelOf(rgba, y * width + x)| == 4 && PixelOf(rgba, y * width + x)[3] > 8
  {
    var place := y * width + x;
    if 4 * place + 4 <= |rgba| {
      assert PixelOf(rgba, place)[3] == rgba[4 * place + 3];
    }
  }

  datatype Box = Box(x: nat, y: nat, width: nat, height: nat)

  predicate Contains(b: Box, x: nat, y: nat) {
    b.x <= x < b.x + b.width && b.y <= y < b.y + b.height
  }

  predicate Within(b: Box, c: Box) {
    c.x <= b.x && b.x + b.width <= c.x + c.width && c.y <= b.y && b.y + b.height <= c.y + c.height
  }

  ghost predicate HoldsVisible(rgba: seq<byte>, width: nat, height: nat, b: Box) {
    forall x: nat, y: nat :: x < width && y < height && Visible(rgba, width, x, y) ==> Contains(b, x, y)
  }

  ghost predicate AnyVisible(rgba: seq<byte>, width: nat, height: nat) {
    exists x: nat, y: nat :: x < width && y < height && Visible(rgba, width, x, y)
  }

  /** The least rectangle that holds every visible pixel of the picture; it is not empty and inside the picture. */
  ghost predicate IsVisibleBox(rgba: seq<byte>, width: nat, height: nat, b: Box) {
    && b.width > 0 && b.height > 0 && Within(b, Box(0, 0, width, height))
    && HoldsVisible(rgba, width, height, b)
    && forall c: Box :: HoldsVisible(rgba, width, height, c) ==> Within(b, c)
  }

  /** A box whose four sides each touch a visible pixel is the least one. */
  lemma TouchingBoxIsLeast(rgba: seq<byte>, width: nat, height: nat, b: Box, left: nat, right: nat, top: nat, bottom: nat)
    requires HoldsVisible(rgba, width, height, b) && b.width > 0 && b.height > 0
    requires Within(b, Box(0, 0, width, height))
    requires Contains(b, b.x, left) && Visible(rgba, width, b.x, left)
    requires Contains(b, b.x + b.width - 1, right) && Visible(rgba, width, b.x + b.width - 1, right)
    requires Contains(b, top, b.y) && Visible(rgba, width, top, b.y)
    requires Contains(b, bottom, b.y + b.height - 1) && Visible(rgba, width, bottom, b.y + b.height - 1)
    ensures IsVisibleBox(rgba, width, height, b)
  {
    hide Visible;
    forall c: Box | HoldsVisible(rgba, width, height, c) ensures Within(b, c) {
      assert Contains(c, b.x, left);
      assert Contains(c, b.x + b.width - 1, right);
      assert Contains(c, top, b.y);
      assert Contains(c, bottom, b.y + b.height - 1);
    }
  }

  predicate Before(x: nat, y: nat, column: nat, row: nat) {
    y < row || (y == row && x < column)
  }

  function Min(a: nat, b: nat): nat { if a < b then a else b }
  function Max(a: nat, b: nat): nat { if a < b then b else a }

  method FindVisibleIconBounds(rgba: seq<byte>, width: u32, height: u32) returns (bounds: Option<Box>)
    requires width * height * 4 < 0x1_0000_0000
    ensures bounds.None? <==> !AnyVisible(rgba, width, height)
    ensures bounds.Some? ==> IsVisibleBox(rgba, width, height, bounds.value)
  {
    hide Visible, Place;
    var minX: nat, minY: nat, maxX: nat, maxY: nat := width, height, 0, 0;
    var found := false;
    ghost var left: nat, right: nat, top: nat, bottom: nat := 0, 0, 0, 0;
    for y := 0 to height
      invariant forall u: nat, v: nat :: u < width && v < y && Visible(rgba, width, u, v) ==>
                  found && minX <= u <= maxX && minY <= v <= maxY
      invariant found ==> minX <= maxX < width && minY <= maxY < height
      invariant found ==> minY <= left <= maxY && minY <= right <= maxY && minX <= top <= maxX && minX <= bottom <= maxX
      invariant found ==> Visible(rgba, width, minX, left) && Visible(rgba, width, maxX, right)
      invariant found ==> Visible(rgba, width, top, minY) && Visible(rgba, width, bottom, maxY)
      invariant !found ==> minX == width && minY == height && maxX == 0 && maxY == 0
    {
      for x := 0 to width
        invariant forall u: nat, v: nat :: u < width && Before(u, v, x, y) && Visible(rgba, width, u, v) ==>
                    found && minX <= u <= maxX && minY <= v <= maxY
        invariant found ==> minX <= maxX < width && minY <= maxY < height
        invariant found ==> minY <= left <= maxY && minY <= right <= maxY && minX <= top <= maxX && minX <= bottom <= maxX
        invariant found ==> Visible(rgba, width, minX, left) && Visible(rgba, width, maxX, right)
        invariant found ==> Visible(rgba, width, top, minY) && Visible(rgba, width, bottom, maxY)
        invariant !found ==> minX == width && minY == height && maxX == 0 && maxY == 0
      {
        PlaceInside(x, y, width, height);
        var alphaIndex: u32 := Place(x, y, width) * 4 + 3;
        var seen := IsSeen(rgba, width, x, y, alphaIndex);
        if seen {
          if !found || x < minX { left := y; }
          if !found || x > maxX { right := y; }
          if !found || y < minY { top := x; }
          if !found || y > maxY { bottom := x; }
          found := true;
          minX, minY, maxX, maxY := Min(minX, x), Min(minY, y), Max(maxX, x), Max(maxY, y);
        }
      }
    }
    if !found {
      return None;
    }
    var b := Box(minX, minY, maxX - minX + 1, maxY - minY + 1);
    TouchingBoxIsLeast(rgba, width, height, b, left, right, top, bottom);
    bounds := Some(b);
  }

  method IsSeen(rgba: seq<byte>, width: nat, ghost x: nat, ghost y: nat, alphaIndex: nat) returns (seen: bool)
    requires alphaIndex == Place(x, y, width) * 4 + 3
    ensures seen <==> Visible(rgba, width, x, y)
  {
    var alpha := if alphaIndex < |rgba| then rgba[alphaIndex] else 0;
    seen := !(alpha <= APP_ICON_ALPHA_THRESHOLD);
  }

  // ----- Resampling -----

  /** The row or column of the crop that is copied to position k of the fitted picture. */
  function Sample(k: nat, crop: nat, fitted: nat): nat
    requires fitted > 0
  {
    k * crop / fitted
  }

  lemma DivBounds(a: nat, d: nat)
    requires d > 0
    ensures a / d * d <= a < a / d * d + d
  {}

  lemma MulMono(a: nat, b: nat, d: nat)
    ensures a <= b ==> a * d <= b * d
  {}

  lemma DivAtMost(a: nat, d: nat, q: nat)
    requires d > 0 && a < (q + 1) * d
    ensures a / d <= q
  {
    DivBounds(a, d);
    MulMono(q + 1, a / d, d);
  }

  lemma DivAtLeast(a: nat, d: nat, q: nat)
    requires d > 0 && q * d <= a
    ensures q <= a / d
  {
    DivBounds(a, d);
    MulMono(a / d + 1, q, d);
  }

  /** Sampling stays inside the crop and keeps the order. */
  lemma SampleInOrder(j: nat, k: nat, crop: nat, fitted: nat)
    requires j <= k < fitted && crop > 0
    ensures Sample(j, crop, fitted) <= Sample(k, crop, fitted) < crop
  {
    hide Sample;
    SampleBounds(j, crop, fitted);
    SampleBounds(k, crop, fitted);
    MulMono(j, k, crop);
    MulMono(k + 1, fitted, crop);
    SampleMeets(j * crop, k * crop, fitted, crop);
  }

  lemma SampleBounds(k: nat, crop: nat, fitted: nat)
    requires fitted > 0
    ensures Sample(k, crop, fitted) == k * crop / fitted
  {}

  lemma DivBelow(a: nat, d: nat, q: nat)
    requires d > 0 && a < q * d
    ensures a / d < q
  {
    DivBounds(a, d);
    MulMono(q, a / d, d);
  }

  lemma DivMono(a: nat, b: nat, d: nat)
    requires a <= b && d > 0
    ensures a / d <= b / d
  {
    DivBounds(a, d);
    DivAtLeast(b, d, a / d);
  }

  lemma MulSwaps(a: nat, b: nat)
    ensures a * b == b * a
  {}

  lemma SampleMeets(a: nat, b: nat, d: nat, crop: nat)
    requires a <= b && d > 0 && b + crop <= d * crop && crop > 0
    ensures a / d <= b / d < crop
  {
    MulSwaps(d, crop);
    DivBelow(b, d, crop);
    DivMono(a, b, d);
  }

  /** The position that shows row or column c of the crop when there is room for all of them. */
  function ShownAt(c: nat, crop: nat, fitted: nat): nat
    requires crop > 0
  {
    (c * fitted + crop - 1) / crop
  }

  lemma ShownBounds(c: nat, crop: nat, fitted: nat)
    requires crop > 0
    ensures var k := ShownAt(c, crop, fitted); c * fitted <= k * crop < c * fitted + crop
  {
    DivBounds(c * fitted + crop - 1, crop);
  }

  lemma ShownIsSampled(c: nat, crop: nat, fitted: nat)
    requires c < crop <= fitted
    ensures ShownAt(c, crop, fitted) < fitted && Sample(ShownAt(c, crop, fitted), crop, fitted) == c
  {
    hide ShownAt;
    var k := ShownAt(c, crop, fitted);
    ShownBounds(c, crop, fitted);
    MulMono(c + 1, crop, fitted);
    assert (c + 1) * fitted == c * fitted + fitted;
    MulMono(fitted, k, crop);
    DivAtMost(k * crop, fitted, c);
    DivAtLeast(k * crop, fitted, c);
  }

  ghost predicate IsSampled(c: nat, crop: nat, fitted: nat)
    requires fitted > 0
  {
    exists k: nat :: k < fitted && Sample(k, crop, fitted) == c
  }

  ghost predicate SamplesAll(crop: nat, fitted: nat)
    requires fitted > 0
  {
    forall c: nat :: c < crop ==> IsSampled(c, crop, fitted)
  }

  function Samples(n: nat, crop: nat, fitted: nat): set<nat>
    requires fitted > 0
  {
    if n == 0 then {} else Samples(n - 1, crop, fitted) + {Sample(n - 1, crop, fitted)}
  }

  lemma {:induction false} SamplesAreFew(n: nat, crop: nat, fitted: nat)
    requires fitted > 0
    ensures |Samples(n, crop, fitted)| <= n
    ensures forall k: nat :: k < n ==> Sample(k, crop, fitted) in Samples(n, crop, fitted)
  {
    hide Sample;
    if n > 0 {
      SamplesAreFew(n - 1, crop, fitted);
    }
  }

  function Upto(n: nat): (s: set<nat>)
    ensures |s| == n && forall c: nat :: c in s <==> c < n
  {
    if n == 0 then {} else Upto(n - 1) + {n - 1}
  }

  lemma SubsetIsSmaller(a: set<nat>, b: set<nat>)
    requires a <= b
    ensures |a| <= |b|
  {
    assert b == a + (b - a);
  }

  /** Every row or column of the crop is sampled exactly if the fitted side is at least as long. */
  lemma SamplesAllIff(crop: nat, fitted: nat)
    requires crop > 0 && fitted > 0
    ensures SamplesAll(crop, fitted) <==> fitted >= crop
  {
    hide Sample, ShownAt;
    if fitted >= crop {
      forall c: nat | c < crop ensures IsSampled(c, crop, fitted) {
        ShownIsSampled(c, crop, fitted);
      }
    } else {
      SamplesAreFew(fitted, crop, fitted);
      if forall c: nat :: c < crop ==> c in Samples(fitted, crop, fitted) {
        SubsetIsSmaller(Upto(crop), Samples(fitted, crop, fitted));
        assert false;
      }
      var c: nat :| c < crop && c !in Samples(fitted, crop, fitted);
      assert !IsSampled(c, crop, fitted);
    }
  }

  // ----- The fitted icon -----

  /** Where the crop is taken from and where its fitted picture stands in the square. */
  datatype Layout = Layout(crop: Box, fittedWidth: nat, fittedHeight: nat, offsetX: nat, offsetY: nat)

  function ContentSize(size: nat): nat {
    Max(if size < APP_ICON_PADDING * 2 then 0 else size - APP_ICON_PADDING * 2, 1)
  }

  /** Six pixels stay free on every side of a large enough square. */
  lemma ContentLeavesMargin(l: Layout, width: nat, height: nat, size: nat)
    requires Sensible(l, width, height, size) && size > 12
    ensures l.offsetX >= 6 && l.offsetX + l.fittedWidth <= size - 6
    ensures l.offsetY >= 6 && l.offsetY + l.fittedHeight <= size - 6
  {}

  predicate Sensible(l: Layout, width: nat, height: nat, size: nat) {
    && l.crop.width > 0 && l.crop.height > 0 && Within(l.crop, Box(0, 0, width, height))
    && 0 < l.fittedWidth <= ContentSize(size) && 0 < l.fittedHeight <= ContentSize(size)
    && l.offsetX == (size - l.fittedWidth) / 2 && l.offsetY == (size - l.fittedHeight) / 2
    && l.offsetX + l.fittedWidth <= size && l.offsetY + l.fittedHeight <= size
  }

  predicate InContent(l: Layout, x: nat, y: nat) {
    l.offsetX <= x < l.offsetX + l.fittedWidth && l.offsetY <= y < l.offsetY + l.fittedHeight
  }

  function SourceX(l: Layout, x: nat): nat
    requires l.offsetX <= x && l.fittedWidth > 0
  {
    l.crop.x + Sample(x - l.offsetX, l.crop.width, l.fittedWidth)
  }

  function SourceY(l: Layout, y: nat): nat
    requires l.offsetY <= y && l.fittedHeight > 0
  {
    l.crop.y + Sample(y - l.offsetY, l.crop.height, l.fittedHeight)
  }

  const TRANSPARENT: seq<byte> := [0, 0, 0, 0]

  /** What pixel (x, y) of the square is: a copy of a pixel of the crop, or transparent. */
  function Expected(source: seq<byte>, width: nat, l: Layout, x: nat, y: nat): seq<byte> {
    if InContent(l, x, y) then PixelOf(source, Place(SourceX(l, x), SourceY(l, y), width)) else TRANSPARENT
  }

  ghost predicate IsFitted(target: seq<byte>, size: nat, source: seq<byte>, width: nat, l: Layout) {
    && |target| == 4 * (size * size)
    && forall x: nat, y: nat :: x < size && y < size ==> PixelOf(target, Place(x, y, size)) == Expected(source, width, l, x, y)
  }

  method CopyPixel(
    target: array<byte>, index: nat, ghost place: nat, source: seq<byte>, sourceIndex: nat, ghost sourcePlace: nat)
    requires index == 4 * place && sourceIndex == 4 * sourcePlace
    requires index + 4 <= target.Length && sourceIndex + 4 <= |source|
    modifies target
    ensures PixelOf(target[..], place) == PixelOf(source, sourcePlace)
    ensures forall p: nat :: p != place ==> PixelOf(target[..], p) == old(PixelOf(target[..], p))
  {
    ghost var was := target[..];
    forall i | 0 <= i < 4 {
      target[index + i] := source[sourceIndex + i];
    }
    assert target[4 * place..4 * place + 4] == source[4 * sourcePlace..4 * sourcePlace + 4];
    forall p: nat | p != place ensures PixelOf(target[..], p) == PixelOf(was, p) {
      if 4 * p + 4 <= target.Length {
        assert target[..][4 * p..4 * p + 4] == was[4 * p..4 * p + 4];
      }
    }
  }

  function Clamp(n: nat, limit: nat): nat {
    Min(Max(n, 1), limit)
  }

  /** Pixel (x, y) of the square once everything before that row and column of the fitted picture is copied. */
  function Partly(source: seq<byte>, width: nat, l: Layout, x: nat, y: nat, column: nat, row: nat): seq<byte> {
    if InContent(l, x, y) && Before(x - l.offsetX, y - l.offsetY, column, row) then Expected(source, width, l, x, y)
    else TRANSPARENT
  }

  ghost predicate IsPartly(target: seq<byte>, size: nat, source: seq<byte>, width: nat, l: Layout, column: nat, row: nat) {
    && |target| == 4 * (size * size)
    && forall x: nat, y: nat :: x < size && y < size ==>
         PixelOf(target, Place(x, y, size)) == Partly(source, width, l, x, y, column, row)
  }

  lemma NothingCopied(target: seq<byte>, size: nat, source: seq<byte>, width: nat, l: Layout)
    requires |target| == 4 * (size * size) && forall i :: 0 <= i < |target| ==> target[i] == 0
    ensures IsPartly(target, size, source, width, l, 0, 0)
  {
    hide Expected, Place;
    forall x: nat, y: nat | x < size && y < size
      ensures PixelOf(target, Place(x, y, size)) == Partly(source, width, l, x, y, 0, 0)
    {
      PlaceInside(x, y, size, size);
      assert PixelOf(target, Place(x, y, size)) == TRANSPARENT;
    }
  }

  lemma OnePixelCopied(
    before: seq<byte>, after: seq<byte>, size: nat, source: seq<byte>, width: nat, l: Layout, column: nat, row: nat)
    requires IsPartly(before, size, source, width, l, column, row) && |after| == |before|
    requires l.offsetX + l.fittedWidth <= size && l.offsetY + l.fittedHeight <= size
    requires column < l.fittedWidth && row < l.fittedHeight
    requires PixelOf(after, Place(l.offsetX + column, l.offsetY + row, size)) ==
             Expected(source, width, l, l.offsetX + column, l.offsetY + row)
    requires forall p: nat :: p != Place(l.offsetX + column, l.offsetY + row, size) ==> PixelOf(after, p) == PixelOf(before, p)
    ensures IsPartly(after, size, source, width, l, column + 1, row)
  {
    hide Expected, Place, PixelOf;
    forall x: nat, y: nat | x < size && y < size
      ensures PixelOf(after, Place(x, y, size)) == Partly(source, width, l, x, y, column + 1, row)
    {
      assert PixelOf(before, Place(x, y, size)) == Partly(source, width, l, x, y, column, row);
      if x != l.offsetX + column || y != l.offsetY + row {
        PlaceApart(x, y, l.offsetX + column, l.offsetY + row, size);
      }
    }
  }

  lemma RowFinished(target: seq<byte>, size: nat, source: seq<byte>, width: nat, l: Layout, row: nat)
    requires IsPartly(target, size, source, width, l, l.fittedWidth, row)
    ensures IsPartly(target, size, source, width, l, 0, row + 1)
  {
    hide Expected, Place, PixelOf;
    forall x: nat, y: nat | x < size && y < size
      ensures PixelOf(target, Place(x, y, size)) == Partly(source, width, l, x, y, 0, row + 1)
    {
      assert PixelOf(target, Place(x, y, size)) == Partly(source, width, l, x, y, l.fittedWidth, row);
    }
  }

  lemma AllFinished(target: seq<byte>, size: nat, source: seq<byte>, width: nat, l: Layout)
    requires IsPartly(target, size, source, width, l, 0, l.fittedHeight)
    ensures IsFitted(target, size, source, width, l)
  {
    hide Expected, Place, PixelOf;
    forall x: nat, y: nat | x < size && y < size
      ensures PixelOf(target, Place(x, y, size)) == Expected(source, width, l, x, y)
    {
      assert PixelOf(target, Place(x, y, size)) == Partly(source, width, l, x, y, 0, l.fittedHeight);
      OutsideIsTransparent(source, width, l, x, y);
    }
  }

  lemma OutsideIsTransparent(source: seq<byte>, width: nat, l: Layout, x: nat, y: nat)
    ensures !InContent(l, x, y) ==> Expected(source, width, l, x, y) == TRANSPARENT
  {}

  /** The sampled position is a pixel of the crop, hence of the picture, and its bytes are there. */
  lemma SourceInside(source: seq<byte>, width: nat, height: nat, size: nat, l: Layout, x: nat, y: nat)
    requires Sensible(l, width, height, size) && InContent(l, x, y) && |source| >= 4 * (width * height)
    ensures Contains(l.crop, SourceX(l, x), SourceY(l, y))
    ensures SourceX(l, x) < width && SourceY(l, y) < height
    ensures Place(SourceX(l, x), SourceY(l, y), width) < width * height
    ensures 4 * Place(SourceX(l, x), SourceY(l, y), width) + 4 <= |source|
  {
    hide Place, Sample;
    SampleInOrder(x - l.offsetX, x - l.offsetX, l.crop.width, l.fittedWidth);
    SampleInOrder(y - l.offsetY, y - l.offsetY, l.crop.height, l.fittedHeight);
    PlaceInside(SourceX(l, x), SourceY(l, y), width, height);
  }

  method CropOf(source: seq<byte>, width: u32, height: u32) returns (crop: Box)
    requires width > 0 && height > 0 && width * height * 4 < 0x1_0000_0000
    ensures crop.width > 0 && crop.height > 0 && Within(crop, Box(0, 0, width, height))
    ensures AnyVisible(source, width, height) ==> IsVisibleBox(source, width, height, crop)
    ensures !AnyVisible(source, width, height) ==> crop == Box(0, 0, width, height)
  {
    var bounds := FindVisibleIconBounds(source, width, height);
    crop := if bounds.Some? then bounds.value else Box(0, 0, width, height);
  }

  /**
   * The icon as a square. `scaled` gives the rounded sides of the crop scaled to the content size, before they are
   * clamped to it; whatever it gives, all index arithmetic stays within 32 bits and within the buffers.
   */
  method FitIconToSquare(source: seq<byte>, width: u32, height: u32, size: u32, scaled: (nat, nat) -> (nat, nat))
    returns (target: array<byte>, layout: Layout)
    requires width > 0 && height > 0 && size > 0
    requires width * height * 4 < 0x1_0000_0000 && size * size * 4 < 0x1_0000_0000
    requires |source| >= 4 * (width * height)
    ensures fresh(target)
    ensures Sensible(layout, width, height, size)
    ensures AnyVisible(source, width, height) ==> IsVisibleBox(source, width, height, layout.crop)
    ensures !AnyVisible(source, width, height) ==> layout.crop == Box(0, 0, width, height)
    ensures layout.fittedWidth == Clamp(scaled(layout.crop.width, layout.crop.height).0, ContentSize(size))
    ensures layout.fittedHeight == Clamp(scaled(layout.crop.width, layout.crop.height).1, ContentSize(size))
    ensures IsFitted(target[..], size, source, width, layout)
  {
    hide Place, Sample, Expected, PixelOf, IsPartly, IsFitted, AnyVisible, IsVisibleBox;
    var crop := CropOf(source, width, height);
    var contentSize: u32 := ContentSize(size);
    var rounded := scaled(crop.width, crop.height);
    var fittedWidth: u32, fittedHeight: u32 := Clamp(rounded.0, contentSize), Clamp(rounded.1, contentSize);
    var offsetX: u32, offsetY: u32 := (size - fittedWidth) / 2, (size - fittedHeight) / 2;
    layout := Layout(crop, fittedWidth, fittedHeight, offsetX, offsetY);
    target := new byte[4 * (size * size)](_ => 0);
    NothingCopied(target[..], size, source, width, layout);
    for y := 0 to fittedHeight
      invariant IsPartly(target[..], size, source, width, layout, 0, y)
    {
      for x := 0 to fittedWidth
        invariant IsPartly(target[..], size, source, width, layout, x, y)
      {
        CopySample(target, size, source, width, height, layout, x, y);
      }
      RowFinished(target[..], size, source, width, layout, y);
    }
    AllFinished(target[..], size, source, width, layout);
  }

  /** One step of the inner loop. */
  method CopySample(
    target: array<byte>, size: u32, source: seq<byte>, width: u32, height: u32, l: Layout, x: u32, y: u32)
    requires Sensible(l, width, height, size) && x < l.fittedWidth && y < l.fittedHeight
    requires width * height * 4 < 0x1_0000_0000 && size * size * 4 < 0x1_0000_0000
    requires |source| >= 4 * (width * height)
    requires IsPartly(target[..], size, source, width, l, x, y)
    modifies target
    ensures IsPartly(target[..], size, source, width, l, x + 1, y)
  {
    hide Place, Sample, PixelOf, IsPartly;
    assert target.Length == 4 * (size * size) by { PartlyLength(target[..], size, source, width, l, x, y); }
    ghost var was := target[..];
    assert x + l.offsetX - l.offsetX == x && y + l.offsetY - l.offsetY == y;
    SourceInside(source, width, height, size, l, x + l.offsetX, y + l.offsetY);
    PlaceInside(x + l.offsetX, y + l.offsetY, size, size);
    var sourceX: u32 := l.crop.x + Sample(x, l.crop.width, l.fittedWidth);
    var sourceY: u32 := l.crop.y + Sample(y, l.crop.height, l.fittedHeight);
    var sourceIndex: u32 := Place(sourceX, sourceY, width) * 4;
    var targetIndex: u32 := Place(x + l.offsetX, y + l.offsetY, size) * 4;
    CopyPixel(target, targetIndex, Place(x + l.offsetX, y + l.offsetY, size), source, sourceIndex, Place(sourceX, sourceY, width));
    OnePixelCopied(was, target[..], size, source, width, l, x, y);
  }

  lemma PartlyLength(target: seq<byte>, size: nat, source: seq<byte>, width: nat, l: Layout, column: nat, row: nat)
    requires IsPartly(target, size, source, width, l, column, row)
    ensures |target| == 4 * (size * size)
  {}

  // ----- What the square shows -----

  /**
   * Every pixel of the square is transparent or an exact copy of a pixel of the crop, and the copies stand in the
   * rows and columns of their originals.
   */
  lemma FittedInOrder(
    target: seq<byte>, size: nat, source: seq<byte>, width: nat, height: nat, l: Layout, x: nat, y: nat, u: nat, v: nat)
    requires IsFitted(target, size, source, width, l) && Sensible(l, width, height, size)
    requires |source| >= 4 * (width * height)
    requires x < size && y < size && u < size && v < size
    ensures !InContent(l, x, y) ==> PixelOf(target, Place(x, y, size)) == TRANSPARENT
    ensures InContent(l, x, y) ==>
              && Contains(l.crop, SourceX(l, x), SourceY(l, y))
              && PixelOf(target, Place(x, y, size)) == PixelOf(source, Place(SourceX(l, x), SourceY(l, y), width))
    ensures InContent(l, x, y) && InContent(l, u, v) && x <= u ==> SourceX(l, x) <= SourceX(l, u)
    ensures InContent(l, x, y) && InContent(l, u, v) && y <= v ==> SourceY(l, y) <= SourceY(l, v)
  {
    hide Place, Sample, PixelOf;
    assert PixelOf(target, Place(x, y, size)) == Expected(source, width, l, x, y);
    if InContent(l, x, y) {
      SourceInside(source, width, height, size, l, x, y);
      if InContent(l, u, v) && x <= u {
        SampleInOrder(x - l.offsetX, u - l.offsetX, l.crop.width, l.fittedWidth);
      }
      if InContent(l, u, v) && y <= v {
        SampleInOrder(y - l.offsetY, v - l.offsetY, l.crop.height, l.fittedHeight);
      }
    }
  }

  /** If neither side of the crop shrinks, every visible pixel of the picture is in the square. */
  lemma VisiblePixelsKept(
    target: seq<byte>, size: nat, source: seq<byte>, width: nat, height: nat, l: Layout, x: nat, y: nat)
    returns (u: nat, v: nat)
    requires IsFitted(target, size, source, width, l) && Sensible(l, width, height, size)
    requires IsVisibleBox(source, width, height, l.crop)
    requires l.crop.width <= l.fittedWidth && l.crop.height <= l.fittedHeight
    requires x < width && y < height && Visible(source, width, x, y)
    ensures u < size && v < size
    ensures PixelOf(target, Place(u, v, size)) == PixelOf(source, Place(x, y, width))
  {
    hide Place, Sample, ShownAt, PixelOf, Visible;
    assert Contains(l.crop, x, y);
    ShownIsSampled(x - l.crop.x, l.crop.width, l.fittedWidth);
    ShownIsSampled(y - l.crop.y, l.crop.height, l.fittedHeight);
    u := l.offsetX + ShownAt(x - l.crop.x, l.crop.width, l.fittedWidth);
    v := l.offsetY + ShownAt(y - l.crop.y, l.crop.height, l.fittedHeight);
    assert SourceX(l, u) == x && SourceY(l, v) == y;
    assert PixelOf(target, Place(u, v, size)) == Expected(source, width, l, u, v);
  }
}
