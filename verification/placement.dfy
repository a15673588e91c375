/**
 Watermark alignment and placement.

 The alignment toggle group's active index is turned into a 4-element
 indicator vector `[TL, TR, BL, BR]`, and one branch-free integer formula
 places the watermark's top-left corner from the image size, the watermark
 size and a margin. The batch path applies the formula to the decoded image
 with one margin on both axes; the preview path applies it to the rendered
 preview with the scaled margin. Sizes and margins arrive here as integers:
 the floating-point scaling that produces them is not part of this model.
 */
module Placement {

  /** The four corners a watermark can be anchored to, in toggle order. */
  datatype Corner = TopLeft | TopRight | BottomLeft | BottomRight {
    predicate IsLeft() { this == TopLeft || this == BottomLeft }
    predicate IsTop() { this == TopLeft || this == TopRight }
  }

  /** A point in pixels; `x` grows rightwards and `y` downwards. */
  datatype Point = Point(x: int, y: int)

  /** A width and a height in pixels. */
  datatype Size = Size(width: int, height: int)

  /** The rectangle the preview hands to the overlay widget. */
  datatype Rectangle = Rectangle(x: int, y: int, width: int, height: int)

  /** The position of a corner in the indicator vector. */
  function Slot(c: Corner): nat {
    match c
    case TopLeft => 0
    case TopRight => 1
    case BottomLeft => 2
    case BottomRight => 3
  }

  /** A 4-element vector of zeros and ones with a single 1. */
  predicate OneHot(v: seq<int>) {
    && |v| == 4
    && (forall i :: 0 <= i < 4 ==> v[i] == 0 || v[i] == 1)
    && v[0] + v[1] + v[2] + v[3] == 1
  }

  /** The indicator vector of a corner. */
  function Indicator(c: Corner): (v: seq<int>)
    ensures OneHot(v)
    ensures forall i :: 0 <= i < |v| ==> (v[i] == 1 <==> i == Slot(c))
  {
    var k := Slot(c);
    seq(4, i => if i == k then 1 else 0)
  }

  /** The corner selected by the toggle group's active index: the four
      toggles in order, and bottom right for any other index. */
  function CornerOfIndex(active: int): Corner {
    if active == 0 then TopLeft
    else if active == 1 then TopRight
    else if active == 2 then BottomLeft
    else BottomRight
  }

  /** The index-to-vector match of the alignment toggle group. */
  function AlignmentArray(active: int): (v: seq<int>)
    ensures OneHot(v)
    ensures 0 <= active < 4 ==> v[active] == 1
    ensures !(0 <= active < 4) ==> v[3] == 1
  {
    match active
    case 0 => [1, 0, 0, 0]
    case 1 => [0, 1, 0, 0]
    case 2 => [0, 0, 1, 0]
    case 3 => [0, 0, 0, 1]
    case _ => [0, 0, 0, 1]
  }

  /** The vector of an index is the indicator of the corner that index names. */
  lemma AlignmentArrayIsIndicator(active: int)
    ensures AlignmentArray(active) == Indicator(CornerOfIndex(active))
  {
  }

  /** Every one-hot vector is the indicator of exactly one corner. */
  lemma OneHotIsIndicator(v: seq<int>)
    requires OneHot(v)
    ensures exists c :: v == Indicator(c)
    ensures forall c, d :: v == Indicator(c) && v == Indicator(d) ==> c == d
  {
    var c := if v[0] == 1 then TopLeft else if v[1] == 1 then TopRight else if v[2] == 1 then BottomLeft else BottomRight;
    assert v == Indicator(c);
    forall c', d | v == Indicator(c') && v == Indicator(d)
      ensures c' == d
    {
      assert Indicator(c')[Slot(c')] == 1;
    }
  }

  /** Reference placement, by cases: against the near edge plus the margin,
      or against the far edge minus the watermark and the margin. */
  function Anchor(c: Corner, image: Size, mark: Size, mx: int, my: int): Point {
    Point(
      if c.IsLeft() then mx else image.width - mark.width - mx,
      if c.IsTop() then my else image.height - mark.height - my)
  }

  /** The branch-free formula shared by the batch and preview paths, on any
      4-element vector as the source accepts. */
  function Place(a: seq<int>, image: Size, mark: Size, mx: int, my: int): (p: Point)
    requires |a| == 4
    ensures forall c :: a == Indicator(c) ==> p == Anchor(c, image, mark, mx, my)
  {
    Point(
      (a[1] + a[3]) * (image.width - mark.width - mx) + (a[0] + a[2]) * mx,
      (a[2] + a[3]) * (image.height - mark.height - my) + (a[0] + a[1]) * my)
  }

  /** The watermark lies entirely inside the image. */
  predicate Inside(p: Point, image: Size, mark: Size) {
    && 0 <= p.x && p.x + mark.width <= image.width
    && 0 <= p.y && p.y + mark.height <= image.height
  }

  /** Distance from the watermark to the vertical image edge it is anchored to. */
  function HorizontalGap(c: Corner, p: Point, image: Size, mark: Size): int {
    if c.IsLeft() then p.x else image.width - (p.x + mark.width)
  }

  /** Distance from the watermark to the horizontal image edge it is anchored to. */
  function VerticalGap(c: Corner, p: Point, image: Size, mark: Size): int {
    if c.IsTop() then p.y else image.height - (p.y + mark.height)
  }

  /** Batch placement: the margin scaled to the image is used on both axes. */
  function BatchPosition(alignment: seq<int>, image: Size, mark: Size, margin: int): (p: Point)
    requires |alignment| == 4
    ensures forall c :: alignment == Indicator(c) ==>
      && HorizontalGap(c, p, image, mark) == margin
      && VerticalGap(c, p, image, mark) == margin
  {
    Place(alignment, image, mark, margin, margin)
  }

  /** Preview placement: the rendered preview size, the computed watermark
      size and the adjusted margin, the latter on both axes. */
  function PreviewRectangle(alignment: seq<int>, preview: Size, mark: Size, adjustedMargin: int): (r: Rectangle)
    requires |alignment| == 4
    ensures r.width == mark.width && r.height == mark.height
    ensures forall c :: alignment == Indicator(c) ==>
      && HorizontalGap(c, Point(r.x, r.y), preview, mark) == adjustedMargin
      && VerticalGap(c, Point(r.x, r.y), preview, mark) == adjustedMargin
  {
    var p := Place(alignment, preview, mark, adjustedMargin, adjustedMargin);
    Rectangle(p.x, p.y, mark.width, mark.height)
  }

  /** The four corner positions of the batch formula with margin `m`. */
  lemma CornerExactness(image: Size, mark: Size, m: int)
    ensures BatchPosition(Indicator(TopLeft), image, mark, m) == Point(m, m)
    ensures BatchPosition(Indicator(TopRight), image, mark, m) == Point(image.width - mark.width - m, m)
    ensures BatchPosition(Indicator(BottomLeft), image, mark, m) == Point(m, image.height - mark.height - m)
    ensures BatchPosition(Indicator(BottomRight), image, mark, m)
      == Point(image.width - mark.width - m, image.height - mark.height - m)
  {
  }

  /** At every corner, the placed watermark is inside the image exactly when
      the margin is non-negative and the watermark plus one margin fits on
      each axis. */
  lemma InsideIff(c: Corner, image: Size, mark: Size, m: int)
    ensures Inside(BatchPosition(Indicator(c), image, mark, m), image, mark)
      <==> 0 <= m && mark.width + m <= image.width && mark.height + m <= image.height
  {
  }

  /** With room for the watermark and a margin on both sides, any one-hot
      alignment places the watermark inside the image. */
  lemma InBounds(alignment: seq<int>, image: Size, mark: Size, m: int)
    requires OneHot(alignment)
    requires 0 <= m && mark.width + 2 * m <= image.width && mark.height + 2 * m <= image.height
    ensures Inside(BatchPosition(alignment, image, mark, m), image, mark)
  {
  }
}
