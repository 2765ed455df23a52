/** The overlay of src/components/AnnotationLayer.tsx as a pure mapping:
    the records of one page, in collection order, each turned into one shape
    descriptor after multiplying its stored geometry by the zoom `scale`.
    `fmt` stands for JavaScript's number-to-string conversion used in path
    strings. Styling (stroke width 2, cursor, pointer events) and the click
    handler are not part of the descriptors. */
module Layer {
  import opened Types
  import opened Utils

  /** One SVG element, or `NoShape` where the component renders `null`.
      Every drawn shape is keyed by its record's id. */
  datatype Shape =
    | Rect(key: string, x: real, y: real, width: real, height: real, fill: Option<string>, stroke: Option<string>)
    | Line(key: string, x1: real, y1: real, x2: real, y2: real, stroke: Option<string>)
    | Path(key: string, d: string, stroke: Option<string>)
    | Box(key: string, x: real, y: real, width: real, height: real, textColor: string, text: string)
    | Circle(key: string, cx: real, cy: real, radius: real, circleFill: string, labelX: real, labelY: real)
    | NoShape

  /** Size of a text box whose scaled width or height is 0. */
  const DefaultTextWidth: real := 150.0
  const DefaultTextHeight: real := 50.0
  const CommentRadius: real := 10.0

  function ScaledRect(r: AnnotationRect, scale: real): AnnotationRect {
    AnnotationRect(r.x * scale, r.y * scale, r.width * scale, r.height * scale, r.pageIndex)
  }

  function ScalePoints(points: seq<Point>, scale: real): (r: seq<Point>)
    ensures |r| == |points|
    ensures forall k :: 0 <= k < |points| ==> r[k] == Point(points[k].x * scale, points[k].y * scale)
  {
    seq(|points|, k requires 0 <= k < |points| => Point(points[k].x * scale, points[k].y * scale))
  }

  /** The `switch` on the record's type. */
  function ShapeOf(a: Annotation, scale: real, fmt: real -> string): (s: Shape)
    ensures s.NoShape? <==>
      (a.kind in {Highlighting, Pin} || (a.kind == Drawing && (a.points == None || |a.points.value| < 2)))
    ensures !s.NoShape? ==> s.key == a.id
    // filled box over the rect, or the same box outlined and unfilled
    ensures a.kind in {Highlight, Rectangle} ==>
      && s.Rect? && s.x == a.rect.x * scale && s.y == a.rect.y * scale
      && s.width == a.rect.width * scale && s.height == a.rect.height * scale
      && (a.kind == Highlight ==> s.fill == a.color && s.stroke == None)
      && (a.kind == Rectangle ==> s.fill == Some("none") && s.stroke == a.color)
    // a horizontal line across the rect's full width, at its bottom edge or its middle
    ensures a.kind in {Underline, Strikeout} ==>
      && s.Line? && s.stroke == a.color && s.y1 == s.y2
      && s.x1 == a.rect.x * scale && s.x2 == (a.rect.x + a.rect.width) * scale
      && (a.kind == Underline ==> s.y1 == (a.rect.y + a.rect.height) * scale)
      && (a.kind == Strikeout ==> s.y1 == (a.rect.y + a.rect.height / 2.0) * scale)
    ensures a.kind == Drawing && a.points.Some? && |a.points.value| >= 2 ==>
      s.Path? && s.d == SvgPath(fmt, ScalePoints(a.points.value, scale)) && s.stroke == a.color
    // text box at the rect origin; a zero side falls back to the default size
    ensures a.kind == Text ==>
      && s.Box? && s.x == a.rect.x * scale && s.y == a.rect.y * scale
      && s.width == (if a.rect.width == 0.0 || scale == 0.0 then DefaultTextWidth else a.rect.width * scale)
      && s.height == (if a.rect.height == 0.0 || scale == 0.0 then DefaultTextHeight else a.rect.height * scale)
      && s.textColor == OrElse(a.color, "#000") && s.text == OrElse(a.content, "")
    // marker centred on the rect origin
    ensures a.kind == Comment ==>
      && s.Circle? && s.cx == a.rect.x * scale && s.cy == a.rect.y * scale
      && s.radius == CommentRadius && s.circleFill == OrElse(a.color, "#FFC107")
      && s.labelX == s.cx && s.labelY == s.cy + 5.0
  {
    var r := ScaledRect(a.rect, scale);
    match a.kind
    case Highlight => Rect(a.id, r.x, r.y, r.width, r.height, a.color, None)
    case Underline => Line(a.id, r.x, r.y + r.height, r.x + r.width, r.y + r.height, a.color)
    case Strikeout => Line(a.id, r.x, r.y + r.height / 2.0, r.x + r.width, r.y + r.height / 2.0, a.color)
    case Rectangle => Rect(a.id, r.x, r.y, r.width, r.height, Some("none"), a.color)
    case Drawing =>
      if a.points.None? || |a.points.value| < 2 then NoShape
      else Path(a.id, SvgPath(fmt, ScalePoints(a.points.value, scale)), a.color)
    case Text =>
      Box(a.id, r.x, r.y,
          if r.width == 0.0 then DefaultTextWidth else r.width,
          if r.height == 0.0 then DefaultTextHeight else r.height,
          OrElse(a.color, "#000"), OrElse(a.content, ""))
    case Comment => Circle(a.id, r.x, r.y, CommentRadius, OrElse(a.color, "#FFC107"), r.x, r.y + 5.0)
    case _ => NoShape
  }

  /** The `filter` on the layer's page. */
  function PageFilter(annotations: seq<Annotation>, pageIndex: int): (r: seq<Annotation>)
    ensures |r| <= |annotations|
    ensures forall a :: a in r <==> a in annotations && a.pageIndex == pageIndex
  {
    if annotations == [] then []
    else (if annotations[0].pageIndex == pageIndex then [annotations[0]] else [])
         + PageFilter(annotations[1..], pageIndex)
  }

  /** The whole overlay of page `pageIndex`: at most one entry per record,
      and empty exactly when no record lies on that page. */
  function AnnotationLayer(annotations: seq<Annotation>, pageIndex: int, scale: real,
                           fmt: real -> string): (r: seq<Shape>)
    ensures |r| <= |annotations|
    ensures r == [] <==> forall a :: a in annotations ==> a.pageIndex != pageIndex
  {
    var onPage := PageFilter(annotations, pageIndex);
    assert onPage != [] ==> onPage[0] in onPage;
    seq(|onPage|, k requires 0 <= k < |onPage| => ShapeOf(onPage[k], scale, fmt))
  }

  /** The filter keeps collection order: it distributes over concatenation. */
  lemma {:induction false} PageFilterAppend(a: seq<Annotation>, b: seq<Annotation>, pageIndex: int)
    ensures PageFilter(a + b, pageIndex) == PageFilter(a, pageIndex) + PageFilter(b, pageIndex)
  {
    if a == [] {
      assert a + b == b;
    } else {
      assert (a + b)[0] == a[0];
      assert (a + b)[1..] == a[1..] + b;
      PageFilterAppend(a[1..], b, pageIndex);
    }
  }

  /** Appending a record to the collection leaves the overlay of every other
      page as it was, and adds its shape last to the overlay of its page. */
  lemma LayerAppend(annotations: seq<Annotation>, a: Annotation, pageIndex: int, scale: real,
                    fmt: real -> string)
    ensures a.pageIndex != pageIndex ==>
      AnnotationLayer(annotations + [a], pageIndex, scale, fmt) == AnnotationLayer(annotations, pageIndex, scale, fmt)
    ensures a.pageIndex == pageIndex ==>
      AnnotationLayer(annotations + [a], pageIndex, scale, fmt)
        == AnnotationLayer(annotations, pageIndex, scale, fmt) + [ShapeOf(a, scale, fmt)]
  {
    PageFilterAppend(annotations, [a], pageIndex);
    assert [a][1..] == [];
  }

  /** Every record of the page is drawn in the overlay, and every entry of
      the overlay is the shape of some record of that page: records of other
      pages contribute nothing. */
  lemma LayerEntries(annotations: seq<Annotation>, pageIndex: int, scale: real, fmt: real -> string)
    ensures forall a :: a in annotations && a.pageIndex == pageIndex ==>
      ShapeOf(a, scale, fmt) in AnnotationLayer(annotations, pageIndex, scale, fmt)
    ensures forall s :: s in AnnotationLayer(annotations, pageIndex, scale, fmt) ==>
      exists a :: a in annotations && a.pageIndex == pageIndex && s == ShapeOf(a, scale, fmt)
  {
    var onPage := PageFilter(annotations, pageIndex);
    var layer := AnnotationLayer(annotations, pageIndex, scale, fmt);
    forall a | a in annotations && a.pageIndex == pageIndex
      ensures ShapeOf(a, scale, fmt) in layer
    {
      var k :| 0 <= k < |onPage| && onPage[k] == a;
      assert layer[k] == ShapeOf(a, scale, fmt);
    }
    forall s | s in layer
      ensures exists a :: a in annotations && a.pageIndex == pageIndex && s == ShapeOf(a, scale, fmt)
    {
      var k :| 0 <= k < |layer| && layer[k] == s;
      assert onPage[k] in onPage;
    }
  }

  /** A drawn stroke of n >= 2 points is a path with one move-to and n - 1
      line-tos. */
  lemma DrawingPathShape(a: Annotation, scale: real, fmt: real -> string)
    requires NumeralText(fmt)
    requires a.kind == Drawing && a.points.Some? && |a.points.value| >= 2
    ensures ShapeOf(a, scale, fmt).Path?
    ensures Count(ShapeOf(a, scale, fmt).d, 'M') == 1
    ensures Count(ShapeOf(a, scale, fmt).d, 'L') == |a.points.value| - 1
  {
    SvgPathShape(fmt, ScalePoints(a.points.value, scale));
  }
}
