/** The pure helpers of src/utils.ts: the two-point rectangle, the polyline
    path string, the mode-to-type table, colour resolution and the
    standalone record constructor. */
module Utils {
  import opened Types

  function Min(a: real, b: real): real { if a <= b then a else b }

  function Max(a: real, b: real): real { if a <= b then b else a }

  function Abs(a: real): real { if a < 0.0 then -a else a }

  // ---------------------------------------------------------------------
  // Two-point rectangle

  /** The box spanned by the two corners of a drag gesture. */
  function CalculateRectFromPoints(start: Point, end: Point, pageIndex: int): (r: AnnotationRect)
    ensures r.width >= 0.0 && r.height >= 0.0
    ensures r.x <= start.x && r.x <= end.x && (r.x == start.x || r.x == end.x)
    ensures r.y <= start.y && r.y <= end.y && (r.y == start.y || r.y == end.y)
    ensures r.x + r.width >= start.x && r.x + r.width >= end.x
    ensures r.x + r.width == start.x || r.x + r.width == end.x
    ensures r.y + r.height >= start.y && r.y + r.height >= end.y
    ensures r.y + r.height == start.y || r.y + r.height == end.y
    ensures r.pageIndex == pageIndex
    ensures (r.width > 0.0 && r.height > 0.0) <==> (start.x != end.x && start.y != end.y)
  {
    AnnotationRect(Min(start.x, end.x), Min(start.y, end.y),
                   Abs(end.x - start.x), Abs(end.y - start.y), pageIndex)
  }

  /** The rectangle does not depend on which corner the drag started from. */
  lemma RectFromPointsSymmetric(p: Point, q: Point, pageIndex: int)
    ensures CalculateRectFromPoints(p, q, pageIndex) == CalculateRectFromPoints(q, p, pageIndex)
  {
  }

  // ---------------------------------------------------------------------
  // Polyline to SVG path

  /** What a number formatter must satisfy for the path to be readable:
      a numeral never contains a space or a path command letter. */
  ghost predicate NumeralText(fmt: real -> string) {
    forall r: real, k: int :: 0 <= k < |fmt(r)| ==> fmt(r)[k] != ' ' && fmt(r)[k] != 'L' && fmt(r)[k] != 'M'
  }

  function MoveTo(fmt: real -> string, p: Point): string {
    "M " + fmt(p.x) + " " + fmt(p.y)
  }

  function LineTo(fmt: real -> string, p: Point): string {
    " L " + fmt(p.x) + " " + fmt(p.y)
  }

  /** The line-to segments of `qs`, appended left to right. */
  function Segments(fmt: real -> string, qs: seq<Point>): string
    decreases |qs|
  {
    if qs == [] then "" else Segments(fmt, qs[..|qs| - 1]) + LineTo(fmt, qs[|qs| - 1])
  }

  /** Specification of `pointsToSvgPath`. */
  function SvgPath(fmt: real -> string, points: seq<Point>): string {
    if points == [] then "" else MoveTo(fmt, points[0]) + Segments(fmt, points[1..])
  }

  /** `pointsToSvgPath`: builds the path string in a loop; `fmt` stands for
      JavaScript's number-to-string conversion. */
  method PointsToSvgPath(fmt: real -> string, points: seq<Point>) returns (path: string)
    ensures path == SvgPath(fmt, points)
  {
    if |points| == 0 {
      return "";
    }
    path := "M " + fmt(points[0].x) + " " + fmt(points[0].y);
    var i := 1;
    while i < |points|
      invariant 1 <= i <= |points|
      invariant path == MoveTo(fmt, points[0]) + Segments(fmt, points[1..i])
    {
      assert points[1..i + 1][..i - 1] == points[1..i];
      path := path + " L " + fmt(points[i].x) + " " + fmt(points[i].y);
      i := i + 1;
    }
    assert points[1..i] == points[1..];
  }

  /** Number of occurrences of `c` in `s`. */
  function Count(s: string, c: char): nat {
    if s == [] then 0 else (if s[0] == c then 1 else 0) + Count(s[1..], c)
  }

  lemma {:induction false} CountAppend(a: string, b: string, c: char)
    ensures Count(a + b, c) == Count(a, c) + Count(b, c)
  {
    if a == [] {
      assert a + b == b;
    } else {
      assert (a + b)[1..] == a[1..] + b;
      CountAppend(a[1..], b, c);
    }
  }

  lemma {:induction false} CountAbsent(s: string, c: char)
    requires forall k :: 0 <= k < |s| ==> s[k] != c
    ensures Count(s, c) == 0
  {
    if s != [] {
      CountAbsent(s[1..], c);
    }
  }

  /** Segments of a concatenation are the segments of each part, in order. */
  lemma {:induction false} SegmentsAppend(fmt: real -> string, a: seq<Point>, b: seq<Point>)
    ensures Segments(fmt, a + b) == Segments(fmt, a) + Segments(fmt, b)
    decreases |b|
  {
    if b == [] {
      assert a + b == a;
    } else {
      assert (a + b)[..|a + b| - 1] == a + b[..|b| - 1];
      SegmentsAppend(fmt, a, b[..|b| - 1]);
    }
  }

  /** Character counts of one numeral-bearing segment. */
  lemma SegmentCounts(fmt: real -> string, p: Point)
    requires NumeralText(fmt)
    ensures Count(LineTo(fmt, p), 'L') == 1 && Count(LineTo(fmt, p), 'M') == 0
    ensures Count(LineTo(fmt, p), ' ') == 3
    ensures Count(MoveTo(fmt, p), 'L') == 0 && Count(MoveTo(fmt, p), 'M') == 1
    ensures Count(MoveTo(fmt, p), ' ') == 2
  {
    var sx, sy := fmt(p.x), fmt(p.y);
    forall c | c in {'L', 'M', ' '}
      ensures Count(sx, c) == 0 && Count(sy, c) == 0
    {
      CountAbsent(sx, c);
      CountAbsent(sy, c);
    }
    forall c | c in {'L', 'M', ' '}
      ensures Count(LineTo(fmt, p), c) == Count(" L ", c) + Count(sx, c) + Count(" ", c) + Count(sy, c)
      ensures Count(MoveTo(fmt, p), c) == Count("M ", c) + Count(sx, c) + Count(" ", c) + Count(sy, c)
    {
      CountAppend(" L " + sx + " ", sy, c);
      CountAppend(" L " + sx, " ", c);
      CountAppend(" L ", sx, c);
      CountAppend("M " + sx + " ", sy, c);
      CountAppend("M " + sx, " ", c);
      CountAppend("M ", sx, c);
    }
  }

  lemma {:induction false} SegmentsCounts(fmt: real -> string, qs: seq<Point>)
    requires NumeralText(fmt)
    ensures Count(Segments(fmt, qs), 'L') == |qs|
    ensures Count(Segments(fmt, qs), 'M') == 0
    ensures Count(Segments(fmt, qs), ' ') == 3 * |qs|
    decreases |qs|
  {
    if qs != [] {
      var last := qs[|qs| - 1];
      SegmentsCounts(fmt, qs[..|qs| - 1]);
      SegmentCounts(fmt, last);
      CountAppend(Segments(fmt, qs[..|qs| - 1]), LineTo(fmt, last), 'L');
      CountAppend(Segments(fmt, qs[..|qs| - 1]), LineTo(fmt, last), 'M');
      CountAppend(Segments(fmt, qs[..|qs| - 1]), LineTo(fmt, last), ' ');
    }
  }

  /** Shape of the path string: empty for no points; otherwise it opens with
      the move-to of the first point, followed by one line-to per further
      point in input order, so it holds exactly one `M`, exactly n - 1 `L`s
      and 3n - 1 separating spaces. */
  lemma SvgPathShape(fmt: real -> string, points: seq<Point>)
    requires NumeralText(fmt)
    ensures points == [] ==> SvgPath(fmt, points) == ""
    ensures points != [] ==> SvgPath(fmt, points)[..|MoveTo(fmt, points[0])|] == MoveTo(fmt, points[0])
    ensures points != [] ==> Count(SvgPath(fmt, points), 'M') == 1
    ensures points != [] ==> Count(SvgPath(fmt, points), 'L') == |points| - 1
    ensures points != [] ==> Count(SvgPath(fmt, points), ' ') == 3 * |points| - 1
  {
    if points != [] {
      SegmentCounts(fmt, points[0]);
      SegmentsCounts(fmt, points[1..]);
      CountAppend(MoveTo(fmt, points[0]), Segments(fmt, points[1..]), 'M');
      CountAppend(MoveTo(fmt, points[0]), Segments(fmt, points[1..]), 'L');
      CountAppend(MoveTo(fmt, points[0]), Segments(fmt, points[1..]), ' ');
    }
  }

  /** Extending the polyline by one point appends exactly that point's
      line-to segment to the path. */
  lemma SvgPathSnoc(fmt: real -> string, points: seq<Point>, p: Point)
    requires points != []
    ensures SvgPath(fmt, points + [p]) == SvgPath(fmt, points) + LineTo(fmt, p)
  {
    assert (points + [p])[1..] == points[1..] + [p];
    SegmentsAppend(fmt, points[1..], [p]);
    assert Segments(fmt, [p]) == LineTo(fmt, p) by {
      assert [p][..0] == [];
    }
  }

  // ---------------------------------------------------------------------
  // Mode to type

  /** `annotationModeToType`: modes without a record type map to null. */
  function AnnotationModeToType(m: AnnotationMode): (r: Option<AnnotationType>)
    ensures r.None? <==> (m == NoneMode || m == HighlightingMode || m == PinMode)
    ensures r.Some? ==> ModeValue(m) == TypeValue(r.value)
  {
    match m
    case HighlightMode => Some(Highlight)
    case UnderlineMode => Some(Underline)
    case StrikeoutMode => Some(Strikeout)
    case RectangleMode => Some(Rectangle)
    case DrawingMode => Some(Drawing)
    case TextMode => Some(Text)
    case CommentMode => Some(Comment)
    case _ => None
  }

  /** Two modes that yield a type yield the same one only if they are the
      same mode. */
  lemma ModeToTypeInjective(m1: AnnotationMode, m2: AnnotationMode)
    requires AnnotationModeToType(m1).Some?
    requires AnnotationModeToType(m1) == AnnotationModeToType(m2)
    ensures m1 == m2
  {
    assert ModeValue(m1) == ModeValue(m2);
  }

  // ---------------------------------------------------------------------
  // Colour resolution

  /** The per-type colour props a host may pass (each may be absent). */
  datatype ColorOverrides = ColorOverrides(
    highlightColor: Option<string>,
    underlineColor: Option<string>,
    strikeoutColor: Option<string>,
    rectangleColor: Option<string>,
    drawingColor: Option<string>,
    textColor: Option<string>,
    commentColor: Option<string>)

  const NoOverrides: ColorOverrides := ColorOverrides(None, None, None, None, None, None, None)

  /** JavaScript's `value || fallback` on an optional string: an absent or
      empty string falls back. */
  function OrElse(o: Option<string>, fallback: string): string {
    if o.Some? && o.value != "" then o.value else fallback
  }

  /** `getAnnotationColor`. */
  function GetAnnotationColor(t: AnnotationType, o: ColorOverrides): (r: string)
    ensures r != ""
  {
    match t
    case Highlight => OrElse(o.highlightColor, "rgba(255, 255, 0, 0.3)")
    case Underline => OrElse(o.underlineColor, "rgba(0, 100, 255, 0.7)")
    case Strikeout => OrElse(o.strikeoutColor, "rgba(255, 0, 0, 0.5)")
    case Rectangle => OrElse(o.rectangleColor, "rgba(255, 0, 0, 0.3)")
    case Drawing => OrElse(o.drawingColor, "rgba(255, 0, 0, 0.7)")
    case Text => OrElse(o.textColor, "rgba(0, 0, 0, 1)")
    case Comment => OrElse(o.commentColor, "rgba(255, 255, 0, 0.7)")
    case _ => "rgba(0, 0, 0, 1)"
  }

  /** The prop, if any, that governs the colour of type `t`. */
  function OverrideFor(t: AnnotationType, o: ColorOverrides): Option<string> {
    match t
    case Highlight => o.highlightColor
    case Underline => o.underlineColor
    case Strikeout => o.strikeoutColor
    case Rectangle => o.rectangleColor
    case Drawing => o.drawingColor
    case Text => o.textColor
    case Comment => o.commentColor
    case _ => None
  }

  /** The colour a type gets when no override applies. */
  function DefaultColor(t: AnnotationType): string {
    GetAnnotationColor(t, NoOverrides)
  }

  /** Precedence: a non-empty override wins, otherwise the type's default;
      the two types without a prop always get opaque black. */
  lemma AnnotationColorPrecedence(t: AnnotationType, o: ColorOverrides)
    ensures OverrideFor(t, o).Some? && OverrideFor(t, o).value != "" ==>
      GetAnnotationColor(t, o) == OverrideFor(t, o).value
    ensures !(OverrideFor(t, o).Some? && OverrideFor(t, o).value != "") ==>
      GetAnnotationColor(t, o) == DefaultColor(t)
    ensures (t == Highlighting || t == Pin) ==> GetAnnotationColor(t, o) == "rgba(0, 0, 0, 1)"
  {
  }

  // ---------------------------------------------------------------------
  // Standalone record constructor

  /** The exported `createAnnotation` of src/utils.ts: `id` is the fresh
      identifier and `now` the clock reading. It copies its arguments as
      given; in particular `pageIndex` is not checked against the rect. */
  function CreateAnnotation(id: string, kind: AnnotationType, rect: AnnotationRect, pageIndex: int,
                            color: Option<string>, content: Option<string>,
                            points: Option<seq<Point>>, now: Time): (a: Annotation)
    ensures a.id == id && a.kind == kind && a.rect == rect && a.pageIndex == pageIndex
    ensures a.color == color && a.content == content && a.points == points
    ensures a.createdAt == now && a.updatedAt == None
    ensures a.tags == None && a.category == None && a.thickness == None
  {
    Annotation(id, kind, rect, pageIndex, color, content, points, None, now, None, None, None)
  }
}
