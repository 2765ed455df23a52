/** The annotation store of src/hooks/useAnnotations.ts: the record
    collection, the selection, the interaction mode and the pointer-gesture
    state machine (Idle, Pending with a start point, Tracing with a polyline).
    Each handler is one atomic step; `uuidv4()` is a fresh identifier passed
    in, `new Date()` a clock reading passed in, and the `on*` callbacks are
    entries appended to an event log. */
module Store {
  import opened Types
  import opened Utils

  // ---------------------------------------------------------------------
  // Bounding box of a freehand stroke

  /** `Number.MAX_VALUE`, the seed of `minX` and `minY`. */
  const MaxValue: real := 179769313486231570814527423731704356798070567525844996598917476803157260780028538760589558632766878171540458953514382464234321326889464182768467546703537516986049910576551282076245490090389328944075868508455133942304583236903222948165808559332123348274797826204144723168738177180919299881250404026184124858368.0

  /** `Number.MIN_VALUE` (2^-1074), the smallest POSITIVE double, which seeds
      `maxX` and `maxY`. */
  const MinValue: real := 1.0 / 202402253307310618352495346718917307049556649764142118356901358027430339567995346891960383701437124495187077864316811911389808737385793476867013399940738509921517424276566361364466907742093216341239767678472745068562007483424692698618103355649159556340810056512358769552333414615230502532186327508646006263307707741093494784.0

  /** The value a running `Math.min` holds after visiting `xs` left to right. */
  function FoldMin(seed: real, xs: seq<real>): (r: real)
    ensures r <= seed
    ensures forall k :: 0 <= k < |xs| ==> r <= xs[k]
    ensures r == seed || exists k :: 0 <= k < |xs| && r == xs[k]
    decreases |xs|
  {
    if xs == [] then seed
    else
      var init := xs[..|xs| - 1];
      assert forall k :: 0 <= k < |init| ==> init[k] == xs[k];
      Min(FoldMin(seed, init), xs[|xs| - 1])
  }

  /** The value a running `Math.max` holds after visiting `xs` left to right. */
  function FoldMax(seed: real, xs: seq<real>): (r: real)
    ensures r >= seed
    ensures forall k :: 0 <= k < |xs| ==> r >= xs[k]
    ensures r == seed || exists k :: 0 <= k < |xs| && r == xs[k]
    decreases |xs|
  {
    if xs == [] then seed
    else
      var init := xs[..|xs| - 1];
      assert forall k :: 0 <= k < |init| ==> init[k] == xs[k];
      Max(FoldMax(seed, init), xs[|xs| - 1])
  }

  function Xs(points: seq<Point>): (r: seq<real>)
    ensures |r| == |points| && forall k :: 0 <= k < |points| ==> r[k] == points[k].x
  {
    seq(|points|, k requires 0 <= k < |points| => points[k].x)
  }

  function Ys(points: seq<Point>): (r: seq<real>)
    ensures |r| == |points| && forall k :: 0 <= k < |points| ==> r[k] == points[k].y
  {
    seq(|points|, k requires 0 <= k < |points| => points[k].y)
  }

  /** The rectangle the pointer-up handler computes for a stroke, with its
      seeds as written: it holds every point of the stroke and lies on the
      given page. */
  function DrawingRect(points: seq<Point>, pageIndex: int): (r: AnnotationRect)
    ensures r.pageIndex == pageIndex
    ensures forall k :: 0 <= k < |points| ==>
      r.x <= points[k].x <= r.x + r.width && r.y <= points[k].y <= r.y + r.height
  {
    var minX, minY := FoldMin(MaxValue, Xs(points)), FoldMin(MaxValue, Ys(points));
    var maxX, maxY := FoldMax(MinValue, Xs(points)), FoldMax(MinValue, Ys(points));
    AnnotationRect(minX, minY, maxX - minX, maxY - minY, pageIndex)
  }

  /** The bounding-box loop of the pointer-up handler. */
  method DrawingBounds(points: seq<Point>, pageIndex: int) returns (rect: AnnotationRect)
    ensures rect == DrawingRect(points, pageIndex)
  {
    var minX, minY := MaxValue, MaxValue;
    var maxX, maxY := MinValue, MinValue;
    for i := 0 to |points|
      invariant minX == FoldMin(MaxValue, Xs(points)[..i]) && minY == FoldMin(MaxValue, Ys(points)[..i])
      invariant maxX == FoldMax(MinValue, Xs(points)[..i]) && maxY == FoldMax(MinValue, Ys(points)[..i])
    {
      assert Xs(points)[..i + 1][..i] == Xs(points)[..i];
      assert Ys(points)[..i + 1][..i] == Ys(points)[..i];
      minX := Min(minX, points[i].x);
      minY := Min(minY, points[i].y);
      maxX := Max(maxX, points[i].x);
      maxY := Max(maxY, points[i].y);
    }
    assert Xs(points)[..|points|] == Xs(points);
    assert Ys(points)[..|points|] == Ys(points);
    rect := AnnotationRect(minX, minY, maxX - minX, maxY - minY, pageIndex);
  }

  /** The rectangle of a non-empty stroke has no negative side. The left and top edges are the smallest coordinates whenever
      some coordinate is at most `MaxValue`. The right and bottom edges are
      the largest coordinates only when some coordinate reaches `MinValue`:
      a stroke lying wholly at or left of x = 0 gets its right edge at
      `MinValue` instead. */
  lemma DrawingRectBounds(points: seq<Point>, pageIndex: int)
    requires points != []
    ensures var r := DrawingRect(points, pageIndex);
      && r.width >= 0.0 && r.height >= 0.0
    ensures var r := DrawingRect(points, pageIndex);
      && ((exists k :: 0 <= k < |points| && points[k].x <= MaxValue) ==>
            exists k :: 0 <= k < |points| && r.x == points[k].x)
      && ((exists k :: 0 <= k < |points| && points[k].y <= MaxValue) ==>
            exists k :: 0 <= k < |points| && r.y == points[k].y)
    ensures var r := DrawingRect(points, pageIndex);
      && ((exists k :: 0 <= k < |points| && points[k].x >= MinValue) ==>
            exists k :: 0 <= k < |points| && r.x + r.width == points[k].x)
      && ((exists k :: 0 <= k < |points| && points[k].y >= MinValue) ==>
            exists k :: 0 <= k < |points| && r.y + r.height == points[k].y)
    ensures var r := DrawingRect(points, pageIndex);
      && ((forall k :: 0 <= k < |points| ==> points[k].x < MinValue) ==> r.x + r.width == MinValue)
      && ((forall k :: 0 <= k < |points| ==> points[k].y < MinValue) ==> r.y + r.height == MinValue)
  {
  }

  /** Two coincident points: the stroke has no extent, yet its rectangle is
      `MinValue` wide and high, not 0. */
  lemma CoincidentStrokeRect()
    ensures DrawingRect([Point(0.0, 0.0), Point(0.0, 0.0)], 0).width == MinValue
    ensures DrawingRect([Point(0.0, 0.0), Point(0.0, 0.0)], 0).height == MinValue
  {
  }

  // ---------------------------------------------------------------------
  // Record creation, update and deletion on the collection

  /** The record the hook's `createAnnotation` builds: the standalone
      constructor with the page taken from the rect and the colour resolved
      from the type and the colour props. */
  function HookRecord(kind: AnnotationType, rect: AnnotationRect, content: Option<string>,
                      points: Option<seq<Point>>, colors: ColorOverrides, id: string, now: Time): (a: Annotation)
    ensures a.rect == rect && a.pageIndex == rect.pageIndex
    ensures a.color == Some(GetAnnotationColor(kind, colors)) && a.color.value != ""
    ensures a.id == id && a.kind == kind && a.content == content && a.points == points
    ensures a.createdAt == now && a.updatedAt == None
    ensures a.tags == None && a.category == None && a.thickness == None
  {
    Utils.CreateAnnotation(id, kind, rect, rect.pageIndex, Some(GetAnnotationColor(kind, colors)),
                           content, points, now)
  }

  function Pick<T>(o: Option<T>, current: T): T {
    if o.Some? then o.value else current
  }

  /** `value` is what `Object.assign` leaves in a field: the patch's value
      when the patch names the field, the record's own value otherwise. */
  predicate Assigned<T(==)>(patched: Option<T>, current: T, value: T) {
    (patched.Some? ==> value == patched.value) && (patched.None? ==> value == current)
  }

  /** `Object.assign({}, annotation, updates, { updatedAt })`: every field the
      patch names overrides the record's, every other field is kept, and the
      trailing `updatedAt` wins over both. */
  function Merge(a: Annotation, p: Patch, now: Time): (r: Annotation)
    ensures Assigned(p.id, a.id, r.id) && Assigned(p.kind, a.kind, r.kind)
    ensures Assigned(p.rect, a.rect, r.rect) && Assigned(p.pageIndex, a.pageIndex, r.pageIndex)
    ensures Assigned(p.color, a.color, r.color) && Assigned(p.content, a.content, r.content)
    ensures Assigned(p.points, a.points, r.points) && Assigned(p.tags, a.tags, r.tags)
    ensures Assigned(p.createdAt, a.createdAt, r.createdAt)
    ensures Assigned(p.category, a.category, r.category) && Assigned(p.thickness, a.thickness, r.thickness)
    ensures r.updatedAt == Some(now)
  {
    Annotation(Pick(p.id, a.id), Pick(p.kind, a.kind), Pick(p.rect, a.rect),
               Pick(p.pageIndex, a.pageIndex), Pick(p.color, a.color), Pick(p.content, a.content),
               Pick(p.points, a.points), Pick(p.tags, a.tags), Pick(p.createdAt, a.createdAt),
               Some(now), Pick(p.category, a.category), Pick(p.thickness, a.thickness))
  }

  /** An empty patch only stamps `updatedAt`; applying a patch twice is the
      same as applying it once at the later time. */
  lemma MergeLaws(a: Annotation, p: Patch, t1: Time, t2: Time)
    ensures Merge(a, EmptyPatch, t1) == a.(updatedAt := Some(t1))
    ensures Merge(Merge(a, p, t1), p, t2) == Merge(a, p, t2)
    ensures p.createdAt == None ==> Merge(a, p, t1).createdAt == a.createdAt
  {
  }

  function UpdateOne(a: Annotation, id: string, p: Patch, now: Time): Annotation {
    if a.id == id then Merge(a, p, now) else a
  }

  /** The `map` inside `updateAnnotation`. */
  function UpdateAll(annotations: seq<Annotation>, id: string, p: Patch, now: Time): (r: seq<Annotation>)
    ensures |r| == |annotations|
  {
    if annotations == [] then []
    else [UpdateOne(annotations[0], id, p, now)] + UpdateAll(annotations[1..], id, p, now)
  }

  /** The update callbacks fired by that `map`, one per matching record, in
      collection order: only update reports, at most one per record, and
      none exactly when no record carries `id`. */
  function UpdateEvents(annotations: seq<Annotation>, id: string, p: Patch, now: Time): (r: seq<Event>)
    ensures |r| <= |annotations|
    ensures forall k :: 0 <= k < |r| ==> r[k].Updated? && r[k].updated.updatedAt == Some(now)
    ensures r == [] <==> id !in Ids(annotations)
  {
    if annotations == [] then []
    else
      assert Ids(annotations) == {annotations[0].id} + Ids(annotations[1..]) by {
        assert annotations == [annotations[0]] + annotations[1..];
      }
      (if annotations[0].id == id then [Updated(Merge(annotations[0], p, now))] else [])
      + UpdateEvents(annotations[1..], id, p, now)
  }

  /** The update log distributes over concatenation: the reports of a
      collection are those of its first part followed by those of the rest,
      so they come in collection order. */
  lemma {:induction false} UpdateEventsAppend(a: seq<Annotation>, b: seq<Annotation>, id: string, p: Patch, now: Time)
    ensures UpdateEvents(a + b, id, p, now) == UpdateEvents(a, id, p, now) + UpdateEvents(b, id, p, now)
  {
    if a == [] {
      assert a + b == b;
    } else {
      assert (a + b)[0] == a[0];
      assert (a + b)[1..] == a[1..] + b;
      UpdateEventsAppend(a[1..], b, id, p, now);
    }
  }

  /** A single record is reported, as its merged and stamped value, exactly
      when it carries `id`. */
  lemma UpdateEventsSingle(x: Annotation, id: string, p: Patch, now: Time)
    ensures UpdateEvents([x], id, p, now) == if x.id == id then [Updated(Merge(x, p, now))] else []
  {
  }

  /** Position by position, a record is merged and stamped exactly when its
      id matches; every other record is kept as it was. */
  lemma {:induction false} UpdateAllAt(annotations: seq<Annotation>, id: string, p: Patch, now: Time, i: int)
    requires 0 <= i < |annotations|
    ensures UpdateAll(annotations, id, p, now)[i] ==
      if annotations[i].id == id then Merge(annotations[i], p, now) else annotations[i]
  {
    if i > 0 {
      UpdateAllAt(annotations[1..], id, p, now, i - 1);
    }
  }

  /** Updating an id that no record carries changes nothing and fires no
      callback. */
  lemma {:induction false} UpdateUnknownId(annotations: seq<Annotation>, id: string, p: Patch, now: Time)
    requires id !in Ids(annotations)
    ensures UpdateAll(annotations, id, p, now) == annotations
    ensures UpdateEvents(annotations, id, p, now) == []
  {
    if annotations != [] {
      assert annotations[0] in annotations;
      assert Ids(annotations[1..]) <= Ids(annotations) by {
        forall x | x in Ids(annotations[1..]) ensures x in Ids(annotations) {
          var a :| a in annotations[1..] && a.id == x;
          assert a in annotations;
        }
      }
      UpdateUnknownId(annotations[1..], id, p, now);
    }
  }

  /** The `filter` inside `deleteAnnotation`. */
  function RemoveId(annotations: seq<Annotation>, id: string): (r: seq<Annotation>)
    ensures |r| <= |annotations|
    ensures forall a :: a in r <==> a in annotations && a.id != id
  {
    if annotations == [] then []
    else (if annotations[0].id != id then [annotations[0]] else []) + RemoveId(annotations[1..], id)
  }

  /** Deletion keeps the surviving records in their relative order: it
      distributes over concatenation. */
  lemma {:induction false} RemoveIdAppend(a: seq<Annotation>, b: seq<Annotation>, id: string)
    ensures RemoveId(a + b, id) == RemoveId(a, id) + RemoveId(b, id)
  {
    if a == [] {
      assert a + b == b;
    } else {
      assert (a + b)[0] == a[0];
      assert (a + b)[1..] == a[1..] + b;
      RemoveIdAppend(a[1..], b, id);
    }
  }

  /** Deleting an id that no record carries keeps the collection as it is. */
  lemma {:induction false} RemoveUnknownId(annotations: seq<Annotation>, id: string)
    requires id !in Ids(annotations)
    ensures RemoveId(annotations, id) == annotations
  {
    if annotations != [] {
      assert annotations[0] in annotations;
      assert Ids(annotations[1..]) <= Ids(annotations) by {
        forall x | x in Ids(annotations[1..]) ensures x in Ids(annotations) {
          var a :| a in annotations[1..] && a.id == x;
          assert a in annotations;
        }
      }
      RemoveUnknownId(annotations[1..], id);
    }
  }

  // ---------------------------------------------------------------------
  // The store

  /** What the `on*` callbacks are told, in call order. */
  datatype Event =
    | Created(created: Annotation)
    | Updated(updated: Annotation)
    | Deleted(deletedId: string)
    | Selected(selection: Option<Annotation>)

  /** The phase of the pointer-gesture state machine. */
  datatype Phase = Idle | Pending(start: Point) | Tracing(stroke: seq<Point>)

  class AnnotationStore {
    var annotations: seq<Annotation>
    var selectedAnnotation: Option<Annotation>
    var currentMode: AnnotationMode
    var drawingPoints: seq<Point>
    var isDrawing: bool
    var startPoint: Option<Point>
    /** The callbacks invoked so far. */
    var events: seq<Event>
    /** The per-type colour props of the latest render. */
    var colors: ColorOverrides

    /** At most one gesture is in flight, and only in a mode that can
        produce it: a stroke only in DRAWING mode and never empty, a start
        point only in a mode that has a type other than DRAWING. */
    ghost predicate Valid()
      reads this
    {
      && (isDrawing ==> currentMode == DrawingMode && drawingPoints != [])
      && (startPoint.Some? ==> AnnotationModeToType(currentMode).Some? && currentMode != DrawingMode)
    }

    ghost function Phase(): Phase
      reads this
    {
      if isDrawing then Tracing(drawingPoints)
      else if startPoint.Some? then Pending(startPoint.value)
      else Idle
    }

    constructor (initialAnnotations: seq<Annotation>, annotationMode: AnnotationMode, colors: ColorOverrides)
      ensures Valid() && Phase() == Idle
      ensures annotations == initialAnnotations && selectedAnnotation == None
      ensures currentMode == annotationMode && drawingPoints == [] && !isDrawing && startPoint == None
      ensures events == [] && this.colors == colors
    {
      annotations := initialAnnotations;
      selectedAnnotation := None;
      currentMode := annotationMode;
      drawingPoints := [];
      isDrawing := false;
      startPoint := None;
      events := [];
      this.colors := colors;
    }

    /** Appends one new record built from the arguments and reports it. */
    method CreateAnnotation(kind: AnnotationType, rect: AnnotationRect, content: Option<string>,
                            points: Option<seq<Point>>, id: string, now: Time) returns (a: Annotation)
      requires id !in Ids(annotations)
      modifies this
      ensures a == HookRecord(kind, rect, content, points, colors, id, now)
      ensures annotations == old(annotations) + [a]
      ensures events == old(events) + [Created(a)]
      ensures selectedAnnotation == old(selectedAnnotation) && currentMode == old(currentMode)
      ensures drawingPoints == old(drawingPoints) && isDrawing == old(isDrawing)
      ensures startPoint == old(startPoint) && colors == old(colors)
    {
      a := HookRecord(kind, rect, content, points, colors, id, now);
      annotations := annotations + [a];
      events := events + [Created(a)];
    }

    /** Merges the patch into every record carrying `id`; the selection is
        left as it was, even when it is one of those records. */
    method UpdateAnnotation(id: string, p: Patch, now: Time)
      modifies this
      ensures annotations == UpdateAll(old(annotations), id, p, now)
      ensures events == old(events) + UpdateEvents(old(annotations), id, p, now)
      ensures selectedAnnotation == old(selectedAnnotation) && currentMode == old(currentMode)
      ensures drawingPoints == old(drawingPoints) && isDrawing == old(isDrawing)
      ensures startPoint == old(startPoint) && colors == old(colors)
    {
      events := events + UpdateEvents(annotations, id, p, now);
      annotations := UpdateAll(annotations, id, p, now);
    }

    /** Removes every record carrying `id`; clears the selection (and
        reports that) only when the selected record carries `id`; always
        reports the deletion. */
    method DeleteAnnotation(id: string)
      modifies this
      ensures annotations == RemoveId(old(annotations), id)
      ensures old(selectedAnnotation).Some? && old(selectedAnnotation).value.id == id ==>
        selectedAnnotation == None && events == old(events) + [Selected(None), Deleted(id)]
      ensures !(old(selectedAnnotation).Some? && old(selectedAnnotation).value.id == id) ==>
        selectedAnnotation == old(selectedAnnotation) && events == old(events) + [Deleted(id)]
      ensures currentMode == old(currentMode) && drawingPoints == old(drawingPoints)
      ensures isDrawing == old(isDrawing) && startPoint == old(startPoint) && colors == old(colors)
    {
      annotations := RemoveId(annotations, id);
      if selectedAnnotation.Some? && selectedAnnotation.value.id == id {
        selectedAnnotation := None;
        events := events + [Selected(None)];
      }
      events := events + [Deleted(id)];
    }

    method SelectAnnotation(a: Option<Annotation>)
      modifies this
      ensures selectedAnnotation == a && events == old(events) + [Selected(a)]
      ensures annotations == old(annotations) && currentMode == old(currentMode)
      ensures drawingPoints == old(drawingPoints) && isDrawing == old(isDrawing)
      ensures startPoint == old(startPoint) && colors == old(colors)
    {
      selectedAnnotation := a;
      events := events + [Selected(a)];
    }

    /** Switches tool and abandons any gesture in flight. */
    method SetMode(mode: AnnotationMode)
      modifies this
      ensures Valid() && Phase() == Idle
      ensures currentMode == mode && !isDrawing && drawingPoints == [] && startPoint == None
      ensures annotations == old(annotations) && selectedAnnotation == old(selectedAnnotation)
      ensures events == old(events) && colors == old(colors)
    {
      currentMode := mode;
      isDrawing := false;
      drawingPoints := [];
      startPoint := None;
    }

    /** A render with new colour props: `getColor` is rebuilt, so records
        created from now on resolve their colour from the new props. The
        records already stored keep theirs. */
    method SetColors(c: ColorOverrides)
      modifies this
      ensures colors == c
      ensures annotations == old(annotations) && selectedAnnotation == old(selectedAnnotation)
      ensures currentMode == old(currentMode) && drawingPoints == old(drawingPoints)
      ensures isDrawing == old(isDrawing) && startPoint == old(startPoint) && events == old(events)
    {
      colors := c;
    }

    /** Starts a gesture: a stroke in DRAWING mode, a start point in every
        other mode that has a type; nothing in NONE, HIGHLIGHTING or PIN. */
    method HandlePointerDown(point: Point, pageIndex: int)
      requires Valid()
      modifies this
      ensures Valid()
      ensures AnnotationModeToType(currentMode).None? ==>
        isDrawing == old(isDrawing) && drawingPoints == old(drawingPoints) && startPoint == old(startPoint)
      ensures currentMode == DrawingMode ==>
        Phase() == Tracing([point]) && startPoint == old(startPoint)
      ensures AnnotationModeToType(currentMode).Some? && currentMode != DrawingMode ==>
        Phase() == Pending(point) && isDrawing == old(isDrawing) && drawingPoints == old(drawingPoints)
      ensures currentMode == old(currentMode) && annotations == old(annotations)
      ensures selectedAnnotation == old(selectedAnnotation) && events == old(events)
      ensures colors == old(colors)
    {
      if currentMode == NoneMode {
        return;
      }
      var annotationType := AnnotationModeToType(currentMode);
      if annotationType.None? {
        return;
      }
      if annotationType.value == Drawing {
        isDrawing := true;
        drawingPoints := [point];
      } else {
        startPoint := Some(point);
      }
    }

    /** Extends the stroke while tracing in DRAWING mode; otherwise nothing. */
    method HandlePointerMove(point: Point, pageIndex: int)
      requires Valid()
      modifies this
      ensures Valid()
      ensures old(currentMode == DrawingMode && isDrawing) ==>
        drawingPoints == old(drawingPoints) + [point]
      ensures !old(currentMode == DrawingMode && isDrawing) ==> drawingPoints == old(drawingPoints)
      ensures isDrawing == old(isDrawing) && startPoint == old(startPoint)
      ensures currentMode == old(currentMode) && annotations == old(annotations)
      ensures selectedAnnotation == old(selectedAnnotation) && events == old(events)
      ensures colors == old(colors)
    {
      if currentMode == DrawingMode && isDrawing {
        drawingPoints := drawingPoints + [point];
      }
    }

    /** Finishes the gesture in flight. A stroke always stops tracing; with
        at least two points it becomes one DRAWING record over its bounding
        box and the stroke is cleared, with fewer it is dropped but its
        points are kept. A start point always clears; it becomes a record
        only when the rectangle to `point` has positive width and height.
        `id` and `now` are what `uuidv4()` and `new Date()` would return. */
    method HandlePointerUp(point: Point, pageIndex: int, id: string, now: Time)
      requires Valid()
      requires id !in Ids(annotations)
      modifies this
      ensures Valid() && Phase() == Idle
      ensures old(Phase()) == Idle ==>
        annotations == old(annotations) && events == old(events) && drawingPoints == old(drawingPoints)
      ensures old(Phase()).Tracing? && |old(drawingPoints)| < 2 ==>
        annotations == old(annotations) && events == old(events) && drawingPoints == old(drawingPoints)
      ensures old(Phase()).Tracing? && |old(drawingPoints)| >= 2 ==>
        var a := HookRecord(Drawing, DrawingRect(old(drawingPoints), pageIndex), None,
                            Some(old(drawingPoints)), colors, id, now);
        && annotations == old(annotations) + [a] && events == old(events) + [Created(a)]
        && drawingPoints == []
        && a.rect.width >= 0.0 && a.rect.height >= 0.0 && a.pageIndex == pageIndex
      ensures old(Phase()).Pending? ==>
        AnnotationModeToType(currentMode).Some? && currentMode != DrawingMode &&
        var rect := CalculateRectFromPoints(old(startPoint).value, point, pageIndex);
        var a := HookRecord(AnnotationModeToType(currentMode).value, rect, None, None, colors, id, now);
        && drawingPoints == old(drawingPoints)
        && (rect.width > 0.0 && rect.height > 0.0 ==>
              annotations == old(annotations) + [a] && events == old(events) + [Created(a)])
        && (!(rect.width > 0.0 && rect.height > 0.0) ==>
              annotations == old(annotations) && events == old(events))
      ensures currentMode == old(currentMode) && selectedAnnotation == old(selectedAnnotation)
      ensures colors == old(colors)
    {
      if currentMode == NoneMode {
        return;
      }
      var annotationType := AnnotationModeToType(currentMode);
      if annotationType.None? {
        return;
      }
      if annotationType.value == Drawing && isDrawing {
        isDrawing := false;
        if |drawingPoints| < 2 {
          return;
        }
        var rect := DrawingBounds(drawingPoints, pageIndex);
        DrawingRectBounds(drawingPoints, pageIndex);
        var _ := CreateAnnotation(annotationType.value, rect, None, Some(drawingPoints), id, now);
        drawingPoints := [];
      } else if startPoint.Some? {
        var rect := CalculateRectFromPoints(startPoint.value, point, pageIndex);
        if rect.width > 0.0 && rect.height > 0.0 {
          var _ := CreateAnnotation(annotationType.value, rect, None, None, id, now);
        }
        startPoint := None;
      }
    }
  }

  /** Switching tool between pointer-down and pointer-up abandons the drag:
      the pointer-up finds no gesture and creates nothing. */
  method AbandonedDrag(store: AnnotationStore, start: Point, end: Point, mode: AnnotationMode,
                       id: string, now: Time)
    requires store.Valid() && id !in Ids(store.annotations)
    modifies store
    ensures store.annotations == old(store.annotations) && store.events == old(store.events)
    ensures store.Phase() == Idle && store.currentMode == mode && store.drawingPoints == []
  {
    store.HandlePointerDown(start, 0);
    store.SetMode(mode);
    store.HandlePointerUp(end, 0, id, now);
  }

  /** Deleting the selected record clears the selection and reports the
      cleared selection exactly once, before the deletion. */
  method DeleteSelected(store: AnnotationStore, a: Annotation)
    modifies store
    ensures store.selectedAnnotation == None
    ensures store.events == old(store.events) + [Selected(Some(a)), Selected(None), Deleted(a.id)]
    ensures forall b :: b in store.annotations ==> b.id != a.id
  {
    store.SelectAnnotation(Some(a));
    store.DeleteAnnotation(a.id);
  }
}
