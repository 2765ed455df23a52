# PDF annotator core in Dafny

A model of the annotation core of a React PDF annotator widget, with proofs about it. The model covers four parts:

- **The annotation store** (`Store.dfy`). The hook `useAnnotations` becomes the class `Store.AnnotationStore`. It holds the record collection, the selection, the interaction mode and the pointer-gesture state: `drawingPoints`, `isDrawing` and `startPoint`. Its methods are create, update, delete, select, set-mode and the pointer down/move/up handlers.
  - The gesture state machine is Idle → Pending (a start point is held) or Tracing (a stroke is held) → Idle. `Valid()` states that these phases are exclusive and that each occurs only in a mode that can produce it. Every handler preserves `Valid()`.
  - Each handler is one atomic step.
  - `uuidv4()` becomes an `id` parameter that no current record carries. `new Date()` becomes a clock reading `now`.
  - The `on*` callbacks become entries appended to the `events` log.
  - The colour props are the field `colors`. A render with new props replaces it (`SetColors`), as the hook rebuilds `getColor` whenever a colour prop changes.
- **The geometry and lookup helpers** of `src/utils.ts` (`Utils.dfy`):
  - the rectangle spanned by two points;
  - the polyline-to-SVG path string, built by a loop and proved against a specification function;
  - the mode-to-type table;
  - colour resolution with per-type overrides;
  - the standalone record constructor.
- **The overlay mapping** of `AnnotationLayer` (`Layer.dfy`). It is a pure function from (records, page, scale) to one shape descriptor per record of that page, in collection order.
- **The release script's string logic** (`Version.dfy`): `incrementVersion` on `major.minor.patch`, and the changelog splice that inserts a new section before the first `## [`.

`Types.dfy` holds the records of `src/types.ts`. Coordinates are mathematical reals. In the records, the field `type` is called `kind` because `type` is a Dafny keyword.

Some quirks of the code are kept as written:

- The freehand bounding box seeds `maxX`/`maxY` with `Number.MIN_VALUE`, the smallest positive double. `Store.MinValue` is that exact value. The right (bottom) edge of the box is therefore the largest coordinate only when some coordinate reaches `MinValue`. Otherwise the edge sits at `MinValue`. For example, two coincident points at the origin give a box `MinValue` wide, not 0 (`Store.CoincidentStrokeRect`). Coincident points at (5, 5) give a zero-sized box, since 5 exceeds `MinValue`.
- A stroke of fewer than two points is dropped, but its points stay in `drawingPoints`.
- `updateAnnotation` never refreshes `selectedAnnotation`.
- HIGHLIGHTING and PIN modes have no record type, so pointer events in those modes are ignored.
- The standalone `createAnnotation` does not check `pageIndex` against `rect.pageIndex`.

Further facts about the code that the model follows:

- Stored coordinates are page-relative pixels, not normalised [0,1] values. The overlay multiplies them by `scale`.
- Creation does not stamp `updatedAt`.
- An update neither re-derives the colour from a category nor refreshes the selection.
- The modelled code has no category colour, no thickness, no pin rendering, no confirm/cancel step for drafts and no JSON export.

## Model

| member | source | states |
|---|---|---|
| `Utils.CalculateRectFromPoints` | src/utils.ts:75-86 | width and height are never negative; the origin is the smaller coordinate and the far edge the larger one on each axis; the page is passed through; the area is positive exactly when the points differ on both axes |
| `Utils.RectFromPointsSymmetric` | src/utils.ts:75-86 | swapping the two points gives the same rectangle |
| `Utils.PointsToSvgPath` | src/utils.ts:88-98 | the string the loop builds equals the path specification: empty for no points, otherwise a move-to of the first point followed by line-to segments |
| `Utils.SvgPathShape` | src/utils.ts:88-98 | the path is "" for no points; otherwise it opens with "M x0 y0" and has exactly one M, exactly n-1 L segments and 3n-1 spaces, for any number formatting that emits no space, L or M |
| `Utils.SvgPathSnoc` | src/utils.ts:93-95 | one more point appends exactly its " L x y" segment, so segments appear in input order |
| `Utils.AnnotationModeToType` | src/utils.ts:54-73 | NONE, HIGHLIGHTING and PIN give null and every other mode gives the type with the same enum value |
| `Utils.ModeToTypeInjective` | src/utils.ts:54-73 | two modes that map to the same type are the same mode |
| `Utils.GetAnnotationColor` | src/utils.ts:24-52 | the resolved colour is never empty |
| `Utils.AnnotationColorPrecedence` | src/utils.ts:24-52 | a non-empty override for the type wins; an absent or empty one gives the type's default; HIGHLIGHTING and PIN always get 'rgba(0, 0, 0, 1)' |
| `Utils.CreateAnnotation` | src/utils.ts:4-22 | the record copies type, rect, page index, colour, content and points unchanged (the page index is not checked against the rect), sets createdAt and has no updatedAt, tags, category or thickness |
| `Store.DrawingRect` | src/hooks/useAnnotations.ts:185-204 | every point of the stroke lies inside the rectangle, which is on the pointer-up's page |
| `Store.DrawingBounds` | src/hooks/useAnnotations.ts:185-204 | the min/max loop with its MAX_VALUE and MIN_VALUE seeds computes the stroke rectangle `DrawingRect` |
| `Store.DrawingRectBounds` | src/hooks/useAnnotations.ts:186-204 | for a non-empty stroke: width, height >= 0; the left/top edge is a point's coordinate when some coordinate is <= MAX_VALUE; the right/bottom edge is a point's coordinate when some coordinate is >= MIN_VALUE, and is MIN_VALUE when none is |
| `Store.CoincidentStrokeRect` | src/hooks/useAnnotations.ts:186-196 | two points at the origin give a box MIN_VALUE wide and high |
| `Store.HookRecord` | src/hooks/useAnnotations.ts:78-87 | the hook's new record keeps the given id, type, rect, content and points; takes its page from the rect and its colour from the type's resolved colour (never empty); is stamped createdAt = now; has no updatedAt, tags, category or thickness |
| `Store.Merge` | src/hooks/useAnnotations.ts:103-105 | each field the patch names takes the patch's value and each field it does not name keeps the record's value; updatedAt is always stamped now, since the trailing `{ updatedAt }` overrides the patch |
| `Store.MergeLaws` | src/hooks/useAnnotations.ts:103-105 | an empty patch changes only updatedAt; applying a patch twice equals applying it once at the later time; createdAt survives a patch that does not name it |
| `Store.UpdateAll` | src/hooks/useAnnotations.ts:100-111 | the update map keeps the collection length |
| `Store.UpdateEvents` | src/hooks/useAnnotations.ts:101-107 | the update map reports only updated records, each stamped now, at most one per record, and reports nothing exactly when no record carries the id |
| `Store.UpdateEventsAppend` | src/hooks/useAnnotations.ts:101-107 | the update reports of a collection are those of its first part followed by those of the rest, so they follow collection order |
| `Store.UpdateEventsSingle` | src/hooks/useAnnotations.ts:102-106 | a record is reported, as its merged value stamped now, exactly when it carries the id |
| `Store.UpdateAllAt` | src/hooks/useAnnotations.ts:101-110 | position by position, a record is merged with the patch and stamped exactly when its id matches, otherwise left as it was |
| `Store.UpdateUnknownId` | src/hooks/useAnnotations.ts:98-111 | an id no record carries leaves the collection unchanged and fires no update callback |
| `Store.RemoveId` | src/hooks/useAnnotations.ts:118 | a record survives deletion exactly when its id differs |
| `Store.RemoveIdAppend` | src/hooks/useAnnotations.ts:118 | deletion distributes over concatenation, so survivors keep their order |
| `Store.RemoveUnknownId` | src/hooks/useAnnotations.ts:118 | deleting an id no record carries keeps the collection |
| `Store.AnnotationStore.constructor` | src/hooks/useAnnotations.ts:40-45 | starts Idle with the initial records and mode, no selection, no stroke, no start point, an empty log |
| `Store.AnnotationStore.CreateAnnotation` | src/hooks/useAnnotations.ts:71-96 | appends exactly the new record at the end, leaves earlier records, selection, mode and gesture state unchanged, logs its creation and returns it |
| `Store.AnnotationStore.UpdateAnnotation` | src/hooks/useAnnotations.ts:98-114 | the collection becomes the update map of the old one; the log gains the update reports of the old collection, which `UpdateEventsAppend` and `UpdateEventsSingle` fix as one report per matching record, its merged value, in collection order; selection, mode and gesture state are untouched |
| `Store.AnnotationStore.DeleteAnnotation` | src/hooks/useAnnotations.ts:116-126 | removes exactly the records with that id; clears the selection and logs select(null) only when the selected record has that id; always logs delete(id) last |
| `Store.AnnotationStore.SelectAnnotation` | src/hooks/useAnnotations.ts:128-134 | sets the selection (possibly null) and logs it; nothing else changes |
| `Store.AnnotationStore.SetMode` | src/hooks/useAnnotations.ts:136-142 | sets the mode and abandons any gesture: not drawing, no points, no start point; records, selection and log unchanged |
| `Store.AnnotationStore.SetColors` | src/hooks/useAnnotations.ts:47-69 | new colour props replace the old ones for later records; the records, selection, mode, gesture state and log are unchanged |
| `Store.AnnotationStore.HandlePointerDown` | src/hooks/useAnnotations.ts:144-159 | ignored in modes without a type (NONE, HIGHLIGHTING, PIN); DRAWING starts tracing with the stroke [point]; every other typed mode holds the point as start point |
| `Store.AnnotationStore.HandlePointerMove` | src/hooks/useAnnotations.ts:161-170 | appends the point only in DRAWING mode while tracing; otherwise nothing changes |
| `Store.AnnotationStore.HandlePointerUp` | src/hooks/useAnnotations.ts:172-220 | ends in Idle. Tracing with fewer than 2 points creates nothing and keeps the points. Tracing with 2 or more points appends one DRAWING record over the stroke's box (width, height >= 0, page of the pointer-up) carrying the points, and clears them. Pending creates the two-point record only when width and height are > 0. Idle changes nothing |
| `Store.AbandonedDrag` | src/hooks/useAnnotations.ts:136-142 | in any mode, pointer-down, a mode switch, then pointer-up creates no record, logs nothing and leaves no stroke points |
| `Store.DeleteSelected` | src/hooks/useAnnotations.ts:116-134 | selecting then deleting a record leaves no selection and logs select(record), select(null) once, then delete(id) |
| `Layer.ShapeOf` | src/components/AnnotationLayer.tsx:44-178 | every coordinate is the stored value times scale. HIGHLIGHT is the filled rect and RECTANGLE the same rect with fill "none". UNDERLINE and STRIKEOUT are horizontal lines across [x, x+width] at the bottom edge and at y + height/2. DRAWING is the path of the scaled points, or nothing with absent or fewer than 2 points. TEXT is a box at the origin, 150x50 on a zero side. COMMENT is a radius-10 circle at the origin. HIGHLIGHTING and PIN draw nothing |
| `Layer.PageFilter` | src/components/AnnotationLayer.tsx:18-20 | a record is kept exactly when its page index is the layer's page |
| `Layer.PageFilterAppend` | src/components/AnnotationLayer.tsx:18-20 | the filter distributes over concatenation, so collection order is kept |
| `Layer.AnnotationLayer` | src/components/AnnotationLayer.tsx:18-51 | the overlay has at most one entry per record, and is empty exactly when no record lies on the page |
| `Layer.LayerEntries` | src/components/AnnotationLayer.tsx:18-51 | every record of the page is drawn in the overlay, and every entry of the overlay is the shape of some record of that page |
| `Layer.LayerAppend` | src/components/AnnotationLayer.tsx:18-51 | appending a record leaves other pages' overlays unchanged and adds its shape last on its own page |
| `Layer.DrawingPathShape` | src/components/AnnotationLayer.tsx:110-127 | a drawn stroke of n >= 2 points is a path with one M and n-1 L segments |
| `Version.Split` | scripts/increment-version.js:22 | split gives at least one component, none containing a dot, and joining them with dots gives the input back |
| `Version.SplitJoin` | scripts/increment-version.js:22 | splitting undoes joining of dot-free components |
| `Version.ParseInt` | scripts/increment-version.js:26-31 | a leading zero does not change the value parseInt reads |
| `Version.NatToStr` | scripts/increment-version.js:26-31 | a number is rendered as decimal digits without a dot and with no leading zero, "0" only for 0 |
| `Version.ParseNatToStr` | scripts/increment-version.js:26-31 | reading back a rendered number with parseInt gives the number |
| `Version.IncrementVersion` | scripts/increment-version.js:21-33 | the new version always has exactly three dot-separated components |
| `Version.IncrementVersionParts` | scripts/increment-version.js:21-33 | the result always has exactly three components. 'major' gives (M+1).0.0. 'minor' keeps the first component verbatim and gives (m+1) and 0. 'patch' and any other type keep the first two verbatim and give p+1. Each bumped component is the decimal rendering of the next number, with no leading zero. Components past the third are dropped |
| `Version.IndexOf` | scripts/increment-version.js:80 | the result is -1 when the pattern does not occur, otherwise a position where it occurs with no earlier occurrence |
| `Version.Heading` | scripts/increment-version.js:66-77 | the inserted heading begins with the line "## [" + version + "] - " + date, hence with the marker "## [", and ends with a blank line |
| `Version.InsertHeading` | scripts/increment-version.js:79-91 | with no "## [" the text is unchanged; otherwise it grows by exactly the heading and its first "## [" is found at the same position as before |
| `Version.InsertHeadingSplice` | scripts/increment-version.js:79-91 | with no "## [" the text is unchanged. Otherwise it is prefix + heading + suffix, split at the first "## ["; cutting the heading out gives the original; the new heading becomes the first "## [" |

## Left out

- UI components (tool bar, details panel, comment popup, modal) are layout and styling only. This includes `window.confirm` and `toLocaleString`.
- The host and orchestrator (`PdfAnnotator`, `PdfPage`): asynchronous pdf.js loading and rendering, canvas work, `getBoundingClientRect`, the global worker configuration and the page-range guard.
- React state batching and stale closures. Each handler is one atomic step on the current state; for example, `deleteAnnotation` reads the current selection, not a captured one.
- Optional callbacks: the log records a callback invocation as if every `on*` prop is supplied.
- `uuidv4()` and `new Date()`: their formats are not modelled. `HandlePointerUp` takes `id` and `now` even when it creates nothing; the source calls them only on creation.
- Number formatting in path strings: it is the parameter `fmt`. IEEE-754 rounding, NaN and infinities are not modelled. Coordinates are exact reals, apart from the exact `Number.MIN_VALUE` and `Number.MAX_VALUE` seeds.
- Presentation in the overlay: stroke width 2, cursor and pointer-event styles, the text box's padding and font, the "!" glyph's styling, and the click handler `onAnnotationClick`.
- The release script's file and process I/O: reading and writing `package.json` and `CHANGELOG.md`, the existence check, `console`, `process.exit` and the command-line argument.
- `Version.IncrementVersion`: does not model `parseInt` on a component that is not a run of decimal digits. On a missing or non-numeric component `parseInt` gives NaN. On a component that starts with digits it reads only that prefix, so `parseInt("3-beta", 10)` is 3 and "1.2.3-beta.1" becomes "1.2.4". Its requires (`CanIncrement`) asks the component it parses to be a non-empty run of decimal digits, so both of these inputs are outside the model. Numbers are exact naturals: the model does not capture the precision JavaScript loses above 2^53 in `parseInt(…) + 1`, nor the exponent notation the template literal uses from 1e21 on.
- `Version.ParseNatToStr`: the round trip holds for every natural, because `NatToStr` renders exact decimals. JavaScript's `${n}` agrees only below 1e21, and only for exactly representable numbers.
- Build and packaging configuration, and the re-exports of `src/index.ts`.
