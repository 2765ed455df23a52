/** The record shapes shared by the annotation store, the geometry helpers
    and the overlay layer (src/types.ts). Coordinates are mathematical reals;
    timestamps are readings of an abstract clock. */
module Types {

  datatype Option<+T> = None | Some(value: T)

  /** A reading of the clock that `new Date()` consults. */
  type Time = int

  datatype Point = Point(x: real, y: real)

  /** Axis-aligned box plus the zero-based page it belongs to. */
  datatype AnnotationRect = AnnotationRect(x: real, y: real, width: real, height: real, pageIndex: int)

  datatype AnnotationType =
    | Highlight | Underline | Strikeout | Rectangle | Drawing
    | Highlighting | Text | Comment | Pin

  /** The interaction tool; `NoneMode` is the select/pan mode. */
  datatype AnnotationMode =
    | NoneMode | HighlightMode | UnderlineMode | StrikeoutMode | RectangleMode
    | DrawingMode | HighlightingMode | TextMode | CommentMode | PinMode

  /** The string value each enum member carries. */
  function TypeValue(t: AnnotationType): string {
    match t
    case Highlight => "highlight"
    case Underline => "underline"
    case Strikeout => "strikeout"
    case Rectangle => "rectangle"
    case Drawing => "drawing"
    case Highlighting => "highlighting"
    case Text => "text"
    case Comment => "comment"
    case Pin => "pin"
  }

  function ModeValue(m: AnnotationMode): string {
    match m
    case NoneMode => "none"
    case HighlightMode => "highlight"
    case UnderlineMode => "underline"
    case StrikeoutMode => "strikeout"
    case RectangleMode => "rectangle"
    case DrawingMode => "drawing"
    case HighlightingMode => "highlighting"
    case TextMode => "text"
    case CommentMode => "comment"
    case PinMode => "pin"
  }

  datatype TagInterface = TagInterface(tagId: Option<string>, tag: string, tipo: string)

  datatype CategoryItem = CategoryItem(category: int, displayName: string, color: string)

  /** One annotation record. The field `type` of the source is called `kind`
      here (`type` is a keyword). `color` and `content` are optional because
      the constructors may store `undefined` in them. */
  datatype Annotation = Annotation(
    id: string,
    kind: AnnotationType,
    rect: AnnotationRect,
    pageIndex: int,
    color: Option<string>,
    content: Option<string>,
    points: Option<seq<Point>>,
    tags: Option<seq<TagInterface>>,
    createdAt: Time,
    updatedAt: Option<Time>,
    category: Option<CategoryItem>,
    thickness: Option<real>)

  /** A `Partial<Annotation>`: `None` leaves a field out of the patch,
      `Some(v)` sets it to `v` (for an optional field `v` may itself be
      absent). `updatedAt` is left out because the update overwrites it. */
  datatype Patch = Patch(
    id: Option<string>,
    kind: Option<AnnotationType>,
    rect: Option<AnnotationRect>,
    pageIndex: Option<int>,
    color: Option<Option<string>>,
    content: Option<Option<string>>,
    points: Option<Option<seq<Point>>>,
    tags: Option<Option<seq<TagInterface>>>,
    createdAt: Option<Time>,
    category: Option<Option<CategoryItem>>,
    thickness: Option<Option<real>>)

  const EmptyPatch: Patch :=
    Patch(None, None, None, None, None, None, None, None, None, None, None)

  /** The identifiers present in a collection. */
  function Ids(annotations: seq<Annotation>): set<string> {
    set a | a in annotations :: a.id
  }
}
