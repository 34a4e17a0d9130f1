/** Geometry of the edit rectangle (playground/src/WidgetGroupDesigner/helper.ts):
    the padding around it and the containment test that gates saving. */
module GroupHelper {
  import opened Types
  import Helper

  const DEFAULT_WIDGET_EDIT_REC_SIZE: Size := Size(100, 60)

  /** The padding of the default 100 x 60 rectangle at the origin of an A4 page. */
  const DEFAULT_PADDING: Padding := Padding(
    0,
    Helper.DEFAULT_TEMPLATE_WIDTH - DEFAULT_WIDGET_EDIT_REC_SIZE.width,
    Helper.DEFAULT_TEMPLATE_HEIGHT - DEFAULT_WIDGET_EDIT_REC_SIZE.height,
    0)

  /** The placeholder rectangle schema that marks a widget group on the canvas. */
  function DefaultWidgetGroup(): (s: Schema)
    ensures s.name == "widgetGroup" && s.schemaType == "widgetGroup"
    ensures s.Bounds() == Rect(100, 60, Position(0, 0))
  {
    Schema("widgetGroup", "widgetGroup", Position(0, 0),
           DEFAULT_WIDGET_EDIT_REC_SIZE.width, DEFAULT_WIDGET_EDIT_REC_SIZE.height, map[])
  }

  /** The edit context a designer session starts with: the default rectangle at
      the origin of page 0 of a single A4 page, no backup, no base document. */
  function DefaultWidgetEditInfo(): (e: WidgetEditInfo)
    ensures e.Bounds() == Rect(100, 60, Position(0, 0)) && e.schemas == []
    ensures e.pageCursor == 0 && e.basePdf == ""
    ensures e.pageSizes == [Size(210, 297)] && e.pageSize == Some(e.pageSizes[0])
  {
    var a4 := Size(Helper.DEFAULT_TEMPLATE_WIDTH, Helper.DEFAULT_TEMPLATE_HEIGHT);
    WidgetEditInfo([], DEFAULT_WIDGET_EDIT_REC_SIZE.width, DEFAULT_WIDGET_EDIT_REC_SIZE.height,
                   Position(0, 0), 0, [a4], Some(a4), "")
  }

  /** The template both designers open with: one empty A4 page without margin
      and the default edit rectangle on page 0. */
  function BlankTemplate(): (t: Template)
    ensures |t.schemas| == 1 && t.schemas[0] == Page([])
    ensures t.basePdf == BlankPdf(210, 297, Padding(0, 0, 0, 0))
    ensures t.editWidgetInfo == Some(EditWidgetInfo(100, 60, DEFAULT_PADDING, 0))
  {
    Template(BlankPdf(Helper.DEFAULT_TEMPLATE_WIDTH, Helper.DEFAULT_TEMPLATE_HEIGHT, Padding(0, 0, 0, 0)),
             [Page([])],
             Some(EditWidgetInfo(100, 60, DEFAULT_PADDING, 0)))
  }

  /** The margin left around a `width` x `height` rectangle at `position` on a
      page; an omitted page width or height is the A4 default. */
  function TemplatePadding(pageWidth: Option<int>, pageHeight: Option<int>,
                           width: int, height: int, position: Position): (p: Padding)
    ensures p.top == position.y && p.left == position.x
    ensures p.left + width + p.right == pageWidth.GetOr(Helper.DEFAULT_TEMPLATE_WIDTH)
    ensures p.top + height + p.bottom == pageHeight.GetOr(Helper.DEFAULT_TEMPLATE_HEIGHT)
  {
    var w := pageWidth.GetOr(Helper.DEFAULT_TEMPLATE_WIDTH);
    var h := pageHeight.GetOr(Helper.DEFAULT_TEMPLATE_HEIGHT);
    Padding(position.y, w - position.x - width, h - position.y - height, position.x)
  }

  /** The "no constraint" padding: a zero-size rectangle at the origin. */
  function UnconstrainedPadding(pageWidth: Option<int>, pageHeight: Option<int>): Padding {
    TemplatePadding(pageWidth, pageHeight, 0, 0, Position(0, 0))
  }

  /** The rectangle a padding leaves free on a page (inverse of `TemplatePadding`). */
  function RectFromPadding(pageWidth: int, pageHeight: int, p: Padding): Rect {
    Rect(pageWidth - p.left - p.right, pageHeight - p.top - p.bottom, Position(p.left, p.top))
  }

  /** True iff some edge of `b` lies strictly outside the matching edge of `a`. */
  function IsRectangleBOutOfBounds(a: Rect, b: Rect): bool {
    b.position.x < a.position.x
    || b.position.x + b.width > a.position.x + a.width
    || b.position.y < a.position.y
    || b.position.y + b.height > a.position.y + a.height
  }

  /** `b` lies in `a` (edges may touch). */
  ghost predicate Contains(a: Rect, b: Rect) {
    a.position.x <= b.position.x && b.position.x + b.width <= a.position.x + a.width
    && a.position.y <= b.position.y && b.position.y + b.height <= a.position.y + a.height
  }

  function PageRect(w: int, h: int): Rect { Rect(w, h, Position(0, 0)) }

  predicate NonNegative(p: Padding) {
    p.top >= 0 && p.right >= 0 && p.bottom >= 0 && p.left >= 0
  }

  // ---------------------------------------------------------------------------
  // Padding laws

  /** The padding and the page size determine the rectangle. */
  lemma PaddingRoundTrip(w: int, h: int, width: int, height: int, position: Position)
    ensures RectFromPadding(w, h, TemplatePadding(Some(w), Some(h), width, height, position))
            == Rect(width, height, position)
  {
  }

  /** Every padding is the padding of the rectangle it leaves free. */
  lemma RectFromPaddingRoundTrip(w: int, h: int, p: Padding)
    ensures var r := RectFromPadding(w, h, p);
            TemplatePadding(Some(w), Some(h), r.width, r.height, r.position) == p
  {
  }

  /** All four margins are non-negative exactly when the rectangle lies on the page. */
  lemma PaddingNonNegativeIffInside(w: int, h: int, r: Rect)
    ensures NonNegative(TemplatePadding(Some(w), Some(h), r.width, r.height, r.position))
            <==> Contains(PageRect(w, h), r)
  {
  }

  /** ... which is the same as the save gate finding it in bounds. */
  lemma PaddingNonNegativeIffInBounds(w: int, h: int, r: Rect)
    ensures NonNegative(TemplatePadding(Some(w), Some(h), r.width, r.height, r.position))
            <==> !IsRectangleBOutOfBounds(PageRect(w, h), r)
  {
    PaddingNonNegativeIffInside(w, h, r);
    OutOfBoundsIffNotContained(PageRect(w, h), r);
  }

  /** The unconstrained padding collapses the margins to the whole page. */
  lemma UnconstrainedIsWholePage(w: int, h: int)
    ensures UnconstrainedPadding(Some(w), Some(h)) == Padding(0, w, h, 0)
  {
  }

  /** Omitted page dimensions are 210 x 297. */
  lemma PaddingDefaults(width: int, height: int, position: Position)
    ensures TemplatePadding(None, None, width, height, position)
            == TemplatePadding(Some(210), Some(297), width, height, position)
  {
  }

  /** The default padding is the padding of the default rectangle at the origin. */
  lemma DefaultPaddingIsDefaultRectangle()
    ensures DEFAULT_PADDING == TemplatePadding(Some(210), Some(297), 100, 60, Position(0, 0))
    ensures DEFAULT_PADDING == Padding(0, 110, 237, 0)
  {
  }

  // ---------------------------------------------------------------------------
  // Containment laws

  lemma OutOfBoundsIffNotContained(a: Rect, b: Rect)
    ensures IsRectangleBOutOfBounds(a, b) <==> !Contains(a, b)
  {
  }

  /** A rectangle is in bounds of itself. */
  lemma InBoundsOfItself(a: Rect)
    ensures !IsRectangleBOutOfBounds(a, a)
  {
  }

  /** A rectangle whose edges all touch `a`'s edges from inside is in bounds. */
  lemma TouchingEdgesInBounds(a: Rect, b: Rect)
    requires b.position.x == a.position.x || b.position.x + b.width == a.position.x + a.width
    requires b.position.y == a.position.y || b.position.y + b.height == a.position.y + a.height
    requires b.width <= a.width && b.height <= a.height
    ensures !IsRectangleBOutOfBounds(a, b)
  {
  }

  /** Moving one edge of an in-bounds rectangle outward by `d > 0`, with that
      edge already on `a`'s edge, puts it out of bounds; each of the four edges. */
  lemma MovingEdgeOutwardLeavesBounds(a: Rect, b: Rect, d: int)
    requires !IsRectangleBOutOfBounds(a, b) && d > 0
    ensures b.position.x == a.position.x ==>
      IsRectangleBOutOfBounds(a, Rect(b.width + d, b.height, Position(b.position.x - d, b.position.y)))
    ensures b.position.x + b.width == a.position.x + a.width ==>
      IsRectangleBOutOfBounds(a, Rect(b.width + d, b.height, b.position))
    ensures b.position.y == a.position.y ==>
      IsRectangleBOutOfBounds(a, Rect(b.width, b.height + d, Position(b.position.x, b.position.y - d)))
    ensures b.position.y + b.height == a.position.y + a.height ==>
      IsRectangleBOutOfBounds(a, Rect(b.width, b.height + d, b.position))
  {
  }

  /** A copy of `a` shifted by any non-zero offset leaves `a`'s bounds. */
  lemma ShiftedCopyOutOfBounds(a: Rect, dx: int, dy: int)
    requires dx != 0 || dy != 0
    ensures IsRectangleBOutOfBounds(a, Rect(a.width, a.height, Position(a.position.x + dx, a.position.y + dy)))
  {
  }

  /** Containment is transitive. */
  lemma InBoundsTransitive(a: Rect, b: Rect, c: Rect)
    requires !IsRectangleBOutOfBounds(a, b) && !IsRectangleBOutOfBounds(b, c)
    ensures !IsRectangleBOutOfBounds(a, c)
  {
  }
}
