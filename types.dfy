/** Records shared by both designers: the canvas's template (the pdfme `Template`,
    `Schema` and `Size` types) and the playground's own widget-group records.
    Coordinates are integers: the designers only add, subtract and compare them. */
module Types {

  datatype Option<+T> = None | Some(value: T) {
    function GetOr(default: T): T {
      match this
      case Some(v) => v
      case None => default
    }
  }

  /** A point, in page-global or in widget-local space; the caller knows which. */
  datatype Position = Position(x: int, y: int)

  /** A placed rectangle. */
  datatype Rect = Rect(width: int, height: int, position: Position)

  /** The size of one page of the base document. */
  datatype Size = Size(width: int, height: int)

  /** The margin `[top, right, bottom, left]` around the editable rectangle. */
  datatype Padding = Padding(top: int, right: int, bottom: int, left: int)

  /** A schema element on a page. Its type-specific properties are opaque here. */
  datatype Schema = Schema(
    name: string,
    schemaType: string,
    position: Position,
    width: int,
    height: int,
    props: map<string, string>)
  {
    function Bounds(): Rect { Rect(width, height, position) }
  }

  /** One entry of a JavaScript page array: `undefined` (a hole or an explicit
      `undefined`) or a page's list of schemas. */
  datatype PageSlot = Undefined | Page(schemas: seq<Schema>)

  type Pages = seq<PageSlot>

  /** The base document: a blank page of a given size, or an embedded PDF. */
  datatype BasePdf = BlankPdf(width: int, height: int, padding: Padding) | PdfData(dataUri: string)

  /** The canvas's view of the edit rectangle (`template.editWidgetInfo`). */
  datatype EditWidgetInfo = EditWidgetInfo(width: int, height: int, padding: Padding, pageCursor: nat)

  /** The template the canvas renders; `editWidgetInfo` is optional in the canvas's type. */
  datatype Template = Template(basePdf: BasePdf, schemas: Pages, editWidgetInfo: Option<EditWidgetInfo>)

  /** A persisted widget: schemas in widget-local space. */
  datatype Widget = Widget(id: string, name: string, schemas: seq<Schema>)

  /** A persisted widget group: a rectangle on one page of a base document. */
  datatype WidgetGroup = WidgetGroup(
    id: string,
    name: string,
    width: int,
    height: int,
    position: Position,
    pageCursor: nat,
    pageSize: Option<Size>,
    basePdf: string,
    widgets: seq<Widget>)

  /** The designers' live edit context (the `widgetEditInfoRef` cell). */
  datatype WidgetEditInfo = WidgetEditInfo(
    schemas: seq<Schema>,
    width: int,
    height: int,
    position: Position,
    pageCursor: nat,
    pageSizes: seq<Size>,
    pageSize: Option<Size>,
    basePdf: string)
  {
    function Bounds(): Rect { Rect(width, height, position) }
  }

  /** `pages[k]` read as JavaScript does: missing indices and holes are `undefined`. */
  function SlotAt(pages: Pages, k: nat): PageSlot {
    if k < |pages| then pages[k] else Undefined
  }

  /** The schemas at `pages[k]`, or `None` where JavaScript would read `undefined`. */
  function PageAt(pages: Pages, k: nat): (r: Option<seq<Schema>>)
    ensures r.Some? <==> k < |pages| && pages[k].Page?
    ensures r.Some? ==> r.value == pages[k].schemas
  {
    match SlotAt(pages, k)
    case Undefined => None
    case Page(s) => Some(s)
  }

  /** `pages[k] = v` on a JavaScript array: writing past the end grows the
      array, leaving holes between the old end and `k`. */
  function SetSlot(pages: Pages, k: nat, v: PageSlot): (r: Pages)
    ensures |r| == if k < |pages| then |pages| else k + 1
    ensures r[k] == v
    ensures forall j :: 0 <= j < |pages| && j != k ==> r[j] == pages[j]
    ensures forall j :: |pages| <= j < |r| && j != k ==> r[j] == Undefined
  {
    if k < |pages| then pages[k := v]
    else pages + seq(k - |pages|, _ => Undefined) + [v]
  }

  /** `sizes[k]`, `undefined` past the end. */
  function SizeAt(sizes: seq<Size>, k: nat): (r: Option<Size>)
    ensures r.Some? <==> k < |sizes|
    ensures r.Some? ==> r.value == sizes[k]
  {
    if k < |sizes| then Some(sizes[k]) else None
  }

  /** `Array.prototype.findIndex`: the first index whose element satisfies `p`, or -1. */
  function FindIndex<T>(xs: seq<T>, p: T -> bool): (r: int)
    ensures -1 <= r < |xs|
    ensures r == -1 <==> forall i :: 0 <= i < |xs| ==> !p(xs[i])
    ensures 0 <= r ==> p(xs[r]) && forall i :: 0 <= i < r ==> !p(xs[i])
  {
    if |xs| == 0 then -1
    else if p(xs[0]) then 0
    else
      var k := FindIndex(xs[1..], p);
      assert forall i :: 1 <= i < |xs| ==> xs[i] == xs[1..][i - 1];
      if k == -1 then -1 else k + 1
  }

  /** `Array.prototype.find`: the first element satisfying `p`. */
  function Find<T>(xs: seq<T>, p: T -> bool): (r: Option<T>)
    ensures r.None? <==> forall i :: 0 <= i < |xs| ==> !p(xs[i])
    ensures r.Some? ==> exists i :: 0 <= i < |xs| && xs[i] == r.value && p(r.value) && forall j :: 0 <= j < i ==> !p(xs[j])
  {
    var k := FindIndex(xs, p);
    if k == -1 then None else Some(xs[k])
  }

  /** `Array.prototype.join("")` on strings. */
  function Concat(ss: seq<string>): string {
    if |ss| == 0 then "" else ss[0] + Concat(ss[1..])
  }

  lemma ConcatSingle(x: string)
    ensures Concat([x]) == x
  {
    assert [x][1..] == [];
    assert x + "" == x;
  }

  lemma {:induction false} ConcatAppend(a: seq<string>, b: seq<string>)
    ensures Concat(a + b) == Concat(a) + Concat(b)
  {
    if |a| == 0 {
      assert a + b == b;
    } else {
      var ab := a + b;
      assert ab[0] == a[0];
      assert ab[1..] == a[1..] + b;
      ConcatAppend(a[1..], b);
      calc {
        Concat(ab);
        a[0] + Concat(a[1..] + b);
        a[0] + (Concat(a[1..]) + Concat(b));
        (a[0] + Concat(a[1..])) + Concat(b);
      }
    }
  }

  /** Joining one more string of a list appends it. */
  lemma ConcatSnoc(ss: seq<string>, n: nat)
    requires 0 < n <= |ss|
    ensures Concat(ss[..n]) == Concat(ss[..n - 1]) + ss[n - 1]
  {
    assert ss[..n] == ss[..n - 1] + [ss[n - 1]];
    ConcatAppend(ss[..n - 1], [ss[n - 1]]);
    ConcatSingle(ss[n - 1]);
  }

  /** What a page-sizes event does with the pending-cursor slot
      (`pageCursorToUpdateRef`): what is left in the slot, and the page it asks
      the canvas to scroll to later, if any. */
  datatype Taken = Taken(rest: Option<nat>, navigate: Option<nat>)

  /** A truthy pending cursor is handed out for a deferred scroll and the slot
      cleared; an empty slot and the falsy cursor 0 are left in place. */
  function TakePending(pending: Option<nat>): (r: Taken)
    ensures r.navigate.Some? <==> pending.Some? && pending.value != 0
    ensures r.navigate.Some? ==> r.navigate == pending && r.rest.None?
    ensures r.navigate.None? ==> r.rest == pending
  {
    match pending
    case Some(k) => if k != 0 then Taken(None, Some(k)) else Taken(pending, None)
    case None => Taken(None, None)
  }

  /** A pending cursor is handed out at most once. */
  lemma TakePendingOnce(pending: Option<nat>)
    ensures TakePending(TakePending(pending).rest).navigate.None?
    ensures TakePending(TakePending(pending).rest) == TakePending(pending).(navigate := None)
  {
  }

  /** Moves every schema by `(dx, dy)`, keeping everything else. */
  function Translate(schemas: seq<Schema>, dx: int, dy: int): (r: seq<Schema>)
    ensures |r| == |schemas|
    ensures forall i :: 0 <= i < |r| ==>
      r[i] == schemas[i].(position := Position(schemas[i].position.x + dx, schemas[i].position.y + dy))
  {
    if |schemas| == 0 then []
    else
      var s := schemas[0];
      [s.(position := Position(s.position.x + dx, s.position.y + dy))] + Translate(schemas[1..], dx, dy)
  }

  /** Translating back by the opposite offset restores every schema. */
  lemma TranslateInverse(schemas: seq<Schema>, dx: int, dy: int)
    ensures Translate(Translate(schemas, dx, dy), -dx, -dy) == schemas
  {
    var back := Translate(Translate(schemas, dx, dy), -dx, -dy);
    assert |back| == |schemas|;
    forall i | 0 <= i < |schemas| ensures back[i] == schemas[i] {
    }
  }
}
