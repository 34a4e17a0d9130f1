/** The widget designer session (playground/src/WidgetDesigner/index.tsx): inside
    a saved widget group's rectangle the user lays out schemas and saves them as
    a widget of that group, in coordinates local to the rectangle. The persisted
    list of groups is passed in and returned. */
module WidgetDesigner {
  import opened Types
  import GroupHelper

  // ---------------------------------------------------------------------------
  // Naming: `schema.name.indexOf(id) === -1 ? `${id}_${name}` : name`

  /** `sub` occurs in `s` at index `k`. */
  predicate OccursAt(s: string, sub: string, k: nat) {
    k + |sub| <= |s| && s[k..k + |sub|] == sub
  }

  lemma OccursShift(s: string, sub: string)
    requires |s| > 0
    ensures forall j: nat :: OccursAt(s[1..], sub, j) ==> OccursAt(s, sub, j + 1)
    ensures forall j: nat :: 0 < j && OccursAt(s, sub, j) ==> OccursAt(s[1..], sub, j - 1)
  {
    forall j: nat ensures OccursAt(s[1..], sub, j) <==> OccursAt(s, sub, j + 1) {
      if j + 1 + |sub| <= |s| {
        assert s[1..][j..j + |sub|] == s[j + 1..j + 1 + |sub|];
      }
    }
  }

  /** `String.prototype.indexOf`: the first index where `sub` occurs, or -1. */
  function IndexOf(s: string, sub: string): (r: int)
    ensures -1 <= r
    ensures r == -1 <==> forall k: nat :: !OccursAt(s, sub, k)
    ensures r >= 0 ==> OccursAt(s, sub, r) && forall k: nat :: k < r ==> !OccursAt(s, sub, k)
    decreases |s|
  {
    if |sub| > |s| then -1
    else if s[..|sub|] == sub then
      assert OccursAt(s, sub, 0);
      0
    else
      OccursShift(s, sub);
      assert !OccursAt(s, sub, 0);
      var k := IndexOf(s[1..], sub);
      if k == -1 then -1 else k + 1
  }

  /** The name a schema is saved under in widget `id`. */
  function NameFor(name: string, id: string): string {
    if IndexOf(name, id) == -1 then id + "_" + name else name
  }

  /** A saved name always contains the widget id... */
  lemma NameForContainsId(name: string, id: string)
    ensures IndexOf(NameFor(name, id), id) != -1
  {
    if IndexOf(name, id) == -1 {
      assert OccursAt(id + "_" + name, id, 0);
    }
  }

  /** ...so naming is idempotent... */
  lemma NameForIdempotent(name: string, id: string)
    ensures NameFor(NameFor(name, id), id) == NameFor(name, id)
  {
    NameForContainsId(name, id);
  }

  /** ...and a name holding the id anywhere, not only at the front, is kept. */
  lemma NameForKeepsInfix(before: string, id: string, after: string)
    ensures NameFor(before + id + after, id) == before + id + after
  {
    assert OccursAt(before + id + after, id, |before|);
  }

  // ---------------------------------------------------------------------------
  // Rebasing between page-global and widget-local coordinates

  function Renamed(schemas: seq<Schema>, id: string): (r: seq<Schema>)
    ensures |r| == |schemas|
    ensures forall i :: 0 <= i < |r| ==> r[i] == schemas[i].(name := NameFor(schemas[i].name, id))
  {
    if |schemas| == 0 then [] else [schemas[0].(name := NameFor(schemas[0].name, id))] + Renamed(schemas[1..], id)
  }

  /** The schemas a save stores: one per schema on the page, in order, named
      for the widget and moved into coordinates local to the group's rectangle. */
  function ToWidgetSchemas(page: seq<Schema>, id: string, origin: Position): (r: seq<Schema>)
    ensures |r| == |page|
    ensures forall i :: 0 <= i < |r| ==>
      && r[i].name == NameFor(page[i].name, id)
      && r[i].position == Position(page[i].position.x - origin.x, page[i].position.y - origin.y)
      && r[i] == page[i].(name := r[i].name, position := r[i].position)
  {
    Renamed(Translate(page, -origin.x, -origin.y), id)
  }

  /** The page array a selection builds: `cursor` empty pages, then the
      widget's schemas on the group's page. */
  function SelectPages(schemas: seq<Schema>, cursor: nat): (r: Pages)
    ensures |r| == cursor + 1
    ensures r[cursor] == Page(schemas)
    ensures forall j :: 0 <= j < cursor ==> r[j] == Page([])
  {
    seq(cursor + 1, _ => Page([]))[cursor := Page(schemas)]
  }

  /** Selecting a widget and saving it again with the group where it was
      restores its local schemas, provided each name already holds the id. */
  lemma RebaseRoundTrip(local: seq<Schema>, id: string, origin: Position)
    requires forall i :: 0 <= i < |local| ==> IndexOf(local[i].name, id) != -1
    ensures ToWidgetSchemas(Translate(local, origin.x, origin.y), id, origin) == local
  {
    var back := ToWidgetSchemas(Translate(local, origin.x, origin.y), id, origin);
    forall i | 0 <= i < |local| ensures back[i] == local[i] {
    }
  }

  // ---------------------------------------------------------------------------
  // The widget list of a group

  /** `widgets.findIndex(v => v.id === id)`. */
  function WidgetIndex(widgets: seq<Widget>, id: string): (r: int)
    ensures -1 <= r < |widgets|
    ensures r == -1 <==> forall i :: 0 <= i < |widgets| ==> widgets[i].id != id
    ensures 0 <= r ==> widgets[r].id == id && forall i :: 0 <= i < r ==> widgets[i].id != id
  {
    FindIndex(widgets, (v: Widget) => v.id == id)
  }

  /** Replaces the first widget with `w`'s id in place, or appends `w`. */
  function Upsert(widgets: seq<Widget>, w: Widget): (r: seq<Widget>)
    ensures WidgetIndex(widgets, w.id) != -1 ==>
      && |r| == |widgets|
      && r[WidgetIndex(widgets, w.id)] == w
      && forall j :: 0 <= j < |widgets| && j != WidgetIndex(widgets, w.id) ==> r[j] == widgets[j]
    ensures WidgetIndex(widgets, w.id) == -1 ==> r == widgets + [w]
    ensures w in r
  {
    var k := WidgetIndex(widgets, w.id);
    if k == -1 then widgets + [w] else widgets[k := w]
  }

  predicate UniqueIds(widgets: seq<Widget>) {
    forall i, j :: 0 <= i < j < |widgets| ==> widgets[i].id != widgets[j].id
  }

  /** Upserting keeps widget ids unique... */
  lemma UpsertKeepsIdsUnique(widgets: seq<Widget>, w: Widget)
    requires UniqueIds(widgets)
    ensures UniqueIds(Upsert(widgets, w))
  {
    var r := Upsert(widgets, w);
    var k := WidgetIndex(widgets, w.id);
    forall i, j | 0 <= i < j < |r| ensures r[i].id != r[j].id {
      if k == -1 {
        if j == |widgets| {
          assert r[i] == widgets[i];
        } else {
          assert r[i] == widgets[i] && r[j] == widgets[j];
        }
      } else if i == k {
        assert r[j] == widgets[j];
        assert widgets[k].id == w.id;
      } else if j == k {
        assert r[i] == widgets[i];
        assert widgets[k].id == w.id;
      } else {
        assert r[i] == widgets[i] && r[j] == widgets[j];
      }
    }
  }

  /** ...and saving the same widget twice is saving it once. */
  lemma UpsertIdempotent(widgets: seq<Widget>, w: Widget)
    ensures Upsert(Upsert(widgets, w), w) == Upsert(widgets, w)
  {
    var once := Upsert(widgets, w);
    var k := WidgetIndex(widgets, w.id);
    var k' := WidgetIndex(once, w.id);
    if k == -1 {
      assert once[|widgets|] == w;
      assert k' == |widgets|;
      assert once[k' := w] == once;
    } else {
      assert once[k] == w;
      assert k' == k;
      assert once[k' := w] == once;
    }
  }

  // ---------------------------------------------------------------------------
  // Save eligibility

  /** `schemas.some(s => isRectangleBOutOfBounds(rect, s))`. */
  function AnyOutOfBounds(rect: Rect, schemas: seq<Schema>): (r: bool)
    ensures r <==> exists i :: 0 <= i < |schemas| && GroupHelper.IsRectangleBOutOfBounds(rect, schemas[i].Bounds())
  {
    if |schemas| == 0 then false
    else
      assert forall i :: 1 <= i < |schemas| ==> schemas[i] == schemas[1..][i - 1];
      GroupHelper.IsRectangleBOutOfBounds(rect, schemas[0].Bounds()) || AnyOutOfBounds(rect, schemas[1..])
  }

  /** The schemas on the page of the edit context; an undefined page reads as none. */
  function ActivePage(e: WidgetEditInfo, t: Template): seq<Schema> {
    PageAt(t.schemas, e.pageCursor).GetOr([])
  }

  /** `onChangeTemplate`'s verdict: nothing to save, or something sticks out. */
  function Blocked(e: WidgetEditInfo, t: Template): bool {
    |ActivePage(e, t)| == 0 || AnyOutOfBounds(e.Bounds(), ActivePage(e, t))
  }

  // ---------------------------------------------------------------------------
  // Session state and handlers

  /** Everything the handlers read and write: the refs (edit context, pending
      cursor, group id), the component's state and the canvas's template. */
  datatype WidgetState = WidgetState(
    editInfo: WidgetEditInfo,
    pending: Option<nat>,
    groupId: string,
    selectedWidgetId: string,
    widgetName: string,
    action: string,
    saveBlocked: bool,
    widgets: seq<Widget>,
    widgetGroup: Option<WidgetGroup>,
    template: Template)

  /** A handler's effect; `ok` is false where the handler throws. */
  datatype Outcome = Outcome(state: WidgetState, ok: bool)

  datatype SaveOutcome = SaveOutcome(state: WidgetState, stored: seq<WidgetGroup>, ok: bool)

  function Initial(): (s: WidgetState)
    ensures s.editInfo == GroupHelper.DefaultWidgetEditInfo() && s.template == GroupHelper.BlankTemplate()
    ensures s.action == "new" && s.saveBlocked && s.widgets == [] && s.widgetGroup.None? && s.pending.None?
  {
    WidgetState(GroupHelper.DefaultWidgetEditInfo(), None, "", "", "", "new", true, [], None, GroupHelper.BlankTemplate())
  }

  /** `finalIsDisabledSaveBtn`. */
  predicate SaveButtonDisabled(s: WidgetState) {
    s.saveBlocked || s.widgetName == ""
  }

  /** `onChangeTemplate`: recomputes the verdict for the current template. */
  function ChangeTemplateStep(s: WidgetState): (r: WidgetState)
    ensures r == s.(saveBlocked := r.saveBlocked)
    ensures r.saveBlocked <==>
      || |ActivePage(s.editInfo, s.template)| == 0
      || exists i :: 0 <= i < |ActivePage(s.editInfo, s.template)|
           && GroupHelper.IsRectangleBOutOfBounds(s.editInfo.Bounds(), ActivePage(s.editInfo, s.template)[i].Bounds())
  {
    s.(saveBlocked := Blocked(s.editInfo, s.template))
  }

  /** `updateTemplate` once the change callback is registered. */
  function Updated(s: WidgetState, t: Template): (r: WidgetState)
    ensures r == ChangeTemplateStep(s.(template := t))
  {
    s.(template := t, saveBlocked := Blocked(s.editInfo, t))
  }

  /** After the template changes, saving is disabled exactly when the name is
      empty, the active page holds no schema, or one of its schemas sticks out
      of the edit rectangle. */
  lemma SaveDisabledIff(s: WidgetState)
    ensures SaveButtonDisabled(ChangeTemplateStep(s)) <==>
      || s.widgetName == ""
      || |ActivePage(s.editInfo, s.template)| == 0
      || exists i :: 0 <= i < |ActivePage(s.editInfo, s.template)|
           && GroupHelper.IsRectangleBOutOfBounds(s.editInfo.Bounds(), ActivePage(s.editInfo, s.template)[i].Bounds())
  {
  }

  /** The padding the initial load gives the canvas: the group's rectangle on
      the group's page when that page is the first, no constraint otherwise.
      `None` where the group has no page size. */
  function LoadPadding(g: WidgetGroup): (r: Option<Padding>)
    ensures r.Some? <==> g.pageSize.Some?
    ensures r.Some? ==> GroupHelper.RectFromPadding(g.pageSize.value.width, g.pageSize.value.height, r.value)
                        == if g.pageCursor == 0 then Rect(g.width, g.height, g.position) else Rect(0, 0, Position(0, 0))
  {
    match g.pageSize
    case None => None
    case Some(size) =>
      var w, h := size.width, size.height;
      if g.pageCursor == 0 then
        GroupHelper.PaddingRoundTrip(w, h, g.width, g.height, g.position);
        Some(GroupHelper.TemplatePadding(Some(w), Some(h), g.width, g.height, g.position))
      else
        GroupHelper.PaddingRoundTrip(w, h, 0, 0, Position(0, 0));
        Some(GroupHelper.UnconstrainedPadding(Some(w), Some(h)))
  }

  /** The padding a page-cursor event gives the canvas: the edit rectangle on
      the stored page, no constraint on any other. `None` where the stored page
      size is undefined. */
  function CursorPadding(e: WidgetEditInfo, cursor: nat): (r: Option<Padding>)
    ensures r.Some? <==> e.pageSize.Some?
    ensures r.Some? ==> GroupHelper.RectFromPadding(e.pageSize.value.width, e.pageSize.value.height, r.value)
                        == if cursor == e.pageCursor then e.Bounds() else Rect(0, 0, Position(0, 0))
  {
    match e.pageSize
    case None => None
    case Some(size) =>
      var w, h := size.width, size.height;
      if cursor != e.pageCursor then
        GroupHelper.PaddingRoundTrip(w, h, 0, 0, Position(0, 0));
        Some(GroupHelper.UnconstrainedPadding(Some(w), Some(h)))
      else
        GroupHelper.PaddingRoundTrip(w, h, e.width, e.height, e.position);
        Some(GroupHelper.TemplatePadding(Some(w), Some(h), e.width, e.height, e.position))
  }

  /** The edit context a group opens with (it carries no page sizes). */
  function EditInfoOf(g: WidgetGroup, schemas: seq<Schema>): (e: WidgetEditInfo)
    ensures e.Bounds() == Rect(g.width, g.height, g.position) && e.schemas == schemas && e.pageSizes == []
    ensures e.pageCursor == g.pageCursor && e.pageSize == g.pageSize && e.basePdf == g.basePdf
  {
    WidgetEditInfo(schemas, g.width, g.height, g.position, g.pageCursor, [], g.pageSize, g.basePdf)
  }

  /** `getWidgetsFromLocalStorage`, run while the canvas is built (before the
      change callback is registered): opens the group `groupId` from the store. */
  function LoadStep(s: WidgetState, groupId: string, stored: seq<WidgetGroup>): (r: Outcome)
    ensures r.state.groupId == groupId
    ensures r.state.saveBlocked == s.saveBlocked && r.state.widgetName == s.widgetName
    ensures r.state.selectedWidgetId == s.selectedWidgetId && r.state.action == s.action
    ensures Find(stored, (g: WidgetGroup) => g.id == groupId).None? ==> r.ok && r.state == s.(groupId := groupId)
    ensures Find(stored, (g: WidgetGroup) => g.id == groupId).Some? ==>
      var g := Find(stored, (g: WidgetGroup) => g.id == groupId).value;
      && g in stored && g.id == groupId
      && r.state.editInfo == EditInfoOf(g, [])
      && r.state.widgetGroup == Some(g) && r.state.widgets == g.widgets
      && r.state.pending == Some(g.pageCursor)
      && (r.ok <==> g.pageSize.Some? && s.template.editWidgetInfo.Some?)
      && (!r.ok ==> r.state.template == s.template)
      && (r.ok ==>
            && r.state.template.schemas == s.template.schemas
            && r.state.template.basePdf == (if g.basePdf != "" then PdfData(g.basePdf) else s.template.basePdf)
            && r.state.template.editWidgetInfo
               == Some(s.template.editWidgetInfo.value.(padding := LoadPadding(g).value, pageCursor := g.pageCursor)))
  {
    var s0 := s.(groupId := groupId);
    match Find(stored, (g: WidgetGroup) => g.id == groupId)
    case None => Outcome(s0, true)
    case Some(g) =>
      var s1 := s0.(editInfo := EditInfoOf(g, []), widgetGroup := Some(g), widgets := g.widgets,
                    pending := Some(g.pageCursor));
      var base := if g.basePdf != "" then PdfData(g.basePdf) else s.template.basePdf;
      match LoadPadding(g)
      case None => Outcome(s1, false)
      case Some(padding) =>
        match s.template.editWidgetInfo
        case None => Outcome(s1, false)
        case Some(info) =>
          Outcome(s1.(template := s.template.(basePdf := base,
                                              editWidgetInfo := Some(info.(padding := padding, pageCursor := g.pageCursor)))),
                  true)
  }

  /** The id a save stores under: the selected widget's, else a fresh one. */
  function SaveId(s: WidgetState, freshId: string): string {
    if s.selectedWidgetId != "" then s.selectedWidgetId else freshId
  }

  /** `widgetGroups.findIndex(w => w.id === groupId)`. */
  function GroupIndex(stored: seq<WidgetGroup>, groupId: string): (r: int)
    ensures -1 <= r < |stored|
    ensures r == -1 <==> forall i :: 0 <= i < |stored| ==> stored[i].id != groupId
    ensures 0 <= r ==> stored[r].id == groupId && forall i :: 0 <= i < r ==> stored[i].id != groupId
  {
    FindIndex(stored, (g: WidgetGroup) => g.id == groupId)
  }

  /** `onSaveWidget`: stores the active page as a widget of the open group.
      It throws, changing nothing, when the group is not in the store or the
      active page is undefined. */
  function SaveStep(s: WidgetState, stored: seq<WidgetGroup>, freshId: string): (r: SaveOutcome)
    ensures r.ok <==> GroupIndex(stored, s.groupId) != -1 && PageAt(s.template.schemas, s.editInfo.pageCursor).Some?
    ensures !r.ok ==> r.state == s && r.stored == stored
    ensures r.ok ==>
      var gi := GroupIndex(stored, s.groupId);
      var g := stored[gi];
      var id := SaveId(s, freshId);
      var page := PageAt(s.template.schemas, s.editInfo.pageCursor).value;
      var w := Widget(id, s.widgetName, ToWidgetSchemas(page, id, g.position));
      && |r.stored| == |stored|
      && r.stored[gi] == g.(widgets := Upsert(g.widgets, w))
      && (forall j :: 0 <= j < |stored| && j != gi ==> r.stored[j] == stored[j])
      && r.state.widgets == r.stored[gi].widgets
      && (WidgetIndex(g.widgets, id) == -1 ==> r.state.selectedWidgetId == id && r.state.action == "update")
      && (WidgetIndex(g.widgets, id) != -1 ==> r.state.selectedWidgetId == s.selectedWidgetId && r.state.action == s.action)
      && r.state == s.(widgets := r.state.widgets, selectedWidgetId := r.state.selectedWidgetId, action := r.state.action)
  {
    var gi := GroupIndex(stored, s.groupId);
    if gi == -1 then SaveOutcome(s, stored, false)
    else
      match PageAt(s.template.schemas, s.editInfo.pageCursor)
      case None => SaveOutcome(s, stored, false)
      case Some(page) =>
        var g := stored[gi];
        var id := SaveId(s, freshId);
        var w := Widget(id, s.widgetName, ToWidgetSchemas(page, id, g.position));
        var ws := Upsert(g.widgets, w);
        var s1 := s.(widgets := ws);
        var s2 := if WidgetIndex(g.widgets, id) == -1 then s1.(selectedWidgetId := id, action := "update") else s1;
        SaveOutcome(s2, stored[gi := g.(widgets := ws)], true)
  }

  /** `onChangeWidgetSelect`: opens widget `id` of the loaded group on a fresh
      blank template, its schemas moved back to page-global coordinates. */
  function SelectStep(s: WidgetState, id: string): (r: Outcome)
    ensures Find(s.widgets, (w: Widget) => w.id == id).None? || s.widgetGroup.None? ==> r.ok && r.state == s
    ensures Find(s.widgets, (w: Widget) => w.id == id).Some? && s.widgetGroup.Some? ==>
      var w := Find(s.widgets, (w: Widget) => w.id == id).value;
      var g := s.widgetGroup.value;
      var global := Translate(w.schemas, g.position.x, g.position.y);
      && w in s.widgets && w.id == id
      && (r.ok <==> g.pageSize.Some?)
      && (!r.ok ==> r.state == s)
      && (r.ok ==>
            && r.state.editInfo == EditInfoOf(g, global)
            && r.state.selectedWidgetId == id && r.state.widgetName == w.name
            && r.state.pending == (if g.basePdf != "" then Some(g.pageCursor) else s.pending)
            && r.state.template.schemas == SelectPages(global, g.pageCursor)
            && r.state.template.basePdf
               == (if g.basePdf != "" then PdfData(g.basePdf) else GroupHelper.BlankTemplate().basePdf)
            && r.state.template.editWidgetInfo.Some?
            && r.state.template.editWidgetInfo.value.pageCursor == g.pageCursor
            && r.state.template.editWidgetInfo.value.width == g.width
            && r.state.template.editWidgetInfo.value.height == g.height
            && GroupHelper.RectFromPadding(g.pageSize.value.width, g.pageSize.value.height,
                                           r.state.template.editWidgetInfo.value.padding)
               == Rect(g.width, g.height, g.position)
            && r.state.saveBlocked == Blocked(r.state.editInfo, r.state.template)
            && r.state == s.(editInfo := r.state.editInfo, selectedWidgetId := id, widgetName := w.name,
                             pending := r.state.pending, template := r.state.template,
                             saveBlocked := r.state.saveBlocked))
  {
    match Find(s.widgets, (w: Widget) => w.id == id)
    case None => Outcome(s, true)
    case Some(w) =>
      match s.widgetGroup
      case None => Outcome(s, true)
      case Some(g) =>
        match g.pageSize
        case None => Outcome(s, false)
        case Some(size) =>
          var padding := GroupHelper.TemplatePadding(Some(size.width), Some(size.height), g.width, g.height, g.position);
          GroupHelper.PaddingRoundTrip(size.width, size.height, g.width, g.height, g.position);
          var global := Translate(w.schemas, g.position.x, g.position.y);
          var blank := GroupHelper.BlankTemplate();
          var t := blank.(editWidgetInfo := Some(EditWidgetInfo(g.width, g.height, padding, g.pageCursor)),
                          schemas := SelectPages(global, g.pageCursor),
                          basePdf := if g.basePdf != "" then PdfData(g.basePdf) else blank.basePdf);
          var s1 := s.(editInfo := EditInfoOf(g, global), selectedWidgetId := id, widgetName := w.name,
                       pending := if g.basePdf != "" then Some(g.pageCursor) else s.pending);
          Outcome(Updated(s1, t), true)
  }

  /** `onChangePageCursor`: only the canvas's padding changes; the stored
      cursor stays on the group's page. */
  function PageCursorStep(s: WidgetState, cursor: nat): (r: Outcome)
    ensures r.state.editInfo == s.editInfo && r.state.pending == s.pending
    ensures r.ok <==> s.editInfo.pageSize.Some? && s.template.editWidgetInfo.Some?
    ensures !r.ok ==> r.state == s
    ensures r.ok ==>
      && r.state == Updated(s, s.template.(editWidgetInfo := r.state.template.editWidgetInfo))
      && r.state.template.editWidgetInfo == Some(s.template.editWidgetInfo.value.(padding := CursorPadding(s.editInfo, cursor).value))
  {
    match CursorPadding(s.editInfo, cursor)
    case None => Outcome(s, false)
    case Some(padding) =>
      match s.template.editWidgetInfo
      case None => Outcome(s, false)
      case Some(info) => Outcome(Updated(s, s.template.(editWidgetInfo := Some(info.(padding := padding)))), true)
  }

  /** `onChangePageSizes`: only the pending cursor is consumed. */
  function PageSizesStep(s: WidgetState, sizes: seq<Size>): (r: (WidgetState, Option<nat>))
    ensures r.0 == s.(pending := TakePending(s.pending).rest)
    ensures r.1 == TakePending(s.pending).navigate
  {
    var taken := TakePending(s.pending);
    (s.(pending := taken.rest), taken.navigate)
  }

  /** `onChangeActionRadio`: clears name and selection; "new" also empties
      every page of the canvas. */
  function ActionStep(s: WidgetState, action: string): (r: WidgetState)
    ensures r.widgetName == "" && r.selectedWidgetId == "" && r.action == action
    ensures r == s.(widgetName := "", selectedWidgetId := "", action := action,
                    template := r.template, saveBlocked := r.saveBlocked)
    ensures action == "new" ==>
      && |r.template.schemas| == |s.template.schemas|
      && (forall j :: 0 <= j < |r.template.schemas| ==> r.template.schemas[j] == Page([]))
      && r.template == s.template.(schemas := r.template.schemas)
      && r.saveBlocked
    ensures action != "new" ==> r.template == s.template && r.saveBlocked == s.saveBlocked
    ensures SaveButtonDisabled(r)
  {
    var s1 := s.(widgetName := "", selectedWidgetId := "", action := action);
    if action == "new" then Updated(s1, s.template.(schemas := seq(|s.template.schemas|, _ => Page([]))))
    else s1
  }

  // ---------------------------------------------------------------------------
  // Properties across events

  /** Selecting a widget and saving straight away stores it unchanged, when
      its schema names already hold its id and the stored group sits where
      the loaded one does. */
  lemma SelectThenSave(s: WidgetState, id: string, stored: seq<WidgetGroup>, freshId: string)
    requires id != ""
    requires Find(s.widgets, (w: Widget) => w.id == id).Some? && s.widgetGroup.Some?
    requires s.widgetGroup.value.pageSize.Some?
    requires GroupIndex(stored, s.groupId) != -1
    requires stored[GroupIndex(stored, s.groupId)].position == s.widgetGroup.value.position
    requires var w := Find(s.widgets, (w: Widget) => w.id == id).value;
             forall i :: 0 <= i < |w.schemas| ==> IndexOf(w.schemas[i].name, id) != -1
    ensures var selected := SelectStep(s, id);
            var saved := SaveStep(selected.state, stored, freshId);
            var w := Find(s.widgets, (w: Widget) => w.id == id).value;
            && selected.ok && saved.ok
            && w in saved.stored[GroupIndex(stored, s.groupId)].widgets
  {
    var w := Find(s.widgets, (w: Widget) => w.id == id).value;
    var g := s.widgetGroup.value;
    var s1 := SelectStep(s, id).state;
    var global := Translate(w.schemas, g.position.x, g.position.y);
    assert s1.template.schemas == SelectPages(global, g.pageCursor);
    assert s1.editInfo.pageCursor == g.pageCursor;
    assert PageAt(s1.template.schemas, s1.editInfo.pageCursor) == Some(global);
    assert SaveId(s1, freshId) == id;
    RebaseRoundTrip(w.schemas, id, g.position);
    var saved := Widget(id, s1.widgetName, ToWidgetSchemas(global, id, g.position));
    assert saved == w;
  }

  /** A selection with a base document sets the pending cursor to the group's
      page (without one it is left as it was); the next page-sizes event hands it out (unless it is page 0)
      and the one after that hands out nothing. */
  lemma SelectPendingOnce(s: WidgetState, id: string, sizes: seq<Size>)
    requires Find(s.widgets, (w: Widget) => w.id == id).Some? && s.widgetGroup.Some?
    requires s.widgetGroup.value.pageSize.Some?
    ensures var g := s.widgetGroup.value;
            var s1 := SelectStep(s, id).state;
            var (s2, nav1) := PageSizesStep(s1, sizes);
            var (_, nav2) := PageSizesStep(s2, sizes);
            && (g.basePdf != "" ==> s1.pending == Some(g.pageCursor))
            && (g.basePdf != "" && g.pageCursor != 0 ==> nav1 == Some(g.pageCursor))
            && nav2.None?
  {
    var s1 := SelectStep(s, id).state;
    TakePendingOnce(s1.pending);
  }

  /** The worked example: a 100 x 60 group at (10, 10) on page 0 of an A4
      page opens with padding [10, 100, 227, 10]; on page 2 with none. */
  lemma LoadPaddingExample()
    ensures LoadPadding(WidgetGroup("g", "G", 100, 60, Position(10, 10), 0, Some(Size(210, 297)), "", []))
            == Some(Padding(10, 100, 227, 10))
    ensures LoadPadding(WidgetGroup("g", "G", 100, 60, Position(10, 10), 2, Some(Size(210, 297)), "", []))
            == Some(Padding(0, 210, 297, 0))
  {
  }

  // ---------------------------------------------------------------------------
  // The component's refs and state, updated by its handlers.

  class WidgetSession {
    var editInfo: WidgetEditInfo
    var pending: Option<nat>
    var groupId: string
    var selectedWidgetId: string
    var widgetName: string
    var action: string
    var saveBlocked: bool
    var widgets: seq<Widget>
    var widgetGroup: Option<WidgetGroup>
    var template: Template

    function State(): WidgetState
      reads this
    {
      WidgetState(editInfo, pending, groupId, selectedWidgetId, widgetName, action, saveBlocked,
                  widgets, widgetGroup, template)
    }

    constructor ()
      ensures State() == Initial()
    {
      editInfo := GroupHelper.DefaultWidgetEditInfo();
      pending := None;
      groupId := "";
      selectedWidgetId := "";
      widgetName := "";
      action := "new";
      saveBlocked := true;
      widgets := [];
      widgetGroup := None;
      template := GroupHelper.BlankTemplate();
    }

    /** Whether the save button is disabled. */
    function SaveDisabled(): bool
      reads this
    {
      SaveButtonDisabled(State())
    }

    /** The name input. */
    method OnChangeName(name: string)
      modifies this
      ensures State() == old(State()).(widgetName := name)
    {
      widgetName := name;
    }

    /** `updateTemplate`, which reports back through `onChangeTemplate`. */
    method UpdateTemplate(t: Template)
      modifies this
      ensures State() == Updated(old(State()), t)
    {
      template := t;
      saveBlocked := Blocked(editInfo, template);
    }

    method Load(id: string, stored: seq<WidgetGroup>) returns (ok: bool)
      modifies this
      ensures State() == LoadStep(old(State()), id, stored).state
      ensures ok == LoadStep(old(State()), id, stored).ok
    {
      groupId := id;
      var found := Find(stored, (g: WidgetGroup) => g.id == id);
      if found.None? {
        return true;
      }
      var g := found.value;
      editInfo := EditInfoOf(g, []);
      widgetGroup := Some(g);
      widgets := g.widgets;
      pending := Some(g.pageCursor);
      var padding := LoadPadding(g);
      if padding.None? || template.editWidgetInfo.None? {
        return false;
      }
      if g.basePdf != "" {
        template := template.(basePdf := PdfData(g.basePdf));
      }
      template := template.(editWidgetInfo := Some(template.editWidgetInfo.value.(padding := padding.value,
                                                                                pageCursor := g.pageCursor)));
      ok := true;
    }

    method OnSaveWidget(stored: seq<WidgetGroup>, freshId: string) returns (newStored: seq<WidgetGroup>, ok: bool)
      modifies this
      ensures State() == SaveStep(old(State()), stored, freshId).state
      ensures newStored == SaveStep(old(State()), stored, freshId).stored
      ensures ok == SaveStep(old(State()), stored, freshId).ok
    {
      ghost var want := SaveStep(State(), stored, freshId);
      var widgetGroups := stored;
      var gi := GroupIndex(widgetGroups, groupId);
      if gi == -1 {
        return stored, false;
      }
      var group := widgetGroups[gi];
      var ws := group.widgets;
      var position := group.position;
      var id := if selectedWidgetId != "" then selectedWidgetId else freshId;
      var page := PageAt(template.schemas, editInfo.pageCursor);
      if page.None? {
        return stored, false;
      }
      var widget := Widget(id, widgetName, ToWidgetSchemas(page.value, id, position));
      var existing := WidgetIndex(ws, id);
      if existing != -1 {
        ws := ws[existing := widget];
      } else {
        ws := ws + [widget];
        selectedWidgetId := id;
        action := "update";
      }
      assert ws == Upsert(group.widgets, widget);
      widgetGroups := widgetGroups[gi := group.(widgets := ws)];
      assert widgetGroups == want.stored;
      widgets := ws;
      return widgetGroups, true;
    }

    method OnChangeTemplate()
      modifies this
      ensures State() == ChangeTemplateStep(old(State()))
    {
      saveBlocked := Blocked(editInfo, template);
    }

    method OnChangePageCursor(cursor: nat) returns (ok: bool)
      modifies this
      ensures State() == PageCursorStep(old(State()), cursor).state
      ensures ok == PageCursorStep(old(State()), cursor).ok
    {
      var padding := CursorPadding(editInfo, cursor);
      if padding.None? || template.editWidgetInfo.None? {
        return false;
      }
      UpdateTemplate(template.(editWidgetInfo := Some(template.editWidgetInfo.value.(padding := padding.value))));
      ok := true;
    }

    method OnChangePageSizes(sizes: seq<Size>) returns (navigate: Option<nat>)
      modifies this
      ensures State() == PageSizesStep(old(State()), sizes).0
      ensures navigate == PageSizesStep(old(State()), sizes).1
    {
      navigate := None;
      if pending.Some? && pending.value != 0 {
        navigate := pending;
        pending := None;
      }
    }

    method OnChangeWidgetSelect(id: string) returns (ok: bool)
      modifies this
      ensures State() == SelectStep(old(State()), id).state
      ensures ok == SelectStep(old(State()), id).ok
    {
      var selected := Find(widgets, (w: Widget) => w.id == id);
      if selected.None? || widgetGroup.None? {
        return true;
      }
      var w := selected.value;
      var g := widgetGroup.value;
      if g.pageSize.None? {
        return false;
      }
      var size := g.pageSize.value;
      var padding := GroupHelper.TemplatePadding(Some(size.width), Some(size.height), g.width, g.height, g.position);
      var t := GroupHelper.BlankTemplate();
      t := t.(editWidgetInfo := Some(EditWidgetInfo(g.width, g.height, padding, g.pageCursor)));
      var global := Translate(w.schemas, g.position.x, g.position.y);
      editInfo := EditInfoOf(g, global);
      selectedWidgetId := id;
      widgetName := w.name;
      t := t.(schemas := SelectPages(global, g.pageCursor));
      if g.basePdf != "" {
        t := t.(basePdf := PdfData(g.basePdf));
        pending := Some(g.pageCursor);
      }
      UpdateTemplate(t);
      ok := true;
    }

    method OnChangeActionRadio(a: string)
      modifies this
      ensures State() == ActionStep(old(State()), a)
    {
      widgetName := "";
      selectedWidgetId := "";
      action := a;
      if a == "new" {
        UpdateTemplate(template.(schemas := seq(|template.schemas|, _ => Page([]))));
      }
    }
  }
}
