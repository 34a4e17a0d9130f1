/** The widget-group designer session (playground/src/WidgetGroupDesigner/index.tsx):
    the user frames a rectangle on one page of a base document and saves it as
    a widget group. The canvas is driven through its template; the persisted
    list of groups is passed in and returned. */
module WidgetGroupDesigner {
  import opened Types
  import GroupHelper

  /** Everything the event handlers read and write: the edit context
      (`widgetEditInfoRef`), the pending-cursor slot, the canvas's template
      and the name typed for the group. */
  datatype GroupState = GroupState(
    editInfo: WidgetEditInfo,
    pending: Option<nat>,
    template: Template,
    widgetName: string)

  /** A handler's effect. `ok` is false where the handler throws a TypeError;
      what it changed before that point stays changed. */
  datatype Outcome = Outcome(state: GroupState, ok: bool)

  /** A page-sizes event may also ask the canvas to scroll to a page later. */
  datatype SizesOutcome = SizesOutcome(state: GroupState, navigate: Option<nat>, ok: bool)

  /** The session as the component mounts it. */
  function Initial(): (s: GroupState)
    ensures s.editInfo == GroupHelper.DefaultWidgetEditInfo()
    ensures s.template == GroupHelper.BlankTemplate()
    ensures s.pending.None? && s.widgetName == ""
  {
    GroupState(GroupHelper.DefaultWidgetEditInfo(), None, GroupHelper.BlankTemplate(), "")
  }

  /** The save button is disabled while the name is empty. */
  predicate SaveDisabled(s: GroupState) {
    s.widgetName == ""
  }

  function Max(a: int, b: int): int { if a < b then b else a }

  /** The page array a page-cursor event builds: `count` empty pages, the page
      at `from` emptied and the content of `pages[from]` written at `to`. */
  function MovePage(pages: Pages, from: nat, to: nat, count: nat): (r: Pages)
    ensures |r| == Max(count, Max(from + 1, to + 1))
    ensures r[to] == SlotAt(pages, from)
    ensures forall j :: 0 <= j < |r| && j != to ==>
      r[j] == (if j < count || j == from then Page([]) else Undefined)
  {
    var blank := seq(count, _ => Page([]));
    var cleared := SetSlot(blank, from, Page([]));
    SetSlot(cleared, to, SlotAt(pages, from))
  }

  /** `onChangePageCursor`. The stored cursor always follows the event and the
      stored page size follows the known page sizes; the template is rebuilt
      only when the page size at the new cursor is known. */
  function PageCursorStep(s: GroupState, cursor: nat): (r: Outcome)
    ensures r.state.editInfo.pageCursor == cursor
    ensures r.state.editInfo.pageSize
            == if |s.editInfo.pageSizes| > 0 then SizeAt(s.editInfo.pageSizes, cursor) else s.editInfo.pageSize
    ensures r.state.editInfo == s.editInfo.(pageCursor := cursor, pageSize := r.state.editInfo.pageSize)
    ensures r.state.pending == s.pending && r.state.widgetName == s.widgetName
    ensures r.state.editInfo.pageSize.None? ==> r.ok && r.state.template == s.template
    ensures r.state.editInfo.pageSize.Some? ==> (r.ok <==> s.template.editWidgetInfo.Some?)
    ensures !r.ok ==> r.state.template == s.template
    ensures r.ok && r.state.editInfo.pageSize.Some? ==>
      var size := r.state.editInfo.pageSize.value;
      var t := r.state.template;
      && t.basePdf == s.template.basePdf
      && t.schemas == MovePage(s.template.schemas, s.editInfo.pageCursor, cursor, |s.editInfo.pageSizes|)
      && t.editWidgetInfo.Some?
      && t.editWidgetInfo.value.pageCursor == cursor
      && t.editWidgetInfo.value.width == s.template.editWidgetInfo.value.width
      && t.editWidgetInfo.value.height == s.template.editWidgetInfo.value.height
      && GroupHelper.RectFromPadding(size.width, size.height, t.editWidgetInfo.value.padding) == s.editInfo.Bounds()
  {
    var e := s.editInfo;
    var moved := e.(pageCursor := cursor);
    var pageSize := if |e.pageSizes| > 0 then SizeAt(e.pageSizes, cursor) else e.pageSize;
    var e' := moved.(pageSize := pageSize);
    var s' := s.(editInfo := e');
    var newSchemas := MovePage(s.template.schemas, e.pageCursor, cursor, |e.pageSizes|);
    match pageSize
    case None => Outcome(s', true)
    case Some(size) =>
      match s.template.editWidgetInfo
      case None => Outcome(s', false)
      case Some(info) =>
        var padding := GroupHelper.TemplatePadding(Some(size.width), Some(size.height), e.width, e.height, e.position);
        GroupHelper.PaddingRoundTrip(size.width, size.height, e.width, e.height, e.position);
        Outcome(s'.(template := s.template.(
                  editWidgetInfo := Some(info.(padding := padding, pageCursor := cursor)),
                  schemas := newSchemas)), true)
  }

  /** `onChangePageSizes`. The pending cursor is consumed first; an empty list
      changes nothing else; otherwise the sizes are stored and, unless the
      size at the stored cursor is the one already stored, the padding is
      recomputed against it. */
  function PageSizesStep(s: GroupState, sizes: seq<Size>): (r: SizesOutcome)
    ensures r.navigate == TakePending(s.pending).navigate
    ensures r.state.pending == TakePending(s.pending).rest
    ensures r.state.widgetName == s.widgetName
    ensures |sizes| == 0 ==> r.ok && r.state == s.(pending := r.state.pending)
    ensures |sizes| > 0 ==>
      r.state.editInfo == s.editInfo.(pageSizes := sizes, pageSize := SizeAt(sizes, s.editInfo.pageCursor))
    ensures !r.ok ==> r.state.template == s.template
    ensures r.ok <==>
      || |sizes| == 0
      || (SizeAt(sizes, s.editInfo.pageCursor).Some?
          && (SizeAt(sizes, s.editInfo.pageCursor) == s.editInfo.pageSize || s.template.editWidgetInfo.Some?))
    ensures |sizes| > 0 && s.editInfo.pageSize.Some? && SizeAt(sizes, s.editInfo.pageCursor) == s.editInfo.pageSize
            ==> r.state.template == s.template
    ensures |sizes| > 0 && SizeAt(sizes, s.editInfo.pageCursor).Some?
            && SizeAt(sizes, s.editInfo.pageCursor) != s.editInfo.pageSize
            && s.template.editWidgetInfo.Some? ==>
      var size := SizeAt(sizes, s.editInfo.pageCursor).value;
      var info := s.template.editWidgetInfo.value;
      var e := s.editInfo;
      && r.ok
      && r.state.template == s.template.(editWidgetInfo := Some(info.(
           padding := GroupHelper.TemplatePadding(Some(size.width), Some(size.height), info.width, info.height, e.position),
           pageCursor := e.pageCursor)))
      && GroupHelper.RectFromPadding(size.width, size.height, r.state.template.editWidgetInfo.value.padding)
         == Rect(info.width, info.height, e.position)
  {
    var taken := TakePending(s.pending);
    var s0 := s.(pending := taken.rest);
    if |sizes| == 0 then SizesOutcome(s0, taken.navigate, true)
    else
      var e := s.editInfo;
      var pageSize := SizeAt(sizes, e.pageCursor);
      var s1 := s0.(editInfo := e.(pageSizes := sizes, pageSize := pageSize));
      if pageSize.Some? && e.pageSize.Some? && e.pageSize.value == pageSize.value then
        SizesOutcome(s1, taken.navigate, true)
      else
        match pageSize
        case None => SizesOutcome(s1, taken.navigate, false)
        case Some(size) =>
          match s.template.editWidgetInfo
          case None => SizesOutcome(s1, taken.navigate, false)
          case Some(info) =>
            var padding := GroupHelper.TemplatePadding(Some(size.width), Some(size.height), info.width, info.height, e.position);
            GroupHelper.PaddingRoundTrip(size.width, size.height, info.width, info.height, e.position);
            SizesOutcome(s1.(template := s.template.(
                           editWidgetInfo := Some(info.(padding := padding, pageCursor := e.pageCursor)))),
                         taken.navigate, true)
  }

  /** `onChangeBasePDF`: the chosen document, as a data URL, becomes both the
      stored base document and the canvas's. */
  function BasePdfStep(s: GroupState, dataUri: string): (r: GroupState)
    ensures r.editInfo == s.editInfo.(basePdf := dataUri)
    ensures r.template == s.template.(basePdf := PdfData(dataUri))
    ensures r.pending == s.pending && r.widgetName == s.widgetName
  {
    s.(editInfo := s.editInfo.(basePdf := dataUri), template := s.template.(basePdf := PdfData(dataUri)))
  }

  /** The single rectangle the init effect puts on the active page. */
  function Placeholder(e: WidgetEditInfo): (p: Schema)
    ensures p.Bounds() == e.Bounds()
    ensures p.name == GroupHelper.DefaultWidgetGroup().name
    ensures p.schemaType == GroupHelper.DefaultWidgetGroup().schemaType
  {
    GroupHelper.DefaultWidgetGroup().(position := e.position, width := e.width, height := e.height)
  }

  /** The init effect: a non-empty active page is backed up in rectangle-local
      coordinates, then the page is replaced by one placeholder rectangle. */
  function InitStep(s: GroupState): (r: Outcome)
    ensures r.ok <==> PageAt(s.template.schemas, s.editInfo.pageCursor).Some?
    ensures !r.ok ==> r.state == s
    ensures r.ok ==>
      var page := PageAt(s.template.schemas, s.editInfo.pageCursor).value;
      var e := s.editInfo;
      && r.state.editInfo == e.(schemas := r.state.editInfo.schemas)
      && (|page| > 0 ==> r.state.editInfo.schemas == Translate(page, -e.position.x, -e.position.y))
      && (|page| == 0 ==> r.state.editInfo.schemas == e.schemas)
      && |r.state.template.schemas| == |s.template.schemas|
      && r.state.template.schemas[e.pageCursor] == Page([Placeholder(e)])
      && (forall j :: 0 <= j < |s.template.schemas| && j != e.pageCursor ==>
            r.state.template.schemas[j] == s.template.schemas[j])
      && r.state.template == s.template.(schemas := r.state.template.schemas)
      && r.state.pending == s.pending && r.state.widgetName == s.widgetName
  {
    var e := s.editInfo;
    match PageAt(s.template.schemas, e.pageCursor)
    case None => Outcome(s, false)
    case Some(page) =>
      var backup := if |page| > 0 then Translate(page, -e.position.x, -e.position.y) else e.schemas;
      var pages := s.template.schemas[e.pageCursor := Page([Placeholder(e)])];
      Outcome(s.(editInfo := e.(schemas := backup), template := s.template.(schemas := pages)), true)
  }

  /** The name of the rectangle a group is saved from. */
  predicate IsEditRect(x: Schema) {
    x.name == "editWidgetGroup"
  }

  /** `onSaveWidget`: appends one group, with no widgets, framed by the first
      schema named `editWidgetGroup` on the active page. `None` where the
      handler throws: the active page is missing or has no such schema. */
  function SaveGroup(s: GroupState, stored: seq<WidgetGroup>, id: string): (r: Option<seq<WidgetGroup>>)
    ensures r.None? <==>
      || PageAt(s.template.schemas, s.editInfo.pageCursor).None?
      || forall i :: 0 <= i < |s.template.schemas[s.editInfo.pageCursor].schemas| ==>
           !IsEditRect(s.template.schemas[s.editInfo.pageCursor].schemas[i])
    ensures r.Some? ==>
      var page := s.template.schemas[s.editInfo.pageCursor].schemas;
      var e := s.editInfo;
      && |r.value| == |stored| + 1
      && r.value[..|stored|] == stored
      && var g := r.value[|stored|];
      && g.id == id && g.name == s.widgetName && g.widgets == []
      && g.pageCursor == e.pageCursor && g.pageSize == e.pageSize && g.basePdf == e.basePdf
      && exists i :: 0 <= i < |page| && IsEditRect(page[i])
           && Rect(g.width, g.height, g.position) == page[i].Bounds()
           && forall j :: 0 <= j < i ==> !IsEditRect(page[j])
  {
    var e := s.editInfo;
    match PageAt(s.template.schemas, e.pageCursor)
    case None => None
    case Some(page) =>
      match Find(page, IsEditRect)
      case None => None
      case Some(rec) =>
        var g := WidgetGroup(id, s.widgetName, rec.width, rec.height, rec.position,
                             e.pageCursor, e.pageSize, e.basePdf, []);
        assert (stored + [g])[..|stored|] == stored;
        Some(stored + [g])
  }

  // ---------------------------------------------------------------------------
  // Properties across events

  /** Repeating a page-sizes event changes nothing further and scrolls nowhere;
      the repeat returns early, without throwing, whenever the size at the
      cursor is known (even where the first run threw). */
  lemma PageSizesIdempotent(s: GroupState, sizes: seq<Size>)
    ensures var once := PageSizesStep(s, sizes);
            var twice := PageSizesStep(once.state, sizes);
            && twice.state == once.state && twice.navigate.None?
            && (SizeAt(sizes, s.editInfo.pageCursor).Some? ==> twice.ok)
  {
    var once := PageSizesStep(s, sizes);
    TakePendingOnce(s.pending);
    if |sizes| > 0 {
      var size := SizeAt(sizes, s.editInfo.pageCursor);
      assert once.state.editInfo.pageSize == size;
      assert once.state.editInfo.pageCursor == s.editInfo.pageCursor;
    }
  }

  /** The content on the page the cursor leaves is carried along: after two
      page-cursor events that both rebuild the template, the content of the
      first page sits on the last one. */
  lemma {:induction false} ContentFollowsCursor(s: GroupState, b: nat, c: nat)
    requires PageCursorStep(s, b).ok && PageCursorStep(s, b).state.editInfo.pageSize.Some?
    requires PageCursorStep(PageCursorStep(s, b).state, c).ok
    requires PageCursorStep(PageCursorStep(s, b).state, c).state.editInfo.pageSize.Some?
    ensures PageCursorStep(PageCursorStep(s, b).state, c).state.template.schemas[c]
            == SlotAt(s.template.schemas, s.editInfo.pageCursor)
  {
    var s1 := PageCursorStep(s, b).state;
    var pages1 := s1.template.schemas;
    assert pages1 == MovePage(s.template.schemas, s.editInfo.pageCursor, b, |s.editInfo.pageSizes|);
    assert SlotAt(pages1, b) == pages1[b];
  }

  /** The rectangle left on the active page by the init effect is not the one
      a save looks for: right after init, saving fails. */
  lemma InitThenSaveFails(s: GroupState, stored: seq<WidgetGroup>, id: string)
    requires InitStep(s).ok
    ensures SaveGroup(InitStep(s).state, stored, id).None?
  {
    var r := InitStep(s).state;
    var page := r.template.schemas[r.editInfo.pageCursor].schemas;
    assert page == [Placeholder(s.editInfo)];
    assert !IsEditRect(page[0]);
  }

  /** The backup taken by the init effect, moved back by the rectangle's
      position, is the page as it was. */
  lemma InitBackupRestores(s: GroupState)
    requires InitStep(s).ok
    requires |PageAt(s.template.schemas, s.editInfo.pageCursor).value| > 0
    ensures var e := s.editInfo;
            Translate(InitStep(s).state.editInfo.schemas, e.position.x, e.position.y)
            == PageAt(s.template.schemas, e.pageCursor).value
  {
    var e := s.editInfo;
    var page := PageAt(s.template.schemas, e.pageCursor).value;
    TranslateInverse(page, -e.position.x, -e.position.y);
  }

  /** On a single-page document the content stays on the page: moving the
      cursor to where it is leaves that page's content in place. */
  lemma PageCursorInPlace(s: GroupState)
    requires |s.editInfo.pageSizes| > 0 && s.editInfo.pageCursor < |s.template.schemas|
    requires PageCursorStep(s, s.editInfo.pageCursor).ok
    requires PageCursorStep(s, s.editInfo.pageCursor).state.editInfo.pageSize.Some?
    ensures PageCursorStep(s, s.editInfo.pageCursor).state.template.schemas[s.editInfo.pageCursor]
            == s.template.schemas[s.editInfo.pageCursor]
  {
  }

  // ---------------------------------------------------------------------------
  // The component's refs and state, updated by its handlers.

  class GroupSession {
    var editInfo: WidgetEditInfo
    var pending: Option<nat>
    var template: Template
    var widgetName: string

    function State(): GroupState
      reads this
    {
      GroupState(editInfo, pending, template, widgetName)
    }

    constructor ()
      ensures State() == Initial()
    {
      editInfo := GroupHelper.DefaultWidgetEditInfo();
      pending := None;
      template := GroupHelper.BlankTemplate();
      widgetName := "";
    }

    /** The name input. */
    method OnChangeName(name: string)
      modifies this
      ensures State() == old(State()).(widgetName := name)
      ensures SaveDisabled(State()) <==> name == ""
    {
      widgetName := name;
    }

    method Init() returns (ok: bool)
      modifies this
      ensures State() == InitStep(old(State())).state && ok == InitStep(old(State())).ok
    {
      var page := PageAt(template.schemas, editInfo.pageCursor);
      if page.None? {
        return false;
      }
      if |page.value| > 0 {
        editInfo := editInfo.(schemas := Translate(page.value, -editInfo.position.x, -editInfo.position.y));
      }
      template := template.(schemas := SetSlot(template.schemas, editInfo.pageCursor, Page([Placeholder(editInfo)])));
      ok := true;
    }

    method OnChangePageCursor(cursor: nat) returns (ok: bool)
      modifies this
      ensures State() == PageCursorStep(old(State()), cursor).state
      ensures ok == PageCursorStep(old(State()), cursor).ok
    {
      var current := editInfo.pageCursor;
      var sizes := editInfo.pageSizes;
      editInfo := editInfo.(pageCursor := cursor);
      var pageSize := editInfo.pageSize;
      if |sizes| > 0 {
        pageSize := SizeAt(sizes, cursor);
        editInfo := editInfo.(pageSize := pageSize);
      }
      var newSchemas := MovePage(template.schemas, current, cursor, |sizes|);
      if pageSize.None? {
        return true;
      }
      if template.editWidgetInfo.None? {
        return false;
      }
      var size := pageSize.value;
      var padding := GroupHelper.TemplatePadding(Some(size.width), Some(size.height),
                                                 editInfo.width, editInfo.height, editInfo.position);
      template := template.(editWidgetInfo := Some(template.editWidgetInfo.value.(padding := padding, pageCursor := cursor)));
      template := template.(schemas := newSchemas);
      ok := true;
    }

    method OnChangePageSizes(sizes: seq<Size>) returns (navigate: Option<nat>, ok: bool)
      modifies this
      ensures State() == PageSizesStep(old(State()), sizes).state
      ensures navigate == PageSizesStep(old(State()), sizes).navigate
      ensures ok == PageSizesStep(old(State()), sizes).ok
    {
      navigate := None;
      if pending.Some? && pending.value != 0 {
        navigate := pending;
        pending := None;
      }
      if |sizes| == 0 {
        return navigate, true;
      }
      var current := editInfo.pageSize;
      var pageSize := SizeAt(sizes, editInfo.pageCursor);
      editInfo := editInfo.(pageSizes := sizes, pageSize := pageSize);
      if pageSize.Some? && current.Some? && current.value == pageSize.value {
        return navigate, true;
      }
      if pageSize.None? || template.editWidgetInfo.None? {
        return navigate, false;
      }
      var info := template.editWidgetInfo.value;
      var padding := GroupHelper.TemplatePadding(Some(pageSize.value.width), Some(pageSize.value.height),
                                                 info.width, info.height, editInfo.position);
      template := template.(editWidgetInfo := Some(info.(padding := padding, pageCursor := editInfo.pageCursor)));
      ok := true;
    }

    method OnChangeBasePdf(dataUri: string)
      modifies this
      ensures State() == BasePdfStep(old(State()), dataUri)
    {
      editInfo := editInfo.(basePdf := dataUri);
      template := template.(basePdf := PdfData(dataUri));
    }

    /** Saving reads the session and returns the new persisted list. */
    method OnSaveWidget(stored: seq<WidgetGroup>, id: string) returns (groups: Option<seq<WidgetGroup>>)
      ensures groups == SaveGroup(State(), stored, id)
    {
      var page := PageAt(template.schemas, editInfo.pageCursor);
      if page.None? {
        return None;
      }
      var rec := Find(page.value, IsEditRect);
      if rec.None? {
        return None;
      }
      var widgetGroups := stored;
      widgetGroups := widgetGroups + [WidgetGroup(id, widgetName, rec.value.width, rec.value.height, rec.value.position,
                                                  editInfo.pageCursor, editInfo.pageSize, editInfo.basePdf, [])];
      groups := Some(widgetGroups);
    }
  }
}
