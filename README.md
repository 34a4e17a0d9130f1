# pdfme playground: widget groups, widgets and two printers, in Dafny

This project models the core of the pdfme playground's widget tooling:

- **Widget-group designer.** A user frames a rectangle (the edit rectangle) on one page of a base document. The rectangle is saved as a *widget group*.
- **Widget designer.** The user opens a saved group, lays out schemas inside the group's rectangle, and saves them as *widgets* of the group. Widget schemas are stored in coordinates local to the rectangle.

Both designers drive a canvas through its template. The template holds:

- a base document;
- an array of pages of schemas;
- the canvas's view of the edit rectangle, `editWidgetInfo`, with a padding `[top, right, bottom, left]` around it.

Beside them sit two small printers: `createSvgStr`, which turns an icon tree into SVG markup, and `formatJSONToHTML`, which turns a JSON value into nested HTML lists.

Modules, one per source file of the core:

- `Types`: the records shared by both designers (schemas, templates, widget groups, the edit context), with JavaScript array reads that can yield `undefined`. It also holds `findIndex`/`find`, `join("")`, and the pending-cursor slot.
- `Helper` (`playground/src/helper.ts`): the size constants, the playground's blank template and `fromKebabCase`.
- `JsonView` (`playground/src/helper.ts`): `formatJSONToHTML`, as a method with loops proved against a recursive definition.
- `GroupHelper` (`playground/src/WidgetGroupDesigner/helper.ts`): padding and the containment test that gates saving.
- `SvgString` (`playground/src/plugins/utils.ts`): `createSvgStr`.
- `WidgetGroupDesigner` and `WidgetDesigner` (`index.tsx` of each designer): each handler is a step function on the session state, and a class (`GroupSession`, `WidgetSession`) holds the refs and component state as fields. Each method changes those fields and is proved to end in the state the step function gives.

Thrown exceptions are modelled rather than excluded:

- **A thrown `TypeError` is `ok == false`.** The causes are an undefined page size, a missing `editWidgetInfo`, an undefined page, or a group missing from the store. Whatever the handler changed before the throw stays changed, as in the source.
- **Array slots can be undefined.** A JavaScript array written past its end has holes, so a page slot is `Undefined` or a `Page`.
- **The pending cursor `0` is falsy.** The page-sizes handlers therefore leave it in place.
- **The widget designer re-checks after every template update.** Its canvas wrapper calls the change callback on every `updateTemplate`, so each update ends by recomputing the save verdict. The exception is the initial load, which runs before that callback is registered.

Two behaviours of the code are worth stating outright:

- **"No constraint" padding.** The padding used off the group's page is that of a zero-size rectangle at the origin, `[0, W, H, 0]`.
- **Widget naming.** A schema keeps its name when the name contains the widget id anywhere (`indexOf`); otherwise the id and `_` are put in front.

## Model

| member | source | states |
|---|---|---|
| Types.TakePending | playground/src/WidgetGroupDesigner/index.tsx:162-171 | a truthy pending cursor is handed out as the page to scroll to and the slot is cleared; an empty slot or the falsy cursor 0 is left in place and nothing is handed out |
| Types.TakePendingOnce | playground/src/WidgetDesigner/index.tsx:257-266 | a second page-sizes event hands out nothing: a pending cursor is consumed at most once |
| Types.PageAt | playground/src/WidgetGroupDesigner/index.tsx:96 | reading `schemas[k]` yields a page exactly when `k` is in range and the slot is not a hole |
| Types.SetSlot | playground/src/WidgetGroupDesigner/index.tsx:141-142 | writing index `k` sets that slot, keeps every other slot, and past the end extends the array with holes to length `k + 1` |
| Types.FindIndex | playground/src/WidgetDesigner/index.tsx:195 | the result is the first index whose element satisfies the predicate, or -1 exactly when none does |
| Types.Find | playground/src/WidgetGroupDesigner/index.tsx:97 | the result is the first element satisfying the predicate, or none exactly when no element does |
| Types.Translate | playground/src/WidgetGroupDesigner/index.tsx:254-260 | every schema is moved by the offset, nothing else changes, order and length are kept |
| Types.TranslateInverse | playground/src/WidgetDesigner/index.tsx:329-333 | moving schemas by an offset and back by its opposite restores them |
| Helper.BlankTemplate | playground/src/helper.ts:205-219 | one empty page on a 210 x 297 base with padding [20, 10, 20, 10] and no edit rectangle |
| Helper.UpperChar | playground/src/helper.ts:26 | each ASCII lower-case letter becomes the corresponding upper-case letter (code point minus 32); every other character is unchanged |
| Helper.Capitalize | playground/src/helper.ts:26 | same length; the first character is upper-cased and the rest is kept |
| Helper.CapitalizeAll | playground/src/helper.ts:25-27 | one capitalized word per segment, in order |
| Helper.Split | playground/src/helper.ts:25 | always at least one segment, and no segment contains the separator |
| Helper.JoinSplit | playground/src/helper.ts:25-27 | joining the segments of a split with the same separator restores the string |
| Helper.SplitJoin | playground/src/helper.ts:25-27 | splitting a join of separator-free parts gives the parts back |
| Helper.SplitCount | playground/src/helper.ts:25 | a string with n separators splits into n + 1 segments |
| Helper.FromKebabCase | playground/src/helper.ts:23-28 | `fromKebabCase`; its meaning is given by KebabMatchesRef, KebabPointwise and KebabNoDash |
| Helper.KebabMatchesRef | playground/src/helper.ts:23-28 | split / capitalize / join equals a character-by-character reference that maps '-' to ' ' and upper-cases the first character of each segment |
| Helper.KebabPointwise | playground/src/helper.ts:23-28 | the output has the input's length; character i is ' ' for a '-', the upper-cased input character at the start of a segment, and the input character otherwise |
| Helper.KebabNoDash | playground/src/helper.ts:23-28 | the output contains no '-' |
| Helper.KebabPieces | playground/src/helper.ts:23-28 | for an input without spaces the output splits on ' ' into exactly the capitalized '-'-segments, as many pieces as the input has segments |
| Helper.KebabEmptySegments | playground/src/helper.ts:23-28 | empty segments stay empty: "a--b" becomes "A  B" |
| JsonView.NatToString | playground/src/helper.ts:236 | an index prints as decimal digits that read back as the index, with no leading zero |
| JsonView.FormatJsonToHtml | playground/src/helper.ts:230-255 | the loop-accumulating printer returns exactly the recursive definition `Html` applied to its input |
| JsonView.Html | playground/src/helper.ts:228-255 | `formatJSONToHTML` as a recursive definition; its meaning is given by ArrayHtmlInOrder, ObjectHtmlInOrder, EntryText, MemberEntryText and the scalar lemmas |
| JsonView.ArrayHtmlInOrder | playground/src/helper.ts:232-245 | an array prints as a list holding, in index order, one entry per element labelled with its index |
| JsonView.ObjectHtmlInOrder | playground/src/helper.ts:238-245 | an object prints as a list holding, in key order, one entry per member labelled with its key |
| JsonView.ArrayAppend | playground/src/helper.ts:235-236 | appending an element adds exactly one entry, labelled with its index, after the unchanged earlier entries |
| JsonView.EntryText | playground/src/helper.ts:236 | an array entry is `<li><span class="key">[i]:</span> ` + the element's HTML + `</li>` |
| JsonView.MemberEntryText | playground/src/helper.ts:240 | an object entry is `<li><span class="key">"key":</span> ` + the value's HTML + `</li>` |
| JsonView.ListText | playground/src/helper.ts:232-245 | a container's entries are wrapped in `<ul>` and `</ul>` |
| JsonView.StringHtml | playground/src/helper.ts:246-247 | a string prints quoted inside the `string` span |
| JsonView.NumberHtml | playground/src/helper.ts:248-249 | a number prints its text inside the `number` span |
| JsonView.BoolHtml | playground/src/helper.ts:250-251 | a boolean prints `true` or `false` inside the `boolean` span |
| JsonView.NullHtml | playground/src/helper.ts:252-254 | null prints as the word null inside the `null` span |
| GroupHelper.DefaultWidgetGroup | playground/src/WidgetGroupDesigner/helper.ts:17-24 | the placeholder is a 100 x 60 rectangle at the origin named and typed `widgetGroup` |
| GroupHelper.DefaultWidgetEditInfo | playground/src/WidgetGroupDesigner/helper.ts:26-36 | the initial edit context: a 100 x 60 rectangle at the origin of page 0 of one A4 page, no backup, no base document |
| GroupHelper.BlankTemplate | playground/src/WidgetGroupDesigner/helper.ts:38-53 | one empty A4 page without margin, and the default rectangle with the default padding on page 0 |
| GroupHelper.TemplatePadding | playground/src/WidgetGroupDesigner/helper.ts:55-68 | top is y, left is x, and left + width + right and top + height + bottom are the page width and height (210 and 297 when omitted) |
| GroupHelper.PaddingRoundTrip | playground/src/WidgetGroupDesigner/helper.ts:55-68 | the rectangle is recovered from its padding and the page size |
| GroupHelper.RectFromPaddingRoundTrip | playground/src/WidgetGroupDesigner/helper.ts:55-68 | every padding is the padding of the rectangle it leaves free |
| GroupHelper.PaddingNonNegativeIffInside | playground/src/WidgetGroupDesigner/helper.ts:62-67 | all four margins are non-negative exactly when the rectangle lies on the page |
| GroupHelper.PaddingNonNegativeIffInBounds | playground/src/WidgetGroupDesigner/helper.ts:70-80 | non-negative margins exactly when the containment test finds the rectangle in bounds of the page |
| GroupHelper.UnconstrainedIsWholePage | playground/src/WidgetGroupDesigner/helper.ts:55-68 | a zero-size rectangle at the origin gives [0, W, H, 0] |
| GroupHelper.PaddingDefaults | playground/src/WidgetGroupDesigner/helper.ts:56-57 | omitted page width and height are 210 and 297 |
| GroupHelper.DefaultPaddingIsDefaultRectangle | playground/src/WidgetGroupDesigner/helper.ts:5-15 | the default padding is the padding of the 100 x 60 rectangle at the origin of an A4 page, [0, 110, 237, 0] |
| GroupHelper.OutOfBoundsIffNotContained | playground/src/WidgetGroupDesigner/helper.ts:74-79 | B is out of bounds exactly when it is not contained in A |
| GroupHelper.IsRectangleBOutOfBounds | playground/src/WidgetGroupDesigner/helper.ts:70-80 | `isRectangleBOutOfBounds`; its meaning is given by OutOfBoundsIffNotContained |
| GroupHelper.InBoundsOfItself | playground/src/WidgetGroupDesigner/helper.ts:70-80 | a rectangle is in bounds of itself |
| GroupHelper.TouchingEdgesInBounds | playground/src/WidgetGroupDesigner/helper.ts:70-80 | a rectangle no larger than A whose edges touch A's edges is in bounds |
| GroupHelper.MovingEdgeOutwardLeavesBounds | playground/src/WidgetGroupDesigner/helper.ts:74-79 | moving an edge that lies on A's edge outward by a positive amount puts B out of bounds, for each of the four edges |
| GroupHelper.ShiftedCopyOutOfBounds | playground/src/WidgetGroupDesigner/helper.ts:70-80 | a copy of A moved by any non-zero offset is out of A's bounds |
| GroupHelper.InBoundsTransitive | playground/src/WidgetGroupDesigner/helper.ts:70-80 | containment is transitive |
| SvgString.Lookup | playground/src/plugins/utils.ts:7 | a key has a value exactly when it is one of the attribute keys |
| SvgString.Overridden | playground/src/plugins/utils.ts:7 | the own attributes keep their order, each taking the extra value where the extra attributes have the key |
| SvgString.NotIn | playground/src/plugins/utils.ts:7 | the extra attributes whose keys are not already present, and only those (their order: NotInAppend, NotInSingle) |
| SvgString.NotInAppend | playground/src/plugins/utils.ts:7 | dropping the present keys works attribute by attribute: the kept extra attributes appear in their original order |
| SvgString.NotInSingle | playground/src/plugins/utils.ts:7 | one extra attribute is kept exactly when its key is not already present |
| SvgString.Merge | playground/src/plugins/utils.ts:7 | `{ ...attributes, ...attrs }`; its meaning is given by MergeValues, MergeDistinct, MergeEmpty and NotInAppend |
| SvgString.MergeValues | playground/src/plugins/utils.ts:7 | in the merged attributes a key's value is the extra one when the extra attributes have the key, the node's own otherwise |
| SvgString.MergeDistinct | playground/src/plugins/utils.ts:7 | merging keeps keys distinct |
| SvgString.MergeEmpty | playground/src/plugins/utils.ts:7 | merging no extra attributes leaves the own ones unchanged |
| SvgString.OtherTagsKeepOwn | playground/src/plugins/utils.ts:7 | a tree with no `svg` element at any depth prints exactly as it is, whatever extra attributes are passed |
| SvgString.NoExtraIsOwn | playground/src/plugins/utils.ts:7 | with no extra attributes the output is the printing of the tree's own attributes |
| SvgString.AttrStringAppend | playground/src/plugins/utils.ts:9-11 | the attribute strings of consecutive attributes are joined by exactly one space |
| SvgString.AttrStringSingle | playground/src/plugins/utils.ts:10 | one attribute prints as `key="value"` |
| SvgString.MissingChildrenAreEmpty | playground/src/plugins/utils.ts:5 | a node without a child list prints like one with an empty list: its opening tag directly followed by its closing tag |
| SvgString.RenderShape | playground/src/plugins/utils.ts:13-17 | a node prints as its opening tag with its attributes, then its children printed in order and joined with no separator, then its closing tag |
| SvgString.Render | playground/src/plugins/utils.ts:4-18 | `createElementString`; its meaning is given by RenderShape, RenderIsPrintedTokens and OutputBalanced |
| SvgString.CreateSvgStr | playground/src/plugins/utils.ts:3-21 | `createSvgStr`; without extra attributes it is the tree's own printing (NoExtraIsOwn) |
| SvgString.RenderIsPrintedTokens | playground/src/plugins/utils.ts:17 | the output is the text of the node's tag tokens: its opening tag, its children's tokens, its closing tag |
| SvgString.OutputBalanced | playground/src/plugins/utils.ts:13-17 | every opening tag is closed by a matching closing tag, properly nested, and there is exactly one opening tag per node |
| SvgString.OpensCount | playground/src/plugins/utils.ts:13-17 | the number of opening tags is the number of nodes |
| WidgetGroupDesigner.Initial | playground/src/WidgetGroupDesigner/index.tsx:25-28 | the session mounts with the default edit context and template, nothing pending and an empty name |
| WidgetGroupDesigner.MovePage | playground/src/WidgetGroupDesigner/index.tsx:137-142 | the new page array holds the old page's content at the new cursor, empty pages below the page count and at the old cursor, holes elsewhere |
| WidgetGroupDesigner.PageCursorStep | playground/src/WidgetGroupDesigner/index.tsx:125-158 | the stored cursor follows the event and the page size follows the known sizes; with a known size the template gets the moved pages, the new cursor and the padding of the edit rectangle on that page; with an unknown size the template is unchanged |
| WidgetGroupDesigner.PageSizesStep | playground/src/WidgetGroupDesigner/index.tsx:160-195 | the pending cursor is consumed; an empty list changes nothing else; otherwise the sizes and the size at the cursor are stored; an unchanged size leaves the template alone; a new known size re-pads the edit rectangle against it, keeping its width and height and setting its page, and an unknown one throws |
| WidgetGroupDesigner.BasePdfStep | playground/src/WidgetGroupDesigner/index.tsx:203-219 | the chosen document becomes both the stored base document and the canvas's |
| WidgetGroupDesigner.Placeholder | playground/src/WidgetGroupDesigner/index.tsx:264-269 | the placeholder covers the edit rectangle and is named like the default widget group |
| WidgetGroupDesigner.InitStep | playground/src/WidgetGroupDesigner/index.tsx:244-275 | a non-empty active page is backed up in rectangle-local coordinates; the page becomes the single placeholder and every other page is kept; an undefined page throws |
| WidgetGroupDesigner.SaveGroup | playground/src/WidgetGroupDesigner/index.tsx:95-112 | exactly one group with no widgets is appended, earlier groups unchanged, framed by the first `editWidgetGroup` schema of the active page; saving fails when there is none |
| WidgetGroupDesigner.PageSizesIdempotent | playground/src/WidgetGroupDesigner/index.tsx:177-185 | repeating a page-sizes event changes nothing and scrolls nowhere |
| WidgetGroupDesigner.ContentFollowsCursor | playground/src/WidgetGroupDesigner/index.tsx:137-142 | after two page-cursor events the first page's content sits on the last page |
| WidgetGroupDesigner.InitThenSaveFails | playground/src/WidgetGroupDesigner/index.tsx:97 | the placeholder the init effect leaves is not the rectangle a save looks for |
| WidgetGroupDesigner.InitBackupRestores | playground/src/WidgetGroupDesigner/index.tsx:252-260 | moving the backup back by the rectangle's position gives the page as it was |
| WidgetGroupDesigner.PageCursorInPlace | playground/src/WidgetGroupDesigner/index.tsx:139-142 | moving the cursor onto itself keeps the page's content in place |
| WidgetGroupDesigner.GroupSession.constructor | playground/src/WidgetGroupDesigner/index.tsx:25-28 | fields start as `Initial()` |
| WidgetGroupDesigner.GroupSession.OnChangeName | playground/src/WidgetGroupDesigner/index.tsx:28-30 | only the name changes, and the save button is disabled exactly when the new name is empty |
| WidgetGroupDesigner.GroupSession.Init | playground/src/WidgetGroupDesigner/index.tsx:244-275 | the fields end as `InitStep` says |
| WidgetGroupDesigner.GroupSession.OnChangePageCursor | playground/src/WidgetGroupDesigner/index.tsx:125-158 | the fields end as `PageCursorStep` says |
| WidgetGroupDesigner.GroupSession.OnChangePageSizes | playground/src/WidgetGroupDesigner/index.tsx:160-195 | the fields and the scroll request are what `PageSizesStep` says |
| WidgetGroupDesigner.GroupSession.OnChangeBasePdf | playground/src/WidgetGroupDesigner/index.tsx:203-219 | the fields end as `BasePdfStep` says |
| WidgetGroupDesigner.GroupSession.OnSaveWidget | playground/src/WidgetGroupDesigner/index.tsx:78-119 | returns the store `SaveGroup` describes, changing no field |
| WidgetDesigner.IndexOf | playground/src/WidgetDesigner/index.tsx:173 | the first index where the id occurs in the name, or -1 exactly when it occurs nowhere |
| WidgetDesigner.NameForContainsId | playground/src/WidgetDesigner/index.tsx:173-175 | a saved name always contains the widget id |
| WidgetDesigner.NameFor | playground/src/WidgetDesigner/index.tsx:173-175 | the saved name of a schema; its meaning is given by NameForContainsId, NameForIdempotent and NameForKeepsInfix |
| WidgetDesigner.NameForIdempotent | playground/src/WidgetDesigner/index.tsx:173-175 | naming twice is naming once |
| WidgetDesigner.NameForKeepsInfix | playground/src/WidgetDesigner/index.tsx:173-175 | a name holding the id anywhere, not only in front, is kept |
| WidgetDesigner.Renamed | playground/src/WidgetDesigner/index.tsx:172-177 | each schema is renamed for the widget, nothing else changes |
| WidgetDesigner.ToWidgetSchemas | playground/src/WidgetDesigner/index.tsx:172-186 | one widget schema per page schema, in order, named for the widget, at page position minus the group position, otherwise unchanged |
| WidgetDesigner.SelectPages | playground/src/WidgetDesigner/index.tsx:328-336 | `pageCursor + 1` pages, all empty except the owning page, which holds the widget's schemas |
| WidgetDesigner.RebaseRoundTrip | playground/src/WidgetDesigner/index.tsx:172-186 | moving local schemas to page coordinates and saving them again gives them back when their names hold the id |
| WidgetDesigner.WidgetIndex | playground/src/WidgetDesigner/index.tsx:195 | the first widget with the id, or -1 exactly when there is none |
| WidgetDesigner.Upsert | playground/src/WidgetDesigner/index.tsx:195-203 | an existing id is replaced at its index with the length and every other widget unchanged; a new id is appended |
| WidgetDesigner.UpsertKeepsIdsUnique | playground/src/WidgetDesigner/index.tsx:195-203 | upserting keeps widget ids unique |
| WidgetDesigner.UpsertIdempotent | playground/src/WidgetDesigner/index.tsx:195-203 | saving the same widget twice is saving it once |
| WidgetDesigner.AnyOutOfBounds | playground/src/WidgetDesigner/index.tsx:226-228 | true exactly when some schema is out of bounds of the rectangle |
| WidgetDesigner.Initial | playground/src/WidgetDesigner/index.tsx:24-34 | the session mounts with the default edit context and template, action "new", saving blocked and no widgets, group or pending cursor |
| WidgetDesigner.Updated | packages/ui/src/Designer.tsx:43-49 | a template update is followed by the change callback's recomputation of the save verdict |
| WidgetDesigner.SaveDisabledIff | playground/src/WidgetDesigner/index.tsx:219-232 | after a template change, saving is disabled exactly when the name is empty, the active page has no schema, or some schema is out of bounds of the edit rectangle |
| WidgetDesigner.Blocked | playground/src/WidgetDesigner/index.tsx:219-232 | the verdict `onChangeTemplate` computes; its meaning is given by SaveDisabledIff |
| WidgetDesigner.ChangeTemplateStep | playground/src/WidgetDesigner/index.tsx:219-232 | `onChangeTemplate` changes only the stored verdict, which is set exactly when the active page has no schema or some schema is out of bounds of the edit rectangle |
| WidgetDesigner.SaveButtonDisabled | playground/src/WidgetDesigner/index.tsx:36 | `finalIsDisabledSaveBtn`; its meaning is given by SaveDisabledIff |
| WidgetDesigner.LoadPadding | playground/src/WidgetDesigner/index.tsx:133-137 | on the group's first page the padding frames the group's rectangle, on any other page it frames nothing; undefined page size throws |
| WidgetDesigner.CursorPadding | playground/src/WidgetDesigner/index.tsx:246-248 | on the stored page the padding frames the edit rectangle, on any other page it frames nothing; undefined page size throws |
| WidgetDesigner.EditInfoOf | playground/src/WidgetDesigner/index.tsx:111-119 | a group opens with its rectangle, page, page size and base document, and no page sizes |
| WidgetDesigner.LoadStep | playground/src/WidgetDesigner/index.tsx:85-146 | opening a stored group sets the edit context, widgets and pending cursor, then puts the base document and the padding on the canvas; a missing group changes only the group id |
| WidgetDesigner.GroupIndex | playground/src/WidgetDesigner/index.tsx:163 | the first stored group with the id, or -1 exactly when there is none |
| WidgetDesigner.SaveStep | playground/src/WidgetDesigner/index.tsx:148-212 | the open group's widget list gets the rebased widget upserted, every other group unchanged; a new widget becomes selected with action "update"; a missing group or page throws |
| WidgetDesigner.SelectStep | playground/src/WidgetDesigner/index.tsx:297-355 | opens the widget on a fresh template with its schemas back in page coordinates on the group's page; the edit rectangle has the group's width, height and page and is padded to the group's rectangle; a base document sets the pending cursor to the group's page, otherwise it is left as it was |
| WidgetDesigner.PageCursorStep | playground/src/WidgetDesigner/index.tsx:234-253 | only the canvas padding changes: the rectangle on the stored page, nothing elsewhere; the stored cursor stays |
| WidgetDesigner.PageSizesStep | playground/src/WidgetDesigner/index.tsx:256-266 | only the pending cursor is consumed |
| WidgetDesigner.ActionStep | playground/src/WidgetDesigner/index.tsx:358-379 | name and selection are cleared and the action stored; "new" empties every page and blocks saving; nothing else changes; the save button ends disabled |
| WidgetDesigner.SelectThenSave | playground/src/WidgetDesigner/index.tsx:329-333 | selecting a widget and saving at once stores it unchanged when its names hold its id |
| WidgetDesigner.SelectPendingOnce | playground/src/WidgetDesigner/index.tsx:338-349 | a selection with a base document sets the pending cursor to the group's page (otherwise it is left as it was); the next page-sizes event hands it out unless it is page 0, and the one after hands out nothing |
| WidgetDesigner.LoadPaddingExample | playground/src/WidgetDesigner/index.tsx:133-135 | a 100 x 60 group at (10, 10) opens with padding [10, 100, 227, 10] on page 0 and [0, 210, 297, 0] elsewhere |
| WidgetDesigner.WidgetSession.constructor | playground/src/WidgetDesigner/index.tsx:24-34 | fields start as `Initial()` |
| WidgetDesigner.WidgetSession.OnChangeName | playground/src/WidgetDesigner/index.tsx:30 | only the name changes |
| WidgetDesigner.WidgetSession.UpdateTemplate | packages/ui/src/Designer.tsx:43-49 | the fields end as `Updated` says |
| WidgetDesigner.WidgetSession.Load | playground/src/WidgetDesigner/index.tsx:85-146 | the fields end as `LoadStep` says |
| WidgetDesigner.WidgetSession.OnSaveWidget | playground/src/WidgetDesigner/index.tsx:148-212 | the fields and the returned store are what `SaveStep` says |
| WidgetDesigner.WidgetSession.OnChangeTemplate | playground/src/WidgetDesigner/index.tsx:219-232 | only the save verdict changes, as `ChangeTemplateStep` says |
| WidgetDesigner.WidgetSession.OnChangePageCursor | playground/src/WidgetDesigner/index.tsx:234-253 | the fields end as `PageCursorStep` says |
| WidgetDesigner.WidgetSession.OnChangePageSizes | playground/src/WidgetDesigner/index.tsx:256-266 | the fields and the scroll request are what `PageSizesStep` says |
| WidgetDesigner.WidgetSession.OnChangeWidgetSelect | playground/src/WidgetDesigner/index.tsx:297-355 | the fields end as `SelectStep` says |
| WidgetDesigner.WidgetSession.OnChangeActionRadio | playground/src/WidgetDesigner/index.tsx:358-379 | the fields end as `ActionStep` says |

## Left out

- **Persistence.** `localStorage` and `JSON.parse`/`JSON.stringify` are left out. The stored list of widget groups is a parameter, and a save returns the new list. A missing or unparsable entry is the empty list. The removal of the `widgets` key in the load's `catch` is not modelled.
- **Fresh ids.** `uuid` draws on `Math.random`, so the fresh id is a parameter.
- **Deferred scroll.** The `setTimeout` call that scrolls the canvas later is modelled as the page number a page-sizes event hands out, not as timing.
- **The canvas.** The canvas (`BaseUIClass`, rendering, `setPageCursor`, `destroy`) is not part of this model. Each handler reads the template the canvas holds and writes back the template it builds. `getTemplate` is taken to return the current template. Its in-place edits to that object are therefore kept only when the handler reaches `updateTemplate`, and a handler that throws leaves the template unchanged.
- **The file picker.** `readFile`, the file input and the document title are left out. The base-document handler receives the data URL.
- **Other source files.** UI and configuration files, `checkTemplate`, `isJsonString`, `fetch`, `generatePDF` and the `window.open`/`document.write` part of `displayJSONDataFromLocalStorage` are not part of this model.
- **The `designer.current` null check.** The branches where the canvas has not been built are not modelled. Every handler assumes it exists.
- **Floating point.** Coordinates and sizes are integers. The designers only add, subtract and compare them.
- **Holes.** A hole and an explicit `undefined` page are the same `Undefined` slot. `Array.prototype.map` skips holes, but "new" in the action handler maps every slot to an empty page.
- **The blank page literal.** The `{}` page of both blank templates is modelled as an empty page.
- **Missing `pageSizes`.** The widget designer's edit context has no `pageSizes` field. It is modelled as the empty list.
- Helper.UpperChar: upper-cases ASCII letters only; the full Unicode mapping of `toUpperCase` is not modelled.
- JsonView.FormatJsonToHtml: a number is carried as the text JavaScript prints for it. Object members keep their order in the list, whereas `Object.keys` puts integer-like keys first. `undefined` and functions, which `JSON.parse` never yields, are not modelled. Strings are not escaped, as in the source.
- SvgString.MergeValues: attribute objects are lists with distinct keys, kept in insertion order. `Object.entries` would list integer-like keys first.
- GroupHelper.MovingEdgeOutwardLeavesBounds: the law is stated for an edge that lies on A's matching edge. An edge strictly inside A can move outward by less than its distance to A's edge and stay in bounds.
- WidgetDesigner.PageSizesStep: the size list is ignored, as in the source, where the rest of the handler is commented out.
