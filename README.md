# Export definition editor: field associations

This project models the logic of the export definition editor, a React component in the
form-persistence package. An export definition says how the data a form submitted is written
to an export such as CSV. The core of it is an ordered list of *lines*. Each line pairs a source
form field (`value`) with the key that field is renamed to in the export (`conversionValue`).

The model covers:

- the editor state record `{label, types, lines, keyStart, formFields, selectedType}`, as the
  class `Editor.EditorState`;
- the handlers that step this record: `addLine`, `removeLine`, `formFieldNameChanged`,
  `conversionFieldNameChanged` and `onDragEnd`;
- the `reorder` helper. It copies the list, then takes one element out and puts it back at
  another index;
- the `definition` object that `sendData` builds from the lines;
- how `fetchData` seeds the lines from a stored definition, and how it picks the default
  exporter type and the type options;
- the field names offered on load (`generateFormFieldsForExportDefinition`);
- the form drop-down that `updateFormSelectOptions` computes.

Modules, leaves first:

| file | module | contents |
|---|---|---|
| wrappers.dfy | `Wrappers` | `Option`. `None` stands for JavaScript `undefined`. |
| seqs.dfy | `Seqs` | `Distinct`, `Unique` (de-duplication) and `Flatten`. They stand for `array-unique`, the label-keyed `unique` helper and `arr-flatten`. |
| ids.dfy | `Ids` | the line ids `id-<n>` as strings, and proof that different numbers give different ids |
| lines.dfy | `Lines` | the `Line` datatype; the id invariants; `Moved`, the reference definition of `reorder`; `Reorder`, which does the move in place on a fresh array |
| definition.dfy | `Definitions` | the stored `definition` object, which keeps its keys in insertion order; `Serialize` (used by `sendData`); `SeedLines` (used by `fetchData`); both round trips |
| matcher.dfy | `Matcher` | `IsSuitable`, `FormFields` and `SelectOptions`, plus lemmas on how each handler affects the drop-down |
| loading.dfy | `Loading` | the exporter-type options, the default type, and the state record built on load |
| editor.dfy | `Editor` | the class `EditorState` and its handlers |

Modelling choices:

- **Undefined values.** A line created by `addLine` has only an id, so its `value` and
  `conversionValue` are `None`.
- **The key `"undefined"`.** In `sendData`, an undefined `value` used as a computed key becomes
  the string `"undefined"` (`FieldKey`).
- **Insertion order of object keys.** The definition object keeps its keys in insertion order.
  `Object.assign` onto a key that already exists keeps that key's position and replaces its
  value. As a result, the saved keys are the line values, each at its first occurrence
  (`SerializeKeyOrder`), and the entry for each key holds the last value written to it
  (`SerializeLastWins`).
- **`isSuitable`.** Its code is not part of this model. Here it is a subset test: every name
  asked for must be among the form's processed field names. A name that is undefined or empty
  asks for nothing. Both uses rely on that reading: line 39 passes the stored keys, and line 260
  passes the current line values, which are undefined on a freshly added line.
- **Unsuitable forms.** In `generateFormFieldsForExportDefinition`, the callback returns
  `undefined` for an unsuitable form. `arr-flatten` keeps non-array items, so each unsuitable
  form adds one undefined entry (`None`) to the field names. In `updateFormSelectOptions`,
  `map` is used rather than `filter`, so an unsuitable form becomes an undefined entry of the
  drop-down.
- **Numbering of ids.** Seeding numbers lines `id-0 … id-(n-1)` and sets `keyStart` to n.
  `addLine` then uses `id-(keyStart+1)`, so `id-n` is never used. The invariant `Valid()` says
  that ids are distinct and that every id's number is at most `keyStart`. Every handler
  preserves it, which is why ids never repeat, even after removals.
- **The two splices of `reorder`.** They leave the length unchanged, so `Reorder` performs them
  together: it shifts the elements between the two indices by one place and puts the moved
  element in the gap. Like `splice`, it clamps an insertion index past the end to the end.
- **Loading that throws.** Line 79 reads `allFormsData[0].__identity`, which throws when the
  form-data endpoint returns no form. Line 80 calls `Object.keys(exportDefinitionData.definition)`
  without the guard that lines 89 and 96 use (`?.` and `|| {}`), so it throws when the stored
  object has no `definition`. By then `setList(list)` (line 78), and in the second case
  `setSelectedFormIdentifier` (line 79), have already run; only `setState(data)` at line 105 is
  skipped. `LoadDraft` returns `None` in both cases and `EditorState.Load` leaves the state record
  as it was. The form list and the selected form are not part of the modelled record.
- **Out-of-range edits.** `formFieldNameChanged` or `conversionFieldNameChanged` with an index
  that has no line makes `update` throw, because it reads a field of `undefined`. The methods
  return `ok == false` and leave the state as it was. `removeLine` past the end is a splice
  that removes nothing.

## Model

| member | source | states |
|---|---|---|
| Lines.Moved | Resources/Public/ExportDefinitionEditorApp/src/components/ExportDefinitionEditor.jsx:10-16 | reference for `reorder`: same length, and the old element at `startIndex` sits at the (clamped) end index |
| Lines.MovedKeepsOthers | Resources/Public/ExportDefinitionEditorApp/src/components/ExportDefinitionEditor.jsx:10-16 | apart from the moved element, the reordered list holds the other elements in their old relative order |
| Lines.MovedPermutes | Resources/Public/ExportDefinitionEditorApp/src/components/ExportDefinitionEditor.jsx:10-16 | the reordered list is a permutation of the input |
| Lines.MovedFromSources | Resources/Public/ExportDefinitionEditorApp/src/components/ExportDefinitionEditor.jsx:10-16 | any list of the same length that holds the input element at each `MovedSource` position is the reordered list |
| Lines.InsertIndex | Resources/Public/ExportDefinitionEditorApp/src/components/ExportDefinitionEditor.jsx:13 | `splice` inserts at `endIndex`, or at the end of the shortened list when `endIndex` is past it |
| Lines.ShiftLeft | Resources/Public/ExportDefinitionEditorApp/src/components/ExportDefinitionEditor.jsx:12 | the in-place part of `splice(startIndex, 1)`: the elements after the removed one move one place left; nothing else in the array changes |
| Lines.ShiftRight | Resources/Public/ExportDefinitionEditorApp/src/components/ExportDefinitionEditor.jsx:13 | the in-place part of `splice(endIndex, 0, removed)`: the elements from the insertion point move one place right; nothing else in the array changes |
| Lines.Reorder | Resources/Public/ExportDefinitionEditorApp/src/components/ExportDefinitionEditor.jsx:10-16 | copying into a fresh array and moving in place yields exactly `Moved(list, startIndex, endIndex)`; the input list is a value and is not changed |
| Lines.MovedAt | Resources/Public/ExportDefinitionEditorApp/src/components/ExportDefinitionEditor.jsx:10-16 | every position of the reordered list holds the input element at its source index (a single-element move, not a resort) |
| Lines.MovedToSameIndex | Resources/Public/ExportDefinitionEditorApp/src/components/ExportDefinitionEditor.jsx:161-163 | moving an element onto its own index is the identity |
| Lines.MovedBack | Resources/Public/ExportDefinitionEditorApp/src/components/ExportDefinitionEditor.jsx:10-16 | moving from s to e and then from e back to s restores the list |
| Lines.MovedKeepsUniqueIds | Resources/Public/ExportDefinitionEditorApp/src/components/ExportDefinitionEditor.jsx:165-175 | reordering keeps line ids distinct |
| Lines.MovedKeepsIdsIssued | Resources/Public/ExportDefinitionEditorApp/src/components/ExportDefinitionEditor.jsx:165-175 | reordering brings in no id numbered above `keyStart` |
| Lines.NumberedIds | Resources/Public/ExportDefinitionEditorApp/src/components/ExportDefinitionEditor.jsx:89-96 | lines numbered `id-0 … id-(n-1)` have distinct ids, all issued up to `keyStart = n` |
| Lines.NextIdIsFresh | Resources/Public/ExportDefinitionEditorApp/src/components/ExportDefinitionEditor.jsx:118-127 | `id-(keyStart+1)` is used by no line whose id is numbered at most `keyStart` |
| Ids.DecimalInjective | Resources/Public/ExportDefinitionEditorApp/src/components/ExportDefinitionEditor.jsx:120 | different numbers have different decimal texts |
| Ids.IdsDiffer | Resources/Public/ExportDefinitionEditorApp/src/components/ExportDefinitionEditor.jsx:91 | `id-a` and `id-b` differ whenever a and b do |
| Ids.Decimal | Resources/Public/ExportDefinitionEditorApp/src/components/ExportDefinitionEditor.jsx:91 | the text of a number in a template string: at least one character, all of them digits, a single digit exactly for numbers below ten |
| Ids.DecimalValue | Resources/Public/ExportDefinitionEditorApp/src/components/ExportDefinitionEditor.jsx:91 | reading the decimal text of n back as a number gives n |
| Ids.IdOf | Resources/Public/ExportDefinitionEditorApp/src/components/ExportDefinitionEditor.jsx:120 | the template `id-${n}` (lines 91 and 120): the text "id-" followed by at least one character |
| Ids.IdOfNumber | Resources/Public/ExportDefinitionEditorApp/src/components/ExportDefinitionEditor.jsx:120 | the id `id-${n}` (lines 91 and 120) is "id-" followed by digits that read back as n |
| Seqs.Unique | Resources/Public/ExportDefinitionEditorApp/src/components/ExportDefinitionEditor.jsx:34-36 | de-duplication: no element twice, and exactly the input's elements |
| Seqs.UniqueOfDistinct | Resources/Public/ExportDefinitionEditorApp/src/components/ExportDefinitionEditor.jsx:34-42 | de-duplicating a duplicate-free sequence returns it unchanged |
| Seqs.UniqueAppend | Resources/Public/ExportDefinitionEditorApp/src/components/ExportDefinitionEditor.jsx:34-42 | de-duplication keeps first occurrences in order: appending an element adds it at the end exactly when it is new |
| Seqs.Flatten | Resources/Public/ExportDefinitionEditorApp/src/components/ExportDefinitionEditor.jsx:34-42 | one-level flattening: an element is in the result exactly when it is in one of the parts |
| Definitions.Assign | Resources/Public/ExportDefinitionEditorApp/src/components/ExportDefinitionEditor.jsx:193 | assigning one property keeps the object well formed and sets exactly that entry |
| Definitions.FieldKey | Resources/Public/ExportDefinitionEditorApp/src/components/ExportDefinitionEditor.jsx:195 | the computed key `[line.value]`: the value itself, or the text `"undefined"` for an unset value |
| Definitions.FieldKeyCollision | Resources/Public/ExportDefinitionEditorApp/src/components/ExportDefinitionEditor.jsx:195 | two values give the same key only when they are equal, or when one is unset and the other is the text `"undefined"` |
| Definitions.Serialize | Resources/Public/ExportDefinitionEditorApp/src/components/ExportDefinitionEditor.jsx:190-200 | the saved `definition` is a well-formed object: each key once, and exactly the keys of its entries |
| Definitions.SerializeDomain | Resources/Public/ExportDefinitionEditorApp/src/components/ExportDefinitionEditor.jsx:193-199 | the saved object has a key exactly for each line's value (`"undefined"` for an unset one) |
| Definitions.SerializeKeyOrder | Resources/Public/ExportDefinitionEditorApp/src/components/ExportDefinitionEditor.jsx:193-199 | the keys come in the order of first occurrence among the lines |
| Definitions.SerializeLastWins | Resources/Public/ExportDefinitionEditorApp/src/components/ExportDefinitionEditor.jsx:193-199 | the entry for a value holds `{changeKey}` of the last line with that value |
| Definitions.SerializeDistinctKeys | Resources/Public/ExportDefinitionEditorApp/src/components/ExportDefinitionEditor.jsx:193-199 | with distinct values the object has one key per line, in line order |
| Definitions.SerializeDistinctEntries | Resources/Public/ExportDefinitionEditorApp/src/components/ExportDefinitionEditor.jsx:193-199 | with distinct values the key of each line holds that line's conversion value |
| Definitions.DuplicateValueCollapses | Resources/Public/ExportDefinitionEditorApp/src/components/ExportDefinitionEditor.jsx:193-199 | two lines on the same field give fewer keys than lines, and the later line's conversion value is kept |
| Definitions.SeedLines | Resources/Public/ExportDefinitionEditorApp/src/components/ExportDefinitionEditor.jsx:89-96 | one line per stored key, in key order: line i has id `id-i`, the i-th key as value and that key's `changeKey` as conversion value; the ids are distinct and issued up to n |
| Definitions.SeedLinesKeys | Resources/Public/ExportDefinitionEditorApp/src/components/ExportDefinitionEditor.jsx:89-95 | the seeded lines' values are the stored keys, in order |
| Definitions.SeedAfterSerialize | Resources/Public/ExportDefinitionEditorApp/src/components/ExportDefinitionEditor.jsx:89-95 | saving lines with distinct values and seeding from the result gives the same values and conversion values in the same order, renumbered `id-i` |
| Definitions.SerializeAfterSeed | Resources/Public/ExportDefinitionEditorApp/src/components/ExportDefinitionEditor.jsx:193-199 | seeding from a stored definition and saving again gives back the same object |
| Definitions.SeedSerializeDomain | Resources/Public/ExportDefinitionEditorApp/src/components/ExportDefinitionEditor.jsx:89-95 | seeding and saving again gives exactly the stored keys |
| Definitions.SeedSerializeEntry | Resources/Public/ExportDefinitionEditorApp/src/components/ExportDefinitionEditor.jsx:89-95 | seeding and saving again keeps each stored key's `changeKey` |
| Matcher.SuitableBySet | Resources/Public/ExportDefinitionEditorApp/src/components/ExportDefinitionEditor.jsx:260 | suitability depends only on the set of names asked for: asking for fewer names never makes a form unsuitable |
| Matcher.IsSuitable | Resources/Public/ExportDefinitionEditorApp/src/components/ExportDefinitionEditor.jsx:260 | `isSuitable` (also used at line 39): a form is suitable exactly when every non-blank name asked for is among its processed field names; undefined and empty names ask nothing |
| Matcher.SuitableForNothing | Resources/Public/ExportDefinitionEditorApp/src/components/ExportDefinitionEditor.jsx:39 | asking for no (non-blank) name suits every form |
| Matcher.FormFields | Resources/Public/ExportDefinitionEditorApp/src/components/ExportDefinitionEditor.jsx:32-43 | duplicate-free; a name is offered exactly when some form has it and either no fields are configured or that form is suitable; an undefined entry appears exactly when fields are configured and some form is unsuitable |
| Matcher.Contribution | Resources/Public/ExportDefinitionEditorApp/src/components/ExportDefinitionEditor.jsx:38-42 | one form adds its own field names when no fields are configured or it is suitable, and else one undefined entry |
| Matcher.FormFieldsUnconfigured | Resources/Public/ExportDefinitionEditorApp/src/components/ExportDefinitionEditor.jsx:33-36 | with no configured fields: the union of all forms' names, with no undefined entry |
| Matcher.FormLabel | Resources/Public/ExportDefinitionEditorApp/src/components/ExportDefinitionEditor.jsx:75 | the drop-down caption is the form identifier, a dash and at most the first ten characters of the hash |
| Matcher.OptionOf | Resources/Public/ExportDefinitionEditorApp/src/components/ExportDefinitionEditor.jsx:261-264 | a form's drop-down entry has the form's identity as id and `FormLabel` as caption |
| Matcher.FormList | Resources/Public/ExportDefinitionEditorApp/src/components/ExportDefinitionEditor.jsx:72-77 | right after loading, the drop-down holds every form's entry, in order |
| Matcher.SelectOptions | Resources/Public/ExportDefinitionEditorApp/src/components/ExportDefinitionEditor.jsx:254-268 | one entry per form, in form order (`map`, not `filter`); the form's entry when the current line values suit it, undefined otherwise |
| Matcher.Values | Resources/Public/ExportDefinitionEditorApp/src/components/ExportDefinitionEditor.jsx:255-257 | the line values, one per line, in line order |
| Matcher.SelectOptionsUnconstrained | Resources/Public/ExportDefinitionEditorApp/src/components/ExportDefinitionEditor.jsx:254-268 | while no line has a field set, the drop-down holds every form, as on load |
| Matcher.SelectOptionsBySet | Resources/Public/ExportDefinitionEditorApp/src/components/ExportDefinitionEditor.jsx:255-260 | lines with the same set of values give the same drop-down |
| Matcher.SelectOptionsAfterMove | Resources/Public/ExportDefinitionEditorApp/src/components/ExportDefinitionEditor.jsx:156-176 | reordering leaves the drop-down unchanged |
| Matcher.SelectOptionsIgnoresConversion | Resources/Public/ExportDefinitionEditorApp/src/components/ExportDefinitionEditor.jsx:144-154 | changing a target key leaves the drop-down unchanged |
| Matcher.SelectOptionsAfterBlankLine | Resources/Public/ExportDefinitionEditorApp/src/components/ExportDefinitionEditor.jsx:118-128 | adding a line that has no field leaves the drop-down unchanged |
| Matcher.SelectOptionsAfterRemoval | Resources/Public/ExportDefinitionEditorApp/src/components/ExportDefinitionEditor.jsx:178-184 | removing a line never removes a form from the drop-down |
| Loading.TypeOptions | Resources/Public/ExportDefinitionEditorApp/src/components/ExportDefinitionEditor.jsx:83-88 | never empty; caption equals value; captions distinct; exactly the sibling exporters, or the single `csv` option when there are no siblings |
| Loading.DefaultType | Resources/Public/ExportDefinitionEditorApp/src/components/ExportDefinitionEditor.jsx:103 | never empty; the stored exporter when it is non-empty, else the first sibling's when non-empty, else `csv` |
| Loading.DefaultTypeOffered | Resources/Public/ExportDefinitionEditorApp/src/components/ExportDefinitionEditor.jsx:83-103 | with no stored exporter and a non-empty first sibling exporter (or no siblings), the preselected type is one of the options |
| Loading.LoadDraft | Resources/Public/ExportDefinitionEditorApp/src/components/ExportDefinitionEditor.jsx:80-104 | a state exists exactly when there is at least one form and the stored object has a `definition`; then `keyStart` equals the number of lines and of stored keys, line i has id `id-i`, ids are distinct and issued up to `keyStart`, the line values are the keys in order, and a type is selected |
| Loading.LoadEmptyDefinition | Resources/Public/ExportDefinitionEditorApp/src/components/ExportDefinitionEditor.jsx:80-104 | an empty stored definition loads exactly when there is a form, and then gives no lines, `keyStart` 0, every form in the drop-down and every form's field names on offer |
| Loading.LoadedFieldsMatchDropDown | Resources/Public/ExportDefinitionEditorApp/src/components/ExportDefinitionEditor.jsx:80-97 | after loading a definition (given a form, so that loading succeeds), a name is offered exactly when it belongs to a form that `SelectOptions` keeps, that is the drop-down as `updateFormSelectOptions` would recompute it; the drop-down set at line 78 still lists every form (`Matcher.FormList`) |
| Loading.ReloadAfterSave | Resources/Public/ExportDefinitionEditorApp/src/components/ExportDefinitionEditor.jsx:89-103 | reloading a saved definition succeeds exactly when there is a form; then the label and a non-empty exporter come back unchanged, and when the line values are distinct the lines come back in order with ids renumbered `id-i`, each value as its key (an unset value as the text `"undefined"`) and each conversion value unchanged |
| Editor.EditorState.constructor | Resources/Public/ExportDefinitionEditorApp/src/components/ExportDefinitionEditor.jsx:48-55 | the initial state has no label, types or lines and `keyStart` 0, and meets the id invariant |
| Editor.EditorState.Load | Resources/Public/ExportDefinitionEditorApp/src/components/ExportDefinitionEditor.jsx:80-105 | the whole record is replaced by the loaded state, or left as it was when loading throws (no form, or no stored `definition`); the id invariant holds either way |
| Editor.EditorState.AddLine | Resources/Public/ExportDefinitionEditorApp/src/components/ExportDefinitionEditor.jsx:118-127 | appends `Line(id-(keyStart+1), undefined, undefined)`, keeps every prior line, increases `keyStart` by exactly 1, the new id is used by no earlier line, and nothing else changes |
| Editor.EditorState.FormFieldNameChanged | Resources/Public/ExportDefinitionEditorApp/src/components/ExportDefinitionEditor.jsx:131-140 | only `lines[index].value` changes; an index without a line throws and changes nothing |
| Editor.EditorState.ConversionFieldNameChanged | Resources/Public/ExportDefinitionEditorApp/src/components/ExportDefinitionEditor.jsx:144-154 | only `lines[index].conversionValue` changes; an index without a line throws and changes nothing |
| Editor.EditorState.OnDragEnd | Resources/Public/ExportDefinitionEditorApp/src/components/ExportDefinitionEditor.jsx:156-176 | no destination, or the destination equal to the source, leaves `lines` unchanged; otherwise `lines` becomes `Moved(lines, source, destination)`; ids stay valid; nothing else changes |
| Editor.EditorState.RemoveLine | Resources/Public/ExportDefinitionEditorApp/src/components/ExportDefinitionEditor.jsx:178-183 | removes exactly the line at `index`, keeping the others in order (no-op past the end); `keyStart` and everything else are unchanged |
| Editor.EditorState.SendData | Resources/Public/ExportDefinitionEditorApp/src/components/ExportDefinitionEditor.jsx:187-200 | the body is the label, the selected type and `Serialize(lines)`; with distinct values its keys are the line values in order, and seeding from it gives line i as `Line(id-i, key of value i, conversion value i)`, so ids are renumbered and an unset value comes back as the text `"undefined"` |

## Left out

- The network and asynchronous parts are not modelled: the `fetch` and `Promise.all` calls that
  load and save, the `.json()` decoding, `console.error`, the `isLoading` flag, the choice
  between POST and PUT, and the reload after a successful save (lines 60-112 and 201-231).
  `EditorState.Load` takes the three decoded responses as parameters.
- JSX rendering, `InputLines`/`InputLine` and the drag-and-drop context (lines 18-30 and
  270-344). These are UI only. Only the `source` and `destination` indices of a drag result
  are modelled.
- `updateFormSelectOptions` as the code runs it. It reads `state` from the handler's closure,
  so it sees the lines as they were before the pending `setState`: `SelectOptions(forms,
  old(lines))`. Worse, `allFormsData` is `let`-bound to `{}` on every render (line 47) and only
  the render whose `fetchData` ran gets the fetched forms (line 71): the first render's, or on
  the reload after a save (lines 212 and 227) the saving render's. Every handler the user can
  reach afterwards belongs to a later render and sees `{}`. In each handler that
  calls it (`addLine`, `formFieldNameChanged` and `removeLine`, lines 128, 141 and 184),
  `allFormsData.map` at line 259 therefore throws a TypeError after the `setState`, and the
  drop-down is never recomputed after loading. `conversionFieldNameChanged` and `onDragEnd`
  do not call it. The model does not store the drop-down. `SelectOptions` is
  the intended recomputation, a function of the forms and the current lines, and the
  `Matcher.SelectOptionsAfter*` lemmas describe how it would change under each handler.
- The form list and the selected form identifier (`setList` and `setSelectedFormIdentifier`,
  lines 78-79) are separate state hooks and are not fields of `EditorState`. The model only
  records that loading throws at line 79 when there is no form.
- `onLabelChanged`, `onTypeSelected` and `onFormSelected` (lines 234-252) are not modelled.
  Each only sets a single field.
- The helpers `unique`, `isSuitable`, `arr-flatten` and `array-unique` are not part of this
  model. Their code is not available. They are given by the definitions in `Seqs` and by
  `Matcher.IsSuitable`. How `IsSuitable` treats an undefined or empty name is a modelling
  choice.
- Definitions.Serialize: does not model JavaScript's rule that array-index-like keys such as
  `"0"` or `"42"` come first, in numeric order. It also does not model `Object.assign` turning
  a `__proto__` key into a prototype change. The model keeps insertion order for every key.
- Lines.Reorder: requires the start index to name an existing line. The drag library only
  reports such indices. The JavaScript behaviour for a start index past the end, which would
  insert `undefined`, is not modelled.
- Editor.EditorState.OnDragEnd: requires the drag source to be an existing line, as the drag
  library guarantees.
- `JSON.stringify` drops undefined `changeKey` and `exporter` values. The model keeps them as
  `None`, which reads back the same on reload.
- `keyStart` is an unbounded `nat`. A JavaScript number is exact up to 2^53, far beyond any
  number of lines.
- Editor.EditorState.constructor: sets `formFields` to the empty sequence, while `initialState`
  (lines 48-53) has no `formFields` at all, so it is `undefined` until a definition is loaded.
  The inner `Promise.all` at line 66 is not returned from the outer callback. The `.finally` at
  lines 109-111 therefore clears `isLoading` before lines 70-105 run. This also happens when
  line 79 or line 80 throws, and that throw never reaches the `.catch` at line 107. The editor
  then renders the initial state, and line 320 passes `state.formFields`, still `undefined`, to
  `InputLines`; after an `addLine` every `InputLine` receives it. What `InputLine` does with
  `undefined` rather than an empty list is rendering and is not modelled.
- Loading.TypeOptions: sibling exporters are strings, so a sibling without an `exporter`
  (lines 85-86 and 103) cannot be represented. The model does not capture the option with an
  undefined caption that such a sibling would add, or the `?.` fallback past it at line 103.
