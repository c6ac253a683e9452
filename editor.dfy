/**
 * The editor component's state and the handlers that step it. Each handler
 * replaces the state record through `update(...)`, which is modelled as
 * assignments to the fields of one object.
 */
module Editor {
  import opened Wrappers
  import opened Ids
  import opened Lines
  import opened Definitions
  import opened Matcher
  import opened Loading

  /** What the drag-and-drop library reports when a drag ends. */
  datatype DragResult = DragResult(source: nat, destination: Option<nat>)

  /** The body `sendData` posts or puts. */
  datatype Payload = Payload(title: string, exporter: Option<string>, definition: Definition)

  class EditorState {
    var definitionLabel: string
    var types: seq<TypeOption>
    var lines: seq<Line>
    var keyStart: nat
    var formFields: seq<Option<string>>
    var selectedType: Option<string>   // undefined until a definition is loaded

    /** Line ids are distinct and none is numbered above `keyStart`. */
    ghost predicate Valid()
      reads this
    {
      UniqueIds(lines) && IdsIssued(lines, keyStart)
    }

    /** The initial state: no label, no types, no lines, `keyStart` 0. */
    constructor ()
      ensures Valid()
      ensures definitionLabel == "" && types == [] && lines == [] && keyStart == 0
      ensures formFields == [] && selectedType == None
    {
      definitionLabel, types, lines, keyStart := "", [], [], 0;
      formFields, selectedType := [], None;
    }

    /**
     * The state update at the end of `fetchData`: the whole record is
     * replaced by the loaded draft, or left alone when loading throws.
     */
    method Load(forms: seq<FormSnapshot>, stored: StoredDefinition, siblings: seq<string>) returns (ok: bool)
      requires Valid()
      requires stored.definition.Some? ==> WellFormed(stored.definition.value)
      modifies this
      ensures Valid()
      ensures ok == (|forms| > 0 && stored.definition.Some?)
      ensures ok ==>
                var d := LoadDraft(forms, stored, siblings).value;
                && definitionLabel == d.definitionLabel && types == d.types
                && lines == d.lines && keyStart == d.keyStart
                && formFields == d.formFields && selectedType == Some(d.selectedType)
      ensures !ok ==>
                && definitionLabel == old(definitionLabel) && types == old(types)
                && lines == old(lines) && keyStart == old(keyStart)
                && formFields == old(formFields) && selectedType == old(selectedType)
    {
      var r := LoadDraft(forms, stored, siblings);
      ok := r.Some?;
      if ok {
        var d := r.value;
        definitionLabel, types, lines, keyStart := d.definitionLabel, d.types, d.lines, d.keyStart;
        formFields, selectedType := d.formFields, Some(d.selectedType);
      }
    }

    /**
     * `addLine`: append a line `id-(keyStart+1)` with nothing set and count
     * `keyStart` up by one, so the new id is unused even after removals.
     */
    method AddLine()
      requires Valid()
      modifies this
      ensures Valid()
      ensures lines == old(lines) + [Line(IdOf(old(keyStart) + 1), None, None)]
      ensures keyStart == old(keyStart) + 1
      ensures forall i :: 0 <= i < |old(lines)| ==> old(lines)[i].id != lines[|lines| - 1].id
      ensures definitionLabel == old(definitionLabel) && types == old(types)
      ensures formFields == old(formFields) && selectedType == old(selectedType)
    {
      NextIdIsFresh(lines, keyStart);
      var line := Line(IdOf(keyStart + 1), None, None);
      var next := lines + [line];
      forall i | 0 <= i < |next| ensures Issued(next[i].id, keyStart + 1) {
        if i < |lines| {
          var j :| 0 <= j <= keyStart && lines[i].id == IdOf(j);
          assert next[i].id == IdOf(j);
        } else {
          assert next[i].id == IdOf(keyStart + 1);
        }
      }
      lines := next;
      keyStart := keyStart + 1;
    }

    /**
     * `formFieldNameChanged`: set the source field of line `index`. For an
     * index with no line `update` throws and nothing changes.
     */
    method FormFieldNameChanged(index: nat, value: string) returns (ok: bool)
      requires Valid()
      modifies this
      ensures Valid()
      ensures ok == (index < |old(lines)|)
      ensures lines == if ok then old(lines)[index := old(lines)[index].(value := Some(value))] else old(lines)
      ensures keyStart == old(keyStart)
      ensures definitionLabel == old(definitionLabel) && types == old(types)
      ensures formFields == old(formFields) && selectedType == old(selectedType)
    {
      ok := index < |lines|;
      if ok {
        var next := lines[index := lines[index].(value := Some(value))];
        assert forall i :: 0 <= i < |next| ==> next[i].id == lines[i].id;
        lines := next;
      }
    }

    /**
     * `conversionFieldNameChanged`: set the target key of line `index`. For
     * an index with no line `update` throws and nothing changes.
     */
    method ConversionFieldNameChanged(index: nat, value: string) returns (ok: bool)
      requires Valid()
      modifies this
      ensures Valid()
      ensures ok == (index < |old(lines)|)
      ensures lines == if ok then old(lines)[index := old(lines)[index].(conversionValue := Some(value))] else old(lines)
      ensures keyStart == old(keyStart)
      ensures definitionLabel == old(definitionLabel) && types == old(types)
      ensures formFields == old(formFields) && selectedType == old(selectedType)
    {
      ok := index < |lines|;
      if ok {
        var next := lines[index := lines[index].(conversionValue := Some(value))];
        assert forall i :: 0 <= i < |next| ==> next[i].id == lines[i].id;
        lines := next;
      }
    }

    /**
     * `onDragEnd`: a drag dropped outside the list or back onto its own
     * place changes nothing; any other moves the dragged line.
     */
    method OnDragEnd(result: DragResult)
      requires Valid()
      requires result.source < |lines|
      modifies this
      ensures Valid()
      ensures result.destination.None? || result.destination.value == result.source ==> lines == old(lines)
      ensures result.destination.Some? && result.destination.value != result.source ==>
                lines == Moved(old(lines), result.source, result.destination.value)
      ensures keyStart == old(keyStart)
      ensures definitionLabel == old(definitionLabel) && types == old(types)
      ensures formFields == old(formFields) && selectedType == old(selectedType)
    {
      if result.destination.None? {
        return;
      }
      if result.destination.value == result.source {
        return;
      }
      var moved := Reorder(lines, result.source, result.destination.value);
      MovedKeepsUniqueIds(lines, result.source, result.destination.value);
      MovedKeepsIdsIssued(lines, result.source, result.destination.value, keyStart);
      lines := moved;
    }

    /**
     * `removeLine`: splice out the line at `index`; past the end the splice
     * removes nothing. `keyStart` stays, so removed ids are not reissued.
     */
    method RemoveLine(index: nat)
      requires Valid()
      modifies this
      ensures Valid()
      ensures lines == if index < |old(lines)| then old(lines)[..index] + old(lines)[index + 1..] else old(lines)
      ensures keyStart == old(keyStart)
      ensures definitionLabel == old(definitionLabel) && types == old(types)
      ensures formFields == old(formFields) && selectedType == old(selectedType)
    {
      if index < |lines| {
        var next := lines[..index] + lines[index + 1..];
        assert forall i :: 0 <= i < |next| ==> next[i] == lines[if i < index then i else i + 1];
        lines := next;
      }
    }

    /**
     * The body `sendData` sends: the label, the selected exporter and the
     * lines as a definition object. When the line values are distinct,
     * seeding from it gives back the values (an unset one as the text
     * "undefined") and conversion values in order, with ids renumbered `id-i`.
     */
    method SendData() returns (payload: Payload)
      ensures payload.title == definitionLabel && payload.exporter == selectedType
      ensures payload.definition == Serialize(lines)
      ensures DistinctValues(lines) ==>
                && payload.definition.keys == FieldKeys(lines)
                && |SeedLines(payload.definition)| == |lines|
                && forall i :: 0 <= i < |lines| ==>
                     SeedLines(payload.definition)[i]
                       == Line(IdOf(i), Some(FieldKey(lines[i].value)), lines[i].conversionValue)
    {
      payload := Payload(definitionLabel, selectedType, Serialize(lines));
      if DistinctValues(lines) {
        SerializeDistinctKeys(lines);
        SeedAfterSerialize(lines);
      }
    }
  }
}
