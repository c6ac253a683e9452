/**
 * The editor state built once the three resources have been fetched: the
 * forms' data, the stored export definition and all sibling definitions
 * (only their exporters matter here).
 */
module Loading {
  import opened Wrappers
  import opened Seqs
  import opened Ids
  import opened Lines
  import opened Definitions
  import opened Matcher

  /** An entry of the exporter-type drop-down. */
  datatype TypeOption = TypeOption(caption: string, value: string)

  /** The stored export definition; each part may be absent from the response. */
  datatype StoredDefinition = StoredDefinition(
    title: Option<string>,
    exporter: Option<string>,
    definition: Option<Definition>)

  /** The editor's state record. */
  datatype Draft = Draft(
    definitionLabel: string,
    types: seq<TypeOption>,
    lines: seq<Line>,
    keyStart: nat,
    formFields: seq<Option<string>>,
    selectedType: string)

  /**
   * The exporter-type options: one per distinct sibling exporter, captioned
   * by its name, or a single `csv` option when there are no siblings.
   */
  function TypeOptions(exporters: seq<string>): (r: seq<TypeOption>)
    ensures |r| > 0
    ensures forall i :: 0 <= i < |r| ==> r[i].caption == r[i].value
    ensures forall i, j :: 0 <= i < j < |r| ==> r[i].caption != r[j].caption
    ensures |exporters| > 0 ==>
              forall x :: (exists i :: 0 <= i < |r| && r[i].value == x) <==> x in exporters
    ensures |exporters| == 0 ==> r == [TypeOption("csv", "csv")]
  {
    if |exporters| == 0 then [TypeOption("csv", "csv")]
    else
      var u := Unique(exporters);
      var r := seq(|u|, i requires 0 <= i < |u| => TypeOption(u[i], u[i]));
      assert forall x :: (exists i :: 0 <= i < |r| && r[i].value == x) <==> x in u by {
        forall x | x in u ensures exists i :: 0 <= i < |r| && r[i].value == x {
          var i :| 0 <= i < |u| && u[i] == x;
          assert r[i].value == x;
        }
      }
      r
  }

  /** JavaScript truthiness of a possibly absent string. */
  predicate Truthy(s: Option<string>) {
    s.Some? && s.value != ""
  }

  /**
   * `exportDefinitionData?.exporter || allExportDefinitionsData[0]?.exporter || 'csv'`:
   * an empty string counts as absent.
   */
  function DefaultType(stored: Option<string>, siblings: seq<string>): (t: string)
    ensures t != ""
    ensures Truthy(stored) ==> t == stored.value
    ensures !Truthy(stored) && |siblings| > 0 && siblings[0] != "" ==> t == siblings[0]
    ensures !Truthy(stored) && (|siblings| == 0 || siblings[0] == "") ==> t == "csv"
  {
    if Truthy(stored) then stored.value
    else if |siblings| > 0 && siblings[0] != "" then siblings[0]
    else "csv"
  }

  /**
   * Without a stored exporter the pre-selected type is one of the offered
   * options, unless the first sibling's exporter is empty.
   */
  lemma DefaultTypeOffered(stored: Option<string>, siblings: seq<string>)
    requires !Truthy(stored)
    requires |siblings| == 0 || siblings[0] != ""
    ensures exists i :: 0 <= i < |TypeOptions(siblings)| && TypeOptions(siblings)[i].value == DefaultType(stored, siblings)
  {
    var r := TypeOptions(siblings);
    if |siblings| == 0 {
      assert r[0].value == "csv";
    } else {
      assert siblings[0] in siblings;
    }
  }

  /**
   * The state `fetchData` sets once everything is fetched. Reading the first
   * form's identity throws when there is no form, and `Object.keys` throws
   * on a response without a `definition`; either way no state is set, which
   * is `None` here.
   */
  function LoadDraft(forms: seq<FormSnapshot>, stored: StoredDefinition, siblings: seq<string>): (r: Option<Draft>)
    requires stored.definition.Some? ==> WellFormed(stored.definition.value)
    ensures r.Some? <==> |forms| > 0 && stored.definition.Some?
    ensures r.Some? ==>
              && r.value.keyStart == |r.value.lines| == |stored.definition.value.keys|
              && (forall i :: 0 <= i < |r.value.lines| ==> r.value.lines[i].id == IdOf(i))
              && UniqueIds(r.value.lines)
              && IdsIssued(r.value.lines, r.value.keyStart)
              && FieldKeys(r.value.lines) == stored.definition.value.keys
              && r.value.selectedType != ""
  {
    if |forms| == 0 then None
    else
      match stored.definition
      case None => None
      case Some(d) =>
        SeedLinesKeys(d);
        Some(Draft(
          if stored.title.Some? then stored.title.value else "",
          TypeOptions(siblings),
          SeedLines(d),
          |d.keys|,
          FormFields(forms, d.keys),
          DefaultType(stored.exporter, siblings)))
  }

  /**
   * Loading an empty definition gives no lines, every form in the drop-down
   * and every form's field names on offer.
   */
  lemma LoadEmptyDefinition(forms: seq<FormSnapshot>, stored: StoredDefinition, siblings: seq<string>)
    requires stored.definition == Some(Empty)
    ensures var r := LoadDraft(forms, stored, siblings);
            && (r.Some? <==> |forms| > 0)
            && (r.Some? ==>
                && r.value.lines == [] && r.value.keyStart == 0
                && SelectOptions(forms, r.value.lines) == seq(|forms|, i requires 0 <= i < |forms| => Some(FormList(forms)[i]))
                && None !in r.value.formFields
                && forall name :: Some(name) in r.value.formFields <==>
                     exists i :: 0 <= i < |forms| && name in forms[i].processedFieldNames)
  {
    var r := LoadDraft(forms, stored, siblings);
    if r.Some? {
      SelectOptionsUnconstrained(forms, r.value.lines);
      FormFieldsUnconfigured(forms);
    }
  }

  /**
   * After loading a definition, the offered field names are those
   * of the forms that `SelectOptions` keeps, the drop-down as
   * `updateFormSelectOptions` would recompute it: the two uses of
   * `isSuitable` agree. The drop-down set on load still lists every form.
   */
  lemma LoadedFieldsMatchDropDown(forms: seq<FormSnapshot>, stored: StoredDefinition, siblings: seq<string>)
    requires stored.definition.Some? && WellFormed(stored.definition.value)
    ensures var r := LoadDraft(forms, stored, siblings);
            r.Some? ==>
            forall name :: Some(name) in r.value.formFields <==>
              exists i :: 0 <= i < |forms| && SelectOptions(forms, r.value.lines)[i].Some?
                          && name in forms[i].processedFieldNames
  {
    var d := stored.definition.value;
    var r := LoadDraft(forms, stored, siblings);
    if r.Some? {
      assert Values(r.value.lines) == Somes(d.keys);
    }
  }

  /**
   * Saving and reloading: the label and a non-empty exporter come back
   * unchanged. When the values are distinct the reloaded lines carry the
   * saved values and conversion values in order, renumbered `id-i`; an unset
   * value comes back as the text "undefined".
   */
  lemma {:induction false} ReloadAfterSave(forms: seq<FormSnapshot>, title: string, exporter: string,
                        lines: seq<Line>, siblings: seq<string>)
    ensures var stored := StoredDefinition(Some(title), Some(exporter), Some(Serialize(lines)));
            var r := LoadDraft(forms, stored, siblings);
            && (r.Some? <==> |forms| > 0)
            && (r.Some? ==>
                && r.value.definitionLabel == title
                && (exporter != "" ==> r.value.selectedType == exporter)
                && (DistinctValues(lines) ==>
                      && |r.value.lines| == |lines|
                      && forall i :: 0 <= i < |lines| ==>
                           && r.value.lines[i].id == IdOf(i)
                           && r.value.lines[i].value == Some(FieldKey(lines[i].value))
                           && r.value.lines[i].conversionValue == lines[i].conversionValue))
  {
    if DistinctValues(lines) {
      SeedAfterSerialize(lines);
    }
  }
}
