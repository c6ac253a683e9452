/**
 * Which forms fit the current field associations: the field names offered
 * when a definition is loaded (`generateFormFieldsForExportDefinition`) and
 * the form drop-down (`updateFormSelectOptions`).
 */
module Matcher {
  import opened Wrappers
  import opened Seqs
  import opened Lines

  /** A form's submitted data as the form-data endpoint returns it. */
  datatype FormSnapshot = FormSnapshot(
    identity: string,
    formIdentifier: string,
    hash: string,
    processedFieldNames: seq<string>)

  /** An entry of the form drop-down. */
  datatype FormOption = FormOption(id: string, caption: string)

  /** An unset field name (undefined or empty) asks nothing of a form. */
  predicate Blank(name: Option<string>) {
    name.None? || name.value == ""
  }

  /**
   * `isSuitable(processedFieldNames, fields)`: the form offers every field
   * name that is asked for.
   */
  predicate IsSuitable(processedFieldNames: seq<string>, fields: seq<Option<string>>)
    ensures IsSuitable(processedFieldNames, fields) <==>
              forall x :: x in fields && !Blank(x) ==> x.value in processedFieldNames
  {
    forall i :: 0 <= i < |fields| ==> Blank(fields[i]) || fields[i].value in processedFieldNames
  }

  /** Suitability depends only on which names are asked for, not their order or repetition. */
  lemma SuitableBySet(names: seq<string>, a: seq<Option<string>>, b: seq<Option<string>>)
    requires forall x :: x in a ==> x in b
    ensures IsSuitable(names, b) ==> IsSuitable(names, a)
  {
    if IsSuitable(names, b) {
      forall i | 0 <= i < |a| ensures Blank(a[i]) || a[i].value in names {
        assert a[i] in a;
        var j :| 0 <= j < |b| && b[j] == a[i];
      }
    }
  }

  /** Asking for nothing suits every form. */
  lemma SuitableForNothing(names: seq<string>, fields: seq<Option<string>>)
    requires forall i :: 0 <= i < |fields| ==> Blank(fields[i])
    ensures IsSuitable(names, fields)
  {
  }

  /** `state.lines.map(line => line.value)`. */
  function Values(lines: seq<Line>): (vs: seq<Option<string>>)
    ensures |vs| == |lines|
    ensures forall i :: 0 <= i < |lines| ==> vs[i] == lines[i].value
  {
    seq(|lines|, i requires 0 <= i < |lines| => lines[i].value)
  }

  /** What one form adds to the offered field names. */
  function Contribution(form: FormSnapshot, fields: seq<string>): (part: seq<Option<string>>)
    ensures forall name :: Some(name) in part <==>
              name in form.processedFieldNames
              && (|fields| == 0 || IsSuitable(form.processedFieldNames, Somes(fields)))
    ensures None in part <==> |fields| > 0 && !IsSuitable(form.processedFieldNames, Somes(fields))
  {
    if |fields| == 0 || IsSuitable(form.processedFieldNames, Somes(fields)) then
      Somes(form.processedFieldNames)
    else
      [None]  // the callback returns undefined, which flattening keeps
  }

  /**
   * `generateFormFieldsForExportDefinition(formsData, exportDefinitionFields)`:
   * the field names of all forms when no fields are configured, otherwise of
   * the suitable forms only; every unsuitable form adds an undefined entry.
   * Duplicates are dropped.
   */
  function FormFields(forms: seq<FormSnapshot>, fields: seq<string>): (r: seq<Option<string>>)
    ensures Distinct(r)
    ensures forall name :: Some(name) in r <==>
              exists i :: 0 <= i < |forms| && name in forms[i].processedFieldNames
                          && (|fields| == 0 || IsSuitable(forms[i].processedFieldNames, Somes(fields)))
    ensures None in r <==>
              |fields| > 0 && exists i :: 0 <= i < |forms| && !IsSuitable(forms[i].processedFieldNames, Somes(fields))
  {
    FormFieldsMembers(forms, fields);
    Unique(Flatten(Parts(forms, fields)))
  }

  /** What each form contributes, in form order. */
  function Parts(forms: seq<FormSnapshot>, fields: seq<string>): seq<seq<Option<string>>> {
    seq(|forms|, i requires 0 <= i < |forms| => Contribution(forms[i], fields))
  }

  lemma FormFieldsMembers(forms: seq<FormSnapshot>, fields: seq<string>)
    ensures forall name :: Some(name) in Unique(Flatten(Parts(forms, fields))) <==>
              exists i :: 0 <= i < |forms| && name in forms[i].processedFieldNames
                          && (|fields| == 0 || IsSuitable(forms[i].processedFieldNames, Somes(fields)))
    ensures None in Unique(Flatten(Parts(forms, fields))) <==>
              |fields| > 0 && exists i :: 0 <= i < |forms| && !IsSuitable(forms[i].processedFieldNames, Somes(fields))
  {
    var parts := Parts(forms, fields);
    var r := Unique(Flatten(parts));
    assert forall name, i | 0 <= i < |forms| ::
             Some(name) in parts[i] <==>
               name in forms[i].processedFieldNames
               && (|fields| == 0 || IsSuitable(forms[i].processedFieldNames, Somes(fields)));
    assert forall name :: Some(name) in r <==> exists i :: 0 <= i < |parts| && Some(name) in parts[i];
    assert None in r <==> exists i :: 0 <= i < |parts| && None in parts[i];
  }

  /** With no configured fields every form's field names are offered, and nothing undefined. */
  lemma FormFieldsUnconfigured(forms: seq<FormSnapshot>)
    ensures None !in FormFields(forms, [])
    ensures forall name :: Some(name) in FormFields(forms, []) <==>
              exists i :: 0 <= i < |forms| && name in forms[i].processedFieldNames
  {
  }

  /** The drop-down label of a form: its identifier, a dash and the first ten characters of its hash. */
  function FormLabel(form: FormSnapshot): (caption: string)
    ensures |caption| == |form.formIdentifier| + 1 + (if |form.hash| < 10 then |form.hash| else 10)
    ensures caption[..|form.formIdentifier| + 1] == form.formIdentifier + "-"
    ensures caption[|form.formIdentifier| + 1..] <= form.hash
  {
    form.formIdentifier + "-" + form.hash[..if |form.hash| < 10 then |form.hash| else 10]
  }

  /** The drop-down entry of a form. */
  function OptionOf(form: FormSnapshot): (option: FormOption)
    ensures option.id == form.identity && option.caption == FormLabel(form)
  {
    FormOption(form.identity, FormLabel(form))
  }

  /** The drop-down right after loading: every form, in order. */
  function FormList(forms: seq<FormSnapshot>): (list: seq<FormOption>)
    ensures |list| == |forms|
    ensures forall i :: 0 <= i < |forms| ==> list[i] == OptionOf(forms[i])
  {
    seq(|forms|, i requires 0 <= i < |forms| => OptionOf(forms[i]))
  }

  /**
   * `updateFormSelectOptions`: each form is mapped (not filtered) to its
   * entry when the current line values suit it, and to undefined otherwise.
   */
  function SelectOptions(forms: seq<FormSnapshot>, lines: seq<Line>): (list: seq<Option<FormOption>>)
    ensures |list| == |forms|
    ensures forall i :: 0 <= i < |forms| ==>
              (list[i].Some? <==> IsSuitable(forms[i].processedFieldNames, Values(lines)))
    ensures forall i :: 0 <= i < |forms| && list[i].Some? ==> list[i].value == OptionOf(forms[i])
  {
    seq(|forms|, i requires 0 <= i < |forms| =>
          if IsSuitable(forms[i].processedFieldNames, Values(lines)) then Some(OptionOf(forms[i])) else None)
  }

  /** While every line's field is unset, the drop-down lists every form, as right after loading. */
  lemma SelectOptionsUnconstrained(forms: seq<FormSnapshot>, lines: seq<Line>)
    requires forall i :: 0 <= i < |lines| ==> Blank(lines[i].value)
    ensures SelectOptions(forms, lines) == seq(|forms|, i requires 0 <= i < |forms| => Some(FormList(forms)[i]))
  {
    forall i | 0 <= i < |forms| ensures SelectOptions(forms, lines)[i] == Some(FormList(forms)[i]) {
      SuitableForNothing(forms[i].processedFieldNames, Values(lines));
    }
  }

  /** Lines with the same values, in any order and multiplicity, give the same drop-down. */
  lemma SelectOptionsBySet(forms: seq<FormSnapshot>, a: seq<Line>, b: seq<Line>)
    requires forall x :: x in Values(a) <==> x in Values(b)
    ensures SelectOptions(forms, a) == SelectOptions(forms, b)
  {
    forall i | 0 <= i < |forms| ensures SelectOptions(forms, a)[i] == SelectOptions(forms, b)[i] {
      SuitableBySet(forms[i].processedFieldNames, Values(a), Values(b));
      SuitableBySet(forms[i].processedFieldNames, Values(b), Values(a));
    }
  }

  /** Reordering lines does not change the drop-down (so the drag handler need not recompute it). */
  lemma SelectOptionsAfterMove(forms: seq<FormSnapshot>, lines: seq<Line>, startIndex: nat, endIndex: nat)
    requires startIndex < |lines|
    ensures SelectOptions(forms, Moved(lines, startIndex, endIndex)) == SelectOptions(forms, lines)
  {
    var moved := Moved(lines, startIndex, endIndex);
    forall x | x in Values(moved) ensures x in Values(lines) {
      var i :| 0 <= i < |moved| && Values(moved)[i] == x;
      MovedAt(lines, startIndex, endIndex, i);
      assert Values(lines)[MovedSource(|lines|, startIndex, endIndex, i)] == x;
    }
    MovedPermutes(lines, startIndex, endIndex);
    forall x | x in Values(lines) ensures x in Values(moved) {
      var i :| 0 <= i < |lines| && Values(lines)[i] == x;
      assert lines[i] in multiset(moved);
      var j :| 0 <= j < |moved| && moved[j] == lines[i];
      assert Values(moved)[j] == x;
    }
    SelectOptionsBySet(forms, moved, lines);
  }

  /** Changing a line's conversion value does not change the drop-down. */
  lemma SelectOptionsIgnoresConversion(forms: seq<FormSnapshot>, lines: seq<Line>, index: nat, c: Option<string>)
    requires index < |lines|
    ensures SelectOptions(forms, lines[index := lines[index].(conversionValue := c)]) == SelectOptions(forms, lines)
  {
    assert Values(lines[index := lines[index].(conversionValue := c)]) == Values(lines);
  }

  /** A new line with an unset field leaves the drop-down as it was. */
  lemma SelectOptionsAfterBlankLine(forms: seq<FormSnapshot>, lines: seq<Line>, line: Line)
    requires Blank(line.value)
    ensures SelectOptions(forms, lines + [line]) == SelectOptions(forms, lines)
  {
    var after := lines + [line];
    forall i | 0 <= i < |forms|
      ensures IsSuitable(forms[i].processedFieldNames, Values(after))
              <==> IsSuitable(forms[i].processedFieldNames, Values(lines))
    {
      var names := forms[i].processedFieldNames;
      if IsSuitable(names, Values(lines)) {
        forall p | 0 <= p < |after| ensures Blank(Values(after)[p]) || Values(after)[p].value in names {
          if p < |lines| { assert Values(after)[p] == Values(lines)[p]; }
        }
      }
      if IsSuitable(names, Values(after)) {
        forall p | 0 <= p < |lines| ensures Blank(Values(lines)[p]) || Values(lines)[p].value in names {
          assert Values(after)[p] == Values(lines)[p];
        }
      }
    }
  }

  /** Removing a line can only make more forms suitable. */
  lemma SelectOptionsAfterRemoval(forms: seq<FormSnapshot>, lines: seq<Line>, index: nat)
    requires index < |lines|
    ensures forall i :: 0 <= i < |forms| && SelectOptions(forms, lines)[i].Some? ==>
              SelectOptions(forms, lines[..index] + lines[index + 1..])[i].Some?
  {
    var after := lines[..index] + lines[index + 1..];
    forall x | x in Values(after) ensures x in Values(lines) {
      var p :| 0 <= p < |after| && Values(after)[p] == x;
      if p < index { assert Values(lines)[p] == x; } else { assert Values(lines)[p + 1] == x; }
    }
    forall i | 0 <= i < |forms| {
      SuitableBySet(forms[i].processedFieldNames, Values(after), Values(lines));
    }
  }
}
