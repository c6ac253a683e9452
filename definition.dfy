/**
 * The stored `definition` object of an export definition: a JavaScript
 * object from source field name to `{changeKey}`, with its keys in
 * insertion order. `sendData` builds it from the lines; `fetchData` seeds
 * the lines from it.
 */
module Definitions {
  import opened Wrappers
  import opened Seqs
  import opened Ids
  import opened Lines

  /** The value stored under a field name; an undefined `changeKey` is `None`. */
  datatype Change = Change(changeKey: Option<string>)

  /** A JavaScript object: its keys in enumeration order and its entries. */
  datatype Definition = Definition(keys: seq<string>, entries: map<string, Change>)

  /** Every object read back from JSON has each key once, and exactly its entries' keys. */
  predicate WellFormed(d: Definition) {
    && Distinct(d.keys)
    && (forall k | k in d.entries :: k in d.keys)
    && (forall i | 0 <= i < |d.keys| :: d.keys[i] in d.entries)
  }

  const Empty := Definition([], map[])

  /**
   * The property name a line's value becomes in a computed key
   * `[line.value]`: JavaScript turns `undefined` into "undefined".
   */
  function FieldKey(v: Option<string>): (k: string)
    ensures v.Some? ==> k == v.value
    ensures v.None? ==> k == "undefined"
  {
    if v.None? then "undefined" else v.value
  }

  /**
   * Two lines get the same property name only when their values are equal,
   * or when one is unset and the other is the text "undefined".
   */
  lemma FieldKeyCollision(a: Option<string>, b: Option<string>)
    requires FieldKey(a) == FieldKey(b)
    ensures a == b || (a == None && b == Some("undefined")) || (a == Some("undefined") && b == None)
  {
  }

  /** The property names of the lines, in line order. */
  function FieldKeys(lines: seq<Line>): (ks: seq<string>)
    ensures |ks| == |lines|
    ensures forall i :: 0 <= i < |lines| ==> ks[i] == FieldKey(lines[i].value)
  {
    seq(|lines|, i requires 0 <= i < |lines| => FieldKey(lines[i].value))
  }

  /**
   * `Object.assign(d, {[k]: c})`: an existing key keeps its place and gets
   * the new value; a new key goes last.
   */
  function Assign(d: Definition, k: string, c: Change): (r: Definition)
    requires WellFormed(d)
    ensures WellFormed(r)
    ensures r.entries == d.entries[k := c]
  {
    var r := Definition(if k in d.entries then d.keys else d.keys + [k], d.entries[k := c]);
    assert k !in d.entries ==> k !in d.keys;
    r
  }

  /**
   * The `definition` that `sendData` builds:
   * `Object.assign({}, ...lines.map(line => ({[line.value]: {changeKey: line.conversionValue}})))`.
   */
  function Serialize(lines: seq<Line>): (d: Definition)
    ensures WellFormed(d)
    decreases |lines|
  {
    if lines == [] then Empty
    else
      var last := lines[|lines| - 1];
      var d := Serialize(lines[..|lines| - 1]);
      Assign(d, FieldKey(last.value), Change(last.conversionValue))
  }

  /** The keys of the saved object are the lines' values, each at its first occurrence. */
  lemma {:induction false} SerializeKeyOrder(lines: seq<Line>)
    ensures Serialize(lines).keys == Unique(FieldKeys(lines))
    decreases |lines|
  {
    if lines != [] {
      var init := lines[..|lines| - 1];
      var k := FieldKey(lines[|lines| - 1].value);
      SerializeKeyOrder(init);
      assert FieldKeys(lines) == FieldKeys(init) + [k];
      UniqueAppend(FieldKeys(init), k);
    }
  }

  /** The saved object has a key exactly for each line's value (`"undefined"` for an unset one). */
  lemma {:induction false} SerializeDomain(lines: seq<Line>)
    ensures forall k :: k in Serialize(lines).entries <==> k in FieldKeys(lines)
  {
    SerializeKeyOrder(lines);
  }

  /**
   * Last write wins: the entry for a line's value holds that line's
   * `conversionValue` when no later line has the same value.
   */
  lemma {:induction false} SerializeLastWins(lines: seq<Line>, i: nat)
    requires i < |lines|
    requires forall j :: i < j < |lines| ==> FieldKey(lines[j].value) != FieldKey(lines[i].value)
    ensures FieldKey(lines[i].value) in Serialize(lines).entries
    ensures Serialize(lines).entries[FieldKey(lines[i].value)] == Change(lines[i].conversionValue)
    decreases |lines|
  {
    if i < |lines| - 1 {
      var init := lines[..|lines| - 1];
      SerializeLastWins(init, i);
    }
  }

  /** Each line's value is a distinct property name. */
  predicate DistinctValues(lines: seq<Line>) {
    Distinct(FieldKeys(lines))
  }

  /** With distinct values the object has one key per line, in line order. */
  lemma {:induction false} SerializeDistinctKeys(lines: seq<Line>)
    requires DistinctValues(lines)
    ensures Serialize(lines).keys == FieldKeys(lines)
  {
    SerializeKeyOrder(lines);
    UniqueOfDistinct(FieldKeys(lines));
  }

  /** With distinct values each line's key holds that line's conversion value. */
  lemma {:induction false} SerializeDistinctEntries(lines: seq<Line>, i: nat)
    requires DistinctValues(lines) && i < |lines|
    ensures FieldKey(lines[i].value) in Serialize(lines).entries
    ensures Serialize(lines).entries[FieldKey(lines[i].value)] == Change(lines[i].conversionValue)
  {
    var ks := FieldKeys(lines);
    assert forall j :: i < j < |lines| ==> ks[j] != ks[i];
    SerializeLastWins(lines, i);
  }

  /**
   * The lines `fetchData` seeds from a stored definition: one per key, in key
   * order, the i-th with id `id-i`, the key as value and its `changeKey` as
   * conversion value.
   */
  function SeedLines(d: Definition): (lines: seq<Line>)
    requires WellFormed(d)
    ensures |lines| == |d.keys|
    ensures forall i :: 0 <= i < |lines| ==>
              && lines[i].id == IdOf(i)
              && lines[i].value == Some(d.keys[i])
              && lines[i].conversionValue == d.entries[d.keys[i]].changeKey
    ensures UniqueIds(lines)
    ensures IdsIssued(lines, |d.keys|)
  {
    var lines := seq(|d.keys|, i requires 0 <= i < |d.keys| =>
                       Line(IdOf(i), Some(d.keys[i]), d.entries[d.keys[i]].changeKey));
    NumberedIds(lines, |d.keys|);
    lines
  }

  /** The values of the seeded lines are the keys of the definition, in order. */
  lemma SeedLinesKeys(d: Definition)
    requires WellFormed(d)
    ensures FieldKeys(SeedLines(d)) == d.keys
  {
  }

  /**
   * Round trip, lines first: saving lines whose values are distinct and
   * loading the result back gives the same values and conversion values
   * in the same order, renumbered `id-0 … id-(n-1)`.
   */
  lemma {:induction false} SeedAfterSerialize(lines: seq<Line>)
    requires DistinctValues(lines)
    ensures WellFormed(Serialize(lines))
    ensures var seeded := SeedLines(Serialize(lines));
            && |seeded| == |lines|
            && forall i :: 0 <= i < |lines| ==>
                 seeded[i] == Line(IdOf(i), Some(FieldKey(lines[i].value)), lines[i].conversionValue)
  {
    var d := Serialize(lines);
    SerializeDistinctKeys(lines);
    var seeded := SeedLines(d);
    forall i | 0 <= i < |lines|
      ensures seeded[i] == Line(IdOf(i), Some(FieldKey(lines[i].value)), lines[i].conversionValue)
    {
      SerializeDistinctEntries(lines, i);
      assert d.keys[i] == FieldKey(lines[i].value);
    }
  }

  /**
   * Round trip, definition first: seeding lines from a stored definition
   * and saving them again gives back the same object.
   */
  lemma {:induction false} SerializeAfterSeed(d: Definition)
    requires WellFormed(d)
    ensures Serialize(SeedLines(d)) == d
  {
    var r := Serialize(SeedLines(d));
    SeedLinesKeys(d);
    SerializeDistinctKeys(SeedLines(d));
    SeedSerializeDomain(d);
    forall k | k in r.entries ensures r.entries[k] == d.entries[k] {
      SeedSerializeEntry(d, k);
    }
    assert r.entries == d.entries;
  }

  lemma {:induction false} SeedSerializeDomain(d: Definition)
    requires WellFormed(d)
    ensures forall k :: k in Serialize(SeedLines(d)).entries <==> k in d.entries
  {
    SeedLinesKeys(d);
    SerializeDomain(SeedLines(d));
  }

  lemma {:induction false} SeedSerializeEntry(d: Definition, k: string)
    requires WellFormed(d) && k in d.entries
    ensures k in Serialize(SeedLines(d)).entries
    ensures Serialize(SeedLines(d)).entries[k] == d.entries[k]
  {
    var seeded := SeedLines(d);
    SeedLinesKeys(d);
    var i :| 0 <= i < |d.keys| && d.keys[i] == k;
    SerializeDistinctEntries(seeded, i);
    assert FieldKey(seeded[i].value) == k;
  }

  /**
   * Duplicate values are not kept apart: two lines on the same field give
   * one key, holding the later line's conversion value.
   */
  lemma {:induction false} DuplicateValueCollapses(lines: seq<Line>, i: nat, j: nat)
    requires i < j < |lines| && FieldKey(lines[i].value) == FieldKey(lines[j].value)
    requires forall p :: j < p < |lines| ==> FieldKey(lines[p].value) != FieldKey(lines[j].value)
    ensures |Serialize(lines).keys| < |lines|
    ensures FieldKey(lines[i].value) in Serialize(lines).entries
    ensures Serialize(lines).entries[FieldKey(lines[i].value)] == Change(lines[j].conversionValue)
  {
    SerializeLastWins(lines, j);
    SerializeKeyOrder(lines);
    var ks := FieldKeys(lines);
    UniqueShorter(ks, i, j);
  }

  lemma {:induction false} UniqueShorter<T(!new)>(s: seq<T>, i: nat, j: nat)
    requires i < j < |s| && s[i] == s[j]
    ensures |Unique(s)| < |s|
    decreases |s|
  {
    var init := s[..|s| - 1];
    if j < |s| - 1 {
      UniqueShorter(init, i, j);
    } else {
      assert s[|s| - 1] in init by { assert init[i] == s[i]; }
    }
  }
}
