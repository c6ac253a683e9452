/**
 * The field-association lines of an export definition and the `reorder`
 * helper that the drag-and-drop handler uses.
 *
 * A line pairs a source form field (`value`) with the key it is renamed to
 * in the export (`conversionValue`). Both are `None` (JavaScript
 * `undefined`) on a freshly added line.
 */
module Lines {
  import opened Wrappers
  import opened Ids

  datatype Line = Line(id: string, value: Option<string>, conversionValue: Option<string>)

  /** No two lines share an id (the ids are the keys of the rendered rows). */
  predicate UniqueIds(lines: seq<Line>) {
    forall i, j :: 0 <= i < j < |lines| ==> lines[i].id != lines[j].id
  }

  /** The id is `id-j` for some j up to `keyStart`. */
  ghost predicate Issued(id: string, keyStart: nat) {
    exists j :: 0 <= j <= keyStart && id == IdOf(j)
  }

  /** Every line carries an id `id-j` whose number j is at most `keyStart`. */
  ghost predicate IdsIssued(lines: seq<Line>, keyStart: nat) {
    forall i :: 0 <= i < |lines| ==> Issued(lines[i].id, keyStart)
  }

  /** Lines numbered `id-0 … id-(n-1)` have distinct ids issued up to any bound from n - 1 on. */
  lemma NumberedIds(lines: seq<Line>, keyStart: nat)
    requires |lines| <= keyStart + 1
    requires forall i :: 0 <= i < |lines| ==> lines[i].id == IdOf(i)
    ensures UniqueIds(lines) && IdsIssued(lines, keyStart)
  {
    forall i, j | 0 <= i < j < |lines| ensures lines[i].id != lines[j].id {
      IdsDiffer(i, j);
    }
    forall i | 0 <= i < |lines| ensures Issued(lines[i].id, keyStart) {
      assert lines[i].id == IdOf(i);
    }
  }

  /** The id `id-(keyStart+1)` that the next added line gets is used by no line. */
  lemma NextIdIsFresh(lines: seq<Line>, keyStart: nat)
    requires IdsIssued(lines, keyStart)
    ensures forall i :: 0 <= i < |lines| ==> lines[i].id != IdOf(keyStart + 1)
  {
    forall i | 0 <= i < |lines| ensures lines[i].id != IdOf(keyStart + 1) {
      var j :| 0 <= j <= keyStart && lines[i].id == IdOf(j);
      IdsDiffer(j, keyStart + 1);
    }
  }

  /**
   * Where `splice(endIndex, 0, removed)` puts the moved element in a list of
   * n elements from which one was taken out: at `endIndex`, or at the end
   * when `endIndex` is past it.
   */
  function InsertIndex(n: nat, endIndex: nat): (k: nat)
    requires 0 < n
    ensures k < n
    ensures endIndex < n ==> k == endIndex
    ensures n <= endIndex ==> k == n - 1
  {
    if endIndex < n - 1 then endIndex else n - 1
  }

  /**
   * Reference definition of `reorder(list, startIndex, endIndex)`: take the
   * element at `startIndex` out, then insert it at `endIndex` into what is
   * left.
   */
  function Moved<T>(list: seq<T>, startIndex: nat, endIndex: nat): (r: seq<T>)
    requires startIndex < |list|
    ensures |r| == |list|
    ensures r[InsertIndex(|list|, endIndex)] == list[startIndex]
  {
    var rest := list[..startIndex] + list[startIndex + 1..];
    var k := InsertIndex(|list|, endIndex);
    rest[..k] + [list[startIndex]] + rest[k..]
  }

  /** Apart from the moved element, the elements keep their relative order. */
  lemma MovedKeepsOthers<T>(list: seq<T>, startIndex: nat, endIndex: nat)
    requires startIndex < |list|
    ensures var r := Moved(list, startIndex, endIndex);
            var k := InsertIndex(|list|, endIndex);
            r[..k] + r[k + 1..] == list[..startIndex] + list[startIndex + 1..]
  {
    var rest := list[..startIndex] + list[startIndex + 1..];
    var k := InsertIndex(|list|, endIndex);
    var r := Moved(list, startIndex, endIndex);
    assert r[..k] == rest[..k];
    assert r[k + 1..] == rest[k..];
  }

  /** Reordering is a permutation. */
  lemma MovedPermutes<T>(list: seq<T>, startIndex: nat, endIndex: nat)
    requires startIndex < |list|
    ensures multiset(Moved(list, startIndex, endIndex)) == multiset(list)
  {
    var rest := list[..startIndex] + list[startIndex + 1..];
    var k := InsertIndex(|list|, endIndex);
    assert list == list[..startIndex] + [list[startIndex]] + list[startIndex + 1..];
    assert rest == rest[..k] + rest[k..];
    assert multiset(rest) == multiset(rest[..k]) + multiset(rest[k..]);
    assert multiset(list) == multiset(rest) + multiset{list[startIndex]};
  }

  /** The index in `list` of the element that `Moved` puts at position i. */
  function MovedSource(n: nat, startIndex: nat, endIndex: nat, i: nat): (p: nat)
    requires startIndex < n && i < n
    ensures p < n
  {
    var k := InsertIndex(n, endIndex);
    if i == k then startIndex
    else
      var r := if i < k then i else i - 1;
      if r < startIndex then r else r + 1
  }

  /** Each position of the moved list holds the element at its source index. */
  lemma MovedAt<T>(list: seq<T>, startIndex: nat, endIndex: nat, i: nat)
    requires startIndex < |list| && i < |list|
    ensures Moved(list, startIndex, endIndex)[i] == list[MovedSource(|list|, startIndex, endIndex, i)]
  {
    var rest := list[..startIndex] + list[startIndex + 1..];
    var k := InsertIndex(|list|, endIndex);
    var r := Moved(list, startIndex, endIndex);
    assert r == rest[..k] + [list[startIndex]] + rest[k..];
    if i < k {
      assert r[i] == rest[i];
    } else if i > k {
      assert r[i] == rest[i - 1];
    }
  }

  /** Different positions of the moved list come from different source positions. */
  lemma MovedSourceInjective(n: nat, startIndex: nat, endIndex: nat, i: nat, j: nat)
    requires startIndex < n && i < n && j < n && i != j
    ensures MovedSource(n, startIndex, endIndex, i) != MovedSource(n, startIndex, endIndex, j)
  {
  }

  /** Moving an element onto its own position leaves the list as it was. */
  lemma {:induction false} MovedToSameIndex<T>(list: seq<T>, i: nat)
    requires i < |list|
    ensures Moved(list, i, i) == list
  {
    var r := Moved(list, i, i);
    forall p | 0 <= p < |list| ensures r[p] == list[p] {
      MovedAt(list, i, i, p);
    }
  }

  /** Moving the element back from where it went restores the list. */
  lemma {:induction false} MovedBack<T>(list: seq<T>, startIndex: nat, endIndex: nat)
    requires startIndex < |list| && endIndex < |list|
    ensures Moved(Moved(list, startIndex, endIndex), endIndex, startIndex) == list
  {
    var r := Moved(list, startIndex, endIndex);
    var back := Moved(r, endIndex, startIndex);
    forall p | 0 <= p < |list| ensures back[p] == list[p] {
      MovedAt(r, endIndex, startIndex, p);
      var q := MovedSource(|list|, endIndex, startIndex, p);
      MovedAt(list, startIndex, endIndex, q);
    }
  }

  /** Reordering keeps the ids distinct. */
  lemma MovedKeepsUniqueIds(lines: seq<Line>, startIndex: nat, endIndex: nat)
    requires startIndex < |lines| && UniqueIds(lines)
    ensures UniqueIds(Moved(lines, startIndex, endIndex))
  {
    var r := Moved(lines, startIndex, endIndex);
    forall i, j | 0 <= i < j < |r| ensures r[i].id != r[j].id {
      MovedAt(lines, startIndex, endIndex, i);
      MovedAt(lines, startIndex, endIndex, j);
      MovedSourceInjective(|lines|, startIndex, endIndex, i, j);
    }
  }

  /** Reordering issues no new ids. */
  lemma MovedKeepsIdsIssued(lines: seq<Line>, startIndex: nat, endIndex: nat, keyStart: nat)
    requires startIndex < |lines| && IdsIssued(lines, keyStart)
    ensures IdsIssued(Moved(lines, startIndex, endIndex), keyStart)
  {
    var r := Moved(lines, startIndex, endIndex);
    forall i | 0 <= i < |r| ensures Issued(r[i].id, keyStart) {
      MovedAt(lines, startIndex, endIndex, i);
      var p := MovedSource(|lines|, startIndex, endIndex, i);
      assert r[i] == lines[p];
    }
  }

  /** A list that holds, at every position, the element `Moved` takes from there is `Moved`'s result. */
  lemma MovedFromSources<T>(list: seq<T>, startIndex: nat, endIndex: nat, r: seq<T>)
    requires startIndex < |list| && |r| == |list|
    requires forall p :: 0 <= p < |r| ==> r[p] == list[MovedSource(|list|, startIndex, endIndex, p)]
    ensures r == Moved(list, startIndex, endIndex)
  {
    forall p | 0 <= p < |r| ensures r[p] == Moved(list, startIndex, endIndex)[p] {
      MovedAt(list, startIndex, endIndex, p);
    }
  }

  /** `a[from..to]` takes the place of `a[from+1..to+1]`; the rest stays. */
  method ShiftLeft<T>(a: array<T>, from: nat, to: nat)
    requires from <= to < a.Length
    modifies a
    ensures forall j :: 0 <= j < from ==> a[j] == old(a[j])
    ensures forall j :: from <= j < to ==> a[j] == old(a[j + 1])
    ensures forall j :: to <= j < a.Length ==> a[j] == old(a[j])
  {
    var i := from;
    while i < to
      invariant from <= i <= to
      invariant forall j :: 0 <= j < from ==> a[j] == old(a[j])
      invariant forall j :: from <= j < i ==> a[j] == old(a[j + 1])
      invariant forall j :: i <= j < a.Length ==> a[j] == old(a[j])
    {
      a[i] := a[i + 1];
      i := i + 1;
    }
  }

  /** `a[to+1..from+1]` takes the place of `a[to..from]`; the rest stays. */
  method ShiftRight<T>(a: array<T>, to: nat, from: nat)
    requires to <= from < a.Length
    modifies a
    ensures forall j :: 0 <= j <= to ==> a[j] == old(a[j])
    ensures forall j :: to < j <= from ==> a[j] == old(a[j - 1])
    ensures forall j :: from < j < a.Length ==> a[j] == old(a[j])
  {
    var i := from;
    while i > to
      invariant to <= i <= from
      invariant forall j :: 0 <= j <= i ==> a[j] == old(a[j])
      invariant forall j :: i < j <= from ==> a[j] == old(a[j - 1])
      invariant forall j :: from < j < a.Length ==> a[j] == old(a[j])
    {
      a[i] := a[i - 1];
      i := i - 1;
    }
  }

  /**
   * `reorder(list, startIndex, endIndex)`: copy the list into a fresh array
   * (`Array.from`), take out the element at `startIndex` and insert it at
   * `endIndex`. The removal and the insertion leave the length as it was,
   * so together they shift the elements between the two indices by one
   * place and drop the moved element into the gap.
   */
  method Reorder<T>(list: seq<T>, startIndex: nat, endIndex: nat) returns (result: seq<T>)
    requires startIndex < |list|
    ensures result == Moved(list, startIndex, endIndex)
  {
    var n := |list|;
    var a := new T[n](i requires 0 <= i < n => list[i]);
    var removed := a[startIndex];
    var k := InsertIndex(n, endIndex);
    if startIndex <= k {
      ShiftLeft(a, startIndex, k);
    } else {
      ShiftRight(a, k, startIndex);
    }
    a[k] := removed;
    result := a[..];
    forall p | 0 <= p < n ensures result[p] == list[MovedSource(n, startIndex, endIndex, p)] {
      if p != k {
        assert result[p] == a[p];
      }
    }
    MovedFromSources(list, startIndex, endIndex, result);
  }
}
