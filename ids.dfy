/**
 * Line identifiers. The editor names a line `id-<n>` (a template string over
 * a natural number), so an id is the text "id-" followed by the decimal
 * digits of n.
 */
module Ids {

  function DigitChar(d: nat): char
    requires d < 10
  {
    ('0' as int + d) as char
  }

  /** The decimal representation of n, without leading zeros. */
  function Decimal(n: nat): (s: string)
    ensures 1 <= |s|
    ensures |s| == 1 <==> n < 10
    ensures forall i :: 0 <= i < |s| ==> '0' <= s[i] <= '9'
    decreases n
  {
    if n < 10 then [DigitChar(n)] else Decimal(n / 10) + [DigitChar(n % 10)]
  }

  /** The number a string of decimal digits denotes. */
  function DigitsValue(s: string): int
    decreases |s|
  {
    if s == [] then 0 else DigitsValue(s[..|s| - 1]) * 10 + (s[|s| - 1] as int - '0' as int)
  }

  /** Reading the decimal representation of n back gives n. */
  lemma {:induction false} DecimalValue(n: nat)
    ensures DigitsValue(Decimal(n)) == n
    decreases n
  {
    if n >= 10 {
      DecimalValue(n / 10);
      var s := Decimal(n);
      assert s[..|s| - 1] == Decimal(n / 10);
    }
  }

  /** Different numbers have different decimal representations. */
  lemma {:induction false} DecimalInjective(a: nat, b: nat)
    requires a != b
    ensures Decimal(a) != Decimal(b)
    decreases a
  {
    if a >= 10 && b >= 10 {
      var da, db := Decimal(a), Decimal(b);
      assert da == Decimal(a / 10) + [DigitChar(a % 10)];
      assert db == Decimal(b / 10) + [DigitChar(b % 10)];
      if a % 10 != b % 10 {
        assert da[|da| - 1] != db[|db| - 1];
      } else {
        assert a / 10 != b / 10;
        DecimalInjective(a / 10, b / 10);
        assert da[..|da| - 1] == Decimal(a / 10);
        assert db[..|db| - 1] == Decimal(b / 10);
      }
    }
  }

  /** The id the editor gives to the line numbered n. */
  function IdOf(n: nat): (id: string)
    ensures "id-" < id
  {
    "id-" + Decimal(n)
  }

  /** An id is "id-" followed by digits, and those digits read back as its number. */
  lemma IdOfNumber(n: nat)
    ensures |IdOf(n)| >= 4 && IdOf(n)[..3] == "id-"
    ensures forall i :: 3 <= i < |IdOf(n)| ==> '0' <= IdOf(n)[i] <= '9'
    ensures DigitsValue(IdOf(n)[3..]) == n
  {
    DecimalValue(n);
    assert IdOf(n)[3..] == Decimal(n);
  }

  /** Ids of distinct numbers are distinct. */
  lemma IdsDiffer(a: nat, b: nat)
    requires a != b
    ensures IdOf(a) != IdOf(b)
  {
    DecimalInjective(a, b);
    assert IdOf(a)[3..] == Decimal(a);
    assert IdOf(b)[3..] == Decimal(b);
  }
}
