/** Operand text and its numeric meaning. The engine accumulates the digits and dots of one
    operand in a text buffer and converts it with a library float parser; here conversion is
    abstracted to a syntactic check (ValidNumber) and an exact decimal value (Value). */
module Operand {

  predicate IsDigit(c: char) {
    '0' <= c <= '9'
  }

  predicate EndsWithDot(b: string) {
    |b| > 0 && b[|b| - 1] == '.'
  }

  /** No two adjacent dots. */
  predicate NoDoubleDot(b: string) {
    forall i :: 0 <= i < |b| - 1 ==> !(b[i] == '.' && b[i + 1] == '.')
  }

  function DotCount(t: string): nat {
    if t == [] then 0 else (if t[0] == '.' then 1 else 0) + DotCount(t[1..])
  }

  predicate HasDigit(t: string) {
    t != [] && (IsDigit(t[0]) || HasDigit(t[1..]))
  }

  predicate DigitsAndDots(t: string) {
    t == [] || ((IsDigit(t[0]) || t[0] == '.') && DigitsAndDots(t[1..]))
  }

  /** The buffers the float parser accepts: digits and dots only, at least one digit,
      at most one dot ("5", "5.", ".5", "2.25"; not "", ".", "1.2.3"). */
  predicate ValidNumber(t: string)
    ensures ValidNumber(t) ==> t != "" && t != "." && NoDoubleDot(t)
  {
    AtMostOneDotNoDoubleDot(t);
    assert "."[0] == '.';
    DigitsAndDots(t) && HasDigit(t) && DotCount(t) <= 1
  }

  lemma {:induction false} AtMostOneDotNoDoubleDot(t: string)
    ensures DotCount(t) <= 1 ==> NoDoubleDot(t)
  {
    if |t| >= 2 {
      assert t[0] == '.' && DotCount(t) <= 1 ==> t[1] != '.' by {
        assert t[1..][0] == t[1];
        assert DotCount(t[1..]) == (if t[1..][0] == '.' then 1 else 0) + DotCount(t[1..][1..]);
      }
      AtMostOneDotNoDoubleDot(t[1..]);
      if DotCount(t) <= 1 {
        forall i | 0 < i < |t| - 1
          ensures !(t[i] == '.' && t[i + 1] == '.')
        {
          assert t[i] == t[1..][i - 1] && t[i + 1] == t[1..][i];
        }
      }
    }
  }

  lemma {:induction false} DigitsAndDotsSnoc(t: string, c: char)
    requires DigitsAndDots(t) && (IsDigit(c) || c == '.')
    ensures DigitsAndDots(t + [c])
  {
    if t == [] {
      assert [c][1..] == [];
    } else {
      assert (t + [c])[1..] == t[1..] + [c];
      DigitsAndDotsSnoc(t[1..], c);
    }
  }

  /** Appending a digit, or a dot to a text not ending in a dot, keeps adjacent dots out. */
  lemma NoDoubleDotSnoc(t: string, c: char)
    requires NoDoubleDot(t) && !(c == '.' && EndsWithDot(t))
    ensures NoDoubleDot(t + [c])
  {
    var u := t + [c];
    forall i | 0 <= i < |u| - 1
      ensures !(u[i] == '.' && u[i + 1] == '.')
    {
      if i < |t| - 1 {
        assert u[i] == t[i] && u[i + 1] == t[i + 1];
      }
    }
  }

  /** Digits and dots with no two dots together: anything but "" and "." holds a digit. */
  lemma HasDigitUnlessLoneDot(t: string)
    requires DigitsAndDots(t) && NoDoubleDot(t) && t != "" && t != "."
    ensures HasDigit(t)
  {
    if !IsDigit(t[0]) {
      assert t[0] == '.';
      assert |t| >= 2 by {
        assert "." == ['.'];
      }
      assert t[1..][0] == t[1];
      assert HasDigit(t[1..]);
    }
  }

  function DigitValue(c: char): nat {
    if IsDigit(c) then c as int - '0' as int else 0
  }

  /** The value of a string of decimal digits, most significant first. */
  function Whole(ds: string): nat {
    if ds == [] then 0 else 10 * Whole(ds[..|ds| - 1]) + DigitValue(ds[|ds| - 1])
  }

  function Pow10(n: nat): (p: nat)
    ensures p >= 1
  {
    if n == 0 then 1 else 10 * Pow10(n - 1)
  }

  /** Position of the first dot, or |t| when there is none. */
  function DotIndex(t: string): (k: nat)
    ensures k <= |t|
    ensures k < |t| ==> t[k] == '.'
    ensures forall i :: 0 <= i < k ==> t[i] != '.'
  {
    if t == [] then 0 else if t[0] == '.' then 0 else 1 + DotIndex(t[1..])
  }

  /** A string of n digits is worth less than 10^n. */
  lemma {:induction false} WholeBelowPow10(ds: string)
    ensures Whole(ds) < Pow10(|ds|)
  {
    if ds != [] {
      WholeBelowPow10(ds[..|ds| - 1]);
    }
  }

  /** The exact decimal value of operand text: the digits before the dot, plus the
      digits after it scaled down by their count. */
  function Value(t: string): real {
    var k := DotIndex(t);
    Whole(t[..k]) as real
      + if k < |t| then Whole(t[k + 1..]) as real / Pow10(|t| - k - 1) as real else 0.0
  }

  /** The digits after the dot add less than one to the whole part. */
  lemma ValueWithinUnitOfWhole(t: string)
    ensures var whole := Whole(t[..DotIndex(t)]) as real;
      whole <= Value(t) < whole + 1.0
  {
    var k := DotIndex(t);
    if k < |t| {
      WholeBelowPow10(t[k + 1..]);
      RatioBelowOne(Whole(t[k + 1..]), Pow10(|t| - k - 1));
    }
  }

  lemma RatioBelowOne(n: nat, d: nat)
    requires n < d
    ensures 0.0 <= n as real / d as real < 1.0
  {
    var q := n as real / d as real;
    assert q * d as real == n as real;
  }
}
