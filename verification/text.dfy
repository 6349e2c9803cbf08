/**
 * The string operations the code relies on: `toLowerCase`, `includes`, and the decimal rendering
 * of a number (`toString()`, and the `$n` placeholders of the SQL text).
 */
module Text {
  import opened Wrappers

  /** `toLowerCase` on one character, for ASCII and Latin-1 upper-case letters. */
  function LowerChar(c: char): char {
    if 'A' <= c <= 'Z' || ('À' <= c <= 'Þ' && c != '×') then (c as int + 32) as char else c
  }

  function ToLower(s: string): (r: string)
    ensures |r| == |s|
    ensures forall i :: 0 <= i < |s| ==> r[i] == LowerChar(s[i])
  {
    seq(|s|, i requires 0 <= i < |s| => LowerChar(s[i]))
  }

  /** Lower-casing a lower-cased string changes nothing. */
  lemma ToLowerIdempotent(s: string)
    ensures ToLower(ToLower(s)) == ToLower(s)
  {
    assert forall i :: 0 <= i < |s| ==> LowerChar(LowerChar(s[i])) == LowerChar(s[i]);
  }

  predicate IsPrefix(t: string, s: string) {
    |t| <= |s| && s[..|t|] == t
  }

  /** `s.includes(t)`: `t` occurs in `s` at some position. */
  function Contains(s: string, t: string): bool
    decreases |s|
  {
    IsPrefix(t, s) || (s != [] && Contains(s[1..], t))
  }

  /** `t` occurs in `s` starting at index `i`. */
  predicate OccursAt(s: string, t: string, i: int) {
    0 <= i <= |s| - |t| && s[i..i + |t|] == t
  }

  /** `Contains` holds exactly when `t` occurs in `s` at some index. */
  lemma {:induction false} ContainsIff(s: string, t: string)
    ensures Contains(s, t) <==> exists i :: OccursAt(s, t, i)
    decreases |s|
  {
    if IsPrefix(t, s) {
      assert OccursAt(s, t, 0);
    } else if s == [] {
    } else {
      ContainsIff(s[1..], t);
      if Contains(s[1..], t) {
        var i :| OccursAt(s[1..], t, i);
        assert s[i + 1..i + 1 + |t|] == s[1..][i..i + |t|];
        assert OccursAt(s, t, i + 1);
      } else {
        assert !OccursAt(s, t, 0) by {
          if |t| <= |s| {
            assert s[0..|t|] == s[..|t|];
          }
        }
        forall i | 0 < i <= |s| - |t| ensures !OccursAt(s, t, i) {
          var j := i - 1;
          assert !OccursAt(s[1..], t, j);
          assert s[1..][j..j + |t|] == s[i..i + |t|];
        }
      }
    }
  }

  /** Every string includes the empty string. */
  lemma ContainsEmpty(s: string)
    ensures Contains(s, "")
  {
    assert IsPrefix("", s);
  }

  function DigitChar(d: nat): (c: char)
    requires d < 10
    ensures IsDigit(c) && DigitValue(c) == d
  {
    "0123456789"[d]
  }

  predicate IsDigit(c: char) {
    '0' <= c <= '9'
  }

  predicate AllDigits(s: string) {
    forall i :: 0 <= i < |s| ==> IsDigit(s[i])
  }

  /** A character of a written amount: a digit or a point. */
  predicate IsCostChar(c: char) {
    IsDigit(c) || c == '.'
  }

  predicate CostText(s: string) {
    forall i :: 0 <= i < |s| ==> IsCostChar(s[i])
  }

  function DigitValue(c: char): nat
    requires IsDigit(c)
  {
    c as int - '0' as int
  }

  /** The decimal rendering of a non-negative integer, as `n.toString()`. */
  function NatToString(n: nat): (r: string)
    ensures |r| > 0
    ensures AllDigits(r)
    decreases n
  {
    if n < 10 then [DigitChar(n)] else NatToString(n / 10) + [DigitChar(n % 10)]
  }

  /** `n.toString()` for any integer: a minus sign before the digits of a negative one. */
  function IntToString(n: int): (r: string)
    ensures |r| > 0
    ensures n >= 0 ==> r == NatToString(n)
  {
    if n < 0 then "-" + NatToString(-n) else NatToString(n)
  }

  /** The value of a string of decimal digits. */
  function DigitsValue(s: string): nat
    requires AllDigits(s)
  {
    if s == [] then 0 else 10 * DigitsValue(s[..|s| - 1]) + DigitValue(s[|s| - 1])
  }

  /** Rendering then reading back the digits gives the number back. */
  lemma {:induction false} NatToStringRoundTrip(n: nat)
    ensures DigitsValue(NatToString(n)) == n
    decreases n
  {
    var s := NatToString(n);
    if n < 10 {
      assert s[..0] == [];
    } else {
      NatToStringRoundTrip(n / 10);
      assert s[..|s| - 1] == NatToString(n / 10);
    }
  }

  /** Distinct numbers have distinct renderings, so distinct placeholders. */
  lemma NatToStringInjective(m: nat, n: nat)
    requires NatToString(m) == NatToString(n)
    ensures m == n
  {
    NatToStringRoundTrip(m);
    NatToStringRoundTrip(n);
  }
  /** The digits after the point of `f` hundredths, as `toString` writes them: none, or no trailing zero. */
  function FractionText(f: nat): string
    requires f < 100
  {
    if f == 0 then ""
    else if f % 10 == 0 then ['.', DigitChar(f / 10)]
    else ['.', DigitChar(f / 10), DigitChar(f % 10)]
  }

  /** `(c / 100).toString()` for a whole number `c` of cents: `1250` is "12.5", `1200` is "12". */
  function CentsToString(c: int): (r: string)
    ensures |r| > 0
    ensures c >= 0 ==> CostText(r)
    ensures c >= 0 && c % 100 == 0 ==> r == NatToString(c / 100)
    ensures c < 0 ==> r[0] == '-'
  {
    if c < 0 then "-" + WholeAndFraction(-c) else WholeAndFraction(c)
  }

  /** The whole amount, then the point and the cents when there are any. */
  function WholeAndFraction(c: nat): string {
    NatToString(c / 100) + FractionText(c % 100)
  }

  /**
   * `parseFloat(s) * 100` on a decimal text with at most two digits after the point: `None` for any
   * other text.
   */
  function ReadCents(s: string): Option<nat> {
    if s != [] && AllDigits(s) then Some(100 * DigitsValue(s))
    else if |s| >= 3 && s[|s| - 2] == '.' && AllDigits(s[..|s| - 2]) && IsDigit(s[|s| - 1]) then
      Some(100 * DigitsValue(s[..|s| - 2]) + 10 * DigitValue(s[|s| - 1]))
    else if |s| >= 4 && s[|s| - 3] == '.' && AllDigits(s[..|s| - 3]) && IsDigit(s[|s| - 2]) && IsDigit(s[|s| - 1]) then
      Some(100 * DigitsValue(s[..|s| - 3]) + 10 * DigitValue(s[|s| - 2]) + DigitValue(s[|s| - 1]))
    else None
  }

  /** Reading back the text of a non-negative cost gives the cost in cents. */
  lemma CentsToStringRoundTrip(c: nat)
    ensures ReadCents(CentsToString(c)) == Some(c)
  {
    NatToStringRoundTrip(c / 100);
    ReadFraction(NatToString(c / 100), c % 100);
  }

  lemma ReadFraction(w: string, f: nat)
    requires w != [] && AllDigits(w) && f < 100
    ensures ReadCents(w + FractionText(f)) == Some(100 * DigitsValue(w) + f)
  {
    if f == 0 {
      assert w + FractionText(f) == w;
    } else if f % 10 == 0 {
      ReadTenths(w, f / 10);
    } else {
      ReadHundredths(w, f / 10, f % 10);
    }
  }

  lemma ReadTenths(w: string, d: nat)
    requires w != [] && AllDigits(w) && 0 < d < 10
    ensures ReadCents(w + ['.', DigitChar(d)]) == Some(100 * DigitsValue(w) + 10 * d)
  {
    var s := w + ['.', DigitChar(d)];
    assert s[..|s| - 2] == w;
    assert !IsDigit(s[|s| - 2]);
  }

  lemma ReadHundredths(w: string, d1: nat, d2: nat)
    requires w != [] && AllDigits(w) && d1 < 10 && 0 < d2 < 10
    ensures ReadCents(w + ['.', DigitChar(d1), DigitChar(d2)]) == Some(100 * DigitsValue(w) + 10 * d1 + d2)
  {
    var s := w + ['.', DigitChar(d1), DigitChar(d2)];
    assert s[..|s| - 3] == w;
    assert !IsDigit(s[|s| - 3]);
    assert s[|s| - 2] != '.';
  }
}
