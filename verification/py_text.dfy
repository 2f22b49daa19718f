/** The few Python string operations the games rely on, over ASCII text:
    `str.isdigit`, `int` of a digit string, `str` of an integer,
    `str.isalpha` and `str.upper`. */
module PyText {

  /** `t.isdigit()`: non-empty and every character a decimal digit. */
  predicate IsDigits(t: string) {
    |t| > 0 && forall i :: 0 <= i < |t| ==> '0' <= t[i] <= '9'
  }

  /** `int(t)` for a string of decimal digits. */
  function DecimalValue(t: string): (v: nat)
    requires IsDigits(t)
    decreases |t|
  {
    var d := (t[|t| - 1] as int) - ('0' as int);
    if |t| == 1 then d else 10 * DecimalValue(t[..|t| - 1]) + d
  }

  /** `str(n)`: the decimal digits of a natural number. */
  function Decimal(n: nat): (t: string)
    ensures |t| > 0
  {
    if n < 10 then ["0123456789"[n]] else Decimal(n / 10) + ["0123456789"[n % 10]]
  }

  /** `str(n)` is all digits and `int(str(n)) == n`. */
  lemma {:induction false} DecimalRoundTrip(n: nat)
    ensures IsDigits(Decimal(n)) && DecimalValue(Decimal(n)) == n
  {
    if n >= 10 {
      var t := Decimal(n);
      assert t[..|t| - 1] == Decimal(n / 10);
      DecimalRoundTrip(n / 10);
    }
  }

  /** `str(i)` for any integer: a minus sign before the digits of a
      negative number. */
  function IntText(i: int): (t: string)
    ensures |t| > 0 && (t[0] == '-' <==> i < 0)
  {
    DecimalRoundTrip(if i < 0 then -i else i);
    if i < 0 then "-" + Decimal(-i) else Decimal(i)
  }

  predicate IsLetter(c: char) {
    'a' <= c <= 'z' || 'A' <= c <= 'Z'
  }

  /** `t.isalpha()`: non-empty and every character a letter. */
  predicate IsAlpha(t: string) {
    |t| > 0 && forall i :: 0 <= i < |t| ==> IsLetter(t[i])
  }

  function UpperChar(c: char): (u: char)
    ensures IsLetter(c) ==> 'A' <= u <= 'Z'
  {
    if 'a' <= c <= 'z' then (c as int - 'a' as int + 'A' as int) as char else c
  }

  /** `t.upper()`: lower-case letters become capitals, the rest stay. */
  function Upper(t: string): (u: string)
    ensures |u| == |t|
    ensures forall i :: 0 <= i < |t| ==> u[i] == UpperChar(t[i])
  {
    seq(|t|, i requires 0 <= i < |t| => UpperChar(t[i]))
  }

  /** Upper-casing a word gives a word of capitals, and capitals are kept. */
  lemma UpperFacts(t: string)
    requires IsAlpha(t)
    ensures IsAlpha(Upper(t)) && forall i :: 0 <= i < |t| ==> 'A' <= Upper(t)[i] <= 'Z'
    ensures Upper(Upper(t)) == Upper(t)
  {
  }
}
