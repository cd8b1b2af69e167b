/**
 * The few JavaScript value notions the wrapper relies on: an optional
 * (possibly undefined) property, truthiness of strings and numbers, and the
 * text a template literal produces for an optional string or a non-negative integer.
 */
module JsValues {

  /** A property that may be undefined. */
  datatype Option<+T> = None | Some(value: T)

  /** `s` is truthy: defined and not the empty string. */
  predicate IsTruthyText(s: Option<string>) {
    s.Some? && s.value != ""
  }

  /** `n` is truthy: defined and not zero (NaN is not modelled). */
  predicate IsTruthyNumber(n: Option<int>) {
    n.Some? && n.value != 0
  }

  /** What `${s}` renders for an optional string. */
  function Show(s: Option<string>): string {
    match s
    case None => "undefined"
    case Some(v) => v
  }

  predicate IsDigits(s: string) {
    forall j :: 0 <= j < |s| ==> '0' <= s[j] <= '9'
  }

  function DigitChar(d: nat): (c: char)
    requires d < 10
    ensures '0' <= c <= '9'
    ensures (c as int) - ('0' as int) == d
  {
    (('0' as int) + d) as char
  }

  /** What `${n}` renders for a non-negative integer: its decimal digits. */
  function DecimalDigits(n: nat): (s: string)
    ensures |s| > 0 && IsDigits(s)
    decreases n
  {
    if n < 10 then [DigitChar(n)] else DecimalDigits(n / 10) + [DigitChar(n % 10)]
  }

  /** Reads a string of decimal digits back as a number. */
  function DecimalValue(s: string): nat
    requires IsDigits(s)
    decreases |s|
  {
    if s == [] then 0
    else 10 * DecimalValue(s[..|s| - 1]) + ((s[|s| - 1] as int) - ('0' as int))
  }

  /** Rendering a number and reading it back gives the number: the rendering is injective. */
  lemma {:induction false} DecimalRoundTrip(n: nat)
    ensures DecimalValue(DecimalDigits(n)) == n
    decreases n
  {
    if n >= 10 {
      DecimalRoundTrip(n / 10);
      var s := DecimalDigits(n);
      assert s[..|s| - 1] == DecimalDigits(n / 10);
    }
  }
}
