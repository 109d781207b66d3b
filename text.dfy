/**
 * Decimal rendering of non-negative integers, as JavaScript's `Number.prototype.toString()`
 * prints them, and the parse back that shows the rendering loses nothing.
 * Also the truthiness of an optional string (`s || fallback`).
 */
module Text {
  import opened Wrappers

  predicate IsDigit(c: char) {
    '0' <= c <= '9'
  }

  predicate AllDigits(s: string) {
    forall i :: 0 <= i < |s| ==> IsDigit(s[i])
  }

  function DigitChar(d: nat): (c: char)
    requires d < 10
    ensures IsDigit(c)
  {
    ('0' as int + d) as char
  }

  function DigitValue(c: char): (d: nat)
    requires IsDigit(c)
    ensures d < 10
  {
    c as int - '0' as int
  }

  /** `n.toString()` for a non-negative integer: no sign, no leading zeros. */
  function NatToDecimal(n: nat): (s: string)
    ensures |s| >= 1 && AllDigits(s)
    ensures |s| > 1 ==> s[0] != '0'
    decreases n
  {
    if n < 10 then [DigitChar(n)] else NatToDecimal(n / 10) + [DigitChar(n % 10)]
  }

  /** The value a string of decimal digits denotes. */
  function DecimalValue(s: string): nat
    requires AllDigits(s)
  {
    if s == [] then 0 else DecimalValue(s[..|s| - 1]) * 10 + DigitValue(s[|s| - 1])
  }

  lemma {:induction false} DecimalRoundTrip(n: nat)
    ensures DecimalValue(NatToDecimal(n)) == n
    decreases n
  {
    var s := NatToDecimal(n);
    if n >= 10 {
      DecimalRoundTrip(n / 10);
      assert s[..|s| - 1] == NatToDecimal(n / 10);
    }
  }

  /** The rendering is injective: two counts print alike only if they are equal. */
  lemma DecimalInjective(m: nat, n: nat)
    requires NatToDecimal(m) == NatToDecimal(n)
    ensures m == n
  {
    DecimalRoundTrip(m);
    DecimalRoundTrip(n);
  }

  /** A run of digits ended by a non-digit is determined by where it starts. */
  lemma DigitRunsAgree(m: string, start: nat, d: string, e: string)
    requires AllDigits(d) && AllDigits(e)
    requires start + |d| < |m| && m[start..start + |d|] == d && !IsDigit(m[start + |d|])
    requires start + |e| < |m| && m[start..start + |e|] == e && !IsDigit(m[start + |e|])
    ensures d == e
  {
    if |d| < |e| {
      SliceAt(m, start, start + |e|, |d|);
      assert false;
    } else if |e| < |d| {
      SliceAt(m, start, start + |d|, |e|);
      assert false;
    }
  }

  lemma SliceAt(m: string, i: int, j: int, k: int)
    requires 0 <= i <= j <= |m| && 0 <= k < j - i
    ensures m[i..j][k] == m[i + k]
  {
  }

  /** `n.toString().padStart(2, '0')` for 0 <= n < 100. */
  function PadTwo(n: nat): (s: string)
    requires n < 100
    ensures |s| == 2 && AllDigits(s) && DecimalValue(s) == n
  {
    if n < 10 then
      var s := ['0', DigitChar(n)];
      assert s[..1] == ['0'] && [] == ['0'][..0];
      s
    else
      DecimalRoundTrip(n);
      assert NatToDecimal(n) == NatToDecimal(n / 10) + [DigitChar(n % 10)];
      NatToDecimal(n)
  }

  /** JavaScript truthiness of an optional string: present and non-empty. */
  predicate Truthy(s: Option<string>) {
    s.Some? && s.value != ""
  }

  /** `s || fallback` for an optional string. */
  function OrElse(s: Option<string>, fallback: string): (r: string)
    ensures Truthy(s) ==> r == s.value
    ensures !Truthy(s) ==> r == fallback
  {
    match s
    case Some(v) => if v != "" then v else fallback
    case None => fallback
  }
}
