/** Decimal text and PHP's integer coercions: `(int)` applied to a string and the
    `%d` / string-interpolation rendering of an integer. PHP integers are 64-bit;
    here they are unbounded. */
module Numerals {

  predicate IsDigit(c: char) {
    '0' <= c <= '9'
  }

  predicate AllDigits(s: string) {
    forall k :: 0 <= k < |s| ==> IsDigit(s[k])
  }

  function DigitValue(c: char): nat
    requires IsDigit(c)
  {
    c as int - '0' as int
  }

  function DigitChar(d: nat): (c: char)
    requires d < 10
    ensures IsDigit(c) && DigitValue(c) == d
  {
    ('0' as int + d) as char
  }

  function Min(x: int, y: int): int {
    if x <= y then x else y
  }

  function Max(x: int, y: int): int {
    if x <= y then y else x
  }

  /** The end of the maximal run of ASCII digits that starts at `i`. */
  function DigitRunEnd(s: string, i: nat): (k: nat)
    requires i <= |s|
    ensures i <= k <= |s|
    ensures k == |s| || !IsDigit(s[k])
    decreases |s| - i
  {
    if i < |s| && IsDigit(s[i]) then DigitRunEnd(s, i + 1) else i
  }

  /** Everything a digit run covers is a digit. */
  lemma {:induction false} DigitRunDigits(s: string, i: nat)
    requires i <= |s|
    ensures forall j :: i <= j < DigitRunEnd(s, i) ==> IsDigit(s[j])
    decreases |s| - i
  {
    if i < |s| && IsDigit(s[i]) {
      DigitRunDigits(s, i + 1);
    }
  }

  /** A digit run is determined by where it starts: any `k` that ends a run of digits
      starting at `i` is the one `DigitRunEnd` finds. */
  lemma DigitRunEndIs(s: string, i: nat, k: nat)
    requires i <= k <= |s|
    requires forall j :: i <= j < k ==> IsDigit(s[j])
    requires k == |s| || !IsDigit(s[k])
    ensures DigitRunEnd(s, i) == k
  {
    DigitRunDigits(s, i);
  }

  /** The maximal digit run at `i`, as text. */
  function DigitRun(s: string, i: nat): (d: string)
    requires i <= |s|
    ensures AllDigits(d) && d == s[i..DigitRunEnd(s, i)]
  {
    DigitRunDigits(s, i);
    s[i..DigitRunEnd(s, i)]
  }

  /** The value of a digit string: PHP's `(int)` applied to it. */
  function DigitsValue(s: string): nat
    requires AllDigits(s)
    decreases |s|
  {
    if |s| == 0 then 0 else 10 * DigitsValue(s[..|s| - 1]) + DigitValue(s[|s| - 1])
  }

  /** The decimal text of a natural number, without leading zeros. */
  function NatToString(n: nat): (s: string)
    ensures 1 <= |s| && AllDigits(s)
    decreases n
  {
    if n < 10 then [DigitChar(n)] else NatToString(n / 10) + [DigitChar(n % 10)]
  }

  /** The decimal text of an integer, as `%d` and `.` concatenation render it. */
  function IntToString(x: int): (s: string)
    ensures 1 <= |s|
  {
    if x < 0 then "-" + NatToString(-x) else NatToString(x)
  }

  /** Reading back the digits of a natural number gives the number. */
  lemma {:induction false} NatToStringRoundTrip(n: nat)
    ensures DigitsValue(NatToString(n)) == n
    decreases n
  {
    if n >= 10 {
      var s := NatToString(n);
      assert s[..|s| - 1] == NatToString(n / 10);
      NatToStringRoundTrip(n / 10);
    }
  }

  /** The blanks C's `strtol` (which PHP's `(int)` follows) skips before a number. */
  predicate IsBlank(c: char) {
    c == ' ' || c == '\t' || c == '\n' || c == '\r' || c as int == 11 || c as int == 12
  }

  function SkipBlanks(s: string, i: nat): (k: nat)
    requires i <= |s|
    ensures i <= k <= |s|
    ensures k == |s| || !IsBlank(s[k])
    ensures forall j :: i <= j < k ==> IsBlank(s[j])
    decreases |s| - i
  {
    if i < |s| && IsBlank(s[i]) then SkipBlanks(s, i + 1) else i
  }

  /** PHP's `(int)` applied to an arbitrary string: leading blanks, an optional sign,
      then the longest run of digits; 0 when there are no digits. */
  function IntCast(t: string): (x: int)
    ensures AllDigits(t) ==> x == DigitsValue(t)
  {
    var i := SkipBlanks(t, 0);
    if i < |t| && (t[i] == '-' || t[i] == '+') then
      var n: int := DigitsValue(DigitRun(t, i + 1));
      if t[i] == '-' then -n else n
    else
      assert AllDigits(t) ==> i == 0 && DigitRunEnd(t, 0) == |t| && t[0..|t|] == t by {
        if AllDigits(t) {
          if 0 < |t| {
            assert !IsBlank(t[0]);
          }
          DigitRunEndIs(t, 0, |t|);
        }
      }
      DigitsValue(DigitRun(t, i))
  }

  /** `(int)` undoes the decimal rendering of any integer. */
  lemma IntCastRoundTrip(x: int)
    ensures IntCast(IntToString(x)) == x
  {
    var t := IntToString(x);
    if x < 0 {
      var d := NatToString(-x);
      assert t[0] == '-' && !IsBlank(t[0]);
      assert SkipBlanks(t, 0) == 0;
      DigitRunEndIs(t, 1, |t|);
      assert t[1..|t|] == d;
      NatToStringRoundTrip(-x);
    } else {
      NatToStringRoundTrip(x);
    }
  }
}
