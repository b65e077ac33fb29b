/**
 * JavaScript's `parseInt(s, 10)` and `parseFloat(s)` on decimal text, and
 * its `>=`/`<=` when either side may be NaN. A parsed number is exact:
 * `None` stands for NaN, `Some(x)` for the value the decimal text denotes.
 */
module Numbers {
  import opened Wrappers
  import opened Text

  predicate IsDigit(c: char) {
    '0' <= c <= '9'
  }

  predicate AllDigits(d: string) {
    forall k :: 0 <= k < |d| ==> IsDigit(d[k])
  }

  function DigitValue(c: char): nat
    requires IsDigit(c)
  {
    c as int - '0' as int
  }

  /** Length of the run of decimal digits that starts `s`. */
  function DigitRun(s: string): (n: nat)
    ensures n <= |s| && AllDigits(s[..n])
    ensures n < |s| ==> !IsDigit(s[n])
  {
    if s != [] && IsDigit(s[0]) then
      var n := 1 + DigitRun(s[1..]);
      assert s[..n] == [s[0]] + s[1..][..n - 1];
      n
    else 0
  }

  /** The value of a run of decimal digits, most significant digit first. */
  function DigitsValue(d: string): nat
    requires AllDigits(d)
  {
    if d == [] then 0 else 10 * DigitsValue(d[..|d| - 1]) + DigitValue(d[|d| - 1])
  }

  function Pow10(n: nat): (p: nat)
    ensures p >= 1
  {
    if n == 0 then 1 else 10 * Pow10(n - 1)
  }

  /** The sign an optional leading `+` or `-` gives. */
  function SignOf(s: string): int
  {
    if s != [] && s[0] == '-' then -1 else 1
  }

  /** The text after an optional leading `+` or `-`. */
  function Unsigned(s: string): string
  {
    if s != [] && (s[0] == '-' || s[0] == '+') then s[1..] else s
  }

  /**
   * `parseInt(s, 10)`: skip leading whitespace, read an optional sign and the
   * longest run of digits after it; NaN when that run is empty. Whatever
   * follows the digits is ignored.
   */
  function ParseInt(s: string): (r: Option<int>)
    ensures r.None? <==> (var b := Unsigned(TrimStart(s)); b == [] || !IsDigit(b[0]))
    ensures r.Some? && SignOf(TrimStart(s)) == 1 ==> r.value >= 0
  {
    var u := TrimStart(s);
    var body := Unsigned(u);
    var n := DigitRun(body);
    if n == 0 then None else Some(SignOf(u) * DigitsValue(body[..n]))
  }

  /** The digits after a `.` that starts `rest`, or nothing. */
  function Fraction(rest: string): (f: string)
    ensures AllDigits(f)
  {
    if rest != [] && rest[0] == '.' then rest[1..][..DigitRun(rest[1..])] else ""
  }

  /**
   * `parseFloat(s)`: skip leading whitespace, read an optional sign, an
   * integer part and an optional `.` with a fraction; NaN when neither part
   * has a digit. Whatever follows is ignored.
   */
  function ParseFloat(s: string): (r: Option<real>)
    ensures r.None? <==>
      (var b := Unsigned(TrimStart(s));
       !(b != [] && IsDigit(b[0])) && !(|b| >= 2 && b[0] == '.' && IsDigit(b[1])))
    ensures r.Some? && SignOf(TrimStart(s)) == 1 ==> r.value >= 0.0
  {
    var u := TrimStart(s);
    var body := Unsigned(u);
    var n := DigitRun(body);
    var frac := Fraction(body[n..]);
    if n == 0 && frac == "" then None
    else Some(SignOf(u) as real * (DigitsValue(body[..n]) as real + DigitsValue(frac) as real / Pow10(|frac|) as real))
  }

  /** JavaScript `x >= y` on numbers that may be NaN: false whenever either one is. */
  predicate AtLeast(x: Option<real>, y: Option<real>) {
    x.Some? && y.Some? && x.value >= y.value
  }

  /** JavaScript `x <= y` on numbers that may be NaN. */
  predicate AtMost(x: Option<real>, y: Option<real>) {
    x.Some? && y.Some? && x.value <= y.value
  }

  /** The decimal text of a natural number, as `String(n)` writes it. */
  function NatText(n: nat): (t: string)
    ensures t != [] && AllDigits(t)
  {
    if n < 10 then ['0' + n as char] else NatText(n / 10) + ['0' + (n % 10) as char]
  }

  lemma {:induction false} NatTextValue(n: nat)
    ensures DigitsValue(NatText(n)) == n
  {
    if n >= 10 {
      var t := NatText(n);
      assert t[..|t| - 1] == NatText(n / 10);
      NatTextValue(n / 10);
    }
  }

  /** A text that is all digits is read whole. */
  lemma {:induction false} DigitRunOfDigits(d: string)
    requires AllDigits(d)
    ensures DigitRun(d) == |d|
  {
    if d != [] {
      DigitRunOfDigits(d[1..]);
    }
  }

  /** A text that starts with a digit has no leading whitespace and no sign. */
  lemma DigitsUntrimmed(d: string)
    requires d != [] && IsDigit(d[0])
    ensures TrimStart(d) == d && SignOf(d) == 1 && Unsigned(d) == d
  {
    assert !IsSpace(d[0]);
  }

  /** `parseInt(String(n), 10) == n`: parsing undoes printing. */
  lemma {:induction false} ParseIntOfNatText(n: nat)
    ensures ParseInt(NatText(n)) == Some(n)
  {
    var t := NatText(n);
    DigitsUntrimmed(t);
    DigitRunOfDigits(t);
    assert t[..|t|] == t;
    NatTextValue(n);
  }

  /** `parseFloat(String(n)) == n`. */
  lemma {:induction false} ParseFloatOfNatText(n: nat)
    ensures ParseFloat(NatText(n)) == Some(n as real)
  {
    var t := NatText(n);
    DigitsUntrimmed(t);
    DigitRunOfDigits(t);
    assert t[..|t|] == t;
    assert t[|t|..] == [];
    assert Fraction(t[|t|..]) == "";
    NatTextValue(n);
    assert DigitsValue("") == 0;
  }
}
