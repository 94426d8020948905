/** The two number conversions the handlers rely on: the global `parseInt`
    with no radix argument (ECMAScript 2024, section 19.2.5), and the decimal
    rendering of a non-negative integer (`Number.prototype.toString`). Numbers
    are mathematical integers here; JavaScript's doubles are not modelled. */
module JsNumber {
  import opened Outcomes
  import opened JsText

  /** The value of a code unit read as a digit in radix 36: 0-9, then a-z and
      A-Z as 10 to 35; 36 for a code unit that is no digit at all. */
  function DigitValue(c: CodeUnit): nat {
    if 0x30 <= c <= 0x39 then (c - 0x30) as nat
    else if 0x61 <= c <= 0x7A then (c - 0x61) as nat + 10
    else if 0x41 <= c <= 0x5A then (c - 0x41) as nat + 10
    else 36
  }

  predicate IsDigit(c: CodeUnit, radix: nat) {
    DigitValue(c) < radix
  }

  predicate AllDigits(s: JsString, radix: nat) {
    forall i :: 0 <= i < |s| ==> IsDigit(s[i], radix)
  }

  /** The longest prefix made of digits of the radix. */
  function DigitPrefix(s: JsString, radix: nat): (r: JsString)
    ensures |r| <= |s| && r == s[..|r|]
    ensures AllDigits(r, radix)
    ensures |r| < |s| ==> !IsDigit(s[|r|], radix)
    decreases |s|
  {
    if |s| > 0 && IsDigit(s[0], radix) then [s[0]] + DigitPrefix(s[1..], radix) else []
  }

  /** The value of a digit string, most significant digit first. */
  function DigitsValue(d: JsString, radix: nat): nat
    decreases |d|
  {
    if |d| == 0 then 0 else DigitsValue(d[..|d| - 1], radix) * radix + DigitValue(d[|d| - 1])
  }

  /** `parseInt(s)`: skip leading whitespace, take an optional sign, read a
      "0x"/"0X" prefix as radix 16 (radix 10 otherwise), then the longest run
      of digits. No digits at all gives NaN, modelled as `None`; "10abc"
      gives 10 and "1.5" gives 1. */
  function ParseInt(s: JsString): (r: Option<int>)
    ensures var t := TrimStart(s);
            |t| == 0 || (!IsDigit(t[0], 10) && t[0] != 0x2B && t[0] != 0x2D) ==> r.None?
    ensures var t := TrimStart(s);
            |t| > 0 && IsDigit(t[0], 10) && !(|t| >= 2 && t[0] == 0x30 && (t[1] == 0x78 || t[1] == 0x58)) ==>
            r.Some? && r.value >= 0
    ensures r.Some? && r.value < 0 ==> TrimStart(s)[0] == 0x2D
  {
    ParseTrimmed(TrimStart(s))
  }

  /** `parseInt` after the leading whitespace is gone. */
  function ParseTrimmed(t: JsString): Option<int> {
    var negative := |t| > 0 && t[0] == 0x2D;
    var u := if |t| > 0 && (t[0] == 0x2D || t[0] == 0x2B) then t[1..] else t;
    var hex := |u| >= 2 && u[0] == 0x30 && (u[1] == 0x78 || u[1] == 0x58);
    var radix := if hex then 16 else 10;
    var digits := DigitPrefix(if hex then u[2..] else u, radix);
    var magnitude: int := DigitsValue(digits, radix);
    if |digits| == 0 then None
    else if negative then Some(-magnitude)
    else Some(magnitude)
  }

  function DigitChar(d: nat): CodeUnit
    requires d < 10
  {
    (0x30 + d) as CodeUnit
  }

  /** The decimal rendering of a non-negative integer: at least one digit, no
      leading zero, and the digits denote the number. */
  function Decimal(n: nat): (r: JsString)
    ensures |r| >= 1 && AllDigits(r, 10)
    ensures |r| > 1 ==> r[0] != 0x30
    ensures DigitsValue(r, 10) == n
    decreases n
  {
    if n < 10 then [DigitChar(n)]
    else
      var front := Decimal(n / 10);
      var r := front + [DigitChar(n % 10)];
      assert r[..|r| - 1] == front;
      r
  }

  lemma DigitPrefixOfDigits(d: JsString, t: JsString, radix: nat)
    requires AllDigits(d, radix)
    requires |t| == 0 || !IsDigit(t[0], radix)
    ensures DigitPrefix(d + t, radix) == d
  {
    var r := DigitPrefix(d + t, radix);
    assert r == (d + t)[..|d|] == d;
  }

  /** `parseInt` reads back what `Decimal` renders. */
  lemma {:induction false} ParseIntOfDecimal(n: nat)
    ensures ParseInt(Decimal(n)) == Some(n)
  {
    var d := Decimal(n);
    assert !IsSpace(d[0]);
    assert TrimStart(d) == d;
    assert d + [] == d;
    DigitPrefixOfDigits(d, [], 10);
  }

  /** `parseInt` reads a minus sign followed by a rendered number as the
      negated number. */
  lemma {:induction false} ParseIntOfNegative(n: nat)
    ensures ParseInt([0x2D] + Decimal(n)) == Some(-(n as int))
  {
    var d := Decimal(n);
    var s := [0x2D] + d;
    assert TrimStart(s) == s;
    assert s[1..] == d;
    assert d + [] == d;
    DigitPrefixOfDigits(d, [], 10);
  }

  /** `parseInt` stops at the first code unit that is not a decimal digit:
      a decimal prefix followed by anything else reads as the prefix alone,
      unless the text starts "0x" and so switches to radix 16. */
  lemma {:induction false} ParseIntStopsAtNonDigit(d: JsString, t: JsString)
    requires |d| > 0 && AllDigits(d, 10)
    requires |t| == 0 || !IsDigit(t[0], 10)
    requires !(|d| == 1 && d[0] == 0x30 && |t| > 0 && (t[0] == 0x78 || t[0] == 0x58))
    ensures ParseInt(d + t) == Some(DigitsValue(d, 10))
  {
    var s := d + t;
    assert s[0] == d[0];
    assert TrimStart(s) == s;
    if |d| >= 2 {
      assert s[1] == d[1];
    } else if |t| > 0 {
      assert s[1] == t[0];
    }
    DigitPrefixOfDigits(d, t, 10);
  }

  /** Leading whitespace never changes what `parseInt` returns. */
  lemma {:induction false} ParseIntSkipsSpace(w: JsString, s: JsString)
    requires AllSpace(w)
    ensures ParseInt(w + s) == ParseInt(s)
  {
    TrimStartSkipsSpace(w, s);
  }

  /** "10abc" reads as 10: the digits stop at the first letter. */
  lemma ParseIntTrailingText()
    ensures ParseInt(Lit("10abc")) == Some(10)
  {
    var d := Lit("10");
    assert Lit("10abc") == d + Lit("abc");
    assert DigitsValue(d, 10) == 10 by {
      assert d[..1] == [d[0]];
    }
    ParseIntStopsAtNonDigit(d, Lit("abc"));
  }

  /** "1.5" reads as 1: there is no fraction in `parseInt`. */
  lemma ParseIntFraction()
    ensures ParseInt(Lit("1.5")) == Some(1)
  {
    assert Lit("1.5") == Lit("1") + Lit(".5");
    ParseIntStopsAtNonDigit(Lit("1"), Lit(".5"));
  }

  /** A "0x" prefix followed by hexadecimal digits reads in radix 16. */
  lemma {:induction false} ParseIntOfHex(d: JsString)
    requires |d| > 0 && AllDigits(d, 16)
    ensures ParseInt([0x30, 0x78] + d) == Some(DigitsValue(d, 16))
  {
    var s := [0x30, 0x78] + d;
    assert TrimStart(s) == s;
    assert s[2..] == d;
    assert d + [] == d;
    DigitPrefixOfDigits(d, [], 16);
  }

  /** "0x1A" reads as 26. */
  lemma ParseIntHexExample()
    ensures ParseInt(Lit("0x1A")) == Some(26)
  {
    var x := Lit("1A");
    assert Lit("0x1A") == [0x30, 0x78] + x;
    ParseIntOfHex(x);
    assert x[..1] == [x[0]];
  }

  /** Text that is empty, or starts with something other than white space,
      a sign or a digit, reads as NaN. */
  lemma ParseIntOfNonNumeric(s: JsString)
    requires |s| == 0 || (!IsSpace(s[0]) && !IsDigit(s[0], 10) && s[0] != 0x2B && s[0] != 0x2D)
    ensures ParseInt(s) == None
  {
    assert LeadingSpace(s) == 0;
    assert TrimStart(s) == s;
    assert DigitPrefix(s, 10) == [];
  }

  /** "" and "abc" read as NaN. */
  lemma ParseIntNoDigits()
    ensures ParseInt(Lit("")) == None
    ensures ParseInt(Lit("abc")) == None
  {
    ParseIntOfNonNumeric(Lit(""));
    assert Lit("abc")[0] == 0x61;
    ParseIntOfNonNumeric(Lit("abc"));
  }
}
