/**
 * JavaScript's `parseInt(s)` with no radix argument: leading whitespace is skipped, one
 * sign is read, a `0x`/`0X` prefix selects base 16 (otherwise base 10), and the longest
 * run of digits that follows is the value. No digit at all gives NaN, modelled as None.
 */
module JsParseInt {
  import opened Optional
  import opened JsStrings

  /** The value of `c` as a digit in base 36 (0-9, then a-z or A-Z), if it is one. */
  function DigitValue(c: char): (d: Option<nat>)
    ensures d.Some? ==> d.value < 36
    ensures '0' <= c <= '9' ==> d == Some(c as int - '0' as int)
  {
    if '0' <= c <= '9' then Some(c as int - '0' as int)
    else if 'a' <= c <= 'z' then Some(c as int - 'a' as int + 10)
    else if 'A' <= c <= 'Z' then Some(c as int - 'A' as int + 10)
    else None
  }

  predicate IsDigit(c: char, radix: nat) {
    DigitValue(c).Some? && DigitValue(c).value < radix
  }

  /** The length of the longest prefix of `s` made of digits in `radix`. */
  function DigitRun(s: string, radix: nat): (k: nat)
    ensures k <= |s|
    ensures forall i :: 0 <= i < k ==> IsDigit(s[i], radix)
    ensures k < |s| ==> !IsDigit(s[k], radix)
  {
    if s != [] && IsDigit(s[0], radix) then 1 + DigitRun(s[1..], radix) else 0
  }

  /** The number that a string of digits denotes in `radix`, most significant digit first. */
  function DigitsValue(ds: string, radix: nat): nat
    requires forall i :: 0 <= i < |ds| ==> IsDigit(ds[i], radix)
  {
    if ds == [] then 0
    else
      var init := ds[..|ds| - 1];
      assert IsDigit(ds[|ds| - 1], radix);
      Shift(DigitsValue(init, radix), radix, DigitValue(ds[|ds| - 1]).value)
  }

  /** `high` followed by one more digit `d` in `radix`. */
  function Shift(high: nat, radix: nat, d: nat): nat {
    high * radix + d
  }

  /** `parseInt(s)`; None stands for NaN. A negative result needs a '-' in `s`. */
  function ParseInt(s: string): (r: Option<int>)
    ensures r.Some? && r.value < 0 ==> '-' in s
  {
    TrimStartDrops(s);
    ParseSigned(TrimStart(s))
  }

  /** An optional sign, then the magnitude: a number needs a non-empty `t`, and a negative one a leading '-'. */
  function ParseSigned(t: string): (r: Option<int>)
    ensures r.Some? ==> t != [] && (r.value < 0 ==> t[0] == '-')
  {
    var negative := t != [] && t[0] == '-';
    var unsigned := if t != [] && (t[0] == '-' || t[0] == '+') then t[1..] else t;
    match ParseMagnitude(unsigned)
    case None => None
    case Some(n) => Some(if negative then -(n as int) else n as int)
  }

  /**
   * The magnitude after the sign: a `0x`/`0X` prefix selects base 16, otherwise base 10. There is
   * one only when `u` starts with a decimal digit, and always when that digit is not 0.
   */
  function ParseMagnitude(u: string): (r: Option<nat>)
    ensures r.Some? ==> u != [] && '0' <= u[0] <= '9'
    ensures u != [] && '1' <= u[0] <= '9' ==> r.Some?
  {
    var hex := |u| >= 2 && u[0] == '0' && (u[1] == 'x' || u[1] == 'X');
    var radix := if hex then 16 else 10;
    var body := if hex then u[2..] else u;
    var k := DigitRun(body, radix);
    if k == 0 then None else Some(DigitsValue(body[..k], radix))
  }

  /** The decimal digits of `n`, most significant first, without leading zeros. */
  function Decimal(n: nat): (ds: string)
    ensures ds != []
    ensures forall i :: 0 <= i < |ds| ==> '0' <= ds[i] <= '9'
  {
    var last := ('0' as int + n % 10) as char;
    if n < 10 then [last] else Decimal(n / 10) + [last]
  }

  /** The way `String(n)` writes an integer. */
  function IntString(n: int): string {
    if n < 0 then "-" + Decimal(-n) else Decimal(n)
  }

  /** The digits of `n` denote `n`. */
  lemma {:induction false} DecimalValue(n: nat)
    ensures forall i :: 0 <= i < |Decimal(n)| ==> IsDigit(Decimal(n)[i], 10)
    ensures DigitsValue(Decimal(n), 10) == n
  {
    var ds := Decimal(n);
    assert forall i :: 0 <= i < |ds| ==> IsDigit(ds[i], 10);
    if n >= 10 {
      DecimalValue(n / 10);
      assert ds[..|ds| - 1] == Decimal(n / 10);
    }
  }

  /** A run of decimal digits is read whole, in base 10. */
  lemma MagnitudeOfDigits(ds: string)
    requires ds != []
    requires forall i :: 0 <= i < |ds| ==> '0' <= ds[i] <= '9'
    ensures forall i :: 0 <= i < |ds| ==> IsDigit(ds[i], 10)
    ensures ParseMagnitude(ds) == Some(DigitsValue(ds, 10))
  {
    assert forall i :: 0 <= i < |ds| ==> IsDigit(ds[i], 10);
    assert !(|ds| >= 2 && ds[0] == '0' && (ds[1] == 'x' || ds[1] == 'X'));
    var k := DigitRun(ds, 10);
    assert ds[..k] == ds;
  }

  /** The decimal digits of `n` read back as `n`. */
  lemma MagnitudeOfDecimal(m: nat)
    ensures ParseMagnitude(Decimal(m)) == Some(m)
  {
    DecimalValue(m);
    MagnitudeOfDigits(Decimal(m));
  }

  /** A string that starts with a digit is read as its magnitude. */
  lemma UnsignedDigits(ds: string, m: nat)
    requires ds != [] && '0' <= ds[0] <= '9' && ParseMagnitude(ds) == Some(m)
    ensures ParseInt(ds) == Some(m as int)
  {
    NoLeadingWhitespace(ds);
  }

  /** A '-' before a string that starts with a digit negates its magnitude. */
  lemma NegatedDigits(ds: string, m: nat)
    requires ds != [] && '0' <= ds[0] <= '9' && ParseMagnitude(ds) == Some(m)
    ensures ParseInt("-" + ds) == Some(-(m as int))
  {
    var t := "-" + ds;
    assert t[0] == '-' && t[1..] == ds;
    NoLeadingWhitespace(t);
    assert ParseSigned(t) == Some(-(m as int));
  }

  /** Nothing is trimmed from a string that does not start with whitespace. */
  lemma NoLeadingWhitespace(s: string)
    requires s != [] && !IsWhitespace(s[0])
    ensures TrimStart(s) == s
  {
  }

  /** Whitespace before the number does not change what is read. */
  lemma LeadingWhitespaceIgnored(w: string, s: string)
    requires forall i :: 0 <= i < |w| ==> IsWhitespace(w[i])
    ensures ParseInt(w + s) == ParseInt(s)
  {
    TrimStartWhitespacePrefix(w, s);
  }

  /** `parseInt(String(n))` is `n` for every integer: a route parameter written from an id reads back as that id. */
  lemma ParseIntString(n: int)
    ensures ParseInt(IntString(n)) == Some(n)
  {
    var m := if n < 0 then -n else n;
    MagnitudeOfDecimal(m);
    if n < 0 {
      NegatedDigits(Decimal(m), m);
    } else {
      UnsignedDigits(Decimal(m), m);
    }
  }
}
