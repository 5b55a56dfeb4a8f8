/** The JavaScript number operations the reading cycle applies to the power
    values: `parseInt(text, 10)`, `+` and `Number.prototype.toString()`.
    Every number the cycle builds is an integer or NaN, so that is all a
    `Number` can be here. */
module JsNumber {

  /** A JavaScript number restricted to integral values and NaN. */
  datatype Number = Finite(value: int) | NaN

  /** JavaScript `+` on numbers: NaN absorbs everything. */
  function Add(a: Number, b: Number): (r: Number)
    ensures r.NaN? <==> a.NaN? || b.NaN?
    ensures r.Finite? ==> r.value == a.value + b.value
  {
    if a.Finite? && b.Finite? then Finite(a.value + b.value) else NaN
  }

  predicate IsDigit(c: char) {
    '0' <= c <= '9'
  }

  predicate AllDigits(s: string) {
    forall i :: 0 <= i < |s| ==> IsDigit(s[i])
  }

  function DigitValue(c: char): nat
    requires IsDigit(c)
  {
    c as int - '0' as int
  }

  function Digit(n: nat): (c: char)
    requires n < 10
    ensures IsDigit(c) && DigitValue(c) == n
  {
    (n + '0' as int) as char
  }

  /** The value of a run of decimal digits, most significant first. */
  function DigitsValue(d: string): nat
    requires AllDigits(d)
  {
    if d == [] then 0 else 10 * DigitsValue(d[..|d| - 1]) + DigitValue(d[|d| - 1])
  }

  /** The longest prefix of `s` that consists of decimal digits. */
  function LeadingDigits(s: string): (d: string)
    ensures d <= s && AllDigits(d)
    ensures |d| < |s| ==> !IsDigit(s[|d|])
  {
    if s != [] && IsDigit(s[0]) then [s[0]] + LeadingDigits(s[1..]) else []
  }

  /** 1 when `s` opens with a sign `parseInt` accepts, else 0. */
  function SignLength(s: string): nat {
    if |s| > 0 && (s[0] == '-' || s[0] == '+') then 1 else 0
  }

  /** `parseInt(s, 10)`: an optional sign, then the longest run of decimal
      digits; parsing stops at the first other character, and without any
      digit the result is NaN. */
  function ParseInt(s: string): (n: Number)
    ensures n.NaN? <==> |s| <= SignLength(s) || !IsDigit(s[SignLength(s)])
    ensures n.Finite? && n.value < 0 ==> s[0] == '-'
  {
    var digits := LeadingDigits(s[SignLength(s)..]);
    if digits == [] then NaN
    else if SignLength(s) == 1 && s[0] == '-' then Finite(-(DigitsValue(digits) as int))
    else Finite(DigitsValue(digits))
  }

  /** The decimal digits of `n` with no leading zero. */
  function NatToString(n: nat): (s: string)
    ensures s != [] && AllDigits(s) && DigitsValue(s) == n
    ensures n == 0 ==> s == "0"
    ensures n > 0 ==> s[0] != '0'
  {
    if n < 10 then [Digit(n)]
    else
      var s := NatToString(n / 10) + [Digit(n % 10)];
      assert s[..|s| - 1] == NatToString(n / 10);
      s
  }

  /** `Number.prototype.toString()` on an integral value or NaN. */
  function ToString(x: Number): (s: string)
    ensures s != []
    ensures x.Finite? ==> (s[0] == '-' <==> x.value < 0)
    ensures x.Finite? ==> AllDigits(s[SignLength(s)..])
  {
    match x
    case NaN => "NaN"
    case Finite(v) => if v < 0 then "-" + NatToString(-v) else NatToString(v)
  }

  /** A run of digits followed by a non-digit (or nothing) is read up to its end. */
  lemma {:induction false} LeadingDigitsOf(d: string, t: string)
    requires AllDigits(d)
    requires t == [] || !IsDigit(t[0])
    ensures LeadingDigits(d + t) == d
  {
    if d == [] {
      assert d + t == t;
    } else {
      assert (d + t)[1..] == d[1..] + t;
      LeadingDigitsOf(d[1..], t);
    }
  }

  /** `parseInt` reads the sign and the digits and ignores everything from the
      first character that is not a digit. */
  lemma ParseIntTruncates(sign: string, d: string, t: string)
    requires sign == "" || sign == "-" || sign == "+"
    requires d != [] && AllDigits(d)
    requires t == [] || !IsDigit(t[0])
    ensures ParseInt(sign + d + t) == if sign == "-" then Finite(-(DigitsValue(d) as int)) else Finite(DigitsValue(d))
  {
    var s := sign + d + t;
    assert SignLength(s) == |sign| by {
      if sign == "" {
        assert s[0] == d[0];
      }
    }
    assert s[SignLength(s)..] == d + t;
    LeadingDigitsOf(d, t);
  }

  /** Reading back what `toString` wrote gives the same number. */
  lemma ParseIntRoundTrip(x: Number)
    ensures ParseInt(ToString(x)) == x
  {
    match x
    case NaN =>
      assert !IsDigit(ToString(x)[0]);
    case Finite(v) =>
      if v < 0 {
        ParseIntTruncates("-", NatToString(-v), "");
        assert "-" + NatToString(-v) + "" == ToString(x);
      } else {
        ParseIntTruncates("", NatToString(v), "");
        assert "" + NatToString(v) + "" == ToString(x);
      }
  }

  /** The text `toFixed` makes of a value whose integer part has magnitude
      `m` (an optional minus, the digits, a point, the fraction) is read back by
      `parseInt` as that integer part; a reading between -1 and 0 ("-0.30")
      gives 0. With no fraction digits `toFixed(0)` writes no point ("230",
      "-0"), and the text reads back as the same signed integer. */
  lemma ParseIntOfFixed(sign: string, m: nat, fraction: string)
    requires sign == "" || sign == "-"
    ensures ParseInt(sign + NatToString(m) + "." + fraction) == Finite(if sign == "-" then -(m as int) else m)
    ensures ParseInt(sign + NatToString(m)) == Finite(if sign == "-" then -(m as int) else m)
  {
    assert ParseInt(sign + NatToString(m) + "." + fraction) == Finite(if sign == "-" then -(m as int) else m) by {
      assert sign + NatToString(m) + "." + fraction == sign + NatToString(m) + ("." + fraction);
      ParseIntTruncates(sign, NatToString(m), "." + fraction);
    }
    assert sign + NatToString(m) + "" == sign + NatToString(m);
    ParseIntTruncates(sign, NatToString(m), "");
  }
}
