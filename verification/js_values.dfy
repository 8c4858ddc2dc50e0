/**
  Loosely typed request values and the JavaScript coercions the handlers
  apply to them: truthiness, `String(v)`, `Number(v)` and `parseInt(s, 10)`.
  Numbers are integers or `NaN` (see `Wrappers.Num`); numeric strings are
  read in the plain form of an optional sign followed by decimal digits.
 */
module JsValues {
  import opened Wrappers
  import opened Text

  /** A JSON scalar as received in a request body or query string. */
  datatype JsValue = Undefined | Null | Bool(b: bool) | Number(num: Num) | Str(s: string)

  /** JavaScript truthiness. */
  predicate Truthy(v: JsValue) {
    match v
    case Undefined => false
    case Null => false
    case Bool(b) => b
    case Number(x) => x.Truthy()
    case Str(s) => s != ""
  }

  /** `String(v)`. */
  function ToJsString(v: JsValue): (r: string)
    ensures v.Str? ==> r == v.s
    ensures !v.Str? ==> r != ""
  {
    match v
    case Undefined => "undefined"
    case Null => "null"
    case Bool(b) => if b then "true" else "false"
    case Number(x) => if x.NaN? then "NaN" else IntToString(x.n)
    case Str(s) => s
  }

  predicate AllDigits(s: string) {
    forall i :: 0 <= i < |s| ==> IsDigit(s[i])
  }

  /** The length of the longest all-digit prefix of `s`. */
  function DigitPrefixLength(s: string): (k: nat)
    ensures k <= |s|
    ensures AllDigits(s[..k])
    ensures k == |s| || !IsDigit(s[k])
    decreases |s|
  {
    if |s| == 0 || !IsDigit(s[0]) then 0
    else
      var k := 1 + DigitPrefixLength(s[1..]);
      assert s[..k] == [s[0]] + s[1..][..k - 1];
      k
  }

  /** A leading `+` or `-`, split off: (negative?, rest). */
  function SplitSign(s: string): (r: (bool, string))
    ensures |s| > 0 && (s[0] == '-' || s[0] == '+') ==> r == (s[0] == '-', s[1..])
    ensures |s| == 0 || (s[0] != '-' && s[0] != '+') ==> r == (false, s)
  {
    if |s| > 0 && (s[0] == '-' || s[0] == '+') then (s[0] == '-', s[1..]) else (false, s)
  }

  function Signed(negative: bool, n: nat): int {
    if negative then -(n as int) else n
  }

  /** `parseInt(s, 10)`: leading whitespace, an optional sign, then the
      longest run of digits; `NaN` when there is no digit. */
  function ParseInt(s: string): (r: Num)
    ensures TrimStart(s) == [] ==> r.NaN?
    ensures |TrimStart(s)| > 0 && IsDigit(TrimStart(s)[0]) ==> r.Fin? && r.n >= 0
    ensures |TrimStart(s)| > 0 && !IsDigit(TrimStart(s)[0]) && TrimStart(s)[0] != '-' && TrimStart(s)[0] != '+'
      ==> r.NaN?
  {
    var t := TrimStart(s);
    var (negative, body) := SplitSign(t);
    var k := DigitPrefixLength(body);
    assert |t| > 0 && t[0] != '-' && t[0] != '+' ==> body == t && !negative;
    assert |t| > 0 && IsDigit(t[0]) ==> t[0] != '-' && t[0] != '+';
    if k == 0 then NaN else Fin(Signed(negative, ParseDigits(body[..k])))
  }

  /** The digit run at the front of `d + rest` is exactly `d` when `rest`
      does not start with a digit (its own digit run is empty). */
  lemma {:induction false} DigitPrefixOf(d: string, rest: string)
    requires AllDigits(d)
    requires DigitPrefixLength(rest) == 0
    ensures DigitPrefixLength(d + rest) == |d|
    decreases |d|
  {
    if |d| > 0 {
      assert (d + rest)[1..] == d[1..] + rest;
      DigitPrefixOf(d[1..], rest);
    } else {
      assert d + rest == rest;
    }
  }

  /** `parseInt` reads an optional sign and the whole leading run of digits
      as the number they spell, and ignores whatever follows the run (text
      that does not start with a digit). */
  lemma ParseIntLeadingDigits(sign: string, d: string, rest: string)
    requires sign == "" || sign == "-" || sign == "+"
    requires |d| > 0 && AllDigits(d)
    requires DigitPrefixLength(rest) == 0
    ensures ParseInt(sign + d + rest) == Fin(if sign == "-" then -(ParseDigits(d) as int) else ParseDigits(d))
  {
    LeadingDigitsSplit(sign, d, rest);
    ParseIntUnsplit(sign + d + rest, sign == "-", d + rest);
  }

  /** The pieces `parseInt` finds in `sign + d + rest`: the sign, and then
      `d` as the digit run of what follows it. */
  lemma LeadingDigitsSplit(sign: string, d: string, rest: string)
    requires sign == "" || sign == "-" || sign == "+"
    requires |d| > 0 && AllDigits(d)
    requires DigitPrefixLength(rest) == 0
    ensures var s := sign + d + rest;
      && |s| > 0 && (IsDigit(s[0]) || s[0] == '-' || s[0] == '+')
      && SplitSign(s) == (sign == "-", d + rest)
      && DigitPrefixLength(d + rest) == |d| && (d + rest)[..|d|] == d
  {
    var body := d + rest;
    assert sign + d + rest == sign + body;
    DigitPrefixOf(d, rest);
    assert IsDigit(body[0]);
    SignOff(sign, body);
  }

  /** A sign written in front of a digit string is split off again. */
  lemma SignOff(sign: string, body: string)
    requires sign == "" || sign == "-" || sign == "+"
    requires |body| > 0 && IsDigit(body[0])
    ensures var s := sign + body;
      && (IsDigit(s[0]) || s[0] == '-' || s[0] == '+')
      && SplitSign(s) == (sign == "-", body)
  {
    var s := sign + body;
    if sign == "" {
      assert s == body;
    } else {
      assert s[0] == sign[0];
      assert s[1..] == body;
    }
  }

  /** `parseInt` of a string with no leading whitespace whose sign-stripped
      text starts with digits. */
  lemma ParseIntUnsplit(s: string, negative: bool, body: string)
    requires |s| > 0 && (IsDigit(s[0]) || s[0] == '-' || s[0] == '+')
    requires SplitSign(s) == (negative, body)
    requires DigitPrefixLength(body) > 0
    ensures ParseInt(s) == Fin(Signed(negative, ParseDigits(body[..DigitPrefixLength(body)])))
  {
    assert !IsSpace(s[0]);
    assert TrimStart(s) == s;
  }

  /** `Number(v)` on the modelled values: empty or blank strings are 0,
      `null` is 0, booleans are 0 or 1. Numbers here are integers, so this
      model reads any string that is not a signed digit run as `NaN`, where
      JavaScript also reads decimals, exponents and hex. */
  function ToNumber(v: JsValue): (r: Num)
    ensures v.Number? ==> r == v.num
    ensures v.Undefined? ==> r.NaN?
    ensures v.Null? ==> r == Fin(0)
    ensures v.Bool? ==> r == Fin(if v.b then 1 else 0)
    ensures v.Str? && Trim(v.s) == "" ==> r == Fin(0)
  {
    match v
    case Undefined => NaN
    case Null => Fin(0)
    case Bool(b) => Fin(if b then 1 else 0)
    case Number(x) => x
    case Str(s) =>
      var t := Trim(s);
      if t == "" then Fin(0)
      else
        var (negative, body) := SplitSign(t);
        if |body| > 0 && AllDigits(body) then Fin(Signed(negative, ParseDigits(body))) else NaN
  }

  /** The rendering of an integer has no surrounding space, an optional
      minus sign and then only digits. */
  lemma IntStringShape(n: int)
    ensures var m: nat := if n < 0 then -n else n;
      && TrimStart(IntToString(n)) == IntToString(n)
      && Trim(IntToString(n)) == IntToString(n)
      && SplitSign(IntToString(n)) == (n < 0, NatToString(m))
  {
    var m: nat := if n < 0 then -n else n;
    var digits := NatToString(m);
    var s := IntToString(n);
    assert IsDigit(s[0]) || s[0] == '-';
    assert !IsSpace(s[0]);
    assert TrimStart(s) == s;
    assert TrimEnd(s) == s by {
      assert !IsSpace(s[|s| - 1]) by { assert IsDigit(digits[|digits| - 1]); }
    }
    if n < 0 {
      assert s[1..] == digits;
    }
  }

  /** A run of digits is read whole, as the number it spells. */
  lemma DigitsReadWhole(m: nat)
    ensures DigitPrefixLength(NatToString(m)) == |NatToString(m)|
    ensures AllDigits(NatToString(m))
    ensures ParseDigits(NatToString(m)[..|NatToString(m)|]) == m
    ensures ParseDigits(NatToString(m)) == m
  {
    var digits := NatToString(m);
    NatToStringRoundTrip(m);
    assert digits[..|digits|] == digits;
  }

  /** Rendering an integer and reading it back with either `parseInt` or
      `Number` gives the integer. */
  lemma IntRoundTrip(n: int)
    ensures ParseInt(IntToString(n)) == Fin(n)
    ensures ToNumber(Str(IntToString(n))) == Fin(n)
  {
    var m: nat := if n < 0 then -n else n;
    IntStringShape(n);
    DigitsReadWhole(m);
    assert Signed(n < 0, m) == n;
  }

  /** `String(x)` for a number followed by `Number` gives the number back. */
  lemma NumberStringRoundTrip(x: Num)
    ensures x.Fin? ==> ToNumber(Str(ToJsString(Number(x)))) == x
    ensures x.NaN? ==> ToNumber(Str(ToJsString(Number(x)))).NaN?
  {
    if x.Fin? {
      IntRoundTrip(x.n);
    } else {
      assert Trim("NaN") == "NaN" by {
        assert TrimStart("NaN") == "NaN";
        assert TrimEnd("NaN") == "NaN";
      }
    }
  }
}
