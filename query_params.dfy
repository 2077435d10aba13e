/** Query-string parameters as the request handlers of server.js and server.ts read them:
    a parameter is absent or a string, and `page` is turned into a number by
    `parseInt(x) || 1`. */
module QueryParams {

  /** A query-string parameter: absent (`undefined` in JavaScript) or present with a string value. */
  datatype Option<T> = None | Some(value: T)

  /** The result of JavaScript's `parseInt`: not a number, or an integer. */
  datatype Number = NaN | Num(value: int)

  predicate IsDigit(c: char) { '0' <= c <= '9' }

  predicate AllDigits(s: string) { forall i :: 0 <= i < |s| ==> IsDigit(s[i]) }

  function DigitValue(c: char): nat
    requires IsDigit(c)
  {
    c as int - '0' as int
  }

  /** Length of the longest prefix of `s` made of decimal digits. */
  function DigitRun(s: string): (n: nat)
    ensures n <= |s|
    ensures AllDigits(s[..n])
    ensures n < |s| ==> !IsDigit(s[n])
  {
    if |s| > 0 && IsDigit(s[0]) then
      var n := 1 + DigitRun(s[1..]);
      assert s[..n] == [s[0]] + s[1..][..n - 1];
      n
    else 0
  }

  /** The value of a string of decimal digits, most significant digit first. */
  function ValueOf(d: string): nat
    requires AllDigits(d)
    decreases |d|
  {
    if d == [] then 0 else ValueOf(d[..|d| - 1]) * 10 + DigitValue(d[|d| - 1])
  }

  /** The digits part of `parseInt`: the longest run of leading decimal digits, NaN when there is none. */
  function ParseDigits(body: string): (r: Number)
    ensures r.Num? <==> DigitRun(body) > 0
    ensures r.Num? ==> r.value >= 0
  {
    var n := DigitRun(body);
    if n == 0 then NaN else Num(ValueOf(body[..n]))
  }

  /** `parseInt(s)` with the default radix on a string without leading white space:
      an optional sign, then the longest run of decimal digits; anything after the run is
      ignored, and no digit at all gives NaN. */
  function ParseInt(s: string): (r: Number)
    ensures r.Num? && r.value < 0 ==> |s| > 0 && s[0] == '-'
    ensures |s| > 0 && (s[0] == '-' || s[0] == '+') ==> (r.NaN? <==> ParseDigits(s[1..]).NaN?)
    ensures (|s| == 0 || (s[0] != '-' && s[0] != '+')) ==> r == ParseDigits(s)
  {
    if |s| > 0 && s[0] == '-' then
      match ParseDigits(s[1..])
      case NaN => NaN
      case Num(v) => Num(-v)
    else if |s| > 0 && s[0] == '+' then ParseDigits(s[1..])
    else ParseDigits(s)
  }

  /** `parseInt(req.query.page) || 1`: NaN and 0 are falsy and give 1, any other
      parsed value is used as it is (negative ones included). An absent parameter
      is `parseInt(undefined)`, which is NaN. */
  function CoercePage(raw: Option<string>): (page: int)
    ensures page != 0
    ensures raw.None? ==> page == 1
    ensures page != 1 ==> raw.Some? && ParseInt(raw.value) == Num(page)
    ensures raw.Some? && ParseInt(raw.value).Num? && ParseInt(raw.value).value != 0 ==>
              page == ParseInt(raw.value).value
  {
    match raw
    case None => 1
    case Some(s) =>
      match ParseInt(s)
      case NaN => 1
      case Num(v) => if v == 0 then 1 else v
  }

  /** The canonical decimal spelling of a natural number, the way a client writes `page=`. */
  function Decimal(n: nat): (s: string)
    ensures |s| > 0 && AllDigits(s)
    decreases n
  {
    (if n < 10 then [] else Decimal(n / 10)) + [('0' as int + n % 10) as char]
  }

  lemma {:induction false} ValueOfDecimal(n: nat)
    ensures ValueOf(Decimal(n)) == n
    decreases n
  {
    var s := Decimal(n);
    assert s[..|s| - 1] == if n < 10 then [] else Decimal(n / 10);
    if n >= 10 {
      ValueOfDecimal(n / 10);
    }
  }

  lemma {:induction false} DigitRunAppend(d: string, t: string)
    requires AllDigits(d)
    ensures DigitRun(d + t) == |d| + DigitRun(t)
    decreases |d|
  {
    if d != [] {
      assert (d + t)[1..] == d[1..] + t;
      DigitRunAppend(d[1..], t);
    } else {
      assert d + t == t;
    }
  }

  lemma ParseDigitsDecimal(n: nat, rest: string)
    requires rest == [] || !IsDigit(rest[0])
    ensures ParseDigits(Decimal(n) + rest) == Num(n)
  {
    var d := Decimal(n);
    DigitRunAppend(d, rest);
    assert DigitRun(rest) == 0;
    assert (d + rest)[..|d|] == d;
    ValueOfDecimal(n);
  }

  /** Reading a number back: a decimal spelling followed by anything that does not start
      with a digit (nothing, "abc", ".5", "e3") parses to that number, with either sign. */
  lemma ParseIntDecimal(n: nat, rest: string)
    requires rest == [] || !IsDigit(rest[0])
    ensures ParseInt(Decimal(n) + rest) == Num(n)
    ensures ParseInt("-" + Decimal(n) + rest) == Num(-(n as int))
    ensures ParseInt("+" + Decimal(n) + rest) == Num(n)
  {
    ParseIntUnsigned(n, rest);
    ParseIntSigned(n, rest);
  }

  lemma ParseIntUnsigned(n: nat, rest: string)
    requires rest == [] || !IsDigit(rest[0])
    ensures ParseInt(Decimal(n) + rest) == Num(n)
  {
    var s := Decimal(n) + rest;
    assert s[0] == Decimal(n)[0];
    ParseDigitsDecimal(n, rest);
  }

  lemma ParseIntSigned(n: nat, rest: string)
    requires rest == [] || !IsDigit(rest[0])
    ensures ParseInt("-" + Decimal(n) + rest) == Num(-(n as int))
    ensures ParseInt("+" + Decimal(n) + rest) == Num(n)
  {
    ParseDigitsDecimal(n, rest);
    ParseIntSign(Decimal(n), rest, n);
  }

  /** A leading `-` negates the digits' value; a leading `+` keeps it. */
  lemma ParseIntSign(d: string, rest: string, v: int)
    requires ParseDigits(d + rest) == Num(v)
    ensures ParseInt("-" + d + rest) == Num(-v)
    ensures ParseInt("+" + d + rest) == Num(v)
  {
    assert ("-" + d + rest)[1..] == d + rest;
    assert ("+" + d + rest)[1..] == d + rest;
  }

  /** A positive page number sent in decimal comes back unchanged; a negative one stays negative. */
  lemma CoerceDecimalPage(n: nat, rest: string)
    requires n >= 1
    requires rest == [] || !IsDigit(rest[0])
    ensures CoercePage(Some(Decimal(n) + rest)) == n
    ensures CoercePage(Some("-" + Decimal(n) + rest)) == -(n as int)
  {
    ParseIntUnsigned(n, rest);
    ParseIntSigned(n, rest);
  }

  /** `page=0`, `page=-0` and `page=+0` are falsy after parsing and become page 1. */
  lemma CoerceZeroPage(rest: string)
    requires rest == [] || !IsDigit(rest[0])
    ensures CoercePage(Some("0" + rest)) == 1
    ensures CoercePage(Some("-0" + rest)) == 1
    ensures CoercePage(Some("+0" + rest)) == 1
  {
    assert Decimal(0) == "0";
    assert "-" + "0" == "-0";
    assert "+" + "0" == "+0";
    CoerceZeroUnsigned("0", rest);
    CoerceZeroSigned("0", rest);
  }

  lemma CoerceZeroUnsigned(z: string, rest: string)
    requires z == Decimal(0)
    requires rest == [] || !IsDigit(rest[0])
    ensures CoercePage(Some(z + rest)) == 1
  {
    ParseIntUnsigned(0, rest);
  }

  lemma CoerceZeroSigned(z: string, rest: string)
    requires z == Decimal(0)
    requires rest == [] || !IsDigit(rest[0])
    ensures CoercePage(Some("-" + z + rest)) == 1
    ensures CoercePage(Some("+" + z + rest)) == 1
  {
    ParseIntSigned(0, rest);
  }

  /** A value with no digit after its optional sign (`""`, `"abc"`, `"-"`) becomes page 1. */
  lemma CoerceNonNumericPage(s: string)
    requires |s| == 0 || (!IsDigit(s[0]) && ((s[0] != '-' && s[0] != '+') || |s| == 1 || !IsDigit(s[1])))
    ensures CoercePage(Some(s)) == 1
  {
  }
}
