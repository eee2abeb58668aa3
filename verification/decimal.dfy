/**
 * Decimal digit strings as JavaScript produces and reads them: `n.toString()`
 * for integers, `padStart(2, "0")`, and the two string-to-number conversions
 * the dashboard's inputs go through, `parseFloat(s)` and `Number(s)`, for
 * plain decimal literals (optional sign, digits, optional fraction).
 */
module Decimal {
  import opened Wrappers
  import opened JsValues

  predicate IsDigit(c: char) {
    '0' <= c <= '9'
  }

  predicate AllDigits(s: string) {
    forall i :: 0 <= i < |s| ==> IsDigit(s[i])
  }

  function DigitChar(d: nat): (c: char)
    requires d < 10
    ensures IsDigit(c)
  {
    ('0' as int + d) as char
  }

  function Pow10(k: nat): (p: nat)
    ensures p >= 1
  {
    if k == 0 then 1 else 10 * Pow10(k - 1)
  }

  lemma AllDigitsAppend(a: string, b: string)
    requires AllDigits(a) && AllDigits(b)
    ensures AllDigits(a + b)
  {
    forall i | 0 <= i < |a + b| ensures IsDigit((a + b)[i]) {
      if i < |a| {
        assert (a + b)[i] == a[i];
      } else {
        assert (a + b)[i] == b[i - |a|];
      }
    }
  }

  /** The number a string of decimal digits denotes (most significant first). */
  function DigitsValue(s: string): (n: nat)
    requires AllDigits(s)
  {
    if |s| == 0 then 0
    else DigitsValue(s[..|s| - 1]) * 10 + (s[|s| - 1] as int - '0' as int)
  }

  /** `n.toString()` for a non-negative integer: shortest decimal, no leading zeros. */
  function NatToString(n: nat): (s: string)
    ensures |s| >= 1 && AllDigits(s)
    ensures n >= 10 ==> s[0] != '0'
  {
    if n < 10 then [DigitChar(n)]
    else NatToString(n / 10) + [DigitChar(n % 10)]
  }

  /** `i.toString()` for any integer. */
  function IntToString(i: int): (s: string)
    ensures |s| >= 1
  {
    if i < 0 then "-" + NatToString(-i) else NatToString(i)
  }

  /** `s.padStart(2, "0")`. */
  function PadStart2(s: string): (r: string)
    ensures |r| == if |s| >= 2 then |s| else 2
    ensures r[|r| - |s|..] == s
    ensures forall i :: 0 <= i < |r| - |s| ==> r[i] == '0'
  {
    if |s| >= 2 then s else seq(2 - |s|, _ => '0') + s
  }

  /** Reading back what `toString` wrote gives the number. */
  lemma {:induction false} DigitsValueOfNatToString(n: nat)
    ensures DigitsValue(NatToString(n)) == n
  {
    if n >= 10 {
      var a := NatToString(n / 10);
      DigitsValueOfNatToString(n / 10);
      assert (a + [DigitChar(n % 10)])[..|a|] == a;
    }
  }

  /** A leading zero does not change the value of a digit string. */
  lemma {:induction false} DigitsValueLeadingZero(s: string)
    requires AllDigits(s)
    ensures AllDigits("0" + s) && DigitsValue("0" + s) == DigitsValue(s)
  {
    if |s| > 0 {
      assert ("0" + s)[..|s|] == "0" + s[..|s| - 1];
      DigitsValueLeadingZero(s[..|s| - 1]);
    }
  }

  /** The decimal form of a number in [10^(k-1), 10^k) has exactly k digits. */
  lemma {:induction false} NatToStringLength(n: nat, k: nat)
    requires k >= 1 && (k == 1 || Pow10(k - 1) <= n) && n < Pow10(k)
    ensures |NatToString(n)| == k
  {
    if n >= 10 {
      assert Pow10(1) == 10;
      NatToStringLength(n / 10, k - 1);
    }
  }

  /** Two-digit zero padding of a one- or two-digit number reads back as that number. */
  lemma PadStart2RoundTrip(n: nat)
    requires n < 100
    ensures |PadStart2(NatToString(n))| == 2
    ensures AllDigits(PadStart2(NatToString(n)))
    ensures DigitsValue(PadStart2(NatToString(n))) == n
  {
    DigitsValueOfNatToString(n);
    if n < 10 {
      DigitsValueLeadingZero(NatToString(n));
      assert PadStart2(NatToString(n)) == "0" + NatToString(n);
    } else {
      NatToStringLength(n, 2);
    }
  }

  /** The characters `String.prototype.trim` and `parseFloat` skip (ASCII subset). */
  predicate IsSpace(c: char) {
    c == ' ' || c == '\t' || c == '\n' || c == '\r' || c == 11 as char || c == 12 as char
  }

  function TrimStart(s: string): (r: string)
    ensures |r| <= |s| && r == s[|s| - |r|..]
    ensures |r| > 0 ==> !IsSpace(r[0])
    ensures |s| > 0 && !IsSpace(s[0]) ==> r == s
  {
    if |s| > 0 && IsSpace(s[0]) then TrimStart(s[1..]) else s
  }

  function TrimEnd(s: string): (r: string)
    ensures |r| <= |s| && r == s[..|r|]
    ensures |r| > 0 ==> !IsSpace(r[|r| - 1])
    ensures |s| > 0 && !IsSpace(s[|s| - 1]) ==> r == s
  {
    if |s| > 0 && IsSpace(s[|s| - 1]) then TrimEnd(s[..|s| - 1]) else s
  }

  /** Length of the run of digits at the start of `s`. */
  function DigitRun(s: string): (n: nat)
    ensures n <= |s| && AllDigits(s[..n])
    ensures n < |s| ==> !IsDigit(s[n])
  {
    if |s| == 0 || !IsDigit(s[0]) then 0
    else
      var k := DigitRun(s[1..]);
      assert s[..1 + k] == [s[0]] + s[1..][..k];
      1 + k
  }

  /** The value of the digits after a decimal point: `"25"` is 0.25. */
  function FractionValue(frac: string): (r: real)
    requires AllDigits(frac)
    ensures 0.0 <= r
    ensures |frac| == 0 ==> r == 0.0
  {
    DigitsValue(frac) as real / Pow10(|frac|) as real
  }

  /** Length of the optional sign at the start of `t`. */
  function SignLength(t: string): (n: nat)
    ensures n <= |t|
  {
    if |t| > 0 && (t[0] == '+' || t[0] == '-') then 1 else 0
  }

  /**
   * Scans the longest unsigned literal `digits? ('.' digits?)?` with at least
   * one digit at the start of `body`; returns its value and its length.
   */
  function ScanUnsigned(body: string): (r: Option<(real, nat)>)
    ensures r.Some? ==> 1 <= r.value.1 <= |body|
  {
    var ip := DigitRun(body);
    if ip < |body| && body[ip] == '.' then ScanPointed(body, ip)
    else if ip == 0 then None
    else Some((DigitsValue(body[..ip]) as real, ip))
  }

  /** The literal continues past the point at `ip` with the digits that follow it, if any. */
  function ScanPointed(body: string, ip: nat): (r: Option<(real, nat)>)
    requires ip < |body| && AllDigits(body[..ip])
    ensures r.Some? ==> ip + 1 <= r.value.1 <= |body|
  {
    var rest := body[ip + 1..];
    var fl := DigitRun(rest);
    if ip == 0 && fl == 0 then None
    else Some((DigitsValue(body[..ip]) as real + FractionValue(rest[..fl]), ip + 1 + fl))
  }

  /** Scans the longest decimal literal `[+-]? unsigned` at the start of `t`. */
  function ScanDecimal(t: string): (r: Option<(real, nat)>)
    ensures r.Some? ==> 1 <= r.value.1 <= |t|
  {
    var n := SignLength(t);
    Signed(n == 1 && t[0] == '-', n, ScanUnsigned(t[n..]))
  }

  /** Applies the sign of length `n` to an unsigned scan. */
  function Signed(negative: bool, n: nat, unsigned: Option<(real, nat)>): (r: Option<(real, nat)>)
    ensures r.Some? <==> unsigned.Some?
    ensures r.Some? ==> r.value.1 == n + unsigned.value.1
  {
    match unsigned
    case None => None
    case Some((mag, len)) => Some((if negative then -mag else mag, n + len))
  }

  /** `parseFloat(s)`: the longest decimal prefix after leading white space, or NaN. */
  function ParseFloat(s: string): (r: JsNum)
    ensures r.Num? || r.NaN?
    ensures r.NaN? <==> ScanDecimal(TrimStart(s)).None?
  {
    match ScanDecimal(TrimStart(s))
    case None => NaN
    case Some((v, _)) => Num(v)
  }

  /**
   * `Number(s)`: white space around the literal is ignored, the empty string
   * is 0, and anything that is not entirely one decimal literal is NaN.
   */
  function NumberOf(s: string): (r: JsNum)
    ensures r.Num? || r.NaN?
    ensures |TrimEnd(TrimStart(s))| == 0 ==> r == Num(0.0)
    ensures r.Num? && |TrimEnd(TrimStart(s))| > 0 ==> ParseFloat(s) == r
  {
    var t := TrimEnd(TrimStart(s));
    if |t| == 0 then Num(0.0)
    else match ScanDecimal(t)
      case Some((v, n)) =>
        if n == |t| then
          TrimEndSplit(TrimStart(s));
          ScanDecimalExtend(t, TrimStart(s)[|t|..]);
          Num(v)
        else NaN
      case None => NaN
  }

  /** What `trim` drops at the end is white space. */
  lemma {:induction false} TrimEndSplit(u: string)
    ensures u == TrimEnd(u) + u[|TrimEnd(u)|..]
    ensures |TrimEnd(u)| < |u| ==> IsSpace(u[|TrimEnd(u)|])
  {
    if |u| > 0 && IsSpace(u[|u| - 1]) {
      var v := u[..|u| - 1];
      TrimEndSplit(v);
      assert TrimEnd(u) == TrimEnd(v);
      if |TrimEnd(v)| == |v| {
        assert u[|TrimEnd(u)|] == u[|u| - 1];
      } else {
        assert u[|TrimEnd(u)|] == v[|TrimEnd(v)|];
      }
    }
  }

  /** A literal that fills `t` is not lengthened by white space after it. */
  lemma ScanDecimalExtend(t: string, w: string)
    requires ScanDecimal(t).Some? && ScanDecimal(t).value.1 == |t|
    requires |w| == 0 || IsSpace(w[0])
    ensures ScanDecimal(t + w) == ScanDecimal(t)
  {
    var n := SignLength(t);
    assert (t + w)[0] == t[0];
    assert SignLength(t + w) == n;
    assert (t + w)[n..] == t[n..] + w;
    ScanUnsignedExtend(t[n..], w);
    ScanDecimalSame(t + w, t);
  }

  /** `ScanDecimal` looks only at the sign and at what `ScanUnsigned` reads after it. */
  lemma ScanDecimalSame(t1: string, t2: string)
    requires |t1| >= 1 && |t2| >= 1 && t1[0] == t2[0]
    requires ScanUnsigned(t1[SignLength(t1)..]) == ScanUnsigned(t2[SignLength(t2)..])
    ensures ScanDecimal(t1) == ScanDecimal(t2)
  {
    assert SignLength(t1) == SignLength(t2);
  }



  lemma ScanUnsignedExtend(b: string, w: string)
    requires ScanUnsigned(b).Some? && ScanUnsigned(b).value.1 == |b|
    requires |w| == 0 || IsSpace(w[0])
    ensures ScanUnsigned(b + w) == ScanUnsigned(b)
  {
    var ip := DigitRun(b);
    if ip < |b| && b[ip] == '.' {
      ScanPointedExtend(b, ip, w);
    } else {
      assert b[..ip] == b;
      DigitRunPrefix(b, w);
      assert (b + w)[..ip] == b;
    }
  }

  lemma ScanPointedExtend(b: string, ip: nat, w: string)
    requires ip < |b| && b[ip] == '.' && DigitRun(b) == ip
    requires ScanPointed(b, ip).Some? && ScanPointed(b, ip).value.1 == |b|
    requires |w| == 0 || IsSpace(w[0])
    ensures DigitRun(b + w) == ip && (b + w)[ip] == '.'
    ensures ScanPointed(b + w, ip) == ScanPointed(b, ip)
  {
    var u := b + w;
    DigitRunBeforePoint(b, ip, w);
    var rest := b[ip + 1..];
    assert u[ip + 1..] == rest + w;
    DigitRunWhole(rest, w);
    assert u[..ip] == b[..ip];
    ScanPointedSame(u, b, ip);
  }

  /** `ScanPointed` looks only at the digits before the point and the digit run after it. */
  lemma ScanPointedSame(b1: string, b2: string, ip: nat)
    requires ip < |b1| && ip < |b2| && AllDigits(b1[..ip]) && b1[..ip] == b2[..ip]
    requires DigitRun(b1[ip + 1..]) == DigitRun(b2[ip + 1..])
    requires b1[ip + 1..][..DigitRun(b1[ip + 1..])] == b2[ip + 1..][..DigitRun(b2[ip + 1..])]
    ensures ScanPointed(b1, ip) == ScanPointed(b2, ip)
  {
  }

  lemma DigitRunBeforePoint(b: string, ip: nat, w: string)
    requires ip < |b| && b[ip] == '.' && DigitRun(b) == ip
    ensures DigitRun(b + w) == ip && (b + w)[ip] == '.'
  {
    var d, rest := b[..ip], b[ip..] + w;
    assert d + rest == b + w;
    assert rest[0] == '.';
    DigitRunPrefix(d, rest);
  }

  lemma DigitRunWhole(d: string, w: string)
    requires DigitRun(d) == |d|
    requires |w| == 0 || IsSpace(w[0])
    ensures DigitRun(d + w) == |d| && (d + w)[..|d|] == d
  {
    assert d[..|d|] == d;
    DigitRunPrefix(d, w);
  }


  /** Scanning a string of digits consumes all of it and yields its value. */
  lemma ScanDigits(s: string)
    requires |s| >= 1 && AllDigits(s)
    ensures ScanDecimal(s) == Some((DigitsValue(s) as real, |s|))
  {
    ScanDecimalUnsigned(s);
    DigitRunAll(s);
    ScanUnsignedNoPoint(s);
    assert s[..|s|] == s;
  }

  /** A literal that starts with a digit has no sign. */
  lemma ScanDecimalUnsigned(t: string)
    requires |t| >= 1 && IsDigit(t[0])
    ensures ScanDecimal(t) == ScanUnsigned(t)
  {
    assert SignLength(t) == 0;
    assert t[0..] == t;
  }

  /** A run of digits not followed by a point is the whole literal, read as an integer. */
  lemma ScanUnsignedNoPoint(body: string)
    requires DigitRun(body) >= 1
    requires DigitRun(body) == |body| || body[DigitRun(body)] != '.'
    ensures ScanUnsigned(body) == Some((DigitsValue(body[..DigitRun(body)]) as real, DigitRun(body)))
  {
  }

  lemma {:induction false} DigitRunAll(s: string)
    requires AllDigits(s)
    ensures DigitRun(s) == |s|
  {
    if |s| > 0 {
      DigitRunAll(s[1..]);
    }
  }

  /** `parseFloat(String(n)) == n` for every non-negative integer. */
  lemma ParseFloatOfNatToString(n: nat)
    ensures ParseFloat(NatToString(n)) == Num(n as real)
  {
    DigitsValueOfNatToString(n);
    ScanDigits(NatToString(n));
  }

  /** `Number(String(n)) == n` for every non-negative integer. */
  lemma NumberOfNatToString(n: nat)
    ensures NumberOf(NatToString(n)) == Num(n as real)
  {
    var t := NatToString(n);
    DigitsValueOfNatToString(n);
    NoSpaceToTrim(t);
    ScanDigits(t);
  }

  /** A string that starts and ends with a non-space character is its own trim. */
  lemma NoSpaceToTrim(s: string)
    requires |s| >= 1 && !IsSpace(s[0]) && !IsSpace(s[|s| - 1])
    ensures TrimStart(s) == s && TrimEnd(TrimStart(s)) == s
  {
  }

  /**
   * `parseFloat` stops at the first character that cannot continue the
   * literal: digits followed by anything other than a digit or a point read
   * as those digits alone.
   */
  lemma ScanIntegerPrefix(d: string, rest: string)
    requires |d| >= 1 && AllDigits(d)
    requires |rest| == 0 || (!IsDigit(rest[0]) && rest[0] != '.')
    ensures ScanDecimal(d + rest) == Some((DigitsValue(d) as real, |d|))
  {
    var s := d + rest;
    assert s[0] == d[0];
    ScanDecimalUnsigned(s);
    DigitRunAll(d);
    DigitRunPrefix(d, rest);
    assert |d| < |s| ==> s[|d|] == rest[0];
    ScanUnsignedNoPoint(s);
    assert s[..|d|] == d;
  }

  lemma {:induction false} DigitRunPrefix(d: string, rest: string)
    requires AllDigits(d)
    requires |rest| == 0 || !IsDigit(rest[0])
    ensures DigitRun(d + rest) == |d|
  {
    if |d| > 0 {
      assert (d + rest)[1..] == d[1..] + rest;
      DigitRunPrefix(d[1..], rest);
    } else {
      assert d + rest == rest;
    }
  }

  /**
   * The two conversions differ on trailing text, which `parseFloat` ignores
   * and `Number` rejects, and on the empty input, which `Number` reads as 0.
   */
  lemma ParseFloatAndNumberDiffer()
    ensures ParseFloat("12px") == Num(12.0) && NumberOf("12px") == NaN
    ensures ParseFloat("") == NaN && NumberOf("") == Num(0.0)
  {
    TrailingText();
  }

  lemma TrailingText()
    ensures ParseFloat("12px") == Num(12.0) && NumberOf("12px") == NaN
  {
    ScanTwelvePx();
  }

  /** "12px" has nothing to trim, and its literal is the two digits "12". */
  lemma ScanTwelvePx()
    ensures TrimStart("12px") == "12px" && TrimEnd("12px") == "12px"
    ensures ScanDecimal("12px") == Some((12.0, 2))
  {
    NoSpaceToTrim("12px");
    TwelveDigits();
    assert "12" + "px" == "12px";
    ScanIntegerPrefix("12", "px");
  }

  lemma TwelveDigits()
    ensures AllDigits("12") && DigitsValue("12") == 12
  {
    assert "12"[..1] == "1";
  }
}
