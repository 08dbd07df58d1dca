/** JavaScript number conversions the charts rely on: `parseInt` without a
    radix, the first run of digits a `/\d+/` match finds, and the `%`
    operator, whose remainder takes the sign of the dividend. */
module Numbers {
  import opened Wrappers
  import opened Strs

  function DigitValue(c: char): (v: nat)
    requires IsAsciiDigit(c)
    ensures v < 10
  {
    (c as int - '0' as int) as nat
  }

  predicate AllDigits(s: string) {
    forall i :: 0 <= i < |s| ==> IsAsciiDigit(s[i])
  }

  /** The value of a decimal digit string, most significant digit first. */
  function DigitsValue(s: string): nat
    requires AllDigits(s)
    decreases |s|
  {
    if |s| == 0 then 0 else DigitsValue(s[..|s| - 1]) * 10 + DigitValue(s[|s| - 1])
  }

  function DigitChar(d: nat): (c: char)
    requires d < 10
    ensures IsAsciiDigit(c) && DigitValue(c) == d
  {
    ('0' as int + d) as char
  }

  /** The shortest decimal spelling of `n`. */
  function Decimal(n: nat): (s: string)
    ensures |s| > 0 && AllDigits(s)
    ensures |s| > 1 ==> s[0] != '0'
    decreases n
  {
    if n < 10 then [DigitChar(n)] else Decimal(n / 10) + [DigitChar(n % 10)]
  }

  /** Reading back the decimal spelling of `n` gives `n`. */
  lemma {:induction false} DecimalValue(n: nat)
    ensures DigitsValue(Decimal(n)) == n
    decreases n
  {
    if n >= 10 {
      DecimalValue(n / 10);
      assert Decimal(n)[..|Decimal(n)| - 1] == Decimal(n / 10);
    }
  }

  /** The end of the run of decimal digits starting at `i`. */
  function DigitsEnd(s: string, i: nat): (e: nat)
    requires i <= |s|
    ensures i <= e <= |s|
    ensures forall k :: i <= k < e ==> IsAsciiDigit(s[k])
    ensures e == |s| || !IsAsciiDigit(s[e])
    decreases |s| - i
  {
    if i == |s| || !IsAsciiDigit(s[i]) then i else DigitsEnd(s, i + 1)
  }

  predicate IsHexDigit(c: char) {
    IsAsciiDigit(c) || 'a' <= c <= 'f' || 'A' <= c <= 'F'
  }

  function HexDigitValue(c: char): (v: nat)
    requires IsHexDigit(c)
    ensures v < 16
  {
    if IsAsciiDigit(c) then DigitValue(c)
    else if 'a' <= c <= 'f' then (c as int - 'a' as int + 10) as nat
    else (c as int - 'A' as int + 10) as nat
  }

  function HexValue(s: string): nat
    requires forall i :: 0 <= i < |s| ==> IsHexDigit(s[i])
    decreases |s|
  {
    if |s| == 0 then 0 else HexValue(s[..|s| - 1]) * 16 + HexDigitValue(s[|s| - 1])
  }

  function HexEnd(s: string, i: nat): (e: nat)
    requires i <= |s|
    ensures i <= e <= |s|
    ensures forall k :: i <= k < e ==> IsHexDigit(s[k])
    decreases |s| - i
  {
    if i == |s| || !IsHexDigit(s[i]) then i else HexEnd(s, i + 1)
  }

  predicate HexPrefixed(u: string) {
    |u| >= 2 && u[0] == '0' && (u[1] == 'x' || u[1] == 'X')
  }

  /** JavaScript white space and line terminators, which `parseInt` skips. */
  predicate IsJsSpace(c: char) {
    ('\t' <= c <= '\r') || c == ' ' || c == '\U{A0}' || c == '\U{1680}'
    || ('\U{2000}' <= c <= '\U{200A}') || c == '\U{2028}' || c == '\U{2029}'
    || c == '\U{202F}' || c == '\U{205F}' || c == '\U{3000}' || c == '\U{FEFF}'
  }

  function JsTrimStart(s: string): (r: string)
    ensures |r| <= |s| && r == s[|s| - |r|..]
    ensures |r| > 0 ==> !IsJsSpace(r[0])
    decreases |s|
  {
    if |s| > 0 && IsJsSpace(s[0]) then JsTrimStart(s[1..]) else s
  }

  /** The digits `parseInt` reads after the sign: hexadecimal after `0x`
      or `0X`, decimal otherwise; `None` when there are none. */
  function Magnitude(u: string): (r: Option<nat>)
  {
    if HexPrefixed(u) then
      var e := HexEnd(u, 2);
      if e == 2 then None else Some(HexValue(u[2..e]))
    else
      var e := DigitsEnd(u, 0);
      if e == 0 then None else Some(DigitsValue(u[..e]))
  }

  /** `parseInt(s)` without a radix: leading white space skipped, an
      optional sign, then the magnitude; `NaN` is `None`. */
  function ParseInt(s: string): (r: Option<int>)
    ensures r.Some? ==> Magnitude(Unsigned(JsTrimStart(s))).Some?
    ensures r.None? <==> Magnitude(Unsigned(JsTrimStart(s))).None?
    ensures var u := Unsigned(JsTrimStart(s));
      r.None? <==> if HexPrefixed(u) then |u| == 2 || !IsHexDigit(u[2]) else |u| == 0 || !IsAsciiDigit(u[0])
  {
    var t := JsTrimStart(s);
    match Magnitude(Unsigned(t))
    case None => None
    case Some(m) => Some(if |t| > 0 && t[0] == '-' then -(m as int) else m)
  }

  /** The text after an optional leading sign. */
  function Unsigned(t: string): (u: string)
    ensures |u| <= |t| && u == t[|t| - |u|..]
  {
    if |t| > 0 && (t[0] == '-' || t[0] == '+') then t[1..] else t
  }

  /** On a string starting with a digit and not with `0x`, `parseInt`
      reads the leading digit run. */
  lemma ParseLeadingDigits(s: string)
    requires |s| > 0 && IsAsciiDigit(s[0]) && !HexPrefixed(s)
    ensures ParseInt(s) == Some(DigitsValue(s[..DigitsEnd(s, 0)]))
  {
    ParseUnsigned(s);
    MagnitudeDecimal(s);
  }

  /** Without leading white space or sign, `parseInt` is the magnitude. */
  lemma ParseUnsigned(s: string)
    requires |s| > 0 && !IsJsSpace(s[0]) && s[0] != '-' && s[0] != '+'
    ensures ParseInt(s) == Magnitude(s)
  {
    assert JsTrimStart(s) == s;
    assert Unsigned(s) == s;
  }

  /** After a minus sign, `parseInt` is the negated magnitude. */
  lemma ParseMinus(s: string)
    ensures ParseInt("-" + s) == match Magnitude(s) case None => None case Some(m) => Some(-(m as int))
  {
    var m := "-" + s;
    assert m[0] == '-';
    assert JsTrimStart(m) == m;
    assert m[1..] == s;
    assert Unsigned(m) == s;
  }

  /** A leading decimal digit, not `0x`: the magnitude is the digit run. */
  lemma MagnitudeDecimal(u: string)
    requires |u| > 0 && IsAsciiDigit(u[0]) && !HexPrefixed(u)
    ensures Magnitude(u) == Some(DigitsValue(u[..DigitsEnd(u, 0)]))
  {
    assert DigitsEnd(u, 0) > 0;
  }

  /** Nothing to read when the text does not start with a digit. */
  lemma MagnitudeNone(u: string)
    requires |u| == 0 || !IsAsciiDigit(u[0])
    ensures Magnitude(u).None?
  {
    if |u| > 0 {
      assert !HexPrefixed(u);
      assert DigitsEnd(u, 0) == 0;
    }
  }

  /** A minus sign in front negates what `parseInt` reads. */
  lemma ParseNegated(s: string)
    requires |s| > 0 && !IsJsSpace(s[0]) && s[0] != '-' && s[0] != '+'
    ensures ParseInt("-" + s) == if ParseInt(s).Some? then Some(-ParseInt(s).value) else None
  {
    ParseMinus(s);
    ParseUnsigned(s);
  }

  /** `parseInt` reads back every decimal spelling, and stops at the first
      character after it that is not a letter or digit. */
  lemma ParseDecimal(n: nat, rest: string)
    requires |rest| == 0 || !IsAsciiAlnum(rest[0])
    ensures ParseInt(Decimal(n) + rest) == Some(n)
  {
    DecimalValue(n);
    ParseDigitString(Decimal(n), rest);
  }

  /** The same with a minus sign in front. */
  lemma ParseNegativeDecimal(n: nat, rest: string)
    requires |rest| == 0 || !IsAsciiAlnum(rest[0])
    ensures ParseInt("-" + (Decimal(n) + rest)) == Some(-(n as int))
  {
    ParseDecimal(n, rest);
    NegateParsed(Decimal(n) + rest, n);
  }

  lemma NegateParsed(s: string, n: nat)
    requires |s| > 0 && IsAsciiDigit(s[0]) && ParseInt(s) == Some(n)
    ensures ParseInt("-" + s) == Some(-(n as int))
  {
    DigitNotSpace(s[0]);
    ParseNegated(s);
  }

  lemma DigitNotSpace(c: char)
    requires IsAsciiDigit(c)
    ensures !IsJsSpace(c) && c != '-' && c != '+'
  {
  }

  lemma ParseDigitString(d: string, rest: string)
    requires |d| > 0 && AllDigits(d) && (|d| > 1 ==> d[0] != '0')
    requires |rest| == 0 || !IsAsciiAlnum(rest[0])
    ensures ParseInt(d + rest) == Some(DigitsValue(d))
  {
    DigitsThenRest(d, rest);
    ParseLeadingDigits(d + rest);
  }

  lemma DigitsThenRest(d: string, rest: string)
    requires |d| > 0 && AllDigits(d) && (|d| > 1 ==> d[0] != '0')
    requires |rest| == 0 || !IsAsciiAlnum(rest[0])
    ensures var s := d + rest;
      IsAsciiDigit(s[0]) && !HexPrefixed(s) && DigitsEnd(s, 0) == |d| && s[..|d|] == d
  {
    var s := d + rest;
    assert forall k :: 0 <= k < |d| ==> s[k] == d[k];
    DigitsEndAt(s, 0, |d|);
    assert s[..|d|] == d;
    if |d| == 1 && |s| >= 2 {
      assert s[1] == rest[0];
    }
  }

  lemma {:induction false} DigitsEndAt(s: string, i: nat, j: nat)
    requires i <= j <= |s|
    requires forall k :: i <= k < j ==> IsAsciiDigit(s[k])
    requires j == |s| || !IsAsciiDigit(s[j])
    ensures DigitsEnd(s, i) == j
    decreases j - i
  {
    if i < j {
      DigitsEndAt(s, i + 1, j);
    }
  }

  /** `s.match(/\d+/)?.[0]`: the first maximal run of decimal digits. */
  function FirstDigitRun(s: string): (r: Option<string>)
    ensures r.Some? ==> |r.value| > 0 && AllDigits(r.value)
    ensures r.None? <==> forall k :: 0 <= k < |s| ==> !IsAsciiDigit(s[k])
    ensures forall j :: 0 <= j < |s| && IsAsciiDigit(s[j]) && (forall k :: 0 <= k < j ==> !IsAsciiDigit(s[k])) ==>
      r == Some(s[j..DigitsEnd(s, j)])
  {
    FirstDigitRunFrom(s, 0)
  }

  /** The first maximal digit run at or after `i`: the run that starts at
      the first digit from `i` on and stops before the next non-digit. */
  function FirstDigitRunFrom(s: string, i: nat): (r: Option<string>)
    requires i <= |s|
    ensures r.Some? ==> |r.value| > 0 && AllDigits(r.value)
    ensures r.None? <==> forall k :: i <= k < |s| ==> !IsAsciiDigit(s[k])
    ensures forall j :: i <= j < |s| && IsAsciiDigit(s[j]) && (forall k :: i <= k < j ==> !IsAsciiDigit(s[k])) ==>
      r == Some(s[j..DigitsEnd(s, j)])
    decreases |s| - i
  {
    if i == |s| then None
    else if IsAsciiDigit(s[i]) then Some(s[i..DigitsEnd(s, i)])
    else FirstDigitRunFrom(s, i + 1)
  }

  /** The digits right after a non-digit prefix are the ones found. */
  lemma {:induction false} FirstDigitRunAfter(p: string, n: nat, rest: string)
    requires forall k :: 0 <= k < |p| ==> !IsAsciiDigit(p[k])
    requires |rest| == 0 || !IsAsciiDigit(rest[0])
    ensures FirstDigitRun(p + Decimal(n) + rest) == Some(Decimal(n))
  {
    var d := Decimal(n);
    var s := p + d + rest;
    SkipNonDigits(s, 0, |p|);
    DigitsEndAt(s, |p|, |p| + |d|);
    assert s[|p|..|p| + |d|] == d;
  }

  lemma {:induction false} SkipNonDigits(s: string, i: nat, j: nat)
    requires i <= j < |s|
    requires forall k :: i <= k < j ==> !IsAsciiDigit(s[k])
    requires IsAsciiDigit(s[j])
    ensures FirstDigitRunFrom(s, i) == FirstDigitRunFrom(s, j)
    decreases j - i
  {
    if i < j {
      SkipNonDigits(s, i + 1, j);
    }
  }

  /** JavaScript `a % n` for integers and `n > 0`: the remainder of the
      division truncated toward zero, so negative for a negative `a` not
      divisible by `n`. */
  function JsRem(a: int, n: int): (r: int)
    requires n > 0
    ensures -n < r < n
    ensures a >= 0 ==> r == a % n
    ensures a < 0 ==> r <= 0
  {
    if a >= 0 then a % n else -((-a) % n)
  }

  /** `Math.trunc(a / n)`. */
  function JsQuot(a: int, n: int): int
    requires n > 0
  {
    if a >= 0 then a / n else -((-a) / n)
  }

  /** Truncated division and remainder fit together: the quotient times
      `n` plus the remainder gives back `a`. */
  lemma JsRemSpec(a: int, n: int)
    requires n > 0
    ensures a == n * JsQuot(a, n) + JsRem(a, n)
  {
    if a < 0 {
      var q := (-a) / n;
      var m := (-a) % n;
      assert -a == n * q + m;
      assert n * -q == -(n * q);
    }
  }

  /** Without any digit there is nothing to read: `NaN`. */
  lemma NoDigitsNoNumber(s: string)
    requires forall k :: 0 <= k < |s| ==> !IsAsciiDigit(s[k])
    ensures ParseInt(s).None?
  {
    var t := JsTrimStart(s);
    var u := Unsigned(t);
    if |u| > 0 {
      assert u[0] == t[|t| - |u|] == s[|s| - |u|];
    }
    MagnitudeNone(u);
  }
}
