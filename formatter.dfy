/** FormatterUtil: truncation of long texts, the lenient currency parser, the
    percent rendering and the null defaults of the display formatters. A
    BigDecimal is an unscaled integer with a scale, and its value is exact. */
module Formatter {
  import opened Wrappers
  import opened Text

  datatype FormatError =
    /** String.substring was given a negative end index. */
    | StringIndexOutOfBounds
    /** BigDecimal.setScale without a rounding mode would have to round. */
    | RoundingNecessary

  const ELLIPSIS: string := "..."

  /** truncateText: a missing text, or one within the limit, comes back as it
      is; a longer one is cut to maxLength - 3 characters followed by "...",
      which fails when maxLength is below 3. */
  function TruncateText(text: Option<string>, maxLength: int): (r: Result<Option<string>, FormatError>)
    ensures text.None? ==> r == Success(None)
    ensures text.Some? && |text.value| <= maxLength ==> r == Success(text)
    ensures text.Some? && |text.value| > maxLength ==> (r.Success? <==> maxLength >= 3)
    ensures r.Success? && r.value.Some? ==> |r.value.value| <= maxLength
    ensures text.Some? && |text.value| > maxLength && r.Success? ==>
            && r.value.Some? && |r.value.value| == maxLength
            && r.value.value[..maxLength - 3] == text.value[..maxLength - 3]
            && r.value.value[maxLength - 3..] == ELLIPSIS
  {
    if text.None? || |text.value| <= maxLength then Success(text)
    else if maxLength - 3 < 0 then Failure(StringIndexOutOfBounds)
    else Success(Some(text.value[..maxLength - 3] + ELLIPSIS))
  }

  /** Truncating an already truncated text to the same limit changes nothing. */
  lemma TruncateIdempotent(text: Option<string>, maxLength: int)
    requires TruncateText(text, maxLength).Success?
    ensures TruncateText(TruncateText(text, maxLength).value, maxLength) == TruncateText(text, maxLength)
  {
  }

  /** The characters parseCurrency keeps: the digits and the point. */
  predicate IsDecimalChar(c: char) {
    IsDigit(c) || c == '.'
  }

  predicate AllDecimalChars(s: string) {
    forall i :: 0 <= i < |s| ==> IsDecimalChar(s[i])
  }

  /** replaceAll("[^\\d.]", ""): every character other than a digit or a
      point is removed. */
  function Clean(s: string): string {
    if s == [] then []
    else (if IsDecimalChar(s[0]) then [s[0]] else []) + Clean(s[1..])
  }

  lemma {:induction false} CleanAppend(a: string, b: string)
    ensures Clean(a + b) == Clean(a) + Clean(b)
  {
    if a != [] {
      assert (a + b)[0] == a[0] && (a + b)[1..] == a[1..] + b;
      CleanAppend(a[1..], b);
    } else {
      assert a + b == b;
    }
  }

  /** Cleaning keeps a text made only of digits and points, and removes one
      with none of them entirely. */
  lemma {:induction false} CleanKeeps(s: string)
    ensures AllDecimalChars(s) ==> Clean(s) == s
    ensures (forall i :: 0 <= i < |s| ==> !IsDecimalChar(s[i])) ==> Clean(s) == []
  {
    if s != [] {
      CleanKeeps(s[1..]);
      assert s == [s[0]] + s[1..];
    }
  }

  /** Cleaning keeps a leading run of digits. */
  lemma {:induction false} CleanDigitsThen(digits: string, rest: string)
    requires AllDigits(digits)
    ensures Clean(digits + rest) == digits + Clean(rest)
  {
    if digits != [] {
      var s := digits + rest;
      assert s[0] == digits[0] && s[1..] == digits[1..] + rest;
      CleanDigitsThen(digits[1..], rest);
      assert digits == [digits[0]] + digits[1..];
    } else {
      assert digits + rest == rest;
    }
  }

  /** The index of the first point, or the length when there is none. */
  function DotIndex(t: string): (k: nat)
    ensures k <= |t|
  {
    if t == [] then 0
    else if t[0] == '.' then 0
    else 1 + DotIndex(t[1..])
  }

  /** DotIndex finds a point, and no point comes before it. */
  lemma {:induction false} DotIndexSpec(t: string)
    ensures DotIndex(t) < |t| ==> t[DotIndex(t)] == '.'
    ensures forall i :: 0 <= i < DotIndex(t) ==> t[i] != '.'
  {
    if t != [] && t[0] != '.' {
      DotIndexSpec(t[1..]);
      forall i | 0 <= i < DotIndex(t) ensures t[i] != '.' {
        if i > 0 { assert t[i] == t[1..][i - 1]; }
      }
    }
  }

  /** The first point of a text that starts with digits is after them. */
  lemma {:induction false} DotIndexSkips(digits: string, rest: string)
    requires AllDigits(digits)
    ensures DotIndex(digits + rest) == |digits| + DotIndex(rest)
  {
    if digits != [] {
      assert (digits + rest)[0] == digits[0] && (digits + rest)[1..] == digits[1..] + rest;
      DotIndexSkips(digits[1..], rest);
    } else {
      assert digits + rest == rest;
    }
  }

  function Pow10(n: nat): (r: nat)
    ensures r >= 1
  {
    if n == 0 then 1 else 10 * Pow10(n - 1)
  }

  lemma {:induction false} Pow10Add(a: nat, b: nat)
    ensures Pow10(a + b) == Pow10(a) * Pow10(b)
  {
    if a > 0 {
      Pow10Add(a - 1, b);
    }
  }

  /** Digits with no point among them are all digits. */
  lemma DigitsBeforeDot(t: string, from: nat, to: nat)
    requires AllDecimalChars(t) && from <= to <= |t|
    requires forall i :: from <= i < to ==> t[i] != '.'
    ensures AllDigits(t[from..to])
  {
    forall i | 0 <= i < to - from
      ensures IsDigit(t[from..to][i])
    {
      assert t[from..to][i] == t[from + i] && IsDecimalChar(t[from + i]);
    }
  }

  /** The value new BigDecimal(t) gives to a text of digits and points: an
      optional integer part, an optional point with an optional fraction, at
      least one digit in all, and no second point. A text with any other
      character has none here (cleaning leaves no other character). */
  function DecimalOf(t: string): (r: Option<real>)
    ensures r.Some? ==> r.value >= 0.0
    ensures t == [] || t == "." ==> r == None
  {
    if !AllDecimalChars(t) then None
    else
      var k := DotIndex(t);
      DotIndexSpec(t);
      if k == |t| then
        if t == [] then None
        else
          DigitsBeforeDot(t, 0, |t|);
          assert t[0..|t|] == t;
          Some(DigitsValue(t) as real)
      else
        var ip := t[..k];
        var fp := t[k + 1..];
        assert AllDecimalChars(fp) by {
          forall i | 0 <= i < |fp| ensures IsDecimalChar(fp[i]) {
            assert fp[i] == t[k + 1 + i];
          }
        }
        if DotIndex(fp) < |fp| then None
        else if ip == [] && fp == [] then None
        else
          DotIndexSpec(fp);
          DigitsBeforeDot(t, 0, k);
          assert t[0..k] == ip;
          DigitsBeforeDot(fp, 0, |fp|);
          assert fp[0..|fp|] == fp;
          Some(PointValue(ip, fp))
  }

  /** The value of "ip.fp": the integer part plus the fraction's digits over
      the matching power of ten. */
  function PointValue(ip: string, fp: string): (v: real)
    requires AllDigits(ip) && AllDigits(fp)
    ensures v >= 0.0
  {
    DigitsValue(ip) as real + DigitsValue(fp) as real / Pow10(|fp|) as real
  }

  /** parseCurrency: zero for a missing or blank text; otherwise the decimal
      left once everything but digits and points is removed, or zero when
      what is left is not a decimal. Signs are removed too, so the result is
      never negative. */
  function ParseCurrency(value: Option<string>): (r: real)
    ensures r >= 0.0
    ensures value.None? || Trim(value.value) == [] ==> r == 0.0
    ensures value.Some? && DecimalOf(Clean(value.value)).None? ==> r == 0.0
  {
    if value.None? || Trim(value.value) == [] then 0.0
    else
      match DecimalOf(Clean(value.value))
      case None => 0.0
      case Some(d) => d
  }

  /** A text with no digit and no point parses to zero. */
  lemma NoDigitsParsesToZero(s: string)
    requires forall i :: 0 <= i < |s| ==> !IsDecimalChar(s[i])
    ensures ParseCurrency(Some(s)) == 0.0
  {
    CleanKeeps(s);
  }

  /** A leading minus sign is dropped with the other symbols. */
  lemma MinusIgnored(s: string)
    ensures ParseCurrency(Some("-" + s)) == ParseCurrency(Some(s))
  {
    CleanAppend("-", s);
    assert Clean("-") == [];
    assert Clean("-" + s) == Clean(s);
    TrimEmptyIff("-" + s);
    TrimEmptyIff(s);
    if Trim(s) == [] {
      CleanKeeps(s);
      assert Clean(s) == [];
    }
  }

  /** A text with a second point is no decimal at all. */
  lemma SecondPointRefused(t: string, i: nat, j: nat)
    requires i < j < |t| && t[i] == '.' && t[j] == '.'
    ensures DecimalOf(t) == None
  {
    if AllDecimalChars(t) {
      DotIndexSpec(t);
      var k := DotIndex(t);
      assert k <= i;
      var fp := t[k + 1..];
      DotIndexSpec(fp);
      assert fp[j - k - 1] == '.';
      assert DotIndex(fp) <= j - k - 1;
    }
  }

  /** When the cleaned text has two points, parseCurrency gives zero. */
  lemma TwoPointsParseToZero(s: string, i: nat, j: nat)
    requires i < j < |Clean(s)| && Clean(s)[i] == '.' && Clean(s)[j] == '.'
    ensures ParseCurrency(Some(s)) == 0.0
  {
    SecondPointRefused(Clean(s), i, j);
  }

  /** A whole number written in decimal reads back as itself. */
  lemma WholeNumberReadsBack(n: nat)
    ensures ParseCurrency(Some(NatToString(n))) == n as real
  {
    var s := NatToString(n);
    assert AllDecimalChars(s) by {
      forall i | 0 <= i < |s| ensures IsDecimalChar(s[i]) {
        assert IsDigit(s[i]);
      }
    }
    CleanKeeps(s);
    TrimEmptyIff(s);
    assert !IsTrimmed(s[0]);
    DotIndexSkips(s, []);
    assert s + [] == s;
    NatToStringRoundTrip(n);
  }

  /** A BigDecimal: the value is unscaled × 10^-scale; the scale may be
      negative. */
  datatype BigDecimal = BigDecimal(unscaled: int, scale: int)

  function ValueOf(d: BigDecimal): real {
    if d.scale >= 0 then d.unscaled as real / Pow10(d.scale) as real
    else (d.unscaled * Pow10(-d.scale)) as real
  }

  /** setScale(2) without a rounding mode: the unscaled value at scale 2,
      or an error when digits would be lost. */
  function SetScale2(d: BigDecimal): (r: Result<int, FormatError>)
    ensures r.Success? ==> r.value as real / 100.0 == ValueOf(d)
  {
    if d.scale <= 2 then
      ScaleUpKeepsValue(d);
      Success(d.unscaled * Pow10(2 - d.scale))
    else if d.unscaled % Pow10(d.scale - 2) == 0 then
      ScaleDownKeepsValue(d);
      Success(d.unscaled / Pow10(d.scale - 2))
    else Failure(RoundingNecessary)
  }

  lemma ScaleUpKeepsValue(d: BigDecimal)
    requires d.scale <= 2
    ensures (d.unscaled * Pow10(2 - d.scale)) as real / 100.0 == ValueOf(d)
  {
    var u := d.unscaled;
    if d.scale >= 0 {
      var s: nat := d.scale;
      Pow10Add(2 - s, s);
      assert Pow10(2) == 100;
      var p := Pow10(2 - s);
      var q := Pow10(s);
      assert p * q == 100;
      assert (u * p) as real / 100.0 == (u * p) as real / (p * q) as real;
      assert (u * p) as real / (p * q) as real == u as real / q as real;
    } else {
      var s: nat := -d.scale;
      Pow10Add(2, s);
      assert Pow10(2) == 100;
      assert Pow10(2 + s) == 100 * Pow10(s);
      assert u * Pow10(2 + s) == 100 * (u * Pow10(s));
    }
  }

  lemma ScaleDownKeepsValue(d: BigDecimal)
    requires d.scale > 2 && d.unscaled % Pow10(d.scale - 2) == 0
    ensures (d.unscaled / Pow10(d.scale - 2)) as real / 100.0 == ValueOf(d)
  {
    var u := d.unscaled;
    var s: nat := d.scale;
    var p := Pow10(s - 2);
    var q := u / p;
    assert u == q * p;
    Pow10Add(s - 2, 2);
    assert Pow10(2) == 100;
    assert Pow10(s) == p * 100;
    assert u as real / Pow10(s) as real == (q * p) as real / (p * 100) as real;
    assert (q * p) as real / (p * 100) as real == q as real / 100.0;
  }

  /** The two digits of a number below 100, zero-padded. */
  function TwoDigits(n: nat): (r: string)
    requires n < 100
    ensures |r| == 2 && AllDigits(r) && DigitsValue(r) == n
  {
    var r := [DigitChar(n / 10), DigitChar(n % 10)];
    assert r[..1] == [DigitChar(n / 10)] && r[..1][..0] == [];
    assert DigitsValue(r[..1]) == n / 10;
    assert DigitsValue(r) == (n / 10) * 10 + n % 10;
    r
  }

  /** BigDecimal.toString of a value at scale 2: an optional minus, the
      integer part, the point and two digits. */
  function PlainScale2(u: int): (r: string)
  {
    var a: nat := if u < 0 then -u else u;
    (if u < 0 then "-" else "") + NatToString(a / 100) + "." + TwoDigits(a % 100)
  }

  /** formatPercent: "0%" for a missing value; otherwise the value at scale
      2 followed by "%", which fails when that scale would lose digits. */
  function FormatPercent(value: Option<BigDecimal>): (r: Result<string, FormatError>)
    ensures value.None? ==> r == Success("0%")
    ensures value.Some? ==> (r.Failure? <==> SetScale2(value.value).Failure?)
    ensures r.Success? ==> |r.value| >= 2 && r.value[|r.value| - 1] == '%'
  {
    if value.None? then Success("0%")
    else
      match SetScale2(value.value)
      case Failure(e) => Failure(e)
      case Success(u) => Success(PlainScale2(u) + "%")
  }

  lemma DigitsAreDecimalChars(s: string)
    requires AllDigits(s)
    ensures AllDecimalChars(s)
  {
    forall i | 0 <= i < |s| ensures IsDecimalChar(s[i]) { assert IsDigit(s[i]); }
  }

  /** Cleaning a rendering "[-]digits.digits%" leaves "digits.digits". */
  lemma CleanRendering(sign: string, ip: string, fp: string)
    requires sign == "" || sign == "-"
    requires AllDigits(ip) && AllDigits(fp)
    ensures Clean(sign + ip + "." + fp + "%") == ip + "." + fp
  {
    var tail := fp + "%";
    var rest := "." + tail;
    var body := ip + rest;
    assert sign + ip + "." + fp + "%" == sign + body;
    CleanDigitsThen(fp, "%");
    assert Clean("%") == [];
    assert Clean(rest) == "." + Clean(tail) by {
      assert rest[0] == '.' && rest[1..] == tail;
    }
    CleanDigitsThen(ip, rest);
    if sign == "-" {
      assert (sign + body)[0] == '-' && (sign + body)[1..] == body;
    } else {
      assert sign + body == body;
    }
  }

  /** "digits.digits" is read as the integer part plus the fraction. */
  lemma PointedDecimal(ip: string, fp: string)
    requires AllDigits(ip) && AllDigits(fp) && (ip != [] || fp != [])
    ensures AllDecimalChars(ip + "." + fp)
    ensures DecimalOf(ip + "." + fp) == Some(PointValue(ip, fp))
  {
    var t := ip + "." + fp;
    DigitsAreDecimalChars(ip);
    DigitsAreDecimalChars(fp);
    assert AllDecimalChars(t) by {
      forall i | 0 <= i < |t| ensures IsDecimalChar(t[i]) {
        if i < |ip| { assert t[i] == ip[i]; }
        else if i > |ip| { assert t[i] == fp[i - |ip| - 1]; }
      }
    }
    DotIndexSkips(ip, "." + fp);
    assert ip + "." + fp == ip + ("." + fp);
    assert DotIndex("." + fp) == 0;
    assert DotIndex(t) == |ip|;
    assert t[..|ip|] == ip && t[|ip| + 1..] == fp;
    DotIndexSkips(fp, []);
    assert fp + [] == fp;
    assert DotIndex(fp) == |fp|;
    assert DotIndex(t) != |t|;
    assert t[..DotIndex(t)] == ip && t[DotIndex(t) + 1..] == fp;
    assert DotIndex(t[DotIndex(t) + 1..]) == |t[DotIndex(t) + 1..]|;
    assert DecimalOf(t).Some?;
  }

  /** A scale-2 rendering followed by "%" reads back as the magnitude of
      the unscaled value over 100. */
  lemma RenderingReadsBack(u: int)
    ensures var a := if u < 0 then -u else u;
            ParseCurrency(Some(PlainScale2(u) + "%")) == a as real / 100.0
  {
    var a: nat := if u < 0 then -u else u;
    RenderingParses(u);
    RenderedValue(a);
  }

  /** The rendering parses as its digits around the point. */
  lemma RenderingParses(u: int)
    ensures var a: nat := if u < 0 then -u else u;
            ParseCurrency(Some(PlainScale2(u) + "%")) == PointValue(NatToString(a / 100), TwoDigits(a % 100))
  {
    var a: nat := if u < 0 then -u else u;
    var sign := if u < 0 then "-" else "";
    var ip := NatToString(a / 100);
    var fp := TwoDigits(a % 100);
    var text := sign + ip + "." + fp + "%";
    assert PlainScale2(u) + "%" == text;
    CleanRendering(sign, ip, fp);
    TrimEmptyIff(text);
    assert !IsTrimmed(text[|text| - 1]);
    assert |fp| == 2;
    PointedDecimal(ip, fp);
  }

  /** The whole units and the two cent digits read back as the amount. */
  lemma RenderedValue(a: nat)
    ensures PointValue(NatToString(a / 100), TwoDigits(a % 100)) == a as real / 100.0
  {
    var ip := NatToString(a / 100);
    var fp := TwoDigits(a % 100);
    NatToStringRoundTrip(a / 100);
    assert Pow10(2) == 100;
    assert PointValue(ip, fp) == (a / 100) as real + (a % 100) as real / 100.0;
    CentsSplit(a);
  }

  /** An amount in cents is its whole units plus its cents over 100. */
  lemma CentsSplit(a: nat)
    ensures (a / 100) as real + (a % 100) as real / 100.0 == a as real / 100.0
  {
    var q := a / 100;
    var r := a % 100;
    assert a == 100 * q + r;
    assert a as real == 100.0 * q as real + r as real;
  }

  /** parseCurrency reads a formatPercent rendering back as the magnitude of
      the value: the digits and the point survive, the sign and "%" do not. */
  lemma PercentReadsBack(d: BigDecimal)
    requires FormatPercent(Some(d)).Success?
    ensures var v := ValueOf(d);
            ParseCurrency(Some(FormatPercent(Some(d)).value)) == if v < 0.0 then -v else v
  {
    var u := SetScale2(d).value;
    assert FormatPercent(Some(d)).value == PlainScale2(u) + "%";
    RenderingReadsBack(u);
    assert u as real / 100.0 == ValueOf(d);
  }

  /** formatNumber: "0" for a missing number; otherwise the locale's
      rendering, which is given. */
  function FormatNumber<N>(value: Option<N>, localeFormat: N -> string): (r: string)
    ensures value.None? ==> r == "0"
  {
    if value.None? then "0" else localeFormat(value.value)
  }

  /** formatDate and formatDateTime: "" for a missing date; otherwise the
      pattern's rendering, which is given. */
  function FormatDate<D>(date: Option<D>, pattern: D -> string): (r: string)
    ensures date.None? ==> r == ""
  {
    if date.None? then "" else pattern(date.value)
  }
}
