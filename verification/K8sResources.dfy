/**
 Kubernetes CPU and memory quantities: the printers and the parsers, down to digit strings, with exact
 decimals. Parsing what was printed gives the quantity back.
 */
module K8sResources {
  import opened Text
  import opened Decimal

  /** Math.round, on exact numbers: halves go up. */
  function Round(x: real): int {
    (x + 0.5).Floor
  }

  function Pow10(n: nat): real
    ensures Pow10(n) > 0.0
  {
    if n == 0 then 1.0 else 10.0 * Pow10(n - 1)
  }

  /** The value of digits with `n` of them after the decimal point. */
  function DecimalOf(whole: string, fraction: string): real
    requires AllDigits(whole) && AllDigits(fraction)
  {
    NatOf(whole) as real + NatOf(fraction) as real / Pow10(|fraction|)
  }

  /** The exponent part at the start of `s`, if there is a complete one. */
  function ExponentOf(s: string): int {
    if s == "" || (s[0] != 'e' && s[0] != 'E') then 0
    else
      var negative := |s| > 1 && s[1] == '-';
      var digits := LeadingDigits(if |s| > 1 && (s[1] == '-' || s[1] == '+') then s[2..] else s[1..]);
      var n: int := NatOf(digits);
      if negative then -n else n
  }

  function Scaled(x: real, exponent: int): real {
    if exponent >= 0 then x * Pow10(exponent) else x / Pow10(-exponent)
  }

  /** parseFloat, but for Infinity: the longest decimal literal at the start, after white space; None is NaN. */
  function ParseFloat(s: string): Option<real> {
    var t := TrimLeft(s, JsSpace);
    var negative := t != "" && t[0] == '-';
    var body := if t != "" && (t[0] == '-' || t[0] == '+') then t[1..] else t;
    var whole := LeadingDigits(body);
    var rest := body[|whole|..];
    var fraction := if rest != "" && rest[0] == '.' then LeadingDigits(rest[1..]) else "";
    var end := if rest != "" && rest[0] == '.' then rest[1 + |fraction|..] else rest;
    if whole == "" && fraction == "" then None
    else
      var x := Scaled(DecimalOf(whole, fraction), ExponentOf(end));
      Some(if negative then -x else x)
  }

  function ParseCpuToMilli(cpu: string): int {
    var trimmed := Trim(cpu, JsSpace);
    if trimmed == "" then 0
    else if trimmed[|trimmed| - 1] == 'm' then
      match ParseInt(trimmed[..|trimmed| - 1])
      case Some(n) => if n > 0 then n else 0
      case None => 0
    else
      match ParseFloat(trimmed)
      case Some(x) => Round((if x > 0.0 then x else 0.0) * 1000.0)
      case None => 0
  }

  /** A number with at most one decimal, given in tenths, as String prints it. */
  function ShowTenths(tenths: nat): string {
    if tenths % 10 == 0 then ShowNat(tenths / 10) else ShowNat(tenths / 10) + "." + ShowNat(tenths % 10)
  }

  function FormatMilliToCpu(milli: int, preferCores: bool): string {
    if milli <= 0 then "0m"
    else if preferCores && milli % 100 == 0 then ShowTenths(milli / 100)
    else ShowNat(milli) + "m"
  }

  predicate IsLetter(c: char) {
    'a' <= c <= 'z' || 'A' <= c <= 'Z'
  }

  /** The number and the unit of a memory quantity, if the whole text is one. */
  function MatchMemory(s: string): Option<(real, string)> {
    var whole := LeadingDigits(s);
    var rest := s[|whole|..];
    var fraction := if rest != "" && rest[0] == '.' then LeadingDigits(rest[1..]) else "";
    var end := if fraction != "" then rest[1 + |fraction|..] else rest;
    var unit := TrimLeft(end, JsSpace);
    if whole != "" && forall i :: 0 <= i < |unit| ==> IsLetter(unit[i]) then
      Some((DecimalOf(whole, fraction), unit))
    else None
  }

  function ParseMemoryToMiB(memory: string): int {
    var trimmed := Trim(memory, JsSpace);
    match MatchMemory(trimmed)
    case None => 0
    case Some((n, unit)) =>
      if unit == "Ki" then Round(n / 1024.0)
      else if unit == "Mi" || unit == "M" then Round(n)
      else if unit == "Gi" || unit == "G" then Round(n * 1024.0)
      else if unit == "Ti" || unit == "T" then Round(n * 1024.0 * 1024.0)
      else if unit == "" then Round(n / (1024.0 * 1024.0))
      else Round(n)
  }

  function FormatMiBToMemory(mib: int): string {
    if mib <= 0 then "0Mi"
    else if mib >= 1024 && mib % 512 == 0 then
      // half steps: the number of GiB in tenths
      ShowTenths(mib / 512 * 5) + "Gi"
    else ShowNat(mib) + "Mi"
  }

  // Printing, then parsing.

  lemma {:induction false} NotTrimmed(s: string)
    requires s != "" && !JsSpace(s[0]) && !JsSpace(s[|s| - 1])
    ensures Trim(s, JsSpace) == s && TrimLeft(s, JsSpace) == s
  {
  }

  lemma DigitsStart(n: nat, tail: string)
    ensures var s := ShowNat(n) + tail;
            s != "" && IsDigit(s[0]) && !JsSpace(s[0]) && s[0] != '-' && s[0] != '+'
  {
    assert (ShowNat(n) + tail)[0] == ShowNat(n)[0];
  }

  lemma OneDigit(d: nat)
    requires d < 10
    ensures |ShowNat(d)| == 1 && NatOf(ShowNat(d)) == d
  {
    NatOfShowNat(d);
  }

  lemma ZeroFraction(n: nat)
    ensures DecimalOf(ShowNat(n), "") == n as real
  {
    NatOfShowNat(n);
    assert Pow10(0) == 1.0;
  }

  lemma TenthFraction(n: nat, d: nat)
    requires d < 10
    ensures DecimalOf(ShowNat(n), ShowNat(d)) == n as real + d as real / 10.0
  {
    NatOfShowNat(n);
    OneDigit(d);
    assert Pow10(1) == 10.0 * Pow10(0) == 10.0;
  }

  /** `s` starts with the digits `whole`, perhaps a point and the digits `fraction`, and goes on with `tail`. */
  ghost predicate Reads(s: string, whole: string, fraction: string, tail: string) {
    && IsNumeral(whole) && AllDigits(fraction)
    && LeadingDigits(s) == whole
    && (if fraction == "" then s[|whole|..] == tail
        else var rest := s[|whole|..];
             rest != "" && rest[0] == '.' && LeadingDigits(rest[1..]) == fraction && rest[1 + |fraction|..] == tail)
  }

  function FractionOf(tenths: nat): (fraction: string)
    ensures AllDigits(fraction)
  {
    if tenths % 10 == 0 then "" else ShowNat(tenths % 10)
  }

  lemma TenthsText(tenths: nat, tail: string)
    ensures ShowTenths(tenths) + tail ==
            if tenths % 10 == 0 then ShowNat(tenths / 10) + tail
            else ShowNat(tenths / 10) + ("." + (ShowNat(tenths % 10) + tail))
  {
    hide ShowNat;
    var a, b := ShowNat(tenths / 10), ShowNat(tenths % 10);
    assert a + "." + b + tail == a + ("." + (b + tail));
  }

  lemma WholeRead(whole: string, tail: string)
    requires IsNumeral(whole) && (tail != "" ==> !IsDigit(tail[0]))
    ensures Reads(whole + tail, whole, "", tail)
  {
    LeadingDigitsOf(whole, tail);
  }

  lemma PointRead(whole: string, fraction: string, tail: string)
    requires IsNumeral(whole) && IsNumeral(fraction) && (tail != "" ==> !IsDigit(tail[0]))
    ensures Reads(whole + ("." + (fraction + tail)), whole, fraction, tail)
  {
    hide LeadingDigits;
    var rest := "." + (fraction + tail);
    LeadingDigitsOf(whole, rest);
    assert (whole + rest)[|whole|..] == rest && rest[1..] == fraction + tail;
    LeadingDigitsOf(fraction, tail);
    assert rest[1 + |fraction|..] == tail;
  }

  lemma TenthsSplit(tenths: nat)
    ensures (tenths / 10) as real + (tenths % 10) as real / 10.0 == tenths as real / 10.0
    ensures tenths % 10 == 0 ==> (tenths / 10) as real == tenths as real / 10.0
  {
    var n, d := tenths / 10, tenths % 10;
    assert tenths == 10 * n + d;
    assert tenths as real == 10.0 * n as real + d as real;
  }

  /** The digits of a printed number of tenths and what they are worth. */
  lemma TenthsRead(tenths: nat, tail: string)
    requires tail != "" ==> !IsDigit(tail[0]) && tail[0] != '.'
    ensures Reads(ShowTenths(tenths) + tail, ShowNat(tenths / 10), FractionOf(tenths), tail)
    ensures DecimalOf(ShowNat(tenths / 10), FractionOf(tenths)) == tenths as real / 10.0
  {
    var n, d := tenths / 10, tenths % 10;
    hide ShowNat, NatOf, LeadingDigits, DecimalOf, ShowTenths, Reads;
    TenthsSplit(tenths);
    TenthsText(tenths, tail);
    if d == 0 {
      WholeRead(ShowNat(n), tail);
      ZeroFraction(n);
    } else {
      PointRead(ShowNat(n), ShowNat(d), tail);
      TenthFraction(n, d);
    }
  }

  /** Tenths of a core in millicores, tenths of a GiB in MiB, tenths of a MiB in MiB. */
  lemma TenthsRounded(tenths: nat)
    ensures Round(tenths as real / 10.0 * 1000.0) == 100 * tenths
    ensures tenths % 5 == 0 ==> Round(tenths as real / 10.0 * 1024.0) == tenths / 5 * 512
    ensures tenths % 10 == 0 ==> Round(tenths as real / 10.0) == tenths / 10
  {
    var x := tenths as real;
    assert x / 10.0 * 1000.0 == (100 * tenths) as real;
    if tenths % 5 == 0 {
      var h := tenths / 5;
      assert tenths == 5 * h;
      assert x / 10.0 * 1024.0 == (512 * h) as real;
    }
    if tenths % 10 == 0 {
      var n := tenths / 10;
      assert tenths == 10 * n;
      assert x / 10.0 == n as real;
    }
  }

  lemma NoExponent(x: real)
    ensures ExponentOf("") == 0 && Scaled(x, 0) == x
  {
    assert Pow10(0) == 1.0;
  }

  /** parseFloat reads a text that is nothing but a decimal. */
  lemma FloatRead(s: string, whole: string, fraction: string)
    requires s != "" && IsDigit(s[0]) && Reads(s, whole, fraction, "")
    ensures ParseFloat(s) == Some(DecimalOf(whole, fraction))
  {
    DigitStarts(s[0]);
    NoExponent(DecimalOf(whole, fraction));
    hide JsSpace, LeadingDigits, DecimalOf, ExponentOf, Scaled, IsDigit;
  }

  /** A printed number of tenths starts and ends with a digit. */
  lemma TenthsPlain(tenths: nat)
    ensures var s := ShowTenths(tenths); s != "" && IsDigit(s[0]) && IsDigit(s[|s| - 1])
  {
    var n, d := ShowNat(tenths / 10), ShowNat(tenths % 10);
    assert IsDigit(n[0]) && IsDigit(n[|n| - 1]) && IsDigit(d[|d| - 1]);
  }

  lemma ParseTenths(tenths: nat)
    requires tenths > 0
    ensures ParseFloat(ShowTenths(tenths)) == Some(tenths as real / 10.0)
  {
    hide ShowNat, DecimalOf, ShowTenths, Reads, ParseFloat;
    var s := ShowTenths(tenths);
    TenthsPlain(tenths);
    assert s + "" == s;
    TenthsRead(tenths, "");
    FloatRead(s, ShowNat(tenths / 10), FractionOf(tenths));
  }

  lemma ParseCores(tenths: nat)
    requires tenths > 0
    ensures ParseCpuToMilli(ShowTenths(tenths)) == 100 * tenths
  {
    hide ShowNat, ShowTenths, ParseFloat, ParseInt, Round, Trim, TrimLeft, TrimRight;
    var s := ShowTenths(tenths);
    TenthsPlain(tenths);
    NotTrimmed(s);
    ParseTenths(tenths);
    TenthsRounded(tenths);
    assert tenths as real / 10.0 > 0.0;
  }

  lemma ParseMilli(milli: nat)
    ensures ParseCpuToMilli(ShowNat(milli) + "m") == milli
    ensures ShowNat(0) == "0"
  {
    var digits := ShowNat(milli);
    var s := digits + "m";
    DigitsStart(milli, "m");
    NotTrimmed(s);
    assert s[..|s| - 1] == digits + "";
    ParseIntOf(digits, "");
    NatOfShowNat(milli);
  }

  /**
   For every number of millicores, in both printing modes: parsing the print gives it back, and 0 for one that
   is not positive.
   */
  lemma CpuRoundTrip(milli: int, preferCores: bool)
    ensures ParseCpuToMilli(FormatMilliToCpu(milli, preferCores)) == if milli > 0 then milli else 0
  {
    hide ShowNat, ShowTenths, ParseCpuToMilli;
    if milli <= 0 {
      ParseMilli(0);
      assert "0" + "m" == "0m";
    } else if preferCores && milli % 100 == 0 {
      ParseCores(milli / 100);
    } else {
      ParseMilli(milli);
    }
  }

  lemma ShowZero()
    ensures ShowNat(0) == "0"
  {
  }

  lemma MatchRead(s: string, whole: string, fraction: string, unit: string)
    requires Reads(s, whole, fraction, unit)
    requires unit != "" && forall i :: 0 <= i < |unit| ==> IsLetter(unit[i])
    ensures MatchMemory(s) == Some((DecimalOf(whole, fraction), unit))
  {
    hide LeadingDigits, DecimalOf, NatOf, Trim;
    assert IsLetter(unit[0]) && IsLetter(unit[|unit| - 1]);
    NotTrimmed(unit);
  }

  lemma ParseUnit(tenths: nat, unit: string)
    requires unit == "Mi" || unit == "Gi"
    ensures var s := ShowTenths(tenths) + unit;
            Trim(s, JsSpace) == s && MatchMemory(s) == Some((tenths as real / 10.0, unit))
  {
    hide ShowNat, NatOf, LeadingDigits, DecimalOf, ShowTenths, Trim, Reads, MatchMemory;
    var s := ShowTenths(tenths) + unit;
    TenthsPlain(tenths);
    assert s[0] == ShowTenths(tenths)[0];
    NotTrimmed(s);
    TenthsRead(tenths, unit);
    assert forall i :: 0 <= i < |unit| ==> IsLetter(unit[i]);
    MatchRead(s, ShowNat(tenths / 10), FractionOf(tenths), unit);
  }

  lemma ParsePrinted(tenths: nat, unit: string)
    requires (unit == "Mi" && tenths % 10 == 0) || (unit == "Gi" && tenths % 5 == 0)
    ensures ParseMemoryToMiB(ShowTenths(tenths) + unit) == if unit == "Mi" then tenths / 10 else tenths / 5 * 512
  {
    hide ShowTenths, MatchMemory, Trim, Round;
    ParseUnit(tenths, unit);
    TenthsRounded(tenths);
  }

  lemma HalvesRead(halves: nat)
    ensures ParseMemoryToMiB(ShowTenths(halves * 5) + "Gi") == halves * 512
  {
    assert halves * 5 % 5 == 0 && halves * 5 / 5 == halves;
    hide ShowTenths, ParseMemoryToMiB;
    ParsePrinted(halves * 5, "Gi");
  }

  lemma MiBRead(n: nat)
    ensures ParseMemoryToMiB(ShowNat(n) + "Mi") == n
  {
    hide ParseMemoryToMiB, ShowNat;
    assert 10 * n % 10 == 0 && 10 * n / 10 == n;
    assert ShowTenths(10 * n) == ShowNat(n);
    hide ShowTenths;
    ParsePrinted(10 * n, "Mi");
  }

  /** For every number of MiB, in the Mi form and in the half-step Gi form. */
  lemma MemoryRoundTrip(mib: int)
    ensures ParseMemoryToMiB(FormatMiBToMemory(mib)) == if mib > 0 then mib else 0
  {
    hide ShowNat, ShowTenths, ParseMemoryToMiB;
    if mib >= 1024 && mib % 512 == 0 {
      HalvesRead(mib / 512);
    } else {
      MiBRead(if mib > 0 then mib else 0);
      ShowZero();
      assert "0" + "Mi" == "0Mi";
    }
  }

  // What is printed, and what else is read.

  /** Cores with at most one decimal where they are asked for and exact, else millicores. */
  lemma CpuText(milli: int, preferCores: bool)
    ensures FormatMilliToCpu(milli, preferCores) ==
            if milli <= 0 then "0m"
            else if !preferCores || milli % 100 != 0 then ShowNat(milli) + "m"
            else if milli % 1000 == 0 then ShowNat(milli / 1000)
            else ShowNat(milli / 1000) + "." + ShowNat(milli % 1000 / 100)
  {
    hide ShowNat;
    if milli > 0 {
      var hundreds := milli / 100;
      assert milli % 100 == 0 ==> milli == 100 * hundreds;
      assert hundreds / 10 == milli / 1000 && hundreds % 10 == milli % 1000 / 100;
    }
  }

  /** GiB from one up, where they are whole or end in a half, else MiB. */
  lemma MemoryText(mib: int)
    ensures FormatMiBToMemory(mib) ==
            if mib <= 0 then "0Mi"
            else if mib < 1024 || mib % 512 != 0 then ShowNat(mib) + "Mi"
            else if mib % 1024 == 0 then ShowNat(mib / 1024) + "Gi"
            else ShowNat(mib / 1024) + "." + ShowNat(5) + "Gi"
  {
    hide ShowNat;
    if mib >= 1024 && mib % 512 == 0 {
      var halves := mib / 512;
      assert mib == 512 * halves;
      assert halves * 5 % 10 == if halves % 2 == 0 then 0 else 5;
      assert halves * 5 / 10 == halves / 2;
    }
  }

  lemma WholeMatched(n: nat, unit: string)
    requires forall i :: 0 <= i < |unit| ==> IsLetter(unit[i])
    ensures var s := ShowNat(n) + unit; Trim(s, JsSpace) == s && MatchMemory(s) == Some((n as real, unit))
  {
    var digits := ShowNat(n);
    DigitsStart(n, unit);
    assert unit != "" ==> IsLetter(unit[|unit| - 1]);
    NotTrimmed(digits + unit);
    ZeroFraction(n);
    hide ShowNat, NatOf, DecimalOf, Trim;
    if unit == "" {
      assert digits + unit == digits;
      WholeRead(digits, "");
    } else {
      WholeRead(digits, unit);
      MatchRead(digits + unit, digits, "", unit);
    }
  }

  lemma WholeKi(n: nat)
    ensures Round(n as real / 1024.0) == (n + 512) / 1024
  {
    var q, r := (n + 512) / 1024, (n + 512) % 1024;
    assert n as real == 1024.0 * q as real + r as real - 512.0;
    assert n as real / 1024.0 + 0.5 == q as real + r as real / 1024.0;
  }

  lemma WholeBytes(n: nat)
    ensures Round(n as real / (1024.0 * 1024.0)) == (n + 524288) / 1048576
  {
    var q, r := (n + 524288) / 1048576, (n + 524288) % 1048576;
    assert n as real == 1048576.0 * q as real + r as real - 524288.0;
    assert n as real / 1048576.0 + 0.5 == q as real + r as real / 1048576.0;
  }

  lemma WholeMore(n: nat)
    ensures Round(n as real) == n && Round(n as real * 1024.0) == n * 1024
    ensures Round(n as real * 1024.0 * 1024.0) == n * 1048576
  {
    assert n as real * 1024.0 == (n * 1024) as real;
    assert n as real * 1024.0 * 1024.0 == (n * 1048576) as real;
  }

  /** What a quantity of each unit is worth in MiB. */
  lemma UnitRead(s: string, x: real, unit: string)
    requires Trim(s, JsSpace) == s && MatchMemory(s) == Some((x, unit))
    ensures unit == "" ==> ParseMemoryToMiB(s) == Round(x / (1024.0 * 1024.0))
    ensures unit == "Ki" ==> ParseMemoryToMiB(s) == Round(x / 1024.0)
    ensures unit == "Mi" || unit == "M" ==> ParseMemoryToMiB(s) == Round(x)
    ensures unit == "Gi" || unit == "G" ==> ParseMemoryToMiB(s) == Round(x * 1024.0)
    ensures unit == "Ti" || unit == "T" ==> ParseMemoryToMiB(s) == Round(x * 1024.0 * 1024.0)
  {
    hide MatchMemory, Trim, Round, JsSpace;
  }

  lemma LettersOf(unit: string)
    requires unit in ["", "Ki", "Mi", "M", "Gi", "G", "Ti", "T"]
    ensures forall i :: 0 <= i < |unit| ==> IsLetter(unit[i])
  {
  }

  lemma InUnit(n: nat, unit: string)
    requires unit in ["", "Ki", "Mi", "M", "Gi", "G", "Ti", "T"]
    ensures unit == "" ==> ParseMemoryToMiB(ShowNat(n) + unit) == (n + 524288) / 1048576
    ensures unit == "Ki" ==> ParseMemoryToMiB(ShowNat(n) + unit) == (n + 512) / 1024
    ensures unit == "Mi" || unit == "M" ==> ParseMemoryToMiB(ShowNat(n) + unit) == n
    ensures unit == "Gi" || unit == "G" ==> ParseMemoryToMiB(ShowNat(n) + unit) == 1024 * n
    ensures unit == "Ti" || unit == "T" ==> ParseMemoryToMiB(ShowNat(n) + unit) == 1048576 * n
  {
    LettersOf(unit);
    WholeMatched(n, unit);
    UnitRead(ShowNat(n) + unit, n as real, unit);
    WholeBytes(n);
    WholeKi(n);
    WholeMore(n);
    hide *;
  }

  /** A whole number of any unit is read in MiB, rounded with halves up. Without a unit it counts bytes. */
  lemma WholeMemory(n: nat)
    ensures ParseMemoryToMiB(ShowNat(n)) == (n + 524288) / 1048576
    ensures ParseMemoryToMiB(ShowNat(n) + "Ki") == (n + 512) / 1024
    ensures ParseMemoryToMiB(ShowNat(n) + "Mi") == ParseMemoryToMiB(ShowNat(n) + "M") == n
    ensures ParseMemoryToMiB(ShowNat(n) + "Gi") == ParseMemoryToMiB(ShowNat(n) + "G") == 1024 * n
    ensures ParseMemoryToMiB(ShowNat(n) + "Ti") == ParseMemoryToMiB(ShowNat(n) + "T") == 1048576 * n
  {
    hide ParseMemoryToMiB, ShowNat;
    InUnit(n, "");
    InUnit(n, "Ki");
    InUnit(n, "Mi");
    InUnit(n, "M");
    InUnit(n, "Gi");
    InUnit(n, "G");
    InUnit(n, "Ti");
    InUnit(n, "T");
    assert ShowNat(n) + "" == ShowNat(n);
  }
}
