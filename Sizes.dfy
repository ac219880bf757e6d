/**
 * Human-readable sizes: sizeToBytes reads "<number> <unit>" (units B, KB,
 * MB, GB, base 1024), formatSize writes a byte count as "N.00 GB" or
 * "N.00 MB".  Numbers are exact decimals truncated toward zero.
 */
module Sizes {
  import opened Wrappers
  import opened GoStrings
  import opened GoStrconv

  const MiB: nat := 1024 * 1024
  const GiB: nat := 1024 * 1024 * 1024

  /** The value of a `%f` token: (-1 if negative) * mantissa / 10^scale. */
  datatype Decimal = Decimal(negative: bool, mantissa: nat, scale: nat)

  datatype SizeError =
    | NoNumber                  // no float at the start
    | NoUnit                    // no blank-separated unit after it
    | InvalidUnit(unit: string) // a unit other than B, KB, MB, GB

  /** Length of the run of decimal digits at the head of `s`. */
  function DigitRun(s: string): (n: nat)
    ensures n <= |s| && AllDigits(s[..n])
    ensures n < |s| ==> !IsDigit(s[n])
  {
    if |s| > 0 && IsDigit(s[0]) then
      var n := 1 + DigitRun(s[1..]);
      assert s[..n] == [s[0]] + s[1..][..n - 1];
      n
    else 0
  }

  /** A blank that the space in the format "%f %s" may match: white space except a newline. */
  predicate IsBlank(c: char) { IsSpace(c) && c != '\n' }

  /** Length of the run of blanks at the head of `s`. */
  function BlankRun(s: string): (n: nat)
    ensures n <= |s| && forall i :: 0 <= i < n ==> IsBlank(s[i])
    ensures n < |s| ==> !IsBlank(s[n])
  {
    if |s| > 0 && IsBlank(s[0]) then 1 + BlankRun(s[1..]) else 0
  }

  /** Length of the token `%s` reads at the head of `s`: everything up to white space. */
  function TokenRun(s: string): (n: nat)
    ensures n <= |s| && forall i :: 0 <= i < n ==> !IsSpace(s[i])
    ensures n < |s| ==> IsSpace(s[n])
  {
    if |s| > 0 && !IsSpace(s[0]) then 1 + TokenRun(s[1..]) else 0
  }

  /** Length of the sign `%f` accepts at the head of `s`. */
  function SignLength(s: string): (n: nat)
    ensures n <= |s|
  {
    if |s| > 0 && (s[0] == '-' || s[0] == '+') then 1 else 0
  }

  /** The unsigned part of a `%f` token: digits, an optional point and more
      digits, at least one digit in all; the decimal and the length read. */
  function ScanUnsigned(s: string, negative: bool): (r: Option<(Decimal, nat)>)
    ensures r.Some? ==> r.value.1 <= |s|
  {
    var d1 := DigitRun(s);
    if d1 < |s| && s[d1] == '.' then
      var d2 := DigitRun(s[d1 + 1..]);
      var digits := s[..d1] + s[d1 + 1..][..d2];
      assert AllDigits(digits);
      if d1 + d2 == 0 then None
      else Some((Decimal(negative, DigitsValue(digits), d2), d1 + 1 + d2))
    else if d1 == 0 then None
    else Some((Decimal(negative, DigitsValue(s[..d1]), 0), d1))
  }

  /** The `%f` verb: an optional sign, then the unsigned part. */
  function ScanDecimal(s: string): (r: Option<(Decimal, nat)>)
    ensures r.Some? ==> r.value.1 <= |s|
  {
    var i := SignLength(s);
    match ScanUnsigned(s[i..], |s| > 0 && s[0] == '-')
    case None => None
    case Some((x, n)) => Some((x, i + n))
  }

  /** The unit table, matched after strings.ToUpper: the power of 1024 of each unit. */
  function UnitExponent(unit: string): Option<nat> {
    if unit == "GB" then Some(3)
    else if unit == "MB" then Some(2)
    else if unit == "KB" then Some(1)
    else if unit == "B" then Some(0)
    else None
  }

  function Pow1024(k: nat): (p: nat)
    ensures p >= 1
  {
    if k == 0 then 1 else 1024 * Pow1024(k - 1)
  }

  /** m * 1024^k, one factor of 1024 at a time. */
  function Times1024(m: nat, k: nat): nat {
    if k == 0 then m else 1024 * Times1024(m, k - 1)
  }

  /** v / 10^s truncated, one decimal digit at a time (nested truncating
      divisions compose, so this is the truncated quotient). */
  function Shed10(v: nat, s: nat): nat {
    if s == 0 then v else Shed10(v / 10, s - 1)
  }

  /** int64(x * 1024^k): the product, truncated toward zero. */
  function ToBytes(x: Decimal, k: nat): int {
    var m: int := Shed10(Times1024(x.mantissa, k), x.scale);
    if x.negative then -m else m
  }

  /** The " %s" part of the format: at least one blank, then the token up to
      the next white space; a newline before the token is an error. */
  function ScanUnit(s: string): Option<string> {
    var blanks := BlankRun(s);
    var rest := s[blanks..];
    if blanks == 0 || rest == [] || rest[0] == '\n' then None
    else Some(rest[..TokenRun(rest)])
  }

  /** sizeToBytes: fmt.Sscanf(strings.TrimSpace(s), "%f %s") and the unit switch. */
  function SizeToBytes(sizeStr: string): Result<int, SizeError> {
    var s := TrimSpace(sizeStr);
    match ScanDecimal(s)
    case None => Err(NoNumber)
    case Some((x, n)) =>
      match ScanUnit(s[n..])
      case None => Err(NoUnit)
      case Some(unit) => InUnit(x, unit)
  }

  /** The switch on strings.ToUpper(unit): the number in that unit, or an error. */
  function InUnit(x: Decimal, unit: string): Result<int, SizeError> {
    match UnitExponent(ToUpper(unit))
    case None => Err(InvalidUnit(unit))
    case Some(k) => Ok(ToBytes(x, k))
  }

  /** Go's integer division, which truncates toward zero. */
  function TruncDiv(a: int, b: nat): int
    requires b > 0
  {
    if a >= 0 then a / b else -((-a) / b)
  }

  /** fmt.Sprintf("%.2f", float64(q)) for a whole number q (|q| < 2^53, so the float is exact). */
  function FixedTwo(q: int): string {
    IntToString(q) + ".00"
  }

  /** formatSize: a decimal byte count as whole gigabytes or whole megabytes;
      text that is not an integer counts as 0. */
  function FormatSize(strSize: string): string {
    var size := AtoiOrZero(strSize);
    if size >= GiB then FixedTwo(TruncDiv(size, GiB)) + " GB"
    else FixedTwo(TruncDiv(size, MiB)) + " MB"
  }

  /** The text "<sign><whole>[.<frac>]". */
  function NumberText(sign: string, whole: string, frac: string): string {
    sign + whole + (if frac == [] then "" else "." + frac)
  }

  predicate IsSign(sign: string) { sign == "" || sign == "-" || sign == "+" }

  /** The decimal a number text denotes. */
  function NumberValue(sign: string, whole: string, frac: string): Decimal
    requires AllDigits(whole) && AllDigits(frac)
  {
    DigitsValueAppend(whole, frac);
    Decimal(sign == "-", DigitsValue(whole + frac), |frac|)
  }

  // ----- reading a well-formed size -----

  lemma {:induction false} DigitRunOf(ds: string, tail: string)
    requires AllDigits(ds)
    requires tail == [] || !IsDigit(tail[0])
    ensures DigitRun(ds + tail) == |ds|
  {
    if ds != [] {
      assert (ds + tail)[1..] == ds[1..] + tail;
      DigitRunOf(ds[1..], tail);
    } else {
      assert ds + tail == tail;
    }
  }

  lemma {:induction false} TokenRunOf(token: string, tail: string)
    requires forall i :: 0 <= i < |token| ==> !IsSpace(token[i])
    requires tail == [] || IsSpace(tail[0])
    ensures TokenRun(token + tail) == |token|
  {
    if token != [] {
      assert (token + tail)[1..] == token[1..] + tail;
      TokenRunOf(token[1..], tail);
    } else {
      assert token + tail == tail;
    }
  }

  lemma ScanUnsignedOf(whole: string, frac: string, tail: string, negative: bool)
    requires |whole| >= 1 && AllDigits(whole) && AllDigits(frac)
    requires |tail| >= 1 && IsSpace(tail[0])
    ensures AllDigits(whole + frac)
    ensures ScanUnsigned(NumberText("", whole, frac) + tail, negative)
         == Some((Decimal(negative, DigitsValue(whole + frac), |frac|), |NumberText("", whole, frac)|))
  {
    var s := NumberText("", whole, frac) + tail;
    NumberTextSplit(whole, frac, tail);
    if frac == [] {
      ScanWholeAt(s, whole, negative);
    } else {
      ScanPointAt(s, whole, frac, negative);
    }
  }

  /** Where the digits, the point and the tail sit in "<whole>[.<frac>]<tail>". */
  lemma NumberTextSplit(whole: string, frac: string, tail: string)
    requires |tail| >= 1
    ensures var s := NumberText("", whole, frac) + tail;
      && s[..|whole|] == whole
      && (frac == [] ==> |NumberText("", whole, frac)| == |whole| && whole + frac == whole
                         && |whole| < |s| && s[|whole|] == tail[0])
      && (frac != [] ==> |NumberText("", whole, frac)| == |whole| + 1 + |frac| && |whole| + 1 + |frac| < |s|
                         && s[|whole|] == '.' && s[|whole| + 1..][..|frac|] == frac
                         && s[|whole| + 1 + |frac|] == tail[0])
  {
    var s := NumberText("", whole, frac) + tail;
    if frac == [] {
      assert s == whole + tail;
    } else {
      assert s == whole + ['.'] + frac + tail;
      assert s[|whole| + 1..] == frac + tail;
    }
  }

  /** "<whole>" followed by white space: the unsigned part is the whole number. */
  lemma ScanWholeAt(s: string, whole: string, negative: bool)
    requires |whole| >= 1 && AllDigits(whole) && |whole| < |s|
    requires s[..|whole|] == whole && IsSpace(s[|whole|])
    ensures ScanUnsigned(s, negative) == Some((Decimal(negative, DigitsValue(whole), 0), |whole|))
  {
    assert s == whole + s[|whole|..];
    DigitRunOf(whole, s[|whole|..]);
  }

  /** "<whole>.<frac>" followed by white space: the digits on both sides of the
      point make the mantissa, the fraction's length the scale. */
  lemma ScanPointAt(s: string, whole: string, frac: string, negative: bool)
    requires |whole| >= 1 && AllDigits(whole) && |frac| >= 1 && AllDigits(frac)
    requires |whole| + 1 + |frac| < |s|
    requires s[..|whole|] == whole && s[|whole|] == '.' && s[|whole| + 1..][..|frac|] == frac
    requires IsSpace(s[|whole| + 1 + |frac|])
    ensures AllDigits(whole + frac)
    ensures ScanUnsigned(s, negative) == Some((Decimal(negative, DigitsValue(whole + frac), |frac|), |whole| + 1 + |frac|))
  {
    assert s == whole + s[|whole|..];
    DigitRunOf(whole, s[|whole|..]);
    var rest := s[|whole| + 1..];
    assert rest == frac + rest[|frac|..];
    DigitRunOf(frac, rest[|frac|..]);
    ScanPointed(s, |whole|, |frac|, negative);
    assert s[..|whole|] + rest[..|frac|] == whole + frac;
  }

  /** ScanUnsigned once the digit runs around the point are known. */
  lemma ScanPointed(s: string, d1: nat, d2: nat, negative: bool)
    requires d1 < |s| && DigitRun(s) == d1 && s[d1] == '.' && DigitRun(s[d1 + 1..]) == d2 && d1 + d2 > 0
    ensures AllDigits(s[..d1] + s[d1 + 1..][..d2])
    ensures ScanUnsigned(s, negative)
         == Some((Decimal(negative, DigitsValue(s[..d1] + s[d1 + 1..][..d2]), d2), d1 + 1 + d2))
  {
  }

  lemma ScanDecimalOf(sign: string, whole: string, frac: string, tail: string)
    requires IsSign(sign) && |whole| >= 1 && AllDigits(whole) && AllDigits(frac)
    requires |tail| >= 1 && IsSpace(tail[0])
    ensures ScanDecimal(NumberText(sign, whole, frac) + tail)
         == Some((NumberValue(sign, whole, frac), |NumberText(sign, whole, frac)|))
  {
    SignLayout(sign, whole, frac, tail);
    ScanUnsignedOf(whole, frac, tail, sign == "-");
  }

  lemma SignLayout(sign: string, whole: string, frac: string, tail: string)
    requires IsSign(sign) && |whole| >= 1 && AllDigits(whole)
    ensures var s := NumberText(sign, whole, frac) + tail;
      && SignLength(s) == |sign|
      && s[|sign|..] == NumberText("", whole, frac) + tail
      && ((|s| > 0 && s[0] == '-') == (sign == "-"))
  {
    var s := NumberText(sign, whole, frac) + tail;
    var unsigned := NumberText("", whole, frac) + tail;
    assert s == sign + unsigned;
    assert unsigned[0] == whole[0];
  }

  predicate IsToken(unit: string) {
    |unit| >= 1 && forall i :: 0 <= i < |unit| ==> !IsSpace(unit[i])
  }

  lemma ScanUnitOf(unit: string)
    requires IsToken(unit)
    ensures ScanUnit(" " + unit) == Some(unit)
  {
    assert BlankRun(" " + unit) == 1;
    assert (" " + unit)[1..] == unit;
    TokenRunOf(unit, []);
    assert unit + [] == unit;
  }

  /** How sizeToBytes reads "<sign><whole>[.<frac>] <unit>": the unit decides, case-insensitively. */
  lemma SizeToBytesOf(sign: string, whole: string, frac: string, unit: string)
    requires IsSign(sign) && |whole| >= 1 && AllDigits(whole) && AllDigits(frac)
    requires IsToken(unit)
    ensures SizeToBytes(NumberText(sign, whole, frac) + " " + unit) == InUnit(NumberValue(sign, whole, frac), unit)
  {
    var num := NumberText(sign, whole, frac);
    SpacedLayout(num, unit);
    NumberTextEnds(sign, whole, frac);
    ScanDecimalOf(sign, whole, frac, " " + unit);
    ScanUnitOf(unit);
    SizeToBytesReads(num + " " + unit, NumberValue(sign, whole, frac), |num|, unit);
  }

  /** sizeToBytes, given what its three readings find. */
  lemma SizeToBytesReads(s: string, x: Decimal, n: nat, unit: string)
    requires TrimSpace(s) == s && ScanDecimal(s) == Some((x, n)) && n <= |s| && ScanUnit(s[n..]) == Some(unit)
    ensures SizeToBytes(s) == InUnit(x, unit)
  {
  }

  /** A number text starts with a sign or a digit, and ends with a digit. */
  lemma NumberTextEnds(sign: string, whole: string, frac: string)
    requires IsSign(sign) && |whole| >= 1 && AllDigits(whole) && AllDigits(frac)
    ensures var num := NumberText(sign, whole, frac);
      |num| >= 1 && !IsSpace(num[0]) && IsDigit(num[|num| - 1])
  {
    var num := NumberText(sign, whole, frac);
    if frac == [] {
      assert num == sign + whole;
    } else {
      assert num == (sign + whole + ".") + frac;
    }
    if sign == "" {
      assert num[0] == whole[0];
    }
  }

  /** "<num> <unit>" splits after the number, and is trimmed already when its
      ends are not white space. */
  lemma SpacedLayout(num: string, unit: string)
    requires |num| >= 1 && IsToken(unit)
    ensures var s := num + " " + unit;
      && s == num + (" " + unit) && s[|num|..] == " " + unit
      && |s| == |num| + 1 + |unit| && s[0] == num[0] && s[|s| - 1] == unit[|unit| - 1]
      && (!IsSpace(num[0]) ==> TrimSpace(s) == s)
  {
    var s := num + " " + unit;
    assert s[0] == num[0];
    assert s[|s| - 1] == unit[|unit| - 1];
    if !IsSpace(num[0]) {
      TrimFuncIdentity(s, IsSpace);
    }
  }

  // ----- what the readings mean -----

  /** The four units of the table, written in upper case. */
  lemma UpperUnits()
    ensures UnitExponent(ToUpper("GB")) == Some(3) && UnitExponent(ToUpper("MB")) == Some(2)
    ensures UnitExponent(ToUpper("KB")) == Some(1) && UnitExponent(ToUpper("B")) == Some(0)
    ensures IsToken("GB") && IsToken("MB") && IsToken("KB") && IsToken("B")
    ensures " GB" == " " + "GB" && " MB" == " " + "MB" && " KB" == " " + "KB" && " B" == " " + "B"
  {
    assert ToUpper("GB") == "GB";
    assert ToUpper("MB") == "MB";
    assert ToUpper("KB") == "KB";
    assert ToUpper("B") == "B";
  }

  /** Helper: multiplying by a natural keeps the order. */
  lemma MulLeft(d: nat, x: nat, y: nat)
    requires x <= y
    ensures d * x <= d * y
  {
  }

  lemma {:induction false} Shed10Monotone(a: nat, b: nat, s: nat)
    requires a <= b
    ensures Shed10(a, s) <= Shed10(b, s)
  {
    if s > 0 {
      Shed10Monotone(a / 10, b / 10, s - 1);
    }
  }

  /** Adding 10^s to the dividend adds exactly one to the quotient. */
  lemma {:induction false} Shed10Step(v: nat, s: nat)
    ensures Shed10(v + Pow10(s), s) == Shed10(v, s) + 1
  {
    if s > 0 {
      assert (v + Pow10(s)) / 10 == v / 10 + Pow10(s - 1);
      Shed10Step(v / 10, s - 1);
    }
  }

  lemma {:induction false} Times1024AtLeast(m: nat, k: nat)
    ensures Times1024(m, k) >= m
  {
    if k > 0 {
      Times1024AtLeast(m, k - 1);
    }
  }

  /** For a non-negative number, a larger unit never gives fewer bytes, and
      gives strictly more once the number is at least 1. */
  lemma ToBytesUnitOrder(x: Decimal, k: nat)
    requires !x.negative
    ensures ToBytes(x, k) <= ToBytes(x, k + 1)
    ensures x.mantissa >= Pow10(x.scale) ==> ToBytes(x, k) < ToBytes(x, k + 1)
  {
    var w := Times1024(x.mantissa, k);
    assert Times1024(x.mantissa, k + 1) == 1024 * w;
    Shed10Monotone(w, 1024 * w, x.scale);
    if x.mantissa >= Pow10(x.scale) {
      Times1024AtLeast(x.mantissa, k);
      Shed10Step(w, x.scale);
      Shed10Monotone(w + Pow10(x.scale), 1024 * w, x.scale);
    }
  }

  /** sizeToBytes orders the units: "x GB" >= "x MB" >= "x KB" >= "x B" for x >= 0,
      strictly once the whole part of x is at least 1. */
  lemma SizeUnitsOrdered(whole: string, frac: string)
    requires |whole| >= 1 && AllDigits(whole) && AllDigits(frac)
    ensures var num := NumberText("", whole, frac);
      var gb, mb, kb, b := SizeToBytes(num + " GB"), SizeToBytes(num + " MB"),
                           SizeToBytes(num + " KB"), SizeToBytes(num + " B");
      && gb.Ok? && mb.Ok? && kb.Ok? && b.Ok?
      && gb.value >= mb.value >= kb.value >= b.value >= 0
      && (DigitsValue(whole) >= 1 ==> gb.value > mb.value > kb.value > b.value)
  {
    var x := NumberValue("", whole, frac);
    UpperUnits();
    ReadUnit(whole, frac, "GB", " GB", 3);
    ReadUnit(whole, frac, "MB", " MB", 2);
    ReadUnit(whole, frac, "KB", " KB", 1);
    ReadUnit(whole, frac, "B", " B", 0);
    UnitChain(x);
    if DigitsValue(whole) >= 1 {
      WholeAtLeastOne(whole, frac);
      UnitChainStrict(x);
    }
  }

  /** The byte counts of one non-negative number in the four units, in order. */
  lemma UnitChain(x: Decimal)
    requires !x.negative
    ensures ToBytes(x, 3) >= ToBytes(x, 2) >= ToBytes(x, 1) >= ToBytes(x, 0) >= 0
  {
    ToBytesUnitOrder(x, 0);
    ToBytesUnitOrder(x, 1);
    ToBytesUnitOrder(x, 2);
  }

  /** ... strictly once the number is at least 1. */
  lemma UnitChainStrict(x: Decimal)
    requires !x.negative && x.mantissa >= Pow10(x.scale)
    ensures ToBytes(x, 3) > ToBytes(x, 2) > ToBytes(x, 1) > ToBytes(x, 0)
  {
    ToBytesUnitOrder(x, 0);
    ToBytesUnitOrder(x, 1);
    ToBytesUnitOrder(x, 2);
  }

  /** A number whose whole part is at least 1 is at least 1. */
  lemma WholeAtLeastOne(whole: string, frac: string)
    requires AllDigits(whole) && AllDigits(frac) && DigitsValue(whole) >= 1
    ensures NumberValue("", whole, frac).mantissa >= Pow10(NumberValue("", whole, frac).scale)
  {
    DigitsValueAppend(whole, frac);
    var x := NumberValue("", whole, frac);
    assert x.mantissa == DigitsValue(whole + frac) && x.scale == |frac|;
    AtLeastShifted(DigitsValue(whole), Pow10(|frac|), DigitsValue(frac));
  }

  lemma AtLeastShifted(v: nat, p: nat, f: nat)
    requires v >= 1
    ensures v * p + f >= p
  {
    MulLeft(p, 1, v);
  }

  lemma ReadUnit(whole: string, frac: string, unit: string, spaced: string, k: nat)
    requires |whole| >= 1 && AllDigits(whole) && AllDigits(frac)
    requires IsToken(unit) && UnitExponent(ToUpper(unit)) == Some(k) && spaced == " " + unit
    ensures SizeToBytes(NumberText("", whole, frac) + spaced) == Ok(ToBytes(NumberValue("", whole, frac), k))
  {
    SizeToBytesOf("", whole, frac, unit);
    Spaced(NumberText("", whole, frac), unit, spaced);
  }

  /** Helper: the blank and the unit as one suffix. */
  lemma Spaced(num: string, unit: string, spaced: string)
    requires spaced == " " + unit
    ensures num + spaced == num + " " + unit
  {
  }

  /** The unit is matched case-insensitively: "x gb" and "x GB" read the same. */
  lemma SizeUnitCaseInsensitive(sign: string, whole: string, frac: string, u: string, v: string)
    requires IsSign(sign) && |whole| >= 1 && AllDigits(whole) && AllDigits(frac)
    requires IsToken(u) && IsToken(v)
    requires ToUpper(u) == ToUpper(v)
    ensures var a, b := SizeToBytes(NumberText(sign, whole, frac) + " " + u),
                        SizeToBytes(NumberText(sign, whole, frac) + " " + v);
      a.Ok? == b.Ok? && (a.Ok? ==> a == b)
  {
    SizeToBytesOf(sign, whole, frac, u);
    SizeToBytesOf(sign, whole, frac, v);
  }

  /** Text with no float at its head is rejected. */
  lemma SizeWithoutNumber(s: string)
    requires var t := TrimSpace(s); t == [] || !(IsDigit(t[0]) || t[0] == '+' || t[0] == '-' || t[0] == '.')
    ensures SizeToBytes(s) == Err(NoNumber)
  {
  }

  // ----- formatSize and its round trip -----

  /** Text that is not an integer is formatted as zero megabytes. */
  lemma FormatSizeNotInteger(s: string)
    requires Atoi(s).None?
    ensures FormatSize(s) == "0.00 MB"
  {
  }

  /** The sign and digits of q's rendering. */
  function SignOf(q: int): string { if q < 0 then "-" else "" }

  function Magnitude(q: int): nat { if q < 0 then -q else q }

  lemma FixedTwoText(q: int)
    ensures FixedTwo(q) == NumberText(SignOf(q), NatToString(Magnitude(q)), "00")
  {
    var digits := NatToString(Magnitude(q));
    assert IntToString(q) == SignOf(q) + digits;
    assert FixedTwo(q) == SignOf(q) + digits + ("." + "00");
  }

  /** Helper: the fraction digits "00" of a fixed-two text. */
  lemma DoubleZero()
    ensures AllDigits("00") && DigitsValue("00") == 0
  {
    assert "00"[..1] == "0";
    assert "0"[..0] == [];
  }

  lemma FixedTwoValue(q: int)
    ensures NumberValue(SignOf(q), NatToString(Magnitude(q)), "00") == Decimal(q < 0, Magnitude(q) * 100, 2)
  {
    var m := Magnitude(q);
    DoubleZero();
    DigitsValueAppend(NatToString(m), "00");
    DigitsValueNatToString(m);
    assert Pow10(2) == 100;
  }

  lemma {:induction false} Times1024Scale(m: nat, c: nat, k: nat)
    ensures Times1024(c * m, k) == c * Times1024(m, k)
  {
    if k > 0 {
      Times1024Scale(m, c, k - 1);
    }
  }

  lemma HundredthsToBytes(negative: bool, m: nat, k: nat)
    ensures ToBytes(Decimal(negative, m * 100, 2), k) == if negative then -(Times1024(m, k) as int) else Times1024(m, k)
  {
    var t := Times1024(m, k);
    Times1024Scale(m, 100, k);
    assert m * 100 == 100 * m;
    assert Shed10(100 * t, 2) == Shed10(10 * t, 1) == Shed10(t, 0) == t;
  }

  /** Reading back "q.00 <unit>" gives exactly q units. */
  lemma ReadFixedTwo(q: int, unit: string, spaced: string, k: nat)
    requires IsToken(unit) && UnitExponent(ToUpper(unit)) == Some(k) && spaced == " " + unit
    ensures SizeToBytes(FixedTwo(q) + spaced) == Ok(q * Pow1024(k))
  {
    FixedTwoReading(q, unit, spaced);
    FixedTwoBytes(q, k);
  }

  lemma FixedTwoReading(q: int, unit: string, spaced: string)
    requires IsToken(unit) && spaced == " " + unit
    ensures SizeToBytes(FixedTwo(q) + spaced)
         == InUnit(NumberValue(SignOf(q), NatToString(Magnitude(q)), "00"), unit)
  {
    FixedTwoText(q);
    SizeToBytesOf(SignOf(q), NatToString(Magnitude(q)), "00", unit);
    Spaced(FixedTwo(q), unit, spaced);
  }

  lemma FixedTwoBytes(q: int, k: nat)
    ensures ToBytes(NumberValue(SignOf(q), NatToString(Magnitude(q)), "00"), k) == q * Pow1024(k)
  {
    var m := Magnitude(q);
    FixedTwoValue(q);
    HundredthsToBytes(q < 0, m, k);
    Times1024Pow(m, k);
    SignedProduct(q, Pow1024(k));
  }

  lemma {:induction false} Times1024Pow(m: nat, k: nat)
    ensures Times1024(m, k) == m * Pow1024(k)
  {
    if k > 0 {
      Times1024Pow(m, k - 1);
      assert 1024 * (m * Pow1024(k - 1)) == m * (1024 * Pow1024(k - 1));
    }
  }

  /** Shed10 is the quotient by 10^s: the magnitude of the product is truncated, never rounded. */
  lemma {:induction false} Shed10Quotient(v: nat, s: nat)
    ensures Pow10(s) * Shed10(v, s) <= v < Pow10(s) * (Shed10(v, s) + 1)
    ensures Shed10(v, s) == v / Pow10(s)
  {
    if s > 0 {
      Shed10Quotient(v / 10, s - 1);
      TenfoldBounds(v, v / 10, Pow10(s - 1), Shed10(v, s));
    }
    QuotientUnique(v, Pow10(s), Shed10(v, s));
  }

  /** Bounds on v / 10 scale to bounds on v. */
  lemma TenfoldBounds(v: nat, w: nat, p: nat, t: nat)
    requires w == v / 10 && p * t <= w < p * (t + 1)
    ensures (10 * p) * t <= v < (10 * p) * (t + 1)
  {
    assert (10 * p) * t == 10 * (p * t);
    assert (10 * p) * (t + 1) == 10 * (p * (t + 1));
  }

  /** d * q <= v < d * (q + 1) fixes the quotient. */
  lemma QuotientUnique(v: nat, d: nat, q: nat)
    requires d > 0 && d * q <= v < d * (q + 1)
    ensures v / d == q
  {
    var q', r' := v / d, v % d;
    assert v == d * q' + r' && 0 <= r' < d;
    if q' > q {
      MulLeft(d, q + 1, q');
    } else if q' < q {
      MulLeft(d, q' + 1, q);
    }
  }

  /** Helper: a product in terms of the magnitude and sign of its left factor. */
  lemma SignedProduct(q: int, p: nat)
    ensures q * p == if q < 0 then -(Magnitude(q) * p) else Magnitude(q) * p
  {
  }

  /** formatSize then sizeToBytes gives back the count, rounded toward zero to
      whole gigabytes (from 1 GB up) or whole megabytes (below). */
  lemma FormatSizeRoundTrip(n: int)
    requires MinInt64 <= n <= MaxInt64
    ensures var b := SizeToBytes(FormatSize(IntToString(n)));
      var unit := if n >= GiB then GiB else MiB;
      && b.Ok?
      && (n >= 0 ==> 0 <= b.value <= n)
      && (n < 0 ==> n <= b.value <= 0)
      && n - unit < b.value < n + unit
  {
    AtoiIntToString(n);
    assert AtoiOrZero(IntToString(n)) == n;
    UpperUnits();
    if n >= GiB {
      ReadFixedTwo(n / GiB, "GB", " GB", 3);
      assert Pow1024(3) == GiB;
      TruncDivBounds(n, GiB);
    } else {
      ReadFixedTwo(TruncDiv(n, MiB), "MB", " MB", 2);
      assert Pow1024(2) == MiB;
      TruncDivBounds(n, MiB);
    }
  }

  /** Truncating division loses less than one divisor, toward zero. */
  lemma TruncDivBounds(n: int, d: nat)
    requires d > 0
    ensures var b := TruncDiv(n, d) * d;
      && (n >= 0 ==> 0 <= b <= n)
      && (n < 0 ==> n <= b <= 0)
      && n - d < b < n + d
  {
    if n >= 0 {
      DivBounds(n, d);
    } else {
      DivBounds(-n, d);
    }
  }

  lemma DivBounds(a: nat, d: nat)
    requires d > 0
    ensures 0 <= (a / d) * d <= a < (a / d) * d + d
  {
    assert a == d * (a / d) + a % d;
  }

  /** Whatever text the API sends, the size formatSize produces is readable by sizeToBytes. */
  lemma FormatSizeAlwaysReadable(s: string)
    ensures SizeToBytes(FormatSize(s)).Ok?
  {
    match Atoi(s)
    case None =>
      assert FormatSize(s) == FixedTwo(0) + " MB";
      UpperUnits();
      ReadFixedTwo(0, "MB", " MB", 2);
    case Some(n) =>
      AtoiIntToString(n);
      assert FormatSize(s) == FormatSize(IntToString(n));
      FormatSizeRoundTrip(n);
  }

  // ----- worked readings -----

  /** "<whole>[.<frac>] <unit>" read through the unit switch. */
  lemma ReadNumber(s: string, whole: string, frac: string, unit: string)
    requires |whole| >= 1 && AllDigits(whole) && AllDigits(frac) && IsToken(unit)
    requires s == NumberText("", whole, frac) + " " + unit
    ensures SizeToBytes(s) == InUnit(NumberValue("", whole, frac), unit)
  {
    SizeToBytesOf("", whole, frac, unit);
  }

  /** "1.5 GB" is one and a half gibibytes. The text is a parameter fixed by `requires` so that the verifier unfolds the literal only as far as the proof needs. */
  lemma SizeExampleFraction(s: string)
    requires s == "1.5 GB"
    ensures SizeToBytes(s) == Ok(1610612736)
  {
    UpperUnits();
    assert NumberValue("", "1", "5") == Decimal(false, 15, 1) by {
      assert "1" + "5" == "15" && "15"[..1] == "1";
      assert DigitsValue("15") == DigitsValue("1") * 10 + 5;
    }
    assert Times1024(15, 3) == 16106127360;
    ReadNumber(s, "1", "5", "GB");
  }

  /** A unit outside the table is an error, not a zero. The text is a parameter fixed by `requires` so that the verifier unfolds the literal only as far as the proof needs. */
  lemma SizeExampleUnknownUnit(s: string)
    requires s == "12 TB"
    ensures SizeToBytes(s) == Err(InvalidUnit("TB"))
  {
    assert IsToken("TB") && ToUpper("TB") == "TB";
    assert UnitExponent(ToUpper("TB")) == None;
    ReadNumber(s, "12", "", "TB");
  }

  /** A number without a unit is an error. */
  lemma SizeExampleNoUnit()
    ensures SizeToBytes("5") == Err(NoUnit)
  {
    assert TrimSpace("5") == "5";
    assert ScanDecimal("5") == Some((Decimal(false, 5, 0), 1)) by {
      assert DigitRun("5") == 1;
      assert "5"[..1] == "5";
    }
    assert "5"[1..] == [];
  }
}
