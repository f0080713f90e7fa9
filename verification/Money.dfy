/** Minor-unit amounts as text: the printer and the parser. */
module Money {
  import opened Text
  import opened Division
  import opened Compute

  const MIN_INT64 := -0x8000_0000_0000_0000

  // ----------------------------------------------------------------- digits

  predicate IsDigit(c: char) {
    '0' <= c <= '9'
  }

  predicate AllDigits(s: string) {
    forall i :: 0 <= i < |s| ==> IsDigit(s[i])
  }

  /** The number a string of digits denotes; "" denotes 0. */
  function NumOf(s: string): nat
    requires AllDigits(s)
  {
    if s == "" then 0 else 10 * NumOf(s[..|s| - 1]) + (s[|s| - 1] as int - '0' as int)
  }

  function DigitChar(d: nat): (c: char)
    requires d < 10
    ensures IsDigit(c) && c as int - '0' as int == d
  {
    (d + '0' as int) as char
  }

  /** The decimal digits of n. */
  function Digits(n: nat): (s: string)
    ensures |s| > 0 && AllDigits(s)
  {
    if n < 10 then [DigitChar(n)] else Digits(n / 10) + [DigitChar(n % 10)]
  }

  lemma {:induction false} NumOfDigits(n: nat)
    ensures NumOf(Digits(n)) == n
  {
    var s := Digits(n);
    if n < 10 {
      assert s[..|s| - 1] == "";
    } else {
      NumOfDigits(n / 10);
      assert s[..|s| - 1] == Digits(n / 10);
    }
  }

  function Pow10(n: nat): nat {
    if n == 0 then 1 else 10 * Pow10(n - 1)
  }

  lemma {:induction false} Pow10Positive(n: nat)
    ensures Pow10(n) > 0
  {
    if n > 0 { Pow10Positive(n - 1); }
  }

  lemma {:induction false} NumOfConcat(s: string, t: string)
    requires AllDigits(s) && AllDigits(t)
    ensures AllDigits(s + t) && NumOf(s + t) == NumOf(s) * Pow10(|t|) + NumOf(t)
  {
    if t == "" {
      assert s + t == s;
    } else {
      var init := t[..|t| - 1];
      NumOfConcat(s, init);
      NumOfInit(t, init);
      assert (s + t)[..|s + t| - 1] == s + init;
      NumOfInit(s + t, s + init);
      Tenfold(NumOf(s), Pow10(|init|));
      assert Pow10(|t|) == 10 * Pow10(|init|);
    }
  }

  lemma NumOfInit(t: string, init: string)
    requires AllDigits(t) && t != "" && init == t[..|t| - 1]
    ensures AllDigits(init) && NumOf(t) == 10 * NumOf(init) + (t[|t| - 1] as int - '0' as int)
  {
  }

  lemma Tenfold(x: int, y: int)
    ensures x * (10 * y) == 10 * (x * y) == (10 * x) * y
  {
  }

  lemma {:induction false} NumOfBound(s: string)
    requires AllDigits(s)
    ensures NumOf(s) < Pow10(|s|)
  {
    if s != "" { NumOfBound(s[..|s| - 1]); }
  }

  function Zeros(n: nat): (s: string)
    ensures |s| == n && AllDigits(s)
  {
    if n == 0 then "" else Zeros(n - 1) + "0"
  }

  lemma {:induction false} NumOfZeros(n: nat)
    ensures NumOf(Zeros(n)) == 0
  {
    if n > 0 {
      NumOfZeros(n - 1);
      assert Zeros(n)[..n - 1] == Zeros(n - 1);
    }
  }

  lemma {:induction false} DigitsLength(n: nat, d: nat)
    requires n < Pow10(d) && d > 0
    ensures |Digits(n)| <= d
  {
    if n >= 10 {
      assert d > 1 by { assert Pow10(1) == 10 * Pow10(0); }
      DigitsLength(n / 10, d - 1);
    }
  }

  // ------------------------------------------------------------ the printer

  function Decimals(currency: string): (d: nat)
    ensures d <= 3
  {
    var c := Upper(currency);
    if c in {"JPY", "KRW", "VND", "CLP", "ISK", "HUF", "TWD", "UGX", "XAF", "XOF"} then 0
    else if c in {"BHD", "KWD", "OMR", "TND", "IQD", "JOD", "LYD"} then 3
    else 2
  }

  function FormatInt(v: int): string {
    if v < 0 then "-" + Digits(-v) else Digits(v)
  }

  /** Negation in 64 bits: the smallest number is its own negative. */
  function Neg64(v: int): int {
    if v == MIN_INT64 then v else -v
  }

  function PadTo(s: string, d: nat): string {
    if |s| < d then Zeros(d - |s|) + s else s
  }

  /** v in units of 10^-d. */
  function FormatWith(v: int, d: nat): string {
    if d == 0 then FormatInt(v)
    else
      var minor := if v < 0 then Neg64(v) else v;
      Pow10Positive(d);
      var whole := TDiv(minor, Pow10(d));
      var frac := minor - Pow10(d) * whole;
      (if v < 0 then "-" else "") + FormatInt(whole) + "." + PadTo(FormatInt(frac), d)
  }

  function FormatOf(v: int, currency: string): string {
    FormatWith(v, Decimals(currency))
  }

  method ComputePow10(n: nat) returns (r: nat)
    ensures r == Pow10(n) && r > 0
  {
    r := 1;
    for i := 0 to n
      invariant r == Pow10(i)
    {
      r := r * 10;
    }
    Pow10Positive(n);
  }

  /** Appends zeros until a field that has width characters would have d. */
  method AppendZeros(s: string, width: nat, d: nat) returns (t: string)
    ensures t == s + Zeros(if width < d then d - width else 0)
  {
    t := s;
    for i := width to if width < d then d else width
      invariant t == s + Zeros(i - width)
    {
      assert Zeros(i + 1 - width) == Zeros(i - width) + "0";
      t := t + "0";
    }
  }

  method Format(v: int, currency: string) returns (s: string)
    requires InInt64(v)
    ensures s == FormatOf(v, currency)
  {
    s := FormatDecimal(v, Decimals(currency));
  }

  method FormatDecimal(v: int, d: nat) returns (s: string)
    requires InInt64(v)
    ensures s == FormatWith(v, d)
  {
    if d == 0 {
      return FormatInt(v);
    }
    var minor := v;
    var neg := minor < 0;
    if neg {
      minor := Neg64(minor);
    }
    var scale := ComputePow10(d);
    var whole := TDiv(minor, scale);
    var frac := minor - scale * whole;
    var head := (if neg then "-" else "") + FormatInt(whole) + ".";
    var fracStr := FormatInt(frac);
    s := AppendZeros(head, |fracStr|, d);
    s := s + fracStr;
    assert s == head + PadTo(fracStr, d);
  }

  // ------------------------------------------------------------- the parser

  datatype ParseError = Empty | Invalid | TooLarge | TooManyDecimals

  predicate IsSpace(c: char) {
    c in {'\t', '\n', '\U{0B}', '\U{0C}', '\r', ' ', '\U{85}', '\U{A0}', '\U{1680}', '\U{2028}', '\U{2029}', '\U{202F}', '\U{205F}', '\U{3000}'}
    || '\U{2000}' <= c <= '\U{200A}'
  }

  function TrimLeft(s: string): string {
    if s != "" && IsSpace(s[0]) then TrimLeft(s[1..]) else s
  }

  function TrimRight(s: string): string {
    if s != "" && IsSpace(s[|s| - 1]) then TrimRight(s[..|s| - 1]) else s
  }

  function Trim(s: string): string {
    TrimRight(TrimLeft(s))
  }

  function NoCommas(s: string): string {
    if s == "" then "" else (if s[0] == ',' then "" else [s[0]]) + NoCommas(s[1..])
  }

  /** Before the first dot, after it, and whether there is one. */
  function CutDot(s: string): (string, string, bool) {
    if s == "" then ("", "", false)
    else if s[0] == '.' then ("", s[1..], true)
    else var (a, b, found) := CutDot(s[1..]); ([s[0]] + a, b, found)
  }

  predicate Negative(t: string) {
    t != "" && t[0] == '-'
  }

  /** The unsigned part of a trimmed amount, thousands separators dropped. */
  function Body(t: string): string {
    NoCommas(if t != "" && (t[0] == '-' || t[0] == '+') then t[1..] else t)
  }

  function IntPart(t: string): string {
    var a := CutDot(Body(t)).0;
    if a == "" then "0" else a
  }

  function FracPart(t: string): string {
    CutDot(Body(t)).1
  }

  function PadRight(s: string, d: nat): string {
    if |s| < d then s + Zeros(d - |s|) else s
  }

  lemma {:induction false} CutDotNone(s: string)
    ensures !CutDot(s).2 ==> CutDot(s).1 == ""
  {
    if s != "" { CutDotNone(s[1..]); }
  }

  function ParseParts(neg: bool, intPart: string, fracPart: string, d: nat): Result<int, ParseError> {
    if !AllDigits(intPart) || !AllDigits(fracPart) then Failure(Invalid)
    else if NumOf(intPart) > MAX_INT64 then Failure(TooLarge)
    else if |fracPart| > d then Failure(TooManyDecimals)
    else
      Pow10Positive(d);
      Combined(neg, NumOf(intPart), NumOf(PadRight(fracPart, d)), Pow10(d))
  }

  function Combined(neg: bool, whole: nat, frac: nat, scale: nat): Result<int, ParseError>
    requires scale > 0
  {
    if whole > TDiv(MAX_INT64 - frac, scale) then Failure(TooLarge)
    else Success(if neg then -(whole * scale + frac) else whole * scale + frac)
  }

  function ParseWith(s: string, d: nat): Result<int, ParseError> {
    var t := Trim(s);
    if t == "" then Failure(Empty) else ParseParts(Negative(t), IntPart(t), FracPart(t), d)
  }

  function ParseOf(s: string, currency: string): Result<int, ParseError> {
    ParseWith(s, Decimals(currency))
  }

  method CheckDigits(s: string) returns (r: bool)
    ensures r <==> AllDigits(s)
  {
    for i := 0 to |s|
      invariant AllDigits(s[..i])
    {
      if s[i] < '0' || s[i] > '9' {
        return false;
      }
      assert s[..i + 1] == s[..i] + [s[i]];
    }
    assert s[..|s|] == s;
    return true;
  }

  method Parse(s0: string, currency: string) returns (r: Result<int, ParseError>)
    ensures r == ParseOf(s0, currency)
  {
    var s := Trim(s0);
    if s == "" {
      return Failure(Empty);
    }
    var neg := false;
    if s[0] == '-' {
      neg := true;
      s := s[1..];
    } else if s[0] == '+' {
      s := s[1..];
    }
    s := NoCommas(s);
    var d := Decimals(currency);
    var (intPart, fracPart, hasFrac) := CutDot(s);
    CutDotNone(s);
    if intPart == "" {
      intPart := "0";
    }
    r := ParseFields(neg, intPart, fracPart, hasFrac, d);
  }

  method FracValue(hasFrac: bool, fracPart0: string, d: nat) returns (frac: nat)
    requires AllDigits(fracPart0) && |fracPart0| <= d && (!hasFrac ==> fracPart0 == "")
    ensures frac == NumOf(PadRight(fracPart0, d))
  {
    frac := 0;
    if hasFrac {
      var fracPart := AppendZeros(fracPart0, |fracPart0|, d);
      assert fracPart == PadRight(fracPart0, d);
      if fracPart != "" {
        frac := NumOf(fracPart);
      }
    } else {
      NumOfZeros(d);
      assert PadRight("", d) == Zeros(d);
    }
  }

  method ParseFields(neg: bool, intPart: string, fracPart0: string, hasFrac: bool, d: nat) returns (r: Result<int, ParseError>)
    requires !hasFrac ==> fracPart0 == ""
    ensures r == ParseParts(neg, intPart, fracPart0, d)
  {
    var intOk := CheckDigits(intPart);
    var fracOk := CheckDigits(fracPart0);
    if !intOk || !fracOk {
      return Failure(Invalid);
    }
    var whole := NumOf(intPart);
    if whole > MAX_INT64 {
      return Failure(TooLarge);
    }
    if hasFrac && |fracPart0| > d {
      return Failure(TooManyDecimals);
    }
    var frac := FracValue(hasFrac, fracPart0, d);
    var scale := ComputePow10(d);
    r := Combine(neg, whole, frac, scale);
  }

  method Combine(neg: bool, whole: nat, frac: nat, scale: nat) returns (r: Result<int, ParseError>)
    requires scale > 0
    ensures r == Combined(neg, whole, frac, scale)
  {
    if whole > TDiv(MAX_INT64 - frac, scale) {
      return Failure(TooLarge);
    }
    var minor := whole * scale + frac;
    if neg {
      minor := -minor;
    }
    r := Success(minor);
  }

  // --------------------------------------------------------------- meaning

  /** The magnitude a trimmed amount denotes in units of 10^-d: all its digits read as one
      number, scaled by the places it leaves unused. */
  function Magnitude(t: string, d: nat): int
    requires AllDigits(IntPart(t)) && AllDigits(FracPart(t)) && |FracPart(t)| <= d
  {
    NumOf(IntPart(t) + FracPart(t)) * Pow10(d - |FracPart(t)|)
  }

  lemma {:induction false} Pow10Add(m: nat, n: nat)
    ensures Pow10(m + n) == Pow10(m) * Pow10(n)
  {
    if m > 0 {
      Pow10Add(m - 1, n);
      Tenfold(Pow10(m - 1), Pow10(n));
    }
  }

  lemma PaddedValue(i: string, f: string, d: nat)
    requires AllDigits(i) && AllDigits(f) && |f| <= d
    ensures NumOf(i) * Pow10(d) + NumOf(PadRight(f, d)) == NumOf(i + f) * Pow10(d - |f|)
    ensures NumOf(PadRight(f, d)) < Pow10(d)
  {
    var k := d - |f|;
    NumOfConcat(i, f);
    PadIsScale(f, d);
    Pow10Add(|f|, k);
    Regroup(NumOf(i), NumOf(f), Pow10(|f|), Pow10(k));
    NumOfBound(PadRight(f, d));
  }

  lemma PadIsScale(f: string, d: nat)
    requires AllDigits(f) && |f| <= d
    ensures |PadRight(f, d)| == d && AllDigits(PadRight(f, d))
    ensures NumOf(PadRight(f, d)) == NumOf(f) * Pow10(d - |f|)
  {
    var k := d - |f|;
    var z := Zeros(k);
    NumOfConcat(f, z);
    NumOfZeros(k);
    assert PadRight(f, d) == f + z;
    assert NumOf(f + z) == NumOf(f) * Pow10(k);
  }

  lemma Regroup(a: int, b: int, p: int, q: int)
    ensures (a * p + b) * q == a * (p * q) + b * q
  {
    assert (a * p + b) * q == (a * p) * q + b * q;
  }

  /** The guard before the multiplication is exactly "the result fits". */
  lemma GuardIsFit(whole: nat, frac: nat, p: nat)
    requires p > 0 && frac < p && p <= MAX_INT64
    ensures whole > TDiv(MAX_INT64 - frac, p) <==> whole * p + frac > MAX_INT64
  {
    var q := (MAX_INT64 - frac) / p;
    assert p * q <= MAX_INT64 - frac < p * q + p;
    if whole > q {
      MulLe(p, q + 1, whole);
      assert p * (q + 1) == p * q + p;
    } else {
      MulLe(p, whole, q);
    }
  }

  lemma CombinedFits(neg: bool, whole: nat, frac: nat, p: nat)
    requires p > 0 && frac < p && p <= MAX_INT64
    ensures var m := whole * p + frac;
      Combined(neg, whole, frac, p) == if m > MAX_INT64 then Failure(TooLarge) else Success(if neg then 0 - m else m)
  {
    GuardIsFit(whole, frac, p);
  }

  /** Parse accepts a string exactly when it is digits with at most d decimals whose value
      fits, and then returns that value: it never wraps and never rounds. */
  lemma ParseExact(s: string, d: nat)
    requires d <= 3
    ensures var t := Trim(s);
      var wellFormed := t != "" && AllDigits(IntPart(t)) && AllDigits(FracPart(t)) && |FracPart(t)| <= d;
      && (ParseWith(s, d).Success? <==> wellFormed && Magnitude(t, d) <= MAX_INT64)
      && (ParseWith(s, d).Success? ==> ParseWith(s, d).value == if Negative(t) then -Magnitude(t, d) else Magnitude(t, d))
  {
    var t := Trim(s);
    if t != "" && AllDigits(IntPart(t)) && AllDigits(FracPart(t)) && |FracPart(t)| <= d {
      var whole, frac := NumOf(IntPart(t)), NumOf(PadRight(FracPart(t), d));
      PaddedValue(IntPart(t), FracPart(t), d);
      Pow10Positive(d);
      SmallPowers(d);
      CombinedFits(Negative(t), whole, frac, Pow10(d));
      if whole > MAX_INT64 {
        MulLe(whole, 1, Pow10(d));
      }
    }
  }

  lemma AcceptedRange(s: string, d: nat)
    requires d <= 3 && ParseWith(s, d).Success?
    ensures -MAX_INT64 <= ParseWith(s, d).value <= MAX_INT64
  {
    ParseExact(s, d);
    var t := Trim(s);
    assert Magnitude(t, d) >= 0 by { MagnitudePositive(NumOf(IntPart(t) + FracPart(t)), d - |FracPart(t)|); }
  }

  lemma MagnitudePositive(n: nat, k: nat)
    ensures n * Pow10(k) >= 0
  {
  }

  lemma SmallPowers(d: nat)
    requires d <= 3
    ensures Pow10(d) <= 1000
  {
    assert Pow10(0) == 1 && Pow10(1) == 10 && Pow10(2) == 100 && Pow10(3) == 1000;
  }

  // ------------------------------------------------------------- round trip

  /** The characters the printer writes. */
  predicate Printed(s: string) {
    forall i :: 0 <= i < |s| ==> IsDigit(s[i]) || s[i] == '-' || s[i] == '.'
  }

  lemma TrimPrinted(s: string)
    requires Printed(s)
    ensures Trim(s) == s
  {
    if s != "" {
      assert !IsSpace(s[0]) && !IsSpace(s[|s| - 1]);
    }
  }

  lemma {:induction false} CommasPrinted(s: string)
    requires Printed(s)
    ensures NoCommas(s) == s
  {
    if s != "" {
      assert s[0] != ',';
      CommasPrinted(s[1..]);
      assert s == [s[0]] + s[1..];
    }
  }

  lemma {:induction false} CutDotAt(a: string, b: string)
    requires '.' !in a
    ensures CutDot(a + "." + b) == (a, b, true)
  {
    if a == "" {
      assert ("." + b)[1..] == b;
    } else {
      CutDotAt(a[1..], b);
      assert (a + "." + b)[1..] == a[1..] + "." + b;
      assert [a[0]] + a[1..] == a;
    }
  }

  lemma {:induction false} CutDotFree(a: string)
    requires '.' !in a
    ensures CutDot(a) == (a, "", false)
  {
    if a != "" {
      CutDotFree(a[1..]);
      assert [a[0]] + a[1..] == a;
    }
  }

  /** What the parser sees in a printed amount: the sign, then the two fields. */
  lemma FieldsOfDecimal(neg: bool, w: string, f: string)
    requires Printed(w) && '.' !in w && Printed(f) && w != "" && (!neg ==> w[0] != '-')
    ensures var s := (if neg then "-" else "") + w + "." + f;
      Trim(s) == s != "" && Negative(s) == neg && IntPart(s) == w && FracPart(s) == f
  {
    var s := (if neg then "-" else "") + w + "." + f;
    TrimPrinted(s);
    if neg {
      assert s[1..] == w + "." + f;
    } else {
      assert s == w + "." + f && s[0] == w[0] != '+';
    }
    BodyOfDecimal(w, f);
  }

  lemma BodyOfDecimal(w: string, f: string)
    requires Printed(w) && '.' !in w && Printed(f)
    ensures CutDot(NoCommas(w + "." + f)) == (w, f, true)
  {
    CommasPrinted(w + "." + f);
    CutDotAt(w, f);
  }

  lemma FieldsOfWhole(neg: bool, w: string)
    requires AllDigits(w) && w != ""
    ensures var s := (if neg then "-" else "") + w;
      Trim(s) == s != "" && Negative(s) == neg && IntPart(s) == w && FracPart(s) == ""
  {
    var s := (if neg then "-" else "") + w;
    BodyOfWhole(w);
    TrimPrinted(s);
    assert IsDigit(w[0]);
    if neg {
      assert s[0] == '-' && s[1..] == w;
    } else {
      assert s == w && s[0] != '-' && s[0] != '+';
    }
  }

  lemma BodyOfWhole(w: string)
    requires AllDigits(w)
    ensures Printed(w) && CutDot(NoCommas(w)) == (w, "", false)
  {
    CommasPrinted(w);
    CutDotFree(w);
  }

  lemma ZeroTimes(x: int)
    ensures 0 * x == 0
  {
  }

  lemma PadValue(s: string, d: nat)
    requires AllDigits(s) && |s| <= d
    ensures |PadTo(s, d)| == d && AllDigits(PadTo(s, d)) && NumOf(PadTo(s, d)) == NumOf(s)
  {
    var z := Zeros(d - |s|);
    NumOfZeros(d - |s|);
    NumOfConcat(z, s);
    ZeroTimes(Pow10(|s|));
    assert PadTo(s, d) == z + s;
  }

  lemma PaddedDigits(frac: nat, d: nat)
    requires frac < Pow10(d) && d > 0
    ensures var f := PadTo(Digits(frac), d);
      AllDigits(f) && |f| == d && NumOf(f) == frac
  {
    DigitsLength(frac, d);
    NumOfDigits(frac);
    PadValue(Digits(frac), d);
  }

  /** Full-width fields that fit are put back together. */
  lemma PartsFit(neg: bool, w: string, f: string, d: nat, m: int)
    requires AllDigits(w) && AllDigits(f) && |f| == d && d <= 3
    requires m == NumOf(w) * Pow10(d) + NumOf(f) <= MAX_INT64
    ensures ParseParts(neg, w, f, d) == Success(if neg then -m else m)
  {
    assert PadRight(f, d) == f;
    NumOfBound(f);
    Pow10Positive(d);
    SmallPowers(d);
    CombinedFits(neg, NumOf(w), NumOf(f), Pow10(d));
    WholeFits(NumOf(w), NumOf(f), Pow10(d));
  }

  lemma WholeFits(w: nat, f: nat, p: int)
    requires p > 0 && w * p + f <= MAX_INT64
    ensures w <= MAX_INT64 && p * w == w * p
  {
    MulLe(p, 0, w);
    if w > MAX_INT64 { MulLe(w, 1, p); }
  }

  lemma PrintedDecimal(neg: bool, whole: nat, frac: nat, d: nat)
    requires 0 < d <= 3 && frac < Pow10(d) && whole * Pow10(d) + frac <= MAX_INT64
    ensures var m := whole * Pow10(d) + frac;
      && AllDigits(PadTo(Digits(frac), d))
      && ParseParts(neg, Digits(whole), PadTo(Digits(frac), d), d) == Success(if neg then 0 - m else m)
  {
    PaddedDigits(frac, d);
    NumOfDigits(whole);
    PartsFit(neg, Digits(whole), PadTo(Digits(frac), d), d, whole * Pow10(d) + frac);
  }

  /** What the printer writes for an amount other than the smallest. */
  lemma DecimalText(v: int, whole: nat, frac: nat, d: nat)
    requires v != MIN_INT64 && d > 0 && frac < Pow10(d)
    requires whole * Pow10(d) + frac == if v < 0 then 0 - v else v
    ensures FormatWith(v, d) == (if v < 0 then "-" else "") + Digits(whole) + "." + PadTo(Digits(frac), d)
  {
    var m := if v < 0 then 0 - v else v;
    WholeAndRest(m, whole, frac, Pow10(d));
    assert m == if v < 0 then Neg64(v) else v;
    PrintedParts(v < 0, m, whole, frac, d);
  }

  lemma PrintedParts(neg: bool, m: int, whole: nat, frac: nat, d: nat)
    requires d > 0 && Pow10(d) > 0 && TDiv(m, Pow10(d)) == whole && m - Pow10(d) * TDiv(m, Pow10(d)) == frac
    ensures (if neg then "-" else "") + FormatInt(TDiv(m, Pow10(d))) + "." + PadTo(FormatInt(m - Pow10(d) * TDiv(m, Pow10(d))), d)
         == (if neg then "-" else "") + Digits(whole) + "." + PadTo(Digits(frac), d)
  {
  }

  lemma WholeAndRest(m: int, whole: nat, frac: nat, p: nat)
    requires frac < p && whole * p + frac == m
    ensures TDiv(m, p) == whole && m - p * TDiv(m, p) == frac
  {
    assert p * whole == whole * p;
    DivUnique(m, p, whole);
  }

  lemma SplitBy(m: nat, p: nat) returns (whole: nat, frac: nat)
    requires p > 0
    ensures m == whole * p + frac && frac < p
  {
    whole, frac := m / p, m % p;
  }

  /** Every 64-bit amount but the smallest comes back. */
  lemma RoundTripWith(v: int, d: nat)
    requires InInt64(v) && v != MIN_INT64 && d <= 3
    ensures ParseWith(FormatWith(v, d), d) == Success(v)
  {
    var m: nat := if v < 0 then -v else v;
    if d == 0 {
      FieldsOfWhole(v < 0, Digits(m));
      NumOfDigits(m);
      assert Pow10(0) == 1;
      PartsFit(v < 0, Digits(m), "", 0, m);
      assert FormatInt(v) == (if v < 0 then "-" else "") + Digits(m);
    } else {
      RoundTripDecimal(v, m, d);
    }
  }

  lemma RoundTripDecimal(v: int, m: nat, d: nat)
    requires InInt64(v) && v != MIN_INT64 && 0 < d <= 3 && m == if v < 0 then 0 - v else v
    ensures ParseWith(FormatWith(v, d), d) == Success(v)
  {
    Pow10Positive(d);
    var whole, frac := SplitBy(m, Pow10(d));
    DecimalText(v, whole, frac, d);
    ReadBack(FormatWith(v, d), v < 0, whole, frac, d, m);
  }

  lemma ReadBack(s: string, neg: bool, whole: nat, frac: nat, d: nat, m: int)
    requires 0 < d <= 3 && frac < Pow10(d) && m == whole * Pow10(d) + frac <= MAX_INT64
    requires s == (if neg then "-" else "") + Digits(whole) + "." + PadTo(Digits(frac), d)
    ensures ParseWith(s, d) == Success(if neg then 0 - m else m)
  {
    PrintedDecimal(neg, whole, frac, d);
    ParseFieldsOf(s, neg, Digits(whole), PadTo(Digits(frac), d), d);
  }

  lemma ParseFieldsOf(s: string, neg: bool, w: string, f: string, d: nat)
    requires s == (if neg then "-" else "") + w + "." + f
    requires AllDigits(w) && AllDigits(f) && w != ""
    ensures ParseWith(s, d) == ParseParts(neg, w, f, d)
  {
    FieldsOfDecimal(neg, w, f);
  }

  lemma WholeOfSmallest(p: int)
    requires 0 < p <= 1000
    ensures TDiv(MIN_INT64, p) < 0
  {
    var q := (-MIN_INT64) / p;
    if q <= 0 { MulLe(p, q, 0); }
  }

  lemma PrintedField(s: string, d: nat)
    requires Printed(s)
    ensures Printed(PadTo(s, d))
  {
  }

  lemma SmallestText(p: nat, d: nat) returns (w: string, f: string)
    requires 0 < d <= 3 && p == Pow10(d) > 0
    ensures FormatWith(MIN_INT64, d) == "-" + w + "." + f
    ensures Printed(w) && '.' !in w && Printed(f) && w != "" && w[0] == '-'
  {
    SmallPowers(d);
    WholeOfSmallest(p);
    var whole := TDiv(MIN_INT64, p);
    w := FormatInt(whole);
    f := PadTo(FormatInt(MIN_INT64 - p * whole), d);
    PrintedField(FormatInt(MIN_INT64 - p * whole), d);
  }

  /** Any accepted text prints back as text for the same amount. */
  lemma Reprint(text: string, d: nat)
    requires d <= 3 && ParseWith(text, d).Success?
    ensures ParseWith(FormatWith(ParseWith(text, d).value, d), d) == ParseWith(text, d)
  {
    AcceptedRange(text, d);
    RoundTripWith(ParseWith(text, d).value, d);
  }

  /** The smallest amount prints as something the parser refuses: in whole units it is too
      large, in decimals it prints with a second minus sign. */
  lemma SmallestRefused(d: nat)
    requires d <= 3
    ensures ParseWith(FormatWith(MIN_INT64, d), d).Failure?
  {
    if d == 0 {
      FieldsOfWhole(true, Digits(-MIN_INT64));
      NumOfDigits(-MIN_INT64);
    } else {
      Pow10Positive(d);
      var w, f := SmallestText(Pow10(d), d);
      FieldsOfDecimal(true, w, f);
      assert !IsDigit(w[0]);
    }
  }

  /** What is printed in a currency parses back to the same amount exactly when the amount is
      not the smallest 64-bit number. */
  lemma RoundTrip(v: int, currency: string)
    requires InInt64(v)
    ensures ParseOf(FormatOf(v, currency), currency) == Success(v) <==> v != MIN_INT64
  {
    if v != MIN_INT64 {
      RoundTripWith(v, Decimals(currency));
    } else {
      SmallestRefused(Decimals(currency));
    }
  }
}
