/** What amount texts mean, said without the parser's own cuts: signs, spaces, separators, fields. */
module Amounts {
  import opened Text
  import opened Compute
  import opened Money

  // ------------------------------------------------------------- separators

  lemma {:induction false} NoCommasConcat(a: string, b: string)
    ensures NoCommas(a + b) == NoCommas(a) + NoCommas(b)
  {
    if a == "" {
      assert a + b == b && NoCommas(a) == "";
    } else {
      NoCommasConcat(a[1..], b);
      assert (a + b)[1..] == a[1..] + b && (a + b)[0] == a[0];
      Assoc(if a[0] == ',' then "" else [a[0]], NoCommas(a[1..]), NoCommas(b));
    }
  }

  /** A comma drops out of whatever surrounds it. */
  lemma CommaDrops(a: string, b: string)
    ensures NoCommas(a + "," + b) == NoCommas(a + b)
  {
    NoCommasConcat(a, "," + b);
    NoCommasConcat(",", b);
    NoCommasConcat(a, b);
    assert ","[1..] == "";
    assert NoCommas(",") == "" && "" + NoCommas(b) == NoCommas(b);
    assert a + "," + b == a + ("," + b);
  }

  predicate AllSpaces(s: string) {
    forall i :: 0 <= i < |s| ==> IsSpace(s[i])
  }

  lemma {:induction false} TrimLeftConcat(a: string, b: string)
    requires !AllSpaces(a)
    ensures TrimLeft(a) != "" && !IsSpace(TrimLeft(a)[0]) && TrimLeft(a + b) == TrimLeft(a) + b
  {
    if IsSpace(a[0]) {
      assert (a + b)[1..] == a[1..] + b;
      assert !AllSpaces(a[1..]);
      TrimLeftConcat(a[1..], b);
    }
  }

  lemma {:induction false} TrimLeftSpaces(l: string, s: string)
    requires AllSpaces(l)
    ensures TrimLeft(l + s) == TrimLeft(s)
  {
    if l == "" {
      assert l + s == s;
    } else {
      assert (l + s)[1..] == l[1..] + s && (l + s)[0] == l[0];
      TrimLeftSpaces(l[1..], s);
    }
  }

  lemma {:induction false} TrimRightSpaces(s: string, r: string)
    requires AllSpaces(r)
    ensures TrimRight(s + r) == TrimRight(s)
    decreases |r|
  {
    if r == "" {
      assert s + r == s;
    } else {
      var t := r[..|r| - 1];
      assert (s + r)[..|s + r| - 1] == s + t;
      assert (s + r)[|s + r| - 1] == r[|r| - 1];
      TrimRightSpaces(s, t);
    }
  }

  lemma TrimmedEnd(a: string, b: string)
    requires b != "" && !IsSpace(b[|b| - 1])
    ensures TrimRight(a + b) == a + b
  {
    assert (a + b)[|a + b| - 1] == b[|b| - 1];
  }

  /** A thousands separator anywhere between the first character and the last changes nothing. */
  lemma CommaIgnored(a: string, b: string, d: nat)
    requires !AllSpaces(a) && b != "" && !IsSpace(b[|b| - 1])
    ensures ParseWith(a + "," + b, d) == ParseWith(a + b, d)
  {
    var t := TrimLeft(a);
    TrimLeftConcat(a, "," + b);
    TrimLeftConcat(a, b);
    assert a + "," + b == a + ("," + b) && t + "," + b == t + ("," + b);
    TrimmedEnd(t + ",", b);
    TrimmedEnd(t, b);
    SameBody(t, b);
  }

  lemma SameBody(t: string, b: string)
    requires t != ""
    ensures Body(t + "," + b) == Body(t + b) && Negative(t + "," + b) == Negative(t + b)
  {
    if t[0] == '-' || t[0] == '+' {
      assert (t + "," + b)[1..] == t[1..] + "," + b && (t + b)[1..] == t[1..] + b;
      CommaDrops(t[1..], b);
    } else {
      CommaDrops(t, b);
    }
  }

  // ------------------------------------------------------- spaces and signs

  /** White space around an amount changes nothing. */
  lemma SpacesIgnored(l: string, s: string, r: string, d: nat)
    requires AllSpaces(l) && AllSpaces(r)
    ensures ParseWith(l + s + r, d) == ParseWith(s, d)
  {
    assert l + s + r == l + (s + r);
    TrimLeftSpaces(l, s + r);
    if AllSpaces(s) {
      TrimLeftSpaces(s, r);
      TrimLeftSpaces(r, "");
      TrimLeftSpaces(s, "");
      assert r + "" == r && s + "" == s;
    } else {
      TrimLeftConcat(s, r);
      TrimRightSpaces(TrimLeft(s), r);
    }
  }

  predicate Unsigned(a: string) {
    a != "" && !IsSpace(a[0]) && a[0] != '-' && a[0] != '+'
  }

  function Negated(r: Result<int, ParseError>): Result<int, ParseError> {
    match r
    case Success(v) => Success(-v)
    case Failure(error) => Failure(error)
  }

  lemma {:induction false} TrimRightHead(c: char, s: string)
    requires !IsSpace(c)
    ensures TrimRight([c] + s) == [c] + TrimRight(s)
    decreases |s|
  {
    if s != "" && IsSpace(s[|s| - 1]) {
      assert ([c] + s)[..|[c] + s| - 1] == [c] + s[..|s| - 1];
      TrimRightHead(c, s[..|s| - 1]);
    }
  }

  lemma {:induction false} TrimRightKeepsHead(s: string)
    requires s != "" && !IsSpace(s[0])
    ensures TrimRight(s) != "" && TrimRight(s)[0] == s[0]
  {
    assert s == [s[0]] + s[1..];
    TrimRightHead(s[0], s[1..]);
  }

  lemma SignTrimmed(c: char, a: string)
    requires c == '+' || c == '-'
    requires Unsigned(a)
    ensures Trim([c] + a) == [c] + TrimRight(a) && Trim(a) == TrimRight(a) != ""
  {
    TrimRightKeepsHead(a);
    TrimRightHead(c, a);
  }

  lemma SignBody(c: char, t: string)
    requires (c == '+' || c == '-') && t != "" && t[0] != '+' && t[0] != '-'
    ensures IntPart([c] + t) == IntPart(t) && FracPart([c] + t) == FracPart(t) && Negative([c] + t) == (c == '-') && !Negative(t)
  {
    assert ([c] + t)[1..] == t;
    assert Body([c] + t) == Body(t);
  }

  lemma SignOf(c: char, a: string, d: nat)
    requires (c == '+' || c == '-') && Unsigned(a)
    ensures var t := TrimRight(a);
      && ParseWith(a, d) == ParseParts(false, IntPart(t), FracPart(t), d)
      && ParseWith([c] + a, d) == ParseParts(c == '-', IntPart(t), FracPart(t), d)
  {
    SignTrimmed(c, a);
    TrimRightKeepsHead(a);
    SignBody(c, TrimRight(a));
  }

  /** A plus sign changes nothing, a minus sign negates. */
  lemma SignRead(a: string, d: nat)
    requires Unsigned(a)
    ensures ParseWith("+" + a, d) == ParseWith(a, d) && ParseWith("-" + a, d) == Negated(ParseWith(a, d))
  {
    var t := TrimRight(a);
    SignOf('+', a, d);
    SignOf('-', a, d);
    NegatedParts(IntPart(t), FracPart(t), d);
  }

  lemma NegatedParts(w: string, f: string, d: nat)
    ensures ParseParts(true, w, f, d) == Negated(ParseParts(false, w, f, d))
  {
  }

  // ----------------------------------------------------------------- fields

  /** The amount that w whole units and the decimals f make, in units of 10^-d. */
  function AmountOf(w: string, f: string, d: nat): nat
    requires AllDigits(w) && AllDigits(f) && |f| <= d
  {
    NumOf(w) * Pow10(d) + NumOf(f) * Pow10(d - |f|)
  }

  lemma FieldsValue(neg: bool, w: string, f: string, d: nat)
    requires AllDigits(w) && AllDigits(f) && |f| <= d <= 3
    ensures var m := AmountOf(w, f, d);
      ParseParts(neg, w, f, d) == if m > MAX_INT64 then Failure(TooLarge) else Success(if neg then 0 - m else m)
  {
    PadIsScale(f, d);
    NumOfBound(PadRight(f, d));
    Pow10Positive(d);
    SmallPowers(d);
    CombinedFits(neg, NumOf(w), NumOf(PadRight(f, d)), Pow10(d));
    if AmountOf(w, f, d) <= MAX_INT64 { WholeFits(NumOf(w), NumOf(PadRight(f, d)), Pow10(d)); }
  }

  /** Digits, a dot and at most d decimals are read as that many units; no digit before the dot
      means none. */
  lemma ReadsDecimal(w: string, f: string, d: nat)
    requires AllDigits(w) && AllDigits(f) && |f| <= d <= 3
    ensures ParseWith(w + "." + f, d)
         == if AmountOf(w, f, d) > MAX_INT64 then Failure(TooLarge) else Success(AmountOf(w, f, d))
  {
    if w != "" {
      WithWhole(w, f, d);
      FieldsValue(false, w, f, d);
    } else {
      NoWhole(f, d);
      ZeroWhole(f, d);
      FieldsValue(false, "0", f, d);
      assert w + "." + f == "." + f;
    }
  }

  lemma WithWhole(w: string, f: string, d: nat)
    requires AllDigits(w) && AllDigits(f) && w != ""
    ensures ParseWith(w + "." + f, d) == ParseParts(false, w, f, d)
  {
    assert "" + w + "." + f == w + "." + f;
    ParseFieldsOf(w + "." + f, false, w, f, d);
  }

  lemma ZeroWhole(f: string, d: nat)
    requires AllDigits(f) && |f| <= d
    ensures AllDigits("0") && AmountOf("0", f, d) == AmountOf("", f, d)
  {
    NumOfZero();
  }

  lemma NoWhole(f: string, d: nat)
    requires AllDigits(f)
    ensures ParseWith("." + f, d) == ParseParts(false, "0", f, d)
  {
    var s := "" + "." + f;
    TrimPrinted(s);
    BodyOfDecimal("", f);
    assert s == "." + f && s[0] == '.';
  }

  lemma NumOfZero()
    ensures AllDigits("0") && NumOf("0") == 0
  {
    assert "0"[..0] == "";
  }

  /** Digits alone are read as whole units. */
  lemma ReadsWhole(w: string, d: nat)
    requires AllDigits(w) && w != "" && d <= 3
    ensures ParseWith(w, d)
         == if NumOf(w) * Pow10(d) > MAX_INT64 then Failure(TooLarge) else Success(NumOf(w) * Pow10(d))
  {
    WholeFields(w, d);
    WholeValue(w, d);
  }

  lemma WholeValue(w: string, d: nat)
    requires AllDigits(w) && d <= 3
    ensures ParseParts(false, w, "", d)
         == if NumOf(w) * Pow10(d) > MAX_INT64 then Failure(TooLarge) else Success(NumOf(w) * Pow10(d))
  {
    FieldsValue(false, w, "", d);
    NoDecimals(w, d);
  }

  lemma NoDecimals(w: string, d: nat)
    requires AllDigits(w)
    ensures AmountOf(w, "", d) == NumOf(w) * Pow10(d)
  {
    assert NumOf("") * Pow10(d) == 0;
  }

  lemma WholeFields(w: string, d: nat)
    requires AllDigits(w) && w != ""
    ensures ParseWith(w, d) == ParseParts(false, w, "", d)
  {
    assert "" + w == w;
    FieldsOfWhole(false, w);
  }

  /** One decimal too many is refused, never rounded away. */
  lemma TooManyDecimalsRefused(w: string, f: string, d: nat)
    requires AllDigits(w) && AllDigits(f) && w != "" && |f| > d
    ensures ParseWith(w + "." + f, d) == Failure(if NumOf(w) > MAX_INT64 then TooLarge else TooManyDecimals)
  {
    WithWhole(w, f, d);
  }

  predicate AmountChar(c: char) {
    IsDigit(c) || c == ',' || c == '.'
  }

  lemma {:induction false} NoCommasChars(s: string)
    requires AllDigits(CutDot(NoCommas(s)).0) && AllDigits(CutDot(NoCommas(s)).1)
    ensures forall i :: 0 <= i < |s| ==> AmountChar(s[i])
  {
    if s != "" {
      var n := NoCommas(s[1..]);
      if s[0] == '.' {
        assert NoCommas(s)[1..] == n;
        OnlyDigits(s[1..]);
      } else {
        if s[0] != ',' {
          assert NoCommas(s)[1..] == n && NoCommas(s)[0] == s[0];
          HeadAndTail(s[0], CutDot(n).0);
        } else {
          assert NoCommas(s) == n;
        }
        NoCommasChars(s[1..]);
      }
      assert s == [s[0]] + s[1..];
    }
  }

  lemma HeadAndTail(c: char, a: string)
    ensures AllDigits([c] + a) ==> IsDigit(c) && AllDigits(a)
  {
    if AllDigits([c] + a) {
      assert ([c] + a)[0] == c;
      forall i | 0 <= i < |a| ensures IsDigit(a[i]) {
        assert ([c] + a)[i + 1] == a[i];
      }
    }
  }

  lemma {:induction false} OnlyDigits(s: string)
    requires AllDigits(NoCommas(s))
    ensures forall i :: 0 <= i < |s| ==> AmountChar(s[i])
  {
    if s != "" {
      var n := NoCommas(s[1..]);
      if s[0] != ',' {
        assert NoCommas(s) == [s[0]] + n;
        HeadAndTail(s[0], n);
      } else {
        assert NoCommas(s) == n;
      }
      OnlyDigits(s[1..]);
      assert s == [s[0]] + s[1..];
    }
  }

  /** Nothing but digits, commas and dots is accepted after an optional sign. */
  lemma OnlyAmounts(s: string, d: nat)
    requires ParseWith(s, d).Success?
    ensures var t := Trim(s);
      t != "" && forall i :: 0 <= i < |t| ==> AmountChar(t[i]) || (i == 0 && (t[0] == '-' || t[0] == '+'))
  {
    var t := Trim(s);
    var u := if t[0] == '-' || t[0] == '+' then t[1..] else t;
    NoCommasChars(u);
    assert forall i :: 0 < i < |t| && u == t[1..] ==> t[i] == u[i - 1];
  }

  // ------------------------------------------------------------ the printer

  /** No leading zero but for zero itself. */
  lemma {:induction false} DigitsCanonical(n: nat)
    ensures Digits(n)[0] == '0' ==> n == 0 && Digits(n) == "0"
  {
    if n >= 10 { DigitsCanonical(n / 10); }
  }

  /** What is printed: a minus sign for a debt, the whole units, and exactly d decimals. */
  lemma PrintsDecimals(v: int, d: nat) returns (w: string, f: string)
    requires InInt64(v) && v != MIN_INT64 && d > 0
    ensures AllDigits(w) && AllDigits(f) && |f| == d && w != "" && (w[0] == '0' ==> w == "0")
    ensures FormatWith(v, d) == (if v < 0 then "-" else "") + w + "." + f
    ensures NumOf(w) * Pow10(d) + NumOf(f) == if v < 0 then -v else v
  {
    Pow10Positive(d);
    var whole, frac := SplitBy(if v < 0 then -v else v, Pow10(d));
    DecimalText(v, whole, frac, d);
    PaddedDigits(frac, d);
    NumOfDigits(whole);
    DigitsCanonical(whole);
    w, f := Digits(whole), PadTo(Digits(frac), d);
  }

  /** In a currency without decimals just the number. */
  lemma PrintsWhole(v: int)
    ensures FormatWith(v, 0) == FormatInt(v)
    ensures v >= 0 ==> AllDigits(FormatWith(v, 0)) && NumOf(FormatWith(v, 0)) == v
    ensures v < 0 ==> FormatWith(v, 0) == "-" + FormatWith(-v, 0)
  {
    NumOfDigits(if v < 0 then -v else v);
  }

  /** The places of some currencies, upper or lower case; one that is not known has two. */
  lemma CurrencyPlaces()
    ensures Decimals("USD") == Decimals("eur") == 2
    ensures Decimals("JPY") == Decimals("krw") == 0
    ensures Decimals("KWD") == Decimals("bhd") == 3
  {
    TwoPlaces();
    NoPlaces();
    ThreePlaces();
  }

  lemma TwoPlaces()
    ensures Decimals("USD") == Decimals("eur") == 2
  {
    assert Upper("USD") == "USD" && Upper("eur") == "EUR";
  }

  lemma NoPlaces()
    ensures Decimals("JPY") == Decimals("krw") == 0
  {
    assert Upper("JPY") == "JPY" && Upper("krw") == "KRW";
  }

  lemma ThreePlaces()
    ensures Decimals("KWD") == Decimals("bhd") == 3
  {
    assert Upper("KWD") == "KWD" && Upper("bhd") == "BHD";
  }
}
