/** The expense form: stored inputs, their text, and the post that comes back. */
module Form {
  import opened Text
  import opened Sums
  import opened Sorting
  import opened Division
  import opened Simplify
  import opened Ledger
  import opened Split
  import opened Compute
  import opened Money

  // ------------------------------------------------------------ whole numbers

  /** strconv.ParseInt in base 10 with 64 bits. */
  function ParseInt64(s: string): Option<int> {
    var digits := if s != "" && (s[0] == '-' || s[0] == '+') then s[1..] else s;
    if digits == "" || !AllDigits(digits) then None
    else
      var n: int := if s[0] == '-' then 0 - NumOf(digits) else NumOf(digits);
      if InInt64(n) then Some(n) else None
  }

  lemma ParseIntRoundTrip(v: int)
    requires InInt64(v)
    ensures ParseInt64(FormatInt(v)) == Some(v)
  {
    if v < 0 {
      NumOfDigits(-v);
      assert FormatInt(v)[1..] == Digits(-v);
    } else {
      NumOfDigits(v);
      assert IsDigit(Digits(v)[0]);
    }
  }

  // ---------------------------------------------------------- stored inputs

  const INPUTS_VERSION := 1

  /** The payload stored beside an expense; its JSON text is taken as read. */
  datatype Inputs = Inputs(version: int, split: Method, values: map<string, int>)

  function LineFromInput(m: Method, user: UserId, v: int): (l: Line)
    ensures l.user == user
    ensures UserSelectable(m) && m != EQUAL ==> Input(l, m) == v
  {
    var l := Line(user, 0, 0, 0, 0);
    match m
    case PERCENTAGE => l.(basisPoints := v)
    case EXACT => l.(exact := v)
    case SHARE => l.(shareUnits := v)
    case ADJUSTMENT => l.(adjustment := v)
    case _ => l
  }

  /** vals holds each splitter's one value, and nobody else's. */
  ghost predicate HoldsValues(vals: map<UserId, int>, m: Method, lines: seq<Line>) {
    && (forall i :: i in vals <==> i in LineUsers(lines))
    && (forall i :: i in vals ==> vals[i] == ValueOf(m, lines, i))
  }

  function ValueOf(m: Method, lines: seq<Line>, user: UserId): int {
    if lines == [] then 0
    else if lines[0].user == user then Input(lines[0], m)
    else ValueOf(m, lines[1..], user)
  }

  method EncodeInputs(m: Method, lines: seq<Line>) returns (p: Option<Inputs>)
    requires DistinctLines(lines)
    ensures p == if UserSelectable(m) && lines != []
                 then Some(Inputs(1, m, Encoded(m, lines))) else None
  {
    if !UserSelectable(m) || |lines| == 0 {
      return None;
    }
    var vals: map<string, int> := map[];
    for i := 0 to |lines|
      invariant vals == Encoded(m, lines[..i])
    {
      assert lines[..i + 1] == lines[..i] + [lines[i]];
      EncodedAppend(m, lines[..i], lines[i]);
      vals := vals[FormatInt(lines[i].user) := Input(lines[i], m)];
    }
    assert lines[..|lines|] == lines;
    p := Some(Inputs(INPUTS_VERSION, m, vals));
  }

  function Encoded(m: Method, lines: seq<Line>): map<string, int> {
    if lines == [] then map[]
    else Encoded(m, lines[..|lines| - 1])[FormatInt(lines[|lines| - 1].user) := Input(lines[|lines| - 1], m)]
  }

  lemma EncodedAppend(m: Method, lines: seq<Line>, l: Line)
    ensures Encoded(m, lines + [l]) == Encoded(m, lines)[FormatInt(l.user) := Input(l, m)]
  {
    var all := lines + [l];
    assert all[..|all| - 1] == lines;
  }

  ghost predicate Usable(p: Option<Inputs>, m: Method) {
    && p.Some? && p.value.version == INPUTS_VERSION && p.value.split == m
    && p.value.values != map[] && forall k :: k in p.value.values ==> ParseInt64(k).Some?
  }

  /** Any other version, another method or no values at all counts as nothing recorded. */
  method DecodeInputs(p: Option<Inputs>, m: Method) returns (r: Option<map<UserId, int>>)
    ensures r.Some? <==> Usable(p, m)
    ensures r.Some? ==> p.value.version == 1 && p.value.split == m && DecodesTo(r.value, p.value.values)
  {
    if p == None || p.value.version != INPUTS_VERSION || p.value.split != m || p.value.values == map[] {
      return None;
    }
    var vals := p.value.values;
    var out: map<UserId, int> := map[];
    var keys := vals.Keys;
    while keys != {}
      invariant keys <= vals.Keys
      invariant forall k :: k in vals && k !in keys ==> ParseInt64(k).Some? && ParseInt64(k).value in out
      invariant forall i :: i in out ==> exists k :: k in vals && ParseInt64(k) == Some(i) && out[i] == vals[k]
    {
      var k := NextKey(keys);
      keys := keys - {k};
      var id := ParseInt64(k);
      if id == None {
        return None;
      }
      out := out[id.value := vals[k]];
    }
    r := Some(out);
  }

  /** Every key is some recorded key read as a number, with one of its recorded values. */
  ghost predicate DecodesTo(out: map<UserId, int>, vals: map<string, int>) {
    && (forall k :: k in vals ==> ParseInt64(k).Some? && ParseInt64(k).value in out)
    && (forall i :: i in out ==> exists k :: k in vals && ParseInt64(k) == Some(i) && out[i] == vals[k])
  }

  predicate EncodesLine(m: Method, lines: seq<Line>, k: string)
    requires k in Encoded(m, lines)
  {
    var id := ParseInt64(k);
    id.Some? && id.value in LineUsers(lines) && Encoded(m, lines)[k] == ValueOf(m, lines, id.value)
  }

  lemma {:induction false} EncodedIs(m: Method, lines: seq<Line>, user: UserId)
    requires DistinctLines(lines) && forall i :: i in LineUsers(lines) ==> InInt64(i)
    ensures forall k :: k in Encoded(m, lines) ==> EncodesLine(m, lines, k)
    ensures user in LineUsers(lines) ==> FormatInt(user) in Encoded(m, lines)
  {
    if lines != [] {
      var init, l := lines[..|lines| - 1], lines[|lines| - 1];
      assert lines == init + [l];
      AppendLine(init, l);
      EncodedIs(m, init, user);
      ParseIntRoundTrip(l.user);
      forall u | u in LineUsers(lines) ensures ValueOf(m, lines, u) == if u == l.user then Input(l, m) else ValueOf(m, init, u) {
        ValueOfAppend(m, init, l, u);
      }
    }
  }

  lemma {:induction false} ValueOfAppend(m: Method, lines: seq<Line>, l: Line, u: UserId)
    requires l.user !in LineUsers(lines) && u in LineUsers(lines) + {l.user}
    ensures ValueOf(m, lines + [l], u) == if u == l.user then Input(l, m) else ValueOf(m, lines, u)
  {
    if lines != [] {
      assert (lines + [l])[1..] == lines[1..] + [l];
      if lines[0].user != u { ValueOfAppend(m, lines[1..], l, u); }
    }
  }

  /** Decoding what was encoded gives back each splitter's value. */
  lemma EncodeDecode(m: Method, lines: seq<Line>, out: map<UserId, int>)
    requires DistinctLines(lines) && forall i :: i in LineUsers(lines) ==> InInt64(i)
    requires DecodesTo(out, Encoded(m, lines))
    ensures HoldsValues(out, m, lines)
  {
    EncodedIs(m, lines, 0);
    forall u | u in LineUsers(lines) ensures u in out {
      EncodedIs(m, lines, u);
      ParseIntRoundTrip(u);
      assert FormatInt(u) in Encoded(m, lines);
    }
    forall i | i in out ensures i in LineUsers(lines) && out[i] == ValueOf(m, lines, i) {
      var k :| k in Encoded(m, lines) && ParseInt64(k) == Some(i) && out[i] == Encoded(m, lines)[k];
      assert EncodesLine(m, lines, k);
    }
  }

  // ----------------------------------------------------------- field values

  function OrZero(s: string): string {
    if Trim(s) == "" then "0" else s
  }

  function FromParse(r: Result<int, ParseError>): Option<int> {
    match r
    case Success(v) => Some(v)
    case Failure(_) => None
  }

  /** A field's text as the method's value; percentages are two-decimal numbers. */
  function ValueForMethod(m: Method, val: string, currency: string): Option<int> {
    match m
    case EQUAL => Some(0)
    case PERCENTAGE => FromParse(ParseOf(OrZero(val), "USD"))
    case EXACT => FromParse(ParseOf(OrZero(val), currency))
    case SHARE => ParseInt64(OrZero(val))
    case ADJUSTMENT => FromParse(ParseOf(OrZero(val), currency))
    case _ => None
  }

  function FormatValue(m: Method, v: int, currency: string): string {
    match m
    case PERCENTAGE => FormatOf(v, "USD")
    case EXACT => FormatOf(v, currency)
    case ADJUSTMENT => FormatOf(v, currency)
    case SHARE => FormatInt(v)
    case _ => ""
  }

  lemma PrintedFormat(v: int, d: nat)
    ensures Printed(FormatWith(v, d)) && FormatWith(v, d) != ""
  {
    if d > 0 {
      Pow10Positive(d);
      var minor := if v < 0 then Neg64(v) else v;
      var whole, frac := FormatInt(TDiv(minor, Pow10(d))), FormatInt(minor - Pow10(d) * TDiv(minor, Pow10(d)));
      PrintedField(frac, d);
      PrintedJoin(if v < 0 then "-" else "", whole, PadTo(frac, d));
    }
  }

  lemma PrintedJoin(sign: string, w: string, f: string)
    requires Printed(sign) && Printed(w) && Printed(f)
    ensures Printed(sign + w + "." + f) && sign + w + "." + f != ""
  {
  }

  /** An untouched field posts the value it was rendered from. */
  lemma FieldRoundTrip(m: Method, v: int, currency: string)
    requires UserSelectable(m) && m != EQUAL && InInt64(v) && v != MIN_INT64
    ensures ValueForMethod(m, Trim(FormatValue(m, v, currency)), currency) == Some(v)
  {
    var s := FormatValue(m, v, currency);
    if m == SHARE {
      assert Printed(s) && s != "";
      ParseIntRoundTrip(v);
    } else {
      var c := if m == PERCENTAGE then "USD" else currency;
      PrintedFormat(v, Decimals(c));
      RoundTripWith(v, Decimals(c));
    }
    TrimPrinted(s);
  }

  // ------------------------------------------------------------------- post

  predicate ByUser(x: Line, y: Line) {
    x.user < y.user
  }

  function PostedLine(form: map<UserId, string>, m: Method, currency: string, id: UserId): Option<Line>
    requires id in form
  {
    match ValueForMethod(m, Trim(form[id]), currency)
    case Some(v) => Some(LineFromInput(m, id, v))
    case None => None
  }

  /** lines are the posted splitters' lines, by user id. */
  ghost predicate LinesOf(lines: seq<Line>, form: map<UserId, string>, m: Method, currency: string) {
    && SortedBy(lines, ByUser)
    && forall l :: l in lines <==> l.user in form && PostedLine(form, m, currency, l.user) == Some(l)
  }

  /** Reads the included participants in any order and sorts them. */
  method ParseLines(form: map<UserId, string>, m: Method, currency: string) returns (r: Option<seq<Line>>)
    ensures r.Some? <==> form != map[] && forall id :: id in form ==> PostedLine(form, m, currency, id).Some?
    ensures r.Some? ==> LinesOf(r.value, form, m, currency)
  {
    var lines: seq<Line> := [];
    var ids := form.Keys;
    while ids != {}
      invariant ids <= form.Keys
      invariant forall id :: id in form && id !in ids ==> PostedLine(form, m, currency, id).Some?
      invariant forall l :: l in lines <==> l.user in form && l.user !in ids && PostedLine(form, m, currency, l.user) == Some(l)
      invariant forall i, j :: 0 <= i < j < |lines| ==> lines[i].user != lines[j].user
    {
      var id := NextKey(ids);
      ids := ids - {id};
      var line := PostedLine(form, m, currency, id);
      if line == None {
        return None;
      }
      lines := lines + [line.value];
    }
    NoLines(lines, form, m, currency);
    if |lines| == 0 {
      return None;
    }
    lines := SortLines(lines);
    r := Some(lines);
  }

  lemma NoLines(lines: seq<Line>, form: map<UserId, string>, m: Method, currency: string)
    requires forall id :: id in form ==> PostedLine(form, m, currency, id).Some?
    requires forall l :: l in lines <==> l.user in form && PostedLine(form, m, currency, l.user) == Some(l)
    ensures lines == [] <==> form == map[]
  {
    if lines != [] { assert lines[0] in lines; }
    forall id | id in form ensures lines != [] {
      assert PostedLine(form, m, currency, id).value in lines;
    }
  }

  method SortLines(lines: seq<Line>) returns (r: seq<Line>)
    requires forall i, j :: 0 <= i < j < |lines| ==> lines[i].user != lines[j].user
    ensures SortedBy(r, ByUser) && forall l :: l in r <==> l in lines
  {
    r := Sort(lines, ByUser);
    SortSorts(lines, ByUser);
    Members(r, lines);
  }

  /** The same post always gives the same lines. */
  lemma LinesUnique(a: seq<Line>, b: seq<Line>, form: map<UserId, string>, m: Method, currency: string)
    requires LinesOf(a, form, m, currency) && LinesOf(b, form, m, currency)
    ensures a == b
  {
    SortedUnique(a, b, ByUser);
  }

  /** What a field's text means: nothing for EQUAL, a two-decimal number for PERCENTAGE whatever the
      currency, an amount in the currency for EXACT and ADJUSTMENT, a whole number for SHARE; a blank
      field means zero. */
  lemma FieldMeans(val: string, currency: string)
    ensures ValueForMethod(EQUAL, val, currency) == Some(0)
    ensures ValueForMethod(PERCENTAGE, val, currency) == FromParse(ParseWith(if Trim(val) == "" then "0" else val, 2))
    ensures ValueForMethod(EXACT, val, currency) == ValueForMethod(ADJUSTMENT, val, currency)
         == FromParse(ParseWith(if Trim(val) == "" then "0" else val, Decimals(currency)))
    ensures ValueForMethod(SHARE, val, currency) == ParseInt64(if Trim(val) == "" then "0" else val)
  {
    PercentPlaces();
  }

  lemma PercentPlaces()
    ensures Decimals("USD") == 2
  {
    assert Upper("USD") == "USD";
  }

  /** Whole numbers: digits with an optional sign, within 64 bits. */
  lemma WholeNumber(digits: string)
    requires AllDigits(digits) && digits != ""
    ensures var n: int := NumOf(digits); ParseInt64(digits) == ParseInt64("+" + digits) == if n <= MAX_INT64 then Some(n) else None
    ensures var n: int := NumOf(digits); ParseInt64("-" + digits) == if n <= MAX_INT64 + 1 then Some(-n) else None
    ensures ParseInt64("") == ParseInt64("+") == ParseInt64("-") == None
  {
    assert IsDigit(digits[0]);
    assert ("+" + digits)[1..] == digits && ("-" + digits)[1..] == digits;
    assert "+"[1..] == "" && "-"[1..] == "";
  }
}
