/** Filling the edit form of an expense with no recorded inputs from its stored rows. */
module Derived {
  import opened Text
  import opened Sums
  import opened Sorting
  import opened Division
  import opened Shuffle
  import opened Simplify
  import opened Ledger
  import Archive
  import opened Split
  import opened Compute
  import opened Money
  import opened Form
  import opened Prefill

  /** The share a stored row stands for. */
  function ShareOf(amount: int, payer: UserId, p: Part): int {
    if p.user == payer then amount - p.amount else 0 - p.amount
  }

  /** Everyone's share, from the stored rows. */
  function DerivedShares(amount: int, payer: UserId, parts: seq<Part>): (r: map<UserId, int>)
    ensures r.Keys == Users(parts)
  {
    if parts == [] then map[]
    else DerivedShares(amount, payer, parts[1..])[parts[0].user := ShareOf(amount, payer, parts[0])]
  }

  /** An adjustment split cannot be told from exact shares. */
  function ShownMethod(m: Method): Method {
    if m == ADJUSTMENT then EXACT else m
  }

  /** Go's quotient, truncated toward zero, for any divisor but zero. */
  function Quot(a: int, b: int): int
    requires b != 0
  {
    if b > 0 then TDiv(a, b) else TDiv(-a, -b)
  }

  /** The value each included person's field stands for. */
  function DerivedValues(e: Expense): map<UserId, int> {
    var shares := DerivedShares(e.amount, e.paidBy, e.parts);
    if e.split == EQUAL && e.paidBy in shares && shares[e.paidBy] == 0 then shares - {e.paidBy}
    else if e.split == PERCENTAGE && e.amount != 0 then
      map u | u in shares :: Quot(shares[u] * BASIS_POINTS_FULL, e.amount)
    else shares
  }

  function DerivedShown(cands: seq<Candidate>, e: Expense): (r: seq<int>)
    ensures |r| == |IncludedValues(cands, DerivedValues(e))|
  {
    var vals := IncludedValues(cands, DerivedValues(e));
    if e.split == PERCENTAGE && e.amount != 0 then Rebalanced(vals, BASIS_POINTS_FULL) else vals
  }

  /** How fields are written; percentages of nothing are left blank. */
  function FieldMethod(e: Expense): Method {
    if e.split == PERCENTAGE && e.amount == 0 then EQUAL else ShownMethod(e.split)
  }

  /** The form as rendered from the rows alone. */
  function DerivedForm(cands: seq<Candidate>, e: Expense): seq<Candidate> {
    Filled(cands, DerivedValues(e), DerivedShown(cands, e), FieldMethod(e), e.currency)
  }

  method CollectShares(e: Expense) returns (amtByUser: map<UserId, int>)
    requires NoRepeat(e.parts)
    ensures amtByUser.Keys == Users(e.parts)
    ensures forall u :: u in amtByUser ==> amtByUser[u] == PartOf(e.parts, u)
  {
    amtByUser := map[];
    for i := 0 to |e.parts|
      invariant amtByUser.Keys + Users(e.parts[i..]) == Users(e.parts)
      invariant NoRepeat(e.parts[i..]) && amtByUser.Keys !! Users(e.parts[i..])
      invariant forall u :: u in amtByUser ==> amtByUser[u] == PartOf(e.parts, u)
      invariant forall u :: u in Users(e.parts[i..]) ==> PartOf(e.parts[i..], u) == PartOf(e.parts, u)
    {
      assert e.parts[i..][1..] == e.parts[i + 1..];
      Archive.AbsentUser(e.parts[i + 1..], e.parts[i].user);
      amtByUser := amtByUser[e.parts[i].user := e.parts[i].amount];
    }
  }

  lemma {:induction false} SharesAre(amount: int, payer: UserId, parts: seq<Part>, u: UserId)
    requires NoRepeat(parts) && u in Users(parts)
    ensures DerivedShares(amount, payer, parts)[u] == (if u == payer then amount else 0) - PartOf(parts, u)
  {
    if parts[0].user == u {
      Archive.AbsentUser(parts[1..], u);
    } else {
      SharesAre(amount, payer, parts[1..], u);
    }
  }

  /** Fills the form from the rows: shares first, then the fields. */
  method PrefillDerived(cands: seq<Candidate>, e: Expense) returns (r: seq<Candidate>, m: Method)
    requires NoRepeat(e.parts)
    ensures r == DerivedForm(cands, e) && m == ShownMethod(e.split)
  {
    var amtByUser := CollectShares(e);
    m := ShownMethod(e.split);
    var values := map u | u in amtByUser :: if u == e.paidBy then e.amount - amtByUser[u] else 0 - amtByUser[u];
    forall u | u in values ensures values[u] == DerivedShares(e.amount, e.paidBy, e.parts)[u] {
      SharesAre(e.amount, e.paidBy, e.parts, u);
    }
    assert values == DerivedShares(e.amount, e.paidBy, e.parts);
    r := FillDerived(cands, e, values);
  }

  method FillDerived(cands: seq<Candidate>, e: Expense, shares: map<UserId, int>) returns (r: seq<Candidate>)
    requires shares == DerivedShares(e.amount, e.paidBy, e.parts)
    ensures r == DerivedForm(cands, e)
  {
    var values := shares;
    if e.split == EQUAL && e.paidBy in values && values[e.paidBy] == 0 {
      values := values - {e.paidBy};
    }
    if e.split == PERCENTAGE && e.amount != 0 {
      values := map u | u in values :: Quot(values[u] * BASIS_POINTS_FULL, e.amount);
    }
    assert values == DerivedValues(e);
    var vals := IncludedValues(cands, values);
    if e.split == PERCENTAGE && e.amount != 0 {
      var a := new int[|vals|](i requires 0 <= i < |vals| => vals[i]);
      assert a[..] == vals;
      RebalanceToTarget(a, BASIS_POINTS_FULL);
      vals := a[..];
    }
    r := FillIn(cands, values, vals, FieldMethod(e), e.currency);
  }

  /** Percentages are each person's share of the amount in hundredths of a percent, cut off toward
      zero; the largest shown takes what is missing from a hundred. */
  lemma PercentShown(cands: seq<Candidate>, e: Expense, u: UserId)
    requires e.split == PERCENTAGE && e.amount > 0 && NoRepeat(e.parts) && u in Users(e.parts)
    ensures u in DerivedValues(e)
    ensures var q, full := DerivedValues(e)[u], ((if u == e.paidBy then e.amount else 0) - PartOf(e.parts, u)) * 10000;
      if full >= 0 then 0 <= full - e.amount * q < e.amount else -e.amount < full - e.amount * q <= 0
    ensures var vals := IncludedValues(cands, DerivedValues(e));
      && (vals != [] ==> Sum(DerivedShown(cands, e)) == 10000)
      && (forall j :: 0 <= j < |vals| && (exists i :: 0 <= i < |vals| && (vals[i] > vals[j] || (vals[i] == vals[j] && i < j)))
            ==> DerivedShown(cands, e)[j] == vals[j])
  {
    SharesAre(e.amount, e.paidBy, e.parts, u);
    TDivError(((if u == e.paidBy then e.amount else 0) - PartOf(e.parts, u)) * BASIS_POINTS_FULL, e.amount);
    var vals := IncludedValues(cands, DerivedValues(e));
    if vals != [] { RebalanceHits(vals, BASIS_POINTS_FULL); }
  }

  // ------------------------------------------------------------ the inverse

  lemma {:induction false} DerivedSum(amount: int, payer: UserId, parts: seq<Part>)
    requires NoRepeat(parts)
    ensures MapSum(DerivedShares(amount, payer, parts)) == (if payer in Users(parts) then amount else 0) - PartSum(parts)
  {
    if parts != [] {
      DerivedSum(amount, payer, parts[1..]);
      TotalUpdate(DerivedShares(amount, payer, parts[1..]), parts[0].user, ShareOf(amount, payer, parts[0]), Same());
    }
  }

  /** lines carry exactly the given values. */
  ghost predicate Carries(lines: seq<Line>, values: map<UserId, int>, m: Method) {
    && SortedBy(lines, ByUser)
    && forall l :: l in lines <==> l.user in values && l == LineFromInput(m, l.user, values[l.user])
  }

  lemma CarriedLines(lines: seq<Line>, values: map<UserId, int>, m: Method)
    requires UserSelectable(m) && Carries(lines, values, m)
    ensures DistinctLines(lines) && LineUsers(lines) == values.Keys
    ensures m != EQUAL ==> HoldsValues(values, m, lines)
  {
    SortedDistinct(lines);
    forall u ensures u in values <==> u in LineUsers(lines) {
      if u in values {
        assert LineFromInput(m, u, values[u]) in lines;
        ValueOfLine(m, lines, LineFromInput(m, u, values[u]));
      }
      if u in LineUsers(lines) {
        var i :| 0 <= i < |lines| && lines[i].user == u;
        assert lines[i] in lines;
      }
    }
    if m != EQUAL {
      forall u | u in values ensures values[u] == ValueOf(m, lines, u) {
        ValueOfLine(m, lines, LineFromInput(m, u, values[u]));
      }
    }
  }

  /** The lines that come back when the form is posted as rendered. */
  lemma PostedValues(lines: seq<Line>, cands: seq<Candidate>, values: map<UserId, int>, m: Method, currency: string)
    requires UserSelectable(m) && Prefill.DistinctIds(cands) && values.Keys <= Prefill.Ids(cands)
    requires m != EQUAL ==> forall u :: u in values ==> Fits(values[u])
    requires LinesOf(lines, Post(Filled(cands, values, IncludedValues(cands, values), m, currency)), m, currency)
    ensures Carries(lines, values, m)
  {
    var post := Post(Filled(cands, values, IncludedValues(cands, values), m, currency));
    forall l ensures l in lines <==> l.user in values && l == LineFromInput(m, l.user, values[l.user]) {
      PostOfFilled(cands, values, m, currency, l.user);
      if l.user in values {
        if m != EQUAL { FieldRoundTrip(m, values[l.user], currency); }
        assert PostedLine(post, m, currency, l.user) == Some(LineFromInput(m, l.user, values[l.user]));
      }
    }
  }

  lemma {:induction false} FinalPart(payer: UserId, lines: seq<Line>, m: Method, u: UserId)
    requires DistinctLines(lines)
    ensures PayerShare(payer, lines, Column(m, lines)) == ValueOf(m, lines, payer)
    ensures PartOf(OtherRows(payer, lines, Column(m, lines)), u) == if u == payer then 0 else 0 - ValueOf(m, lines, u)
  {
    if lines != [] {
      FinalPart(payer, lines[1..], m, u);
      assert Column(m, lines)[1..] == Column(m, lines[1..]);
      NoValue(m, lines[1..], lines[0].user);
    }
  }

  lemma {:induction false} NoValue(m: Method, lines: seq<Line>, u: UserId)
    requires u !in LineUsers(lines)
    ensures ValueOf(m, lines, u) == 0
  {
    if lines != [] { NoValue(m, lines[1..], u); }
  }

  /** Rows made from the derived shares are the stored rows. */
  lemma RowsComeBack(amount: int, payer: UserId, parts: seq<Part>, lines: seq<Line>, m: Method, u: UserId)
    requires ValidRows(payer, parts) && UserSelectable(m) && m != EQUAL
    requires Carries(lines, DerivedShares(amount, payer, parts), m)
    ensures var rows := FinalRows(amount, payer, lines, Column(m, lines));
      PartOf(rows, u) == PartOf(parts, u)
    ensures Sum(Column(m, lines)) == amount
  {
    var values := DerivedShares(amount, payer, parts);
    var rows := FinalRows(amount, payer, lines, Column(m, lines));
    CarriedLines(lines, values, m);
    ColumnSum(m, lines, values);
    DerivedSum(amount, payer, parts);
    FinalPart(payer, lines, m, u);
    assert rows[1..] == OtherRows(payer, lines, Column(m, lines));
    SharesAre(amount, payer, parts, payer);
    if u in values {
      SharesAre(amount, payer, parts, u);
    } else {
      NoValue(m, lines, u);
      Archive.AbsentUser(parts, u);
    }
  }

  predicate Fits(v: int) {
    InInt64(v) && v != MIN_INT64
  }

  /** The rows name the same people with the same amounts. */
  ghost predicate SameRows(rows: seq<Part>, parts: seq<Part>) {
    && NoRepeat(rows) && Users(rows) == Users(parts)
    && forall u :: PartOf(rows, u) == PartOf(parts, u)
  }

  /** Weights that are the shares themselves divide the total without anything left over. */
  lemma SharesAsUnits(rng: Prng, total: int, date: string, col: seq<int>)
    requires col != [] && Sum(col) == total && Refusal(SHARE, total, col) == None
    ensures SharesOf(rng, SHARE, total, date, col) == Success(col)
  {
    var base := BaseShares(SHARE, total, col);
    forall i | 0 <= i < |col| ensures base[i] == col[i] {
      assert col[i] * total >= 0 by { SignOfProduct(col[i], total); }
      assert total * col[i] == col[i] * total;
      DivUnique(col[i] * total, total, col[i]);
    }
    assert base == col;
    DistributedIs(rng, col, total, date);
  }

  lemma AllRowsBack(amount: int, payer: UserId, parts: seq<Part>, lines: seq<Line>, m: Method)
    requires ValidRows(payer, parts) && UserSelectable(m) && m != EQUAL
    requires Carries(lines, DerivedShares(amount, payer, parts), m)
    ensures DistinctLines(lines) && lines != [] && Sum(Column(m, lines)) == amount
    ensures SameRows(FinalRows(amount, payer, lines, Column(m, lines)), parts)
  {
    var rows := FinalRows(amount, payer, lines, Column(m, lines));
    CarriedLines(lines, DerivedShares(amount, payer, parts), m);
    RowsComeBack(amount, payer, parts, lines, m, payer);
    FinalRowsValid(amount, payer, lines, Column(m, lines));
    forall u ensures PartOf(rows, u) == PartOf(parts, u) {
      RowsComeBack(amount, payer, parts, lines, m, u);
    }
  }

  /** Some share is negative exactly when some value in the column is. */
  lemma NegativeShare(lines: seq<Line>, values: map<UserId, int>, m: Method)
    requires UserSelectable(m) && m != EQUAL && Carries(lines, values, m)
    ensures SomeNegative(Column(m, lines)) <==> exists u :: u in values && values[u] < 0
  {
    if SomeNegative(Column(m, lines)) {
      var i :| 0 <= i < |lines| && Column(m, lines)[i] < 0;
      assert lines[i] in lines;
      assert values[lines[i].user] < 0;
    }
    forall u | u in values && values[u] < 0 ensures SomeNegative(Column(m, lines)) {
      var l := LineFromInput(m, u, values[u]);
      assert l in lines;
      var i :| 0 <= i < |lines| && lines[i] == l;
      assert Column(m, lines)[i] < 0;
    }
  }

  /** Posting the form derived from an EXACT or ADJUSTMENT expense gives back its rows, on any
      date. */
  lemma ExactResave(rng: Prng, cands: seq<Candidate>, e: Expense, lines: seq<Line>, date: string)
    requires e.split in {EXACT, ADJUSTMENT} && ValidRows(e.paidBy, e.parts)
    requires Prefill.DistinctIds(cands) && Users(e.parts) <= Prefill.Ids(cands)
    requires forall u :: u in DerivedValues(e) ==> Fits(DerivedValues(e)[u])
    requires LinesOf(lines, Post(DerivedForm(cands, e)), ShownMethod(e.split), e.currency)
    ensures ComputeOf(rng, EXACT, e.amount, e.paidBy, date, lines).Success?
    ensures SameRows(ComputeOf(rng, EXACT, e.amount, e.paidBy, date, lines).value, e.parts)
  {
    PostedValues(lines, cands, DerivedValues(e), EXACT, e.currency);
    AllRowsBack(e.amount, e.paidBy, e.parts, lines, EXACT);
  }

  /** For a SHARE expense the re-save is accepted exactly when the amount is positive and no
      share is negative, and then it gives back the rows. */
  lemma ShareResave(rng: Prng, cands: seq<Candidate>, e: Expense, lines: seq<Line>, date: string)
    requires e.split == SHARE && ValidRows(e.paidBy, e.parts)
    requires Prefill.DistinctIds(cands) && Users(e.parts) <= Prefill.Ids(cands)
    requires forall u :: u in DerivedValues(e) ==> Fits(DerivedValues(e)[u])
    requires LinesOf(lines, Post(DerivedForm(cands, e)), SHARE, e.currency)
    ensures var r := ComputeOf(rng, SHARE, e.amount, e.paidBy, date, lines);
      && (r.Success? <==> e.amount > 0 && forall u :: u in DerivedValues(e) ==> DerivedValues(e)[u] >= 0)
      && (r.Success? ==> SameRows(r.value, e.parts))
  {
    var col := Column(SHARE, lines);
    PostedValues(lines, cands, DerivedValues(e), SHARE, e.currency);
    AllRowsBack(e.amount, e.paidBy, e.parts, lines, SHARE);
    NegativeShare(lines, DerivedValues(e), SHARE);
    if Refusal(SHARE, e.amount, col) == None {
      SharesAsUnits(rng, e.amount, date, col);
    }
  }

  /** The largest amount for which a weight below it times the amount always fits 64 bits. */
  const MAX_WEIGHED := 3037000500

  /** The weights of such a re-save are minor units themselves. Up to that amount every product of
      a weight with the amount fits 64 bits, a lone weight having been divided down to 1. */
  lemma ShareProductsFit(cands: seq<Candidate>, e: Expense, lines: seq<Line>, i: int)
    requires e.split == SHARE && ValidRows(e.paidBy, e.parts)
    requires Prefill.DistinctIds(cands) && Users(e.parts) <= Prefill.Ids(cands)
    requires forall u :: u in DerivedValues(e) ==> Fits(DerivedValues(e)[u])
    requires LinesOf(lines, Post(DerivedForm(cands, e)), SHARE, e.currency)
    requires var col := Column(SHARE, lines);
      Refusal(SHARE, e.amount, col) == None && 0 <= i < |col|
    ensures var w := Column(SHARE, lines)[i];
      && 0 <= w <= e.amount
      && (e.amount <= MAX_WEIGHED ==> InInt64((if w == e.amount then 1 else w) * e.amount))
  {
    var col := Column(SHARE, lines);
    PostedValues(lines, cands, DerivedValues(e), SHARE, e.currency);
    AllRowsBack(e.amount, e.paidBy, e.parts, lines, SHARE);
    TermBound(col, i);
    if e.amount <= MAX_WEIGHED { WeightFits(col[i], e.amount); }
  }

  lemma WeightFits(w: int, amount: int)
    requires 0 <= w <= amount <= MAX_WEIGHED
    ensures InInt64((if w == amount then 1 else w) * amount)
  {
    if w < amount {
      MulMono(w, amount - 1, amount);
      MulMono(amount - 1, MAX_WEIGHED - 1, amount);
      MulMono(amount, MAX_WEIGHED, MAX_WEIGHED - 1);
    }
  }

  /** Beyond it they need not: all but one unit on the payer, the weight 1 leaving nothing to
      divide by. */
  lemma ShareProductTooLarge(amount: int) returns (e: Expense)
    requires MAX_WEIGHED < amount <= MAX_INT64
    ensures e.split == SHARE && e.amount == amount && ValidRows(e.paidBy, e.parts)
    ensures DerivedValues(e) == map[1 := amount - 1, 2 := 1] && (forall u :: u in DerivedValues(e) ==> Fits(DerivedValues(e)[u]))
    ensures !InInt64(DerivedValues(e)[1] * e.amount)
  {
    var parts := [Part(1, 1), Part(2, -1)];
    var rest := parts[1..];
    assert rest == [Part(2, -1)] && rest[1..] == [];
    assert Users(rest[1..]) == {} && PartSum(rest[1..]) == 0 && NoRepeat(rest[1..]);
    assert Users(rest) == {2} && PartSum(rest) == -1 && NoRepeat(rest);
    e := Expense(amount, SHARE, "", "USD", 1, None, None, false, 1, parts);
    assert DerivedShares(amount, 1, rest[1..]) == map[] && DerivedShares(amount, 1, rest) == map[2 := 1];
    MulMono(MAX_WEIGHED, amount - 1, amount);
    MulMono(MAX_WEIGHED + 1, amount, MAX_WEIGHED);
  }

  /** A payer outside the split has no share. */
  lemma OutsidePayer(rng: Prng, e: Expense, lines: seq<Line>)
    requires ComputeOf(rng, EQUAL, e.amount, e.paidBy, e.date, lines) == Success(e.parts)
    requires e.paidBy !in LineUsers(lines)
    ensures PartOf(e.parts, e.paidBy) == e.amount
  {
    var shares := SharesOf(rng, EQUAL, e.amount, e.date, Column(EQUAL, lines)).value;
    assert e.parts[1..] == OtherRows(e.paidBy, lines, shares);
    PayerAmongOthers(e.paidBy, lines, shares);
    NoRowOf(e.paidBy, lines, shares, e.paidBy);
  }

  lemma EqualKeys(e: Expense)
    requires e.split == EQUAL && NoRepeat(e.parts) && e.paidBy in Users(e.parts)
    ensures DerivedValues(e).Keys == Users(e.parts) - (if PartOf(e.parts, e.paidBy) == e.amount then {e.paidBy} else {})
  {
    SharesAre(e.amount, e.paidBy, e.parts, e.paidBy);
  }

  /** The included people are the participants unless the payer took part with nothing to pay. */
  lemma EqualIncluded(rng: Prng, e: Expense, lines: seq<Line>)
    requires e.split == EQUAL
    requires ComputeOf(rng, EQUAL, e.amount, e.paidBy, e.date, lines) == Success(e.parts)
    ensures DerivedValues(e).Keys == LineUsers(lines) <==> !(e.paidBy in LineUsers(lines) && PartOf(e.parts, e.paidBy) == e.amount)
    ensures DerivedValues(e).Keys <= Users(e.parts)
  {
    ComputeValid(rng, EQUAL, e.amount, e.paidBy, e.date, lines);
    EqualKeys(e);
    if e.paidBy !in LineUsers(lines) { OutsidePayer(rng, e, lines); }
  }

  /** An EQUAL expense comes back with its own participants exactly when the payer is not one
      of them with nothing to pay: the rows cannot tell that case from a payer outside the
      split. */
  lemma EqualResave(rng: Prng, cands: seq<Candidate>, e: Expense, lines: seq<Line>, again: seq<Line>)
    requires e.split == EQUAL && FormLines(EQUAL, lines)
    requires ComputeOf(rng, EQUAL, e.amount, e.paidBy, e.date, lines) == Success(e.parts)
    requires Prefill.DistinctIds(cands) && Users(e.parts) <= Prefill.Ids(cands)
    requires LinesOf(again, Post(DerivedForm(cands, e)), EQUAL, e.currency)
    ensures again == lines <==> !(e.paidBy in LineUsers(lines) && PartOf(e.parts, e.paidBy) == e.amount)
  {
    EqualIncluded(rng, e, lines);
    PostedValues(again, cands, DerivedValues(e), EQUAL, e.currency);
    CarriedLines(again, DerivedValues(e), EQUAL);
    if LineUsers(again) == LineUsers(lines) {
      FormOfCarried(again, DerivedValues(e));
      SameBareLines(lines, again);
    }
  }

  lemma FormOfCarried(lines: seq<Line>, values: map<UserId, int>)
    requires Carries(lines, values, EQUAL)
    ensures FormLines(EQUAL, lines)
  {
  }

  lemma {:induction false} NothingToPay(payer: UserId, lines: seq<Line>, shares: seq<int>)
    requires |lines| == |shares| && forall i :: 0 <= i < |shares| ==> shares[i] == 0
    ensures PayerShare(payer, lines, shares) == 0
  {
    if lines != [] { NothingToPay(payer, lines[1..], shares[1..]); }
  }

  /** Every EQUAL expense of nothing is such a case: a payer who took part is not shown. */
  lemma ZeroAmountHidesPayer(rng: Prng, cands: seq<Candidate>, e: Expense, lines: seq<Line>, again: seq<Line>)
    requires e.split == EQUAL && e.amount == 0 && FormLines(EQUAL, lines) && e.paidBy in LineUsers(lines)
    requires ComputeOf(rng, EQUAL, e.amount, e.paidBy, e.date, lines) == Success(e.parts)
    requires Prefill.DistinctIds(cands) && Users(e.parts) <= Prefill.Ids(cands)
    requires LinesOf(again, Post(DerivedForm(cands, e)), EQUAL, e.currency)
    ensures again != lines
  {
    PayerGetsNothing(rng, e, lines);
    EqualResave(rng, cands, e, lines, again);
  }

  lemma PayerGetsNothing(rng: Prng, e: Expense, lines: seq<Line>)
    requires e.amount == 0 && ComputeOf(rng, EQUAL, e.amount, e.paidBy, e.date, lines) == Success(e.parts)
    ensures PartOf(e.parts, e.paidBy) == 0
  {
    var col := Column(EQUAL, lines);
    var base := BaseShares(EQUAL, 0, col);
    assert base == seq(|col|, _ => 0);
    SumConst(|col|, 0);
    DistributedIs(rng, base, 0, e.date);
    NothingToPay(e.paidBy, lines, base);
    PayerAmongOthers(e.paidBy, lines, base);
    assert e.parts[1..] == OtherRows(e.paidBy, lines, base);
  }

  /** And there is one: two people splitting nothing. */
  lemma ZeroAmountExpense(rng: Prng) returns (e: Expense, lines: seq<Line>)
    ensures e.split == EQUAL && e.amount == 0 && FormLines(EQUAL, lines) && e.paidBy in LineUsers(lines)
    ensures ComputeOf(rng, EQUAL, e.amount, e.paidBy, e.date, lines) == Success(e.parts)
  {
    lines := [Line(1, 0, 0, 0, 0), Line(2, 0, 0, 0, 0)];
    assert lines[1..] == [Line(2, 0, 0, 0, 0)] && lines[1..][1..] == [];
    assert LineUsers(lines[1..]) == {2} && DistinctLines(lines[1..]);
    var r := ComputeOf(rng, EQUAL, 0, 1, "", lines);
    e := Expense(0, EQUAL, "", "USD", 1, None, None, false, 1, r.value);
  }

  lemma SameBareLines(lines: seq<Line>, again: seq<Line>)
    requires FormLines(EQUAL, lines) && FormLines(EQUAL, again) && LineUsers(lines) == LineUsers(again)
    ensures lines == again
  {
    SortedDistinct(lines);
    SortedDistinct(again);
    forall l ensures l in lines <==> l in again {
      if l in lines {
        ValueOfLine(EQUAL, lines, l);
        var i :| 0 <= i < |again| && again[i].user == l.user;
        assert again[i] in again;
      }
      if l in again {
        ValueOfLine(EQUAL, again, l);
        var i :| 0 <= i < |lines| && lines[i].user == l.user;
        assert lines[i] in lines;
      }
    }
    SortedUnique(lines, again, ByUser);
  }
}
