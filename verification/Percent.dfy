/** Re-saving a PERCENTAGE expense with no recorded inputs: when it is accepted, and how far its
    rows move. */
module Percent {
  import opened Text
  import opened Sums
  import opened Division
  import opened Shuffle
  import opened Simplify
  import opened Ledger
  import Archive
  import opened Split
  import opened Form
  import opened Prefill
  import opened Derived

  // --------------------------------------------------------- what is shown

  /** Who is shown which of the values. */
  function Assigned(cands: seq<Candidate>, values: map<UserId, int>, shown: seq<int>): map<UserId, int>
    requires |shown| == |IncludedValues(cands, values)|
  {
    if cands == [] then map[]
    else if cands[0].id in values then Assigned(cands[1..], values, shown[1..])[cands[0].id := shown[0]]
    else Assigned(cands[1..], values, shown)
  }

  /** A form that shows other values for the same people is the form of those values. */
  lemma {:induction false} AssignedShows(cands: seq<Candidate>, values: map<UserId, int>, shown: seq<int>, m: Method, currency: string)
    requires Prefill.DistinctIds(cands) && |shown| == |IncludedValues(cands, values)|
    ensures var a := Assigned(cands, values, shown);
      && (forall u :: u in a <==> u in values && u in Prefill.Ids(cands))
      && IncludedValues(cands, a) == shown
      && Filled(cands, values, shown, m, currency) == Filled(cands, a, shown, m, currency)
  {
    if cands != [] {
      var id := cands[0].id;
      if id in values {
        var rest := Assigned(cands[1..], values, shown[1..]);
        AssignedShows(cands[1..], values, shown[1..], m, currency);
        SameIncluded(cands[1..], rest, rest[id := shown[0]]);
        SameFilled(cands[1..], rest, rest[id := shown[0]], shown[1..], m, currency);
      } else {
        AssignedShows(cands[1..], values, shown, m, currency);
      }
    }
  }

  lemma {:induction false} SameFilled(cands: seq<Candidate>, a: map<UserId, int>, b: map<UserId, int>, shown: seq<int>, m: Method,
                                      currency: string)
    requires forall i :: i in Prefill.Ids(cands) ==> (i in a <==> i in b) && (i in a ==> a[i] == b[i])
    requires |shown| == |IncludedValues(cands, a)|
    ensures IncludedValues(cands, a) == IncludedValues(cands, b)
    ensures Filled(cands, a, shown, m, currency) == Filled(cands, b, shown, m, currency)
  {
    SameIncluded(cands, a, b);
    if cands != [] {
      SameFilled(cands[1..], a, b, if cands[0].id in a then shown[1..] else shown, m, currency);
    }
  }

  /** The basis points the form shows for each person. */
  function ShownPoints(cands: seq<Candidate>, e: Expense): map<UserId, int> {
    Assigned(cands, DerivedValues(e), DerivedShown(cands, e))
  }

  /** A PERCENTAGE expense of something, every one of whose people the form offers. */
  ghost predicate Editable(cands: seq<Candidate>, e: Expense) {
    && e.split == PERCENTAGE && e.amount > 0 && ValidRows(e.paidBy, e.parts)
    && Prefill.DistinctIds(cands) && Users(e.parts) <= Prefill.Ids(cands)
  }

  /** The form posted as it was rendered. */
  ghost predicate PostedBack(cands: seq<Candidate>, e: Expense, lines: seq<Line>) {
    && Editable(cands, e) && (forall u :: u in ShownPoints(cands, e) ==> Derived.Fits(ShownPoints(cands, e)[u]))
    && LinesOf(lines, Post(DerivedForm(cands, e)), PERCENTAGE, e.currency)
  }

  lemma PostedPoints(cands: seq<Candidate>, e: Expense, lines: seq<Line>)
    requires PostedBack(cands, e, lines)
    ensures Carries(lines, ShownPoints(cands, e), PERCENTAGE) && ShownPoints(cands, e).Keys == Users(e.parts)
  {
    FormOfPoints(cands, e);
    PostedValues(lines, cands, ShownPoints(cands, e), PERCENTAGE, e.currency);
  }

  lemma FormOfPoints(cands: seq<Candidate>, e: Expense)
    requires Editable(cands, e)
    ensures ShownPoints(cands, e).Keys == Users(e.parts)
    ensures DerivedForm(cands, e)
         == Filled(cands, ShownPoints(cands, e), IncludedValues(cands, ShownPoints(cands, e)), PERCENTAGE, e.currency)
  {
    PercentValues(e);
    AssignedShows(cands, DerivedValues(e), DerivedShown(cands, e), FieldMethod(e), e.currency);
    forall u ensures u in ShownPoints(cands, e) <==> u in Users(e.parts) {
      assert u in DerivedValues(e).Keys <==> u in Users(e.parts);
    }
  }

  lemma PercentValues(e: Expense)
    requires e.split == PERCENTAGE && e.amount > 0
    ensures DerivedValues(e).Keys == Users(e.parts) && FieldMethod(e) == PERCENTAGE
  {
    assert DerivedValues(e).Keys == DerivedShares(e.amount, e.paidBy, e.parts).Keys;
  }

  // ------------------------------------------------------------ acceptance

  ghost predicate NoneNegative(cands: seq<Candidate>, e: Expense) {
    forall u :: u in ShownPoints(cands, e) ==> ShownPoints(cands, e)[u] >= 0
  }

  /** The post is accepted exactly when no percentage shown is negative. */
  lemma PercentAccepted(rng: Prng, cands: seq<Candidate>, e: Expense, lines: seq<Line>, date: string)
    requires PostedBack(cands, e, lines)
    ensures ComputeOf(rng, PERCENTAGE, e.amount, e.paidBy, date, lines).Success?
       <==> NoneNegative(cands, e)
  {
    var points := ShownPoints(cands, e);
    PostedPoints(cands, e, lines);
    CarriedLines(lines, points, PERCENTAGE);
    NegativeShare(lines, points, PERCENTAGE);
    HundredPercent(cands, e, lines);
    assert e.paidBy in LineUsers(lines);
  }

  lemma HundredPercent(cands: seq<Candidate>, e: Expense, lines: seq<Line>)
    requires PostedBack(cands, e, lines)
    ensures Sum(Column(PERCENTAGE, lines)) == 10000
  {
    var points := ShownPoints(cands, e);
    PostedPoints(cands, e, lines);
    CarriedLines(lines, points, PERCENTAGE);
    ColumnSum(PERCENTAGE, lines, points);
    AssignedShows(cands, DerivedValues(e), DerivedShown(cands, e), PERCENTAGE, e.currency);
    IncludedSum(cands, points);
    SomeoneShown(cands, DerivedValues(e), e.paidBy);
    RebalanceHits(IncludedValues(cands, DerivedValues(e)), BASIS_POINTS_FULL);
  }

  lemma {:induction false} SomeoneShown(cands: seq<Candidate>, values: map<UserId, int>, u: UserId)
    requires u in values && u in Prefill.Ids(cands)
    ensures IncludedValues(cands, values) != []
  {
    if cands[0].id != u { SomeoneShown(cands[1..], values, u); }
  }

  // ------------------------------------------------------- what may move

  /** u's share of the expense, from the rows. */
  function OwnShare(e: Expense, rows: seq<Part>, u: UserId): int {
    (if u == e.paidBy then e.amount else 0) - PartOf(rows, u)
  }

  /** At most the one at hi was changed. */
  lemma {:induction false} OneChanged(cands: seq<Candidate>, values: map<UserId, int>, shown: seq<int>, hi: int, u: UserId, v: UserId)
    requires Prefill.DistinctIds(cands) && |shown| == |IncludedValues(cands, values)|
    requires forall j :: 0 <= j < |shown| && j != hi ==> shown[j] == IncludedValues(cands, values)[j]
    requires u != v && u in values && v in values && u in Prefill.Ids(cands) && v in Prefill.Ids(cands)
    ensures var a := Assigned(cands, values, shown);
      && u in a && v in a && (a[u] == values[u] || a[v] == values[v])
      && (hi < 0 ==> a[u] == values[u] && a[v] == values[v])
  {
    assert u in Assigned(cands, values, shown) && v in Assigned(cands, values, shown) by {
      AssignedShows(cands, values, shown, EQUAL, "");
    }
    if hi < 0 {
      Unchanged(cands, values, shown, u);
      Unchanged(cands, values, shown, v);
    } else if cands[0].id !in values {
      OneChanged(cands[1..], values, shown, hi, u, v);
    } else if cands[0].id != u && cands[0].id != v {
      OneChanged(cands[1..], values, shown[1..], hi - 1, u, v);
    } else if hi == 0 {
      Unchanged(cands[1..], values, shown[1..], if cands[0].id == u then v else u);
    }
  }

  lemma {:induction false} Unchanged(cands: seq<Candidate>, values: map<UserId, int>, shown: seq<int>, u: UserId)
    requires Prefill.DistinctIds(cands) && shown == IncludedValues(cands, values) && u in values && u in Prefill.Ids(cands)
    ensures u in Assigned(cands, values, shown) && Assigned(cands, values, shown)[u] == values[u]
  {
    if cands[0].id != u {
      Unchanged(cands[1..], values, if cands[0].id in values then shown[1..] else shown, u);
    }
  }

  /** The new row of u stands within a unit of the points shown for u. */
  lemma RowOfPoints(rng: Prng, cands: seq<Candidate>, e: Expense, lines: seq<Line>, date: string, u: UserId)
    requires PostedBack(cands, e, lines) && u in Users(e.parts)
    requires ComputeOf(rng, PERCENTAGE, e.amount, e.paidBy, date, lines).Success?
    ensures u in ShownPoints(cands, e)
    ensures Near(OwnShare(e, ComputeOf(rng, PERCENTAGE, e.amount, e.paidBy, date, lines).value, u), ShownPoints(cands, e)[u] * e.amount, 10000)
  {
    var rows := ComputeOf(rng, PERCENTAGE, e.amount, e.paidBy, date, lines).value;
    PostedPoints(cands, e, lines);
    CarriedLines(lines, ShownPoints(cands, e), PERCENTAGE);
    ComputeFair(rng, PERCENTAGE, e.amount, e.paidBy, date, lines);
    var i := UserHasLine(lines, u);
    assert lines[i] in lines;
    assert FairRow(PERCENTAGE, e.amount, e.paidBy, lines, i, rows);
  }

  /** Cutting off to hundredths of a percent may move rows. All but one person's points are shown as
      they were cut off, and the row of such a person moves by no more than a unit and a ten-thousandth
      of the amount. */
  lemma PercentDrift(rng: Prng, cands: seq<Candidate>, e: Expense, lines: seq<Line>, date: string, u: UserId, v: UserId)
    requires PostedBack(cands, e, lines) && u in Users(e.parts) && v in Users(e.parts) && u != v
    requires ComputeOf(rng, PERCENTAGE, e.amount, e.paidBy, date, lines).Success?
    ensures var rows := ComputeOf(rng, PERCENTAGE, e.amount, e.paidBy, date, lines).value;
      Moved(e, rows, u) < 10000 + e.amount || Moved(e, rows, v) < 10000 + e.amount
  {
    PercentValues(e);
    var values, shown := DerivedValues(e), DerivedShown(cands, e);
    var vals := IncludedValues(cands, values);
    SomeoneShown(cands, values, u);
    RebalanceHits(vals, BASIS_POINTS_FULL);
    OneChanged(cands, values, shown, Largest(vals), u, v);
    var w := if ShownPoints(cands, e)[u] == values[u] then u else v;
    DriftOf(rng, cands, e, lines, date, w);
  }

  /** Ten thousand times how far the row of u moves. */
  function Moved(e: Expense, rows: seq<Part>, u: UserId): int {
    var d := 10000 * (PartOf(rows, u) - PartOf(e.parts, u));
    if d < 0 then -d else d
  }

  lemma DriftOf(rng: Prng, cands: seq<Candidate>, e: Expense, lines: seq<Line>, date: string, u: UserId)
    requires PostedBack(cands, e, lines) && u in Users(e.parts) && u in DerivedValues(e) && u in ShownPoints(cands, e)
    requires ComputeOf(rng, PERCENTAGE, e.amount, e.paidBy, date, lines).Success?
    requires ShownPoints(cands, e)[u] == DerivedValues(e)[u]
    ensures Moved(e, ComputeOf(rng, PERCENTAGE, e.amount, e.paidBy, date, lines).value, u) < 10000 + e.amount
  {
    var rows := ComputeOf(rng, PERCENTAGE, e.amount, e.paidBy, date, lines).value;
    RowOfPoints(rng, cands, e, lines, date, u);
    ValueCut(cands, e, u);
    DriftBound(OwnShare(e, rows, u), OwnShare(e, e.parts, u), DerivedValues(e)[u] * e.amount, e.amount);
  }

  lemma ValueCut(cands: seq<Candidate>, e: Expense, u: UserId)
    requires Editable(cands, e) && u in Users(e.parts)
    ensures u in DerivedValues(e) && -e.amount < OwnShare(e, e.parts, u) * 10000 - DerivedValues(e)[u] * e.amount < e.amount
  {
    PercentShown(cands, e, u);
    assert DerivedValues(e)[u] * e.amount == e.amount * DerivedValues(e)[u];
  }

  lemma DriftBound(a: int, b: int, x: int, n: int)
    requires Near(a, x, 10000) && -n < b * 10000 - x < n
    ensures -10000 - n < 10000 * (a - b) < 10000 + n
  {
  }

  // ------------------------------------------------- when nothing moves

  predicate Scales(x: int, y: int, n: int) {
    x * n == y * 10000
  }

  lemma ScalesAdd(x: int, y: int, a: int, b: int, n: int)
    requires Scales(x, y, n) && Scales(a, b, n)
    ensures Scales(x + a, y + b, n)
  {
  }

  lemma SumWithout(m: map<UserId, int>, k: UserId)
    requires k in m
    ensures MapSum(m) == m[k] + MapSum(m - {k})
  {
    TotalRemove(m, k, Same());
  }

  predicate AllScale(a: map<UserId, int>, b: map<UserId, int>, n: int) {
    a.Keys == b.Keys && forall u :: u in a ==> Scales(a[u], b[u], n)
  }

  lemma AllButOne(a: map<UserId, int>, b: map<UserId, int>, n: int, k: UserId)
    requires AllScale(a, b, n) && k in a
    ensures k in b && Scales(a[k], b[k], n) && AllScale(a - {k}, b - {k}, n)
  {
  }

  lemma {:induction false} ScaledTotal(a: map<UserId, int>, b: map<UserId, int>, n: int)
    requires AllScale(a, b, n)
    ensures Scales(MapSum(a), MapSum(b), n)
    decreases |a|
  {
    if a != map[] {
      var k := Pick(a);
      RemoveShrinks(a, k);
      AllButOne(a, b, n, k);
      ScaledTotal(a - {k}, b - {k}, n);
      SumWithout(a, k);
      SumWithout(b, k);
      ScalesAdd(a[k], b[k], MapSum(a - {k}), MapSum(b - {k}), n);
    } else {
      NothingSums(b);
    }
  }

  /** Everyone's share is a whole number of hundredths of a percent. */
  ghost predicate WholePoints(e: Expense)
    requires e.amount > 0
  {
    forall u :: u in Users(e.parts) ==> 10000 * OwnShare(e, e.parts, u) % e.amount == 0
  }

  lemma WholeQuotient(full: int, n: int, q: int)
    requires n > 0 && full % n == 0 && -n < full - n * q < n
    ensures full == q * n
  {
    var k := full / n;
    assert full == n * k && n * (k - q) == n * k - n * q && n * (q - k) == n * q - n * k;
    if k > q { MulAtLeast(n, k - q); }
    if k < q { MulAtLeast(n, q - k); }
  }

  lemma WholeValue(cands: seq<Candidate>, e: Expense, u: UserId)
    requires Editable(cands, e) && WholePoints(e) && u in Users(e.parts)
    ensures u in DerivedValues(e) && DerivedValues(e)[u] * e.amount == 10000 * OwnShare(e, e.parts, u)
  {
    PercentShown(cands, e, u);
    WholeQuotient(10000 * OwnShare(e, e.parts, u), e.amount, DerivedValues(e)[u]);
  }

  /** Then the points are exact and add up, and are shown as they are. */
  lemma WholeShown(cands: seq<Candidate>, e: Expense)
    requires Editable(cands, e) && WholePoints(e)
    ensures DerivedShown(cands, e) == IncludedValues(cands, DerivedValues(e))
  {
    PercentValues(e);
    WholeSum(cands, e);
    IncludedSum(cands, DerivedValues(e));
  }

  lemma WholeSum(cands: seq<Candidate>, e: Expense)
    requires Editable(cands, e) && WholePoints(e)
    ensures MapSum(DerivedValues(e)) == 10000
  {
    var values, shares := DerivedValues(e), DerivedShares(e.amount, e.paidBy, e.parts);
    PercentValues(e);
    forall u | u in values ensures Scales(values[u], shares[u], e.amount) {
      WholeValue(cands, e, u);
      SharesAre(e.amount, e.paidBy, e.parts, u);
    }
    ScaledTotal(values, shares, e.amount);
    DerivedSum(e.amount, e.paidBy, e.parts);
    Cancel(e.amount, MapSum(values));
  }

  lemma Cancel(n: int, x: int)
    requires n > 0 && x * n == n * 10000
    ensures x == 10000
  {
    if x > 10000 { MulAtLeast(n, x - 10000); }
    if x < 10000 { MulAtLeast(n, 10000 - x); }
    assert n * (x - 10000) == x * n - n * 10000;
  }

  lemma WholePoint(cands: seq<Candidate>, e: Expense, u: UserId)
    requires Editable(cands, e) && WholePoints(e) && u in Users(e.parts)
    ensures u in ShownPoints(cands, e) && ShownPoints(cands, e)[u] * e.amount == 10000 * OwnShare(e, e.parts, u)
  {
    PercentValues(e);
    WholeShown(cands, e);
    WholeValue(cands, e, u);
    Unchanged(cands, DerivedValues(e), DerivedShown(cands, e), u);
  }

  // ------------------------------------------------- what comes back

  /** The points shown for each person, taken of the amount and cut off, are that person's share. */
  ghost predicate Settled(cands: seq<Candidate>, e: Expense)
    requires Editable(cands, e)
  {
    forall u :: u in Users(e.parts) ==> u in ShownPoints(cands, e) && CutShare(cands, e, u) == OwnShare(e, e.parts, u)
  }

  function CutShare(cands: seq<Candidate>, e: Expense, u: UserId): int
    requires u in ShownPoints(cands, e)
  {
    TDiv(ShownPoints(cands, e)[u] * e.amount, 10000)
  }

  /** The shares the rows stand for, line by line. */
  function OwnShares(e: Expense, lines: seq<Line>): (s: seq<int>)
    ensures |s| == |lines|
  {
    seq(|lines|, i requires 0 <= i < |lines| => OwnShare(e, e.parts, lines[i].user))
  }

  lemma {:induction false} OwnSum(e: Expense, lines: seq<Line>, shares: map<UserId, int>)
    requires DistinctLines(lines) && LineUsers(lines) == shares.Keys
    requires forall u :: u in shares ==> shares[u] == OwnShare(e, e.parts, u)
    ensures Sum(OwnShares(e, lines)) == MapSum(shares)
  {
    if lines == [] {
      NothingSums(shares);
    } else {
      var u := lines[0].user;
      SumWithout(shares, u);
      OwnSum(e, lines[1..], shares - {u});
      assert OwnShares(e, lines)[1..] == OwnShares(e, lines[1..]);
    }
  }

  /** The users of the lines are those of the rows, and their shares make up the amount. */
  lemma OwnAmount(cands: seq<Candidate>, e: Expense, lines: seq<Line>)
    requires PostedBack(cands, e, lines)
    ensures LineUsers(lines) == Users(e.parts) && DistinctLines(lines) && Sum(OwnShares(e, lines)) == e.amount
  {
    var shares := DerivedShares(e.amount, e.paidBy, e.parts);
    PostedPoints(cands, e, lines);
    CarriedLines(lines, ShownPoints(cands, e), PERCENTAGE);
    forall u | u in shares ensures shares[u] == OwnShare(e, e.parts, u) {
      SharesAre(e.amount, e.paidBy, e.parts, u);
    }
    OwnSum(e, lines, shares);
    DerivedSum(e.amount, e.paidBy, e.parts);
  }

  /** The whole shares before anything is left over. */
  lemma CutLine(cands: seq<Candidate>, e: Expense, lines: seq<Line>, i: int)
    requires PostedBack(cands, e, lines) && 0 <= i < |lines| && Refusal(PERCENTAGE, e.amount, Column(PERCENTAGE, lines)) == None
    ensures lines[i].user in ShownPoints(cands, e) && lines[i].user in Users(e.parts)
    ensures BaseShares(PERCENTAGE, e.amount, Column(PERCENTAGE, lines))[i] == CutShare(cands, e, lines[i].user)
  {
    PointLine(cands, e, lines, i);
    BaseLine(e.amount, Column(PERCENTAGE, lines), i);
  }

  lemma PointLine(cands: seq<Candidate>, e: Expense, lines: seq<Line>, i: int)
    requires PostedBack(cands, e, lines) && 0 <= i < |lines|
    ensures lines[i].user in ShownPoints(cands, e) && lines[i].user in Users(e.parts)
    ensures Column(PERCENTAGE, lines)[i] == ShownPoints(cands, e)[lines[i].user]
  {
    PostedPoints(cands, e, lines);
    assert lines[i] in lines;
  }

  lemma BaseLine(amount: int, col: seq<int>, i: int)
    requires 0 <= i < |col| && Refusal(PERCENTAGE, amount, col) == None
    ensures BaseShares(PERCENTAGE, amount, col)[i] == TDiv(col[i] * amount, 10000)
  {
  }

  lemma SettledShares(rng: Prng, cands: seq<Candidate>, e: Expense, lines: seq<Line>, date: string)
    requires PostedBack(cands, e, lines) && Settled(cands, e) && lines != []
    requires Refusal(PERCENTAGE, e.amount, Column(PERCENTAGE, lines)) == None
    ensures SharesOf(rng, PERCENTAGE, e.amount, date, Column(PERCENTAGE, lines)) == Success(OwnShares(e, lines))
  {
    var base := BaseShares(PERCENTAGE, e.amount, Column(PERCENTAGE, lines));
    OwnAmount(cands, e, lines);
    forall i | 0 <= i < |base| ensures base[i] == OwnShares(e, lines)[i] {
      CutLine(cands, e, lines, i);
    }
    assert base == OwnShares(e, lines);
    DistributedIs(rng, base, e.amount, date);
  }

  lemma SettledRows(rng: Prng, cands: seq<Candidate>, e: Expense, lines: seq<Line>, date: string)
    requires PostedBack(cands, e, lines) && Settled(cands, e)
    requires ComputeOf(rng, PERCENTAGE, e.amount, e.paidBy, date, lines).Success?
    ensures SameRows(ComputeOf(rng, PERCENTAGE, e.amount, e.paidBy, date, lines).value, e.parts)
  {
    var rows := ComputeOf(rng, PERCENTAGE, e.amount, e.paidBy, date, lines).value;
    SettledShares(rng, cands, e, lines, date);
    OwnAmount(cands, e, lines);
    ComputeValid(rng, PERCENTAGE, e.amount, e.paidBy, date, lines);
    assert Users(rows) == Users(e.parts) && rows == FinalRows(e.amount, e.paidBy, lines, OwnShares(e, lines));
    forall u ensures PartOf(rows, u) == PartOf(e.parts, u) {
      if u in Users(e.parts) {
        OwnRow(e, lines, u);
      } else {
        Archive.AbsentUser(rows, u);
        Archive.AbsentUser(e.parts, u);
      }
    }
  }

  lemma OwnRow(e: Expense, lines: seq<Line>, u: UserId)
    requires DistinctLines(lines) && u in LineUsers(lines)
    ensures PartOf(FinalRows(e.amount, e.paidBy, lines, OwnShares(e, lines)), u) == PartOf(e.parts, u)
  {
    var i := UserHasLine(lines, u);
    RowIsShare(e.amount, e.paidBy, lines, OwnShares(e, lines), i);
  }

  /** An order that comes to place i last. */
  lemma LastPlace(n: nat, i: nat) returns (q: seq<int>)
    requires i < n
    ensures Permutation(q) && |q| == n && q[n - 1] == i
  {
    var p := seq(n, k => k);
    q := Swapped(p, i, n - 1);
    SwapKeeps(p, i, n - 1);
  }

  /** Whoever comes last in the order keeps what was cut off: less is left over than there are people. */
  lemma LastKeepsCut(date: string, amount: int, col: seq<int>, i: nat) returns (rng: Prng)
    requires i < |col| && Refusal(PERCENTAGE, amount, col) == None
    ensures SharesOf(rng, PERCENTAGE, amount, date, col).Success?
    ensures SharesOf(rng, PERCENTAGE, amount, date, col).value[i] == BaseShares(PERCENTAGE, amount, col)[i]
  {
    var base := BaseShares(PERCENTAGE, amount, col);
    var q := LastPlace(|base|, i);
    rng := AnyOrder(base, date, q);
    SharesFair(rng, PERCENTAGE, amount, date, col, i);
    LeftoverFirst(rng, base, amount, date, |base| - 1);
  }

  lemma UnsettledRow(cands: seq<Candidate>, e: Expense, lines: seq<Line>, date: string, u: UserId) returns (rng: Prng)
    requires PostedBack(cands, e, lines) && u in Users(e.parts) && u in ShownPoints(cands, e)
    requires Refusal(PERCENTAGE, e.amount, Column(PERCENTAGE, lines)) == None && lines != []
    requires CutShare(cands, e, u) != OwnShare(e, e.parts, u)
    ensures var r := ComputeOf(rng, PERCENTAGE, e.amount, e.paidBy, date, lines);
      r.Success? && PartOf(r.value, u) != PartOf(e.parts, u)
  {
    var col := Column(PERCENTAGE, lines);
    OwnAmount(cands, e, lines);
    var i := UserHasLine(lines, u);
    CutLine(cands, e, lines, i);
    rng := LastKeepsCut(date, e.amount, col, i);
    RowDiffers(e, lines, SharesOf(rng, PERCENTAGE, e.amount, date, col).value, i);
  }

  lemma RowDiffers(e: Expense, lines: seq<Line>, shares: seq<int>, i: nat)
    requires |lines| == |shares| && DistinctLines(lines) && i < |lines|
    requires shares[i] != OwnShare(e, e.parts, lines[i].user)
    ensures PartOf(FinalRows(e.amount, e.paidBy, lines, shares), lines[i].user) != PartOf(e.parts, lines[i].user)
  {
    RowIsShare(e.amount, e.paidBy, lines, shares, i);
  }

  /** Whatever the order of the leftover, an accepted post gives back the rows. */
  ghost predicate AlwaysBack(cands: seq<Candidate>, e: Expense, lines: seq<Line>, date: string) {
    forall rng :: var r := ComputeOf(rng, PERCENTAGE, e.amount, e.paidBy, date, lines); r.Success? && SameRows(r.value, e.parts)
  }

  lemma BackIf(cands: seq<Candidate>, e: Expense, lines: seq<Line>, date: string)
    requires PostedBack(cands, e, lines) && Settled(cands, e) && NoneNegative(cands, e)
    ensures AlwaysBack(cands, e, lines, date)
  {
    forall rng
      ensures var r := ComputeOf(rng, PERCENTAGE, e.amount, e.paidBy, date, lines); r.Success? && SameRows(r.value, e.parts)
    {
      PercentAccepted(rng, cands, e, lines, date);
      SettledRows(rng, cands, e, lines, date);
    }
  }

  lemma BackOnlyIf(cands: seq<Candidate>, e: Expense, lines: seq<Line>, date: string)
    requires PostedBack(cands, e, lines) && AlwaysBack(cands, e, lines, date)
    ensures Settled(cands, e) && NoneNegative(cands, e)
  {
    var one := LastPlace(1, 0);
    var some := AnyOrder([0], date, one);
    PercentAccepted(some, cands, e, lines, date);
    FormOfPoints(cands, e);
    forall u | u in Users(e.parts) ensures CutShare(cands, e, u) == OwnShare(e, e.parts, u) {
      if CutShare(cands, e, u) != OwnShare(e, e.parts, u) { NotAlways(cands, e, lines, date, u); }
    }
  }

  lemma NotAlways(cands: seq<Candidate>, e: Expense, lines: seq<Line>, date: string, u: UserId)
    requires PostedBack(cands, e, lines) && u in Users(e.parts) && u in ShownPoints(cands, e)
    requires Refusal(PERCENTAGE, e.amount, Column(PERCENTAGE, lines)) == None && lines != []
    requires CutShare(cands, e, u) != OwnShare(e, e.parts, u)
    ensures !AlwaysBack(cands, e, lines, date)
  {
    var rng := UnsettledRow(cands, e, lines, date, u);
    assert !SameRows(ComputeOf(rng, PERCENTAGE, e.amount, e.paidBy, date, lines).value, e.parts);
  }

  /** The rows are sure to come back, on any date, exactly when no percentage shown is negative and each,
      taken of the amount and cut off, is the person's share. */
  lemma PercentResaveIff(cands: seq<Candidate>, e: Expense, lines: seq<Line>, date: string)
    requires PostedBack(cands, e, lines)
    ensures AlwaysBack(cands, e, lines, date) <==> Settled(cands, e) && NoneNegative(cands, e)
  {
    if Settled(cands, e) && NoneNegative(cands, e) { BackIf(cands, e, lines, date); }
    if AlwaysBack(cands, e, lines, date) { BackOnlyIf(cands, e, lines, date); }
  }

  lemma WholeCut(x: int)
    ensures TDiv(10000 * x, 10000) == x
  {
  }

  /** In particular if every share is a whole number of hundredths of a percent and none is negative. */
  lemma WholeResave(cands: seq<Candidate>, e: Expense, lines: seq<Line>, date: string)
    requires PostedBack(cands, e, lines) && WholePoints(e) && forall u :: u in Users(e.parts) ==> OwnShare(e, e.parts, u) >= 0
    ensures AlwaysBack(cands, e, lines, date)
  {
    PercentResaveIff(cands, e, lines, date);
    FormOfPoints(cands, e);
    forall u | u in Users(e.parts)
      ensures ShownPoints(cands, e)[u] >= 0 && CutShare(cands, e, u) == OwnShare(e, e.parts, u)
    {
      WholePoint(cands, e, u);
      SameSign(ShownPoints(cands, e)[u], e.amount, OwnShare(e, e.parts, u));
      WholeCut(OwnShare(e, e.parts, u));
    }
  }

  lemma SameSign(x: int, n: int, y: int)
    requires n > 0 && x * n == 10000 * y
    ensures x >= 0 <==> y >= 0
  {
    if x < 0 { MulAtLeast(n, -x); }
    assert (-x) * n == -(x * n);
  }

  // ------------------------------------------------------ when rows move

  /** 1000.00 that 1 paid, split in three. */
  function Thirds(): Expense {
    Expense(100000, PERCENTAGE, "", "USD", 1, None, None, false, 1, [Part(1, 66667), Part(2, -33333), Part(3, -33334)])
  }

  function ThirdsForm(): seq<Candidate> {
    [Candidate(1, false, ""), Candidate(2, false, ""), Candidate(3, false, "")]
  }

  lemma ThirdsRows()
    ensures Editable(ThirdsForm(), Thirds())
    ensures DerivedValues(Thirds()) == map[1 := 3333, 2 := 3333, 3 := 3333]
  {
    var e, ps, cs := Thirds(), Thirds().parts, ThirdsForm();
    assert ps[1..] == [Part(2, -33333), Part(3, -33334)] && ps[1..][1..] == [Part(3, -33334)] && ps[1..][1..][1..] == [];
    assert cs[1..] == [Candidate(2, false, ""), Candidate(3, false, "")] && cs[1..][1..] == [Candidate(3, false, "")];
    assert cs[1..][1..][1..] == [];
    assert DerivedShares(100000, 1, ps[1..][1..]) == map[3 := 33334];
    assert DerivedShares(100000, 1, ps[1..]) == map[2 := 33333, 3 := 33334];
  }

  lemma ThirdsShown()
    ensures ShownPoints(ThirdsForm(), Thirds()) == map[1 := 3334, 2 := 3333, 3 := 3333]
  {
    ThirdsRows();
  }

  /** Posting its form as it was rendered takes 3 cents off what 2 owes. */
  lemma ThirdsMove(rng: Prng, lines: seq<Line>, date: string)
    requires LinesOf(lines, Post(DerivedForm(ThirdsForm(), Thirds())), PERCENTAGE, "USD")
    ensures var r := ComputeOf(rng, PERCENTAGE, 100000, 1, date, lines);
      r.Success? && PartOf(Thirds().parts, 2) == -33333 && -33331 <= PartOf(r.value, 2) <= -33329
  {
    var cs, e := ThirdsForm(), Thirds();
    ThirdsPosted(lines);
    PercentAccepted(rng, cs, e, lines, date);
    RowOfPoints(rng, cs, e, lines, date, 2);
  }

  lemma ThirdsPosted(lines: seq<Line>)
    requires LinesOf(lines, Post(DerivedForm(ThirdsForm(), Thirds())), PERCENTAGE, "USD")
    ensures PostedBack(ThirdsForm(), Thirds(), lines) && NoneNegative(ThirdsForm(), Thirds())
    ensures ShownPoints(ThirdsForm(), Thirds()) == map[1 := 3334, 2 := 3333, 3 := 3333]
    ensures 2 in Users(Thirds().parts) && PartOf(Thirds().parts, 2) == -33333
  {
    ThirdsRows();
    ThirdsShown();
    SecondThird();
  }

  lemma SecondThird()
    ensures 2 in Users(Thirds().parts) && PartOf(Thirds().parts, 2) == -33333
  {
    var ps := Thirds().parts;
    assert ps[1..] == [Part(2, -33333), Part(3, -33334)] && ps[1..][1..] == [Part(3, -33334)] && ps[1..][1..][1..] == [];
  }
}
