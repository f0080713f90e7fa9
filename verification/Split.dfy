/** The split engine: shares of a total per method, and the zero-sum rows made from them. */
module Split {
  import opened Text
  import opened Division
  import opened Shuffle
  import opened Simplify
  import opened Ledger

  const BASIS_POINTS_FULL := 10000

  /** One participant's input; only the field of the chosen method is read. */
  datatype Line = Line(user: UserId, basisPoints: int, exact: int, shareUnits: int, adjustment: int)

  datatype SplitError =
    | NoParticipants | DuplicateUser | NegativeBP | PercentSum(got: int)
    | ExactSum(got: int, want: int) | ShareUnits | UnknownMethod

  predicate UserSelectable(m: Method) {
    m in {EQUAL, PERCENTAGE, EXACT, SHARE, ADJUSTMENT}
  }

  /** The one value a line carries under a method. */
  function Input(l: Line, m: Method): int {
    match m
    case PERCENTAGE => l.basisPoints
    case EXACT => l.exact
    case SHARE => l.shareUnits
    case ADJUSTMENT => l.adjustment
    case _ => 0
  }

  function Column(m: Method, lines: seq<Line>): (c: seq<int>)
    ensures |c| == |lines|
    ensures forall i :: 0 <= i < |lines| ==> c[i] == Input(lines[i], m)
  {
    if lines == [] then [] else [Input(lines[0], m)] + Column(m, lines[1..])
  }

  function LineUsers(lines: seq<Line>): set<UserId> {
    if lines == [] then {} else {lines[0].user} + LineUsers(lines[1..])
  }

  predicate DistinctLines(lines: seq<Line>) {
    lines == [] || (lines[0].user !in LineUsers(lines[1..]) && DistinctLines(lines[1..]))
  }

  predicate SomeNegative(col: seq<int>) {
    exists i :: 0 <= i < |col| && col[i] < 0
  }

  /** Why a set of inputs is refused, if it is. */
  function Refusal(m: Method, total: int, col: seq<int>): Option<SplitError> {
    match m
    case EQUAL => None
    case ADJUSTMENT => None
    case PERCENTAGE =>
      if SomeNegative(col) then Some(NegativeBP)
      else if Sum(col) != BASIS_POINTS_FULL then Some(PercentSum(Sum(col)))
      else None
    case EXACT => if Sum(col) != total then Some(ExactSum(Sum(col), total)) else None
    case SHARE => if SomeNegative(col) || Sum(col) <= 0 then Some(ShareUnits) else None
    case _ => Some(UnknownMethod)
  }

  // ------------------------------------------------------------ exact values

  /** The exact share of each line is num[i] / Denominator. */
  function Numerators(m: Method, total: int, col: seq<int>): (num: seq<int>)
    ensures |num| == |col|
  {
    match m
    case EQUAL => seq(|col|, _ => total)
    case ADJUSTMENT => seq(|col|, i requires 0 <= i < |col| => total - Sum(col) + |col| * col[i])
    case _ => seq(|col|, i requires 0 <= i < |col| => col[i] * total)
  }

  function Denominator(m: Method, col: seq<int>): int {
    match m
    case PERCENTAGE => BASIS_POINTS_FULL
    case SHARE => Sum(col)
    case _ => |col|
  }

  /** The whole shares before the leftover is handed out. */
  function BaseShares(m: Method, total: int, col: seq<int>): (base: seq<int>)
    requires col != [] && Refusal(m, total, col) == None
    ensures |base| == |col|
  {
    if m == EXACT then col
    else if m == ADJUSTMENT then
      seq(|col|, i requires 0 <= i < |col| => TDiv(total - Sum(col), |col|) + col[i])
    else
      var num := Numerators(m, total, col);
      seq(|col|, i requires 0 <= i < |col| => TDiv(num[i], Denominator(m, col)))
  }

  function SharesOf(rng: Prng, m: Method, total: int, date: string, col: seq<int>): (r: Result<seq<int>, SplitError>)
    requires col != []
    ensures r.Success? ==> |r.value| == |col|
  {
    match Refusal(m, total, col)
    case Some(error) => Failure(error)
    case None =>
      var base := BaseShares(m, total, col);
      Success(if m == EXACT then base else Distributed(rng, base, total, date))
  }

  // -------------------------------------------------------------- the shares

  lemma {:induction false} SumConst(n: nat, x: int)
    ensures Sum(seq(n, _ => x)) == n * x
  {
    if n > 0 {
      SumConst(n - 1, x);
      assert seq(n, _ => x)[1..] == seq(n - 1, _ => x);
    }
  }

  lemma {:induction false} SumScaled(col: seq<int>, t: int)
    ensures Sum(seq(|col|, i requires 0 <= i < |col| => col[i] * t)) == Sum(col) * t
  {
    if col != [] {
      SumScaled(col[1..], t);
      var s := seq(|col|, i requires 0 <= i < |col| => col[i] * t);
      assert s[1..] == seq(|col[1..]|, i requires 0 <= i < |col[1..]| => col[1..][i] * t);
      assert (col[0] + Sum(col[1..])) * t == col[0] * t + Sum(col[1..]) * t;
    }
  }

  lemma {:induction false} SumShifted(col: seq<int>, c: int, n: int)
    ensures Sum(seq(|col|, i requires 0 <= i < |col| => c + n * col[i])) == |col| * c + n * Sum(col)
  {
    if col != [] {
      SumShifted(col[1..], c, n);
      var s := seq(|col|, i requires 0 <= i < |col| => c + n * col[i]);
      assert s[1..] == seq(|col[1..]|, i requires 0 <= i < |col[1..]| => c + n * col[1..][i]);
      ShiftStep(|col[1..]|, c, n, col[0], Sum(col[1..]));
    }
  }

  lemma ShiftStep(k: int, c: int, n: int, x: int, rest: int)
    ensures (c + n * x) + (k * c + n * rest) == (k + 1) * c + n * (x + rest)
  {
  }

  /** The exact shares add up to the total. */
  lemma NumeratorSum(m: Method, total: int, col: seq<int>)
    requires col != [] && Refusal(m, total, col) == None && m != EXACT
    ensures Sum(Numerators(m, total, col)) == Denominator(m, col) * total
    ensures Denominator(m, col) > 0
  {
    if m == EQUAL {
      SumConst(|col|, total);
    } else if m == ADJUSTMENT {
      SumShifted(col, total - Sum(col), |col|);
      assert |col| * (total - Sum(col)) + |col| * Sum(col) == |col| * total;
    } else {
      SumScaled(col, total);
    }
  }

  /** Which side of zero the cut-off falls on. */
  function Upward(m: Method, total: int, col: seq<int>): bool {
    if m == ADJUSTMENT then total >= Sum(col) else total >= 0
  }

  lemma SignOfProduct(a: int, b: int)
    requires a >= 0
    ensures b >= 0 ==> a * b >= 0
    ensures b <= 0 ==> a * b <= 0
  {
  }

  lemma BaseCutOff(m: Method, total: int, col: seq<int>)
    requires col != [] && Refusal(m, total, col) == None && m != EXACT
    ensures CutOff(BaseShares(m, total, col), Numerators(m, total, col), Denominator(m, col), Upward(m, total, col))
  {
    NumeratorSum(m, total, col);
    var base, num, d := BaseShares(m, total, col), Numerators(m, total, col), Denominator(m, col);
    forall i | 0 <= i < |col|
      ensures if Upward(m, total, col) then 0 <= num[i] - d * base[i] < d else -d < num[i] - d * base[i] <= 0
    {
      if m == ADJUSTMENT {
        TDivError(total - Sum(col), d);
        assert d * (TDiv(total - Sum(col), d) + col[i]) == d * TDiv(total - Sum(col), d) + d * col[i];
      } else {
        if m != EQUAL { SignOfProduct(col[i], total); }
        TDivError(num[i], d);
      }
    }
  }

  /** For every method and either sign of the total: the shares add up to the total, the
      leftover is smaller than the number of participants, every base share is its exact value
      cut off toward zero (for ADJUSTMENT, of the remainder), and nobody gets more than one unit
      of the leftover, so that a share is less than a minor unit below its exact value or at most
      one above it, the other way round for a negative total. */
  lemma SharesFair(rng: Prng, m: Method, total: int, date: string, col: seq<int>, i: int)
    requires col != [] && SharesOf(rng, m, total, date, col).Success? && 0 <= i < |col|
    ensures var shares := SharesOf(rng, m, total, date, col).value;
      var base := BaseShares(m, total, col);
      && Sum(shares) == total
      && -|col| < total - Sum(base) < |col|
      && -1 <= shares[i] - base[i] <= 1
      && (m != EXACT ==>
            var d, num := Denominator(m, col), Numerators(m, total, col)[i];
            && d > 0
            && if (if m == ADJUSTMENT then total >= Sum(col) else total >= 0)
               then 0 <= num - d * base[i] < d && -d < d * shares[i] - num <= d
               else -d < num - d * base[i] <= 0 && -d <= d * shares[i] - num < d)
  {
    if m != EXACT {
      var base, num, d := BaseShares(m, total, col), Numerators(m, total, col), Denominator(m, col);
      BaseCutOff(m, total, col);
      NumeratorSum(m, total, col);
      LeftoverBound(base, num, d, total, Upward(m, total, col));
      DistributedUnits(rng, base, total, date, i);
      OneUnitOff(d, num[i], base[i], Distributed(rng, base, total, date)[i], Upward(m, total, col));
    }
  }

  /** A share cut off towards zero and raised back by at most a unit is within a unit of exact. */
  lemma OneUnitOff(d: int, num: int, base: int, share: int, up: bool)
    requires d > 0
    requires if up then 0 <= num - d * base < d && 0 <= share - base <= 1
             else -d < num - d * base <= 0 && -1 <= share - base <= 0
    ensures if up then -d < d * share - num <= d else -d <= d * share - num < d
  {
    assert d * (share - base) == d * share - d * base;
    if share - base == 1 { assert d * (share - base) == d; }
    if share - base == -1 { assert d * (share - base) == -d; }
  }

  /** Equal shares differ by at most one unit. */
  lemma EqualSharesClose(rng: Prng, total: int, date: string, col: seq<int>, i: int, j: int)
    requires col != [] && 0 <= i < |col| && 0 <= j < |col|
    ensures var shares := SharesOf(rng, EQUAL, total, date, col).value;
      -1 <= shares[i] - shares[j] <= 1
  {
    var base := BaseShares(EQUAL, total, col);
    BaseCutOff(EQUAL, total, col);
    NumeratorSum(EQUAL, total, col);
    LeftoverBound(base, Numerators(EQUAL, total, col), |col|, total, total >= 0);
    DistributedUnits(rng, base, total, date, i);
    DistributedUnits(rng, base, total, date, j);
    assert base[i] == base[j];
  }

  // ---------------------------------------------------------------- the rows

  function PayerShare(payer: UserId, lines: seq<Line>, shares: seq<int>): int
    requires |lines| == |shares|
  {
    if lines == [] then 0
    else (if lines[0].user == payer then shares[0] else 0) + PayerShare(payer, lines[1..], shares[1..])
  }

  function OtherRows(payer: UserId, lines: seq<Line>, shares: seq<int>): seq<Part>
    requires |lines| == |shares|
  {
    if lines == [] then []
    else if lines[0].user == payer then OtherRows(payer, lines[1..], shares[1..])
    else [Part(lines[0].user, -shares[0])] + OtherRows(payer, lines[1..], shares[1..])
  }

  /** The payer's row first, then everyone else in line order. */
  function FinalRows(total: int, payer: UserId, lines: seq<Line>, shares: seq<int>): seq<Part>
    requires |lines| == |shares|
  {
    [Part(payer, total - PayerShare(payer, lines, shares))] + OtherRows(payer, lines, shares)
  }

  lemma {:induction false} OtherRowsFacts(payer: UserId, lines: seq<Line>, shares: seq<int>)
    requires |lines| == |shares| && DistinctLines(lines)
    ensures var o := OtherRows(payer, lines, shares);
      NoRepeat(o) && Users(o) == LineUsers(lines) - {payer}
      && PartSum(o) == PayerShare(payer, lines, shares) - Sum(shares)
  {
    if lines != [] {
      OtherRowsFacts(payer, lines[1..], shares[1..]);
      if lines[0].user != payer {
        assert OtherRows(payer, lines, shares)[1..] == OtherRows(payer, lines[1..], shares[1..]);
      }
    }
  }

  /** Rows made from shares that add up to the total are valid, and name exactly the payer and
      the participants. */
  lemma FinalRowsValid(total: int, payer: UserId, lines: seq<Line>, shares: seq<int>)
    requires |lines| == |shares| && DistinctLines(lines) && Sum(shares) == total
    ensures ValidRows(payer, FinalRows(total, payer, lines, shares))
    ensures Users(FinalRows(total, payer, lines, shares)) == LineUsers(lines) + {payer}
  {
    OtherRowsFacts(payer, lines, shares);
    assert FinalRows(total, payer, lines, shares)[1..] == OtherRows(payer, lines, shares);
  }

  function ComputeOf(rng: Prng, m: Method, total: int, payer: UserId, date: string, lines: seq<Line>): Result<seq<Part>, SplitError> {
    if lines == [] then Failure(NoParticipants)
    else if !DistinctLines(lines) then Failure(DuplicateUser)
    else
      match SharesOf(rng, m, total, date, Column(m, lines))
      case Failure(error) => Failure(error)
      case Success(shares) => Success(FinalRows(total, payer, lines, shares))
  }

  /** Whatever Compute accepts it turns into valid rows. */
  lemma ComputeValid(rng: Prng, m: Method, total: int, payer: UserId, date: string, lines: seq<Line>)
    requires ComputeOf(rng, m, total, payer, date, lines).Success?
    ensures var rows := ComputeOf(rng, m, total, payer, date, lines).value;
      ValidRows(payer, rows) && Users(rows) == LineUsers(lines) + {payer} && rows[0].user == payer
    ensures UserSelectable(m)
  {
    var col := Column(m, lines);
    SharesFair(rng, m, total, date, col, 0);
    FinalRowsValid(total, payer, lines, SharesOf(rng, m, total, date, col).value);
  }

  // ----------------------------------------- what each person's row amounts to

  /** share is within one minor unit of num / d. */
  predicate Near(share: int, num: int, d: int) {
    -d <= d * share - num <= d
  }

  /** What line i may have to carry of the total: the typed value for EXACT, otherwise a share
      within one minor unit of the one its input asks for. */
  ghost predicate FairShare(m: Method, total: int, lines: seq<Line>, i: nat, share: int)
    requires i < |lines|
  {
    match m
    case EQUAL => Near(share, total, |lines|)
    case EXACT => share == lines[i].exact
    case PERCENTAGE => Near(share, lines[i].basisPoints * total, 10000)
    case SHARE => Near(share, lines[i].shareUnits * total, SumUnits(lines))
    case ADJUSTMENT => Near(share, total - SumAdjustments(lines) + |lines| * lines[i].adjustment, |lines|)
    case _ => false
  }

  function SumBasisPoints(lines: seq<Line>): int {
    if lines == [] then 0 else lines[0].basisPoints + SumBasisPoints(lines[1..])
  }

  function SumExact(lines: seq<Line>): int {
    if lines == [] then 0 else lines[0].exact + SumExact(lines[1..])
  }

  function SumUnits(lines: seq<Line>): int {
    if lines == [] then 0 else lines[0].shareUnits + SumUnits(lines[1..])
  }

  function SumAdjustments(lines: seq<Line>): int {
    if lines == [] then 0 else lines[0].adjustment + SumAdjustments(lines[1..])
  }

  /** Everyone in the split but the payer owes a fair share of their own line; the payer is owed
      the total less one, or all of it if they have no line. */
  ghost predicate RowsFair(m: Method, total: int, payer: UserId, lines: seq<Line>, rows: seq<Part>) {
    && (forall i :: 0 <= i < |lines| ==> FairRow(m, total, payer, lines, i, rows))
    && ((forall i :: 0 <= i < |lines| ==> lines[i].user != payer) ==> PartOf(rows, payer) == total)
  }

  ghost predicate FairRow(m: Method, total: int, payer: UserId, lines: seq<Line>, i: nat, rows: seq<Part>)
    requires i < |lines|
  {
    var u := lines[i].user;
    FairShare(m, total, lines, i, if u == payer then total - PartOf(rows, u) else -PartOf(rows, u))
  }

  lemma {:induction false} ColumnSums(lines: seq<Line>)
    ensures Sum(Column(PERCENTAGE, lines)) == SumBasisPoints(lines) && Sum(Column(EXACT, lines)) == SumExact(lines)
    ensures Sum(Column(SHARE, lines)) == SumUnits(lines) && Sum(Column(ADJUSTMENT, lines)) == SumAdjustments(lines)
  {
    if lines != [] {
      ColumnSums(lines[1..]);
      assert Column(PERCENTAGE, lines)[1..] == Column(PERCENTAGE, lines[1..]);
      assert Column(EXACT, lines)[1..] == Column(EXACT, lines[1..]);
      assert Column(SHARE, lines)[1..] == Column(SHARE, lines[1..]);
      assert Column(ADJUSTMENT, lines)[1..] == Column(ADJUSTMENT, lines[1..]);
    }
  }

  lemma SharesNear(rng: Prng, m: Method, total: int, date: string, lines: seq<Line>, i: nat)
    requires i < |lines| && SharesOf(rng, m, total, date, Column(m, lines)).Success?
    ensures FairShare(m, total, lines, i, SharesOf(rng, m, total, date, Column(m, lines)).value[i])
  {
    ColumnSums(lines);
    SharesFair(rng, m, total, date, Column(m, lines), i);
  }

  /** The user of line i has the share of line i. */
  lemma {:induction false} ShareInRow(payer: UserId, lines: seq<Line>, shares: seq<int>, i: nat)
    requires |lines| == |shares| && DistinctLines(lines) && i < |lines|
    ensures lines[i].user == payer ==> PayerShare(payer, lines, shares) == shares[i]
    ensures lines[i].user != payer ==> PartOf(OtherRows(payer, lines, shares), lines[i].user) == -shares[i]
  {
    if i > 0 {
      ShareInRow(payer, lines[1..], shares[1..], i - 1);
      LineUserIn(lines[1..], i - 1);
    } else {
      NoRowOf(payer, lines[1..], shares[1..], lines[0].user);
    }
  }

  lemma {:induction false} LineUserIn(lines: seq<Line>, i: nat)
    requires i < |lines|
    ensures lines[i].user in LineUsers(lines)
  {
    if i > 0 { LineUserIn(lines[1..], i - 1); }
  }

  lemma {:induction false} NoRowOf(payer: UserId, lines: seq<Line>, shares: seq<int>, u: UserId)
    requires |lines| == |shares| && u !in LineUsers(lines)
    ensures PartOf(OtherRows(payer, lines, shares), u) == 0
    ensures u == payer ==> PayerShare(payer, lines, shares) == 0
  {
    if lines != [] { NoRowOf(payer, lines[1..], shares[1..], u); }
  }

  lemma {:induction false} PayerAmongOthers(payer: UserId, lines: seq<Line>, shares: seq<int>)
    requires |lines| == |shares|
    ensures PartOf(OtherRows(payer, lines, shares), payer) == 0
  {
    if lines != [] { PayerAmongOthers(payer, lines[1..], shares[1..]); }
  }

  lemma {:induction false} UserHasLine(lines: seq<Line>, u: UserId) returns (i: nat)
    requires u in LineUsers(lines)
    ensures i < |lines| && lines[i].user == u
  {
    if lines[0].user == u { i := 0; } else { i := UserHasLine(lines[1..], u); i := i + 1; }
  }

  /** Whatever Compute accepts gives each person a fair share of their own line. */
  lemma ComputeFair(rng: Prng, m: Method, total: int, payer: UserId, date: string, lines: seq<Line>)
    requires ComputeOf(rng, m, total, payer, date, lines).Success?
    ensures RowsFair(m, total, payer, lines, ComputeOf(rng, m, total, payer, date, lines).value)
  {
    var shares := SharesOf(rng, m, total, date, Column(m, lines)).value;
    forall i | 0 <= i < |lines| ensures FairShare(m, total, lines, i, shares[i]) {
      SharesNear(rng, m, total, date, lines, i);
    }
    FairShares(m, total, payer, lines, shares);
  }

  lemma FairShares(m: Method, total: int, payer: UserId, lines: seq<Line>, shares: seq<int>)
    requires |lines| == |shares| && DistinctLines(lines)
    requires forall i :: 0 <= i < |lines| ==> FairShare(m, total, lines, i, shares[i])
    ensures RowsFair(m, total, payer, lines, FinalRows(total, payer, lines, shares))
  {
    forall i | 0 <= i < |lines| ensures FairRow(m, total, payer, lines, i, FinalRows(total, payer, lines, shares)) {
      RowIsShare(total, payer, lines, shares, i);
      assert FairShare(m, total, lines, i, shares[i]);
    }
    if forall i :: 0 <= i < |lines| ==> lines[i].user != payer { PayerOutside(total, payer, lines, shares); }
  }

  lemma RowIsShare(total: int, payer: UserId, lines: seq<Line>, shares: seq<int>, i: nat)
    requires |lines| == |shares| && DistinctLines(lines) && i < |lines|
    ensures var u, rows := lines[i].user, FinalRows(total, payer, lines, shares);
      (if u == payer then total - PartOf(rows, u) else -PartOf(rows, u)) == shares[i]
  {
    assert FinalRows(total, payer, lines, shares)[1..] == OtherRows(payer, lines, shares);
    PayerAmongOthers(payer, lines, shares);
    ShareInRow(payer, lines, shares, i);
  }

  lemma PayerOutside(total: int, payer: UserId, lines: seq<Line>, shares: seq<int>)
    requires |lines| == |shares| && forall i :: 0 <= i < |lines| ==> lines[i].user != payer
    ensures PartOf(FinalRows(total, payer, lines, shares), payer) == total
  {
    assert FinalRows(total, payer, lines, shares)[1..] == OtherRows(payer, lines, shares);
    if payer in LineUsers(lines) { var i := UserHasLine(lines, payer); }
    NoRowOf(payer, lines, shares, payer);
  }

  /** What each method asks of the lines. */
  predicate Acceptable(m: Method, total: int, lines: seq<Line>) {
    match m
    case EQUAL => true
    case ADJUSTMENT => true
    case PERCENTAGE => (forall i :: 0 <= i < |lines| ==> lines[i].basisPoints >= 0) && SumBasisPoints(lines) == 10000
    case EXACT => SumExact(lines) == total
    case SHARE => (forall i :: 0 <= i < |lines| ==> lines[i].shareUnits >= 0) && SumUnits(lines) > 0
    case _ => false
  }

  /** Accepted are exactly the splits among at least one person, nobody twice, with inputs the
      method can use. */
  lemma ComputeAcceptsIff(rng: Prng, m: Method, total: int, payer: UserId, date: string, lines: seq<Line>)
    ensures ComputeOf(rng, m, total, payer, date, lines).Success? <==>
      lines != [] && (forall i, j :: 0 <= i < j < |lines| ==> lines[i].user != lines[j].user) && Acceptable(m, total, lines)
  {
    DistinctMeans(lines);
    if lines != [] {
      RefusalMeans(m, total, lines);
      SharesIff(rng, m, total, date, Column(m, lines));
    }
  }

  lemma RefusalMeans(m: Method, total: int, lines: seq<Line>)
    ensures Refusal(m, total, Column(m, lines)) == None <==> Acceptable(m, total, lines)
  {
    ColumnSums(lines);
  }

  lemma SharesIff(rng: Prng, m: Method, total: int, date: string, col: seq<int>)
    requires col != []
    ensures SharesOf(rng, m, total, date, col).Success? <==> Refusal(m, total, col) == None
  {
  }

  lemma {:induction false} DistinctMeans(lines: seq<Line>)
    ensures DistinctLines(lines) <==> forall i, j :: 0 <= i < j < |lines| ==> lines[i].user != lines[j].user
  {
    if lines != [] {
      DistinctMeans(lines[1..]);
      if DistinctLines(lines) {
        forall i, j | 0 <= i < j < |lines| ensures lines[i].user != lines[j].user {
          if i == 0 { LineUserIn(lines[1..], j - 1); } else { assert lines[1..][i - 1].user != lines[1..][j - 1].user; }
        }
      } else if lines[0].user in LineUsers(lines[1..]) {
        var j := UserHasLine(lines[1..], lines[0].user);
        assert lines[j + 1].user == lines[0].user;
      } else {
        var i, j :| 0 <= i < j < |lines[1..]| && lines[1..][i].user == lines[1..][j].user;
        assert lines[i + 1].user == lines[j + 1].user;
      }
    }
  }
}
