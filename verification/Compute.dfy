/** The split engine's procedures, each against the functions of Split. */
module Compute {
  import opened Text
  import opened Division
  import opened Shuffle
  import opened Simplify
  import opened Ledger
  import opened Split

  // -------------------------------------------------------------------- gcd

  function GcdOf(a: nat, b: nat): nat
    decreases b
  {
    if b == 0 then a else GcdOf(b, a % b)
  }

  method Gcd(a0: nat, b0: nat) returns (g: nat)
    ensures g == GcdOf(a0, b0)
  {
    var a, b := a0, b0;
    while b != 0
      invariant GcdOf(a, b) == GcdOf(a0, b0)
      decreases b
    {
      a, b := b, a % b;
    }
    g := a;
  }

  predicate Divides(d: nat, a: nat) {
    if d == 0 then a == 0 else a % d == 0
  }

  lemma DividesMultiple(d: nat, a: nat) returns (k: nat)
    requires Divides(d, a)
    ensures a == d * k
  {
    k := if d == 0 then 0 else a / d;
  }

  lemma MultipleDivides(d: nat, k: nat)
    ensures Divides(d, d * k)
  {
    if d > 0 {
      DivUnique(d * k, d, k);
      assert d * k == d * ((d * k) / d) + (d * k) % d;
    }
  }

  /** The result divides both arguments and is zero only for two zeros. */
  lemma {:induction false} GcdDivides(a: nat, b: nat)
    ensures Divides(GcdOf(a, b), a) && Divides(GcdOf(a, b), b)
    ensures GcdOf(a, b) == 0 <==> a == 0 && b == 0
    decreases b
  {
    if b == 0 {
      if a > 0 { MultipleDivides(a, 1); }
    } else {
      GcdDivides(b, a % b);
      var g := GcdOf(b, a % b);
      DividesCombination(g, b, a % b, a / b);
      assert a == b * (a / b) + a % b;
    }
  }

  lemma DividesCombination(g: nat, b: nat, c: nat, q: nat)
    requires Divides(g, b) && Divides(g, c)
    ensures b * q + c >= 0 && Divides(g, b * q + c)
  {
    var x := DividesMultiple(g, b);
    var y := DividesMultiple(g, c);
    Factored(g, x, y, q);
    MultipleDivides(g, x * q + y);
  }

  lemma Factored(g: nat, x: nat, y: nat, q: nat)
    ensures x * q + y >= 0 && g * (x * q + y) == (g * x) * q + g * y
  {
  }

  lemma DividesTrans(d: nat, e: nat, a: nat)
    requires Divides(d, e) && Divides(e, a)
    ensures Divides(d, a)
  {
    var x := DividesMultiple(d, e);
    var y := DividesMultiple(e, a);
    assert a == d * (x * y);
    MultipleDivides(d, x * y);
  }

  // ------------------------------------------------------------- the shares

  method SumColumn(col: seq<int>) returns (sum: int)
    ensures sum == Sum(col)
  {
    sum := 0;
    for i := 0 to |col|
      invariant sum == Sum(col[..i])
    {
      SumAppend(col[..i], col[i]);
      assert col[..i + 1] == col[..i] + [col[i]];
      sum := sum + col[i];
    }
    assert col[..|col|] == col;
  }

  /** Adds up inputs that may not be negative. */
  method SumChecked(col: seq<int>) returns (ok: bool, sum: int)
    ensures ok <==> !SomeNegative(col)
    ensures ok ==> sum == Sum(col)
  {
    sum := 0;
    for i := 0 to |col|
      invariant sum == Sum(col[..i])
      invariant forall j :: 0 <= j < i ==> col[j] >= 0
    {
      if col[i] < 0 {
        return false, sum;
      }
      SumAppend(col[..i], col[i]);
      assert col[..i + 1] == col[..i] + [col[i]];
      sum := sum + col[i];
    }
    assert col[..|col|] == col;
    return true, sum;
  }

  /** Divides all units by their greatest common divisor and returns what that makes of the sum. */
  method Normalize(units: array<int>, sum0: int) returns (sum: int)
    requires sum0 == Sum(units[..]) > 0 && !SomeNegative(units[..])
    modifies units
    ensures sum > 0
    ensures exists g :: g > 0 && sum0 == g * sum && Scaled(old(units[..]), units[..], g)
  {
    var n := units.Length;
    ghost var before := units[..];
    sum := sum0;
    var g: nat := 0;
    for i := 0 to n
      invariant units[..] == before
      invariant forall j :: 0 <= j < i ==> before[j] >= 0 && Divides(g, before[j])
    {
      assert before[i] == units[i] >= 0;
      var next := Gcd(g, units[i]);
      GcdDivides(g, units[i]);
      forall j | 0 <= j < i ensures Divides(next, before[j]) {
        DividesTrans(next, g, before[j]);
      }
      g := next;
    }
    if g == 0 {
      AllZeroSum(before);
    }
    if g > 1 {
      for i := 0 to n
        invariant forall j :: 0 <= j < i ==> before[j] == g * units[j] && units[j] >= 0
        invariant forall j :: i <= j < n ==> units[j] == before[j]
      {
        var k := DividesMultiple(g, before[i]);
        DivUnique(before[i], g, k);
        units[i] := units[i] / g;
      }
      ScaledSum(before, units[..], g);
      var s := Sum(units[..]);
      DivUnique(sum0, g, s);
      if s <= 0 { SignOfProduct(g, s); }
      sum := sum / g;
    } else {
      assert forall j :: 0 <= j < n ==> before[j] == 1 * units[j];
    }
    assert Scaled(before, units[..], g);
  }

  ghost predicate Scaled(big: seq<int>, small: seq<int>, g: int) {
    |big| == |small| && forall j :: 0 <= j < |big| ==> big[j] == g * small[j]
  }

  lemma {:induction false} ScaledSum(big: seq<int>, small: seq<int>, g: int)
    requires Scaled(big, small, g)
    ensures Sum(big) == g * Sum(small)
  {
    if big != [] {
      ScaledSum(big[1..], small[1..], g);
      assert g * (small[0] + Sum(small[1..])) == g * small[0] + g * Sum(small[1..]);
    }
  }

  lemma {:induction false} AllZeroSum(s: seq<int>)
    requires forall j :: 0 <= j < |s| ==> s[j] >= 0 && Divides(0, s[j])
    ensures Sum(s) == 0
  {
    if s != [] { AllZeroSum(s[1..]); }
  }

  /** The share of normalized units is the share of the units as typed. */
  lemma NormalizedShare(u: int, big: int, sum: int, sum0: int, g: int, total: int)
    requires g > 0 && sum > 0 && big == g * u && sum0 == g * sum
    ensures sum0 > 0 && TDiv(u * total, sum) == TDiv(big * total, sum0)
  {
    TDivScale(u * total, sum, g);
    assert big * total == g * (u * total);
  }

  method ComputeShares(rng: Prng, m: Method, total: int, date: string, lines: seq<Line>)
    returns (r: Result<seq<int>, SplitError>)
    requires lines != []
    ensures r == SharesOf(rng, m, total, date, Column(m, lines))
  {
    var col := Column(m, lines);
    var n := |lines|;
    match m
    case EQUAL =>
      var base := TDiv(total, n);
      r := Distribute(rng, seq(n, _ => base), total, date);
      assert seq(n, _ => base) == BaseShares(m, total, col);
    case PERCENTAGE =>
      var ok, sum := SumChecked(col);
      if !ok {
        return Failure(NegativeBP);
      }
      if sum != BASIS_POINTS_FULL {
        return Failure(PercentSum(sum));
      }
      var base := PercentShares(total, col);
      r := Distribute(rng, base, total, date);
    case EXACT =>
      var sum := SumColumn(col);
      if sum != total {
        return Failure(ExactSum(sum, total));
      }
      r := Success(col);
    case SHARE =>
      var ok, sum := SumChecked(col);
      if !ok || sum <= 0 {
        return Failure(ShareUnits);
      }
      var base := WeightedShares(total, col, sum);
      r := Distribute(rng, base, total, date);
    case ADJUSTMENT =>
      var sum := SumColumn(col);
      var shares := AdjustedShares(total, col, sum);
      r := Distribute(rng, shares, total, date);
    case _ =>
      r := Failure(UnknownMethod);
  }

  method PercentShares(total: int, col: seq<int>) returns (base: seq<int>)
    requires Refusal(PERCENTAGE, total, col) == None && col != []
    ensures base == BaseShares(PERCENTAGE, total, col)
  {
    base := seq(|col|, i requires 0 <= i < |col| => TDiv(col[i] * total, BASIS_POINTS_FULL));
  }

  method AdjustedShares(total: int, col: seq<int>, sum: int) returns (shares: seq<int>)
    requires col != [] && sum == Sum(col)
    ensures shares == BaseShares(ADJUSTMENT, total, col)
  {
    var base := TDiv(total - sum, |col|);
    shares := seq(|col|, i requires 0 <= i < |col| => base + col[i]);
  }

  method WeightedShares(total: int, col: seq<int>, sum0: int) returns (base: seq<int>)
    requires Refusal(SHARE, total, col) == None && col != [] && sum0 == Sum(col)
    ensures base == BaseShares(SHARE, total, col)
  {
    var n := |col|;
    var units := new int[n](i requires 0 <= i < n => col[i]);
    assert units[..] == col;
    var sum := Normalize(units, sum0);
    ghost var g :| g > 0 && sum0 == g * sum && Scaled(col, units[..], g);
    base := [];
    for i := 0 to n
      invariant Scaled(col, units[..], g)
      invariant |base| == i && forall j :: 0 <= j < i ==> base[j] == TDiv(col[j] * total, sum0)
    {
      NormalizedShare(units[i], col[i], sum, sum0, g, total);
      base := base + [TDiv(units[i] * total, sum)];
    }
    assert base == BaseShares(SHARE, total, col);
  }

  method Distribute(rng: Prng, base: seq<int>, total: int, date: string) returns (r: Result<seq<int>, SplitError>)
    requires base != []
    ensures r == Success(Distributed(rng, base, total, date))
  {
    var shares := new int[|base|](i requires 0 <= i < |base| => base[i]);
    assert shares[..] == base;
    DistributeRemainder(rng, shares, total, date);
    r := Success(shares[..]);
  }

  // --------------------------------------------------------------- the rows

  method Finalize(total: int, payer: UserId, lines: seq<Line>, shares: seq<int>) returns (rows: seq<Part>)
    requires |lines| == |shares| && DistinctLines(lines)
    ensures rows == FinalRows(total, payer, lines, shares)
  {
    var out: seq<Part> := [];
    var payerShare := 0;
    for i := 0 to |lines|
      invariant Finalizing(payer, lines[i..], shares[i..], out, payerShare, lines, shares)
    {
      NextLine(lines, i);
      NextShare(shares, i);
      FinalStep(payer, lines[i..], shares[i..], out, payerShare, lines, shares);
      if lines[i].user == payer {
        payerShare := shares[i];
      } else {
        out := out + [Part(lines[i].user, -shares[i])];
      }
    }
    assert lines[|lines|..] == [] && out + [] == out;
    rows := [Part(payer, total - payerShare)] + out;
  }

  /** Mid-way: out and payerShare hold what came before the lines left. */
  ghost predicate Finalizing(payer: UserId, left: seq<Line>, rest: seq<int>, out: seq<Part>, payerShare: int,
                             lines: seq<Line>, shares: seq<int>)
    requires |lines| == |shares|
  {
    && |left| == |rest| && DistinctLines(left)
    && out + OtherRows(payer, left, rest) == OtherRows(payer, lines, shares)
    && payerShare + PayerShare(payer, left, rest) == PayerShare(payer, lines, shares)
    && (payerShare != 0 ==> payer !in LineUsers(left))
  }

  lemma NextLine(lines: seq<Line>, i: nat)
    requires i < |lines|
    ensures lines[i..] != [] && lines[i..][0] == lines[i] && lines[i..][1..] == lines[i + 1..]
  {
  }

  lemma NextShare(shares: seq<int>, i: nat)
    requires i < |shares|
    ensures shares[i..] != [] && shares[i..][0] == shares[i] && shares[i..][1..] == shares[i + 1..]
  {
  }

  lemma FinalStep(payer: UserId, left: seq<Line>, rest: seq<int>, out: seq<Part>, payerShare: int, lines: seq<Line>, shares: seq<int>)
    requires |lines| == |shares| && Finalizing(payer, left, rest, out, payerShare, lines, shares) && left != []
    ensures if left[0].user == payer then Finalizing(payer, left[1..], rest[1..], out, rest[0], lines, shares)
            else Finalizing(payer, left[1..], rest[1..], out + [Part(left[0].user, -rest[0])], payerShare, lines, shares)
  {
    if left[0].user != payer {
      Assoc(out, [Part(left[0].user, -rest[0])], OtherRows(payer, left[1..], rest[1..]));
    } else {
      assert payerShare == 0;
    }
  }

  method Compute(rng: Prng, m: Method, total: int, payer: UserId, date: string, lines: seq<Line>)
    returns (r: Result<seq<Part>, SplitError>)
    ensures r == ComputeOf(rng, m, total, payer, date, lines)
    ensures r.Success? ==> ValidRows(payer, r.value) && Users(r.value) == LineUsers(lines) + {payer} && UserSelectable(m)
    ensures r.Success? ==> r.value[0].user == payer && RowsFair(m, total, payer, lines, r.value)
  {
    if |lines| == 0 {
      return Failure(NoParticipants);
    }
    var seen: set<UserId> := {};
    for i := 0 to |lines|
      invariant seen == LineUsers(lines[..i])
      invariant DistinctLines(lines[..i])
    {
      AppendLine(lines[..i], lines[i]);
      assert lines[..i + 1] == lines[..i] + [lines[i]];
      if lines[i].user in seen {
        PrefixDuplicate(lines, i + 1);
        return Failure(DuplicateUser);
      }
      seen := seen + {lines[i].user};
    }
    assert lines[..|lines|] == lines;
    var shares := ComputeShares(rng, m, total, date, lines);
    if shares.Failure? {
      return Failure(shares.error);
    }
    var rows := Finalize(total, payer, lines, shares.value);
    r := Success(rows);
    ComputeValid(rng, m, total, payer, date, lines);
    ComputeFair(rng, m, total, payer, date, lines);
  }

  lemma {:induction false} AppendLine(ls: seq<Line>, l: Line)
    ensures LineUsers(ls + [l]) == LineUsers(ls) + {l.user}
    ensures DistinctLines(ls + [l]) <==> DistinctLines(ls) && l.user !in LineUsers(ls)
  {
    if ls == [] {
      assert LineUsers([l]) == {l.user} && DistinctLines([l]);
    } else {
      AppendLine(ls[1..], l);
      assert (ls + [l])[1..] == ls[1..] + [l];
    }
  }

  lemma {:induction false} PrefixDuplicate(ls: seq<Line>, i: nat)
    requires i <= |ls| && !DistinctLines(ls[..i])
    ensures !DistinctLines(ls)
  {
    assert ls[..i][1..] == ls[1..][..i - 1];
    if ls[0].user in LineUsers(ls[..i][1..]) {
      PrefixLineUsers(ls[1..], i - 1);
    } else {
      PrefixDuplicate(ls[1..], i - 1);
    }
  }

  lemma {:induction false} PrefixLineUsers(ls: seq<Line>, i: nat)
    requires i <= |ls|
    ensures LineUsers(ls[..i]) <= LineUsers(ls)
  {
    if i > 0 {
      PrefixLineUsers(ls[1..], i - 1);
      assert ls[..i][1..] == ls[1..][..i - 1];
    }
  }

  // --------------------------------------------------------------- overflow

  const MAX_INT64 := 0x7FFF_FFFF_FFFF_FFFF

  predicate InInt64(x: int) {
    -MAX_INT64 - 1 <= x <= MAX_INT64
  }

  /** The unguarded products of the engine stay inside 64 bits while the total times the
      inputs' sum does; for percentages that is any total up to 2^63 / 10000. */
  lemma ProductsFit(m: Method, total: int, col: seq<int>, i: int)
    requires (m == PERCENTAGE || m == SHARE) && Refusal(m, total, col) == None && 0 <= i < |col|
    requires -MAX_INT64 <= Sum(col) * total <= MAX_INT64
    ensures InInt64(col[i] * total)
  {
    TermBound(col, i);
    if total >= 0 {
      MulMono(col[i], Sum(col), total);
    } else {
      MulMono(col[i], Sum(col), -total);
      assert col[i] * -total == -(col[i] * total) && Sum(col) * -total == -(Sum(col) * total);
    }
  }

  lemma MulMono(a: int, b: int, t: int)
    requires 0 <= a <= b && t >= 0
    ensures 0 <= a * t <= b * t
  {
    assert (b - a) * t >= 0;
  }

  lemma {:induction false} TermBound(col: seq<int>, i: int)
    requires !SomeNegative(col) && 0 <= i < |col|
    ensures 0 <= col[i] <= Sum(col)
  {
    forall j | 0 <= j < |col[1..]| ensures col[1..][j] >= 0 {}
    if |col| > 1 { TermBound(col[1..], if i > 0 then i - 1 else 0); }
  }
}
