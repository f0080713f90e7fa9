/** Go's truncating division, and the arithmetic of handing out what it leaves over. */
module Division {

  /** Division that truncates toward zero, for a positive divisor. */
  function TDiv(a: int, b: int): int
    requires b > 0
  {
    if a >= 0 then a / b else -((-a) / b)
  }

  /** n / d with the remainder on n's side of zero. */
  lemma TDivError(a: int, b: int)
    requires b > 0
    ensures a >= 0 ==> 0 <= a - b * TDiv(a, b) < b
    ensures a <= 0 ==> -b < a - b * TDiv(a, b) <= 0
  {
  }

  lemma DivUnique(a: int, b: int, q: int)
    requires b > 0 && b * q <= a < b * q + b
    ensures a / b == q
  {
    var d := a / b;
    assert b * d <= a < b * d + b;
    assert b * (q - d) == b * q - b * d;
    assert b * (d - q) == b * d - b * q;
    if d < q { MulAtLeast(b, q - d); }
    if d > q { MulAtLeast(b, d - q); }
  }

  lemma MulAtLeast(b: int, k: int)
    requires b > 0 && k >= 1
    ensures b * k >= b
  {
  }

  lemma DivScale(a: int, b: int, g: int)
    requires a >= 0 && b > 0 && g > 0
    ensures g * b > 0 && (g * a) / (g * b) == a / b
  {
    var q, r := a / b, a % b;
    assert a == b * q + r && 0 <= r < b;
    assert g * a == (g * b) * q + g * r by {
      assert g * (b * q + r) == g * (b * q) + g * r;
      assert g * (b * q) == (g * b) * q;
    }
    assert 0 <= g * r by { if r > 0 { MulAtLeast(g, r); } }
    assert g * r < g * b by {
      MulAtLeast(g, b - r);
      assert g * (b - r) == g * b - g * r;
    }
    MulAtLeast(g, b);
    DivUnique(g * a, g * b, q);
  }

  /** A common factor does not change a quotient. */
  lemma TDivScale(a: int, b: int, g: int)
    requires b > 0 && g > 0
    ensures g * b > 0 && TDiv(g * a, g * b) == TDiv(a, b)
  {
    MulAtLeast(g, b);
    if a >= 0 {
      DivScale(a, b, g);
      if a > 0 { MulAtLeast(g, a); }
    } else {
      DivScale(-a, b, g);
      MulAtLeast(g, -a);
      assert g * (-a) == -(g * a);
    }
  }

  // -------------------------------------------------------------- sequences

  function Sum(s: seq<int>): int {
    if s == [] then 0 else s[0] + Sum(s[1..])
  }

  lemma {:induction false} SumAppend(s: seq<int>, x: int)
    ensures Sum(s + [x]) == Sum(s) + x
  {
    if s == [] {
      assert [x][1..] == [];
    } else {
      SumAppend(s[1..], x);
      assert (s + [x])[1..] == s[1..] + [x];
    }
  }

  lemma {:induction false} SumUpdate(s: seq<int>, i: int, x: int)
    requires 0 <= i < |s|
    ensures Sum(s[i := x]) == Sum(s) - s[i] + x
  {
    if i == 0 {
      assert s[i := x][1..] == s[1..];
    } else {
      SumUpdate(s[1..], i - 1, x);
      assert s[i := x][1..] == s[1..][i - 1 := x];
    }
  }

  /** Each whole share is its exact value num[i] / d cut off toward zero, all on one side. */
  ghost predicate CutOff(base: seq<int>, num: seq<int>, d: int, up: bool) {
    && |base| == |num| && d > 0
    && forall i :: 0 <= i < |base| ==>
         if up then 0 <= num[i] - d * base[i] < d else -d < num[i] - d * base[i] <= 0
  }

  lemma {:induction false} ErrorSum(base: seq<int>, num: seq<int>, d: int, up: bool)
    requires CutOff(base, num, d, up) && base != []
    ensures if up then 0 <= Sum(num) - d * Sum(base) < |base| * d else -|base| * d < Sum(num) - d * Sum(base) <= 0
  {
    assert base[0] + Sum(base[1..]) == Sum(base);
    assert d * (base[0] + Sum(base[1..])) == d * base[0] + d * Sum(base[1..]);
    assert |base| * d == d + |base[1..]| * d;
    if |base| == 1 {
      assert base[1..] == [] && num[1..] == [];
    } else {
      ErrorSum(base[1..], num[1..], d, up);
    }
  }

  /** What truncation leaves over is on the same side as the errors and smaller than the
      number of shares. */
  lemma LeftoverBound(base: seq<int>, num: seq<int>, d: int, total: int, up: bool)
    requires CutOff(base, num, d, up) && base != [] && Sum(num) == d * total
    ensures if up then 0 <= total - Sum(base) < |base| else -|base| < total - Sum(base) <= 0
  {
    ErrorSum(base, num, d, up);
    MulMinus(d, total, Sum(base));
    if up {
      QuotientRange(d, total - Sum(base), |base|);
    } else {
      QuotientBelow(d, total - Sum(base), |base|);
    }
  }

  lemma QuotientBelow(d: int, r: int, n: int)
    requires d > 0 && -n * d < d * r <= 0
    ensures -n < r <= 0
  {
    assert d * (-r) == -(d * r) && -n * d == -(n * d);
    QuotientRange(d, -r, n);
  }

  lemma QuotientRange(d: int, r: int, n: int)
    requires d > 0 && 0 <= d * r < n * d
    ensures 0 <= r < n
  {
    assert d * (-r) == -(d * r);
    if r < 0 { MulAtLeast(d, -r); }
    if r >= n { MulLe(d, n, r); }
  }

  lemma MulMinus(d: int, x: int, y: int)
    ensures d * (x - y) == d * x - d * y
  {
  }

  lemma MulLe(d: int, x: int, y: int)
    requires d > 0 && x <= y
    ensures d * x <= d * y
  {
    assert d * (y - x) >= 0;
  }
}
