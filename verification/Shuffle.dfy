/** The seeded order leftover units are handed out in, and the handing out itself. */
module Shuffle {
  import opened Division

  /** The generator: draw(shares, date, k) is its k-th output when seeded from the sorted base
      shares and the date. Nothing is assumed about the numbers. */
  datatype Prng = Prng(draw: (seq<int>, string, nat) -> nat)

  // ------------------------------------------------------------------ seed

  function InsertInt(x: int, s: seq<int>): (r: seq<int>)
    ensures multiset(r) == multiset{x} + multiset(s)
  {
    if s == [] || x <= s[0] then [x] + s
    else
      assert s == [s[0]] + s[1..];
      [s[0]] + InsertInt(x, s[1..])
  }

  function SortInts(s: seq<int>): (r: seq<int>)
    ensures multiset(r) == multiset(s)
  {
    if s == [] then []
    else
      assert s == [s[0]] + s[1..];
      InsertInt(s[0], SortInts(s[1..]))
  }

  predicate Ascending(s: seq<int>) {
    forall i, j :: 0 <= i < j < |s| ==> s[i] <= s[j]
  }

  lemma {:induction false} InsertIntKeeps(x: int, s: seq<int>)
    requires Ascending(s)
    ensures Ascending(InsertInt(x, s))
  {
    if s != [] && x > s[0] {
      InsertIntKeeps(x, s[1..]);
      var r := InsertInt(x, s[1..]);
      forall i | 0 <= i < |r| ensures s[0] <= r[i] {
        assert r[i] in multiset(r);
        assert r[i] == x || r[i] in s[1..];
      }
    }
  }

  lemma {:induction false} SortIntsKeeps(s: seq<int>)
    ensures Ascending(SortInts(s))
  {
    if s != [] {
      SortIntsKeeps(s[1..]);
      InsertIntKeeps(s[0], SortInts(s[1..]));
    }
  }

  lemma {:induction false} AscendingUnique(s: seq<int>, t: seq<int>)
    requires Ascending(s) && Ascending(t) && multiset(s) == multiset(t)
    ensures s == t
  {
    assert |multiset(s)| == |s| && |multiset(t)| == |t|;
    if s != [] {
      Smallest(s, t);
      Smallest(t, s);
      TailCount(s);
      TailCount(t);
      AscendingUnique(s[1..], t[1..]);
      assert s == [s[0]] + s[1..] && t == [t[0]] + t[1..];
    }
  }

  lemma TailCount(s: seq<int>)
    requires s != []
    ensures multiset(s[1..]) == multiset(s) - multiset{s[0]}
  {
    assert s == [s[0]] + s[1..];
  }

  lemma Smallest(s: seq<int>, t: seq<int>)
    requires Ascending(s) && s != [] && t != [] && multiset(s) == multiset(t)
    ensures s[0] <= t[0]
  {
    assert t[0] in multiset(s);
    assert t[0] in s;
  }

  /** The seed only sees which shares there are, not whose they are. */
  lemma SeedIgnoresOrder(s: seq<int>, t: seq<int>)
    requires multiset(s) == multiset(t)
    ensures SortInts(s) == SortInts(t)
  {
    SortIntsKeeps(s);
    SortIntsKeeps(t);
    AscendingUnique(SortInts(s), SortInts(t));
  }

  // ---------------------------------------------------------- Fisher-Yates

  predicate Permutation(p: seq<int>) {
    && (forall i :: 0 <= i < |p| ==> 0 <= p[i] < |p|)
    && (forall i, j :: 0 <= i < j < |p| ==> p[i] != p[j])
  }

  function Swapped(p: seq<int>, i: int, j: int): seq<int>
    requires 0 <= i < |p| && 0 <= j < |p|
  {
    p[i := p[j]][j := p[i]]
  }

  /** The shuffle from position i down; k counts the draws made so far. */
  function ShuffleFrom(p: seq<int>, i: int, k: nat, rng: Prng, seed: seq<int>, date: string): (r: seq<int>)
    requires i < |p|
    ensures |r| == |p|
    decreases i
  {
    if i <= 0 then p
    else ShuffleFrom(Swapped(p, i, rng.draw(seed, date, k) % (i + 1)), i - 1, k + 1, rng, seed, date)
  }

  function OrderOf(rng: Prng, shares: seq<int>, date: string): (r: seq<int>)
    ensures |r| == |shares|
  {
    ShuffleFrom(seq(|shares|, i => i), |shares| - 1, 0, rng, SortInts(shares), date)
  }

  lemma SwapKeeps(p: seq<int>, i: int, j: int)
    requires Permutation(p) && 0 <= i < |p| && 0 <= j < |p|
    ensures Permutation(Swapped(p, i, j))
  {
  }

  lemma {:induction false} ShuffleKeeps(p: seq<int>, i: int, k: nat, rng: Prng, seed: seq<int>, date: string)
    requires i < |p| && Permutation(p)
    ensures Permutation(ShuffleFrom(p, i, k, rng, seed, date))
    decreases i
  {
    if i > 0 {
      var j := rng.draw(seed, date, k) % (i + 1);
      SwapKeeps(p, i, j);
      ShuffleKeeps(Swapped(p, i, j), i - 1, k + 1, rng, seed, date);
    }
  }

  /** Everyone has exactly one place in the order. */
  lemma OrderIsPermutation(rng: Prng, shares: seq<int>, date: string)
    ensures Permutation(OrderOf(rng, shares, date))
  {
    ShuffleKeeps(seq(|shares|, i => i), |shares| - 1, 0, rng, SortInts(shares), date);
  }

  method SeededOrder(rng: Prng, shares: array<int>, date: string) returns (order: array<int>)
    ensures fresh(order) && order[..] == OrderOf(rng, shares[..], date)
  {
    var seed := SortInts(shares[..]);
    var n := shares.Length;
    order := new int[n](i => i);
    assert order[..] == seq(n, i => i);
    ShuffleInPlace(rng, order, seed, date);
  }

  method ShuffleInPlace(rng: Prng, order: array<int>, seed: seq<int>, date: string)
    modifies order
    ensures order[..] == ShuffleFrom(old(order[..]), order.Length - 1, 0, rng, seed, date)
  {
    var i := order.Length - 1;
    var k := 0;
    while i > 0
      invariant -1 <= i < order.Length && k >= 0
      invariant ShuffleFrom(order[..], i, k, rng, seed, date)
             == ShuffleFrom(old(order[..]), order.Length - 1, 0, rng, seed, date)
    {
      var j := rng.draw(seed, date, k) % (i + 1);
      ghost var before := order[..];
      order[i], order[j] := order[j], order[i];
      assert order[..] == Swapped(before, i, j);
      i := i - 1;
      k := k + 1;
    }
  }

  // --------------------------------------------------------------- leftover

  /** Hands out r units one at a time along the order, starting at place i. */
  function Spread(s: seq<int>, order: seq<int>, i: nat, r: int): (t: seq<int>)
    requires |s| == |order| > 0 && Permutation(order)
    ensures |t| == |s|
    decreases if r < 0 then -r else r
  {
    if r == 0 then s
    else
      var p := order[i % |order|];
      var u := if r > 0 then 1 else -1;
      Spread(s[p := s[p] + u], order, i + 1, r - u)
  }

  /** The shares once the leftover has been handed out. */
  function Distributed(rng: Prng, s: seq<int>, total: int, date: string): (t: seq<int>)
    ensures |t| == |s|
  {
    if s == [] then s
    else
      OrderIsPermutation(rng, s, date);
      Spread(s, OrderOf(rng, s, date), 0, total - Sum(s))
  }

  lemma DistributedIs(rng: Prng, s: seq<int>, total: int, date: string)
    requires s != []
    ensures Permutation(OrderOf(rng, s, date))
    ensures Distributed(rng, s, total, date) == Spread(s, OrderOf(rng, s, date), 0, total - Sum(s))
    ensures total == Sum(s) ==> Distributed(rng, s, total, date) == s
  {
    OrderIsPermutation(rng, s, date);
  }

  method Total(shares: array<int>) returns (sum: int)
    ensures sum == Sum(shares[..])
  {
    sum := 0;
    for i := 0 to shares.Length
      invariant sum == Sum(shares[..i])
    {
      SumAppend(shares[..i], shares[i]);
      assert shares[..i + 1] == shares[..i] + [shares[i]];
      sum := sum + shares[i];
    }
    assert shares[..shares.Length] == shares[..];
  }

  method DistributeRemainder(rng: Prng, shares: array<int>, total: int, date: string)
    requires shares.Length > 0
    modifies shares
    ensures shares[..] == Distributed(rng, old(shares[..]), total, date)
  {
    var sum := Total(shares);
    var remainder := total - sum;
    DistributedIs(rng, shares[..], total, date);
    if remainder == 0 {
      return;
    }
    var order := SeededOrder(rng, shares, date);
    HandOut(shares, order, remainder);
  }

  /** The two loops: one for units to add, one for units to take away. */
  method HandOut(shares: array<int>, order: array<int>, r: int)
    requires shares.Length == order.Length > 0 && shares != order && Permutation(order[..])
    modifies shares
    ensures shares[..] == Spread(old(shares[..]), order[..], 0, r)
  {
    var remainder := r;
    ghost var o, goal := order[..], Spread(shares[..], order[..], 0, r);
    var i := 0;
    while remainder > 0
      invariant i >= 0 && (remainder >= 0 || remainder == r)
      invariant order[..] == o
      invariant Spread(shares[..], o, i, remainder) == goal
    {
      var p := order[i % order.Length];
      SpreadStep(shares[..], o, i, remainder, p);
      ghost var was := shares[..];
      shares[p] := shares[p] + 1;
      assert shares[..] == was[p := was[p] + 1];
      remainder := remainder - 1;
      i := i + 1;
    }
    while remainder < 0
      invariant i >= 0 && remainder <= 0
      invariant order[..] == o
      invariant Spread(shares[..], o, i, remainder) == goal
    {
      var p := order[i % order.Length];
      SpreadStep(shares[..], o, i, remainder, p);
      ghost var was := shares[..];
      shares[p] := shares[p] - 1;
      assert shares[..] == was[p := was[p] - 1];
      remainder := remainder + 1;
      i := i + 1;
    }
  }

  lemma SpreadStep(s: seq<int>, order: seq<int>, i: nat, r: int, p: int)
    requires |s| == |order| > 0 && Permutation(order) && r != 0 && p == order[i % |order|]
    ensures 0 <= p < |s|
    ensures var u := if r > 0 then 1 else -1;
      Spread(s[p := s[p] + u], order, i + 1, r - u) == Spread(s, order, i, r)
  {
  }

  lemma {:induction false} SpreadSum(s: seq<int>, order: seq<int>, i: nat, r: int)
    requires |s| == |order| > 0 && Permutation(order)
    ensures Sum(Spread(s, order, i, r)) == Sum(s) + r
    decreases if r < 0 then -r else r
  {
    if r != 0 {
      var p := order[i % |order|];
      var u := if r > 0 then 1 else -1;
      SumUpdate(s, p, s[p] + u);
      SpreadSum(s[p := s[p] + u], order, i + 1, r - u);
    }
  }

  lemma Turn(order: seq<int>, i: nat, k: nat)
    requires Permutation(order) && i < |order| && k < |order|
    ensures order[i % |order|] == order[k] <==> i == k
  {
    SmallMod(i, |order|);
    Elsewhere(order, i, k);
  }

  lemma SmallMod(i: nat, n: nat)
    requires i < n
    ensures i % n == i
  {
  }

  lemma Elsewhere(order: seq<int>, i: nat, k: nat)
    requires Permutation(order) && i < |order| && k < |order|
    ensures order[i] == order[k] <==> i == k
  {
  }

  /** With fewer units than places left, a place gets one unit if its turn comes and none
      otherwise. */
  lemma {:induction false} SpreadAt(s: seq<int>, order: seq<int>, i: nat, r: int, k: nat)
    requires |s| == |order| > 0 && Permutation(order) && k < |order|
    requires i + (if r < 0 then -r else r) <= |order|
    ensures var u := if r > 0 then 1 else -1;
      var m := if r < 0 then -r else r;
      Spread(s, order, i, r)[order[k]] == s[order[k]] + (if i <= k < i + m then u else 0)
    decreases if r < 0 then -r else r
  {
    if r != 0 {
      var p := order[i % |order|];
      var u := if r > 0 then 1 else -1;
      Turn(order, i, k);
      SpreadStep(s, order, i, r, p);
      SpreadAt(s[p := s[p] + u], order, i + 1, r - u, k);
    }
  }

  /** Every index has a place in a permutation. */
  lemma PlaceOf(p: seq<int>, x: int) returns (k: nat)
    requires Permutation(p) && 0 <= x < |p|
    ensures k < |p| && p[k] == x
  {
    PigeonHole(p, x);
    k :| 0 <= k < |p| && p[k] == x;
  }

  ghost function Below(n: nat): set<int> {
    if n == 0 then {} else Below(n - 1) + {n - 1}
  }

  lemma {:induction false} BelowIs(n: nat)
    ensures |Below(n)| == n && forall x :: x in Below(n) <==> 0 <= x < n
  {
    if n > 0 { BelowIs(n - 1); }
  }

  ghost function Values(p: seq<int>): set<int> {
    if p == [] then {} else Values(p[..|p| - 1]) + {p[|p| - 1]}
  }

  lemma {:induction false} ValuesAre(p: seq<int>)
    requires forall i, j :: 0 <= i < j < |p| ==> p[i] != p[j]
    ensures |Values(p)| == |p| && forall x :: x in Values(p) <==> x in p
  {
    if p != [] {
      var q, last := p[..|p| - 1], p[|p| - 1];
      ValuesAre(q);
      NewLast(q, last, p);
    }
  }

  lemma NewLast(q: seq<int>, last: int, p: seq<int>)
    requires p == q + [last] && forall i, j :: 0 <= i < j < |p| ==> p[i] != p[j]
    ensures last !in q && forall x :: x in p <==> x in q || x == last
  {
    forall i | 0 <= i < |q| ensures q[i] != last {
      assert p[i] != p[|q|];
    }
  }

  lemma PigeonHole(p: seq<int>, x: int)
    requires Permutation(p) && 0 <= x < |p|
    ensures x in p
  {
    ValuesAre(p);
    BelowIs(|p|);
    if x !in p {
      forall y | y in Values(p) ensures y in Below(|p|) - {x} {}
      SubsetCount(Values(p), Below(|p|) - {x});
    }
  }

  lemma {:induction false} SubsetCount<T>(a: set<T>, b: set<T>)
    requires a <= b
    ensures |a| <= |b|
  {
    if a != {} {
      var x :| x in a;
      SubsetCount(a - {x}, b - {x});
    }
  }

  /** When less is left over than there are shares, handing it out hits the total and moves
      each share by at most one unit, all in the same direction. */
  lemma DistributedUnits(rng: Prng, s: seq<int>, total: int, date: string, x: int)
    requires -|s| < total - Sum(s) < |s| && 0 <= x < |s|
    ensures Sum(Distributed(rng, s, total, date)) == total
    ensures var d := Distributed(rng, s, total, date)[x] - s[x];
      if total >= Sum(s) then 0 <= d <= 1 else -1 <= d <= 0
    ensures total == Sum(s) ==> Distributed(rng, s, total, date) == s
  {
    var order := OrderOf(rng, s, date);
    OrderIsPermutation(rng, s, date);
    SpreadSum(s, order, 0, total - Sum(s));
    var k := PlaceOf(order, x);
    SpreadAt(s, order, 0, total - Sum(s), k);
  }

  /** The leftover goes, one unit each, to the first places of the order. */
  lemma LeftoverFirst(rng: Prng, s: seq<int>, total: int, date: string, k: nat)
    requires -|s| < total - Sum(s) < |s| && k < |s|
    ensures var order, r := OrderOf(rng, s, date), total - Sum(s);
      && 0 <= order[k] < |s|
      && Distributed(rng, s, total, date)[order[k]]
           == s[order[k]] + (if k < r then 1 else if k < -r then -1 else 0)
  {
    OrderIsPermutation(rng, s, date);
    SpreadAt(s, OrderOf(rng, s, date), 0, total - Sum(s), k);
  }

  // --------------------------------------------- what the generator decides

  /** A shuffle reads only the draws of its own seed and date, from its own position on. */
  lemma {:induction false} OwnDraws(p: seq<int>, i: int, k: nat, rng: Prng, other: Prng, seed: seq<int>, date: string)
    requires i < |p| && forall n: nat :: n >= k ==> rng.draw(seed, date, n) == other.draw(seed, date, n)
    ensures ShuffleFrom(p, i, k, rng, seed, date) == ShuffleFrom(p, i, k, other, seed, date)
    decreases i
  {
    if i > 0 {
      var j := rng.draw(seed, date, k) % (i + 1);
      OwnDraws(Swapped(p, i, j), i - 1, k + 1, rng, other, seed, date);
    }
  }

  /** The first draw decides who comes to place i. */
  lemma FirstDraw(p: seq<int>, q: seq<int>, i: int) returns (j: nat)
    requires Permutation(p) && Permutation(q) && |p| == |q| && 0 <= i < |p|
    requires forall x :: i < x < |p| ==> p[x] == q[x]
    ensures j <= i && Permutation(Swapped(p, i, j)) && forall x :: i <= x < |p| ==> Swapped(p, i, j)[x] == q[x]
  {
    j := PlaceOf(p, q[i]);
    SwapKeeps(p, i, j);
  }

  /** For some generator the shuffle ends in any given order. */
  lemma {:induction false} AnyShuffle(p: seq<int>, q: seq<int>, i: int, k: nat, seed: seq<int>, date: string) returns (rng: Prng)
    requires Permutation(p) && Permutation(q) && |p| == |q| && i < |p|
    requires forall x :: x >= 0 && i < x < |p| ==> p[x] == q[x]
    ensures ShuffleFrom(p, i, k, rng, seed, date) == q
    decreases i
  {
    if i <= 0 {
      rng := Prng((s: seq<int>, d: string, n: nat) => 0);
      if i == 0 { LastPlace(p, q); }
      assert p == q;
    } else {
      var j := FirstDraw(p, q, i);
      var rest := AnyShuffle(Swapped(p, i, j), q, i - 1, k + 1, seed, date);
      rng := DrawFirst(j, k, rest);
      DrawsFirst(p, i, k, j, rest, seed, date);
    }
  }

  /** The k-th draw is j, the others those of rest. */
  function DrawFirst(j: nat, k: nat, rest: Prng): Prng {
    Prng((s: seq<int>, d: string, n: nat) => DrawAt(j, k, rest, s, d, n))
  }

  function DrawAt(j: nat, k: nat, rest: Prng, s: seq<int>, d: string, n: nat): nat {
    if n == k then j else rest.draw(s, d, n)
  }

  lemma DrawsFirst(p: seq<int>, i: int, k: nat, j: nat, rest: Prng, seed: seq<int>, date: string)
    requires 0 < i < |p| && j <= i
    ensures ShuffleFrom(p, i, k, DrawFirst(j, k, rest), seed, date)
         == ShuffleFrom(Swapped(p, i, j), i - 1, k + 1, rest, seed, date)
  {
    SmallMod(j, i + 1);
    OwnDraws(Swapped(p, i, j), i - 1, k + 1, DrawFirst(j, k, rest), rest, seed, date);
  }

  lemma LastPlace(p: seq<int>, q: seq<int>)
    requires Permutation(p) && Permutation(q) && |p| == |q| > 0 && forall x :: 0 < x < |p| ==> p[x] == q[x]
    ensures p == q
  {
    var j := FirstDraw(p, q, 0);
    assert Swapped(p, 0, 0) == p;
  }

  /** Every order can come of it: nobody is ruled out from the first leftover units. */
  lemma AnyOrder(shares: seq<int>, date: string, q: seq<int>) returns (rng: Prng)
    requires Permutation(q) && |q| == |shares|
    ensures OrderOf(rng, shares, date) == q
  {
    rng := AnyShuffle(seq(|shares|, i => i), q, |shares| - 1, 0, SortInts(shares), date);
  }

  /** And the order may differ with the shares there are, and with the date. */
  lemma OrderDepends(a: seq<int>, d: string, b: seq<int>, e: string) returns (rng: Prng)
    requires |a| == |b| >= 2 && (d != e || SortInts(a) != SortInts(b))
    ensures OrderOf(rng, a, d) != OrderOf(rng, b, e)
  {
    var p, q := TwoOrders(|a|);
    var one := AnyOrder(a, d, p);
    var two := AnyOrder(b, e, q);
    rng := Either(one, two, SortInts(a), d);
    SameOrder(rng, one, a, d);
    SameOrder(rng, two, b, e);
  }

  lemma TwoOrders(n: nat) returns (p: seq<int>, q: seq<int>)
    requires n >= 2
    ensures Permutation(p) && Permutation(q) && |p| == |q| == n && p != q
  {
    p := seq(n, i => i);
    q := Swapped(p, 0, 1);
    SwapKeeps(p, 0, 1);
    assert p[0] == 0 && q[0] == 1;
  }

  /** One generator for one seed and date, another for the rest. */
  function Either(one: Prng, two: Prng, seed: seq<int>, date: string): Prng {
    Prng((s, t, n) => EitherAt(one, two, seed, date, s, t, n))
  }

  function EitherAt(one: Prng, two: Prng, seed: seq<int>, date: string, s: seq<int>, t: string, n: nat): nat {
    if s == seed && t == date then one.draw(s, t, n) else two.draw(s, t, n)
  }

  lemma SameOrder(rng: Prng, other: Prng, shares: seq<int>, date: string)
    requires forall n: nat :: rng.draw(SortInts(shares), date, n) == other.draw(SortInts(shares), date, n)
    ensures OrderOf(rng, shares, date) == OrderOf(other, shares, date)
  {
    OwnDraws(seq(|shares|, i => i), |shares| - 1, 0, rng, other, SortInts(shares), date);
  }
}
