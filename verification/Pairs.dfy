/** Pair balances and the nets they determine. */
module Pairs {
  import opened Sorting
  import opened Simplify

  // -------------------------------------------------------------- the order

  /** Lexicographic order on strings. */
  predicate StrLess(x: string, y: string) {
    if y == [] then false
    else if x == [] then true
    else x[0] < y[0] || (x[0] == y[0] && StrLess(x[1..], y[1..]))
  }

  lemma {:induction false} StrTotal(x: string, y: string)
    ensures StrLess(x, y) ==> !StrLess(y, x)
    ensures x == y || StrLess(x, y) || StrLess(y, x)
  {
    if x != [] && y != [] && x[0] == y[0] {
      StrTotal(x[1..], y[1..]);
      assert x == [x[0]] + x[1..] && y == [y[0]] + y[1..];
    }
  }

  lemma {:induction false} StrTransitive(x: string, y: string, z: string)
    requires StrLess(x, y) && StrLess(y, z)
    ensures StrLess(x, z)
  {
    if x != [] && x[0] == y[0] == z[0] {
      StrTransitive(x[1..], y[1..], z[1..]);
    }
  }

  /** The first differing character decides, and a text comes before what continues it. */
  lemma {:induction false} StrLessMeans(p: string, c: char, a: string, d: char, b: string)
    requires c != d
    ensures StrLess(p + [c] + a, p + [d] + b) <==> c < d
    ensures StrLess(p, p + [c] + a) && !StrLess(p + [c] + a, p)
  {
    if p == "" {
      assert p + [c] + a == [c] + a && p + [d] + b == [d] + b;
    } else {
      StrLessMeans(p[1..], c, a, d, b);
      assert (p + [c] + a)[1..] == p[1..] + [c] + a && (p + [d] + b)[1..] == p[1..] + [d] + b;
    }
  }

  datatype PairKey = PairKey(cur: string, a: UserId, b: UserId)

  predicate KeyLess(x: PairKey, y: PairKey) {
    if x.cur != y.cur then StrLess(x.cur, y.cur)
    else if x.a != y.a then x.a < y.a
    else x.b < y.b
  }

  lemma KeyTotal(x: PairKey, y: PairKey)
    ensures !KeyLess(x, x)
    ensures x == y || KeyLess(x, y) || KeyLess(y, x)
  {
    StrTotal(x.cur, y.cur);
  }

  lemma KeyStrict()
    ensures Strict(KeyLess)
  {
    forall x, y, z | KeyLess(x, y) && KeyLess(y, z) ensures KeyLess(x, z) {
      StrTotal(x.cur, y.cur);
      if StrLess(x.cur, y.cur) && StrLess(y.cur, z.cur) {
        StrTransitive(x.cur, y.cur, z.cur);
        StrTotal(x.cur, z.cur);
      }
    }
  }

  // ------------------------------------------------------------------- data

  /** A directed row of the balance view: amount > 0 means friend owes user. */
  datatype Row = Row(user: UserId, friend: UserId, currency: string, amount: int)

  /** One unordered pair, a < b: owed is what b owes a. */
  datatype Pair = Pair(a: UserId, b: UserId, currency: string, owed: int)

  /** A two-row entry: what other owes payer grows by amount. */
  datatype Shift = Shift(payer: UserId, other: UserId, currency: string, amount: int)

  function KeyFor(cur: string, u: UserId, v: UserId): PairKey {
    if u > v then PairKey(cur, v, u) else PairKey(cur, u, v)
  }

  function KeyOf(p: Pair): PairKey { PairKey(p.currency, p.a, p.b) }
  function RowKey(r: Row): PairKey { KeyFor(r.currency, r.user, r.friend) }
  function ShiftKey(s: Shift): PairKey { KeyFor(s.currency, s.payer, s.other) }
  function RowOwed(r: Row): int { if r.user > r.friend then -r.amount else r.amount }

  predicate PairBefore(x: Pair, y: Pair) { KeyLess(KeyOf(x), KeyOf(y)) }
  predicate ShiftBefore(x: Shift, y: Shift) { KeyLess(ShiftKey(x), ShiftKey(y)) }

  /** What b owes a under k, over a list of pairs. */
  function OwedIn(ps: seq<Pair>, k: PairKey): int {
    if ps == [] then 0 else (if KeyOf(ps[0]) == k then ps[0].owed else 0) + OwedIn(ps[1..], k)
  }

  /** u's net in one currency over a list of pairs (positive: is owed). */
  function NetIn(ps: seq<Pair>, cur: string, u: UserId): int {
    if ps == [] then 0 else NetOfPair(ps[0], cur, u) + NetIn(ps[1..], cur, u)
  }

  function NetOfPair(p: Pair, cur: string, u: UserId): int {
    if p.currency != cur then 0
    else (if p.a == u then p.owed else 0) - (if p.b == u then p.owed else 0)
  }

  function People(ps: seq<Pair>): set<UserId> {
    if ps == [] then {} else {ps[0].a, ps[0].b} + People(ps[1..])
  }

  /** Every pair names two people, the lower id first. */
  ghost predicate Oriented(ps: seq<Pair>) {
    forall i :: 0 <= i < |ps| ==> ps[i].a < ps[i].b
  }

  lemma {:induction false} OwedInConcat(ps: seq<Pair>, qs: seq<Pair>, k: PairKey)
    ensures OwedIn(ps + qs, k) == OwedIn(ps, k) + OwedIn(qs, k)
  {
    if ps == [] {
      assert ps + qs == qs;
    } else {
      OwedInConcat(ps[1..], qs, k);
      assert (ps + qs)[1..] == ps[1..] + qs;
    }
  }

  lemma {:induction false} NetInConcat(ps: seq<Pair>, qs: seq<Pair>, cur: string, u: UserId)
    ensures NetIn(ps + qs, cur, u) == NetIn(ps, cur, u) + NetIn(qs, cur, u)
  {
    if ps == [] {
      assert ps + qs == qs;
    } else {
      NetInConcat(ps[1..], qs, cur, u);
      assert (ps + qs)[1..] == ps[1..] + qs;
    }
  }

  // --------------------------------------- the balances determine the nets

  function Without(ps: seq<Pair>, k: PairKey): (r: seq<Pair>)
    ensures |r| <= |ps|
  {
    if ps == [] then [] else (if KeyOf(ps[0]) == k then [] else [ps[0]]) + Without(ps[1..], k)
  }

  function KeyNet(k: PairKey, cur: string, u: UserId): int {
    if k.cur != cur then 0 else (if k.a == u then 1 else 0) - (if k.b == u then 1 else 0)
  }

  lemma {:induction false} SplitOffKey(ps: seq<Pair>, k: PairKey, j: PairKey, cur: string, u: UserId)
    ensures OwedIn(Without(ps, k), j) == if j == k then 0 else OwedIn(ps, j)
    ensures NetIn(ps, cur, u) == OwedIn(ps, k) * KeyNet(k, cur, u) + NetIn(Without(ps, k), cur, u)
  {
    if ps != [] {
      SplitOffKey(ps[1..], k, j, cur, u);
      var w := Without(ps, k);
      if KeyOf(ps[0]) == k {
        assert w == Without(ps[1..], k);
        assert (ps[0].owed + OwedIn(ps[1..], k)) * KeyNet(k, cur, u)
            == ps[0].owed * KeyNet(k, cur, u) + OwedIn(ps[1..], k) * KeyNet(k, cur, u);
      } else {
        assert w[1..] == Without(ps[1..], k);
      }
    }
  }

  /** Pairs that all balance to zero leave everyone's net at zero. */
  lemma {:induction false} ZeroPairsZeroNet(ps: seq<Pair>, cur: string, u: UserId)
    requires forall k: PairKey :: k.cur == cur ==> OwedIn(ps, k) == 0
    ensures NetIn(ps, cur, u) == 0
    decreases |ps|
  {
    if ps != [] {
      var k := KeyOf(ps[0]);
      var w := Without(ps[1..], k);
      assert Without(ps, k) == w;
      forall j: PairKey | j.cur == cur ensures OwedIn(w, j) == 0 {
        SplitOffKey(ps, k, j, cur, u);
      }
      SplitOffKey(ps, k, k, cur, u);
      ZeroPairsZeroNet(w, cur, u);
    }
  }

  function Negated(ps: seq<Pair>): (r: seq<Pair>)
    ensures |r| == |ps|
  {
    if ps == [] then [] else [ps[0].(owed := -ps[0].owed)] + Negated(ps[1..])
  }

  lemma {:induction false} NegatedSums(ps: seq<Pair>, k: PairKey, cur: string, u: UserId)
    ensures OwedIn(Negated(ps), k) == -OwedIn(ps, k)
    ensures NetIn(Negated(ps), cur, u) == -NetIn(ps, cur, u)
  {
    if ps != [] {
      NegatedSums(ps[1..], k, cur, u);
      assert Negated(ps)[1..] == Negated(ps[1..]);
    }
  }

  /** Two lists with the same balance for every pair of a currency give everyone the same net. */
  lemma SamePairsSameNet(ps: seq<Pair>, qs: seq<Pair>, cur: string, u: UserId)
    requires forall k: PairKey :: k.cur == cur ==> OwedIn(ps, k) == OwedIn(qs, k)
    ensures NetIn(ps, cur, u) == NetIn(qs, cur, u)
  {
    var d := ps + Negated(qs);
    forall k: PairKey | k.cur == cur ensures OwedIn(d, k) == 0 {
      OwedInConcat(ps, Negated(qs), k);
      NegatedSums(qs, k, cur, u);
    }
    ZeroPairsZeroNet(d, cur, u);
    NetInConcat(ps, Negated(qs), cur, u);
    NegatedSums(qs, PairKey(cur, 0, 0), cur, u);
  }
}
