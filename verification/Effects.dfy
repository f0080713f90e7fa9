/** What each write moves: the rows it leaves, and the balances and nets before and after it. */
module Effects {
  import opened Text
  import opened Sums
  import opened Simplify
  import opened Pairs
  import opened Ledger
  import opened Writes

  /** What a live expense adds to u's net. */
  function LiveNet(e: Expense, sc: Option<GroupId>, cur: string, u: UserId): int {
    if e.group == sc && e.currency == cur then PartOf(e.parts, u) else 0
  }

  /** What a live expense adds to the balance of k: the payer is paired with everyone else. */
  function LiveOwed(e: Expense, sc: Option<GroupId>, k: PairKey): int {
    if e.group != sc || e.currency != k.cur || k.a >= k.b then 0
    else if e.paidBy == k.a then -PartOf(e.parts, k.b)
    else if e.paidBy == k.b then PartOf(e.parts, k.a)
    else 0
  }

  lemma ContributionIs(e: Expense, sc: Option<GroupId>, k: PairKey, cur: string, u: UserId)
    ensures NetFn(sc, cur, u)(e) == if e.deleted then 0 else LiveNet(e, sc, cur, u)
    ensures OwedFn(sc, k)(e) == if e.deleted then 0 else LiveOwed(e, sc, k)
  {
    if k.a < k.b {
      PartsOwed(e.parts, e.paidBy, e.currency, k);
    } else {
      NoSelfPairs(e.parts, e.paidBy, e.currency, k);
    }
  }

  lemma {:induction false} NoSelfPairs(ps: seq<Part>, payer: UserId, cur: string, k: PairKey)
    requires k.a >= k.b
    ensures OwedIn(PairsOfParts(ps, payer, cur), k) == 0
  {
    if ps != [] {
      NoSelfPairs(ps[1..], payer, cur, k);
      if ps[0].user != payer {
        assert PairsOfParts(ps, payer, cur)[1..] == PairsOfParts(ps[1..], payer, cur);
      }
    }
  }

  /** What a live expense adds to the balance u sees with v: whoever paid is owed what stands in the
      other's row as a debt. */
  function SeenFn(sc: Option<GroupId>, cur: string, u: UserId, v: UserId): Expense -> int {
    (e: Expense) =>
      if e.deleted || e.group != sc || e.currency != cur then 0
      else if e.paidBy == u then -PartOf(e.parts, v)
      else if e.paidBy == v then PartOf(e.parts, u)
      else 0
  }

  /** The balance u sees with v adds those up, and v sees the opposite. */
  lemma BalanceMeans(m: Table, sc: Option<GroupId>, cur: string, u: UserId, v: UserId)
    requires u != v
    ensures Balance(m, sc, cur, u, v) == MapTotal(m, SeenFn(sc, cur, u, v)) == -Balance(m, sc, cur, v, u)
  {
    if u < v {
      forall id | id in m ensures SeenFn(sc, cur, u, v)(m[id]) == OwedFn(sc, PairKey(cur, u, v))(m[id]) {
        ContributionIs(m[id], sc, PairKey(cur, u, v), cur, u);
      }
      SameTotal(m, SeenFn(sc, cur, u, v), OwedFn(sc, PairKey(cur, u, v)), 1);
    } else {
      forall id | id in m ensures SeenFn(sc, cur, u, v)(m[id]) == -1 * OwedFn(sc, PairKey(cur, v, u))(m[id]) {
        ContributionIs(m[id], sc, PairKey(cur, v, u), cur, u);
      }
      SameTotal(m, SeenFn(sc, cur, u, v), OwedFn(sc, PairKey(cur, v, u)), -1);
    }
  }

  lemma {:induction false} SameTotal<K, V(!new)>(m: map<K, V>, f: V -> int, g: V -> int, sign: int)
    requires forall k :: k in m ==> f(m[k]) == sign * g(m[k])
    ensures MapTotal(m, f) == sign * MapTotal(m, g)
    decreases |m|
  {
    if m != map[] {
      var k := Pick(m);
      RemoveShrinks(m, k);
      SameTotal(m - {k}, f, g, sign);
    }
  }

  /** All else is as it was. */
  ghost predicate OnlyRow(db: Db, n: Db, id: Id) {
    && (forall x :: x != id ==> (x in n.expenses <==> x in db.expenses) && (x in db.expenses ==> n.expenses[x] == db.expenses[x]))
    && n.archived == db.archived && n.groups == db.groups && n.templates == db.templates
  }

  /** A recorded expense is there as submitted, live and in its first version, and adds its own
      part to every balance and net. */
  lemma CreateMoves(db: Db, e: Expense, n: Db, sc: Option<GroupId>, k: PairKey, cur: string, u: UserId)
    requires db.next !in db.expenses && Create(db, e) == Success(n)
    ensures db.next in n.expenses && n.next == db.next + 1 && OnlyRow(db, n, db.next)
    ensures n.expenses[db.next] == e.(version := 1, deleted := false)
    ensures Net(n.expenses, sc, cur, u) == Net(db.expenses, sc, cur, u) + LiveNet(e, sc, cur, u)
    ensures Owed(n.expenses, sc, k) == Owed(db.expenses, sc, k) + LiveOwed(e, sc, k)
  {
    TotalUpdate(db.expenses, db.next, Stored(e), NetFn(sc, cur, u));
    TotalUpdate(db.expenses, db.next, Stored(e), OwedFn(sc, k));
    ContributionIs(Stored(e), sc, k, cur, u);
  }

  /** An edited expense reads back as submitted, its link and its deletion mark as they were and
      its version one up; and each balance and net moves by what the submitted expense contributes
      less what the stored one did, unless the row was deleted. */
  lemma EditMoves(db: Db, id: Id, e: Expense, token: nat, n: Db, sc: Option<GroupId>, k: PairKey, cur: string, u: UserId)
    requires Update(db, id, e, token) == Success(n)
    ensures id in db.expenses && id in n.expenses && OnlyRow(db, n, id)
    ensures n.expenses[id].parts == e.parts && n.expenses[id].paidBy == e.paidBy && n.expenses[id].amount == e.amount
    ensures n.expenses[id].group == e.group && n.expenses[id].currency == e.currency
    ensures n.expenses[id].split == e.split && n.expenses[id].date == e.date
    ensures n.expenses[id].conversionTo == db.expenses[id].conversionTo && n.expenses[id].deleted == db.expenses[id].deleted
    ensures n.expenses[id].version == db.expenses[id].version + 1 == token + 1
    ensures var orig := db.expenses[id];
      && Net(n.expenses, sc, cur, u)
           == Net(db.expenses, sc, cur, u) + (if orig.deleted then 0 else LiveNet(e, sc, cur, u) - LiveNet(orig, sc, cur, u))
      && Owed(n.expenses, sc, k)
           == Owed(db.expenses, sc, k) + (if orig.deleted then 0 else LiveOwed(e, sc, k) - LiveOwed(orig, sc, k))
  {
    var orig := db.expenses[id];
    TotalUpdate(db.expenses, id, Edited(orig, e), NetFn(sc, cur, u));
    TotalUpdate(db.expenses, id, Edited(orig, e), OwedFn(sc, k));
    ContributionIs(Edited(orig, e), sc, k, cur, u);
    ContributionIs(orig, sc, k, cur, u);
  }

  /** A conversion adds both its legs, each in its own currency. */
  lemma ConversionMoves(db: Db, from: Expense, to: Expense, n: Db, sc: Option<GroupId>, k: PairKey, cur: string, u: UserId)
    requires ValidDb(db) && ConversionPair(db, from, to) == Success(n)
    ensures db.next in n.expenses && db.next + 1 in n.expenses
    ensures n.expenses[db.next] == to.(version := 1, deleted := false)
    ensures n.expenses[db.next + 1] == from.(version := 1, deleted := false, conversionTo := Some(db.next))
    ensures Net(n.expenses, sc, cur, u) == Net(db.expenses, sc, cur, u) + LiveNet(to, sc, cur, u) + LiveNet(from, sc, cur, u)
    ensures Owed(n.expenses, sc, k) == Owed(db.expenses, sc, k) + LiveOwed(to, sc, k) + LiveOwed(from, sc, k)
  {
    var leg := from.(conversionTo := Some(db.next));
    var mid := Insert(db, to);
    CreateMoves(db, to, mid, sc, k, cur, u);
    CreateMoves(mid, leg, n, sc, k, cur, u);
  }

  /** A deleted expense stays in place, marked and one version up, and contributes nothing more. */
  lemma DeleteMoves(db: Db, id: Id, token: nat, n: Db, sc: Option<GroupId>, k: PairKey, cur: string, u: UserId)
    requires SoftDelete(db, id, token) == Success(n)
    ensures id in db.expenses && id in n.expenses && OnlyRow(db, n, id)
    ensures n.expenses[id] == db.expenses[id].(deleted := true, version := token + 1)
    ensures Net(n.expenses, sc, cur, u) == Net(db.expenses, sc, cur, u) - LiveNet(db.expenses[id], sc, cur, u)
    ensures Owed(n.expenses, sc, k) == Owed(db.expenses, sc, k) - LiveOwed(db.expenses[id], sc, k)
  {
    var e := db.expenses[id];
    TotalUpdate(db.expenses, id, Dead(e), NetFn(sc, cur, u));
    TotalUpdate(db.expenses, id, Dead(e), OwedFn(sc, k));
    ContributionIs(e, sc, k, cur, u);
    ContributionIs(Dead(e), sc, k, cur, u);
  }

  /** Many creations only add rows: the old ones stay, the new ones are as submitted. */
  lemma {:induction false} CreateAllRows(db: Db, es: seq<Expense>, n: Db)
    requires (forall x :: x in db.expenses ==> x < db.next) && CreateAll(db, es) == Success(n)
    ensures n.next == db.next + |es| && n.groups == db.groups && n.archived == db.archived && n.templates == db.templates
    ensures forall x :: x in n.expenses <==> x in db.expenses || db.next <= x < db.next + |es|
    ensures forall x :: x in db.expenses ==> n.expenses[x] == db.expenses[x]
    ensures forall i :: 0 <= i < |es| ==> n.expenses[db.next + i] == es[i].(version := 1, deleted := false)
    decreases |es|
  {
    if es != [] {
      var mid := Insert(db, es[0]);
      CreateAllRows(mid, es[1..], n);
      forall i | 0 <= i < |es| ensures n.expenses[db.next + i] == es[i].(version := 1, deleted := false) {
        if i > 0 { assert es[i] == es[1..][i - 1]; }
      }
    }
  }
}
