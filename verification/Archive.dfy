/** Collapsing history into one expense per currency. */
module Archive {
  import opened Text
  import opened Sums
  import opened Simplify
  import opened Pairs
  import opened Ledger
  import opened Writes

  // --------------------------------------------------------- totals by id list

  predicate DistinctIds(ids: seq<Id>) {
    ids == [] || (ids[0] !in ids[1..] && DistinctIds(ids[1..]))
  }

  function SumOver(m: Table, ids: seq<Id>, f: Expense -> int): int {
    if ids == [] then 0 else (if ids[0] in m then f(m[ids[0]]) else 0) + SumOver(m, ids[1..], f)
  }

  lemma {:induction false} RemoveMany(m: Table, ids: seq<Id>, f: Expense -> int)
    requires DistinctIds(ids)
    ensures MapTotal(m - IdSet(ids), f) == MapTotal(m, f) - SumOver(m, ids, f)
  {
    if ids == [] {
      assert m - IdSet(ids) == m;
    } else {
      RemoveMany(m, ids[1..], f);
      var rest := m - IdSet(ids[1..]);
      assert IdSet(ids) == IdSet(ids[1..]) + {ids[0]};
      assert m - IdSet(ids) == rest - {ids[0]};
      if ids[0] in m {
        TotalRemove(rest, ids[0], f);
      } else {
        assert rest - {ids[0]} == rest;
      }
    }
  }

  // ------------------------------------------------------------- the batch

  /** The rows read for each expense. */
  type Reads = map<Id, seq<Part>>

  function RowsAt(m: Table, x: Id): seq<Part> {
    if x in m then m[x].parts else []
  }

  /** All rows read for the given expenses, one after the other. */
  function OriginRows(rd: Reads, ids: seq<Id>): seq<Part> {
    if ids == [] then [] else (if ids[0] in rd then rd[ids[0]] else []) + OriginRows(rd, ids[1..])
  }

  /** Rows as any valid state holds them. */
  ghost predicate BalancedReads(rd: Reads) {
    forall i :: i in rd ==> Balanced(rd[i])
  }

  /** Expenses that may be collapsed together: live, one scope, one currency, no conversion legs. */
  ghost predicate Collapsible(m: Table, g: Option<GroupId>, cur: string, ids: seq<Id>) {
    && DistinctIds(ids)
    && forall i :: i in ids ==> i in m && InScope(m[i], g) && m[i].currency == cur && !IsConversion(m[i])
  }

  /** The origins are expenses listed in m; the synthetic expense holds, for everyone involved, the
      sum of the rows read for them; the payer is one of those owed the most. */
  ghost predicate BatchOf(m: Table, rd: Reads, g: Option<GroupId>, cur: string, b: Batch) {
    && Collapsible(m, g, cur, b.origins) && (forall i :: i in b.origins ==> i in rd)
    && b.expense.split == ARCHIVE && b.expense.currency == cur && b.expense.group == g && b.expense.conversionTo == None
    && NoRepeat(b.expense.parts)
    && Users(b.expense.parts) == Users(OriginRows(rd, b.origins))
    && (forall u :: PartOf(b.expense.parts, u) == PartOf(OriginRows(rd, b.origins), u))
    && (Users(b.expense.parts) != {} ==> b.expense.paidBy in Users(b.expense.parts))
    && (forall u :: u in Users(b.expense.parts) ==> PartOf(b.expense.parts, u) <= PartOf(b.expense.parts, b.expense.paidBy))
  }

  lemma {:induction false} RowsConcat(ps: seq<Part>, qs: seq<Part>, u: UserId)
    ensures PartSum(ps + qs) == PartSum(ps) + PartSum(qs)
    ensures PartOf(ps + qs, u) == PartOf(ps, u) + PartOf(qs, u)
    ensures Users(ps + qs) == Users(ps) + Users(qs)
  {
    if ps == [] {
      assert ps + qs == qs;
    } else {
      RowsConcat(ps[1..], qs, u);
      assert (ps + qs)[1..] == ps[1..] + qs;
    }
  }

  lemma {:induction false} OriginSum(rd: Reads, ids: seq<Id>)
    requires BalancedReads(rd)
    ensures PartSum(OriginRows(rd, ids)) == 0
  {
    if ids != [] {
      var x0 := ids[0];
      var mine := if x0 in rd then rd[x0] else [];
      OriginSum(rd, ids[1..]);
      RowsConcat(mine, OriginRows(rd, ids[1..]), 0);
      assert x0 in rd ==> Balanced(rd[x0]);
    }
  }

  function WithoutUser(ps: seq<Part>, u: UserId): seq<Part> {
    if ps == [] then []
    else if ps[0].user == u then WithoutUser(ps[1..], u)
    else [ps[0]] + WithoutUser(ps[1..], u)
  }

  lemma {:induction false} DropUser(ps: seq<Part>, u: UserId, v: UserId)
    ensures PartSum(ps) == PartOf(ps, u) + PartSum(WithoutUser(ps, u))
    ensures PartOf(WithoutUser(ps, u), v) == if v == u then 0 else PartOf(ps, v)
    ensures Users(WithoutUser(ps, u)) == Users(ps) - {u}
  {
    if ps != [] {
      DropUser(ps[1..], u, v);
      if ps[0].user != u { assert WithoutUser(ps, u)[1..] == WithoutUser(ps[1..], u); }
    }
  }

  lemma {:induction false} AbsentUser(ps: seq<Part>, u: UserId)
    requires u !in Users(ps)
    ensures PartOf(ps, u) == 0
  {
    if ps != [] { AbsentUser(ps[1..], u); }
  }

  /** One row per person with everyone's total adds up to the total of all rows. */
  lemma {:induction false} SumByUser(ps: seq<Part>, qs: seq<Part>)
    requires NoRepeat(ps) && Users(qs) <= Users(ps)
    requires forall u :: u in Users(ps) ==> PartOf(ps, u) == PartOf(qs, u)
    ensures PartSum(ps) == PartSum(qs)
  {
    if ps == [] {
      EmptyRows(qs);
    } else {
      var u := ps[0].user;
      var rest := WithoutUser(qs, u);
      AbsentUser(ps[1..], u);
      DropUser(qs, u, u);
      forall v | v in Users(ps[1..]) ensures PartOf(ps[1..], v) == PartOf(rest, v) {
        DropUser(qs, u, v);
        assert PartOf(ps, v) == PartOf(qs, v);
      }
      SumByUser(ps[1..], rest);
      assert PartOf(ps, u) == PartOf(qs, u);
    }
  }

  /** The synthetic expense keeps the ledger in order: distinct rows that sum to zero. */
  lemma BatchValid(m: Table, rd: Reads, g: Option<GroupId>, cur: string, b: Batch)
    requires BatchOf(m, rd, g, cur, b) && b.origins != [] && BalancedReads(rd)
    requires forall i :: i in m ==> ValidExpense(m[i])
    ensures Storable(b.expense) && NoRepeat(b.expense.parts)
  {
    var i := b.origins[0];
    assert i in b.origins;
    OriginSum(rd, b.origins);
    SumByUser(b.expense.parts, OriginRows(rd, b.origins));
  }

  /** Some origin still had rows when they were read. */
  ghost predicate SomeRows(rd: Reads, ids: seq<Id>) {
    exists i :: i in ids && i in rd && rd[i] != []
  }

  lemma SomeRowsStep(rd: Reads, ids: seq<Id>)
    requires ids != []
    ensures SomeRows(rd, ids) <==> (ids[0] in rd && rd[ids[0]] != []) || SomeRows(rd, ids[1..])
  {
    var x0 := ids[0];
    assert x0 in ids;
    if SomeRows(rd, ids[1..]) {
      var i :| i in ids[1..] && i in rd && rd[i] != [];
      assert i in ids;
    }
    if SomeRows(rd, ids) {
      var i :| i in ids && i in rd && rd[i] != [];
      assert i == x0 || i in ids[1..];
    }
  }

  lemma {:induction false} SomeoneInvolved(rd: Reads, ids: seq<Id>)
    ensures Users(OriginRows(rd, ids)) != {} <==> SomeRows(rd, ids)
  {
    if ids != [] {
      var x0 := ids[0];
      assert x0 in ids;
      var mine := if x0 in rd then rd[x0] else [];
      SomeoneInvolved(rd, ids[1..]);
      RowsConcat(mine, OriginRows(rd, ids[1..]), 0);
      var rest := OriginRows(rd, ids[1..]);
      assert OriginRows(rd, ids) == mine + rest;
      if mine != [] {
        assert mine[0].user in Users(mine + rest);
      } else {
        assert mine + rest == rest;
      }
      SomeRowsStep(rd, ids);
    }
  }

  /** Its payer has a row exactly when some origin still had rows when they were read. */
  lemma BatchListsPayerIff(m: Table, rd: Reads, g: Option<GroupId>, cur: string, b: Batch)
    requires BatchOf(m, rd, g, cur, b)
    ensures Listed(b.expense) <==> SomeRows(rd, b.origins)
    ensures !SomeRows(rd, b.origins) ==> b.expense.parts == []
  {
    SomeoneInvolved(rd, b.origins);
    if Users(b.expense.parts) == {} { EmptyRows(b.expense.parts); }
  }

  // -------------------------------------------------- what a collapse moves

  /** The next id is not taken. */
  ghost predicate Fresh(db: Db) {
    forall id :: id in db.expenses ==> id < db.next
  }

  /** Whatever a batch holds, collapsing it moves a balance by what the synthetic expense
      brings minus what the origins contribute at that moment. */
  lemma CollapseDrift(db: Db, b: Batch, f: Expense -> int)
    requires Fresh(db) && DistinctIds(b.origins) && CollapseOne(db, b).Success?
    requires forall i :: i in b.origins ==> i < db.next
    ensures MapTotal(CollapseOne(db, b).value.expenses, f)
         == MapTotal(db.expenses, f) + f(Stored(b.expense)) - SumOver(db.expenses, b.origins, f)
  {
    var mid := Insert(db, b.expense).expenses;
    TotalUpdate(db.expenses, db.next, Stored(b.expense), f);
    RemoveMany(mid, b.origins, f);
    SumOverInsert(db.expenses, db.next, Stored(b.expense), b.origins, f);
  }

  lemma {:induction false} SumOverInsert(m: Table, id: Id, e: Expense, ids: seq<Id>, f: Expense -> int)
    requires id !in ids
    ensures SumOver(m[id := e], ids, f) == SumOver(m, ids, f)
  {
    if ids != [] { SumOverInsert(m, id, e, ids[1..], f); }
  }

  /** None of the origins is a recurrence's template. */
  predicate Free(templates: set<Id>, bs: seq<Batch>) {
    bs == [] || (IdSet(bs[0].origins) * templates == {} && Free(templates, bs[1..]))
  }

  // ---------------------------------------------------- two-party history

  predicate TwoPeople(e: Expense, x: UserId, y: UserId) {
    ValidRows(e.paidBy, e.parts) && Users(e.parts) == {x, y}
  }

  /** In a valid expense between x and y, the pair balance is x's own row. */
  lemma TwoParty(e: Expense, x: UserId, y: UserId, k: PairKey)
    requires TwoPeople(e, x, y) && x < y
    ensures OwedIn(ExpensePairs(e), k) == if k == PairKey(e.currency, x, y) then PartOf(e.parts, x) else 0
  {
    TwoPartyRows(e.parts, e.paidBy, e.currency, x, y, k);
    if e.paidBy == x {
      DropUser(e.parts, x, y);
      DropUser(WithoutUser(e.parts, x), y, y);
      assert Users(WithoutUser(WithoutUser(e.parts, x), y)) == {};
      EmptyRows(WithoutUser(WithoutUser(e.parts, x), y));
    }
  }

  lemma EmptyRows(ps: seq<Part>)
    requires Users(ps) == {}
    ensures ps == []
  {
  }

  lemma {:induction false} TwoPartyRows(ps: seq<Part>, payer: UserId, cur: string, x: UserId, y: UserId, k: PairKey)
    requires Users(ps) <= {x, y} && x < y && (payer == x || payer == y)
    ensures OwedIn(PairsOfParts(ps, payer, cur), k)
         == if k != PairKey(cur, x, y) then 0 else if payer == x then -PartOf(ps, y) else PartOf(ps, x)
  {
    if ps != [] {
      assert ps[0].user in Users(ps);
      TwoPartyRows(ps[1..], payer, cur, x, y, k);
      if ps[0].user != payer {
        assert PairsOfParts(ps, payer, cur)[1..] == PairsOfParts(ps[1..], payer, cur);
      }
    }
  }

  lemma {:induction false} TwoPartySum(m: Table, ids: seq<Id>, cur: string, x: UserId, y: UserId, sc: Option<GroupId>, k: PairKey)
    requires x < y
    requires forall i :: i in ids ==> i in m && m[i].currency == cur && TwoPeople(m[i], x, y)
    ensures SumOver(m, ids, OwedFn(sc, k)) == if k == PairKey(cur, x, y) then SumOver(m, ids, NetFn(sc, cur, x)) else 0
  {
    if ids != [] {
      var x0 := ids[0];
      assert x0 in ids;
      forall i | i in ids[1..] ensures i in ids {}
      TwoPartySum(m, ids[1..], cur, x, y, sc, k);
      TwoParty(m[ids[0]], x, y, k);
    }
  }

  /** The rows read for these expenses are those m holds. */
  ghost predicate Own(m: Table, rd: Reads, ids: seq<Id>) {
    forall i :: i in ids ==> i in m && i in rd && rd[i] == m[i].parts
  }

  /** Collapsing the history of two people, on rows that are what was read, keeps every pair
      balance as well. */
  lemma DirectCollapseKeepsPairs(db: Db, rd: Reads, g: Option<GroupId>, cur: string, b: Batch, x: UserId, y: UserId,
                                 sc: Option<GroupId>, k: PairKey)
    requires ValidDb(db) && BatchOf(db.expenses, rd, g, cur, b) && b.origins != [] && BalancedReads(rd)
    requires CollapseOne(db, b).Success? && Own(db.expenses, rd, b.origins)
    requires x < y && forall i :: i in b.origins ==> TwoPeople(db.expenses[i], x, y)
    ensures Owed(CollapseOne(db, b).value.expenses, sc, k) == Owed(db.expenses, sc, k)
  {
    CollapseDrift(db, b, OwedFn(sc, k));
    TwoPartyBatch(db.expenses, rd, g, cur, b, x, y, sc, k);
  }

  /** Such a batch brings each pair what its origins contribute to it. */
  lemma TwoPartyBatch(m: Table, rd: Reads, g: Option<GroupId>, cur: string, b: Batch, x: UserId, y: UserId,
                      sc: Option<GroupId>, k: PairKey)
    requires BatchOf(m, rd, g, cur, b) && b.origins != [] && BalancedReads(rd) && Own(m, rd, b.origins)
    requires forall i :: i in m ==> ValidExpense(m[i])
    requires x < y && forall i :: i in b.origins ==> TwoPeople(m[i], x, y)
    ensures OwedFn(sc, k)(Stored(b.expense)) == SumOver(m, b.origins, OwedFn(sc, k))
  {
    TwoPartySum(m, b.origins, cur, x, y, sc, k);
    OriginNet(m, rd, g, cur, b.origins, sc, cur, x);
    BatchValid(m, rd, g, cur, b);
    TwoPartyUsers(m, rd, b.origins, x, y);
    TwoParty(Stored(b.expense), x, y, k);
  }

  lemma {:induction false} OriginNet(m: Table, rd: Reads, g: Option<GroupId>, cur: string, ids: seq<Id>,
                                     sc: Option<GroupId>, c: string, u: UserId)
    requires Collapsible(m, g, cur, ids) && Own(m, rd, ids)
    ensures SumOver(m, ids, NetFn(sc, c, u)) == if sc == g && c == cur then PartOf(OriginRows(rd, ids), u) else 0
  {
    if ids != [] {
      var x0 := ids[0];
      assert x0 in ids;
      forall i | i in ids[1..] ensures i in ids {}
      OriginNet(m, rd, g, cur, ids[1..], sc, c, u);
      RowsConcat(rd[ids[0]], OriginRows(rd, ids[1..]), u);
    }
  }

  lemma {:induction false} TwoPartyUsers(m: Table, rd: Reads, ids: seq<Id>, x: UserId, y: UserId)
    requires Own(m, rd, ids) && forall i :: i in ids ==> Users(m[i].parts) == {x, y}
    ensures Users(OriginRows(rd, ids)) == if ids == [] then {} else {x, y}
  {
    if ids != [] {
      var x0 := ids[0];
      assert x0 in ids;
      forall i | i in ids[1..] ensures i in ids {}
      TwoPartyUsers(m, rd, ids[1..], x, y);
      RowsConcat(rd[ids[0]], OriginRows(rd, ids[1..]), 0);
    }
  }

  // ----------------------------------------------------------- no row lost

  /** Every origin moves unchanged to the archive, tagged with its replacement; no other row
      and no other archived row is touched. */
  lemma CollapseArchives(db: Db, b: Batch, i: Id)
    requires ValidDb(db) && CollapseOne(db, b).Success?
    requires forall j :: j in b.origins ==> j in db.expenses
    ensures var n := CollapseOne(db, b).value;
      && (i in b.origins ==> i !in n.expenses && i in n.archived
                             && n.archived[i] == Archived(db.expenses[i], db.next) && db.next in n.expenses)
      && (i !in b.origins && i in db.expenses ==> i in n.expenses && n.expenses[i] == db.expenses[i])
      && (i in db.archived ==> i in n.archived && n.archived[i] == db.archived[i])
  {
    assert db.next !in db.expenses;
  }

  // ------------------------------------------------------- all currencies

  /** The batches of one collapse: one per currency. */
  ghost predicate BatchesOf(m: Table, rd: Reads, g: Option<GroupId>, bs: seq<Batch>) {
    bs == [] || (
      && BatchOf(m, rd, g, bs[0].expense.currency, bs[0]) && bs[0].origins != []
      && bs[0].expense.currency !in Currencies(bs[1..])
      && BatchesOf(m, rd, g, bs[1..]))
  }

  function Currencies(bs: seq<Batch>): set<string> {
    if bs == [] then {} else {bs[0].expense.currency} + Currencies(bs[1..])
  }

  lemma {:induction false} BatchesAt(m: Table, rd: Reads, g: Option<GroupId>, bs: seq<Batch>, j: nat)
    requires BatchesOf(m, rd, g, bs) && j < |bs|
    ensures BatchOf(m, rd, g, bs[j].expense.currency, bs[j]) && bs[j].origins != []
  {
    if j > 0 { BatchesAt(m, rd, g, bs[1..], j - 1); }
  }

  /** Batches of different currencies share no origin. */
  lemma NoSharedOrigin(m: Table, rd: Reads, g: Option<GroupId>, b: Batch, bs: seq<Batch>, k: nat, i: Id)
    requires BatchOf(m, rd, g, b.expense.currency, b) && BatchesOf(m, rd, g, bs) && b.expense.currency !in Currencies(bs)
    requires k < |bs| && i in bs[k].origins
    ensures i !in b.origins
  {
    BatchesAt(m, rd, g, bs, k);
    CurrencyAt(bs, k);
    OneCurrency(m, g, b, bs[k], i);
  }

  lemma {:induction false} CurrencyAt(bs: seq<Batch>, k: nat)
    requires k < |bs|
    ensures bs[k].expense.currency in Currencies(bs)
  {
    if k > 0 { CurrencyAt(bs[1..], k - 1); }
  }

  lemma OneCurrency(m: Table, g: Option<GroupId>, b: Batch, c: Batch, i: Id)
    requires Collapsible(m, g, b.expense.currency, b.origins) && Collapsible(m, g, c.expense.currency, c.origins)
    requires b.expense.currency != c.expense.currency && i in c.origins
    ensures i !in b.origins
  {
  }

  /** A batch stays good while its origins stay live in scope with their currency. */
  lemma BatchFrame(m: Table, n: Table, rd: Reads, g: Option<GroupId>, cur: string, b: Batch)
    requires BatchOf(m, rd, g, cur, b)
    requires forall i :: i in b.origins ==> i in n && n[i] == m[i]
    ensures BatchOf(n, rd, g, cur, b)
  {
  }

  /** Collapsing one batch leaves a batch of another currency as it is. */
  lemma BatchLater(db: Db, rd: Reads, g: Option<GroupId>, b: Batch, c: Batch)
    requires ValidDb(db) && CollapseOne(db, b).Success?
    requires Collapsible(db.expenses, g, b.expense.currency, b.origins)
    requires BatchOf(db.expenses, rd, g, c.expense.currency, c) && b.expense.currency != c.expense.currency
    ensures BatchOf(CollapseOne(db, b).value.expenses, rd, g, c.expense.currency, c)
  {
    var n := CollapseOne(db, b).value.expenses;
    forall i | i in c.origins ensures i in n && n[i] == db.expenses[i] {
      CollapseArchives(db, b, i);
    }
    BatchFrame(db.expenses, n, rd, g, c.expense.currency, c);
  }

  lemma {:induction false} BatchesLater(db: Db, rd: Reads, g: Option<GroupId>, b: Batch, bs: seq<Batch>)
    requires ValidDb(db) && CollapseOne(db, b).Success?
    requires Collapsible(db.expenses, g, b.expense.currency, b.origins)
    requires BatchesOf(db.expenses, rd, g, bs) && b.expense.currency !in Currencies(bs)
    ensures BatchesOf(CollapseOne(db, b).value.expenses, rd, g, bs)
  {
    if bs != [] {
      BatchLater(db, rd, g, b, bs[0]);
      BatchesLater(db, rd, g, b, bs[1..]);
    }
  }

  /** A collapse that commits on the very rows it listed. */
  ghost predicate Ready(db: Db, rd: Reads, g: Option<GroupId>, bs: seq<Batch>) {
    ValidDb(db) && BatchesOf(db.expenses, rd, g, bs) && BalancedReads(rd) && Free(db.templates, bs)
  }

  /** One batch in: the collapse goes on from there with the other batches. */
  lemma CollapseFirst(db: Db, rd: Reads, g: Option<GroupId>, bs: seq<Batch>) returns (mid: Db)
    requires Ready(db, rd, g, bs) && bs != []
    ensures CollapseOne(db, bs[0]) == Success(mid) && mid.next == db.next + 1 && Forward(db, mid)
    ensures Ready(mid, rd, g, bs[1..])
    ensures Collapse(db, bs) == Collapse(mid, bs[1..])
  {
    BatchValid(db.expenses, rd, g, bs[0].expense.currency, bs[0]);
    mid := CollapseOne(db, bs[0]).value;
    CollapseOneKeeps(db, bs[0]);
    BatchesLater(db, rd, g, bs[0], bs[1..]);
  }
}
