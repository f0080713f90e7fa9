/** A collapse as it is carried out: expenses listed in one state, the rows of each read in some
    later one, and the transaction committed in a later one still. What it does to the nets. */
module Stale {
  import opened Text
  import opened Sums
  import opened Simplify
  import opened Ledger
  import opened Writes
  import opened Archive

  /** What the synthetic expenses of the batches bring. */
  function Brought(bs: seq<Batch>, f: Expense -> int): int {
    if bs == [] then 0 else f(Stored(bs[0].expense)) + Brought(bs[1..], f)
  }

  /** What the origins of the batches contribute in m. */
  function Taken(m: Table, bs: seq<Batch>, f: Expense -> int): int {
    if bs == [] then 0 else SumOver(m, bs[0].origins, f) + Taken(m, bs[1..], f)
  }

  /** What the rows read for the origins give u in currency c of scope sc. */
  function Share(rd: Reads, g: Option<GroupId>, bs: seq<Batch>, sc: Option<GroupId>, c: string, u: UserId): int {
    if bs == [] then 0
    else
      (if sc == g && c == bs[0].expense.currency then PartOf(OriginRows(rd, bs[0].origins), u) else 0)
      + Share(rd, g, bs[1..], sc, c, u)
  }

  predicate OlderThan(bs: seq<Batch>, next: Id) {
    bs == [] || ((forall i :: i in bs[0].origins ==> i < next) && OlderThan(bs[1..], next))
  }

  lemma {:induction false} SumOverAlike(m: Table, n: Table, ids: seq<Id>, f: Expense -> int)
    requires forall i :: i in ids ==> (i in m <==> i in n) && (i in m ==> m[i] == n[i])
    ensures SumOver(m, ids, f) == SumOver(n, ids, f)
  {
    if ids != [] {
      var x0 := ids[0];
      assert x0 in ids;
      forall i | i in ids[1..] ensures i in ids {}
      SumOverAlike(m, n, ids[1..], f);
    }
  }

  /** Collapsing a batch does not change what the other batches would take. */
  lemma {:induction false} TakenLater(before: Table, rd: Reads, g: Option<GroupId>, db: Db, b: Batch, bs: seq<Batch>, f: Expense -> int)
    requires Fresh(db) && CollapseOne(db, b).Success? && OlderThan(bs, db.next)
    requires BatchOf(before, rd, g, b.expense.currency, b) && BatchesOf(before, rd, g, bs)
    requires b.expense.currency !in Currencies(bs)
    ensures Taken(CollapseOne(db, b).value.expenses, bs, f) == Taken(db.expenses, bs, f)
  {
    if bs != [] {
      var n := CollapseOne(db, b).value.expenses;
      forall i | i in bs[0].origins ensures (i in n <==> i in db.expenses) && (i in n ==> n[i] == db.expenses[i]) {
        NoSharedOrigin(before, rd, g, b, bs, 0, i);
      }
      SumOverAlike(n, db.expenses, bs[0].origins, f);
      TakenLater(before, rd, g, db, b, bs[1..], f);
    }
  }

  lemma {:induction false} StillOlder(bs: seq<Batch>, n: Id, m: Id)
    requires OlderThan(bs, n) && n <= m
    ensures OlderThan(bs, m)
  {
    if bs != [] { StillOlder(bs[1..], n, m); }
  }

  lemma OneCollapsed(db: Db, b: Batch)
    requires Fresh(db) && NoRepeat(b.expense.parts)
    ensures if IdSet(b.origins) * db.templates == {}
      then
        var r := CollapseOne(db, b);
        r.Success? && Fresh(r.value) && r.value.next == db.next + 1 && r.value.templates == db.templates
      else CollapseOne(db, b) == Failure(Referenced)
  {
  }

  /** A collapse is refused exactly when an origin has become a recurrence's template. */
  lemma {:induction false} RefusedIff(before: Table, rd: Reads, g: Option<GroupId>, db: Db, bs: seq<Batch>)
    requires Fresh(db) && BatchesOf(before, rd, g, bs)
    ensures Collapse(db, bs).Success? <==> Free(db.templates, bs)
    ensures Collapse(db, bs).Failure? ==> Collapse(db, bs) == Failure(Referenced)
    decreases |bs|
  {
    if bs != [] {
      OneCollapsed(db, bs[0]);
      if CollapseOne(db, bs[0]).Success? { RefusedIff(before, rd, g, CollapseOne(db, bs[0]).value, bs[1..]); }
    }
  }

  /** A whole collapse moves a balance by what its batches bring minus what their origins
      contribute at that moment. */
  lemma {:induction false} DriftAll(before: Table, rd: Reads, g: Option<GroupId>, db: Db, bs: seq<Batch>, f: Expense -> int)
    requires Fresh(db) && BatchesOf(before, rd, g, bs) && OlderThan(bs, db.next) && Free(db.templates, bs)
    ensures Collapse(db, bs).Success?
    ensures MapTotal(Collapse(db, bs).value.expenses, f)
         == MapTotal(db.expenses, f) + Brought(bs, f) - Taken(db.expenses, bs, f)
    decreases |bs|
  {
    if bs != [] {
      var b := bs[0];
      OneCollapsed(db, b);
      CollapseDrift(db, b, f);
      TakenLater(before, rd, g, db, b, bs[1..], f);
      StillOlder(bs[1..], db.next, db.next + 1);
      DriftAll(before, rd, g, CollapseOne(db, b).value, bs[1..], f);
    }
  }

  /** The synthetic expenses bring every net what the rows read for their origins give it. */
  lemma {:induction false} BroughtIsShare(before: Table, rd: Reads, g: Option<GroupId>, bs: seq<Batch>,
                                          sc: Option<GroupId>, c: string, u: UserId)
    requires BatchesOf(before, rd, g, bs)
    ensures Brought(bs, NetFn(sc, c, u)) == Share(rd, g, bs, sc, c, u)
  {
    if bs != [] { BroughtIsShare(before, rd, g, bs[1..], sc, c, u); }
  }

  lemma {:induction false} OriginsAreOld(before: Db, rd: Reads, g: Option<GroupId>, bs: seq<Batch>)
    requires ValidDb(before) && BatchesOf(before.expenses, rd, g, bs)
    ensures OlderThan(bs, before.next)
  {
    if bs != [] { OriginsAreOld(before, rd, g, bs[1..]); }
  }

  /** A collapse listed in before, its rows read whenever they were, and committed on db moves each
      net, in every scope and currency, by what the rows read give it minus what the origins
      contribute now. */
  lemma CollapseMovesNet(before: Db, rd: Reads, db: Db, g: Option<GroupId>, bs: seq<Batch>, sc: Option<GroupId>, c: string, u: UserId)
    requires ValidDb(before) && ValidDb(db) && before.next <= db.next && BatchesOf(before.expenses, rd, g, bs)
    ensures Collapse(db, bs).Success? <==> Free(db.templates, bs)
    ensures Free(db.templates, bs) ==>
      Net(Collapse(db, bs).value.expenses, sc, c, u)
        == Net(db.expenses, sc, c, u) + Share(rd, g, bs, sc, c, u) - Taken(db.expenses, bs, NetFn(sc, c, u))
  {
    RefusedIff(before.expenses, rd, g, db, bs);
    if Free(db.templates, bs) {
      OriginsAreOld(before, rd, g, bs);
      StillOlder(bs, before.next, db.next);
      DriftAll(before.expenses, rd, g, db, bs, NetFn(sc, c, u));
      BroughtIsShare(before.expenses, rd, g, bs, sc, c, u);
    }
  }

  /** So it keeps a net exactly when the origins contribute to that net what the rows read for
      them give it. */
  lemma CollapseKeepsNetIff(before: Db, rd: Reads, db: Db, g: Option<GroupId>, bs: seq<Batch>, sc: Option<GroupId>, c: string, u: UserId)
    requires ValidDb(before) && ValidDb(db) && before.next <= db.next && BatchesOf(before.expenses, rd, g, bs)
    requires Free(db.templates, bs)
    ensures Collapse(db, bs).Success?
    ensures Net(Collapse(db, bs).value.expenses, sc, c, u) == Net(db.expenses, sc, c, u)
       <==> Taken(db.expenses, bs, NetFn(sc, c, u)) == Share(rd, g, bs, sc, c, u)
  {
    CollapseMovesNet(before, rd, db, g, bs, sc, c, u);
  }

  // --------------------------------------------------- rows that did not change

  ghost predicate AllOwn(m: Table, rd: Reads, bs: seq<Batch>) {
    bs == [] || (Own(m, rd, bs[0].origins) && AllOwn(m, rd, bs[1..]))
  }

  lemma {:induction false} TakenIsShare(m: Table, rd: Reads, g: Option<GroupId>, bs: seq<Batch>, sc: Option<GroupId>, c: string, u: UserId)
    requires BatchesOf(m, rd, g, bs) && AllOwn(m, rd, bs)
    ensures Taken(m, bs, NetFn(sc, c, u)) == Share(rd, g, bs, sc, c, u)
  {
    if bs != [] {
      OriginNet(m, rd, g, bs[0].expense.currency, bs[0].origins, sc, c, u);
      TakenIsShare(m, rd, g, bs[1..], sc, c, u);
    }
  }

  /** A collapse of rows that are still what was read keeps every net, in every scope. */
  lemma CollapseAllKeepsNets(db: Db, rd: Reads, g: Option<GroupId>, bs: seq<Batch>, sc: Option<GroupId>, c: string, u: UserId)
    requires Ready(db, rd, g, bs) && AllOwn(db.expenses, rd, bs)
    ensures Collapse(db, bs).Success?
    ensures Net(Collapse(db, bs).value.expenses, sc, c, u) == Net(db.expenses, sc, c, u)
  {
    CollapseMovesNet(db, rd, db, g, bs, sc, c, u);
    TakenIsShare(db.expenses, rd, g, bs, sc, c, u);
  }

  /** These rows still carry the versions that were listed. */
  ghost predicate Unedited(before: Table, now: Table, ids: seq<Id>) {
    forall i :: i in ids ==> i in before && i in now && now[i].version == before[i].version
  }

  ghost predicate AllUnedited(before: Table, now: Table, bs: seq<Batch>) {
    bs == [] || (Unedited(before, now, bs[0].origins) && AllUnedited(before, now, bs[1..]))
  }

  lemma {:induction false} UneditedTaken(before: Db, db: Db, bs: seq<Batch>, f: Expense -> int)
    requires ValidDb(before) && Evolves(before, db) && AllUnedited(before.expenses, db.expenses, bs)
    ensures Taken(db.expenses, bs, f) == Taken(before.expenses, bs, f)
  {
    if bs != [] {
      forall i | i in bs[0].origins ensures i in db.expenses && i in before.expenses && db.expenses[i] == before.expenses[i] {
        assert Later(before.expenses[i], db.expenses[i]);
      }
      SumOverAlike(db.expenses, before.expenses, bs[0].origins, f);
      UneditedTaken(before, db, bs[1..], f);
    }
  }

  /** A row that carries one version in two states is the same in every state between them. */
  lemma BetweenUnedited(before: Db, mid: Db, db: Db, i: Id)
    requires ValidDb(before) && Evolves(before, mid) && Evolves(mid, db)
    requires i in before.expenses && i in db.expenses && db.expenses[i].version == before.expenses[i].version
    ensures i in mid.expenses && mid.expenses[i] == before.expenses[i]
  {
    assert Later(mid.expenses[i], db.expenses[i]);
    assert Later(before.expenses[i], mid.expenses[i]);
  }

  /** A collapse keeps every net if no origin was edited or deleted between the listing and the
      commit, which its version tells. */
  lemma CollapseOfUnedited(before: Db, rd: Reads, db: Db, g: Option<GroupId>, bs: seq<Batch>, sc: Option<GroupId>, c: string, u: UserId)
    requires ValidDb(before) && ValidDb(db) && Evolves(before, db) && Free(db.templates, bs)
    requires BatchesOf(before.expenses, rd, g, bs) && AllOwn(before.expenses, rd, bs)
    requires AllUnedited(before.expenses, db.expenses, bs)
    ensures Collapse(db, bs).Success?
    ensures Net(Collapse(db, bs).value.expenses, sc, c, u) == Net(db.expenses, sc, c, u)
  {
    CollapseMovesNet(before, rd, db, g, bs, sc, c, u);
    UneditedTaken(before, db, bs, NetFn(sc, c, u));
    TakenIsShare(before.expenses, rd, g, bs, sc, c, u);
  }

  // ------------------------------------------- an origin deleted since the read

  lemma {:induction false} OneRowLess(m: Table, ids: seq<Id>, x: Id, e: Expense, f: Expense -> int)
    requires DistinctIds(ids) && x in m
    ensures SumOver(m[x := e], ids, f) == SumOver(m, ids, f) + (if x in ids then f(e) - f(m[x]) else 0)
  {
    if ids != [] {
      OneRowLess(m, ids[1..], x, e, f);
      var x0 := ids[0];
      assert x0 in ids;
    }
  }

  /** Rewriting one origin changes what is taken by what it changes. */
  lemma {:induction false} OneOriginLess(m: Table, rd: Reads, g: Option<GroupId>, bs: seq<Batch>, j: nat, x: Id, e: Expense, f: Expense -> int)
    requires BatchesOf(m, rd, g, bs) && j < |bs| && x in bs[j].origins && x in m
    ensures Taken(m[x := e], bs, f) == Taken(m, bs, f) + f(e) - f(m[x])
  {
    OneRowLess(m, bs[0].origins, x, e, f);
    if j > 0 {
      assert bs[1..][j - 1] == bs[j];
      NoSharedOrigin(m, rd, g, bs[0], bs[1..], j - 1, x);
      OneOriginLess(m, rd, g, bs[1..], j - 1, x, e, f);
    } else {
      OtherBatches(m, rd, g, bs, x, e, f);
    }
  }

  lemma OtherBatches(m: Table, rd: Reads, g: Option<GroupId>, bs: seq<Batch>, x: Id, e: Expense, f: Expense -> int)
    requires BatchesOf(m, rd, g, bs) && bs != [] && x in bs[0].origins && x in m
    ensures Taken(m[x := e], bs[1..], f) == Taken(m, bs[1..], f)
  {
    forall k | 0 <= k < |bs[1..]| ensures x !in bs[1..][k].origins {
      if x in bs[1..][k].origins { NoSharedOrigin(m, rd, g, bs[0], bs[1..], k, x); }
    }
    NotAnOrigin(m, bs[1..], x, e, f);
  }

  lemma {:induction false} NotAnOrigin(m: Table, bs: seq<Batch>, x: Id, e: Expense, f: Expense -> int)
    requires forall k :: 0 <= k < |bs| ==> x !in bs[k].origins
    ensures Taken(m[x := e], bs, f) == Taken(m, bs, f)
  {
    if bs != [] {
      SumOverInsert(m, x, e, bs[0].origins, f);
      forall k | 0 <= k < |bs[1..]| ensures x !in bs[1..][k].origins {
        assert bs[1..][k] == bs[k + 1];
      }
      NotAnOrigin(m, bs[1..], x, e, f);
    }
  }

  /** Deleting any origin between the reads and the commit brings its rows back: each person's
      net in the scope and currency moves by their row. */
  lemma DeletedOriginReturns(before: Db, rd: Reads, db: Db, g: Option<GroupId>, bs: seq<Batch>, j: nat, x: Id, token: nat, u: UserId)
    requires Ready(before, rd, g, bs) && AllOwn(before.expenses, rd, bs) && j < |bs| && x in bs[j].origins
    requires SoftDelete(before, x, token) == Success(db)
    ensures ValidDb(db) && Collapse(db, bs).Success?
    ensures Net(Collapse(db, bs).value.expenses, g, bs[j].expense.currency, u)
         == Net(db.expenses, g, bs[j].expense.currency, u) + PartOf(before.expenses[x].parts, u)
  {
    var c := bs[j].expense.currency;
    BatchesAt(before.expenses, rd, g, bs, j);
    SoftDeleteKeeps(before, x, token);
    CollapseMovesNet(before, rd, db, g, bs, g, c, u);
    TakenIsShare(before.expenses, rd, g, bs, g, c, u);
    OneOriginLess(before.expenses, rd, g, bs, j, x, Dead(before.expenses[x]), NetFn(g, c, u));
  }

  // ---------------------------------------------------- one collapse, twice

  lemma {:induction false} GoneTaken(m: Table, bs: seq<Batch>, f: Expense -> int)
    requires forall k, i :: 0 <= k < |bs| && i in bs[k].origins ==> i !in m
    ensures Taken(m, bs, f) == 0
  {
    if bs != [] {
      GoneSum(m, bs[0].origins, f);
      forall k, i | 0 <= k < |bs[1..]| && i in bs[1..][k].origins ensures i !in m {
        assert bs[1..][k] == bs[k + 1];
      }
      GoneTaken(m, bs[1..], f);
    }
  }

  lemma {:induction false} GoneSum(m: Table, ids: seq<Id>, f: Expense -> int)
    requires forall i :: i in ids ==> i !in m
    ensures SumOver(m, ids, f) == 0
  {
    if ids != [] {
      var x0 := ids[0];
      assert x0 in ids;
      forall i | i in ids[1..] ensures i in ids {}
      GoneSum(m, ids[1..], f);
    }
  }

  /** After a collapse none of its origins is left, and a row that was gone stays gone. */
  lemma {:induction false} OriginsGo(db: Db, rd: Reads, g: Option<GroupId>, bs: seq<Batch>)
    requires Ready(db, rd, g, bs)
    ensures Collapse(db, bs).Success? && Forward(db, Collapse(db, bs).value)
    ensures Collapse(db, bs).value.templates == db.templates
    ensures forall k, i :: 0 <= k < |bs| && i in bs[k].origins ==> i !in Collapse(db, bs).value.expenses
    decreases |bs|
  {
    if bs == [] {
      assert Evolves(db, db);
    } else {
      var mid := CollapseFirst(db, rd, g, bs);
      OriginsGo(mid, rd, g, bs[1..]);
      var n := Collapse(mid, bs[1..]).value;
      EvolvesTransitive(db, mid, n);
      forall k, i | 0 <= k < |bs| && i in bs[k].origins ensures i !in n.expenses {
        if k > 0 { assert bs[1..][k - 1] == bs[k]; }
      }
    }
  }

  /** Two requests that list and read the same history and commit one after the other: the second
      brings everyone's share of it once more. */
  lemma CollapsedTwice(db: Db, rd: Reads, g: Option<GroupId>, bs: seq<Batch>, sc: Option<GroupId>, c: string, u: UserId)
    requires Ready(db, rd, g, bs) && AllOwn(db.expenses, rd, bs)
    ensures Collapse(db, bs).Success? && Collapse(Collapse(db, bs).value, bs).Success?
    ensures Net(Collapse(Collapse(db, bs).value, bs).value.expenses, sc, c, u)
         == Net(db.expenses, sc, c, u) + Share(rd, g, bs, sc, c, u)
  {
    OriginsGo(db, rd, g, bs);
    var once := Collapse(db, bs).value;
    CollapseAllKeepsNets(db, rd, g, bs, sc, c, u);
    CollapseMovesNet(db, rd, once, g, bs, sc, c, u);
    GoneTaken(once.expenses, bs, NetFn(sc, c, u));
  }

  // ------------------------------------------------------- concrete cases

  /** A concrete case: one expense of 10 is read, deleted, and then collapsed all the same. */
  lemma StaleCollapse() returns (before: Db, rd: Reads, db: Db, bs: seq<Batch>)
    ensures ValidDb(before) && ValidDb(db) && SoftDelete(before, 0, 1) == Success(db)
    ensures BatchesOf(before.expenses, rd, Some(1), bs) && AllOwn(before.expenses, rd, bs) && Collapse(db, bs).Success?
    ensures Net(db.expenses, Some(1), "USD", 1) == 0
    ensures Net(Collapse(db, bs).value.expenses, Some(1), "USD", 1) == 10
  {
    var e := Expense(10, EQUAL, "", "USD", 1, Some(1), None, false, 1, [Part(1, 10), Part(2, -10)]);
    LoneCase(e);
    before := Db(map[0 := e], map[], map[], {}, 1);
    db := Db(map[0 := Dead(e)], map[], map[], {}, 1);
    rd := map[0 := e.parts];
    var b := Batch(e.(split := ARCHIVE), [0]);
    bs := [b];
    LoneExpense(before, db, e);
    LoneBatch(before.expenses, e, b);
    LoneBatches(before.expenses, rd, Some(1), b);
    LoneReturns(before, rd, db, bs);
  }

  lemma LoneCase(e: Expense)
    requires e == Expense(10, EQUAL, "", "USD", 1, Some(1), None, false, 1, [Part(1, 10), Part(2, -10)])
    ensures ValidExpense(e) && ValidRows(1, e.parts) && PartOf(e.parts, 1) == 10
    ensures forall u :: PartOf(e.parts, u) <= PartOf(e.parts, e.paidBy)
  {
    TwoRowFacts(1, 2, 10);
    assert Upper("USD") == "USD";
  }

  lemma LoneReturns(before: Db, rd: Reads, db: Db, bs: seq<Batch>)
    requires Ready(before, rd, Some(1), bs) && AllOwn(before.expenses, rd, bs) && |bs| == 1 && 0 in bs[0].origins
    requires bs[0].expense.currency == "USD" && before.expenses.Keys == {0} && PartOf(before.expenses[0].parts, 1) == 10
    requires SoftDelete(before, 0, 1) == Success(db)
    ensures ValidDb(db) && Collapse(db, bs).Success?
    ensures Net(db.expenses, Some(1), "USD", 1) == 0
    ensures Net(Collapse(db, bs).value.expenses, Some(1), "USD", 1) == 10
  {
    DeletedOriginReturns(before, rd, db, Some(1), bs, 0, 0, 1, 1);
    AllDead(db.expenses, Some(1), "USD", 1);
  }

  lemma AllDead(m: Table, sc: Option<GroupId>, c: string, u: UserId)
    requires forall i :: i in m ==> m[i].deleted
    ensures Net(m, sc, c, u) == 0
  {
    forall i | i in m ensures NetFn(sc, c, u)(m[i]) == 0 {}
    ZeroTotal(m, NetFn(sc, c, u));
  }

  function Loan(x: UserId, y: UserId, n: int, version: nat): Expense {
    Expense(n, EQUAL, "", "USD", x, Some(1), None, false, version, [Part(x, n), Part(y, -n)])
  }

  /** Comparing what was listed with what is committed is not enough: two loans of 10 that cancel
      are both edited to 30 between the reads of their rows. In either state they contribute nothing
      to anyone, and yet the collapse moves a net by 20. */
  lemma MixedReads() returns (before: Db, rd: Reads, db: Db, bs: seq<Batch>)
    ensures ValidDb(before) && Forward(before, db) && BatchesOf(before.expenses, rd, Some(1), bs)
    ensures rd == map[0 := RowsAt(before.expenses, 0), 1 := RowsAt(db.expenses, 1)]
    ensures forall u :: Taken(before.expenses, bs, NetFn(Some(1), "USD", u)) == Taken(db.expenses, bs, NetFn(Some(1), "USD", u)) == 0
    ensures Collapse(db, bs).Success?
    ensures Net(Collapse(db, bs).value.expenses, Some(1), "USD", 1) == Net(db.expenses, Some(1), "USD", 1) - 20
  {
    before := Db(map[0 := Loan(1, 2, 10, 1), 1 := Loan(2, 1, 10, 1)], map[], map[], {}, 2);
    db := Db(map[0 := Loan(1, 2, 30, 2), 1 := Loan(2, 1, 30, 2)], map[], map[], {}, 2);
    rd := map[0 := Loan(1, 2, 10, 1).parts, 1 := Loan(2, 1, 30, 2).parts];
    var b := Batch(Loan(2, 1, 20, 1).(split := ARCHIVE), [0, 1]);
    bs := [b];
    LoansEvolve(before, db);
    LoansBatch(before.expenses, rd, b);
    LoneBatches(before.expenses, rd, Some(1), b);
    forall u ensures Taken(before.expenses, bs, NetFn(Some(1), "USD", u)) == Taken(db.expenses, bs, NetFn(Some(1), "USD", u)) == 0 {
      LoansCancel(before.expenses, bs, 10, 1, u);
      LoansCancel(db.expenses, bs, 30, 2, u);
    }
    CollapseMovesNet(before, rd, db, Some(1), bs, Some(1), "USD", 1);
    LoansShare(rd, bs);
  }

  lemma LoansEvolve(before: Db, db: Db)
    requires before == Db(map[0 := Loan(1, 2, 10, 1), 1 := Loan(2, 1, 10, 1)], map[], map[], {}, 2)
    requires db == Db(map[0 := Loan(1, 2, 30, 2), 1 := Loan(2, 1, 30, 2)], map[], map[], {}, 2)
    ensures ValidDb(before) && Forward(before, db)
  {
    LoansValid(before, 10, 1);
    LoansValid(db, 30, 2);
  }

  lemma LoansValid(db: Db, n: int, version: nat)
    requires version >= 1
    requires db == Db(map[0 := Loan(1, 2, n, version), 1 := Loan(2, 1, n, version)], map[], map[], {}, 2)
    ensures ValidDb(db)
  {
    LoanValid(1, 2, n, version);
    LoanValid(2, 1, n, version);
  }

  lemma LoanValid(x: UserId, y: UserId, n: int, version: nat)
    requires x != y && version >= 1
    ensures ValidExpense(Loan(x, y, n, version))
  {
    assert Upper("USD") == "USD";
    TwoRowFacts(x, y, n);
  }

  lemma LoansRows(rd: Reads, x: int, y: int, u: UserId)
    requires rd == map[0 := Loan(1, 2, x, 1).parts, 1 := Loan(2, 1, y, 2).parts]
    ensures var rows := OriginRows(rd, [0, 1]);
      PartOf(rows, u) == (if u == 1 then x - y else if u == 2 then y - x else 0) && Users(rows) == {1, 2}
  {
    TwoRowFacts(1, 2, x);
    TwoRowFacts(2, 1, y);
    assert [0, 1][1..] == [1] && [1][1..] == [];
    assert OriginRows(rd, [1]) == rd[1] + [] == rd[1];
    RowsConcat(rd[0], rd[1], u);
  }

  lemma LoansBatch(m: Table, rd: Reads, b: Batch)
    requires m == map[0 := Loan(1, 2, 10, 1), 1 := Loan(2, 1, 10, 1)]
    requires rd == map[0 := Loan(1, 2, 10, 1).parts, 1 := Loan(2, 1, 30, 2).parts]
    requires b == Batch(Loan(2, 1, 20, 1).(split := ARCHIVE), [0, 1])
    ensures BatchOf(m, rd, Some(1), "USD", b)
  {
    TwoRowFacts(2, 1, 20);
    forall u ensures PartOf(b.expense.parts, u) == PartOf(OriginRows(rd, b.origins), u) {
      LoansRows(rd, 10, 30, u);
    }
    LoansRows(rd, 10, 30, 0);
    assert [0, 1][1..] == [1] && [1][1..] == [];
    assert DistinctIds([1]) && DistinctIds([0, 1]);
  }

  lemma LoansCancel(m: Table, bs: seq<Batch>, n: int, version: nat, u: UserId)
    requires m == map[0 := Loan(1, 2, n, version), 1 := Loan(2, 1, n, version)]
    requires |bs| == 1 && bs[0].origins == [0, 1]
    ensures Taken(m, bs, NetFn(Some(1), "USD", u)) == 0
  {
    TwoRowFacts(1, 2, n);
    TwoRowFacts(2, 1, n);
    var f := NetFn(Some(1), "USD", u);
    assert bs[1..] == [] && [0, 1][1..] == [1] && [1][1..] == [];
    assert SumOver(m, [1], f) == f(m[1]);
    assert SumOver(m, [0, 1], f) == f(m[0]) + f(m[1]);
  }

  lemma LoansShare(rd: Reads, bs: seq<Batch>)
    requires rd == map[0 := Loan(1, 2, 10, 1).parts, 1 := Loan(2, 1, 30, 2).parts]
    requires |bs| == 1 && bs[0].origins == [0, 1] && bs[0].expense.currency == "USD"
    ensures Share(rd, Some(1), bs, Some(1), "USD", 1) == -20
  {
    LoansRows(rd, 10, 30, 1);
    assert bs[1..] == [];
  }

  lemma LoneExpense(before: Db, db: Db, e: Expense)
    requires ValidExpense(e) && !IsConversion(e) && !e.deleted && e.version == 1
    requires before == Db(map[0 := e], map[], map[], {}, 1) && db == Db(map[0 := Dead(e)], map[], map[], {}, 1)
    ensures ValidDb(before) && SoftDelete(before, 0, 1) == Success(db)
  {
    assert before.expenses[0 := Dead(e)] == map[0 := Dead(e)];
  }

  lemma LoneBatches(m: Table, rd: Reads, g: Option<GroupId>, b: Batch)
    requires BatchOf(m, rd, g, b.expense.currency, b) && b.origins != []
    ensures BatchesOf(m, rd, g, [b])
    ensures Own(m, rd, b.origins) ==> AllOwn(m, rd, [b])
  {
    assert [b][1..] == [];
  }

  /** One expense that its payer is owed, as a batch of its own. */
  lemma LoneBatch(m: Table, e: Expense, b: Batch)
    requires m == map[0 := e] && ValidRows(e.paidBy, e.parts) && !e.deleted && !IsConversion(e)
    requires forall u :: PartOf(e.parts, u) <= PartOf(e.parts, e.paidBy)
    requires b == Batch(e.(split := ARCHIVE), [0])
    ensures BatchOf(m, map[0 := e.parts], e.group, e.currency, b)
  {
    var ids, rd := b.origins, map[0 := e.parts];
    assert ids == [0] && ids[1..] == [];
    assert OriginRows(rd, ids[1..]) == [];
    assert rd[0] + [] == rd[0];
    assert OriginRows(rd, ids) == e.parts;
    assert DistinctIds(ids);
  }

  lemma TwoRowFacts(x: UserId, y: UserId, n: int)
    requires x != y
    ensures var parts := [Part(x, n), Part(y, -n)];
      && ValidRows(x, parts) && Users(parts) == {x, y}
      && forall u :: PartOf(parts, u) == if u == x then n else if u == y then -n else 0
  {
    var parts := [Part(x, n), Part(y, -n)];
    assert parts[1..] == [Part(y, -n)];
    OneRow(Part(y, -n));
  }

  lemma OneRow(p: Part)
    ensures Users([p]) == {p.user} && PartSum([p]) == p.amount && NoRepeat([p])
    ensures forall u :: PartOf([p], u) == if p.user == u then p.amount else 0
  {
    assert [p][1..] == [];
  }
}
