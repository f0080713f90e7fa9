/** Settling a whole group: one settlement per simplified debt, then the netting pass. */
module SettleUp {
  import opened Text
  import opened Simplify
  import opened Pairs
  import opened Rewire
  import opened RewireLaws
  import opened Ledger
  import opened Writes
  import opened Netting

  /** One leg of a group settle-up. */
  datatype GroupTransfer = GroupTransfer(from: UserId, to: UserId, amount: int, currency: string)

  /** The transfers of one currency. */
  function OfCurrency(ts: seq<GroupTransfer>, cur: string): seq<Transfer> {
    if ts == [] then []
    else if ts[0].currency == cur then [Transfer(ts[0].from, ts[0].to, ts[0].amount)] + OfCurrency(ts[1..], cur)
    else OfCurrency(ts[1..], cur)
  }

  /** Currency by currency, in order, the simplified debts of the pairs. */
  ghost predicate Settles(ts: seq<GroupTransfer>, pairs: seq<Pair>) {
    && (forall cur :: OfCurrency(ts, cur) == PlanOf(pairs, cur))
    && (forall i, j :: 0 <= i < j < |ts| ==> ts[i].currency == ts[j].currency || StrLess(ts[i].currency, ts[j].currency))
  }

  function AsShift(t: GroupTransfer): Shift {
    Shift(t.from, t.to, t.currency, t.amount)
  }

  function AsShifts(ts: seq<GroupTransfer>): (ss: seq<Shift>)
    ensures |ss| == |ts|
    ensures forall i :: 0 <= i < |ts| ==> ss[i] == AsShift(ts[i])
  {
    if ts == [] then [] else [AsShift(ts[0])] + AsShifts(ts[1..])
  }

  /** One settlement per transfer: the debtor pays. */
  function Settlements(ts: seq<GroupTransfer>, g: GroupId, date: string): seq<Expense> {
    Entries(AsShifts(ts), SETTLEMENT, g, date)
  }

  lemma {:induction false} TransfersNet(ts: seq<GroupTransfer>, cur: string, u: UserId)
    requires forall i :: 0 <= i < |ts| ==> ts[i].from != ts[i].to
    ensures NetIn(ShiftPairs(AsShifts(ts)), cur, u) == Paid(OfCurrency(ts, cur), u) - Received(OfCurrency(ts, cur), u)
  {
    if ts != [] {
      TransfersNet(ts[1..], cur, u);
      ShiftPairsStep(AsShifts(ts), PairKey("", 0, 0), cur, u);
      assert AsShifts(ts)[1..] == AsShifts(ts[1..]);
      if ts[0].currency == cur {
        assert OfCurrency(ts, cur)[1..] == OfCurrency(ts[1..], cur);
      }
    }
  }

  lemma {:induction false} InCurrency(ts: seq<GroupTransfer>, i: nat)
    requires i < |ts|
    ensures Transfer(ts[i].from, ts[i].to, ts[i].amount) in OfCurrency(ts, ts[i].currency)
  {
    if i > 0 { InCurrency(ts[1..], i - 1); }
  }

  /** Transfers of a settle-up are positive, between two people, in a stored currency. */
  lemma SettlesWritable(ts: seq<GroupTransfer>, db: Db, g: GroupId, rows: seq<Row>, pairs: seq<Pair>)
    requires ValidDb(db) && IsView(rows, db.expenses, Some(g)) && Folds(pairs, rows) && Settles(ts, pairs)
    ensures forall i :: 0 <= i < |ts| ==>
      ts[i].amount > 0 && ts[i].from != ts[i].to && ts[i].currency == Upper(ts[i].currency)
    ensures Writable(AsShifts(ts))
  {
    ViewPairs(rows, db.expenses, Some(g), pairs);
    forall i | 0 <= i < |ts| ensures ts[i].amount > 0 && ts[i].from != ts[i].to && ts[i].currency == Upper(ts[i].currency) {
      InCurrency(ts, i);
      PlannedTransfer(db, g, pairs, ts[i].currency, Transfer(ts[i].from, ts[i].to, ts[i].amount));
    }
  }

  lemma PlannedTransfer(db: Db, g: GroupId, pairs: seq<Pair>, cur: string, t: Transfer)
    requires ValidDb(db) && t in PlanOf(pairs, cur) && forall k :: OwedIn(pairs, k) == Owed(db.expenses, Some(g), k)
    ensures t.amount > 0 && t.from != t.to && cur == Upper(cur)
  {
    PlanIsSimplify(pairs, cur);
    PlanShape(NetOver(People(pairs), pairs, cur));
    if cur != Upper(cur) {
      ForeignNets(db, g, pairs, cur);
      NoNetsNoPlan(pairs, cur);
    }
  }

  /** Once the settlements are recorded, everyone's net in the group is zero. */
  lemma SettlementsClearNets(db: Db, ts: seq<GroupTransfer>, g: GroupId, date: string, rows: seq<Row>, pairs: seq<Pair>,
                             cur: string, u: UserId)
    requires ValidDb(db) && IsView(rows, db.expenses, Some(g)) && Folds(pairs, rows) && Settles(ts, pairs)
    ensures var r := CreateAll(db, Settlements(ts, g, date));
      && r.Success? && Forward(db, r.value) && r.value.groups == db.groups
      && Net(r.value.expenses, Some(g), cur, u) == 0
  {
    SettlesWritable(ts, db, g, rows, pairs);
    EntriesEffect(db, AsShifts(ts), SETTLEMENT, g, date, Some(g), PairKey("", 0, 0), cur, u);
    ViewNets(rows, db.expenses, Some(g), pairs, cur, u);
    TransfersNet(ts, cur, u);
    PlanKeepsNets(pairs, cur, u);
    TransferNets(PlanOf(pairs, cur), cur, u);
  }

  /** Netting a ledger in which everyone's net is zero clears every pair. */
  lemma NettingClearsSettled(db: Db, ss: seq<Shift>, g: GroupId, date: string, rows: seq<Row>, pairs: seq<Pair>, k: PairKey)
    requires ValidDb(db) && Planned(ss, db, g, rows, pairs)
    requires forall u :: Net(db.expenses, Some(g), k.cur, u) == 0
    ensures var r := CreateAll(db, NettingEntries(ss, g, date));
      r.Success? && ValidDb(r.value) && Owed(r.value.expenses, Some(g), k) == 0
  {
    NettingReachesTarget(db, ss, g, date, rows, pairs, k);
    forall u ensures NetIn(pairs, k.cur, u) == 0 {
      ViewNets(rows, db.expenses, Some(g), pairs, k.cur, u);
    }
    SettledTarget(pairs, k);
  }

  /** No transfers are computed exactly when everyone's net is already zero. */
  lemma NothingToSettle(db: Db, ts: seq<GroupTransfer>, g: GroupId, rows: seq<Row>, pairs: seq<Pair>)
    requires ValidDb(db) && IsView(rows, db.expenses, Some(g)) && Folds(pairs, rows) && Settles(ts, pairs)
    ensures ts == [] <==> forall cur, u :: Net(db.expenses, Some(g), cur, u) == 0
  {
    forall cur, u ensures NetIn(pairs, cur, u) == Net(db.expenses, Some(g), cur, u) {
      ViewNets(rows, db.expenses, Some(g), pairs, cur, u);
    }
    if ts == [] {
      forall cur, u ensures Net(db.expenses, Some(g), cur, u) == 0 {
        assert OfCurrency(ts, cur) == [];
        PlanKeepsNets(pairs, cur, u);
      }
    } else if forall cur, u :: Net(db.expenses, Some(g), cur, u) == 0 {
      InCurrency(ts, 0);
      NoNetsNoPlan(pairs, ts[0].currency);
    }
  }

  /** The state settle-all leaves: without a transfer it stops before the netting pass. */
  ghost predicate SettledAll(db: Db, after: Db, ts: seq<GroupTransfer>, g: GroupId, date: string, netDate: string) {
    if ts == [] then after == db
    else
      var r := CreateAll(db, Settlements(ts, g, date));
      && r.Success?
      && exists ss, rows, pairs :: Planned(ss, r.value, g, rows, pairs)
           && CreateAll(r.value, NettingEntries(ss, g, netDate)) == Success(after)
  }

  ghost predicate AllPairsZero(db: Db, g: GroupId) {
    forall k :: Owed(db.expenses, Some(g), k) == 0
  }

  ghost predicate AllNetsZero(db: Db, g: GroupId) {
    forall cur, u :: Net(db.expenses, Some(g), cur, u) == 0
  }

  /** Settle-all leaves every pair at zero exactly when the group is not one that only needs
      tidying: nets all zero although some pair is not. Nets end at zero either way. */
  lemma SettleAllOutcome(db: Db, after: Db, ts: seq<GroupTransfer>, g: GroupId, date: string, netDate: string, rows: seq<Row>, pairs: seq<Pair>)
    requires ValidDb(db) && IsView(rows, db.expenses, Some(g)) && Folds(pairs, rows) && Settles(ts, pairs)
    requires SettledAll(db, after, ts, g, date, netDate)
    ensures AllNetsZero(after, g)
    ensures AllPairsZero(after, g) <==> !AllNetsZero(db, g) || AllPairsZero(db, g)
  {
    NothingToSettle(db, ts, g, rows, pairs);
    if ts != [] {
      var mid := CreateAll(db, Settlements(ts, g, date)).value;
      forall cur, u ensures Net(mid.expenses, Some(g), cur, u) == 0 && ValidDb(mid) {
        SettlementsClearNets(db, ts, g, date, rows, pairs, cur, u);
      }
      assert ValidDb(mid) by { SettlementsClearNets(db, ts, g, date, rows, pairs, "", 0); }
      var ss, rows', pairs' :| Planned(ss, mid, g, rows', pairs')
                               && CreateAll(mid, NettingEntries(ss, g, netDate)) == Success(after);
      forall k ensures Owed(after.expenses, Some(g), k) == 0 {
        NettingClearsSettled(mid, ss, g, netDate, rows', pairs', k);
      }
      forall cur, u ensures Net(after.expenses, Some(g), cur, u) == 0 {
        NettingKeepsNets(mid, mid, ss, g, netDate, rows', pairs', Some(g), cur, u);
      }
    }
  }

  /** A second settle-all finds no transfer to make. */
  lemma SettleAllTwice(db: Db, after: Db, ts: seq<GroupTransfer>, g: GroupId, date: string, netDate: string, rows: seq<Row>, pairs: seq<Pair>,
                       again: seq<GroupTransfer>, rows': seq<Row>, pairs': seq<Pair>)
    requires ValidDb(db) && IsView(rows, db.expenses, Some(g)) && Folds(pairs, rows) && Settles(ts, pairs)
    requires SettledAll(db, after, ts, g, date, netDate) && ValidDb(after)
    requires IsView(rows', after.expenses, Some(g)) && Folds(pairs', rows') && Settles(again, pairs')
    ensures again == []
  {
    SettleAllOutcome(db, after, ts, g, date, netDate, rows, pairs);
    NothingToSettle(after, again, g, rows', pairs');
  }

  function Cycle(): seq<Shift> {
    [Shift(1, 2, "USD", 50), Shift(2, 3, "USD", 50), Shift(3, 1, "USD", 50)]
  }

  lemma CycleSums(cur: string, u: UserId)
    ensures NetIn(ShiftPairs(Cycle()), cur, u) == 0
    ensures OwedIn(ShiftPairs(Cycle()), PairKey("USD", 1, 2)) == 50
  {
    var k := PairKey("USD", 1, 2);
    var c := Cycle();
    ShiftPairsStep(c, k, cur, u);
    ShiftPairsStep(c[1..], k, cur, u);
    ShiftPairsStep(c[1..][1..], k, cur, u);
    assert c[1..][1..][1..] == [];
  }

  /** A state settle-all may leave db in: transfers for the folded view, all recorded. */
  ghost predicate SettleAllLeaves(db: Db, g: GroupId, after: Db) {
    exists ts, rows, pairs, date, netDate ::
      IsView(rows, db.expenses, Some(g)) && Folds(pairs, rows) && Settles(ts, pairs) && SettledAll(db, after, ts, g, date, netDate)
  }

  /** With nothing owed settle-all changes nothing at all. */
  lemma NothingOwedNothingDone(db: Db, g: GroupId, after: Db)
    requires ValidDb(db) && AllNetsZero(db, g) && SettleAllLeaves(db, g, after)
    ensures after == db
  {
    var ts, rows, pairs, date, netDate :|
      IsView(rows, db.expenses, Some(g)) && Folds(pairs, rows) && Settles(ts, pairs) && SettledAll(db, after, ts, g, date, netDate);
    NothingToSettle(db, ts, g, rows, pairs);
  }

  /** Three people who each owe the next the same: nothing is owed, three pairs are open, and
      whatever settle-all does leaves them open. */
  lemma SettledCycle(g: GroupId) returns (db: Db)
    ensures ValidDb(db) && AllNetsZero(db, g) && !AllPairsZero(db, g)
    ensures forall after :: SettleAllLeaves(db, g, after) ==> after == db && !AllPairsZero(after, g)
  {
    var empty := Db(map[], map[], map[g := true], {}, 0);
    assert Upper("USD") == "USD";
    assert Writable(Cycle());
    var r := CreateAll(empty, Entries(Cycle(), EQUAL, g, ""));
    var k := PairKey("USD", 1, 2);
    forall cur, u ensures r.Success? && ValidDb(r.value) && Net(r.value.expenses, Some(g), cur, u) == 0 {
      EntriesEffect(empty, Cycle(), EQUAL, g, "", Some(g), k, cur, u);
      CycleSums(cur, u);
    }
    EntriesEffect(empty, Cycle(), EQUAL, g, "", Some(g), k, "", 0);
    CycleSums("", 0);
    db := r.value;
    assert Owed(db.expenses, Some(g), k) == 50;
    forall after | SettleAllLeaves(db, g, after) ensures after == db {
      NothingOwedNothingDone(db, g, after);
    }
  }
}
