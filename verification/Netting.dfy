/** Netting entries and settlements, and what they do to balances and nets. */
module Netting {
  import opened Text
  import opened Sums
  import opened Simplify
  import opened Pairs
  import opened Rewire
  import opened RewireLaws
  import opened Ledger
  import opened Writes

  // ------------------------------------------------------ two-row expenses

  /** payer's row is +amount and other's -amount. */
  function TwoRows(payer: UserId, other: UserId, amount: int, cur: string, split: Method,
                   g: Option<GroupId>, date: string): Expense {
    Expense(amount, split, date, cur, payer, g, None, false, 1, [Part(payer, amount), Part(other, -amount)])
  }

  /** One entry of a group that moves one pair: a netting entry or a settlement. */
  function Entry(s: Shift, split: Method, g: GroupId, date: string): Expense {
    TwoRows(s.payer, s.other, s.amount, s.currency, split, Some(g), date)
  }

  function Entries(ss: seq<Shift>, split: Method, g: GroupId, date: string): (es: seq<Expense>)
    ensures |es| == |ss|
  {
    if ss == [] then [] else [Entry(ss[0], split, g, date)] + Entries(ss[1..], split, g, date)
  }

  function NettingEntries(ss: seq<Shift>, g: GroupId, date: string): seq<Expense> {
    Entries(ss, NETTING, g, date)
  }

  /** Two rows move exactly the pair they name, by what a shift would. */
  lemma TwoRowsEffect(e: Expense, s: Shift, sc: Option<GroupId>, k: PairKey, cur: string, u: UserId)
    requires e == TwoRows(s.payer, s.other, s.amount, s.currency, e.split, e.group, e.date)
    requires s.payer != s.other
    ensures OwedFn(sc, k)(Stored(e)) == if sc == e.group then OneOwed(ShiftPair(s), k) else 0
    ensures NetFn(sc, cur, u)(Stored(e)) == if sc == e.group then NetOfPair(ShiftPair(s), cur, u) else 0
    ensures ValidRows(e.paidBy, e.parts)
  {
    var payer, other := Part(s.payer, s.amount), Part(s.other, -s.amount);
    TwoParts(payer, other, u, s.currency);
    assert [ShiftPair(s)][1..] == [];
    assert ExpensePairs(Stored(e)) == [ShiftPair(s)];
    assert OwedIn([ShiftPair(s)], k) == OneOwed(ShiftPair(s), k);
  }

  /** The row functions on a two-row list. */
  lemma TwoParts(p: Part, q: Part, u: UserId, cur: string)
    ensures PartSum([p, q]) == p.amount + q.amount
    ensures PartOf([p, q], u) == (if u == p.user then p.amount else 0) + (if u == q.user then q.amount else 0)
    ensures Users([p, q]) == {p.user, q.user}
    ensures NoRepeat([p, q]) <==> p.user != q.user
    ensures q.user != p.user ==> PairsOfParts([p, q], p.user, cur) == [PartPair(q, p.user, cur)]
  {
    assert [p, q][1..] == [q] && [q][1..] == [];
    assert PartSum([q]) == q.amount && Users([q]) == {q.user} && NoRepeat([q]);
    assert PartOf([q], u) == if u == q.user then q.amount else 0;
    assert q.user != p.user ==> PairsOfParts([q], p.user, cur) == [PartPair(q, p.user, cur)];
  }

  // -------------------------------------------------- effects of a creation

  lemma CreateEffect(db: Db, e: Expense, sc: Option<GroupId>, k: PairKey, cur: string, u: UserId)
    requires ValidDb(db)
    ensures Owed(Insert(db, e).expenses, sc, k) == Owed(db.expenses, sc, k) + OwedFn(sc, k)(Stored(e))
    ensures Net(Insert(db, e).expenses, sc, cur, u) == Net(db.expenses, sc, cur, u) + NetFn(sc, cur, u)(Stored(e))
  {
    TotalUpdate(db.expenses, db.next, Stored(e), OwedFn(sc, k));
    TotalUpdate(db.expenses, db.next, Stored(e), NetFn(sc, cur, u));
  }

  /** Shifts as the service may turn them into entries. */
  ghost predicate Writable(ss: seq<Shift>) {
    forall i :: 0 <= i < |ss| ==> ss[i].payer != ss[i].other && ss[i].currency == Upper(ss[i].currency)
  }

  lemma EntryAddable(s: Shift, split: Method, g: GroupId, date: string)
    requires split != CURRENCY_CONVERSION
    requires s.payer != s.other && s.currency == Upper(s.currency)
    ensures Addable(Entry(s, split, g, date)) && NoRepeat(Entry(s, split, g, date).parts)
  {
    TwoRowsEffect(Entry(s, split, g, date), s, None, PairKey("", 0, 0), "", 0);
  }

  /** Writing the entries never fails, moves the pairs of the group by the shifts, and moves
      nothing outside the group. */
  lemma {:induction false} EntriesEffect(db: Db, ss: seq<Shift>, split: Method, g: GroupId, date: string,
                                         sc: Option<GroupId>, k: PairKey, cur: string, u: UserId)
    requires ValidDb(db) && Writable(ss) && split != CURRENCY_CONVERSION
    ensures var r := CreateAll(db, Entries(ss, split, g, date));
      && r.Success? && Forward(db, r.value) && r.value.groups == db.groups
      && Owed(r.value.expenses, sc, k)
           == Owed(db.expenses, sc, k) + (if sc == Some(g) then OwedIn(ShiftPairs(ss), k) else 0)
      && Net(r.value.expenses, sc, cur, u)
           == Net(db.expenses, sc, cur, u) + (if sc == Some(g) then NetIn(ShiftPairs(ss), cur, u) else 0)
    decreases |ss|
  {
    if ss == [] {
      assert Forward(db, db);
    } else {
      var e := Entry(ss[0], split, g, date);
      var mid := Insert(db, e);
      EntryAddable(ss[0], split, g, date);
      CreateKeeps(db, e);
      CreateEffect(db, e, sc, k, cur, u);
      TwoRowsEffect(e, ss[0], sc, k, cur, u);
      EntriesEffect(mid, ss[1..], split, g, date, sc, k, cur, u);
      EntriesStep(db, ss, split, g, date);
      ShiftPairsStep(ss, k, cur, u);
    }
  }

  lemma ShiftPairsStep(ss: seq<Shift>, k: PairKey, cur: string, u: UserId)
    requires ss != []
    ensures OwedIn(ShiftPairs(ss), k) == OneOwed(ShiftPair(ss[0]), k) + OwedIn(ShiftPairs(ss[1..]), k)
    ensures NetIn(ShiftPairs(ss), cur, u) == NetOfPair(ShiftPair(ss[0]), cur, u) + NetIn(ShiftPairs(ss[1..]), cur, u)
  {
    assert ShiftPairs(ss)[1..] == ShiftPairs(ss[1..]);
  }

  lemma EntriesStep(db: Db, ss: seq<Shift>, split: Method, g: GroupId, date: string)
    requires ss != [] && ss[0].payer != ss[0].other
    requires Forward(db, Insert(db, Entry(ss[0], split, g, date)))
    ensures var mid := Insert(db, Entry(ss[0], split, g, date));
      var r := CreateAll(mid, Entries(ss[1..], split, g, date));
      CreateAll(db, Entries(ss, split, g, date)) == r && (r.Success? && Forward(mid, r.value) ==> Forward(db, r.value))
  {
    var e := Entry(ss[0], split, g, date);
    var mid := Insert(db, e);
    assert Entries(ss, split, g, date)[1..] == Entries(ss[1..], split, g, date);
    assert NoRepeat(e.parts) by { TwoRowsEffect(e, ss[0], None, PairKey("", 0, 0), "", 0); }
    var r := CreateAll(mid, Entries(ss[1..], split, g, date));
    if r.Success? && Forward(mid, r.value) {
      EvolvesTransitive(db, mid, r.value);
    }
  }

  // ------------------------------------------------------- the netting pass

  /** ss is what the netting pass plans when it reads db: the shifts for the folded view. */
  ghost predicate Planned(ss: seq<Shift>, db: Db, g: GroupId, rows: seq<Row>, pairs: seq<Pair>) {
    IsView(rows, db.expenses, Some(g)) && Folds(pairs, rows) && Rewires(ss, pairs)
  }

  lemma PlannedWritable(ss: seq<Shift>, db: Db, g: GroupId, rows: seq<Row>, pairs: seq<Pair>)
    requires ValidDb(db) && Planned(ss, db, g, rows, pairs)
    ensures Writable(ss) && Oriented(pairs)
  {
    ViewPairs(rows, db.expenses, Some(g), pairs);
    ShiftEnds(ss, pairs);
    forall i | 0 <= i < |ss| ensures ss[i].currency == Upper(ss[i].currency) {
      assert ss[i] in ss;
      var k := ShiftKey(ss[i]);
      if k.cur != Upper(k.cur) {
        ForeignCurrency(db, g, pairs, k);
      }
    }
  }

  /** In a currency no expense is in, everyone's net is zero. */
  lemma ForeignNets(db: Db, g: GroupId, pairs: seq<Pair>, cur: string)
    requires ValidDb(db) && cur != Upper(cur)
    requires forall j :: OwedIn(pairs, j) == Owed(db.expenses, Some(g), j)
    ensures forall j: PairKey :: j.cur == cur ==> OwedIn(pairs, j) == 0
    ensures forall u :: NetIn(pairs, cur, u) == 0
  {
    forall j: PairKey | j.cur == cur ensures OwedIn(pairs, j) == 0 {
      forall id | id in db.expenses ensures OwedFn(Some(g), j)(db.expenses[id]) == 0 {
        PairsCurrency(db.expenses[id].parts, db.expenses[id].paidBy, db.expenses[id].currency, j);
      }
      ZeroTotal(db.expenses, OwedFn(Some(g), j));
    }
    forall u ensures NetIn(pairs, cur, u) == 0 {
      ZeroPairsZeroNet(pairs, cur, u);
    }
  }

  /** Nor is there a simplified debt in it. */
  lemma ForeignCurrency(db: Db, g: GroupId, pairs: seq<Pair>, k: PairKey)
    requires ValidDb(db) && k.cur != Upper(k.cur)
    requires forall j :: OwedIn(pairs, j) == Owed(db.expenses, Some(g), j)
    ensures Gap(pairs, k) == 0
  {
    ForeignNets(db, g, pairs, k.cur);
    SettledTarget(pairs, k);
  }

  lemma {:induction false} PairsCurrency(ps: seq<Part>, payer: UserId, cur: string, k: PairKey)
    requires k.cur != cur
    ensures OwedIn(PairsOfParts(ps, payer, cur), k) == 0
  {
    if ps != [] { PairsCurrency(ps[1..], payer, cur, k); }
  }

  /** The netting pass moves nobody's net, whatever was committed between its read of before
      and its writes to db. */
  lemma NettingKeepsNets(before: Db, db: Db, ss: seq<Shift>, g: GroupId, date: string, rows: seq<Row>,
                         pairs: seq<Pair>, sc: Option<GroupId>, cur: string, u: UserId)
    requires ValidDb(before) && Planned(ss, before, g, rows, pairs)
    requires ValidDb(db)
    ensures var r := CreateAll(db, NettingEntries(ss, g, date));
      r.Success? && Net(r.value.expenses, sc, cur, u) == Net(db.expenses, sc, cur, u)
  {
    PlannedWritable(ss, before, g, rows, pairs);
    EntriesEffect(db, ss, NETTING, g, date, sc, PairKey("", 0, 0), cur, u);
    RewireKeepsNets(ss, pairs, cur, u);
  }

  /** With nothing in between, the pairs of the group end up as exactly the simplified debts. */
  lemma NettingReachesTarget(db: Db, ss: seq<Shift>, g: GroupId, date: string, rows: seq<Row>, pairs: seq<Pair>, k: PairKey)
    requires ValidDb(db) && Planned(ss, db, g, rows, pairs)
    ensures var r := CreateAll(db, NettingEntries(ss, g, date));
      && r.Success? && ValidDb(r.value)
      && Owed(r.value.expenses, Some(g), k) == Target(pairs, k)
  {
    PlannedWritable(ss, db, g, rows, pairs);
    ViewPairs(rows, db.expenses, Some(g), pairs);
    EntriesEffect(db, ss, NETTING, g, date, Some(g), k, "", 0);
    ShiftsCloseGap(ss, pairs, k);
  }

  /** A second pass over the result plans nothing. */
  lemma NettingTwice(db: Db, ss: seq<Shift>, g: GroupId, date: string, rows: seq<Row>, pairs: seq<Pair>,
                     rows': seq<Row>, pairs': seq<Pair>, again: seq<Shift>)
    requires ValidDb(db) && Planned(ss, db, g, rows, pairs)
    requires var r := CreateAll(db, NettingEntries(ss, g, date));
      r.Success? && Planned(again, r.value, g, rows', pairs')
    ensures again == []
  {
    var after := CreateAll(db, NettingEntries(ss, g, date)).value;
    ViewPairs(rows', after.expenses, Some(g), pairs');
    forall k ensures OwedIn(pairs', k) == Target(pairs, k) {
      NettingReachesTarget(db, ss, g, date, rows, pairs, k);
    }
    RewireIdempotent(pairs, pairs', again);
  }
}
