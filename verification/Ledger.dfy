/** Expenses, their rows, and the balances derived from them. */
module Ledger {
  import opened Text
  import opened Sums
  import opened Simplify
  import opened Pairs
  import opened Rewire
  import opened RewireLaws

  /** An identifier; NewUUID is modelled as a counter, so an id is never handed out twice. */
  type Id = int
  type GroupId = int

  datatype Method =
    | EQUAL | PERCENTAGE | EXACT | SHARE | ADJUSTMENT
    | SETTLEMENT | CURRENCY_CONVERSION | ARCHIVE | NETTING

  /** One signed participant row. */
  datatype Part = Part(user: UserId, amount: int)

  datatype Expense = Expense(
    amount: int, split: Method, date: string, currency: string, paidBy: UserId,
    group: Option<GroupId>, conversionTo: Option<Id>, deleted: bool, version: nat,
    parts: seq<Part>)

  type Table = map<Id, Expense>

  // ------------------------------------------------------------------- rows

  function PartSum(ps: seq<Part>): int {
    if ps == [] then 0 else ps[0].amount + PartSum(ps[1..])
  }

  function PartOf(ps: seq<Part>, u: UserId): int {
    if ps == [] then 0 else (if ps[0].user == u then ps[0].amount else 0) + PartOf(ps[1..], u)
  }

  function Users(ps: seq<Part>): set<UserId> {
    if ps == [] then {} else {ps[0].user} + Users(ps[1..])
  }

  /** The primary key of the participant table: one row per user. */
  predicate NoRepeat(ps: seq<Part>) {
    ps == [] || (ps[0].user !in Users(ps[1..]) && NoRepeat(ps[1..]))
  }

  /** One row per person, adding up to zero. */
  predicate Balanced(ps: seq<Part>) {
    NoRepeat(ps) && PartSum(ps) == 0
  }

  /** What the storage convention asks of an expense's rows: the payer has one of them. */
  predicate ValidRows(payer: UserId, ps: seq<Part>) {
    Balanced(ps) && payer in Users(ps)
  }

  // --------------------------------------------------------------- the view

  /** The view's contribution of one expense: the payer paired with every other row. */
  function PairsOfParts(ps: seq<Part>, payer: UserId, cur: string): seq<Pair> {
    if ps == [] then []
    else if ps[0].user == payer then PairsOfParts(ps[1..], payer, cur)
    else [PartPair(ps[0], payer, cur)] + PairsOfParts(ps[1..], payer, cur)
  }

  function PartPair(p: Part, payer: UserId, cur: string): Pair {
    if p.user < payer then Pair(p.user, payer, cur, p.amount)
    else Pair(payer, p.user, cur, -p.amount)
  }

  function ExpensePairs(e: Expense): seq<Pair> {
    PairsOfParts(e.parts, e.paidBy, e.currency)
  }

  lemma {:induction false} PartsOriented(ps: seq<Part>, payer: UserId, cur: string)
    ensures Oriented(PairsOfParts(ps, payer, cur))
  {
    if ps != [] { PartsOriented(ps[1..], payer, cur); }
  }

  /** Through the view everyone but the payer gets their own row, and the payer what makes
      the expense sum to zero. */
  lemma {:induction false} PartsNet(ps: seq<Part>, payer: UserId, cur: string, u: UserId)
    ensures NetIn(PairsOfParts(ps, payer, cur), cur, u)
         == PartOf(ps, u) - (if u == payer then PartSum(ps) else 0)
  {
    if ps != [] {
      PartsNet(ps[1..], payer, cur, u);
    }
  }

  lemma {:induction false} PartsOtherCurrency(ps: seq<Part>, payer: UserId, c: string, cur: string, u: UserId)
    requires c != cur
    ensures NetIn(PairsOfParts(ps, payer, c), cur, u) == 0
  {
    if ps != [] { PartsOtherCurrency(ps[1..], payer, c, cur, u); }
  }

  /** Pair by pair: the payer's pair with each other person holds that person's row, and no two
      others have a pair. */
  lemma {:induction false} PartsOwed(ps: seq<Part>, payer: UserId, cur: string, k: PairKey)
    requires k.a < k.b
    ensures OwedIn(PairsOfParts(ps, payer, cur), k)
         == if k.cur != cur then 0 else if payer == k.a then -PartOf(ps, k.b) else if payer == k.b then PartOf(ps, k.a) else 0
  {
    if ps != [] {
      PartsOwed(ps[1..], payer, cur, k);
      if ps[0].user != payer {
        assert PairsOfParts(ps, payer, cur)[1..] == PairsOfParts(ps[1..], payer, cur);
      }
    }
  }

  predicate InScope(e: Expense, g: Option<GroupId>) {
    !e.deleted && e.group == g
  }

  function ScopedPairs(e: Expense, g: Option<GroupId>): seq<Pair> {
    if InScope(e, g) then ExpensePairs(e) else []
  }

  /** What one expense adds to the balance of k in scope g. */
  function OwedFn(g: Option<GroupId>, k: PairKey): Expense -> int {
    (e: Expense) => OwedIn(ScopedPairs(e, g), k)
  }

  /** What one expense adds to u's net: u's own row. */
  function NetFn(g: Option<GroupId>, cur: string, u: UserId): Expense -> int {
    (e: Expense) => if InScope(e, g) && e.currency == cur then PartOf(e.parts, u) else 0
  }

  /** The balance of a pair: what k.b owes k.a. */
  ghost function Owed(m: Table, g: Option<GroupId>, k: PairKey): int {
    MapTotal(m, OwedFn(g, k))
  }

  /** The plain sum of u's rows. */
  ghost function Net(m: Table, g: Option<GroupId>, cur: string, u: UserId): int {
    MapTotal(m, NetFn(g, cur, u))
  }

  ghost predicate AllValid(m: Table) {
    forall id :: id in m ==> Balanced(m[id].parts)
  }

  ghost function AllPairs(m: Table, g: Option<GroupId>): seq<Pair>
    decreases |m|
  {
    if m == map[] then []
    else
      var id := Pick(m);
      assert |m - {id}| < |m| by { RemoveShrinks(m, id); }
      ScopedPairs(m[id], g) + AllPairs(m - {id}, g)
  }

  lemma {:induction false} AllPairsOwed(m: Table, g: Option<GroupId>, k: PairKey)
    ensures OwedIn(AllPairs(m, g), k) == Owed(m, g, k)
    decreases |m|
  {
    if m != map[] {
      var id := Pick(m);
      RemoveShrinks(m, id);
      AllPairsOwed(m - {id}, g, k);
      OwedInConcat(ScopedPairs(m[id], g), AllPairs(m - {id}, g), k);
    }
  }

  lemma {:induction false} AllPairsNet(m: Table, g: Option<GroupId>, cur: string, u: UserId)
    requires AllValid(m)
    ensures NetIn(AllPairs(m, g), cur, u) == Net(m, g, cur, u)
    decreases |m|
  {
    if m != map[] {
      var id := Pick(m);
      var e := m[id];
      RemoveShrinks(m, id);
      AllPairsNet(m - {id}, g, cur, u);
      NetInConcat(ScopedPairs(e, g), AllPairs(m - {id}, g), cur, u);
      ScopedNet(e, g, cur, u);
    }
  }

  lemma ScopedNet(e: Expense, g: Option<GroupId>, cur: string, u: UserId)
    requires Balanced(e.parts)
    ensures NetIn(ScopedPairs(e, g), cur, u) == NetFn(g, cur, u)(e)
  {
    if e.currency == cur {
      PartsNet(e.parts, e.paidBy, cur, u);
    } else {
      PartsOtherCurrency(e.parts, e.paidBy, e.currency, cur, u);
    }
  }

  lemma OwedOriented(m: Table, g: Option<GroupId>, k: PairKey)
    requires k.a >= k.b
    ensures Owed(m, g, k) == 0
  {
    forall id | id in m ensures OwedFn(g, k)(m[id]) == 0 {
      PartsOriented(m[id].parts, m[id].paidBy, m[id].currency);
      OrientedOwed(ScopedPairs(m[id], g), k);
    }
    ZeroTotal(m, OwedFn(g, k));
  }

  // ------------------------------------------------------ reading the view

  /** The view's amount in the row (u, v): positive when v owes u. */
  ghost function Balance(m: Table, g: Option<GroupId>, cur: string, u: UserId, v: UserId): int {
    if u < v then Owed(m, g, PairKey(cur, u, v)) else -Owed(m, g, PairKey(cur, v, u))
  }

  /** Rows the balance query may return: every non-zero pair, in any order, from either side. */
  ghost predicate IsView(rows: seq<Row>, m: Table, g: Option<GroupId>) {
    && (forall i :: 0 <= i < |rows| ==>
          rows[i].user != rows[i].friend
          && rows[i].amount == Balance(m, g, rows[i].currency, rows[i].user, rows[i].friend) != 0)
    && (forall k :: Owed(m, g, k) != 0 ==> HasRow(rows, k))
  }

  lemma {:induction false} ViewFirst(rows: seq<Row>, m: Table, g: Option<GroupId>, k: PairKey)
    requires forall i :: 0 <= i < |rows| ==>
          rows[i].user != rows[i].friend
          && rows[i].amount == Balance(m, g, rows[i].currency, rows[i].user, rows[i].friend)
    ensures FirstOwed(rows, k) == if HasRow(rows, k) then Owed(m, g, k) else 0
  {
    if rows != [] {
      ViewFirst(rows[1..], m, g, k);
      if HasRow(rows, k) && RowKey(rows[0]) != k {
        var i :| 0 <= i < |rows| && RowKey(rows[i]) == k;
        assert rows[1..][i - 1] == rows[i];
      }
      if HasRow(rows[1..], k) {
        var i :| 0 <= i < |rows[1..]| && RowKey(rows[1..][i]) == k;
        assert rows[i + 1] == rows[1..][i];
      }
    }
  }

  /** The pairs folded from the view carry the ledger's pair balances. */
  lemma ViewPairs(rows: seq<Row>, m: Table, g: Option<GroupId>, pairs: seq<Pair>)
    requires IsView(rows, m, g) && Folds(pairs, rows)
    ensures forall k :: OwedIn(pairs, k) == Owed(m, g, k)
    ensures Oriented(pairs)
  {
    forall k ensures OwedIn(pairs, k) == Owed(m, g, k) {
      FoldedOwed(pairs, rows, k);
      ViewFirst(rows, m, g, k);
    }
    forall i | 0 <= i < |pairs| ensures pairs[i].a < pairs[i].b {
      assert pairs[i] in pairs;
      FoldedOwed(pairs, rows, KeyOf(pairs[i]));
      if pairs[i].a >= pairs[i].b { OwedOriented(m, g, KeyOf(pairs[i])); }
    }
  }

  /** Over valid expenses the nets seen through the pairwise view are everyone's plain row
      sums, whatever order the rows came in. */
  lemma ViewNets(rows: seq<Row>, m: Table, g: Option<GroupId>, pairs: seq<Pair>, cur: string, u: UserId)
    requires AllValid(m) && IsView(rows, m, g) && Folds(pairs, rows)
    ensures NetIn(pairs, cur, u) == Net(m, g, cur, u)
  {
    ViewPairs(rows, m, g, pairs);
    forall k: PairKey | k.cur == cur ensures OwedIn(pairs, k) == OwedIn(AllPairs(m, g), k) {
      AllPairsOwed(m, g, k);
    }
    SamePairsSameNet(pairs, AllPairs(m, g), cur, u);
    AllPairsNet(m, g, cur, u);
  }

  /** Two reads of the same ledger fold to the same pairs. */
  lemma ViewOrderIrrelevant(rows: seq<Row>, rows': seq<Row>, m: Table, g: Option<GroupId>,
                            pairs: seq<Pair>, pairs': seq<Pair>)
    requires IsView(rows, m, g) && Folds(pairs, rows)
    requires IsView(rows', m, g) && Folds(pairs', rows')
    ensures pairs == pairs'
  {
    forall k ensures FirstOwed(rows, k) == FirstOwed(rows', k) {
      ViewFirst(rows, m, g, k);
      ViewFirst(rows', m, g, k);
    }
    FoldUnique(pairs, pairs', rows, rows');
  }
}
