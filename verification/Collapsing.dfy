/** Building the batches of a collapse: per currency, everyone's total as one expense. */
module Collapsing {
  import opened Text
  import opened Sums
  import opened Sorting
  import opened Simplify
  import opened Pairs
  import opened Ledger
  import opened Writes
  import opened Archive
  import opened Stale
  import opened ByDate
  import Division

  predicate Below(x: int, y: int) {
    x < y
  }

  // --------------------------------------------------------------- one batch

  /** What everyone is owed together. */
  function Credit(ps: seq<Part>): int {
    if ps == [] then 0 else (if ps[0].amount > 0 then ps[0].amount else 0) + Credit(ps[1..])
  }

  /** It counts the positive rows; where the rows add up to zero the others owe just as much. */
  lemma {:induction false} CreditMeans(ps: seq<Part>)
    ensures Credit(ps) == Division.Sum(seq(|ps|, i requires 0 <= i < |ps| => if ps[i].amount > 0 then ps[i].amount else 0))
    ensures Credit(ps) - PartSum(ps) == Division.Sum(seq(|ps|, i requires 0 <= i < |ps| => if ps[i].amount < 0 then -ps[i].amount else 0))
  {
    if ps != [] {
      CreditMeans(ps[1..]);
      var up := seq(|ps|, i requires 0 <= i < |ps| => if ps[i].amount > 0 then ps[i].amount else 0);
      var down := seq(|ps|, i requires 0 <= i < |ps| => if ps[i].amount < 0 then -ps[i].amount else 0);
      assert up[1..] == seq(|ps[1..]|, i requires 0 <= i < |ps[1..]| => if ps[1..][i].amount > 0 then ps[1..][i].amount else 0);
      assert down[1..] == seq(|ps[1..]|, i requires 0 <= i < |ps[1..]| => if ps[1..][i].amount < 0 then -ps[1..][i].amount else 0);
    }
  }

  function RowsOf(users: seq<UserId>, net: map<UserId, int>): seq<Part> {
    if users == [] then [] else [Part(users[0], Value(net, users[0]))] + RowsOf(users[1..], net)
  }

  lemma {:induction false} RowsOfAre(users: seq<UserId>, net: map<UserId, int>, u: UserId)
    requires SortedBy(users, Below)
    ensures NoRepeat(RowsOf(users, net))
    ensures u in Users(RowsOf(users, net)) <==> u in users
    ensures PartOf(RowsOf(users, net), u) == if u in users then Value(net, u) else 0
  {
    if users != [] {
      RowsOfAre(users[1..], net, u);
      RowsOfAre(users[1..], net, users[0]);
      TailMembers(users, u, Below);
      TailMembers(users, users[0], Below);
    }
  }

  lemma {:induction false} CreditStep(users: seq<UserId>, net: map<UserId, int>, i: nat)
    requires i < |users|
    ensures var v := Value(net, users[i]);
      Credit(RowsOf(users[..i + 1], net)) == Credit(RowsOf(users[..i], net)) + (if v > 0 then v else 0)
  {
    assert users[..i + 1] == [users[0]] + users[1..][..i];
    if i == 0 {
      assert RowsOf(users[..1], net)[1..] == [];
    } else {
      assert users[..i] == [users[0]] + users[1..][..i - 1];
      CreditStep(users[1..], net, i - 1);
    }
  }

  method AddRows(net0: map<UserId, int>, parts: seq<Part>) returns (net: map<UserId, int>)
    ensures net.Keys == net0.Keys + Users(parts)
    ensures forall u :: Value(net, u) == Value(net0, u) + PartOf(parts, u)
  {
    net := net0;
    for i := 0 to |parts|
      invariant net.Keys + Users(parts[i..]) == net0.Keys + Users(parts)
      invariant forall u :: Value(net, u) + PartOf(parts[i..], u) == Value(net0, u) + PartOf(parts, u)
    {
      assert parts[i..][1..] == parts[i + 1..];
      net := net[parts[i].user := Value(net, parts[i].user) + parts[i].amount];
    }
  }

  lemma {:induction false} OriginRowsAppend(rd: Reads, ids: seq<Id>, x: Id)
    requires x in rd
    ensures OriginRows(rd, ids + [x]) == OriginRows(rd, ids) + rd[x]
  {
    if ids == [] {
      assert OriginRows(rd, [x][1..]) == [];
    } else {
      OriginRowsAppend(rd, ids[1..], x);
      assert (ids + [x])[1..] == ids[1..] + [x] && (ids + [x])[0] == ids[0];
      var head := if ids[0] in rd then rd[ids[0]] else [];
      assert head + (OriginRows(rd, ids[1..]) + rd[x]) == head + OriginRows(rd, ids[1..]) + rd[x];
    }
  }

  method SumOrigins(rd: Reads, ids: seq<Id>) returns (net: map<UserId, int>)
    requires forall i :: i in ids ==> i in rd
    ensures net.Keys == Users(OriginRows(rd, ids))
    ensures forall u :: Value(net, u) == PartOf(OriginRows(rd, ids), u)
  {
    net := map[];
    for i := 0 to |ids|
      invariant net.Keys == Users(OriginRows(rd, ids[..i]))
      invariant forall u :: Value(net, u) == PartOf(OriginRows(rd, ids[..i]), u)
    {
      assert ids[..i + 1] == ids[..i] + [ids[i]];
      OriginRowsAppend(rd, ids[..i], ids[i]);
      OriginStep(rd, ids[..i], ids[i]);
      net := AddRows(net, rd[ids[i]]);
    }
    assert ids[..|ids|] == ids;
  }

  lemma OriginStep(rd: Reads, ids: seq<Id>, x: Id)
    requires x in rd
    ensures Users(OriginRows(rd, ids) + rd[x]) == Users(OriginRows(rd, ids)) + Users(rd[x])
    ensures forall u :: PartOf(OriginRows(rd, ids) + rd[x], u) == PartOf(OriginRows(rd, ids), u) + PartOf(rd[x], u)
  {
    RowsConcat(OriginRows(rd, ids), rd[x], 0);
    forall u ensures PartOf(OriginRows(rd, ids) + rd[x], u) == PartOf(OriginRows(rd, ids), u) + PartOf(rd[x], u) {
      RowsConcat(OriginRows(rd, ids), rd[x], u);
    }
  }

  /** The first of the given people to be owed the most, and what all of them are owed. */
  method PickPayer(users: seq<UserId>, net: map<UserId, int>) returns (paidBy: UserId, amount: int)
    requires SortedBy(users, Below) && users != []
    ensures paidBy in users && forall u :: u in users ==> Value(net, u) <= Value(net, paidBy)
    ensures forall u :: u in users && Value(net, u) == Value(net, paidBy) ==> paidBy <= u
    ensures amount == Credit(RowsOf(users, net))
  {
    paidBy, amount := users[0], 0;
    for i := 0 to |users|
      invariant paidBy in users
      invariant forall j :: 0 <= j < i ==> Value(net, users[j]) <= Value(net, paidBy)
      invariant forall j :: 0 <= j < |users| && Value(net, users[j]) == Value(net, paidBy) ==> paidBy <= users[j] || j >= i
      invariant i == 0 ==> paidBy == users[0]
      invariant forall j :: i <= j < |users| ==> paidBy <= users[j]
      invariant amount == Credit(RowsOf(users[..i], net))
    {
      CreditStep(users, net, i);
      var uid := users[i];
      forall j | i < j < |users| ensures uid <= users[j] {
        assert Below(users[i], users[j]);
      }
      if Value(net, uid) > Value(net, paidBy) {
        paidBy := uid;
      }
      if Value(net, uid) > 0 {
        amount := amount + Value(net, uid);
      }
    }
    assert users[..|users|] == users;
  }

  /** The details of a batch beyond what its rows give everyone: its amount, payer and date, and
      its origins oldest first. With no rows at all the payer is whoever asked for it. */
  ghost predicate Detailed(m: Table, actor: UserId, b: Batch) {
    && PaidBySomeone(b.expense.parts, actor, b.expense.paidBy) && b.expense.amount == Credit(b.expense.parts)
    && InDateOrder(m, b.origins)
    && (exists i :: i in b.origins && i in m && m[i].date == b.expense.date)
    && (forall i :: i in b.origins && i in m ==> !StrLess(b.expense.date, m[i].date))
  }

  /** The first of those owed the most, or the actor if there is nobody. */
  ghost predicate PaidBySomeone(parts: seq<Part>, actor: UserId, paidBy: UserId) {
    && (Users(parts) == {} ==> paidBy == actor)
    && (Users(parts) != {} ==> paidBy in Users(parts))
    && (forall u :: u in Users(parts) ==> PartOf(parts, u) <= PartOf(parts, paidBy))
    && (forall u :: u in Users(parts) && PartOf(parts, u) == PartOf(parts, paidBy) ==> paidBy <= u)
  }

  method BuildBatch(m: Table, rd: Reads, scope: Option<GroupId>, cur: string, ids: seq<Id>, actor: UserId) returns (b: Batch)
    requires Collapsible(m, scope, cur, ids) && ids != [] && forall i :: i in ids ==> i in rd
    ensures BatchOf(m, rd, scope, cur, b) && Detailed(m, actor, b) && b.origins == SortByDate(m, ids) != []
  {
    var list := SortByDate(m, ids);
    SortedSame(m, ids);
    SortOrders(m, ids);
    var paidBy, amount, parts := TotalRows(rd, list, actor);
    var last := list[|list| - 1];
    assert last in list;
    forall i | i in list ensures !StrLess(m[last].date, m[i].date) {
      LastIsNewest(m, list, i);
    }
    b := Batch(Expense(amount, ARCHIVE, m[last].date, cur, paidBy, scope, None, false, 1, parts), list);
  }

  /** One row per person involved. */
  ghost predicate Totals(rd: Reads, ids: seq<Id>, parts: seq<Part>) {
    && NoRepeat(parts) && Users(parts) == Users(OriginRows(rd, ids))
    && (forall u :: PartOf(parts, u) == PartOf(OriginRows(rd, ids), u))
  }

  method TotalRows(rd: Reads, ids: seq<Id>, actor: UserId) returns (paidBy: UserId, amount: int, parts: seq<Part>)
    requires forall i :: i in ids ==> i in rd
    ensures Totals(rd, ids, parts) && PaidBySomeone(parts, actor, paidBy) && amount == Credit(parts)
  {
    var net := SumOrigins(rd, ids);
    var involved := SortedSet(net.Keys, Below);
    paidBy, amount := actor, 0;
    if |involved| > 0 {
      paidBy, amount := PickPayer(involved, net);
    }
    parts := RowsOf(involved, net);
    BuiltRows(rd, ids, involved, net, paidBy);
  }

  lemma BuiltRows(rd: Reads, ids: seq<Id>, involved: seq<UserId>, net: map<UserId, int>, paidBy: UserId)
    requires SortedBy(involved, Below) && forall u :: u in involved <==> u in net
    requires net.Keys == Users(OriginRows(rd, ids))
    requires forall u :: Value(net, u) == PartOf(OriginRows(rd, ids), u)
    ensures Totals(rd, ids, RowsOf(involved, net))
    ensures forall u :: u in net ==> PartOf(RowsOf(involved, net), u) == Value(net, u)
    ensures forall u :: u in Users(RowsOf(involved, net)) <==> u in involved
  {
    var parts := RowsOf(involved, net);
    RowsOfAre(involved, net, paidBy);
    forall u ensures u in Users(parts) <==> u in net {
      RowsOfAre(involved, net, u);
    }
    forall u ensures PartOf(parts, u) == PartOf(OriginRows(rd, ids), u) {
      RowsOfAre(involved, net, u);
      assert Value(net, u) == PartOf(OriginRows(rd, ids), u);
    }
  }

  // ------------------------------------------------------------- all batches

  /** Expenses a collapse may take: live, in scope, not part of a conversion. */
  ghost predicate Takeable(m: Table, scope: Option<GroupId>, ids: seq<Id>) {
    DistinctIds(ids) && forall i :: i in ids ==> i in m && InScope(m[i], scope) && !IsConversion(m[i])
  }

  type Sorted = map<string, seq<Id>>

  /** byCur holds exactly the given ids, each under its currency. */
  ghost predicate ByCurrency(byCur: Sorted, m: Table, scope: Option<GroupId>, ids: seq<Id>) {
    && (forall c :: c in byCur ==> Grouped(byCur, m, scope, c))
    && (forall c, x :: c in byCur && x in byCur[c] ==> x in ids)
    && (forall x :: x in ids ==> x in m && m[x].currency in byCur && x in byCur[m[x].currency])
  }

  lemma {:induction false} DistinctAppend(ids: seq<Id>, x: Id)
    requires DistinctIds(ids) && x !in ids
    ensures DistinctIds(ids + [x])
  {
    if ids == [] {
      assert [x][1..] == [];
    } else {
      DistinctAppend(ids[1..], x);
      assert (ids + [x])[1..] == ids[1..] + [x];
    }
  }

  lemma {:induction false} DistinctPlaces(ids: seq<Id>, i: nat)
    requires DistinctIds(ids) && i < |ids|
    ensures ids[i] !in ids[..i]
  {
    if i > 0 {
      DistinctPlaces(ids[1..], i - 1);
      assert ids[..i] == [ids[0]] + ids[1..][..i - 1];
      assert ids[i] in ids[1..];
    }
  }

  lemma ByCurrencyStep(byCur: Sorted, m: Table, scope: Option<GroupId>, ids: seq<Id>, x: Id)
    requires ByCurrency(byCur, m, scope, ids) && x !in ids
    requires x in m && InScope(m[x], scope) && !IsConversion(m[x])
    ensures var cur := m[x].currency;
      ByCurrency(byCur[cur := (if cur in byCur then byCur[cur] else []) + [x]], m, scope, ids + [x])
  {
    var cur := m[x].currency;
    var mine := if cur in byCur then byCur[cur] else [];
    assert x !in mine;
    DistinctAppend(mine, x);
  }

  method GroupIds(m: Table, scope: Option<GroupId>, ids: seq<Id>) returns (byCur: Sorted)
    requires Takeable(m, scope, ids)
    ensures ByCurrency(byCur, m, scope, ids)
  {
    byCur := map[];
    for i := 0 to |ids|
      invariant ByCurrency(byCur, m, scope, ids[..i])
    {
      var x := ids[i];
      DistinctPlaces(ids, i);
      ByCurrencyStep(byCur, m, scope, ids[..i], x);
      assert ids[..i + 1] == ids[..i] + [x];
      byCur := byCur[m[x].currency := (if m[x].currency in byCur then byCur[m[x].currency] else []) + [x]];
    }
    assert ids[..|ids|] == ids;
  }

  lemma {:induction false} BatchesAppend(m: Table, rd: Reads, g: Option<GroupId>, bs: seq<Batch>, b: Batch)
    requires BatchesOf(m, rd, g, bs) && BatchOf(m, rd, g, b.expense.currency, b) && b.origins != []
    requires b.expense.currency !in Currencies(bs)
    ensures BatchesOf(m, rd, g, bs + [b]) && Currencies(bs + [b]) == Currencies(bs) + {b.expense.currency}
  {
    CurrenciesAppend(bs, b);
    if bs == [] {
      assert [b][1..] == [];
    } else {
      BatchesAppend(m, rd, g, bs[1..], b);
      CurrenciesAppend(bs[1..], b);
      assert (bs + [b])[1..] == bs[1..] + [b] && (bs + [b])[0] == bs[0];
    }
  }

  lemma {:induction false} CurrenciesAppend(bs: seq<Batch>, b: Batch)
    ensures Currencies(bs + [b]) == Currencies(bs) + {b.expense.currency}
  {
    if bs == [] {
      assert [b][1..] == [];
      assert Currencies([b]) == {b.expense.currency};
    } else {
      CurrenciesAppend(bs[1..], b);
      assert (bs + [b])[1..] == bs[1..] + [b] && (bs + [b])[0] == bs[0];
    }
  }

  /** Every given id is an origin of some batch, and no other is. */
  ghost predicate Covers(bs: seq<Batch>, ids: seq<Id>) {
    && (forall j, x :: 0 <= j < |bs| && x in bs[j].origins ==> x in ids)
    && (forall x :: x in ids ==> exists j :: 0 <= j < |bs| && x in bs[j].origins)
  }

  method SortedCurrencies(byCur: Sorted) returns (curs: seq<string>)
    ensures SortedBy(curs, StrLess) && forall c :: c in curs <==> c in byCur
  {
    StrOrder();
    curs := SortedSet(byCur.Keys, StrLess);
  }

  method BuildBatches(m: Table, rd: Reads, scope: Option<GroupId>, ids: seq<Id>, actor: UserId) returns (bs: seq<Batch>)
    requires Takeable(m, scope, ids) && forall i :: i in ids ==> i in rd
    ensures BatchesOf(m, rd, scope, bs) && Covers(bs, ids)
    ensures forall j :: 0 <= j < |bs| ==> Detailed(m, actor, bs[j])
  {
    var byCur := GroupIds(m, scope, ids);
    var curs := SortedCurrencies(byCur);
    bs := BatchesFor(m, rd, scope, byCur, curs, actor);
    AllCovered(m, actor, scope, ids, byCur, curs, bs);
    AllDetailed(m, actor, byCur, curs, bs);
  }

  method BatchesFor(m: Table, rd: Reads, scope: Option<GroupId>, byCur: Sorted, curs: seq<string>, actor: UserId) returns (bs: seq<Batch>)
    requires SortedBy(curs, StrLess) && AllRead(byCur, rd) && forall c :: c in curs ==> Grouped(byCur, m, scope, c)
    ensures |bs| == |curs| && Built(m, rd, actor, scope, byCur, curs, bs)
  {
    bs := [];
    for i := 0 to |curs|
      invariant |bs| == i && Built(m, rd, actor, scope, byCur, curs, bs)
    {
      var b := NextBatch(m, rd, scope, byCur, curs, bs, curs[i], actor);
      bs := bs + [b];
    }
  }

  method NextBatch(m: Table, rd: Reads, scope: Option<GroupId>, byCur: Sorted, ghost curs: seq<string>, ghost bs: seq<Batch>, cur: string,
                   actor: UserId) returns (b: Batch)
    requires SortedBy(curs, StrLess) && AllRead(byCur, rd) && Grouped(byCur, m, scope, cur)
    requires Built(m, rd, actor, scope, byCur, curs, bs) && |bs| < |curs| && cur == curs[|bs|]
    ensures Built(m, rd, actor, scope, byCur, curs, bs + [b])
  {
    b := BuildBatch(m, rd, scope, cur, byCur[cur], actor);
    BuiltStep(m, rd, actor, scope, byCur, curs, bs, b);
  }

  ghost predicate Grouped(byCur: Sorted, m: Table, scope: Option<GroupId>, cur: string) {
    cur in byCur && byCur[cur] != [] && Collapsible(m, scope, cur, byCur[cur])
  }

  ghost predicate AllRead(byCur: Sorted, rd: Reads) {
    forall c, i :: c in byCur && i in byCur[c] ==> i in rd
  }

  lemma AllDetailed(m: Table, actor: UserId, byCur: Sorted, curs: seq<string>, bs: seq<Batch>)
    requires AllTaken(m, actor, byCur, curs, bs) && |bs| == |curs|
    ensures forall j :: 0 <= j < |bs| ==> Detailed(m, actor, bs[j])
  {
    forall j | 0 <= j < |bs| ensures Detailed(m, actor, bs[j]) {
      assert Takes(m, actor, byCur, curs[j], bs[j]);
    }
  }

  /** The batches of the first currencies. */
  ghost predicate Built(m: Table, rd: Reads, actor: UserId, scope: Option<GroupId>, byCur: Sorted, curs: seq<string>, bs: seq<Batch>) {
    && |bs| <= |curs| && BatchesOf(m, rd, scope, bs) && Currencies(bs) == Strings(curs[..|bs|])
    && AllTaken(m, actor, byCur, curs, bs)
  }

  ghost predicate AllTaken(m: Table, actor: UserId, byCur: Sorted, curs: seq<string>, bs: seq<Batch>) {
    |bs| <= |curs| && forall j :: 0 <= j < |bs| ==> Takes(m, actor, byCur, curs[j], bs[j])
  }

  /** b takes all of one currency's expenses. */
  ghost predicate Takes(m: Table, actor: UserId, byCur: Sorted, cur: string, b: Batch) {
    Detailed(m, actor, b) && cur in byCur && b.origins == SortByDate(m, byCur[cur])
  }

  function Strings(s: seq<string>): set<string> {
    set c | c in s
  }

  lemma BuiltStep(m: Table, rd: Reads, actor: UserId, scope: Option<GroupId>, byCur: Sorted, curs: seq<string>, bs: seq<Batch>, b: Batch)
    requires Built(m, rd, actor, scope, byCur, curs, bs) && |bs| < |curs| && SortedBy(curs, StrLess)
    requires var cur := curs[|bs|];
      BatchOf(m, rd, scope, cur, b) && Takes(m, actor, byCur, cur, b) && b.origins != []
    ensures Built(m, rd, actor, scope, byCur, curs, bs + [b])
  {
    FreshCurrency(curs, |bs|);
    BatchesAppend(m, rd, scope, bs, b);
    TakenAppend(m, actor, byCur, curs, bs, b);
  }

  lemma TakenAppend(m: Table, actor: UserId, byCur: Sorted, curs: seq<string>, bs: seq<Batch>, b: Batch)
    requires AllTaken(m, actor, byCur, curs, bs) && |bs| < |curs| && Takes(m, actor, byCur, curs[|bs|], b)
    ensures AllTaken(m, actor, byCur, curs, bs + [b])
  {
  }

  lemma FreshCurrency(curs: seq<string>, i: nat)
    requires SortedBy(curs, StrLess) && i < |curs|
    ensures curs[i] !in Strings(curs[..i])
    ensures Strings(curs[..i + 1]) == Strings(curs[..i]) + {curs[i]}
  {
    StrTotal(curs[i], curs[i]);
    assert curs[..i + 1] == curs[..i] + [curs[i]];
  }

  lemma StrOrder()
    ensures Strict(StrLess)
    ensures forall x: string, y: string :: x != y ==> StrLess(x, y) || StrLess(y, x)
  {
    forall x: string, y: string ensures !StrLess(x, x) && (x != y ==> StrLess(x, y) || StrLess(y, x)) {
      StrTotal(x, x);
      StrTotal(x, y);
    }
    forall x: string, y: string, z: string | StrLess(x, y) && StrLess(y, z) ensures StrLess(x, z) {
      StrTransitive(x, y, z);
    }
  }

  lemma AllCovered(m: Table, actor: UserId, scope: Option<GroupId>, ids: seq<Id>, byCur: Sorted, curs: seq<string>, bs: seq<Batch>)
    requires ByCurrency(byCur, m, scope, ids) && |bs| == |curs| && forall c :: c in curs <==> c in byCur
    requires AllTaken(m, actor, byCur, curs, bs)
    ensures Covers(bs, ids)
  {
    forall x | x in ids ensures exists j :: 0 <= j < |bs| && x in bs[j].origins {
      var j := CoveredBy(m, actor, byCur, curs, bs, x);
      assert x in bs[j].origins;
    }
    forall j, x | 0 <= j < |bs| && x in bs[j].origins ensures x in ids {
      assert Takes(m, actor, byCur, curs[j], bs[j]);
      SortedSame(m, byCur[curs[j]]);
    }
  }

  lemma CoveredBy(m: Table, actor: UserId, byCur: Sorted, curs: seq<string>, bs: seq<Batch>, x: Id) returns (j: nat)
    requires x in m && m[x].currency in byCur && x in byCur[m[x].currency]
    requires |bs| == |curs| && m[x].currency in curs && AllTaken(m, actor, byCur, curs, bs)
    ensures j < |bs| && x in bs[j].origins
  {
    j :| 0 <= j < |curs| && curs[j] == m[x].currency;
    assert Takes(m, actor, byCur, curs[j], bs[j]);
    SortedSame(m, byCur[curs[j]]);
  }

  // ----------------------------------------------------------------- listing

  /** What the group listing selects. */
  predicate GroupHistory(e: Expense, g: GroupId, cutoff: string) {
    !e.deleted && e.group == Some(g) && StrLess(e.date, cutoff) && e.split != CURRENCY_CONVERSION
  }

  /** What the direct listing selects: exactly the two people have a row. */
  predicate DirectHistory(e: Expense, me: UserId, friend: UserId, cutoff: string) {
    && !e.deleted && e.group == None && StrLess(e.date, cutoff) && e.split != CURRENCY_CONVERSION
    && me in Users(e.parts) && friend in Users(e.parts) && |e.parts| == 2
  }

  /** The expenses a filter selects, recurrence templates excepted. */
  method Select(m: Table, keep: Expense -> bool, templates: set<Id>) returns (ids: seq<Id>)
    ensures DistinctIds(ids) && forall i :: i in ids <==> i in m && keep(m[i]) && i !in templates
  {
    ids := [];
    var rest := m.Keys;
    while rest != {}
      invariant rest <= m.Keys && DistinctIds(ids)
      invariant forall i :: i in ids <==> i in m && i !in rest && keep(m[i]) && i !in templates
    {
      var x := NextKey(rest);
      rest := rest - {x};
      if keep(m[x]) && x !in templates {
        DistinctAppend(ids, x);
        ids := ids + [x];
      }
    }
  }

  method ListGroupCollapsible(m: Table, g: GroupId, cutoff: string, templates: set<Id>) returns (ids: seq<Id>)
    requires Linked(m)
    ensures Takeable(m, Some(g), ids)
    ensures forall i :: i in ids <==> i in m && GroupHistory(m[i], g, cutoff) && i !in templates
  {
    ids := Select(m, e => GroupHistory(e, g, cutoff), templates);
    NoLegs(m, ids);
  }

  method ListDirectCollapsible(m: Table, me: UserId, friend: UserId, cutoff: string, templates: set<Id>) returns (ids: seq<Id>)
    requires Linked(m)
    ensures Takeable(m, None, ids)
    ensures forall i :: i in ids <==> i in m && DirectHistory(m[i], me, friend, cutoff) && i !in templates
  {
    ids := Select(m, e => DirectHistory(e, me, friend, cutoff), templates);
    NoLegs(m, ids);
  }

  /** A linked leg always has the conversion type, so the listing's type test is enough. */
  lemma NoLegs(m: Table, ids: seq<Id>)
    requires Linked(m) && forall i :: i in ids ==> i in m && m[i].split != CURRENCY_CONVERSION
    ensures forall i :: i in ids ==> !IsConversion(m[i])
  {
    forall i | i in m ensures m[i].conversionTo.Some? ==> m[i].split == CURRENCY_CONVERSION {
      if m[i].conversionTo.Some? { assert LegPair(m, i, m[i].conversionTo.value); }
    }
  }

  /** A selected direct expense is between the two people and nobody else. */
  lemma {:induction false} JustTheTwo(e: Expense, me: UserId, friend: UserId, cutoff: string)
    requires DirectHistory(e, me, friend, cutoff) && me != friend
    ensures Users(e.parts) == {me, friend}
  {
    var p := e.parts;
    assert p[1..][1..] == [];
    assert Users(p[1..][1..]) == {};
    assert Users(p) == {p[0].user, p[1].user};
  }

  // -------------------------------------------------------- the whole effect

  /** Every expense is between just these two people, one of whom paid. */
  ghost predicate Between(m: Table, ids: seq<Id>, x: UserId, y: UserId) {
    forall i :: i in ids ==> i in m && TwoPeople(m[i], x, y)
  }

  ghost predicate AllBetween(m: Table, bs: seq<Batch>, x: UserId, y: UserId) {
    bs == [] || (Between(m, bs[0].origins, x, y) && AllBetween(m, bs[1..], x, y))
  }

  /** The other batches' origins are not touched by collapsing one. */
  lemma {:induction false} OthersLater(db: Db, rd: Reads, g: Option<GroupId>, b: Batch, bs: seq<Batch>, x: UserId, y: UserId)
    requires ValidDb(db) && CollapseOne(db, b).Success?
    requires BatchOf(db.expenses, rd, g, b.expense.currency, b)
    requires BatchesOf(db.expenses, rd, g, bs) && b.expense.currency !in Currencies(bs)
    requires AllBetween(db.expenses, bs, x, y) && AllOwn(db.expenses, rd, bs)
    ensures AllBetween(CollapseOne(db, b).value.expenses, bs, x, y)
    ensures AllOwn(CollapseOne(db, b).value.expenses, rd, bs)
  {
    if bs != [] {
      var n := CollapseOne(db, b).value.expenses;
      forall i | i in bs[0].origins ensures i in n && n[i] == db.expenses[i] {
        NoSharedOrigin(db.expenses, rd, g, b, bs, 0, i);
        CollapseArchives(db, b, i);
      }
      OthersLater(db, rd, g, b, bs[1..], x, y);
    }
  }

  /** Collapsing the direct history of two people, every currency of it, keeps every pair
      balance. */
  lemma {:induction false} DirectCollapseAll(db: Db, rd: Reads, g: Option<GroupId>, bs: seq<Batch>, x: UserId, y: UserId,
                                             sc: Option<GroupId>, k: PairKey)
    requires Ready(db, rd, g, bs) && AllOwn(db.expenses, rd, bs) && AllBetween(db.expenses, bs, x, y) && x < y
    ensures Collapse(db, bs).Success?
    ensures Owed(Collapse(db, bs).value.expenses, sc, k) == Owed(db.expenses, sc, k)
    decreases |bs|
  {
    if bs != [] {
      var mid := CollapseFirst(db, rd, g, bs);
      DirectCollapseKeepsPairs(db, rd, g, bs[0].expense.currency, bs[0], x, y, sc, k);
      OthersLater(db, rd, g, bs[0], bs[1..], x, y);
      DirectCollapseAll(mid, rd, g, bs[1..], x, y, sc, k);
    }
  }

  /** x is archived as it was, replaced by an expense that is live. */
  ghost predicate Preserved(before: Db, after: Db, x: Id) {
    && x !in after.expenses && x in before.expenses
    && x in after.archived && after.archived[x].expense == before.expenses[x]
    && after.archived[x].replacedBy in after.expenses
  }

  /** What a collapse of batches drawn from other expenses leaves alone. */
  lemma {:induction false} CollapseSpares(db: Db, rd: Reads, g: Option<GroupId>, bs: seq<Batch>, x: Id)
    requires Ready(db, rd, g, bs)
    requires forall j :: 0 <= j < |bs| ==> x !in bs[j].origins
    ensures Collapse(db, bs).Success?
    ensures var n := Collapse(db, bs).value;
      && (x in db.expenses ==> x in n.expenses && n.expenses[x] == db.expenses[x])
      && (x in db.archived ==> x in n.archived && n.archived[x] == db.archived[x])
    decreases |bs|
  {
    if bs != [] {
      var mid := CollapseFirst(db, rd, g, bs);
      CollapseArchives(db, bs[0], x);
      forall j | 0 <= j < |bs[1..]| ensures x !in bs[1..][j].origins {
        assert bs[1..][j] == bs[j + 1];
      }
      CollapseSpares(mid, rd, g, bs[1..], x);
    }
  }

  lemma FirstPreserved(db: Db, rd: Reads, g: Option<GroupId>, bs: seq<Batch>, x: Id)
    requires Ready(db, rd, g, bs) && bs != [] && x in bs[0].origins
    ensures Collapse(db, bs).Success? && Preserved(db, Collapse(db, bs).value, x)
  {
    var mid := CollapseFirst(db, rd, g, bs);
    CollapseArchives(db, bs[0], x);
    OriginOnlyOnce(db, mid, rd, g, bs, x);
    CollapseSpares(mid, rd, g, bs[1..], x);
    CollapseSpares(mid, rd, g, bs[1..], db.next);
    OriginsGo(db, rd, g, bs);
  }

  /** Every origin of a collapse ends up in the archive unchanged. */
  lemma {:induction false} CollapsePreserves(db: Db, rd: Reads, g: Option<GroupId>, bs: seq<Batch>, j: nat, x: Id)
    requires Ready(db, rd, g, bs) && j < |bs| && x in bs[j].origins
    ensures Collapse(db, bs).Success? && Preserved(db, Collapse(db, bs).value, x)
    decreases |bs|
  {
    if j == 0 {
      FirstPreserved(db, rd, g, bs, x);
    } else {
      var i: nat := j - 1;
      var mid := LaterOrigin(db, rd, g, bs, j, i, x);
      CollapsePreserves(mid, rd, g, bs[1..], i, x);
      PreservedThrough(db, bs[0], mid, Collapse(mid, bs[1..]).value, x);
    }
  }

  /** An origin of a later batch survives the first one. */
  lemma LaterOrigin(db: Db, rd: Reads, g: Option<GroupId>, bs: seq<Batch>, j: nat, i: nat, x: Id) returns (mid: Db)
    requires Ready(db, rd, g, bs) && j < |bs| && x in bs[j].origins && j == i + 1
    ensures CollapseOne(db, bs[0]) == Success(mid) && Ready(mid, rd, g, bs[1..])
    ensures Collapse(db, bs) == Collapse(mid, bs[1..])
    ensures i < |bs[1..]| && x in bs[1..][i].origins && x !in bs[0].origins && x in db.expenses
  {
    InRest(bs, j, i);
    NotInFirst(db.expenses, rd, g, bs, i, x);
    mid := CollapseFirst(db, rd, g, bs);
  }

  lemma InRest(bs: seq<Batch>, j: nat, i: nat)
    requires j < |bs| && j == i + 1
    ensures i < |bs[1..]| && bs[1..][i] == bs[j]
  {
  }

  lemma NotInFirst(m: Table, rd: Reads, g: Option<GroupId>, bs: seq<Batch>, i: nat, x: Id)
    requires BatchesOf(m, rd, g, bs) && bs != [] && i < |bs[1..]| && x in bs[1..][i].origins
    ensures x !in bs[0].origins && x in m
  {
    NoSharedOrigin(m, rd, g, bs[0], bs[1..], i, x);
    BatchesAt(m, rd, g, bs[1..], i);
  }

  /** What is preserved from after a batch on was there before it. */
  lemma PreservedThrough(db: Db, b: Batch, mid: Db, after: Db, x: Id)
    requires ValidDb(db) && CollapseOne(db, b) == Success(mid) && x !in b.origins && x in db.expenses
    requires Preserved(mid, after, x)
    ensures Preserved(db, after, x)
  {
  }

  lemma OriginOnlyOnce(db: Db, mid: Db, rd: Reads, g: Option<GroupId>, bs: seq<Batch>, x: Id)
    requires ValidDb(db) && BatchesOf(db.expenses, rd, g, bs) && bs != [] && x in bs[0].origins
    requires BatchesOf(mid.expenses, rd, g, bs[1..])
    ensures forall j :: 0 <= j < |bs[1..]| ==> x !in bs[1..][j].origins && db.next !in bs[1..][j].origins
  {
    forall j | 0 <= j < |bs[1..]| ensures x !in bs[1..][j].origins && db.next !in bs[1..][j].origins {
      BatchesAt(db.expenses, rd, g, bs[1..], j);
      if x in bs[1..][j].origins { NoSharedOrigin(db.expenses, rd, g, bs[0], bs[1..], j, x); }
    }
  }

  // ------------------------------------------------------- what is selected

  /** Batches of expenses that are no templates take no template. */
  lemma {:induction false} CoveredFree(templates: set<Id>, bs: seq<Batch>, ids: seq<Id>)
    requires forall j, x :: 0 <= j < |bs| && x in bs[j].origins ==> x in ids
    requires forall x :: x in ids ==> x !in templates
    ensures Free(templates, bs)
  {
    if bs != [] {
      var b := bs[0];
      assert forall x :: x in IdSet(b.origins) ==> x in ids;
      forall j, x | 0 <= j < |bs[1..]| && x in bs[1..][j].origins ensures x in ids {
        assert bs[1..][j] == bs[j + 1];
      }
      CoveredFree(templates, bs[1..], ids);
    }
  }
}
