/** Debt simplification: the greedy two-pointer settlement of a currency's nets. */
module Simplify {
  import opened Sums
  import opened Sorting

  type UserId = int

  /** One payment: from pays to. */
  datatype Transfer = Transfer(from: UserId, to: UserId, amount: int)

  /** One side of the ledger: a creditor or a debtor with a positive amount. */
  datatype Node = Node(id: UserId, amt: int)

  /** Larger amounts first, then smaller ids. */
  predicate Before(x: Node, y: Node) {
    x.amt > y.amt || (x.amt == y.amt && x.id < y.id)
  }

  // ---------------------------------------------------------------- the plan

  ghost function CreditorSet(net: map<UserId, int>): set<Node> {
    set id | id in net && net[id] > 0 :: Node(id, net[id])
  }

  ghost function DebtorSet(net: map<UserId, int>): set<Node> {
    set id | id in net && net[id] < 0 :: Node(id, -net[id])
  }

  ghost function Listing(s: set<Node>): (r: seq<Node>)
    ensures forall x :: x in r <==> x in s
    ensures forall i, j :: 0 <= i < j < |r| ==> r[i] != r[j]
  {
    if s == {} then []
    else
      var x :| x in s;
      [x] + Listing(s - {x})
  }

  /** The elements of s in the order Before. */
  ghost function Ordered(s: set<Node>): (r: seq<Node>)
    ensures forall x :: x in r <==> x in s
    ensures SortedBy(r, Before)
  {
    SortSorts(Listing(s), Before);
    Members(Sort(Listing(s), Before), Listing(s));
    Sort(Listing(s), Before)
  }

  /** Settle the heads of the two lists against each other, drop whoever reached zero, go on. */
  function Greedy(cs: seq<Node>, ds: seq<Node>): seq<Transfer>
    decreases |cs| + |ds|
  {
    if cs == [] || ds == [] then []
    else
      var pay := if ds[0].amt < cs[0].amt then ds[0].amt else cs[0].amt;
      [Transfer(ds[0].id, cs[0].id, pay)] + Greedy(After(cs, pay), After(ds, pay))
  }

  /** The list once its head has been settled by pay. */
  function After(ns: seq<Node>, pay: int): (r: seq<Node>)
    requires ns != []
    ensures |r| == if ns[0].amt == pay then |ns| - 1 else |ns|
  {
    if ns[0].amt == pay then ns[1..] else [Node(ns[0].id, ns[0].amt - pay)] + ns[1..]
  }

  ghost function Plan(cs: set<Node>, ds: set<Node>): seq<Transfer> {
    Greedy(Ordered(cs), Ordered(ds))
  }

  ghost function SimplifyOf(net: map<UserId, int>): seq<Transfer> {
    Plan(CreditorSet(net), DebtorSet(net))
  }

  // ---------------------------------------------------------- the algorithm

  /** Walks the map in any order and settles with two cursors; the list it returns is
      the same for every walk. */
  method SettleNets(net: map<UserId, int>) returns (res: seq<Transfer>)
    ensures res == SimplifyOf(net)
  {
    var creditors: seq<Node>, debtors: seq<Node> := [], [];
    var rest := net.Keys;
    while rest != {}
      invariant rest <= net.Keys
      invariant Collected(creditors, CreditorSet(net), rest)
      invariant Collected(debtors, DebtorSet(net), rest)
      decreases rest
    {
      var id := NextKey(rest);
      rest := rest - {id};
      var v := net[id];
      if v > 0 {
        creditors := creditors + [Node(id, v)];
      } else if v < 0 {
        debtors := debtors + [Node(id, -v)];
      }
    }
    creditors := SortNodes(creditors, CreditorSet(net));
    debtors := SortNodes(debtors, DebtorSet(net));
    res := Settle(creditors, debtors);
  }

  /** ns lists, once each, the nodes of all whose ids have been walked. */
  ghost predicate Collected(ns: seq<Node>, all: set<Node>, rest: set<UserId>) {
    && (forall x :: x in ns <==> x in all && x.id !in rest)
    && (forall i, j :: 0 <= i < j < |ns| ==> ns[i] != ns[j])
  }

  method SortNodes(s: seq<Node>, ghost elems: set<Node>) returns (r: seq<Node>)
    requires Collected(s, elems, {})
    ensures r == Ordered(elems)
  {
    r := Sort(s, Before);
    SortSorts(s, Before);
    Members(r, s);
    SortedUnique(r, Ordered(elems), Before);
  }

  /** The cursor loop: amounts are reduced in place, a cursor moves on at zero. */
  method Settle(cs: seq<Node>, ds: seq<Node>) returns (res: seq<Transfer>)
    ensures res == Greedy(cs, ds)
  {
    var creditors, debtors := cs, ds;
    var ci, di := 0, 0;
    res := [];
    while ci < |creditors| && di < |debtors|
      invariant 0 <= ci <= |creditors| && 0 <= di <= |debtors|
      invariant Greedy(cs, ds) == res + Greedy(creditors[ci..], debtors[di..])
      decreases |creditors| - ci + |debtors| - di
    {
      var pay := creditors[ci].amt;
      if debtors[di].amt < pay {
        pay := debtors[di].amt;
      }
      GreedyStep(res, creditors[ci..], debtors[di..], pay);
      res := res + [Transfer(debtors[di].id, creditors[ci].id, pay)];
      PayInPlace(creditors, ci, pay);
      creditors := creditors[ci := Node(creditors[ci].id, creditors[ci].amt - pay)];
      PayInPlace(debtors, di, pay);
      debtors := debtors[di := Node(debtors[di].id, debtors[di].amt - pay)];
      if creditors[ci].amt == 0 {
        ci := ci + 1;
      }
      if debtors[di].amt == 0 {
        di := di + 1;
      }
    }
  }

  lemma GreedyStep(res: seq<Transfer>, cs: seq<Node>, ds: seq<Node>, pay: int)
    requires cs != [] && ds != []
    requires pay == if ds[0].amt < cs[0].amt then ds[0].amt else cs[0].amt
    ensures res + Greedy(cs, ds)
         == res + [Transfer(ds[0].id, cs[0].id, pay)] + Greedy(After(cs, pay), After(ds, pay))
  {
  }

  lemma PayInPlace(ns: seq<Node>, i: nat, pay: int)
    requires i < |ns|
    ensures var paid := ns[i := Node(ns[i].id, ns[i].amt - pay)];
      After(ns[i..], pay) == if paid[i].amt == 0 then paid[i + 1..] else paid[i..]
  {
  }

  // ------------------------------------------------------------- properties

  function Paid(ts: seq<Transfer>, u: UserId): int {
    if ts == [] then 0 else (if ts[0].from == u then ts[0].amount else 0) + Paid(ts[1..], u)
  }

  function Received(ts: seq<Transfer>, u: UserId): int {
    if ts == [] then 0 else (if ts[0].to == u then ts[0].amount else 0) + Received(ts[1..], u)
  }

  function SumAmt(ns: seq<Node>): int {
    if ns == [] then 0 else ns[0].amt + SumAmt(ns[1..])
  }

  /** What a list of nodes holds for one person. */
  function AmtOf(ns: seq<Node>, u: UserId): int {
    if ns == [] then 0 else (if ns[0].id == u then ns[0].amt else 0) + AmtOf(ns[1..], u)
  }

  function Ids(ns: seq<Node>): set<UserId> {
    if ns == [] then {} else {ns[0].id} + Ids(ns[1..])
  }

  /** Positive amounts, no id twice. */
  ghost predicate Side(ns: seq<Node>) {
    ns == [] || (ns[0].amt > 0 && ns[0].id !in Ids(ns[1..]) && Side(ns[1..]))
  }

  lemma AfterIsSide(ns: seq<Node>, pay: int, u: UserId)
    requires ns != [] && Side(ns) && pay <= ns[0].amt
    ensures var r := After(ns, pay);
      && Side(r) && Ids(r) <= Ids(ns) && (ns[0].amt == pay ==> ns[0].id !in Ids(r))
      && SumAmt(r) == SumAmt(ns) - pay
      && AmtOf(r, u) == AmtOf(ns, u) - (if ns[0].id == u then pay else 0)
  {
    assert ([Node(ns[0].id, ns[0].amt - pay)] + ns[1..])[1..] == ns[1..];
  }

  lemma {:induction false} SideSum(ns: seq<Node>)
    requires Side(ns)
    ensures SumAmt(ns) >= |ns|
    ensures |Ids(ns)| == |ns|
  {
    if ns != [] { SideSum(ns[1..]); }
  }

  /** Nobody pays or receives more than their amount, and the smaller side, both when they are
      equal, is used up: everyone on it pays or receives all of it. */
  lemma {:induction false} GreedyTotals(cs: seq<Node>, ds: seq<Node>, u: UserId)
    requires Side(cs) && Side(ds)
    ensures 0 <= Paid(Greedy(cs, ds), u) <= AmtOf(ds, u)
    ensures 0 <= Received(Greedy(cs, ds), u) <= AmtOf(cs, u)
    ensures SumAmt(ds) <= SumAmt(cs) ==> Paid(Greedy(cs, ds), u) == AmtOf(ds, u)
    ensures SumAmt(cs) <= SumAmt(ds) ==> Received(Greedy(cs, ds), u) == AmtOf(cs, u)
    decreases |cs| + |ds|
  {
    if cs == [] || ds == [] {
      SideSum(cs);
      SideSum(ds);
      AmtNonNegative(cs, u);
      AmtNonNegative(ds, u);
    } else {
      var pay := if ds[0].amt < cs[0].amt then ds[0].amt else cs[0].amt;
      AfterIsSide(cs, pay, u);
      AfterIsSide(ds, pay, u);
      GreedyTotals(After(cs, pay), After(ds, pay), u);
      GreedyHead(cs, ds, pay, u);
    }
  }

  lemma GreedyHead(cs: seq<Node>, ds: seq<Node>, pay: int, u: UserId)
    requires cs != [] && ds != []
    requires pay == if ds[0].amt < cs[0].amt then ds[0].amt else cs[0].amt
    ensures var rest := Greedy(After(cs, pay), After(ds, pay));
      && Paid(Greedy(cs, ds), u) == (if ds[0].id == u then pay else 0) + Paid(rest, u)
      && Received(Greedy(cs, ds), u) == (if cs[0].id == u then pay else 0) + Received(rest, u)
  {
    assert Greedy(cs, ds)[1..] == Greedy(After(cs, pay), After(ds, pay));
  }

  lemma {:induction false} AmtNonNegative(ns: seq<Node>, u: UserId)
    requires Side(ns)
    ensures AmtOf(ns, u) >= 0
  {
    if ns != [] { AmtNonNegative(ns[1..], u); }
  }

  /** A payment from a debtor to a creditor. */
  predicate Runs(t: Transfer, debtors: set<UserId>, creditors: set<UserId>) {
    t.amount > 0 && t.from in debtors && t.to in creditors
  }

  /** Whatever the two totals are, payments are positive and run from debtors to creditors,
      and every payment but the last retires a node. */
  lemma {:induction false} GreedyRuns(cs: seq<Node>, ds: seq<Node>)
    requires Side(cs) && Side(ds)
    ensures forall i :: 0 <= i < |Greedy(cs, ds)| ==> Runs(Greedy(cs, ds)[i], Ids(ds), Ids(cs))
    ensures if cs == [] || ds == [] then Greedy(cs, ds) == [] else |Greedy(cs, ds)| <= |cs| + |ds| - 1
    decreases |cs| + |ds|
  {
    if cs != [] && ds != [] {
      var pay := if ds[0].amt < cs[0].amt then ds[0].amt else cs[0].amt;
      AfterIsSide(cs, pay, 0);
      AfterIsSide(ds, pay, 0);
      GreedyRuns(After(cs, pay), After(ds, pay));
    }
  }

  /** No (from, to) pair comes twice. */
  lemma {:induction false} GreedyNoRepeat(cs: seq<Node>, ds: seq<Node>)
    requires Side(cs) && Side(ds)
    ensures var g := Greedy(cs, ds);
      forall i, j :: 0 <= i < j < |g| ==> g[i].from != g[j].from || g[i].to != g[j].to
    decreases |cs| + |ds|
  {
    if cs != [] && ds != [] {
      var pay := if ds[0].amt < cs[0].amt then ds[0].amt else cs[0].amt;
      var cs', ds' := After(cs, pay), After(ds, pay);
      AfterIsSide(cs, pay, 0);
      AfterIsSide(ds, pay, 0);
      GreedyRuns(cs', ds');
      GreedyNoRepeat(cs', ds');
      var rest := Greedy(cs', ds');
      forall j | 0 <= j < |rest| ensures rest[j].from != ds[0].id || rest[j].to != cs[0].id {
        assert Runs(rest[j], Ids(ds'), Ids(cs'));
      }
      NoRepeatCons(Transfer(ds[0].id, cs[0].id, pay), rest);
    }
  }

  lemma NoRepeatCons(t: Transfer, rest: seq<Transfer>)
    requires forall i, j :: 0 <= i < j < |rest| ==> rest[i].from != rest[j].from || rest[i].to != rest[j].to
    requires forall j :: 0 <= j < |rest| ==> rest[j].from != t.from || rest[j].to != t.to
    ensures var g := [t] + rest;
      forall i, j :: 0 <= i < j < |g| ==> g[i].from != g[j].from || g[i].to != g[j].to
  {
  }

  // ------------------------------------------- the theorems about a net map

  function Value(net: map<UserId, int>, u: UserId): int {
    if u in net then net[u] else 0
  }

  /** u's position once the transfers are paid. */
  function NetAfter(net: map<UserId, int>, ts: seq<Transfer>, u: UserId): int {
    Value(net, u) + Paid(ts, u) - Received(ts, u)
  }

  function Gain(): int -> int { (v: int) => if v > 0 then v else 0 }
  function Loss(): int -> int { (v: int) => if v < 0 then -v else 0 }

  /** ns is the list of the non-zero f-values of the map. */
  ghost predicate Lists(ns: seq<Node>, net: map<UserId, int>, f: int -> int) {
    && SortedBy(ns, Before)
    && forall x :: x in ns <==> x.id in net && x.amt == f(net[x.id]) && x.amt != 0
  }

  lemma ListTail(ns: seq<Node>, net: map<UserId, int>, f: int -> int)
    requires Lists(ns, net, f) && ns != []
    ensures ns[0].id in net && ns[0].amt == f(net[ns[0].id]) != 0
    ensures Lists(ns[1..], net - {ns[0].id}, f)
  {
    assert ns[0] in ns;
    forall x ensures x in ns[1..] <==> x in ns && x != ns[0] {
      StrictBefore();
      TailMembers(ns, x, Before);
    }
  }

  lemma StrictBefore()
    ensures Strict(Before)
  {
  }

  lemma {:induction false} ListTotal(ns: seq<Node>, net: map<UserId, int>, f: int -> int, u: UserId)
    requires Lists(ns, net, f) && forall v :: f(v) >= 0
    ensures Side(ns) && Ids(ns) == set id | id in net && f(net[id]) != 0
    ensures SumAmt(ns) == MapTotal(net, f)
    ensures AmtOf(ns, u) == if u in net then f(net[u]) else 0
  {
    if ns == [] {
      forall id | id in net ensures f(net[id]) == 0 {
        assert Node(id, f(net[id])) !in ns;
      }
      ZeroTotal(net, f);
    } else {
      ListTail(ns, net, f);
      TotalRemove(net, ns[0].id, f);
      ListTotal(ns[1..], net - {ns[0].id}, f, u);
    }
  }

  lemma {:induction false} ZeroTotal<K, V>(m: map<K, V>, f: V -> int)
    requires forall k :: k in m ==> f(m[k]) == 0
    ensures MapTotal(m, f) == 0
    decreases |m|
  {
    if m != map[] {
      RemoveShrinks(m, Pick(m));
      ZeroTotal(m - {Pick(m)}, f);
    }
  }

  /** The sorted creditors and debtors of a net map. */
  lemma CreditorSide(net: map<UserId, int>)
    ensures Side(Ordered(CreditorSet(net)))
    ensures Ids(Ordered(CreditorSet(net))) == (set id | id in net && net[id] > 0)
  {
    assert Lists(Ordered(CreditorSet(net)), net, Gain());
    ListTotal(Ordered(CreditorSet(net)), net, Gain(), 0);
  }

  lemma DebtorSide(net: map<UserId, int>)
    ensures Side(Ordered(DebtorSet(net)))
    ensures Ids(Ordered(DebtorSet(net))) == (set id | id in net && net[id] < 0)
  {
    assert Lists(Ordered(DebtorSet(net)), net, Loss());
    ListTotal(Ordered(DebtorSet(net)), net, Loss(), 0);
  }

  lemma CreditorsHold(net: map<UserId, int>, u: UserId)
    ensures AmtOf(Ordered(CreditorSet(net)), u) == Gain()(Value(net, u))
    ensures SumAmt(Ordered(CreditorSet(net))) == MapTotal(net, Gain())
  {
    assert Lists(Ordered(CreditorSet(net)), net, Gain());
    ListTotal(Ordered(CreditorSet(net)), net, Gain(), u);
  }

  lemma DebtorsHold(net: map<UserId, int>, u: UserId)
    ensures AmtOf(Ordered(DebtorSet(net)), u) == Loss()(Value(net, u))
    ensures SumAmt(Ordered(DebtorSet(net))) == MapTotal(net, Loss())
  {
    assert Lists(Ordered(DebtorSet(net)), net, Loss());
    ListTotal(Ordered(DebtorSet(net)), net, Loss(), u);
  }

  /** Together they hold each person's net, and the total of all nets. */
  lemma SidesHold(net: map<UserId, int>, u: UserId)
    ensures AmtOf(Ordered(CreditorSet(net)), u) == Gain()(Value(net, u))
    ensures AmtOf(Ordered(DebtorSet(net)), u) == Loss()(Value(net, u))
    ensures SumAmt(Ordered(CreditorSet(net))) - SumAmt(Ordered(DebtorSet(net))) == MapSum(net)
  {
    CreditorsHold(net, u);
    DebtorsHold(net, u);
    TotalLinear(net, Gain(), Same(), Loss());
  }

  // -------------------------------------------------------- what stays open

  /** What each person still has open once the transfers are paid. */
  function Rest(net: map<UserId, int>, ts: seq<Transfer>): map<UserId, int> {
    map u | u in net :: NetAfter(net, ts, u)
  }

  /** Payments among these people move their positions but not the total. */
  lemma {:induction false} RestTotal(net: map<UserId, int>, ts: seq<Transfer>)
    requires forall i :: 0 <= i < |ts| ==> ts[i].from in net && ts[i].to in net
    ensures MapSum(Rest(net, ts)) == MapSum(net)
  {
    if ts == [] {
      assert Rest(net, ts) == net;
    } else {
      var rest := Rest(net, ts[1..]);
      var paid := rest[ts[0].from := rest[ts[0].from] + ts[0].amount];
      RestTotal(net, ts[1..]);
      assert Rest(net, ts) == paid[ts[0].to := paid[ts[0].to] - ts[0].amount];
      TotalUpdate(rest, ts[0].from, paid[ts[0].from], Same());
      TotalUpdate(paid, ts[0].to, paid[ts[0].to] - ts[0].amount, Same());
    }
  }

  /** Nobody crosses zero, and everybody on the side of the smaller total ends there. */
  lemma RestSide(net: map<UserId, int>, u: UserId)
    ensures var v := NetAfter(net, SimplifyOf(net), u);
      && (MapSum(net) >= 0 ==> 0 <= v <= Gain()(Value(net, u)))
      && (MapSum(net) <= 0 ==> 0 <= -v <= Loss()(Value(net, u)))
  {
    CreditorSide(net);
    DebtorSide(net);
    SidesHold(net, u);
    GreedyTotals(Ordered(CreditorSet(net)), Ordered(DebtorSet(net)), u);
  }

  /** Whatever the nets, what stays open adds up to their total, all of it on one side. */
  lemma LeavesUnsettled(net: map<UserId, int>)
    ensures var rest := Rest(net, SimplifyOf(net));
      && MapSum(rest) == MapSum(net)
      && (MapSum(net) >= 0 ==> forall u :: u in rest ==> rest[u] >= 0)
      && (MapSum(net) <= 0 ==> forall u :: u in rest ==> rest[u] <= 0)
  {
    PlanShape(net);
    RestTotal(net, SimplifyOf(net));
    forall u ensures var v := NetAfter(net, SimplifyOf(net), u); (MapSum(net) >= 0 ==> v >= 0) && (MapSum(net) <= 0 ==> v <= 0) {
      RestSide(net, u);
    }
  }

  /** The plan settles everyone to zero exactly when the nets sum to zero. */
  lemma SettlesIffZeroSum(net: map<UserId, int>)
    ensures (forall u :: NetAfter(net, SimplifyOf(net), u) == 0) <==> MapSum(net) == 0
  {
    if MapSum(net) == 0 {
      forall u ensures NetAfter(net, SimplifyOf(net), u) == 0 {
        SettlesZeroSum(net, u);
      }
    }
    if forall u :: NetAfter(net, SimplifyOf(net), u) == 0 {
      LeavesUnsettled(net);
      ZeroTotal(Rest(net, SimplifyOf(net)), Same());
    }
  }

  lemma SettlesZeroSum(net: map<UserId, int>, u: UserId)
    requires MapSum(net) == 0
    ensures NetAfter(net, SimplifyOf(net), u) == 0
  {
    RestSide(net, u);
  }

  /** Every transfer is positive and runs from a debtor to a creditor, so nobody both pays and
      receives; no (from, to) pair repeats; and there is at least one transfer fewer than
      there are people with a non-zero net. */
  lemma PlanShape(net: map<UserId, int>)
    ensures var ts := SimplifyOf(net);
      && (forall i :: 0 <= i < |ts| ==> ts[i].amount > 0 && Value(net, ts[i].from) < 0 < Value(net, ts[i].to))
      && (forall i, j :: 0 <= i < j < |ts| ==> ts[i].from != ts[j].from || ts[i].to != ts[j].to)
      && (ts != [] ==> |ts| <= |set u | u in net && net[u] != 0| - 1)
  {
    var cs, ds := Ordered(CreditorSet(net)), Ordered(DebtorSet(net));
    CreditorSide(net);
    DebtorSide(net);
    GreedyRuns(cs, ds);
    GreedyNoRepeat(cs, ds);
    var ts := SimplifyOf(net);
    forall i | 0 <= i < |ts| ensures ts[i].amount > 0 && Value(net, ts[i].from) < 0 < Value(net, ts[i].to) {
      assert Runs(ts[i], Ids(ds), Ids(cs));
    }
    SideSum(cs);
    SideSum(ds);
    NonZeroCount(net);
  }

  lemma NonZeroCount(net: map<UserId, int>)
    ensures |set id | id in net && net[id] > 0| + |set id | id in net && net[id] < 0|
         == |set u | u in net && net[u] != 0|
  {
    var p, n := set id | id in net && net[id] > 0, set id | id in net && net[id] < 0;
    assert (set u | u in net && net[u] != 0) == p + n;
  }

  // ------------------------------------------------- who is settled first

  /** The place of a person in a list. */
  function Place(ns: seq<Node>, u: UserId): nat {
    if ns == [] || ns[0].id == u then 0 else 1 + Place(ns[1..], u)
  }

  lemma {:induction false} PlaceAt(ns: seq<Node>, u: UserId)
    requires u in Ids(ns)
    ensures Place(ns, u) < |ns| && ns[Place(ns, u)].id == u
  {
    if ns[0].id != u { PlaceAt(ns[1..], u); }
  }

  lemma PlaceAfter(ns: seq<Node>, pay: int, u: UserId)
    requires ns != [] && Side(ns) && pay <= ns[0].amt && u in Ids(After(ns, pay))
    ensures Place(ns, u) == Place(After(ns, pay), u) + (if ns[0].amt == pay then 1 else 0)
  {
    AfterIsSide(ns, pay, u);
    if ns[0].amt != pay { assert After(ns, pay)[1..] == ns[1..]; }
  }

  predicate Moved(ns: seq<Node>, later: seq<Node>, u: UserId, steps: nat) {
    Place(ns, u) == Place(later, u) + steps
  }

  /** After the first transfer the plan goes on with what is left, everyone as many places further
      up. */
  lemma NextRound(cs: seq<Node>, ds: seq<Node>) returns (cs': seq<Node>, ds': seq<Node>, head: Transfer, p: nat, q: nat)
    requires Side(cs) && Side(ds) && Greedy(cs, ds) != []
    ensures Side(cs') && Side(ds') && |cs'| + |ds'| < |cs| + |ds| && Greedy(cs, ds) == [head] + Greedy(cs', ds')
    ensures forall k :: 0 <= k < |Greedy(cs', ds')| ==>
      Moved(cs, cs', Greedy(cs', ds')[k].to, p) && Moved(ds, ds', Greedy(cs', ds')[k].from, q)
  {
    var pay := if ds[0].amt < cs[0].amt then ds[0].amt else cs[0].amt;
    cs', ds', head := After(cs, pay), After(ds, pay), Transfer(ds[0].id, cs[0].id, pay);
    p, q := if cs[0].amt == pay then 1 else 0, if ds[0].amt == pay then 1 else 0;
    AfterIsSide(cs, pay, 0);
    AfterIsSide(ds, pay, 0);
    GreedyRuns(cs', ds');
    forall k | 0 <= k < |Greedy(cs', ds')|
      ensures Moved(cs, cs', Greedy(cs', ds')[k].to, p) && Moved(ds, ds', Greedy(cs', ds')[k].from, q)
    {
      var t := Greedy(cs', ds')[k];
      assert Runs(t, Ids(ds'), Ids(cs'));
      PlaceAfter(cs, pay, t.to);
      PlaceAfter(ds, pay, t.from);
    }
  }

  predicate Rise(cs: seq<Node>, ds: seq<Node>, x: Transfer, y: Transfer) {
    Place(cs, x.to) <= Place(cs, y.to) && Place(ds, x.from) <= Place(ds, y.from)
  }

  /** The two cursors only move on. */
  lemma {:induction false} GreedyInOrder(cs: seq<Node>, ds: seq<Node>, i: nat, j: nat)
    requires Side(cs) && Side(ds) && i <= j < |Greedy(cs, ds)|
    ensures Rise(cs, ds, Greedy(cs, ds)[i], Greedy(cs, ds)[j])
    decreases |cs| + |ds|
  {
    if i > 0 {
      var cs', ds', head, p, q := NextRound(cs, ds);
      var rest := Greedy(cs', ds');
      var m: nat, n: nat := i - 1, j - 1;
      assert Greedy(cs, ds)[i] == rest[m] && Greedy(cs, ds)[j] == rest[n];
      GreedyInOrder(cs', ds', m, n);
      RiseBack(cs, ds, cs', ds', rest[m], rest[n], p, q);
    } else {
      FirstPlaces(cs, ds);
    }
  }

  lemma RiseBack(cs: seq<Node>, ds: seq<Node>, cs': seq<Node>, ds': seq<Node>, x: Transfer, y: Transfer, p: nat, q: nat)
    requires Moved(cs, cs', x.to, p) && Moved(cs, cs', y.to, p) && Moved(ds, ds', x.from, q) && Moved(ds, ds', y.from, q)
    requires Rise(cs', ds', x, y)
    ensures Rise(cs, ds, x, y)
  {
  }

  lemma FirstPlaces(cs: seq<Node>, ds: seq<Node>)
    requires Greedy(cs, ds) != []
    ensures Place(cs, Greedy(cs, ds)[0].to) == 0 && Place(ds, Greedy(cs, ds)[0].from) == 0
  {
  }

  /** The larger value comes first, of equal ones the smaller id. */
  predicate Ahead(x: int, u: UserId, y: int, v: UserId) {
    x > y || (x == y && u <= v)
  }

  lemma SideOrder(ns: seq<Node>, u: UserId, v: UserId)
    requires SortedBy(ns, Before) && u in Ids(ns) && v in Ids(ns) && Place(ns, u) <= Place(ns, v)
    ensures Place(ns, u) < |ns| && Place(ns, v) < |ns| && Ahead(ns[Place(ns, u)].amt, u, ns[Place(ns, v)].amt, v)
  {
    PlaceAt(ns, u);
    PlaceAt(ns, v);
    if Place(ns, u) < Place(ns, v) { assert Before(ns[Place(ns, u)], ns[Place(ns, v)]); }
  }

  /** Creditors are paid from the largest credit down, and debtors pay from the largest debt
      down; of equal ones the smaller id first. */
  lemma PlanOrder(net: map<UserId, int>, i: nat, j: nat)
    requires i < j < |SimplifyOf(net)|
    ensures var x, y := SimplifyOf(net)[i], SimplifyOf(net)[j];
      && x.to in net && y.to in net && x.from in net && y.from in net
      && (net[x.to] > net[y.to] || (net[x.to] == net[y.to] && x.to <= y.to))
      && (net[x.from] < net[y.from] || (net[x.from] == net[y.from] && x.from <= y.from))
  {
    var cs, ds := Ordered(CreditorSet(net)), Ordered(DebtorSet(net));
    var ts := SimplifyOf(net);
    CreditorSide(net);
    DebtorSide(net);
    GreedyRuns(cs, ds);
    assert Runs(ts[i], Ids(ds), Ids(cs)) && Runs(ts[j], Ids(ds), Ids(cs));
    GreedyInOrder(cs, ds, i, j);
    SideOrder(cs, ts[i].to, ts[j].to);
    SideOrder(ds, ts[i].from, ts[j].from);
    AmountAt(net, ts[i]);
    AmountAt(net, ts[j]);
  }

  lemma AmountAt(net: map<UserId, int>, t: Transfer)
    requires t.to in Ids(Ordered(CreditorSet(net))) && t.from in Ids(Ordered(DebtorSet(net)))
    ensures t.to in net && t.from in net
    ensures var cs, ds := Ordered(CreditorSet(net)), Ordered(DebtorSet(net));
      && Place(cs, t.to) < |cs| && cs[Place(cs, t.to)].amt == net[t.to]
      && Place(ds, t.from) < |ds| && ds[Place(ds, t.from)].amt == -net[t.from]
  {
    var cs, ds := Ordered(CreditorSet(net)), Ordered(DebtorSet(net));
    PlaceAt(cs, t.to);
    PlaceAt(ds, t.from);
    assert cs[Place(cs, t.to)] in CreditorSet(net) && ds[Place(ds, t.from)] in DebtorSet(net);
  }

  /** Each transfer is for the smaller of what its creditor is still owed and its debtor still
      owes, so it settles at least one of the two. */
  lemma {:induction false} GreedyPays(cs: seq<Node>, ds: seq<Node>, i: nat)
    requires Side(cs) && Side(ds) && i < |Greedy(cs, ds)|
    ensures var g := Greedy(cs, ds);
      var due, debt := AmtOf(cs, g[i].to) - Received(g[..i], g[i].to), AmtOf(ds, g[i].from) - Paid(g[..i], g[i].from);
      g[i].amount == if debt < due then debt else due
    decreases |cs| + |ds|
  {
    if i == 0 {
      HeadAmount(cs);
      HeadAmount(ds);
    } else {
      var j: nat := i - 1;
      var cs', ds', head := Onward(cs, ds, i, j);
      GreedyPays(cs', ds', j);
      var g, rest := Greedy(cs, ds), Greedy(cs', ds');
      assert g[..i][1..] == rest[..j] && g[..i][0] == head;
    }
  }

  lemma Onward(cs: seq<Node>, ds: seq<Node>, i: nat, j: nat) returns (cs': seq<Node>, ds': seq<Node>, head: Transfer)
    requires Side(cs) && Side(ds) && i == j + 1 < |Greedy(cs, ds)|
    ensures Side(cs') && Side(ds') && |cs'| + |ds'| < |cs| + |ds| && Greedy(cs, ds) == [head] + Greedy(cs', ds')
    ensures var t := Greedy(cs, ds)[i];
      && AmtOf(cs', t.to) == AmtOf(cs, t.to) - (if head.to == t.to then head.amount else 0)
      && AmtOf(ds', t.from) == AmtOf(ds, t.from) - (if head.from == t.from then head.amount else 0)
  {
    var pay := if ds[0].amt < cs[0].amt then ds[0].amt else cs[0].amt;
    cs', ds', head := After(cs, pay), After(ds, pay), Transfer(ds[0].id, cs[0].id, pay);
    AfterIsSide(cs, pay, Greedy(cs, ds)[i].to);
    AfterIsSide(ds, pay, Greedy(cs, ds)[i].from);
  }

  lemma HeadAmount(ns: seq<Node>)
    requires ns != [] && Side(ns)
    ensures AmtOf(ns, ns[0].id) == ns[0].amt
  {
    NoAmount(ns[1..], ns[0].id);
  }

  lemma {:induction false} NoAmount(ns: seq<Node>, u: UserId)
    requires u !in Ids(ns)
    ensures AmtOf(ns, u) == 0
  {
    if ns != [] { NoAmount(ns[1..], u); }
  }

  /** In terms of the nets: after the transfers before it, each is for the smaller of the two
      positions left, and brings at least one of them to zero. */
  lemma PlanPays(net: map<UserId, int>, i: nat)
    requires i < |SimplifyOf(net)|
    ensures var ts := SimplifyOf(net);
      var due, debt := NetAfter(net, ts[..i], ts[i].to), -NetAfter(net, ts[..i], ts[i].from);
      ts[i].amount == if debt < due then debt else due
  {
    var ts := SimplifyOf(net);
    CreditorSide(net);
    DebtorSide(net);
    SidesHold(net, ts[i].to);
    SidesHold(net, ts[i].from);
    OneSided(net, i);
    GreedyPays(Ordered(CreditorSet(net)), Ordered(DebtorSet(net)), i);
  }

  lemma OneSided(net: map<UserId, int>, i: nat)
    requires i < |SimplifyOf(net)|
    ensures var ts := SimplifyOf(net);
      && Value(net, ts[i].from) < 0 < Value(net, ts[i].to)
      && Paid(ts[..i], ts[i].to) == 0 && Received(ts[..i], ts[i].from) == 0
  {
    var ts := SimplifyOf(net);
    PlanShape(net);
    forall k | 0 <= k < i ensures ts[k].from != ts[i].to && ts[k].to != ts[i].from {
      assert Value(net, ts[k].from) < 0 < Value(net, ts[i].to) && Value(net, ts[i].from) < 0 < Value(net, ts[k].to);
    }
    NonePaid(ts[..i], ts[i].to);
    NoneReceived(ts[..i], ts[i].from);
  }

  lemma {:induction false} NonePaid(ts: seq<Transfer>, u: UserId)
    requires forall k :: 0 <= k < |ts| ==> ts[k].from != u
    ensures Paid(ts, u) == 0
  {
    if ts != [] { NonePaid(ts[1..], u); }
  }

  lemma {:induction false} NoneReceived(ts: seq<Transfer>, u: UserId)
    requires forall k :: 0 <= k < |ts| ==> ts[k].to != u
    ensures Received(ts, u) == 0
  {
    if ts != [] { NoneReceived(ts[1..], u); }
  }

  /** The first transfer is from the largest debtor to the largest creditor. */
  lemma FirstTransfer(net: map<UserId, int>, u: UserId)
    requires u in net && SimplifyOf(net) != []
    ensures var t := SimplifyOf(net)[0];
      && t.to in net && t.from in net && t.amount == (if -net[t.from] < net[t.to] then -net[t.from] else net[t.to])
      && (net[u] > 0 ==> net[t.to] > net[u] || (net[t.to] == net[u] && t.to <= u))
      && (net[u] < 0 ==> net[t.from] < net[u] || (net[t.from] == net[u] && t.from <= u))
  {
    var cs, ds := Ordered(CreditorSet(net)), Ordered(DebtorSet(net));
    HeadsFirst(cs, ds);
    assert cs[0] in CreditorSet(net) && ds[0] in DebtorSet(net);
    if net[u] > 0 { LargestFirst(CreditorSet(net), Node(u, net[u])); }
    if net[u] < 0 { LargestFirst(DebtorSet(net), Node(u, -net[u])); }
  }

  lemma HeadsFirst(cs: seq<Node>, ds: seq<Node>)
    requires Greedy(cs, ds) != []
    ensures cs != [] && ds != []
    ensures Greedy(cs, ds)[0] == Transfer(ds[0].id, cs[0].id, if ds[0].amt < cs[0].amt then ds[0].amt else cs[0].amt)
  {
  }

  lemma LargestFirst(all: set<Node>, x: Node)
    requires x in all
    ensures Ordered(all) != [] && Ahead(Ordered(all)[0].amt, Ordered(all)[0].id, x.amt, x.id)
  {
    var ns := Ordered(all);
    var k :| 0 <= k < |ns| && ns[k] == x;
    assert k > 0 ==> Before(ns[0], ns[k]);
  }
}
