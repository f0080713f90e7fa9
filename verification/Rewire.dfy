/** Folding view rows into pairs, netting them, and the shifts that turn the pairs into the
    simplified debts. */
module Rewire {
  import opened Sums
  import opened Sorting
  import opened Simplify
  import opened Pairs

  // ---------------------------------------------------------- PairsFromRows

  predicate HasRow(rows: seq<Row>, k: PairKey) {
    exists i :: 0 <= i < |rows| && RowKey(rows[i]) == k
  }

  /** The first row about a pair decides its balance. */
  function FirstOwed(rows: seq<Row>, k: PairKey): int {
    if rows == [] then 0
    else if RowKey(rows[0]) == k then RowOwed(rows[0])
    else FirstOwed(rows[1..], k)
  }

  lemma {:induction false} FirstOwedAppend(rows: seq<Row>, r: Row, k: PairKey)
    ensures FirstOwed(rows + [r], k)
         == if !HasRow(rows, k) && RowKey(r) == k then RowOwed(r) else FirstOwed(rows, k)
    ensures !HasRow(rows, k) ==> FirstOwed(rows, k) == 0
  {
    if rows == [] {
      assert [r][1..] == [];
    } else {
      FirstOwedAppend(rows[1..], r, k);
      assert (rows + [r])[1..] == rows[1..] + [r];
      if RowKey(rows[0]) != k && HasRow(rows, k) {
        var i :| 0 <= i < |rows| && RowKey(rows[i]) == k;
        assert rows[1..][i - 1] == rows[i];
      }
      if HasRow(rows[1..], k) {
        var i :| 0 <= i < |rows[1..]| && RowKey(rows[1..][i]) == k;
        assert rows[i + 1] == rows[1..][i];
      }
    }
  }

  /** pairs lists every pair with a balance, exactly once, by currency and ids. */
  ghost predicate Folds(pairs: seq<Pair>, rows: seq<Row>) {
    && SortedBy(pairs, PairBefore)
    && forall p :: p in pairs <==> p.owed != 0 && p.owed == FirstOwed(rows, KeyOf(p))
  }

  ghost predicate DistinctKeys(ps: seq<Pair>) {
    forall i, j :: 0 <= i < j < |ps| ==> KeyOf(ps[i]) != KeyOf(ps[j])
  }

  method PairsFromRows(rows: seq<Row>) returns (pairs: seq<Pair>)
    ensures Folds(pairs, rows)
  {
    var seen: set<PairKey> := {};
    pairs := [];
    for i := 0 to |rows|
      invariant forall k :: k in seen <==> HasRow(rows[..i], k)
      invariant forall p :: p in pairs <==> p.owed != 0 && p.owed == FirstOwed(rows[..i], KeyOf(p))
      invariant DistinctKeys(pairs)
    {
      var r := rows[i];
      var k := RowKey(r);
      assert rows[..i + 1] == rows[..i] + [r];
      AppendRow(rows[..i], r);
      if k !in seen {
        seen := seen + {k};
        if RowOwed(r) != 0 {
          pairs := pairs + [Pair(k.a, k.b, k.cur, RowOwed(r))];
        }
      }
    }
    assert rows[..|rows|] == rows;
    pairs := SortPairs(pairs);
  }

  lemma AppendRow(rows: seq<Row>, r: Row)
    ensures forall k :: HasRow(rows + [r], k) <==> HasRow(rows, k) || k == RowKey(r)
    ensures forall k :: FirstOwed(rows + [r], k)
                     == (if !HasRow(rows, k) && RowKey(r) == k then RowOwed(r) else FirstOwed(rows, k))
    ensures forall k :: !HasRow(rows, k) ==> FirstOwed(rows, k) == 0
  {
    forall k ensures HasRow(rows + [r], k) <==> HasRow(rows, k) || k == RowKey(r) {
      assert (rows + [r])[|rows|] == r;
      if HasRow(rows, k) {
        var i :| 0 <= i < |rows| && RowKey(rows[i]) == k;
        assert (rows + [r])[i] == rows[i];
      }
    }
    forall k
      ensures FirstOwed(rows + [r], k)
           == (if !HasRow(rows, k) && RowKey(r) == k then RowOwed(r) else FirstOwed(rows, k))
      ensures !HasRow(rows, k) ==> FirstOwed(rows, k) == 0
    {
      FirstOwedAppend(rows, r, k);
    }
  }

  lemma PairOrder()
    ensures Strict(PairBefore) && Strict(ShiftBefore)
  {
    KeyStrict();
  }

  method SortPairs(ps: seq<Pair>) returns (r: seq<Pair>)
    requires DistinctKeys(ps)
    ensures SortedBy(r, PairBefore) && forall p :: p in r <==> p in ps
  {
    r := Sort(ps, PairBefore);
    PairOrder();
    forall i, j | 0 <= i < j < |ps| ensures PairBefore(ps[i], ps[j]) || PairBefore(ps[j], ps[i]) {
      KeyTotal(KeyOf(ps[i]), KeyOf(ps[j]));
    }
    SortSorts(ps, PairBefore);
    Members(r, ps);
  }

  /** The folded list is the only one of its kind, whatever order a repeat of the fold works in. */
  lemma FoldUnique(ps: seq<Pair>, qs: seq<Pair>, rows: seq<Row>, rows': seq<Row>)
    requires Folds(ps, rows) && Folds(qs, rows')
    requires forall k :: FirstOwed(rows, k) == FirstOwed(rows', k)
    ensures ps == qs
  {
    PairOrder();
    SortedUnique(ps, qs, PairBefore);
  }

  lemma {:induction false} SortedOwed(ps: seq<Pair>, k: PairKey)
    requires SortedBy(ps, PairBefore)
    ensures forall p :: p in ps && KeyOf(p) == k ==> OwedIn(ps, k) == p.owed
    ensures (forall p :: p in ps ==> KeyOf(p) != k) ==> OwedIn(ps, k) == 0
  {
    if ps != [] {
      SortedOwed(ps[1..], k);
      forall p | p in ps[1..] ensures KeyOf(p) != KeyOf(ps[0]) {
        PairOrder();
        TailMembers(ps, p, PairBefore);
        var i :| 0 <= i < |ps[1..]| && ps[1..][i] == p;
        assert PairBefore(ps[0], ps[i + 1]);
        KeyTotal(KeyOf(p), KeyOf(p));
      }
      forall p | p in ps && KeyOf(p) == k ensures OwedIn(ps, k) == p.owed {
        if p != ps[0] { assert p in ps[1..]; }
      }
    }
  }

  /** The folded pairs carry exactly the balances the rows report. */
  lemma FoldedOwed(pairs: seq<Pair>, rows: seq<Row>, k: PairKey)
    requires Folds(pairs, rows)
    ensures OwedIn(pairs, k) == FirstOwed(rows, k)
  {
    SortedOwed(pairs, k);
    var v := FirstOwed(rows, k);
    if v != 0 {
      assert Pair(k.a, k.b, k.cur, v) in pairs;
    }
  }

  // ------------------------------------------------------------------- Nets

  type Nets = map<string, map<UserId, int>>

  function NetAt(nets: Nets, cur: string, u: UserId): int {
    if cur in nets then Value(nets[cur], u) else 0
  }

  method NetsOf(pairs: seq<Pair>) returns (nets: Nets)
    ensures forall cur, u :: NetAt(nets, cur, u) == NetIn(pairs, cur, u)
    ensures forall cur :: cur in nets ==> MapSum(nets[cur]) == 0
  {
    nets := map[];
    for i := 0 to |pairs|
      invariant forall cur, u :: NetAt(nets, cur, u) == NetIn(pairs[..i], cur, u)
      invariant forall cur :: cur in nets ==> MapSum(nets[cur]) == 0
    {
      var p := pairs[i];
      var m: map<UserId, int> := map[];
      if p.currency in nets {
        m := nets[p.currency];
      }
      AddPair(m, p.a, p.b, p.owed);
      m := m[p.a := Value(m, p.a) + p.owed];
      m := m[p.b := Value(m, p.b) - p.owed];
      nets := nets[p.currency := m];
      assert pairs[..i + 1] == pairs[..i] + [p];
      NetInAppend(pairs[..i], p);
    }
    assert pairs[..|pairs|] == pairs;
  }

  lemma NetInAppend(ps: seq<Pair>, p: Pair)
    ensures forall cur, u :: NetIn(ps + [p], cur, u) == NetIn(ps, cur, u) + NetOfPair(p, cur, u)
  {
    forall cur, u ensures NetIn(ps + [p], cur, u) == NetIn(ps, cur, u) + NetOfPair(p, cur, u) {
      NetInConcat(ps, [p], cur, u);
    }
  }

  lemma AddPair(m: map<UserId, int>, a: UserId, b: UserId, owed: int)
    ensures var m1 := m[a := Value(m, a) + owed];
      MapSum(m1[b := Value(m1, b) - owed]) == MapSum(m)
  {
    var m1 := m[a := Value(m, a) + owed];
    TotalUpdate(m, a, Value(m, a) + owed, Same());
    TotalUpdate(m1, b, Value(m1, b) - owed, Same());
  }

  /** Everyone's net is zero in every currency. */
  ghost predicate NothingOwed(pairs: seq<Pair>) {
    forall cur, u :: NetIn(pairs, cur, u) == 0
  }

  /** True exactly when there is something to clear although nobody owes anything in total. */
  method NeedsTidy(pairs: seq<Pair>) returns (r: bool)
    ensures r <==> pairs != [] && NothingOwed(pairs)
  {
    if |pairs| == 0 {
      return false;
    }
    var nets := NetsOf(pairs);
    var curs := nets.Keys;
    while curs != {}
      invariant curs <= nets.Keys
      invariant forall cur, u :: cur in nets && cur !in curs ==> NetAt(nets, cur, u) == 0
    {
      var cur := NextKey(curs);
      curs := curs - {cur};
      var us := nets[cur].Keys;
      while us != {}
        invariant us <= nets[cur].Keys
        invariant forall u :: u in nets[cur] && u !in us ==> nets[cur][u] == 0
      {
        var u := NextKey(us);
        us := us - {u};
        if nets[cur][u] != 0 {
          assert NetIn(pairs, cur, u) == NetAt(nets, cur, u) != 0;
          return false;
        }
      }
    }
    forall cur, u ensures NetIn(pairs, cur, u) == 0 {
      assert NetAt(nets, cur, u) == NetIn(pairs, cur, u);
    }
    return true;
  }

  // ----------------------------------------------------------------- target

  ghost function CreditorsOf(pairs: seq<Pair>, cur: string): set<Node> {
    set u | u in People(pairs) && NetIn(pairs, cur, u) > 0 :: Node(u, NetIn(pairs, cur, u))
  }

  ghost function DebtorsOf(pairs: seq<Pair>, cur: string): set<Node> {
    set u | u in People(pairs) && NetIn(pairs, cur, u) < 0 :: Node(u, -NetIn(pairs, cur, u))
  }

  /** The simplified debts of one currency. */
  ghost function PlanOf(pairs: seq<Pair>, cur: string): seq<Transfer> {
    Plan(CreditorsOf(pairs, cur), DebtorsOf(pairs, cur))
  }

  /** A debt from t.from to t.to in pair terms. */
  function TransferPair(t: Transfer, cur: string): Pair {
    if t.to > t.from then Pair(t.from, t.to, cur, -t.amount) else Pair(t.to, t.from, cur, t.amount)
  }

  function TransferPairs(ts: seq<Transfer>, cur: string): seq<Pair> {
    if ts == [] then [] else [TransferPair(ts[0], cur)] + TransferPairs(ts[1..], cur)
  }

  /** The pair balance the simplified debts give k. */
  ghost function Target(pairs: seq<Pair>, k: PairKey): int {
    OwedIn(TransferPairs(PlanOf(pairs, k.cur), k.cur), k)
  }

  lemma {:induction false} NetOutside(pairs: seq<Pair>, cur: string, u: UserId)
    requires u !in People(pairs)
    ensures NetIn(pairs, cur, u) == 0
  {
    if pairs != [] { NetOutside(pairs[1..], cur, u); }
  }

  /** The plan depends on the nets alone. */
  lemma PlanByNets(ps: seq<Pair>, qs: seq<Pair>, cur: string)
    requires forall u :: NetIn(ps, cur, u) == NetIn(qs, cur, u)
    ensures PlanOf(ps, cur) == PlanOf(qs, cur)
  {
    forall u | NetIn(ps, cur, u) != 0 ensures u in People(ps) && u in People(qs) {
      if u !in People(ps) { NetOutside(ps, cur, u); }
      if u !in People(qs) { NetOutside(qs, cur, u); }
    }
    assert CreditorsOf(ps, cur) == CreditorsOf(qs, cur);
    assert DebtorsOf(ps, cur) == DebtorsOf(qs, cur);
  }

  lemma PlanFromNets(net: map<UserId, int>, pairs: seq<Pair>, cur: string)
    requires forall u :: Value(net, u) == NetIn(pairs, cur, u)
    ensures SimplifyOf(net) == PlanOf(pairs, cur)
  {
    forall u | NetIn(pairs, cur, u) != 0 ensures u in People(pairs) {
      if u !in People(pairs) { NetOutside(pairs, cur, u); }
    }
    forall x ensures x in CreditorsOf(pairs, cur) <==> x in CreditorSet(net) {
      assert Value(net, x.id) == NetIn(pairs, cur, x.id);
    }
    forall x ensures x in DebtorsOf(pairs, cur) <==> x in DebtorSet(net) {
      assert Value(net, x.id) == NetIn(pairs, cur, x.id);
    }
    assert CreditorsOf(pairs, cur) == CreditorSet(net);
    assert DebtorsOf(pairs, cur) == DebtorSet(net);
  }

  lemma NoNetsNoPlan(pairs: seq<Pair>, cur: string)
    requires forall u :: NetIn(pairs, cur, u) == 0
    ensures PlanOf(pairs, cur) == []
  {
    var cs := Ordered(CreditorsOf(pairs, cur));
    assert forall i :: 0 <= i < |cs| ==> cs[i] in CreditorsOf(pairs, cur);
  }

  method TransfersOf(nets: Nets, cur: string, ghost pairs: seq<Pair>) returns (ts: seq<Transfer>)
    requires cur in nets
    requires forall u :: NetAt(nets, cur, u) == NetIn(pairs, cur, u)
    ensures ts == PlanOf(pairs, cur)
    ensures forall i :: 0 <= i < |ts| ==> ts[i].from != ts[i].to
  {
    ts := SettleNets(nets[cur]);
    PlanShape(nets[cur]);
    forall u ensures Value(nets[cur], u) == NetIn(pairs, cur, u) {
      assert NetAt(nets, cur, u) == NetIn(pairs, cur, u);
    }
    PlanFromNets(nets[cur], pairs, cur);
  }

  // ----------------------------------------------------------------- Rewire

  /** What a shift does to the balance of its pair. */
  function ShiftPair(s: Shift): Pair {
    if s.payer < s.other then Pair(s.payer, s.other, s.currency, s.amount)
    else Pair(s.other, s.payer, s.currency, -s.amount)
  }

  function ShiftPairs(ss: seq<Shift>): (r: seq<Pair>)
    ensures |r| == |ss|
  {
    if ss == [] then [] else [ShiftPair(ss[0])] + ShiftPairs(ss[1..])
  }

  ghost function Gap(pairs: seq<Pair>, k: PairKey): int {
    Target(pairs, k) - OwedIn(pairs, k)
  }

  /** One positive shift for every pair off its target, and no other, in key order. */
  ghost predicate Rewires(ss: seq<Shift>, pairs: seq<Pair>) {
    && SortedBy(ss, ShiftBefore)
    && forall s :: s in ss <==> s.amount > 0 && ShiftPair(s).owed == Gap(pairs, ShiftKey(s))
  }

  type Diff = map<PairKey, int>

  function DiffAt(d: Diff, k: PairKey): int {
    if k in d then d[k] else 0
  }

  method Shifts(pairs: seq<Pair>) returns (ss: seq<Shift>)
    requires Oriented(pairs)
    ensures Rewires(ss, pairs)
  {
    var diff: Diff := map[];
    for i := 0 to |pairs|
      invariant forall k :: DiffAt(diff, k) == -OwedIn(pairs[..i], k)
      invariant forall k :: k in diff ==> k.a < k.b
    {
      var k := KeyOf(pairs[i]);
      diff := diff[k := DiffAt(diff, k) - pairs[i].owed];
      assert pairs[..i + 1] == pairs[..i] + [pairs[i]];
      OwedInAppend(pairs[..i], pairs[i]);
    }
    assert pairs[..|pairs|] == pairs;
    assert Reached(diff, pairs, {});
    diff := AddTargets(pairs, diff);
    ss := EmitShifts(pairs, diff);
  }

  function OneOwed(p: Pair, k: PairKey): int {
    if KeyOf(p) == k then p.owed else 0
  }

  lemma OwedInAppend(ps: seq<Pair>, p: Pair)
    ensures forall k :: OwedIn(ps + [p], k) == OwedIn(ps, k) + OneOwed(p, k)
  {
    forall k ensures OwedIn(ps + [p], k) == OwedIn(ps, k) + OneOwed(p, k) {
      OwedInConcat(ps, [p], k);
      assert [p][1..] == [];
    }
  }

  /** The target for the currencies already added, minus the current balance. */
  ghost predicate Reached(diff: Diff, pairs: seq<Pair>, added: set<string>) {
    && (forall k :: k in diff ==> k.a < k.b)
    && forall k :: DiffAt(diff, k) == (if k.cur in added then Target(pairs, k) else 0) - OwedIn(pairs, k)
  }

  method AddTargets(pairs: seq<Pair>, diff0: Diff) returns (diff: Diff)
    requires Reached(diff0, pairs, {})
    ensures forall k :: DiffAt(diff, k) == Gap(pairs, k)
    ensures forall k :: k in diff ==> k.a < k.b
  {
    diff := diff0;
    var nets := NetsOf(pairs);
    var curs := nets.Keys;
    while curs != {}
      invariant curs <= nets.Keys
      invariant Reached(diff, pairs, nets.Keys - curs)
    {
      var cur := NextKey(curs);
      var ts := TransfersOf(nets, cur, pairs);
      var more := AddTransfers(ts, cur, diff);
      ReachedStep(diff, more, pairs, cur, nets.Keys - curs);
      curs := curs - {cur};
      assert nets.Keys - curs == nets.Keys - (curs + {cur}) + {cur};
      diff := more;
    }
    assert nets.Keys - curs == nets.Keys;
    ReachedAll(diff, pairs, nets);
  }

  lemma ReachedAll(diff: Diff, pairs: seq<Pair>, nets: Nets)
    requires Reached(diff, pairs, nets.Keys)
    requires forall cur, u :: NetAt(nets, cur, u) == NetIn(pairs, cur, u)
    ensures forall k :: DiffAt(diff, k) == Gap(pairs, k)
    ensures forall k :: k in diff ==> k.a < k.b
  {
    forall k ensures DiffAt(diff, k) == Gap(pairs, k) {
      if k.cur !in nets {
        forall u ensures NetIn(pairs, k.cur, u) == 0 {
          assert NetAt(nets, k.cur, u) == NetIn(pairs, k.cur, u);
        }
        NoNetsNoPlan(pairs, k.cur);
      }
    }
  }

  lemma ReachedStep(diff: Diff, more: Diff, pairs: seq<Pair>, cur: string, added: set<string>)
    requires Reached(diff, pairs, added) && cur !in added
    requires forall k :: k in more ==> k.a < k.b
    requires forall k :: DiffAt(more, k) == DiffAt(diff, k) + OwedIn(TransferPairs(PlanOf(pairs, cur), cur), k)
    ensures Reached(more, pairs, added + {cur})
  {
    forall k
      ensures DiffAt(more, k) == (if k.cur in added + {cur} then Target(pairs, k) else 0) - OwedIn(pairs, k)
    {
      if k.cur != cur { OtherCurrency(PlanOf(pairs, cur), cur, k); }
    }
  }

  lemma {:induction false} OtherCurrency(ts: seq<Transfer>, cur: string, k: PairKey)
    requires k.cur != cur
    ensures OwedIn(TransferPairs(ts, cur), k) == 0
  {
    if ts != [] {
      OtherCurrency(ts[1..], cur, k);
      assert TransferPairs(ts, cur)[1..] == TransferPairs(ts[1..], cur);
    }
  }

  method AddTransfers(ts: seq<Transfer>, cur: string, diff0: Diff) returns (diff: Diff)
    requires forall i :: 0 <= i < |ts| ==> ts[i].from != ts[i].to
    requires forall k :: k in diff0 ==> k.a < k.b
    ensures forall k :: DiffAt(diff, k) == DiffAt(diff0, k) + OwedIn(TransferPairs(ts, cur), k)
    ensures forall k :: k in diff ==> k.a < k.b
  {
    diff := diff0;
    for i := 0 to |ts|
      invariant forall k :: DiffAt(diff, k) == DiffAt(diff0, k) + OwedIn(TransferPairs(ts[..i], cur), k)
      invariant forall k :: k in diff ==> k.a < k.b
    {
      var t := ts[i];
      var a, b, owed := t.to, t.from, t.amount;
      if a > b {
        a, b, owed := b, a, -owed;
      }
      var k := PairKey(cur, a, b);
      diff := diff[k := DiffAt(diff, k) + owed];
      assert ts[..i + 1] == ts[..i] + [t];
      TransferPairsAppend(ts[..i], t, cur);
      OwedInAppend(TransferPairs(ts[..i], cur), TransferPair(t, cur));
    }
    assert ts[..|ts|] == ts;
  }

  lemma {:induction false} TransferPairsAppend(ts: seq<Transfer>, t: Transfer, cur: string)
    ensures TransferPairs(ts + [t], cur) == TransferPairs(ts, cur) + [TransferPair(t, cur)]
  {
    if ts != [] {
      TransferPairsAppend(ts[1..], t, cur);
      assert (ts + [t])[1..] == ts[1..] + [t];
    } else {
      assert TransferPairs([t][1..], cur) == [];
    }
  }

  /** The one shift that moves k by d. */
  function ShiftFor(k: PairKey, d: int): Shift {
    if d > 0 then Shift(k.a, k.b, k.cur, d) else Shift(k.b, k.a, k.cur, -d)
  }

  lemma ShiftForUnique(k: PairKey, d: int, s: Shift)
    requires k.a < k.b && d != 0
    ensures s == ShiftFor(k, d) <==> s.amount > 0 && ShiftKey(s) == k && ShiftPair(s).owed == d
  {
  }

  /** The shifts for the given keys, one each. */
  ghost predicate Emitted(ss: seq<Shift>, diff: Diff, keys: set<PairKey>) {
    && (forall s :: s in ss <==> s.amount > 0 && ShiftKey(s) in keys && ShiftPair(s).owed == DiffAt(diff, ShiftKey(s)))
    && (forall i, j :: 0 <= i < j < |ss| ==> ShiftKey(ss[i]) != ShiftKey(ss[j]))
  }

  method EmitShifts(ghost pairs: seq<Pair>, diff: Diff) returns (ss: seq<Shift>)
    requires forall k :: DiffAt(diff, k) == Gap(pairs, k)
    requires forall k :: k in diff ==> k.a < k.b
    ensures Rewires(ss, pairs)
  {
    ss := [];
    var keys := diff.Keys;
    ghost var done: set<PairKey> := {};
    while keys != {}
      invariant done !! keys && done + keys == diff.Keys
      invariant Emitted(ss, diff, done)
    {
      var k := NextKey(keys);
      var d := diff[k];
      EmitStep(ss, diff, done, k);
      if d > 0 {
        ss := ss + [Shift(k.a, k.b, k.cur, d)];
      } else if d < 0 {
        ss := ss + [Shift(k.b, k.a, k.cur, -d)];
      }
      keys := keys - {k};
      done := done + {k};
    }
    assert done == diff.Keys;
    ghost var emitted := ss;
    ss := SortShifts(ss);
    EmittedAll(emitted, ss, diff, pairs);
  }

  lemma EmittedAll(emitted: seq<Shift>, ss: seq<Shift>, diff: Diff, pairs: seq<Pair>)
    requires Emitted(emitted, diff, diff.Keys) && forall k :: DiffAt(diff, k) == Gap(pairs, k)
    requires SortedBy(ss, ShiftBefore) && forall s :: s in ss <==> s in emitted
    ensures Rewires(ss, pairs)
  {
    forall s ensures s in ss <==> s.amount > 0 && ShiftPair(s).owed == Gap(pairs, ShiftKey(s)) {
      assert DiffAt(diff, ShiftKey(s)) == Gap(pairs, ShiftKey(s));
    }
  }

  lemma EmitStep(ss: seq<Shift>, diff: Diff, emitted: set<PairKey>, k: PairKey)
    requires Emitted(ss, diff, emitted) && k in diff && k !in emitted && k.a < k.b
    ensures Emitted(if diff[k] == 0 then ss else ss + [ShiftFor(k, diff[k])], diff, emitted + {k})
  {
    var d := diff[k];
    var out := if d == 0 then ss else ss + [ShiftFor(k, d)];
    forall s
      ensures s in out <==>
        s.amount > 0 && ShiftKey(s) in emitted + {k} && ShiftPair(s).owed == DiffAt(diff, ShiftKey(s))
    {
      assert s in out <==> s in ss || (d != 0 && s == ShiftFor(k, d));
      if d != 0 { ShiftForUnique(k, d, s); }
      if s in ss {
        assert ShiftKey(s) in emitted;
      }
    }
    forall i | 0 <= i < |ss| ensures ShiftKey(ss[i]) != k {
      assert ss[i] in ss;
    }
    if d != 0 { ShiftForUnique(k, d, ShiftFor(k, d)); }
  }

  method SortShifts(out: seq<Shift>) returns (ss: seq<Shift>)
    requires forall i, j :: 0 <= i < j < |out| ==> ShiftKey(out[i]) != ShiftKey(out[j])
    ensures SortedBy(ss, ShiftBefore) && forall s :: s in ss <==> s in out
  {
    ss := Sort(out, ShiftBefore);
    PairOrder();
    forall i, j | 0 <= i < j < |out| ensures ShiftBefore(out[i], out[j]) || ShiftBefore(out[j], out[i]) {
      KeyTotal(ShiftKey(out[i]), ShiftKey(out[j]));
    }
    SortSorts(out, ShiftBefore);
    Members(ss, out);
  }
}
