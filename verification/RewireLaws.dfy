/** What applying the shifts does: the pairs become the simplified debts, nobody's net moves,
    and a second pass has nothing to do. */
module RewireLaws {
  import opened Sums
  import opened Sorting
  import opened Simplify
  import opened Pairs
  import opened Rewire

  // ------------------------------------------------- pairs sum to nothing

  function NetOver(us: set<UserId>, ps: seq<Pair>, cur: string): map<UserId, int> {
    map u | u in us :: NetIn(ps, cur, u)
  }

  /** Every pair adds and subtracts the same amount, so a currency's nets sum to zero. */
  lemma {:induction false} NetsSumToZero(us: set<UserId>, ps: seq<Pair>, cur: string)
    requires People(ps) <= us
    ensures MapSum(NetOver(us, ps, cur)) == 0
  {
    if ps == [] {
      ZeroTotal(NetOver(us, ps, cur), Same());
    } else {
      var p := ps[0];
      var m := NetOver(us, ps[1..], cur);
      NetsSumToZero(us, ps[1..], cur);
      if p.currency == cur {
        AddPair(m, p.a, p.b, p.owed);
        NetOverStep(us, ps, cur);
      } else {
        assert NetOver(us, ps, cur) == m;
      }
    }
  }

  lemma NetOverStep(us: set<UserId>, ps: seq<Pair>, cur: string)
    requires ps != [] && People(ps) <= us && ps[0].currency == cur
    ensures var m := NetOver(us, ps[1..], cur);
      var m1 := m[ps[0].a := Value(m, ps[0].a) + ps[0].owed];
      NetOver(us, ps, cur) == m1[ps[0].b := Value(m1, ps[0].b) - ps[0].owed]
  {
    var rest := ps[1..];
    assert forall u :: NetIn(ps, cur, u) == NetOfPair(ps[0], cur, u) + NetIn(rest, cur, u);
  }

  /** The plan is Simplify's answer to the nets of the pairs. */
  lemma PlanIsSimplify(ps: seq<Pair>, cur: string)
    ensures SimplifyOf(NetOver(People(ps), ps, cur)) == PlanOf(ps, cur)
    ensures forall u :: Value(NetOver(People(ps), ps, cur), u) == NetIn(ps, cur, u)
  {
    forall u ensures Value(NetOver(People(ps), ps, cur), u) == NetIn(ps, cur, u) {
      if u !in People(ps) { NetOutside(ps, cur, u); }
    }
    PlanFromNets(NetOver(People(ps), ps, cur), ps, cur);
  }

  // ------------------------------------------------------- the plan's nets

  lemma {:induction false} TransferNets(ts: seq<Transfer>, cur: string, u: UserId)
    ensures NetIn(TransferPairs(ts, cur), cur, u) == Received(ts, u) - Paid(ts, u)
  {
    if ts != [] {
      TransferNets(ts[1..], cur, u);
      assert TransferPairs(ts, cur)[1..] == TransferPairs(ts[1..], cur);
    }
  }

  /** The simplified debts leave everyone with the net they had. */
  lemma PlanKeepsNets(ps: seq<Pair>, cur: string, u: UserId)
    ensures NetIn(TransferPairs(PlanOf(ps, cur), cur), cur, u) == NetIn(ps, cur, u)
  {
    var net := NetOver(People(ps), ps, cur);
    PlanIsSimplify(ps, cur);
    NetsSumToZero(People(ps), ps, cur);
    SettlesZeroSum(net, u);
    TransferNets(PlanOf(ps, cur), cur, u);
  }

  // --------------------------------------------------- the shifts hit target

  lemma {:induction false} OrientedOwed(ps: seq<Pair>, k: PairKey)
    requires Oriented(ps) && k.a >= k.b
    ensures OwedIn(ps, k) == 0
  {
    if ps != [] { OrientedOwed(ps[1..], k); }
  }

  lemma {:induction false} TransferPairsOriented(ts: seq<Transfer>, cur: string)
    requires forall i :: 0 <= i < |ts| ==> ts[i].from != ts[i].to
    ensures Oriented(TransferPairs(ts, cur))
  {
    if ts != [] { TransferPairsOriented(ts[1..], cur); }
  }

  /** Only pairs of two different people, lower id first, can be off target. */
  lemma GapOriented(ps: seq<Pair>, k: PairKey)
    requires Oriented(ps) && k.a >= k.b
    ensures Gap(ps, k) == 0
  {
    OrientedOwed(ps, k);
    PlanIsSimplify(ps, k.cur);
    PlanShape(NetOver(People(ps), ps, k.cur));
    TransferPairsOriented(PlanOf(ps, k.cur), k.cur);
    OrientedOwed(TransferPairs(PlanOf(ps, k.cur), k.cur), k);
  }

  lemma ShiftEnds(ss: seq<Shift>, ps: seq<Pair>)
    requires Rewires(ss, ps) && Oriented(ps)
    ensures forall i :: 0 <= i < |ss| ==> ss[i].payer != ss[i].other && ss[i].amount > 0
  {
    forall i | 0 <= i < |ss| ensures ss[i].payer != ss[i].other && ss[i].amount > 0 {
      assert ss[i] in ss;
      if ss[i].payer == ss[i].other { GapOriented(ps, ShiftKey(ss[i])); }
    }
  }

  lemma {:induction false} ShiftPairsAt(ss: seq<Shift>)
    ensures forall i :: 0 <= i < |ss| ==> ShiftPairs(ss)[i] == ShiftPair(ss[i])
  {
    if ss != [] {
      ShiftPairsAt(ss[1..]);
      forall i | 0 <= i < |ss| ensures ShiftPairs(ss)[i] == ShiftPair(ss[i]) {
        if i > 0 { assert ShiftPairs(ss[1..])[i - 1] == ShiftPair(ss[1..][i - 1]); }
      }
    }
  }

  lemma ShiftPairsIn(ss: seq<Shift>)
    ensures forall p :: p in ShiftPairs(ss) ==> exists s :: s in ss && ShiftPair(s) == p
    ensures forall s :: s in ss ==> ShiftPair(s) in ShiftPairs(ss)
  {
    ShiftPairsAt(ss);
    forall s | s in ss ensures ShiftPair(s) in ShiftPairs(ss) {
      var i :| 0 <= i < |ss| && ss[i] == s;
      assert ShiftPairs(ss)[i] == ShiftPair(s);
    }
    forall p | p in ShiftPairs(ss) ensures exists s :: s in ss && ShiftPair(s) == p {
      var i :| 0 <= i < |ss| && ShiftPairs(ss)[i] == p;
      assert ss[i] in ss;
    }
  }

  lemma ShiftPairKey(s: Shift)
    requires s.payer != s.other
    ensures KeyOf(ShiftPair(s)) == ShiftKey(s)
  {
  }

  lemma ShiftPairsSorted(ss: seq<Shift>)
    requires SortedBy(ss, ShiftBefore)
    requires forall i :: 0 <= i < |ss| ==> ss[i].payer != ss[i].other
    ensures SortedBy(ShiftPairs(ss), PairBefore)
  {
    var sp := ShiftPairs(ss);
    ShiftPairsAt(ss);
    forall i | 0 <= i < |ss| ensures KeyOf(sp[i]) == ShiftKey(ss[i]) {
      ShiftPairKey(ss[i]);
    }
    assert forall i, j :: 0 <= i < j < |sp| ==> ShiftBefore(ss[i], ss[j]) && PairBefore(sp[i], sp[j]);
  }

  /** Recording the shifts moves every pair by exactly what it was off. */
  lemma ShiftsCloseGap(ss: seq<Shift>, ps: seq<Pair>, k: PairKey)
    requires Rewires(ss, ps) && Oriented(ps)
    ensures OwedIn(ShiftPairs(ss), k) == Gap(ps, k)
  {
    ShiftEnds(ss, ps);
    ShiftPairsSorted(ss);
    SortedOwed(ShiftPairs(ss), k);
    ShiftPairsIn(ss);
    if k.a >= k.b { GapOriented(ps, k); }
    if Gap(ps, k) != 0 {
      GapHasShift(ss, ps, k);
    } else {
      forall p | p in ShiftPairs(ss) ensures KeyOf(p) != k {
        NoShiftWithoutGap(ss, ps, k, p);
      }
    }
  }

  lemma GapHasShift(ss: seq<Shift>, ps: seq<Pair>, k: PairKey)
    requires Rewires(ss, ps) && k.a < k.b && Gap(ps, k) != 0
    ensures Pair(k.a, k.b, k.cur, Gap(ps, k)) in ShiftPairs(ss)
  {
    var s := ShiftFor(k, Gap(ps, k));
    ShiftForUnique(k, Gap(ps, k), s);
    assert s in ss;
    ShiftPairsIn(ss);
  }

  lemma NoShiftWithoutGap(ss: seq<Shift>, ps: seq<Pair>, k: PairKey, p: Pair)
    requires Rewires(ss, ps) && Gap(ps, k) == 0 && p in ShiftPairs(ss)
    requires forall i :: 0 <= i < |ss| ==> ss[i].payer != ss[i].other
    ensures KeyOf(p) != k
  {
    ShiftPairsIn(ss);
    var s :| s in ss && ShiftPair(s) == p;
    ShiftPairKey(s);
  }

  /** After the shifts every pair holds exactly its simplified debt. */
  lemma RewireReachesTarget(ss: seq<Shift>, ps: seq<Pair>, k: PairKey)
    requires Rewires(ss, ps) && Oriented(ps)
    ensures OwedIn(ps + ShiftPairs(ss), k) == Target(ps, k)
  {
    ShiftsCloseGap(ss, ps, k);
    OwedInConcat(ps, ShiftPairs(ss), k);
  }

  /** Each person's shifts sum to zero in every currency. */
  lemma RewireKeepsNets(ss: seq<Shift>, ps: seq<Pair>, cur: string, u: UserId)
    requires Rewires(ss, ps) && Oriented(ps)
    ensures NetIn(ShiftPairs(ss), cur, u) == 0
  {
    var debts := TransferPairs(PlanOf(ps, cur), cur);
    forall k: PairKey | k.cur == cur ensures OwedIn(ps + ShiftPairs(ss), k) == OwedIn(debts, k) {
      RewireReachesTarget(ss, ps, k);
    }
    SamePairsSameNet(ps + ShiftPairs(ss), debts, cur, u);
    NetInConcat(ps, ShiftPairs(ss), cur, u);
    PlanKeepsNets(ps, cur, u);
  }

  /** Pairs that already are the simplified debts of ps need no shift. */
  lemma RewireIdempotent(ps: seq<Pair>, after: seq<Pair>, again: seq<Shift>)
    requires Oriented(after)
    requires forall k :: OwedIn(after, k) == Target(ps, k)
    requires Rewires(again, after)
    ensures again == []
  {
    if again != [] {
      var k := ShiftKey(again[0]);
      ShiftEnds(again, after);
      assert again[0] in again;
      forall u ensures NetIn(after, k.cur, u) == NetIn(ps, k.cur, u) {
        SamePairsSameNet(after, TransferPairs(PlanOf(ps, k.cur), k.cur), k.cur, u);
        PlanKeepsNets(ps, k.cur, u);
      }
      PlanByNets(after, ps, k.cur);
    }
  }

  /** The shift list does not depend on the order any map was walked in. */
  lemma RewireDeterministic(ss: seq<Shift>, tt: seq<Shift>, ps: seq<Pair>)
    requires Rewires(ss, ps) && Rewires(tt, ps)
    ensures ss == tt
  {
    PairOrder();
    SortedUnique(ss, tt, ShiftBefore);
  }

  /** When everyone's net is zero the target of every pair is zero. */
  lemma SettledTarget(ps: seq<Pair>, k: PairKey)
    requires forall u :: NetIn(ps, k.cur, u) == 0
    ensures Target(ps, k) == 0
  {
    NoNetsNoPlan(ps, k.cur);
  }

  // ------------------------------------------------------------- the order

  /** By currency, then the lower id, then the higher one. */
  predicate Earlier(c: string, lo: UserId, hi: UserId, d: string, lo2: UserId, hi2: UserId) {
    StrLess(c, d) || (c == d && (lo < lo2 || (lo == lo2 && hi < hi2)))
  }

  /** Folded pairs come by currency and people, no two alike. */
  lemma PairsInOrder(ps: seq<Pair>, rows: seq<Row>, i: nat, j: nat)
    requires Folds(ps, rows) && i < j < |ps|
    ensures Earlier(ps[i].currency, ps[i].a, ps[i].b, ps[j].currency, ps[j].a, ps[j].b)
  {
    assert PairBefore(ps[i], ps[j]);
  }

  /** And so do the shifts. */
  lemma ShiftsInOrder(ss: seq<Shift>, ps: seq<Pair>, i: nat, j: nat)
    requires Rewires(ss, ps) && i < j < |ss|
    ensures var x, y := ss[i], ss[j];
      Earlier(x.currency, if x.payer < x.other then x.payer else x.other, if x.payer < x.other then x.other else x.payer,
              y.currency, if y.payer < y.other then y.payer else y.other, if y.payer < y.other then y.other else y.payer)
  {
    assert ShiftBefore(ss[i], ss[j]);
  }
}
