/** The ledger service: the guarded transitions over the store, each followed by the netting
    pass where the service runs one. */
module Service {
  import opened Text
  import opened Sorting
  import opened Simplify
  import opened Pairs
  import opened Rewire
  import opened RewireLaws
  import opened Ledger
  import opened Writes
  import opened Netting
  import opened SettleUp
  import opened Archive
  import opened Collapsing
  import opened Stale
  import opened Runs
  import opened Access
  import opened Effects
  import opened Edits
  import Store
  import opened Shuffle
  import opened Split
  import Compute

  /** The date of netting entries: today when none is given. */
  function NetDate(date: string, today: string): string {
    if date == "" then today else date
  }

  // ------------------------------------------------------- what hooks leave

  /** after is db with one netting pass over g. */
  ghost predicate Renetted(db: Db, after: Db, g: GroupId, date: string) {
    exists ss, rows, pairs :: Planned(ss, db, g, rows, pairs) && CreateAll(db, NettingEntries(ss, g, date)) == Success(after)
  }

  /** The pass that follows a settlement: only where the group simplifies its debts. */
  ghost predicate Hooked(db: Db, after: Db, g: Option<GroupId>, date: string) {
    if g.Some? && g.value in db.groups && db.groups[g.value] then Renetted(db, after, g.value, date) else after == db
  }

  lemma RenettedKeeps(db: Db, after: Db, g: GroupId, date: string)
    requires ValidDb(db) && Renetted(db, after, g, date)
    ensures Forward(db, after) && after.groups == db.groups
    ensures forall sc, cur, u :: Net(after.expenses, sc, cur, u) == Net(db.expenses, sc, cur, u)
  {
    var ss, rows, pairs :| Planned(ss, db, g, rows, pairs) && CreateAll(db, NettingEntries(ss, g, date)) == Success(after);
    PlannedWritable(ss, db, g, rows, pairs);
    EntriesEffect(db, ss, NETTING, g, date, None, PairKey("", 0, 0), "", 0);
    forall sc, cur, u ensures Net(after.expenses, sc, cur, u) == Net(db.expenses, sc, cur, u) {
      NettingKeepsNets(db, db, ss, g, date, rows, pairs, sc, cur, u);
    }
  }

  /** A hook moves nobody's net. */
  lemma HookedKeeps(db: Db, after: Db, g: Option<GroupId>, date: string)
    requires ValidDb(db) && Hooked(db, after, g, date)
    ensures Forward(db, after) && after.groups == db.groups
    ensures forall sc, cur, u :: Net(after.expenses, sc, cur, u) == Net(db.expenses, sc, cur, u)
  {
    if after != db {
      RenettedKeeps(db, after, g.value, date);
    } else {
      assert Evolves(db, db);
    }
  }

  /** After a pass, a group with nothing owed has no open pair. */
  lemma RenettedClears(db: Db, after: Db, g: GroupId, date: string)
    requires ValidDb(db) && Renetted(db, after, g, date) && AllNetsZero(db, g)
    ensures AllPairsZero(after, g)
  {
    var ss, rows, pairs :| Planned(ss, db, g, rows, pairs) && CreateAll(db, NettingEntries(ss, g, date)) == Success(after);
    forall k ensures Owed(after.expenses, Some(g), k) == 0 {
      NettingClearsSettled(db, ss, g, date, rows, pairs, k);
    }
  }

  // --------------------------------------------------------- settle-up legs

  function Settlement(sender: UserId, receiver: UserId, amount: int, currency: string, g: Option<GroupId>, date: string): Expense {
    TwoRows(sender, receiver, amount, Upper(currency), SETTLEMENT, g, date)
  }

  predicate Payable(sender: UserId, receiver: UserId, amount: int) {
    amount > 0 && sender != receiver
  }

  /** The settlements recorded before the first transfer that cannot be, and whether all were. */
  function Recorded(db: Db, ts: seq<GroupTransfer>, g: GroupId, date: string): (Db, bool)
    decreases |ts|
  {
    if ts == [] then (db, true)
    else if !Payable(ts[0].from, ts[0].to, ts[0].amount) then (db, false)
    else
      Recorded(Writes.Insert(db, Settlement(ts[0].from, ts[0].to, ts[0].amount, ts[0].currency, Some(g), date)), ts[1..], g, date)
  }

  lemma SettlementAddable(sender: UserId, receiver: UserId, amount: int, currency: string, g: Option<GroupId>, date: string)
    requires sender != receiver
    ensures var e := Settlement(sender, receiver, amount, currency, g, date);
      Addable(e) && NoRepeat(e.parts)
  {
    UpperTwice(currency);
    var s := Shift(sender, receiver, Upper(currency), amount);
    TwoRowsEffect(Settlement(sender, receiver, amount, currency, g, date), s, None, PairKey("", 0, 0), "", 0);
  }

  lemma {:induction false} RecordedKeeps(db: Db, ts: seq<GroupTransfer>, g: GroupId, date: string)
    requires ValidDb(db)
    ensures Forward(db, Recorded(db, ts, g, date).0) && Recorded(db, ts, g, date).0.groups == db.groups
    decreases |ts|
  {
    if ts == [] || !Payable(ts[0].from, ts[0].to, ts[0].amount) {
      assert Evolves(db, db);
    } else {
      var e := Settlement(ts[0].from, ts[0].to, ts[0].amount, ts[0].currency, Some(g), date);
      SettlementAddable(ts[0].from, ts[0].to, ts[0].amount, ts[0].currency, Some(g), date);
      CreateKeeps(db, e);
      RecordedKeeps(Writes.Insert(db, e), ts[1..], g, date);
      EvolvesTransitive(db, Writes.Insert(db, e), Recorded(db, ts, g, date).0);
    }
  }

  /** Transfers as a settle-up computes them are all recorded. */
  lemma {:induction false} AllRecorded(db: Db, ts: seq<GroupTransfer>, g: GroupId, date: string)
    requires forall i :: 0 <= i < |ts| ==> Payable(ts[i].from, ts[i].to, ts[i].amount) && ts[i].currency == Upper(ts[i].currency)
    ensures Recorded(db, ts, g, date).1
    ensures CreateAll(db, Settlements(ts, g, date)) == Success(Recorded(db, ts, g, date).0)
    decreases |ts|
  {
    if ts != [] {
      var e := Settlement(ts[0].from, ts[0].to, ts[0].amount, ts[0].currency, Some(g), date);
      SettlementAddable(ts[0].from, ts[0].to, ts[0].amount, ts[0].currency, Some(g), date);
      assert AsShifts(ts)[1..] == AsShifts(ts[1..]);
      assert Settlements(ts, g, date)[1..] == Settlements(ts[1..], g, date);
      assert Settlements(ts, g, date)[0] == e;
      AllRecorded(Writes.Insert(db, e), ts[1..], g, date);
    }
  }

  /** The edit was let through, and made exactly if its token was current. */
  ghost predicate Saved(before: Db, after: Db, r: Result<(), ServiceError>, op: Op)
    requires op.Edit?
  {
    && Allowed(before, op) && after == Next(before, op)
    && (r.Success? <==> before.expenses[op.id].version == op.token)
    && (r.Failure? ==> r == Failure(Rejected(Stale)))
  }

  // -------------------------------------------------------------- the service

  class LedgerService {
    const store: Store.Store
    const access: Access

    constructor (store: Store.Store, access: Access)
      ensures this.store == store && this.access == access
    {
      this.store, this.access := store, access;
    }

    /** The group's simplified debts, currency by currency. */
    method GroupTransfers(g: GroupId) returns (ts: seq<GroupTransfer>, rows: seq<Row>, pairs: seq<Pair>)
      ensures IsView(rows, store.expenses, Some(g)) && Folds(pairs, rows) && Settles(ts, pairs)
    {
      rows := store.BalanceView(Some(g));
      pairs := PairsFromRows(rows);
      var nets := NetsOf(pairs);
      StrOrder();
      var currencies := SortedSet(nets.Keys, StrLess);
      ts := [];
      for i := 0 to |currencies|
        invariant TransfersListed(ts, pairs, currencies, i)
      {
        var c := currencies[i];
        assert c in currencies;
        var more := TransfersOf(nets, c, pairs);
        ListedStep(ts, pairs, currencies, i);
        ts := ts + Labeled(more, c);
      }
      ListedAll(ts, pairs, currencies, nets);
    }

    /** Reads, plans and writes in one transaction. */
    method NetGroup(g: GroupId, date: string, today: string, onlySettled: bool) returns (n: nat)
      requires ValidDb(store.State())
      modifies store
      ensures Forward(old(store.State()), store.State()) && store.groups == old(store.groups)
      ensures g in store.groups && !onlySettled ==> Renetted(old(store.State()), store.State(), g, NetDate(date, today))
      ensures NettedRows(old(store.State()), store.State(), g, if date == "" then today else date)
      ensures g in store.groups && onlySettled && old(AllNetsZero(store.State(), g)) ==> AllPairsZero(store.State(), g)
      ensures g !in store.groups || (onlySettled && !old(AllNetsZero(store.State(), g))) ==>
        n == 0 && store.State() == old(store.State())
      ensures NetsKept(old(store.State()), store.State())
    {
      ghost var before := store.State();
      assert Evolves(before, before);
      if g !in store.groups {
        return 0;
      }
      var rows := store.BalanceView(Some(g));
      var pairs := PairsFromRows(rows);
      if onlySettled {
        var tidy := CheckTidy(g, rows, pairs);
        if !tidy {
          return 0;
        }
      }
      n := WritePlan(g, NetDate(date, today), rows, pairs);
    }

    method CheckTidy(g: GroupId, ghost rows: seq<Row>, pairs: seq<Pair>) returns (tidy: bool)
      requires ValidDb(store.State()) && IsView(rows, store.expenses, Some(g)) && Folds(pairs, rows)
      ensures tidy ==> AllNetsZero(store.State(), g)
      ensures !tidy ==> AllPairsZero(store.State(), g) || !AllNetsZero(store.State(), g)
    {
      UntidyMeans(store.State(), g, rows, pairs);
      tidy := NeedsTidy(pairs);
    }

    method WritePlan(g: GroupId, date: string, ghost rows: seq<Row>, pairs: seq<Pair>) returns (n: nat)
      requires ValidDb(store.State()) && IsView(rows, store.expenses, Some(g)) && Folds(pairs, rows)
      modifies store
      ensures Forward(old(store.State()), store.State()) && store.groups == old(store.groups)
      ensures Renetted(old(store.State()), store.State(), g, date) && NettedRows(old(store.State()), store.State(), g, date)
      ensures old(AllNetsZero(store.State(), g)) ==> AllPairsZero(store.State(), g)
      ensures NetsKept(old(store.State()), store.State())
    {
      ViewPairs(rows, store.expenses, Some(g), pairs);
      var shifts := Shifts(pairs);
      PassEffect(store.State(), shifts, g, date, rows, pairs);
      var entries := Plan(shifts, g, date);
      var r := store.CreateMany(entries);
      n := r.value;
    }

    /** One planned two-row expense per shift. */
    method Plan(shifts: seq<Shift>, g: GroupId, date: string) returns (planned: seq<Expense>)
      ensures planned == NettingEntries(shifts, g, date)
    {
      planned := [];
      for i := 0 to |shifts|
        invariant planned + NettingEntries(shifts[i..], g, date) == NettingEntries(shifts, g, date)
      {
        var sh := shifts[i];
        assert shifts[i..][1..] == shifts[i + 1..];
        planned := planned + [TwoRows(sh.payer, sh.other, sh.amount, sh.currency, NETTING, Some(g), date)];
      }
    }

    method RenetIfSimplified(g: Option<GroupId>, date: string, today: string)
      requires ValidDb(store.State())
      modifies store
      ensures Hooked(old(store.State()), store.State(), g, NetDate(date, today))
      ensures Forward(old(store.State()), store.State()) && store.groups == old(store.groups)
    {
      assert Evolves(store.State(), store.State());
      if g.Some? && g.value in store.groups && store.groups[g.value] {
        var _ := NetGroup(g.value, date, today, false);
      }
    }

    /** Clears the leftover pairs of a group whose debts are all settled, and leaves any other
        group as it is. Members only. */
    method TidyGroup(g: GroupId, actor: UserId, today: string) returns (r: Result<nat, ServiceError>)
      requires ValidDb(store.State())
      modifies store
      ensures Forward(old(store.State()), store.State())
      ensures if access.member(g, actor) then r.Success? else r == Failure(NotGroupMember) && store.State() == old(store.State())
      ensures r.Success? && g in store.groups && old(AllNetsZero(store.State(), g)) ==> AllPairsZero(store.State(), g)
      ensures r.Success? && (g !in store.groups || !old(AllNetsZero(store.State(), g))) ==>
        r.value == 0 && store.State() == old(store.State())
      ensures NetsKept(old(store.State()), store.State())
    {
      assert Evolves(store.State(), store.State());
      if !access.member(g, actor) {
        return Failure(NotGroupMember);
      }
      var n := NetGroup(g, "", today, true);
      r := Success(n);
    }

    // ---------------------------------------------------------- settlements

    /** Records one settlement and nothing else. */
    method Record(sender: UserId, receiver: UserId, amount: int, currency: string, g: Option<GroupId>, date: string)
      returns (r: Result<Id, ServiceError>)
      requires ValidDb(store.State())
      modifies store
      ensures r.Success? <==> Payable(sender, receiver, amount)
      ensures r.Success? ==> (
        && r.value == old(store.next)
        && store.State() == Writes.Insert(old(store.State()), Settlement(sender, receiver, amount, currency, g, date)))
      ensures r.Failure? ==> store.State() == old(store.State())
      ensures amount <= 0 ==> r == Failure(SettlementAmount)
      ensures ValidDb(store.State()) && store.groups == old(store.groups)
    {
      if amount <= 0 {
        return Failure(SettlementAmount);
      }
      var e := TwoRows(sender, receiver, amount, Upper(currency), SETTLEMENT, g, date);
      RecordEffect(store.State(), sender, receiver, amount, currency, g, date);
      var created := store.CreateExpense(e);
      if created.Failure? {
        return Failure(Rejected(created.error));
      }
      r := Success(created.value);
    }

    /** A settlement, then the netting pass of its group. Outside a group both parties must be
        related to the actor. */
    method Settle(sender: UserId, receiver: UserId, amount: int, currency: string, g: Option<GroupId>, date: string, actor: UserId,
                  today: string)
      returns (r: Result<Id, ServiceError>)
      requires ValidDb(store.State())
      modifies store
      ensures r.Success? <==> Payable(sender, receiver, amount) && (g == None ==> AllRelated(access, actor, {sender, receiver}))
      ensures g == None && !AllRelated(access, actor, {sender, receiver}) ==> r == Failure(NotRelated)
      ensures r.Success? ==>
        Hooked(Writes.Insert(old(store.State()), Settlement(sender, receiver, amount, currency, g, date)), store.State(),
               g, NetDate(date, today))
      ensures r.Success? ==> PaymentMade(old(store.State()), store.State(), r.value, sender, receiver, amount, Upper(currency), g, date)
      ensures r.Failure? ==> store.State() == old(store.State())
      ensures ValidDb(store.State())
    {
      ghost var before := store.State();
      if g == None && !AllRelated(access, actor, {sender, receiver}) {
        return Failure(NotRelated);
      }
      r := Record(sender, receiver, amount, currency, g, date);
      if r.Success? {
        RenetIfSimplified(g, date, today);
        SettlementPays(before, store.State(), sender, receiver, amount, currency, g, date, NetDate(date, today));
      }
    }

    /** Records the transfers in order up to the first that cannot be recorded; when all are
        and there was any, the pairs of the group, if it exists, are rewired. */
    method SettleAll(ts: seq<GroupTransfer>, g: GroupId, date: string, today: string) returns (r: Result<nat, ServiceError>)
      requires ValidDb(store.State())
      modifies store
      ensures var (mid, all) := Recorded(old(store.State()), ts, g, date);
        && (if all then r == Success(|ts|) else r.Failure?)
        && (if all && ts != [] && g in mid.groups then Renetted(mid, store.State(), g, NetDate(date, today)) else store.State() == mid)
      ensures ValidDb(store.State())
    {
      ghost var start := store.State();
      for i := 0 to |ts|
        invariant ValidDb(store.State()) && store.groups == start.groups
        invariant Recorded(start, ts, g, date) == Recorded(store.State(), ts[i..], g, date)
      {
        var t := ts[i];
        assert ts[i..][1..] == ts[i + 1..];
        var one := Record(t.from, t.to, t.amount, t.currency, Some(g), date);
        if one.Failure? {
          return Failure(one.error);
        }
      }
      if |ts| > 0 {
        var _ := NetGroup(g, date, today, false);
      }
      r := Success(|ts|);
    }

    /** The settle-up of a whole group: transfers for the current balances, then all recorded.
        Everyone's net ends at zero, and every pair does unless the group had nothing to settle
        but open pairs to begin with. */
    method SettleGroup(g: GroupId, date: string, actor: UserId, today: string) returns (r: Result<nat, ServiceError>)
      requires ValidDb(store.State())
      modifies store
      ensures r.Success? <==> g in old(store.groups) && access.member(g, actor)
      ensures r.Failure? ==> (
        r == Failure(if g in old(store.groups) then Forbidden else NotFound) && store.State() == old(store.State()))
      ensures r.Success? ==> AllNetsZero(store.State(), g)
      ensures r.Success? ==>
        (AllPairsZero(store.State(), g) <==> !old(AllNetsZero(store.State(), g)) || old(AllPairsZero(store.State(), g)))
      ensures r.Success? && old(AllNetsZero(store.State(), g)) ==> r.value == 0 && store.State() == old(store.State())
      ensures r.Success? ==>
        SettledRows(old(store.State()), store.State(), r.value, g, date, if date == "" then today else date)
      ensures ValidDb(store.State())
    {
      if g !in store.groups {
        return Failure(NotFound);
      }
      if !access.member(g, actor) {
        return Failure(Forbidden);
      }
      ghost var before := store.State();
      var ts, rows, pairs := GroupTransfers(g);
      SettleGroupEffect(before, ts, g, date, rows, pairs);
      r := SettleAll(ts, g, date, today);
      AfterSettleAll(before, store.State(), ts, g, date, NetDate(date, today), rows, pairs);
    }

    // ------------------------------------------------------ edits and deletes

    method AddExpense(rng: Prng, input: ExpenseInput, actor: UserId) returns (r: Result<Id, ServiceError>)
      requires ValidDb(store.State())
      modifies store
      ensures var parts := ComputeOf(rng, input.split, input.total, input.paidBy, input.date, input.lines);
        if !PlaceAllowed(access, input.group, Affected(input), actor, actor)
        then r == Failure(PlaceError(input.group)) && store.State() == old(store.State())
        else if parts.Failure? then r == Failure(BadSplit(parts.error)) && store.State() == old(store.State())
        else
          && r == Success(old(store.next)) && store.State() == Writes.Insert(old(store.State()), NewExpense(input, parts.value))
          && Added(old(store.State()), store.State(), input, parts.value)
          && RowsFair(input.split, input.total, input.paidBy, input.lines, parts.value)
      ensures Forward(old(store.State()), store.State())
    {
      assert Evolves(store.State(), store.State());
      if !PlaceAllowed(access, input.group, Affected(input), actor, actor) {
        return Failure(PlaceError(input.group));
      }
      var parts := Compute.Compute(rng, input.split, input.total, input.paidBy, input.date, input.lines);
      if parts.Failure? {
        return Failure(BadSplit(parts.error));
      }
      NewExpenseAddable(rng, input, parts.value);
      CreateKeeps(store.State(), NewExpense(input, parts.value));
      AddMoves(store.State(), input, parts.value, Writes.Insert(store.State(), NewExpense(input, parts.value)));
      var created := store.CreateExpense(NewExpense(input, parts.value));
      r := Success(created.value);
    }

    method CheckMove(id: Id, input: ExpenseInput, actor: UserId, acknowledged: bool) returns (refusal: Option<ServiceError>)
      ensures refusal == MoveRefusal(access, store.expenses, id, input, actor, acknowledged)
    {
      if id !in store.expenses {
        return Some(NotFound);
      }
      var orig := store.expenses[id];
      if Immutable(orig) {
        return Some(ImmutableEntry);
      }
      if orig.split == SETTLEMENT {
        return Some(IsSettlement);
      }
      var viaAdmin := ViaAdmin(access, id, orig, actor);
      if !OfTransaction(access, id, orig, actor) && !viaAdmin {
        return Some(NotEditor);
      }
      if !CanMove(orig) {
        return Some(NotMovable);
      }
      if orig.group != input.group && !acknowledged {
        return Some(MoveNoAck);
      }
      var memberActor := if access.admin(actor) then input.paidBy else actor;
      var owner := if viaAdmin then input.paidBy else actor;
      if !PlaceAllowed(access, input.group, Affected(input), memberActor, owner) {
        return Some(PlaceError(input.group));
      }
      return None;
    }

    method CheckUpdate(id: Id, input: SettlementInput, actor: UserId, acknowledged: bool) returns (refusal: Option<ServiceError>)
      ensures refusal == UpdateRefusal(access, store.expenses, id, input, actor, acknowledged)
    {
      if id !in store.expenses {
        return Some(NotFound);
      }
      var orig := store.expenses[id];
      if Immutable(orig) {
        return Some(ImmutableEntry);
      }
      if orig.split != SETTLEMENT {
        return Some(NotSettlement);
      }
      if !MayEdit(access, id, orig, actor) {
        return Some(NotEditor);
      }
      if !CanMove(orig) {
        return Some(NotMovable);
      }
      if input.amount <= 0 {
        return Some(SettlementAmount);
      }
      var currency := Upper(if input.currency != "" then input.currency else orig.currency);
      if currency != orig.currency {
        return Some(SettlementCurrency);
      }
      if orig.group != input.group && !acknowledged {
        return Some(MoveNoAck);
      }
      var other := SettlementParties(orig);
      if other == None {
        return Some(BadSettlement);
      }
      if input.group.Some? && !AllMembers(access, input.group.value, PairAnd(access, orig.paidBy, other.value, actor)) {
        return Some(NotMember);
      }
      return None;
    }

    /** The person a settlement's payer paid, from its rows; id 0 stands for nobody. */
    method SettlementParties(e: Expense) returns (r: Option<UserId>)
      ensures r == OtherParty(e)
    {
      if |e.parts| != 2 {
        return None;
      }
      var payer, other := 0, 0;
      for i := 0 to |e.parts|
        invariant payer == if exists j :: 0 <= j < i && e.parts[j].user == e.paidBy then e.paidBy else 0
        invariant i == 0 ==> other == 0
        invariant i == 1 ==> other == if e.parts[0].user != e.paidBy then e.parts[0].user else 0
        invariant i == 2 ==> other == if e.parts[1].user != e.paidBy then e.parts[1].user
                                      else if e.parts[0].user != e.paidBy then e.parts[0].user else 0
      {
        if e.parts[i].user == e.paidBy {
          payer := e.paidBy;
        } else {
          other := e.parts[i].user;
        }
      }
      if payer == 0 || other == 0 {
        return None;
      }
      r := Some(other);
    }

    /** The guards in order, then the recomputed rows written over the same record if the token
        is still current. */
    method MoveExpense(rng: Prng, id: Id, input: ExpenseInput, actor: UserId, acknowledged: bool) returns (r: Result<(), ServiceError>)
      requires ValidDb(store.State())
      modifies store
      ensures var refusal := MoveRefusal(access, old(store.expenses), id, input, actor, acknowledged);
        var parts := ComputeOf(rng, input.split, input.total, input.paidBy, input.date, input.lines);
        if refusal.Some? then r == Failure(refusal.value) && store.State() == old(store.State())
        else if parts.Failure? then r == Failure(BadSplit(parts.error)) && store.State() == old(store.State())
        else
          && Saved(old(store.State()), store.State(), r, Edit(id, NewExpense(input, parts.value), input.version))
          && (r.Success? ==> Replaced(old(store.State()), store.State(), id, input, parts.value)
                             && RowsFair(input.split, input.total, input.paidBy, input.lines, parts.value))
      ensures Forward(old(store.State()), store.State())
    {
      assert Evolves(store.State(), store.State());
      var refusal := CheckMove(id, input, actor, acknowledged);
      if refusal.Some? {
        return Failure(refusal.value);
      }
      r := Recompute(rng, id, input);
    }

    /** The new split saved over a row that may be edited. */
    method Recompute(rng: Prng, id: Id, input: ExpenseInput) returns (r: Result<(), ServiceError>)
      requires ValidDb(store.State()) && id in store.expenses && CanMove(store.expenses[id])
      modifies store
      ensures var parts := ComputeOf(rng, input.split, input.total, input.paidBy, input.date, input.lines);
        if parts.Failure? then r == Failure(BadSplit(parts.error)) && store.State() == old(store.State())
        else
          && Saved(old(store.State()), store.State(), r, Edit(id, NewExpense(input, parts.value), input.version))
          && (r.Success? ==> Replaced(old(store.State()), store.State(), id, input, parts.value)
                             && RowsFair(input.split, input.total, input.paidBy, input.lines, parts.value))
      ensures Forward(old(store.State()), store.State())
    {
      assert Evolves(store.State(), store.State());
      var parts := Compute.Compute(rng, input.split, input.total, input.paidBy, input.date, input.lines);
      if parts.Failure? {
        return Failure(BadSplit(parts.error));
      }
      var e := NewExpense(input, parts.value);
      NewExpenseAddable(rng, input, parts.value);
      StepForward(store.State(), store.State(), Edit(id, e, input.version));
      ghost var before := store.State();
      r := Save(id, e, input.version);
      if r.Success? {
        MoveMoves(before, id, input, parts.value, input.version, store.State());
      }
    }

    method Save(id: Id, e: Expense, token: nat) returns (r: Result<(), ServiceError>)
      requires id in store.expenses && NoRepeat(e.parts)
      modifies store
      ensures store.State() == Next(old(store.State()), Edit(id, e, token))
      ensures r.Success? <==> old(store.expenses)[id].version == token
      ensures r.Failure? ==> r == Failure(Rejected(Stale))
      ensures store.groups == old(store.groups)
    {
      var written := store.UpdateExpense(id, e, token);
      r := if written.Success? then Success(()) else Failure(Rejected(written.error));
    }

    /** The same for a settlement, whose parties, direction and currency stay; both groups
        involved are rewired afterwards. */
    method UpdateSettlement(id: Id, input: SettlementInput, actor: UserId, acknowledged: bool, today: string) returns (r: Result<(), ServiceError>)
      requires ValidDb(store.State())
      modifies store
      ensures var refusal := UpdateRefusal(access, old(store.expenses), id, input, actor, acknowledged);
        if refusal.Some? then r == Failure(refusal.value) && store.State() == old(store.State())
        else
          var orig := old(store.expenses)[id];
          var e := EditedSettlement(orig, input);
          var op := Edit(id, e, input.version);
          && Allowed(old(store.State()), op)
          && (r.Success? <==> orig.version == input.version)
          && (r.Failure? ==> r == Failure(Rejected(Stale)) && store.State() == old(store.State()))
          && (r.Success? ==> RenetBoth(Next(old(store.State()), op), store.State(), orig.group, input.group, NetDate(e.date, today)))
          && (r.Success? ==> Corrected(old(store.State()), store.State(), id, input, orig.paidBy, OtherParty(orig).value))
      ensures ValidDb(store.State())
    {
      ghost var before := store.State();
      var refusal := CheckUpdate(id, input, actor, acknowledged);
      if refusal.Some? {
        return Failure(refusal.value);
      }
      var orig := store.expenses[id];
      var other := SettlementParties(orig);
      var date := if input.date != "" then input.date else orig.date;
      var e := TwoRows(orig.paidBy, other.value, input.amount, orig.currency, SETTLEMENT, input.group, date);
      EditedAddable(orig, input);
      StepForward(store.State(), store.State(), Edit(id, e, input.version));
      r := Save(id, e, input.version);
      if r.Success? {
        ghost var mid := store.State();
        CorrectionMoves(before, id, input, other.value, input.version, mid);
        RenetTwo(orig.group, input.group, e.date, today);
        CorrectedThrough(before, mid, store.State(), id, input, orig.paidBy, other.value, orig.group, input.group, NetDate(e.date, today));
      }
    }

    method RenetTwo(left: Option<GroupId>, entered: Option<GroupId>, date: string, today: string)
      requires ValidDb(store.State())
      modifies store
      ensures RenetBoth(old(store.State()), store.State(), left, entered, NetDate(date, today))
      ensures ValidDb(store.State())
    {
      ghost var before := store.State();
      RenetIfSimplified(left, date, today);
      ghost var between := store.State();
      if left != entered {
        RenetIfSimplified(entered, date, today);
      }
      assert Hooked(before, between, left, NetDate(date, today));
    }

    /** A netting entry is never deleted, a conversion only with its other leg; the group of a
        deleted settlement is rewired. */
    method DeleteExpense(id: Id, token: nat, actor: UserId, today: string) returns (r: Result<(), ServiceError>)
      requires ValidDb(store.State())
      modifies store
      ensures if id !in old(store.expenses) then r == Failure(NotFound) && store.State() == old(store.State())
        else
          var e := old(store.expenses)[id];
          if Immutable(e) then r == Failure(ImmutableEntry) && store.State() == old(store.State())
          else if !MayEdit(access, id, e, actor) then r == Failure(NotEditor) && store.State() == old(store.State())
          else
            var op := if IsConversion(e) then DeleteBoth(id, token) else Delete(id, token);
            && Allowed(old(store.State()), op)
            && (r.Success? <==> !e.deleted && e.version == token)
            && (r.Failure? ==> store.State() == old(store.State()))
            && (r.Success? ==> Hooked(Next(old(store.State()), op), store.State(),
                                      if e.split == SETTLEMENT then e.group else None, today))
            && (r.Success? ==> TakenOut(old(store.State()), store.State(), id))
      ensures ValidDb(store.State())
    {
      ghost var before := store.State();
      if id !in store.expenses {
        return Failure(NotFound);
      }
      var e := store.expenses[id];
      if Immutable(e) {
        return Failure(ImmutableEntry);
      }
      if !MayEdit(access, id, e, actor) {
        return Failure(NotEditor);
      }
      StepForward(store.State(), store.State(), if IsConversion(e) then DeleteBoth(id, token) else Delete(id, token));
      var gone: Result<(), WriteError>;
      if IsConversion(e) {
        gone := store.SoftDeleteConversionPair(id, token);
      } else {
        gone := store.SoftDeleteExpense(id, token);
      }
      if gone.Failure? {
        return Failure(Rejected(gone.error));
      }
      ghost var mid := store.State();
      RenetIfSimplified(if e.split == SETTLEMENT then e.group else None, "", today);
      DeletionTakesOut(before, mid, store.State(), id, token, if e.split == SETTLEMENT then e.group else None, today);
      r := Success(());
    }

    // ---------------------------------------------------------------- archive

    /** One write of someone else. */
    method Perform(op: Op)
      modifies store
      ensures store.State() == Runs.Next(old(store.State()), op)
    {
      match op
      case Add(e) => var _ := store.CreateExpense(e);
      case Edit(id, e, token) => var _ := store.UpdateExpense(id, e, token);
      case Delete(id, token) => var _ := store.SoftDeleteExpense(id, token);
      case DeleteBoth(id, token) => var _ := store.SoftDeleteConversionPair(id, token);
      case Convert(source, target) => var _ := store.CreateConversionPair(source, target);
      case Renet(ss, g, date) => var _ := store.CreateMany(NettingEntries(ss, g, date));
      case Fold(_, bs, _) => var _ := store.CollapseToHistorical(bs);
      case Repeat(_, tmpl, rows, date) => var _ := store.CreateExpense(Copied(tmpl, rows, date));
      case StartRepeat(id) => var _ := store.CreateRecurrence(id);
      case StopRepeat(id) => store.DeleteRecurrence(id);
    }

    method Meanwhile(ops: seq<Op>)
      modifies store
      ensures store.State() == AfterAll(old(store.State()), ops)
    {
      for i := 0 to |ops|
        invariant AfterAll(old(store.State()), ops) == AfterAll(store.State(), ops[i..])
      {
        assert ops[i..][1..] == ops[i + 1..];
        Perform(ops[i]);
      }
    }

    /** Reads the rows of each listed expense, the writes of others(n) committed before the n-th. */
    method ReadRows(ids: seq<Id>, others: nat -> seq<Op>) returns (rd: Reads)
      modifies store
      ensures rd == ReadUp(old(store.State()), ids, others, |ids|)
      ensures store.State() == AfterRounds(old(store.State()), others, |ids|)
    {
      rd := map[];
      for i := 0 to |ids|
        invariant rd == ReadUp(old(store.State()), ids, others, i)
        invariant store.State() == AfterRounds(old(store.State()), others, i)
      {
        Meanwhile(others(i));
        assert store.State() == AfterRounds(old(store.State()), others, i + 1);
        var rows := store.GetParticipants(ids[i]);
        rd := rd[ids[i] := rows];
      }
    }

    /** Reads what was listed, builds one batch per currency from that, and collapses them after the
        last writes others commit before the transaction. */
    method CollapseSelected(ids: seq<Id>, scope: Option<GroupId>, actor: UserId, others: nat -> seq<Op>)
      returns (r: Result<nat, ServiceError>, ghost bs: seq<Batch>)
      requires ValidDb(store.State()) && Takeable(store.expenses, scope, ids) && InTurns(store.State(), others)
      requires forall i :: i in ids ==> i !in store.templates
      modifies store
      ensures ids == [] ==> r == Failure(NothingToArchive) && store.State() == old(store.State())
      ensures ids != [] ==> CommittedLate(old(store.State()), store.State(), ids, scope, actor, others, bs, r)
      ensures ValidDb(store.State())
    {
      bs := [];
      if |ids| == 0 {
        return Failure(NothingToArchive), bs;
      }
      ghost var before := store.State();
      var listed := store.expenses;
      ReadUpFacts(before, ids, others, |ids|);
      var rd := ReadRows(ids, others);
      var batches := BuildBatches(listed, rd, scope, ids, actor);
      bs := batches;
      Meanwhile(others(|ids|));
      assert store.State() == AfterRounds(before, others, |ids| + 1);
      LateCommit(before, others, ids, scope, rd, bs);
      var done := store.CollapseToHistorical(batches);
      r := if done.Success? then Success(|ids|) else Failure(Rejected(done.error));
      LateEffect(before, store.State(), others, ids, scope, actor, rd, bs, r);
    }

    method ArchiveGroup(g: GroupId, cutoff: string, actor: UserId, others: nat -> seq<Op>)
      returns (r: Result<nat, ServiceError>, ghost ids: seq<Id>, ghost bs: seq<Batch>)
      requires ValidDb(store.State()) && InTurns(store.State(), others)
      modifies store
      ensures !access.member(g, actor) ==> r == Failure(NotGroupMember) && ids == []
      ensures access.member(g, actor) && ids == [] ==> r == Failure(NothingToArchive)
      ensures access.member(g, actor) ==> forall i ::
        i in ids <==> i in old(store.expenses) && GroupHistory(old(store.expenses)[i], g, cutoff) && i !in old(store.templates)
      ensures if ids == [] then r.Failure? && store.State() == old(store.State())
        else CommittedLate(old(store.State()), store.State(), ids, Some(g), actor, others, bs, r)
      ensures ids != [] && Alone(others) ==>
        ClearedBefore(old(store.State()), store.State(), ids, cutoff, (e: Expense) => e.group == Some(g))
      ensures ValidDb(store.State())
    {
      ids, bs := [], [];
      ghost var before := store.State();
      if !access.member(g, actor) {
        return Failure(NotGroupMember), [], [];
      }
      var selected := ListGroupCollapsible(store.expenses, g, cutoff, store.templates);
      ids := selected;
      r, bs := CollapseSelected(selected, Some(g), actor, others);
      if ids != [] && Alone(others) {
        HistoryCleared(before, store.State(), ids, Some(g), actor, others, bs, r, cutoff, (e: Expense) => e.group == Some(g));
      }
    }

    /** Between two people the pair balances stay as well, if nobody else writes meanwhile and every
        payer has a row. */
    method ArchiveDirect(me: UserId, friend: UserId, cutoff: string, others: nat -> seq<Op>)
      returns (r: Result<nat, ServiceError>, ghost ids: seq<Id>, ghost bs: seq<Batch>)
      requires ValidDb(store.State()) && InTurns(store.State(), others)
      modifies store
      ensures me == friend ==> r == Failure(WithYourself) && ids == []
      ensures me != friend && ids == [] ==> r == Failure(NothingToArchive)
      ensures me != friend ==> forall i ::
        i in ids <==> i in old(store.expenses) && DirectHistory(old(store.expenses)[i], me, friend, cutoff) && i !in old(store.templates)
      ensures if ids == [] then r.Failure? && store.State() == old(store.State())
        else CommittedLate(old(store.State()), store.State(), ids, None, me, others, bs, r)
      ensures Alone(others) && PayersListed(old(store.expenses)) ==> PairsKept(old(store.State()), store.State())
      ensures ids != [] && Alone(others) ==>
        ClearedBefore(old(store.State()), store.State(), ids, cutoff, (e: Expense) => JustTheTwoRows(e, me, friend))
      ensures ValidDb(store.State())
    {
      ids, bs := [], [];
      if me == friend {
        return Failure(WithYourself), [], [];
      }
      ghost var before := store.State();
      var selected := ListDirectCollapsible(store.expenses, me, friend, cutoff, store.templates);
      ids := selected;
      r, bs := CollapseSelected(selected, None, me, others);
      if ids != [] {
        DirectPairs(before, store.State(), ids, others, bs, me, friend, cutoff, r);
        if Alone(others) {
          HistoryCleared(before, store.State(), ids, None, me, others, bs, r, cutoff, (e: Expense) => JustTheTwoRows(e, me, friend));
        }
      }
    }
  }

  // ------------------------------------------------------ lemmas for the class

  function Labeled(ts: seq<Transfer>, cur: string): (r: seq<GroupTransfer>)
    ensures |r| == |ts| && forall i :: 0 <= i < |ts| ==> r[i] == GroupTransfer(ts[i].from, ts[i].to, ts[i].amount, cur)
  {
    seq(|ts|, i requires 0 <= i < |ts| => GroupTransfer(ts[i].from, ts[i].to, ts[i].amount, cur))
  }

  /** The transfers of the first i currencies. */
  ghost predicate TransfersListed(ts: seq<GroupTransfer>, pairs: seq<Pair>, currencies: seq<string>, i: nat) {
    && i <= |currencies|
    && ListsPlans(ts, pairs, Strings(currencies[..i]))
    && Within(ts, Strings(currencies[..i])) && InOrder(ts)
  }

  /** ts holds the plans of just these currencies. */
  ghost predicate ListsPlans(ts: seq<GroupTransfer>, pairs: seq<Pair>, curs: set<string>) {
    forall cur :: OfCurrency(ts, cur) == if cur in curs then PlanOf(pairs, cur) else []
  }

  predicate Within(ts: seq<GroupTransfer>, curs: set<string>) {
    forall j :: 0 <= j < |ts| ==> ts[j].currency in curs
  }

  predicate InOrder(ts: seq<GroupTransfer>) {
    forall i, j :: 0 <= i < j < |ts| ==> ts[i].currency == ts[j].currency || StrLess(ts[i].currency, ts[j].currency)
  }

  lemma {:induction false} OfCurrencyConcat(xs: seq<GroupTransfer>, ys: seq<GroupTransfer>, cur: string)
    ensures OfCurrency(xs + ys, cur) == OfCurrency(xs, cur) + OfCurrency(ys, cur)
  {
    if xs == [] {
      assert xs + ys == ys;
    } else {
      OfCurrencyConcat(xs[1..], ys, cur);
      assert (xs + ys)[1..] == xs[1..] + ys;
    }
  }

  lemma {:induction false} OfLabeled(ts: seq<Transfer>, cur: string, c: string)
    ensures OfCurrency(Labeled(ts, cur), c) == if c == cur then ts else []
  {
    if ts != [] {
      OfLabeled(ts[1..], cur, c);
      assert Labeled(ts, cur)[1..] == Labeled(ts[1..], cur);
      assert [ts[0]] + ts[1..] == ts;
    }
  }

  lemma ListedStep(ts: seq<GroupTransfer>, pairs: seq<Pair>, currencies: seq<string>, i: nat)
    requires TransfersListed(ts, pairs, currencies, i) && i < |currencies| && SortedBy(currencies, StrLess)
    ensures TransfersListed(ts + Labeled(PlanOf(pairs, currencies[i]), currencies[i]), pairs, currencies, i + 1)
  {
    var c := currencies[i];
    var more := Labeled(PlanOf(pairs, c), c);
    FreshCurrency(currencies, i);
    AddPlan(ts, pairs, Strings(currencies[..i]), c);
    LaterCurrency(currencies, i);
    AppendInOrder(ts, more, Strings(currencies[..i]), c);
  }

  lemma AddLabeled(ts: seq<GroupTransfer>, more: seq<Transfer>, c: string, cur: string)
    ensures OfCurrency(ts, c) == [] && cur == c ==> OfCurrency(ts + Labeled(more, c), cur) == more
    ensures cur != c ==> OfCurrency(ts + Labeled(more, c), cur) == OfCurrency(ts, cur)
  {
    OfCurrencyConcat(ts, Labeled(more, c), cur);
    OfLabeled(more, c, cur);
  }

  lemma AddPlan(ts: seq<GroupTransfer>, pairs: seq<Pair>, curs: set<string>, c: string)
    requires ListsPlans(ts, pairs, curs) && c !in curs
    ensures ListsPlans(ts + Labeled(PlanOf(pairs, c), c), pairs, curs + {c})
  {
    var plan := PlanOf(pairs, c);
    var after := ts + Labeled(plan, c);
    forall cur ensures OfCurrency(after, cur) == if cur in curs + {c} then PlanOf(pairs, cur) else [] {
      AddLabeled(ts, plan, c, cur);
      if cur == c {
        assert OfCurrency(ts, c) == [];
      } else {
        assert OfCurrency(ts, cur) == if cur in curs then PlanOf(pairs, cur) else [];
      }
    }
  }

  lemma LaterCurrency(currencies: seq<string>, i: nat)
    requires i < |currencies| && SortedBy(currencies, StrLess)
    ensures forall c :: c in Strings(currencies[..i]) ==> StrLess(c, currencies[i])
  {
    forall c | c in Strings(currencies[..i]) ensures StrLess(c, currencies[i]) {
      var k :| 0 <= k < i && currencies[k] == c;
    }
  }

  lemma AppendInOrder(ts: seq<GroupTransfer>, more: seq<GroupTransfer>, curs: set<string>, c: string)
    requires InOrder(ts) && Within(ts, curs) && (forall d :: d in curs ==> StrLess(d, c))
    requires forall i :: 0 <= i < |more| ==> more[i].currency == c
    ensures InOrder(ts + more) && Within(ts + more, curs + {c})
  {
  }

  lemma ListedAll(ts: seq<GroupTransfer>, pairs: seq<Pair>, currencies: seq<string>, nets: Nets)
    requires TransfersListed(ts, pairs, currencies, |currencies|) && forall c :: c in currencies <==> c in nets
    requires forall cur, u :: NetAt(nets, cur, u) == NetIn(pairs, cur, u)
    ensures Settles(ts, pairs)
  {
    assert currencies[..|currencies|] == currencies;
    forall cur ensures OfCurrency(ts, cur) == PlanOf(pairs, cur) {
      if cur !in nets {
        forall u ensures NetIn(pairs, cur, u) == 0 {
          assert NetAt(nets, cur, u) == NetIn(pairs, cur, u);
        }
        NoNetsNoPlan(pairs, cur);
      }
    }
  }

  /** What the tidy-up test decides on, in ledger terms. */
  lemma UntidyMeans(db: Db, g: GroupId, rows: seq<Row>, pairs: seq<Pair>)
    requires ValidDb(db) && IsView(rows, db.expenses, Some(g)) && Folds(pairs, rows)
    ensures AllNetsZero(db, g) <==> NothingOwed(pairs)
    ensures pairs == [] ==> AllPairsZero(db, g)
  {
    forall cur, u ensures NetIn(pairs, cur, u) == Net(db.expenses, Some(g), cur, u) {
      ViewNets(rows, db.expenses, Some(g), pairs, cur, u);
    }
    if NothingOwed(pairs) {
      forall cur, u ensures Net(db.expenses, Some(g), cur, u) == 0 {
        assert NetIn(pairs, cur, u) == 0;
      }
    }
    if AllNetsZero(db, g) {
      forall cur, u ensures NetIn(pairs, cur, u) == 0 {
        assert Net(db.expenses, Some(g), cur, u) == 0;
      }
    }
    ViewPairs(rows, db.expenses, Some(g), pairs);
    if pairs == [] {
      forall k ensures Owed(db.expenses, Some(g), k) == 0 {
        assert OwedIn(pairs, k) == 0;
      }
    }
  }

  lemma PassEffect(db: Db, ss: seq<Shift>, g: GroupId, date: string, rows: seq<Row>, pairs: seq<Pair>)
    requires ValidDb(db) && Planned(ss, db, g, rows, pairs)
    ensures var r := CreateAll(db, NettingEntries(ss, g, date));
      && r.Success? && Renetted(db, r.value, g, date)
      && Forward(db, r.value) && r.value.groups == db.groups && NettedRows(db, r.value, g, date)
      && (AllNetsZero(db, g) ==> AllPairsZero(r.value, g))
      && forall sc, cur, u :: Net(r.value.expenses, sc, cur, u) == Net(db.expenses, sc, cur, u)
  {
    var r := CreateAll(db, NettingEntries(ss, g, date));
    NettingKeepsNets(db, db, ss, g, date, rows, pairs, None, "", 0);
    assert Renetted(db, r.value, g, date);
    RenettedKeeps(db, r.value, g, date);
    RenettedRows(db, r.value, g, date);
    if AllNetsZero(db, g) { RenettedClears(db, r.value, g, date); }
  }

  lemma RecordEffect(db: Db, sender: UserId, receiver: UserId, amount: int, currency: string, g: Option<GroupId>, date: string)
    requires ValidDb(db)
    ensures var e := Settlement(sender, receiver, amount, currency, g, date);
      && (NoRepeat(e.parts) <==> sender != receiver)
      && (sender != receiver ==> ValidDb(Writes.Insert(db, e)))
  {
    TwoParts(Part(sender, amount), Part(receiver, -amount), 0, "");
    if sender != receiver {
      SettlementAddable(sender, receiver, amount, currency, g, date);
      CreateKeeps(db, Settlement(sender, receiver, amount, currency, g, date));
    }
  }

  /** Both groups' passes, the second only when the settlement changed groups. */
  ghost predicate RenetBoth(db: Db, after: Db, left: Option<GroupId>, entered: Option<GroupId>, date: string) {
    exists between :: Hooked(db, between, left, date) && (if left != entered then Hooked(between, after, entered, date) else after == between)
  }

  // ------------------------------------------------------ through the hooks

  ghost predicate RowsStay(db: Db, after: Db) {
    forall x :: x in db.expenses ==> x in after.expenses && after.expenses[x] == db.expenses[x]
  }

  /** A netting entry: two rows, one person paying another a positive amount. */
  ghost predicate NettingEntry(e: Expense, g: GroupId, date: string) {
    && e.split == NETTING && e.group == Some(g) && e.date == date && !e.deleted && e.version == 1
    && exists o :: PaysOther(e, e.paidBy, o) && PartOf(e.parts, e.paidBy) > 0
  }

  /** Only netting entries were added. */
  ghost predicate NettedRows(db: Db, after: Db, g: GroupId, date: string) {
    RowsStay(db, after) && forall x :: x in after.expenses && x !in db.expenses ==> NettingEntry(after.expenses[x], g, date)
  }

  lemma RenettedRows(db: Db, after: Db, g: GroupId, date: string)
    requires ValidDb(db) && Renetted(db, after, g, date)
    ensures NettedRows(db, after, g, date)
  {
    var ss, rows, pairs :| Planned(ss, db, g, rows, pairs) && CreateAll(db, NettingEntries(ss, g, date)) == Success(after);
    ViewPairs(rows, db.expenses, Some(g), pairs);
    ShiftEnds(ss, pairs);
    EntriesRows(db, ss, after, g, date);
  }

  lemma EntriesRows(db: Db, ss: seq<Shift>, after: Db, g: GroupId, date: string)
    requires (forall y :: y in db.expenses ==> y < db.next) && CreateAll(db, NettingEntries(ss, g, date)) == Success(after)
    requires forall i :: 0 <= i < |ss| ==> ss[i].payer != ss[i].other && ss[i].amount > 0
    ensures NettedRows(db, after, g, date)
  {
    var es := NettingEntries(ss, g, date);
    CreateAllRows(db, es, after);
    forall x | x in after.expenses && x !in db.expenses ensures NettingEntry(after.expenses[x], g, date) {
      EntryIs(ss, x - db.next, g, date);
      EntryRow(db, es, after, g, date, x - db.next, x);
    }
  }

  lemma EntryRow(db: Db, es: seq<Expense>, after: Db, g: GroupId, date: string, i: nat, x: Id)
    requires (forall y :: y in db.expenses ==> y < db.next) && CreateAll(db, es) == Success(after)
    requires i < |es| && NettingEntry(es[i].(version := 1, deleted := false), g, date) && x == db.next + i
    ensures x in after.expenses && NettingEntry(after.expenses[x], g, date)
  {
    CreateAllRows(db, es, after);
    assert after.expenses[db.next + i] == es[i].(version := 1, deleted := false);
  }

  lemma {:induction false} EntryIs(ss: seq<Shift>, i: nat, g: GroupId, date: string)
    requires i < |ss| && ss[i].payer != ss[i].other && ss[i].amount > 0
    ensures var e := NettingEntries(ss, g, date)[i];
      NettingEntry(e.(version := 1, deleted := false), g, date)
  {
    if i > 0 {
      EntryIs(ss[1..], i - 1, g, date);
    } else {
      var s := ss[0];
      var e := Entry(s, NETTING, g, date);
      TwoParts(Part(s.payer, s.amount), Part(s.other, -s.amount), s.payer, "");
      assert PaysOther(e, e.paidBy, s.other) && PartOf(e.parts, e.paidBy) == s.amount;
    }
  }

  /** The hook rewires exactly the groups that simplify their debts: there every pair ends at its
      simplified debt, and otherwise nothing happens. */
  lemma HookReaches(db: Db, after: Db, g: GroupId, date: string, rows: seq<Row>, pairs: seq<Pair>, k: PairKey)
    requires ValidDb(db) && Hooked(db, after, Some(g), date) && IsView(rows, db.expenses, Some(g)) && Folds(pairs, rows)
    ensures g in db.groups && db.groups[g] ==> Owed(after.expenses, Some(g), k) == Target(pairs, k)
    ensures !(g in db.groups && db.groups[g]) ==> after == db
  {
    if g in db.groups && db.groups[g] {
      var ss, rows', pairs' :| Planned(ss, db, g, rows', pairs') && CreateAll(db, NettingEntries(ss, g, date)) == Success(after);
      ViewOrderIrrelevant(rows, rows', db.expenses, Some(g), pairs, pairs');
      NettingReachesTarget(db, ss, g, date, rows', pairs', k);
    }
  }

  lemma HookedRows(db: Db, after: Db, g: Option<GroupId>, date: string)
    requires ValidDb(db) && Hooked(db, after, g, date)
    ensures RowsStay(db, after) && ValidDb(after) && NetsKept(db, after)
  {
    HookedKeeps(db, after, g, date);
    if after != db { RenettedRows(db, after, g.value, date); }
  }

  lemma BothKeep(db: Db, after: Db, left: Option<GroupId>, entered: Option<GroupId>, date: string)
    requires ValidDb(db) && RenetBoth(db, after, left, entered, date)
    ensures RowsStay(db, after) && ValidDb(after) && NetsKept(db, after)
  {
    var between :| Hooked(db, between, left, date) && (if left != entered then Hooked(between, after, entered, date) else after == between);
    HookedRows(db, between, left, date);
    if left != entered { HookedRows(between, after, entered, date); }
  }

  lemma CorrectedThrough(db: Db, mid: Db, after: Db, id: Id, input: SettlementInput, p: UserId, o: UserId,
                         left: Option<GroupId>, entered: Option<GroupId>, date: string)
    requires id in db.expenses && Corrected(db, mid, id, input, p, o) && ValidDb(mid) && RenetBoth(mid, after, left, entered, date)
    ensures Corrected(db, after, id, input, p, o)
  {
    BothKeep(mid, after, left, entered, date);
  }

  /** A settlement is recorded under id, and moves the sender's net up and the receiver's down by
      the amount, in its group and currency and nowhere else. */
  ghost predicate PaymentMade(before: Db, after: Db, id: Id, sender: UserId, receiver: UserId, amount: int, currency: string, g: Option<GroupId>,
                             date: string) {
    && id !in before.expenses && id in after.expenses && RowsStay(before, after)
    && PaysNow(after.expenses[id], sender, receiver, amount, currency, g, date)
    && NetsGain(before, after, (sc, cur, u) => PayNet(sender, receiver, amount, g, currency, sc, cur, u))
  }

  lemma SettlementPays(db: Db, after: Db, sender: UserId, receiver: UserId, amount: int, currency: string, g: Option<GroupId>,
                       date: string, netDate: string)
    requires ValidDb(db) && sender != receiver
    requires Hooked(Writes.Insert(db, Settlement(sender, receiver, amount, currency, g, date)), after, g, netDate)
    ensures PaymentMade(db, after, db.next, sender, receiver, amount, Upper(currency), g, date)
  {
    var e := Settlement(sender, receiver, amount, currency, g, date);
    SettlementAddable(sender, receiver, amount, currency, g, date);
    CreateKeeps(db, e);
    RecordedPays(db, sender, receiver, amount, currency, g, date);
    HookedRows(Writes.Insert(db, e), after, g, netDate);
    PaymentThrough(db, Writes.Insert(db, e), after, db.next, sender, receiver, amount, Upper(currency), g, date);
  }

  lemma PaymentThrough(db: Db, mid: Db, after: Db, id: Id, sender: UserId, receiver: UserId, amount: int, currency: string,
                       g: Option<GroupId>, date: string)
    requires PaymentMade(db, mid, id, sender, receiver, amount, currency, g, date) && RowsStay(mid, after) && NetsKept(mid, after)
    ensures PaymentMade(db, after, id, sender, receiver, amount, currency, g, date)
  {
  }

  lemma RecordedPays(db: Db, sender: UserId, receiver: UserId, amount: int, currency: string, g: Option<GroupId>, date: string)
    requires ValidDb(db) && sender != receiver
    ensures PaymentMade(db, Writes.Insert(db, Settlement(sender, receiver, amount, currency, g, date)), db.next,
                        sender, receiver, amount, Upper(currency), g, date)
  {
    var e := Settlement(sender, receiver, amount, currency, g, date);
    var mid := Writes.Insert(db, e);
    TwoRowsPay(sender, receiver, amount, Upper(currency), g, date);
    SettlementAddable(sender, receiver, amount, currency, g, date);
    CreateMoves(db, e, mid, None, PairKey("", 0, 0), "", 0);
    forall sc, cur, u
      ensures Net(mid.expenses, sc, cur, u)
           == Net(db.expenses, sc, cur, u) + PayNet(sender, receiver, amount, g, Upper(currency), sc, cur, u)
    {
      CreateMoves(db, e, mid, sc, PairKey("", 0, 0), cur, u);
      TwoRowNet(e, sender, receiver, sc, cur, u);
    }
  }

  /** The expense is deleted, a conversion with its other leg, and every net has lost exactly what
      it, or they, contributed. */
  ghost predicate TakenOut(before: Db, after: Db, id: Id)
    requires id in before.expenses
  {
    var e := before.expenses[id];
    && id in after.expenses && after.expenses[id].deleted
    && (!IsConversion(e) ==> NetsGain(before, after, (sc, cur, u) => -LiveNet(e, sc, cur, u)))
    && (IsConversion(e) ==> exists t :: t != id && Partner(before.expenses, id, t) && TakenBoth(before, after, id, t))
  }

  ghost predicate TakenBoth(before: Db, after: Db, id: Id, t: Id)
    requires id in before.expenses && t in before.expenses
  {
    && t in after.expenses && after.expenses[t].deleted
    && NetsGain(before, after, (sc, cur, u) =>
         if id in before.expenses && t in before.expenses
         then -LiveNet(before.expenses[id], sc, cur, u) - LiveNet(before.expenses[t], sc, cur, u) else 0)
  }

  lemma DeletionTakesOut(db: Db, mid: Db, after: Db, id: Id, token: nat, g: Option<GroupId>, date: string)
    requires ValidDb(db) && id in db.expenses
    requires (if IsConversion(db.expenses[id]) then SoftDeleteConversion(db, id, token) else SoftDelete(db, id, token)) == Success(mid)
    requires ValidDb(mid) && Hooked(mid, after, g, date)
    ensures TakenOut(db, after, id)
  {
    HookedRows(mid, after, g, date);
    if IsConversion(db.expenses[id]) {
      var t := ConversionGone(db, mid, id, token);
      BothThrough(db, mid, after, id, t);
    } else {
      SingleGone(db, mid, id, token);
      SingleThrough(db, mid, after, id);
    }
  }

  lemma SingleThrough(db: Db, mid: Db, after: Db, id: Id)
    requires id in db.expenses && !IsConversion(db.expenses[id]) && TakenOut(db, mid, id)
    requires RowsStay(mid, after) && NetsKept(mid, after)
    ensures TakenOut(db, after, id)
  {
  }

  lemma BothThrough(db: Db, mid: Db, after: Db, id: Id, t: Id)
    requires id in db.expenses && IsConversion(db.expenses[id]) && id in mid.expenses && mid.expenses[id].deleted
    requires t != id && Partner(db.expenses, id, t) && TakenBoth(db, mid, id, t)
    requires RowsStay(mid, after) && NetsKept(mid, after)
    ensures TakenOut(db, after, id)
  {
    assert TakenBoth(db, after, id, t);
  }

  lemma SingleGone(db: Db, mid: Db, id: Id, token: nat)
    requires id in db.expenses && !IsConversion(db.expenses[id]) && SoftDelete(db, id, token) == Success(mid)
    ensures TakenOut(db, mid, id)
  {
    forall sc, cur, u ensures Net(mid.expenses, sc, cur, u) == Net(db.expenses, sc, cur, u) + -LiveNet(db.expenses[id], sc, cur, u) {
      DeleteMoves(db, id, token, mid, sc, PairKey("", 0, 0), cur, u);
    }
    DeleteMoves(db, id, token, mid, None, PairKey("", 0, 0), "", 0);
  }

  lemma ConversionGone(db: Db, mid: Db, id: Id, token: nat) returns (t: Id)
    requires ValidDb(db) && id in db.expenses && IsConversion(db.expenses[id]) && SoftDeleteConversion(db, id, token) == Success(mid)
    ensures id in mid.expenses && mid.expenses[id].deleted
    ensures t != id && Partner(db.expenses, id, t) && TakenBoth(db, mid, id, t)
  {
    t := ConversionDead(db, id, token);
    assert Partner(db.expenses, id, t);
    forall sc, cur, u
      ensures Net(mid.expenses, sc, cur, u)
           == Net(db.expenses, sc, cur, u) + (-LiveNet(db.expenses[id], sc, cur, u) - LiveNet(db.expenses[t], sc, cur, u))
    {
      BothLegsOut(db, id, t, token, mid, sc, cur, u);
    }
  }

  lemma SettleGroupEffect(db: Db, ts: seq<GroupTransfer>, g: GroupId, date: string, rows: seq<Row>, pairs: seq<Pair>)
    requires ValidDb(db) && IsView(rows, db.expenses, Some(g)) && Folds(pairs, rows) && Settles(ts, pairs)
    ensures Recorded(db, ts, g, date).1 && Recorded(db, ts, g, date).0.groups == db.groups
    ensures CreateAll(db, Settlements(ts, g, date)) == Success(Recorded(db, ts, g, date).0)
    ensures ts == [] <==> AllNetsZero(db, g)
  {
    RecordedKeeps(db, ts, g, date);
    SettlesWritable(ts, db, g, rows, pairs);
    AllRecorded(db, ts, g, date);
    NothingToSettle(db, ts, g, rows, pairs);
  }

  lemma AfterSettleAll(db: Db, after: Db, ts: seq<GroupTransfer>, g: GroupId, date: string, netDate: string,
                       rows: seq<Row>, pairs: seq<Pair>)
    requires ValidDb(db) && IsView(rows, db.expenses, Some(g)) && Folds(pairs, rows) && Settles(ts, pairs)
    requires CreateAll(db, Settlements(ts, g, date)) == Success(Recorded(db, ts, g, date).0)
    requires if ts != [] then Renetted(Recorded(db, ts, g, date).0, after, g, netDate) else after == db
    ensures SettledAll(db, after, ts, g, date, netDate)
    ensures AllNetsZero(after, g)
    ensures AllPairsZero(after, g) <==> !AllNetsZero(db, g) || AllPairsZero(db, g)
    ensures SettledRows(db, after, |ts|, g, date, netDate)
  {
    RowsSettled(db, after, ts, g, date, netDate, rows, pairs);
    assert SettledAll(db, after, ts, g, date, netDate);
    SettleAllOutcome(db, after, ts, g, date, netDate, rows, pairs);
  }

  /** The next n rows are payments of the group, and whatever else is new is a netting entry. */
  ghost predicate SettledRows(before: Db, after: Db, n: nat, g: GroupId, date: string, netDate: string) {
    && RowsStay(before, after)
    && (forall x :: before.next <= x < before.next + n ==> x in after.expenses && GroupPayment(after.expenses[x], g, date))
    && (forall x :: x in after.expenses && x !in before.expenses && x >= before.next + n ==> NettingEntry(after.expenses[x], g, netDate))
  }

  ghost predicate GroupPayment(e: Expense, g: GroupId, date: string) {
    e.amount > 0 && exists o :: o != e.paidBy && PaysNow(e, e.paidBy, o, e.amount, e.currency, Some(g), date)
  }

  lemma RowsSettled(db: Db, after: Db, ts: seq<GroupTransfer>, g: GroupId, date: string, netDate: string, rows: seq<Row>, pairs: seq<Pair>)
    requires ValidDb(db) && IsView(rows, db.expenses, Some(g)) && Folds(pairs, rows) && Settles(ts, pairs)
    requires CreateAll(db, Settlements(ts, g, date)) == Success(Recorded(db, ts, g, date).0)
    requires if ts != [] then Renetted(Recorded(db, ts, g, date).0, after, g, netDate) else after == db
    ensures SettledRows(db, after, |ts|, g, date, netDate)
  {
    var mid := Recorded(db, ts, g, date).0;
    SettlesWritable(ts, db, g, rows, pairs);
    RecordedRows(db, mid, ts, g, date);
    if ts != [] {
      SettlementsClearNets(db, ts, g, date, rows, pairs, "", 0);
      RenettedRows(mid, after, g, netDate);
    }
  }

  lemma RecordedRows(db: Db, mid: Db, ts: seq<GroupTransfer>, g: GroupId, date: string)
    requires ValidDb(db) && CreateAll(db, Settlements(ts, g, date)) == Success(mid)
    requires forall i :: 0 <= i < |ts| ==> ts[i].amount > 0 && ts[i].from != ts[i].to
    ensures RowsStay(db, mid) && forall x :: x in mid.expenses && x !in db.expenses ==> x < db.next + |ts|
    ensures forall x :: db.next <= x < db.next + |ts| ==> x in mid.expenses && GroupPayment(mid.expenses[x], g, date)
  {
    assert RowsStay(db, mid) && forall x :: x in mid.expenses && x !in db.expenses ==> x < db.next + |ts| by {
      CreateAllRows(db, Settlements(ts, g, date), mid);
    }
    forall x | db.next <= x < db.next + |ts| ensures x in mid.expenses && GroupPayment(mid.expenses[x], g, date) {
      PaymentIs(AsShifts(ts), x - db.next, g, date);
      RecordedRow(db, mid, Settlements(ts, g, date), g, date, x - db.next, x);
    }
  }

  lemma RecordedRow(db: Db, mid: Db, es: seq<Expense>, g: GroupId, date: string, i: nat, x: Id)
    requires (forall y :: y in db.expenses ==> y < db.next) && CreateAll(db, es) == Success(mid)
    requires i < |es| && GroupPayment(es[i].(version := 1, deleted := false), g, date) && x == db.next + i
    ensures x in mid.expenses && GroupPayment(mid.expenses[x], g, date)
  {
    CreateAllRows(db, es, mid);
    assert mid.expenses[db.next + i] == es[i].(version := 1, deleted := false);
  }

  lemma {:induction false} PaymentIs(ss: seq<Shift>, i: nat, g: GroupId, date: string)
    requires i < |ss| && ss[i].payer != ss[i].other && ss[i].amount > 0
    ensures var e := Entries(ss, SETTLEMENT, g, date)[i];
      GroupPayment(e.(version := 1, deleted := false), g, date)
  {
    if i > 0 {
      PaymentIs(ss[1..], i - 1, g, date);
    } else {
      var s := ss[0];
      TwoRowsPay(s.payer, s.other, s.amount, s.currency, Some(g), date);
      assert PaysNow(Entry(s, SETTLEMENT, g, date), s.payer, s.other, s.amount, s.currency, Some(g), date);
    }
  }

  ghost predicate NetsKept(before: Db, after: Db) {
    forall sc, cur, u :: Net(after.expenses, sc, cur, u) == Net(before.expenses, sc, cur, u)
  }

  ghost predicate PairsKept(before: Db, after: Db) {
    forall sc, k :: Owed(after.expenses, sc, k) == Owed(before.expenses, sc, k)
  }

  ghost predicate AllPreserved(before: Db, after: Db, ids: seq<Id>) {
    forall x :: x in ids ==> Preserved(before, after, x)
  }

  ghost predicate OthersUntouched(before: Db, after: Db, ids: seq<Id>) {
    && (forall x :: x in before.expenses && x !in ids ==> x in after.expenses && after.expenses[x] == before.expenses[x])
    && (forall x :: x in before.archived && x !in ids ==> x in after.archived && after.archived[x] == before.archived[x])
  }

  /** What a collapse leaves that nobody else's write came into: every net as it was, every origin
      in the archive and everything else untouched. */
  ghost predicate Folded(before: Db, after: Db, ids: seq<Id>) {
    NetsKept(before, after) && AllPreserved(before, after, ids) && OthersUntouched(before, after, ids)
  }

  /** A direct expense with exactly these two people's rows. */
  ghost predicate JustTheTwoRows(e: Expense, me: UserId, friend: UserId) {
    e.group == None && |e.parts| == 2 && me in Users(e.parts) && friend in Users(e.parts)
  }

  /** What was collapsed and what replaced it dates from before the cutoff, and of that time nothing
      live of this kind is left besides the replacements, conversion legs and templates. */
  ghost predicate ClearedBefore(before: Db, after: Db, ids: seq<Id>, cutoff: string, kind: Expense -> bool) {
    && (forall i :: i in ids ==> i in before.expenses && StrLess(before.expenses[i].date, cutoff))
    && (forall x :: x in after.expenses && x !in before.expenses ==>
          after.expenses[x].split == ARCHIVE && StrLess(after.expenses[x].date, cutoff))
    && (forall x :: x in after.expenses && x in before.expenses && kind(after.expenses[x]) && !after.expenses[x].deleted
                    && StrLess(after.expenses[x].date, cutoff)
          ==> after.expenses[x].split == CURRENCY_CONVERSION || x in before.templates)
  }

  /** The rows after a collapse: old ones, and one per batch. */
  lemma {:induction false} CollapseLeaves(db: Db, bs: seq<Batch>, x: Id)
    requires Collapse(db, bs).Success? && x in Collapse(db, bs).value.expenses
    ensures var n := Collapse(db, bs).value;
      || (x in db.expenses && n.expenses[x] == db.expenses[x])
      || (exists k :: 0 <= k < |bs| && n.expenses[x] == bs[k].expense.(version := 1, deleted := false))
    decreases |bs|
  {
    if bs != [] {
      var mid := CollapseOne(db, bs[0]).value;
      CollapseLeaves(mid, bs[1..], x);
      var n := Collapse(db, bs).value;
      if k :| 0 <= k < |bs[1..]| && n.expenses[x] == bs[1..][k].expense.(version := 1, deleted := false) {
        assert bs[k + 1] == bs[1..][k];
      } else {
        OneLeaves(db, bs[0], mid, x);
        assert x in db.expenses || n.expenses[x] == bs[0].expense.(version := 1, deleted := false);
      }
    }
  }

  lemma OneLeaves(db: Db, b: Batch, mid: Db, x: Id)
    requires CollapseOne(db, b) == Success(mid) && x in mid.expenses
    ensures (x in db.expenses && mid.expenses[x] == db.expenses[x]) || mid.expenses[x] == b.expense.(version := 1, deleted := false)
  {
  }

  lemma HistoryCleared(before: Db, after: Db, ids: seq<Id>, scope: Option<GroupId>, actor: UserId, others: nat -> seq<Op>,
                       bs: seq<Batch>, r: Result<nat, ServiceError>, cutoff: string, kind: Expense -> bool)
    requires CommittedLate(before, after, ids, scope, actor, others, bs, r) && Alone(others)
    requires forall i :: i in ids ==> i in before.expenses && StrLess(before.expenses[i].date, cutoff)
    requires forall x :: x in before.expenses && kind(before.expenses[x]) && !before.expenses[x].deleted
               && StrLess(before.expenses[x].date, cutoff) && before.expenses[x].split != CURRENCY_CONVERSION && x !in before.templates
               ==> x in ids
    ensures ClearedBefore(before, after, ids, cutoff, kind)
  {
    AloneReads(before, ids, others, |ids|);
    forall x | x in after.expenses && x !in before.expenses
      ensures after.expenses[x].split == ARCHIVE && StrLess(after.expenses[x].date, cutoff)
    {
      CollapseLeaves(before, bs, x);
      var k :| 0 <= k < |bs| && after.expenses[x] == bs[k].expense.(version := 1, deleted := false);
      ReplacementDated(before.expenses, ReadUp(before, ids, others, |ids|), scope, actor, bs, ids, k, cutoff);
    }
    forall x | x in after.expenses && x in before.expenses && kind(after.expenses[x]) && !after.expenses[x].deleted
               && StrLess(after.expenses[x].date, cutoff)
      ensures after.expenses[x].split == CURRENCY_CONVERSION || x in before.templates
    {
      assert x in ids ==> Preserved(before, after, x);
      assert after.expenses[x] == before.expenses[x];
    }
  }

  lemma ReplacementDated(m: Table, rd: Reads, scope: Option<GroupId>, actor: UserId, bs: seq<Batch>, ids: seq<Id>, k: nat, cutoff: string)
    requires k < |bs| && BatchesOf(m, rd, scope, bs) && Covers(bs, ids) && Detailed(m, actor, bs[k])
    requires forall i :: i in ids ==> i in m && StrLess(m[i].date, cutoff)
    ensures bs[k].expense.split == ARCHIVE && StrLess(bs[k].expense.date, cutoff)
  {
    BatchesAt(m, rd, scope, bs, k);
    var i :| i in bs[k].origins && i in m && m[i].date == bs[k].expense.date;
    assert i in ids;
  }

  // ------------------------------------------------------ others' writes

  /** The state after these writes, one after the other. */
  function AfterAll(db: Db, ops: seq<Op>): Db
    decreases |ops|
  {
    if ops == [] then db else AfterAll(Runs.Next(db, ops[0]), ops[1..])
  }

  /** Each leads forward from the state it finds, as every write of a run does. */
  ghost predicate InTurn(db: Db, ops: seq<Op>)
    decreases |ops|
  {
    ops == [] || (Forward(db, Runs.Next(db, ops[0])) && InTurn(Runs.Next(db, ops[0]), ops[1..]))
  }

  lemma {:induction false} AfterForward(db: Db, ops: seq<Op>)
    requires ValidDb(db) && InTurn(db, ops)
    ensures Forward(db, AfterAll(db, ops))
    decreases |ops|
  {
    assert Evolves(db, db);
    if ops != [] {
      var mid := Runs.Next(db, ops[0]);
      AfterForward(mid, ops[1..]);
      EvolvesTransitive(db, mid, AfterAll(db, ops));
    }
  }

  /** The state after the first n rounds of others' writes. */
  function AfterRounds(db: Db, others: nat -> seq<Op>, n: nat): Db {
    if n == 0 then db else AfterAll(AfterRounds(db, others, n - 1), others(n - 1))
  }

  ghost predicate InTurns(db: Db, others: nat -> seq<Op>) {
    forall n: nat :: RoundInTurn(db, others, n)
  }

  ghost predicate RoundInTurn(db: Db, others: nat -> seq<Op>, n: nat) {
    InTurn(AfterRounds(db, others, n), others(n))
  }

  /** Nobody else writes. */
  ghost predicate Alone(others: nat -> seq<Op>) {
    forall n: nat :: others(n) == []
  }

  /** What is read for the first n ids, each after one more round. */
  function ReadUp(db: Db, ids: seq<Id>, others: nat -> seq<Op>, n: nat): Reads
    requires n <= |ids|
  {
    if n == 0 then map[]
    else ReadUp(db, ids, others, n - 1)[ids[n - 1] := RowsAt(AfterRounds(db, others, n).expenses, ids[n - 1])]
  }

  lemma {:induction false} RoundsForward(db: Db, others: nat -> seq<Op>, n: nat)
    requires ValidDb(db) && InTurns(db, others)
    ensures Forward(db, AfterRounds(db, others, n))
  {
    assert Evolves(db, db);
    if n > 0 {
      var j: nat := n - 1;
      RoundsForward(db, others, j);
      assert RoundInTurn(db, others, j);
      OneRound(db, AfterRounds(db, others, j), others(j));
    }
  }

  lemma OneRound(db: Db, mid: Db, ops: seq<Op>)
    requires Forward(db, mid) && InTurn(mid, ops)
    ensures Forward(db, AfterAll(mid, ops))
  {
    AfterForward(mid, ops);
    EvolvesTransitive(db, mid, AfterAll(mid, ops));
  }

  lemma RowsAtBalanced(db: Db, x: Id)
    requires ValidDb(db)
    ensures Balanced(RowsAt(db.expenses, x))
  {
  }

  lemma {:induction false} ReadUpFacts(db: Db, ids: seq<Id>, others: nat -> seq<Op>, n: nat)
    requires ValidDb(db) && InTurns(db, others) && n <= |ids|
    ensures BalancedReads(ReadUp(db, ids, others, n))
    ensures forall i :: 0 <= i < n ==> ids[i] in ReadUp(db, ids, others, n)
  {
    if n > 0 {
      ReadUpFacts(db, ids, others, n - 1);
      RoundsForward(db, others, n);
      RowsAtBalanced(AfterRounds(db, others, n), ids[n - 1]);
    }
  }

  lemma {:induction false} AloneReads(db: Db, ids: seq<Id>, others: nat -> seq<Op>, n: nat)
    requires Alone(others) && n <= |ids|
    ensures AfterRounds(db, others, n) == AfterRounds(db, others, n + 1) == db
    ensures forall x :: x in ReadUp(db, ids, others, n) ==> ReadUp(db, ids, others, n)[x] == RowsAt(db.expenses, x)
  {
    assert others(n) == [];
    if n > 0 { AloneReads(db, ids, others, n - 1); }
  }

  /** What a collapse leaves that listed ids in before, read the rows of each after a further round
      of others' writes and committed after the last: it is refused exactly if an origin has become
      a template; each net moves by what the rows read give it minus what the origins contribute
      now; payers stay listed exactly if every batch found some row; and if nobody else wrote,
      everything a collapse promises holds. */
  ghost predicate CommittedLate(before: Db, after: Db, ids: seq<Id>, scope: Option<GroupId>, actor: UserId,
                                others: nat -> seq<Op>, bs: seq<Batch>, r: Result<nat, ServiceError>) {
    var rd, now := ReadUp(before, ids, others, |ids|), AfterRounds(before, others, |ids| + 1);
    && BatchesOf(before.expenses, rd, scope, bs) && Covers(bs, ids)
    && (forall j :: 0 <= j < |bs| ==> Detailed(before.expenses, actor, bs[j]))
    && Committed(now, after, bs, |ids|, r) && (r.Success? ==> AsRead(rd, now, after, scope, bs))
    && (Alone(others) ==> r.Success? && Folded(before, after, ids))
  }

  ghost predicate Committed(now: Db, after: Db, bs: seq<Batch>, n: nat, r: Result<nat, ServiceError>) {
    if Free(now.templates, bs) then r == Success(n) && Collapse(now, bs) == Success(after)
    else r == Failure(Rejected(Referenced)) && after == now
  }

  /** What the rows read make of the nets and of who is listed. */
  ghost predicate AsRead(rd: Reads, now: Db, after: Db, scope: Option<GroupId>, bs: seq<Batch>) {
    && (forall sc, c, u :: Drifted(rd, now, after, scope, bs, sc, c, u))
    && (PayersListed(now.expenses) ==> (PayersListed(after.expenses) <==> AllSomeRows(rd, bs)))
  }

  ghost predicate Drifted(rd: Reads, now: Db, after: Db, scope: Option<GroupId>, bs: seq<Batch>, sc: Option<GroupId>, c: string, u: UserId) {
    Net(after.expenses, sc, c, u)
      == Net(now.expenses, sc, c, u) + Share(rd, scope, bs, sc, c, u) - Taken(now.expenses, bs, NetFn(sc, c, u))
  }

  /** The listing and the reads lead to a commit that keeps the ledger in order. */
  lemma LateCommit(db: Db, others: nat -> seq<Op>, ids: seq<Id>, scope: Option<GroupId>, rd: Reads, bs: seq<Batch>)
    requires ValidDb(db) && InTurns(db, others) && BalancedReads(rd)
    requires BatchesOf(db.expenses, rd, scope, bs) && Covers(bs, ids) && forall i :: i in ids ==> i !in db.templates
    ensures var now := AfterRounds(db, others, |ids| + 1);
      && Free(db.templates, bs) && Forward(db, now)
      && (if Free(now.templates, bs) then Collapse(now, bs).Success? && ValidDb(Collapse(now, bs).value)
          else Collapse(now, bs) == Failure(Referenced))
  {
    RoundsForward(db, others, |ids| + 1);
    CoveredFree(db.templates, bs, ids);
    CommitKeeps(db, AfterRounds(db, others, |ids| + 1), rd, scope, bs);
  }

  /** What was committed, from what was listed and read. */
  lemma LateEffect(db: Db, after: Db, others: nat -> seq<Op>, ids: seq<Id>, scope: Option<GroupId>, actor: UserId, rd: Reads,
                   bs: seq<Batch>, r: Result<nat, ServiceError>)
    requires ValidDb(db) && InTurns(db, others) && rd == ReadUp(db, ids, others, |ids|) && BalancedReads(rd)
    requires BatchesOf(db.expenses, rd, scope, bs) && Covers(bs, ids) && Free(db.templates, bs)
    requires forall j :: 0 <= j < |bs| ==> Detailed(db.expenses, actor, bs[j])
    requires Committed(AfterRounds(db, others, |ids| + 1), after, bs, |ids|, r)
    ensures CommittedLate(db, after, ids, scope, actor, others, bs, r)
  {
    var now := AfterRounds(db, others, |ids| + 1);
    RoundsForward(db, others, |ids| + 1);
    if r.Success? { LateNets(db, rd, now, after, scope, bs); }
    if Alone(others) { AloneEffect(db, others, ids, scope, rd, bs); }
  }

  lemma CommitKeeps(db: Db, now: Db, rd: Reads, scope: Option<GroupId>, bs: seq<Batch>)
    requires ValidDb(db) && Forward(db, now) && BatchesOf(db.expenses, rd, scope, bs) && BalancedReads(rd) && Free(db.templates, bs)
    ensures if Free(now.templates, bs) then Collapse(now, bs).Success? && ValidDb(Collapse(now, bs).value)
            else Collapse(now, bs) == Failure(Referenced)
  {
    RefusedIff(db.expenses, rd, scope, now, bs);
    StepForward(db, now, Fold(scope, bs, rd));
  }

  lemma AloneEffect(db: Db, others: nat -> seq<Op>, ids: seq<Id>, scope: Option<GroupId>, rd: Reads, bs: seq<Batch>)
    requires ValidDb(db) && Alone(others) && rd == ReadUp(db, ids, others, |ids|) && BalancedReads(rd)
    requires BatchesOf(db.expenses, rd, scope, bs) && Covers(bs, ids) && Free(db.templates, bs)
    ensures AfterRounds(db, others, |ids| + 1) == db
    ensures Collapse(db, bs).Success? && Folded(db, Collapse(db, bs).value, ids)
  {
    AloneReads(db, ids, others, |ids|);
    OwnBatches(db.expenses, rd, scope, bs);
    ArchiveEffect(db, rd, ids, scope, bs);
  }

  lemma LateNets(db: Db, rd: Reads, now: Db, after: Db, scope: Option<GroupId>, bs: seq<Batch>)
    requires ValidDb(db) && ValidDb(now) && db.next <= now.next && BatchesOf(db.expenses, rd, scope, bs)
    requires Collapse(now, bs) == Success(after)
    ensures AsRead(rd, now, after, scope, bs)
  {
    forall sc, c, u ensures Drifted(rd, now, after, scope, bs, sc, c, u) {
      CollapseMovesNet(db, rd, now, scope, bs, sc, c, u);
    }
    if PayersListed(now.expenses) { FoldStepLists(db, now, rd, scope, bs); }
  }

  lemma {:induction false} OwnBatches(m: Table, rd: Reads, g: Option<GroupId>, bs: seq<Batch>)
    requires BatchesOf(m, rd, g, bs) && forall x :: x in rd ==> rd[x] == RowsAt(m, x)
    ensures AllOwn(m, rd, bs)
  {
    if bs != [] { OwnBatches(m, rd, g, bs[1..]); }
  }

  lemma ArchiveEffect(db: Db, rd: Reads, ids: seq<Id>, scope: Option<GroupId>, bs: seq<Batch>)
    requires Ready(db, rd, scope, bs) && AllOwn(db.expenses, rd, bs) && Covers(bs, ids)
    ensures Collapse(db, bs).Success? && Folded(db, Collapse(db, bs).value, ids)
  {
    OriginsGo(db, rd, scope, bs);
    var after := Collapse(db, bs).value;
    forall sc, cur, u ensures Net(after.expenses, sc, cur, u) == Net(db.expenses, sc, cur, u) {
      CollapseAllKeepsNets(db, rd, scope, bs, sc, cur, u);
    }
    CollapseRows(db, rd, after, ids, scope, bs);
  }

  lemma CollapseRows(db: Db, rd: Reads, after: Db, ids: seq<Id>, scope: Option<GroupId>, bs: seq<Batch>)
    requires Ready(db, rd, scope, bs) && Covers(bs, ids) && Collapse(db, bs) == Success(after)
    ensures AllPreserved(db, after, ids) && OthersUntouched(db, after, ids)
  {
    forall x | x in ids ensures Preserved(db, after, x) {
      var j :| 0 <= j < |bs| && x in bs[j].origins;
      CollapsePreserves(db, rd, scope, bs, j, x);
    }
    forall x | x !in ids
      ensures x in db.expenses ==> x in after.expenses && after.expenses[x] == db.expenses[x]
      ensures x in db.archived ==> x in after.archived && after.archived[x] == db.archived[x]
    {
      CollapseSpares(db, rd, scope, bs, x);
    }
  }

  lemma {:induction false} AllBetweenOf(m: Table, ids: seq<Id>, bs: seq<Batch>, x: UserId, y: UserId)
    requires Between(m, ids, x, y) && forall j, i :: 0 <= j < |bs| && i in bs[j].origins ==> i in ids
    ensures AllBetween(m, bs, x, y)
  {
    if bs != [] {
      forall j, i | 0 <= j < |bs[1..]| && i in bs[1..][j].origins ensures i in ids {
        assert bs[1..][j] == bs[j + 1];
      }
      AllBetweenOf(m, ids, bs[1..], x, y);
    }
  }

  lemma DirectPairs(db: Db, after: Db, ids: seq<Id>, others: nat -> seq<Op>, bs: seq<Batch>, me: UserId, friend: UserId,
                    cutoff: string, r: Result<nat, ServiceError>)
    requires ValidDb(db) && InTurns(db, others) && me != friend && CommittedLate(db, after, ids, None, me, others, bs, r)
    requires forall i :: i in ids ==> i in db.expenses && DirectHistory(db.expenses[i], me, friend, cutoff) && i !in db.templates
    ensures Alone(others) && PayersListed(db.expenses) ==> PairsKept(db, after)
  {
    if Alone(others) && PayersListed(db.expenses) {
      var rd := ReadUp(db, ids, others, |ids|);
      ReadUpFacts(db, ids, others, |ids|);
      AloneReads(db, ids, others, |ids|);
      CoveredFree(db.templates, bs, ids);
      OwnBatches(db.expenses, rd, None, bs);
      AllTwoParty(db, ids, bs, me, friend, cutoff);
      AllPairsKept(db, rd, after, bs, if me < friend then me else friend, if me < friend then friend else me);
    }
  }

  lemma AllTwoParty(db: Db, ids: seq<Id>, bs: seq<Batch>, me: UserId, friend: UserId, cutoff: string)
    requires ValidDb(db) && PayersListed(db.expenses) && Covers(bs, ids) && me != friend
    requires forall i :: i in ids ==> i in db.expenses && DirectHistory(db.expenses[i], me, friend, cutoff)
    ensures AllBetween(db.expenses, bs, me, friend) && AllBetween(db.expenses, bs, friend, me)
  {
    var m := db.expenses;
    forall i | i in ids ensures TwoPeople(m[i], me, friend) && TwoPeople(m[i], friend, me) {
      JustTheTwo(m[i], me, friend, cutoff);
      assert Listed(m[i]) && {me, friend} == {friend, me};
    }
    AllBetweenOf(m, ids, bs, me, friend);
    AllBetweenOf(m, ids, bs, friend, me);
  }

  lemma AllPairsKept(db: Db, rd: Reads, after: Db, bs: seq<Batch>, x: UserId, y: UserId)
    requires Ready(db, rd, None, bs) && AllOwn(db.expenses, rd, bs) && AllBetween(db.expenses, bs, x, y) && x < y
    requires Collapse(db, bs) == Success(after)
    ensures PairsKept(db, after)
  {
    forall sc, k ensures Owed(after.expenses, sc, k) == Owed(db.expenses, sc, k) {
      DirectCollapseAll(db, rd, None, bs, x, y, sc, k);
    }
  }
}
