/** Every run of the ledger: any interleaving of the services' writes, each decided from a
    state read earlier in the run. */
module Runs {
  import opened Text
  import opened Sums
  import opened Simplify
  import opened Pairs
  import opened Ledger
  import opened Writes
  import opened Netting
  import opened Archive
  import opened Stale

  /** The writes the services issue. Token is the version a form or button was rendered from. A
      collapse carries the rows it read for its origins, a repetition the template and the rows it
      read for it, where they are copied as they are. */
  datatype Op =
    | Add(e: Expense)
    | Edit(id: Id, e: Expense, token: nat)
    | Delete(id: Id, token: nat)
    | DeleteBoth(id: Id, token: nat)
    | Convert(source: Expense, target: Expense)
    | Renet(ss: seq<Shift>, g: GroupId, date: string)
    | Fold(scope: Option<GroupId>, bs: seq<Batch>, rd: Reads)
    | Repeat(id: Id, tmpl: Expense, rows: seq<Part>, date: string)
    | StartRepeat(id: Id)
    | StopRepeat(id: Id)

  function Apply(db: Db, op: Op): Result<Db, WriteError> {
    match op
    case Add(e) => Create(db, e)
    case Edit(id, e, token) => Update(db, id, e, token)
    case Delete(id, token) => SoftDelete(db, id, token)
    case DeleteBoth(id, token) => SoftDeleteConversion(db, id, token)
    case Convert(source, target) => ConversionPair(db, source, target)
    case Renet(ss, g, date) => CreateAll(db, NettingEntries(ss, g, date))
    case Fold(_, bs, _) => Collapse(db, bs)
    case Repeat(_, tmpl, rows, date) => Create(db, Copied(tmpl, rows, date))
    case StartRepeat(id) => Schedule(db, id)
    case StopRepeat(id) => Success(Unschedule(db, id))
  }

  /** A template's occurrence with the rows read for it. */
  function Copied(tmpl: Expense, rows: seq<Part>, date: string): Expense {
    tmpl.(date := date, parts := rows, conversionTo := None)
  }

  /** A rejected write rolls back. */
  function Next(db: Db, op: Op): Db {
    match Apply(db, op)
    case Success(n) => n
    case Failure(_) => db
  }

  predicate Immutable(e: Expense) {
    e.split == NETTING
  }

  /** What the edit guards accept. */
  predicate CanMove(e: Expense) {
    !IsConversion(e) && e.split != ARCHIVE && !Immutable(e) && !e.deleted
  }

  /** seen is a state in which the service's guards let op through. */
  ghost predicate Allowed(seen: Db, op: Op) {
    match op
    case Add(e) => Addable(e)
    case Edit(id, e, _) => Addable(e) && id in seen.expenses && CanMove(seen.expenses[id])
    case Delete(id, _) => id in seen.expenses && !Immutable(seen.expenses[id]) && !IsConversion(seen.expenses[id])
    case DeleteBoth(id, _) => id in seen.expenses && IsConversion(seen.expenses[id])
    case Convert(source, target) => Leg(source) && Leg(target)
    case Renet(ss, g, _) => exists rows, pairs :: Planned(ss, seen, g, rows, pairs)
    case Fold(scope, bs, rd) => BatchesOf(seen.expenses, rd, scope, bs) && Free(seen.templates, bs)
    case Repeat(id, tmpl, _, _) => id in seen.templates && tmpl.split != ARCHIVE && !Immutable(tmpl)
    case StartRepeat(id) => id in seen.expenses && Recurs(seen.expenses[id])
    case StopRepeat(_) => true
  }

  /** What may be repeated. */
  predicate Recurs(e: Expense) {
    !IsConversion(e) && e.split != ARCHIVE && !Immutable(e)
  }

  /** These are the rows of x in some state from s to i. */
  ghost predicate RowsRead(dbs: seq<Db>, s: nat, i: nat, x: Id, rows: seq<Part>) {
    exists k :: s <= k <= i && k < |dbs| && rows == RowsAt(dbs[k].expenses, x)
  }

  /** The template was read in some state from s to i, its rows there or later. */
  ghost predicate TemplateRead(dbs: seq<Db>, s: nat, i: nat, id: Id, tmpl: Expense, rows: seq<Part>) {
    exists k :: s <= k <= i && k < |dbs| && id in dbs[k].expenses && dbs[k].expenses[id] == tmpl && RowsRead(dbs, k, i, id, rows)
  }

  /** What op carries was read in states from s to i, each piece in its own. */
  ghost predicate ReadIn(dbs: seq<Db>, s: nat, i: nat, op: Op) {
    match op
    case Fold(_, _, rd) => forall x :: x in rd ==> RowsRead(dbs, s, i, x, rd[x])
    case Repeat(id, tmpl, rows, _) => TemplateRead(dbs, s, i, id, tmpl, rows)
    case _ => true
  }

  /** Op i was let through in state seenAt[i], at or before i, carries what was read from there on,
      and led from state i to the next. */
  ghost predicate DecidedAt(dbs: seq<Db>, ops: seq<Op>, seenAt: seq<nat>, i: nat)
    requires |dbs| == |ops| + 1 && |seenAt| == |ops|
  {
    && i < |ops| && seenAt[i] <= i
    && Allowed(dbs[seenAt[i]], ops[i]) && ReadIn(dbs, seenAt[i], i, ops[i]) && dbs[i + 1] == Next(dbs[i], ops[i])
  }

  /** dbs[i] is the state before ops[i]. */
  ghost predicate Run(dbs: seq<Db>, ops: seq<Op>, seenAt: seq<nat>) {
    && |dbs| == |ops| + 1 && |seenAt| == |ops| && ValidDb(dbs[0])
    && forall i {:trigger ops[i]} {:trigger seenAt[i]} :: 0 <= i < |ops| ==> DecidedAt(dbs, ops, seenAt, i)
  }

  // ----------------------------------------------------------- one step

  /** Up to j every state is valid and evolves from every one before it. */
  ghost predicate Lawful(dbs: seq<Db>, j: nat)
    requires j < |dbs|
  {
    (forall i :: 0 <= i <= j ==> ValidDb(dbs[i])) && forall i, k :: 0 <= i <= k <= j ==> Evolves(dbs[i], dbs[k])
  }

  /** What any valid states give op to carry. */
  ghost predicate Plausible(op: Op) {
    match op
    case Fold(_, _, rd) => BalancedReads(rd)
    case Repeat(_, tmpl, rows, _) => Storable(Copied(tmpl, rows, "")) && Balanced(rows)
    case _ => true
  }

  lemma RowsBalanced(dbs: seq<Db>, s: nat, i: nat, x: Id, rows: seq<Part>)
    requires s <= i < |dbs| && (forall k :: s <= k <= i ==> ValidDb(dbs[k])) && RowsRead(dbs, s, i, x, rows)
    ensures Balanced(rows)
  {
  }

  lemma TemplateStorable(dbs: seq<Db>, s: nat, i: nat, id: Id, tmpl: Expense, rows: seq<Part>)
    requires s <= i < |dbs| && Lawful(dbs, i)
    requires id in dbs[s].templates && TemplateRead(dbs, s, i, id, tmpl, rows)
    ensures Storable(Copied(tmpl, rows, "")) && Balanced(rows)
  {
    var k :| s <= k <= i && k < |dbs| && id in dbs[k].expenses && dbs[k].expenses[id] == tmpl && RowsRead(dbs, k, i, id, rows);
    RowsBalanced(dbs, k, i, id, rows);
    TemplateCopies(dbs[s], dbs[k], id, rows);
  }

  lemma TemplateCopies(seen: Db, mid: Db, id: Id, rows: seq<Part>)
    requires ValidDb(seen) && ValidDb(mid) && Evolves(seen, mid) && id in seen.templates && id in mid.expenses && Balanced(rows)
    ensures Storable(Copied(mid.expenses[id], rows, ""))
  {
    assert Later(seen.expenses[id], mid.expenses[id]);
  }

  lemma ReadsPlausible(dbs: seq<Db>, s: nat, i: nat, op: Op)
    requires s <= i < |dbs| && Lawful(dbs, i)
    requires Allowed(dbs[s], op) && ReadIn(dbs, s, i, op)
    ensures Plausible(op)
  {
    match op
    case Fold(_, _, rd) =>
      forall x | x in rd ensures Balanced(rd[x]) { RowsBalanced(dbs, s, i, x, rd[x]); }
    case Repeat(id, tmpl, rows, _) => TemplateStorable(dbs, s, i, id, tmpl, rows);
    case _ =>
  }

  /** What CollapseKeeps asks of one batch. */
  ghost predicate Acceptable(db: Db, b: Batch) {
    Storable(b.expense) && Movable(db, b)
  }

  lemma BatchesMovable(seen: Db, rd: Reads, db: Db, scope: Option<GroupId>, bs: seq<Batch>)
    requires ValidDb(seen) && Evolves(seen, db) && BatchesOf(seen.expenses, rd, scope, bs) && BalancedReads(rd)
    ensures forall j :: 0 <= j < |bs| ==> Acceptable(db, bs[j])
  {
    forall j | 0 <= j < |bs| ensures Acceptable(db, bs[j]) {
      BatchesAt(seen.expenses, rd, scope, bs, j);
      BatchValid(seen.expenses, rd, scope, bs[j].expense.currency, bs[j]);
      BatchMovable(seen, db, scope, bs[j]);
    }
  }

  lemma BatchMovable(seen: Db, db: Db, scope: Option<GroupId>, b: Batch)
    requires ValidDb(seen) && Evolves(seen, db) && Collapsible(seen.expenses, scope, b.expense.currency, b.origins)
    ensures Movable(db, b)
  {
    forall i | i in b.origins ensures i < db.next && (i in db.expenses ==> !IsConversion(db.expenses[i])) {
      assert i in seen.expenses;
      if i in db.expenses { assert Later(seen.expenses[i], db.expenses[i]); }
    }
  }

  /** A write decided in an older state, on what it read since, still keeps everything. */
  lemma StepForward(seen: Db, db: Db, op: Op)
    requires ValidDb(seen) && ValidDb(db) && Evolves(seen, db) && Allowed(seen, op) && Plausible(op)
    ensures Forward(db, Next(db, op))
  {
    assert Forward(db, db);
    match op
    case Add(e) => CreateKeeps(db, e);
    case Edit(id, e, token) => UpdateKeeps(db, id, e, token);
    case Delete(id, token) => SoftDeleteKeeps(db, id, token);
    case DeleteBoth(id, token) => SoftDeleteConversionKeeps(db, id, token);
    case Convert(source, target) => ConversionPairKeeps(db, source, target);
    case Renet(ss, g, date) => NetForward(seen, db, ss, g, date);
    case Fold(scope, bs, rd) =>
      BatchesMovable(seen, rd, db, scope, bs);
      assert forall j :: 0 <= j < |bs| ==> Acceptable(db, bs[j]);
      CollapseKeeps(db, bs);
    case Repeat(id, tmpl, rows, date) => CreateKeeps(db, Copied(tmpl, rows, date));
    case StartRepeat(id) => RecurrenceKeeps(seen, db, id);
    case StopRepeat(id) => StopKeeps(db, id);
  }

  lemma RecurrenceKeeps(seen: Db, db: Db, id: Id)
    requires ValidDb(seen) && ValidDb(db) && Evolves(seen, db) && id in seen.expenses && Recurs(seen.expenses[id])
    ensures Keeps(db, Schedule(db, id))
  {
    if id in db.expenses { assert Later(seen.expenses[id], db.expenses[id]); }
    ScheduleKeeps(db, id);
  }

  lemma StopKeeps(db: Db, id: Id)
    requires ValidDb(db)
    ensures Forward(db, Unschedule(db, id))
  {
  }

  lemma NetForward(seen: Db, db: Db, ss: seq<Shift>, g: GroupId, date: string)
    requires ValidDb(seen) && ValidDb(db) && Allowed(seen, Renet(ss, g, date))
    ensures CreateAll(db, NettingEntries(ss, g, date)).Success?
    ensures Forward(db, CreateAll(db, NettingEntries(ss, g, date)).value)
  {
    var rows, pairs :| Planned(ss, seen, g, rows, pairs);
    PlannedWritable(ss, seen, g, rows, pairs);
    EntriesEffect(db, ss, NETTING, g, date, None, PairKey("", 0, 0), "", 0);
  }

  // ------------------------------------------------------------ whole runs

  /** One write of a run, decided in some earlier state. */
  lemma RunStep(dbs: seq<Db>, ops: seq<Op>, seenAt: seq<nat>, j: nat)
    requires Run(dbs, ops, seenAt) && j < |ops| && Lawful(dbs, j)
    ensures Plausible(ops[j])
    ensures ValidDb(dbs[j + 1]) && Evolves(dbs[j], dbs[j + 1]) && Evolves(dbs[j + 1], dbs[j + 1])
  {
    assert DecidedAt(dbs, ops, seenAt, j);
    ReadsPlausible(dbs, seenAt[j], j, ops[j]);
    StepForward(dbs[seenAt[j]], dbs[j], ops[j]);
  }

  /** Every state of every run is valid -- distinct rows that sum to zero, versions from 1 up,
      conversion legs paired, recurrences with a template -- and evolves from every earlier one. */
  lemma {:induction false} RunValid(dbs: seq<Db>, ops: seq<Op>, seenAt: seq<nat>, j: nat)
    requires Run(dbs, ops, seenAt) && j < |dbs|
    ensures Lawful(dbs, j)
  {
    if j == 0 {
      LawfulStart(dbs);
    } else {
      var i: nat := j - 1;
      RunValid(dbs, ops, seenAt, i);
      RunStep(dbs, ops, seenAt, i);
      LawfulStep(dbs, i, j);
    }
  }

  lemma LawfulStart(dbs: seq<Db>)
    requires dbs != [] && ValidDb(dbs[0])
    ensures Lawful(dbs, 0)
  {
    forall i, k | 0 <= i <= k <= 0 ensures Evolves(dbs[i], dbs[k]) {}
  }

  lemma LawfulStep(dbs: seq<Db>, i: nat, j: nat)
    requires j == i + 1 < |dbs| && Lawful(dbs, i)
    requires ValidDb(dbs[j]) && Evolves(dbs[i], dbs[j]) && Evolves(dbs[j], dbs[j])
    ensures Lawful(dbs, j)
  {
    forall k, l | 0 <= k <= l <= j ensures Evolves(dbs[k], dbs[l]) {
      if k < l == j { EvolvesTransitive(dbs[k], dbs[i], dbs[l]); }
    }
  }

  /** A netting step changes nobody's net in any scope, however old its read was. */
  lemma NettingStepKeepsNets(dbs: seq<Db>, ops: seq<Op>, seenAt: seq<nat>, j: nat,
                             sc: Option<GroupId>, cur: string, u: UserId)
    requires Run(dbs, ops, seenAt) && j < |ops| && ops[j].Renet?
    ensures Net(dbs[j + 1].expenses, sc, cur, u) == Net(dbs[j].expenses, sc, cur, u)
  {
    RunValid(dbs, ops, seenAt, j);
    assert DecidedAt(dbs, ops, seenAt, j);
    var Renet(ss, g, date) := ops[j];
    var seen := dbs[seenAt[j]];
    var rows, pairs :| Planned(ss, seen, g, rows, pairs);
    NettingKeepsNets(seen, dbs[j], ss, g, date, rows, pairs, sc, cur, u);
  }

  /** Rows read for origins whose versions are at the commit what they were when listed are the
      rows they had when listed. */
  lemma {:induction false} UneditedReads(dbs: seq<Db>, s: nat, i: nat, rd: Reads, g: Option<GroupId>, bs: seq<Batch>)
    requires s <= i < |dbs| && ValidDb(dbs[s])
    requires forall k :: s <= k <= i ==> Evolves(dbs[s], dbs[k]) && Evolves(dbs[k], dbs[i])
    requires forall x :: x in rd ==> RowsRead(dbs, s, i, x, rd[x])
    requires BatchesOf(dbs[s].expenses, rd, g, bs) && AllUnedited(dbs[s].expenses, dbs[i].expenses, bs)
    ensures AllOwn(dbs[s].expenses, rd, bs)
  {
    if bs != [] {
      forall x | x in bs[0].origins ensures x in dbs[s].expenses && x in rd && rd[x] == dbs[s].expenses[x].parts {
        assert RowsRead(dbs, s, i, x, rd[x]);
        var k :| s <= k <= i && k < |dbs| && rd[x] == RowsAt(dbs[k].expenses, x);
        BetweenUnedited(dbs[s], dbs[k], dbs[i], x);
      }
      UneditedReads(dbs, s, i, rd, g, bs[1..]);
    }
  }

  /** A collapse step keeps every net when none of its origins was edited or deleted between
      its listing and its commit, whenever their rows were read; a refused one does in any case. */
  lemma FoldStepKeepsNets(dbs: seq<Db>, ops: seq<Op>, seenAt: seq<nat>, j: nat,
                          sc: Option<GroupId>, cur: string, u: UserId)
    requires Run(dbs, ops, seenAt) && j < |ops| && ops[j].Fold?
    requires AllUnedited(dbs[seenAt[j]].expenses, dbs[j].expenses, ops[j].bs)
    ensures Apply(dbs[j], ops[j]).Success? <==> Free(dbs[j].templates, ops[j].bs)
    ensures Net(dbs[j + 1].expenses, sc, cur, u) == Net(dbs[j].expenses, sc, cur, u)
  {
    RunValid(dbs, ops, seenAt, j);
    assert DecidedAt(dbs, ops, seenAt, j);
    var Fold(scope, bs, rd) := ops[j];
    var s := seenAt[j];
    RefusedIff(dbs[s].expenses, rd, scope, dbs[j], bs);
    if Free(dbs[j].templates, bs) {
      UneditedReads(dbs, s, j, rd, scope, bs);
      CollapseOfUnedited(dbs[s], rd, dbs[j], scope, bs, sc, cur, u);
    }
  }

  /** In general a collapse step that goes through keeps a net exactly when its origins contribute
      to that net at the commit what the rows read for them give it. */
  lemma FoldStepKeepsNetIff(dbs: seq<Db>, ops: seq<Op>, seenAt: seq<nat>, j: nat,
                            sc: Option<GroupId>, cur: string, u: UserId)
    requires Run(dbs, ops, seenAt) && j < |ops| && ops[j].Fold?
    requires Apply(dbs[j], ops[j]).Success?
    ensures Net(dbs[j + 1].expenses, sc, cur, u) == Net(dbs[j].expenses, sc, cur, u)
       <==> Taken(dbs[j].expenses, ops[j].bs, NetFn(sc, cur, u)) == Share(ops[j].rd, ops[j].scope, ops[j].bs, sc, cur, u)
  {
    RunValid(dbs, ops, seenAt, j);
    assert DecidedAt(dbs, ops, seenAt, j);
    var Fold(scope, bs, rd) := ops[j];
    CollapseMovesNet(dbs[seenAt[j]], rd, dbs[j], scope, bs, sc, cur, u);
  }

  // ------------------------------------------------------- the payer's row

  /** What op writes lists its payer: a collapse needs some row for every batch, a repetition the
      template's payer among the rows read. */
  ghost predicate ListsPayer(op: Op) {
    match op
    case Fold(_, bs, rd) => AllSomeRows(rd, bs)
    case Repeat(_, tmpl, rows, _) => tmpl.paidBy in Users(rows)
    case _ => true
  }

  ghost predicate AllSomeRows(rd: Reads, bs: seq<Batch>) {
    bs == [] || (SomeRows(rd, bs[0].origins) && AllSomeRows(rd, bs[1..]))
  }

  lemma CreateLists(db: Db, e: Expense)
    requires ValidDb(db) && PayersListed(db.expenses)
    ensures PayersListed(Insert(db, e).expenses) <==> Listed(e)
  {
    assert Insert(db, e).expenses[db.next] == Stored(e);
    if Listed(e) { assert PayersListed(Insert(db, e).expenses); }
  }

  lemma {:induction false} EntriesList(db: Db, ss: seq<Shift>, g: GroupId, date: string)
    requires ValidDb(db) && Writable(ss) && PayersListed(db.expenses)
    requires CreateAll(db, NettingEntries(ss, g, date)).Success?
    ensures PayersListed(CreateAll(db, NettingEntries(ss, g, date)).value.expenses)
    decreases |ss|
  {
    if ss != [] {
      var e := Entry(ss[0], NETTING, g, date);
      EntryAddable(ss[0], NETTING, g, date);
      CreateKeeps(db, e);
      CreateLists(db, e);
      assert NettingEntries(ss, g, date)[1..] == NettingEntries(ss[1..], g, date);
      EntriesList(Insert(db, e), ss[1..], g, date);
    }
  }

  lemma {:induction false} RowStays(db: Db, bs: seq<Batch>, x: Id)
    requires Collapse(db, bs).Success? && x in db.expenses && x < db.next
    requires forall k :: 0 <= k < |bs| ==> x !in bs[k].origins
    ensures x in Collapse(db, bs).value.expenses && Collapse(db, bs).value.expenses[x] == db.expenses[x]
    decreases |bs|
  {
    if bs != [] {
      forall k | 0 <= k < |bs[1..]| ensures x !in bs[1..][k].origins {
        assert bs[1..][k] == bs[k + 1];
      }
      RowStays(CollapseOne(db, bs[0]).value, bs[1..], x);
    }
  }

  lemma {:induction false} OlderAt(bs: seq<Batch>, next: Id, k: nat)
    requires OlderThan(bs, next) && k < |bs|
    ensures next !in bs[k].origins
  {
    if k > 0 { OlderAt(bs[1..], next, k - 1); }
  }

  lemma OneLists(before: Table, rd: Reads, g: Option<GroupId>, db: Db, b: Batch)
    requires Fresh(db) && CollapseOne(db, b).Success? && BatchOf(before, rd, g, b.expense.currency, b)
    requires forall i :: i in b.origins ==> i < db.next
    ensures var n := CollapseOne(db, b).value.expenses;
      && db.next in n && (Listed(n[db.next]) <==> SomeRows(rd, b.origins))
      && (PayersListed(db.expenses) && SomeRows(rd, b.origins) ==> PayersListed(n))
  {
    BatchListsPayerIff(before, rd, g, b.expense.currency, b);
  }

  /** A collapse leaves every payer listed exactly when every batch found some row. */
  lemma {:induction false} FoldLists(before: Table, rd: Reads, g: Option<GroupId>, db: Db, bs: seq<Batch>)
    requires Fresh(db) && BatchesOf(before, rd, g, bs) && OlderThan(bs, db.next)
    requires Collapse(db, bs).Success? && PayersListed(db.expenses)
    ensures PayersListed(Collapse(db, bs).value.expenses) <==> AllSomeRows(rd, bs)
    decreases |bs|
  {
    if bs != [] {
      var mid := CollapseOne(db, bs[0]).value;
      OneCollapsed(db, bs[0]);
      OneLists(before, rd, g, db, bs[0]);
      if SomeRows(rd, bs[0].origins) {
        StillOlder(bs[1..], db.next, mid.next);
        FoldLists(before, rd, g, mid, bs[1..]);
      } else {
        FirstLosesPayer(before, rd, g, db, bs);
      }
    }
  }

  lemma FoldStepLists(seen: Db, db: Db, rd: Reads, g: Option<GroupId>, bs: seq<Batch>)
    requires ValidDb(seen) && ValidDb(db) && seen.next <= db.next && BatchesOf(seen.expenses, rd, g, bs)
    requires Collapse(db, bs).Success? && PayersListed(db.expenses)
    ensures PayersListed(Collapse(db, bs).value.expenses) <==> AllSomeRows(rd, bs)
  {
    OriginsAreOld(seen, rd, g, bs);
    StillOlder(bs, seen.next, db.next);
    FoldLists(seen.expenses, rd, g, db, bs);
  }

  lemma NetStepLists(seen: Db, db: Db, ss: seq<Shift>, g: GroupId, date: string)
    requires ValidDb(seen) && ValidDb(db) && Allowed(seen, Renet(ss, g, date)) && PayersListed(db.expenses)
    requires CreateAll(db, NettingEntries(ss, g, date)).Success?
    ensures PayersListed(CreateAll(db, NettingEntries(ss, g, date)).value.expenses)
  {
    var rows, pairs :| Planned(ss, seen, g, rows, pairs);
    PlannedWritable(ss, seen, g, rows, pairs);
    EntriesList(db, ss, g, date);
  }

  /** A write leaves every payer listed exactly when what it writes lists its payer. */
  lemma StepListsIff(seen: Db, db: Db, op: Op)
    requires ValidDb(seen) && ValidDb(db) && Evolves(seen, db) && Allowed(seen, op) && Plausible(op)
    requires Apply(db, op).Success? && PayersListed(db.expenses)
    ensures PayersListed(Next(db, op).expenses) <==> ListsPayer(op)
  {
    match op
    case Add(e) => CreateLists(db, e);
    case Renet(ss, g, date) => NetStepLists(seen, db, ss, g, date);
    case Fold(scope, bs, rd) => FoldStepLists(seen, db, rd, scope, bs);
    case Repeat(id, tmpl, rows, date) => CreateLists(db, Copied(tmpl, rows, date));
    case Edit(id, e, token) => EditLists(db, id, e, token);
    case Delete(id, token) => DeadLists(db, id, token);
    case DeleteBoth(id, token) => BothDeadList(db, id, token);
    case Convert(source, target) => PairLists(db, source, target);
    case _ =>
  }

  lemma EditLists(db: Db, id: Id, e: Expense, token: nat)
    requires PayersListed(db.expenses) && Listed(e) && Update(db, id, e, token).Success?
    ensures PayersListed(Update(db, id, e, token).value.expenses)
  {
  }

  lemma DeadLists(db: Db, id: Id, token: nat)
    requires PayersListed(db.expenses) && SoftDelete(db, id, token).Success?
    ensures PayersListed(SoftDelete(db, id, token).value.expenses)
  {
  }

  lemma BothDeadList(db: Db, id: Id, token: nat)
    requires PayersListed(db.expenses) && SoftDeleteConversion(db, id, token).Success?
    ensures PayersListed(SoftDeleteConversion(db, id, token).value.expenses)
  {
    DeadLists(db, id, token);
  }

  lemma PairLists(db: Db, source: Expense, target: Expense)
    requires PayersListed(db.expenses) && Listed(source) && Listed(target) && ConversionPair(db, source, target).Success?
    ensures PayersListed(ConversionPair(db, source, target).value.expenses)
  {
    PairResult(db, source, target);
  }

  /** Every payer has a row in every state of a run exactly when no collapse that went through had
      a batch all of whose origins were gone when their rows were read, and no repetition copied
      rows without the payer it had read. */
  lemma {:induction false} RunListsIff(dbs: seq<Db>, ops: seq<Op>, seenAt: seq<nat>)
    requires Run(dbs, ops, seenAt) && PayersListed(dbs[0].expenses)
    ensures (forall j :: 0 <= j < |dbs| ==> PayersListed(dbs[j].expenses))
       <==> (forall i :: 0 <= i < |ops| ==> KeepsPayers(dbs[i], ops[i]))
  {
    if forall j :: 0 <= j < |dbs| ==> PayersListed(dbs[j].expenses) {
      forall i | 0 <= i < |ops| ensures KeepsPayers(dbs[i], ops[i]) {
        RunStepLists(dbs, ops, seenAt, i);
        assert PayersListed(dbs[i + 1].expenses);
      }
    }
    if forall i :: 0 <= i < |ops| ==> KeepsPayers(dbs[i], ops[i]) {
      forall i | 0 <= i < |ops| && PayersListed(dbs[i].expenses) ensures PayersListed(dbs[i + 1].expenses) {
        RunStepLists(dbs, ops, seenAt, i);
      }
      forall j | 0 <= j < |dbs| ensures PayersListed(dbs[j].expenses) {
        PayersStay(dbs, j);
      }
    }
  }

  /** If op goes through, what it writes lists its payer. */
  ghost predicate KeepsPayers(db: Db, op: Op) {
    Apply(db, op).Success? ==> ListsPayer(op)
  }

  lemma RunStepLists(dbs: seq<Db>, ops: seq<Op>, seenAt: seq<nat>, i: nat)
    requires Run(dbs, ops, seenAt) && i < |ops| && PayersListed(dbs[i].expenses)
    ensures PayersListed(dbs[i + 1].expenses) <==> KeepsPayers(dbs[i], ops[i])
  {
    RunValid(dbs, ops, seenAt, i);
    RunStep(dbs, ops, seenAt, i);
    assert DecidedAt(dbs, ops, seenAt, i);
    if Apply(dbs[i], ops[i]).Success? { StepListsIff(dbs[seenAt[i]], dbs[i], ops[i]); }
  }

  lemma {:induction false} PayersStay(dbs: seq<Db>, j: nat)
    requires j < |dbs| && PayersListed(dbs[0].expenses)
    requires forall i :: 0 <= i < |dbs| - 1 && PayersListed(dbs[i].expenses) ==> PayersListed(dbs[i + 1].expenses)
    ensures PayersListed(dbs[j].expenses)
  {
    if j > 0 {
      var i := j - 1;
      PayersStay(dbs, i);
      assert PayersListed(dbs[i].expenses);
    }
  }

  /** The row and token a versioned write names. */
  predicate WritesRow(op: Op, id: Id, token: nat) {
    match op
    case Edit(i, _, t) => i == id && t == token
    case Delete(i, t) => i == id && t == token
    case DeleteBoth(i, t) => i == id && t == token
    case _ => false
  }

  lemma WriteBumps(db: Db, op: Op, id: Id, token: nat)
    requires WritesRow(op, id, token) && Apply(db, op).Success?
    ensures id in db.expenses && db.expenses[id].version == token
    ensures var n := Next(db, op); id in n.expenses && n.expenses[id].version > token
  {
  }

  /** Two writers holding the same token never both succeed, and token 0 never does. */
  lemma TokenSucceedsOnce(dbs: seq<Db>, ops: seq<Op>, seenAt: seq<nat>, i: nat, j: nat, id: Id, token: nat)
    requires Run(dbs, ops, seenAt) && i < j < |ops|
    requires WritesRow(ops[i], id, token) && WritesRow(ops[j], id, token)
    ensures Apply(dbs[i], ops[i]).Failure? || Apply(dbs[j], ops[j]).Failure?
    ensures token == 0 ==> Apply(dbs[i], ops[i]).Failure? && Apply(dbs[j], ops[j]).Failure?
  {
    RunValid(dbs, ops, seenAt, j);
    if Apply(dbs[i], ops[i]).Success? { WriteBumps(dbs[i], ops[i], id, token); }
    if Apply(dbs[j], ops[j]).Success? { WriteBumps(dbs[j], ops[j], id, token); }
    if Apply(dbs[i], ops[i]).Success? && id in dbs[j].expenses {
      assert dbs[i + 1] == Next(dbs[i], ops[i]);
      assert id < dbs[i + 1].next by { RunValid(dbs, ops, seenAt, i + 1); }
      assert Later(dbs[i + 1].expenses[id], dbs[j].expenses[id]);
    }
  }

  /** An edit whose token is no newer than the row its guard looked at never lands on a row
      deleted since. */
  lemma NoEditAfterDelete(dbs: seq<Db>, ops: seq<Op>, seenAt: seq<nat>, j: nat)
    requires Run(dbs, ops, seenAt) && j < |ops| && ops[j].Edit?
    requires ops[j].token <= dbs[seenAt[j]].expenses[ops[j].id].version
    requires ops[j].id !in dbs[j].expenses || dbs[j].expenses[ops[j].id].deleted
    ensures Apply(dbs[j], ops[j]) == Failure(Stale) && dbs[j + 1] == dbs[j]
  {
    RunValid(dbs, ops, seenAt, j);
    var id := ops[j].id;
    if id in dbs[j].expenses {
      assert Later(dbs[seenAt[j]].expenses[id], dbs[j].expenses[id]);
    }
  }

  /** Some run from db on ends with the edit, decided in db, landing on the row while it is
      deleted. */
  ghost predicate CanLandOnDeleted(db: Db, edit: Op)
    requires edit.Edit?
  {
    exists dbs, ops, seenAt :: Run(dbs, ops, seenAt) && LandsOnDeleted(dbs, ops, seenAt, db, edit)
  }

  ghost predicate LandsOnDeleted(dbs: seq<Db>, ops: seq<Op>, seenAt: seq<nat>, db: Db, edit: Op)
    requires Run(dbs, ops, seenAt) && edit.Edit?
  {
    var n := |ops| - 1;
    && n >= 0 && dbs[0] == db && ops[n] == edit && seenAt[n] == 0
    && edit.id in dbs[n].expenses && dbs[n].expenses[edit.id].deleted && Apply(dbs[n], edit).Success?
  }

  /** One more write of a run, decided in its first state. */
  lemma Extend(dbs: seq<Db>, ops: seq<Op>, seenAt: seq<nat>, op: Op) returns (n: Db, dbs': seq<Db>, ops': seq<Op>, seenAt': seq<nat>)
    requires Run(dbs, ops, seenAt) && Allowed(dbs[0], op) && ReadIn(dbs, 0, |ops|, op)
    ensures dbs' == dbs + [n] && ops' == ops + [op] && seenAt' == seenAt + [0]
    ensures n == Next(dbs[|ops|], op) && Run(dbs', ops', seenAt')
  {
    n := Next(dbs[|ops|], op);
    dbs', ops', seenAt' := dbs + [n], ops + [op], seenAt + [0];
    StillRead(dbs, n, 0, |ops|, op);
    LastDecided(dbs, ops, seenAt, op, n);
    forall i | 0 <= i < |ops'| ensures DecidedAt(dbs', ops', seenAt', i) {
      if i < |ops| { StillDecided(dbs, ops, seenAt, op, n, i); } else { assert i == |ops|; }
    }
  }

  lemma StillRowsRead(dbs: seq<Db>, n: Db, s: nat, i: nat, x: Id, rows: seq<Part>)
    requires RowsRead(dbs, s, i, x, rows)
    ensures RowsRead(dbs + [n], s, i, x, rows)
  {
    var k :| s <= k <= i && k < |dbs| && rows == RowsAt(dbs[k].expenses, x);
    assert (dbs + [n])[k] == dbs[k];
  }

  lemma StillRead(dbs: seq<Db>, n: Db, s: nat, i: nat, op: Op)
    requires ReadIn(dbs, s, i, op)
    ensures ReadIn(dbs + [n], s, i, op)
  {
    match op
    case Fold(_, _, rd) =>
      forall x | x in rd ensures RowsRead(dbs + [n], s, i, x, rd[x]) { StillRowsRead(dbs, n, s, i, x, rd[x]); }
    case Repeat(id, tmpl, rows, _) =>
      var k :| s <= k <= i && k < |dbs| && id in dbs[k].expenses && dbs[k].expenses[id] == tmpl && RowsRead(dbs, k, i, id, rows);
      StillRowsRead(dbs, n, k, i, id, rows);
      assert (dbs + [n])[k] == dbs[k];
    case _ =>
  }

  lemma LastDecided(dbs: seq<Db>, ops: seq<Op>, seenAt: seq<nat>, op: Op, n: Db)
    requires |dbs| == |ops| + 1 && |seenAt| == |ops| && Allowed(dbs[0], op) && n == Next(dbs[|ops|], op)
    requires ReadIn(dbs + [n], 0, |ops|, op)
    ensures DecidedAt(dbs + [n], ops + [op], seenAt + [0], |ops|)
  {
  }

  lemma StillDecided(dbs: seq<Db>, ops: seq<Op>, seenAt: seq<nat>, op: Op, n: Db, i: nat)
    requires Run(dbs, ops, seenAt) && i < |ops|
    ensures DecidedAt(dbs + [n], ops + [op], seenAt + [0], i)
  {
    assert DecidedAt(dbs, ops, seenAt, i);
    StillRead(dbs, n, seenAt[i], i, ops[i]);
  }

  /** Edits decided in the first state bring the row to any later version. */
  lemma {:induction false} EditUpTo(db: Db, id: Id, e: Expense, v: nat) returns (dbs: seq<Db>, ops: seq<Op>, seenAt: seq<nat>)
    requires ValidDb(db) && Allowed(db, Edit(id, e, 0)) && NoRepeat(e.parts) && db.expenses[id].version <= v
    ensures Run(dbs, ops, seenAt) && dbs[0] == db
    ensures var last := dbs[|ops|];
      id in last.expenses && last.expenses[id].version == v && !last.expenses[id].deleted
    decreases v
  {
    if v == db.expenses[id].version {
      dbs, ops, seenAt := [db], [], [];
    } else {
      dbs, ops, seenAt := EditUpTo(db, id, e, v - 1);
      var n;
      n, dbs, ops, seenAt := Extend(dbs, ops, seenAt, Edit(id, e, v - 1));
    }
  }

  /** Edits up to the version before, a deletion, and then the edit with the version the
      deletion left. */
  lemma GuessLands(db: Db, id: Id, e: Expense, token: nat)
    requires ValidDb(db) && Allowed(db, Edit(id, e, token)) && NoRepeat(e.parts)
    requires token > db.expenses[id].version
    ensures CanLandOnDeleted(db, Edit(id, e, token))
  {
    var edit := Edit(id, e, token);
    var dbs, ops, seenAt := EditUpTo(db, id, e, token - 1);
    var n;
    n, dbs, ops, seenAt := Extend(dbs, ops, seenAt, Delete(id, token - 1));
    assert id in n.expenses && n.expenses[id].deleted && n.expenses[id].version == token;
    var after;
    after, dbs, ops, seenAt := Extend(dbs, ops, seenAt, edit);
    assert LandsOnDeleted(dbs, ops, seenAt, db, edit);
  }

  /** An edit that passed its guard can land on a deleted row exactly when its token is newer
      than the row the guard looked at. */
  lemma EditOnDeletedIff(db: Db, id: Id, e: Expense, token: nat)
    requires ValidDb(db) && Allowed(db, Edit(id, e, token)) && NoRepeat(e.parts)
    ensures CanLandOnDeleted(db, Edit(id, e, token)) <==> token > db.expenses[id].version
  {
    if token > db.expenses[id].version {
      GuessLands(db, id, e, token);
    } else {
      OldTokenNeverLands(db, Edit(id, e, token));
    }
  }

  lemma OldTokenNeverLands(db: Db, edit: Op)
    requires edit.Edit? && edit.id in db.expenses && edit.token <= db.expenses[edit.id].version
    ensures !CanLandOnDeleted(db, edit)
  {
    forall dbs, ops, seenAt | Run(dbs, ops, seenAt) ensures !LandsOnDeleted(dbs, ops, seenAt, db, edit) {
      OldTokenIsStale(dbs, ops, seenAt, db, edit);
    }
  }

  lemma OldTokenIsStale(dbs: seq<Db>, ops: seq<Op>, seenAt: seq<nat>, db: Db, edit: Op)
    requires Run(dbs, ops, seenAt)
    requires edit.Edit? && edit.id in db.expenses && edit.token <= db.expenses[edit.id].version
    ensures !LandsOnDeleted(dbs, ops, seenAt, db, edit)
  {
    if LandsOnDeleted(dbs, ops, seenAt, db, edit) {
      var n := |ops| - 1;
      assert seenAt[n] == 0 && dbs[0] == db && ops[n] == edit;
      NoEditAfterDelete(dbs, ops, seenAt, n);
    }
  }

  /** The legs of a conversion are both live or both deleted, in every state of every run. */
  lemma LegsTogether(dbs: seq<Db>, ops: seq<Op>, seenAt: seq<nat>, j: nat, i: Id)
    requires Run(dbs, ops, seenAt) && j < |dbs|
    requires i in dbs[j].expenses && IsConversion(dbs[j].expenses[i])
    ensures exists t :: t != i && Partner(dbs[j].expenses, i, t) && dbs[j].expenses[t].deleted == dbs[j].expenses[i].deleted
  {
    RunValid(dbs, ops, seenAt, j);
    var m := dbs[j].expenses;
    if m[i].conversionTo.Some? {
      assert LegPair(m, i, m[i].conversionTo.value);
    } else {
      assert HasSource(m, i);
      var t :| t in m && m[t].conversionTo == Some(i);
      assert LegPair(m, t, i);
    }
  }

  // -------------------------------------------------- when a payer is lost

  /** The same origins collapsed without a single row. */
  function Emptied(bs: seq<Batch>, actor: UserId): seq<Batch> {
    if bs == [] then []
    else [Batch(bs[0].expense.(amount := 0, paidBy := actor, parts := []), bs[0].origins)] + Emptied(bs[1..], actor)
  }

  lemma {:induction false} NoRows(rd: Reads, ids: seq<Id>)
    requires forall i :: i in ids ==> i in rd && rd[i] == []
    ensures OriginRows(rd, ids) == []
  {
    if ids != [] {
      var x0 := ids[0];
      assert x0 in ids;
      forall i | i in ids[1..] ensures i in ids {}
      NoRows(rd, ids[1..]);
    }
  }

  lemma EmptiedJoin(m: Table, none: Reads, g: Option<GroupId>, bs: seq<Batch>, rest: seq<Batch>, actor: UserId)
    requires bs != [] && bs[0].origins != [] && bs[0].expense.currency !in Currencies(bs[1..])
    requires rest == Emptied(bs[1..], actor) && BatchesOf(m, none, g, rest)
    requires Currencies(rest) == Currencies(bs[1..]) && |rest| == |bs| - 1
    requires var b := bs[0];
      BatchOf(m, none, g, b.expense.currency, Batch(b.expense.(amount := 0, paidBy := actor, parts := []), b.origins))
    ensures BatchesOf(m, none, g, Emptied(bs, actor)) && Currencies(Emptied(bs, actor)) == Currencies(bs)
    ensures |Emptied(bs, actor)| == |bs|
  {
    var b := Batch(bs[0].expense.(amount := 0, paidBy := actor, parts := []), bs[0].origins);
    assert Emptied(bs, actor) == [b] + rest;
    assert ([b] + rest)[1..] == rest;
  }

  lemma EmptiedBatch(m: Table, rd: Reads, none: Reads, g: Option<GroupId>, b: Batch, actor: UserId)
    requires BatchOf(m, rd, g, b.expense.currency, b)
    requires forall i :: i in b.origins ==> i in none && none[i] == []
    ensures BatchOf(m, none, g, b.expense.currency, Batch(b.expense.(amount := 0, paidBy := actor, parts := []), b.origins))
  {
    NoRows(none, b.origins);
  }

  ghost predicate AllGone(none: Reads, bs: seq<Batch>) {
    bs == [] || ((forall i :: i in bs[0].origins ==> i in none && none[i] == []) && AllGone(none, bs[1..]))
  }

  lemma {:induction false} AllGoneOf(none: Reads, bs: seq<Batch>)
    requires forall k, i :: 0 <= k < |bs| && i in bs[k].origins ==> i in none && none[i] == []
    ensures AllGone(none, bs)
  {
    if bs != [] {
      forall k, i | 0 <= k < |bs[1..]| && i in bs[1..][k].origins ensures i in none && none[i] == [] {
        assert bs[1..][k] == bs[k + 1];
      }
      AllGoneOf(none, bs[1..]);
    }
  }

  lemma {:induction false} EmptiedBatches(m: Table, rd: Reads, none: Reads, g: Option<GroupId>, bs: seq<Batch>, actor: UserId)
    requires BatchesOf(m, rd, g, bs) && AllGone(none, bs)
    ensures BatchesOf(m, none, g, Emptied(bs, actor)) && Currencies(Emptied(bs, actor)) == Currencies(bs)
    ensures |Emptied(bs, actor)| == |bs|
  {
    if bs != [] {
      EmptiedBatch(m, rd, none, g, bs[0], actor);
      EmptiedBatches(m, rd, none, g, bs[1..], actor);
      EmptiedJoin(m, none, g, bs, Emptied(bs[1..], actor), actor);
    }
  }

  lemma {:induction false} EmptiedFree(templates: set<Id>, bs: seq<Batch>, actor: UserId)
    requires Free(templates, bs)
    ensures Free(templates, Emptied(bs, actor))
  {
    if bs != [] {
      EmptiedFree(templates, bs[1..], actor);
      assert Emptied(bs, actor)[1..] == Emptied(bs[1..], actor);
    }
  }

  /** Two requests list the same history; one commits before the other reads the rows. From every
      valid state and for every collapse it allows, the second then commits expenses without a
      single row, which list no payer. */
  lemma OverlappingCollapses(db: Db, rd: Reads, g: Option<GroupId>, bs: seq<Batch>, actor: UserId)
    returns (dbs: seq<Db>, ops: seq<Op>, seenAt: seq<nat>, none: Reads)
    requires Ready(db, rd, g, bs) && bs != [] && forall x :: x in rd ==> rd[x] == RowsAt(db.expenses, x)
    ensures Run(dbs, ops, seenAt) && |ops| == 2 && dbs[0] == db && seenAt[0] == seenAt[1] == 0
    ensures ops[0] == Fold(g, bs, rd) && ops[1] == Fold(g, Emptied(bs, actor), none)
    ensures Collapse(dbs[0], bs) == Success(dbs[1]) && Collapse(dbs[1], Emptied(bs, actor)) == Success(dbs[2])
    ensures !PayersListed(dbs[2].expenses)
  {
    var once, twice;
    once, dbs, ops, seenAt := FirstCollapse(db, rd, g, bs);
    none := map i | i in rd && i !in once.expenses :: [];
    SecondFinds(db, rd, none, once, g, bs, actor);
    twice, dbs, ops, seenAt := SecondCollapse(dbs, ops, seenAt, db, once, none, g, Emptied(bs, actor));
  }

  /** Its reads done after the first commit, the second collapse goes through as well. */
  lemma SecondCollapse(dbs: seq<Db>, ops: seq<Op>, seenAt: seq<nat>, db: Db, once: Db, none: Reads, g: Option<GroupId>, bs: seq<Batch>)
    returns (n: Db, dbs': seq<Db>, ops': seq<Op>, seenAt': seq<nat>)
    requires Run(dbs, ops, seenAt) && dbs == [db, once] && |ops| == 1 && Forward(db, once) && once.templates == db.templates
    requires BatchesOf(db.expenses, none, g, bs) && Free(db.templates, bs) && bs != []
    requires forall x :: x in none ==> none[x] == [] && x !in once.expenses
    ensures |ops'| == |seenAt'| == 2 && ops'[0] == ops[0] && ops'[1] == Fold(g, bs, none)
    ensures seenAt'[0] == seenAt[0] && seenAt'[1] == 0 && dbs' == [db, once, n]
    ensures Run(dbs', ops', seenAt') && Collapse(once, bs) == Success(n) && !PayersListed(n.expenses)
  {
    LateReads(db, once, none, g, bs);
    n, dbs', ops', seenAt' := Extend(dbs, ops, seenAt, Fold(g, bs, none));
    assert dbs[1] == once;
    RefusedIff(db.expenses, none, g, once, bs);
    SecondLosesPayer(db, none, once, n, g, bs);
  }

  lemma LateReads(db: Db, once: Db, none: Reads, g: Option<GroupId>, bs: seq<Batch>)
    requires forall x :: x in none ==> none[x] == RowsAt(once.expenses, x)
    ensures ReadIn([db, once], 0, 1, Fold(g, bs, none))
  {
    var dbs := [db, once];
    forall x | x in none ensures RowsRead(dbs, 0, 1, x, none[x]) {
      assert none[x] == RowsAt(dbs[1].expenses, x);
    }
  }

  lemma FirstCollapse(db: Db, rd: Reads, g: Option<GroupId>, bs: seq<Batch>)
    returns (once: Db, dbs: seq<Db>, ops: seq<Op>, seenAt: seq<nat>)
    requires Ready(db, rd, g, bs) && forall x :: x in rd ==> rd[x] == RowsAt(db.expenses, x)
    ensures Run(dbs, ops, seenAt) && dbs == [db, once] && ops == [Fold(g, bs, rd)] && seenAt == [0]
    ensures Collapse(db, bs) == Success(once) && Forward(db, once) && once.templates == db.templates
    ensures forall k, i :: 0 <= k < |bs| && i in bs[k].origins ==> i !in once.expenses
  {
    dbs, ops, seenAt := [db], [], [];
    forall x | x in rd ensures RowsRead(dbs, 0, 0, x, rd[x]) {
      assert rd[x] == RowsAt(dbs[0].expenses, x);
    }
    OriginsGo(db, rd, g, bs);
    once, dbs, ops, seenAt := Extend(dbs, ops, seenAt, Fold(g, bs, rd));
  }

  /** What the second request builds from the rows it still finds. */
  lemma SecondFinds(db: Db, rd: Reads, none: Reads, once: Db, g: Option<GroupId>, bs: seq<Batch>, actor: UserId)
    requires Ready(db, rd, g, bs) && bs != []
    requires none == map i | i in rd && i !in once.expenses :: []
    requires forall k, i :: 0 <= k < |bs| && i in bs[k].origins ==> i !in once.expenses
    ensures BatchesOf(db.expenses, none, g, Emptied(bs, actor)) && Emptied(bs, actor) != []
    ensures Free(db.templates, Emptied(bs, actor))
  {
    forall k, i | 0 <= k < |bs| && i in bs[k].origins ensures i in none && none[i] == [] {
      BatchesAt(db.expenses, rd, g, bs, k);
    }
    AllGoneOf(none, bs);
    EmptiedBatches(db.expenses, rd, none, g, bs, actor);
    EmptiedFree(db.templates, bs, actor);
  }

  lemma SecondLosesPayer(seen: Db, none: Reads, db: Db, n: Db, g: Option<GroupId>, bs: seq<Batch>)
    requires ValidDb(seen) && Forward(seen, db) && BatchesOf(seen.expenses, none, g, bs) && bs != []
    requires Collapse(db, bs) == Success(n) && forall i :: i in none ==> none[i] == []
    ensures !PayersListed(n.expenses)
  {
    OriginsAreOld(seen, none, g, bs);
    StillOlder(bs, seen.next, db.next);
    FirstLosesPayer(seen.expenses, none, g, db, bs);
  }

  lemma FirstLosesPayer(before: Table, rd: Reads, g: Option<GroupId>, db: Db, bs: seq<Batch>)
    requires Fresh(db) && BatchesOf(before, rd, g, bs) && bs != [] && OlderThan(bs, db.next)
    requires Collapse(db, bs).Success? && !SomeRows(rd, bs[0].origins)
    ensures !PayersListed(Collapse(db, bs).value.expenses)
  {
    OneCollapsed(db, bs[0]);
    OneLists(before, rd, g, db, bs[0]);
    forall k | 0 <= k < |bs[1..]| ensures db.next !in bs[1..][k].origins {
      OlderAt(bs[1..], db.next, k);
    }
    RowStays(CollapseOne(db, bs[0]).value, bs[1..], db.next);
  }

  /** A template edited to a payer of other people between the reads of its row and of its rows:
      from every valid state the occurrence then does not list its payer. */
  lemma EditedTemplate(db: Db, id: Id, e: Expense, date: string) returns (dbs: seq<Db>, ops: seq<Op>, seenAt: seq<nat>)
    requires ValidDb(db) && id in db.templates && CanMove(db.expenses[id]) && Addable(e) && NoRepeat(e.parts)
    requires db.expenses[id].paidBy !in Users(e.parts)
    ensures Run(dbs, ops, seenAt) && |ops| == 2 && dbs[0] == db && seenAt[0] == seenAt[1] == 0
    ensures ops[0] == Edit(id, e, db.expenses[id].version) && ops[1] == Repeat(id, db.expenses[id], e.parts, date)
    ensures dbs[1].expenses == db.expenses[id := Edited(db.expenses[id], e)]
    ensures dbs[2] == Insert(dbs[1], Copied(db.expenses[id], e.parts, date)) && !PayersListed(dbs[2].expenses)
  {
    dbs, ops, seenAt := [db], [], [];
    var tmpl := db.expenses[id];
    var edited, n;
    edited, dbs, ops, seenAt := Extend(dbs, ops, seenAt, Edit(id, e, tmpl.version));
    SplitTemplateRead(db, edited, id, e.parts);
    assert dbs == [db, edited];
    n, dbs, ops, seenAt := Extend(dbs, ops, seenAt, Repeat(id, tmpl, e.parts, date));
    UnlistedCopy(edited, id, tmpl, e.parts, date, n);
  }

  lemma UnlistedCopy(db: Db, id: Id, tmpl: Expense, rows: seq<Part>, date: string, n: Db)
    requires n == Next(db, Repeat(id, tmpl, rows, date)) && NoRepeat(rows) && tmpl.paidBy !in Users(rows)
    ensures n == Insert(db, Copied(tmpl, rows, date)) && !PayersListed(n.expenses)
  {
    assert n.expenses[db.next] == Stored(Copied(tmpl, rows, date));
  }

  lemma SplitTemplateRead(db: Db, edited: Db, id: Id, rows: seq<Part>)
    requires id in db.expenses && rows == RowsAt(edited.expenses, id)
    ensures TemplateRead([db, edited], 0, 1, id, db.expenses[id], rows)
  {
    var dbs := [db, edited];
    assert rows == RowsAt(dbs[1].expenses, id);
    assert RowsRead(dbs, 0, 1, id, rows);
    assert dbs[0].expenses[id] == db.expenses[id];
  }

  // --------------------------------------------------------------- undoing

  lemma DeadAddsNothing(e: Expense, sc: Option<GroupId>, k: PairKey, cur: string, u: UserId)
    ensures OwedFn(sc, k)(Dead(e)) == 0 && NetFn(sc, cur, u)(Dead(e)) == 0
  {
  }

  /** Deleting an expense, whatever was written since it was recorded, takes exactly its own
      part out of every balance and net. */
  lemma DeleteTakesOut(db: Db, id: Id, token: nat, sc: Option<GroupId>, k: PairKey, cur: string, u: UserId)
    requires SoftDelete(db, id, token).Success?
    ensures var after := SoftDelete(db, id, token).value;
      && Owed(after.expenses, sc, k) == Owed(db.expenses, sc, k) - OwedFn(sc, k)(db.expenses[id])
      && Net(after.expenses, sc, cur, u) == Net(db.expenses, sc, cur, u) - NetFn(sc, cur, u)(db.expenses[id])
  {
    var e := db.expenses[id];
    DeadAddsNothing(e, sc, k, cur, u);
    TotalUpdate(db.expenses, id, Dead(e), OwedFn(sc, k));
    TotalUpdate(db.expenses, id, Dead(e), NetFn(sc, cur, u));
  }

  /** So deleting what was just recorded, a settlement for one, restores every balance and net. */
  lemma DeleteRestores(db: Db, e: Expense, sc: Option<GroupId>, k: PairKey, cur: string, u: UserId)
    requires ValidDb(db) && NoRepeat(e.parts)
    ensures var r := SoftDelete(Insert(db, e), db.next, 1);
      && r.Success?
      && Owed(r.value.expenses, sc, k) == Owed(db.expenses, sc, k)
      && Net(r.value.expenses, sc, cur, u) == Net(db.expenses, sc, cur, u)
  {
    DeleteTakesOut(Insert(db, e), db.next, 1, sc, k, cur, u);
    CreateEffect(db, e, sc, k, cur, u);
  }

  /** The other leg of a conversion. */
  lemma OnlyPartner(m: Table, id: Id) returns (t: Id)
    requires Linked(m) && id in m && IsConversion(m[id])
    requires m[id].conversionTo.Some? ==> m[id].split == CURRENCY_CONVERSION
    ensures t != id && forall x :: Partner(m, id, x) <==> x == t
  {
    assert forall x :: x in m && m[x].conversionTo == Some(id) ==> LegPair(m, x, id);
    if m[id].conversionTo.Some? {
      t := m[id].conversionTo.value;
      assert LegPair(m, id, t);
    } else {
      assert HasSource(m, id);
      t :| t in m && m[t].conversionTo == Some(id);
      assert LegPair(m, t, id);
    }
  }

  lemma TwoDead(m: Table, id: Id, t: Id, f: Expense -> int)
    requires id in m && t in m && id != t && f(Dead(m[id])) == 0 && f(Dead(m[t])) == 0
    ensures MapTotal(m[id := Dead(m[id])][t := Dead(m[t])], f) == MapTotal(m, f) - f(m[id]) - f(m[t])
  {
    TotalUpdate(m, id, Dead(m[id]), f);
    TotalUpdate(m[id := Dead(m[id])], t, Dead(m[t]), f);
  }

  /** A deleted conversion: the leg and its one partner die. */
  lemma ConversionDead(db: Db, id: Id, token: nat) returns (t: Id)
    requires ValidDb(db) && SoftDeleteConversion(db, id, token).Success? && IsConversion(db.expenses[id])
    ensures t in db.expenses && t != id && forall x :: Partner(db.expenses, id, x) <==> x == t
    ensures SoftDeleteConversion(db, id, token).value.expenses
         == db.expenses[id := Dead(db.expenses[id])][t := Dead(db.expenses[t])]
  {
    var m := db.expenses;
    if m[id].conversionTo.Some? { assert LegPair(m, id, m[id].conversionTo.value); }
    t := OnlyPartner(m, id);
    assert Partner(m, id, t);
    BothLegs(db, id, token);
    TwoGo(m, id, t);
  }

  lemma TwoGo(m: Table, id: Id, t: Id)
    requires id in m && t in m && t != id && forall x :: Partner(m, id, x) <==> x == t
    ensures DeadLegs(m, id) == m[id := Dead(m[id])][t := Dead(m[t])]
  {
    forall x ensures Goes(m, id, x) <==> x == id || x == t {
      assert Partner(m, id, x) <==> x == t;
    }
  }

  /** Deleting either leg of a conversion, whatever was written since, takes exactly the two
      legs' parts out of every balance and net, in both currencies. */
  lemma ConversionTakesOut(db: Db, id: Id, token: nat, sc: Option<GroupId>, k: PairKey, cur: string, u: UserId) returns (t: Id)
    requires ValidDb(db) && SoftDeleteConversion(db, id, token).Success? && IsConversion(db.expenses[id])
    ensures t in db.expenses && t != id && (forall x :: Partner(db.expenses, id, x) <==> x == t)
    ensures var after := SoftDeleteConversion(db, id, token).value;
      && Owed(after.expenses, sc, k) == Owed(db.expenses, sc, k) - OwedFn(sc, k)(db.expenses[id]) - OwedFn(sc, k)(db.expenses[t])
      && Net(after.expenses, sc, cur, u)
           == Net(db.expenses, sc, cur, u) - NetFn(sc, cur, u)(db.expenses[id]) - NetFn(sc, cur, u)(db.expenses[t])
  {
    t := ConversionDead(db, id, token);
    DeadAddsNothing(db.expenses[id], sc, k, cur, u);
    DeadAddsNothing(db.expenses[t], sc, k, cur, u);
    TwoDead(db.expenses, id, t, OwedFn(sc, k));
    TwoDead(db.expenses, id, t, NetFn(sc, cur, u));
  }

  lemma TwoMore(m: Table, t: Id, to: Expense, from: Expense, f: Expense -> int)
    requires t !in m && t + 1 !in m
    ensures MapTotal(m[t := to][t + 1 := from], f) == MapTotal(m, f) + f(to) + f(from)
  {
    TotalUpdate(m, t, to, f);
    TotalUpdate(m[t := to], t + 1, from, f);
  }

  /** The two legs just recorded are each other's partner and may be deleted. */
  lemma FreshLegs(db: Db, to: Expense, from: Expense, leg: Id, other: Id)
    requires to.split == from.split == CURRENCY_CONVERSION && from.conversionTo == Some(db.next)
    requires to.version == from.version == 1 && !to.deleted && !from.deleted
    requires (leg, other) == (db.next, db.next + 1) || (other, leg) == (db.next, db.next + 1)
    ensures var mid := NewPair(db, to, from);
      && SoftDeleteConversion(mid, leg, 1).Success? && IsConversion(mid.expenses[leg])
      && Partner(mid.expenses, leg, other)
  {
  }

  /** So deleting either leg of a conversion just recorded restores both currencies. */
  lemma ConversionRestores(db: Db, source: Expense, target: Expense, mid: Db, leg: Id,
                           sc: Option<GroupId>, k: PairKey, cur: string, u: UserId)
    requires ValidDb(db) && Leg(source) && Leg(target) && ConversionPair(db, source, target) == Success(mid)
    requires leg == db.next || leg == db.next + 1
    ensures var r := SoftDeleteConversion(mid, leg, 1);
      && r.Success?
      && Owed(r.value.expenses, sc, k) == Owed(db.expenses, sc, k)
      && Net(r.value.expenses, sc, cur, u) == Net(db.expenses, sc, cur, u)
  {
    var to, from := Stored(target), Stored(source.(conversionTo := Some(db.next)));
    var other := if leg == db.next then db.next + 1 else db.next;
    PairResult(db, source, target);
    ConversionPairKeeps(db, source, target);
    FreshLegs(db, to, from, leg, other);
    FreshTakesOut(db, to, from, leg, other, mid, sc, k, cur, u);
  }

  lemma FreshTakesOut(db: Db, to: Expense, from: Expense, leg: Id, other: Id, mid: Db, sc: Option<GroupId>, k: PairKey,
                      cur: string, u: UserId)
    requires ValidDb(db) && ValidDb(mid) && mid == NewPair(db, to, from)
    requires (leg, other) == (db.next, db.next + 1) || (other, leg) == (db.next, db.next + 1)
    requires SoftDeleteConversion(mid, leg, 1).Success? && IsConversion(mid.expenses[leg])
    requires Partner(mid.expenses, leg, other)
    ensures var after := SoftDeleteConversion(mid, leg, 1).value.expenses;
      Owed(after, sc, k) == Owed(db.expenses, sc, k) && Net(after, sc, cur, u) == Net(db.expenses, sc, cur, u)
  {
    PairBrings(db, to, from, mid, leg, other, sc, k, cur, u);
    PartnerTakesOut(mid, leg, other, 1, sc, k, cur, u);
  }

  lemma PartnerTakesOut(db: Db, id: Id, other: Id, token: nat, sc: Option<GroupId>, k: PairKey, cur: string, u: UserId)
    requires ValidDb(db) && SoftDeleteConversion(db, id, token).Success? && IsConversion(db.expenses[id])
    requires Partner(db.expenses, id, other)
    ensures var after := SoftDeleteConversion(db, id, token).value;
      && Owed(after.expenses, sc, k) == Owed(db.expenses, sc, k) - OwedFn(sc, k)(db.expenses[id]) - OwedFn(sc, k)(db.expenses[other])
      && Net(after.expenses, sc, cur, u)
           == Net(db.expenses, sc, cur, u) - NetFn(sc, cur, u)(db.expenses[id]) - NetFn(sc, cur, u)(db.expenses[other])
  {
    var t := ConversionTakesOut(db, id, token, sc, k, cur, u);
    assert t == other;
  }

  lemma PairBrings(db: Db, to: Expense, from: Expense, mid: Db, leg: Id, other: Id, sc: Option<GroupId>, k: PairKey,
                   cur: string, u: UserId)
    requires ValidDb(db) && mid == NewPair(db, to, from)
    requires (leg, other) == (db.next, db.next + 1) || (other, leg) == (db.next, db.next + 1)
    ensures Owed(mid.expenses, sc, k)
         == Owed(db.expenses, sc, k) + OwedFn(sc, k)(mid.expenses[leg]) + OwedFn(sc, k)(mid.expenses[other])
    ensures Net(mid.expenses, sc, cur, u)
         == Net(db.expenses, sc, cur, u) + NetFn(sc, cur, u)(mid.expenses[leg]) + NetFn(sc, cur, u)(mid.expenses[other])
  {
    TwoMore(db.expenses, db.next, to, from, OwedFn(sc, k));
    TwoMore(db.expenses, db.next, to, from, NetFn(sc, cur, u));
  }
}
