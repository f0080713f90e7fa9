/** The store's write statements as transactions: what each one does to the database, or the
    reason it is rejected. A rejected transaction is rolled back. */
module Writes {
  import opened Text
  import opened Ledger

  /** A collapsed original and the Historical Transactions expense that replaced it. */
  datatype Archived = Archived(expense: Expense, replacedBy: Id)

  /** The tables; groups maps a group to its simplify_debts flag, templates are the expenses some
      recurrence repeats. */
  datatype Db = Db(expenses: Table, archived: map<Id, Archived>, groups: map<GroupId, bool>, templates: set<Id>, next: Id)

  /** Referenced: a recurrence's template cannot be deleted, nor one be made of a missing row. */
  datatype WriteError = Stale | Duplicate | Referenced

  /** One currency's collapse: the synthetic expense and the ids it replaces. */
  datatype Batch = Batch(expense: Expense, origins: seq<Id>)

  // ------------------------------------------------------------- statements

  function Stored(e: Expense): Expense {
    e.(version := 1, deleted := false)
  }

  function Insert(db: Db, e: Expense): Db {
    db.(expenses := db.expenses[db.next := Stored(e)], next := db.next + 1)
  }

  function Create(db: Db, e: Expense): Result<Db, WriteError> {
    if NoRepeat(e.parts) then Success(Insert(db, e)) else Failure(Duplicate)
  }

  function CreateAll(db: Db, es: seq<Expense>): Result<Db, WriteError>
    decreases |es|
  {
    if es == [] then Success(db)
    else
      match Create(db, es[0])
      case Success(mid) => CreateAll(mid, es[1..])
      case Failure(error) => Failure(error)
  }

  /** The row after an edit: the link, the deletion mark and the id stay, the version grows. */
  function Edited(orig: Expense, e: Expense): Expense {
    e.(conversionTo := orig.conversionTo, deleted := orig.deleted, version := orig.version + 1)
  }

  function Update(db: Db, id: Id, e: Expense, token: nat): Result<Db, WriteError> {
    if id !in db.expenses || db.expenses[id].version != token then Failure(Stale)
    else if !NoRepeat(e.parts) then Failure(Duplicate)
    else Success(db.(expenses := db.expenses[id := Edited(db.expenses[id], e)]))
  }

  function Dead(e: Expense): Expense {
    e.(deleted := true, version := e.version + 1)
  }

  function SoftDelete(db: Db, id: Id, token: nat): Result<Db, WriteError> {
    if id !in db.expenses || db.expenses[id].deleted || db.expenses[id].version != token then Failure(Stale)
    else Success(db.(expenses := db.expenses[id := Dead(db.expenses[id])]))
  }

  /** x is the leg id points at, or a leg pointing at id. */
  predicate Partner(m: Table, id: Id, x: Id) {
    x in m && ((id in m && m[id].conversionTo == Some(x)) || m[x].conversionTo == Some(id))
  }

  function SoftDeleteConversion(db: Db, id: Id, token: nat): Result<Db, WriteError> {
    match SoftDelete(db, id, token)
    case Failure(error) => Failure(error)
    case Success(mid) =>
      var m := mid.expenses;
      Success(mid.(expenses := map x | x in m :: if !m[x].deleted && Partner(m, id, x) then Dead(m[x]) else m[x]))
  }

  /** The target leg first, then the source leg pointing at it. */
  function ConversionPair(db: Db, from: Expense, to: Expense): Result<Db, WriteError> {
    match Create(db, to)
    case Failure(error) => Failure(error)
    case Success(mid) => Create(mid, from.(conversionTo := Some(db.next)))
  }

  function IdSet(ids: seq<Id>): set<Id> {
    set i | i in ids
  }

  function CollapseOne(db: Db, b: Batch): Result<Db, WriteError> {
    match Create(db, b.expense)
    case Failure(error) => Failure(error)
    case Success(mid) =>
      if IdSet(b.origins) * db.templates != {} then Failure(Referenced)
      else
        var moved := map i | i in b.origins && i in mid.expenses :: Archived(mid.expenses[i], db.next);
        Success(mid.(archived := mid.archived + moved, expenses := mid.expenses - IdSet(b.origins)))
  }

  function Collapse(db: Db, bs: seq<Batch>): Result<Db, WriteError>
    decreases |bs|
  {
    if bs == [] then Success(db)
    else
      match CollapseOne(db, bs[0])
      case Failure(error) => Failure(error)
      case Success(mid) => Collapse(mid, bs[1..])
  }

  /** A first recurrence of an expense, and the last one's end. */
  function Schedule(db: Db, id: Id): Result<Db, WriteError> {
    if id in db.expenses then Success(db.(templates := db.templates + {id})) else Failure(Referenced)
  }

  function Unschedule(db: Db, id: Id): Db {
    db.(templates := db.templates - {id})
  }

  // -------------------------------------------------------------- invariant

  predicate IsConversion(e: Expense) {
    e.split == CURRENCY_CONVERSION || e.conversionTo.Some?
  }

  predicate ValidExpense(e: Expense) {
    Balanced(e.parts) && e.currency == Upper(e.currency) && e.version >= 1
  }

  /** The payer has a row. */
  predicate Listed(e: Expense) {
    e.paidBy in Users(e.parts)
  }

  ghost predicate PayersListed(m: Table) {
    forall i :: i in m ==> Listed(m[i])
  }

  /** The legs of conversions come in pairs that live and die together. */
  ghost predicate Linked(m: Table) {
    && (forall i :: i in m && m[i].conversionTo.Some? ==> LegPair(m, i, m[i].conversionTo.value))
    && (forall i, j :: i in m && j in m && m[i].conversionTo.Some? && m[i].conversionTo == m[j].conversionTo ==> i == j)
    && (forall t :: t in m && m[t].split == CURRENCY_CONVERSION && m[t].conversionTo.None? ==>
          HasSource(m, t))
  }

  ghost predicate HasSource(m: Table, t: Id) {
    exists i :: i in m && m[i].conversionTo == Some(t)
  }

  predicate LegPair(m: Table, i: Id, t: Id)
    requires i in m
  {
    && t in m && t != i && m[t].conversionTo.None?
    && m[i].split == m[t].split == CURRENCY_CONVERSION
    && m[i].deleted == m[t].deleted
  }

  ghost predicate ValidDb(db: Db) {
    && (forall id :: id in db.expenses ==> id < db.next && ValidExpense(db.expenses[id]))
    && (forall id :: id in db.archived ==> id < db.next && id !in db.expenses)
    && TemplatesThere(db)
    && Linked(db.expenses)
  }

  /** Every recurrence's template is a row and no conversion leg. */
  ghost predicate TemplatesThere(db: Db) {
    forall t :: t in db.templates ==> t in db.expenses && !IsConversion(db.expenses[t])
  }

  /** What never goes back between two states of one run: versions only grow, equal versions
      mean equal rows, a deleted expense stays deleted, a conversion leg stays one, and a
      row that is gone does not return. */
  ghost predicate Evolves(a: Db, b: Db) {
    && a.next <= b.next
    && (forall id :: id in b.expenses && id < a.next ==> id in a.expenses && Later(a.expenses[id], b.expenses[id]))
  }

  predicate Later(x: Expense, y: Expense) {
    && x.version <= y.version
    && (x.version == y.version ==> x == y)
    && (x.deleted ==> y.deleted)
    && x.conversionTo == y.conversionTo
    && IsConversion(x) == IsConversion(y)
  }

  lemma EvolvesTransitive(a: Db, b: Db, c: Db)
    requires Evolves(a, b) && Evolves(b, c)
    ensures Evolves(a, c)
  {
  }

  // ------------------------------------------------ each write keeps it all

  /** A write keeps the invariant and only moves forward; a rejected one is no write at all. */
  ghost predicate Keeps(db: Db, r: Result<Db, WriteError>) {
    r.Success? ==> Forward(db, r.value)
  }

  ghost predicate Forward(db: Db, n: Db) {
    ValidDb(n) && Evolves(db, n)
  }

  /** An expense that keeps the ledger in order: rows that sum to zero. */
  predicate Storable(e: Expense) {
    PartSum(e.parts) == 0 && e.currency == Upper(e.currency) && !IsConversion(e)
  }

  /** What the services add from input: the payer has a row as well. */
  predicate Addable(e: Expense) {
    Storable(e) && Listed(e)
  }

  /** Writes that keep every leg's link, and keep linked legs alike, keep the pairing. */
  lemma LinksKept(m: Table, n: Table)
    requires Linked(m)
    requires forall i :: i in m && IsConversion(m[i]) ==> i in n
    requires forall i :: i in n && (IsConversion(n[i]) || (i in m && IsConversion(m[i]))) ==>
      i in m && n[i].split == m[i].split && n[i].conversionTo == m[i].conversionTo
    requires forall i :: i in n && n[i].conversionTo.Some? && n[i].conversionTo.value in n ==>
      n[i].deleted == n[n[i].conversionTo.value].deleted
    ensures Linked(n)
  {
    forall i | i in n && n[i].conversionTo.Some? ensures LegPair(n, i, n[i].conversionTo.value) {
      assert LegPair(m, i, m[i].conversionTo.value);
    }
    forall t | t in n && n[t].split == CURRENCY_CONVERSION && n[t].conversionTo.None? ensures HasSource(n, t) {
      assert HasSource(m, t);
      var i :| i in m && m[i].conversionTo == Some(t);
      assert n[i].conversionTo == Some(t);
    }
  }

  /** The common case: legs are not touched at all. */
  lemma LegsUntouched(m: Table, n: Table)
    requires Linked(m)
    requires forall i :: i in m && IsConversion(m[i]) ==> i in n && n[i] == m[i]
    requires forall i :: i in n && IsConversion(n[i]) ==> i in m && n[i] == m[i]
    ensures Linked(n)
  {
    forall i | i in n && n[i].conversionTo.Some? && n[i].conversionTo.value in n
      ensures n[i].deleted == n[n[i].conversionTo.value].deleted
    {
      assert LegPair(m, i, m[i].conversionTo.value);
    }
    LinksKept(m, n);
  }

  /** A row rewritten in place. */
  predicate RowEdit(x: Expense, y: Expense) {
    && ValidExpense(y) && y.version == x.version + 1 && (x.deleted ==> y.deleted)
    && x.conversionTo == y.conversionTo && IsConversion(x) == IsConversion(y)
  }

  /** Row by row: unchanged, rewritten, new under a fresh id, or gone. */
  ghost predicate Steps(db: Db, n: Db) {
    && db.next <= n.next
    && (forall x :: x in n.expenses ==> NewRow(db, n, x) || OldRow(db, n, x))
    && (forall x :: x in n.archived ==> x !in n.expenses && x < n.next)
    && TemplatesThere(n)
  }

  predicate NewRow(db: Db, n: Db, x: Id)
    requires x in n.expenses
  {
    db.next <= x < n.next && ValidExpense(n.expenses[x])
  }

  predicate OldRow(db: Db, n: Db, x: Id)
    requires x in n.expenses
  {
    x in db.expenses && (n.expenses[x] == db.expenses[x] || RowEdit(db.expenses[x], n.expenses[x]))
  }

  lemma StepsValid(db: Db, n: Db)
    requires ValidDb(db) && Steps(db, n) && Linked(n.expenses)
    ensures ValidDb(n)
  {
  }

  lemma StepsEvolve(db: Db, n: Db)
    requires ValidDb(db) && Steps(db, n)
    ensures Evolves(db, n)
  {
    forall id | id in n.expenses && id < db.next
      ensures id in db.expenses && Later(db.expenses[id], n.expenses[id])
    {
      assert OldRow(db, n, id);
    }
  }

  lemma StepKeeps(db: Db, n: Db)
    requires ValidDb(db) && Steps(db, n) && Linked(n.expenses)
    ensures Forward(db, n)
  {
    StepsValid(db, n);
    StepsEvolve(db, n);
  }

  lemma CreateKeeps(db: Db, e: Expense)
    requires ValidDb(db) && Storable(e)
    ensures Keeps(db, Create(db, e))
  {
    if NoRepeat(e.parts) {
      InsertSteps(db, e);
      LegsUntouched(db.expenses, Insert(db, e).expenses);
      StepKeeps(db, Insert(db, e));
    }
  }

  lemma InsertSteps(db: Db, e: Expense)
    requires ValidDb(db) && Storable(e) && NoRepeat(e.parts)
    ensures Steps(db, Insert(db, e))
  {
  }

  lemma {:induction false} CreateAllKeeps(db: Db, es: seq<Expense>)
    requires ValidDb(db)
    requires forall i :: 0 <= i < |es| ==> Storable(es[i])
    ensures Keeps(db, CreateAll(db, es))
    decreases |es|
  {
    if es != [] && NoRepeat(es[0].parts) {
      var mid := Insert(db, es[0]);
      CreateKeeps(db, es[0]);
      CreateAllKeeps(mid, es[1..]);
      var r := CreateAll(mid, es[1..]);
      if r.Success? { EvolvesTransitive(db, mid, r.value); }
    }
  }

  lemma UpdateSteps(db: Db, id: Id, e: Expense, token: nat)
    requires ValidDb(db) && Storable(e) && Update(db, id, e, token).Success?
    requires !IsConversion(db.expenses[id])
    ensures Steps(db, Update(db, id, e, token).value)
  {
  }

  lemma SoftDeleteSteps(db: Db, id: Id, token: nat)
    requires ValidDb(db) && SoftDelete(db, id, token).Success?
    ensures Steps(db, SoftDelete(db, id, token).value)
  {
  }

  lemma UpdateKeeps(db: Db, id: Id, e: Expense, token: nat)
    requires ValidDb(db) && Storable(e)
    requires id in db.expenses ==> !IsConversion(db.expenses[id])
    ensures Keeps(db, Update(db, id, e, token))
  {
    var r := Update(db, id, e, token);
    if r.Success? {
      UpdateSteps(db, id, e, token);
      LegsUntouched(db.expenses, r.value.expenses);
      StepKeeps(db, r.value);
    }
  }

  lemma SoftDeleteKeeps(db: Db, id: Id, token: nat)
    requires ValidDb(db)
    requires id in db.expenses ==> !IsConversion(db.expenses[id])
    ensures Keeps(db, SoftDelete(db, id, token))
  {
    var r := SoftDelete(db, id, token);
    if r.Success? {
      SoftDeleteSteps(db, id, token);
      LegsUntouched(db.expenses, r.value.expenses);
      StepKeeps(db, r.value);
    }
  }

  /** The legs a deletion of id takes along. */
  predicate Goes(m: Table, id: Id, x: Id) {
    x == id || Partner(m, id, x)
  }

  function DeadLegs(m: Table, id: Id): Table {
    map x | x in m :: if Goes(m, id, x) then Dead(m[x]) else m[x]
  }

  /** Exactly the chosen leg and its partner go, both alive until now. */
  lemma BothLegs(db: Db, id: Id, token: nat)
    requires Linked(db.expenses) && SoftDeleteConversion(db, id, token).Success?
    requires IsConversion(db.expenses[id])
    ensures SoftDeleteConversion(db, id, token).value == db.(expenses := DeadLegs(db.expenses, id))
    ensures forall x :: x in db.expenses && Goes(db.expenses, id, x) ==> !db.expenses[x].deleted
  {
    var m := db.expenses;
    var mid := m[id := Dead(m[id])];
    forall x ensures x != id ==> (Partner(mid, id, x) <==> Partner(m, id, x)) {}
    forall x | Partner(m, id, x) ensures !m[x].deleted && x != id {
      if m[id].conversionTo == Some(x) {
        assert LegPair(m, id, x);
      } else {
        assert LegPair(m, x, id);
      }
    }
  }

  /** The two ends of a link are touched together or not at all. */
  lemma PartnerBoth(m: Table, id: Id, i: Id, t: Id)
    requires Linked(m) && id in m && i in m && m[i].conversionTo == Some(t)
    ensures Goes(m, id, i) <==> Goes(m, id, t)
  {
    assert LegPair(m, i, t);
    if m[id].conversionTo.Some? { assert LegPair(m, id, m[id].conversionTo.value); }
  }

  lemma DeadLegsLinked(m: Table, id: Id)
    requires Linked(m) && id in m
    ensures Linked(DeadLegs(m, id))
  {
    var n := DeadLegs(m, id);
    forall i | i in n && n[i].conversionTo.Some? && n[i].conversionTo.value in n
      ensures n[i].deleted == n[n[i].conversionTo.value].deleted
    {
      PartnerBoth(m, id, i, m[i].conversionTo.value);
      assert LegPair(m, i, m[i].conversionTo.value);
    }
    LinksKept(m, n);
  }

  lemma SoftDeleteConversionKeeps(db: Db, id: Id, token: nat)
    requires ValidDb(db)
    requires id in db.expenses ==> IsConversion(db.expenses[id])
    ensures Keeps(db, SoftDeleteConversion(db, id, token))
  {
    if SoftDeleteConversion(db, id, token).Success? {
      BothLegs(db, id, token);
      DeadLegsLinked(db.expenses, id);
      DeadLegsSteps(db, id);
      StepKeeps(db, db.(expenses := DeadLegs(db.expenses, id)));
    }
  }

  lemma DeadLegsSteps(db: Db, id: Id)
    requires ValidDb(db)
    ensures Steps(db, db.(expenses := DeadLegs(db.expenses, id)))
  {
  }

  /** A leg as the conversion service writes it. */
  predicate Leg(e: Expense) {
    && e.paidBy in Users(e.parts) && PartSum(e.parts) == 0
    && e.currency == Upper(e.currency) && e.split == CURRENCY_CONVERSION && e.conversionTo.None?
  }

  lemma ConversionPairKeeps(db: Db, from: Expense, to: Expense)
    requires ValidDb(db) && Leg(from) && Leg(to)
    ensures Keeps(db, ConversionPair(db, from, to))
  {
    PairResult(db, from, to);
    if NoRepeat(to.parts) && NoRepeat(from.parts) {
      NewPairKeeps(db, Stored(to), Stored(from.(conversionTo := Some(db.next))));
    }
  }

  lemma NewPairKeeps(db: Db, to: Expense, source: Expense)
    requires ValidDb(db) && ValidExpense(to) && ValidExpense(source)
    requires to.split == source.split == CURRENCY_CONVERSION && to.deleted == source.deleted
    requires to.conversionTo == None && source.conversionTo == Some(db.next)
    ensures Forward(db, NewPair(db, to, source))
  {
    NewPairLinks(db, to, source);
    NewPairSteps(db, to, source);
    StepKeeps(db, NewPair(db, to, source));
  }

  lemma NewPairLinks(db: Db, to: Expense, source: Expense)
    requires ValidDb(db)
    requires to.split == source.split == CURRENCY_CONVERSION && to.deleted == source.deleted
    requires to.conversionTo == None && source.conversionTo == Some(db.next)
    ensures Linked(NewPair(db, to, source).expenses)
  {
    NewPairLinked(db.expenses, db.next, to, source);
  }

  lemma PairResult(db: Db, from: Expense, to: Expense)
    ensures var r := ConversionPair(db, from, to);
      if NoRepeat(to.parts) && NoRepeat(from.parts)
      then r == Success(NewPair(db, Stored(to), Stored(from.(conversionTo := Some(db.next)))))
      else r == Failure(Duplicate)
  {
  }

  function NewPair(db: Db, to: Expense, source: Expense): Db {
    db.(expenses := db.expenses[db.next := to][db.next + 1 := source], next := db.next + 2)
  }

  lemma NewPairSteps(db: Db, to: Expense, source: Expense)
    requires ValidDb(db) && ValidExpense(to) && ValidExpense(source)
    ensures Steps(db, NewPair(db, to, source))
  {
  }

  lemma NewPairLinked(m: Table, t: Id, to: Expense, from: Expense)
    requires Linked(m) && forall i :: i in m ==> i < t
    requires to.split == from.split == CURRENCY_CONVERSION && to.deleted == from.deleted
    requires to.conversionTo == None && from.conversionTo == Some(t)
    ensures Linked(m[t := to][t + 1 := from])
  {
    var n := m[t := to][t + 1 := from];
    forall i | i in n && n[i].conversionTo.Some? ensures LegPair(n, i, n[i].conversionTo.value) {
      if i in m { assert LegPair(m, i, m[i].conversionTo.value); }
    }
    forall x | x in n && n[x].split == CURRENCY_CONVERSION && n[x].conversionTo.None? ensures HasSource(n, x) {
      if x == t {
        assert n[t + 1].conversionTo == Some(t);
      } else {
        assert HasSource(m, x);
        var i :| i in m && m[i].conversionTo == Some(x);
        assert n[i] == m[i];
      }
    }
  }

  lemma ScheduleKeeps(db: Db, id: Id)
    requires ValidDb(db) && (id in db.expenses ==> !IsConversion(db.expenses[id]))
    ensures Keeps(db, Schedule(db, id))
  {
  }

  /** What a batch may move away: older rows that are no conversion legs. */
  ghost predicate Movable(db: Db, b: Batch) {
    forall i :: i in b.origins ==> i < db.next && (i in db.expenses ==> !IsConversion(db.expenses[i]))
  }

  lemma CollapseOneKeeps(db: Db, b: Batch)
    requires ValidDb(db) && Storable(b.expense) && Movable(db, b)
    ensures Keeps(db, CollapseOne(db, b))
  {
    var r := CollapseOne(db, b);
    if r.Success? {
      CollapseSteps(db, b);
      LegsUntouched(db.expenses, r.value.expenses);
      StepKeeps(db, r.value);
    }
  }

  lemma CollapseSteps(db: Db, b: Batch)
    requires ValidDb(db) && Storable(b.expense) && Movable(db, b) && CollapseOne(db, b).Success?
    ensures Steps(db, CollapseOne(db, b).value)
  {
    assert forall t :: t in db.templates && t in b.origins ==> t in IdSet(b.origins) * db.templates;
  }

  lemma MovableLater(db: Db, b: Batch, c: Batch)
    requires CollapseOne(db, b).Success? && Movable(db, c)
    ensures Movable(CollapseOne(db, b).value, c)
  {
  }

  lemma {:induction false} CollapseKeeps(db: Db, bs: seq<Batch>)
    requires ValidDb(db)
    requires forall j :: 0 <= j < |bs| ==> Storable(bs[j].expense) && Movable(db, bs[j])
    ensures Keeps(db, Collapse(db, bs))
    decreases |bs|
  {
    if bs != [] && CollapseOne(db, bs[0]).Success? {
      var mid := CollapseOne(db, bs[0]).value;
      CollapseOneKeeps(db, bs[0]);
      forall j | 0 <= j < |bs[1..]| ensures Movable(mid, bs[1..][j]) {
        MovableLater(db, bs[0], bs[j + 1]);
      }
      CollapseKeeps(mid, bs[1..]);
      var r := Collapse(mid, bs[1..]);
      if r.Success? { EvolvesTransitive(db, mid, r.value); }
    }
  }
}
