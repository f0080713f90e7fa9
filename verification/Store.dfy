/** The store as an object: each method is one transaction over a working copy that is either
    committed or dropped. */
module Store {
  import opened Text
  import opened Sums
  import opened Simplify
  import opened Pairs
  import opened Rewire
  import opened Ledger
  import opened Writes
  import opened Archive

  /** What a transaction leaves behind. */
  function Outcome(before: Db, r: Result<Db, WriteError>): Db {
    match r
    case Success(n) => n
    case Failure(_) => before
  }

  class Store {
    var expenses: Table
    var archived: map<Id, Archived>
    var groups: map<GroupId, bool>
    var templates: set<Id>
    var next: Id

    function State(): Db
      reads this
    {
      Db(expenses, archived, groups, templates, next)
    }

    constructor ()
      ensures State() == Db(map[], map[], map[], {}, 0)
    {
      expenses, archived, groups, templates, next := map[], map[], map[], {}, 0;
    }

    method Commit(tx: Db)
      modifies this
      ensures State() == tx
    {
      expenses, archived, groups, templates, next := tx.expenses, tx.archived, tx.groups, tx.templates, tx.next;
    }

    /** Inserts the rows one at a time; the primary key refuses a second row of a user. */
    static method InsertRows(parts: seq<Part>) returns (ok: bool, rows: seq<Part>)
      ensures ok <==> NoRepeat(parts)
      ensures ok ==> rows == parts
    {
      var taken: set<UserId> := {};
      rows := [];
      for i := 0 to |parts|
        invariant rows == parts[..i]
        invariant taken == Users(parts[..i])
        invariant NoRepeat(parts[..i])
      {
        AppendPart(parts[..i], parts[i]);
        assert parts[..i + 1] == parts[..i] + [parts[i]];
        if parts[i].user in taken {
          PrefixRepeats(parts, i + 1);
          return false, rows;
        }
        rows := rows + [parts[i]];
        taken := taken + {parts[i].user};
      }
      assert parts[..|parts|] == parts;
      return true, rows;
    }

    static method InsertExpenseTx(tx: Db, e: Expense) returns (r: Result<Db, WriteError>)
      ensures r == Create(tx, e)
    {
      var ok, rows := InsertRows(e.parts);
      if !ok {
        return Failure(Duplicate);
      }
      var row := e.(version := 1, deleted := false, parts := rows);
      return Success(tx.(expenses := tx.expenses[tx.next := row], next := tx.next + 1));
    }

    method CreateExpense(e: Expense) returns (r: Result<Id, WriteError>)
      modifies this
      ensures State() == Outcome(old(State()), Create(old(State()), e))
      ensures r == if NoRepeat(e.parts) then Success(old(next)) else Failure(Duplicate)
    {
      var tx := InsertExpenseTx(State(), e);
      if tx.Failure? {
        return Failure(tx.error);
      }
      r := Success(next);
      Commit(tx.value);
    }

    /** Writes planned expenses in one transaction. */
    method CreateMany(es: seq<Expense>) returns (r: Result<nat, WriteError>)
      modifies this
      ensures State() == Outcome(old(State()), CreateAll(old(State()), es))
      ensures r.Success? <==> CreateAll(old(State()), es).Success?
      ensures r.Success? ==> r.value == |es|
    {
      var tx := State();
      for i := 0 to |es|
        invariant State() == old(State())
        invariant CreateAll(old(State()), es) == CreateAll(tx, es[i..])
      {
        var step := InsertExpenseTx(tx, es[i]);
        assert es[i..][1..] == es[i + 1..];
        if step.Failure? {
          return Failure(step.error);
        }
        tx := step.value;
      }
      assert es[|es|..] == [];
      Commit(tx);
      r := Success(|es|);
    }

    method UpdateExpense(id: Id, e: Expense, token: nat) returns (r: Result<(), WriteError>)
      modifies this
      ensures State() == Outcome(old(State()), Update(old(State()), id, e, token))
      ensures r.Success? <==> Update(old(State()), id, e, token).Success?
      ensures r.Failure? ==> Update(old(State()), id, e, token) == Failure(r.error)
    {
      if id !in expenses || expenses[id].version != token {
        return Failure(Stale);
      }
      var row := expenses[id];
      var tx := State();
      var ok, rows := InsertRows(e.parts);
      if !ok {
        return Failure(Duplicate);
      }
      row := row.(amount := e.amount, split := e.split, date := e.date, currency := e.currency, paidBy := e.paidBy,
                  group := e.group, version := row.version + 1, parts := rows);
      tx := tx.(expenses := tx.expenses[id := row]);
      Commit(tx);
      r := Success(());
    }

    method SoftDeleteExpense(id: Id, token: nat) returns (r: Result<(), WriteError>)
      modifies this
      ensures State() == Outcome(old(State()), SoftDelete(old(State()), id, token))
      ensures r.Success? <==> SoftDelete(old(State()), id, token).Success?
    {
      if id !in expenses || expenses[id].deleted || expenses[id].version != token {
        return Failure(Stale);
      }
      expenses := expenses[id := expenses[id].(deleted := true, version := expenses[id].version + 1)];
      r := Success(());
    }

    method SoftDeleteConversionPair(id: Id, token: nat) returns (r: Result<(), WriteError>)
      modifies this
      ensures State() == Outcome(old(State()), SoftDeleteConversion(old(State()), id, token))
      ensures r.Success? <==> SoftDeleteConversion(old(State()), id, token).Success?
    {
      r := SoftDeleteExpense(id, token);
      if r.Success? {
        var m := expenses;
        expenses := map x | x in m :: if !m[x].deleted && Partner(m, id, x) then Dead(m[x]) else m[x];
      }
    }

    method CreateConversionPair(from: Expense, to: Expense) returns (r: Result<(Id, Id), WriteError>)
      modifies this
      ensures State() == Outcome(old(State()), ConversionPair(old(State()), from, to))
      ensures r.Success? <==> ConversionPair(old(State()), from, to).Success?
      ensures r.Success? ==> r.value == (old(next) + 1, old(next))
    {
      var toId := next;
      var tx := InsertExpenseTx(State(), to);
      if tx.Failure? {
        return Failure(tx.error);
      }
      var fromId := tx.value.next;
      tx := InsertExpenseTx(tx.value, from.(conversionTo := Some(toId)));
      if tx.Failure? {
        return Failure(tx.error);
      }
      Commit(tx.value);
      r := Success((fromId, toId));
    }

    /** The rows of one expense; none if it is not there. */
    method GetParticipants(id: Id) returns (rows: seq<Part>)
      ensures rows == RowsAt(expenses, id)
    {
      rows := if id in expenses then expenses[id].parts else [];
    }

    method CreateRecurrence(id: Id) returns (r: Result<(), WriteError>)
      modifies this
      ensures State() == Outcome(old(State()), Schedule(old(State()), id))
      ensures r.Success? <==> id in old(expenses)
      ensures State() == old(State()).(templates := if r.Success? then old(templates) + {id} else old(templates))
    {
      if id !in expenses {
        return Failure(Referenced);
      }
      templates := templates + {id};
      r := Success(());
    }

    method DeleteRecurrence(id: Id)
      modifies this
      ensures State() == Unschedule(old(State()), id) == old(State()).(templates := old(templates) - {id})
    {
      templates := templates - {id};
    }

    method CollapseToHistorical(bs: seq<Batch>) returns (r: Result<(), WriteError>)
      modifies this
      ensures State() == Outcome(old(State()), Collapse(old(State()), bs))
      ensures r.Success? <==> Collapse(old(State()), bs).Success?
      ensures r.Failure? ==> Collapse(old(State()), bs) == Failure(r.error)
    {
      var tx := State();
      for i := 0 to |bs|
        invariant State() == old(State())
        invariant Collapse(old(State()), bs) == Collapse(tx, bs[i..])
      {
        var b := bs[i];
        var into := tx.next;
        var step := InsertExpenseTx(tx, b.expense);
        assert bs[i..][1..] == bs[i + 1..];
        if step.Failure? {
          return Failure(step.error);
        }
        tx := step.value;
        if IdSet(b.origins) * tx.templates != {} {
          return Failure(Referenced);
        }
        var moved := map x | x in b.origins && x in tx.expenses :: Archived(tx.expenses[x], into);
        tx := tx.(archived := tx.archived + moved);
        tx := tx.(expenses := tx.expenses - IdSet(b.origins));
      }
      assert bs[|bs|..] == [];
      Commit(tx);
      r := Success(());
    }

    /** The balance view of one scope, summed from the live expenses. */
    method BalanceView(g: Option<GroupId>) returns (rows: seq<Row>)
      ensures IsView(rows, expenses, g)
    {
      var sums := SumPairs(g);
      rows := [];
      var keys := sums.Keys;
      while keys != {}
        invariant keys <= sums.Keys
        invariant Reported(rows, expenses, g, sums.Keys - keys)
      {
        var k := NextKey(keys);
        ReportStep(rows, expenses, g, sums.Keys - keys, k, DiffAt(sums, k));
        if sums[k] != 0 {
          rows := rows + [Row(k.a, k.b, k.cur, sums[k]), Row(k.b, k.a, k.cur, -sums[k])];
        }
        assert sums.Keys - (keys - {k}) == sums.Keys - keys + {k};
        keys := keys - {k};
      }
      assert sums.Keys - keys == sums.Keys;
      forall k | Owed(expenses, g, k) != 0 ensures HasRow(rows, k) {
        assert DiffAt(sums, k) == Owed(expenses, g, k);
      }
    }

    method SumPairs(g: Option<GroupId>) returns (sums: Diff)
      ensures forall k :: DiffAt(sums, k) == Owed(expenses, g, k)
      ensures forall k :: k in sums ==> k.a < k.b
    {
      sums := map[];
      var rest := expenses.Keys;
      assert expenses - rest == map[];
      while rest != {}
        invariant rest <= expenses.Keys
        invariant forall k :: DiffAt(sums, k) == Owed(expenses - rest, g, k)
        invariant forall k :: k in sums ==> k.a < k.b
      {
        var id := NextKey(rest);
        VisitMore(expenses, rest, id, g);
        rest := rest - {id};
        sums := AddExpense(sums, expenses[id], g);
      }
      assert expenses - rest == expenses;
    }

    static method AddExpense(sums0: Diff, e: Expense, g: Option<GroupId>) returns (sums: Diff)
      requires forall k :: k in sums0 ==> k.a < k.b
      ensures forall k :: DiffAt(sums, k) == DiffAt(sums0, k) + OwedFn(g, k)(e)
      ensures forall k :: k in sums ==> k.a < k.b
    {
      sums := sums0;
      if e.deleted || e.group != g {
        return;
      }
      for i := 0 to |e.parts|
        invariant forall k :: DiffAt(sums, k)
                           == DiffAt(sums0, k) + OwedIn(PairsOfParts(e.parts[..i], e.paidBy, e.currency), k)
        invariant forall k :: k in sums ==> k.a < k.b
      {
        var p := e.parts[i];
        assert e.parts[..i + 1] == e.parts[..i] + [p];
        PartsAppend(e.parts[..i], p, e.paidBy, e.currency);
        if p.user != e.paidBy {
          var pair := PartPair(p, e.paidBy, e.currency);
          OwedInAppend(PairsOfParts(e.parts[..i], e.paidBy, e.currency), pair);
          var k := KeyOf(pair);
          sums := sums[k := DiffAt(sums, k) + pair.owed];
        }
      }
      assert e.parts[..|e.parts|] == e.parts;
    }
  }

  // ----------------------------------------------------------- loop lemmas

  lemma {:induction false} AppendPart(ps: seq<Part>, p: Part)
    ensures Users(ps + [p]) == Users(ps) + {p.user}
    ensures NoRepeat(ps + [p]) <==> NoRepeat(ps) && p.user !in Users(ps)
  {
    if ps == [] {
      assert Users([p]) == {p.user} && NoRepeat([p]);
    } else {
      AppendPart(ps[1..], p);
      assert (ps + [p])[1..] == ps[1..] + [p];
    }
  }

  lemma {:induction false} PrefixRepeats(ps: seq<Part>, i: nat)
    requires i <= |ps| && !NoRepeat(ps[..i])
    ensures !NoRepeat(ps)
  {
    assert ps[..i][1..] == ps[1..][..i - 1];
    if ps[0].user in Users(ps[..i][1..]) {
      PrefixUsers(ps[1..], i - 1);
    } else {
      PrefixRepeats(ps[1..], i - 1);
    }
  }

  lemma {:induction false} PrefixUsers(ps: seq<Part>, i: nat)
    requires i <= |ps|
    ensures Users(ps[..i]) <= Users(ps)
  {
    if i > 0 {
      PrefixUsers(ps[1..], i - 1);
      assert ps[..i][1..] == ps[1..][..i - 1];
    }
  }

  lemma {:induction false} PartsAppend(ps: seq<Part>, p: Part, payer: UserId, cur: string)
    ensures p.user == payer ==> PairsOfParts(ps + [p], payer, cur) == PairsOfParts(ps, payer, cur)
    ensures p.user != payer ==> PairsOfParts(ps + [p], payer, cur) == PairsOfParts(ps, payer, cur) + [PartPair(p, payer, cur)]
  {
    if ps == [] {
      assert PairsOfParts([p][1..], payer, cur) == [];
    } else {
      PartsAppend(ps[1..], p, payer, cur);
      assert (ps + [p])[1..] == ps[1..] + [p];
    }
  }

  lemma VisitMore(m: Table, rest: set<Id>, id: Id, g: Option<GroupId>)
    requires id in rest && id in m
    ensures forall k :: Owed(m - (rest - {id}), g, k) == Owed(m - rest, g, k) + OwedFn(g, k)(m[id])
  {
    assert m - (rest - {id}) == (m - rest)[id := m[id]];
    forall k ensures Owed(m - (rest - {id}), g, k) == Owed(m - rest, g, k) + OwedFn(g, k)(m[id]) {
      TotalUpdate(m - rest, id, m[id], OwedFn(g, k));
    }
  }

  /** The rows of the keys reported so far, both directions each. */
  ghost predicate Reported(rows: seq<Row>, m: Table, g: Option<GroupId>, keys: set<PairKey>) {
    && (forall i :: 0 <= i < |rows| ==> GoodRow(rows[i], m, g))
    && (forall k :: k in keys && Owed(m, g, k) != 0 ==> HasRow(rows, k))
  }

  ghost predicate GoodRow(r: Row, m: Table, g: Option<GroupId>) {
    r.user != r.friend && r.amount == Balance(m, g, r.currency, r.user, r.friend) != 0
  }

  lemma ReportStep(rows: seq<Row>, m: Table, g: Option<GroupId>, keys: set<PairKey>, k: PairKey, v: int)
    requires Reported(rows, m, g, keys) && k.a < k.b && v == Owed(m, g, k)
    ensures Reported(if v == 0 then rows else rows + [Row(k.a, k.b, k.cur, v), Row(k.b, k.a, k.cur, -v)], m, g, keys + {k})
  {
    if v != 0 {
      var two := [Row(k.a, k.b, k.cur, v), Row(k.b, k.a, k.cur, -v)];
      assert RowKey(two[0]) == k && GoodRow(two[0], m, g) && GoodRow(two[1], m, g);
      RowsKept(rows, two);
    }
  }

  /** More rows report no pair less. */
  lemma RowsKept(rows: seq<Row>, more: seq<Row>)
    ensures forall j :: HasRow(rows, j) ==> HasRow(rows + more, j)
    ensures forall i :: 0 <= i < |more| ==> HasRow(rows + more, RowKey(more[i]))
  {
    forall j | HasRow(rows, j) ensures HasRow(rows + more, j) {
      var i :| 0 <= i < |rows| && RowKey(rows[i]) == j;
      assert (rows + more)[i] == rows[i];
    }
    forall i | 0 <= i < |more| ensures HasRow(rows + more, RowKey(more[i])) {
      assert (rows + more)[|rows| + i] == more[i];
    }
  }
}
