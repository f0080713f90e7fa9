/** Reading an archive's rows back into the tables, in batches. */
module Restore {
  import opened Text
  import opened Parts

  const MAX_ROWS := 1000
  const MAX_PARAMS := 16000

  /** A table of the registry. */
  datatype TableDef = TableDef(name: string, columns: nat)

  /** One executed INSERT. */
  datatype Insert = Insert(table: string, rows: seq<Row>)

  function At(tables: map<string, seq<Row>>, name: string): seq<Row> {
    if name in tables then tables[name] else []
  }

  predicate AllWidth(rows: seq<Row>, columns: nat) {
    forall i :: 0 <= i < |rows| ==> |rows[i]| == columns
  }

  /** Bound parameters cut into rows. */
  function Chop(args: seq<string>, columns: nat): seq<Row>
    requires columns > 0
    decreases |args|
  {
    if |args| < columns then [] else [args[..columns]] + Chop(args[columns..], columns)
  }

  lemma {:induction false} ChopFlat(rows: seq<Row>, columns: nat)
    requires columns > 0 && AllWidth(rows, columns)
    ensures Chop(Flatten(rows), columns) == rows
  {
    if rows != [] {
      assert Flatten(rows)[..columns] == rows[0] && Flatten(rows)[columns..] == Flatten(rows[1..]);
      ChopFlat(rows[1..], columns);
      assert [rows[0]] + rows[1..] == rows;
    }
  }

  lemma {:induction false} FlattenAppend<T>(gs: seq<seq<T>>, g: seq<T>)
    ensures Flatten(gs + [g]) == Flatten(gs) + g
  {
    if gs == [] {
      FlattenCons(g, []);
      assert [] + [g] == [g] && g + [] == g && [] + g == g;
    } else {
      FlattenAppend(gs[1..], g);
      assert (gs + [g])[1..] == gs[1..] + [g] && (gs + [g])[0] == gs[0];
      Assoc(gs[0], Flatten(gs[1..]), g);
    }
  }

  /** A statement stays within both limits; a single row is always let through. */
  predicate WithinLimits(s: Insert) {
    0 < |s.rows| <= MAX_ROWS && (|s.rows| == 1 || forall i :: 0 <= i < |s.rows| ==> |s.rows| * |s.rows[i]| <= MAX_PARAMS)
  }

  predicate AllWithin(statements: seq<Insert>) {
    forall i :: 0 <= i < |statements| ==> WithinLimits(statements[i])
  }

  /** What these statements, one after the other, put into a table. */
  function Inserted(statements: seq<Insert>, name: string): seq<Row> {
    if statements == [] then []
    else
      var n := |statements| - 1;
      Inserted(statements[..n], name) + (if statements[n].table == name then statements[n].rows else [])
  }

  ghost predicate Filled(db: map<string, seq<Row>>, statements: seq<Insert>) {
    forall name :: At(db, name) == Inserted(statements, name)
  }

  lemma FilledStep(db: map<string, seq<Row>>, statements: seq<Insert>, s: Insert)
    requires Filled(db, statements)
    ensures Filled(db[s.table := At(db, s.table) + s.rows], statements + [s])
  {
    assert (statements + [s])[..|statements|] == statements;
    forall name ensures At(db[s.table := At(db, s.table) + s.rows], name) == Inserted(statements + [s], name) {
      assert At(db, name) + [] == At(db, name);
    }
  }

  function Count(counts: map<string, nat>, name: string): nat {
    if name in counts then counts[name] else 0
  }

  ghost predicate Counted(counts: map<string, nat>, db: map<string, seq<Row>>) {
    forall name :: Count(counts, name) == |At(db, name)|
  }

  lemma CountedStep(counts: map<string, nat>, db: map<string, seq<Row>>, table: string, batch: seq<Row>)
    requires Counted(counts, db)
    ensures Counted(counts[table := Count(counts, table) + |batch|], db[table := At(db, table) + batch])
  {
    var counts', db' := counts[table := Count(counts, table) + |batch|], db[table := At(db, table) + batch];
    forall name ensures Count(counts', name) == |At(db', name)| {
      assert Count(counts, name) == |At(db, name)|;
    }
  }

  class Batcher {
    var table: TableDef
    var args: seq<string>
    var rows: nat
    var counts: map<string, nat>
    /** The tables the transaction inserts into. */
    var db: map<string, seq<Row>>
    /** The INSERTs executed, in order. */
    var statements: seq<Insert>
    /** The rows in args. */
    ghost var pending: seq<Row>

    /** The batch in hand, which may just have filled up. */
    ghost predicate Batched()
      reads this
    {
      && args == Flatten(pending) && rows == |pending| && AllWidth(pending, table.columns)
      && (rows > 0 ==> table.columns > 0 && rows <= MAX_ROWS && (rows == 1 || rows * table.columns <= MAX_PARAMS))
    }

    /** What was executed so far. */
    ghost predicate Executed()
      reads this
    {
      AllWithin(statements) && Counted(counts, db) && Filled(db, statements)
    }

    ghost predicate Valid()
      reads this
    {
      Batched() && Executed() && (rows > 0 ==> rows < MAX_ROWS && (rows + 1) * table.columns <= MAX_PARAMS)
    }

    /** Everything handed over for a table: inserted or still in the batch. */
    ghost function Delivered(name: string): seq<Row>
      reads this
    {
      if table.name == name then At(db, name) + pending else At(db, name)
    }

    /** The same as a value that later changes do not affect. */
    ghost function Snapshot(): (f: string -> seq<Row>)
      reads this
      ensures forall name :: f(name) == Delivered(name)
    {
      var tables, current, waiting := db, table.name, pending;
      (name: string) => if current == name then At(tables, name) + waiting else At(tables, name)
    }

    constructor ()
      ensures Valid() && (forall name :: Delivered(name) == []) && rows == 0 && table.name == ""
    {
      table, args, rows, counts, db, statements := TableDef("", 0), [], 0, map[], map[], [];
      pending := [];
    }

    /** Executes one multi-row INSERT. */
    method Exec(batch: seq<Row>)
      requires Executed() && WithinLimits(Insert(table.name, batch))
      modifies this`db, this`statements, this`counts
      ensures Executed() && |statements| == |old(statements)| + 1
      ensures forall name :: At(db, name) == if name == table.name then At(old(db), name) + batch else At(old(db), name)
    {
      CountedStep(counts, db, table.name, batch);
      FilledStep(db, statements, Insert(table.name, batch));
      db := db[table.name := At(db, table.name) + batch];
      statements := statements + [Insert(table.name, batch)];
      counts := counts[table.name := Count(counts, table.name) + |batch|];
    }

    /** Inserts what is buffered. */
    method Flush()
      requires Batched() && Executed()
      modifies this
      ensures Valid() && rows == 0 && table == old(table)
      ensures |statements| == |old(statements)| + (if old(rows) > 0 then 1 else 0)
      ensures forall name :: Delivered(name) == At(db, name) == old(Delivered(name))
    {
      if rows == 0 {
        assert forall name :: At(db, name) + [] == At(db, name);
        return;
      }
      ChopFlat(pending, table.columns);
      Exec(Chop(args, table.columns));
      args := [];
      rows := 0;
      pending := [];
    }

    /** Takes the next row, starting a new statement when the table changes or one is full. */
    method Add(t: TableDef, row: Row)
      requires Valid() && t.columns > 0 && |row| == t.columns
      requires table.name == t.name && rows > 0 ==> table == t
      modifies this
      ensures Valid() && table == t
      ensures forall name :: Delivered(name) == old(Delivered(name)) + (if name == t.name then [row] else [])
      ensures var kept := if old(table.name) == t.name then old(rows) else 0;
        rows == if kept + 1 >= 1000 || (kept + 2) * t.columns > 16000 then 0 else kept + 1
      ensures |statements| == |old(statements)| + (if old(rows) > 0 && old(table.name) != t.name then 1 else 0)
                              + (if rows == 0 then 1 else 0)
    {
      StartTable(t);
      Append(row);
      if rows >= MAX_ROWS || (rows + 1) * t.columns > MAX_PARAMS {
        Flush();
      }
    }

    method StartTable(t: TableDef)
      requires Valid() && (table.name == t.name && rows > 0 ==> table == t)
      modifies this
      ensures Valid() && table == t
      ensures forall name :: Delivered(name) == old(Delivered(name))
      ensures rows == if old(table.name) == t.name then old(rows) else 0
      ensures |statements| == |old(statements)| + (if old(rows) > 0 && old(table.name) != t.name then 1 else 0)
    {
      if rows > 0 && table.name != t.name {
        Flush();
      }
      if rows == 0 {
        NothingPending();
      }
      table := t;
    }

    lemma NothingPending()
      requires Valid() && rows == 0
      ensures pending == [] && forall name :: Delivered(name) == At(db, name)
    {
      assert forall name :: At(db, name) + [] == At(db, name);
    }

    method Append(row: Row)
      requires Executed() && Batched() && |row| == table.columns > 0
      requires rows > 0 ==> rows < MAX_ROWS && (rows + 1) * table.columns <= MAX_PARAMS
      modifies this`args, this`rows, this`pending
      ensures Batched() && Executed() && rows == old(rows) + 1
      ensures forall name :: Delivered(name) == old(Delivered(name)) + (if name == table.name then [row] else [])
    {
      FlattenAppend(pending, row);
      args := args + row;
      pending := pending + [row];
      rows := rows + 1;
    }
  }
}
