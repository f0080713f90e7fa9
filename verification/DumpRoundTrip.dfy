/** Dumping the registered tables and restoring the archive: what comes back, and when. */
module DumpRoundTrip {
  import opened Text
  import opened Division
  import opened Parts
  import opened Restore
  import opened Reload

  /** The table parts of a dump, table after table. */
  function DumpAll(c: Codec, order: seq<string>, data: map<string, seq<Row>>): seq<TarEntry> {
    if order == [] then [] else DumpOf(c, order[0], At(data, order[0])) + DumpAll(c, order[1..], data)
  }

  function CountsOf(order: seq<string>, data: map<string, seq<Row>>): (ts: seq<(string, int)>)
    ensures |ts| == |order| && forall i :: 0 <= i < |order| ==> ts[i] == (order[i], |At(data, order[i])|)
  {
    if order == [] then [] else [(order[0], |At(data, order[0])|)] + CountsOf(order[1..], data)
  }

  function ManifestOf(order: seq<string>, data: map<string, seq<Row>>, uploads: seq<TarEntry>): Manifest {
    Manifest(FORMAT, CountsOf(order, data), |uploads|, Sum(UploadSizes(uploads)))
  }

  /** The whole archive: tables, uploads, and the manifest last. */
  function Archive(c: Codec, order: seq<string>, data: map<string, seq<Row>>, uploads: seq<TarEntry>, text: string): seq<TarEntry> {
    DumpAll(c, order, data) + (uploads + [TarEntry(MANIFEST, text)])
  }

  predicate SafeEntry(e: TarEntry) {
    IsUpload(e) && SafeUpload(e.name)
  }

  /** Entries under the uploads directory that can be archived, no name twice. */
  predicate UploadEntries(uploads: seq<TarEntry>) {
    (forall i :: 0 <= i < |uploads| ==> SafeEntry(uploads[i])) && DistinctNames(uploads)
  }

  /** Writes the tables, then the uploads, then the manifest with what was actually written;
      encode gives the manifest's text. An upload whose path cannot be restored fails the dump. */
  method Dump(c: Codec, order: seq<string>, data: map<string, seq<Row>>, uploads: seq<TarEntry>, encode: Manifest -> string)
    returns (ok: bool, es: seq<TarEntry>, man: Manifest)
    requires forall i :: 0 <= i < |uploads| ==> IsUpload(uploads[i])
    ensures ok <==> forall i :: 0 <= i < |uploads| ==> SafeEntry(uploads[i])
    ensures ok ==> man == ManifestOf(order, data, uploads) && es == Archive(c, order, data, uploads, encode(man))
  {
    var tables, copied, bytes;
    es, tables := DumpTables(c, order, data);
    ok, copied, bytes := DumpUploads(uploads);
    man := Manifest(FORMAT, tables, |uploads|, bytes);
    if !ok {
      return;
    }
    Assoc(es, copied, [TarEntry(MANIFEST, encode(man))]);
    es := es + copied;
    es := es + [TarEntry(MANIFEST, encode(man))];
  }

  method DumpTables(c: Codec, order: seq<string>, data: map<string, seq<Row>>) returns (es: seq<TarEntry>, tables: seq<(string, int)>)
    ensures es == DumpAll(c, order, data) && tables == CountsOf(order, data)
  {
    es, tables := [], [];
    assert order[0..] == order && Dumping(c, data, es, tables, order, order);
    for i := 0 to |order|
      invariant Dumping(c, data, es, tables, order[i..], order)
    {
      NextName(order, i);
      DumpingStep(c, data, es, tables, order[i..], order);
      var part, total := DumpTable(c, order[i], At(data, order[i]));
      es := es + part;
      tables := tables + [(order[i], total)];
    }
    assert order[|order|..] == [];
    assert es + [] == es && tables + [] == tables;
  }

  /** Mid-dump: the tables in left are still to come. */
  ghost predicate Dumping(c: Codec, data: map<string, seq<Row>>, es: seq<TarEntry>, tables: seq<(string, int)>,
                          left: seq<string>, order: seq<string>) {
    es + DumpAll(c, left, data) == DumpAll(c, order, data) && tables + CountsOf(left, data) == CountsOf(order, data)
  }

  lemma NextName(order: seq<string>, i: nat)
    requires i < |order|
    ensures order[i..] != [] && order[i..][0] == order[i] && order[i..][1..] == order[i + 1..]
  {
  }

  lemma DumpingStep(c: Codec, data: map<string, seq<Row>>, es: seq<TarEntry>, tables: seq<(string, int)>,
                    left: seq<string>, order: seq<string>)
    requires Dumping(c, data, es, tables, left, order) && left != []
    ensures Dumping(c, data, es + DumpOf(c, left[0], At(data, left[0])), tables + [(left[0], |At(data, left[0])|)], left[1..], order)
  {
    Assoc(es, DumpOf(c, left[0], At(data, left[0])), DumpAll(c, left[1..], data));
    Assoc(tables, [(left[0], |At(data, left[0])|)], CountsOf(left[1..], data));
  }

  method DumpUploads(uploads: seq<TarEntry>) returns (ok: bool, es: seq<TarEntry>, bytes: int)
    requires forall i :: 0 <= i < |uploads| ==> IsUpload(uploads[i])
    ensures ok <==> forall i :: 0 <= i < |uploads| ==> SafeEntry(uploads[i])
    ensures ok ==> es == uploads && bytes == Sum(UploadSizes(uploads))
  {
    ok, es, bytes := true, [], 0;
    for i := 0 to |uploads|
      invariant es == uploads[..i] && ok
      invariant forall j :: 0 <= j < i ==> SafeEntry(uploads[j])
      invariant bytes == Sum(UploadSizes(uploads[..i]))
    {
      if !SafeUpload(uploads[i].name) {
        return false, es, bytes;
      }
      assert uploads[..i + 1] == uploads[..i] + [uploads[i]];
      UploadStep(uploads[..i], uploads[i]);
      SumAppend(UploadSizes(uploads[..i]), |uploads[i].content|);
      es := es + [uploads[i]];
      bytes := bytes + |uploads[i].content|;
    }
    assert uploads[..|uploads|] == uploads;
  }

  /** A table of a dump that the reader can take: parts with four-digit numbers, lines within
      the limit. */
  predicate TableFits(c: Codec, limit: nat, rows: seq<Row>) {
    |Groups([], Encoded(c, rows))| <= 10000 && Fits(limit, Encoded(c, rows))
  }

  /** One part of a dump read back. */
  lemma PartReads(c: Codec, schema: Schema, index: Index, limit: nat, table: string, part: nat, rows: seq<Row>, name: string)
    requires Sound(c) && table in schema && '/' !in table && AllWidth(rows, schema[table])
    ensures var e := TarEntry(PartName(table, part), Lines(Encoded(c, rows)));
      && IsTablePart(e)
      && (part < 10000 ==> PartOf(schema, e) == Some((table, part)))
      && (part >= 10000 ==> PartOf(schema, e) == None)
      && (Readable(c, schema, index, limit, e) <==> part < 10000 && part in PartsAt(index, table) && Fits(limit, Encoded(c, rows)))
      && (part < 10000 && Fits(limit, Encoded(c, rows)) ==> RowsIn(c, schema, limit, e, name) == if name == table then rows else [])
  {
    PartNameRoundTrip(table, part, schema.Keys);
    DecodesBack(c, rows, schema[table], limit);
  }

  /** Groups of encoded rows are the encodings of groups of rows. */
  lemma GroupRows(c: Codec, groups: seq<seq<string>>, rows: seq<Row>) returns (k: nat)
    requires groups != [] && Flatten(groups) == Encoded(c, rows)
    ensures k <= |rows| && rows[..k] + rows[k..] == rows
    ensures groups[0] == Encoded(c, rows[..k]) && Flatten(groups[1..]) == Encoded(c, rows[k..])
  {
    k := |groups[0]|;
    assert rows[..k] + rows[k..] == rows;
    EncodedConcat(c, rows[..k], rows[k..]);
    SameSplit(groups[0], Flatten(groups[1..]), Encoded(c, rows[..k]), Encoded(c, rows[k..]));
  }

  lemma EncodedConcat(c: Codec, xs: seq<Row>, ys: seq<Row>)
    ensures Encoded(c, xs + ys) == Encoded(c, xs) + Encoded(c, ys)
  {
  }

  lemma SameSplit<T>(a: seq<T>, b: seq<T>, x: seq<T>, y: seq<T>)
    requires a + b == x + y && |a| == |x|
    ensures a == x && b == y
  {
    assert a == (a + b)[..|a|] && b == (a + b)[|a|..];
    assert x == (x + y)[..|x|] && y == (x + y)[|x|..];
  }

  predicate FitsFrom(limit: nat, lines: seq<string>, first: nat, n: nat) {
    (n == 0 || first + n <= 10000) && Fits(limit, lines)
  }

  lemma FitsSplit(limit: nat, a: seq<string>, b: seq<string>)
    ensures Fits(limit, a + b) <==> Fits(limit, a) && Fits(limit, b)
  {
    if Fits(limit, a + b) {
      assert forall i :: 0 <= i < |a| ==> (a + b)[i] == a[i];
      assert forall i :: 0 <= i < |b| ==> (a + b)[|a| + i] == b[i];
    }
  }

  /** es can be read exactly when fits holds, and then holds just these rows of table. */
  ghost predicate ReadsAs(c: Codec, schema: Schema, index: Index, limit: nat, es: seq<TarEntry>, fits: bool,
                          table: string, rows: seq<Row>) {
    && (AllReadable(c, schema, index, limit, es) <==> fits)
    && (fits ==> forall name :: RowsFor(c, schema, limit, es, name) == Only(table, rows, name))
  }

  lemma ReadsMore(c: Codec, schema: Schema, index: Index, limit: nat, e: TarEntry, es: seq<TarEntry>, fits: bool, fitsRest: bool,
                  table: string, head: seq<Row>, rest: seq<Row>)
    requires Readable(c, schema, index, limit, e) <==> fits
    requires fits ==> forall name :: RowsIn(c, schema, limit, e, name) == Only(table, head, name)
    requires ReadsAs(c, schema, index, limit, es, fitsRest, table, rest)
    ensures ReadsAs(c, schema, index, limit, [e] + es, fits && fitsRest, table, head + rest)
  {
    assert ([e] + es)[1..] == es;
  }

  /** The entries of one table: readable exactly when they fit, then giving back the rows. */
  lemma {:induction false} TableReads(c: Codec, schema: Schema, index: Index, limit: nat, table: string, groups: seq<seq<string>>,
                                      first: nat, rows: seq<Row>)
    requires Sound(c) && table in schema && '/' !in table && AllWidth(rows, schema[table])
    requires Flatten(groups) == Encoded(c, rows)
    requires forall k :: first <= k < first + |groups| ==> k in PartsAt(index, table)
    ensures ReadsAs(c, schema, index, limit, TableEntries(table, groups, first), FitsFrom(limit, Encoded(c, rows), first, |groups|), table, rows)
    decreases |groups|
  {
    if groups == [] {
      assert rows == [];
    } else {
      var k := GroupRows(c, groups, rows);
      var head, rest, next := rows[..k], rows[k..], first + 1;
      HeadReads(c, schema, index, limit, table, first, head);
      TableReads(c, schema, index, limit, table, groups[1..], next, rest);
      ReadsMore(c, schema, index, limit, TarEntry(PartName(table, first), Lines(groups[0])), TableEntries(table, groups[1..], next),
                HeadFits(limit, groups[0], first), FitsFrom(limit, Encoded(c, rest), next, |groups[1..]|), table, head, rest);
      FitsFromStep(limit, groups[0], Encoded(c, rest), first, |groups[1..]|);
    }
  }

  predicate HeadFits(limit: nat, lines: seq<string>, part: nat) {
    part < 10000 && Fits(limit, lines)
  }

  lemma FitsFromStep(limit: nat, head: seq<string>, rest: seq<string>, first: nat, n: nat)
    ensures FitsFrom(limit, head + rest, first, n + 1) <==> HeadFits(limit, head, first) && FitsFrom(limit, rest, first + 1, n)
  {
    FitsSplit(limit, head, rest);
  }

  lemma HeadReads(c: Codec, schema: Schema, index: Index, limit: nat, table: string, part: nat, rows: seq<Row>)
    requires Sound(c) && table in schema && '/' !in table && AllWidth(rows, schema[table]) && part in PartsAt(index, table)
    ensures var e := TarEntry(PartName(table, part), Lines(Encoded(c, rows)));
      var fits := HeadFits(limit, Encoded(c, rows), part);
      && (Readable(c, schema, index, limit, e) <==> fits)
      && (fits ==> forall name :: RowsIn(c, schema, limit, e, name) == Only(table, rows, name))
  {
    PartReads(c, schema, index, limit, table, part, rows, table);
    forall name | HeadFits(limit, Encoded(c, rows), part)
      ensures RowsIn(c, schema, limit, TarEntry(PartName(table, part), Lines(Encoded(c, rows))), name) == Only(table, rows, name)
    {
      PartReads(c, schema, index, limit, table, part, rows, name);
    }
  }

  lemma {:induction false} AllowedConcat(schema: Schema, xs: seq<TarEntry>, ys: seq<TarEntry>)
    ensures AllAllowed(schema, xs + ys) <==> AllAllowed(schema, xs) && AllAllowed(schema, ys)
    ensures forall n :: Names(xs + ys, n) <==> Names(xs, n) || Names(ys, n)
    ensures forall t :: PartsFor(schema, xs + ys, t) == PartsFor(schema, xs, t) + PartsFor(schema, ys, t)
  {
    if xs == [] {
      assert xs + ys == ys;
    } else {
      AllowedConcat(schema, xs[1..], ys);
      assert (xs + ys)[1..] == xs[1..] + ys && (xs + ys)[0] == xs[0];
    }
  }

  lemma {:induction false} DistinctConcat(xs: seq<TarEntry>, ys: seq<TarEntry>)
    requires DistinctNames(xs) && DistinctNames(ys) && forall n :: !(Names(xs, n) && Names(ys, n))
    ensures DistinctNames(xs + ys)
  {
    if xs == [] {
      assert xs + ys == ys;
    } else {
      assert (xs + ys)[1..] == xs[1..] + ys && (xs + ys)[0] == xs[0];
      forall n ensures !(Names(xs[1..], n) && Names(ys, n)) {
        assert Names(xs[1..], n) ==> Names(xs, n);
      }
      DistinctConcat(xs[1..], ys);
      AllowedConcat(map[], xs[1..], ys);
      assert Names(xs, xs[0].name);
    }
  }

  lemma {:induction false} ReadableConcat(c: Codec, schema: Schema, index: Index, limit: nat, xs: seq<TarEntry>, ys: seq<TarEntry>)
    ensures AllReadable(c, schema, index, limit, xs + ys)
       <==> AllReadable(c, schema, index, limit, xs) && AllReadable(c, schema, index, limit, ys)
    ensures forall t :: RowsFor(c, schema, limit, xs + ys, t) == RowsFor(c, schema, limit, xs, t) + RowsFor(c, schema, limit, ys, t)
  {
    if xs == [] {
      assert xs + ys == ys;
    } else {
      ReadableConcat(c, schema, index, limit, xs[1..], ys);
      assert (xs + ys)[1..] == xs[1..] + ys && (xs + ys)[0] == xs[0];
      forall t
        ensures RowsFor(c, schema, limit, xs + ys, t) == RowsFor(c, schema, limit, xs, t) + RowsFor(c, schema, limit, ys, t)
      {
        Assoc(RowsIn(c, schema, limit, xs[0], t), RowsFor(c, schema, limit, xs[1..], t), RowsFor(c, schema, limit, ys, t));
      }
    }
  }

  /** The names and numbers of one table's parts. */
  lemma {:induction false} TableNumbers(schema: Schema, table: string, groups: seq<seq<string>>, first: nat)
    requires table in schema && '/' !in table
    ensures var es := TableEntries(table, groups, first);
      && (AllAllowed(schema, es) <==> groups == [] || first + |groups| <= 10000)
      && (AllAllowed(schema, es) ==> Numbered(schema, es, table, first, |groups|))
    decreases |groups|
  {
    if groups != [] {
      var e, rest := TarEntry(PartName(table, first), Lines(groups[0])), TableEntries(table, groups[1..], first + 1);
      var es := TableEntries(table, groups, first);
      assert es == [e] + rest && es[1..] == rest;
      PartNameRoundTrip(table, first, schema.Keys);
      TableNumbers(schema, table, groups[1..], first + 1);
      if AllAllowed(schema, es) { NumberedStep(schema, e, rest, table, first, |groups| - 1); }
    }
  }

  ghost predicate Numbered(schema: Schema, es: seq<TarEntry>, table: string, first: nat, n: nat) {
    && DistinctNames(es)
    && (forall name :: Names(es, name) ==> NameOf(schema, name, table, first))
    && (forall t :: PartsFor(schema, es, t) == if t == table then Iota(first, n) else [])
  }

  /** name is that of some part of table from first on. */
  predicate NameOf(schema: Schema, name: string, table: string, first: nat) {
    var p := ParseTablePart(name, schema.Keys);
    TABLES <= name && p.Some? && p.value.0 == table && p.value.1 >= first
  }

  lemma NumberedStep(schema: Schema, e: TarEntry, rest: seq<TarEntry>, table: string, first: nat, n: nat)
    requires PartOf(schema, e) == Some((table, first)) && Numbered(schema, rest, table, first + 1, n)
    ensures Numbered(schema, [e] + rest, table, first, n + 1)
  {
    var es := [e] + rest;
    assert es[1..] == rest;
    forall name | Names(es, name) ensures NameOf(schema, name, table, first) {
      if Names(rest, name) { assert NameOf(schema, name, table, first + 1); }
    }
  }

  predicate Registered(schema: Schema, order: seq<string>) {
    order == [] || (order[0] in schema && '/' !in order[0] && order[0] !in order[1..] && Registered(schema, order[1..]))
  }

  predicate FewParts(c: Codec, order: seq<string>, data: map<string, seq<Row>>) {
    order == [] || (|Groups([], Encoded(c, At(data, order[0])))| <= 10000 && FewParts(c, order[1..], data))
  }

  /** Every table can be dumped and taken back. */
  predicate AllFit(c: Codec, limit: nat, order: seq<string>, data: map<string, seq<Row>>) {
    order == [] || (TableFits(c, limit, At(data, order[0])) && AllFit(c, limit, order[1..], data))
  }

  lemma {:induction false} FitsAreFew(c: Codec, limit: nat, order: seq<string>, data: map<string, seq<Row>>)
    ensures AllFit(c, limit, order, data) ==> FewParts(c, order, data)
  {
    if order != [] { FitsAreFew(c, limit, order[1..], data); }
  }

  ghost predicate DumpNumbered(c: Codec, schema: Schema, order: seq<string>, data: map<string, seq<Row>>, es: seq<TarEntry>) {
    && DistinctNames(es)
    && (forall name :: Names(es, name) ==> OfTables(schema, name, order))
    && DumpParts(c, schema, order, data, es)
  }

  /** es has exactly the parts of these tables. */
  ghost predicate DumpParts(c: Codec, schema: Schema, order: seq<string>, data: map<string, seq<Row>>, es: seq<TarEntry>) {
    forall t :: PartsFor(schema, es, t) == if t in order then Iota(0, |Groups([], Encoded(c, At(data, t)))|) else []
  }

  predicate OfTables(schema: Schema, name: string, order: seq<string>) {
    var p := ParseTablePart(name, schema.Keys);
    TABLES <= name && p.Some? && p.value.0 in order
  }

  /** The names and numbers in a dump. */
  lemma {:induction false} DumpNumbers(c: Codec, schema: Schema, order: seq<string>, data: map<string, seq<Row>>)
    requires Registered(schema, order)
    ensures AllAllowed(schema, DumpAll(c, order, data)) <==> FewParts(c, order, data)
    ensures FewParts(c, order, data) ==> DumpNumbered(c, schema, order, data, DumpAll(c, order, data))
  {
    if order != [] {
      var t := order[0];
      var xs, ys := DumpOf(c, t, At(data, t)), DumpAll(c, order[1..], data);
      TableNumbers(schema, t, Groups([], Encoded(c, At(data, t))), 0);
      DumpNumbers(c, schema, order[1..], data);
      AllowedConcat(schema, xs, ys);
      if FewParts(c, order, data) { DumpJoin(c, schema, order, data, xs, ys); }
    }
  }

  lemma DumpJoin(c: Codec, schema: Schema, order: seq<string>, data: map<string, seq<Row>>, xs: seq<TarEntry>, ys: seq<TarEntry>)
    requires order != [] && order[0] !in order[1..]
    requires Numbered(schema, xs, order[0], 0, |Groups([], Encoded(c, At(data, order[0])))|)
    requires DumpNumbered(c, schema, order[1..], data, ys)
    ensures DumpNumbered(c, schema, order, data, xs + ys)
  {
    AllowedConcat(schema, xs, ys);
    forall n ensures !(Names(xs, n) && Names(ys, n)) {
      if Names(xs, n) { assert NameOf(schema, n, order[0], 0); }
      if Names(ys, n) { assert OfTables(schema, n, order[1..]); }
    }
    DistinctConcat(xs, ys);
    forall name | Names(xs + ys, name) ensures OfTables(schema, name, order) {
      if Names(xs, name) {
        assert NameOf(schema, name, order[0], 0);
      } else {
        assert OfTables(schema, name, order[1..]);
      }
    }
  }

  /** The index lists the parts a dump of these tables has. */
  ghost predicate Lists(c: Codec, index: Index, order: seq<string>, data: map<string, seq<Row>>) {
    forall t :: t in order ==> HasParts(index, t, |Groups([], Encoded(c, At(data, t)))|)
  }

  ghost predicate HasParts(index: Index, t: string, n: nat) {
    forall k :: 0 <= k < n ==> k in PartsAt(index, t)
  }

  ghost predicate WellFormed(schema: Schema, order: seq<string>, data: map<string, seq<Row>>) {
    Registered(schema, order) && forall t :: t in order ==> t in schema && AllWidth(At(data, t), schema[t])
  }

  /** es holds the rows of exactly these tables. */
  ghost predicate GivesBack(c: Codec, schema: Schema, limit: nat, es: seq<TarEntry>, order: seq<string>, data: map<string, seq<Row>>) {
    forall t :: RowsFor(c, schema, limit, es, t) == if t in order then At(data, t) else []
  }

  ghost predicate ReadsAll(c: Codec, schema: Schema, index: Index, limit: nat, es: seq<TarEntry>, order: seq<string>,
                           data: map<string, seq<Row>>) {
    && (AllReadable(c, schema, index, limit, es) <==> AllFit(c, limit, order, data))
    && (AllFit(c, limit, order, data) ==> GivesBack(c, schema, limit, es, order, data))
  }

  lemma ReadsJoin(c: Codec, schema: Schema, index: Index, limit: nat, xs: seq<TarEntry>, ys: seq<TarEntry>, order: seq<string>,
                  data: map<string, seq<Row>>)
    requires order != [] && order[0] !in order[1..]
    requires ReadsAs(c, schema, index, limit, xs, TableFits(c, limit, At(data, order[0])), order[0], At(data, order[0]))
    requires ReadsAll(c, schema, index, limit, ys, order[1..], data)
    ensures ReadsAll(c, schema, index, limit, xs + ys, order, data)
  {
    ReadableConcat(c, schema, index, limit, xs, ys);
    if AllFit(c, limit, order, data) {
      forall t ensures RowsFor(c, schema, limit, xs + ys, t) == if t in order then At(data, t) else [] {
        assert RowsFor(c, schema, limit, xs, t) == Only(order[0], At(data, order[0]), t);
        assert RowsFor(c, schema, limit, ys, t) == if t in order[1..] then At(data, t) else [];
      }
    }
  }

  /** A dump is readable exactly when every table fits, and then gives back every table. */
  lemma {:induction false} DumpReads(c: Codec, schema: Schema, index: Index, limit: nat, order: seq<string>, data: map<string, seq<Row>>)
    requires Sound(c) && WellFormed(schema, order, data) && Lists(c, index, order, data)
    ensures ReadsAll(c, schema, index, limit, DumpAll(c, order, data), order, data)
  {
    if order != [] {
      OneTableReads(c, schema, index, limit, order[0], At(data, order[0]));
      DumpReads(c, schema, index, limit, order[1..], data);
      ReadsJoin(c, schema, index, limit, DumpOf(c, order[0], At(data, order[0])), DumpAll(c, order[1..], data), order, data);
    }
  }

  lemma OneTableReads(c: Codec, schema: Schema, index: Index, limit: nat, t: string, rows: seq<Row>)
    requires Sound(c) && t in schema && '/' !in t && AllWidth(rows, schema[t])
    requires HasParts(index, t, |Groups([], Encoded(c, rows))|)
    ensures ReadsAs(c, schema, index, limit, DumpOf(c, t, rows), TableFits(c, limit, rows), t, rows)
  {
    var groups := Groups([], Encoded(c, rows));
    GroupsFlatten([], Encoded(c, rows));
    assert [] + Encoded(c, rows) == Encoded(c, rows);
    TableReads(c, schema, index, limit, t, groups, 0, rows);
  }

  // ------------------------------------------------------ uploads, manifest

  predicate NoTables(es: seq<TarEntry>) {
    forall i :: 0 <= i < |es| ==> es[i].name == MANIFEST || SafeEntry(es[i])
  }

  /** Entries that are no table parts hold no part and no row, and are always readable. */
  lemma {:induction false} NoTableParts(c: Codec, schema: Schema, index: Index, limit: nat, es: seq<TarEntry>, order: seq<string>)
    requires NoTables(es)
    ensures AllAllowed(schema, es) && AllReadable(c, schema, index, limit, es)
    ensures forall t :: PartsFor(schema, es, t) == [] && RowsFor(c, schema, limit, es, t) == []
    ensures forall n :: Names(es, n) ==> !(TABLES <= n)
  {
    if es != [] {
      assert MANIFEST[0] == 'm';
      NoTableParts(c, schema, index, limit, es[1..], order);
    }
  }

  lemma {:induction false} UploadNames(es: seq<TarEntry>)
    requires forall i :: 0 <= i < |es| ==> SafeEntry(es[i])
    ensures !Names(es, MANIFEST) && |UploadSizes(es)| == |es|
    decreases |es|
  {
    if es != [] {
      NoManifest(es);
      UploadNames(es[..|es| - 1]);
    }
  }

  lemma {:induction false} NoManifest(es: seq<TarEntry>)
    requires forall i :: 0 <= i < |es| ==> SafeEntry(es[i])
    ensures !Names(es, MANIFEST)
  {
    if es != [] { NoManifest(es[1..]); }
  }

  lemma {:induction false} SizesConcat(xs: seq<TarEntry>, ys: seq<TarEntry>)
    ensures UploadSizes(xs + ys) == UploadSizes(xs) + UploadSizes(ys)
    decreases |ys|
  {
    if ys == [] {
      assert xs + ys == xs && UploadSizes(xs) + [] == UploadSizes(xs);
    } else {
      var init, last := ys[..|ys| - 1], ys[|ys| - 1];
      assert xs + ys == (xs + init) + [last] && ys == init + [last];
      SizesConcat(xs, init);
      UploadStep(xs + init, last);
      UploadStep(init, last);
      Assoc(UploadSizes(xs), UploadSizes(init), if IsUpload(last) then [|last.content|] else []);
    }
  }

  lemma {:induction false} TableSizes(table: string, groups: seq<seq<string>>, first: nat)
    ensures UploadSizes(TableEntries(table, groups, first)) == []
    ensures forall i :: 0 <= i < |TableEntries(table, groups, first)| ==> IsTablePart(TableEntries(table, groups, first)[i])
    decreases |groups|
  {
    if groups != [] {
      var e, rest := TarEntry(PartName(table, first), Lines(groups[0])), TableEntries(table, groups[1..], first + 1);
      TableSizes(table, groups[1..], first + 1);
      assert IsTablePart(e);
      SizesConcat([e], rest);
      assert [e][..0] == [];
      assert UploadSizes([e]) == [];
    }
  }

  /** A dump's tables hold no upload. */
  lemma {:induction false} DumpSizes(c: Codec, order: seq<string>, data: map<string, seq<Row>>)
    ensures UploadSizes(DumpAll(c, order, data)) == []
  {
    if order != [] {
      DumpSizes(c, order[1..], data);
      TableSizes(order[0], Groups([], Encoded(c, At(data, order[0]))), 0);
      SizesConcat(DumpOf(c, order[0], At(data, order[0])), DumpAll(c, order[1..], data));
    }
  }

  /** The entries after the tables. */
  lemma RestOfArchive(uploads: seq<TarEntry>, m: TarEntry)
    requires UploadEntries(uploads) && m.name == MANIFEST
    ensures var rest := uploads + [m];
      && NoTables(rest) && DistinctNames(rest) && Names(rest, MANIFEST)
      && UploadSizes(rest) == UploadSizes(uploads) && |UploadSizes(uploads)| == |uploads|
  {
    UploadNames(uploads);
    assert [m][1..] == [];
    forall n ensures !(Names(uploads, n) && Names([m], n)) {
      assert Names([m], n) <==> n == MANIFEST;
    }
    DistinctConcat(uploads, [m]);
    AllowedConcat(map[], uploads, [m]);
    UploadStep(uploads, m);
    assert UploadSizes(uploads) + [] == UploadSizes(uploads);
  }

  lemma {:induction false} CountFound(order: seq<string>, data: map<string, seq<Row>>, i: nat)
    requires i < |order| && forall j, k :: 0 <= j < k < |order| ==> order[j] != order[k]
    ensures RowCount(CountsOf(order, data), order[i]) == Some(|At(data, order[i])|)
  {
    assert CountsOf(order, data)[1..] == CountsOf(order[1..], data);
    if i > 0 { CountFound(order[1..], data, i - 1); }
  }

  lemma {:induction false} DistinctOrder(schema: Schema, order: seq<string>)
    requires Registered(schema, order)
    ensures forall j, k :: 0 <= j < k < |order| ==> order[j] != order[k]
    ensures forall t :: t in order ==> t in schema
  {
    if order != [] { DistinctOrder(schema, order[1..]); }
  }

  lemma ManifestAgrees(schema: Schema, order: seq<string>, data: map<string, seq<Row>>, uploads: seq<TarEntry>)
    requires Registered(schema, order) && |UploadSizes(uploads)| == |uploads|
    ensures ManifestFits(schema, order, ManifestOf(order, data, uploads), UploadSizes(uploads))
    ensures forall i :: 0 <= i < |order| ==> Recorded(ManifestOf(order, data, uploads), order[i]) == |At(data, order[i])|
  {
    DistinctOrder(schema, order);
    forall i | 0 <= i < |order| ensures RowCount(CountsOf(order, data), order[i]) == Some(|At(data, order[i])|) {
      CountFound(order, data, i);
    }
  }

  /** In the archive come the tables' parts, then the uploads as they are, and the manifest last. */
  lemma ArchiveLayout(c: Codec, order: seq<string>, data: map<string, seq<Row>>, uploads: seq<TarEntry>, text: string)
    ensures var es := Archive(c, order, data, uploads, text);
      var n := |es| - |uploads| - 1;
      && n >= |order| && es[n..|es| - 1] == uploads && es[|es| - 1] == TarEntry("manifest.json", text)
      && forall i :: 0 <= i < n ==> "tables/" <= es[i].name
  {
    OnlyTables(c, order, data);
    var tables, rest := DumpAll(c, order, data), uploads + [TarEntry(MANIFEST, text)];
    var es := tables + rest;
    assert es[|tables|..] == rest && rest[..|uploads|] == uploads;
    assert es[|tables|..|es| - 1] == rest[..|uploads|];
  }

  lemma {:induction false} OnlyTables(c: Codec, order: seq<string>, data: map<string, seq<Row>>)
    ensures var es := DumpAll(c, order, data);
      |es| >= |order| && forall i :: 0 <= i < |es| ==> IsTablePart(es[i])
  {
    if order != [] {
      var groups := Groups([], Encoded(c, At(data, order[0])));
      OnlyTables(c, order[1..], data);
      TableSizes(order[0], groups, 0);
      EntriesPerGroup(order[0], groups, 0);
    }
  }

  lemma {:induction false} EntriesPerGroup(table: string, groups: seq<seq<string>>, first: nat)
    ensures |TableEntries(table, groups, first)| == |groups|
    decreases |groups|
  {
    if groups != [] { EntriesPerGroup(table, groups[1..], first + 1); }
  }

  // ------------------------------------------------------------- the theorem

  /** The archive can be restored exactly when every table takes at most 10000 parts, every row's
      line is within the reader's limit, and what was written is within the restore's other limits:
      entries, each entry's size, bytes in all; then every table comes back, row for row in order. */
  lemma DumpRestores(c: Codec, schema: Schema, order: seq<string>, data: map<string, seq<Row>>, uploads: seq<TarEntry>,
                     text: string, lim: Limits, heads: string -> nat)
    requires Sound(c) && WellFormed(schema, order, data) && UploadEntries(uploads)
    ensures var es := Archive(c, order, data, uploads, text);
      && (Restorable(c, schema, order, es, ManifestOf(order, data, uploads), lim, heads)
          <==> AllFit(c, lim.line, order, data) && Within(lim, heads, es))
      && (AllFit(c, lim.line, order, data) ==> GivesBack(c, schema, lim.line, es, order, data))
  {
    var limit := lim.line;
    var tables, rest := DumpAll(c, order, data), uploads + [TarEntry(MANIFEST, text)];
    RestOfArchive(uploads, TarEntry(MANIFEST, text));
    DumpNumbers(c, schema, order, data);
    FitsAreFew(c, limit, order, data);
    AllowedConcat(schema, tables, rest);
    if FewParts(c, order, data) {
      ArchiveScans(c, schema, order, data, rest, limit);
      ArchiveReads(c, schema, order, data, rest, limit);
      ManifestAgrees(schema, order, data, uploads);
      DumpSizes(c, order, data);
      SizesConcat(tables, rest);
      assert [] + UploadSizes(rest) == UploadSizes(rest);
      if AllFit(c, limit, order, data) {
        CountsFollow(c, schema, limit, tables + rest, order, data, ManifestOf(order, data, uploads));
      }
    }
  }

  lemma ArchiveScans(c: Codec, schema: Schema, order: seq<string>, data: map<string, seq<Row>>, rest: seq<TarEntry>, limit: nat)
    requires Registered(schema, order) && FewParts(c, order, data) && NoTables(rest) && DistinctNames(rest) && Names(rest, MANIFEST)
    ensures var es := DumpAll(c, order, data) + rest;
      && DistinctNames(es) && AllAllowed(schema, es) && Names(es, MANIFEST) && DumpParts(c, schema, order, data, es)
  {
    var tables := DumpAll(c, order, data);
    DumpNumbers(c, schema, order, data);
    NoTableParts(c, schema, map[], limit, rest, order);
    forall n ensures !(Names(tables, n) && Names(rest, n)) {
      if Names(tables, n) { assert OfTables(schema, n, order); }
    }
    DistinctConcat(tables, rest);
    AllowedConcat(schema, tables, rest);
    assert forall t :: PartsFor(schema, tables, t) + [] == PartsFor(schema, tables, t);
  }

  lemma ArchiveReads(c: Codec, schema: Schema, order: seq<string>, data: map<string, seq<Row>>, rest: seq<TarEntry>, limit: nat)
    requires Sound(c) && WellFormed(schema, order, data) && NoTables(rest)
    requires DumpParts(c, schema, order, data, DumpAll(c, order, data) + rest)
    ensures var es := DumpAll(c, order, data) + rest;
      && AllComplete(order, IndexOf(schema, es)) && KnownTables(schema, IndexOf(schema, es))
      && ReadsAll(c, schema, IndexOf(schema, es), limit, es, order, data)
  {
    var tables := DumpAll(c, order, data);
    var index := IndexOf(schema, tables + rest);
    DumpListed(c, schema, order, data, tables + rest);
    DumpReads(c, schema, index, limit, order, data);
    NoTableParts(c, schema, index, limit, rest, order);
    ReadableConcat(c, schema, index, limit, tables, rest);
    assert forall t :: RowsFor(c, schema, limit, tables, t) + [] == RowsFor(c, schema, limit, tables, t);
    OnlyKnown(schema, tables + rest);
  }

  /** The index only ever holds tables of the registry. */
  lemma {:induction false} OnlyKnown(schema: Schema, es: seq<TarEntry>)
    ensures KnownTables(schema, IndexOf(schema, es))
    decreases |es|
  {
    if es != [] { OnlyKnown(schema, es[..|es| - 1]); }
  }

  lemma CountsFollow(c: Codec, schema: Schema, limit: nat, es: seq<TarEntry>, order: seq<string>, data: map<string, seq<Row>>,
                     man: Manifest)
    requires GivesBack(c, schema, limit, es, order, data)
    requires forall i :: 0 <= i < |order| ==> Recorded(man, order[i]) == |At(data, order[i])|
    ensures CountsMatch(c, schema, limit, es, order, man)
  {
  }

  /** The validating pass lists every part of a dump and finds every table complete. */
  lemma DumpListed(c: Codec, schema: Schema, order: seq<string>, data: map<string, seq<Row>>, es: seq<TarEntry>)
    requires DumpParts(c, schema, order, data, es)
    ensures Lists(c, IndexOf(schema, es), order, data) && AllComplete(order, IndexOf(schema, es))
  {
    forall t | t in order
      ensures HasParts(IndexOf(schema, es), t, |Groups([], Encoded(c, At(data, t)))|) && Complete(PartsAt(IndexOf(schema, es), t))
    {
      IndexHolds(schema, es, t);
      var n := |Groups([], Encoded(c, At(data, t)))|;
      forall k | 0 <= k < n ensures k in Iota(0, n) {
        assert Iota(0, n)[k] == k;
      }
    }
  }

  // -------------------------------------------------- what the limits ask

  function PartCount(c: Codec, order: seq<string>, data: map<string, seq<Row>>): nat {
    if order == [] then 0 else |Groups([], Encoded(c, At(data, order[0])))| + PartCount(c, order[1..], data)
  }

  lemma {:induction false} GroupFits(limit: nat, groups: seq<seq<string>>, i: nat)
    requires i < |groups| && Fits(limit, Flatten(groups))
    ensures Fits(limit, groups[i])
  {
    FitsSplit(limit, groups[0], Flatten(groups[1..]));
    if i > 0 { GroupFits(limit, groups[1..], i - 1); }
  }

  /** Parts no larger than the greedy bound or one row's line. */
  lemma {:induction false} SmallParts(lim: Limits, table: string, groups: seq<seq<string>>, first: nat)
    requires forall i :: 0 <= i < |groups| ==> |Lines(groups[i])| <= lim.part
    ensures var es := TableEntries(table, groups, first);
      |es| == |groups| && forall i :: 0 <= i < |es| ==> EntryFits(lim, es[i])
    decreases |groups|
  {
    if groups != [] {
      var e, rest, es := PartEntry(table, first, groups[0]), TableEntries(table, groups[1..], first + 1), TableEntries(table, groups, first);
      SmallParts(lim, table, groups[1..], first + 1);
      assert es == [e] + rest && IsTablePart(e) && MANIFEST[0] == 'm';
      forall i | 0 <= i < |es| ensures EntryFits(lim, es[i]) {
        assert i > 0 ==> es[i] == rest[i - 1];
      }
    }
  }

  lemma TableWithin(c: Codec, lim: Limits, t: string, rows: seq<Row>)
    requires TableFits(c, lim.line, rows) && MAX_PART <= lim.part && LineCap(lim.line) <= lim.part
    ensures var es := DumpOf(c, t, rows);
      |es| == |Groups([], Encoded(c, rows))| && forall i :: 0 <= i < |es| ==> EntryFits(lim, es[i])
  {
    var lines := Encoded(c, rows);
    var groups := Groups([], lines);
    GroupsFlatten([], lines);
    assert [] + lines == lines;
    forall i | 0 <= i < |groups| ensures |Lines(groups[i])| <= lim.part {
      GroupsBounded([], lines, i);
      GroupFits(lim.line, groups, i);
      if |groups[i]| == 1 { assert groups[i][1..] == []; }
    }
    SmallParts(lim, t, groups, 0);
  }

  /** With room for one full part and one longest line, no table part is ever too large. */
  lemma {:induction false} DumpWithin(c: Codec, lim: Limits, order: seq<string>, data: map<string, seq<Row>>)
    requires AllFit(c, lim.line, order, data) && MAX_PART <= lim.part && LineCap(lim.line) <= lim.part
    ensures var es := DumpAll(c, order, data);
      |es| == PartCount(c, order, data) && forall i :: 0 <= i < |es| ==> EntryFits(lim, es[i])
  {
    if order != [] {
      TableWithin(c, lim, order[0], At(data, order[0]));
      DumpWithin(c, lim, order[1..], data);
    }
  }

  /** What the limits then ask of a dump: the number of parts and uploads, the size of each upload
      and of the manifest, and the bytes of the whole tar stream. */
  lemma LimitsAsk(c: Codec, order: seq<string>, data: map<string, seq<Row>>, uploads: seq<TarEntry>, text: string,
                  lim: Limits, heads: string -> nat)
    requires AllFit(c, lim.line, order, data) && UploadEntries(uploads)
    requires MAX_PART <= lim.part && LineCap(lim.line) <= lim.part
    ensures var es := Archive(c, order, data, uploads, text);
      Within(lim, heads, es) <==>
        && PartCount(c, order, data) + |uploads| + 1 <= lim.entries
        && (forall i :: 0 <= i < |uploads| ==> |uploads[i].content| <= lim.upload)
        && |text| <= 1048576 && Bytes(heads, es) + 1024 <= lim.total
  {
    var tables, m := DumpAll(c, order, data), TarEntry(MANIFEST, text);
    var es := Archive(c, order, data, uploads, text);
    DumpWithin(c, lim, order, data);
    SplitFits(lim, tables, uploads, m);
    UploadsFit(lim, uploads);
  }

  lemma UploadsFit(lim: Limits, uploads: seq<TarEntry>)
    requires UploadEntries(uploads)
    ensures (forall i :: 0 <= i < |uploads| ==> EntryFits(lim, uploads[i]))
       <==> (forall i :: 0 <= i < |uploads| ==> |uploads[i].content| <= lim.upload)
  {
    forall i | 0 <= i < |uploads| ensures EntryFits(lim, uploads[i]) <==> |uploads[i].content| <= lim.upload {
      assert SafeEntry(uploads[i]);
    }
  }

  lemma SplitFits(lim: Limits, xs: seq<TarEntry>, ys: seq<TarEntry>, m: TarEntry)
    ensures var es := xs + (ys + [m]);
      (forall i :: 0 <= i < |es| ==> EntryFits(lim, es[i])) <==>
        && (forall i :: 0 <= i < |xs| ==> EntryFits(lim, xs[i])) && (forall i :: 0 <= i < |ys| ==> EntryFits(lim, ys[i]))
        && EntryFits(lim, m)
  {
    var es := xs + (ys + [m]);
    assert forall i :: 0 <= i < |xs| ==> xs[i] == es[i];
    assert forall i :: 0 <= i < |ys| ==> ys[i] == es[|xs| + i];
    assert m == es[|xs| + |ys|];
    forall i | 0 <= i < |es| ensures es[i] == if i < |xs| then xs[i] else if i < |xs| + |ys| then ys[i - |xs|] else m {}
  }
}
