/** From an archive's entries back to tables: the validating pass and the row pass. */
module Reload {
  import opened Text
  import opened Division
  import opened Shuffle
  import opened Parts
  import opened Restore

  /** Columns per registered table. */
  type Schema = map<string, nat>

  const MANIFEST := "manifest.json"
  const UPLOADS := "uploads/"

  predicate IsTablePart(e: TarEntry) {
    TABLES <= e.name
  }

  function PartOf(schema: Schema, e: TarEntry): Option<(string, nat)> {
    if IsTablePart(e) then ParseTablePart(e.name, schema.Keys) else None
  }

  /** What the dump records about itself; its JSON text is taken as read. */
  datatype Manifest = Manifest(version: int, tables: seq<(string, int)>, uploadFiles: int, uploadBytes: int)

  const FORMAT := 1

  /** The row count recorded for a table. */
  function RowCount(tables: seq<(string, int)>, t: string): Option<int> {
    if tables == [] then None
    else if tables[0].0 == t then Some(tables[0].1)
    else RowCount(tables[1..], t)
  }

  function Recorded(man: Manifest, t: string): int {
    match RowCount(man.tables, t)
    case Some(n) => n
    case None => 0
  }

  // --------------------------------------------------------- validating pass

  /** Segments of a path that name something below where they stand. */
  predicate SafeSegments(rel: string)
    decreases |rel|
  {
    var (seg, rest, more) := Cut(rel, '/');
    CutShortens(rel, '/');
    seg != "" && seg != "." && seg != ".." && (more ==> SafeSegments(rest))
  }

  /** An upload's path: below the uploads directory, in canonical form, with no separator but '/'. */
  predicate SafeUpload(name: string)
    requires UPLOADS <= name
  {
    var rel := name[|UPLOADS|..];
    rel != "" && '\\' !in rel && ':' !in rel && SafeSegments(rel)
  }

  /** Entry names the archive may hold. */
  predicate AllowedEntry(schema: Schema, e: TarEntry) {
    e.name == MANIFEST || (if IsTablePart(e) then PartOf(schema, e).Some? else UPLOADS <= e.name && SafeUpload(e.name))
  }

  // ------------------------------------------------------------------ limits

  /** What a restore will consume: all bytes, those of an upload and of a table's part, entries,
      and the length of a row's line. */
  datatype Limits = Limits(total: int, upload: int, part: int, entries: int, line: nat)

  const MAX_MANIFEST := 0x10_0000
  const BLOCK := 512

  /** Two empty blocks end a tar stream. */
  const TRAILER := 1024

  /** Bytes an entry takes in the tar stream; heads gives those of its header blocks. */
  function EntryBytes(heads: string -> nat, e: TarEntry): nat {
    heads(e.name) + (|e.content| + BLOCK - 1) / BLOCK * BLOCK
  }

  function Bytes(heads: string -> nat, es: seq<TarEntry>): nat {
    if es == [] then 0 else Bytes(heads, es[..|es| - 1]) + EntryBytes(heads, es[|es| - 1])
  }

  /** An entry no larger than its kind may be. */
  predicate EntryFits(lim: Limits, e: TarEntry) {
    |e.content| <= if e.name == MANIFEST then MAX_MANIFEST else if IsTablePart(e) then lim.part else lim.upload
  }

  ghost predicate Within(lim: Limits, heads: string -> nat, es: seq<TarEntry>) {
    |es| <= lim.entries && (forall i :: 0 <= i < |es| ==> EntryFits(lim, es[i])) && Bytes(heads, es) + TRAILER <= lim.total
  }

  lemma {:induction false} BytesGrow(heads: string -> nat, es: seq<TarEntry>, i: nat)
    requires i <= |es|
    ensures Bytes(heads, es[..i]) <= Bytes(heads, es)
    decreases |es|
  {
    if i < |es| {
      BytesGrow(heads, es[..|es| - 1], i);
      assert es[..|es| - 1][..i] == es[..i];
    } else {
      assert es[..i] == es;
    }
  }

  predicate Names(es: seq<TarEntry>, name: string) {
    es != [] && (es[0].name == name || Names(es[1..], name))
  }

  predicate DistinctNames(es: seq<TarEntry>) {
    es == [] || (!Names(es[1..], es[0].name) && DistinctNames(es[1..]))
  }

  predicate AllAllowed(schema: Schema, es: seq<TarEntry>) {
    es == [] || (AllowedEntry(schema, es[0]) && AllAllowed(schema, es[1..]))
  }

  /** The part numbers of a table, in archive order. */
  function PartsFor(schema: Schema, es: seq<TarEntry>, table: string): seq<int> {
    if es == [] then []
    else
      var rest := PartsFor(schema, es[1..], table);
      match PartOf(schema, es[0])
      case Some(p) => if p.0 == table then [p.1] + rest else rest
      case None => rest
  }

  type Index = map<string, seq<int>>

  function PartsAt(index: Index, table: string): seq<int> {
    if table in index then index[table] else []
  }

  /** The sizes of the uploads. */
  function UploadSizes(es: seq<TarEntry>): seq<int> {
    if es == [] then []
    else UploadSizes(es[..|es| - 1]) + (if IsUpload(es[|es| - 1]) then [|es[|es| - 1].content|] else [])
  }

  predicate IsUpload(e: TarEntry) {
    e.name != MANIFEST && !IsTablePart(e) && UPLOADS <= e.name
  }

  ghost predicate Scannable(schema: Schema, lim: Limits, heads: string -> nat, es: seq<TarEntry>) {
    DistinctNames(es) && AllAllowed(schema, es) && Names(es, MANIFEST) && Within(lim, heads, es)
  }

  method Scan(schema: Schema, lim: Limits, heads: string -> nat, es: seq<TarEntry>) returns (r: Option<Index>, uploads: seq<int>)
    ensures r == if Scannable(schema, lim, heads, es) then Some(IndexOf(schema, es)) else None
    ensures r.Some? ==> uploads == UploadSizes(es)
  {
    var index: Index := map[];
    var seen: set<string> := {};
    var counted: nat := 0;
    uploads := [];
    for i := 0 to |es|
      invariant Scanned(schema, es[..i], seen, index)
      invariant Counted(lim, heads, es[..i], uploads, counted)
    {
      var e := es[i];
      assert es[..i + 1] == es[..i] + [e];
      if i + 1 > lim.entries || e.name in seen || !AllowedEntry(schema, e) || !EntryFits(lim, e) {
        EntryRefused(schema, lim, heads, es, i, seen, index);
        return None, uploads;
      }
      CountedStep(lim, heads, es, i, uploads, counted);
      if IsUpload(e) {
        uploads := uploads + [|e.content|];
      }
      counted := counted + EntryBytes(heads, e);
      if counted > lim.total {
        assert !Within(lim, heads, es);
        return None, uploads;
      }
      ScannedStep(schema, es[..i], e, seen, index);
      seen := seen + {e.name};
      index := Noted(index, PartOf(schema, e));
    }
    assert es[..|es|] == es;
    AllScanned(schema, lim, heads, es, seen, index, uploads, counted);
    if counted + TRAILER > lim.total || MANIFEST !in seen {
      return None, uploads;
    }
    r := Some(index);
  }

  lemma AllScanned(schema: Schema, lim: Limits, heads: string -> nat, es: seq<TarEntry>, seen: set<string>, index: Index,
                   uploads: seq<int>, counted: nat)
    requires Scanned(schema, es, seen, index) && Counted(lim, heads, es, uploads, counted)
    ensures index == IndexOf(schema, es) && uploads == UploadSizes(es)
    ensures Scannable(schema, lim, heads, es) <==> counted + TRAILER <= lim.total && MANIFEST in seen
  {
  }

  /** What was added up so far, all within the limits. */
  ghost predicate Counted(lim: Limits, heads: string -> nat, es: seq<TarEntry>, uploads: seq<int>, counted: nat) {
    && uploads == UploadSizes(es) && counted == Bytes(heads, es)
    && (es != [] ==> |es| <= lim.entries) && forall j :: 0 <= j < |es| ==> EntryFits(lim, es[j])
  }

  lemma CountedStep(lim: Limits, heads: string -> nat, es: seq<TarEntry>, i: nat, uploads: seq<int>, counted: nat)
    requires i < |es| && Counted(lim, heads, es[..i], uploads, counted) && i + 1 <= lim.entries && EntryFits(lim, es[i])
    ensures Counted(lim, heads, es[..i + 1], if IsUpload(es[i]) then uploads + [|es[i].content|] else uploads,
                    counted + EntryBytes(heads, es[i]))
    ensures Bytes(heads, es[..i + 1]) <= Bytes(heads, es)
  {
    assert es[..i + 1] == es[..i] + [es[i]];
    UploadStep(es[..i], es[i]);
    assert uploads + [] == uploads;
    BytesStep(heads, es, i);
  }

  lemma EntryRefused(schema: Schema, lim: Limits, heads: string -> nat, es: seq<TarEntry>, i: nat, seen: set<string>, index: Index)
    requires i < |es| && Scanned(schema, es[..i], seen, index)
    requires i + 1 > lim.entries || es[i].name in seen || !AllowedEntry(schema, es[i]) || !EntryFits(lim, es[i])
    ensures !Scannable(schema, lim, heads, es)
  {
    if es[i].name in seen || !AllowedEntry(schema, es[i]) {
      assert es[..i + 1] == es[..i] + [es[i]];
      ScanStep(schema, es[..i], es[i]);
      PrefixBad(schema, es, i + 1);
    }
  }

  lemma BytesStep(heads: string -> nat, es: seq<TarEntry>, i: nat)
    requires i < |es|
    ensures Bytes(heads, es[..i + 1]) == Bytes(heads, es[..i]) + EntryBytes(heads, es[i])
    ensures Bytes(heads, es[..i + 1]) <= Bytes(heads, es)
  {
    assert es[..i + 1][..i] == es[..i];
    BytesGrow(heads, es, i + 1);
  }

  lemma UploadStep(es: seq<TarEntry>, e: TarEntry)
    ensures UploadSizes(es + [e]) == UploadSizes(es) + (if IsUpload(e) then [|e.content|] else [])
  {
    assert (es + [e])[..|es|] == es;
  }

  /** The index with one more part in it. */
  function Noted(index: Index, p: Option<(string, nat)>): Index {
    if p.Some? then index[p.value.0 := PartsAt(index, p.value.0) + [p.value.1]] else index
  }

  ghost predicate Scanned(schema: Schema, es: seq<TarEntry>, seen: set<string>, index: Index) {
    && DistinctNames(es) && AllAllowed(schema, es)
    && (forall n :: n in seen <==> Names(es, n))
    && index == IndexOf(schema, es)
  }

  function IndexOf(schema: Schema, es: seq<TarEntry>): Index {
    if es == [] then map[] else Noted(IndexOf(schema, es[..|es| - 1]), PartOf(schema, es[|es| - 1]))
  }

  /** The index holds every table's part numbers in archive order. */
  lemma {:induction false} IndexHolds(schema: Schema, es: seq<TarEntry>, t: string)
    ensures PartsAt(IndexOf(schema, es), t) == PartsFor(schema, es, t)
  {
    if es != [] {
      var init, last := es[..|es| - 1], es[|es| - 1];
      assert es == init + [last];
      IndexHolds(schema, init, t);
      ScanStep(schema, init, last);
      NotedAt(IndexOf(schema, init), PartOf(schema, last), t);
    }
  }

  lemma ScannedStep(schema: Schema, es: seq<TarEntry>, e: TarEntry, seen: set<string>, index: Index)
    requires Scanned(schema, es, seen, index) && e.name !in seen && AllowedEntry(schema, e)
    ensures Scanned(schema, es + [e], seen + {e.name}, Noted(index, PartOf(schema, e)))
  {
    ScanStep(schema, es, e);
    assert (es + [e])[..|es|] == es;
  }

  lemma NotedAt(index: Index, p: Option<(string, nat)>, t: string)
    ensures PartsAt(Noted(index, p), t) == PartsAt(index, t) + OwnPart(p, t)
  {
  }

  function OwnPart(p: Option<(string, nat)>, table: string): seq<int> {
    if p.Some? && p.value.0 == table then [p.value.1] else []
  }

  lemma {:induction false} ScanStep(schema: Schema, es: seq<TarEntry>, e: TarEntry)
    ensures DistinctNames(es + [e]) <==> DistinctNames(es) && !Names(es, e.name)
    ensures AllAllowed(schema, es + [e]) <==> AllAllowed(schema, es) && AllowedEntry(schema, e)
    ensures forall n :: Names(es + [e], n) <==> Names(es, n) || n == e.name
    ensures forall t :: PartsFor(schema, es + [e], t) == PartsFor(schema, es, t) + PartsFor(schema, [e], t)
    ensures forall t :: PartsFor(schema, [e], t) == OwnPart(PartOf(schema, e), t)
  {
    if es == [] {
      assert [e][1..] == [] && es + [e] == [e];
    } else {
      ScanStep(schema, es[1..], e);
      assert (es + [e])[1..] == es[1..] + [e] && (es + [e])[0] == es[0];
    }
  }

  lemma {:induction false} PrefixBad(schema: Schema, es: seq<TarEntry>, i: nat)
    requires i <= |es| && !(DistinctNames(es[..i]) && AllAllowed(schema, es[..i]))
    ensures !(DistinctNames(es) && AllAllowed(schema, es))
    decreases |es| - i
  {
    if i == |es| {
      assert es[..i] == es;
    } else {
      assert es[..i + 1] == es[..i] + [es[i]];
      ScanStep(schema, es[..i], es[i]);
      PrefixBad(schema, es, i + 1);
    }
  }

  function Iota(first: nat, n: nat): (s: seq<int>)
    ensures |s| == n && forall i :: 0 <= i < n ==> s[i] == first + i
    decreases n
  {
    if n == 0 then [] else [first] + Iota(first + 1, n - 1)
  }

  /** Every part from 0 up, each once. */
  ghost predicate Complete(parts: seq<int>) {
    parts != [] && multiset(parts) == multiset(Iota(0, |parts|))
  }

  method Contiguous(parts0: seq<int>) returns (ok: bool)
    ensures ok <==> Complete(parts0)
  {
    if |parts0| == 0 {
      return false;
    }
    var parts := SortInts(parts0);
    CompleteSorted(parts0);
    ok := CountsUp(parts);
  }

  method CountsUp(parts: seq<int>) returns (ok: bool)
    ensures ok <==> parts == Iota(0, |parts|)
  {
    for i := 0 to |parts|
      invariant forall j :: 0 <= j < i ==> parts[j] == j
    {
      if parts[i] != i {
        return false;
      }
    }
    ok := true;
  }

  lemma CompleteSorted(parts: seq<int>)
    ensures |SortInts(parts)| == |parts|
    ensures parts != [] ==> (Complete(parts) <==> SortInts(parts) == Iota(0, |parts|))
  {
    var sorted := SortInts(parts);
    SortIntsKeeps(parts);
    assert |multiset(sorted)| == |sorted| && |multiset(parts)| == |parts|;
    if Complete(parts) {
      AscendingUnique(sorted, Iota(0, |parts|));
    }
  }

  ghost predicate AllComplete(order: seq<string>, index: Index) {
    forall i :: 0 <= i < |order| ==> Complete(PartsAt(index, order[i]))
  }

  /** The manifest is of this version and agrees with the registry and the uploads found. */
  predicate ManifestFits(schema: Schema, order: seq<string>, man: Manifest, uploads: seq<int>) {
    && man.version == FORMAT
    && (forall i :: 0 <= i < |order| ==> RowCount(man.tables, order[i]).Some?)
    && (forall i :: 0 <= i < |man.tables| ==> man.tables[i].0 in schema && man.tables[i].1 >= 0)
    && |uploads| == man.uploadFiles && Sum(uploads) == man.uploadBytes
  }

  predicate KnownTables(schema: Schema, index: Index) {
    forall t :: t in index ==> t in schema
  }

  /** Every table of the registry is there with contiguous parts and a recorded count, nothing
      else is, and the manifest agrees with what was found. */
  method VerifyComplete(schema: Schema, order: seq<string>, index: Index, man: Manifest, uploads: seq<int>) returns (ok: bool)
    ensures ok <==> AllComplete(order, index) && KnownTables(schema, index) && ManifestFits(schema, order, man, uploads)
  {
    if man.version != FORMAT {
      return false;
    }
    for i := 0 to |order|
      invariant forall j :: 0 <= j < i ==> Complete(PartsAt(index, order[j])) && RowCount(man.tables, order[j]).Some?
    {
      var whole := Contiguous(PartsAt(index, order[i]));
      if !whole || RowCount(man.tables, order[i]) == None {
        return false;
      }
    }
    if !KnownTables(schema, index) {
      return false;
    }
    for i := 0 to |man.tables|
      invariant forall j :: 0 <= j < i ==> man.tables[j].0 in schema && man.tables[j].1 >= 0
    {
      if man.tables[i].0 !in schema || man.tables[i].1 < 0 {
        return false;
      }
    }
    if |uploads| != man.uploadFiles {
      return false;
    }
    ok := Sum(uploads) == man.uploadBytes;
  }

  // ------------------------------------------------------------- row pass

  /** The entry can be read in the second pass. */
  predicate Readable(c: Codec, schema: Schema, index: Index, limit: nat, e: TarEntry) {
    IsTablePart(e) ==>
      var p := PartOf(schema, e);
      p.Some? && p.value.0 in schema && p.value.1 in PartsAt(index, p.value.0)
      && DecodeOf(c, e.content, schema[p.value.0], limit).Success?
  }

  predicate AllReadable(c: Codec, schema: Schema, index: Index, limit: nat, es: seq<TarEntry>) {
    es == [] || (Readable(c, schema, index, limit, es[0]) && AllReadable(c, schema, index, limit, es[1..]))
  }

  function RowsIn(c: Codec, schema: Schema, limit: nat, e: TarEntry, table: string): seq<Row> {
    match PartOf(schema, e)
    case None => []
    case Some(p) =>
      if p.0 != table || table !in schema then []
      else
        match DecodeOf(c, e.content, schema[table], limit)
        case Success(rows) => rows
        case Failure(_) => []
  }

  /** The rows of a table, part after part. */
  function RowsFor(c: Codec, schema: Schema, limit: nat, es: seq<TarEntry>, table: string): seq<Row> {
    if es == [] then [] else RowsIn(c, schema, limit, es[0], table) + RowsFor(c, schema, limit, es[1..], table)
  }

  lemma {:induction false} DecodedWidth(c: Codec, text: string, columns: nat, limit: nat)
    ensures DecodeOf(c, text, columns, limit).Success? ==> AllWidth(DecodeOf(c, text, columns, limit).value, columns)
    decreases |text|
  {
    if text != "" {
      CutShortens(text, '\n');
      DecodedWidth(c, Cut(text, '\n').1, columns, limit);
    }
  }

  /** Hands over every row, part by part, then checks the counts the manifest records. */
  method ForEachRow(c: Codec, schema: Schema, order: seq<string>, es: seq<TarEntry>, index: Index, man: Manifest,
                    lim: Limits, heads: string -> nat, b: Batcher) returns (ok: bool)
    requires b.Valid() && b.rows == 0 && forall t :: t in schema ==> schema[t] > 0
    modifies b
    ensures b.Valid()
    ensures ok <==> BytesAllowed(lim, heads, es) && AllReadable(c, schema, index, lim.line, es)
                    && CountsMatch(c, schema, lim.line, es, order, man)
    ensures ok ==> Reached(c, schema, lim.line, es, old(b.Snapshot()), b.Snapshot())
  {
    var read, counts := DeliverAll(c, schema, es, index, lim, heads, b);
    if !read {
      return false;
    }
    ok := CheckCounts(counts, order, man);
    assert forall i :: 0 <= i < |order| ==> Count(counts, order[i]) == |RowsFor(c, schema, lim.line, es, order[i])|;
  }

  /** The second pass counts the bytes too, if there is a limit on them. */
  predicate BytesAllowed(lim: Limits, heads: string -> nat, es: seq<TarEntry>) {
    lim.total > 0 ==> Bytes(heads, es) + TRAILER <= lim.total
  }

  method CheckCounts(counts: map<string, nat>, order: seq<string>, man: Manifest) returns (ok: bool)
    ensures ok <==> forall i :: 0 <= i < |order| ==> Count(counts, order[i]) == Recorded(man, order[i])
  {
    for i := 0 to |order|
      invariant forall j :: 0 <= j < i ==> Count(counts, order[j]) == Recorded(man, order[j])
    {
      if Count(counts, order[i]) != Recorded(man, order[i]) {
        return false;
      }
    }
    ok := true;
  }

  predicate CountsMatch(c: Codec, schema: Schema, limit: nat, es: seq<TarEntry>, order: seq<string>, man: Manifest) {
    forall i :: 0 <= i < |order| ==> |RowsFor(c, schema, limit, es, order[i])| == Recorded(man, order[i])
  }

  method DeliverAll(c: Codec, schema: Schema, es: seq<TarEntry>, index: Index, lim: Limits, heads: string -> nat, b: Batcher)
    returns (ok: bool, counts: map<string, nat>)
    requires b.Valid() && b.rows == 0 && forall t :: t in schema ==> schema[t] > 0
    modifies b
    ensures b.Valid() && (ok <==> BytesAllowed(lim, heads, es) && AllReadable(c, schema, index, lim.line, es))
    ensures ok ==> Reached(c, schema, lim.line, es, old(b.Snapshot()), b.Snapshot()) && Tally(c, schema, lim.line, es, counts)
  {
    var limit, counted: nat := lim.line, 0;
    counts := map[];
    ghost var base := b.Snapshot();
    assert Passed(c, schema, index, limit, es[..0], base, b.Snapshot(), counts);
    for i := 0 to |es|
      invariant b.Valid() && Current(schema, b)
      invariant Passed(c, schema, index, limit, es[..i], base, b.Snapshot(), counts)
      invariant counted == Bytes(heads, es[..i])
    {
      BytesStep(heads, es, i);
      counted := counted + EntryBytes(heads, es[i]);
      if lim.total > 0 && counted > lim.total {
        return false, counts;
      }
      ghost var before := b.Snapshot();
      var read, table, n := DeliverPart(c, schema, es[i], index, limit, b);
      assert es[..i + 1] == es[..i] + [es[i]];
      if !read {
        RowsStep(c, schema, index, limit, es[..i], es[i]);
        UnreadablePrefix(c, schema, index, limit, es, i + 1);
        return false, counts;
      }
      PassedStep(c, schema, index, limit, es[..i], es[i], base, before, b.Snapshot(), counts, table, n);
      counts := counts[table := Count(counts, table) + n];
    }
    assert es[..|es|] == es;
    ok := lim.total > 0 ==> counted + TRAILER <= lim.total;
  }

  /** These entries were read, their rows delivered since base, and counted. */
  ghost predicate Passed(c: Codec, schema: Schema, index: Index, limit: nat, es: seq<TarEntry>, base: string -> seq<Row>,
                         now: string -> seq<Row>, counts: map<string, nat>) {
    AllReadable(c, schema, index, limit, es) && Reached(c, schema, limit, es, base, now) && Tally(c, schema, limit, es, counts)
  }

  lemma PassedStep(c: Codec, schema: Schema, index: Index, limit: nat, es: seq<TarEntry>, e: TarEntry, base: string -> seq<Row>,
                   before: string -> seq<Row>, now: string -> seq<Row>, counts: map<string, nat>, table: string, n: nat)
    requires Passed(c, schema, index, limit, es, base, before, counts) && Readable(c, schema, index, limit, e)
    requires forall t :: now(t) == before(t) + RowsIn(c, schema, limit, e, t)
    requires forall t :: |RowsIn(c, schema, limit, e, t)| == if t == table then n else 0
    ensures Passed(c, schema, index, limit, es + [e], base, now, counts[table := Count(counts, table) + n])
  {
    RowsStep(c, schema, index, limit, es, e);
    ReachedStep(c, schema, limit, es, e, base, before, now);
    TallyStep(c, schema, limit, es, e, counts, table, n);
  }

  /** What was delivered since base is exactly the rows of es. */
  ghost predicate Reached(c: Codec, schema: Schema, limit: nat, es: seq<TarEntry>, base: string -> seq<Row>, now: string -> seq<Row>) {
    forall t :: now(t) == base(t) + RowsFor(c, schema, limit, es, t)
  }

  lemma ReachedStep(c: Codec, schema: Schema, limit: nat, es: seq<TarEntry>, e: TarEntry, base: string -> seq<Row>,
                    before: string -> seq<Row>, now: string -> seq<Row>)
    requires Reached(c, schema, limit, es, base, before) && forall t :: now(t) == before(t) + RowsIn(c, schema, limit, e, t)
    ensures Reached(c, schema, limit, es + [e], base, now)
  {
    RowsStep(c, schema, map[], limit, es, e);
    forall t ensures now(t) == base(t) + RowsFor(c, schema, limit, es + [e], t) {
      Assoc(base(t), RowsFor(c, schema, limit, es, t), RowsIn(c, schema, limit, e, t));
    }
  }

  ghost predicate Tally(c: Codec, schema: Schema, limit: nat, es: seq<TarEntry>, counts: map<string, nat>) {
    forall t :: Count(counts, t) == |RowsFor(c, schema, limit, es, t)|
  }

  lemma TallyStep(c: Codec, schema: Schema, limit: nat, es: seq<TarEntry>, e: TarEntry, counts: map<string, nat>, table: string, n: nat)
    requires Tally(c, schema, limit, es, counts) && forall t :: |RowsIn(c, schema, limit, e, t)| == if t == table then n else 0
    ensures Tally(c, schema, limit, es + [e], counts[table := Count(counts, table) + n])
  {
    RowsStep(c, schema, map[], limit, es, e);
    forall t ensures Count(counts[table := Count(counts, table) + n], t) == |RowsFor(c, schema, limit, es + [e], t)| {
      assert Count(counts, t) == |RowsFor(c, schema, limit, es, t)|;
    }
  }

  /** The batch in hand belongs to a table of the schema. */
  ghost predicate Current(schema: Schema, b: Batcher)
    reads b
  {
    b.rows > 0 ==> b.table.name in schema && b.table == TableDef(b.table.name, schema[b.table.name])
  }

  /** One part: its rows go to the batcher if it can be read. */
  method DeliverPart(c: Codec, schema: Schema, e: TarEntry, index: Index, limit: nat, b: Batcher)
    returns (ok: bool, table: string, n: nat)
    requires b.Valid() && Current(schema, b) && forall t :: t in schema ==> schema[t] > 0
    modifies b
    ensures b.Valid() && Current(schema, b)
    ensures ok <==> Readable(c, schema, index, limit, e)
    ensures ok ==> forall t :: b.Snapshot()(t) == old(b.Snapshot())(t) + RowsIn(c, schema, limit, e, t)
    ensures ok ==> forall t :: |RowsIn(c, schema, limit, e, t)| == if t == table then n else 0
  {
    table, n := "", 0;
    if !IsTablePart(e) {
      assert forall t :: b.Delivered(t) + [] == b.Delivered(t);
      return true, table, n;
    }
    var p := PartOf(schema, e);
    if p == None || p.value.0 !in schema || p.value.1 !in PartsAt(index, p.value.0) {
      return false, table, n;
    }
    var t := TableDef(p.value.0, schema[p.value.0]);
    var rows := DecodeRows(c, e.content, t.columns, limit);
    if rows.Failure? {
      return false, table, n;
    }
    DecodedWidth(c, e.content, t.columns, limit);
    AddRows(schema, t, rows.value, b);
    return true, t.name, |rows.value|;
  }

  function Only(table: string, rows: seq<Row>, name: string): seq<Row> {
    if name == table then rows else []
  }

  lemma OnlyStep(table: string, rows: seq<Row>, i: nat, name: string, base: seq<Row>)
    requires i < |rows|
    ensures base + Only(table, rows[..i], name) + Only(table, [rows[i]], name) == base + Only(table, rows[..i + 1], name)
  {
    assert rows[..i + 1] == rows[..i] + [rows[i]];
    if name != table { assert base + [] + [] == base + []; }
  }

  method AddRows(schema: Schema, t: TableDef, rows: seq<Row>, b: Batcher)
    requires b.Valid() && Current(schema, b) && t.columns > 0 && AllWidth(rows, t.columns)
    requires t.name in schema && t == TableDef(t.name, schema[t.name])
    modifies b
    ensures b.Valid() && Current(schema, b)
    ensures forall name :: b.Delivered(name) == old(b.Delivered(name)) + Only(t.name, rows, name)
  {
    assert forall name :: b.Delivered(name) + Only(t.name, [], name) == b.Delivered(name);
    for i := 0 to |rows|
      invariant b.Valid() && Current(schema, b)
      invariant forall name :: b.Delivered(name) == old(b.Delivered(name)) + Only(t.name, rows[..i], name)
    {
      b.Add(t, rows[i]);
      forall name ensures b.Delivered(name) == old(b.Delivered(name)) + Only(t.name, rows[..i + 1], name) {
        OnlyStep(t.name, rows, i, name, old(b.Delivered(name)));
      }
    }
    assert rows[..|rows|] == rows;
  }

  lemma {:induction false} RowsStep(c: Codec, schema: Schema, index: Index, limit: nat, es: seq<TarEntry>, e: TarEntry)
    ensures AllReadable(c, schema, index, limit, es + [e])
       <==> AllReadable(c, schema, index, limit, es) && Readable(c, schema, index, limit, e)
    ensures forall t :: RowsFor(c, schema, limit, es + [e], t) == RowsFor(c, schema, limit, es, t) + RowsIn(c, schema, limit, e, t)
  {
    if es == [] {
      assert [e][1..] == [] && es + [e] == [e];
    } else {
      RowsStep(c, schema, index, limit, es[1..], e);
      assert (es + [e])[1..] == es[1..] + [e] && (es + [e])[0] == es[0];
      forall t
        ensures RowsFor(c, schema, limit, es + [e], t) == RowsFor(c, schema, limit, es, t) + RowsIn(c, schema, limit, e, t)
      {
        Assoc(RowsIn(c, schema, limit, es[0], t), RowsFor(c, schema, limit, es[1..], t), RowsIn(c, schema, limit, e, t));
      }
    }
  }

  lemma {:induction false} UnreadablePrefix(c: Codec, schema: Schema, index: Index, limit: nat, es: seq<TarEntry>, i: nat)
    requires i <= |es| && !AllReadable(c, schema, index, limit, es[..i])
    ensures !AllReadable(c, schema, index, limit, es)
    decreases |es| - i
  {
    if i == |es| {
      assert es[..i] == es;
    } else {
      assert es[..i + 1] == es[..i] + [es[i]];
      RowsStep(c, schema, index, limit, es[..i], es[i]);
      UnreadablePrefix(c, schema, index, limit, es, i + 1);
    }
  }

  // ---------------------------------------------------------- whole archive

  /** What a restore asks of an archive. */
  ghost predicate Restorable(c: Codec, schema: Schema, order: seq<string>, es: seq<TarEntry>, man: Manifest, lim: Limits,
                             heads: string -> nat) {
    && Scannable(schema, lim, heads, es)
    && AllComplete(order, IndexOf(schema, es)) && KnownTables(schema, IndexOf(schema, es))
    && ManifestFits(schema, order, man, UploadSizes(es))
    && AllReadable(c, schema, IndexOf(schema, es), lim.line, es) && CountsMatch(c, schema, lim.line, es, order, man)
  }

  /** Validates, then reinserts every row in batches. */
  method RestoreTables(c: Codec, schema: Schema, order: seq<string>, es: seq<TarEntry>, man: Manifest, lim: Limits,
                       heads: string -> nat)
    returns (r: Option<map<string, seq<Row>>>, statements: seq<Insert>)
    requires forall t :: t in schema ==> schema[t] > 0
    ensures r.Some? <==> Restorable(c, schema, order, es, man, lim, heads)
    ensures r.Some? ==> forall t :: At(r.value, t) == RowsFor(c, schema, lim.line, es, t) == Inserted(statements, t)
    ensures AllWithin(statements)
  {
    statements := [];
    var index, uploads := Scan(schema, lim, heads, es);
    if index == None {
      return None, statements;
    }
    var whole := VerifyComplete(schema, order, index.value, man, uploads);
    if !whole {
      return None, statements;
    }
    var b := new Batcher();
    var ok := ForEachRow(c, schema, order, es, index.value, man, lim, heads, b);
    if !ok {
      return None, statements;
    }
    b.Flush();
    assert forall t :: [] + RowsFor(c, schema, lim.line, es, t) == RowsFor(c, schema, lim.line, es, t);
    r, statements := Some(b.db), b.statements;
  }
}
