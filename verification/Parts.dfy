/** Dumping a table into bounded parts, naming them, and reading the rows back. */
module Parts {
  import opened Text
  import opened Money
  import opened Form

  /** One row: its encoded column values. */
  type Row = seq<string>

  const MAX_PART: int := 0x80_0000

  /** JSON encoding of rows, taken as given. Text stands for its UTF-8 bytes, one character a
      byte, so that lengths are sizes. */
  datatype Codec = Codec(enc: Row -> string, dec: string -> Option<Row>)

  /** Rows survive, and an encoded row is one non-empty line of text. */
  ghost predicate Sound(c: Codec) {
    forall r ::
      && c.dec(c.enc(r)) == Some(r)
      && c.enc(r) != "" && '\n' !in c.enc(r) && c.enc(r)[|c.enc(r)| - 1] != '\r'
  }

  // ------------------------------------------------------------------- lines

  function Lines(ls: seq<string>): string {
    if ls == [] then "" else ls[0] + "\n" + Lines(ls[1..])
  }

  function Encoded(c: Codec, rows: seq<Row>): (ls: seq<string>)
    ensures |ls| == |rows| && forall i :: 0 <= i < |rows| ==> ls[i] == c.enc(rows[i])
  {
    if rows == [] then [] else [c.enc(rows[0])] + Encoded(c, rows[1..])
  }

  lemma {:induction false} LinesConcat(xs: seq<string>, ys: seq<string>)
    ensures Lines(xs + ys) == Lines(xs) + Lines(ys)
  {
    if xs == [] {
      assert xs + ys == ys;
    } else {
      LinesConcat(xs[1..], ys);
      assert (xs + ys)[1..] == xs[1..] + ys && (xs + ys)[0] == xs[0];
      assert xs[0] + "\n" + (Lines(xs[1..]) + Lines(ys)) == xs[0] + "\n" + Lines(xs[1..]) + Lines(ys);
    }
  }

  lemma LinesAppend(ls: seq<string>, l: string)
    ensures Lines(ls + [l]) == Lines(ls) + l + "\n"
    ensures Lines(ls) == "" <==> ls == []
  {
    LinesConcat(ls, [l]);
    assert [l][1..] == [];
    assert Lines([l]) == l + "\n";
  }

  // -------------------------------------------------------------- the splits

  /** The groups of lines the parts hold: cur is the group being filled. */
  function Groups(cur: seq<string>, lines: seq<string>): (gs: seq<seq<string>>)
    ensures |gs| >= 1
    decreases |lines|
  {
    if lines == [] then [cur]
    else if cur != [] && |Lines(cur)| + |lines[0]| + 1 > MAX_PART then [cur] + Groups([lines[0]], lines[1..])
    else Groups(cur + [lines[0]], lines[1..])
  }

  function Flatten<T>(gs: seq<seq<T>>): seq<T> {
    if gs == [] then [] else gs[0] + Flatten(gs[1..])
  }

  /** Every line is in one group, in order. */
  lemma {:induction false} GroupsFlatten(cur: seq<string>, lines: seq<string>)
    ensures Flatten(Groups(cur, lines)) == cur + lines
    decreases |lines|
  {
    if lines == [] {
      FlattenCons(cur, []);
      assert cur + [] == cur;
    } else {
      assert [lines[0]] + lines[1..] == lines;
      if cur != [] && |Lines(cur)| + |lines[0]| + 1 > MAX_PART {
        GroupsFlatten([lines[0]], lines[1..]);
        FlattenCons(cur, Groups([lines[0]], lines[1..]));
      } else {
        GroupsFlatten(cur + [lines[0]], lines[1..]);
        assert cur + [lines[0]] + lines[1..] == cur + ([lines[0]] + lines[1..]);
      }
    }
  }

  lemma FlattenCons<T>(g: seq<T>, gs: seq<seq<T>>)
    ensures Flatten([g] + gs) == g + Flatten(gs)
  {
    assert ([g] + gs)[1..] == gs;
  }

  /** A group too big for one part is a single line. */
  predicate Bounded(g: seq<string>) {
    |Lines(g)| <= MAX_PART || |g| == 1
  }

  /** Parts stay within the bound unless a single row exceeds it, and only an empty table has
      an empty part. */
  lemma {:induction false} GroupsBounded(cur: seq<string>, lines: seq<string>, i: nat)
    requires Bounded(cur) && i < |Groups(cur, lines)|
    ensures Bounded(Groups(cur, lines)[i])
    ensures cur != [] || lines != [] ==> Groups(cur, lines)[i] != []
    decreases |lines|
  {
    if lines != [] {
      if cur != [] && |Lines(cur)| + |lines[0]| + 1 > MAX_PART {
        if i > 0 { GroupsBounded([lines[0]], lines[1..], i - 1); }
      } else {
        LinesAppend(cur, lines[0]);
        if cur == [] { assert cur + [lines[0]] == [lines[0]]; }
        GroupsBounded(cur + [lines[0]], lines[1..], i);
      }
    }
  }

  // ------------------------------------------------------------------- names

  const TABLES := "tables/"

  /** An archive entry. */
  datatype TarEntry = TarEntry(name: string, content: string)

  function PartName(table: string, part: nat): string {
    TABLES + table + "/" + PadTo(Digits(part), 4) + ".jsonl"
  }

  /** The text before the first c, after it, and whether there is one. */
  function Cut(s: string, c: char): (string, string, bool) {
    if s == "" then ("", "", false)
    else if s[0] == c then ("", s[1..], true)
    else var (a, b, found) := Cut(s[1..], c); ([s[0]] + a, b, found)
  }

  function WithoutSuffix(s: string, suffix: string): Option<string> {
    if |suffix| <= |s| && s[|s| - |suffix|..] == suffix then Some(s[..|s| - |suffix|]) else None
  }

  function WithoutPrefix(s: string, prefix: string): string {
    if prefix <= s then s[|prefix|..] else s
  }

  /** The table and part number of an entry name, if it is well formed and the table known. */
  function ParseTablePart(name: string, known: set<string>): Option<(string, nat)> {
    var (table, file, ok) := Cut(WithoutPrefix(name, TABLES), '/');
    if !ok || '/' in file || table !in known then None
    else
      match WithoutSuffix(file, ".jsonl")
      case None => None
      case Some(num) =>
        if |num| != 4 then None
        else
          match ParseInt64(num)
          case None => None
          case Some(part) => if part < 0 then None else Some((table, part))
  }

  lemma {:induction false} CutAt(a: string, c: char, b: string)
    requires c !in a
    ensures Cut(a + [c] + b, c) == (a, b, true)
  {
    if a == "" {
      assert ([c] + b)[1..] == b && a + [c] + b == [c] + b;
    } else {
      CutAt(a[1..], c, b);
      assert (a + [c] + b)[1..] == a[1..] + [c] + b && (a + [c] + b)[0] == a[0];
      assert [a[0]] + a[1..] == a;
    }
  }

  lemma FourDigits(part: nat)
    ensures |PadTo(Digits(part), 4)| == 4 <==> part < 10000
    ensures part < 10000 ==> AllDigits(PadTo(Digits(part), 4)) && NumOf(PadTo(Digits(part), 4)) == part
    ensures AllDigits(PadTo(Digits(part), 4))
  {
    assert Pow10(0) == 1 && Pow10(1) == 10 && Pow10(2) == 100 && Pow10(3) == 1000 && Pow10(4) == 10000;
    NumOfDigits(part);
    if part < 10000 {
      PaddedDigits(part, 4);
    } else {
      NumOfBound(Digits(part));
      if |Digits(part)| <= 4 { PowersGrow(|Digits(part)|, 4); }
    }
  }

  lemma {:induction false} PowersGrow(a: nat, b: nat)
    requires a <= b
    ensures Pow10(a) <= Pow10(b)
  {
    if a < b {
      PowersGrow(a, b - 1);
      Pow10Positive(b - 1);
    }
  }

  lemma {:induction false} NoSlash(s: string)
    requires AllDigits(s)
    ensures '/' !in s + ".jsonl"
  {
  }

  /** Part names are read back exactly for the first ten thousand parts of a table. */
  lemma PartNameRoundTrip(table: string, part: nat, known: set<string>)
    requires '/' !in table && table in known
    ensures if part < 10000 then ParseTablePart(PartName(table, part), known) == Some((table, part))
            else ParseTablePart(PartName(table, part), known) == None
  {
    var num := PadTo(Digits(part), 4);
    var file := num + ".jsonl";
    FourDigits(part);
    NoSlash(num);
    assert PartName(table, part) == TABLES + (table + "/" + file);
    assert WithoutPrefix(PartName(table, part), TABLES) == table + ['/'] + file;
    CutAt(table, '/', file);
    assert file[..|file| - 6] == num && file[|file| - 6..] == ".jsonl";
    if part < 10000 {
      assert num[0] != '-' && num[0] != '+';
    }
  }

  // ---------------------------------------------------------------- dumping

  /** Groups of lines as the entries of one table, numbered from first. */
  function TableEntries(table: string, groups: seq<seq<string>>, first: nat): seq<TarEntry> {
    if groups == [] then []
    else [PartEntry(table, first, groups[0])] + TableEntries(table, groups[1..], first + 1)
  }

  function DumpOf(c: Codec, table: string, rows: seq<Row>): seq<TarEntry> {
    TableEntries(table, Groups([], Encoded(c, rows)), 0)
  }

  lemma {:induction false} EntriesAppend(table: string, groups: seq<seq<string>>, g: seq<string>, first: nat)
    ensures TableEntries(table, groups + [g], first)
         == TableEntries(table, groups, first) + [PartEntry(table, first + |groups|, g)]
  {
    if groups == [] {
      assert groups + [g] == [g] && TableEntries(table, [g][1..], first + 1) == [];
    } else {
      var head, rest, next := groups[0], groups[1..], first + 1;
      EntriesAppend(table, rest, g, next);
      HeadRest(groups, g);
      assert next + |rest| == first + |groups|;
      HeadFirst(table, head, rest, rest + [g], [PartEntry(table, first + |groups|, g)], first, next);
    }
  }

  lemma HeadRest<T>(s: seq<T>, x: T)
    requires s != []
    ensures s == [s[0]] + s[1..] && s + [x] == [s[0]] + (s[1..] + [x])
  {
  }

  lemma HeadFirst(table: string, head: seq<string>, rest: seq<seq<string>>, more: seq<seq<string>>, es: seq<TarEntry>,
                  first: nat, next: nat)
    requires next == first + 1 && TableEntries(table, more, next) == TableEntries(table, rest, next) + es
    ensures TableEntries(table, [head] + more, first) == TableEntries(table, [head] + rest, first) + es
  {
    EntriesCons(table, head, more, first, next);
    EntriesCons(table, head, rest, first, next);
    Assoc([PartEntry(table, first, head)], TableEntries(table, rest, next), es);
  }

  function PartEntry(table: string, part: nat, g: seq<string>): TarEntry {
    TarEntry(PartName(table, part), Lines(g))
  }

  lemma EntriesCons(table: string, g: seq<string>, gs: seq<seq<string>>, first: nat, next: nat)
    requires next == first + 1
    ensures TableEntries(table, [g] + gs, first) == [PartEntry(table, first, g)] + TableEntries(table, gs, next)
  {
    assert ([g] + gs)[1..] == gs;
  }

  /** Streams the rows into parts: a part is written when the next row would not fit, and the
      last one always, so that an empty table has an empty part. */
  method DumpTable(c: Codec, table: string, rows: seq<Row>) returns (entries: seq<TarEntry>, total: nat)
    ensures entries == DumpOf(c, table, rows) && total == |rows|
  {
    var buf, part := "", 0;
    entries, total := [], 0;
    ghost var done: seq<seq<string>>, cur: seq<string> := [], [];
    ghost var lines := Encoded(c, rows);
    assert done + Groups(cur, lines) == Groups(cur, lines);
    for i := 0 to |rows|
      invariant total == i && part == |done|
      invariant Dumped(table, entries, buf, done, cur, lines[i..], lines)
    {
      var line := c.enc(rows[i]);
      NextLine(lines, i);
      LinesAppend(cur, line);
      if |buf| > 0 && |buf| + |line| + 1 > MAX_PART {
        WritePart(table, entries, buf, done, cur, lines[i..], lines);
        entries := entries + [TarEntry(PartName(table, part), buf)];
        part := part + 1;
        buf := "";
        done, cur := done + [cur], [];
      }
      AddLine(table, entries, buf, done, cur, lines[i..], lines);
      buf := buf + line + "\n";
      cur := cur + [line];
      total := total + 1;
    }
    assert lines[|rows|..] == [];
    LastPart(table, entries, buf, done, cur, lines);
    entries := entries + [TarEntry(PartName(table, part), buf)];
  }

  lemma LastPart(table: string, entries: seq<TarEntry>, buf: string, done: seq<seq<string>>, cur: seq<string>, lines: seq<string>)
    requires Dumped(table, entries, buf, done, cur, [], lines)
    ensures entries + [TarEntry(PartName(table, |done|), buf)] == TableEntries(table, Groups([], lines), 0)
  {
    WrittenPart(table, buf, done, cur);
  }

  lemma NextLine(lines: seq<string>, i: nat)
    requires i < |lines|
    ensures lines[i..] != [] && lines[i..][0] == lines[i] && lines[i..][1..] == lines[i + 1..]
  {
  }

  /** Mid-dump: done groups written, cur in the buffer, left still to come. */
  ghost predicate Dumped(table: string, entries: seq<TarEntry>, buf: string, done: seq<seq<string>>, cur: seq<string>,
                         left: seq<string>, lines: seq<string>) {
    && entries == TableEntries(table, done, 0) && buf == Lines(cur)
    && done + Groups(cur, left) == Groups([], lines)
  }

  lemma WritePart(table: string, entries: seq<TarEntry>, buf: string, done: seq<seq<string>>, cur: seq<string>,
                  left: seq<string>, lines: seq<string>)
    requires Dumped(table, entries, buf, done, cur, left, lines) && left != []
    requires cur != [] && |buf| + |left[0]| + 1 > MAX_PART
    ensures Dumped(table, entries + [TarEntry(PartName(table, |done|), buf)], "", done + [cur], [], left, lines)
  {
    WrittenPart(table, buf, done, cur);
    CloseGroup(done, cur, left);
  }

  /** The buffer written is the next entry. */
  lemma WrittenPart(table: string, buf: string, done: seq<seq<string>>, cur: seq<string>)
    requires buf == Lines(cur)
    ensures TableEntries(table, done, 0) + [TarEntry(PartName(table, |done|), buf)] == TableEntries(table, done + [cur], 0)
  {
    EntriesAppend(table, done, cur, 0);
  }

  lemma CloseGroup(done: seq<seq<string>>, cur: seq<string>, left: seq<string>)
    requires left != [] && cur != [] && |Lines(cur)| + |left[0]| + 1 > MAX_PART
    ensures done + Groups(cur, left) == done + [cur] + Groups([], left)
  {
    StartGroup(left);
    Assoc(done, [cur], Groups([left[0]], left[1..]));
  }

  lemma StartGroup(left: seq<string>)
    requires left != []
    ensures Groups([], left) == Groups([left[0]], left[1..])
  {
    assert [] + [left[0]] == [left[0]];
  }

  lemma AddLine(table: string, entries: seq<TarEntry>, buf: string, done: seq<seq<string>>, cur: seq<string>,
                left: seq<string>, lines: seq<string>)
    requires Dumped(table, entries, buf, done, cur, left, lines) && left != []
    requires cur == [] || |buf| + |left[0]| + 1 <= MAX_PART
    ensures Dumped(table, entries, buf + left[0] + "\n", done, cur + [left[0]], left[1..], lines)
  {
    LinesAppend(cur, left[0]);
  }

  // ---------------------------------------------------------------- decoding

  datatype DecodeError = TooLong | NotARow | WrongWidth

  /** The scanner starts with a buffer of 64 KiB, and never refuses a line that fits into it. */
  const START_BUFFER := 0x1_0000

  /** How many bytes a line and its newline may take. */
  function LineCap(limit: nat): nat {
    if limit < START_BUFFER then START_BUFFER else limit
  }

  /** The line scanner drops the newline and a carriage return before it. */
  function Stripped(line: string): string {
    if line != "" && line[|line| - 1] == '\r' then line[..|line| - 1] else line
  }

  function Put(row: Row, r: Result<seq<Row>, DecodeError>): Result<seq<Row>, DecodeError> {
    match r
    case Success(rows) => Success([row] + rows)
    case Failure(error) => Failure(error)
  }

  lemma {:induction false} CutShortens(s: string, c: char)
    ensures |Cut(s, c).1| <= |s|
    ensures s != "" ==> |Cut(s, c).1| < |s|
  {
    if s != "" && s[0] != c { CutShortens(s[1..], c); }
  }

  /** The rows of a part: one line each, empty lines skipped, the first fault reported. */
  function DecodeOf(c: Codec, text: string, columns: nat, limit: nat): Result<seq<Row>, DecodeError>
    decreases |text|
  {
    if text == "" then Success([])
    else
      CutShortens(text, '\n');
      var (raw, rest, _) := Cut(text, '\n');
      var line := Stripped(raw);
      if |raw| + 1 > LineCap(limit) then Failure(TooLong)
      else if line == "" then DecodeOf(c, rest, columns, limit)
      else
        match c.dec(line)
        case None => Failure(NotARow)
        case Some(row) => if |row| != columns then Failure(WrongWidth) else Put(row, DecodeOf(c, rest, columns, limit))
  }

  method DecodeRows(c: Codec, text: string, columns: nat, limit: nat) returns (r: Result<seq<Row>, DecodeError>)
    ensures r == DecodeOf(c, text, columns, limit)
  {
    var left := text;
    var rows: seq<Row> := [];
    PrependNone(DecodeOf(c, text, columns, limit));
    while left != ""
      invariant DecodeOf(c, text, columns, limit) == Prepend(rows, DecodeOf(c, left, columns, limit))
      decreases |left|
    {
      CutShortens(left, '\n');
      var (raw, rest, _) := Cut(left, '\n');
      if |raw| + 1 > LineCap(limit) {
        return Failure(TooLong);
      }
      var line := Stripped(raw);
      if line != "" {
        var row := c.dec(line);
        if row == None {
          return Failure(NotARow);
        }
        if |row.value| != columns {
          return Failure(WrongWidth);
        }
        PrependOne(rows, row.value, DecodeOf(c, rest, columns, limit));
        rows := rows + [row.value];
      }
      left := rest;
    }
    assert rows + [] == rows;
    r := Success(rows);
  }

  lemma PrependNone(r: Result<seq<Row>, DecodeError>)
    ensures Prepend([], r) == r
  {
    if r.Success? { assert [] + r.value == r.value; }
  }

  function Prepend(rows: seq<Row>, r: Result<seq<Row>, DecodeError>): Result<seq<Row>, DecodeError> {
    match r
    case Success(more) => Success(rows + more)
    case Failure(error) => Failure(error)
  }

  lemma PrependOne(rows: seq<Row>, row: Row, r: Result<seq<Row>, DecodeError>)
    ensures Prepend(rows, Put(row, r)) == Prepend(rows + [row], r)
  {
    if r.Success? { assert rows + ([row] + r.value) == rows + [row] + r.value; }
  }

  predicate Fits(limit: nat, ls: seq<string>) {
    forall i :: 0 <= i < |ls| ==> |ls[i]| + 1 <= LineCap(limit)
  }

  /** A part reads back as its rows exactly when every line fits the reader's limit. */
  lemma {:induction false} DecodesBack(c: Codec, rows: seq<Row>, columns: nat, limit: nat)
    requires Sound(c) && forall i :: 0 <= i < |rows| ==> |rows[i]| == columns
    ensures DecodeOf(c, Lines(Encoded(c, rows)), columns, limit)
         == if Fits(limit, Encoded(c, rows)) then Success(rows) else Failure(TooLong)
  {
    if rows != [] {
      var ls := Encoded(c, rows);
      DecodesBack(c, rows[1..], columns, limit);
      assert Encoded(c, rows)[1..] == Encoded(c, rows[1..]);
      LineCut(ls[0], Lines(ls[1..]));
      FitsTail(limit, ls);
      assert [rows[0]] + rows[1..] == rows;
    }
  }

  lemma LineCut(line: string, rest: string)
    requires '\n' !in line
    ensures Cut(line + "\n" + rest, '\n') == (line, rest, true) && line + "\n" + rest != ""
  {
    CutAt(line, '\n', rest);
  }

  lemma FitsTail(limit: nat, ls: seq<string>)
    requires ls != []
    ensures Fits(limit, ls) <==> |ls[0]| + 1 <= LineCap(limit) && Fits(limit, ls[1..])
  {
    if |ls[0]| + 1 <= LineCap(limit) && Fits(limit, ls[1..]) {
      forall i | 0 <= i < |ls| ensures |ls[i]| + 1 <= LineCap(limit) {
        if i > 0 { assert ls[1..][i - 1] == ls[i]; }
      }
    }
  }

  // -------------------------------------------------------- parts as they are

  /** A part is closed only when its next row would take it past 8 MiB. */
  lemma {:induction false} GroupsFull(cur: seq<string>, lines: seq<string>, i: nat)
    requires i + 1 < |Groups(cur, lines)|
    ensures var gs := Groups(cur, lines);
      gs[i + 1] != [] && |Lines(gs[i])| + |gs[i + 1][0]| + 1 > 8388608
    decreases |lines|
  {
    if cur != [] && |Lines(cur)| + |lines[0]| + 1 > MAX_PART {
      if i > 0 { GroupsFull([lines[0]], lines[1..], i - 1); } else { FirstGroup([lines[0]], lines[1..]); }
    } else {
      GroupsFull(cur + [lines[0]], lines[1..], i);
    }
  }

  lemma {:induction false} FirstGroup(cur: seq<string>, lines: seq<string>)
    requires cur != []
    ensures Groups(cur, lines)[0] != [] && Groups(cur, lines)[0][0] == cur[0]
    decreases |lines|
  {
    if lines != [] && |Lines(cur)| + |lines[0]| + 1 <= MAX_PART { FirstGroup(cur + [lines[0]], lines[1..]); }
  }

  /** An entry's name: the table, and the part's number in four digits. */
  lemma PartNameIs(table: string, part: nat) returns (digits: string)
    requires part < 10000
    ensures PartName(table, part) == "tables/" + table + "/" + digits + ".jsonl"
    ensures |digits| == 4 && AllDigits(digits) && NumOf(digits) == part
  {
    FourDigits(part);
    digits := PadTo(Digits(part), 4);
  }

  /** Without the carriage return a line may end in. */
  predicate Bare(line: string, bare: string) {
    line == bare + "\r" || (line == bare && (line == "" || line[|line| - 1] != '\r'))
  }

  /** A line that can be taken: short enough, and empty or a row of the right width. */
  predicate GoodLine(c: Codec, line: string, columns: nat, limit: nat) {
    && (|line| < 65536 || |line| < limit)
    && (Stripped(line) == "" || (c.dec(Stripped(line)).Some? && |c.dec(Stripped(line)).value| == columns))
  }

  function RowsOfLines(c: Codec, ls: seq<string>): seq<Row> {
    if ls == [] then []
    else if Stripped(ls[0]) != "" && c.dec(Stripped(ls[0])).Some? then [c.dec(Stripped(ls[0])).value] + RowsOfLines(c, ls[1..])
    else RowsOfLines(c, ls[1..])
  }

  lemma StrippedIsBare(line: string)
    ensures Bare(line, Stripped(line))
  {
    if line != "" && line[|line| - 1] == '\r' { assert line == line[..|line| - 1] + "\r"; }
  }

  /** Any text of lines is accepted exactly when every line can be taken, and then gives the rows of
      the lines that are not empty, in order. */
  lemma {:induction false} DecodesIff(c: Codec, ls: seq<string>, columns: nat, limit: nat)
    requires forall i :: 0 <= i < |ls| ==> '\n' !in ls[i]
    ensures var r := DecodeOf(c, Lines(ls), columns, limit);
      && (r.Success? <==> forall i :: 0 <= i < |ls| ==> GoodLine(c, ls[i], columns, limit))
      && (r.Success? ==> r.value == RowsOfLines(c, ls))
  {
    if ls != [] {
      var rest := ls[1..];
      DecodesIff(c, rest, columns, limit);
      CutAt(ls[0], '\n', Lines(rest));
      assert Lines(ls) == ls[0] + ['\n'] + Lines(rest);
      HeadLine(c, ls[0], rest, columns, limit);
      assert (forall i :: 0 <= i < |ls| ==> GoodLine(c, ls[i], columns, limit))
        <==> GoodLine(c, ls[0], columns, limit) && forall i :: 0 <= i < |rest| ==> GoodLine(c, rest[i], columns, limit) by {
        assert forall i :: 0 <= i < |rest| ==> rest[i] == ls[i + 1];
        assert forall i :: 0 < i < |ls| ==> ls[i] == rest[i - 1];
      }
    }
  }

  lemma HeadLine(c: Codec, line: string, rest: seq<string>, columns: nat, limit: nat)
    requires Cut(line + ['\n'] + Lines(rest), '\n') == (line, Lines(rest), true)
    ensures var r, tail := DecodeOf(c, line + ['\n'] + Lines(rest), columns, limit), DecodeOf(c, Lines(rest), columns, limit);
      && (r.Success? <==> GoodLine(c, line, columns, limit) && tail.Success?)
      && (r.Success? ==> r.value == if Stripped(line) == "" then tail.value else [c.dec(Stripped(line)).value] + tail.value)
  {
  }
}
