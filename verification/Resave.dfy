/** The round trip of an edit: stored inputs or stored rows, through the form, to the same rows. */
module Resave {
  import opened Text
  import opened Sorting
  import opened Shuffle
  import opened Simplify
  import opened Ledger
  import opened Split
  import opened Compute
  import opened Money
  import opened Form
  import opened Prefill

  // ------------------------------------------------- with recorded inputs

  lemma ParsedInRange(m: Method, val: string, currency: string)
    requires UserSelectable(m) && m != SHARE && ValueForMethod(m, val, currency).Some?
    ensures var v := ValueForMethod(m, val, currency).value;
      -MAX_INT64 <= v <= MAX_INT64
  {
    if m != EQUAL { AcceptedAmount(OrZero(val), if m == PERCENTAGE then "USD" else currency); }
  }

  lemma AcceptedAmount(text: string, currency: string)
    requires ParseOf(text, currency).Success?
    ensures -MAX_INT64 <= ParseOf(text, currency).value <= MAX_INT64
  {
    AcceptedRange(text, Decimals(currency));
  }

  /** Lines parsed from any post the split engine accepts can be carried by a form again. */
  lemma ParsedLines(lines: seq<Line>, form: map<UserId, string>, m: Method, currency: string, total: int)
    requires LinesOf(lines, form, m, currency) && UserSelectable(m) && Refusal(m, total, Column(m, lines)) == None
    ensures FormLines(m, lines)
  {
    forall l | l in lines ensures l == LineFromInput(m, l.user, Input(l, m)) && InInt64(Input(l, m)) && Input(l, m) != MIN_INT64 {
      if m == SHARE { NotNegative(lines, l, total); }
      PostedFits(form, m, currency, l);
    }
  }

  /** A share that was accepted is not negative. */
  lemma NotNegative(lines: seq<Line>, l: Line, total: int)
    requires l in lines && Refusal(SHARE, total, Column(SHARE, lines)) == None
    ensures Input(l, SHARE) >= 0
  {
    var i :| 0 <= i < |lines| && lines[i] == l;
    assert Column(SHARE, lines)[i] == Input(l, SHARE);
  }

  lemma PostedFits(form: map<UserId, string>, m: Method, currency: string, l: Line)
    requires UserSelectable(m) && l.user in form && PostedLine(form, m, currency, l.user) == Some(l)
    requires m == SHARE ==> Input(l, m) >= 0
    ensures l == LineFromInput(m, l.user, Input(l, m)) && InInt64(Input(l, m)) && Input(l, m) != MIN_INT64
  {
    if m != SHARE { ParsedInRange(m, Trim(form[l.user]), currency); }
  }

  /** Saving a form, opening it for editing and posting it unchanged gives the same split: on the
      same date the same rows, on another date the rows the original inputs give there. */
  lemma ResaveMovesNothing(rng: Prng, form: map<UserId, string>, m: Method, total: int, payer: UserId, date: string,
                           currency: string, lines: seq<Line>, values: map<UserId, int>, cands: seq<Candidate>,
                           again: seq<Line>, date': string)
    requires LinesOf(lines, form, m, currency) && ComputeOf(rng, m, total, payer, date, lines).Success?
    requires forall u :: u in LineUsers(lines) ==> InInt64(u)
    requires DecodesTo(values, Encoded(m, lines))
    requires Prefill.DistinctIds(cands) && LineUsers(lines) <= Prefill.Ids(cands)
    requires LinesOf(again, Post(Filled(cands, values, Shown(cands, values, m, total), m, currency)), m, currency)
    ensures ComputeOf(rng, m, total, payer, date, again) == ComputeOf(rng, m, total, payer, date, lines)
    ensures ComputeOf(rng, m, total, payer, date', again) == ComputeOf(rng, m, total, payer, date', lines)
    ensures FormLines(m, lines) && HoldsValues(values, m, lines)
  {
    ComputeValid(rng, m, total, payer, date, lines);
    ParsedLines(lines, form, m, currency, total);
    EncodeDecode(m, lines, values);
    ResaveLines(m, lines, cands, values, total, currency, again);
  }

  /** The amount field comes back as well. */
  lemma AmountUnchanged(text: string, total: int, currency: string)
    requires ParseOf(text, currency) == Success(total)
    ensures ParseOf(FormatOf(total, currency), currency) == Success(total)
  {
    Reprint(text, Decimals(currency));
  }

  // ------------------------------------------------------------ recurrences

  predicate PartByUser(p: Part, q: Part) {
    p.user < q.user
  }

  /** The rows in the order the store returns them. */
  function StoredOrder(parts: seq<Part>): seq<Part> {
    Sort(parts, PartByUser)
  }

  function LinesFromRows(parts: seq<Part>, values: map<UserId, int>, m: Method): seq<Line> {
    if parts == [] then []
    else if parts[0].user in values
    then [LineFromInput(m, parts[0].user, values[parts[0].user])] + LinesFromRows(parts[1..], values, m)
    else LinesFromRows(parts[1..], values, m)
  }

  /** Exactly the people who have both a row and a recorded value take part again, by user id, each
      with that value. */
  lemma OccurrenceLines(parts: seq<Part>, values: map<UserId, int>, m: Method, l: Line)
    requires NoRepeat(parts)
    ensures var lines := LinesFromRows(StoredOrder(parts), values, m);
      && SortedBy(lines, ByUser)
      && (l in lines <==> l.user in Users(parts) && l.user in values && l == LineFromInput(m, l.user, values[l.user]))
  {
    var stored := StoredOrder(parts);
    StoredOrderIs(parts);
    LinesFromRowsAre(stored, values, m);
    if l in LinesFromRows(stored, values, m) {
      var p :| p in stored && p.user == l.user;
      assert p in parts;
      var i :| 0 <= i < |parts| && parts[i] == p;
      RowUser(parts, i);
    }
    if l.user in Users(parts) {
      var i := UserRow(parts, l.user);
      assert parts[i] in parts && parts[i] in stored;
    }
  }

  /** The template split again for a date from the given inputs, among the people in the rows read. */
  function Resplit(rng: Prng, tmpl: Expense, rows: seq<Part>, values: map<UserId, int>, date: string): Result<seq<Part>, SplitError> {
    ComputeOf(rng, tmpl.split, tmpl.amount, tmpl.paidBy, date, LinesFromRows(StoredOrder(rows), values, tmpl.split))
  }

  method CollectLines(parts: seq<Part>, values: map<UserId, int>, m: Method) returns (lines: seq<Line>)
    ensures lines == LinesFromRows(parts, values, m)
  {
    lines := [];
    for i := 0 to |parts|
      invariant lines + LinesFromRows(parts[i..], values, m) == LinesFromRows(parts, values, m)
    {
      assert parts[i..][1..] == parts[i + 1..];
      if parts[i].user in values {
        lines := lines + [LineFromInput(m, parts[i].user, values[parts[i].user])];
      }
    }
  }

  /** The inputs can be used and still split. */
  ghost predicate Splits(rng: Prng, tmpl: Expense, rows: seq<Part>, payload: Option<Inputs>, values: map<UserId, int>, date: string) {
    Usable(payload, tmpl.split) && Resplit(rng, tmpl, rows, values, date).Success?
  }

  /** The rows of an occurrence, the template and its rows being separate reads: re-split from the
      inputs, or copied when there are none or they no longer split. */
  method GenerateRows(rng: Prng, tmpl: Expense, rows: seq<Part>, payload: Option<Inputs>, date: string)
    returns (parts: seq<Part>, values: map<UserId, int>)
    requires NoRepeat(rows)
    ensures Usable(payload, tmpl.split) ==> DecodesTo(values, payload.value.values)
    ensures parts == if Splits(rng, tmpl, rows, payload, values, date)
                     then Resplit(rng, tmpl, rows, values, date).value else StoredOrder(rows)
    ensures tmpl.paidBy in Users(parts) <==> Splits(rng, tmpl, rows, payload, values, date) || tmpl.paidBy in Users(rows)
  {
    OccurrenceListsPayer(rng, tmpl, rows, date);
    parts := StoredOrder(rows);
    var decoded := DecodeInputs(payload, tmpl.split);
    values := map[];
    if decoded.Some? {
      values := decoded.value;
      var lines := CollectLines(parts, decoded.value, tmpl.split);
      var r := Compute.Compute(rng, tmpl.split, tmpl.amount, tmpl.paidBy, date, lines);
      if r.Success? {
        parts := r.value;
      }
    }
  }

  /** What is split again lists the payer; copied rows do only if the rows read did. */
  lemma OccurrenceListsPayer(rng: Prng, tmpl: Expense, rows: seq<Part>, date: string)
    requires NoRepeat(rows)
    ensures forall values :: var r := Resplit(rng, tmpl, rows, values, date); r.Success? ==> tmpl.paidBy in Users(r.value)
    ensures tmpl.paidBy in Users(StoredOrder(rows)) <==> tmpl.paidBy in Users(rows)
  {
    forall values | Resplit(rng, tmpl, rows, values, date).Success?
      ensures tmpl.paidBy in Users(Resplit(rng, tmpl, rows, values, date).value)
    {
      ComputeValid(rng, tmpl.split, tmpl.amount, tmpl.paidBy, date, LinesFromRows(StoredOrder(rows), values, tmpl.split));
    }
    StoredOrderIs(rows);
    SameUsers(StoredOrder(rows), rows, tmpl.paidBy);
    SameUsers(rows, StoredOrder(rows), tmpl.paidBy);
  }

  lemma SameUsers(ps: seq<Part>, qs: seq<Part>, u: UserId)
    requires forall p :: p in ps ==> p in qs
    ensures u in Users(ps) ==> u in Users(qs)
  {
    if u in Users(ps) {
      var i := UserRow(ps, u);
      assert ps[i] in ps;
      var j :| 0 <= j < |qs| && qs[j] == ps[i];
      RowUser(qs, j);
    }
  }

  lemma {:induction false} DistinctRows(parts: seq<Part>, i: nat, j: nat)
    requires NoRepeat(parts) && i < j < |parts|
    ensures parts[i].user != parts[j].user
  {
    if i > 0 { DistinctRows(parts[1..], i - 1, j - 1); } else { RowUser(parts[1..], j - 1); }
  }

  lemma {:induction false} RowUser(parts: seq<Part>, i: nat)
    requires i < |parts|
    ensures parts[i].user in Users(parts)
  {
    if i > 0 { RowUser(parts[1..], i - 1); }
  }

  lemma {:induction false} UserRow(parts: seq<Part>, u: UserId) returns (i: nat)
    requires u in Users(parts)
    ensures i < |parts| && parts[i].user == u
  {
    if parts[0].user == u { i := 0; } else { i := UserRow(parts[1..], u); i := i + 1; }
  }

  /** Stored rows come back sorted, each person once. */
  lemma StoredOrderIs(parts: seq<Part>)
    requires NoRepeat(parts)
    ensures SortedBy(StoredOrder(parts), PartByUser)
    ensures forall p :: p in StoredOrder(parts) <==> p in parts
  {
    forall i, j | 0 <= i < j < |parts| ensures PartByUser(parts[i], parts[j]) || PartByUser(parts[j], parts[i]) {
      DistinctRows(parts, i, j);
    }
    SortSorts(parts, PartByUser);
    Members(StoredOrder(parts), parts);
  }

  lemma {:induction false} LinesFromRowsAre(parts: seq<Part>, values: map<UserId, int>, m: Method)
    requires SortedBy(parts, PartByUser)
    ensures var ls := LinesFromRows(parts, values, m);
      && SortedBy(ls, ByUser)
      && (forall l :: l in ls ==> l.user in values && l == LineFromInput(m, l.user, values[l.user]))
      && (forall l :: l in ls ==> exists p :: p in parts && p.user == l.user)
      && (forall p :: p in parts && p.user in values ==> LineFromInput(m, p.user, values[p.user]) in ls)
  {
    if parts != [] {
      LinesFromRowsAre(parts[1..], values, m);
      var ls, rest := LinesFromRows(parts, values, m), LinesFromRows(parts[1..], values, m);
      forall l | l in rest ensures parts[0].user < l.user {
        var p :| p in parts[1..] && p.user == l.user;
        var i :| 0 <= i < |parts[1..]| && parts[1..][i] == p;
        assert PartByUser(parts[0], parts[i + 1]);
      }
      forall l | l in ls ensures exists p :: p in parts && p.user == l.user {
        if l in rest {
          var p :| p in parts[1..] && p.user == l.user;
          assert p in parts;
        } else {
          assert parts[0] in parts;
        }
      }
    }
  }

  /** The template's rows and inputs give back the lines it was split from. */
  lemma LinesRestored(m: Method, lines: seq<Line>, values: map<UserId, int>, rows: seq<Part>)
    requires UserSelectable(m) && FormLines(m, lines) && HoldsValues(values, m, lines)
    requires NoRepeat(rows) && LineUsers(lines) <= Users(rows)
    ensures LinesFromRows(StoredOrder(rows), values, m) == lines
  {
    var sorted := StoredOrder(rows);
    StoredOrderIs(rows);
    LinesFromRowsAre(sorted, values, m);
    SortedDistinct(lines);
    forall l ensures l in LinesFromRows(sorted, values, m) <==> l in lines {
      if l in lines {
        ValueOfLine(m, lines, l);
        var i := UserRow(rows, l.user);
        assert rows[i] in sorted;
      }
      if l in LinesFromRows(sorted, values, m) {
        var i :| 0 <= i < |lines| && lines[i].user == l.user;
        var x := lines[i];
        assert x in lines;
        ValueOfLine(m, lines, x);
      }
    }
    SortedUnique(LinesFromRows(sorted, values, m), lines, ByUser);
  }

  /** An occurrence whose template is not edited meanwhile has, on another date, exactly the rows
      the template's own inputs give there, hence those an unchanged re-save on that date would give
      (see ResaveMovesNothing). */
  lemma OccurrenceIsResave(rng: Prng, tmpl: Expense, payload: Option<Inputs>, values: map<UserId, int>,
                           lines: seq<Line>, date: string)
    requires FormLines(tmpl.split, lines) && forall u :: u in LineUsers(lines) ==> InInt64(u)
    requires ComputeOf(rng, tmpl.split, tmpl.amount, tmpl.paidBy, tmpl.date, lines) == Success(tmpl.parts)
    requires payload == Some(Inputs(INPUTS_VERSION, tmpl.split, Encoded(tmpl.split, lines)))
    requires DecodesTo(values, payload.value.values)
    ensures Usable(payload, tmpl.split)
    ensures Resplit(rng, tmpl, tmpl.parts, values, date) == ComputeOf(rng, tmpl.split, tmpl.amount, tmpl.paidBy, date, lines)
    ensures Splits(rng, tmpl, tmpl.parts, payload, values, date)
  {
    var m := tmpl.split;
    ComputeValid(rng, m, tmpl.amount, tmpl.paidBy, tmpl.date, lines);
    EncodedIs(m, lines, lines[0].user);
    forall k | k in Encoded(m, lines) ensures ParseInt64(k).Some? {
      assert EncodesLine(m, lines, k);
    }
    EncodeDecode(m, lines, values);
    LinesRestored(m, lines, values, tmpl.parts);
  }
}
