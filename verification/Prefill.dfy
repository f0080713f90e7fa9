/** Filling the edit form from a stored expense so that an unchanged save changes nothing. */
module Prefill {
  import opened Text
  import opened Sums
  import opened Sorting
  import opened Division
  import opened Shuffle
  import opened Simplify
  import opened Ledger
  import opened Split
  import opened Compute
  import opened Money
  import opened Form

  datatype Candidate = Candidate(id: UserId, included: bool, value: string)

  function Ids(cands: seq<Candidate>): set<UserId> {
    if cands == [] then {} else {cands[0].id} + Ids(cands[1..])
  }

  predicate DistinctIds(cands: seq<Candidate>) {
    cands == [] || (cands[0].id !in Ids(cands[1..]) && DistinctIds(cands[1..]))
  }

  // -------------------------------------------------------------- rebalance

  /** The first place of the largest value. */
  function Largest(vals: seq<int>): (hi: nat)
    requires vals != []
    ensures hi < |vals| && forall j :: 0 <= j < |vals| ==> vals[j] <= vals[hi] && (j < hi ==> vals[j] < vals[hi])
  {
    if |vals| == 1 then 0
    else
      var n := |vals| - 1;
      var h := Largest(vals[..n]);
      assert forall j :: 0 <= j < n ==> vals[..n][j] == vals[j];
      if vals[n] > vals[h] then n else h
  }

  /** The whole difference to the target goes to the largest value. */
  function Rebalanced(vals: seq<int>, target: int): (r: seq<int>)
    ensures |r| == |vals|
  {
    if vals == [] || Sum(vals) == target then vals
    else Raised(vals, Largest(vals), target)
  }

  function Raised(vals: seq<int>, hi: nat, target: int): (r: seq<int>)
    requires hi < |vals|
    ensures |r| == |vals|
  {
    vals[hi := vals[hi] + (target - Sum(vals))]
  }

  method RebalanceToTarget(vals: array<int>, target: int)
    modifies vals
    ensures vals[..] == Rebalanced(old(vals[..]), target)
  {
    if vals.Length == 0 {
      return;
    }
    var sum := Total(vals);
    if sum == target {
      return;
    }
    var hi := 0;
    assert vals[..1] == [vals[0]];
    for i := 1 to vals.Length
      invariant hi < i && vals[..] == old(vals[..])
      invariant hi == Largest(vals[..i])
    {
      assert vals[..i + 1][..i] == vals[..i];
      if vals[i] > vals[hi] {
        hi := i;
      }
    }
    assert vals[..vals.Length] == vals[..];
    vals[hi] := vals[hi] + (target - sum);
  }

  /** Afterwards the values add up to the target, and only the largest may have moved. */
  lemma RebalanceHits(vals: seq<int>, target: int)
    requires vals != []
    ensures Sum(Rebalanced(vals, target)) == target
    ensures forall j :: 0 <= j < |vals| && j != Largest(vals) ==> Rebalanced(vals, target)[j] == vals[j]
  {
    if Sum(vals) != target { MovedToTarget(vals, Largest(vals), target); }
  }

  lemma MovedToTarget(vals: seq<int>, hi: nat, target: int)
    requires hi < |vals|
    ensures Sum(Raised(vals, hi, target)) == target
  {
    SumUpdate(vals, hi, vals[hi] + (target - Sum(vals)));
  }

  // ------------------------------------------------------------- prefilling

  /** What the method's values must add up to, if anything. */
  function SumTarget(m: Method, amount: int): Option<int> {
    match m
    case PERCENTAGE => Some(BASIS_POINTS_FULL)
    case EXACT => Some(amount)
    case _ => None
  }

  /** The stored values of the candidates, in candidate order. */
  function IncludedValues(cands: seq<Candidate>, values: map<UserId, int>): seq<int> {
    if cands == [] then []
    else if cands[0].id in values then [values[cands[0].id]] + IncludedValues(cands[1..], values)
    else IncludedValues(cands[1..], values)
  }

  function Shown(cands: seq<Candidate>, values: map<UserId, int>, m: Method, amount: int): seq<int> {
    var vals := IncludedValues(cands, values);
    match SumTarget(m, amount)
    case Some(target) => Rebalanced(vals, target)
    case None => vals
  }

  /** Included exactly when there is a stored value, showing the given values in order. */
  function Filled(cands: seq<Candidate>, values: map<UserId, int>, shown: seq<int>, m: Method, currency: string): (r: seq<Candidate>)
    requires |shown| == |IncludedValues(cands, values)|
    ensures |r| == |cands|
  {
    if cands == [] then []
    else if cands[0].id in values then
      [Candidate(cands[0].id, true, FormatValue(m, shown[0], currency))] + Filled(cands[1..], values, shown[1..], m, currency)
    else [Candidate(cands[0].id, false, "")] + Filled(cands[1..], values, shown, m, currency)
  }

  method PrefillStored(cands: seq<Candidate>, values: map<UserId, int>, m: Method, amount: int, currency: string)
    returns (r: seq<Candidate>)
    ensures r == Filled(cands, values, Shown(cands, values, m, amount), m, currency)
  {
    var vals: seq<int> := [];
    for i := 0 to |cands|
      invariant vals + IncludedValues(cands[i..], values) == IncludedValues(cands, values)
    {
      assert cands[i..][1..] == cands[i + 1..];
      if cands[i].id in values {
        vals := vals + [values[cands[i].id]];
      }
    }
    assert vals == IncludedValues(cands, values);
    var target := SumTarget(m, amount);
    if target.Some? && |vals| > 0 {
      var a := new int[|vals|](i requires 0 <= i < |vals| => vals[i]);
      assert a[..] == vals;
      RebalanceToTarget(a, target.value);
      vals := a[..];
    }
    assert vals == Shown(cands, values, m, amount);
    r := FillIn(cands, values, vals, m, currency);
  }

  method FillIn(cands: seq<Candidate>, values: map<UserId, int>, shown: seq<int>, m: Method, currency: string)
    returns (r: seq<Candidate>)
    requires |shown| == |IncludedValues(cands, values)|
    ensures r == Filled(cands, values, shown, m, currency)
  {
    r := [];
    var k := 0;
    for i := 0 to |cands|
      invariant 0 <= k <= |shown| && |shown[k..]| == |IncludedValues(cands[i..], values)|
      invariant r + Filled(cands[i..], values, shown[k..], m, currency) == Filled(cands, values, shown, m, currency)
    {
      FillStep(r, cands, i, values, shown[k..], m, currency);
      if cands[i].id in values {
        assert shown[k..][1..] == shown[k + 1..];
        r := r + [Candidate(cands[i].id, true, FormatValue(m, shown[k], currency))];
        k := k + 1;
      } else {
        r := r + [Candidate(cands[i].id, false, "")];
      }
    }
  }

  lemma FillStep(r: seq<Candidate>, cands: seq<Candidate>, i: nat, values: map<UserId, int>, shown: seq<int>,
                 m: Method, currency: string)
    requires i < |cands| && |shown| == |IncludedValues(cands[i..], values)|
    ensures var id := cands[i].id;
      if id in values then
        && |shown| > 0 && |shown[1..]| == |IncludedValues(cands[i + 1..], values)|
        && r + Filled(cands[i..], values, shown, m, currency)
           == r + [Candidate(id, true, FormatValue(m, shown[0], currency))] + Filled(cands[i + 1..], values, shown[1..], m, currency)
      else
        && |shown| == |IncludedValues(cands[i + 1..], values)|
        && r + Filled(cands[i..], values, shown, m, currency)
           == r + [Candidate(id, false, "")] + Filled(cands[i + 1..], values, shown, m, currency)
  {
    assert cands[i..][1..] == cands[i + 1..];
  }

  /** What posting the form as rendered sends. */
  function Post(cands: seq<Candidate>): map<UserId, string> {
    if cands == [] then map[]
    else
      var rest := Post(cands[1..]);
      if cands[0].included then rest[cands[0].id := cands[0].value] else rest
  }

  // ---------------------------------------------- an unchanged save, stored

  /** When every splitter is a candidate the values shown add up to what was stored. */
  lemma {:induction false} IncludedSum(cands: seq<Candidate>, values: map<UserId, int>)
    requires DistinctIds(cands) && forall i :: i in values ==> i in Ids(cands)
    ensures Sum(IncludedValues(cands, values)) == MapSum(values)
    decreases |cands|
  {
    if cands == [] {
      NothingSums(values);
    } else {
      var id := cands[0].id;
      var rest := values - {id};
      SameIncluded(cands[1..], values, rest);
      IncludedSum(cands[1..], rest);
      if id in values {
        TotalRemove(values, id, Same());
      } else {
        assert rest == values;
      }
    }
  }

  lemma NothingSums(values: map<UserId, int>)
    requires forall i :: i !in values
    ensures MapSum(values) == 0
  {
    if values != map[] {
      var k := Pick(values);
    }
  }

  lemma {:induction false} SameIncluded(cands: seq<Candidate>, a: map<UserId, int>, b: map<UserId, int>)
    requires forall i :: i in Ids(cands) ==> (i in a <==> i in b) && (i in a ==> a[i] == b[i])
    ensures IncludedValues(cands, a) == IncludedValues(cands, b)
  {
    if cands != [] { SameIncluded(cands[1..], a, b); }
  }

  lemma {:induction false} ColumnSum(m: Method, lines: seq<Line>, values: map<UserId, int>)
    requires DistinctLines(lines) && HoldsValues(values, m, lines)
    ensures Sum(Column(m, lines)) == MapSum(values)
  {
    if lines == [] {
      NothingSums(values);
    } else {
      var u := lines[0].user;
      TotalRemove(values, u, Same());
      assert Column(m, lines)[1..] == Column(m, lines[1..]);
      ColumnSum(m, lines[1..], values - {u});
    }
  }

  /** Then nothing needs rebalancing, because the split was accepted when it was saved. */
  lemma NothingRebalanced(cands: seq<Candidate>, values: map<UserId, int>, m: Method, amount: int, lines: seq<Line>)
    requires DistinctIds(cands) && forall i :: i in values ==> i in Ids(cands)
    requires DistinctLines(lines) && HoldsValues(values, m, lines) && Refusal(m, amount, Column(m, lines)) == None
    ensures Shown(cands, values, m, amount) == IncludedValues(cands, values)
  {
    IncludedSum(cands, values);
    ColumnSum(m, lines, values);
  }

  lemma {:induction false} PostOfFilled(cands: seq<Candidate>, values: map<UserId, int>, m: Method, currency: string, id: UserId)
    requires DistinctIds(cands)
    ensures var post := Post(Filled(cands, values, IncludedValues(cands, values), m, currency));
      && (id in post <==> id in values && id in Ids(cands))
      && (id in post ==> post[id] == FormatValue(m, values[id], currency))
  {
    if cands != [] {
      PostOfFilled(cands[1..], values, m, currency, id);
      var shown := IncludedValues(cands, values);
      var r := Filled(cands, values, shown, m, currency);
      if cands[0].id in values {
        assert shown[1..] == IncludedValues(cands[1..], values);
      }
      assert r[1..] == Filled(cands[1..], values, IncludedValues(cands[1..], values), m, currency);
    }
  }

  /** lines as the form parser makes them: sorted, only the method's field set, and values the
      form can carry. */
  ghost predicate FormLines(m: Method, lines: seq<Line>) {
    && SortedBy(lines, ByUser)
    && forall l :: l in lines ==> l == LineFromInput(m, l.user, Input(l, m)) && InInt64(Input(l, m)) && Input(l, m) != MIN_INT64
  }

  lemma {:induction false} SortedDistinct(lines: seq<Line>)
    requires SortedBy(lines, ByUser)
    ensures DistinctLines(lines)
    ensures forall u :: u in LineUsers(lines) <==> exists i :: 0 <= i < |lines| && lines[i].user == u
  {
    if lines != [] {
      SortedDistinct(lines[1..]);
      forall u ensures u in LineUsers(lines) <==> exists i :: 0 <= i < |lines| && lines[i].user == u {
        if exists i :: 0 <= i < |lines| && lines[i].user == u {
          var i :| 0 <= i < |lines| && lines[i].user == u;
          if i > 0 { assert lines[1..][i - 1].user == u; }
        }
        if u in LineUsers(lines[1..]) {
          var i :| 0 <= i < |lines[1..]| && lines[1..][i].user == u;
          assert lines[i + 1].user == u;
        } else if u == lines[0].user {
          assert lines[0].user == u;
        }
      }
      forall i | 0 <= i < |lines[1..]| ensures lines[1..][i].user != lines[0].user {
        assert ByUser(lines[0], lines[i + 1]);
      }
    }
  }

  lemma {:induction false} ValueOfLine(m: Method, lines: seq<Line>, l: Line)
    requires DistinctLines(lines) && l in lines
    ensures l.user in LineUsers(lines) && ValueOf(m, lines, l.user) == Input(l, m)
  {
    if l != lines[0] {
      assert l in lines[1..];
      ValueOfLine(m, lines[1..], l);
    }
  }

  /** Rendering the stored values and parsing the post gives back the very lines that were
      saved. */
  lemma ResaveLines(m: Method, lines: seq<Line>, cands: seq<Candidate>, values: map<UserId, int>, amount: int,
                    currency: string, again: seq<Line>)
    requires UserSelectable(m) && FormLines(m, lines) && Refusal(m, amount, Column(m, lines)) == None
    requires HoldsValues(values, m, lines)
    requires DistinctIds(cands) && LineUsers(lines) <= Ids(cands)
    requires LinesOf(again, Post(Filled(cands, values, Shown(cands, values, m, amount), m, currency)), m, currency)
    ensures again == lines
  {
    SortedDistinct(lines);
    NothingRebalanced(cands, values, m, amount, lines);
    var post := Post(Filled(cands, values, IncludedValues(cands, values), m, currency));
    forall l ensures l in again <==> l in lines {
      PostOfFilled(cands, values, m, currency, l.user);
      PostedBack(m, lines, values, post, currency, l);
    }
    SortedUnique(again, lines, ByUser);
  }

  lemma PostedBack(m: Method, lines: seq<Line>, values: map<UserId, int>, post: map<UserId, string>, currency: string, l: Line)
    requires UserSelectable(m) && FormLines(m, lines) && HoldsValues(values, m, lines)
    requires l.user in post <==> l.user in values
    requires l.user in post ==> post[l.user] == FormatValue(m, values[l.user], currency)
    ensures l in lines <==> l.user in post && PostedLine(post, m, currency, l.user) == Some(l)
  {
    SortedDistinct(lines);
    if l in lines { ValueOfLine(m, lines, l); }
    if l.user in post {
      var i :| 0 <= i < |lines| && lines[i].user == l.user;
      var x := lines[i];
      assert x in lines;
      ValueOfLine(m, lines, x);
      if m != EQUAL { FieldRoundTrip(m, Input(x, m), currency); }
      assert PostedLine(post, m, currency, l.user) == Some(x);
      if l in lines { SameUserSameLine(lines, l, x); }
    }
  }

  lemma SameUserSameLine(lines: seq<Line>, x: Line, y: Line)
    requires SortedBy(lines, ByUser) && x in lines && y in lines && x.user == y.user
    ensures x == y
  {
    var i :| 0 <= i < |lines| && lines[i] == x;
    var j :| 0 <= j < |lines| && lines[j] == y;
    assert i < j ==> ByUser(lines[i], lines[j]);
    assert j < i ==> ByUser(lines[j], lines[i]);
  }
}
