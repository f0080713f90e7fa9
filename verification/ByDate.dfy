/** The stable sort of expenses by date. */
module ByDate {
  import opened Sorting
  import opened Pairs
  import opened Ledger
  import opened Archive

  function DateAt(m: Table, x: Id): string {
    if x in m then m[x].date else ""
  }

  /** x in front of the first expense that is not older. */
  function InsertByDate(m: Table, x: Id, s: seq<Id>): (r: seq<Id>)
    ensures multiset(r) == multiset{x} + multiset(s)
  {
    if s == [] || !StrLess(DateAt(m, s[0]), DateAt(m, x)) then [x] + s
    else
      assert s == [s[0]] + s[1..];
      [s[0]] + InsertByDate(m, x, s[1..])
  }

  function SortByDate(m: Table, ids: seq<Id>): (r: seq<Id>)
    ensures multiset(r) == multiset(ids)
  {
    if ids == [] then []
    else
      assert ids == [ids[0]] + ids[1..];
      InsertByDate(m, ids[0], SortByDate(m, ids[1..]))
  }

  predicate NoneOlder(m: Table, s: seq<Id>, d: string) {
    s == [] || (!StrLess(DateAt(m, s[0]), d) && NoneOlder(m, s[1..], d))
  }

  /** Oldest first. */
  predicate InDateOrder(m: Table, s: seq<Id>) {
    s == [] || (NoneOlder(m, s[1..], DateAt(m, s[0])) && InDateOrder(m, s[1..]))
  }

  lemma NotOlderTransitive(x: string, y: string, z: string)
    requires !StrLess(y, x) && !StrLess(z, y)
    ensures !StrLess(z, x)
  {
    StrTotal(x, y);
    StrTotal(y, z);
    if StrLess(z, x) && StrLess(x, y) { StrTransitive(z, x, y); }
  }

  lemma {:induction false} NoneOlderStays(m: Table, s: seq<Id>, c: string, d: string)
    requires NoneOlder(m, s, d) && !StrLess(d, c)
    ensures NoneOlder(m, s, c)
  {
    if s != [] {
      NotOlderTransitive(c, d, DateAt(m, s[0]));
      NoneOlderStays(m, s[1..], c, d);
    }
  }

  lemma {:induction false} InsertNoneOlder(m: Table, x: Id, s: seq<Id>, d: string)
    requires NoneOlder(m, s, d) && !StrLess(DateAt(m, x), d)
    ensures NoneOlder(m, InsertByDate(m, x, s), d)
  {
    if s != [] { InsertNoneOlder(m, x, s[1..], d); }
  }

  lemma {:induction false} InsertKeepsOrder(m: Table, x: Id, s: seq<Id>)
    requires InDateOrder(m, s)
    ensures InDateOrder(m, InsertByDate(m, x, s))
  {
    if s != [] {
      StrTotal(DateAt(m, s[0]), DateAt(m, x));
      if StrLess(DateAt(m, s[0]), DateAt(m, x)) {
        InsertKeepsOrder(m, x, s[1..]);
        InsertNoneOlder(m, x, s[1..], DateAt(m, s[0]));
      } else {
        NoneOlderStays(m, s[1..], DateAt(m, x), DateAt(m, s[0]));
      }
    }
  }

  lemma {:induction false} SortOrders(m: Table, ids: seq<Id>)
    ensures InDateOrder(m, SortByDate(m, ids))
  {
    if ids != [] {
      SortOrders(m, ids[1..]);
      InsertKeepsOrder(m, ids[0], SortByDate(m, ids[1..]));
    }
  }

  function OfDate(m: Table, s: seq<Id>, d: string): seq<Id> {
    if s == [] then []
    else if DateAt(m, s[0]) == d then [s[0]] + OfDate(m, s[1..], d)
    else OfDate(m, s[1..], d)
  }

  lemma {:induction false} InsertStable(m: Table, x: Id, s: seq<Id>, d: string)
    ensures OfDate(m, InsertByDate(m, x, s), d) == OfDate(m, [x] + s, d)
  {
    if s == [] || !StrLess(DateAt(m, s[0]), DateAt(m, x)) {
    } else {
      StrTotal(DateAt(m, x), DateAt(m, x));
      InsertStable(m, x, s[1..], d);
      assert s == [s[0]] + s[1..];
      BothLater(m, x, s[0], s[1..], InsertByDate(m, x, s[1..]), d);
    }
  }

  lemma BothLater(m: Table, x: Id, y: Id, s: seq<Id>, r: seq<Id>, d: string)
    requires DateAt(m, x) != DateAt(m, y)
    requires OfDate(m, r, d) == OfDate(m, [x] + s, d)
    ensures OfDate(m, [y] + r, d) == OfDate(m, [x] + ([y] + s), d)
  {
    OfDateCons(m, y, r, d);
    OfDateCons(m, y, s, d);
    OfDateCons(m, x, s, d);
    OfDateCons(m, x, [y] + s, d);
  }

  lemma OfDateCons(m: Table, x: Id, s: seq<Id>, d: string)
    ensures OfDate(m, [x] + s, d) == if DateAt(m, x) == d then [x] + OfDate(m, s, d) else OfDate(m, s, d)
  {
    assert ([x] + s)[1..] == s;
  }

  /** Expenses of one date stay in the order they were listed in. */
  lemma {:induction false} SortStable(m: Table, ids: seq<Id>, d: string)
    ensures OfDate(m, SortByDate(m, ids), d) == OfDate(m, ids, d)
  {
    if ids != [] {
      SortStable(m, ids[1..], d);
      InsertStable(m, ids[0], SortByDate(m, ids[1..]), d);
      OfDateCons(m, ids[0], SortByDate(m, ids[1..]), d);
    }
  }

  /** The last of a sorted list is one of the newest. */
  lemma {:induction false} LastIsNewest(m: Table, s: seq<Id>, y: Id)
    requires InDateOrder(m, s) && y in s
    ensures !StrLess(DateAt(m, s[|s| - 1]), DateAt(m, y))
  {
    StrTotal(DateAt(m, y), DateAt(m, y));
    if y != s[0] || |s| > 1 {
      if y == s[0] { LastNotOlder(m, s[1..], DateAt(m, y)); } else { LastIsNewest(m, s[1..], y); }
    }
  }

  lemma {:induction false} LastNotOlder(m: Table, s: seq<Id>, d: string)
    requires NoneOlder(m, s, d) && s != []
    ensures !StrLess(DateAt(m, s[|s| - 1]), d)
  {
    if |s| > 1 { LastNotOlder(m, s[1..], d); }
  }

  lemma {:induction false} DistinctByCount(s: seq<Id>)
    ensures DistinctIds(s) <==> forall x: Id :: multiset(s)[x] <= 1
  {
    if s != [] {
      var rest := s[1..];
      DistinctByCount(rest);
      assert s == [s[0]] + rest;
      forall x: Id ensures multiset(s)[x] == (if x == s[0] then 1 else 0) + multiset(rest)[x] {}
      assert s[0] in rest <==> multiset(rest)[s[0]] > 0;
      if forall x: Id :: multiset(s)[x] <= 1 {
        forall x: Id ensures multiset(rest)[x] <= 1 {
          assert multiset(s)[x] <= 1;
        }
        assert multiset(s)[s[0]] <= 1;
      }
    }
  }

  /** Sorting keeps the expenses, each still once. */
  lemma SortedSame(m: Table, ids: seq<Id>)
    ensures DistinctIds(SortByDate(m, ids)) <==> DistinctIds(ids)
    ensures |SortByDate(m, ids)| == |ids|
    ensures forall x :: x in SortByDate(m, ids) <==> x in ids
  {
    DistinctByCount(ids);
    DistinctByCount(SortByDate(m, ids));
    Members(SortByDate(m, ids), ids);
  }
}
