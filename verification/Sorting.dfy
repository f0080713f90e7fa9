/** sort.Slice as a contract: a sorted rearrangement under a strict order. */
module Sorting {
  import opened Sums

  ghost predicate Strict<T(!new)>(lt: (T, T) -> bool) {
    && (forall x :: !lt(x, x))
    && (forall x, y, z :: lt(x, y) && lt(y, z) ==> lt(x, z))
  }

  /** No two elements are equal, and any two are ordered one way or the other. */
  ghost predicate Comparable<T>(s: seq<T>, lt: (T, T) -> bool) {
    forall i, j :: 0 <= i < j < |s| ==> lt(s[i], s[j]) || lt(s[j], s[i])
  }

  ghost predicate SortedBy<T>(s: seq<T>, lt: (T, T) -> bool) {
    forall i, j :: 0 <= i < j < |s| ==> lt(s[i], s[j])
  }

  function Insert<T>(x: T, s: seq<T>, lt: (T, T) -> bool): (r: seq<T>)
    ensures multiset(r) == multiset{x} + multiset(s)
  {
    if s == [] || lt(x, s[0]) then [x] + s
    else
      assert s == [s[0]] + s[1..];
      [s[0]] + Insert(x, s[1..], lt)
  }

  function Sort<T>(s: seq<T>, lt: (T, T) -> bool): (r: seq<T>)
    ensures multiset(r) == multiset(s)
  {
    if s == [] then []
    else
      assert s == [s[0]] + s[1..];
      Insert(s[0], Sort(s[1..], lt), lt)
  }

  lemma Members<T>(r: seq<T>, s: seq<T>)
    requires multiset(r) == multiset(s)
    ensures |r| == |s|
    ensures forall x :: x in r <==> x in s
  {
    assert |multiset(r)| == |r| && |multiset(s)| == |s|;
    forall x ensures x in r <==> x in s {
      assert x in r <==> x in multiset(r);
      assert x in s <==> x in multiset(s);
    }
  }

  lemma {:induction false} InsertSorts<T(!new)>(x: T, s: seq<T>, lt: (T, T) -> bool)
    requires Strict(lt) && SortedBy(s, lt)
    requires forall y :: y in s ==> lt(x, y) || lt(y, x)
    ensures SortedBy(Insert(x, s, lt), lt)
  {
    if s != [] && !lt(x, s[0]) {
      InsertSorts(x, s[1..], lt);
      var t := Insert(x, s[1..], lt);
      Members(t, [x] + s[1..]);
      forall y | y in t ensures lt(s[0], y) {
        assert y == x || y in s[1..];
        assert s[0] in s;
      }
    }
  }

  lemma {:induction false} SortSorts<T(!new)>(s: seq<T>, lt: (T, T) -> bool)
    requires Strict(lt) && Comparable(s, lt)
    ensures SortedBy(Sort(s, lt), lt)
  {
    if s != [] {
      SortSorts(s[1..], lt);
      Members(Sort(s[1..], lt), s[1..]);
      forall y | y in Sort(s[1..], lt) ensures lt(s[0], y) || lt(y, s[0]) {
        assert y in s[1..];
        var i :| 0 <= i < |s[1..]| && s[1..][i] == y;
        assert s[i + 1] == y;
      }
      InsertSorts(s[0], Sort(s[1..], lt), lt);
    }
  }

  /** There is only one sorted list of a given set of elements. */
  lemma {:induction false} SortedUnique<T(!new)>(s: seq<T>, t: seq<T>, lt: (T, T) -> bool)
    requires Strict(lt) && SortedBy(s, lt) && SortedBy(t, lt)
    requires forall x :: x in s <==> x in t
    ensures s == t
  {
    if s != [] { assert s[0] in t; }
    if t != [] { assert t[0] in s; }
    if s != [] {
      var i :| 0 <= i < |s| && s[i] == t[0];
      var j :| 0 <= j < |t| && t[j] == s[0];
      assert s[0] == t[0];
      forall x ensures x in s[1..] <==> x in t[1..] {
        TailMembers(s, x, lt);
        TailMembers(t, x, lt);
      }
      SortedUnique(s[1..], t[1..], lt);
    }
  }

  lemma TailMembers<T(!new)>(s: seq<T>, x: T, lt: (T, T) -> bool)
    requires Strict(lt) && SortedBy(s, lt) && s != []
    ensures x in s[1..] <==> x in s && x != s[0]
  {
    if x in s[1..] {
      var i :| 0 <= i < |s[1..]| && s[1..][i] == x;
      assert lt(s[0], s[i + 1]);
    }
  }

  /** The elements of a set, gathered in any order and then sorted. */
  method SortedSet<T(!new,==)>(elements: set<T>, lt: (T, T) -> bool) returns (r: seq<T>)
    requires Strict(lt)
    requires forall x, y :: x in elements && y in elements && x != y ==> lt(x, y) || lt(y, x)
    ensures SortedBy(r, lt) && forall x :: x in r <==> x in elements
  {
    var s: seq<T> := [];
    var rest := elements;
    while rest != {}
      invariant rest <= elements
      invariant forall x :: x in s <==> x in elements && x !in rest
      invariant forall i, j :: 0 <= i < j < |s| ==> s[i] != s[j]
    {
      var x := NextKey(rest);
      rest := rest - {x};
      s := s + [x];
    }
    forall i, j | 0 <= i < j < |s| ensures lt(s[i], s[j]) || lt(s[j], s[i]) {
      assert s[i] in s && s[j] in s;
    }
    SortSorts(s, lt);
    r := Sort(s, lt);
    Members(r, s);
  }
}
