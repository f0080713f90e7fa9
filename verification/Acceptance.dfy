/** What is in an archive that a restore accepts. */
module Acceptance {
  import opened Text
  import opened Division
  import opened Parts
  import opened Reload

  // --------------------------------------------------------- upload names

  /** The text from i to j is one of rel's segments. */
  predicate IsSegment(rel: string, i: int, j: int) {
    0 <= i <= j <= |rel| && '/' !in rel[i..j] && (i == 0 || rel[i - 1] == '/') && (j == |rel| || rel[j] == '/')
  }

  predicate Plain(segment: string) {
    segment != "" && segment != "." && segment != ".."
  }

  lemma {:induction false} CutMeans(s: string, c: char)
    ensures var (a, b, found) := Cut(s, c);
      c !in a && s == if found then a + [c] + b else a
  {
    if s != "" && s[0] != c {
      CutMeans(s[1..], c);
      assert s == [s[0]] + s[1..];
    }
  }

  /** A path is let in exactly if it goes nowhere but down: none of its segments is empty, "." or
      "..". */
  lemma DownwardIff(rel: string)
    ensures SafeSegments(rel) <==> forall i, j :: IsSegment(rel, i, j) ==> Plain(rel[i..j])
  {
    if SafeSegments(rel) {
      forall i, j | IsSegment(rel, i, j) ensures Plain(rel[i..j]) {
        SegmentPlain(rel, i, j);
      }
    } else {
      var i, j := BadSegment(rel);
    }
  }

  lemma FirstSegment(rel: string, n: nat, i: int, j: int)
    requires n <= |rel| && '/' !in rel[..n] && (n == |rel| || rel[n] == '/') && IsSegment(rel, i, j) && i <= n
    ensures i == 0 && j == n
  {
    assert forall x :: 0 <= x < n ==> rel[x] == rel[..n][x];
    assert forall x :: i <= x < j ==> rel[x] == rel[i..j][x - i];
  }

  lemma LaterSegment(rel: string, n: nat, rest: string, i: int, j: int)
    requires n < |rel| && rel[n] == '/' && rest == rel[n + 1..] && IsSegment(rel, i, j) && n < i
    ensures IsSegment(rest, i - n - 1, j - n - 1) && rel[i..j] == rest[i - n - 1..j - n - 1]
  {
    assert rel[i..j] == rest[i - n - 1..j - n - 1];
  }

  lemma {:induction false} SegmentPlain(rel: string, i: int, j: int)
    requires SafeSegments(rel) && IsSegment(rel, i, j)
    ensures Plain(rel[i..j])
    decreases |rel|
  {
    var (seg, rest, more) := Cut(rel, '/');
    var n := |seg|;
    CutMeans(rel, '/');
    CutShortens(rel, '/');
    if i <= n {
      FirstSegment(rel, n, i, j);
      assert rel[0..n] == seg;
    } else {
      LaterSegment(rel, n, rest, i, j);
      SegmentPlain(rest, i - n - 1, j - n - 1);
    }
  }

  lemma {:induction false} BadSegment(rel: string) returns (i: int, j: int)
    requires !SafeSegments(rel)
    ensures IsSegment(rel, i, j) && !Plain(rel[i..j])
    decreases |rel|
  {
    var (seg, rest, more) := Cut(rel, '/');
    var n := |seg|;
    CutMeans(rel, '/');
    CutShortens(rel, '/');
    if Plain(seg) {
      i, j := BadSegment(rest);
      assert rel[n + 1..] == rest;
      i, j := i + n + 1, j + n + 1;
      assert rel[i..j] == rest[i - n - 1..j - n - 1];
    } else {
      i, j := 0, n;
      assert rel[0..n] == seg;
    }
  }

  /** Accepted entries are the manifest, parts of known tables, and uploads in canonical form below
      their directory. */
  lemma {:induction false} EntriesAllowed(schema: Schema, es: seq<TarEntry>, n: nat)
    requires AllAllowed(schema, es) && n < |es|
    ensures var name := es[n].name;
      || name == "manifest.json"
      || ("tables/" <= name && exists t, k: nat :: PartOf(schema, es[n]) == Some((t, k)) && t in schema)
      || ("uploads/" <= name && var rel := name[8..];
          rel != "" && '\\' !in rel && ':' !in rel && forall i, j :: IsSegment(rel, i, j) ==> Plain(rel[i..j]))
  {
    if n > 0 {
      EntriesAllowed(schema, es[1..], n - 1);
    } else {
      var e := es[0];
      if e.name != MANIFEST {
        if IsTablePart(e) {
          var p := PartOf(schema, e).value;
          assert PartOf(schema, e) == Some((p.0, p.1));
        } else {
          DownwardIff(e.name[8..]);
        }
      }
    }
  }

  // -------------------------------------------------------- nothing missing

  /** Some entry is this part of the table. */
  ghost predicate HasPart(schema: Schema, es: seq<TarEntry>, t: string, k: int) {
    exists i :: 0 <= i < |es| && IsPart(schema, es[i], t, k)
  }

  predicate IsPart(schema: Schema, e: TarEntry, t: string, k: int) {
    PartOf(schema, e).Some? && PartOf(schema, e).value.0 == t && PartOf(schema, e).value.1 == k
  }

  lemma {:induction false} PartListed(schema: Schema, es: seq<TarEntry>, t: string, k: int)
    ensures k in PartsFor(schema, es, t) <==> HasPart(schema, es, t, k)
  {
    if es != [] {
      PartListed(schema, es[1..], t, k);
      if HasPart(schema, es, t, k) && !IsPart(schema, es[0], t, k) {
        var i :| 0 <= i < |es| && IsPart(schema, es[i], t, k);
        assert es[1..][i - 1] == es[i];
      }
      if HasPart(schema, es[1..], t, k) {
        var i :| 0 <= i < |es[1..]| && IsPart(schema, es[1..][i], t, k);
        assert es[i + 1] == es[1..][i];
      }
    }
  }

  lemma {:induction false} IotaHolds(n: nat, k: int)
    ensures k in Iota(0, n) <==> 0 <= k < n
  {
    if 0 <= k < n { assert Iota(0, n)[k] == k; }
  }

  /** In an archive that is accepted no table is missing a part or a row: part 0 is there, with each
      part every earlier one, and the rows read are as many as the manifest records. */
  lemma NothingMissing(c: Codec, schema: Schema, order: seq<string>, es: seq<TarEntry>, man: Manifest, lim: Limits, heads: string -> nat,
                       t: string, j: nat, k: nat)
    requires Restorable(c, schema, order, es, man, lim, heads) && t in order
    ensures HasPart(schema, es, t, 0)
    ensures HasPart(schema, es, t, k) && j < k ==> HasPart(schema, es, t, j)
    ensures exists n :: RowCount(man.tables, t) == Some(n) && n == |RowsFor(c, schema, lim.line, es, t)|
  {
    var i :| 0 <= i < |order| && order[i] == t;
    var parts := PartsAt(IndexOf(schema, es), t);
    assert Complete(parts);
    IndexHolds(schema, es, t);
    ListsBelow(parts, j, k);
    PartListed(schema, es, t, 0);
    PartListed(schema, es, t, j);
    PartListed(schema, es, t, k);
    assert RowCount(man.tables, order[i]).Some?;
    assert |RowsFor(c, schema, lim.line, es, order[i])| == Recorded(man, order[i]);
  }

  lemma ListsBelow(parts: seq<int>, j: nat, k: nat)
    requires Complete(parts)
    ensures 0 in parts && (k in parts && j < k ==> j in parts)
  {
    assert forall x :: x in parts <==> x in multiset(parts);
    assert forall x :: x in Iota(0, |parts|) <==> x in multiset(Iota(0, |parts|));
    IotaHolds(|parts|, 0);
    IotaHolds(|parts|, j);
    IotaHolds(|parts|, k);
  }

  /** The uploads are as many and as large as the manifest records, no two entries have one name,
      and the manifest is of this version. */
  lemma UploadsComplete(c: Codec, schema: Schema, order: seq<string>, es: seq<TarEntry>, man: Manifest, lim: Limits, heads: string -> nat,
                        i: nat, j: nat)
    requires Restorable(c, schema, order, es, man, lim, heads)
    ensures man.version == 1 && man.uploadFiles == UploadCount(es) && man.uploadBytes == UploadBytes(es)
    ensures i < j < |es| ==> es[i].name != es[j].name
    ensures exists n :: 0 <= n < |es| && es[n].name == "manifest.json"
  {
    UploadTotals(es);
    if i < j < |es| { NamesDiffer(es, i, j); }
    var _ := NameAt(es, MANIFEST);
  }

  function UploadCount(es: seq<TarEntry>): nat {
    if es == [] then 0 else (if "uploads/" <= es[0].name then 1 else 0) + UploadCount(es[1..])
  }

  function UploadBytes(es: seq<TarEntry>): nat {
    if es == [] then 0 else (if "uploads/" <= es[0].name then |es[0].content| else 0) + UploadBytes(es[1..])
  }

  lemma {:induction false} UploadTotals(es: seq<TarEntry>)
    ensures |UploadSizes(es)| == UploadCount(es) && Sum(UploadSizes(es)) == UploadBytes(es)
    decreases |es|
  {
    if es != [] {
      var init, last := es[..|es| - 1], es[|es| - 1];
      assert es == init + [last];
      UploadTotals(init);
      TotalsStep(init, last);
      assert "uploads/"[0] == 'u' && MANIFEST[0] == 'm' && TABLES[0] == 't';
      assert IsUpload(last) <==> "uploads/" <= last.name;
      if IsUpload(last) { SumAppend(UploadSizes(init), |last.content|); } else { assert UploadSizes(init) + [] == UploadSizes(init); }
    }
  }

  lemma {:induction false} TotalsStep(es: seq<TarEntry>, e: TarEntry)
    ensures UploadCount(es + [e]) == UploadCount(es) + if "uploads/" <= e.name then 1 else 0
    ensures UploadBytes(es + [e]) == UploadBytes(es) + if "uploads/" <= e.name then |e.content| else 0
  {
    if es == [] {
      assert [e][1..] == [] && es + [e] == [e];
    } else {
      TotalsStep(es[1..], e);
      assert (es + [e])[1..] == es[1..] + [e];
    }
  }

  lemma {:induction false} NamesDiffer(es: seq<TarEntry>, i: nat, j: nat)
    requires DistinctNames(es) && i < j < |es|
    ensures es[i].name != es[j].name
  {
    if i > 0 {
      NamesDiffer(es[1..], i - 1, j - 1);
    } else {
      NamedIn(es[1..], j - 1);
    }
  }

  lemma {:induction false} NamedIn(es: seq<TarEntry>, j: nat)
    requires j < |es|
    ensures Names(es, es[j].name)
  {
    if j > 0 { NamedIn(es[1..], j - 1); }
  }

  lemma {:induction false} NameAt(es: seq<TarEntry>, name: string) returns (n: nat)
    requires Names(es, name)
    ensures n < |es| && es[n].name == name
  {
    if es[0].name == name {
      n := 0;
    } else {
      var m := NameAt(es[1..], name);
      n := m + 1;
    }
  }
}
