/**
 * Sequence operations behind the array methods the modelled code uses:
 * `filter`, `find`/`findIndex`, `flatMap`, and a stable `sort` by an integer key.
 */
module Seqs {
  import opened Common

  /** `r` can be obtained from `s` by deleting elements (greedy matching from the front). */
  ghost predicate IsSubseq<T>(r: seq<T>, s: seq<T>)
    decreases |s|
  {
    if |r| == 0 then true
    else if |s| == 0 then false
    else if r[0] == s[0] then IsSubseq(r[1..], s[1..])
    else IsSubseq(r, s[1..])
  }

  /* ---------- filter ---------- */

  /** `s.filter(p)`. */
  function Filter<T(==)>(s: seq<T>, p: T -> bool): (r: seq<T>)
    decreases |s|
    ensures |r| <= |s|
    ensures forall i :: 0 <= i < |r| ==> p(r[i])
    ensures forall i :: 0 <= i < |r| ==> r[i] in s
    ensures forall i :: 0 <= i < |s| && p(s[i]) ==> s[i] in r
    ensures IsSubseq(r, s)
  {
    if |s| == 0 then []
    else
      var rest := Filter(s[1..], p);
      if p(s[0]) then [s[0]] + rest
      else
        assert |rest| > 0 ==> rest[0] != s[0];
        rest
  }

  /** Filtering keeps every copy of a passing value and no copy of a failing one. */
  lemma {:induction false} FilterCount<T>(s: seq<T>, p: T -> bool, x: T)
    ensures multiset(Filter(s, p))[x] == if p(x) then multiset(s)[x] else 0
    decreases |s|
  {
    if |s| > 0 {
      FilterCount(s[1..], p, x);
      assert s == [s[0]] + s[1..];
    }
  }

  /** Filtering distributes over concatenation. */
  lemma {:induction false} FilterAppend<T>(a: seq<T>, b: seq<T>, p: T -> bool)
    ensures Filter(a + b, p) == Filter(a, p) + Filter(b, p)
    decreases |a|
  {
    if |a| > 0 {
      assert (a + b)[1..] == a[1..] + b;
      FilterAppend(a[1..], b, p);
    } else {
      assert a + b == b;
    }
  }

  /** Filtering keeps everything exactly when every element passes. */
  lemma {:induction false} FilterKeepsAll<T>(s: seq<T>, p: T -> bool)
    requires forall i :: 0 <= i < |s| ==> p(s[i])
    ensures Filter(s, p) == s
    decreases |s|
  {
    if |s| > 0 {
      FilterKeepsAll(s[1..], p);
    }
  }

  /** Filtering drops everything exactly when no element passes. */
  lemma {:induction false} FilterDropsAll<T>(s: seq<T>, p: T -> bool)
    requires forall i :: 0 <= i < |s| ==> !p(s[i])
    ensures Filter(s, p) == []
    decreases |s|
  {
    if |s| > 0 {
      FilterDropsAll(s[1..], p);
    }
  }

  /** The elements that pass and the elements that fail make up the whole sequence. */
  lemma {:induction false} FilterPartition<T>(s: seq<T>, p: T -> bool, q: T -> bool)
    requires forall x :: q(x) == !p(x)
    ensures multiset(Filter(s, p)) + multiset(Filter(s, q)) == multiset(s)
    ensures |Filter(s, p)| + |Filter(s, q)| == |s|
    decreases |s|
  {
    if |s| > 0 {
      FilterPartition(s[1..], p, q);
      assert s == [s[0]] + s[1..];
    }
  }

  /* ---------- find ---------- */

  /** `s.findIndex(p)`, with `-1` as None. */
  function FindIndex<T>(s: seq<T>, p: T -> bool): (r: Option<nat>)
    decreases |s|
    ensures r.Some? ==> r.value < |s| && p(s[r.value])
    ensures r.Some? ==> forall j :: 0 <= j < r.value ==> !p(s[j])
    ensures r.None? ==> forall j :: 0 <= j < |s| ==> !p(s[j])
  {
    if |s| == 0 then None
    else if p(s[0]) then Some(0)
    else match FindIndex(s[1..], p)
      case None => None
      case Some(i) => Some(i + 1)
  }

  /* ---------- flatMap ---------- */

  /** The concatenation of a sequence of sequences. */
  function Flatten<T>(ss: seq<seq<T>>): seq<T>
    decreases |ss|
  {
    if |ss| == 0 then [] else ss[0] + Flatten(ss[1..])
  }

  /** Flattening distributes over concatenation. */
  lemma {:induction false} FlattenAppend<T>(a: seq<seq<T>>, b: seq<seq<T>>)
    ensures Flatten(a + b) == Flatten(a) + Flatten(b)
    decreases |a|
  {
    if |a| > 0 {
      assert (a + b)[1..] == a[1..] + b;
      FlattenAppend(a[1..], b);
    } else {
      assert a + b == b;
    }
  }

  /** Flattening with one more piece appends that piece. */
  lemma FlattenSnoc<T>(a: seq<seq<T>>, x: seq<T>)
    ensures Flatten(a + [x]) == Flatten(a) + x
  {
    FlattenAppend(a, [x]);
    assert Flatten([x]) == x + Flatten([x][1..]);
    assert [x][1..] == [];
  }

  /** An element of the concatenation comes from one of the pieces, and every piece's elements are in it. */
  lemma {:induction false} FlattenMembership<T>(ss: seq<seq<T>>, x: T)
    ensures x in Flatten(ss) <==> exists i :: 0 <= i < |ss| && x in ss[i]
    decreases |ss|
  {
    if |ss| > 0 {
      FlattenMembership(ss[1..], x);
      if x in Flatten(ss[1..]) {
        var i :| 0 <= i < |ss[1..]| && x in ss[1..][i];
        assert x in ss[i + 1];
      }
      if exists i :: 0 <= i < |ss| && x in ss[i] {
        var i :| 0 <= i < |ss| && x in ss[i];
        if i > 0 {
          assert x in ss[1..][i - 1];
        }
      }
    }
  }

  /* ---------- stable sort, largest key first ---------- */

  ghost predicate SortedDesc<T>(s: seq<T>, key: T -> int) {
    forall i, j :: 0 <= i < j < |s| ==> key(s[i]) >= key(s[j])
  }

  /** Inserts `x` after every element whose key is at least its own. */
  function InsertDesc<T(==)>(t: seq<T>, x: T, key: T -> int): (r: seq<T>)
    decreases |t|
    ensures |r| == |t| + 1
    ensures multiset(r) == multiset(t) + multiset{x}
    ensures SortedDesc(t, key) ==> SortedDesc(r, key)
  {
    if |t| == 0 then [x]
    else if key(t[0]) >= key(x) then
      var rest := InsertDesc(t[1..], x, key);
      assert t == [t[0]] + t[1..];
      KeepHeadSorted(t, x, rest, key);
      [t[0]] + rest
    else
      PutFirstSorted(t, x, key);
      [x] + t
  }

  /** Inserting behind a head that is at least as new keeps the head in front. */
  lemma KeepHeadSorted<T>(t: seq<T>, x: T, rest: seq<T>, key: T -> int)
    requires |t| > 0 && key(t[0]) >= key(x)
    requires multiset(rest) == multiset(t[1..]) + multiset{x}
    requires SortedDesc(t[1..], key) ==> SortedDesc(rest, key)
    ensures SortedDesc(t, key) ==> SortedDesc([t[0]] + rest, key)
  {
    if SortedDesc(t, key) {
      assert SortedDesc(t[1..], key);
      HeadBoundsRest(t, x, rest, key);
      ConsSorted(t[0], rest, key);
    }
  }

  /** An element newer than the head goes in front. */
  lemma PutFirstSorted<T>(t: seq<T>, x: T, key: T -> int)
    requires |t| > 0 && key(t[0]) < key(x)
    ensures SortedDesc(t, key) ==> SortedDesc([x] + t, key)
  {
    if SortedDesc(t, key) {
      ConsSorted(x, t, key);
    }
  }

  /** A head at least as new as everything after it keeps the order. */
  lemma ConsSorted<T>(h: T, rest: seq<T>, key: T -> int)
    requires SortedDesc(rest, key)
    requires forall j :: 0 <= j < |rest| ==> key(h) >= key(rest[j])
    ensures SortedDesc([h] + rest, key)
  {
    var r := [h] + rest;
    forall i, j | 0 <= i < j < |r|
      ensures key(r[i]) >= key(r[j])
    {
      assert r[j] == rest[j - 1];
      if i > 0 {
        assert r[i] == rest[i - 1];
      }
    }
  }

  /** The head of a sorted `t` bounds every element of `rest`, which holds `t[1..]` and `x`. */
  lemma HeadBoundsRest<T>(t: seq<T>, x: T, rest: seq<T>, key: T -> int)
    requires |t| > 0 && key(t[0]) >= key(x)
    requires multiset(rest) == multiset(t[1..]) + multiset{x}
    requires SortedDesc(t, key)
    ensures forall j :: 0 <= j < |rest| ==> key(t[0]) >= key(rest[j])
  {
    {
      forall j | 0 <= j < |rest|
        ensures key(t[0]) >= key(rest[j])
      {
        assert rest[j] in multiset(rest);
        if rest[j] != x {
          assert rest[j] in multiset(t[1..]);
          var k :| 0 <= k < |t[1..]| && t[1..][k] == rest[j];
          assert t[k + 1] == rest[j];
        }
      }
    }
  }

  /** `s.sort((a, b) => key(b) - key(a))`: a stable sort, largest key first. */
  function SortDesc<T(==)>(s: seq<T>, key: T -> int): (r: seq<T>)
    decreases |s|
    ensures |r| == |s|
    ensures multiset(r) == multiset(s)
    ensures SortedDesc(r, key)
  {
    if |s| == 0 then []
    else
      var init := s[..|s| - 1];
      assert s == init + [s[|s| - 1]];
      InsertDesc(SortDesc(init, key), s[|s| - 1], key)
  }

  /* ---------- ordering by a class of elements ---------- */

  /** The elements that pass `p`, sorted by `rank` largest first, followed by the others in their original order. */
  function PassFirst<T(==)>(s: seq<T>, p: T -> bool, q: T -> bool, rank: T -> int): seq<T> {
    SortDesc(Filter(s, p), rank) + Filter(s, q)
  }

  /** `PassFirst` holds the same elements as `s`. */
  lemma PassFirstPermutes<T>(s: seq<T>, p: T -> bool, q: T -> bool, rank: T -> int)
    requires forall x :: q(x) == !p(x)
    ensures |PassFirst(s, p, q, rank)| == |s| && multiset(PassFirst(s, p, q, rank)) == multiset(s)
  {
    var a := SortDesc(Filter(s, p), rank);
    var b := Filter(s, q);
    FilterPartition(s, p, q);
    assert multiset(a + b) == multiset(a) + multiset(b);
  }

  /** In `PassFirst`, the passing elements come first, ordered by `rank`. */
  lemma PassFirstOrder<T>(s: seq<T>, p: T -> bool, q: T -> bool, rank: T -> int)
    requires forall x :: q(x) == !p(x)
    ensures forall i, j :: 0 <= i < j < |PassFirst(s, p, q, rank)| && p(PassFirst(s, p, q, rank)[j]) ==>
      p(PassFirst(s, p, q, rank)[i])
    ensures forall i, j :: 0 <= i < j < |PassFirst(s, p, q, rank)| && p(PassFirst(s, p, q, rank)[j]) ==>
      rank(PassFirst(s, p, q, rank)[i]) >= rank(PassFirst(s, p, q, rank)[j])
  {
    var f := Filter(s, p);
    var a := SortDesc(f, rank);
    var b := Filter(s, q);
    var r := PassFirst(s, p, q, rank);
    assert r == a + b;
    forall k | 0 <= k < |a|
      ensures p(a[k])
    {
      assert a[k] in multiset(f);
    }
    forall i, j | 0 <= i < j < |r| && p(r[j])
      ensures p(r[i]) && rank(r[i]) >= rank(r[j])
    {
      assert r[i] == a[i] && r[j] == a[j];
    }
  }

  /** `PassFirst` keeps the failing elements in their original order. */
  lemma PassFirstKeepsRest<T>(s: seq<T>, p: T -> bool, q: T -> bool, rank: T -> int)
    requires forall x :: q(x) == !p(x)
    ensures Filter(PassFirst(s, p, q, rank), q) == Filter(s, q)
  {
    var f := Filter(s, p);
    var a := SortDesc(f, rank);
    var b := Filter(s, q);
    forall k | 0 <= k < |a|
      ensures !q(a[k])
    {
      assert a[k] in multiset(f);
    }
    FilterAppend(a, b, q);
    FilterDropsAll(a, q);
    FilterKeepsAll(b, q);
  }

  /** An element that fails `p` and passes `q`, added at the end, goes after everything already there. */
  lemma PassFirstSnocRest<T>(s: seq<T>, x: T, p: T -> bool, q: T -> bool, rank: T -> int)
    requires !p(x) && q(x)
    ensures PassFirst(s + [x], p, q, rank) == PassFirst(s, p, q, rank) + [x]
  {
    FilterAppend(s, [x], p);
    FilterAppend(s, [x], q);
    assert Filter([x], p) == [] && Filter([x], q) == [x];
    assert Filter(s + [x], p) == Filter(s, p);
  }
}
