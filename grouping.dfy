/** Grouping rows by a key, as the dashboard does with `Set`, `Map` and
    `reduce`: the distinct keys in order of first appearance, and per-key sums
    of a non-negative count column. */
module Grouping {

  predicate Distinct<T(==)>(s: seq<T>)
  {
    forall i, j :: 0 <= i < j < |s| ==> s[i] != s[j]
  }

  /** `Array.from(new Set(s))`: every value of `s` once, in order of first appearance. */
  function FirstSeen<T(==)>(s: seq<T>): (r: seq<T>)
    ensures |r| <= |s|
  {
    if s == [] then []
    else
      var prev := FirstSeen(s[..|s| - 1]);
      if s[|s| - 1] in prev then prev else prev + [s[|s| - 1]]
  }

  /** The distinct values are exactly the values. */
  lemma {:induction false} FirstSeenMembership<T>(s: seq<T>, x: T)
    ensures x in FirstSeen(s) <==> x in s
    decreases |s|
  {
    if s != [] {
      var n := |s| - 1;
      assert s == s[..n] + [s[n]];
      FirstSeenMembership(s[..n], x);
    }
  }

  /** No value is listed twice. */
  lemma {:induction false} FirstSeenDistinct<T>(s: seq<T>)
    ensures Distinct(FirstSeen(s))
    decreases |s|
  {
    if s != [] {
      var n := |s| - 1;
      FirstSeenDistinct(s[..n]);
      FirstSeenMembership(s[..n], s[n]);
    }
  }

  /** Appending a value adds it to the end of the distinct values, unless it was seen before. */
  lemma FirstSeenSnoc<T>(s: seq<T>, x: T)
    ensures FirstSeen(s + [x]) == if x in s then FirstSeen(s) else FirstSeen(s) + [x]
  {
    assert (s + [x])[..|s|] == s;
    FirstSeenMembership(s, x);
  }

  /** A sequence of one repeated value has that value as its only distinct value. */
  lemma {:induction false} FirstSeenConstant<T>(s: seq<T>, x: T)
    requires forall k :: 0 <= k < |s| ==> s[k] == x
    ensures FirstSeen(s) == if s == [] then [] else [x]
    decreases |s|
  {
    if s != [] {
      FirstSeenConstant(s[..|s| - 1], x);
    }
  }

  /** The position of the first occurrence of `x` in `s`. */
  function FirstIndex<T(==)>(s: seq<T>, x: T): (i: nat)
    requires x in s
    ensures i < |s| && s[i] == x && x !in s[..i]
  {
    if s[0] == x then 0
    else
      assert x in s[1..];
      var j := FirstIndex(s[1..], x);
      assert s[..j + 1] == [s[0]] + s[1..][..j];
      1 + j
  }

  /** Appending to a sequence does not move the first occurrence of a value already in it. */
  lemma FirstIndexSnoc<T>(s: seq<T>, y: T, x: T)
    requires x in s
    ensures FirstIndex(s + [y], x) == FirstIndex(s, x)
  {
    var t := s + [y];
    var i, j := FirstIndex(s, x), FirstIndex(t, x);
    assert forall m :: 0 <= m < j ==> t[..j][m] == t[m];
    assert forall m :: 0 <= m < i ==> s[..i][m] == s[m] == t[m];
    assert t[i] == s[i];
    assert j < |s| ==> t[j] == s[j];
  }

  /** The distinct values come in the order in which each first appears. */
  lemma {:induction false} FirstSeenInOrder<T>(s: seq<T>, i: nat, j: nat)
    requires i < j < |FirstSeen(s)|
    ensures FirstSeen(s)[i] in s && FirstSeen(s)[j] in s
    ensures FirstIndex(s, FirstSeen(s)[i]) < FirstIndex(s, FirstSeen(s)[j])
    decreases |s|
  {
    FirstSeenMembership(s, FirstSeen(s)[i]);
    FirstSeenMembership(s, FirstSeen(s)[j]);
    var n := |s|;
    var p, y := s[..n - 1], s[n - 1];
    assert s == p + [y];
    FirstSeenSnoc(p, y);
    var r, rp := FirstSeen(s), FirstSeen(p);
    if j < |rp| {
      FirstSeenInOrder(p, i, j);
      FirstIndexSnoc(p, y, r[i]);
      FirstIndexSnoc(p, y, r[j]);
    } else {
      FirstSeenMembership(p, y);
      FirstSeenMembership(p, rp[i]);
      assert r[j] == y && y !in p;
      assert r[i] == rp[i] && r[i] in p;
      FirstIndexSnoc(p, y, r[i]);
      var k := FirstIndex(s, y);
      assert forall m :: 0 <= m < n - 1 ==> s[m] == p[m];
    }
  }

  /** The sum of a count column. */
  function Sum(ws: seq<nat>): nat
  {
    if ws == [] then 0 else Sum(ws[..|ws| - 1]) + ws[|ws| - 1]
  }

  lemma SumSnoc(ws: seq<nat>, w: nat)
    ensures Sum(ws + [w]) == Sum(ws) + w
  {
    assert (ws + [w])[..|ws|] == ws;
  }

  lemma {:induction false} SumConcat(a: seq<nat>, b: seq<nat>)
    ensures Sum(a + b) == Sum(a) + Sum(b)
    decreases |b|
  {
    if b != [] {
      var n := |b| - 1;
      assert a + b == (a + b[..n]) + [b[n]];
      SumConcat(a, b[..n]);
      SumSnoc(a + b[..n], b[n]);
      SumSnoc(b[..n], b[n]);
      assert b == b[..n] + [b[n]];
    } else {
      assert a + b == a;
    }
  }

  /** The sum of the counts `ws[i]` whose key `ks[i]` is `k`. */
  function SumWhere<K(==)>(ks: seq<K>, ws: seq<nat>, k: K): (r: nat)
    requires |ks| == |ws|
    ensures r <= Sum(ws)
    ensures k !in ks ==> r == 0
  {
    if ks == [] then 0
    else
      var n := |ks| - 1;
      assert ks == ks[..n] + [ks[n]];
      SumWhere(ks[..n], ws[..n], k) + (if ks[n] == k then ws[n] else 0)
  }

  lemma SumWhereSnoc<K>(ks: seq<K>, ws: seq<nat>, k: K, w: nat, d: K)
    requires |ks| == |ws|
    ensures SumWhere(ks + [k], ws + [w], d) == SumWhere(ks, ws, d) + (if k == d then w else 0)
  {
    assert (ks + [k])[..|ks|] == ks;
    assert (ws + [w])[..|ws|] == ws;
  }

  /** A column that is nowhere larger than another has no larger per-key sums. */
  lemma {:induction false} SumWhereMonotone<K>(ks: seq<K>, ws: seq<nat>, vs: seq<nat>, k: K)
    requires |ks| == |ws| == |vs|
    requires forall i :: 0 <= i < |ws| ==> ws[i] <= vs[i]
    ensures SumWhere(ks, ws, k) <= SumWhere(ks, vs, k)
    decreases |ks|
  {
    if ks != [] {
      var n := |ks| - 1;
      SumWhereMonotone(ks[..n], ws[..n], vs[..n], k);
    }
  }

  /** The per-key sums for the keys `ds`, added up. */
  function SumOver<K(==)>(ds: seq<K>, ks: seq<K>, ws: seq<nat>): nat
    requires |ks| == |ws|
  {
    if ds == [] then 0 else SumWhere(ks, ws, ds[0]) + SumOver(ds[1..], ks, ws)
  }

  lemma {:induction false} SumOverSnoc<K>(ds: seq<K>, ks: seq<K>, ws: seq<nat>, k: K, w: nat)
    requires Distinct(ds) && |ks| == |ws|
    ensures SumOver(ds, ks + [k], ws + [w]) == SumOver(ds, ks, ws) + (if k in ds then w else 0)
  {
    if ds != [] {
      SumWhereSnoc(ks, ws, k, w, ds[0]);
      SumOverSnoc(ds[1..], ks, ws, k, w);
      assert k in ds <==> k == ds[0] || k in ds[1..];
      assert ds[0] !in ds[1..];
    }
  }

  /** Grouping loses and duplicates nothing: when every key occurs once in `ds`,
      the per-key sums over `ds` add up to the sum of the whole column. */
  lemma {:induction false} SumOverGroups<K>(ds: seq<K>, ks: seq<K>, ws: seq<nat>)
    requires Distinct(ds) && |ks| == |ws|
    requires forall k :: k in ks ==> k in ds
    ensures SumOver(ds, ks, ws) == Sum(ws)
    decreases |ks|
  {
    if ks == [] {
      SumOverEmpty(ds, ks, ws);
    } else {
      var n := |ks| - 1;
      assert ks == ks[..n] + [ks[n]] && ws == ws[..n] + [ws[n]];
      SumOverGroups(ds, ks[..n], ws[..n]);
      SumOverSnoc(ds, ks[..n], ws[..n], ks[n], ws[n]);
    }
  }

  lemma {:induction false} SumOverEmpty<K>(ds: seq<K>, ks: seq<K>, ws: seq<nat>)
    requires ks == [] && ws == []
    ensures SumOver(ds, ks, ws) == 0
  {
    if ds != [] {
      SumOverEmpty(ds[1..], ks, ws);
    }
  }
}
