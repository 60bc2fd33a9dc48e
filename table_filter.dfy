/** The filtering every table view shares: a free-text search over a row's
    field values conjoined with drop-down filters where an empty choice means
    "all", and the drop-down lists of distinct column values. */
module TableFilter {
  import opened Text
  import opened Grouping

  /** `term === '' || values.join(' ').toLowerCase().includes(term.toLowerCase())`. */
  predicate MatchesSearch(values: seq<string>, term: string)
  {
    term == "" || Contains(ToLower(Join(values, " ")), ToLower(term))
  }

  /** `choice === '' || value === choice`. */
  predicate MatchesChoice(value: string, choice: string)
  {
    choice == "" || value == choice
  }

  /** Searching for any field's own value, in any letter case, finds the row. */
  lemma SearchFindsField(values: seq<string>, k: nat, term: string)
    requires k < |values|
    requires ToLower(term) == ToLower(values[k])
    ensures MatchesSearch(values, term)
  {
    JoinContainsPart(values, " ", k);
    var a, b :| Join(values, " ") == a + values[k] + b;
    ToLowerConcat(a + values[k], b);
    ToLowerConcat(a, values[k]);
    ContainsInfix(ToLower(a), ToLower(values[k]), ToLower(b));
  }

  /** `rows.filter(keep)`. */
  function Filter<T>(rows: seq<T>, keep: T -> bool): (r: seq<T>)
    ensures |r| <= |rows|
  {
    if rows == [] then []
    else (if keep(rows[0]) then [rows[0]] else []) + Filter(rows[1..], keep)
  }

  /** `a` is `b` with some elements left out, the rest in their order. */
  predicate IsSubsequence<T(==)>(a: seq<T>, b: seq<T>)
    decreases |b|
  {
    || a == []
    || (b != [] && ((a[0] == b[0] && IsSubsequence(a[1..], b[1..])) || IsSubsequence(a, b[1..])))
  }

  /** A row is kept exactly when it is a row that passes the test. */
  lemma {:induction false} FilterMembership<T>(rows: seq<T>, keep: T -> bool, x: T)
    ensures x in Filter(rows, keep) <==> x in rows && keep(x)
    decreases |rows|
  {
    if rows != [] {
      FilterMembership(rows[1..], keep, x);
      assert x in rows <==> x == rows[0] || x in rows[1..];
    }
  }

  /** Filtering keeps the order of the rows it keeps. */
  lemma {:induction false} FilterIsSubsequence<T>(rows: seq<T>, keep: T -> bool)
    ensures IsSubsequence(Filter(rows, keep), rows)
    decreases |rows|
  {
    if rows != [] {
      FilterIsSubsequence(rows[1..], keep);
      var r := Filter(rows, keep);
      if keep(rows[0]) {
        assert r[0] == rows[0] && r[1..] == Filter(rows[1..], keep);
      } else {
        assert r == Filter(rows[1..], keep);
      }
    }
  }

  /** A test every row passes keeps every row. */
  lemma {:induction false} FilterKeepsAll<T>(rows: seq<T>, keep: T -> bool)
    requires forall i :: 0 <= i < |rows| ==> keep(rows[i])
    ensures Filter(rows, keep) == rows
    decreases |rows|
  {
    if rows != [] {
      FilterKeepsAll(rows[1..], keep);
      assert [rows[0]] + rows[1..] == rows;
    }
  }

  /** A stricter test keeps a subsequence of what the looser one keeps. */
  lemma {:induction false} FilterNarrower<T>(rows: seq<T>, strict: T -> bool, loose: T -> bool)
    requires forall x :: strict(x) ==> loose(x)
    ensures IsSubsequence(Filter(rows, strict), Filter(rows, loose))
    ensures |Filter(rows, strict)| <= |Filter(rows, loose)|
    decreases |rows|
  {
    if rows != [] {
      FilterNarrower(rows[1..], strict, loose);
      var s, l := Filter(rows, strict), Filter(rows, loose);
      if strict(rows[0]) {
        assert s[0] == l[0] && s[1..] == Filter(rows[1..], strict) && l[1..] == Filter(rows[1..], loose);
      } else if loose(rows[0]) {
        assert s == Filter(rows[1..], strict) && l[1..] == Filter(rows[1..], loose);
      } else {
        assert s == Filter(rows[1..], strict) && l == Filter(rows[1..], loose);
      }
    }
  }

  lemma {:induction false} FilterConcat<T>(a: seq<T>, b: seq<T>, keep: T -> bool)
    ensures Filter(a + b, keep) == Filter(a, keep) + Filter(b, keep)
    decreases |a|
  {
    if a == [] {
      assert a + b == b;
    } else {
      var ab := a + b;
      assert ab[0] == a[0] && ab[1..] == a[1..] + b;
      var head := if keep(a[0]) then [a[0]] else [];
      calc {
        Filter(ab, keep);
        head + Filter(a[1..] + b, keep);
        { FilterConcat(a[1..], b, keep); }
        head + (Filter(a[1..], keep) + Filter(b, keep));
        (head + Filter(a[1..], keep)) + Filter(b, keep);
      }
    }
  }

  /** The values of one column, row by row. */
  function ColumnOf<T>(rows: seq<T>, field: T -> string): (vs: seq<string>)
    ensures |vs| == |rows|
  {
    seq(|rows|, i requires 0 <= i < |rows| => field(rows[i]))
  }

  /** `Array.from(new Set(rows.map(field)))`: a drop-down's options. */
  function UniqueValues<T>(rows: seq<T>, field: T -> string): seq<string>
  {
    FirstSeen(ColumnOf(rows, field))
  }

  /** A drop-down offers every value of its column exactly once, and nothing else. */
  lemma UniqueValuesExact<T>(rows: seq<T>, field: T -> string, v: string)
    ensures Distinct(UniqueValues(rows, field))
    ensures v in UniqueValues(rows, field) <==> exists i :: 0 <= i < |rows| && field(rows[i]) == v
  {
    var vs := ColumnOf(rows, field);
    FirstSeenDistinct(vs);
    FirstSeenMembership(vs, v);
    if v in vs {
      var i :| 0 <= i < |vs| && vs[i] == v;
      assert field(rows[i]) == v;
    }
    if exists i :: 0 <= i < |rows| && field(rows[i]) == v {
      var i :| 0 <= i < |rows| && field(rows[i]) == v;
      assert vs[i] == v;
    }
  }
}
