/** The demo-engagement view: percentages given as fractions are scaled to
    0..100, rows are filtered by a search and a country, and the metrics the
    charts show are computed from the filtered rows: the average completion,
    four completion buckets, per-country counts in descending order and the
    call-to-action click counts and rate.

    JavaScript's rendering of a number as text, which the search reads, is a
    parameter. */
module StorylaneView {
  import opened Text
  import opened Grouping
  import opened Rounding
  import opened TableFilter

  /** One demo view. */
  datatype StorylaneData = StorylaneData(
    demoName: string,
    link: string,
    lastView: string,
    totalTime: string,
    stepsCompleted: string,
    percentComplete: real,
    openedCta: bool,
    country: string)

  // ---------------------------------------------------------------------------
  // `fixedPercentData`

  /** A percentage of at most 1 is read as a fraction and scaled to a rounded
      percentage; any other is kept. */
  function FixPercent(item: StorylaneData): (r: StorylaneData)
    ensures r.(percentComplete := item.percentComplete) == item
    ensures item.percentComplete <= 1.0 ==> r.percentComplete == Round(item.percentComplete * 100.0) as real
    ensures item.percentComplete > 1.0 ==> r == item
    ensures 0.0 <= item.percentComplete <= 1.0 ==> 0.0 <= r.percentComplete <= 100.0
  {
    if item.percentComplete <= 1.0 then
      item.(percentComplete := Round(item.percentComplete * 100.0) as real)
    else item
  }

  function FixedPercentData(items: seq<StorylaneData>): (r: seq<StorylaneData>)
    ensures |r| == |items|
    ensures forall i :: 0 <= i < |items| ==> r[i] == FixPercent(items[i])
  {
    seq(|items|, i requires 0 <= i < |items| => FixPercent(items[i]))
  }

  // ---------------------------------------------------------------------------
  // `filteredData` and `uniqueCountries`

  function BoolText(b: bool): string
  {
    if b then "true" else "false"
  }

  /** `Object.values(item)` rendered as text. */
  function Values(item: StorylaneData, numberText: real -> string): seq<string>
  {
    [ item.demoName, item.link, item.lastView, item.totalTime, item.stepsCompleted,
      numberText(item.percentComplete), BoolText(item.openedCta), item.country ]
  }

  datatype Filters = Filters(searchTerm: string, country: string)

  predicate Keep(f: Filters, numberText: real -> string, item: StorylaneData)
  {
    MatchesSearch(Values(item, numberText), f.searchTerm) && MatchesChoice(item.country, f.country)
  }

  function FilteredData(data: seq<StorylaneData>, f: Filters, numberText: real -> string): seq<StorylaneData>
  {
    Filter(data, item => Keep(f, numberText, item))
  }

  /** With no search and no country every row is kept. */
  lemma NoFiltersKeepAll(data: seq<StorylaneData>, numberText: real -> string)
    ensures FilteredData(data, Filters("", ""), numberText) == data
  {
    FilterKeepsAll(data, item => Keep(Filters("", ""), numberText, item));
  }

  /** The filtered rows are rows of the data, in their order, each of the chosen
      country when one is chosen and matching the term when one is typed. */
  lemma FilteredRows(data: seq<StorylaneData>, f: Filters, numberText: real -> string, item: StorylaneData)
    ensures IsSubsequence(FilteredData(data, f, numberText), data)
    ensures item in FilteredData(data, f, numberText) <==>
      && item in data
      && (f.country != "" ==> item.country == f.country)
      && (f.searchTerm != "" ==> Contains(ToLower(Join(Values(item, numberText), " ")), ToLower(f.searchTerm)))
  {
    FilterIsSubsequence(data, item => Keep(f, numberText, item));
    FilterMembership(data, item => Keep(f, numberText, item), item);
  }

  function Countries(items: seq<StorylaneData>): (cs: seq<string>)
    ensures |cs| == |items|
  {
    seq(|items|, i requires 0 <= i < |items| => items[i].country)
  }

  /** The country drop-down: every country of the data, once each. */
  function UniqueCountries(data: seq<StorylaneData>): seq<string>
  {
    FirstSeen(Countries(data))
  }

  // ---------------------------------------------------------------------------
  // The metrics

  /** A named value of a chart. */
  datatype Slice = Slice(name: string, value: int)

  function PercentSum(items: seq<StorylaneData>): real
  {
    if items == [] then 0.0 else items[0].percentComplete + PercentSum(items[1..])
  }

  /** The rounded mean completion, 0 when there are no rows. */
  function AvgCompletion(items: seq<StorylaneData>): (avg: int)
    ensures items == [] ==> avg == 0
  {
    if |items| > 0 then Round(PercentSum(items) / |items| as real) else 0
  }

  lemma {:induction false} PercentSumBounds(items: seq<StorylaneData>)
    requires forall i :: 0 <= i < |items| ==> 0.0 <= items[i].percentComplete <= 100.0
    ensures 0.0 <= PercentSum(items) <= 100.0 * |items| as real
    decreases |items|
  {
    if items != [] {
      PercentSumBounds(items[1..]);
    }
  }

  /** Rows whose percentages lie in 0..100 average to 0..100. */
  lemma AvgCompletionBounds(items: seq<StorylaneData>)
    requires forall i :: 0 <= i < |items| ==> 0.0 <= items[i].percentComplete <= 100.0
    ensures 0 <= AvgCompletion(items) <= 100
  {
    if items != [] {
      PercentSumBounds(items);
      var n := |items| as real;
      QuotientWithinOne(PercentSum(items), 100.0 * n);
      assert PercentSum(items) / n == (PercentSum(items) / (100.0 * n)) * 100.0;
    }
  }

  /** The completion bucket of a percentage: 0-25, 26-50, 51-75, 76-100. */
  function Bucket(p: real): (k: nat)
    ensures k < 4
    ensures k == 0 <==> p <= 25.0
    ensures k == 1 <==> 25.0 < p <= 50.0
    ensures k == 2 <==> 50.0 < p <= 75.0
    ensures k == 3 <==> p > 75.0
  {
    if p <= 25.0 then 0 else if p <= 50.0 then 1 else if p <= 75.0 then 2 else 3
  }

  const BucketNames := ["0-25%", "26-50%", "51-75%", "76-100%"]

  /** How many rows fall in bucket `k`. */
  function BucketCount(items: seq<StorylaneData>, k: nat): nat
  {
    if items == [] then 0
    else
      var n := |items| - 1;
      BucketCount(items[..n], k) + (if Bucket(items[n].percentComplete) == k then 1 else 0)
  }

  /** `completionStatus`. */
  function CompletionStatus(items: seq<StorylaneData>): seq<Slice>
  {
    seq(4, k requires 0 <= k < 4 => Slice(BucketNames[k], BucketCount(items, k)))
  }

  /** Every row lands in exactly one bucket, so the buckets add up to the rows. */
  lemma {:induction false} BucketsPartition(items: seq<StorylaneData>)
    ensures BucketCount(items, 0) + BucketCount(items, 1) + BucketCount(items, 2) + BucketCount(items, 3) == |items|
    decreases |items|
  {
    if items != [] {
      BucketsPartition(items[..|items| - 1]);
    }
  }

  /** The `forEach` that fills `completionStatus`, one increment per row. */
  method FillCompletionStatus(items: seq<StorylaneData>) returns (status: seq<Slice>)
    ensures status == CompletionStatus(items)
  {
    var counts := new nat[4](_ => 0);
    var i := 0;
    while i < |items|
      invariant 0 <= i <= |items|
      invariant forall k :: 0 <= k < 4 ==> counts[k] == BucketCount(items[..i], k)
    {
      var p := items[i].percentComplete;
      var k := if p <= 25.0 then 0 else if p <= 50.0 then 1 else if p <= 75.0 then 2 else 3;
      counts[k] := counts[k] + 1;
      assert items[..i + 1][..i] == items[..i];
      i := i + 1;
    }
    assert items[..|items|] == items;
    status := [
      Slice(BucketNames[0], counts[0]), Slice(BucketNames[1], counts[1]),
      Slice(BucketNames[2], counts[2]), Slice(BucketNames[3], counts[3])];
  }

  /** How many rows have the given country: `filter(...).length`. */
  function CountryCount(items: seq<StorylaneData>, c: string): nat
  {
    |Filter(items, (item: StorylaneData) => item.country == c)|
  }

  /** Rows with the call to action opened. */
  function CtaClicked(items: seq<StorylaneData>): (n: nat)
    ensures n <= |items|
  {
    |Filter(items, (item: StorylaneData) => item.openedCta)|
  }

  function CtaRate(items: seq<StorylaneData>): (rate: int)
    ensures items == [] ==> rate == 0
    ensures 0 <= rate <= 100
  {
    if |items| > 0 then Percent(CtaClicked(items), |items|) else 0
  }

  function CtaClickData(items: seq<StorylaneData>): (slices: seq<Slice>)
    ensures |slices| == 2 && slices[0].value + slices[1].value == |items|
    ensures 0 <= slices[1].value
  {
    [Slice("Clicked", CtaClicked(items)), Slice("Not Clicked", |items| - CtaClicked(items))]
  }

  /** Each country of the data with its count among the filtered rows. */
  function CountrySlices(countries: seq<string>, items: seq<StorylaneData>): (slices: seq<Slice>)
    ensures |slices| == |countries|
  {
    seq(|countries|, i requires 0 <= i < |countries| => Slice(countries[i], CountryCount(items, countries[i])))
  }

  /** Non-increasing by value. */
  predicate Descending(s: seq<Slice>)
  {
    forall i, j :: 0 <= i < j < |s| ==> s[i].value >= s[j].value
  }

  /** `x` placed before the first slice whose value is not larger than its own,
      so ahead of equal slices, which all come later in the input: the sort is
      stable, as `Array.prototype.sort` is. */
  function InsertDesc(x: Slice, s: seq<Slice>): seq<Slice>
  {
    if s == [] then [x]
    else if x.value >= s[0].value then [x] + s
    else [s[0]] + InsertDesc(x, s[1..])
  }

  /** `sort((a, b) => b.value - a.value)`. */
  function SortDescending(s: seq<Slice>): seq<Slice>
  {
    if s == [] then [] else InsertDesc(s[0], SortDescending(s[1..]))
  }

  function ValueSum(s: seq<Slice>): int
  {
    if s == [] then 0 else s[0].value + ValueSum(s[1..])
  }

  lemma {:induction false} InsertDescPermutes(x: Slice, s: seq<Slice>)
    ensures multiset(InsertDesc(x, s)) == multiset(s) + multiset{x}
    decreases |s|
  {
    if s != [] && x.value < s[0].value {
      InsertDescPermutes(x, s[1..]);
      assert s == [s[0]] + s[1..];
    }
  }

  lemma {:induction false} InsertDescSum(x: Slice, s: seq<Slice>)
    ensures ValueSum(InsertDesc(x, s)) == ValueSum(s) + x.value
    decreases |s|
  {
    if s != [] && x.value < s[0].value {
      InsertDescSum(x, s[1..]);
    }
  }

  /** A slice not below any slice of a descending sequence can lead it. */
  lemma ConsDescending(h: Slice, t: seq<Slice>)
    requires Descending(t)
    requires forall k :: 0 <= k < |t| ==> h.value >= t[k].value
    ensures Descending([h] + t)
  {
    var r := [h] + t;
    forall i, j | 0 <= i < j < |r| ensures r[i].value >= r[j].value {
      if i == 0 {
        assert r[j] == t[j - 1];
      } else {
        assert r[i] == t[i - 1] && r[j] == t[j - 1];
      }
    }
  }

  /** Inserting keeps a common upper bound. */
  lemma {:induction false} InsertDescBelow(x: Slice, s: seq<Slice>, hi: int)
    requires x.value <= hi
    requires forall k :: 0 <= k < |s| ==> s[k].value <= hi
    ensures forall k :: 0 <= k < |InsertDesc(x, s)| ==> InsertDesc(x, s)[k].value <= hi
    decreases |s|
  {
    if s != [] {
      var r := InsertDesc(x, s);
      if x.value >= s[0].value {
        forall k | 0 < k < |r| ensures r[k].value <= hi {
          assert r[k] == s[k - 1];
        }
      } else {
        InsertDescBelow(x, s[1..], hi);
        forall k | 0 < k < |r| ensures r[k].value <= hi {
          assert r[k] == InsertDesc(x, s[1..])[k - 1];
        }
      }
    }
  }

  lemma {:induction false} InsertDescSorted(x: Slice, s: seq<Slice>)
    requires Descending(s)
    ensures Descending(InsertDesc(x, s))
    decreases |s|
  {
    if s != [] {
      if x.value >= s[0].value {
        ConsDescending(x, s);
      } else {
        var t := s[1..];
        assert forall k :: 0 <= k < |t| ==> t[k] == s[k + 1];
        InsertDescSorted(x, t);
        InsertDescBelow(x, t, s[0].value);
        ConsDescending(s[0], InsertDesc(x, t));
      }
    }
  }

  /** The sorted country counts are in non-increasing order. */
  lemma {:induction false} SortDescendingSorted(s: seq<Slice>)
    ensures Descending(SortDescending(s))
    decreases |s|
  {
    if s != [] {
      SortDescendingSorted(s[1..]);
      InsertDescSorted(s[0], SortDescending(s[1..]));
    }
  }

  /** Sorting only reorders the country counts, so their total is unchanged. */
  lemma {:induction false} SortDescendingPermutes(s: seq<Slice>)
    ensures multiset(SortDescending(s)) == multiset(s)
    ensures ValueSum(SortDescending(s)) == ValueSum(s)
    decreases |s|
  {
    if s != [] {
      SortDescendingPermutes(s[1..]);
      InsertDescPermutes(s[0], SortDescending(s[1..]));
      InsertDescSum(s[0], SortDescending(s[1..]));
      assert s == [s[0]] + s[1..];
    }
  }

  /** `countryData`. */
  function CountryData(data: seq<StorylaneData>, items: seq<StorylaneData>): seq<Slice>
  {
    SortDescending(CountrySlices(UniqueCountries(data), items))
  }

  /** A country's count is the per-key sum of ones over the rows' countries. */
  lemma {:induction false} CountryCountIsSumWhere(items: seq<StorylaneData>, c: string)
    ensures CountryCount(items, c) == SumWhere(Countries(items), seq(|items|, _ => 1), c)
    decreases |items|
  {
    if items != [] {
      var n := |items| - 1;
      CountryCountIsSumWhere(items[..n], c);
      assert items == items[..n] + [items[n]];
      FilterConcat(items[..n], [items[n]], (item: StorylaneData) => item.country == c);
      assert Countries(items) == Countries(items[..n]) + [items[n].country];
      assert seq(|items|, _ => 1) == seq(n, _ => 1) + [1];
      SumWhereSnoc(Countries(items[..n]), seq(n, _ => 1), items[n].country, 1, c);
    }
  }

  lemma {:induction false} CountrySlicesSum(countries: seq<string>, items: seq<StorylaneData>)
    ensures ValueSum(CountrySlices(countries, items)) == SumOver(countries, Countries(items), seq(|items|, _ => 1))
    decreases |countries|
  {
    if countries != [] {
      CountrySlicesSum(countries[1..], items);
      CountryCountIsSumWhere(items, countries[0]);
      assert CountrySlices(countries, items)[1..] == CountrySlices(countries[1..], items);
    }
  }

  lemma {:induction false} SumOfOnes(n: nat)
    ensures Sum(seq(n, _ => 1)) == n
    decreases n
  {
    if n > 0 {
      SumOfOnes(n - 1);
      assert seq(n, _ => 1)[..n - 1] == seq(n - 1, _ => 1);
    }
  }

  /** The country counts are sorted non-increasingly and add up to the filtered
      rows: every filtered row is a row of the data, so its country is listed. */
  lemma CountryDataTotals(data: seq<StorylaneData>, f: Filters, numberText: real -> string)
    ensures Descending(CountryData(data, FilteredData(data, f, numberText)))
    ensures ValueSum(CountryData(data, FilteredData(data, f, numberText))) == |FilteredData(data, f, numberText)|
  {
    var items := FilteredData(data, f, numberText);
    var ds := UniqueCountries(data);
    SortDescendingSorted(CountrySlices(ds, items));
    SortDescendingPermutes(CountrySlices(ds, items));
    CountrySlicesSum(ds, items);
    FirstSeenDistinct(Countries(data));
    forall c | c in Countries(items) ensures c in ds {
      var i :| 0 <= i < |items| && Countries(items)[i] == c;
      FilterMembership(data, item => Keep(f, numberText, item), items[i]);
      var j :| 0 <= j < |data| && data[j] == items[i];
      assert Countries(data)[j] == c;
      FirstSeenMembership(Countries(data), c);
    }
    SumOverGroups(ds, Countries(items), seq(|items|, _ => 1));
    SumOfOnes(|items|);
  }

  /** The metrics the view computes from the filtered rows. */
  datatype Metrics = Metrics(
    avgCompletion: int,
    completionStatus: seq<Slice>,
    countryData: seq<Slice>,
    ctaClicked: nat,
    ctaRate: int,
    ctaClickData: seq<Slice>)

  function MetricsOf(data: seq<StorylaneData>, items: seq<StorylaneData>): Metrics
  {
    Metrics(AvgCompletion(items), CompletionStatus(items), CountryData(data, items),
      CtaClicked(items), CtaRate(items), CtaClickData(items))
  }

  /** `calculateMetrics`. */
  method CalculateMetrics(data: seq<StorylaneData>, items: seq<StorylaneData>) returns (m: Metrics)
    ensures m == MetricsOf(data, items)
  {
    var status := FillCompletionStatus(items);
    m := Metrics(AvgCompletion(items), status, CountryData(data, items),
      CtaClicked(items), CtaRate(items), CtaClickData(items));
  }

  /** What the metrics promise together: buckets and click counts both add up
      to the filtered rows, and the clicks never exceed them. */
  lemma MetricsAddUp(data: seq<StorylaneData>, items: seq<StorylaneData>)
    ensures var m := MetricsOf(data, items);
      && m.completionStatus[0].value + m.completionStatus[1].value
         + m.completionStatus[2].value + m.completionStatus[3].value == |items|
      && m.ctaClicked <= |items|
      && m.ctaClickData[0].value + m.ctaClickData[1].value == |items|
      && (items == [] ==> m.avgCompletion == 0 && m.ctaRate == 0)
      && 0 <= m.ctaRate <= 100
  {
    BucketsPartition(items);
  }
}
