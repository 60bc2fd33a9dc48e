/** The date-range picker: a preset selector whose handlers set the start and
    end date and report each new pair to the parent, a custom range whose
    pickers offer the available dates in ascending order, and an end-date list
    that hides dates before the start.

    The clock (`new Date()` and the dates 30 and 90 days before it, written
    `YYYY-MM-DD`) is a parameter; dates are compared as `YYYY-MM-DD` strings. */
module DateRangeFilter {
  import opened Text
  import opened TableFilter

  // ---------------------------------------------------------------------------
  // `[...availableDates].sort()`

  /** Ascending in the default `sort()` order. */
  predicate Sorted(s: seq<string>)
  {
    forall i, j :: 0 <= i < j < |s| ==> LexLe(s[i], s[j])
  }

  /** `x` placed into an ascending sequence before the first element not below it. */
  function Insert(x: string, s: seq<string>): seq<string>
  {
    if s == [] then [x]
    else if LexLe(x, s[0]) then [x] + s
    else [s[0]] + Insert(x, s[1..])
  }

  /** The sorted copy of the dates; the argument is a value, so it is left as it was. */
  function SortDates(s: seq<string>): seq<string>
  {
    if s == [] then [] else Insert(s[0], SortDates(s[1..]))
  }

  lemma {:induction false} InsertPermutes(x: string, s: seq<string>)
    ensures multiset(Insert(x, s)) == multiset(s) + multiset{x}
    decreases |s|
  {
    if s != [] && !LexLe(x, s[0]) {
      InsertPermutes(x, s[1..]);
      assert s == [s[0]] + s[1..];
    }
  }

  /** A date not above any element of an ascending sequence can lead it. */
  lemma ConsSorted(h: string, t: seq<string>)
    requires Sorted(t)
    requires forall k :: 0 <= k < |t| ==> LexLe(h, t[k])
    ensures Sorted([h] + t)
  {
    var r := [h] + t;
    forall i, j | 0 <= i < j < |r| ensures LexLe(r[i], r[j]) {
      if i == 0 {
        assert r[j] == t[j - 1];
      } else {
        assert r[i] == t[i - 1] && r[j] == t[j - 1];
      }
    }
  }

  /** Inserting keeps a common lower bound. */
  lemma {:induction false} InsertAbove(x: string, s: seq<string>, lo: string)
    requires LexLe(lo, x)
    requires forall k :: 0 <= k < |s| ==> LexLe(lo, s[k])
    ensures forall k :: 0 <= k < |Insert(x, s)| ==> LexLe(lo, Insert(x, s)[k])
    decreases |s|
  {
    if s != [] {
      var r := Insert(x, s);
      if LexLe(x, s[0]) {
        forall k | 0 < k < |r| ensures LexLe(lo, r[k]) {
          assert r[k] == s[k - 1];
        }
      } else {
        InsertAbove(x, s[1..], lo);
        forall k | 0 < k < |r| ensures LexLe(lo, r[k]) {
          assert r[k] == Insert(x, s[1..])[k - 1];
        }
      }
    }
  }

  lemma {:induction false} InsertSorted(x: string, s: seq<string>)
    requires Sorted(s)
    ensures Sorted(Insert(x, s))
    decreases |s|
  {
    if s != [] {
      if LexLe(x, s[0]) {
        forall k | 0 < k < |s| ensures LexLe(x, s[k]) {
          LexLeTransitive(x, s[0], s[k]);
        }
        ConsSorted(x, s);
      } else {
        var t := s[1..];
        assert forall k :: 0 <= k < |t| ==> t[k] == s[k + 1];
        InsertSorted(x, t);
        LexLeTotal(x, s[0]);
        InsertAbove(x, t, s[0]);
        ConsSorted(s[0], Insert(x, t));
      }
    }
  }

  /** `sortedDates` is an ascending permutation of the available dates. */
  lemma {:induction false} SortDatesCorrect(s: seq<string>)
    ensures Sorted(SortDates(s))
    ensures multiset(SortDates(s)) == multiset(s)
    decreases |s|
  {
    if s != [] {
      SortDatesCorrect(s[1..]);
      InsertSorted(s[0], SortDates(s[1..]));
      InsertPermutes(s[0], SortDates(s[1..]));
      assert s == [s[0]] + s[1..];
    }
  }

  // ---------------------------------------------------------------------------
  // The presets

  const All := "all"
  const Last30 := "last30"
  const Last90 := "last90"
  const ThisYear := "thisYear"
  const LastYear := "lastYear"
  const Custom := "custom"

  /** What the clock reads when a handler runs. */
  datatype Clock = Clock(year: int, today: string, thirtyDaysAgo: string, ninetyDaysAgo: string)

  /** A start and end date, `""` meaning unbounded. */
  datatype Range = Range(start: string, end: string)

  /** `${year}-01-01` and `${year}-12-31`. */
  function NewYear(year: int): string { IntText(year) + "-01-01" }
  function NewYearsEve(year: int): string { IntText(year) + "-12-31" }

  /** The range a preset selects. */
  function PresetRange(value: string, clock: Clock, sortedDates: seq<string>): Range
  {
    if value == All then Range("", "")
    else if value == Last30 then Range(clock.thirtyDaysAgo, clock.today)
    else if value == Last90 then Range(clock.ninetyDaysAgo, clock.today)
    else if value == ThisYear then Range(NewYear(clock.year), clock.today)
    else if value == LastYear then Range(NewYear(clock.year - 1), NewYearsEve(clock.year - 1))
    else if value == Custom then
      if |sortedDates| > 0 then Range(sortedDates[0], sortedDates[|sortedDates| - 1]) else Range("", "")
    else Range("", "")
  }

  /** "All time" and any unknown value lift both bounds. */
  lemma AllIsUnbounded(clock: Clock, dates: seq<string>, value: string)
    requires value !in {Last30, Last90, ThisYear, LastYear, Custom}
    ensures PresetRange(value, clock, SortDates(dates)) == Range("", "")
  {
  }

  /** "Last year" runs from the first to the last day of the previous calendar
      year, start before end; "this year" runs from the first of January to today. */
  lemma YearPresets(clock: Clock, dates: seq<string>)
    ensures var r := PresetRange(LastYear, clock, SortDates(dates));
      && r.start == IntText(clock.year - 1) + "-01-01"
      && r.end == IntText(clock.year - 1) + "-12-31"
      && LexLe(r.start, r.end)
    ensures PresetRange(ThisYear, clock, SortDates(dates)) == Range(IntText(clock.year) + "-01-01", clock.today)
  {
    assert LexLe("-01-01", "-12-31") by {
      LexLeAt("-01-01", "-12-31", 1);
    }
    LexLePrefix(IntText(clock.year - 1), "-01-01", "-12-31");
  }

  /** The custom preset spans the available dates: it starts at the earliest and
      ends at the latest, both of them available, or is unbounded when there are none. */
  lemma CustomSpansDates(clock: Clock, dates: seq<string>)
    ensures var r := PresetRange(Custom, clock, SortDates(dates));
      && (dates == [] ==> r == Range("", ""))
      && (dates != [] ==> r.start in dates && r.end in dates)
      && (forall d :: d in dates ==> LexLe(r.start, d) && LexLe(d, r.end))
  {
    var sorted := SortDates(dates);
    SortDatesCorrect(dates);
    if dates != [] {
      assert |sorted| == |dates| by {
        assert |multiset(sorted)| == |multiset(dates)|;
      }
      assert sorted[0] in multiset(sorted) && sorted[|sorted| - 1] in multiset(sorted);
      forall d | d in dates ensures LexLe(sorted[0], d) && LexLe(d, sorted[|sorted| - 1]) {
        assert d in multiset(sorted);
        var k :| 0 <= k < |sorted| && sorted[k] == d;
        if k != 0 { assert LexLe(sorted[0], sorted[k]); } else { LexLeReflexive(d); }
        if k != |sorted| - 1 { assert LexLe(sorted[k], sorted[|sorted| - 1]); } else { LexLeReflexive(d); }
      }
    } else {
      assert |sorted| == 0 by {
        assert |multiset(sorted)| == |multiset(dates)|;
      }
    }
  }

  // ---------------------------------------------------------------------------
  // The component's state

  class DateRangeFilter {
    /** The dates the parent passes in. */
    const availableDates: seq<string>
    var preset: string
    var startDate: string
    var endDate: string
    var showCustomRange: bool
    /** Every pair handed to `onDateFilterChange`, oldest first. */
    var reports: seq<Range>

    /** The pickers show only for the custom preset, and the last pair reported
        is the one the component holds. */
    ghost predicate Valid()
      reads this
    {
      && (showCustomRange <==> preset == Custom)
      && (reports != [] ==> reports[|reports| - 1] == Range(startDate, endDate))
    }

    /** `sortedDates`. */
    function SortedDates(): seq<string>
      reads this
    {
      SortDates(availableDates)
    }

    constructor(availableDates: seq<string>)
      ensures Valid()
      ensures this.availableDates == availableDates
      ensures preset == Last30 && startDate == "" && endDate == ""
      ensures !showCustomRange && reports == []
    {
      this.availableDates := availableDates;
      preset := Last30;
      startDate := "";
      endDate := "";
      showCustomRange := false;
      reports := [];
    }

    /** The effect on mount: with dates available and the default preset, the
        last 30 days are selected and reported. */
    method Mount(clock: Clock)
      requires Valid()
      modifies this
      ensures Valid()
      ensures preset == old(preset) && showCustomRange == old(showCustomRange)
      ensures |availableDates| > 0 && preset == Last30 ==>
        && Range(startDate, endDate) == Range(clock.thirtyDaysAgo, clock.today)
        && reports == old(reports) + [Range(startDate, endDate)]
      ensures !(|availableDates| > 0 && preset == Last30) ==>
        startDate == old(startDate) && endDate == old(endDate) && reports == old(reports)
    {
      if |availableDates| > 0 && preset == Last30 {
        var newStartDate := clock.thirtyDaysAgo;
        var newEndDate := clock.today;
        startDate := newStartDate;
        endDate := newEndDate;
        reports := reports + [Range(newStartDate, newEndDate)];
      }
    }

    /** `handlePresetChange`: select a preset, store its range and report it. */
    method HandlePresetChange(value: string, clock: Clock)
      requires Valid()
      modifies this
      ensures Valid()
      ensures preset == value
      ensures Range(startDate, endDate) == PresetRange(value, clock, SortedDates())
      ensures showCustomRange == (value == Custom)
      ensures reports == old(reports) + [Range(startDate, endDate)]
    {
      preset := value;
      var newStartDate := "";
      var newEndDate := "";
      var sortedDates := SortDates(availableDates);
      if value == All {
        newStartDate := "";
        newEndDate := "";
        showCustomRange := false;
      } else if value == Last30 {
        newStartDate := clock.thirtyDaysAgo;
        newEndDate := clock.today;
        showCustomRange := false;
      } else if value == Last90 {
        newStartDate := clock.ninetyDaysAgo;
        newEndDate := clock.today;
        showCustomRange := false;
      } else if value == ThisYear {
        newStartDate := NewYear(clock.year);
        newEndDate := clock.today;
        showCustomRange := false;
      } else if value == LastYear {
        newStartDate := NewYear(clock.year - 1);
        newEndDate := NewYearsEve(clock.year - 1);
        showCustomRange := false;
      } else if value == Custom {
        showCustomRange := true;
        if |sortedDates| > 0 {
          newStartDate := sortedDates[0];
          newEndDate := sortedDates[|sortedDates| - 1];
        }
      } else {
        showCustomRange := false;
      }
      startDate := newStartDate;
      endDate := newEndDate;
      reports := reports + [Range(newStartDate, newEndDate)];
    }

    /** `handleStartDateChange`: the end stays, the new pair is reported. */
    method HandleStartDateChange(newStartDate: string)
      requires Valid()
      modifies this
      ensures Valid()
      ensures startDate == newStartDate && endDate == old(endDate)
      ensures preset == old(preset) && showCustomRange == old(showCustomRange)
      ensures reports == old(reports) + [Range(newStartDate, old(endDate))]
    {
      startDate := newStartDate;
      reports := reports + [Range(newStartDate, endDate)];
    }

    /** `handleEndDateChange`: the start stays, the new pair is reported. */
    method HandleEndDateChange(newEndDate: string)
      requires Valid()
      modifies this
      ensures Valid()
      ensures endDate == newEndDate && startDate == old(startDate)
      ensures preset == old(preset) && showCustomRange == old(showCustomRange)
      ensures reports == old(reports) + [Range(old(startDate), newEndDate)]
    {
      endDate := newEndDate;
      reports := reports + [Range(startDate, endDate)];
    }

    /** The end-date picker's options. */
    function EndDateOptions(): seq<string>
      reads this
    {
      EndOptions(SortedDates(), startDate)
    }
  }

  /** The lower bound the end-date picker applies: the start, or the earliest possible date. */
  const EarliestDate := "0000-01-01"

  function LowerBound(startDate: string): string
  {
    if startDate == "" then EarliestDate else startDate
  }

  /** `sortedDates.filter(date => date >= (startDate || '0000-01-01'))`. */
  function EndOptions(sortedDates: seq<string>, startDate: string): seq<string>
  {
    Filter(sortedDates, d => LexLe(LowerBound(startDate), d))
  }

  lemma {:induction false} FilterKeepsSorted(s: seq<string>, keep: string -> bool)
    requires Sorted(s)
    ensures Sorted(Filter(s, keep))
    decreases |s|
  {
    if s != [] {
      FilterKeepsSorted(s[1..], keep);
      var t := Filter(s[1..], keep);
      if keep(s[0]) {
        var r := [s[0]] + t;
        forall k | 0 <= k < |t| ensures LexLe(s[0], t[k]) {
          FilterMembership(s[1..], keep, t[k]);
          var m :| 0 <= m < |s[1..]| && s[1..][m] == t[k];
          assert s[m + 1] == t[k];
        }
        forall i, j | 0 <= i < j < |r| ensures LexLe(r[i], r[j]) {
          if i == 0 {
            assert r[j] == t[j - 1];
          } else {
            assert r[i] == t[i - 1] && r[j] == t[j - 1];
          }
        }
      }
    }
  }

  /** The end-date options are the available dates not before the start, in
      ascending order. */
  lemma EndOptionsExact(dates: seq<string>, startDate: string, d: string)
    ensures Sorted(EndOptions(SortDates(dates), startDate))
    ensures d in EndOptions(SortDates(dates), startDate) <==> d in dates && LexLe(LowerBound(startDate), d)
  {
    SortDatesCorrect(dates);
    FilterKeepsSorted(SortDates(dates), d => LexLe(LowerBound(startDate), d));
    FilterMembership(SortDates(dates), d => LexLe(LowerBound(startDate), d), d);
    assert d in SortDates(dates) <==> d in multiset(SortDates(dates));
  }

  /** With no start chosen every available date is offered, as long as the
      dates are written `YYYY-MM-DD`. */
  lemma NoStartOffersAll(dates: seq<string>)
    requires forall i :: 0 <= i < |dates| ==> IsIsoDate(dates[i])
    ensures EndOptions(SortDates(dates), "") == SortDates(dates)
  {
    var sorted := SortDates(dates);
    SortDatesCorrect(dates);
    forall k | 0 <= k < |sorted| ensures LexLe(LowerBound(""), sorted[k]) {
      assert sorted[k] in multiset(dates);
      var m :| 0 <= m < |dates| && dates[m] == sorted[k];
      EarliestDateIsLeast(dates[m]);
    }
    FilterKeepsAll(sorted, d => LexLe(LowerBound(""), d));
  }
}
