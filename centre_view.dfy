/** The centre table: its search and three drop-down filters over the centre
    breakdown `processData` produces, its drop-down options, and the rows it
    hands to the centre pie chart. */
module CentreView {
  import opened Text
  import opened Grouping
  import opened TableFilter
  import opened DataService
  import CentreProgressChart

  /** `Object.values(item)` of a centre row, in the order its fields are built. */
  function Values(row: CentreRow): (vs: seq<string>)
    ensures |vs| == 7 && vs[1] == row.centreName
  {
    [ row.centreNumber, row.centreName, row.customerJourneyPoint, row.trainingModule,
      row.trainingType, NatText(row.numberOfRolesAvailable), NatText(row.completedTraining) ]
  }

  /** The search term and the three drop-down choices; `""` means "all". */
  datatype Filters = Filters(searchTerm: string, centre: string, journeyPoint: string, trainingType: string)

  predicate Keep(f: Filters, row: CentreRow)
  {
    && MatchesSearch(Values(row), f.searchTerm)
    && MatchesChoice(row.centreName, f.centre)
    && MatchesChoice(row.customerJourneyPoint, f.journeyPoint)
    && MatchesChoice(row.trainingType, f.trainingType)
  }

  /** `filteredData`. */
  function FilteredData(data: seq<CentreRow>, f: Filters): seq<CentreRow>
  {
    Filter(data, row => Keep(f, row))
  }

  /** With no search and no choice every row is shown. */
  lemma NoFiltersShowAll(data: seq<CentreRow>)
    ensures FilteredData(data, Filters("", "", "", "")) == data
  {
    FilterKeepsAll(data, row => Keep(Filters("", "", "", ""), row));
  }

  /** The rows shown keep their order. */
  lemma FilteredInOrder(data: seq<CentreRow>, f: Filters)
    ensures IsSubsequence(FilteredData(data, f), data)
  {
    FilterIsSubsequence(data, row => Keep(f, row));
  }

  /** A row is shown exactly when it matches every choice that is made and,
      when a term is typed, its lower-cased values contain the lower-cased term. */
  lemma FilteredRows(data: seq<CentreRow>, f: Filters, row: CentreRow)
    ensures row in FilteredData(data, f) <==>
      && row in data
      && (f.centre != "" ==> row.centreName == f.centre)
      && (f.journeyPoint != "" ==> row.customerJourneyPoint == f.journeyPoint)
      && (f.trainingType != "" ==> row.trainingType == f.trainingType)
      && (f.searchTerm != "" ==> Contains(ToLower(Join(Values(row), " ")), ToLower(f.searchTerm)))
  {
    FilterMembership(data, row => Keep(f, row), row);
  }

  /** The centre drop-down. */
  function CentreOptions(data: seq<CentreRow>): seq<string>
  {
    UniqueValues(data, (row: CentreRow) => row.centreName)
  }

  /** The journey-point drop-down. */
  function JourneyPointOptions(data: seq<CentreRow>): seq<string>
  {
    UniqueValues(data, (row: CentreRow) => row.customerJourneyPoint)
  }

  /** The training-type drop-down. */
  function TrainingTypeOptions(data: seq<CentreRow>): seq<string>
  {
    UniqueValues(data, (row: CentreRow) => row.trainingType)
  }

  /** Each drop-down offers every value of its column once, and nothing else. */
  lemma OptionsExact(data: seq<CentreRow>, v: string)
    ensures Distinct(CentreOptions(data))
    ensures v in CentreOptions(data) <==> exists i :: 0 <= i < |data| && data[i].centreName == v
    ensures Distinct(JourneyPointOptions(data))
    ensures v in JourneyPointOptions(data) <==> exists i :: 0 <= i < |data| && data[i].customerJourneyPoint == v
    ensures Distinct(TrainingTypeOptions(data))
    ensures v in TrainingTypeOptions(data) <==> exists i :: 0 <= i < |data| && data[i].trainingType == v
  {
    UniqueValuesExact(data, (row: CentreRow) => row.centreName, v);
    UniqueValuesExact(data, (row: CentreRow) => row.customerJourneyPoint, v);
    UniqueValuesExact(data, (row: CentreRow) => row.trainingType, v);
  }

  // ---------------------------------------------------------------------------
  // The rows the pie chart receives

  /** The part of a centre row the chart reads. */
  function ChartRow(row: CentreRow): CentreProgressChart.CentreData
  {
    CentreProgressChart.CentreData(row.centreNumber, row.centreName, row.numberOfRolesAvailable, row.completedTraining)
  }

  function ChartRows(rows: seq<CentreRow>): (cs: seq<CentreProgressChart.CentreData>)
    ensures |cs| == |rows|
  {
    seq(|rows|, i requires 0 <= i < |rows| => ChartRow(rows[i]))
  }

  /** With a centre chosen, the corrected pie chart shows at most one slice, for
      that centre. */
  lemma ChosenCentreGivesOneSlice(data: seq<CentreRow>, f: Filters)
    requires f.centre != ""
    ensures var slices := CentreProgressChart.CentreProgress(ChartRows(FilteredData(data, f)));
      |slices| <= 1 && forall e :: e in slices ==> e.name == f.centre
  {
    var shown := FilteredData(data, f);
    forall i | 0 <= i < |shown| ensures ChartRows(shown)[i].centreName == f.centre {
      FilterMembership(data, row => Keep(f, row), shown[i]);
    }
    CentreProgressChart.OneNameOneEntry(ChartRows(shown), f.centre);
  }

  /** The chart as written never merges, so with a centre chosen it draws one
      slice per shown row, each named after that centre. */
  lemma ChosenCentreAsWritten(data: seq<CentreRow>, f: Filters)
    requires f.centre != ""
    ensures var shown := FilteredData(data, f);
      var slices := CentreProgressChart.Regroup(ChartRows(shown), CentreProgressChart.AsWrittenKey);
      && |slices| == |shown|
      && forall i :: 0 <= i < |slices| ==> slices[i].name == f.centre
  {
    var shown := FilteredData(data, f);
    CentreProgressChart.AsWrittenNeverMerges(ChartRows(shown));
    forall i | 0 <= i < |shown| ensures shown[i].centreName == f.centre {
      FilterMembership(data, row => Keep(f, row), shown[i]);
    }
  }
}
