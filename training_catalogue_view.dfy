/** The training catalogue table: its search and drop-down filters, its
    drop-down options, and the rule that relabels the completed column and
    marks webinar rows. Its rows are the catalogue `processData` produces. */
module TrainingCatalogueView {
  import opened Text
  import opened Grouping
  import opened TableFilter
  import opened DataService

  /** `Object.values(item)` of a catalogue row, in the order its fields are built. */
  function Values(row: CatalogueRow): (vs: seq<string>)
    ensures |vs| == 5 && vs[0] == row.customerJourneyPoint && vs[2] == row.trainingType
  {
    [ row.customerJourneyPoint, row.trainingModule, row.trainingType,
      NatText(row.numberOfTimesCourseAttempted), NatText(row.numberOfTimesCourseCompleted) ]
  }

  /** The search term and the two drop-down choices; `""` means "all". */
  datatype Filters = Filters(searchTerm: string, journeyPoint: string, trainingType: string)

  predicate Keep(f: Filters, row: CatalogueRow)
  {
    && MatchesSearch(Values(row), f.searchTerm)
    && MatchesChoice(row.customerJourneyPoint, f.journeyPoint)
    && MatchesChoice(row.trainingType, f.trainingType)
  }

  /** `filteredData`. */
  function FilteredData(data: seq<CatalogueRow>, f: Filters): seq<CatalogueRow>
  {
    Filter(data, row => Keep(f, row))
  }

  /** With no search and no choice every row is shown. */
  lemma NoFiltersShowAll(data: seq<CatalogueRow>)
    ensures FilteredData(data, Filters("", "", "")) == data
  {
    FilterKeepsAll(data, row => Keep(Filters("", "", ""), row));
  }

  /** The rows shown keep their order. */
  lemma FilteredInOrder(data: seq<CatalogueRow>, f: Filters)
    ensures IsSubsequence(FilteredData(data, f), data)
  {
    FilterIsSubsequence(data, row => Keep(f, row));
  }

  /** A row is shown exactly when it has the chosen journey point and type
      (where one is chosen) and its lower-cased values contain the lower-cased term
      (where one is typed). */
  lemma FilteredRows(data: seq<CatalogueRow>, f: Filters, row: CatalogueRow)
    ensures row in FilteredData(data, f) <==>
      && row in data
      && (f.journeyPoint != "" ==> row.customerJourneyPoint == f.journeyPoint)
      && (f.trainingType != "" ==> row.trainingType == f.trainingType)
      && (f.searchTerm != "" ==> Contains(ToLower(Join(Values(row), " ")), ToLower(f.searchTerm)))
  {
    FilterMembership(data, row => Keep(f, row), row);
  }

  /** Typing a row's module name, in any letter case, keeps that row. */
  lemma SearchByModuleFindsRow(data: seq<CatalogueRow>, row: CatalogueRow, term: string)
    requires row in data && ToLower(term) == ToLower(row.trainingModule)
    ensures row in FilteredData(data, Filters(term, "", ""))
  {
    SearchFindsField(Values(row), 1, term);
    FilterMembership(data, row => Keep(Filters(term, "", ""), row), row);
  }

  /** The journey-point drop-down. */
  function JourneyPointOptions(data: seq<CatalogueRow>): seq<string>
  {
    UniqueValues(data, (row: CatalogueRow) => row.customerJourneyPoint)
  }

  /** The training-type drop-down. */
  function TrainingTypeOptions(data: seq<CatalogueRow>): seq<string>
  {
    UniqueValues(data, (row: CatalogueRow) => row.trainingType)
  }

  /** Each drop-down offers every value of its column once, and nothing else. */
  lemma OptionsExact(data: seq<CatalogueRow>, v: string)
    ensures Distinct(JourneyPointOptions(data))
    ensures v in JourneyPointOptions(data) <==> exists i :: 0 <= i < |data| && data[i].customerJourneyPoint == v
    ensures Distinct(TrainingTypeOptions(data))
    ensures v in TrainingTypeOptions(data) <==> exists i :: 0 <= i < |data| && data[i].trainingType == v
  {
    UniqueValuesExact(data, (row: CatalogueRow) => row.customerJourneyPoint, v);
    UniqueValuesExact(data, (row: CatalogueRow) => row.trainingType, v);
  }

  // ---------------------------------------------------------------------------
  // The webinar rule

  const WebinarWord := "webinar"
  const PlainHeader := "Completed"
  const WebinarHeader := "Completed / Enrolled"

  /** `row.trainingType.toLowerCase().includes('webinar')`: the row shows the
      "Webinar Enrollments" chip. */
  predicate IsWebinar(row: CatalogueRow)
  {
    Contains(ToLower(row.trainingType), WebinarWord)
  }

  /** `data.some(isWebinar)`. */
  function AnyWebinar(data: seq<CatalogueRow>): bool
  {
    data != [] && (IsWebinar(data[0]) || AnyWebinar(data[1..]))
  }

  /** The completed column's header. */
  function CompletedHeader(data: seq<CatalogueRow>): string
  {
    if AnyWebinar(data) then WebinarHeader else PlainHeader
  }

  /** The header announces enrolments exactly when some row is a webinar. */
  lemma {:induction false} HeaderRule(data: seq<CatalogueRow>)
    ensures CompletedHeader(data) == WebinarHeader <==> exists i :: 0 <= i < |data| && IsWebinar(data[i])
    ensures CompletedHeader(data) == PlainHeader <==> forall i :: 0 <= i < |data| ==> !IsWebinar(data[i])
    decreases |data|
  {
    if data != [] {
      HeaderRule(data[1..]);
      assert forall i :: 1 <= i < |data| ==> data[i] == data[1..][i - 1];
      if !IsWebinar(data[0]) && AnyWebinar(data[1..]) {
        var i :| 0 <= i < |data[1..]| && IsWebinar(data[1..][i]);
        assert IsWebinar(data[i + 1]);
      }
    }
  }

  /** A row with the chip is always under the enrolment header. */
  lemma ChipImpliesWebinarHeader(data: seq<CatalogueRow>, i: nat)
    requires i < |data| && IsWebinar(data[i])
    ensures CompletedHeader(data) == WebinarHeader
  {
    HeaderRule(data);
  }

  /** The catalogue `processData` builds is all "LMS", so its header is never
      the enrolment one and no row shows the chip. */
  lemma ProcessedCatalogueHasNoWebinar(rs: seq<LmsRecord>)
    ensures CompletedHeader(Catalogue(rs)) == PlainHeader
  {
    var data := Catalogue(rs);
    forall i | 0 <= i < |data| ensures !IsWebinar(data[i]) {
      assert data[i].trainingType == TrainingType;
      assert |ToLower(TrainingType)| < |WebinarWord|;
    }
    HeaderRule(data);
  }
}
