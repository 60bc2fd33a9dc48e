/** The centre user table: its search and four drop-down filters over the user
    list `processData` produces, and its drop-down options. */
module CentreUserView {
  import opened Text
  import opened Grouping
  import opened TableFilter
  import opened DataService

  /** `Object.values(item)` of a user row, in the order its fields are built. */
  function Values(row: CentreUserRow): (vs: seq<string>)
    ensures |vs| == 8 && vs[5] == row.userEmailAddress
  {
    [ row.centreNumber, row.centreName, row.customerJourneyPoint, row.trainingModule,
      row.trainingType, row.userEmailAddress,
      NatText(row.startedTraining), NatText(row.completedTraining) ]
  }

  /** The search term and the four drop-down choices; `""` means "all". */
  datatype Filters = Filters(
    searchTerm: string,
    centre: string,
    journeyPoint: string,
    trainingType: string,
    email: string)

  predicate Keep(f: Filters, row: CentreUserRow)
  {
    && MatchesSearch(Values(row), f.searchTerm)
    && MatchesChoice(row.centreName, f.centre)
    && MatchesChoice(row.customerJourneyPoint, f.journeyPoint)
    && MatchesChoice(row.trainingType, f.trainingType)
    && MatchesChoice(row.userEmailAddress, f.email)
  }

  /** `filteredData`. */
  function FilteredData(data: seq<CentreUserRow>, f: Filters): seq<CentreUserRow>
  {
    Filter(data, row => Keep(f, row))
  }

  /** With no search and no choice every row is shown. */
  lemma NoFiltersShowAll(data: seq<CentreUserRow>)
    ensures FilteredData(data, Filters("", "", "", "", "")) == data
  {
    FilterKeepsAll(data, row => Keep(Filters("", "", "", "", ""), row));
  }

  /** The rows shown keep their order. */
  lemma FilteredInOrder(data: seq<CentreUserRow>, f: Filters)
    ensures IsSubsequence(FilteredData(data, f), data)
  {
    FilterIsSubsequence(data, row => Keep(f, row));
  }

  /** A row is shown exactly when it matches every choice that is made and,
      when a term is typed, its lower-cased values contain the lower-cased term. */
  lemma FilteredRows(data: seq<CentreUserRow>, f: Filters, row: CentreUserRow)
    ensures row in FilteredData(data, f) <==>
      && row in data
      && (f.centre != "" ==> row.centreName == f.centre)
      && (f.journeyPoint != "" ==> row.customerJourneyPoint == f.journeyPoint)
      && (f.trainingType != "" ==> row.trainingType == f.trainingType)
      && (f.email != "" ==> row.userEmailAddress == f.email)
      && (f.searchTerm != "" ==> Contains(ToLower(Join(Values(row), " ")), ToLower(f.searchTerm)))
  {
    FilterMembership(data, row => Keep(f, row), row);
  }

  /** `g` sets every filter `f` sets, to the same value, and possibly more. */
  predicate Refines(g: Filters, f: Filters)
  {
    && (f.searchTerm == "" || g.searchTerm == f.searchTerm)
    && (f.centre == "" || g.centre == f.centre)
    && (f.journeyPoint == "" || g.journeyPoint == f.journeyPoint)
    && (f.trainingType == "" || g.trainingType == f.trainingType)
    && (f.email == "" || g.email == f.email)
  }

  /** Setting another filter never shows more rows: what is shown is a
      subsequence of what was shown before. */
  lemma MoreFiltersShowFewer(data: seq<CentreUserRow>, f: Filters, g: Filters)
    requires Refines(g, f)
    ensures IsSubsequence(FilteredData(data, g), FilteredData(data, f))
    ensures |FilteredData(data, g)| <= |FilteredData(data, f)|
  {
    FilterNarrower(data, row => Keep(g, row), row => Keep(f, row));
  }

  /** The centre drop-down. */
  function CentreOptions(data: seq<CentreUserRow>): seq<string>
  {
    UniqueValues(data, (row: CentreUserRow) => row.centreName)
  }

  /** The journey-point drop-down. */
  function JourneyPointOptions(data: seq<CentreUserRow>): seq<string>
  {
    UniqueValues(data, (row: CentreUserRow) => row.customerJourneyPoint)
  }

  /** The training-type drop-down. */
  function TrainingTypeOptions(data: seq<CentreUserRow>): seq<string>
  {
    UniqueValues(data, (row: CentreUserRow) => row.trainingType)
  }

  /** The email drop-down. */
  function EmailOptions(data: seq<CentreUserRow>): seq<string>
  {
    UniqueValues(data, (row: CentreUserRow) => row.userEmailAddress)
  }

  /** Each drop-down offers every value of its column once, and nothing else. */
  lemma OptionsExact(data: seq<CentreUserRow>, v: string)
    ensures Distinct(CentreOptions(data))
    ensures v in CentreOptions(data) <==> exists i :: 0 <= i < |data| && data[i].centreName == v
    ensures Distinct(JourneyPointOptions(data))
    ensures v in JourneyPointOptions(data) <==> exists i :: 0 <= i < |data| && data[i].customerJourneyPoint == v
    ensures Distinct(TrainingTypeOptions(data))
    ensures v in TrainingTypeOptions(data) <==> exists i :: 0 <= i < |data| && data[i].trainingType == v
    ensures Distinct(EmailOptions(data))
    ensures v in EmailOptions(data) <==> exists i :: 0 <= i < |data| && data[i].userEmailAddress == v
  {
    UniqueValuesExact(data, (row: CentreUserRow) => row.centreName, v);
    UniqueValuesExact(data, (row: CentreUserRow) => row.customerJourneyPoint, v);
    UniqueValuesExact(data, (row: CentreUserRow) => row.trainingType, v);
    UniqueValuesExact(data, (row: CentreUserRow) => row.userEmailAddress, v);
  }

  /** Every user row `processData` builds carries the placeholder address, so
      the email drop-down offers that one address, or nothing when there are no records. */
  lemma ProcessedUsersShareOneEmail(rs: seq<LmsRecord>)
    ensures EmailOptions(UserRows(rs)) == if rs == [] then [] else [PlaceholderEmail]
  {
    var data := UserRows(rs);
    FirstSeenConstant(ColumnOf(data, (row: CentreUserRow) => row.userEmailAddress), PlaceholderEmail);
  }
}
