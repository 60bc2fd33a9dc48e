/** The LMS aggregation of `DataService.processData`: parsed LMS rows are folded
    into a course catalogue, a per-(centre, course) breakdown and a per-record
    user list. The specification functions state each result by counting; the
    class method builds it with the two map-filling loops of the source. */
module DataService {
  import opened Grouping
  import opened OrderedMaps

  /** One row of the LMS feed, one field per CSV column. */
  datatype LmsRecord = LmsRecord(
    course: string,
    enrollmentDate: string,
    startedDate: string,
    completionDate: string,
    status: string,
    progress: string,
    timeSpentMinutes: string,
    quizScore: string,
    centreNumber: string,
    centreCountry: string,
    completionComment: string)

  /** One row of the demo-engagement feed, one field per CSV column. */
  datatype StorylaneRecord = StorylaneRecord(
    demo: string,
    link: string,
    lastView: string,
    totalTime: string,
    stepsCompleted: string,
    percentComplete: string,
    openedCta: string,
    country: string)

  datatype CatalogueRow = CatalogueRow(
    customerJourneyPoint: string,
    trainingModule: string,
    trainingType: string,
    numberOfTimesCourseAttempted: nat,
    numberOfTimesCourseCompleted: nat)

  datatype CentreRow = CentreRow(
    centreNumber: string,
    centreName: string,
    customerJourneyPoint: string,
    trainingModule: string,
    trainingType: string,
    numberOfRolesAvailable: nat,
    completedTraining: nat)

  datatype CentreUserRow = CentreUserRow(
    centreNumber: string,
    centreName: string,
    customerJourneyPoint: string,
    trainingModule: string,
    trainingType: string,
    userEmailAddress: string,
    startedTraining: nat,
    completedTraining: nat)

  datatype ProcessedData = ProcessedData(
    trainingCatalogue: seq<CatalogueRow>,
    centreData: seq<CentreRow>,
    centreUserData: seq<CentreUserRow>)

  /** The constant columns every output row carries. */
  const JourneyPoint := "Training"
  const TrainingType := "LMS"
  const PlaceholderEmail := "user@example.com"

  // ---------------------------------------------------------------------------
  // What is counted

  /** The column records are grouped by. */
  datatype Field = Course | CentreNumber

  function KeyOf(f: Field, r: LmsRecord): string
  {
    match f
    case Course => r.course
    case CentreNumber => r.centreNumber
  }

  /** Which records a counter counts: all of them, those with a started date,
      or those with a completion date (a non-empty string is truthy). */
  datatype Measure = EveryRecord | Started | Completed

  function Weight(m: Measure, r: LmsRecord): (w: nat)
    ensures w <= 1
  {
    match m
    case EveryRecord => 1
    case Started => if r.startedDate != "" then 1 else 0
    case Completed => if r.completionDate != "" then 1 else 0
  }

  /** The column `f` of the records. */
  function Keys(rs: seq<LmsRecord>, f: Field): (ks: seq<string>)
    ensures |ks| == |rs|
  {
    if rs == [] then [] else Keys(rs[..|rs| - 1], f) + [KeyOf(f, rs[|rs| - 1])]
  }

  /** The 0/1 column of the measure `m` over the records. */
  function Weights(rs: seq<LmsRecord>, m: Measure): (ws: seq<nat>)
    ensures |ws| == |rs|
  {
    if rs == [] then [] else Weights(rs[..|rs| - 1], m) + [Weight(m, rs[|rs| - 1])]
  }

  lemma {:induction false} KeyAt(rs: seq<LmsRecord>, f: Field, i: nat)
    requires i < |rs|
    ensures Keys(rs, f)[i] == KeyOf(f, rs[i])
    decreases |rs|
  {
    var n := |rs| - 1;
    if i < n {
      KeyAt(rs[..n], f, i);
    }
  }

  /** How many records with key `k` in column `f` the measure `m` counts. */
  function Tally(rs: seq<LmsRecord>, f: Field, k: string, m: Measure): nat
  {
    if rs == [] then 0
    else
      var n := |rs| - 1;
      Tally(rs[..n], f, k, m) + (if KeyOf(f, rs[n]) == k then Weight(m, rs[n]) else 0)
  }

  /** How many records the measure `m` counts. */
  function Total(rs: seq<LmsRecord>, m: Measure): nat
  {
    Sum(Weights(rs, m))
  }

  /** The records of centre `cn`, in input order. */
  function AtCentre(rs: seq<LmsRecord>, cn: string): (g: seq<LmsRecord>)
    ensures forall i :: 0 <= i < |g| ==> g[i].centreNumber == cn
    ensures |g| <= |rs|
  {
    if rs == [] then []
    else
      var n := |rs| - 1;
      AtCentre(rs[..n], cn) + (if rs[n].centreNumber == cn then [rs[n]] else [])
  }

  /** The Centre Country of the first record of centre `cn`. */
  function FirstCountry(rs: seq<LmsRecord>, cn: string): string
    requires cn in Keys(rs, CentreNumber)
  {
    rs[FirstIndex(Keys(rs, CentreNumber), cn)].centreCountry
  }

  // ---------------------------------------------------------------------------
  // The three results, stated by counting

  function CatalogueRowOf(rs: seq<LmsRecord>, course: string): CatalogueRow
  {
    CatalogueRow(JourneyPoint, course, TrainingType,
      Tally(rs, Course, course, Started), Tally(rs, Course, course, Completed))
  }

  function CatalogueRowsFor(rs: seq<LmsRecord>, courses: seq<string>): (rows: seq<CatalogueRow>)
    ensures |rows| == |courses|
  {
    seq(|courses|, j requires 0 <= j < |courses| => CatalogueRowOf(rs, courses[j]))
  }

  /** One catalogue row per distinct course, in order of first appearance. */
  function Catalogue(rs: seq<LmsRecord>): seq<CatalogueRow>
  {
    CatalogueRowsFor(rs, FirstSeen(Keys(rs, Course)))
  }

  function CentreRowOf(rs: seq<LmsRecord>, cn: string, course: string): CentreRow
    requires cn in Keys(rs, CentreNumber)
  {
    var g := AtCentre(rs, cn);
    CentreRow(cn, FirstCountry(rs, cn), JourneyPoint, course, TrainingType,
      Tally(g, Course, course, EveryRecord), Tally(g, Course, course, Completed))
  }

  function CentreRowsOf(rs: seq<LmsRecord>, cn: string, courses: seq<string>): (rows: seq<CentreRow>)
    requires cn in Keys(rs, CentreNumber)
    ensures |rows| == |courses|
  {
    seq(|courses|, j requires 0 <= j < |courses| => CentreRowOf(rs, cn, courses[j]))
  }

  /** The rows of one centre: one per distinct course among its records. */
  function CentreGroup(rs: seq<LmsRecord>, cn: string): seq<CentreRow>
    requires cn in Keys(rs, CentreNumber)
  {
    CentreRowsOf(rs, cn, FirstSeen(Keys(AtCentre(rs, cn), Course)))
  }

  function CentreRowsFor(rs: seq<LmsRecord>, cns: seq<string>): seq<CentreRow>
    requires forall cn :: cn in cns ==> cn in Keys(rs, CentreNumber)
  {
    if cns == [] then [] else CentreGroup(rs, cns[0]) + CentreRowsFor(rs, cns[1..])
  }

  /** The centre groups, centres in order of first appearance. */
  function CentreRows(rs: seq<LmsRecord>): seq<CentreRow>
  {
    var cns := FirstSeen(Keys(rs, CentreNumber));
    FirstSeenMembershipAll(Keys(rs, CentreNumber));
    CentreRowsFor(rs, cns)
  }

  /** The user row of one record: its started and completed flags are 1 exactly
      when the corresponding date is present. */
  function UserRow(r: LmsRecord): (u: CentreUserRow)
    ensures u.centreNumber == r.centreNumber && u.centreName == r.centreCountry
    ensures u.trainingModule == r.course
    ensures u.startedTraining <= 1 && (u.startedTraining == 1 <==> r.startedDate != "")
    ensures u.completedTraining <= 1 && (u.completedTraining == 1 <==> r.completionDate != "")
  {
    CentreUserRow(r.centreNumber, r.centreCountry, JourneyPoint, r.course, TrainingType,
      PlaceholderEmail, if r.startedDate != "" then 1 else 0, if r.completionDate != "" then 1 else 0)
  }

  function UserRows(rs: seq<LmsRecord>): (us: seq<CentreUserRow>)
    ensures |us| == |rs|
  {
    seq(|rs|, i requires 0 <= i < |rs| => UserRow(rs[i]))
  }

  function Processed(rs: seq<LmsRecord>): ProcessedData
  {
    ProcessedData(Catalogue(rs), CentreRows(rs), UserRows(rs))
  }

  lemma FirstSeenMembershipAll(s: seq<string>)
    ensures forall x :: x in FirstSeen(s) <==> x in s
  {
    forall x ensures x in FirstSeen(s) <==> x in s {
      FirstSeenMembership(s, x);
    }
  }

  // ---------------------------------------------------------------------------
  // The accumulators and the projection of lines 141-172

  datatype CourseTally = CourseTally(attempted: nat, completed: nat)
  datatype RoleTally = RoleTally(available: nat, completed: nat)
  datatype CentreEntry = CentreEntry(centreName: string, modules: OrderedMap<RoleTally>)

  function ProjectCatalogue(keys: seq<string>, tallies: map<string, CourseTally>): (rows: seq<CatalogueRow>)
    requires forall k :: k in keys ==> k in tallies
    ensures |rows| == |keys|
  {
    if keys == [] then []
    else
      var t := tallies[keys[0]];
      [CatalogueRow(JourneyPoint, keys[0], TrainingType, t.attempted, t.completed)]
        + ProjectCatalogue(keys[1..], tallies)
  }

  function ProjectModules(cn: string, name: string, keys: seq<string>, modules: map<string, RoleTally>): (rows: seq<CentreRow>)
    requires forall k :: k in keys ==> k in modules
    ensures |rows| == |keys|
  {
    if keys == [] then []
    else
      var t := modules[keys[0]];
      [CentreRow(cn, name, JourneyPoint, keys[0], TrainingType, t.available, t.completed)]
        + ProjectModules(cn, name, keys[1..], modules)
  }

  ghost predicate EntriesListed(keys: seq<string>, centres: map<string, CentreEntry>)
  {
    forall k :: k in keys ==> k in centres && centres[k].modules.Valid()
  }

  function ProjectCentres(keys: seq<string>, centres: map<string, CentreEntry>): seq<CentreRow>
    requires EntriesListed(keys, centres)
  {
    if keys == [] then []
    else
      var e := centres[keys[0]];
      ProjectModules(keys[0], e.centreName, e.modules.keys, e.modules.values)
        + ProjectCentres(keys[1..], centres)
  }

  // ---------------------------------------------------------------------------
  // What the loops keep

  /** Every stored course tally holds the course's counts over `rs`. */
  ghost predicate CourseValuesAgree(values: map<string, CourseTally>, rs: seq<LmsRecord>)
  {
    forall c :: c in values ==>
      values[c] == CourseTally(Tally(rs, Course, c, Started), Tally(rs, Course, c, Completed))
  }

  ghost predicate CourseTalliesAgree(m: OrderedMap<CourseTally>, rs: seq<LmsRecord>)
  {
    m.Valid() && m.keys == FirstSeen(Keys(rs, Course)) && CourseValuesAgree(m.values, rs)
  }

  /** Every stored role tally holds the course's counts over the centre's records `g`. */
  ghost predicate RoleValuesAgree(values: map<string, RoleTally>, g: seq<LmsRecord>)
  {
    forall c :: c in values ==>
      values[c] == RoleTally(Tally(g, Course, c, EveryRecord), Tally(g, Course, c, Completed))
  }

  ghost predicate RoleTalliesAgree(m: OrderedMap<RoleTally>, g: seq<LmsRecord>)
  {
    m.Valid() && m.keys == FirstSeen(Keys(g, Course)) && RoleValuesAgree(m.values, g)
  }

  ghost predicate CentreEntryAgrees(e: CentreEntry, rs: seq<LmsRecord>, cn: string)
  {
    && cn in Keys(rs, CentreNumber)
    && e.centreName == FirstCountry(rs, cn)
    && RoleTalliesAgree(e.modules, AtCentre(rs, cn))
  }

  ghost predicate CentresAgree(m: OrderedMap<CentreEntry>, rs: seq<LmsRecord>)
  {
    && m.Valid()
    && m.keys == FirstSeen(Keys(rs, CentreNumber))
    && forall cn :: cn in m.values ==> CentreEntryAgrees(m.values[cn], rs, cn)
  }

  lemma KeysSnoc(rs: seq<LmsRecord>, r: LmsRecord, f: Field)
    ensures Keys(rs + [r], f) == Keys(rs, f) + [KeyOf(f, r)]
  {
    assert (rs + [r])[..|rs|] == rs;
  }

  lemma TallySnoc(rs: seq<LmsRecord>, r: LmsRecord, f: Field, k: string, m: Measure)
    ensures Tally(rs + [r], f, k, m) == Tally(rs, f, k, m) + (if KeyOf(f, r) == k then Weight(m, r) else 0)
  {
    assert (rs + [r])[..|rs|] == rs;
  }

  /** A key that no record carries has a zero tally. */
  lemma {:induction false} TallyAbsent(rs: seq<LmsRecord>, f: Field, k: string, m: Measure)
    requires k !in Keys(rs, f)
    ensures Tally(rs, f, k, m) == 0
    decreases |rs|
  {
    if rs != [] {
      var n := |rs| - 1;
      KeysSnoc(rs[..n], rs[n], f);
      assert rs == rs[..n] + [rs[n]];
      TallyAbsent(rs[..n], f, k, m);
    }
  }

  /** A tally is the per-key sum of the key and weight columns. */
  lemma {:induction false} TallyIsSumWhere(rs: seq<LmsRecord>, f: Field, k: string, m: Measure)
    ensures Tally(rs, f, k, m) == SumWhere(Keys(rs, f), Weights(rs, m), k)
    decreases |rs|
  {
    if rs != [] {
      var n := |rs| - 1;
      TallyIsSumWhere(rs[..n], f, k, m);
      var ks, ws := Keys(rs, f), Weights(rs, m);
      assert ks[..n] == Keys(rs[..n], f) && ks[n] == KeyOf(f, rs[n]);
      assert ws[..n] == Weights(rs[..n], m) && ws[n] == Weight(m, rs[n]);
    }
  }

  lemma AtCentreSnoc(rs: seq<LmsRecord>, r: LmsRecord, cn: string)
    ensures AtCentre(rs + [r], cn) == AtCentre(rs, cn) + (if r.centreNumber == cn then [r] else [])
  {
    assert (rs + [r])[..|rs|] == rs;
  }

  lemma FirstCountrySnoc(rs: seq<LmsRecord>, r: LmsRecord, cn: string)
    requires cn in Keys(rs + [r], CentreNumber)
    ensures cn in Keys(rs, CentreNumber) ==> FirstCountry(rs + [r], cn) == FirstCountry(rs, cn)
    ensures cn !in Keys(rs, CentreNumber) ==> FirstCountry(rs + [r], cn) == r.centreCountry
  {
    KeysSnoc(rs, r, CentreNumber);
    var ks := Keys(rs, CentreNumber);
    if cn in ks {
      FirstIndexSnoc(ks, r.centreNumber, cn);
    } else {
      var i := FirstIndex(ks + [r.centreNumber], cn);
      assert forall j :: 0 <= j < |ks| ==> (ks + [r.centreNumber])[j] == ks[j];
      assert i == |rs|;
    }
  }

  /** The distinct keys after one more record: the record's key is appended
      exactly when no earlier record carries it. */
  lemma KeyListStep(keys: seq<string>, rs: seq<LmsRecord>, r: LmsRecord, f: Field)
    requires keys == FirstSeen(Keys(rs, f))
    ensures KeyOf(f, r) in keys <==> KeyOf(f, r) in Keys(rs, f)
    ensures FirstSeen(Keys(rs + [r], f)) == if KeyOf(f, r) in keys then keys else keys + [KeyOf(f, r)]
  {
    KeysSnoc(rs, r, f);
    FirstSeenSnoc(Keys(rs, f), KeyOf(f, r));
    FirstSeenMembership(Keys(rs, f), KeyOf(f, r));
  }

  /** Counting one record into the course tallies (lines 98-108) keeps them right. */
  lemma CourseValuesStep(values: map<string, CourseTally>, rs: seq<LmsRecord>, r: LmsRecord, t: CourseTally)
    requires CourseValuesAgree(values, rs)
    requires r.course !in values ==> r.course !in Keys(rs, Course)
    requires var prior := if r.course in values then values[r.course] else CourseTally(0, 0);
      t == CourseTally(prior.attempted + Weight(Started, r), prior.completed + Weight(Completed, r))
    ensures CourseValuesAgree(values[r.course := t], rs + [r])
  {
    if r.course !in values {
      TallyAbsent(rs, Course, r.course, Started);
      TallyAbsent(rs, Course, r.course, Completed);
    }
    forall c | c in values[r.course := t]
      ensures values[r.course := t][c] == CourseTally(Tally(rs + [r], Course, c, Started), Tally(rs + [r], Course, c, Completed))
    {
      TallySnoc(rs, r, Course, c, Started);
      TallySnoc(rs, r, Course, c, Completed);
    }
  }

  /** One step of the catalogue loop keeps the tallies in agreement. */
  lemma CourseStep(m: OrderedMap<CourseTally>, rs: seq<LmsRecord>, r: LmsRecord, t: CourseTally)
    requires CourseTalliesAgree(m, rs)
    requires t == CourseTally(
      m.GetOr(r.course, CourseTally(0, 0)).attempted + Weight(Started, r),
      m.GetOr(r.course, CourseTally(0, 0)).completed + Weight(Completed, r))
    ensures CourseTalliesAgree(m.Set(r.course, t), rs + [r])
  {
    KeyListStep(m.keys, rs, r, Course);
    assert r.course in m.values <==> r.course in Keys(rs, Course);
    CourseValuesStep(m.values, rs, r, t);
  }

  lemma SliceSnoc(records: seq<LmsRecord>, i: nat)
    requires i < |records|
    ensures records[..i + 1] == records[..i] + [records[i]]
  {
  }

  /** The catalogue step at position `i` of the records. */
  lemma CourseStepAt(m: OrderedMap<CourseTally>, records: seq<LmsRecord>, i: nat, t: CourseTally)
    requires i < |records|
    requires CourseTalliesAgree(m, records[..i])
    requires var prior := m.GetOr(records[i].course, CourseTally(0, 0));
      && t.attempted == prior.attempted + (if records[i].startedDate != "" then 1 else 0)
      && t.completed == prior.completed + (if records[i].completionDate != "" then 1 else 0)
    ensures CourseTalliesAgree(m.Set(records[i].course, t), records[..i + 1])
  {
    SliceSnoc(records, i);
    CourseStep(m, records[..i], records[i], t);
  }

  /** A record of another centre leaves a centre's entry in agreement. */
  lemma OtherCentreStep(e: CentreEntry, rs: seq<LmsRecord>, r: LmsRecord, cn: string)
    requires CentreEntryAgrees(e, rs, cn) && r.centreNumber != cn
    ensures CentreEntryAgrees(e, rs + [r], cn)
  {
    KeysSnoc(rs, r, CentreNumber);
    AtCentreSnoc(rs, r, cn);
    assert AtCentre(rs + [r], cn) == AtCentre(rs, cn);
    FirstCountrySnoc(rs, r, cn);
  }

  /** Counting one record into a centre's course tallies (lines 127-137) keeps them right. */
  lemma RoleValuesStep(values: map<string, RoleTally>, g: seq<LmsRecord>, r: LmsRecord, t: RoleTally)
    requires RoleValuesAgree(values, g)
    requires r.course !in values ==> r.course !in Keys(g, Course)
    requires var prior := if r.course in values then values[r.course] else RoleTally(0, 0);
      t == RoleTally(prior.available + 1, prior.completed + Weight(Completed, r))
    ensures RoleValuesAgree(values[r.course := t], g + [r])
  {
    if r.course !in values {
      TallyAbsent(g, Course, r.course, EveryRecord);
      TallyAbsent(g, Course, r.course, Completed);
    }
    forall c | c in values[r.course := t]
      ensures values[r.course := t][c] == RoleTally(Tally(g + [r], Course, c, EveryRecord), Tally(g + [r], Course, c, Completed))
    {
      TallySnoc(g, r, Course, c, EveryRecord);
      TallySnoc(g, r, Course, c, Completed);
    }
  }

  lemma RoleStep(m: OrderedMap<RoleTally>, g: seq<LmsRecord>, r: LmsRecord, t: RoleTally)
    requires RoleTalliesAgree(m, g)
    requires t == RoleTally(
      m.GetOr(r.course, RoleTally(0, 0)).available + 1,
      m.GetOr(r.course, RoleTally(0, 0)).completed + Weight(Completed, r))
    ensures RoleTalliesAgree(m.Set(r.course, t), g + [r])
  {
    KeyListStep(m.keys, g, r, Course);
    assert r.course in m.values <==> r.course in Keys(g, Course);
    RoleValuesStep(m.values, g, r, t);
  }

  /** The entry a record's centre starts from: the stored one, or a fresh one named
      after the record's country (lines 122-125). */
  lemma StartingEntry(m: OrderedMap<CentreEntry>, rs: seq<LmsRecord>, r: LmsRecord)
    requires CentresAgree(m, rs)
    ensures var e := m.GetOr(r.centreNumber, CentreEntry(r.centreCountry, Empty()));
      RoleTalliesAgree(e.modules, AtCentre(rs, r.centreNumber))
      && (r.centreNumber in Keys(rs, CentreNumber) ==> e.centreName == FirstCountry(rs, r.centreNumber))
      && (r.centreNumber !in Keys(rs, CentreNumber) ==> e.centreName == r.centreCountry)
  {
    var cn := r.centreNumber;
    FirstSeenMembership(Keys(rs, CentreNumber), cn);
    if cn !in Keys(rs, CentreNumber) {
      var g := AtCentre(rs, cn);
      assert g == [] by {
        if g != [] {
          AtCentreKeys(rs, cn, 0);
        }
      }
      assert Keys(g, Course) == [];
    }
  }

  /** The entry of the record's own centre, after counting the record. */
  lemma OwnEntryStep(m: OrderedMap<CentreEntry>, rs: seq<LmsRecord>, r: LmsRecord, t: RoleTally)
    requires CentresAgree(m, rs)
    requires
      var e := m.GetOr(r.centreNumber, CentreEntry(r.centreCountry, Empty()));
      t == RoleTally(
        e.modules.GetOr(r.course, RoleTally(0, 0)).available + 1,
        e.modules.GetOr(r.course, RoleTally(0, 0)).completed + Weight(Completed, r))
    ensures
      var e := m.GetOr(r.centreNumber, CentreEntry(r.centreCountry, Empty()));
      CentreEntryAgrees(e.(modules := e.modules.Set(r.course, t)), rs + [r], r.centreNumber)
  {
    var cn := r.centreNumber;
    var e := m.GetOr(cn, CentreEntry(r.centreCountry, Empty()));
    StartingEntry(m, rs, r);
    RoleStep(e.modules, AtCentre(rs, cn), r, t);
    AtCentreSnoc(rs, r, cn);
    KeysSnoc(rs, r, CentreNumber);
    FirstCountrySnoc(rs, r, cn);
  }

  /** One step of the centre loop keeps every centre entry in agreement. */
  lemma CentreStep(m: OrderedMap<CentreEntry>, rs: seq<LmsRecord>, r: LmsRecord, t: RoleTally)
    requires CentresAgree(m, rs)
    requires
      var e := m.GetOr(r.centreNumber, CentreEntry(r.centreCountry, Empty()));
      t == RoleTally(
        e.modules.GetOr(r.course, RoleTally(0, 0)).available + 1,
        e.modules.GetOr(r.course, RoleTally(0, 0)).completed + Weight(Completed, r))
    ensures
      var e := m.GetOr(r.centreNumber, CentreEntry(r.centreCountry, Empty()));
      CentresAgree(m.Set(r.centreNumber, e.(modules := e.modules.Set(r.course, t))), rs + [r])
  {
    var cn := r.centreNumber;
    var e := m.GetOr(cn, CentreEntry(r.centreCountry, Empty()));
    var e' := e.(modules := e.modules.Set(r.course, t));
    OwnEntryStep(m, rs, r, t);
    KeysSnoc(rs, r, CentreNumber);
    FirstSeenSnoc(Keys(rs, CentreNumber), cn);
    FirstSeenMembership(Keys(rs, CentreNumber), cn);
    var m' := m.Set(cn, e');
    forall c | c in m'.values
      ensures CentreEntryAgrees(m'.values[c], rs + [r], c)
    {
      if c != cn {
        OtherCentreStep(m.values[c], rs, r, c);
      }
    }
  }

  /** The centre step at position `i` of the records. */
  lemma CentreStepAt(m: OrderedMap<CentreEntry>, records: seq<LmsRecord>, i: nat, t: RoleTally)
    requires i < |records|
    requires CentresAgree(m, records[..i])
    requires
      var r := records[i];
      var e := m.GetOr(r.centreNumber, CentreEntry(r.centreCountry, Empty()));
      var prior := e.modules.GetOr(r.course, RoleTally(0, 0));
      && t.available == prior.available + 1
      && t.completed == prior.completed + (if r.completionDate != "" then 1 else 0)
    ensures
      var r := records[i];
      var e := m.GetOr(r.centreNumber, CentreEntry(r.centreCountry, Empty()));
      CentresAgree(m.Set(r.centreNumber, e.(modules := e.modules.Set(r.course, t))), records[..i + 1])
  {
    SliceSnoc(records, i);
    CentreStep(m, records[..i], records[i], t);
  }

  /** Every record of a centre's group has that centre's number among the keys. */
  lemma {:induction false} AtCentreKeys(rs: seq<LmsRecord>, cn: string, i: nat)
    requires i < |AtCentre(rs, cn)|
    ensures cn in Keys(rs, CentreNumber)
    decreases |rs|
  {
    var n := |rs| - 1;
    KeysSnoc(rs[..n], rs[n], CentreNumber);
    assert rs == rs[..n] + [rs[n]];
    if rs[n].centreNumber != cn || i < |AtCentre(rs[..n], cn)| {
      AtCentreKeys(rs[..n], cn, i);
    }
  }

  lemma {:induction false} CatalogueProjection(m: OrderedMap<CourseTally>, rs: seq<LmsRecord>, keys: seq<string>)
    requires CourseTalliesAgree(m, rs)
    requires forall k :: k in keys ==> k in m.values
    ensures ProjectCatalogue(keys, m.values) == CatalogueRowsFor(rs, keys)
  {
    if keys != [] {
      CatalogueProjection(m, rs, keys[1..]);
      assert CatalogueRowsFor(rs, keys) == [CatalogueRowOf(rs, keys[0])] + CatalogueRowsFor(rs, keys[1..]);
    }
  }

  lemma {:induction false} ModulesProjection(e: CentreEntry, rs: seq<LmsRecord>, cn: string, keys: seq<string>)
    requires CentreEntryAgrees(e, rs, cn)
    requires forall k :: k in keys ==> k in e.modules.values
    ensures ProjectModules(cn, e.centreName, keys, e.modules.values)
      == CentreRowsOf(rs, cn, keys)
  {
    if keys != [] {
      ModulesProjection(e, rs, cn, keys[1..]);
    }
  }

  lemma {:induction false} CentresProjection(m: OrderedMap<CentreEntry>, rs: seq<LmsRecord>, keys: seq<string>)
    requires CentresAgree(m, rs)
    requires forall k :: k in keys ==> k in m.values
    ensures EntriesListed(keys, m.values)
    ensures forall k :: k in keys ==> k in Keys(rs, CentreNumber)
    ensures ProjectCentres(keys, m.values) == CentreRowsFor(rs, keys)
  {
    if keys != [] {
      CentresProjection(m, rs, keys[1..]);
      var e := m.values[keys[0]];
      FirstSeenMembership(Keys(AtCentre(rs, keys[0]), Course), keys[0]);
      ModulesProjection(e, rs, keys[0], e.modules.keys);
    }
  }

  /** The projection of lines 141-172 turns agreeing accumulators into the specified results. */
  lemma Projection(courses: OrderedMap<CourseTally>, centres: OrderedMap<CentreEntry>, rs: seq<LmsRecord>)
    requires CourseTalliesAgree(courses, rs) && CentresAgree(centres, rs)
    ensures forall k :: k in courses.keys ==> k in courses.values
    ensures EntriesListed(centres.keys, centres.values)
    ensures ProcessedData(
        ProjectCatalogue(courses.keys, courses.values),
        ProjectCentres(centres.keys, centres.values),
        UserRows(rs))
      == Processed(rs)
  {
    CatalogueProjection(courses, rs, courses.keys);
    CentresProjection(centres, rs, centres.keys);
  }

  /** The loop of `processData` that fills `trainingModules` (lines 97-109). */
  method CountCourses(records: seq<LmsRecord>) returns (trainingModules: OrderedMap<CourseTally>)
    ensures CourseTalliesAgree(trainingModules, records)
  {
    trainingModules := Empty();
    var i := 0;
    while i < |records|
      invariant 0 <= i <= |records|
      invariant CourseTalliesAgree(trainingModules, records[..i])
    {
      var record := records[i];
      var key := record.course;
      var current := trainingModules.GetOr(key, CourseTally(0, 0));
      if record.startedDate != "" {
        current := current.(attempted := current.attempted + 1);
      }
      if record.completionDate != "" {
        current := current.(completed := current.completed + 1);
      }
      CourseStepAt(trainingModules, records, i, current);
      trainingModules := trainingModules.Set(key, current);
      i := i + 1;
    }
    assert records[..|records|] == records;
  }

  /** The loop of `processData` that fills `centreData` (lines 120-139). */
  method CountCentres(records: seq<LmsRecord>) returns (centreData: OrderedMap<CentreEntry>)
    ensures CentresAgree(centreData, records)
  {
    centreData := Empty();
    var i := 0;
    while i < |records|
      invariant 0 <= i <= |records|
      invariant CentresAgree(centreData, records[..i])
    {
      var record := records[i];
      var centreNumber := record.centreNumber;
      var current := centreData.GetOr(centreNumber, CentreEntry(record.centreCountry, Empty()));
      var moduleData := current.modules.GetOr(record.course, RoleTally(0, 0));
      moduleData := moduleData.(available := moduleData.available + 1);
      if record.completionDate != "" {
        moduleData := moduleData.(completed := moduleData.completed + 1);
      }
      CentreStepAt(centreData, records, i, moduleData);
      current := current.(modules := current.modules.Set(record.course, moduleData));
      centreData := centreData.Set(centreNumber, current);
      i := i + 1;
    }
    assert records[..|records|] == records;
  }

  // ---------------------------------------------------------------------------
  // The service

  class DataService {
    var lmsData: seq<LmsRecord>
    var storylaneData: seq<StorylaneRecord>

    constructor ()
      ensures lmsData == [] && storylaneData == []
    {
      lmsData := [];
      storylaneData := [];
    }

    /** `loadLMSData` with the fetch and the CSV parse done by the caller. */
    method LoadLmsData(parsed: seq<LmsRecord>)
      modifies this
      ensures lmsData == parsed && storylaneData == old(storylaneData)
    {
      lmsData := parsed;
    }

    /** `loadStorylaneData` with the fetch and the CSV parse done by the caller. */
    method LoadStorylaneData(parsed: seq<StorylaneRecord>)
      modifies this
      ensures storylaneData == parsed && lmsData == old(lmsData)
    {
      storylaneData := parsed;
    }

    /** `loadData`: both feeds are stored, then processed. */
    method LoadData(lmsRows: seq<LmsRecord>, storylaneRows: seq<StorylaneRecord>) returns (r: ProcessedData)
      modifies this
      ensures lmsData == lmsRows && storylaneData == storylaneRows
      ensures r == Processed(lmsRows)
    {
      LoadLmsData(lmsRows);
      LoadStorylaneData(storylaneRows);
      r := ProcessData();
    }

    /** `processData`: the catalogue loop, the centre loop, then the projection. */
    method ProcessData() returns (r: ProcessedData)
      ensures r == Processed(lmsData)
    {
      var records := lmsData;
      var trainingModules := CountCourses(records);
      var centreData := CountCentres(records);
      Projection(trainingModules, centreData, records);
      r := ProcessedData(
        ProjectCatalogue(trainingModules.keys, trainingModules.values),
        ProjectCentres(centreData.keys, centreData.values),
        UserRows(records));
    }
  }
}
