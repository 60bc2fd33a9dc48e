/** What the three tables of `processData` promise about each other and about
    the LMS records they come from: every record is counted once, the catalogue
    lists each course once in order of first appearance, and the catalogue, the
    centre breakdown and the user list agree on their totals. */
module DataServiceProperties {
  import opened Grouping
  import opened DataService

  // ---------------------------------------------------------------------------
  // Column sums of the three tables

  function AttemptedSum(rows: seq<CatalogueRow>): nat
  {
    if rows == [] then 0 else rows[0].numberOfTimesCourseAttempted + AttemptedSum(rows[1..])
  }

  function CatalogueCompletedSum(rows: seq<CatalogueRow>): nat
  {
    if rows == [] then 0 else rows[0].numberOfTimesCourseCompleted + CatalogueCompletedSum(rows[1..])
  }

  function AvailableSum(rows: seq<CentreRow>): nat
  {
    if rows == [] then 0 else rows[0].numberOfRolesAvailable + AvailableSum(rows[1..])
  }

  function CentreCompletedSum(rows: seq<CentreRow>): nat
  {
    if rows == [] then 0 else rows[0].completedTraining + CentreCompletedSum(rows[1..])
  }

  function StartedSum(rows: seq<CentreUserRow>): nat
  {
    if rows == [] then 0 else StartedSum(rows[..|rows| - 1]) + rows[|rows| - 1].startedTraining
  }

  function UserCompletedSum(rows: seq<CentreUserRow>): nat
  {
    if rows == [] then 0 else UserCompletedSum(rows[..|rows| - 1]) + rows[|rows| - 1].completedTraining
  }

  lemma {:induction false} CentreSumsConcat(a: seq<CentreRow>, b: seq<CentreRow>)
    ensures AvailableSum(a + b) == AvailableSum(a) + AvailableSum(b)
    ensures CentreCompletedSum(a + b) == CentreCompletedSum(a) + CentreCompletedSum(b)
    decreases |a|
  {
    if a == [] {
      assert a + b == b;
    } else {
      CentreSumsConcat(a[1..], b);
      assert (a + b)[1..] == a[1..] + b;
    }
  }

  // ---------------------------------------------------------------------------
  // Counting by groups

  /** The tallies of the keys `ds`, added up. */
  function TallySum(rs: seq<LmsRecord>, f: Field, ds: seq<string>, m: Measure): nat
  {
    if ds == [] then 0 else Tally(rs, f, ds[0], m) + TallySum(rs, f, ds[1..], m)
  }

  lemma {:induction false} TallySumIsSumOver(rs: seq<LmsRecord>, f: Field, ds: seq<string>, m: Measure)
    ensures TallySum(rs, f, ds, m) == SumOver(ds, Keys(rs, f), Weights(rs, m))
    decreases |ds|
  {
    if ds != [] {
      TallyIsSumWhere(rs, f, ds[0], m);
      TallySumIsSumOver(rs, f, ds[1..], m);
    }
  }

  /** Grouping by a column loses and duplicates no record: the tallies of the
      distinct keys add up to the total. */
  lemma TotalByGroups(rs: seq<LmsRecord>, f: Field, m: Measure)
    ensures TallySum(rs, f, FirstSeen(Keys(rs, f)), m) == Total(rs, m)
  {
    var ks := Keys(rs, f);
    TallySumIsSumOver(rs, f, FirstSeen(ks), m);
    FirstSeenDistinct(ks);
    FirstSeenMembershipAll(ks);
    SumOverGroups(FirstSeen(ks), ks, Weights(rs, m));
  }

  lemma TotalSnoc(rs: seq<LmsRecord>, r: LmsRecord, m: Measure)
    ensures Total(rs + [r], m) == Total(rs, m) + Weight(m, r)
  {
    assert (rs + [r])[..|rs|] == rs;
    SumSnoc(Weights(rs, m), Weight(m, r));
  }

  /** Every record counts once when all records count. */
  lemma {:induction false} TotalEveryRecord(rs: seq<LmsRecord>)
    ensures Total(rs, EveryRecord) == |rs|
    decreases |rs|
  {
    if rs != [] {
      var n := |rs| - 1;
      TotalEveryRecord(rs[..n]);
      assert rs == rs[..n] + [rs[n]];
      TotalSnoc(rs[..n], rs[n], EveryRecord);
    }
  }

  /** A centre's own records count as many as its tally over all records. */
  lemma {:induction false} AtCentreTotal(rs: seq<LmsRecord>, cn: string, m: Measure)
    ensures Total(AtCentre(rs, cn), m) == Tally(rs, CentreNumber, cn, m)
    decreases |rs|
  {
    if rs != [] {
      var n := |rs| - 1;
      AtCentreTotal(rs[..n], cn, m);
      if rs[n].centreNumber == cn {
        TotalSnoc(AtCentre(rs[..n], cn), rs[n], m);
      } else {
        assert AtCentre(rs, cn) == AtCentre(rs[..n], cn);
      }
    }
  }

  /** A record that is completed is also a record: completions never exceed records. */
  lemma {:induction false} CompletedWithinRecords(rs: seq<LmsRecord>, f: Field, k: string)
    ensures Tally(rs, f, k, Completed) <= Tally(rs, f, k, EveryRecord)
    decreases |rs|
  {
    if rs != [] {
      CompletedWithinRecords(rs[..|rs| - 1], f, k);
    }
  }

  /** A key that some record carries has at least one record. */
  lemma {:induction false} PresentKeyCounted(rs: seq<LmsRecord>, f: Field, k: string)
    requires k in Keys(rs, f)
    ensures Tally(rs, f, k, EveryRecord) >= 1
    decreases |rs|
  {
    var n := |rs| - 1;
    KeysSnoc(rs[..n], rs[n], f);
    assert rs == rs[..n] + [rs[n]];
    if KeyOf(f, rs[n]) != k {
      PresentKeyCounted(rs[..n], f, k);
    }
  }

  // ---------------------------------------------------------------------------
  // The training catalogue

  lemma {:induction false} CatalogueColumns(rs: seq<LmsRecord>, ds: seq<string>)
    ensures AttemptedSum(CatalogueRowsFor(rs, ds)) == TallySum(rs, Course, ds, Started)
    ensures CatalogueCompletedSum(CatalogueRowsFor(rs, ds)) == TallySum(rs, Course, ds, Completed)
    decreases |ds|
  {
    if ds != [] {
      CatalogueColumns(rs, ds[1..]);
      assert CatalogueRowsFor(rs, ds)[1..] == CatalogueRowsFor(rs, ds[1..]);
    }
  }

  /** The catalogue's attempts add up to the records with a started date, and its
      completions to the records with a completion date. */
  lemma CatalogueTotals(rs: seq<LmsRecord>)
    ensures AttemptedSum(Catalogue(rs)) == Total(rs, Started)
    ensures CatalogueCompletedSum(Catalogue(rs)) == Total(rs, Completed)
  {
    CatalogueColumns(rs, FirstSeen(Keys(rs, Course)));
    TotalByGroups(rs, Course, Started);
    TotalByGroups(rs, Course, Completed);
  }

  /** A course has a catalogue row exactly when some record is of that course. */
  lemma CatalogueCoversCourses(rs: seq<LmsRecord>, c: string)
    ensures (exists i :: 0 <= i < |Catalogue(rs)| && Catalogue(rs)[i].trainingModule == c)
      <==> c in Keys(rs, Course)
  {
    var ds := FirstSeen(Keys(rs, Course));
    FirstSeenMembership(Keys(rs, Course), c);
    if c in ds {
      var i :| 0 <= i < |ds| && ds[i] == c;
      assert Catalogue(rs)[i].trainingModule == c;
    }
  }

  /** No course has two catalogue rows. */
  lemma CatalogueModulesDistinct(rs: seq<LmsRecord>, i: nat, j: nat)
    requires i < j < |Catalogue(rs)|
    ensures Catalogue(rs)[i].trainingModule != Catalogue(rs)[j].trainingModule
  {
    FirstSeenDistinct(Keys(rs, Course));
  }

  /** Catalogue rows come in the order in which their courses first appear. */
  lemma CatalogueInFirstAppearanceOrder(rs: seq<LmsRecord>, i: nat, j: nat)
    requires i < j < |Catalogue(rs)|
    ensures Catalogue(rs)[i].trainingModule in Keys(rs, Course)
    ensures Catalogue(rs)[j].trainingModule in Keys(rs, Course)
    ensures FirstIndex(Keys(rs, Course), Catalogue(rs)[i].trainingModule)
      < FirstIndex(Keys(rs, Course), Catalogue(rs)[j].trainingModule)
  {
    FirstSeenInOrder(Keys(rs, Course), i, j);
  }

  /** A catalogue row never reports more completions than attempts would allow:
      completions are bounded by the course's records. */
  lemma CatalogueRowBounds(rs: seq<LmsRecord>, i: nat)
    requires i < |Catalogue(rs)|
    ensures Catalogue(rs)[i].numberOfTimesCourseCompleted
      <= Tally(rs, Course, Catalogue(rs)[i].trainingModule, EveryRecord)
    ensures Catalogue(rs)[i].numberOfTimesCourseAttempted
      <= Tally(rs, Course, Catalogue(rs)[i].trainingModule, EveryRecord)
  {
    var c := Catalogue(rs)[i].trainingModule;
    CompletedWithinRecords(rs, Course, c);
    StartedWithinRecords(rs, Course, c);
  }

  lemma {:induction false} StartedWithinRecords(rs: seq<LmsRecord>, f: Field, k: string)
    ensures Tally(rs, f, k, Started) <= Tally(rs, f, k, EveryRecord)
    decreases |rs|
  {
    if rs != [] {
      StartedWithinRecords(rs[..|rs| - 1], f, k);
    }
  }

  // ---------------------------------------------------------------------------
  // The centre breakdown

  /** What every row of the breakdown satisfies. */
  ghost predicate CentreRowSound(rs: seq<LmsRecord>, row: CentreRow)
  {
    && row.centreNumber in Keys(rs, CentreNumber)
    && row.centreName == FirstCountry(rs, row.centreNumber)
    && 1 <= row.numberOfRolesAvailable
    && row.completedTraining <= row.numberOfRolesAvailable
  }

  lemma {:induction false} CentreRowsOfColumns(rs: seq<LmsRecord>, cn: string, ds: seq<string>)
    requires cn in Keys(rs, CentreNumber)
    ensures AvailableSum(CentreRowsOf(rs, cn, ds)) == TallySum(AtCentre(rs, cn), Course, ds, EveryRecord)
    ensures CentreCompletedSum(CentreRowsOf(rs, cn, ds)) == TallySum(AtCentre(rs, cn), Course, ds, Completed)
    decreases |ds|
  {
    if ds != [] {
      CentreRowsOfColumns(rs, cn, ds[1..]);
      assert CentreRowsOf(rs, cn, ds)[1..] == CentreRowsOf(rs, cn, ds[1..]);
    }
  }

  /** A centre's rows add up to its records, and to its completed records. */
  lemma GroupTotals(rs: seq<LmsRecord>, cn: string)
    requires cn in Keys(rs, CentreNumber)
    ensures AvailableSum(CentreGroup(rs, cn)) == Tally(rs, CentreNumber, cn, EveryRecord)
    ensures CentreCompletedSum(CentreGroup(rs, cn)) == Tally(rs, CentreNumber, cn, Completed)
  {
    var g := AtCentre(rs, cn);
    CentreRowsOfColumns(rs, cn, FirstSeen(Keys(g, Course)));
    TotalByGroups(g, Course, EveryRecord);
    TotalByGroups(g, Course, Completed);
    AtCentreTotal(rs, cn, EveryRecord);
    AtCentreTotal(rs, cn, Completed);
  }

  lemma {:induction false} CentreRowsForColumns(rs: seq<LmsRecord>, cns: seq<string>)
    requires forall cn :: cn in cns ==> cn in Keys(rs, CentreNumber)
    ensures AvailableSum(CentreRowsFor(rs, cns)) == TallySum(rs, CentreNumber, cns, EveryRecord)
    ensures CentreCompletedSum(CentreRowsFor(rs, cns)) == TallySum(rs, CentreNumber, cns, Completed)
    decreases |cns|
  {
    if cns != [] {
      CentreRowsForColumns(rs, cns[1..]);
      GroupTotals(rs, cns[0]);
      CentreSumsConcat(CentreGroup(rs, cns[0]), CentreRowsFor(rs, cns[1..]));
    }
  }

  /** Every record fills exactly one role slot of the breakdown, and every
      completed record one completion. */
  lemma CentreTotals(rs: seq<LmsRecord>)
    ensures AvailableSum(CentreRows(rs)) == |rs|
    ensures CentreCompletedSum(CentreRows(rs)) == Total(rs, Completed)
  {
    var ks := Keys(rs, CentreNumber);
    FirstSeenMembershipAll(ks);
    CentreRowsForColumns(rs, FirstSeen(ks));
    TotalByGroups(rs, CentreNumber, EveryRecord);
    TotalByGroups(rs, CentreNumber, Completed);
    TotalEveryRecord(rs);
  }

  lemma GroupRowsSound(rs: seq<LmsRecord>, cn: string, i: nat)
    requires cn in Keys(rs, CentreNumber)
    requires i < |CentreGroup(rs, cn)|
    ensures CentreRowSound(rs, CentreGroup(rs, cn)[i])
  {
    var g := AtCentre(rs, cn);
    var c := FirstSeen(Keys(g, Course))[i];
    FirstSeenMembership(Keys(g, Course), c);
    PresentKeyCounted(g, Course, c);
    CompletedWithinRecords(g, Course, c);
  }

  lemma {:induction false} CentreRowsForSound(rs: seq<LmsRecord>, cns: seq<string>, i: nat)
    requires forall cn :: cn in cns ==> cn in Keys(rs, CentreNumber)
    requires i < |CentreRowsFor(rs, cns)|
    ensures CentreRowSound(rs, CentreRowsFor(rs, cns)[i])
    decreases |cns|
  {
    var head := CentreGroup(rs, cns[0]);
    if i < |head| {
      GroupRowsSound(rs, cns[0], i);
    } else {
      CentreRowsForSound(rs, cns[1..], i - |head|);
    }
  }

  /** Every row of the breakdown names a centre that occurs in the records,
      carries the country of that centre's first record, has at least one
      role, and never more completions than roles. */
  lemma CentreRowsSound(rs: seq<LmsRecord>, i: nat)
    requires i < |CentreRows(rs)|
    ensures CentreRowSound(rs, CentreRows(rs)[i])
  {
    FirstSeenMembershipAll(Keys(rs, CentreNumber));
    CentreRowsForSound(rs, FirstSeen(Keys(rs, CentreNumber)), i);
  }

  /** The name a centre gets does not change when later records arrive. */
  lemma CentreNameStable(rs: seq<LmsRecord>, more: seq<LmsRecord>, cn: string)
    requires cn in Keys(rs, CentreNumber)
    ensures cn in Keys(rs + more, CentreNumber)
    ensures FirstCountry(rs + more, cn) == FirstCountry(rs, cn)
    decreases |more|
  {
    if more != [] {
      var n := |more| - 1;
      CentreNameStable(rs, more[..n], cn);
      assert rs + more == (rs + more[..n]) + [more[n]];
      KeysSnoc(rs + more[..n], more[n], CentreNumber);
      FirstCountrySnoc(rs + more[..n], more[n], cn);
    } else {
      assert rs + more == rs;
    }
  }

  // ---------------------------------------------------------------------------
  // The user list, and the three tables together

  /** The user list's flags add up to the started and to the completed records. */
  lemma {:induction false} UserTotals(rs: seq<LmsRecord>)
    ensures StartedSum(UserRows(rs)) == Total(rs, Started)
    ensures UserCompletedSum(UserRows(rs)) == Total(rs, Completed)
    decreases |rs|
  {
    if rs != [] {
      var n := |rs| - 1;
      UserTotals(rs[..n]);
      assert UserRows(rs)[..n] == UserRows(rs[..n]);
      assert rs == rs[..n] + [rs[n]];
      TotalSnoc(rs[..n], rs[n], Started);
      TotalSnoc(rs[..n], rs[n], Completed);
    }
  }

  /** The three tables of one `processData` call agree: the catalogue's attempts
      are the user list's starts, the completions are the same in all three, and
      the breakdown has one role per user row. */
  lemma TablesAgree(rs: seq<LmsRecord>)
    ensures var p := Processed(rs);
      && AttemptedSum(p.trainingCatalogue) == StartedSum(p.centreUserData)
      && CatalogueCompletedSum(p.trainingCatalogue) == CentreCompletedSum(p.centreData)
      && CentreCompletedSum(p.centreData) == UserCompletedSum(p.centreUserData)
      && AvailableSum(p.centreData) == |p.centreUserData|
  {
    CatalogueTotals(rs);
    CentreTotals(rs);
    UserTotals(rs);
  }
}
