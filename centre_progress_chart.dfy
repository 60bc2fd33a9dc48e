/** The centre pie chart's regrouping of the centre breakdown: rows of one
    centre name are merged into one entry that adds up their roles and
    completions and keeps the completion rate of the first row.

    The lookup `acc.find(item => item.centreName === curr.centreName)` reads a
    property the entries do not have (they carry `name`), so as written no row is
    ever merged. Both lookups are modelled by the property name they read:
    `Regroup(data, AsWrittenKey)` is the reduce as written, `CentreProgress`
    the intended one, which `AggregateByCentre` computes. */
module CentreProgressChart {
  import opened Options
  import opened Grouping
  import opened Rounding

  /** A row of the centre breakdown as the chart receives it. */
  datatype CentreData = CentreData(
    centreNumber: string,
    centreName: string,
    numberOfRolesAvailable: nat,
    completedTraining: nat)

  /** An entry of `centreProgress`. The rate is `None` where the quotient is
      `0/0` or `x/0`, which JavaScript turns into `NaN` or `Infinity`. */
  datatype ProgressEntry = ProgressEntry(
    name: string,
    numberOfRolesAvailable: nat,
    completedTraining: nat,
    completionRate: Option<int>)

  /** The property the lookup reads as written, and the one it evidently means. */
  const AsWrittenKey := "centreName"
  const NameKey := "name"

  /** `item[key] === s` for a string `s`: only the entry's one string-valued
      property can equal a string; any other key reads a number or `undefined`. */
  predicate Matches(e: ProgressEntry, key: string, s: string)
  {
    key == NameKey && e.name == s
  }

  /** The index `acc.find` stops at: the first entry that matches. */
  function FirstMatch(acc: seq<ProgressEntry>, key: string, s: string): (r: Option<nat>)
    ensures r.Some? ==> r.value < |acc| && Matches(acc[r.value], key, s)
    ensures r.Some? ==> forall j :: 0 <= j < r.value ==> !Matches(acc[j], key, s)
    ensures r.None? ==> forall j :: 0 <= j < |acc| ==> !Matches(acc[j], key, s)
  {
    if acc == [] then None
    else if Matches(acc[0], key, s) then Some(0)
    else
      match FirstMatch(acc[1..], key, s)
      case None => None
      case Some(k) => Some(k + 1)
  }

  /** `Math.round((completed / available) * 100)`, undefined as a number when
      there are no roles. */
  function Rate(row: CentreData): (r: Option<int>)
    ensures r.None? <==> row.numberOfRolesAvailable == 0
    ensures r.Some? && row.completedTraining <= row.numberOfRolesAvailable ==> 0 <= r.value <= 100
  {
    if row.numberOfRolesAvailable == 0 then None
    else Some(Percent(row.completedTraining, row.numberOfRolesAvailable))
  }

  /** The entry pushed for a row whose centre has none yet. */
  function NewEntry(row: CentreData): ProgressEntry
  {
    ProgressEntry(row.centreName, row.numberOfRolesAvailable, row.completedTraining, Rate(row))
  }

  /** One step of the reduce: add the row into the entry the lookup finds, or push a new entry. */
  function Merge(acc: seq<ProgressEntry>, row: CentreData, key: string): seq<ProgressEntry>
  {
    match FirstMatch(acc, key, row.centreName)
    case None => acc + [NewEntry(row)]
    case Some(k) =>
      acc[k := acc[k].(
        numberOfRolesAvailable := acc[k].numberOfRolesAvailable + row.numberOfRolesAvailable,
        completedTraining := acc[k].completedTraining + row.completedTraining)]
  }

  /** The reduce over all rows, from an empty accumulator, with the lookup reading `key`. */
  function Regroup(data: seq<CentreData>, key: string): seq<ProgressEntry>
  {
    if data == [] then []
    else Merge(Regroup(data[..|data| - 1], key), data[|data| - 1], key)
  }

  /** `centreProgress` as intended: the lookup compares the entries' `name`. */
  function CentreProgress(data: seq<CentreData>): seq<ProgressEntry>
  {
    Regroup(data, NameKey)
  }

  // ---------------------------------------------------------------------------
  // The reduce, step by step

  /** `acc.find(item => item[key] === s)`, as the index it stops at. */
  method Find(acc: seq<ProgressEntry>, key: string, s: string) returns (r: Option<nat>)
    ensures r == FirstMatch(acc, key, s)
  {
    var i := 0;
    while i < |acc|
      invariant 0 <= i <= |acc|
      invariant forall j :: 0 <= j < i ==> !Matches(acc[j], key, s)
    {
      if Matches(acc[i], key, s) {
        return Some(i);
      }
      i := i + 1;
    }
    return None;
  }

  /** The reduce building `centreProgress`, with the lookup on `name`. */
  method AggregateByCentre(data: seq<CentreData>) returns (acc: seq<ProgressEntry>)
    ensures acc == CentreProgress(data)
  {
    acc := [];
    var i := 0;
    while i < |data|
      invariant 0 <= i <= |data|
      invariant acc == Regroup(data[..i], NameKey)
    {
      var curr := data[i];
      var existing := Find(acc, NameKey, curr.centreName);
      match existing {
        case Some(k) =>
          acc := acc[k := acc[k].(
            numberOfRolesAvailable := acc[k].numberOfRolesAvailable + curr.numberOfRolesAvailable,
            completedTraining := acc[k].completedTraining + curr.completedTraining)];
        case None =>
          acc := acc + [NewEntry(curr)];
      }
      assert data[..i + 1][..i] == data[..i];
      i := i + 1;
    }
    assert data[..|data|] == data;
  }

  // ---------------------------------------------------------------------------
  // What the intended regrouping promises

  /** The centre names of the rows, in order. */
  function CentreNames(data: seq<CentreData>): (ns: seq<string>)
    ensures |ns| == |data|
  {
    seq(|data|, i requires 0 <= i < |data| => data[i].centreName)
  }

  /** The names of the entries, in order. */
  function Names(acc: seq<ProgressEntry>): (ns: seq<string>)
    ensures |ns| == |acc|
  {
    seq(|acc|, i requires 0 <= i < |acc| => acc[i].name)
  }

  /** The two count columns the chart adds up. */
  datatype Column = Roles | Completions

  function RowValue(c: Column, row: CentreData): nat
  {
    match c
    case Roles => row.numberOfRolesAvailable
    case Completions => row.completedTraining
  }

  function EntryValue(c: Column, e: ProgressEntry): nat
  {
    match c
    case Roles => e.numberOfRolesAvailable
    case Completions => e.completedTraining
  }

  function RowValues(data: seq<CentreData>, c: Column): (ws: seq<nat>)
    ensures |ws| == |data|
  {
    seq(|data|, i requires 0 <= i < |data| => RowValue(c, data[i]))
  }

  /** A column added up over the entries. */
  function EntryTotal(acc: seq<ProgressEntry>, c: Column): nat
  {
    if acc == [] then 0 else EntryValue(c, acc[0]) + EntryTotal(acc[1..], c)
  }

  lemma LastRow(data: seq<CentreData>)
    requires data != []
    ensures var n := |data| - 1;
      && CentreNames(data) == CentreNames(data[..n]) + [data[n].centreName]
      && (forall c :: RowValues(data, c) == RowValues(data[..n], c) + [RowValue(c, data[n])])
  {
  }

  /** The entries' names are the rows' centre names, each once, in order of first appearance. */
  lemma {:induction false} ProgressNames(data: seq<CentreData>)
    ensures Names(CentreProgress(data)) == FirstSeen(CentreNames(data))
    decreases |data|
  {
    if data != [] {
      var n := |data| - 1;
      var acc, row := CentreProgress(data[..n]), data[n];
      ProgressNames(data[..n]);
      LastRow(data);
      FirstSeenSnoc(CentreNames(data[..n]), row.centreName);
      FirstSeenMembership(CentreNames(data[..n]), row.centreName);
      match FirstMatch(acc, NameKey, row.centreName)
      case None =>
        assert row.centreName !in Names(acc);
        assert Names(acc + [NewEntry(row)]) == Names(acc) + [row.centreName];
      case Some(k) =>
        assert Names(acc)[k] == row.centreName;
        assert Names(Merge(acc, row, NameKey)) == Names(acc);
    }
  }

  /** No centre name is listed twice, and the chart has no more entries than rows. */
  lemma ProgressDistinct(data: seq<CentreData>)
    ensures Distinct(Names(CentreProgress(data)))
    ensures |CentreProgress(data)| <= |data|
    ensures data == [] ==> CentreProgress(data) == []
  {
    ProgressNames(data);
    FirstSeenDistinct(CentreNames(data));
  }

  /** A name has an entry exactly when some row carries it. */
  lemma ProgressCoversNames(data: seq<CentreData>, name: string)
    ensures name in Names(CentreProgress(data)) <==> name in CentreNames(data)
  {
    ProgressNames(data);
    FirstSeenMembership(CentreNames(data), name);
  }

  /** Entries come in the order in which their names first appear among the rows. */
  lemma ProgressInOrder(data: seq<CentreData>, i: nat, j: nat)
    requires i < j < |CentreProgress(data)|
    ensures CentreProgress(data)[i].name in CentreNames(data)
    ensures CentreProgress(data)[j].name in CentreNames(data)
    ensures FirstIndex(CentreNames(data), CentreProgress(data)[i].name)
      < FirstIndex(CentreNames(data), CentreProgress(data)[j].name)
  {
    ProgressNames(data);
    assert CentreProgress(data)[i].name == FirstSeen(CentreNames(data))[i];
    assert CentreProgress(data)[j].name == FirstSeen(CentreNames(data))[j];
    FirstSeenInOrder(CentreNames(data), i, j);
  }

  /** What an entry holds: the sums of both columns over every row of its name,
      whatever their centre numbers, and the rate of the first such row. */
  ghost predicate EntryAgrees(data: seq<CentreData>, e: ProgressEntry)
  {
    && e.name in CentreNames(data)
    && e.numberOfRolesAvailable == SumWhere(CentreNames(data), RowValues(data, Roles), e.name)
    && e.completedTraining == SumWhere(CentreNames(data), RowValues(data, Completions), e.name)
    && e.completionRate == Rate(data[FirstIndex(CentreNames(data), e.name)])
  }

  lemma SumStep(data: seq<CentreData>, c: Column, name: string)
    requires data != []
    ensures var n := |data| - 1;
      SumWhere(CentreNames(data), RowValues(data, c), name)
      == SumWhere(CentreNames(data[..n]), RowValues(data[..n], c), name)
        + (if data[n].centreName == name then RowValue(c, data[n]) else 0)
  {
    var n := |data| - 1;
    LastRow(data);
    SumWhereSnoc(CentreNames(data[..n]), RowValues(data[..n], c), data[n].centreName, RowValue(c, data[n]), name);
  }

  /** An entry not touched by the last row keeps agreeing. */
  lemma UntouchedEntry(data: seq<CentreData>, e: ProgressEntry)
    requires data != [] && e.name != data[|data| - 1].centreName
    requires EntryAgrees(data[..|data| - 1], e)
    ensures EntryAgrees(data, e)
  {
    var n := |data| - 1;
    LastRow(data);
    SumStep(data, Roles, e.name);
    SumStep(data, Completions, e.name);
    FirstIndexSnoc(CentreNames(data[..n]), data[n].centreName, e.name);
  }

  /** The entry the last row is added into keeps agreeing. */
  lemma TouchedEntry(data: seq<CentreData>, e: ProgressEntry)
    requires data != [] && e.name == data[|data| - 1].centreName
    requires EntryAgrees(data[..|data| - 1], e)
    ensures EntryAgrees(data, e.(
      numberOfRolesAvailable := e.numberOfRolesAvailable + data[|data| - 1].numberOfRolesAvailable,
      completedTraining := e.completedTraining + data[|data| - 1].completedTraining))
  {
    var n := |data| - 1;
    LastRow(data);
    SumStep(data, Roles, e.name);
    SumStep(data, Completions, e.name);
    FirstIndexSnoc(CentreNames(data[..n]), data[n].centreName, e.name);
  }

  /** The entry pushed for a new name agrees. */
  lemma PushedEntry(data: seq<CentreData>)
    requires data != [] && data[|data| - 1].centreName !in CentreNames(data[..|data| - 1])
    ensures EntryAgrees(data, NewEntry(data[|data| - 1]))
  {
    var n := |data| - 1;
    var name := data[n].centreName;
    LastRow(data);
    SumStep(data, Roles, name);
    SumStep(data, Completions, name);
  }

  /** Every entry adds up exactly the rows of its name and keeps the first row's rate. */
  lemma {:induction false} ProgressEntries(data: seq<CentreData>)
    ensures forall e :: e in CentreProgress(data) ==> EntryAgrees(data, e)
    decreases |data|
  {
    if data != [] {
      var n := |data| - 1;
      var acc, row := CentreProgress(data[..n]), data[n];
      ProgressEntries(data[..n]);
      ProgressNames(data[..n]);
      FirstSeenMembership(CentreNames(data[..n]), row.centreName);
      match FirstMatch(acc, NameKey, row.centreName)
      case None =>
        assert row.centreName !in Names(acc);
        forall e | e in acc ensures EntryAgrees(data, e) {
          var j :| 0 <= j < |acc| && acc[j] == e;
          assert Names(acc)[j] == e.name;
          UntouchedEntry(data, e);
        }
        PushedEntry(data);
      case Some(k) =>
        FirstSeenDistinct(CentreNames(data[..n]));
        forall e | e in Merge(acc, row, NameKey) ensures EntryAgrees(data, e) {
          var j :| 0 <= j < |acc| && Merge(acc, row, NameKey)[j] == e;
          if j == k {
            TouchedEntry(data, acc[k]);
          } else {
            assert Names(acc)[j] != Names(acc)[k];
            UntouchedEntry(data, acc[j]);
          }
        }
    }
  }

  /** Entries whose column values are the per-name sums add up to the sum over their names. */
  lemma {:induction false} EntryTotalIsSumOver(acc: seq<ProgressEntry>, c: Column, ks: seq<string>, ws: seq<nat>)
    requires |ks| == |ws|
    requires forall e :: e in acc ==> EntryValue(c, e) == SumWhere(ks, ws, e.name)
    ensures EntryTotal(acc, c) == SumOver(Names(acc), ks, ws)
    decreases |acc|
  {
    if acc != [] {
      EntryTotalIsSumOver(acc[1..], c, ks, ws);
      assert Names(acc)[1..] == Names(acc[1..]);
    }
  }

  /** Regrouping loses and duplicates nothing: each column adds up to the same total
      over the entries as over the rows. */
  lemma ProgressTotals(data: seq<CentreData>, c: Column)
    ensures EntryTotal(CentreProgress(data), c) == Sum(RowValues(data, c))
  {
    var acc := CentreProgress(data);
    ProgressEntries(data);
    forall e | e in acc ensures EntryValue(c, e) == SumWhere(CentreNames(data), RowValues(data, c), e.name) {
      match c
      case Roles =>
      case Completions =>
    }
    EntryTotalIsSumOver(acc, c, CentreNames(data), RowValues(data, c));
    ProgressNames(data);
    FirstSeenDistinct(CentreNames(data));
    forall k | k in CentreNames(data) ensures k in FirstSeen(CentreNames(data)) {
      FirstSeenMembership(CentreNames(data), k);
    }
    SumOverGroups(FirstSeen(CentreNames(data)), CentreNames(data), RowValues(data, c));
  }

  /** Rows that all carry one centre name give at most one entry, of that name. */
  lemma OneNameOneEntry(data: seq<CentreData>, name: string)
    requires forall i :: 0 <= i < |data| ==> data[i].centreName == name
    ensures |CentreProgress(data)| <= 1
    ensures forall e :: e in CentreProgress(data) ==> e.name == name
  {
    var acc := CentreProgress(data);
    ProgressNames(data);
    FirstSeenConstant(CentreNames(data), name);
    forall e | e in acc ensures e.name == name {
      var j :| 0 <= j < |acc| && acc[j] == e;
      assert Names(acc)[j] == e.name;
    }
  }

  /** Two rows of one centre name merge into one entry even when their centre
      numbers differ, and the rate stays the first row's. */
  lemma SameNameMerges(a: CentreData, b: CentreData)
    requires a.centreName == b.centreName
    ensures CentreProgress([a, b]) == [NewEntry(a).(
      numberOfRolesAvailable := a.numberOfRolesAvailable + b.numberOfRolesAvailable,
      completedTraining := a.completedTraining + b.completedTraining)]
  {
    assert [a, b][..1] == [a];
    assert [a][..0] == [];
    assert Regroup([a], NameKey) == [NewEntry(a)];
    assert FirstMatch([NewEntry(a)], NameKey, b.centreName) == Some(0);
  }

  // ---------------------------------------------------------------------------
  // The reduce as written

  /** As written, the lookup never finds an entry, so every row is pushed as
      an entry of its own. */
  lemma {:induction false} AsWrittenNeverMerges(data: seq<CentreData>)
    ensures Regroup(data, AsWrittenKey) == seq(|data|, i requires 0 <= i < |data| => NewEntry(data[i]))
    decreases |data|
  {
    if data != [] {
      var n := |data| - 1;
      AsWrittenNeverMerges(data[..n]);
    }
  }

  /** Two rows of one centre give two entries of the same name as written,
      where the intended regrouping gives one. */
  lemma AsWrittenDuplicatesNames(a: CentreData, b: CentreData)
    requires a.centreName == b.centreName
    ensures Names(Regroup([a, b], AsWrittenKey)) == [a.centreName, a.centreName]
    ensures !Distinct(Names(Regroup([a, b], AsWrittenKey)))
    ensures |CentreProgress([a, b])| == 1
  {
    AsWrittenNeverMerges([a, b]);
    SameNameMerges(a, b);
    var ns := Names(Regroup([a, b], AsWrittenKey));
    assert ns[0] == ns[1];
  }
}
