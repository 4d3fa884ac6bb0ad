/** The read-only query handlers of the summary router (summary_page.py), which
    finalmain.py:42-124 repeats. Each handler filters or projects the master
    machine table or the day's warnings table, re-read on every request. */
module SummaryPage {
  import opened Records
  import opened Seqs
  import opened Classification

  /** The outcome a handler reports to its client. */
  datatype Response<T> =
    | Ok(data: T)   // 200 with the rows
    | NoRows        // 200 with a message and `"data": []`
    | NotFound      // 404: no warnings file for the day
    | BadRequest    // 400: a required column is missing
    | InternalError // 500: any other failure, caught or not

  /** The master machine table as loaded at start-up. */
  datatype MachineTable = MachineTable(columns: set<string>, rows: seq<MachineRecord>)

  /** What reading the day's warnings file yields on a request. */
  datatype WarningsFile =
    | Absent                                              // `os.path.exists` is false
    | Unreadable                                          // `read_excel` raises
    | Sheet(columns: set<string>, rows: seq<WarningRow>)  // the sheet's header and rows

  /** `/machines`: the whole master table, whatever its columns; it never fails. */
  function ListMachines(t: MachineTable): (r: Response<seq<MachineRecord>>)
    ensures r.Ok?
    ensures r.Ok? ==> r.data == t.rows
  {
    Ok(t.rows)
  }

  /** The status mask of lines 26 and 32: case-sensitive equality. */
  function WithStatus(t: MachineTable, status: string): (r: Response<seq<MachineRecord>>)
    ensures r.Ok? || r.InternalError?
    ensures r.InternalError? <==> "MachineStatus" !in t.columns
    ensures r.Ok? ==> forall i :: 0 <= i < |r.data| ==> r.data[i] in t.rows && r.data[i].machineStatus == status
    ensures r.Ok? ==> forall i :: 0 <= i < |t.rows| && t.rows[i].machineStatus == status ==> t.rows[i] in r.data
  {
    if "MachineStatus" !in t.columns then InternalError
    else Ok(Filter((m: MachineRecord) => m.machineStatus == status, t.rows))
  }

  /** `/operational_machines`. */
  function OperationalMachines(t: MachineTable): (r: Response<seq<MachineRecord>>)
    ensures r == WithStatus(t, "Operational")
  {
    WithStatus(t, "Operational")
  }

  /** `/non_operational_machines`. */
  function NonOperationalMachines(t: MachineTable): (r: Response<seq<MachineRecord>>)
    ensures r == WithStatus(t, "Non_Operational")
  {
    WithStatus(t, "Non_Operational")
  }

  /** Both status lists keep the table's order, are disjoint, and hold exactly
      as many copies of a record as the table does when its status matches. */
  lemma StatusListsPartition(t: MachineTable)
    requires "MachineStatus" in t.columns
    ensures OperationalMachines(t).Ok? && NonOperationalMachines(t).Ok?
    ensures Subseq(OperationalMachines(t).data, ListMachines(t).data)
    ensures Subseq(NonOperationalMachines(t).data, ListMachines(t).data)
    ensures forall m :: m in OperationalMachines(t).data ==> m !in NonOperationalMachines(t).data
    ensures forall m :: m in t.rows && m.machineStatus == "Operational" ==>
              multiset(OperationalMachines(t).data)[m] == multiset(t.rows)[m]
    ensures forall m :: m in t.rows && m.machineStatus == "Non_Operational" ==>
              multiset(NonOperationalMachines(t).data)[m] == multiset(t.rows)[m]
  {
    var op := (m: MachineRecord) => m.machineStatus == "Operational";
    var non := (m: MachineRecord) => m.machineStatus == "Non_Operational";
    FilterIsSubseq(op, t.rows);
    FilterIsSubseq(non, t.rows);
    forall m | m in t.rows && m.machineStatus == "Operational"
      ensures multiset(OperationalMachines(t).data)[m] == multiset(t.rows)[m]
    {
      FilterCount(op, t.rows, m);
    }
    forall m | m in t.rows && m.machineStatus == "Non_Operational"
      ensures multiset(NonOperationalMachines(t).data)[m] == multiset(t.rows)[m]
    {
      FilterCount(non, t.rows, m);
    }
  }

  /** The columns `/machines_with_alerts_count` selects (line 42, `Part` twice). */
  const AlertColumns: set<string> :=
    {"PlantID", "ShopID", "MachineID", "Machine", "Timestamp", "Part", "Value", "Status"}

  /** One row of `/machines_with_alerts_count`. */
  datatype AlertRow = AlertRow(
    plantId: string, shopId: string, machineId: string, machine: string,
    timestamp: string, part: string, value: real, status: string)

  function ToAlert(w: WarningRow): AlertRow
  {
    AlertRow(w.plantId, w.shopId, w.machineId, w.machine, w.timestamp, w.part, w.value, w.status)
  }

  /** `/machines_with_alerts_count` (lines 37-44). It has no `try`: a failed read
      or a missing column raises out of the handler and the server answers 500. */
  function AlertsCount(f: WarningsFile): (r: Response<seq<AlertRow>>)
    ensures r.NotFound? <==> f.Absent?
    ensures r.InternalError? <==> f.Unreadable? || (f.Sheet? && !(AlertColumns <= f.columns))
    ensures r.Ok? || r.NotFound? || r.InternalError?
    ensures r.Ok? ==> forall i, j :: 0 <= i < j < |r.data| ==> r.data[i] != r.data[j]
    ensures r.Ok? ==> forall i :: 0 <= i < |f.rows| ==> ToAlert(f.rows[i]) in r.data
    ensures r.Ok? ==> forall a :: a in r.data ==> exists w :: w in f.rows && ToAlert(w) == a
  {
    match f
    case Absent => NotFound
    case Unreadable => InternalError
    case Sheet(columns, rows) =>
      if !(AlertColumns <= columns) then InternalError
      else
        var projected := Map(ToAlert, rows);
        var r := Distinct(projected);
        assert forall i :: 0 <= i < |rows| ==> ToAlert(rows[i]) in r by {
          forall i | 0 <= i < |rows| ensures ToAlert(rows[i]) in r {
            assert projected[i] == ToAlert(rows[i]);
          }
        }
        assert forall a :: a in r ==> a in projected;
        Ok(r)
  }

  /** The columns `/machines_with_warnings` requires and selects (line 53). */
  const IdentityColumns: set<string> := {"PlantID", "ShopID", "MachineID", "Machine", "Status"}

  /** One row of `/machines_with_warnings`. */
  datatype MachineSummary = MachineSummary(
    plantId: string, shopId: string, machineId: string, machine: string, status: string)

  function ToSummary(w: WarningRow): MachineSummary
  {
    MachineSummary(w.plantId, w.shopId, w.machineId, w.machine, w.status)
  }

  /** `/machines_with_warnings` (lines 47-65): 404, then 400, then the distinct projections. */
  function MachinesWithWarnings(f: WarningsFile): (r: Response<seq<MachineSummary>>)
    ensures r.NotFound? <==> f.Absent?
    ensures r.InternalError? <==> f.Unreadable?
    ensures r.BadRequest? <==> f.Sheet? && !(IdentityColumns <= f.columns)
    ensures r.Ok? || r.NotFound? || r.BadRequest? || r.InternalError?
    ensures r.Ok? ==> forall i, j :: 0 <= i < j < |r.data| ==> r.data[i] != r.data[j]
    ensures r.Ok? ==> forall i :: 0 <= i < |f.rows| ==> ToSummary(f.rows[i]) in r.data
    ensures r.Ok? ==> forall s :: s in r.data ==> exists w :: w in f.rows && ToSummary(w) == s
  {
    match f
    case Absent => NotFound
    case Unreadable => InternalError
    case Sheet(columns, rows) =>
      if !(IdentityColumns <= columns) then BadRequest
      else
        var projected := Map(ToSummary, rows);
        var r := Distinct(projected);
        assert forall i :: 0 <= i < |rows| ==> ToSummary(rows[i]) in r by {
          forall i | 0 <= i < |rows| ensures ToSummary(rows[i]) in r {
            assert projected[i] == ToSummary(rows[i]);
          }
        }
        assert forall s :: s in r ==> s in projected;
        Ok(r)
  }

  /** Both projections list each distinct projected row once, in the order of
      its first occurrence in the table: of two listed rows, the one listed
      earlier first occurs earlier in the projected table. */
  lemma ProjectionsKeepFirstOrder(f: WarningsFile)
    ensures AlertsCount(f).Ok? ==> f.Sheet? && forall i, j :: 0 <= i < j < |AlertsCount(f).data| ==>
              var a := Map(ToAlert, f.rows);
              AlertsCount(f).data[i] in a && AlertsCount(f).data[j] in a &&
              FirstIndex(a, AlertsCount(f).data[i]) < FirstIndex(a, AlertsCount(f).data[j])
    ensures MachinesWithWarnings(f).Ok? ==> f.Sheet? && forall i, j :: 0 <= i < j < |MachinesWithWarnings(f).data| ==>
              var s := Map(ToSummary, f.rows);
              MachinesWithWarnings(f).data[i] in s && MachinesWithWarnings(f).data[j] in s &&
              FirstIndex(s, MachinesWithWarnings(f).data[i]) < FirstIndex(s, MachinesWithWarnings(f).data[j])
    ensures AlertsCount(f).Ok? ==> AlertsCount(f).data == Distinct(Map(ToAlert, f.rows))
    ensures AlertsCount(f).Ok? ==> Subseq(AlertsCount(f).data, Map(ToAlert, f.rows))
    ensures MachinesWithWarnings(f).Ok? ==> MachinesWithWarnings(f).data == Distinct(Map(ToSummary, f.rows))
    ensures MachinesWithWarnings(f).Ok? ==> Subseq(MachinesWithWarnings(f).data, Map(ToSummary, f.rows))
  {
    if f.Sheet? {
      DistinctIsSubseq(Map(ToAlert, f.rows));
      DistinctIsSubseq(Map(ToSummary, f.rows));
    }
  }

  /** ASCII lower-casing of one character. */
  function LowerChar(c: char): char
  {
    if 'A' <= c <= 'Z' then (c as int + 32) as char else c
  }

  /** `str.lower`, restricted to ASCII letters. */
  function Lower(s: string): (r: string)
    ensures |r| == |s|
    ensures forall i :: 0 <= i < |s| ==> r[i] == LowerChar(s[i])
  {
    seq(|s|, i requires 0 <= i < |s| => LowerChar(s[i]))
  }

  /** Lower-casing twice is lower-casing once. */
  lemma LowerIdempotent(s: string)
    ensures Lower(Lower(s)) == Lower(s)
  {
  }

  /** The row mask of line 77 against an already lower-cased category. */
  predicate InCategory(w: WarningRow, needle: string)
  {
    Lower(w.riskCategory) == needle
  }

  /** Lines 72-81 after `category.lower()`: 404, then 400, then the matching rows,
      or a successful empty answer when none match. */
  function RiskFilter(f: WarningsFile, needle: string): (r: Response<seq<WarningRow>>)
    ensures r.NotFound? <==> f.Absent?
    ensures r.InternalError? <==> f.Unreadable?
    ensures r.BadRequest? <==> f.Sheet? && "RiskCategory" !in f.columns
    ensures r.NoRows? <==> f.Sheet? && "RiskCategory" in f.columns && forall i :: 0 <= i < |f.rows| ==> !InCategory(f.rows[i], needle)
    ensures r.Ok? ==> r.data != []
    ensures r.Ok? ==> forall i :: 0 <= i < |r.data| ==> r.data[i] in f.rows && InCategory(r.data[i], needle)
    ensures r.Ok? ==> forall i :: 0 <= i < |f.rows| && InCategory(f.rows[i], needle) ==> f.rows[i] in r.data
  {
    match f
    case Absent => NotFound
    case Unreadable => InternalError
    case Sheet(columns, rows) =>
      if "RiskCategory" !in columns then BadRequest
      else
        var hits := Filter((w: WarningRow) => InCategory(w, needle), rows);
        if hits == [] then NoRows
        else
          assert hits[0] in rows && InCategory(hits[0], needle);
          Ok(hits)
  }

  /** `/risk/{category}` (lines 67-85). */
  function RiskByCategory(f: WarningsFile, category: string): (r: Response<seq<WarningRow>>)
    ensures r == RiskFilter(f, Lower(category))
  {
    RiskFilter(f, Lower(category))
  }

  /** The answer depends on the category only through its lower-cased form. */
  lemma RiskByCategoryIgnoresCase(f: WarningsFile, c1: string, c2: string)
    requires Lower(c1) == Lower(c2)
    ensures RiskByCategory(f, c1) == RiskByCategory(f, c2)
  {
  }

  /** The matches keep the table's order and every copy of a matching row. */
  lemma RiskFilterKeepsOrder(f: WarningsFile, needle: string)
    requires RiskFilter(f, needle).Ok?
    ensures Subseq(RiskFilter(f, needle).data, f.rows)
    ensures forall w :: w in f.rows && InCategory(w, needle) ==>
              multiset(RiskFilter(f, needle).data)[w] == multiset(f.rows)[w]
  {
    var p := (w: WarningRow) => InCategory(w, needle);
    FilterIsSubseq(p, f.rows);
    forall w | w in f.rows && InCategory(w, needle)
      ensures multiset(RiskFilter(f, needle).data)[w] == multiset(f.rows)[w]
    {
      FilterCount(p, f.rows, w);
    }
  }

  /** `/risk_highest` (lines 87-89). */
  function RiskHighest(f: WarningsFile): (r: Response<seq<WarningRow>>)
    ensures r == RiskByCategory(f, "Highest Risk")
  {
    RiskByCategory(f, "Highest Risk")
  }

  /** `/risk_high` (lines 91-93). */
  function RiskHigh(f: WarningsFile): (r: Response<seq<WarningRow>>)
    ensures r == RiskByCategory(f, "High Risk")
  {
    RiskByCategory(f, "High Risk")
  }

  /** `/risk_medium` (lines 95-97). */
  function RiskMedium(f: WarningsFile): (r: Response<seq<WarningRow>>)
    ensures r == RiskByCategory(f, "Medium Risk")
  {
    RiskByCategory(f, "Medium Risk")
  }

  /** `/risk_low` (lines 99-101). */
  function RiskLow(f: WarningsFile): (r: Response<seq<WarningRow>>)
    ensures r == RiskByCategory(f, "Low Risk")
  {
    RiskByCategory(f, "Low Risk")
  }

  /** Lower-cased strings of different lengths differ. */
  lemma LowerSameLength(a: string, b: string)
    requires Lower(a) == Lower(b)
    ensures |a| == |b|
  {
    assert |Lower(a)| == |a| && |Lower(b)| == |b|;
  }

  /** For a row the scanner wrote, each fixed risk endpoint selects exactly one
      vibration band, and a temperature warning matches none of them: the match is
      exact, so "High Risk" does not pick up "Highest Risk" rows. */
  lemma RiskEndpointsSelectBands(m: Measurement)
    requires IsWarning(m)
    ensures InCategory(ToWarning(m), Lower("Highest Risk")) <==> m.unit == Vibration && 15.0 <= m.value
    ensures InCategory(ToWarning(m), Lower("High Risk")) <==> m.unit == Vibration && 13.0 <= m.value < 15.0
    ensures InCategory(ToWarning(m), Lower("Medium Risk")) <==> m.unit == Vibration && 10.0 <= m.value < 13.0
    ensures InCategory(ToWarning(m), Lower("Low Risk")) <==> m.unit == Vibration && m.value < 10.0
  {
    var c := ToWarning(m).riskCategory;
    WarningCategory(m);
    assert c in ["Low Risk", "Medium Risk", "High Risk", "Highest Risk", "NA"];
    if InCategory(ToWarning(m), Lower("Highest Risk")) { LowerSameLength(c, "Highest Risk"); }
    if InCategory(ToWarning(m), Lower("High Risk")) { LowerSameLength(c, "High Risk"); }
    if InCategory(ToWarning(m), Lower("Medium Risk")) { LowerSameLength(c, "Medium Risk"); }
    if InCategory(ToWarning(m), Lower("Low Risk")) { LowerSameLength(c, "Low Risk"); }
  }
}
