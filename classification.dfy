/** The per-row warning rule of the scanner: which export rows are warnings, and
    which risk category each warning gets (finalmain.py:152-171). */
module Classification {
  import opened Records
  import opened Seqs

  /** The vibration unit, whose warnings are graded by the risk ladder. */
  const Vibration: string := "mm/sec"
  /** The temperature unit, whose warnings are all categorised "NA". */
  const Temperature: string := "Degree C"

  /** The row mask: a vibration above 8 or a temperature above 70, both strict. */
  predicate IsWarning(m: Measurement): (b: bool)
    ensures b ==> m.unit == Vibration || m.unit == Temperature
    ensures m.unit == Vibration ==> (b <==> 8.0 < m.value)
    ensures m.unit == Temperature ==> (b <==> 70.0 < m.value)
  {
    (m.unit == Vibration && m.value > 8.0) || (m.unit == Temperature && m.value > 70.0)
  }

  /** The nested `np.where` ladder for vibration readings, "No Risk" branch included. */
  function VibrationRisk(v: real): (c: string)
    ensures c == "No Risk" <==> v < 8.0
    ensures c == "Low Risk" <==> 8.0 <= v < 10.0
    ensures c == "Medium Risk" <==> 10.0 <= v < 13.0
    ensures c == "High Risk" <==> 13.0 <= v < 15.0
    ensures c == "Highest Risk" <==> 15.0 <= v
  {
    if v < 8.0 then "No Risk"
    else if v < 10.0 then "Low Risk"
    else if v < 13.0 then "Medium Risk"
    else if v < 15.0 then "High Risk"
    else "Highest Risk"
  }

  /** The ordinal of a risk category; "NA" and unknown names sit below "No Risk". */
  function RiskLevel(c: string): int
  {
    if c == "No Risk" then 0
    else if c == "Low Risk" then 1
    else if c == "Medium Risk" then 2
    else if c == "High Risk" then 3
    else if c == "Highest Risk" then 4
    else -1
  }

  /** A higher vibration never gets a lower risk category. */
  lemma VibrationRiskMonotone(v: real, u: real)
    requires v <= u
    ensures 0 <= RiskLevel(VibrationRisk(v)) <= RiskLevel(VibrationRisk(u))
  {
  }

  /** The warning row built from a selected export row (lines 154-171): the eight
      columns copied, Status set, RiskCategory from the ladder or "NA". */
  function ToWarning(m: Measurement): (w: WarningRow)
    ensures Source(w) == m
    ensures w.status == "Warning"
    ensures m.unit != Vibration ==> w.riskCategory == "NA"
    ensures m.unit == Vibration ==> w.riskCategory == VibrationRisk(m.value)
  {
    var category := if m.unit == Vibration then VibrationRisk(m.value) else "NA";
    WarningRow(m.plantId, m.shopId, m.machine, m.machineId, m.timestamp, m.part, m.value, m.unit,
               "Warning", category)
  }

  /** The category a warning row actually gets: the bands of the ladder for
      vibration, never "No Risk", and "NA" for temperature. */
  lemma WarningCategory(m: Measurement)
    requires IsWarning(m)
    ensures ToWarning(m).riskCategory != "No Risk"
    ensures m.unit == Vibration ==> 8.0 < m.value
    ensures m.unit == Vibration && m.value < 10.0 ==> ToWarning(m).riskCategory == "Low Risk"
    ensures m.unit == Vibration && 10.0 <= m.value < 13.0 ==> ToWarning(m).riskCategory == "Medium Risk"
    ensures m.unit == Vibration && 13.0 <= m.value < 15.0 ==> ToWarning(m).riskCategory == "High Risk"
    ensures m.unit == Vibration && 15.0 <= m.value ==> ToWarning(m).riskCategory == "Highest Risk"
    ensures m.unit != Vibration ==> m.unit == Temperature && 70.0 < m.value && ToWarning(m).riskCategory == "NA"
  {
  }

  /** The thresholds are strict: 8 mm/sec and 70 Degree C are not warnings,
      12 mm/sec is a "Medium Risk" warning, 71 Degree C is an "NA" warning and
      7 mm/sec is no warning at all. */
  lemma ThresholdBoundaries(m: Measurement)
    ensures m.unit == Vibration && m.value == 8.0 ==> !IsWarning(m)
    ensures m.unit == Temperature && m.value == 70.0 ==> !IsWarning(m)
    ensures m.unit == Vibration && m.value == 12.0 ==> IsWarning(m) && ToWarning(m).riskCategory == "Medium Risk"
    ensures m.unit == Temperature && m.value == 71.0 ==> IsWarning(m) && ToWarning(m).riskCategory == "NA"
    ensures m.unit == Vibration && m.value == 7.0 ==> !IsWarning(m)
    ensures m.unit != Vibration && m.unit != Temperature ==> !IsWarning(m)
  {
  }

  /** The warning rows of one export: the masked rows, converted, in file order. */
  function Classify(rows: seq<Measurement>): (r: seq<WarningRow>)
    ensures |r| <= |rows|
    ensures forall i :: 0 <= i < |r| ==>
      r[i].status == "Warning" && IsWarning(Source(r[i])) && Source(r[i]) in rows && r[i] == ToWarning(Source(r[i]))
    ensures forall i :: 0 <= i < |rows| ==> (ToWarning(rows[i]) in r <==> IsWarning(rows[i]))
  {
    if rows == [] then []
    else if IsWarning(rows[0]) then [ToWarning(rows[0])] + Classify(rows[1..])
    else Classify(rows[1..])
  }

  /** Dropping the two added columns gives back exactly the masked export rows,
      in order: nothing else is selected, nothing selected is altered. */
  lemma {:induction false} ClassifySelectsMaskedRows(rows: seq<Measurement>)
    ensures Sources(Classify(rows)) == Filter(IsWarning, rows)
  {
    if rows != [] {
      ClassifySelectsMaskedRows(rows[1..]);
      if IsWarning(rows[0]) {
        var ws := Classify(rows);
        assert ws[0] == ToWarning(rows[0]) && ws[1..] == Classify(rows[1..]);
        assert Sources(ws) == [Source(ws[0])] + Sources(ws[1..]);
      }
    }
  }
}
