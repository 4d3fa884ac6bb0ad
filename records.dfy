/** The records that flow from the machines' daily exports, through the warning
    scanner, into the cumulative warnings table and out of the query handlers. */
module Records {

  /** A value that may be missing: an absent file, a failed directory listing. */
  datatype Option<T> = None | Some(value: T)

  /** One row of a machine's daily export, restricted to the eight columns the
      scanner requires (finalmain.py:147). */
  datatype Measurement = Measurement(
    plantId: string,
    shopId: string,
    machine: string,
    machineId: string,
    timestamp: string,
    part: string,
    value: real,
    unit: string)

  /** One row of the cumulative warnings table: the eight export columns plus
      the Status and RiskCategory columns the scanner adds. */
  datatype WarningRow = WarningRow(
    plantId: string,
    shopId: string,
    machine: string,
    machineId: string,
    timestamp: string,
    part: string,
    value: real,
    unit: string,
    status: string,
    riskCategory: string)

  /** The export columns a warning row carries over unchanged. */
  function Source(w: WarningRow): Measurement
  {
    Measurement(w.plantId, w.shopId, w.machine, w.machineId, w.timestamp, w.part, w.value, w.unit)
  }

  /** The export columns of a whole table, row by row. */
  function Sources(ws: seq<WarningRow>): (ms: seq<Measurement>)
    ensures |ms| == |ws|
    ensures forall i :: 0 <= i < |ws| ==> ms[i] == Source(ws[i])
  {
    if ws == [] then [] else [Source(ws[0])] + Sources(ws[1..])
  }

  /** One row of the master machine table, loaded once at start-up. */
  datatype MachineRecord = MachineRecord(
    plantId: string,
    shopId: string,
    machineId: string,
    machine: string,
    machineStatus: string,
    location: string)
}
