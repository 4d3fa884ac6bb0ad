/** One cycle of the background warning scan (finalmain.py:128-196): for every
    machine directory, read today's export, classify it, and merge the warnings
    into the day's cumulative table. The 60-second repetition is not modelled. */
module Scanner {
  import opened Records
  import opened Seqs
  import opened Classification
  import opened Merge

  /** The columns an export must have to be scanned (line 147). */
  const ScanColumns: set<string> :=
    {"PlantID", "ShopID", "Machine", "MachineID", "Timestamp", "Part", "Value", "Unit"}

  /** What opening a machine's export for today yields. */
  datatype Export =
    | NoFile                                               // line 141: skipped silently
    | ReadFails                                            // line 145: raises out of the loop
    | Loaded(columns: set<string>, rows: seq<Measurement>) // the sheet's header and rows

  /** How the inner `try` of lines 176-188 ends. */
  datatype StoreFault =
    | Stored        // the table was written
    | ReadBackFails // reading the existing table (line 179) raised
    | WriteFails    // writing the table (line 185) raised

  /** One entry of the directory listing, with what the file system does for it. */
  datatype MachineDir = MachineDir(name: string, sheet: Export, store: StoreFault)

  /** The state a cycle threads through its machines: the warnings file, the
      `warnings_list` collected so far, and whether an exception left the loop. */
  datatype CycleState = CycleState(file: Option<seq<WarningRow>>, found: seq<WarningRow>, aborted: bool)

  /** The inner `try`: a failure is logged and leaves the file as it was. */
  function Persist(file: Option<seq<WarningRow>>, batch: seq<WarningRow>, fault: StoreFault): (r: Option<seq<WarningRow>>)
    ensures r.Some? || r == file
    ensures r == file || r == Some(Store(file, batch))
    ensures fault == WriteFails || (fault == ReadBackFails && file.Some?) ==> r == file
    ensures fault == Stored ==> r == Some(Store(file, batch))
    ensures fault == ReadBackFails && file.None? ==> r == Some(batch)
  {
    match fault
    case Stored => Some(Store(file, batch))
    case ReadBackFails => if file.Some? then file else Some(Store(file, batch))
    case WriteFails => file
  }

  /** The machine's export is read and has every required column. */
  predicate Scanned(d: MachineDir)
  {
    d.sheet.Loaded? && ScanColumns <= d.sheet.columns
  }

  /** The warning rows one machine contributes when it is reached. */
  function Batch(d: MachineDir): seq<WarningRow>
  {
    if Scanned(d) then Classify(d.sheet.rows) else []
  }

  /** One iteration of the `for machine` loop body: the machine's warnings are
      always collected, the file changes only through `Persist`, and only an
      unreadable export leaves the loop. */
  function Visit(st: CycleState, d: MachineDir): (r: CycleState)
    ensures r.found == st.found + Batch(d)
    ensures r.aborted <==> st.aborted || d.sheet.ReadFails?
    ensures Scanned(d) ==> r.file == Persist(st.file, Batch(d), d.store)
    ensures !Scanned(d) ==> r.file == st.file
  {
    match d.sheet
    case NoFile => st
    case ReadFails => st.(aborted := true)
    case Loaded(columns, rows) =>
      if !(ScanColumns <= columns) then st
      else
        var batch := Classify(rows);
        CycleState(Persist(st.file, batch, d.store), st.found + batch, st.aborted)
  }

  /** The loop, as a fold that stops at the first exception. */
  function Run(st: CycleState, ds: seq<MachineDir>): (r: CycleState)
    ensures st.aborted ==> r == st
    ensures st.found <= r.found
    ensures st.file.Some? ==> r.file.Some?
    decreases |ds|
  {
    if ds == [] || st.aborted then st else Run(Visit(st, ds[0]), ds[1..])
  }

  /** The machines the loop reaches: those before the first unreadable export. */
  function Reached(ds: seq<MachineDir>): seq<MachineDir>
  {
    if ds == [] || ds[0].sheet.ReadFails? then [] else [ds[0]] + Reached(ds[1..])
  }

  /** The concatenation of the machines' batches, in directory order. */
  function Batches(ds: seq<MachineDir>): seq<WarningRow>
  {
    if ds == [] then [] else Batch(ds[0]) + Batches(ds[1..])
  }

  /** The file and the `warnings_cache` after one cycle. A failed directory
      listing (line 134) is caught at line 191 and leaves an empty cache. */
  function Cycle(listing: Option<seq<MachineDir>>, file: Option<seq<WarningRow>>): (r: (Option<seq<WarningRow>>, seq<WarningRow>))
    ensures listing.None? ==> r == (file, [])
    ensures file.Some? ==> r.0.Some?
  {
    match listing
    case None => (file, [])
    case Some(ds) =>
      var st := Run(CycleState(file, [], false), ds);
      (st.file, st.found)
  }

  /** The cycle itself: the loop of lines 137-188, ending early on an unreadable
      export, and the cache assignment of line 195. */
  method ScanCycle(listing: Option<seq<MachineDir>>, file0: Option<seq<WarningRow>>)
    returns (file: Option<seq<WarningRow>>, cache: seq<WarningRow>)
    ensures (file, cache) == Cycle(listing, file0)
  {
    file := file0;
    var warningsList: seq<WarningRow> := [];
    if listing.None? {
      cache := warningsList;
      return;
    }
    var dirs := listing.value;
    var i := 0;
    while i < |dirs|
      invariant 0 <= i <= |dirs|
      invariant Run(CycleState(file, warningsList, false), dirs[i..]) == Run(CycleState(file0, [], false), dirs)
    {
      var d := dirs[i];
      assert dirs[i..][0] == d && dirs[i..][1..] == dirs[i + 1..];
      if d.sheet.NoFile? {
        i := i + 1;
        continue;
      }
      if d.sheet.ReadFails? {
        break;
      }
      if !(ScanColumns <= d.sheet.columns) {
        i := i + 1;
        continue;
      }
      var batch := Classify(d.sheet.rows);
      warningsList := warningsList + batch;
      match d.store {
        case Stored =>
          file := Some(Store(file, batch));
        case ReadBackFails =>
          if file.None? {
            file := Some(batch);
          }
        case WriteFails =>
      }
      i := i + 1;
    }
    cache := warningsList;
  }

  /** A machine without an export, or whose export lacks a required column,
      changes neither the file nor the collected warnings. */
  lemma SkippedMachineChangesNothing(st: CycleState, d: MachineDir)
    requires d.sheet.NoFile? || (d.sheet.Loaded? && !(ScanColumns <= d.sheet.columns))
    ensures Visit(st, d) == st
  {
  }

  /** A failing store leaves the file as it was, yet the rows are still collected. */
  lemma FailedStoreKeepsFile(st: CycleState, d: MachineDir)
    requires d.store == WriteFails || (d.store == ReadBackFails && st.file.Some?)
    requires d.sheet.Loaded?
    ensures Visit(st, d).file == st.file
    ensures Visit(st, d).found == st.found + Batch(d)
  {
  }

  /** The collected warnings are the batches of the reached machines, in order. */
  lemma {:induction false} RunCollectsBatches(st: CycleState, ds: seq<MachineDir>)
    requires !st.aborted
    ensures Run(st, ds).found == st.found + Batches(Reached(ds))
    decreases |ds|
  {
    if ds != [] && !ds[0].sheet.ReadFails? {
      var st' := Visit(st, ds[0]);
      assert st'.found == st.found + Batch(ds[0]) && !st'.aborted;
      RunCollectsBatches(st', ds[1..]);
      assert Reached(ds) == [ds[0]] + Reached(ds[1..]);
      assert Batches(Reached(ds)) == Batch(ds[0]) + Batches(Reached(ds[1..]));
    }
  }

  /** The loop ends early exactly when some export cannot be read. */
  lemma {:induction false} RunAbortsOnReadFailure(st: CycleState, ds: seq<MachineDir>)
    requires !st.aborted
    ensures Run(st, ds).aborted <==> exists i :: 0 <= i < |ds| && ds[i].sheet.ReadFails?
    decreases |ds|
  {
    if ds != [] && !ds[0].sheet.ReadFails? {
      var st' := Visit(st, ds[0]);
      assert !st'.aborted;
      RunAbortsOnReadFailure(st', ds[1..]);
      assert (exists i :: 0 <= i < |ds| && ds[i].sheet.ReadFails?)
         <==> (exists i :: 0 <= i < |ds[1..]| && ds[1..][i].sheet.ReadFails?) by {
        if exists i :: 0 <= i < |ds| && ds[i].sheet.ReadFails? {
          var i :| 0 <= i < |ds| && ds[i].sheet.ReadFails?;
          assert ds[1..][i - 1] == ds[i];
        }
        if exists i :: 0 <= i < |ds[1..]| && ds[1..][i].sheet.ReadFails? {
          var i :| 0 <= i < |ds[1..]| && ds[1..][i].sheet.ReadFails?;
          assert ds[i + 1] == ds[1..][i];
        }
      }
    }
  }

  /** `warnings_cache` after a cycle: the concatenation, in directory order, of
      the warning rows of every machine reached before the first unreadable export. */
  lemma CacheIsConcatenation(listing: Option<seq<MachineDir>>, file: Option<seq<WarningRow>>)
    ensures listing.None? ==> Cycle(listing, file) == (file, [])
    ensures listing.Some? ==> Cycle(listing, file).1 == Batches(Reached(listing.value))
  {
    if listing.Some? {
      RunCollectsBatches(CycleState(file, [], false), listing.value);
    }
  }

  /** Once a table exists it keeps existing and never loses a key. */
  lemma {:induction false} RunNeverDropsKeys(st: CycleState, ds: seq<MachineDir>)
    requires st.file.Some?
    ensures Run(st, ds).file.Some?
    ensures KeysOf(RowKey, st.file.value) <= KeysOf(RowKey, Run(st, ds).file.value)
    decreases |ds|
  {
    if ds != [] && !st.aborted {
      var st' := Visit(st, ds[0]);
      if st'.file != st.file {
        MergeProperties(st.file.value, Batch(ds[0]));
      }
      RunNeverDropsKeys(st', ds[1..]);
    }
  }

  /** A table with distinct keys stays distinct through the cycle, and every one
      of its rows is still there afterwards: an existing row beats a new one. */
  lemma {:induction false} RunKeepsExistingRows(st: CycleState, ds: seq<MachineDir>)
    requires st.file.Some? && DistinctKeys(RowKey, st.file.value)
    ensures Run(st, ds).file.Some?
    ensures DistinctKeys(RowKey, Run(st, ds).file.value)
    ensures forall w :: w in st.file.value ==> w in Run(st, ds).file.value
    decreases |ds|
  {
    if ds != [] && !st.aborted {
      var st' := Visit(st, ds[0]);
      if st'.file != st.file {
        MergeKeepsDistinctTable(st.file.value, Batch(ds[0]));
      }
      RunKeepsExistingRows(st', ds[1..]);
    }
  }

  /** With every store succeeding, each reached machine's warning keys end up in
      the table, whether or not a table existed when the cycle began. */
  lemma {:induction false} RunRecordsStoredBatches(st: CycleState, ds: seq<MachineDir>)
    requires !st.aborted
    requires forall i :: 0 <= i < |ds| ==> ds[i].store == Stored
    ensures st.file.Some? ==> Run(st, ds).file.Some?
    ensures forall w :: w in Batches(Reached(ds)) ==>
              Run(st, ds).file.Some? && RowKey(w) in KeysOf(RowKey, Run(st, ds).file.value)
    decreases |ds|
  {
    if ds != [] && !ds[0].sheet.ReadFails? {
      var st' := Visit(st, ds[0]);
      var batch := Batch(ds[0]);
      if Scanned(ds[0]) && st.file.Some? {
        MergeProperties(st.file.value, batch);
      }
      assert forall w :: w in batch ==> st'.file.Some? && RowKey(w) in KeysOf(RowKey, st'.file.value);
      if st'.file.Some? {
        RunNeverDropsKeys(st', ds[1..]);
      }
      RunRecordsStoredBatches(st', ds[1..]);
      assert Reached(ds) == [ds[0]] + Reached(ds[1..]);
      assert Batches(Reached(ds)) == batch + Batches(Reached(ds[1..]));
    }
  }

  /** A distinct-keyed table that already holds the keys of all reached batches is
      left exactly as it is by the cycle, whatever the stores do. */
  lemma {:induction false} RunAbsorbsKnownBatches(st: CycleState, ds: seq<MachineDir>)
    requires st.file.Some? && DistinctKeys(RowKey, st.file.value) && !st.aborted
    requires forall w :: w in Batches(Reached(ds)) ==> RowKey(w) in KeysOf(RowKey, st.file.value)
    ensures Run(st, ds).file == st.file
    decreases |ds|
  {
    if ds != [] && !ds[0].sheet.ReadFails? {
      var st' := Visit(st, ds[0]);
      var batch := Batch(ds[0]);
      assert Reached(ds) == [ds[0]] + Reached(ds[1..]);
      assert Batches(Reached(ds)) == batch + Batches(Reached(ds[1..]));
      if batch != [] || st'.file != st.file {
        MergeAbsorbsKnownKeys(st.file.value, batch);
      }
      assert st'.file == st.file;
      RunAbsorbsKnownBatches(st', ds[1..]);
    }
  }

  /** Re-scanning the same day's exports after a cycle whose stores all succeeded
      leaves the table unchanged: no duplicate rows accumulate. */
  lemma RescanLeavesTableUnchanged(ds: seq<MachineDir>, file: Option<seq<WarningRow>>)
    requires file.Some? && DistinctKeys(RowKey, file.value)
    requires forall i :: 0 <= i < |ds| ==> ds[i].store == Stored
    ensures Cycle(Some(ds), file).0.Some?
    ensures DistinctKeys(RowKey, Cycle(Some(ds), file).0.value)
    ensures Cycle(Some(ds), Cycle(Some(ds), file).0).0 == Cycle(Some(ds), file).0
  {
    var st := CycleState(file, [], false);
    RunKeepsExistingRows(st, ds);
    RunRecordsStoredBatches(st, ds);
    var once := Run(st, ds).file;
    RunAbsorbsKnownBatches(CycleState(once, [], false), ds);
  }

  /** The day's first cycle starts without a warnings file. When every store
      succeeds and that cycle leaves a table with distinct keys, re-scanning the
      same exports leaves the table unchanged. */
  lemma RescanAfterFirstCycleLeavesTableUnchanged(ds: seq<MachineDir>)
    requires forall i :: 0 <= i < |ds| ==> ds[i].store == Stored
    requires Cycle(Some(ds), None).0.Some? && DistinctKeys(RowKey, Cycle(Some(ds), None).0.value)
    ensures Cycle(Some(ds), Cycle(Some(ds), None).0).0 == Cycle(Some(ds), None).0
  {
    var st := CycleState(None, [], false);
    RunRecordsStoredBatches(st, ds);
    var once := Run(st, ds).file;
    RunAbsorbsKnownBatches(CycleState(once, [], false), ds);
  }

  /** Without the distinct-keys premise a rescan can change the table: the first
      write keeps a batch's repeated key, and the rescan's merge removes it. */
  lemma RescanAfterFirstCycleCanDeduplicate(w: WarningRow)
    requires Classify([Source(w)]) == [w]
    ensures var ds := [MachineDir("m", Loaded(ScanColumns, [Source(w), Source(w)]), Stored)];
      Cycle(Some(ds), None).0 == Some([w, w])
      && Cycle(Some(ds), Cycle(Some(ds), None).0).0 == Some([w])
  {
    var ds := [MachineDir("m", Loaded(ScanColumns, [Source(w), Source(w)]), Stored)];
    var a := Source(w);
    assert [a, a][1..] == [a];
    assert Classify([a, a]) == [w, w];
    assert Batch(ds[0]) == [w, w] && ds[1..] == [];
    var once := Run(CycleState(None, [], false), ds);
    assert once == Run(Visit(CycleState(None, [], false), ds[0]), []);
    assert once.file == Some([w, w]);
    var k := RowKey(w);
    var all := [w, w] + [w, w];
    assert all[0] == w && all[1..] == [w, w, w];
    KeepFirstOfSeen(RowKey, [w, w, w], {k});
    var none: set<(string, string, string)> := {};
    assert none + {k} == {k};
    assert KeepFirst(RowKey, all, none) == [all[0]] + KeepFirst(RowKey, all[1..], none + {RowKey(all[0])});
    assert MergeInto([w, w], [w, w]) == [w];
    assert Run(CycleState(once.file, [], false), ds) == Run(Visit(CycleState(once.file, [], false), ds[0]), []);
  }
}
