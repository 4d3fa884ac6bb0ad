# Machine-telemetry warning scanner and query handlers, in Dafny

This project models the part of the machine-telemetry service that has clear rules:

- the background **warning scanner** (`scan_files_for_warnings` in `finalmain.py`). It reads
  each machine's daily export and marks some rows as warnings: a vibration above 8 mm/sec or a
  temperature above 70 °C. Each warning gets a risk category. The warnings are merged into the
  day's cumulative table, with a keep-first `drop_duplicates` on (Machine, Timestamp, Part);
- the **query handlers** of the summary router (`summary_page.py`, repeated at
  `finalmain.py:42-124`). These are status filters on the master machine table, projections
  de-duplicated on the full row, and a case-insensitive filter on the risk category. They
  answer 404 for an absent file, 400 for a missing column where the handler checks for it
  (`/machines_with_warnings`, `/risk/{category}`), and 500 for any other failure, including a
  missing column in the handlers that do not check for it (the status lists and
  `/machines_with_alerts_count`).

Files and modules:

| file | module | models |
|---|---|---|
| `records.dfy` | `Records` | the export row, the warning row, the machine record, `Option` |
| `seqs.dfy` | `Seqs` | order-preserving filter, projection, keep-first de-duplication, subsequence |
| `classification.dfy` | `Classification` | the warning mask and the risk ladder (`finalmain.py:152-171`) |
| `merge.dfy` | `Merge` | the cumulative merge (`finalmain.py:176-185`) |
| `scanner.dfy` | `Scanner` | one scan cycle as a method with a loop, and the fold that specifies it |
| `summary.dfy` | `SummaryPage` | the handlers and their outcomes |

The scanner's loop is the method `Scanner.ScanCycle`. Its postcondition ties the returned file
and `warnings_cache` to the fold `Scanner.Cycle`, and the lemmas beside it state what a cycle
guarantees. The file system is an input, not a side effect:

- the directory listing is an `Option<seq<MachineDir>>`;
- each machine's export is `NoFile`, `ReadFails` or `Loaded(columns, rows)`;
- the outcome of the inner `try` is `Stored`, `ReadBackFails` or `WriteFails`;
- the warnings file is an `Option<seq<WarningRow>>`, where `None` means no file yet.

The query handlers are functions of the loaded tables. `Value` is a `real`, because the code
only compares it.

Where the code differs from what its endpoints and comments suggest, the model follows the code:

- `/machines_with_alerts_count` has no `try`. A missing column raises `KeyError` out of the
  handler, so the answer is a 500 (`InternalError`), not a 400 (`summary_page.py:36-44`).
- A read failure at `finalmain.py:145` is outside the inner `try`. It ends the whole cycle,
  not just that machine: the remaining machines are not visited (`Scanner.RunCollectsBatches`,
  `Scanner.RunAbortsOnReadFailure`). Only the read-back and the write of lines 177-185 are
  isolated per machine.
- The day's first write (`finalmain.py:182-183`) stores the batch as it is. Duplicate keys
  within that batch therefore stay until the next merge. "At most one row per key" holds only
  once a table exists (`Merge.Store`, `Merge.FirstWriteKeepsDuplicateKeys`,
  `Scanner.RunKeepsExistingRows`).
- The merge key (Machine, Timestamp, Part) leaves out Unit. An mm/sec warning and a Degree C
  warning of the same part at the same timestamp therefore share a key, and only the first of
  them in file order stays in the table (`Merge.MergeProperties`).
- The ladder's "No Risk" branch is kept, and it is unreachable for warning rows
  (`Classification.WarningCategory`).

## Model

| member | source | states |
|---|---|---|
| `Classification.IsWarning` | finalmain.py:152-153 | only an mm/sec or Degree C row can be a warning; an mm/sec row is one exactly when its value is strictly above 8, a Degree C row exactly when its value is strictly above 70 |
| `Classification.VibrationRisk` | finalmain.py:160-171 | the ladder gives exactly the bands: below 8 "No Risk", [8,10) "Low Risk", [10,13) "Medium Risk", [13,15) "High Risk", 15 and above "Highest Risk" |
| `Classification.VibrationRiskMonotone` | finalmain.py:160-171 | a higher vibration never gets a lower risk category |
| `Classification.ToWarning` | finalmain.py:154-171 | a warning row keeps the eight export fields unchanged, has Status "Warning", and has RiskCategory from the ladder for mm/sec and "NA" for any other unit |
| `Classification.WarningCategory` | finalmain.py:152-171 | for a selected row: never "No Risk"; each mm/sec band maps to its category; a row whose unit is not mm/sec is a temperature above 70 with category "NA" |
| `Classification.ThresholdBoundaries` | finalmain.py:152-153 | 8 mm/sec and 70 Degree C are not warnings; 12 mm/sec is a "Medium Risk" warning; 71 Degree C is an "NA" warning; 7 mm/sec and other units are not selected |
| `Classification.Classify` | finalmain.py:152-155 | every output row is the warning row of a selected input row; an input row's warning row is in the output exactly when the row is selected |
| `Classification.ClassifySelectsMaskedRows` | finalmain.py:152-155 | dropping Status and RiskCategory from the output gives exactly the masked input rows, in file order |
| `Merge.MergeInto` | finalmain.py:179-181 | the merged table has no two rows with the same (Machine, Timestamp, Part), and each of its rows comes from the existing table or the batch |
| `Merge.Store` | finalmain.py:178-183 | with no table the batch is written as it is; with a table the result has distinct keys |
| `Merge.MergeProperties` | finalmain.py:179-181 | the merge has distinct keys, is a subsequence of existing ++ batch, and has exactly the keys of both sides. It retains every row of existing ++ batch whose key does not occur earlier in that concatenation, so file order decides which of two batch rows with the same key survives. A row whose key the existing table has is always an existing row |
| `Merge.MergeAppendsNewRows` | finalmain.py:179-181 | on a table with distinct keys the merge is the existing table, unchanged and in order, followed by the first batch row of every key the table lacks, in batch order |
| `Merge.MergeKeepsDistinctTable` | finalmain.py:179-181 | an existing table with distinct keys survives a merge row for row |
| `Merge.MergeAbsorbsKnownKeys` | finalmain.py:179-181 | a batch whose keys the table already has leaves a distinct-keyed table unchanged |
| `Merge.MergeIdempotent` | finalmain.py:179-181 | merging the same batch into the merged table again changes nothing |
| `Merge.StoreIdempotent` | finalmain.py:178-183 | once a table exists, storing the same batch twice equals storing it once |
| `Merge.FirstWriteKeepsDuplicateKeys` | finalmain.py:182-183 | the first write of a batch with a repeated key keeps both rows; a write onto an existing (even empty) table does not |
| `Scanner.Persist` | finalmain.py:176-188 | the file ends up either as it was or as the stored merge. A failing write, or a failing read-back of an existing file, leaves it as it was. A successful store writes the merge of the batch into the file, and with no file yet the batch itself is written |
| `Scanner.Visit` | finalmain.py:141-188 | one machine: its warning rows are appended to `warnings_list`; only an unreadable export leaves the loop; a scanned machine changes the file only through the inner `try` (`Persist`), and a skipped machine leaves the file as it was |
| `Scanner.Run` | finalmain.py:137-188 | once an exception has left the loop nothing changes any more; the rows collected so far are a prefix of the final list; a file that exists is never removed |
| `Scanner.Cycle` | finalmain.py:131-195 | a failed listing leaves the file as it was and an empty `warnings_cache`; a cycle never removes an existing file |
| `Scanner.ScanCycle` | finalmain.py:128-195 | the loop returns the file and `warnings_cache` that the fold `Cycle` gives: a failed listing leaves the file and an empty cache; a read failure stops the loop, and the rows collected so far are kept |
| `Scanner.SkippedMachineChangesNothing` | finalmain.py:141-150 | a machine with no export or with a missing required column changes neither the file nor the collected rows |
| `Scanner.FailedStoreKeepsFile` | finalmain.py:173-188 | a failing read-back or write leaves the file unchanged, but the machine's warnings are still appended to `warnings_list` |
| `Scanner.RunCollectsBatches` | finalmain.py:137-173 | the collected rows are the concatenation, in directory order, of the warning rows of each machine reached before the first unreadable export |
| `Scanner.RunAbortsOnReadFailure` | finalmain.py:145-192 | the loop ends early exactly when some export cannot be read |
| `Scanner.CacheIsConcatenation` | finalmain.py:131-195 | after a cycle `warnings_cache` is empty when the listing fails, and otherwise is the concatenation of the reached machines' warning rows |
| `Scanner.RunNeverDropsKeys` | finalmain.py:176-185 | once a table exists it keeps existing through the cycle and never loses a key |
| `Scanner.RunKeepsExistingRows` | finalmain.py:176-185 | a distinct-keyed table stays distinct-keyed through the cycle, and every one of its rows is still there |
| `Scanner.RunRecordsStoredBatches` | finalmain.py:176-185 | when every store succeeds, the table at the end of the cycle holds the key of every collected warning row, so a table exists once any row was collected, whether or not one existed when the cycle began; an existing table keeps existing |
| `Scanner.RunAbsorbsKnownBatches` | finalmain.py:176-185 | a distinct-keyed table that already has every reached batch's keys is left unchanged by the cycle, whatever the stores do |
| `Scanner.RescanLeavesTableUnchanged` | finalmain.py:137-188 | when the first cycle began on an existing table with distinct keys and its stores all succeeded, its table has distinct keys, and re-scanning the same exports leaves that table unchanged |
| `Scanner.RescanAfterFirstCycleLeavesTableUnchanged` | finalmain.py:137-188 | when the first cycle began with no warnings file, its stores all succeeded, and it left a table with distinct keys, re-scanning the same exports leaves that table unchanged |
| `Scanner.RescanAfterFirstCycleCanDeduplicate` | finalmain.py:176-185 | without that premise a rescan can change the table: one machine whose export repeats a warning row first writes both copies (line 183), and the rescan's merge keeps one |
| `SummaryPage.ListMachines` | summary_page.py:18-22 | `/machines` never fails and needs no particular column: it answers every record of the master table, in table order |
| `SummaryPage.WithStatus` | summary_page.py:24-34 | the answer is a success or a 500, never a 400, 404 or empty-message answer; 500 exactly when the MachineStatus column is missing; otherwise the rows with that exact status, all of them and nothing else (an empty list when none matches) |
| `SummaryPage.OperationalMachines` | summary_page.py:24-28 | `/operational_machines` is the status filter for "Operational" |
| `SummaryPage.NonOperationalMachines` | summary_page.py:30-34 | `/non_operational_machines` is the status filter for "Non_Operational" |
| `SummaryPage.StatusListsPartition` | summary_page.py:18-34 | both lists are subsequences of `/machines` and are disjoint. Each keeps every copy of a matching record |
| `SummaryPage.AlertsCount` | summary_page.py:36-44 | 404 exactly when the file is absent; 500 when it cannot be read or lacks a selected column; otherwise the projected rows with no two identical, every input row's projection present, and each output row the projection of an input row |
| `SummaryPage.MachinesWithWarnings` | summary_page.py:46-65 | 404 exactly when the file is absent; 400 exactly when PlantID, ShopID, MachineID, Machine or Status is missing; 500 on a read failure; otherwise the distinct projections, each from an input row, every input row's projection present |
| `SummaryPage.ProjectionsKeepFirstOrder` | summary_page.py:42-59 | both projection endpoints list each distinct projected row once; of two listed rows, the one listed earlier has its first occurrence earlier in the projected table; the list is a subsequence of the projected table |
| `SummaryPage.Lower` | summary_page.py:77 | lower-casing keeps the length and lower-cases each ASCII letter |
| `SummaryPage.LowerIdempotent` | summary_page.py:77 | lower-casing twice is lower-casing once |
| `SummaryPage.RiskFilter` | summary_page.py:69-81 | 404 before any column check, then 400 without RiskCategory, and 500 on a read failure. With no matching row the answer is a successful empty result. Otherwise the result is non-empty and holds exactly the rows whose lower-cased category equals the needle |
| `SummaryPage.RiskByCategory` | summary_page.py:67-85 | `/risk/{category}` filters against the lower-cased category |
| `SummaryPage.RiskByCategoryIgnoresCase` | summary_page.py:77 | the answer depends on the category only through its lower-cased form |
| `SummaryPage.RiskFilterKeepsOrder` | summary_page.py:77-81 | the matches keep the table's order and every copy of a matching row |
| `SummaryPage.RiskHighest` | summary_page.py:87-89 | `/risk_highest` is the category filter for "Highest Risk" |
| `SummaryPage.RiskHigh` | summary_page.py:91-93 | `/risk_high` is the category filter for "High Risk" |
| `SummaryPage.RiskMedium` | summary_page.py:95-97 | `/risk_medium` is the category filter for "Medium Risk" |
| `SummaryPage.RiskLow` | summary_page.py:99-101 | `/risk_low` is the category filter for "Low Risk" |
| `SummaryPage.RiskEndpointsSelectBands` | summary_page.py:87-101 | for a scanner-written warning row, each fixed risk endpoint matches exactly its vibration band, and a temperature warning matches none of them. "High Risk" does not match "Highest Risk" rows |

## Left out

- Spreadsheet I/O (`read_excel`, `to_excel`, `os.path.exists`, `os.listdir`): these are inputs. An export, the warnings file and the listing are datatypes, and the model does not capture how a value survives being written and read back.
- The `os.path.isdir` filter of the listing: the listing given to the cycle is already the list of machine directories.
- The `while True` loop, `asyncio.sleep(60)`, `create_task` and the start-up hooks: one cycle is modelled. Logging is not modelled.
- The readers' view of a file being rewritten (a torn read) and any other concurrency.
- A failed write is assumed to leave the file as it was. A partially written file is not modelled.
- `Scanner.ScanCycle`: `ReadFails` stands for any exception between lines 145 and 173, for example a comparison on a non-numeric `Value`. Which inputs raise there is not modelled.
- Extra columns of an export or of the warnings sheet are not carried. A warnings row is the ten columns the scanner writes.
- NaN values and pandas float semantics are not modelled. The model reads the warnings file back with the values the scanner wrote. In the code, `read_excel` treats the string "NA" as missing by default, so every temperature warning's RiskCategory comes back as NaN, both in the merge's read-back (`finalmain.py:179`) and in the handlers (`summary_page.py:73`). Two consequences differ from the model. First, `/risk/NA` never matches a row in the code, while `SummaryPage.RiskFilter` returns the temperature warnings for the needle "na". Second, when every row of the table is a temperature warning, the column holds no string, `.str.lower()` raises, and the code answers 500 where the model answers `NoRows`, or `Ok` with every row for the needle "na". A NaN `Value` is not modelled either.
- `SummaryPage.Lower`: lower-cases ASCII letters only, where Python's `str.lower` lower-cases all of Unicode.
- HTTP routing, JSON serialisation and message texts. `NoRows` stands for the `{"message": …, "data": []}` answer. The alerts endpoint returns a bare list and `/machines_with_warnings` a wrapped object; the model returns the rows of both the same way.
- The repeated `Part` column at `summary_page.py:42` selects the same cell twice, which `to_dict` collapses into one key. The model's `AlertRow` has one `part`.
- Start-up wiring: module-level dates and paths (`finalmain.py:13-31`), the fixed file name (`summary_page.py:16`), and the injection of the master table from `main.py`. `main.py` imports a module that is not part of this model.
- The commented-out code at `finalmain.py:203-402`, which sits inside a string literal and never runs.
