/** The cumulative merge of one machine's warning rows into the day's warnings
    table (finalmain.py:176-185): existing rows first, new rows after, then a
    keep-first `drop_duplicates` on (Machine, Timestamp, Part). */
module Merge {
  import opened Records
  import opened Seqs

  /** The de-duplication key of the warnings table. */
  function RowKey(w: WarningRow): (string, string, string)
  {
    (w.machine, w.timestamp, w.part)
  }

  /** Lines 179-181: concatenate and keep the first row of every key. */
  function MergeInto(existing: seq<WarningRow>, batch: seq<WarningRow>): (r: seq<WarningRow>)
    ensures DistinctKeys(RowKey, r)
    ensures forall i :: 0 <= i < |r| ==> r[i] in existing || r[i] in batch
  {
    KeepFirst(RowKey, existing + batch, {})
  }

  /** Lines 178-183: the table that is written, given whether a table already
      exists. Without one the batch is written as it is, duplicates included. */
  function Store(file: Option<seq<WarningRow>>, batch: seq<WarningRow>): (r: seq<WarningRow>)
    ensures file.None? ==> r == batch
    ensures file.Some? ==> DistinctKeys(RowKey, r)
  {
    match file
    case None => batch
    case Some(existing) => MergeInto(existing, batch)
  }

  /** What the merge keeps: distinct keys, the order of the concatenation, every
      key of either side, every first occurrence of a key in the existing table,
      and, for a key the existing table has, only existing rows. */
  lemma MergeProperties(existing: seq<WarningRow>, batch: seq<WarningRow>)
    ensures DistinctKeys(RowKey, MergeInto(existing, batch))
    ensures Subseq(MergeInto(existing, batch), existing + batch)
    ensures KeysOf(RowKey, MergeInto(existing, batch)) == KeysOf(RowKey, existing) + KeysOf(RowKey, batch)
    ensures forall i :: 0 <= i < |existing| && (forall j :: 0 <= j < i ==> RowKey(existing[j]) != RowKey(existing[i]))
              ==> existing[i] in MergeInto(existing, batch)
    ensures forall i :: 0 <= i < |existing + batch| &&
              (forall j :: 0 <= j < i ==> RowKey((existing + batch)[j]) != RowKey((existing + batch)[i]))
              ==> (existing + batch)[i] in MergeInto(existing, batch)
    ensures forall w :: w in MergeInto(existing, batch) && RowKey(w) in KeysOf(RowKey, existing) ==> w in existing
  {
    var all := existing + batch;
    KeepFirstIsSubseq(RowKey, all, {});
    KeepFirstKeys(RowKey, all, {});
    KeysOfConcat(RowKey, existing, batch);
    forall i | 0 <= i < |existing| && (forall j :: 0 <= j < i ==> RowKey(existing[j]) != RowKey(existing[i]))
      ensures existing[i] in MergeInto(existing, batch)
    {
      assert all[i] == existing[i];
      KeepFirstRetainsFirst(RowKey, all, {}, i);
    }
    forall i | 0 <= i < |all| && (forall j :: 0 <= j < i ==> RowKey(all[j]) != RowKey(all[i]))
      ensures all[i] in MergeInto(existing, batch)
    {
      KeepFirstRetainsFirst(RowKey, all, {}, i);
    }
    forall w | w in MergeInto(existing, batch) && RowKey(w) in KeysOf(RowKey, existing)
      ensures w in existing
    {
      KeepFirstPrefersEarlier(RowKey, existing, batch, {}, w);
    }
  }

  /** On a distinct-keyed table the merge appends: the existing rows come first,
      unchanged and in order, followed by the first row of every batch key the
      table does not have, in batch order. */
  lemma MergeAppendsNewRows(existing: seq<WarningRow>, batch: seq<WarningRow>)
    requires DistinctKeys(RowKey, existing)
    ensures MergeInto(existing, batch) == existing + KeepFirst(RowKey, batch, KeysOf(RowKey, existing))
  {
    KeepFirstDistinctPrefix(RowKey, existing, batch, {});
    assert {} + KeysOf(RowKey, existing) == KeysOf(RowKey, existing);
  }

  /** An existing table with distinct keys survives a merge row for row. */
  lemma MergeKeepsDistinctTable(existing: seq<WarningRow>, batch: seq<WarningRow>)
    requires DistinctKeys(RowKey, existing)
    ensures forall w :: w in existing ==> w in MergeInto(existing, batch)
  {
    MergeProperties(existing, batch);
  }

  /** A batch whose keys the table already has leaves a distinct-keyed table as it is. */
  lemma MergeAbsorbsKnownKeys(existing: seq<WarningRow>, batch: seq<WarningRow>)
    requires DistinctKeys(RowKey, existing)
    requires forall w :: w in batch ==> RowKey(w) in KeysOf(RowKey, existing)
    ensures MergeInto(existing, batch) == existing
  {
    KeepFirstAbsorbs(RowKey, existing, batch, {});
    KeepFirstOfDistinct(RowKey, existing, {});
  }

  /** Merging the same batch again into the merged table changes nothing. */
  lemma MergeIdempotent(existing: seq<WarningRow>, batch: seq<WarningRow>)
    ensures MergeInto(MergeInto(existing, batch), batch) == MergeInto(existing, batch)
  {
    var once := MergeInto(existing, batch);
    MergeProperties(existing, batch);
    forall w | w in batch ensures RowKey(w) in KeysOf(RowKey, once) {
    }
    MergeAbsorbsKnownKeys(once, batch);
  }

  /** Once a table exists, storing the same batch twice equals storing it once.
      On the very first write (no table yet) a second store still de-duplicates. */
  lemma StoreIdempotent(file: Option<seq<WarningRow>>, batch: seq<WarningRow>)
    requires file.Some?
    ensures Store(Some(Store(file, batch)), batch) == Store(file, batch)
  {
    MergeIdempotent(file.value, batch);
  }

  /** The first write of a day keeps duplicate keys of the batch (line 183). */
  lemma FirstWriteKeepsDuplicateKeys(w: WarningRow)
    ensures !DistinctKeys(RowKey, Store(None, [w, w]))
    ensures DistinctKeys(RowKey, Store(Some([]), [w, w]))
  {
    assert Store(None, [w, w])[0] == w && Store(None, [w, w])[1] == w;
  }
}
