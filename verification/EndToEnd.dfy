/** From manifest entries to the fate of a row: planning, reading the equality deletes of a plan
    partition and looking a row up, all together. */
module EndToEnd {
  import opened Order
  import opened Plan
  import opened Builder
  import opened Resolve
  import opened Planner
  import opened Meaning
  import opened ByKey
  import opened Scan
  import opened Cells
  import opened Handler
  import opened RowDeletion
  import opened RegroupRules
  import opened Entries

  /** Some equality delete entry that applies to the data entry has a row with the record's key. */
  ghost predicate RowDeleted(store: Store, entries: seq<Entry>, f: Entry, rec: Record)
  {
    exists g :: g in entries && AppliesEqually(f, g) && FileHits(store(g.path), g.equalityIds, rec)
  }

  lemma {:induction false} SameEntry(entries: seq<Entry>, f: Entry, g: Entry)
    requires DistinctFiles(entries) && f in entries && g in entries
    requires LiveData(f) && LiveData(g) && f.key == g.key && f.path == g.path
    ensures f == g
  {
    var i :| 0 <= i < |entries| && entries[i] == f;
    var j :| 0 <= j < |entries| && entries[j] == g;
    assert OneFile(entries, f.key, f.path);
    if i < j { CountPair(entries, i, j, DataOfKeyAt(f.key, f.path)); }
    if j < i { CountPair(entries, j, i, DataOfKeyAt(f.key, f.path)); }
  }

  lemma {:induction false} RuleHasEntry(store: Store, entries: seq<Entry>, adds: seq<Addition>, f: Entry,
        d: DataEntry, e: EqDelete, rec: Record)
    requires Additions(entries) == Ok(adds) && DistinctFiles(entries) && f in entries && LiveData(f) && IsFile(f, d)
    requires EqualityAt(adds, f.key, d, e) && FileHits(store(e.path), e.fieldIds, rec)
    ensures RowDeleted(store, entries, f, rec)
  {
    var s, t :| s < t && DataAdded(adds, f.key, s, d) && EqualityAdded(adds, f.key, t, e);
    var h := FileAdded(entries, adds, f.key, s, d);
    SameEntry(entries, f, h);
    EqualityOfEntry(entries, adds, f.key, t, e);
    var g :| g in entries && LiveEquality(g) && g.sequence == Some(t) && (g.key == "" || g.key == f.key)
             && IsEqualityOf(g, e);
    assert AppliesEqually(f, g);
  }

  lemma {:induction false} EntryMeetsRule(store: Store, entries: seq<Entry>, adds: seq<Addition>, f: Entry,
        g: Entry, d: DataEntry, rec: Record)
    requires Additions(entries) == Ok(adds) && g in entries && AppliesEqually(f, g)
    requires DataAdded(adds, f.key, f.sequence.value, d) && FileHits(store(g.path), g.equalityIds, rec)
    ensures DeletedByRule(store, adds, f.key, d, rec)
  {
    var e := EqDelete(g.path, g.equalityIds);
    EqualityOfEntry(entries, adds, f.key, g.sequence.value, e);
    assert EqualityAt(adds, f.key, d, e);
  }

  lemma {:induction false} RuleOfEntries(store: Store, entries: seq<Entry>, adds: seq<Addition>, f: Entry,
        d: DataEntry, rec: Record)
    requires Additions(entries) == Ok(adds) && DistinctFiles(entries)
    requires f in entries && LiveData(f) && IsFile(f, d) && f.sequence.Some?
    requires DataAdded(adds, f.key, f.sequence.value, d)
    ensures DeletedByRule(store, adds, f.key, d, rec) <==> RowDeleted(store, entries, f, rec)
  {
    if DeletedByRule(store, adds, f.key, d, rec) {
      var e :| EqualityAt(adds, f.key, d, e) && FileHits(store(e.path), e.fieldIds, rec);
      RuleHasEntry(store, entries, adds, f, d, e, rec);
    }
    if RowDeleted(store, entries, f, rec) {
      var g :| g in entries && AppliesEqually(f, g) && FileHits(store(g.path), g.equalityIds, rec);
      EntryMeetsRule(store, entries, adds, f, g, d, rec);
    }
  }

  /** What the delete files of the partition must be for its rows to be answered. */
  ghost predicate Readable(cfg: Config, store: Store, part: Partition<Path>, rec: Record)
  {
    && StoreTyped(cfg, store, part) && AdmissibleFor(cfg, store, part) && PlainFor(cfg, part, rec)
    && RowsOf(Requests(store, part)) <= cfg.maxRows
  }

  /** The deletes are read, the lookup answers, and the answer is `deleted`. */
  ghost predicate Answers(cfg: Config, store: Store, part: Partition<Path>, i: int, rec: Record, deleted: bool)
    requires StoreTyped(cfg, store, part)
  {
    var groups := Materialized(cfg, store, part);
    groups.Success? && Comparable(cfg, groups.value, rec)
    && Visit(cfg, groups.value, Occupied(groups.value), rec, i) == Success(deleted)
  }

  lemma {:induction false} FileInBlock(adds: seq<Addition>, k: Key, q: nat, i: nat, d: DataEntry) returns (s: int)
    requires KeyPlan(Stored(adds), k).Ok? && q < |Block(Stored(adds), k)| && i < |Block(Stored(adds), k)[q]|
    requires d in Block(Stored(adds), k)[q][i].data
    ensures DataAdded(adds, k, s, d)
  {
    KeyPlanParts(Stored(adds), k);
    var part := ResolvePartition(MergedLayers(Stored(adds), k)).value;
    InItems(Block(Stored(adds), k)[q], i, d);
    DataOfBlock(part, d, q);
    PartitionFiles(adds, k, d);
    s :| DataAdded(adds, k, s, d);
  }

  lemma {:induction false} BuilderRows(cfg: Config, store: Store, entries: seq<Entry>, adds: seq<Addition>,
        d: DataEntry, p: nat, i: nat, rec: Record) returns (f: Entry)
    requires Additions(entries) == Ok(adds) && DistinctFiles(entries)
    requires BuilderPlan(Stored(adds)).Ok? && p < |BuilderPlan(Stored(adds)).value|
    requires i < |BuilderPlan(Stored(adds)).value[p]| && d in BuilderPlan(Stored(adds)).value[p][i].data
    requires Readable(cfg, store, BuilderPlan(Stored(adds)).value[p], rec)
    ensures f in entries && LiveData(f) && IsFile(f, d)
    ensures Answers(cfg, store, BuilderPlan(Stored(adds)).value[p], i, rec, RowDeleted(store, entries, f, rec))
  {
    MaterializedSucceeds(cfg, store, BuilderPlan(Stored(adds)).value[p]);
    DistinctFilesExactly(entries, adds);
    var k, q := RowsDeletedExactly(cfg, store, adds, d, p, i, rec);
    PlanIsBlocks(Stored(adds));
    var s := FileInBlock(adds, k, q, i, d);
    f := FileAdded(entries, adds, k, s, d);
    RuleOfEntries(store, entries, adds, f, d, rec);
  }

  lemma {:induction false} NothingDeleted(cfg: Config, store: Store, part: Partition<Path>, i: int, rec: Record)
    requires Readable(cfg, store, part, rec) && (SingleFile(part) || OnlyData(part))
    ensures Answers(cfg, store, part, i, rec, false)
  {
    MaterializedSucceeds(cfg, store, part);
    PartitionExact(cfg, store, part, i, rec);
    assert !DeletedInLayer(store, part, i, rec);
  }

  lemma {:induction false} RegroupedRows(cfg: Config, store: Store, entries: seq<Entry>, d: DataEntry, p: nat, i: nat,
        rec: Record) returns (f: Entry)
    requires ScanPlan(entries).Ok? && Regroups(entries) && p < |ScanPlan(entries).value|
    requires i < |ScanPlan(entries).value[p]| && d in ScanPlan(entries).value[p][i].data
    requires Readable(cfg, store, ScanPlan(entries).value[p], rec)
    ensures f in entries && LiveData(f) && IsFile(f, d)
    ensures Answers(cfg, store, ScanPlan(entries).value[p], i, rec, RowDeleted(store, entries, f, rec))
  {
    var part := ScanPlan(entries).value[p];
    FeedExactly(entries);
    RegroupedShape(entries, NoteAll(entries).value, Additions(entries).value, p);
    NothingDeleted(cfg, store, part, i, rec);
    InItems(part, i, d);
    InPlanItems(ScanPlan(entries).value, p, d);
    f := PlannedFileIsEntry(entries, d);
  }

  /** Every row of every data file of a scan: the handler takes the delete files of the partition, the
      lookup answers, and it reports the row exactly when an equality delete entry that is
      unpartitioned or of the file's partition, with a strictly greater sequence number, has a row
      with its key. */
  lemma {:induction false} ScanDeletesRows(cfg: Config, store: Store, entries: seq<Entry>, d: DataEntry, p: nat, i: nat,
        rec: Record) returns (f: Entry)
    requires ScanPlan(entries).Ok? && DistinctFiles(entries) && p < |ScanPlan(entries).value|
    requires i < |ScanPlan(entries).value[p]| && d in ScanPlan(entries).value[p][i].data
    requires Readable(cfg, store, ScanPlan(entries).value[p], rec)
    ensures f in entries && LiveData(f) && IsFile(f, d)
    ensures Answers(cfg, store, ScanPlan(entries).value[p], i, rec, RowDeleted(store, entries, f, rec))
  {
    FeedExactly(entries);
    if Regroups(entries) {
      f := RegroupedRows(cfg, store, entries, d, p, i, rec);
    } else {
      var n, adds := NoteAll(entries).value, Additions(entries).value;
      ScanIsBuilderPlan(entries, n, adds);
      f := BuilderRows(cfg, store, entries, adds, d, p, i, rec);
    }
  }
}
