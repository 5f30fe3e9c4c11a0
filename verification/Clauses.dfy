/** The four clauses under which section "Scan Planning" of the Apache Iceberg Table Spec applies a
    positional delete file to a data file, against the plan.  The clauses on partition and sequence
    number are met by every plan (`Meaning`).  The other two are not enforced by the planner: here
    is exactly when a plan meets them. */
module Clauses {
  import opened Order
  import opened Plan
  import opened Scanline
  import opened Builder
  import opened Resolve
  import opened Planner
  import opened Meaning
  import opened Referenced
  import opened Scan
  import opened RowDeletion
  import opened RegroupRules
  import opened ByKey

  /** Data files are added without a deletion vector; only the planner attaches one. */
  ghost predicate Bare(adds: seq<Addition>)
  {
    forall k, s, d :: AddData(k, s, d) in adds ==> d.dv.None?
  }

  lemma {:induction false} EntriesAreBare(entries: seq<Entry>)
    requires Additions(entries).Ok?
    ensures Bare(Additions(entries).value)
  {
    forall k, s, d | AddData(k, s, d) in Additions(entries).value ensures d.dv.None? {
      AdditionSource(entries, AddData(k, s, d));
    }
  }

  /** A planned data file carries a vector exactly when one must be applied to it: the newest for
      its path in its partition is not older than the file. */
  lemma {:induction false} VectorRequired(adds: seq<Addition>, k: Key, s: int, d: DataEntry)
    requires Bare(adds) && DataAdded(adds, k, s, d)
    ensures d.dv.Some? <==> exists v :: HighestAdded(adds, k, d.path, v) && s <= v
  {
    var d0 :| AddData(k, s, d0) in adds && d == Attach(VectorsOf(adds, k), s, d0);
    if d.dv.Some? {
      var v := VectorsOf(adds, k)[d.path].1;
      VectorsOfExactly(adds, k, d.path, v);
    }
    if v :| HighestAdded(adds, k, d.path, v) && s <= v {
      VectorsOfExactly(adds, k, d.path, v);
    }
  }

  lemma {:induction false} NoMixedLayer(adds: seq<Addition>, k: Key, s: int)
    requires BuilderPlan(Stored(adds)).Ok?
    ensures !MixedLayer(adds, k, s)
  {
    if MixedLayer(adds, k, s) {
      MixedConflicts(adds, k, s);
      ResolveExactly(MergedLayers(Stored(adds), k));
      VecFailsExactly(Stored(adds), Keys(Stored(adds)));
      StoredExactly(adds, k, s);
    }
  }

  lemma {:induction false} MixedBySameLayer(adds: seq<Addition>, k: Key, s: int, d: DataEntry, x: PosDelete)
    requires Bare(adds) && d.dv.Some? && DataAdded(adds, k, s, d) && AddPos(k, s, x) in adds
    ensures MixedLayer(adds, k, s)
  {
    var d0 :| AddData(k, s, d0) in adds && d == Attach(VectorsOf(adds, k), s, d0);
    assert Matches(VectorsOf(adds, k), s, d0);
    assert DeleteAdded(adds, k, s, PosItem(x));
  }

  /** In a plan, the positional deletes of a file with a vector are strictly newer than the file:
      the same layer is the planner's error of mixed deletes. */
  lemma {:induction false} VectoredIsOlder(adds: seq<Addition>, k: Key, s: int, t: int, d: DataEntry, x: PosDelete)
    requires BuilderPlan(Stored(adds)).Ok? && Bare(adds) && d.dv.Some?
    requires DataAdded(adds, k, s, d) && AddPos(k, t, x) in adds
    ensures s != t
  {
    NoMixedLayer(adds, k, s);
    if s == t { MixedBySameLayer(adds, k, s, d, x); }
  }

  /** The delete was added to a partition of the file, after the file. */
  ghost predicate NewerDelete(adds: seq<Addition>, d: DataEntry, x: PosDelete)
  {
    exists k, s, t :: s < t && DataAdded(adds, k, s, d) && AddPos(k, t, x) in adds
  }

  ghost predicate DeleteFile(adds: seq<Addition>, x: PosDelete)
  {
    exists k, t :: AddPos(k, t, x) in adds
  }

  /** The plan puts an added delete together with a data file that its bounds let it act on. */
  ghost predicate Effective(plan: seq<Partition<Path>>, adds: seq<Addition>, d: DataEntry, x: PosDelete)
  {
    DeleteFile(adds, x) && Covers(x, d.path) && Planned(plan, d, PosItem(x.path))
  }

  lemma {:induction false} RuleHasFile(adds: seq<Addition>, d: DataEntry, x: PosDelete)
    requires PositionalRule(adds, d, x)
    ensures DeleteFile(adds, x)
  {
    var k, s, t :| s <= t && DataAdded(adds, k, s, d) && AddPos(k, t, x) in adds;
  }

  /** The effective pairs of the builder's plan are the covered ones of the clauses on partition and
      sequence number. */
  lemma {:induction false} EffectiveIsRule(adds: seq<Addition>, d: DataEntry, x: PosDelete)
    requires BuilderPlan(Stored(adds)).Ok? && DistinctDeletePaths(adds)
    ensures Effective(BuilderPlan(Stored(adds)).value, adds, d, x) <==> Covers(x, d.path) && PositionalRule(adds, d, x)
  {
    if PositionalRule(adds, d, x) { RuleHasFile(adds, d, x); }
    if DeleteFile(adds, x) {
      var k, t :| AddPos(k, t, x) in adds;
      PlanIsExact(adds, d, x, k, t);
    }
  }

  lemma {:induction false} RuleIsNewer(adds: seq<Addition>, d: DataEntry, x: PosDelete)
    requires BuilderPlan(Stored(adds)).Ok? && Bare(adds) && d.dv.Some?
    ensures PositionalRule(adds, d, x) <==> NewerDelete(adds, d, x)
  {
    if PositionalRule(adds, d, x) {
      var k, s, t :| s <= t && DataAdded(adds, k, s, d) && AddPos(k, t, x) in adds;
      VectoredIsOlder(adds, k, s, t, d, x);
    }
    if NewerDelete(adds, d, x) {
      var k, s, t :| s < t && DataAdded(adds, k, s, d) && AddPos(k, t, x) in adds;
      assert s <= t;
    }
  }

  /** The delete references the file. */
  predicate Refers(refs: Refs, d: DataEntry, x: PosDelete)
  {
    x.path in refs && refs[x.path] == d.path
  }

  /** The delete references another file. */
  predicate Misses(refs: Refs, d: DataEntry, x: PosDelete)
  {
    x.path in refs && refs[x.path] != d.path
  }

  /** The effective pairs of a regrouped plan are those in which, moreover, the delete references the
      file. */
  lemma {:induction false} RegroupedIsRule(n: Notes, adds: seq<Addition>, d: DataEntry, x: PosDelete)
    requires FinalPlan(n, Stored(adds)).Ok? && CanRegroup(n) && DistinctDeletePaths(adds)
    ensures Effective(FinalPlan(n, Stored(adds)).value, adds, d, x) <==>
            Refers(n.refs, d, x) && Covers(x, d.path) && PositionalRule(adds, d, x)
  {
    RegroupedMeaning(n, adds, d, x.path);
    if PositionalRule(adds, d, x) { RuleHasFile(adds, d, x); }
    if Effective(FinalPlan(n, Stored(adds)).value, adds, d, x) {
      var y: PosDelete :| y.path == x.path && PositionalRule(adds, d, y);
      RuleHasFile(adds, d, y);
      assert x == y;
    }
  }

  // ----- The clause on deletion vectors -----

  /** A file with a vector has an effective positional delete in the plan exactly when a delete that
      covers it was added to its partition with a greater sequence number. */
  lemma {:induction false} VectorClauseExactly(adds: seq<Addition>, d: DataEntry)
    requires BuilderPlan(Stored(adds)).Ok? && DistinctDeletePaths(adds) && Bare(adds) && d.dv.Some?
    ensures (exists x: PosDelete :: Effective(BuilderPlan(Stored(adds)).value, adds, d, x))
            <==> (exists x: PosDelete :: Covers(x, d.path) && NewerDelete(adds, d, x))
  {
    var plan := BuilderPlan(Stored(adds)).value;
    forall x: PosDelete ensures Effective(plan, adds, d, x) <==> Covers(x, d.path) && NewerDelete(adds, d, x) {
      EffectiveIsRule(adds, d, x);
      RuleIsNewer(adds, d, x);
    }
  }

  /** The same for the regrouped plan, where only referencing deletes are left. */
  lemma {:induction false} RegroupedVectorClause(n: Notes, adds: seq<Addition>, d: DataEntry)
    requires FinalPlan(n, Stored(adds)).Ok? && CanRegroup(n) && DistinctDeletePaths(adds) && Bare(adds)
    requires d.dv.Some?
    ensures (exists x: PosDelete :: Effective(FinalPlan(n, Stored(adds)).value, adds, d, x))
            <==> (exists x: PosDelete :: Refers(n.refs, d, x) && Covers(x, d.path) && NewerDelete(adds, d, x))
  {
    var plan := FinalPlan(n, Stored(adds)).value;
    forall x: PosDelete
      ensures Effective(plan, adds, d, x) <==> Refers(n.refs, d, x) && Covers(x, d.path) && NewerDelete(adds, d, x)
    {
      RegroupedIsRule(n, adds, d, x);
      RuleIsNewer(adds, d, x);
    }
  }

  // ----- The clause on the referenced data file -----

  /** The builder never looks at the reference of a positional delete file. */
  lemma {:induction false} ReferenceIgnored(e: Entry, referenced: Option<Path>)
    requires e.content == PositionDeletes && !e.isPuffin
    ensures Classify(e) == Classify(e.(referenced := referenced))
  {
  }

  /** Without regrouping, a delete that references another file is planned for a data file exactly
      when its bounds, or their absence, let it cover the file. */
  lemma {:induction false} ReferenceClauseExactly(n: Notes, adds: seq<Addition>, d: DataEntry, x: PosDelete)
    requires FinalPlan(n, Stored(adds)).Ok? && !CanRegroup(n) && DistinctDeletePaths(adds) && Misses(n.refs, d, x)
    ensures Effective(FinalPlan(n, Stored(adds)).value, adds, d, x) <==> Covers(x, d.path) && PositionalRule(adds, d, x)
  {
    EffectiveIsRule(adds, d, x);
  }

  /** Regrouping enforces the clause. */
  lemma {:induction false} RegroupedReferences(n: Notes, adds: seq<Addition>, d: DataEntry, x: PosDelete)
    requires FinalPlan(n, Stored(adds)).Ok? && CanRegroup(n) && Misses(n.refs, d, x)
    ensures !Planned(FinalPlan(n, Stored(adds)).value, d, PosItem(x.path))
  {
    RegroupedMeaning(n, adds, d, x.path);
  }

  // ----- All four clauses -----

  /** The pair the specification asks for, among those whose bounds allow an effect. */
  ghost predicate Specified(adds: seq<Addition>, refs: Refs, d: DataEntry, x: PosDelete)
  {
    PositionalRule(adds, d, x) && Covers(x, d.path) && !Misses(refs, d, x) && d.dv.None?
  }

  ghost predicate AsSpecified(plan: seq<Partition<Path>>, adds: seq<Addition>, refs: Refs)
  {
    forall d: DataEntry, x: PosDelete :: Effective(plan, adds, d, x) <==> Specified(adds, refs, d, x)
  }

  /** No delete covers a data file of its partition, not newer, that has a vector or that it does not
      reference. */
  ghost predicate Harmless(adds: seq<Addition>, refs: Refs)
  {
    forall d: DataEntry, x: PosDelete ::
      Covers(x, d.path) && PositionalRule(adds, d, x) ==> !Misses(refs, d, x) && d.dv.None?
  }

  /** No delete covers a data file that has a vector and that it references, of its partition and not
      newer. */
  ghost predicate Unshadowed(adds: seq<Addition>, refs: Refs)
  {
    forall d: DataEntry, x: PosDelete ::
      Covers(x, d.path) && PositionalRule(adds, d, x) && Refers(refs, d, x) ==> d.dv.None?
  }

  /** The effective pairs of an unregrouped plan are the specified ones exactly when no delete is
      newer than a file with a vector that it covers, and no annotated delete covers a data file of
      its partition, not newer, other than the one it references. */
  lemma {:induction false} SpecifiedExactly(n: Notes, adds: seq<Addition>)
    requires FinalPlan(n, Stored(adds)).Ok? && !CanRegroup(n) && DistinctDeletePaths(adds)
    ensures AsSpecified(FinalPlan(n, Stored(adds)).value, adds, n.refs) <==> Harmless(adds, n.refs)
  {
    var plan := FinalPlan(n, Stored(adds)).value;
    forall d: DataEntry, x: PosDelete
      ensures Effective(plan, adds, d, x) <==> Covers(x, d.path) && PositionalRule(adds, d, x)
    {
      EffectiveIsRule(adds, d, x);
    }
  }

  // ----- The clauses for a scan of entries -----

  lemma {:induction false} AnnotatedOnce(entries: seq<Entry>, e: Entry, f: Entry)
    requires NoteAll(entries).Ok? && e in entries && f in entries && Annotated(e) && Annotated(f) && e.path == f.path
    ensures e == f
  {
    var i :| 0 <= i < |entries| && entries[i] == e;
    var j :| 0 <= j < |entries| && entries[j] == f;
    RefsAreCounted(entries, e.path);
    if i < j { CountPair(entries, i, j, AnnotatedAs(e.path)); }
    if j < i { CountPair(entries, j, i, AnnotatedAs(e.path)); }
  }

  lemma {:induction false} DeleteSource(entries: seq<Entry>, adds: seq<Addition>, k: Key, s: int, x: PosDelete)
      returns (e: Entry)
    requires Additions(entries) == Ok(adds) && AddPos(k, s, x) in adds
    requires forall f :: f in entries ==> !IsUnannotated(f)
    ensures e in entries && Classify(e) == Ok(Some(AddPos(k, s, x))) && Annotated(e) && e.path == x.path
  {
    AdditionSource(entries, AddPos(k, s, x));
    e :| e in entries && Classify(e) == Ok(Some(AddPos(k, s, x)));
    assert !IsUnannotated(e);
  }

  /** A scan that can be regrouped has no two delete files with one path: noting would have failed. */
  lemma {:induction false} RegroupedAreDistinct(entries: seq<Entry>, n: Notes, adds: seq<Addition>)
    requires Collected(entries, n, adds) && n.allAnnotated
    ensures DistinctDeletePaths(adds)
  {
    NotesAreExact(entries);
    forall k, s, x, k', s', x' | AddPos(k, s, x) in adds && AddPos(k', s', x') in adds && x.path == x'.path
      ensures x == x'
    {
      var e := DeleteSource(entries, adds, k, s, x);
      var f := DeleteSource(entries, adds, k', s', x');
      AnnotatedOnce(entries, e, f);
    }
  }

  /** A scan that is not regrouped meets all four clauses exactly when its additions are harmless. */
  lemma {:induction false} ScanMeetsClauses(entries: seq<Entry>, n: Notes, adds: seq<Addition>)
    requires Collected(entries, n, adds) && ScanPlan(entries).Ok? && !CanRegroup(n) && DistinctDeletePaths(adds)
    ensures AsSpecified(ScanPlan(entries).value, adds, n.refs) <==> Harmless(adds, n.refs)
  {
    ScanIsFinalPlan(entries, n, adds);
    SpecifiedExactly(n, adds);
  }

  /** A regrouped scan meets all four clauses exactly when no delete covers a file with a vector that
      it references. */
  lemma {:induction false} RegroupedScanMeetsClauses(entries: seq<Entry>, n: Notes, adds: seq<Addition>)
    requires Collected(entries, n, adds) && ScanPlan(entries).Ok? && CanRegroup(n)
    ensures AsSpecified(ScanPlan(entries).value, adds, n.refs) <==> Unshadowed(adds, n.refs)
  {
    ScanIsFinalPlan(entries, n, adds);
    RegroupedAreDistinct(entries, n, adds);
    var plan := ScanPlan(entries).value;
    forall d: DataEntry, x: PosDelete
      ensures Effective(plan, adds, d, x) <==> Refers(n.refs, d, x) && Covers(x, d.path) && PositionalRule(adds, d, x)
      ensures PositionalRule(adds, d, x) ==> x.path in n.refs
    {
      RegroupedIsRule(n, adds, d, x);
      if PositionalRule(adds, d, x) {
        var k, s, t :| s <= t && DataAdded(adds, k, s, d) && AddPos(k, t, x) in adds;
        AllReferenced(entries, n, adds, k, t, x);
      }
    }
  }

  /** A scan has an effective positional delete for a file with a vector exactly when a delete that
      covers the file, and references it if the scan is regrouped, was added to its partition with a
      greater sequence number. */
  lemma {:induction false} ScanVectorClause(entries: seq<Entry>, n: Notes, adds: seq<Addition>, d: DataEntry)
    requires Collected(entries, n, adds) && ScanPlan(entries).Ok? && DistinctDeletePaths(adds) && d.dv.Some?
    ensures (exists x: PosDelete :: Effective(ScanPlan(entries).value, adds, d, x))
            <==> (exists x: PosDelete :: (CanRegroup(n) ==> Refers(n.refs, d, x)) && Covers(x, d.path)
                                         && NewerDelete(adds, d, x))
  {
    ScanIsFinalPlan(entries, n, adds);
    EntriesAreBare(entries);
    if CanRegroup(n) {
      RegroupedVectorClause(n, adds, d);
    } else {
      VectorClauseExactly(adds, d);
    }
  }

  // ----- Scans that break the clauses -----

  function DataFileEntry(path: Path, s: int): Entry
  {
    Entry(false, Some(s), "k", 1, Data, path, false, [], None, None, None, None, None, [])
  }

  /** A positional delete file without bounds. */
  function DeleteEntry(path: Path, s: int, referenced: Option<Path>): Entry
  {
    Entry(false, Some(s), "k", 1, PositionDeletes, path, false, [], None, None, referenced, None, None, [])
  }

  function VectorEntry(path: Path, s: int, referenced: Path): Entry
  {
    Entry(false, Some(s), "k", 1, PositionDeletes, path, true, [], None, None, Some(referenced), Some(0), Some(0), [])
  }

  function File(path: Path): DataEntry { DataEntry(path, Segments([]), None) }

  lemma {:induction false} CollectOne(entries: seq<Entry>, n: Notes, adds: seq<Addition>, e: Entry, m: Notes,
        a: Addition)
    requires Collected(entries, n, adds) && Note(n, e) == Ok(m) && Classify(e) == Ok(Some(a))
    ensures Collected(entries + [e], m, adds + [a])
  {
    assert (entries + [e])[..|entries|] == entries;
  }

  lemma {:induction false} CollectThree(e: Entry, f: Entry, g: Entry, l: Notes, m: Notes, n: Notes,
        a: Addition, b: Addition, c: Addition)
    requires Note(NoNotes(), e) == Ok(l) && Note(l, f) == Ok(m) && Note(m, g) == Ok(n)
    requires Classify(e) == Ok(Some(a)) && Classify(f) == Ok(Some(b)) && Classify(g) == Ok(Some(c))
    ensures Collected([e, f, g], n, [a, b, c])
  {
    CollectOne([], NoNotes(), [], e, l, a);
    CollectOne([] + [e], l, [] + [a], f, m, b);
    CollectOne([] + [e] + [f], m, [] + [a] + [b], g, n, c);
    ThreeOf(e, f, g);
    ThreeOf(a, b, c);
  }

  /** A file of sequence number 1, a vector for it of number 5, a delete of number 3. */
  function VectorAndDelete(referenced: Option<Path>): seq<Entry>
  {
    [DataFileEntry("f", 1), VectorEntry("v", 5, "f"), DeleteEntry("x", 3, referenced)]
  }

  function Vector(): DeletionVector { DeletionVector("v", 0, 0, "f") }

  function Unbounded(path: Path): PosDelete { PosDelete(path, None) }

  function VectorAdditions(): seq<Addition>
  {
    [AddData("k", 1, File("f")), AddDv("k", 5, Vector()), AddPos("k", 3, Unbounded("x"))]
  }

  function VectorNotes(referenced: Option<Path>): Notes
  {
    match referenced
    case None => NoNotes().(hasReferenced := true, allAnnotated := false)
    case Some(p) => NoNotes().(hasReferenced := true, refs := map["x" := p])
  }

  lemma {:induction false} VectorCollected(referenced: Option<Path>)
    ensures Collected(VectorAndDelete(referenced), VectorNotes(referenced), VectorAdditions())
  {
    var l, m := NoNotes(), NoNotes().(hasReferenced := true);
    CollectThree(DataFileEntry("f", 1), VectorEntry("v", 5, "f"), DeleteEntry("x", 3, referenced),
                 l, m, VectorNotes(referenced),
                 AddData("k", 1, File("f")), AddDv("k", 5, Vector()), AddPos("k", 3, Unbounded("x")));
  }

  lemma {:induction false} OnlyVector(k: Key, t: int, dv: DeletionVector)
    ensures AddDv(k, t, dv) in VectorAdditions() <==> k == "k" && t == 5 && dv == Vector()
  {
    assert VectorAdditions()[1] == AddDv("k", 5, Vector());
  }

  lemma {:induction false} VectorIsHighest()
    ensures HighestAdded(VectorAdditions(), "k", "f", 5)
  {
    OnlyVector("k", 5, Vector());
    forall t | VectorAdded(VectorAdditions(), "k", "f", t) ensures t <= 5 {
      var dv :| AddDv("k", t, dv) in VectorAdditions() && dv.referenced == "f";
      OnlyVector("k", t, dv);
    }
  }

  lemma {:induction false} VectorIsAttached()
    ensures DataAdded(VectorAdditions(), "k", 1, File("f").(dv := Some(Vector())))
  {
    var adds := VectorAdditions();
    VectorIsHighest();
    VectorsOfExactly(adds, "k", "f", 5);
    OnlyVector("k", 5, VectorsOf(adds, "k")["f"].0);
    assert adds[0] == AddData("k", 1, File("f"));
  }

  lemma {:induction false} DeleteAtThree(k: Key, s: int, x: Item<PosDelete>)
    ensures DeleteAdded(VectorAdditions(), k, s, x) ==> s == 3
  {
  }

  lemma {:induction false} DataAtOne(k: Key, s: int, d: DataEntry)
    ensures AddData(k, s, d) in VectorAdditions() ==> s == 1
  {
  }

  lemma {:induction false} VectorUnmixed(k: Key, s: int)
    ensures !MixedLayer(VectorAdditions(), k, s)
  {
    forall d ensures AddData(k, s, d) in VectorAdditions() ==> s == 1 { DataAtOne(k, s, d); }
    forall x: Item<PosDelete> ensures DeleteAdded(VectorAdditions(), k, s, x) ==> s == 3 { DeleteAtThree(k, s, x); }
  }

  lemma {:induction false} VectorPlanned()
    ensures BuilderPlan(Stored(VectorAdditions())).Ok?
    ensures NewerDelete(VectorAdditions(), File("f").(dv := Some(Vector())), Unbounded("x"))
  {
    var adds := VectorAdditions();
    forall k, s, x | AddPos(k, s, x) in adds ensures OrderedRange(x) {
    }
    PlanFailsExactly(adds);
    forall k, s ensures !MixedLayer(adds, k, s) { VectorUnmixed(k, s); }
    VectorIsAttached();
    assert AddPos("k", 3, Unbounded("x")) in adds;
  }

  /** The plan exists, the file carries its vector, and the delete is still applied to it. */
  lemma {:induction false} VectorClauseBroken()
    ensures ScanPlan(VectorAndDelete(None)).Ok?
    ensures Planned(ScanPlan(VectorAndDelete(None)).value, File("f").(dv := Some(Vector())), PosItem("x"))
  {
    var adds, d := VectorAdditions(), File("f").(dv := Some(Vector()));
    VectorCollected(None);
    ScanIsFinalPlan(VectorAndDelete(None), VectorNotes(None), adds);
    VectorPlanned();
    NewerIsRule(adds, d, Unbounded("x"));
    PlanIsComplete(adds, d, Unbounded("x"));
  }

  lemma {:induction false} NewerIsRule(adds: seq<Addition>, d: DataEntry, x: PosDelete)
    requires NewerDelete(adds, d, x)
    ensures PositionalRule(adds, d, x)
  {
    var k, s, t :| s < t && DataAdded(adds, k, s, d) && AddPos(k, t, x) in adds;
    assert s <= t;
  }

  lemma {:induction false} OfKeySnoc(adds: seq<Addition>, a: Addition, k: Key)
    ensures |OfKey(adds + [a], k)| == |OfKey(adds, k)| + (if DataOfKey(a, k) then 1 else 0)
  {
    assert (adds + [a])[..|adds|] == adds;
  }

  lemma {:induction false} OneOfThree(a: Addition, b: Addition, c: Addition, k: Key)
    requires !b.AddData? && !c.AddData?
    ensures DistinctPaths(OfKey([a, b, c], k))
  {
    OfKeySnoc([], a, k);
    OfKeySnoc([] + [a], b, k);
    OfKeySnoc([] + [a] + [b], c, k);
    ThreeOf(a, b, c);
  }

  lemma {:induction false} RegroupedPair(n: Notes, adds: seq<Addition>, d: DataEntry, x: PosDelete)
    requires FinalPlan(n, Stored(adds)).Ok? && CanRegroup(n) && Refers(n.refs, d, x) && Covers(x, d.path)
    requires PositionalRule(adds, d, x)
    ensures Planned(FinalPlan(n, Stored(adds)).value, d, PosItem(x.path))
  {
    RegroupedMeaning(n, adds, d, x.path);
  }

  /** Regrouping does not help: the delete references the file. */
  lemma {:induction false} RegroupedVectorBroken()
    ensures ScanPlan(VectorAndDelete(Some("f"))).Ok? && CanRegroup(VectorNotes(Some("f")))
    ensures Planned(ScanPlan(VectorAndDelete(Some("f"))).value, File("f").(dv := Some(Vector())), PosItem("x"))
  {
    var entries, n, adds := VectorAndDelete(Some("f")), VectorNotes(Some("f")), VectorAdditions();
    var d := File("f").(dv := Some(Vector()));
    VectorCollected(Some("f"));
    ScanIsFinalPlan(entries, n, adds);
    VectorPlanned();
    forall k ensures DistinctPaths(OfKey(adds, k)) { OneOfThree(adds[0], adds[1], adds[2], k); }
    RegroupedScanFails(entries, n, adds);
    NewerIsRule(adds, d, Unbounded("x"));
    RegroupedPair(n, adds, d, Unbounded("x"));
  }

  /** File "b", a delete that references "a", and a delete without reference: nothing is regrouped. */
  function OtherReference(): seq<Entry>
  {
    [DataFileEntry("b", 1), DeleteEntry("x", 1, Some("a")), DeleteEntry("y", 1, None)]
  }

  function OtherAdditions(): seq<Addition>
  {
    [AddData("k", 1, File("b")), AddPos("k", 1, Unbounded("x")), AddPos("k", 1, Unbounded("y"))]
  }

  function OtherNotes(): Notes { NoNotes().(hasReferenced := true, allAnnotated := false, refs := map["x" := "a"]) }

  lemma {:induction false} OtherCollected()
    ensures Collected(OtherReference(), OtherNotes(), OtherAdditions())
  {
    var m := NoNotes().(hasReferenced := true, refs := map["x" := "a"]);
    CollectThree(DataFileEntry("b", 1), DeleteEntry("x", 1, Some("a")), DeleteEntry("y", 1, None),
                 NoNotes(), m, OtherNotes(),
                 AddData("k", 1, File("b")), AddPos("k", 1, Unbounded("x")), AddPos("k", 1, Unbounded("y")));
  }

  lemma {:induction false} NoVectors(k: Key, p: Path)
    ensures p !in VectorsOf(OtherAdditions(), k)
  {
    var adds := OtherAdditions();
    forall t ensures !VectorAdded(adds, k, p, t) { }
    if p in VectorsOf(adds, k) { VectorsOfExactly(adds, k, p, VectorsOf(adds, k)[p].1); }
  }

  lemma {:induction false} OtherUnmixed(k: Key, s: int)
    ensures !MixedLayer(OtherAdditions(), k, s)
  {
    forall d ensures !Matches(VectorsOf(OtherAdditions(), k), s, d) { NoVectors(k, d.path); }
  }

  lemma {:induction false} FileIsBare()
    ensures DataAdded(OtherAdditions(), "k", 1, File("b"))
  {
    assert AddData("k", 1, File("b")) in OtherAdditions();
    NoVectors("k", "b");
  }

  /** The delete that references "a" is planned for file "b". */
  lemma {:induction false} ReferenceClauseBroken()
    ensures NoteAll(OtherReference()).Ok? && "x" in NoteAll(OtherReference()).value.refs
    ensures NoteAll(OtherReference()).value.refs["x"] == "a"
    ensures ScanPlan(OtherReference()).Ok?
    ensures Planned(ScanPlan(OtherReference()).value, File("b"), PosItem("x"))
  {
    var adds := OtherAdditions();
    OtherCollected();
    ScanIsFinalPlan(OtherReference(), OtherNotes(), adds);
    forall k, s, x | AddPos(k, s, x) in adds ensures OrderedRange(x) {
    }
    PlanFailsExactly(adds);
    forall k, s ensures !MixedLayer(adds, k, s) { OtherUnmixed(k, s); }
    FileIsBare();
    assert AddPos("k", 1, Unbounded("x")) in adds;
    assert PositionalRule(adds, File("b"), Unbounded("x"));
    PlanIsComplete(adds, File("b"), Unbounded("x"));
  }
}
