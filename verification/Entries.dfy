/** The planner over manifest entries: what an entry adds, which entries are refused, and the rules
    of scan planning, all in terms of the fields of the entries. */
module Entries {
  import opened Order
  import opened Plan
  import opened Builder
  import opened Resolve
  import opened Planner
  import opened Meaning
  import opened Conservation
  import opened ByKey
  import opened Referenced
  import opened RegroupMeaning
  import opened Scan
  import opened SameRegroup
  import opened RowDeletion
  import opened RegroupRules
  import opened Permutations

  // ----- What an entry adds -----

  predicate LiveData(e: Entry) { !e.deleted && e.content == Data }

  predicate LivePositional(e: Entry) { !e.deleted && e.content == PositionDeletes && !e.isPuffin }

  predicate LiveVector(e: Entry) { !e.deleted && e.content == PositionDeletes && e.isPuffin }

  predicate LiveEquality(e: Entry) { !e.deleted && e.content == EqualityDeletes }

  predicate IsFile(e: Entry, d: DataEntry)
  {
    d.path == e.path && d.parts == Segments(e.splitOffsets)
  }

  /** Bounds count only when both are recorded. */
  predicate IsPositional(e: Entry, x: PosDelete)
  {
    && x.path == e.path
    && (x.range.Some? <==> e.lower.Some? && e.upper.Some?)
    && (x.range.Some? ==> Some(x.range.value.min) == e.lower && Some(x.range.value.max) == e.upper)
  }

  predicate IsVectorOf(e: Entry, dv: DeletionVector)
  {
    && dv.path == e.path && e.referenced == Some(dv.referenced)
    && e.contentOffset == Some(dv.offset) && e.contentSize == Some(dv.length)
  }

  predicate IsEqualityOf(e: Entry, x: EqDelete)
  {
    x.path == e.path && x.fieldIds == e.equalityIds
  }

  /** The addition the entry stands for; an equality delete without partition is global. */
  predicate Gives(e: Entry, a: Addition)
  {
    && e.sequence == Some(a.seqno)
    && match a
       case AddData(k, _, d) => LiveData(e) && e.key == k && IsFile(e, d) && d.dv == None
       case AddPos(k, _, x) => LivePositional(e) && e.key == k && IsPositional(e, x)
       case AddDv(k, _, dv) => LiveVector(e) && e.key == k && IsVectorOf(e, dv)
       case AddEq(k, _, x) => LiveEquality(e) && e.key == k && k != "" && IsEqualityOf(e, x)
       case AddGlobalEq(_, x) => LiveEquality(e) && e.key == "" && IsEqualityOf(e, x)
  }

  /** Nothing is wrong with the entry: it is deleted, or fits one specification, has a sequence number
      and, as a deletion vector, names its blob and its data file. */
  predicate Acceptable(e: Entry)
  {
    || e.deleted
    || (&& e.matchingSpecs == 1 && e.sequence.Some?
        && (LiveVector(e) ==> e.referenced.Some? && e.contentOffset.Some? && e.contentSize.Some?))
  }

  function Fault(e: Entry): Error
    requires !Acceptable(e)
  {
    if e.matchingSpecs != 1 then SpecificationMismatch(e.path)
    else if e.sequence.None? then MissingSequenceNumber
    else IncompleteDeletionVector(e.path)
  }

  lemma {:induction false} ClassifyExactly(e: Entry, a: Addition)
    ensures Classify(e).Ok? <==> Acceptable(e)
    ensures Classify(e).Err? ==> Classify(e).error == Fault(e)
    ensures Classify(e) == Ok(None) <==> e.deleted
    ensures Classify(e) == Ok(Some(a)) <==> Acceptable(e) && Gives(e, a)
  {
  }

  /** The live entries, in order. */
  function Live(entries: seq<Entry>): seq<Entry>
  {
    if entries == [] then [] else
      var last := entries[|entries|-1];
      Live(entries[..|entries|-1]) + (if last.deleted then [] else [last])
  }

  /** The additions are those of the live entries, one each and in order. */
  lemma {:induction false} AdditionsInOrder(entries: seq<Entry>, adds: seq<Addition>)
    requires Additions(entries) == Ok(adds)
    ensures |adds| == |Live(entries)| && forall i :: 0 <= i < |adds| ==> Gives(Live(entries)[i], adds[i])
  {
    if entries != [] {
      var init, last := entries[..|entries|-1], entries[|entries|-1];
      AdditionsInOrder(init, Additions(init).value);
      if Classify(last).value.Some? { ClassifyExactly(last, Classify(last).value.value); }
      ClassifyExactly(last, AddGlobalEq(0, EqDelete([], [])));
    }
  }

  lemma {:induction false} LiveMembers(entries: seq<Entry>, e: Entry)
    ensures e in Live(entries) <==> e in entries && !e.deleted
  {
    if entries != [] {
      var init, last := entries[..|entries|-1], entries[|entries|-1];
      LiveMembers(init, e);
      InConcat(init, [last], e);
      assert entries == init + [last];
    }
  }

  lemma {:induction false} GivesOne(e: Entry, a: Addition, b: Addition)
    requires Gives(e, a) && Gives(e, b)
    ensures a == b
  {
  }

  /** Something is added exactly when an entry stands for it. */
  lemma {:induction false} AdditionsAreEntries(entries: seq<Entry>, adds: seq<Addition>, a: Addition)
    requires Additions(entries) == Ok(adds)
    ensures a in adds <==> exists e :: e in entries && Gives(e, a)
  {
    AdditionsInOrder(entries, adds);
    if a in adds {
      var i :| 0 <= i < |adds| && adds[i] == a;
      LiveMembers(entries, Live(entries)[i]);
    }
    if e :| e in entries && Gives(e, a) {
      LiveMembers(entries, e);
      var i :| 0 <= i < |Live(entries)| && Live(entries)[i] == e;
      GivesOne(e, a, adds[i]);
    }
  }

  lemma {:induction false} FaultStops(entries: seq<Entry>, n: nat)
    requires n <= |entries| && Additions(entries[..n]).Err?
    ensures Additions(entries) == Additions(entries[..n])
  {
    if n == |entries| {
      assert entries[..n] == entries;
    } else {
      assert entries[..|entries|-1][..n] == entries[..n];
      FaultStops(entries[..|entries|-1], n);
    }
  }

  /** Entries are refused exactly when one is not acceptable ... */
  lemma {:induction false} RefusedExactly(entries: seq<Entry>)
    ensures Additions(entries).Ok? <==> forall i :: 0 <= i < |entries| ==> Acceptable(entries[i])
  {
    if entries != [] {
      var init, last := entries[..|entries|-1], entries[|entries|-1];
      RefusedExactly(init);
      ClassifyExactly(last, AddGlobalEq(0, EqDelete([], [])));
      assert forall i :: 0 <= i < |init| ==> init[i] == entries[i];
    }
  }

  /** ... and with the fault of the first such entry. */
  lemma {:induction false} FirstFault(entries: seq<Entry>, i: nat)
    requires i < |entries| && !Acceptable(entries[i]) && forall j :: 0 <= j < i ==> Acceptable(entries[j])
    ensures Additions(entries) == Err(Fault(entries[i]))
  {
    RefusedExactly(entries[..i]);
    ClassifyExactly(entries[i], AddGlobalEq(0, EqDelete([], [])));
    assert entries[..i+1][..i] == entries[..i];
    FaultStops(entries, i + 1);
  }

  /** Segments begin at the split offsets and end where the next begins; the last has no end. */
  lemma {:induction false} SegmentsFollow(offsets: seq<int>, i: nat)
    requires i < |Segments(offsets)|
    ensures |Segments(offsets)| == if offsets == [] then 1 else |offsets|
    ensures Segments(offsets)[i].offset == if offsets == [] then 4 else offsets[i]
    ensures i + 1 < |Segments(offsets)| ==>
      Segments(offsets)[i].offset + Segments(offsets)[i].length == Segments(offsets)[i+1].offset
    ensures i + 1 == |Segments(offsets)| ==> Segments(offsets)[i].length == 0
  {
  }

  /** The annotated delete path occurred among the entries before. */
  predicate RepeatsDelete(before: seq<Entry>, e: Entry)
  {
    Annotated(e) && Count(before, AnnotatedAs(e.path)) > 0
  }

  lemma {:induction false} NotingStops(before: seq<Entry>, e: Entry)
    requires NoteAll(before).Ok?
    ensures Note(NoteAll(before).value, e).Err? <==> RepeatsDelete(before, e)
    ensures Note(NoteAll(before).value, e).Err? ==>
            Note(NoteAll(before).value, e).error == DuplicateDeletePath(e.path)
  {
    RefsAreCounted(before, e.path);
  }

  /** The scan stops at the first entry that repeats an annotated delete path or is not acceptable,
      with the error of that entry; a repeated path is noticed first. */
  lemma {:induction false} FirstError(entries: seq<Entry>, i: nat)
    requires i < |entries| && Feed(entries[..i]).Ok?
    ensures RepeatsDelete(entries[..i], entries[i]) ==> ScanPlan(entries) == Err(DuplicateDeletePath(entries[i].path))
    ensures !RepeatsDelete(entries[..i], entries[i]) && !Acceptable(entries[i]) ==>
            ScanPlan(entries) == Err(Fault(entries[i]))
    ensures !RepeatsDelete(entries[..i], entries[i]) && Acceptable(entries[i]) ==> Feed(entries[..i+1]).Ok?
  {
    FeedExactly(entries[..i]);
    NotingStops(entries[..i], entries[i]);
    ClassifyExactly(entries[i], AddGlobalEq(0, EqDelete([], [])));
    assert entries[..i+1][..i] == entries[..i];
    if Feed(entries[..i+1]).Err? { FeedFails(entries, i + 1); }
  }

  // ----- Whether the scan is regrouped -----

  /** Some live positional delete or vector names a data file, all of them do, and there is no live
      equality delete. */
  ghost predicate Regroups(entries: seq<Entry>)
  {
    && (exists e :: e in entries && !e.deleted && e.content == PositionDeletes && e.referenced.Some?)
    && (forall e :: e in entries && !e.deleted && e.content == PositionDeletes ==> e.referenced.Some?)
    && (forall e :: e in entries && !e.deleted ==> e.content != EqualityDeletes)
  }

  lemma {:induction false} RegroupsExactly(entries: seq<Entry>, n: Notes)
    requires NoteAll(entries) == Ok(n)
    ensures CanRegroup(n) <==> Regroups(entries)
  {
    NotesAreExact(entries);
    forall e | e in entries
      ensures HasReference(e) <==> !e.deleted && e.content == PositionDeletes && e.referenced.Some?
      ensures IsUnannotated(e) <==> !e.deleted && e.content == PositionDeletes && e.referenced.None?
      ensures IsEquality(e) <==> !e.deleted && e.content == EqualityDeletes
    {
    }
    if exists e :: e in entries && HasReference(e) {
      var e :| e in entries && HasReference(e);
    }
  }

  /** Otherwise the builder's plan is returned unchanged. */
  lemma {:induction false} ScanIsBuilderPlan(entries: seq<Entry>, n: Notes, adds: seq<Addition>)
    requires Collected(entries, n, adds) && !Regroups(entries)
    ensures ScanPlan(entries) == BuilderPlan(Stored(adds))
  {
    RegroupsExactly(entries, n);
    ScanIsFinalPlan(entries, n, adds);
  }

  /** One layer with one data file and no equality deletes. */
  predicate SingleFile(part: Partition<Path>)
  {
    |part| == 1 && |part[0].data| == 1 && part[0].eq == []
  }

  /** One layer of data files without any deletes. */
  predicate OnlyData(part: Partition<Path>)
  {
    && |part| == 1 && part[0].data != [] && part[0].pos == [] && part[0].eq == []
    && forall d :: d in part[0].data ==> d.dv.None?
  }

  predicate Singles(r: Regrouped)
  {
    && (forall g :: 0 <= g < |r.groups| ==> SingleFile(r.groups[g]))
    && (forall d :: d in r.shared ==> d.dv.None?)
  }

  lemma {:induction false} EmitSingles(r: Regrouped, index: Index, paths: seq<Path>)
    requires Singles(r) && forall p :: p in paths ==> p in index.data
    ensures Singles(Emit(r, index, paths))
  {
    if paths != [] {
      var init, last := paths[..|paths|-1], paths[|paths|-1];
      assert last in paths && forall p :: p in init ==> p in paths;
      EmitSingles(r, index, init);
      EmitOneSingles(Emit(r, index, init), index, last);
    }
  }

  lemma {:induction false} EmitOneSingles(r: Regrouped, index: Index, p: Path)
    requires Singles(r) && p in index.data
    ensures Singles(EmitOne(r, index, p))
  {
    var (d, l) := index.data[p];
    if p !in index.deletes && d.dv.None? {
      forall f ensures f in r.shared + [d] <==> f in r.shared || f == d { InConcat(r.shared, [d], f); }
    }
  }

  lemma {:induction false} RegroupSingles(plan: seq<Partition<Path>>, refs: Refs)
    requires RegroupAll(plan, refs).Ok?
    ensures Singles(RegroupAll(plan, refs).value)
  {
    if plan != [] {
      UnfoldRegroup(plan, refs);
      RegroupSingles(plan[..|plan|-1], refs);
      var index := IndexPartition(plan[|plan|-1], refs).value;
      EmitSingles(RegroupAll(plan[..|plan|-1], refs).value, index, IncreasingPaths(index.data.Keys));
    }
  }

  lemma {:induction false} AsPlanShape(r: Regrouped, p: nat)
    requires Singles(r) && p < |AsPlan(r)|
    ensures SingleFile(AsPlan(r)[p]) || (p == 0 && OnlyData(AsPlan(r)[p]))
  {
  }

  /** A regrouped plan: files without deletes in the first partition, every other partition one data
      file in one layer. */
  lemma {:induction false} RegroupedShape(entries: seq<Entry>, n: Notes, adds: seq<Addition>, p: nat)
    requires Collected(entries, n, adds) && Regroups(entries) && ScanPlan(entries).Ok? && p < |ScanPlan(entries).value|
    ensures SingleFile(ScanPlan(entries).value[p]) || (p == 0 && OnlyData(ScanPlan(entries).value[p]))
  {
    RegroupsExactly(entries, n);
    ScanIsFinalPlan(entries, n, adds);
    var meta := BuilderPlan(Stored(adds)).value;
    RegroupSingles(meta, n.refs);
    AsPlanShape(RegroupAll(meta, n.refs).value, p);
  }

  // ----- The rules over entries -----

  /** The plan applies the delete to a data file of this path. */
  ghost predicate PathPlanned(plan: seq<Partition<Path>>, p: Path, x: Item<Path>)
  {
    exists d: DataEntry :: d.path == p && Planned(plan, d, x)
  }

  lemma {:induction false} FileAdded(entries: seq<Entry>, adds: seq<Addition>, k: Key, s: int, d: DataEntry)
      returns (f: Entry)
    requires Additions(entries) == Ok(adds) && DataAdded(adds, k, s, d)
    ensures f in entries && LiveData(f) && IsFile(f, d) && f.key == k && f.sequence == Some(s)
  {
    var d0 :| AddData(k, s, d0) in adds && d == Attach(VectorsOf(adds, k), s, d0);
    AdditionsAreEntries(entries, adds, AddData(k, s, d0));
    f :| f in entries && Gives(f, AddData(k, s, d0));
  }

  lemma {:induction false} FileOfEntry(entries: seq<Entry>, adds: seq<Addition>, f: Entry) returns (d: DataEntry)
    requires Additions(entries) == Ok(adds) && f in entries && LiveData(f)
    ensures f.sequence.Some? && IsFile(f, d) && DataAdded(adds, f.key, f.sequence.value, d)
  {
    RefusedExactly(entries);
    var s, d0 := f.sequence.value, DataEntry(f.path, Segments(f.splitOffsets), None);
    AdditionsAreEntries(entries, adds, AddData(f.key, s, d0));
    assert Gives(f, AddData(f.key, s, d0));
    d := Attach(VectorsOf(adds, f.key), s, d0);
  }

  /** The equality delete applies to the data file: it is unpartitioned or of its partition, and has a
      strictly greater sequence number. */
  predicate AppliesEqually(f: Entry, g: Entry)
  {
    && LiveData(f) && LiveEquality(g) && f.sequence.Some? && g.sequence.Some?
    && (g.key == "" || g.key == f.key) && f.sequence.value < g.sequence.value
  }

  ghost predicate EqualityPair(entries: seq<Entry>, p: Path, x: EqDelete)
  {
    exists f, g :: f in entries && g in entries && AppliesEqually(f, g) && f.path == p && IsEqualityOf(g, x)
  }

  lemma {:induction false} EqualityOfEntry(entries: seq<Entry>, adds: seq<Addition>, k: Key, t: int, x: EqDelete)
    requires Additions(entries) == Ok(adds)
    ensures EqualityAdded(adds, k, t, x) <==>
      exists g :: g in entries && LiveEquality(g) && g.sequence == Some(t) && (g.key == "" || g.key == k)
                  && IsEqualityOf(g, x)
  {
    AdditionsAreEntries(entries, adds, AddEq(k, t, x));
    AdditionsAreEntries(entries, adds, AddGlobalEq(t, x));
    if AddEq(k, t, x) in adds { var g :| g in entries && Gives(g, AddEq(k, t, x)); }
    if AddGlobalEq(t, x) in adds { var g :| g in entries && Gives(g, AddGlobalEq(t, x)); }
    if g :| g in entries && LiveEquality(g) && g.sequence == Some(t) && (g.key == "" || g.key == k)
            && IsEqualityOf(g, x) {
      assert if g.key == "" then Gives(g, AddGlobalEq(t, x)) else Gives(g, AddEq(k, t, x));
    }
  }

  lemma {:induction false} EqualityPairs(entries: seq<Entry>, adds: seq<Addition>, p: Path, x: EqDelete)
    requires Additions(entries) == Ok(adds)
    ensures (exists d: DataEntry :: d.path == p && EqualityRule(adds, d, x)) <==> EqualityPair(entries, p, x)
  {
    if d: DataEntry :| d.path == p && EqualityRule(adds, d, x) {
      var k, s, t :| s < t && DataAdded(adds, k, s, d) && EqualityAdded(adds, k, t, x);
      var f := FileAdded(entries, adds, k, s, d);
      EqualityOfEntry(entries, adds, k, t, x);
      var g :| g in entries && LiveEquality(g) && g.sequence == Some(t) && (g.key == "" || g.key == k)
               && IsEqualityOf(g, x);
      assert AppliesEqually(f, g);
    }
    if f, g :| f in entries && g in entries && AppliesEqually(f, g) && f.path == p && IsEqualityOf(g, x) {
      var d := FileOfEntry(entries, adds, f);
      EqualityOfEntry(entries, adds, f.key, g.sequence.value, x);
      assert EqualityRule(adds, d, x);
    }
  }

  lemma {:induction false} NoEqualityPlanned(plan: seq<Partition<Path>>, d: DataEntry, x: EqDelete)
    requires forall p :: 0 <= p < |plan| ==> SingleFile(plan[p]) || OnlyData(plan[p])
    ensures !Planned(plan, d, EqItem(x))
  {
    if p :| 0 <= p < |plan| && Applies(plan[p], d, EqItem(x)) { }
  }

  /** The plan of a scan applies an equality delete to a data path exactly when two entries say so. */
  lemma {:induction false} ScanAppliesEquality(entries: seq<Entry>, p: Path, x: EqDelete)
    requires ScanPlan(entries).Ok?
    ensures PathPlanned(ScanPlan(entries).value, p, EqItem(x)) <==> EqualityPair(entries, p, x)
  {
    FeedExactly(entries);
    var n, adds, plan := NoteAll(entries).value, Additions(entries).value, ScanPlan(entries).value;
    if Regroups(entries) {
      forall q | 0 <= q < |plan| ensures SingleFile(plan[q]) || OnlyData(plan[q]) {
        RegroupedShape(entries, n, adds, q);
      }
      forall d ensures !Planned(plan, d, EqItem(x)) { NoEqualityPlanned(plan, d, x); }
    } else {
      ScanIsBuilderPlan(entries, n, adds);
      forall d ensures Planned(plan, d, EqItem(x)) <==> EqualityRule(adds, d, x) { PlanAppliesEquality(adds, d, x); }
      EqualityPairs(entries, adds, p, x);
    }
  }

  // ----- Positional deletes -----

  /** Bounds that are both recorded must enclose the path. */
  predicate EntryCovers(g: Entry, p: Path)
  {
    g.lower.Some? && g.upper.Some? ==> Leq(g.lower.value, p) && Leq(p, g.upper.value)
  }

  function PositionalOf(g: Entry): PosDelete
  {
    PosDelete(g.path,
              if g.lower.Some? && g.upper.Some? then Some(Range(g.lower.value, g.upper.value)) else None)
  }

  /** The delete applies to the data file: it is of its partition and not older. */
  predicate AppliesByPosition(f: Entry, g: Entry)
  {
    && LiveData(f) && LivePositional(g) && f.sequence.Some? && g.sequence.Some?
    && g.key == f.key && f.sequence.value <= g.sequence.value
  }

  ghost predicate PositionalPair(entries: seq<Entry>, p: Path, g: Entry)
  {
    exists f :: f in entries && AppliesByPosition(f, g) && f.path == p
  }

  /** No other live delete file has the path of this one. */
  ghost predicate OnlyOne(entries: seq<Entry>, g: Entry)
  {
    forall h :: h in entries && LivePositional(h) && h.path == g.path ==> h == g
  }

  lemma {:induction false} PositionalRuled(entries: seq<Entry>, adds: seq<Addition>, g: Entry, d: DataEntry,
        x: PosDelete)
    requires Additions(entries) == Ok(adds) && g in entries && OnlyOne(entries, g)
    requires PositionalRule(adds, d, x) && x.path == g.path
    ensures x == PositionalOf(g) && PositionalPair(entries, d.path, g)
  {
    var k, s, t :| s <= t && DataAdded(adds, k, s, d) && AddPos(k, t, x) in adds;
    var f := FileAdded(entries, adds, k, s, d);
    AdditionsAreEntries(entries, adds, AddPos(k, t, x));
    var h :| h in entries && Gives(h, AddPos(k, t, x));
    assert h == g;
    assert AppliesByPosition(f, g);
  }

  lemma {:induction false} PairIsRuled(entries: seq<Entry>, adds: seq<Addition>, g: Entry, p: Path)
      returns (d: DataEntry)
    requires Additions(entries) == Ok(adds) && g in entries && PositionalPair(entries, p, g)
    ensures d.path == p && PositionalRule(adds, d, PositionalOf(g))
  {
    var f :| f in entries && AppliesByPosition(f, g) && f.path == p;
    d := FileOfEntry(entries, adds, f);
    var t := g.sequence.value;
    AdditionsAreEntries(entries, adds, AddPos(g.key, t, PositionalOf(g)));
    assert Gives(g, AddPos(g.key, t, PositionalOf(g)));
  }

  lemma {:induction false} Reference(entries: seq<Entry>, n: Notes, g: Entry)
    requires NoteAll(entries) == Ok(n) && Regroups(entries) && g in entries && LivePositional(g)
    ensures g.path in n.refs && g.referenced == Some(n.refs[g.path])
  {
    NotesAreExact(entries);
    assert Annotated(g);
  }

  lemma {:induction false} PlanPositions(entries: seq<Entry>, n: Notes, adds: seq<Addition>, p: Path, g: Entry)
    requires Collected(entries, n, adds) && ScanPlan(entries).Ok? && !Regroups(entries)
    requires g in entries && LivePositional(g) && OnlyOne(entries, g) && EntryCovers(g, p)
    ensures PathPlanned(ScanPlan(entries).value, p, PosItem(g.path)) <==> PositionalPair(entries, p, g)
  {
    ScanIsBuilderPlan(entries, n, adds);
    var plan := ScanPlan(entries).value;
    if d: DataEntry :| d.path == p && Planned(plan, d, PosItem(g.path)) {
      PlanIsSound(adds, d, g.path);
      var x: PosDelete :| x.path == g.path && PositionalRule(adds, d, x);
      PositionalRuled(entries, adds, g, d, x);
    }
    if PositionalPair(entries, p, g) {
      var d := PairIsRuled(entries, adds, g, p);
      PlanIsComplete(adds, d, PositionalOf(g));
    }
  }

  lemma {:induction false} RegroupedPositions(entries: seq<Entry>, n: Notes, adds: seq<Addition>, p: Path, g: Entry)
    requires Collected(entries, n, adds) && ScanPlan(entries).Ok? && Regroups(entries)
    requires g in entries && LivePositional(g) && OnlyOne(entries, g) && EntryCovers(g, p)
    ensures PathPlanned(ScanPlan(entries).value, p, PosItem(g.path)) <==>
            PositionalPair(entries, p, g) && g.referenced == Some(p)
  {
    RegroupsExactly(entries, n);
    ScanIsFinalPlan(entries, n, adds);
    Reference(entries, n, g);
    var plan := ScanPlan(entries).value;
    if d: DataEntry :| d.path == p && Planned(plan, d, PosItem(g.path)) {
      RegroupedMeaning(n, adds, d, g.path);
      var x: PosDelete :| x.path == g.path && PositionalRule(adds, d, x);
      PositionalRuled(entries, adds, g, d, x);
    }
    if PositionalPair(entries, p, g) && g.referenced == Some(p) {
      var d := PairIsRuled(entries, adds, g, p);
      assert PositionalOf(g).path == g.path && Covers(PositionalOf(g), d.path);
      RegroupedMeaning(n, adds, d, g.path);
    }
  }

  /** The plan of a scan applies a delete file to a data path its bounds cover exactly when an entry of
      that path, of the delete's partition and not newer, exists, and, if the scan is regrouped, the
      delete references the path. */
  lemma {:induction false} ScanAppliesPositions(entries: seq<Entry>, p: Path, g: Entry)
    requires ScanPlan(entries).Ok?
    requires g in entries && LivePositional(g) && OnlyOne(entries, g) && EntryCovers(g, p)
    ensures PathPlanned(ScanPlan(entries).value, p, PosItem(g.path)) <==>
            PositionalPair(entries, p, g) && (Regroups(entries) ==> g.referenced == Some(p))
  {
    FeedExactly(entries);
    if Regroups(entries) {
      RegroupedPositions(entries, NoteAll(entries).value, Additions(entries).value, p, g);
    } else {
      PlanPositions(entries, NoteAll(entries).value, Additions(entries).value, p, g);
    }
  }

  // ----- Data files and their vectors -----

  lemma {:induction false} AllDataMembers(adds: seq<Addition>, vectors: Key -> Vectors, d: DataEntry)
    ensures d in AllData(adds, vectors) <==>
            exists k, s, d0 :: AddData(k, s, d0) in adds && d == Attach(vectors(k), s, d0)
  {
    if adds != [] {
      var init, a := adds[..|adds|-1], adds[|adds|-1];
      AllDataMembers(init, vectors, d);
      forall b ensures b in adds <==> b in init || b == a { AdditionsSplit(adds, b); }
      InConcat(AllData(init, vectors), if a.AddData? then [Attach(vectors(a.key), a.seqno, a.d)] else [], d);
      if a.AddData? && d == Attach(vectors(a.key), a.seqno, a.d) { assert AddData(a.key, a.seqno, a.d) in adds; }
    }
  }

  lemma {:induction false} PlannedFiles(n: Notes, adds: seq<Addition>, d: DataEntry)
    requires FinalPlan(n, Stored(adds)).Ok?
    ensures DataItem(d) in PlanItems(FinalPlan(n, Stored(adds)).value) <==> exists k, s :: DataAdded(adds, k, s, d)
  {
    var items := PlanItems(FinalPlan(n, Stored(adds)).value);
    FinalPlanKeepsData(n, adds);
    SameMembers(DataOf(items), AllData(adds, k => VectorsOf(adds, k)));
    DataOfMembers(items, d);
    AllDataMembers(adds, k => VectorsOf(adds, k), d);
    if k, s, d0 :| AddData(k, s, d0) in adds && d == Attach(VectorsOf(adds, k), s, d0) {
      assert DataAdded(adds, k, s, d);
    }
  }

  /** A vector for the data file, in its partition. */
  predicate VectorFor(f: Entry, v: Entry)
  {
    LiveVector(v) && v.key == f.key && v.referenced == Some(f.path) && v.sequence.Some?
  }

  /** It must be applied to the file: it is not older. */
  predicate MustApply(f: Entry, v: Entry)
    requires f.sequence.Some?
  {
    VectorFor(f, v) && f.sequence.value <= v.sequence.value
  }

  /** No vector for the file is newer. */
  ghost predicate Newest(entries: seq<Entry>, f: Entry, v: Entry)
    requires v.sequence.Some?
  {
    forall w :: w in entries && VectorFor(f, w) ==> w.sequence.value <= v.sequence.value
  }

  /** The file carries a newest vector exactly when one must be applied to it. */
  ghost predicate CarriesVector(entries: seq<Entry>, f: Entry, d: DataEntry)
    requires f.sequence.Some?
  {
    && (d.dv.Some? <==> exists v :: v in entries && MustApply(f, v))
    && (d.dv.Some? ==>
        exists v :: v in entries && MustApply(f, v) && Newest(entries, f, v) && IsVectorOf(v, d.dv.value))
  }

  lemma {:induction false} VectorsAreEntries(entries: seq<Entry>, adds: seq<Addition>, f: Entry, t: int)
    requires Additions(entries) == Ok(adds)
    ensures VectorAdded(adds, f.key, f.path, t) <==>
            exists v :: v in entries && VectorFor(f, v) && v.sequence == Some(t)
  {
    if VectorAdded(adds, f.key, f.path, t) {
      var dv :| AddDv(f.key, t, dv) in adds && dv.referenced == f.path;
      AdditionsAreEntries(entries, adds, AddDv(f.key, t, dv));
      var v :| v in entries && Gives(v, AddDv(f.key, t, dv));
      assert VectorFor(f, v);
    }
    if v :| v in entries && VectorFor(f, v) && v.sequence == Some(t) {
      RefusedExactly(entries);
      var dv := DeletionVector(v.path, v.contentOffset.value, v.contentSize.value, f.path);
      AdditionsAreEntries(entries, adds, AddDv(f.key, t, dv));
      assert Gives(v, AddDv(f.key, t, dv));
    }
  }

  lemma {:induction false} NewestIsHighest(entries: seq<Entry>, adds: seq<Addition>, f: Entry, t: int)
    requires Additions(entries) == Ok(adds) && HighestAdded(adds, f.key, f.path, t)
    ensures forall w :: w in entries && VectorFor(f, w) ==> w.sequence.value <= t
  {
    forall w | w in entries && VectorFor(f, w) ensures w.sequence.value <= t {
      VectorsAreEntries(entries, adds, f, w.sequence.value);
    }
  }

  lemma {:induction false} HighestExists(adds: seq<Addition>, k: Key, p: Path, t: int) returns (v: int)
    requires VectorAdded(adds, k, p, t)
    ensures HighestAdded(adds, k, p, v)
  {
    var layers := MergedLayers(Stored(adds), k);
    MergedContents(adds, k, t);
    GatheredVectors(adds, k, t, p);
    StoredExactly(adds, k, t);
    assert t in Numbers(layers);
    LatestIsHighest(layers, Numbers(layers), p);
    v := VectorsOf(adds, k)[p].1;
    VectorsOfExactly(adds, k, p, v);
  }

  lemma {:induction false} CarriesExactly(entries: seq<Entry>, adds: seq<Addition>, f: Entry, d0: DataEntry)
    requires Additions(entries) == Ok(adds) && f.sequence.Some? && f.path == d0.path && d0.dv.None?
    ensures CarriesVector(entries, f, Attach(VectorsOf(adds, f.key), f.sequence.value, d0))
  {
    var s, vectors := f.sequence.value, VectorsOf(adds, f.key);
    if Matches(vectors, s, d0) {
      var t, dv := vectors[f.path].1, vectors[f.path].0;
      VectorsOfExactly(adds, f.key, f.path, t);
      NewestIsHighest(entries, adds, f, t);
      AdditionsAreEntries(entries, adds, AddDv(f.key, t, dv));
      var v :| v in entries && Gives(v, AddDv(f.key, t, dv));
      assert MustApply(f, v) && Newest(entries, f, v) && IsVectorOf(v, dv);
    } else if v :| v in entries && MustApply(f, v) {
      VectorsAreEntries(entries, adds, f, v.sequence.value);
      var t := HighestExists(adds, f.key, f.path, v.sequence.value);
      VectorsOfExactly(adds, f.key, f.path, t);
      assert false;
    }
  }

  lemma {:induction false} FileIsEntry(entries: seq<Entry>, adds: seq<Addition>, k: Key, s: int, d: DataEntry)
      returns (f: Entry)
    requires Additions(entries) == Ok(adds) && DataAdded(adds, k, s, d)
    ensures f in entries && LiveData(f) && IsFile(f, d) && f.sequence.Some? && CarriesVector(entries, f, d)
  {
    var d0 :| AddData(k, s, d0) in adds && d == Attach(VectorsOf(adds, k), s, d0);
    AdditionsAreEntries(entries, adds, AddData(k, s, d0));
    f :| f in entries && Gives(f, AddData(k, s, d0));
    CarriesExactly(entries, adds, f, d0);
  }

  /** Every data file of the plan is that of a live entry, with a vector as the entries demand ... */
  lemma {:induction false} PlannedFileIsEntry(entries: seq<Entry>, d: DataEntry) returns (f: Entry)
    requires ScanPlan(entries).Ok? && DataItem(d) in PlanItems(ScanPlan(entries).value)
    ensures f in entries && LiveData(f) && IsFile(f, d) && f.sequence.Some? && CarriesVector(entries, f, d)
  {
    FeedExactly(entries);
    var n, adds := NoteAll(entries).value, Additions(entries).value;
    PlannedFiles(n, adds, d);
    var k, s :| DataAdded(adds, k, s, d);
    f := FileIsEntry(entries, adds, k, s, d);
  }

  predicate IsDataAt(e: Entry, p: Path) { LiveData(e) && e.path == p }

  function DataAt(p: Path): Entry -> bool { (e: Entry) => IsDataAt(e, p) }

  lemma {:induction false} FilesCounted(entries: seq<Entry>, adds: seq<Addition>, vectors: Key -> Vectors, p: Path)
    requires Additions(entries) == Ok(adds)
    ensures Count(AllData(adds, vectors), HasPath(p)) == Count(entries, DataAt(p))
  {
    if entries != [] {
      var init, e := entries[..|entries|-1], entries[|entries|-1];
      var before := Additions(init).value;
      FilesCounted(init, before, vectors, p);
      ClassifyExactly(e, AddGlobalEq(0, EqDelete([], [])));
      if Classify(e).value.Some? {
        var a := Classify(e).value.value;
        ClassifyExactly(e, a);
        OneMoreCounted(before, a, vectors, p);
      }
    }
  }

  lemma {:induction false} OneMoreCounted(adds: seq<Addition>, a: Addition, vectors: Key -> Vectors, p: Path)
    ensures Count(AllData(adds + [a], vectors), HasPath(p))
            == Count(AllData(adds, vectors), HasPath(p)) + (if a.AddData? && a.d.path == p then 1 else 0)
  {
    assert (adds + [a])[..|adds|] == adds;
    if a.AddData? {
      CountSnoc(AllData(adds, vectors), Attach(vectors(a.key), a.seqno, a.d), HasPath(p));
    } else {
      assert AllData(adds, vectors) + [] == AllData(adds, vectors);
    }
  }

  /** ... and a path occurs in the plan as often as among the live data entries. */
  lemma {:induction false} PlanCountsFiles(entries: seq<Entry>, p: Path)
    requires ScanPlan(entries).Ok?
    ensures Count(DataOf(PlanItems(ScanPlan(entries).value)), HasPath(p)) == Count(entries, DataAt(p))
  {
    FeedExactly(entries);
    var n, adds := NoteAll(entries).value, Additions(entries).value;
    var vectors := k => VectorsOf(adds, k);
    FinalPlanKeepsData(n, adds);
    CountPermutation(DataOf(PlanItems(ScanPlan(entries).value)), AllData(adds, vectors), HasPath(p));
    FilesCounted(entries, adds, vectors, p);
  }

  // ----- When there is a plan -----

  predicate IsDataOfKey(e: Entry, k: Key, p: Path) { LiveData(e) && e.key == k && e.path == p }

  function DataOfKeyAt(k: Key, p: Path): Entry -> bool { (e: Entry) => IsDataOfKey(e, k, p) }

  /** At most one live data entry of the partition has the path. */
  predicate OneFile(entries: seq<Entry>, k: Key, p: Path) { Count(entries, DataOfKeyAt(k, p)) <= 1 }

  /** No two live data entries of one partition have the same path. */
  ghost predicate DistinctFiles(entries: seq<Entry>)
  {
    forall k, p :: OneFile(entries, k, p)
  }

  lemma {:induction false} OfKeyStep(adds: seq<Addition>, a: Addition, vectors: Key -> Vectors, k: Key, p: Path)
    ensures Count(AllData(OfKey(adds + [a], k), vectors), HasPath(p))
            == Count(AllData(OfKey(adds, k), vectors), HasPath(p))
               + (if a.AddData? && a.key == k && a.d.path == p then 1 else 0)
  {
    assert (adds + [a])[..|adds|] == adds;
    if DataOfKey(a, k) { OneMoreCounted(OfKey(adds, k), a, vectors, p); }
  }

  lemma {:induction false} KeyFilesCounted(entries: seq<Entry>, adds: seq<Addition>, vectors: Key -> Vectors, k: Key,
        p: Path)
    requires Additions(entries) == Ok(adds)
    ensures Count(AllData(OfKey(adds, k), vectors), HasPath(p)) == Count(entries, DataOfKeyAt(k, p))
  {
    if entries != [] {
      var init, e := entries[..|entries|-1], entries[|entries|-1];
      var before := Additions(init).value;
      KeyFilesCounted(init, before, vectors, k, p);
      ClassifyExactly(e, AddGlobalEq(0, EqDelete([], [])));
      if Classify(e).value.Some? {
        var a := Classify(e).value.value;
        ClassifyExactly(e, a);
        OfKeyStep(before, a, vectors, k, p);
      }
    }
  }

  lemma {:induction false} DistinctOfKey(entries: seq<Entry>, adds: seq<Addition>, k: Key)
    requires Additions(entries) == Ok(adds)
    ensures DistinctPaths(OfKey(adds, k)) <==> forall p :: OneFile(entries, k, p)
  {
    var none: Key -> Vectors := (j: Key) => map[];
    RepeatedAdditions(OfKey(adds, k), none);
    forall p ensures Count(AllData(OfKey(adds, k), none), HasPath(p)) > 1 <==> !OneFile(entries, k, p) {
      KeyFilesCounted(entries, adds, none, k, p);
    }
  }

  ghost predicate DistinctAdditions(adds: seq<Addition>)
  {
    forall k :: DistinctPaths(OfKey(adds, k))
  }

  lemma {:induction false} FilesAreDistinct(entries: seq<Entry>, adds: seq<Addition>)
    requires Additions(entries) == Ok(adds) && DistinctAdditions(adds)
    ensures DistinctFiles(entries)
  {
    forall k, p ensures OneFile(entries, k, p) {
      DistinctOfKey(entries, adds, k);
      assert DistinctPaths(OfKey(adds, k));
    }
  }

  lemma {:induction false} DistinctFilesExactly(entries: seq<Entry>, adds: seq<Addition>)
    requires Additions(entries) == Ok(adds)
    ensures DistinctAdditions(adds) <==> DistinctFiles(entries)
  {
    if DistinctAdditions(adds) { FilesAreDistinct(entries, adds); }
    if DistinctFiles(entries) {
      forall k ensures DistinctPaths(OfKey(adds, k)) { DistinctOfKey(entries, adds, k); }
    }
  }

  lemma {:induction false} RegroupedExists(entries: seq<Entry>, n: Notes, adds: seq<Addition>)
    requires Collected(entries, n, adds) && CanRegroup(n) && BuilderPlan(Stored(adds)).Ok?
    ensures FinalPlan(n, Stored(adds)).Ok? <==> DistinctAdditions(adds)
  {
    RegroupedScanFails(entries, n, adds);
    if FinalPlan(n, Stored(adds)).Err? {
      var k :| !DistinctPaths(OfKey(adds, k));
      RepeatsInKey(adds, k);
    } else {
      forall k ensures DistinctPaths(OfKey(adds, k)) { assert !!DistinctPaths(OfKey(adds, k)); }
    }
  }

  lemma {:induction false} RepeatsInKey(adds: seq<Addition>, k: Key)
    requires !DistinctPaths(OfKey(adds, k))
    ensures !DistinctAdditions(adds)
  {
  }

  lemma {:induction false} CollectedExists(entries: seq<Entry>, n: Notes, adds: seq<Addition>)
    requires Collected(entries, n, adds)
    ensures ScanPlan(entries).Ok? <==>
            BuilderPlan(Stored(adds)).Ok? && (Regroups(entries) ==> DistinctFiles(entries))
  {
    RegroupsExactly(entries, n);
    ScanIsFinalPlan(entries, n, adds);
    DistinctFilesExactly(entries, adds);
    if CanRegroup(n) && BuilderPlan(Stored(adds)).Ok? { RegroupedExists(entries, n, adds); }
  }

  ghost predicate AllAcceptable(entries: seq<Entry>)
  {
    forall i :: 0 <= i < |entries| ==> Acceptable(entries[i])
  }

  /** No two live positional delete files with a reference have the same path. */
  ghost predicate DistinctAnnotated(entries: seq<Entry>)
  {
    forall q :: Count(entries, AnnotatedAs(q)) <= 1
  }

  /** A scan has a plan exactly when every entry is acceptable, no annotated delete path is repeated,
      the builder has a plan and, if it is regrouped, no partition holds a data path twice. */
  lemma {:induction false} ScanExistsExactly(entries: seq<Entry>)
    ensures ScanPlan(entries).Ok? <==>
      && AllAcceptable(entries) && DistinctAnnotated(entries)
      && Additions(entries).Ok? && BuilderPlan(Stored(Additions(entries).value)).Ok?
      && (Regroups(entries) ==> DistinctFiles(entries))
  {
    RefusedExactly(entries);
    NotingFailsExactly(entries);
    FeedExactly(entries);
    if NoteAll(entries).Ok? && Additions(entries).Ok? {
      CollectedExists(entries, NoteAll(entries).value, Additions(entries).value);
    }
  }
}
