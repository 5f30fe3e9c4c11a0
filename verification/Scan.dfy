/** `GetScanMetadata`: entries are fed to the planner one after another, then the plan is made. */
module Scan {
  import opened Order
  import opened Plan
  import opened Builder
  import opened Planner
  import opened Meaning
  import opened Conservation
  import opened Referenced
  import opened RegroupMeaning

  function NoteAll(entries: seq<Entry>): Result<Notes>
  {
    if entries == [] then Ok(NoNotes()) else
      match NoteAll(entries[..|entries|-1])
      case Err(e) => Err(e)
      case Ok(n) => Note(n, entries[|entries|-1])
  }

  datatype Progress = Progress(notes: Notes, st: State)

  /** The planner after a sequence of entries, or the first error. */
  function Feed(entries: seq<Entry>): Result<Progress>
  {
    if entries == [] then Ok(Progress(NoNotes(), NothingStored())) else
      var e := entries[|entries|-1];
      match Feed(entries[..|entries|-1])
      case Err(error) => Err(error)
      case Ok(p) =>
        match Note(p.notes, e)
        case Err(error) => Err(error)
        case Ok(n) => if Classify(e).Err? then Err(Classify(e).error) else Ok(Progress(n, StoreEntry(p.st, e)))
  }

  /** The result of a scan. */
  function ScanPlan(entries: seq<Entry>): Result<seq<Partition<Path>>>
  {
    match Feed(entries)
    case Err(e) => Err(e)
    case Ok(p) => FinalPlan(p.notes, p.st)
  }

  lemma {:induction false} FeedFails(entries: seq<Entry>, n: nat)
    requires n <= |entries| && Feed(entries[..n]).Err?
    ensures Feed(entries) == Feed(entries[..n])
  {
    if n < |entries| {
      assert entries[..|entries|-1][..n] == entries[..n];
      FeedFails(entries[..|entries|-1], n);
    } else {
      assert entries[..n] == entries;
    }
  }

  method GetScanMetadata(entries: seq<Entry>) returns (r: Result<seq<Partition<Path>>>)
    ensures r == ScanPlan(entries)
  {
    var builder := new ScanMetadataBuilder();
    var planner := new ReferencedDataFileAwareScanPlanner(builder);
    for i := 0 to |entries|
      invariant planner.builder == builder && fresh(builder) && fresh(planner)
      invariant Feed(entries[..i]) == Ok(Progress(planner.Noted(), builder.Contents()))
    {
      assert entries[..i+1][..i] == entries[..i];
      var status := planner.AddEntry(entries[i]);
      if status.Err? {
        FeedFails(entries, i + 1);
        return Err(status.error);
      }
    }
    assert entries[..|entries|] == entries;
    r := planner.GetResult();
  }

  /** Feeding succeeds exactly when every entry is well formed and no annotated delete path is
      repeated; the state is then the one stored by the builder alone. */
  lemma {:induction false} FeedExactly(entries: seq<Entry>)
    ensures Feed(entries).Ok? <==> NoteAll(entries).Ok? && Additions(entries).Ok?
    ensures Feed(entries).Ok? ==>
      Feed(entries).value == Progress(NoteAll(entries).value, Stored(Additions(entries).value))
  {
    if entries != [] {
      var init, e := entries[..|entries|-1], entries[|entries|-1];
      FeedExactly(init);
      if Feed(init).Ok? && Classify(e).Ok? && Classify(e).value.Some? {
        var adds, a := Additions(init).value, Classify(e).value.value;
        assert (adds + [a])[..|adds|] == adds;
      }
    }
  }

  // ----- What the notes say, independently of the order of entries -----

  /** A live positional delete file with a reference that is not a deletion vector. */
  predicate Annotated(e: Entry)
  {
    !e.deleted && e.content == PositionDeletes && e.referenced.Some? && !e.isPuffin
  }

  function AnnotatedAs(q: Path): Entry -> bool { (e: Entry) => Annotated(e) && e.path == q }

  predicate IsEquality(e: Entry) { !e.deleted && e.content == EqualityDeletes }

  predicate IsUnannotated(e: Entry) { !e.deleted && e.content == PositionDeletes && e.referenced.None? }

  predicate HasReference(e: Entry) { !e.deleted && e.content == PositionDeletes && e.referenced.Some? }

  ghost predicate NotesMatch(n: Notes, entries: seq<Entry>)
  {
    && (n.hasEquality <==> exists e :: e in entries && IsEquality(e))
    && (n.allAnnotated <==> forall e :: e in entries ==> !IsUnannotated(e))
    && (n.hasReferenced <==> exists e :: e in entries && HasReference(e))
    && (forall q :: q in n.refs <==> exists e :: e in entries && Annotated(e) && e.path == q)
    && (forall e :: e in entries && Annotated(e) ==> e.path in n.refs && n.refs[e.path] == e.referenced.value)
  }

  lemma {:induction false} NotesAreExact(entries: seq<Entry>)
    requires NoteAll(entries).Ok?
    ensures NotesMatch(NoteAll(entries).value, entries)
  {
    if entries != [] {
      var init, last := entries[..|entries|-1], entries[|entries|-1];
      NotesAreExact(init);
      forall e ensures e in entries <==> e in init || e == last {
        InConcat(init, [last], e);
        assert entries == init + [last];
      }
      NoteKeepsMatch(NoteAll(init).value, init, last, entries);
    }
  }

  lemma {:induction false} NoteKeepsFlags(n: Notes, init: seq<Entry>, last: Entry, entries: seq<Entry>)
    requires NotesMatch(n, init) && Note(n, last).Ok?
    requires forall e :: e in entries <==> e in init || e == last
    ensures var m := Note(n, last).value;
      && (m.hasEquality <==> exists e :: e in entries && IsEquality(e))
      && (m.allAnnotated <==> forall e :: e in entries ==> !IsUnannotated(e))
      && (m.hasReferenced <==> exists e :: e in entries && HasReference(e))
  {
    assert last in entries;
  }

  lemma {:induction false} NoteKeepsRefs(n: Notes, init: seq<Entry>, last: Entry, entries: seq<Entry>, q: Path)
    requires NotesMatch(n, init) && Note(n, last).Ok?
    requires forall e :: e in entries <==> e in init || e == last
    ensures q in Note(n, last).value.refs <==> exists e :: e in entries && Annotated(e) && e.path == q
  {
    var refs := Note(n, last).value.refs;
    if q in refs && q !in n.refs { assert Annotated(last) && last.path == q && last in entries; }
    if q in n.refs {
      var e :| e in init && Annotated(e) && e.path == q;
      assert e in entries;
    }
  }

  lemma {:induction false} NoteKeepsMatch(n: Notes, init: seq<Entry>, last: Entry, entries: seq<Entry>)
    requires NotesMatch(n, init) && Note(n, last).Ok?
    requires forall e :: e in entries <==> e in init || e == last
    ensures NotesMatch(Note(n, last).value, entries)
  {
    var m := Note(n, last).value;
    NoteKeepsFlags(n, init, last, entries);
    forall q ensures q in m.refs <==> exists e :: e in entries && Annotated(e) && e.path == q {
      NoteKeepsRefs(n, init, last, entries, q);
    }
    forall e | e in entries && Annotated(e) ensures e.path in m.refs && m.refs[e.path] == e.referenced.value {
      if e in init { assert e.path in n.refs; }
    }
  }

  lemma {:induction false} RefsAreCounted(entries: seq<Entry>, q: Path)
    requires NoteAll(entries).Ok?
    ensures Count(entries, AnnotatedAs(q)) == if q in NoteAll(entries).value.refs then 1 else 0
  {
    if entries != [] { RefsAreCounted(entries[..|entries|-1], q); }
  }

  /** Noting fails exactly when an annotated delete path occurs twice. */
  lemma {:induction false} NotingFailsExactly(entries: seq<Entry>)
    ensures NoteAll(entries).Err? <==> exists q :: Count(entries, AnnotatedAs(q)) > 1
  {
    if entries != [] {
      var init, last := entries[..|entries|-1], entries[|entries|-1];
      NotingFailsExactly(init);
      if NoteAll(init).Ok? {
        forall q ensures Count(init, AnnotatedAs(q)) == if q in NoteAll(init).value.refs then 1 else 0 {
          RefsAreCounted(init, q);
        }
        if Note(NoteAll(init).value, last).Err? { assert Count(entries, AnnotatedAs(last.path)) == 2; }
      } else {
        var q :| Count(init, AnnotatedAs(q)) > 1;
        assert Count(entries, AnnotatedAs(q)) >= Count(init, AnnotatedAs(q));
      }
    }
  }

  // ----- The meaning of a scan -----

  lemma {:induction false} AdditionSource(entries: seq<Entry>, a: Addition)
    requires Additions(entries).Ok? && a in Additions(entries).value
    ensures exists e :: e in entries && Classify(e) == Ok(Some(a))
  {
    var init, last := entries[..|entries|-1], entries[|entries|-1];
    if a in Additions(init).value {
      AdditionSource(init, a);
      var e :| e in init && Classify(e) == Ok(Some(a));
      assert e in entries;
    } else {
      assert last in entries;
    }
  }

  /** The entries are accepted; `n` and `adds` are what was noted and added. */
  ghost predicate Collected(entries: seq<Entry>, n: Notes, adds: seq<Addition>)
  {
    NoteAll(entries) == Ok(n) && Additions(entries) == Ok(adds)
  }

  /** An accepted sequence is planned from its notes and additions alone. */
  lemma {:induction false} ScanIsFinalPlan(entries: seq<Entry>, n: Notes, adds: seq<Addition>)
    requires Collected(entries, n, adds)
    ensures ScanPlan(entries) == FinalPlan(n, Stored(adds))
  {
    FeedExactly(entries);
  }

  /** When regrouping is possible every positional delete of the plan is annotated. */
  lemma {:induction false} AllReferenced(entries: seq<Entry>, n: Notes, adds: seq<Addition>, k: Key, s: int,
        x: PosDelete)
    requires Collected(entries, n, adds) && n.allAnnotated && AddPos(k, s, x) in adds
    ensures x.path in n.refs
  {
    NotesAreExact(entries);
    AdditionSource(entries, AddPos(k, s, x));
    var e :| e in entries && Classify(e) == Ok(Some(AddPos(k, s, x)));
    assert !IsUnannotated(e);
    assert Annotated(e) && e.path == x.path;
  }

  /** The regrouped plan gives a data file only deletes that reference it, belong to its partition
      and are not older, and all of these whose bounds cover the file. */
  lemma {:induction false} RegroupedMeaning(n: Notes, adds: seq<Addition>, d: DataEntry, q: Path)
    requires FinalPlan(n, Stored(adds)).Ok? && CanRegroup(n)
    ensures Planned(FinalPlan(n, Stored(adds)).value, d, PosItem(q)) ==>
      q in n.refs && n.refs[q] == d.path && exists x: PosDelete :: x.path == q && PositionalRule(adds, d, x)
    ensures q in n.refs && n.refs[q] == d.path
            && (exists x: PosDelete :: x.path == q && PositionalRule(adds, d, x) && Covers(x, d.path)) ==>
      Planned(FinalPlan(n, Stored(adds)).value, d, PosItem(q))
  {
    var meta := BuilderPlan(Stored(adds)).value;
    RegroupPreservesMeaning(meta, n.refs, d, q);
    if Planned(meta, d, PosItem(q)) { PlanIsSound(adds, d, q); }
    if x: PosDelete :| x.path == q && PositionalRule(adds, d, x) && Covers(x, d.path) { PlanIsComplete(adds, d, x); }
  }

  /** Regrouped or not, the plan keeps every data file exactly once. */
  lemma {:induction false} FinalPlanKeepsData(n: Notes, adds: seq<Addition>)
    requires FinalPlan(n, Stored(adds)).Ok?
    ensures multiset(DataOf(PlanItems(FinalPlan(n, Stored(adds)).value)))
         == multiset(AllData(adds, k => VectorsOf(adds, k)))
  {
    PlanKeepsData(adds);
    if CanRegroup(n) { RegroupKeepsData(BuilderPlan(Stored(adds)).value, n.refs); }
  }

  /** When regrouping is possible it meets only annotated deletes. */
  lemma {:induction false} PlanAnnotated(entries: seq<Entry>, n: Notes, adds: seq<Addition>, q: Path)
    requires Collected(entries, n, adds) && n.allAnnotated && BuilderPlan(Stored(adds)).Ok?
    requires PosItem(q) in PlanItems(BuilderPlan(Stored(adds)).value)
    ensures q in n.refs
  {
    DeletesOfPlan(adds, q);
    var k, s, x :| AddPos(k, s, x) in adds && x.path == q;
    AllReferenced(entries, n, adds, k, s, x);
  }
}
