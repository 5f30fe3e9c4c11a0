/** Regrouping by `referenced_data_file` (`ReferencedDataFileAwareScanPlanner`). */
module Referenced {
  import opened Order
  import opened Plan
  import opened Builder
  import opened Planner

  type Refs = map<Path, Path>

  /** A data file and the number of its layer, by data path. */
  type DataIndex = map<Path, (DataEntry, nat)>

  /** The deletes that reference a data path, with the numbers of their layers. */
  type DeleteIndex = map<Path, seq<(Path, nat)>>

  function IndexData(index: DataIndex, data: seq<DataEntry>, l: nat): Result<DataIndex>
  {
    if data == [] then Ok(index) else
      var d := data[|data|-1];
      match IndexData(index, data[..|data|-1], l)
      case Err(e) => Err(e)
      case Ok(m) => if d.path in m then Err(DuplicateDataPath(d.path)) else Ok(m[d.path := (d, l)])
  }

  function DeletesFor(index: DeleteIndex, p: Path): seq<(Path, nat)>
  {
    if p in index then index[p] else []
  }

  function IndexDeletes(index: DeleteIndex, refs: Refs, pos: seq<Path>, l: nat): Result<DeleteIndex>
  {
    if pos == [] then Ok(index) else
      var q := pos[|pos|-1];
      match IndexDeletes(index, refs, pos[..|pos|-1], l)
      case Err(e) => Err(e)
      case Ok(m) => if q !in refs then Err(InternalError) else Ok(m[refs[q] := DeletesFor(m, refs[q]) + [(q, l)]])
  }

  datatype Index = Index(data: DataIndex, deletes: DeleteIndex)

  function IndexLayer(index: Index, refs: Refs, layer: Layer<Path>, l: nat): Result<Index>
  {
    match IndexData(index.data, layer.data, l)
    case Err(e) => Err(e)
    case Ok(data) =>
      match IndexDeletes(index.deletes, refs, layer.pos, l)
      case Err(e) => Err(e)
      case Ok(deletes) => Ok(Index(data, deletes))
  }

  function IndexPartition(part: Partition<Path>, refs: Refs): Result<Index>
  {
    if part == [] then Ok(Index(map[], map[])) else
      match IndexPartition(part[..|part|-1], refs)
      case Err(e) => Err(e)
      case Ok(index) => IndexLayer(index, refs, part[|part|-1], |part| - 1)
  }

  /** The shared partition's data files, and one partition per data file with deletes. */
  datatype Regrouped = Regrouped(shared: seq<DataEntry>, groups: seq<Partition<Path>>)

  /** Deletes not older than layer `l`. */
  function NotOlder(deletes: seq<(Path, nat)>, l: nat): seq<Path>
  {
    if deletes == [] then [] else
      var x := deletes[|deletes|-1];
      NotOlder(deletes[..|deletes|-1], l) + (if x.1 < l then [] else [x.0])
  }

  function EmitOne(r: Regrouped, index: Index, p: Path): Regrouped
    requires p in index.data
  {
    var (d, l) := index.data[p];
    if p !in index.deletes && d.dv.None? then r.(shared := r.shared + [d])
    else r.(groups := r.groups + [[Layer([d], NotOlder(DeletesFor(index.deletes, p), l), [])]])
  }

  function Emit(r: Regrouped, index: Index, paths: seq<Path>): Regrouped
    requires forall p :: p in paths ==> p in index.data
  {
    if paths == [] then r else EmitOne(Emit(r, index, paths[..|paths|-1]), index, paths[|paths|-1])
  }

  function RegroupOne(r: Regrouped, part: Partition<Path>, refs: Refs): Result<Regrouped>
  {
    match IndexPartition(part, refs)
    case Err(e) => Err(e)
    case Ok(index) => Ok(Emit(r, index, IncreasingPaths(index.data.Keys)))
  }

  function RegroupAll(plan: seq<Partition<Path>>, refs: Refs): Result<Regrouped>
  {
    if plan == [] then Ok(Regrouped([], [])) else
      match RegroupAll(plan[..|plan|-1], refs)
      case Err(e) => Err(e)
      case Ok(r) => RegroupOne(r, plan[|plan|-1], refs)
  }

  /** The shared partition comes first and is dropped if it stays empty. */
  function AsPlan(r: Regrouped): seq<Partition<Path>>
  {
    if r.shared == [] then r.groups else [[Layer(r.shared, [], [])]] + r.groups
  }

  function Regroup(plan: seq<Partition<Path>>, refs: Refs): Result<seq<Partition<Path>>>
  {
    match RegroupAll(plan, refs)
    case Err(e) => Err(e)
    case Ok(r) => Ok(AsPlan(r))
  }

  // ----- The state kept beside the builder -----

  datatype Notes = Notes(allAnnotated: bool, hasEquality: bool, hasReferenced: bool, refs: Refs)

  function NoNotes(): Notes { Notes(true, false, false, map[]) }

  function Note(n: Notes, e: Entry): Result<Notes>
  {
    if e.deleted || e.content == Data then Ok(n)
    else if e.content == EqualityDeletes then Ok(n.(hasEquality := true))
    else if e.referenced.None? then Ok(n.(allAnnotated := false))
    else if e.isPuffin then Ok(n.(hasReferenced := true))
    else if e.path in n.refs then Err(DuplicateDeletePath(e.path))
    else Ok(n.(hasReferenced := true, refs := n.refs[e.path := e.referenced.value]))
  }

  function StoreEntry(st: State, e: Entry): State
    requires Classify(e).Ok?
  {
    match Classify(e).value
    case None => st
    case Some(a) => Store(st, a)
  }

  predicate CanRegroup(n: Notes)
  {
    n.hasReferenced && !n.hasEquality && n.allAnnotated
  }

  /** `ReferencedDataFileAwareScanPlanner::GetResult`. */
  function FinalPlan(n: Notes, st: State): Result<seq<Partition<Path>>>
  {
    match BuilderPlan(st)
    case Err(e) => Err(e)
    case Ok(meta) => if CanRegroup(n) then Regroup(meta, n.refs) else Ok(meta)
  }

  // ----- Methods -----

  lemma {:induction false} IndexDataFails(index: DataIndex, data: seq<DataEntry>, l: nat, n: nat)
    requires n <= |data| && IndexData(index, data[..n], l).Err?
    ensures IndexData(index, data, l) == IndexData(index, data[..n], l)
  {
    if n == |data| {
      assert data[..n] == data;
    } else {
      assert data[..|data|-1][..n] == data[..n];
      IndexDataFails(index, data[..|data|-1], l, n);
    }
  }

  lemma {:induction false} IndexDeletesFails(index: DeleteIndex, refs: Refs, pos: seq<Path>, l: nat, n: nat)
    requires n <= |pos| && IndexDeletes(index, refs, pos[..n], l).Err?
    ensures IndexDeletes(index, refs, pos, l) == IndexDeletes(index, refs, pos[..n], l)
  {
    if n == |pos| {
      assert pos[..n] == pos;
    } else {
      assert pos[..|pos|-1][..n] == pos[..n];
      IndexDeletesFails(index, refs, pos[..|pos|-1], l, n);
    }
  }

  lemma {:induction false} IndexPartitionFails(part: Partition<Path>, refs: Refs, n: nat)
    requires n <= |part| && IndexPartition(part[..n], refs).Err?
    ensures IndexPartition(part, refs) == IndexPartition(part[..n], refs)
  {
    if n == |part| {
      assert part[..n] == part;
    } else {
      assert part[..|part|-1][..n] == part[..n];
      IndexPartitionFails(part[..|part|-1], refs, n);
    }
  }

  method CollectData(index: DataIndex, data: seq<DataEntry>, l: nat) returns (r: Result<DataIndex>)
    ensures r == IndexData(index, data, l)
  {
    var m := index;
    for i := 0 to |data|
      invariant IndexData(index, data[..i], l) == Ok(m)
    {
      assert data[..i+1][..i] == data[..i];
      if data[i].path in m {
        IndexDataFails(index, data, l, i + 1);
        return Err(DuplicateDataPath(data[i].path));
      }
      m := m[data[i].path := (data[i], l)];
    }
    assert data[..|data|] == data;
    return Ok(m);
  }

  method CollectDeletes(index: DeleteIndex, refs: Refs, pos: seq<Path>, l: nat) returns (r: Result<DeleteIndex>)
    ensures r == IndexDeletes(index, refs, pos, l)
  {
    var m := index;
    for i := 0 to |pos|
      invariant IndexDeletes(index, refs, pos[..i], l) == Ok(m)
    {
      assert pos[..i+1][..i] == pos[..i];
      if pos[i] !in refs {
        IndexDeletesFails(index, refs, pos, l, i + 1);
        return Err(InternalError);
      }
      var p := refs[pos[i]];
      m := m[p := (if p in m then m[p] else []) + [(pos[i], l)]];
    }
    assert pos[..|pos|] == pos;
    return Ok(m);
  }

  method SelectNotOlder(deletes: seq<(Path, nat)>, l: nat) returns (r: seq<Path>)
    ensures r == NotOlder(deletes, l)
  {
    r := [];
    for i := 0 to |deletes|
      invariant r == NotOlder(deletes[..i], l)
    {
      assert deletes[..i+1][..i] == deletes[..i];
      if deletes[i].1 >= l {
        r := r + [deletes[i].0];
      }
    }
    assert deletes[..|deletes|] == deletes;
  }

  /** `HandlePartition`: two indexing loops over the layers, then one loop over the data paths. */
  method HandlePartition(result: Regrouped, part: Partition<Path>, refs: Refs) returns (r: Result<Regrouped>)
    ensures r == RegroupOne(result, part, refs)
  {
    var index := Index(map[], map[]);
    for l := 0 to |part|
      invariant IndexPartition(part[..l], refs) == Ok(index)
    {
      assert part[..l+1][..l] == part[..l];
      var data := CollectData(index.data, part[l].data, l);
      if data.Err? {
        IndexPartitionFails(part, refs, l + 1);
        return Err(data.error);
      }
      var deletes := CollectDeletes(index.deletes, refs, part[l].pos, l);
      if deletes.Err? {
        IndexPartitionFails(part, refs, l + 1);
        return Err(deletes.error);
      }
      index := Index(data.value, deletes.value);
    }
    assert part[..|part|] == part;
    var grouped := EmitGroups(result, index, IncreasingPaths(index.data.Keys));
    return Ok(grouped);
  }

  method EmitGroups(result: Regrouped, index: Index, paths: seq<Path>) returns (r: Regrouped)
    requires forall p :: p in paths ==> p in index.data
    ensures r == Emit(result, index, paths)
  {
    r := result;
    for i := 0 to |paths|
      invariant r == Emit(result, index, paths[..i])
    {
      assert paths[..i+1][..i] == paths[..i];
      var p := paths[i];
      var (d, l) := index.data[p];
      if p !in index.deletes && d.dv.None? {
        r := r.(shared := r.shared + [d]);
      } else {
        var pos := SelectNotOlder(DeletesFor(index.deletes, p), l);
        r := r.(groups := r.groups + [[Layer([d], pos, [])]]);
      }
    }
    assert paths[..|paths|] == paths;
  }

  lemma {:induction false} RegroupFails(plan: seq<Partition<Path>>, refs: Refs, n: nat)
    requires n <= |plan| && RegroupAll(plan[..n], refs).Err?
    ensures RegroupAll(plan, refs) == RegroupAll(plan[..n], refs)
  {
    if n == |plan| {
      assert plan[..n] == plan;
    } else {
      assert plan[..|plan|-1][..n] == plan[..n];
      RegroupFails(plan[..|plan|-1], refs, n);
    }
  }

  /** The loop of `GetResult` over the partitions of the builder's plan. */
  method RegroupPlan(plan: seq<Partition<Path>>, refs: Refs) returns (r: Result<seq<Partition<Path>>>)
    ensures r == Regroup(plan, refs)
  {
    var result := Regrouped([], []);
    for i := 0 to |plan|
      invariant RegroupAll(plan[..i], refs) == Ok(result)
    {
      assert plan[..i+1][..i] == plan[..i];
      var next := HandlePartition(result, plan[i], refs);
      if next.Err? {
        RegroupFails(plan, refs, i + 1);
        return Err(next.error);
      }
      result := next.value;
    }
    assert plan[..|plan|] == plan;
    return Ok(AsPlan(result));
  }

  class ReferencedDataFileAwareScanPlanner {
    const builder: ScanMetadataBuilder
    var allAnnotated: bool
    var hasEquality: bool
    var hasReferenced: bool
    var refs: Refs

    ghost function Noted(): Notes
      reads this
    {
      Notes(allAnnotated, hasEquality, hasReferenced, refs)
    }

    constructor (builder: ScanMetadataBuilder)
      ensures this.builder == builder && Noted() == NoNotes()
    {
      this.builder := builder;
      allAnnotated, hasEquality, hasReferenced, refs := true, false, false, map[];
    }

    method HandlePositionDelete(entry: Entry) returns (r: Result<()>)
      requires !entry.deleted && entry.content == PositionDeletes && entry.referenced.Some?
      modifies this
      ensures r.Ok? <==> Note(old(Noted()), entry).Ok?
      ensures r.Ok? ==> Noted() == Note(old(Noted()), entry).value
      ensures r.Err? ==> r.error == Note(old(Noted()), entry).error && Noted() == old(Noted()).(hasReferenced := true)
    {
      hasReferenced := true;
      if entry.isPuffin {
        return Ok(());
      }
      if entry.path in refs {
        return Err(DuplicateDeletePath(entry.path));
      }
      refs := refs[entry.path := entry.referenced.value];
      return Ok(());
    }

    /** The flags are updated first, then the entry goes to the builder. */
    method AddEntry(entry: Entry) returns (r: Result<()>)
      modifies this, builder
      ensures r.Ok? <==> Note(old(Noted()), entry).Ok? && Classify(entry).Ok?
      ensures r.Ok? ==> Noted() == Note(old(Noted()), entry).value
      ensures r.Ok? ==> builder.Contents() == StoreEntry(old(builder.Contents()), entry)
      ensures r.Err? ==> builder.Contents() == old(builder.Contents())
      ensures Note(old(Noted()), entry).Err? ==>
                r == Err(Note(old(Noted()), entry).error) && Noted() == old(Noted()).(hasReferenced := true)
      ensures Note(old(Noted()), entry).Ok? && Classify(entry).Err? ==>
                r == Err(Classify(entry).error) && Noted() == Note(old(Noted()), entry).value
    {
      if entry.deleted {
        return Ok(());
      }
      match entry.content {
        case Data =>
        case EqualityDeletes => hasEquality := true;
        case PositionDeletes =>
          if entry.referenced.Some? {
            r := HandlePositionDelete(entry);
            if r.Err? { return; }
          } else {
            allAnnotated := false;
          }
      }
      r := builder.AddEntry(entry);
    }

    /** The builder gives its contents away. */
    method GetResult() returns (r: Result<seq<Partition<Path>>>)
      modifies builder
      ensures r == FinalPlan(old(Noted()), old(builder.Contents())) && Noted() == old(Noted())
    {
      var meta := Planner.GetResult(builder);
      if meta.Err? || !hasReferenced || hasEquality || !allAnnotated {
        return meta;
      }
      r := RegroupPlan(meta.value, refs);
    }
  }
}
