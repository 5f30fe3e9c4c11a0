/** Collection of manifest entries (`ScanMetadataBuilder::AddEntry`, `StoreEntry` and the five
    `Add...` operations): what is stored where after any sequence of entries. */
module Builder {
  import opened Order
  import opened Plan

  /** A serialized partition tuple; the empty key is the unpartitioned tuple. */
  type Key = string

  datatype Content = Data | PositionDeletes | EqualityDeletes

  /** `matchingSpecs` is the number of partition specifications that fit the entry's partition
      tuple; `lower` and `upper` are the bounds of the file-path column. */
  datatype Entry = Entry(
    deleted: bool,
    sequence: Option<int>,
    key: Key,
    matchingSpecs: nat,
    content: Content,
    path: Path,
    isPuffin: bool,
    splitOffsets: seq<int>,
    lower: Option<Path>,
    upper: Option<Path>,
    referenced: Option<Path>,
    contentOffset: Option<int>,
    contentSize: Option<int>,
    equalityIds: seq<int>)

  /** One call of an `Add...` operation, with the sequence number of the entry. */
  datatype Addition =
    | AddData(key: Key, seqno: int, d: DataEntry)
    | AddPos(key: Key, seqno: int, x: PosDelete)
    | AddEq(key: Key, seqno: int, e: EqDelete)
    | AddGlobalEq(seqno: int, e: EqDelete)
    | AddDv(key: Key, seqno: int, dv: DeletionVector)

  function Segments(splitOffsets: seq<int>): seq<Segment>
  {
    var n := |splitOffsets|;
    if n == 0 then [Segment(4, 0)] else
      seq(n - 1, i requires 0 <= i < n - 1 => Segment(splitOffsets[i], splitOffsets[i+1] - splitOffsets[i]))
      + [Segment(splitOffsets[n-1], 0)]
  }

  /** What one entry adds: nothing if it is marked deleted, an error if it is malformed. */
  function Classify(e: Entry): Result<Option<Addition>>
  {
    if e.deleted then Ok(None)
    else if e.matchingSpecs != 1 then Err(SpecificationMismatch(e.path))
    else if e.sequence.None? then Err(MissingSequenceNumber)
    else
      var s := e.sequence.value;
      match e.content
      case Data => Ok(Some(AddData(e.key, s, DataEntry(e.path, Segments(e.splitOffsets), None))))
      case PositionDeletes =>
        if e.isPuffin then
          if e.referenced.None? || e.contentOffset.None? || e.contentSize.None? then
            Err(IncompleteDeletionVector(e.path))
          else
            Ok(Some(AddDv(e.key, s,
              DeletionVector(e.path, e.contentOffset.value, e.contentSize.value, e.referenced.value))))
        else
          var range := if e.lower.Some? && e.upper.Some? then Some(Range(e.lower.value, e.upper.value)) else None;
          Ok(Some(AddPos(e.key, s, PosDelete(e.path, range))))
      case EqualityDeletes =>
        var x := EqDelete(e.path, e.equalityIds);
        Ok(Some(if e.key == "" then AddGlobalEq(s, x) else AddEq(e.key, s, x)))
  }

  datatype StoredLayer = StoredLayer(files: Layer<PosDelete>, dvs: map<Path, DeletionVector>)

  type Layers = map<int, StoredLayer>

  datatype State = State(partitions: map<Key, Layers>, globalEq: map<int, seq<EqDelete>>)

  function NothingStored(): State { State(map[], map[]) }

  function EmptyStored(): StoredLayer { StoredLayer(EmptyLayer(), map[]) }

  function LayersAt(st: State, k: Key): Layers
  {
    if k in st.partitions then st.partitions[k] else map[]
  }

  function LayerIn(layers: Layers, s: int): StoredLayer
  {
    if s in layers then layers[s] else EmptyStored()
  }

  function LayerAt(st: State, k: Key, s: int): StoredLayer
  {
    LayerIn(LayersAt(st, k), s)
  }

  function GlobalAt(st: State, s: int): seq<EqDelete>
  {
    if s in st.globalEq then st.globalEq[s] else []
  }

  /** The layer an addition lands in: an equality delete acts one sequence number earlier. */
  function Target(a: Addition): int
  {
    match a
    case AddEq(_, s, _) => s - 1
    case AddGlobalEq(s, _) => s - 1
    case _ => a.seqno
  }

  function Extend(l: StoredLayer, a: Addition): StoredLayer
  {
    match a
    case AddData(_, _, d) => l.(files := l.files.(data := l.files.data + [d]))
    case AddPos(_, _, x) => l.(files := l.files.(pos := l.files.pos + [x]))
    case AddEq(_, _, e) => l.(files := l.files.(eq := l.files.eq + [e]))
    case AddDv(_, _, dv) => l.(dvs := l.dvs[dv.referenced := dv])
    case AddGlobalEq(_, _) => l
  }

  function Store(st: State, a: Addition): State
  {
    var s := Target(a);
    if a.AddGlobalEq? then
      st.(globalEq := st.globalEq[s := GlobalAt(st, s) + [a.e]])
    else
      st.(partitions := st.partitions[a.key := LayersAt(st, a.key)[s := Extend(LayerAt(st, a.key, s), a)]])
  }

  /** The state after a sequence of additions. */
  function Stored(adds: seq<Addition>): State
  {
    if adds == [] then NothingStored() else Store(Stored(adds[..|adds|-1]), adds[|adds|-1])
  }

  /** The additions of a sequence of entries, or the first error. */
  function Additions(entries: seq<Entry>): Result<seq<Addition>>
  {
    if entries == [] then Ok([]) else
      match Additions(entries[..|entries|-1])
      case Err(e) => Err(e)
      case Ok(adds) =>
        match Classify(entries[|entries|-1])
        case Err(e) => Err(e)
        case Ok(None) => Ok(adds)
        case Ok(Some(a)) => Ok(adds + [a])
  }

  // ----- Exact contents of the state -----

  predicate LandsIn(a: Addition, k: Key, s: int)
  {
    !a.AddGlobalEq? && a.key == k && Target(a) == s
  }

  /** The layer (k, s) read off the additions alone, in their order. */
  function Gathered(adds: seq<Addition>, k: Key, s: int): StoredLayer
  {
    if adds == [] then EmptyStored() else
      var l, a := Gathered(adds[..|adds|-1], k, s), adds[|adds|-1];
      if LandsIn(a, k, s) then Extend(l, a) else l
  }

  function GatheredGlobal(adds: seq<Addition>, s: int): seq<EqDelete>
  {
    if adds == [] then [] else
      var l, a := GatheredGlobal(adds[..|adds|-1], s), adds[|adds|-1];
      if a.AddGlobalEq? && Target(a) == s then l + [a.e] else l
  }

  lemma {:induction false} AdditionsSplit(adds: seq<Addition>, a: Addition)
    requires adds != []
    ensures a in adds <==> a in adds[..|adds|-1] || a == adds[|adds|-1]
  {
    assert adds == adds[..|adds|-1] + [adds[|adds|-1]];
    InConcat(adds[..|adds|-1], [adds[|adds|-1]], a);
  }

  lemma {:induction false} StoredContents(adds: seq<Addition>, k: Key, s: int)
    ensures LayerAt(Stored(adds), k, s) == Gathered(adds, k, s)
    ensures GlobalAt(Stored(adds), s) == GatheredGlobal(adds, s)
  {
    if adds != [] { StoredContents(adds[..|adds|-1], k, s); }
  }

  lemma {:induction false} StoredPartitions(adds: seq<Addition>, k: Key)
    ensures k in Stored(adds).partitions <==> exists a :: a in adds && !a.AddGlobalEq? && a.key == k
  {
    if adds != [] {
      var init, last := adds[..|adds|-1], adds[|adds|-1];
      StoredPartitions(init, k);
      assert last in adds;
      forall a ensures a in adds <==> a in init || a == last { AdditionsSplit(adds, a); }
    }
  }

  lemma {:induction false} StoredLayers(adds: seq<Addition>, k: Key, s: int)
    ensures s in LayersAt(Stored(adds), k) <==> exists a :: a in adds && LandsIn(a, k, s)
  {
    if adds != [] {
      var init, last := adds[..|adds|-1], adds[|adds|-1];
      StoredLayers(init, k, s);
      assert last in adds;
      forall a ensures a in adds <==> a in init || a == last { AdditionsSplit(adds, a); }
    }
  }

  lemma {:induction false} StoredGlobals(adds: seq<Addition>, s: int)
    ensures s in Stored(adds).globalEq <==> exists a :: a in adds && a.AddGlobalEq? && Target(a) == s
  {
    if adds != [] {
      var init, last := adds[..|adds|-1], adds[|adds|-1];
      StoredGlobals(init, s);
      forall a ensures a in adds <==> a in init || a == last { AdditionsSplit(adds, a); }
    }
  }

  /** After any run every layer holds exactly what was added to it, in order, and a layer or
      partition exists only if something was added to it. */
  lemma {:induction false} StoredExactly(adds: seq<Addition>, k: Key, s: int)
    ensures LayerAt(Stored(adds), k, s) == Gathered(adds, k, s)
    ensures GlobalAt(Stored(adds), s) == GatheredGlobal(adds, s)
    ensures k in Stored(adds).partitions <==> exists a :: a in adds && !a.AddGlobalEq? && a.key == k
    ensures s in LayersAt(Stored(adds), k) <==> exists a :: a in adds && LandsIn(a, k, s)
    ensures s in Stored(adds).globalEq <==> exists a :: a in adds && a.AddGlobalEq? && Target(a) == s
  {
    StoredContents(adds, k, s);
    StoredPartitions(adds, k);
    StoredLayers(adds, k, s);
    StoredGlobals(adds, s);
  }

  lemma {:induction false} GatheredMembers(adds: seq<Addition>, k: Key, s: int)
    ensures forall d :: d in Gathered(adds, k, s).files.data <==> AddData(k, s, d) in adds
    ensures forall x :: x in Gathered(adds, k, s).files.pos <==> AddPos(k, s, x) in adds
    ensures forall e :: e in Gathered(adds, k, s).files.eq <==> AddEq(k, s + 1, e) in adds
    ensures forall e :: e in GatheredGlobal(adds, s) <==> AddGlobalEq(s + 1, e) in adds
  {
    if adds != [] {
      var init, last := adds[..|adds|-1], adds[|adds|-1];
      GatheredMembers(init, k, s);
      forall a ensures a in adds <==> a in init || a == last {
        InConcat(init, [last], a);
        assert adds == init + [last];
      }
    }
  }

  /** The builder object. */
  class ScanMetadataBuilder {
    var partitions: map<Key, Layers>
    var globalEqualityDeletes: map<int, seq<EqDelete>>

    ghost function Contents(): State
      reads this
    {
      State(partitions, globalEqualityDeletes)
    }

    constructor ()
      ensures Contents() == NothingStored()
    {
      partitions := map[];
      globalEqualityDeletes := map[];
    }

    method AddDataFile(key: Key, seqno: int, path: Path, segments: seq<Segment>)
      modifies this
      ensures Contents() == Store(old(Contents()), AddData(key, seqno, DataEntry(path, segments, None)))
    {
      var layers := if key in partitions then partitions[key] else map[];
      var layer := LayerIn(layers, seqno);
      layer := layer.(files := layer.files.(data := layer.files.data + [DataEntry(path, segments, None)]));
      partitions := partitions[key := layers[seqno := layer]];
    }

    method AddPositionDeletes(key: Key, seqno: int, path: Path, range: Option<Range>)
      modifies this
      ensures Contents() == Store(old(Contents()), AddPos(key, seqno, PosDelete(path, range)))
    {
      var layers := if key in partitions then partitions[key] else map[];
      var layer := LayerIn(layers, seqno);
      layer := layer.(files := layer.files.(pos := layer.files.pos + [PosDelete(path, range)]));
      partitions := partitions[key := layers[seqno := layer]];
    }

    method AddGlobalEqualityDeletes(seqno: int, path: Path, equalityIds: seq<int>)
      modifies this
      ensures Contents() == Store(old(Contents()), AddGlobalEq(seqno, EqDelete(path, equalityIds)))
    {
      var s := seqno - 1;
      var stored := if s in globalEqualityDeletes then globalEqualityDeletes[s] else [];
      globalEqualityDeletes := globalEqualityDeletes[s := stored + [EqDelete(path, equalityIds)]];
    }

    method AddEqualityDeletes(key: Key, seqno: int, path: Path, equalityIds: seq<int>)
      modifies this
      ensures Contents() == Store(old(Contents()), AddEq(key, seqno, EqDelete(path, equalityIds)))
    {
      var layers := if key in partitions then partitions[key] else map[];
      var layer := LayerIn(layers, seqno - 1);
      layer := layer.(files := layer.files.(eq := layer.files.eq + [EqDelete(path, equalityIds)]));
      partitions := partitions[key := layers[seqno - 1 := layer]];
    }

    method AddDeletionVector(key: Key, seqno: int, path: Path, referenced: Path, offset: int, length: int)
      modifies this
      ensures Contents() == Store(old(Contents()), AddDv(key, seqno, DeletionVector(path, offset, length, referenced)))
    {
      var layers := if key in partitions then partitions[key] else map[];
      var layer := LayerIn(layers, seqno);
      layer := layer.(dvs := layer.dvs[referenced := DeletionVector(path, offset, length, referenced)]);
      partitions := partitions[key := layers[seqno := layer]];
    }

    method AddEntry(entry: Entry) returns (r: Result<()>)
      modifies this
      ensures r.Err? <==> Classify(entry).Err?
      ensures r.Err? ==> r.error == Classify(entry).error && Contents() == old(Contents())
      ensures r.Ok? && Classify(entry).value.None? ==> Contents() == old(Contents())
      ensures r.Ok? && Classify(entry).value.Some? ==>
        Contents() == Store(old(Contents()), Classify(entry).value.value)
    {
      if entry.deleted {
        return Ok(());
      }
      if entry.matchingSpecs != 1 {
        return Err(SpecificationMismatch(entry.path));
      }
      r := StoreEntry(entry);
    }

    method StoreEntry(entry: Entry) returns (r: Result<()>)
      requires !entry.deleted && entry.matchingSpecs == 1
      modifies this
      ensures r.Err? <==> Classify(entry).Err?
      ensures r.Err? ==> r.error == Classify(entry).error && Contents() == old(Contents())
      ensures r.Ok? && Classify(entry).value.None? ==> Contents() == old(Contents())
      ensures r.Ok? && Classify(entry).value.Some? ==>
        Contents() == Store(old(Contents()), Classify(entry).value.value)
    {
      if entry.sequence.None? {
        return Err(MissingSequenceNumber);
      }
      var seqno := entry.sequence.value;
      match entry.content {
        case Data =>
          var segments := MakeSegments(entry.splitOffsets);
          AddDataFile(entry.key, seqno, entry.path, segments);
        case PositionDeletes =>
          if entry.isPuffin {
            if entry.referenced.None? || entry.contentOffset.None? || entry.contentSize.None? {
              return Err(IncompleteDeletionVector(entry.path));
            }
            AddDeletionVector(entry.key, seqno, entry.path, entry.referenced.value,
                              entry.contentOffset.value, entry.contentSize.value);
          } else {
            var range := None;
            if entry.lower.Some? && entry.upper.Some? {
              range := Some(Range(entry.lower.value, entry.upper.value));
            }
            AddPositionDeletes(entry.key, seqno, entry.path, range);
          }
        case EqualityDeletes =>
          if entry.key == "" {
            AddGlobalEqualityDeletes(seqno, entry.path, entry.equalityIds);
          } else {
            AddEqualityDeletes(entry.key, seqno, entry.path, entry.equalityIds);
          }
      }
      return Ok(());
    }
  }

  method MakeSegments(splitOffsets: seq<int>) returns (segments: seq<Segment>)
    ensures segments == Segments(splitOffsets)
  {
    if splitOffsets == [] {
      return [Segment(4, 0)];
    }
    segments := [];
    var i := 0;
    while i + 1 < |splitOffsets|
      invariant 0 <= i < |splitOffsets| && |segments| == i
      invariant forall k :: 0 <= k < i ==> segments[k] == Segment(splitOffsets[k], splitOffsets[k+1] - splitOffsets[k])
    {
      segments := segments + [Segment(splitOffsets[i], splitOffsets[i+1] - splitOffsets[i])];
      i := i + 1;
    }
    segments := segments + [Segment(splitOffsets[|splitOffsets|-1], 0)];
  }
}
