/** Plans that differ only in the order of files inside a layer, and the proof that the planner
    maps reordered entries to such plans. */
module SamePlans {
  import opened Order
  import opened Permutations
  import opened Plan
  import opened Scanline
  import opened Buckets
  import opened Dangling
  import opened Builder
  import opened Resolve
  import opened Planner
  import opened Meaning

  ghost predicate SameLayer<P>(l: Layer<P>, m: Layer<P>)
  {
    multiset(l.data) == multiset(m.data) && multiset(l.pos) == multiset(m.pos) && multiset(l.eq) == multiset(m.eq)
  }

  ghost predicate SamePartition<P>(p: Partition<P>, q: Partition<P>)
  {
    |p| == |q| && forall i :: 0 <= i < |p| ==> SameLayer(p[i], q[i])
  }

  ghost predicate SamePlan<P>(p: seq<Partition<P>>, q: seq<Partition<P>>)
  {
    |p| == |q| && forall i :: 0 <= i < |p| ==> SamePartition(p[i], q[i])
  }

  /** Both fail, or both succeed with plans equal up to order inside layers. */
  ghost predicate SameOutcome<P>(r: Result<seq<Partition<P>>>, s: Result<seq<Partition<P>>>)
  {
    (r.Ok? <==> s.Ok?) && (r.Ok? && s.Ok? ==> SamePlan(r.value, s.value))
  }

  lemma {:induction false} SameOutcomeSymmetric<P>(r: Result<seq<Partition<P>>>, s: Result<seq<Partition<P>>>)
    requires SameOutcome(r, s)
    ensures SameOutcome(s, r)
  {
    if r.Ok? {
      forall i | 0 <= i < |s.value| ensures SamePartition(s.value[i], r.value[i]) {
        assert SamePartition(r.value[i], s.value[i]);
      }
    }
  }

  lemma {:induction false} SamePartitionSnoc<P>(p: Partition<P>, q: Partition<P>, l: Layer<P>, m: Layer<P>)
    requires SamePartition(p, q) && SameLayer(l, m)
    ensures SamePartition(p + [l], q + [m])
  {
  }

  lemma {:induction false} SamePlanConcat<P>(p: seq<Partition<P>>, q: seq<Partition<P>>, p': seq<Partition<P>>,
        q': seq<Partition<P>>)
    requires SamePlan(p, q) && SamePlan(p', q')
    ensures SamePlan(p + p', q + q')
  {
    forall i | 0 <= i < |p + p'| ensures SamePartition((p + p')[i], (q + q')[i]) {
      if i >= |p| { assert SamePartition(p'[i - |p|], q'[i - |p|]); }
    }
  }

  lemma {:induction false} SamePlanSnoc<P>(p: seq<Partition<P>>, q: seq<Partition<P>>, x: Partition<P>, y: Partition<P>)
    requires SamePlan(p, q) && SamePartition(x, y)
    ensures SamePlan(p + [x], q + [y])
  {
  }

  // ----- Stored layers -----

  ghost predicate SameLayers(a: Layers, b: Layers)
  {
    a.Keys == b.Keys && forall s :: s in a && s in b ==> SameLayer(a[s].files, b[s].files)
  }

  function DataTo(k: Key, s: int): Addition -> seq<DataEntry>
  {
    (a: Addition) => if a.AddData? && a.key == k && a.seqno == s then [a.d] else []
  }

  function PosTo(k: Key, s: int): Addition -> seq<PosDelete>
  {
    (a: Addition) => if a.AddPos? && a.key == k && a.seqno == s then [a.x] else []
  }

  function EqTo(k: Key, s: int): Addition -> seq<EqDelete>
  {
    (a: Addition) => if a.AddEq? && a.key == k && a.seqno - 1 == s then [a.e] else []
  }

  function GlobalTo(s: int): Addition -> seq<EqDelete>
  {
    (a: Addition) => if a.AddGlobalEq? && a.seqno - 1 == s then [a.e] else []
  }

  lemma {:induction false} GatheredIsFlatMap(adds: seq<Addition>, k: Key, s: int)
    ensures Gathered(adds, k, s).files.data == FlatMap(adds, DataTo(k, s))
    ensures Gathered(adds, k, s).files.pos == FlatMap(adds, PosTo(k, s))
  {
    if adds != [] { GatheredIsFlatMap(adds[..|adds|-1], k, s); }
  }

  lemma {:induction false} GatheredEqualityIsFlatMap(adds: seq<Addition>, k: Key, s: int)
    ensures Gathered(adds, k, s).files.eq == FlatMap(adds, EqTo(k, s))
    ensures GatheredGlobal(adds, s) == FlatMap(adds, GlobalTo(s))
  {
    if adds != [] { GatheredEqualityIsFlatMap(adds[..|adds|-1], k, s); }
  }

  lemma {:induction false} GatheredSame(adds: seq<Addition>, adds': seq<Addition>, k: Key, s: int)
    requires multiset(adds) == multiset(adds')
    ensures SameLayer(Gathered(adds, k, s).files, Gathered(adds', k, s).files)
    ensures multiset(GatheredGlobal(adds, s)) == multiset(GatheredGlobal(adds', s))
  {
    GatheredIsFlatMap(adds, k, s);
    GatheredIsFlatMap(adds', k, s);
    GatheredEqualityIsFlatMap(adds, k, s);
    GatheredEqualityIsFlatMap(adds', k, s);
    FlatMapPermutation(adds, adds', DataTo(k, s));
    FlatMapPermutation(adds, adds', PosTo(k, s));
    FlatMapPermutation(adds, adds', EqTo(k, s));
    FlatMapPermutation(adds, adds', GlobalTo(s));
  }

  lemma {:induction false} MergedKeys(adds: seq<Addition>, adds': seq<Addition>, k: Key, s: int)
    requires multiset(adds) == multiset(adds')
    ensures s in MergedLayers(Stored(adds), k) <==> s in MergedLayers(Stored(adds'), k)
    ensures k in Stored(adds).partitions <==> k in Stored(adds').partitions
  {
    SameMembers(adds, adds');
    StoredExactly(adds, k, s);
    StoredExactly(adds', k, s);
  }

  lemma {:induction false} MergedIsGathered(adds: seq<Addition>, k: Key, s: int)
    requires s in MergedLayers(Stored(adds), k)
    ensures MergedLayers(Stored(adds), k)[s] == AddEquality(Gathered(adds, k, s), GatheredGlobal(adds, s))
  {
    StoredExactly(adds, k, s);
  }

  lemma {:induction false} MergedSame(adds: seq<Addition>, adds': seq<Addition>, k: Key)
    requires multiset(adds) == multiset(adds')
    ensures SameLayers(MergedLayers(Stored(adds), k), MergedLayers(Stored(adds'), k))
  {
    var a, b := MergedLayers(Stored(adds), k), MergedLayers(Stored(adds'), k);
    forall s ensures s in a <==> s in b { MergedKeys(adds, adds', k, s); }
    forall s | s in a && s in b ensures SameLayer(a[s].files, b[s].files) {
      MergedIsGathered(adds, k, s);
      MergedIsGathered(adds', k, s);
      GatheredSame(adds, adds', k, s);
      SameConcat(Gathered(adds, k, s).files.eq, GatheredGlobal(adds, s),
                 Gathered(adds', k, s).files.eq, GatheredGlobal(adds', s));
    }
  }

  // ----- Resolution -----

  /** Two vectors of one partition are both newest for the path of a data file that is not newer. */
  ghost predicate Contested(adds: seq<Addition>, k: Key, s: int, d: DataEntry, v: int, dv: DeletionVector,
                            dv': DeletionVector)
  {
    && AddData(k, s, d) in adds && s <= v && HighestAdded(adds, k, d.path, v)
    && AddDv(k, v, dv) in adds && AddDv(k, v, dv') in adds
    && dv.referenced == d.path && dv'.referenced == d.path && dv != dv'
  }

  ghost predicate Uncontested(adds: seq<Addition>)
  {
    forall k, s, d, v, dv, dv' :: !Contested(adds, k, s, d, v, dv, dv')
  }

  lemma {:induction false} HighestSame(adds: seq<Addition>, adds': seq<Addition>, k: Key, p: Path, v: int)
    requires multiset(adds) == multiset(adds')
    ensures HighestAdded(adds, k, p, v) <==> HighestAdded(adds', k, p, v)
  {
    SameMembers(adds, adds');
    forall t ensures VectorAdded(adds, k, p, t) <==> VectorAdded(adds', k, p, t) {
      if VectorAdded(adds, k, p, t) { var dv :| AddDv(k, t, dv) in adds && dv.referenced == p; }
      if VectorAdded(adds', k, p, t) { var dv :| AddDv(k, t, dv) in adds' && dv.referenced == p; }
    }
  }

  /** Which data files get a vector does not depend on the order, whether contested or not. */
  lemma {:induction false} MatchesSame(adds: seq<Addition>, adds': seq<Addition>, k: Key, s: int, d: DataEntry)
    requires multiset(adds) == multiset(adds') && Matches(VectorsOf(adds, k), s, d)
    ensures Matches(VectorsOf(adds', k), s, d)
    ensures VectorsOf(adds', k)[d.path].1 == VectorsOf(adds, k)[d.path].1
  {
    var v := VectorsOf(adds, k)[d.path].1;
    VectorsOfExactly(adds, k, d.path, v);
    HighestSame(adds, adds', k, d.path, v);
    VectorsOfExactly(adds', k, d.path, v);
  }

  lemma {:induction false} AttachSame(adds: seq<Addition>, adds': seq<Addition>, k: Key, s: int, d: DataEntry)
    requires multiset(adds) == multiset(adds') && Uncontested(adds) && AddData(k, s, d) in adds
    ensures Attach(VectorsOf(adds, k), s, d) == Attach(VectorsOf(adds', k), s, d)
  {
    var current, current' := VectorsOf(adds, k), VectorsOf(adds', k);
    if Matches(current, s, d) {
      MatchesSame(adds, adds', k, s, d);
      var v := current[d.path].1;
      VectorsOfExactly(adds, k, d.path, v);
      HighestSame(adds, adds', k, d.path, v);
      VectorsOfExactly(adds', k, d.path, v);
      SameMembers(adds, adds');
      assert !Contested(adds, k, s, d, v, current[d.path].0, current'[d.path].0);
    } else if Matches(current', s, d) {
      MatchesSame(adds', adds, k, s, d);
    }
  }

  function AttachOne(current: Vectors, s: int): DataEntry -> seq<DataEntry>
  {
    (d: DataEntry) => [Attach(current, s, d)]
  }

  lemma {:induction false} AttachIsFlatMap(current: Vectors, s: int, data: seq<DataEntry>)
    ensures AttachAll(current, s, data) == FlatMap(data, AttachOne(current, s))
  {
    if data != [] {
      AttachIsFlatMap(current, s, data[..|data|-1]);
      assert AttachAll(current, s, data)
             == AttachAll(current, s, data[..|data|-1]) + [Attach(current, s, data[|data|-1])];
    }
  }

  /** Both tables of vectors treat the data files of the layers alike. */
  ghost predicate AttachAlike(layers: Layers, current: Vectors, current': Vectors)
  {
    forall s, d :: s in layers && d in layers[s].files.data ==>
      (Matches(current, s, d) <==> Matches(current', s, d)) && Attach(current, s, d) == Attach(current', s, d)
  }

  lemma {:induction false} ResolvedLayerSame(a: Layers, b: Layers, current: Vectors, current': Vectors, s: int)
    requires s in a && s in b && SameLayer(a[s].files, b[s].files) && AttachAlike(a, current, current')
    ensures SameLayer(ResolvedLayer(current, s, a[s]), ResolvedLayer(current', s, b[s]))
  {
    var ds, es := a[s].files.data, b[s].files.data;
    assert AttachAll(current, s, ds) == AttachAll(current', s, ds);
    AttachIsFlatMap(current', s, ds);
    AttachIsFlatMap(current', s, es);
    FlatMapPermutation(ds, es, AttachOne(current', s));
  }

  lemma {:induction false} ConflictSame(current: Vectors, current': Vectors, s: int, l: StoredLayer, m: StoredLayer)
    requires SameLayer(l.files, m.files) && Conflict(current, s, l)
    requires forall d :: d in l.files.data && Matches(current, s, d) ==> Matches(current', s, d)
    ensures Conflict(current', s, m)
  {
    SameMembers(l.files.data, m.files.data);
    SameMembers(l.files.pos, m.files.pos);
    SameMembers(l.files.eq, m.files.eq);
    var i :| 0 <= i < |l.files.data| && Matches(current, s, l.files.data[i]);
    assert l.files.data[i] in m.files.data;
  }

  lemma {:induction false} ConflictsSame(a: Layers, b: Layers, current: Vectors, current': Vectors, s: int)
    requires s in a && s in b && SameLayer(a[s].files, b[s].files) && AttachAlike(a, current, current')
    ensures Conflict(current, s, a[s]) <==> Conflict(current', s, b[s])
  {
    SameMembers(a[s].files.data, b[s].files.data);
    if Conflict(current, s, a[s]) { ConflictSame(current, current', s, a[s], b[s]); }
    if Conflict(current', s, b[s]) { ConflictSame(current', current, s, b[s], a[s]); }
  }

  lemma {:induction false} ResolveKeysSame(a: Layers, b: Layers, current: Vectors, current': Vectors, keys: seq<int>)
    requires SameLayers(a, b) && AttachAlike(a, current, current') && forall s :: s in keys ==> s in a && s in b
    ensures ResolveKeys(a, current, keys).Ok? <==> ResolveKeys(b, current', keys).Ok?
    ensures ResolveKeys(a, current, keys).Ok? && ResolveKeys(b, current', keys).Ok? ==>
      SamePartition(ResolveKeys(a, current, keys).value, ResolveKeys(b, current', keys).value)
  {
    if keys != [] {
      var init, s := keys[..|keys|-1], keys[|keys|-1];
      assert s in keys && forall t :: t in init ==> t in keys;
      ResolveKeysSame(a, b, current, current', init);
      ResolvedLayerSame(a, b, current, current', s);
      ConflictsSame(a, b, current, current', s);
    }
  }

  lemma {:induction false} ResolveSame(adds: seq<Addition>, adds': seq<Addition>, k: Key)
    requires multiset(adds) == multiset(adds') && Uncontested(adds)
    ensures var r, r' := ResolvePartition(MergedLayers(Stored(adds), k)), ResolvePartition(MergedLayers(Stored(adds'),
                                          k));
            (r.Ok? <==> r'.Ok?) && (r.Ok? && r'.Ok? ==> SamePartition(r.value, r'.value))
  {
    var a, b := MergedLayers(Stored(adds), k), MergedLayers(Stored(adds'), k);
    MergedSame(adds, adds', k);
    assert Numbers(a) == Numbers(b);
    forall s, d | s in a && d in a[s].files.data
      ensures Matches(VectorsOf(adds, k), s, d) <==> Matches(VectorsOf(adds', k), s, d)
      ensures Attach(VectorsOf(adds, k), s, d) == Attach(VectorsOf(adds', k), s, d)
    {
      MergedContents(adds, k, s);
      AttachSame(adds, adds', k, s, d);
      if Matches(VectorsOf(adds, k), s, d) { MatchesSame(adds, adds', k, s, d); }
      if Matches(VectorsOf(adds', k), s, d) { MatchesSame(adds', adds, k, s, d); }
    }
    ResolveKeysSame(a, b, VectorsOf(adds, k), VectorsOf(adds', k), Numbers(a));
  }

  lemma {:induction false} VecSame(adds: seq<Addition>, adds': seq<Addition>, keys: seq<Key>)
    requires multiset(adds) == multiset(adds') && Uncontested(adds)
    ensures SameOutcome(Vec(Stored(adds), keys), Vec(Stored(adds'), keys))
  {
    if keys != [] {
      var init, k := keys[..|keys|-1], keys[|keys|-1];
      VecSame(adds, adds', init);
      ResolveSame(adds, adds', k);
    }
  }

  lemma {:induction false} KeysSame(adds: seq<Addition>, adds': seq<Addition>)
    requires multiset(adds) == multiset(adds')
    ensures Keys(Stored(adds)) == Keys(Stored(adds'))
  {
    var p, q := Stored(adds).partitions, Stored(adds').partitions;
    forall k ensures k in p <==> k in q { MergedKeys(adds, adds', k, 0); }
    assert p.Keys == q.Keys;
  }

  // ----- The optimiser -----

  function RangeEvents(): PosDelete -> seq<Event>
  {
    (x: PosDelete) =>
      if x.range.Some? then [Event(StartDelete, x.range.value.min), Event(EndDelete, x.range.value.max)] else []
  }

  function PathEvent(): DataEntry -> seq<Event>
  {
    (d: DataEntry) => [Event(DataFile, d.path)]
  }

  lemma {:induction false} DeleteEventsIsFlatMap(pos: seq<PosDelete>)
    requires forall i :: 0 <= i < |pos| ==> pos[i].range.Some?
    ensures DeleteEvents(pos) == FlatMap(pos, RangeEvents())
  {
    if pos != [] { DeleteEventsIsFlatMap(pos[..|pos|-1]); }
  }

  lemma {:induction false} DataEventsIsFlatMap(data: seq<DataEntry>)
    ensures DataEvents(data) == FlatMap(data, PathEvent())
  {
    if data != [] {
      DataEventsIsFlatMap(data[..|data|-1]);
      assert DataEvents(data) == DataEvents(data[..|data|-1]) + [Event(DataFile, data[|data|-1].path)];
    }
  }

  lemma {:induction false} EventsSame(p: Partition<PosDelete>, q: Partition<PosDelete>)
    requires SamePartition(p, q) && Ranged(p) && Ranged(q)
    ensures multiset(Events(p)) == multiset(Events(q))
  {
    if p != [] {
      var n := |p| - 1;
      EventsSame(p[..n], q[..n]);
      LayerEventsSame(p[n], q[n]);
      SameConcat(Events(p[..n]), DeleteEvents(p[n].pos) + DataEvents(p[n].data),
                 Events(q[..n]), DeleteEvents(q[n].pos) + DataEvents(q[n].data));
    }
  }

  lemma {:induction false} LayerEventsSame(l: Layer<PosDelete>, m: Layer<PosDelete>)
    requires SameLayer(l, m) && HasRanges(l) && HasRanges(m)
    ensures multiset(DeleteEvents(l.pos) + DataEvents(l.data)) == multiset(DeleteEvents(m.pos) + DataEvents(m.data))
  {
    DeleteEventsIsFlatMap(l.pos);
    DeleteEventsIsFlatMap(m.pos);
    FlatMapPermutation(l.pos, m.pos, RangeEvents());
    DataEventsIsFlatMap(l.data);
    DataEventsIsFlatMap(m.data);
    FlatMapPermutation(l.data, m.data, PathEvent());
    SameConcat(DeleteEvents(l.pos), DataEvents(l.data), DeleteEvents(m.pos), DataEvents(m.data));
  }

  lemma {:induction false} BoundsSame(p: Partition<PosDelete>, q: Partition<PosDelete>)
    requires SamePartition(p, q) && Ranged(p) && Ranged(q)
    ensures LowerBounds(p) == LowerBounds(q)
  {
    EventsSame(p, q);
    EventsAreOrdered();
    SortIsSorted(Events(p), EventLeq);
    SortIsSorted(Events(q), EventLeq);
    SortedIsUnique(SortedEvents(p), SortedEvents(q), EventLeq);
  }

  lemma {:induction false} RangedSame(l: Layer<PosDelete>, m: Layer<PosDelete>)
    requires SameLayer(l, m)
    ensures HasRanges(l) <==> HasRanges(m)
    ensures l.pos == [] <==> m.pos == []
    ensures l.eq == [] <==> m.eq == []
    ensures l.data == [] <==> m.data == []
  {
    SameMembers(l.pos, m.pos);
    SameMembers(l.eq, m.eq);
    SameMembers(l.data, m.data);
    if HasRanges(l) {
      forall i | 0 <= i < |m.pos| ensures m.pos[i].range.Some? { assert m.pos[i] in l.pos; }
    }
    if HasRanges(m) {
      forall i | 0 <= i < |l.pos| ensures l.pos[i].range.Some? { assert l.pos[i] in m.pos; }
    }
  }

  lemma {:induction false} CanOptimizeSame(p: Partition<PosDelete>, q: Partition<PosDelete>)
    requires SamePartition(p, q)
    ensures CanOptimizePartition(p) <==> CanOptimizePartition(q)
  {
    forall i | 0 <= i < |p|
      ensures (p[i].pos == [] <==> q[i].pos == []) && (p[i].eq == [] <==> q[i].eq == [])
      ensures (HasRanges(p[i]) <==> HasRanges(q[i]))
    {
      RangedSame(p[i], q[i]);
    }
    if i :| 0 <= i < |p| && p[i].pos != [] { assert q[i].pos != []; }
    if i :| 0 <= i < |q| && q[i].pos != [] { assert p[i].pos != []; }
  }

  /** All data files of one layer that go to one bucket, appended at once. */
  function AppendAllData(bucket: Partition<PosDelete>, ds: seq<DataEntry>): Partition<PosDelete>
  {
    if ds == [] then bucket
    else if bucket == [] || bucket[|bucket|-1].pos != [] then bucket + [Layer(ds, [], [])]
    else
      var last := bucket[|bucket|-1];
      bucket[..|bucket|-1] + [last.(data := last.data + ds)]
  }

  function AppendAllDeletes(bucket: Partition<PosDelete>, xs: seq<PosDelete>): Partition<PosDelete>
  {
    if xs == [] then bucket
    else if bucket == [] then [Layer([], xs, [])]
    else
      var last := bucket[|bucket|-1];
      bucket[..|bucket|-1] + [last.(pos := last.pos + xs)]
  }

  lemma {:induction false} AppendDataLast(bucket: Partition<PosDelete>, ds: seq<DataEntry>, d: DataEntry)
    ensures AppendAllData(bucket, ds + [d]) == AppendData(AppendAllData(bucket, ds), d)
  {
    if ds == [] {
      assert ds + [d] == [d];
    } else if !(bucket == [] || bucket[|bucket|-1].pos != []) {
      var last := bucket[|bucket|-1];
      assert last.data + (ds + [d]) == (last.data + ds) + [d];
    }
  }

  lemma {:induction false} AppendDeleteLast(bucket: Partition<PosDelete>, xs: seq<PosDelete>, x: PosDelete)
    ensures AppendAllDeletes(bucket, xs + [x]) == AppendDelete(AppendAllDeletes(bucket, xs), x)
  {
    if xs == [] {
      assert xs + [x] == [x];
    } else if bucket != [] {
      var last := bucket[|bucket|-1];
      assert last.pos + (xs + [x]) == (last.pos + xs) + [x];
    }
  }

  function DataIn(bounds: seq<Path>, g: int): DataEntry -> seq<DataEntry>
  {
    (d: DataEntry) => if Bucket(bounds, d.path) == g then [d] else []
  }

  function DeletesIn(bounds: seq<Path>, g: int): PosDelete -> seq<PosDelete>
  {
    (x: PosDelete) => if ItemBucket(bounds, PosItem(x)) == g then [x] else []
  }

  lemma {:induction false} PlaceAllSucceeds(bounds: seq<Path>, start: seq<Partition<PosDelete>>,
        items: seq<Item<PosDelete>>)
    requires |start| == |bounds|
    ensures PlaceAll(bounds, start, items).Ok? <==> forall x :: x in items ==> Placeable(bounds, x)
  {
    if items != [] {
      var init, last := items[..|items|-1], items[|items|-1];
      PlaceAllSucceeds(bounds, start, init);
      forall x ensures x in items <==> x in init || x == last {
        InConcat(init, [last], x);
        assert items == init + [last];
      }
    }
  }

  lemma {:induction false} PlaceAllData(bounds: seq<Path>, start: seq<Partition<PosDelete>>, data: seq<DataEntry>,
        g: nat)
    requires |start| == |bounds| && g < |bounds| && PlaceAll(bounds, start, DataItems(data)).Ok?
    ensures PlaceAll(bounds, start, DataItems(data)).value[g]
            == AppendAllData(start[g], FlatMap(data, DataIn(bounds, g)))
  {
    if data != [] {
      var init, d := data[..|data|-1], data[|data|-1];
      assert DataItems<PosDelete>(data) == DataItems(init) + [DataItem(d)];
      PlaceAllSnoc(bounds, start, DataItems(init), DataItem(d));
      PlaceAllData(bounds, start, init, g);
      AppendDataLast(start[g], FlatMap(init, DataIn(bounds, g)), d);
      assert FlatMap(init, DataIn(bounds, g)) + [] == FlatMap(init, DataIn(bounds, g));
    }
  }

  lemma {:induction false} PlaceAllDeletes(bounds: seq<Path>, start: seq<Partition<PosDelete>>, pos: seq<PosDelete>,
        g: nat)
    requires |start| == |bounds| && g < |bounds| && PlaceAll(bounds, start, PosItems(pos)).Ok?
    ensures PlaceAll(bounds, start, PosItems(pos)).value[g]
            == AppendAllDeletes(start[g], FlatMap(pos, DeletesIn(bounds, g)))
  {
    if pos != [] {
      var init, x := pos[..|pos|-1], pos[|pos|-1];
      assert PosItems(pos) == PosItems(init) + [PosItem(x)];
      PlaceAllSnoc(bounds, start, PosItems(init), PosItem(x));
      PlaceAllDeletes(bounds, start, init, g);
      AppendDeleteLast(start[g], FlatMap(init, DeletesIn(bounds, g)), x);
      assert FlatMap(init, DeletesIn(bounds, g)) + [] == FlatMap(init, DeletesIn(bounds, g));
    }
  }

  lemma {:induction false} SameLast(p: Partition<PosDelete>, q: Partition<PosDelete>, l: Layer<PosDelete>,
        m: Layer<PosDelete>)
    requires SamePartition(p, q) && p != [] && SameLayer(l, m)
    ensures SamePartition(p[..|p|-1] + [l], q[..|q|-1] + [m])
  {
    SamePartitionSnoc(p[..|p|-1], q[..|q|-1], l, m);
  }

  lemma {:induction false} AppendAllDataSame(p: Partition<PosDelete>, q: Partition<PosDelete>, ds: seq<DataEntry>,
        es: seq<DataEntry>)
    requires SamePartition(p, q) && multiset(ds) == multiset(es)
    ensures SamePartition(AppendAllData(p, ds), AppendAllData(q, es))
  {
    SameMembers(ds, es);
    if p != [] {
      var l, m := p[|p|-1], q[|q|-1];
      SameMembers(l.pos, m.pos);
      SameConcat(l.data, ds, m.data, es);
      SameLast(p, q, l.(data := l.data + ds), m.(data := m.data + es));
    }
  }

  lemma {:induction false} AppendAllDeletesSame(p: Partition<PosDelete>, q: Partition<PosDelete>, xs: seq<PosDelete>,
        ys: seq<PosDelete>)
    requires SamePartition(p, q) && multiset(xs) == multiset(ys)
    ensures SamePartition(AppendAllDeletes(p, xs), AppendAllDeletes(q, ys))
  {
    SameMembers(xs, ys);
    if p != [] {
      var l, m := p[|p|-1], q[|q|-1];
      SameConcat(l.pos, xs, m.pos, ys);
      SameLast(p, q, l.(pos := l.pos + xs), m.(pos := m.pos + ys));
    }
  }

  lemma {:induction false} PlaceDataSame(bounds: seq<Path>, b: seq<Partition<PosDelete>>, c: seq<Partition<PosDelete>>,
        ds: seq<DataEntry>, es: seq<DataEntry>)
    requires |b| == |bounds| && SamePlan(b, c) && multiset(ds) == multiset(es)
    ensures SameOutcome(PlaceAll(bounds, b, DataItems(ds)), PlaceAll(bounds, c, DataItems(es)))
  {
    PlaceAllSucceeds(bounds, b, DataItems(ds));
    PlaceAllSucceeds(bounds, c, DataItems(es));
    SameMembers(ds, es);
    forall x: Item<PosDelete> ensures x in DataItems<PosDelete>(ds) <==> x in DataItems<PosDelete>(es) {
      DataItemsMembers<PosDelete>(ds, x);
      DataItemsMembers<PosDelete>(es, x);
    }
    if PlaceAll(bounds, b, DataItems(ds)).Ok? {
      forall g | 0 <= g < |bounds|
        ensures SamePartition(PlaceAll(bounds, b, DataItems(ds)).value[g], PlaceAll(bounds, c, DataItems(es)).value[g])
      {
        PlaceAllData(bounds, b, ds, g);
        PlaceAllData(bounds, c, es, g);
        FlatMapPermutation(ds, es, DataIn(bounds, g));
        AppendAllDataSame(b[g], c[g], FlatMap(ds, DataIn(bounds, g)), FlatMap(es, DataIn(bounds, g)));
      }
    }
  }

  lemma {:induction false} DataItemsMembers<P>(ds: seq<DataEntry>, x: Item<P>)
    ensures x in DataItems<P>(ds) <==> x.DataItem? && x.d in ds
  {
    if x.DataItem? && x.d in ds {
      var i :| 0 <= i < |ds| && ds[i] == x.d;
      assert DataItems<P>(ds)[i] == x;
    }
  }

  lemma {:induction false} PosItemsMembers<P>(xs: seq<P>, x: Item<P>)
    ensures x in PosItems(xs) <==> x.PosItem? && x.p in xs
  {
    if x.PosItem? && x.p in xs {
      var i :| 0 <= i < |xs| && xs[i] == x.p;
      assert PosItems(xs)[i] == x;
    }
  }

  lemma {:induction false} PlaceDeletesSame(bounds: seq<Path>, b: seq<Partition<PosDelete>>,
        c: seq<Partition<PosDelete>>, xs: seq<PosDelete>, ys: seq<PosDelete>)
    requires |b| == |bounds| && SamePlan(b, c) && multiset(xs) == multiset(ys)
    ensures SameOutcome(PlaceAll(bounds, b, PosItems(xs)), PlaceAll(bounds, c, PosItems(ys)))
  {
    PlaceAllSucceeds(bounds, b, PosItems(xs));
    PlaceAllSucceeds(bounds, c, PosItems(ys));
    SameMembers(xs, ys);
    forall x: Item<PosDelete> ensures x in PosItems(xs) <==> x in PosItems(ys) {
      PosItemsMembers(xs, x);
      PosItemsMembers(ys, x);
    }
    if PlaceAll(bounds, b, PosItems(xs)).Ok? {
      forall g | 0 <= g < |bounds|
        ensures SamePartition(PlaceAll(bounds, b, PosItems(xs)).value[g], PlaceAll(bounds, c, PosItems(ys)).value[g])
      {
        PlaceAllDeletes(bounds, b, xs, g);
        PlaceAllDeletes(bounds, c, ys, g);
        FlatMapPermutation(xs, ys, DeletesIn(bounds, g));
        AppendAllDeletesSame(b[g], c[g], FlatMap(xs, DeletesIn(bounds, g)), FlatMap(ys, DeletesIn(bounds, g)));
      }
    }
  }

  lemma {:induction false} RedistributeSame(bounds: seq<Path>, p: Partition<PosDelete>, q: Partition<PosDelete>)
    requires SamePartition(p, q) && NoEquality(p) && NoEquality(q)
    ensures SameOutcome(Redistribute(bounds, Items(p)), Redistribute(bounds, Items(q)))
  {
    if p == [] {
      var none := NoFiles(|bounds|);
      assert forall i :: 0 <= i < |none| ==> SamePartition(none[i], none[i]);
    } else {
      var n := |p| - 1;
      RedistributeSame(bounds, p[..n], q[..n]);
      PlaceAllConcat(bounds, NoFiles(|bounds|), Items(p[..n]), LayerItems(p[n]));
      PlaceAllConcat(bounds, NoFiles(|bounds|), Items(q[..n]), LayerItems(q[n]));
      var r, s := Redistribute(bounds, Items(p[..n])), Redistribute(bounds, Items(q[..n]));
      if r.Ok? {
        PlaceLayerSame(bounds, r.value, s.value, p[n], q[n]);
      }
    }
  }

  lemma {:induction false} PlaceLayerSame(bounds: seq<Path>, b: seq<Partition<PosDelete>>,
        c: seq<Partition<PosDelete>>, l: Layer<PosDelete>, m: Layer<PosDelete>)
    requires |b| == |bounds| && SamePlan(b, c) && SameLayer(l, m) && l.eq == [] && m.eq == []
    ensures SameOutcome(PlaceAll(bounds, b, LayerItems(l)), PlaceAll(bounds, c, LayerItems(m)))
  {
    PlaceLayer(bounds, b, l);
    PlaceLayer(bounds, c, m);
    PlaceDataSame(bounds, b, c, l.data, m.data);
    var r, s := PlaceAll(bounds, b, DataItems(l.data)), PlaceAll(bounds, c, DataItems(m.data));
    if r.Ok? { PlaceDeletesSame(bounds, r.value, s.value, l.pos, m.pos); }
  }

  lemma {:induction false} SplitSame(p: Partition<PosDelete>, q: Partition<PosDelete>)
    requires SamePartition(p, q)
    ensures SameOutcome(Split(p), Split(q))
  {
    CanOptimizeSame(p, q);
    if CanOptimizePartition(p) {
      BoundsSame(p, q);
      if LowerBounds(p).Ok? { RedistributeSame(LowerBounds(p).value, p, q); }
    }
  }

  lemma {:induction false} OptimizeSame(p: seq<Partition<PosDelete>>, q: seq<Partition<PosDelete>>)
    requires SamePlan(p, q)
    ensures SameOutcome(OptimizeAll(p), OptimizeAll(q))
  {
    if p != [] {
      var n := |p| - 1;
      OptimizeSame(p[..n], q[..n]);
      SplitSame(p[n], q[n]);
      if OptimizeAll(p).Ok? {
        SamePlanConcat(OptimizeAll(p[..n]).value, OptimizeAll(q[..n]).value, Split(p[n]).value, Split(q[n]).value);
      }
    }
  }

  // ----- Dangling deletes -----

  lemma {:induction false} DataPathsSame(ds: seq<DataEntry>, es: seq<DataEntry>)
    requires multiset(ds) == multiset(es)
    ensures DataPaths(ds) == DataPaths(es)
  {
    SameMembers(ds, es);
    forall p ensures p in DataPaths(ds) <==> p in DataPaths(es) {
      if p in DataPaths(ds) {
        var i :| 0 <= i < |ds| && ds[i].path == p;
        assert ds[i] in es;
      }
      if p in DataPaths(es) {
        var i :| 0 <= i < |es| && es[i].path == p;
        assert es[i] in ds;
      }
    }
  }

  function Kept(paths: set<Path>): PosDelete -> seq<Path>
  {
    (x: PosDelete) => if IsDangling(paths, x) then [] else [x.path]
  }

  lemma {:induction false} KeptIsFlatMap(paths: set<Path>, pos: seq<PosDelete>)
    ensures KeptDeletes(paths, pos) == FlatMap(pos, Kept(paths))
  {
    if pos != [] { KeptIsFlatMap(paths, pos[..|pos|-1]); }
  }

  lemma {:induction false} PruneLayerSame(paths: set<Path>, l: Layer<PosDelete>, m: Layer<PosDelete>)
    requires SameLayer(l, m)
    ensures SameLayer(PruneLayer(paths, l), PruneLayer(paths, m))
    ensures PruneLayer(paths, l).Empty() <==> PruneLayer(paths, m).Empty()
  {
    KeptIsFlatMap(paths, l.pos);
    KeptIsFlatMap(paths, m.pos);
    FlatMapPermutation(l.pos, m.pos, Kept(paths));
    SameMembers(KeptDeletes(paths, l.pos), KeptDeletes(paths, m.pos));
    SameMembers(l.data, m.data);
    SameMembers(l.eq, m.eq);
  }

  lemma {:induction false} PruneSame(p: Partition<PosDelete>, q: Partition<PosDelete>)
    requires SamePartition(p, q)
    ensures SamePartition(PrunePartition(p), PrunePartition(q))
    ensures PartitionPaths(p) == PartitionPaths(q)
  {
    if p != [] {
      var n := |p| - 1;
      PruneSame(p[..n], q[..n]);
      DataPathsSame(p[n].data, q[n].data);
      PruneLayerSame(PartitionPaths(p), p[n], q[n]);
      SamePartitionSnoc(PrunePartition(p[..n]), PrunePartition(q[..n]),
                        PruneLayer(PartitionPaths(p), p[n]), PruneLayer(PartitionPaths(p), q[n]));
    }
  }

  lemma {:induction false} HasDataSame(p: Partition<PosDelete>, q: Partition<PosDelete>)
    requires SamePartition(p, q) && HasData(p)
    ensures HasData(q)
  {
    var i :| 0 <= i < |p| && p[i].data != [];
    SameMembers(p[i].data, q[i].data);
  }

  lemma {:induction false} DanglingSame(p: seq<Partition<PosDelete>>, q: seq<Partition<PosDelete>>)
    requires SamePlan(p, q)
    ensures SamePlan(RemoveDangling(p), RemoveDangling(q))
  {
    if p != [] {
      var n := |p| - 1;
      DanglingSame(p[..n], q[..n]);
      PruneSame(p[n], q[n]);
      UnfoldDangling(p);
      UnfoldDangling(q);
      if HasData(p[n]) { HasDataSame(p[n], q[n]); }
      if HasData(q[n]) { HasDataSame(q[n], p[n]); }
      SamePlanSnoc(RemoveDangling(p[..n]), RemoveDangling(q[..n]), PrunePartition(p[n]), PrunePartition(q[n]));
    }
  }

  /** Without two newest vectors for a data file, the builder's plan does not depend on the order of
      the additions, except for the order of files inside a layer. */
  lemma {:induction false} BuilderPlanSame(adds: seq<Addition>, adds': seq<Addition>)
    requires multiset(adds) == multiset(adds') && Uncontested(adds)
    ensures SameOutcome(BuilderPlan(Stored(adds)), BuilderPlan(Stored(adds')))
  {
    KeysSame(adds, adds');
    var keys := Keys(Stored(adds));
    VecSame(adds, adds', keys);
    if Vec(Stored(adds), keys).Ok? {
      var p, q := Vec(Stored(adds), keys).value, Vec(Stored(adds'), keys).value;
      OptimizeSame(p, q);
      if OptimizeAll(p).Ok? { DanglingSame(OptimizeAll(p).value, OptimizeAll(q).value); }
    }
  }
}
