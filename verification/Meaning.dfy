/** End to end: the plan built from any sequence of additions, related to the additions alone. */
module Meaning {
  import opened Order
  import opened Plan
  import opened Scanline
  import opened Buckets
  import opened Builder
  import opened Resolve
  import opened Planner

  // ----- The rules of scan planning, stated over what was added -----

  /** The deletion vectors a partition offers, by data path. */
  function VectorsOf(adds: seq<Addition>, k: Key): Vectors
  {
    CurrentVectors(MergedLayers(Stored(adds), k))
  }

  /** Data file `d`, with the vector it must carry, was added to partition `k` at `s`. */
  ghost predicate DataAdded(adds: seq<Addition>, k: Key, s: int, d: DataEntry)
  {
    exists d0 :: AddData(k, s, d0) in adds && d == Attach(VectorsOf(adds, k), s, d0)
  }

  /** A positional delete applies to data of the same partition that is not newer. */
  ghost predicate PositionalRule(adds: seq<Addition>, d: DataEntry, x: PosDelete)
  {
    exists k, s, t :: s <= t && DataAdded(adds, k, s, d) && AddPos(k, t, x) in adds
  }

  /** An equality delete applies to strictly older data of its partition, or of every
      partition if it is unpartitioned. */
  ghost predicate EqualityRule(adds: seq<Addition>, d: DataEntry, e: EqDelete)
  {
    exists k, s, t :: s < t && DataAdded(adds, k, s, d) && EqualityAdded(adds, k, t, e)
  }

  predicate EqualityAdded(adds: seq<Addition>, k: Key, t: int, e: EqDelete)
  {
    AddEq(k, t, e) in adds || AddGlobalEq(t, e) in adds
  }

  /** The highest sequence number of a vector for data path `p` in partition `k` is `s`. */
  ghost predicate HighestAdded(adds: seq<Addition>, k: Key, p: Path, s: int)
  {
    && VectorAdded(adds, k, p, s)
    && forall t :: VectorAdded(adds, k, p, t) ==> t <= s
  }

  ghost predicate VectorAdded(adds: seq<Addition>, k: Key, p: Path, s: int)
  {
    exists dv :: AddDv(k, s, dv) in adds && dv.referenced == p
  }

  // ----- Stored layers against additions -----

  lemma {:induction false} MergedContents(adds: seq<Addition>, k: Key, s: int)
    ensures forall d :: d in LayerIn(MergedLayers(Stored(adds), k), s).files.data <==> AddData(k, s, d) in adds
    ensures forall x :: x in LayerIn(MergedLayers(Stored(adds), k), s).files.pos <==> AddPos(k, s, x) in adds
    ensures forall e :: e in LayerIn(MergedLayers(Stored(adds), k), s).files.eq <==> EqualityAdded(adds, k, s + 1, e)
    ensures LayerIn(MergedLayers(Stored(adds), k), s).dvs == Gathered(adds, k, s).dvs
  {
    var st := Stored(adds);
    StoredExactly(adds, k, s);
    GatheredMembers(adds, k, s);
    assert LayerIn(MergedLayers(st, k), s).files.eq == LayerAt(st, k, s).files.eq + GlobalIn(st.globalEq, s);
  }

  lemma {:induction false} GatheredVectors(adds: seq<Addition>, k: Key, s: int, p: Path)
    ensures p in Gathered(adds, k, s).dvs <==> VectorAdded(adds, k, p, s)
    ensures p in Gathered(adds, k, s).dvs ==>
      AddDv(k, s, Gathered(adds, k, s).dvs[p]) in adds && Gathered(adds, k, s).dvs[p].referenced == p
  {
    if adds != [] {
      var init, last := adds[..|adds|-1], adds[|adds|-1];
      GatheredVectors(init, k, s, p);
      forall a ensures a in adds <==> a in init || a == last {
        InConcat(init, [last], a);
        assert adds == init + [last];
      }
      assert forall dv :: AddDv(k, s, dv) in init ==> AddDv(k, s, dv) in adds;
    }
  }

  /** The vector offered for a path is one that was added at the highest sequence number. */
  lemma {:induction false} VectorsOfExactly(adds: seq<Addition>, k: Key, p: Path, s: int)
    ensures p in VectorsOf(adds, k) && VectorsOf(adds, k)[p].1 == s <==> HighestAdded(adds, k, p, s)
    ensures HighestAdded(adds, k, p, s) ==>
      AddDv(k, s, VectorsOf(adds, k)[p].0) in adds && VectorsOf(adds, k)[p].0.referenced == p
  {
    var layers := MergedLayers(Stored(adds), k);
    forall t ensures t in layers && p in layers[t].dvs <==> VectorAdded(adds, k, p, t)
             ensures VectorAdded(adds, k, p, t) ==>
                     layers[t].dvs[p].referenced == p && AddDv(k, t, layers[t].dvs[p]) in adds {
      MergedContents(adds, k, t);
      GatheredVectors(adds, k, t, p);
      StoredExactly(adds, k, t);
    }
    VectorsAreHighest(layers, p, s);
  }

  // ----- One partition -----

  ghost predicate CarriesData(layers: Layers, s: int, d: DataEntry)
  {
    s in layers && exists d0 :: d0 in layers[s].files.data && d == Attach(CurrentVectors(layers), s, d0)
  }

  lemma {:induction false} ResolvedHolds(layers: Layers, i: nat, d: DataEntry, x: Item<PosDelete>)
    requires ResolvePartition(layers).Ok? && i < |Numbers(layers)| && !x.DataItem?
    ensures i < |ResolvePartition(layers).value|
    ensures Holds(ResolvePartition(layers).value[i], DataItem(d)) <==> CarriesData(layers, Numbers(layers)[i], d)
    ensures Holds(ResolvePartition(layers).value[i], x) <==> Holds(layers[Numbers(layers)[i]].files, x)
  {
    ResolveExactly(layers);
    var s := Numbers(layers)[i];
    assert s in layers;
    var data := layers[s].files.data;
    var r := AttachAll(CurrentVectors(layers), s, data);
    if CarriesData(layers, s, d) {
      var d0 :| d0 in data && d == Attach(CurrentVectors(layers), s, d0);
      var j :| 0 <= j < |data| && data[j] == d0;
      assert r[j] == d;
    }
    if d in r {
      var j :| 0 <= j < |r| && r[j] == d;
      assert data[j] in data;
    }
  }

  ghost predicate LayersApply(layers: Layers, d: DataEntry, x: Item<PosDelete>)
  {
    exists s, t :: s <= t && CarriesData(layers, s, d) && t in layers && Holds(layers[t].files, x)
  }

  /** Positions of layers compare as their sequence numbers. */
  lemma {:induction false} ResolvedMeaning(layers: Layers, d: DataEntry, x: Item<PosDelete>)
    requires ResolvePartition(layers).Ok? && !x.DataItem?
    ensures Applies(ResolvePartition(layers).value, d, x) <==> LayersApply(layers, d, x)
  {
    if Applies(ResolvePartition(layers).value, d, x) { NumbersApply(layers, d, x); }
    if LayersApply(layers, d, x) { AppliesByNumber(layers, d, x); }
  }

  lemma {:induction false} NumbersApply(layers: Layers, d: DataEntry, x: Item<PosDelete>)
    requires ResolvePartition(layers).Ok? && !x.DataItem? && Applies(ResolvePartition(layers).value, d, x)
    ensures LayersApply(layers, d, x)
  {
    var part := ResolvePartition(layers).value;
    ResolveExactly(layers);
    var i, j :| 0 <= i <= j < |part| && Holds(part[i], DataItem(d)) && Holds(part[j], x);
    ResolvedHolds(layers, i, d, x);
    ResolvedHolds(layers, j, d, x);
    NumbersAscend(layers, i, j);
  }

  lemma {:induction false} NumbersAscend(layers: Layers, i: nat, j: nat)
    requires i <= j < |Numbers(layers)|
    ensures Numbers(layers)[i] <= Numbers(layers)[j] && Numbers(layers)[j] in layers
  {
    assert Numbers(layers)[j] in Numbers(layers);
  }

  lemma {:induction false} AppliesByNumber(layers: Layers, d: DataEntry, x: Item<PosDelete>)
    requires ResolvePartition(layers).Ok? && !x.DataItem? && LayersApply(layers, d, x)
    ensures Applies(ResolvePartition(layers).value, d, x)
  {
    var s, t :| s <= t && CarriesData(layers, s, d) && t in layers && Holds(layers[t].files, x);
    var keys := Numbers(layers);
    assert s in keys && t in keys;
    var i :| 0 <= i < |keys| && keys[i] == s;
    var j :| 0 <= j < |keys| && keys[j] == t;
    ResolvedHolds(layers, i, d, x);
    ResolvedHolds(layers, j, d, x);
    assert i <= j;
  }

  lemma {:induction false} DataAddedIsCarried(adds: seq<Addition>, k: Key, s: int, d: DataEntry)
    ensures DataAdded(adds, k, s, d) <==> CarriesData(MergedLayers(Stored(adds), k), s, d)
  {
    var layers := MergedLayers(Stored(adds), k);
    MergedContents(adds, k, s);
    if DataAdded(adds, k, s, d) {
      var d0 :| AddData(k, s, d0) in adds && d == Attach(VectorsOf(adds, k), s, d0);
      assert d0 in LayerIn(layers, s).files.data;
    }
  }

  lemma {:induction false} PartitionMeaning(adds: seq<Addition>, k: Key, d: DataEntry, x: Item<PosDelete>)
    requires ResolvePartition(MergedLayers(Stored(adds), k)).Ok? && !x.DataItem?
    ensures Applies(ResolvePartition(MergedLayers(Stored(adds), k)).value, d, x) <==> PairAdded(adds, k, d, x)
  {
    var layers := MergedLayers(Stored(adds), k);
    ResolvedMeaning(layers, d, x);
    forall s ensures DataAdded(adds, k, s, d) <==> CarriesData(layers, s, d) { DataAddedIsCarried(adds, k, s, d); }
    forall t ensures t in layers && Holds(layers[t].files, x) <==> DeleteAdded(adds, k, t, x) {
      DeleteAddedIsHeld(adds, k, t, x);
    }
  }

  lemma {:induction false} DeleteAddedIsHeld(adds: seq<Addition>, k: Key, t: int, x: Item<PosDelete>)
    requires !x.DataItem?
    ensures var layers := MergedLayers(Stored(adds), k);
            t in layers && Holds(layers[t].files, x) <==> DeleteAdded(adds, k, t, x)
  {
    MergedContents(adds, k, t);
    match x
    case PosItem(p) => assert p in LayerIn(MergedLayers(Stored(adds), k), t).files.pos <==> AddPos(k, t, p) in adds;
    case EqItem(e) =>
      assert e in LayerIn(MergedLayers(Stored(adds), k), t).files.eq <==> EqualityAdded(adds, k, t + 1, e);
  }

  /** The delete acts at layer `t` of partition `k`. */
  predicate DeleteAdded(adds: seq<Addition>, k: Key, t: int, x: Item<PosDelete>)
  {
    match x
    case DataItem(_) => false
    case PosItem(p) => AddPos(k, t, p) in adds
    case EqItem(e) => EqualityAdded(adds, k, t + 1, e)
  }

  // ----- All partitions -----

  lemma {:induction false} VecExactly(st: State, keys: seq<Key>)
    requires Vec(st, keys).Ok?
    ensures |Vec(st, keys).value| == |keys|
    ensures forall i :: 0 <= i < |keys| ==> Ok(Vec(st, keys).value[i]) == ResolvePartition(MergedLayers(st, keys[i]))
  {
    if keys != [] {
      var init, last := keys[..|keys|-1], keys[|keys|-1];
      UnfoldVec(st, keys);
      VecExactly(st, init);
      forall i | 0 <= i < |keys| ensures Ok(Vec(st, keys).value[i]) == ResolvePartition(MergedLayers(st, keys[i])) {
        if i < |init| { assert Vec(st, keys).value[i] == Vec(st, init).value[i] && init[i] == keys[i]; }
      }
    }
  }

  lemma {:induction false} UnfoldVec(st: State, keys: seq<Key>)
    requires keys != [] && Vec(st, keys).Ok?
    ensures Vec(st, keys[..|keys|-1]).Ok? && ResolvePartition(MergedLayers(st, keys[|keys|-1])).Ok?
    ensures Vec(st, keys).value
            == Vec(st, keys[..|keys|-1]).value + [ResolvePartition(MergedLayers(st, keys[|keys|-1])).value]
  {
  }

  lemma {:induction false} VecFailsExactly(st: State, keys: seq<Key>)
    ensures Vec(st, keys).Err? <==> exists k :: k in keys && ResolvePartition(MergedLayers(st, k)).Err?
  {
    if keys != [] {
      var init, last := keys[..|keys|-1], keys[|keys|-1];
      VecFailsExactly(st, init);
      forall k ensures k in keys <==> k in init || k == last {
        InConcat(init, [last], k);
        assert keys == init + [last];
      }
    }
  }

  /** Some partition holds the data file at a layer up to that of the delete. */
  ghost predicate PairAdded(adds: seq<Addition>, k: Key, d: DataEntry, x: Item<PosDelete>)
  {
    exists s, t :: s <= t && DataAdded(adds, k, s, d) && DeleteAdded(adds, k, t, x)
  }

  lemma {:induction false} PairHasKey(adds: seq<Addition>, k: Key, d: DataEntry, x: Item<PosDelete>)
    requires PairAdded(adds, k, d, x)
    ensures k in Stored(adds).partitions
  {
    var s, t :| s <= t && DataAdded(adds, k, s, d) && DeleteAdded(adds, k, t, x);
    var d0 :| AddData(k, s, d0) in adds && d == Attach(VectorsOf(adds, k), s, d0);
    StoredExactly(adds, k, s);
  }

  lemma {:induction false} VecPartition(adds: seq<Addition>, i: nat, d: DataEntry, x: Item<PosDelete>)
    requires Vec(Stored(adds), Keys(Stored(adds))).Ok? && !x.DataItem?
    requires i < |Keys(Stored(adds))|
    ensures i < |Vec(Stored(adds), Keys(Stored(adds))).value|
    ensures Applies(Vec(Stored(adds), Keys(Stored(adds))).value[i], d, x) <==>
            PairAdded(adds, Keys(Stored(adds))[i], d, x)
  {
    var st := Stored(adds);
    VecExactly(st, Keys(st));
    assert Ok(Vec(st, Keys(st)).value[i]) == ResolvePartition(MergedLayers(st, Keys(st)[i]));
    PartitionMeaning(adds, Keys(st)[i], d, x);
  }

  lemma {:induction false} PairIsPlanned(adds: seq<Addition>, k: Key, d: DataEntry, x: Item<PosDelete>)
    requires Vec(Stored(adds), Keys(Stored(adds))).Ok? && !x.DataItem? && PairAdded(adds, k, d, x)
    ensures Planned(Vec(Stored(adds), Keys(Stored(adds))).value, d, x)
  {
    PairHasKey(adds, k, d, x);
    var keys := Keys(Stored(adds));
    var i :| 0 <= i < |keys| && keys[i] == k;
    VecPartition(adds, i, d, x);
  }

  lemma {:induction false} VecMeaning(adds: seq<Addition>, d: DataEntry, x: Item<PosDelete>)
    requires Vec(Stored(adds), Keys(Stored(adds))).Ok? && !x.DataItem?
    ensures Planned(Vec(Stored(adds), Keys(Stored(adds))).value, d, x) <==> exists k :: PairAdded(adds, k, d, x)
  {
    var parts := Vec(Stored(adds), Keys(Stored(adds))).value;
    if Planned(parts, d, x) {
      var i :| 0 <= i < |parts| && Applies(parts[i], d, x);
      VecExactly(Stored(adds), Keys(Stored(adds)));
      VecPartition(adds, i, d, x);
    }
    if k :| PairAdded(adds, k, d, x) {
      PairIsPlanned(adds, k, d, x);
    }
  }

  // ----- The theorems -----

  /** No positional pair is invented: whatever the plan puts together is required by the rule. */
  lemma {:induction false} PlanIsSound(adds: seq<Addition>, d: DataEntry, q: Path)
    requires BuilderPlan(Stored(adds)).Ok?
    requires Planned(BuilderPlan(Stored(adds)).value, d, PosItem(q))
    ensures exists x: PosDelete :: x.path == q && PositionalRule(adds, d, x)
  {
    var parts := Vec(Stored(adds), Keys(Stored(adds))).value;
    var x := LayoutSound(parts, d, q);
    VecMeaning(adds, d, PosItem(x));
    var k :| PairAdded(adds, k, d, PosItem(x));
    var s, t :| s <= t && DataAdded(adds, k, s, d) && DeleteAdded(adds, k, t, PosItem(x));
    assert AddPos(k, t, x) in adds;
  }

  /** No positional pair that can have an effect is lost. */
  lemma {:induction false} PlanIsComplete(adds: seq<Addition>, d: DataEntry, x: PosDelete)
    requires BuilderPlan(Stored(adds)).Ok?
    requires PositionalRule(adds, d, x) && Covers(x, d.path)
    ensures Planned(BuilderPlan(Stored(adds)).value, d, PosItem(x.path))
  {
    var parts := Vec(Stored(adds), Keys(Stored(adds))).value;
    var k, s, t :| s <= t && DataAdded(adds, k, s, d) && AddPos(k, t, x) in adds;
    assert DeleteAdded(adds, k, t, PosItem(x));
    assert PairAdded(adds, k, d, PosItem(x));
    VecMeaning(adds, d, PosItem(x));
    LayoutComplete(parts, d, x);
  }

  /** Equality deletes: exactly the rule, in both directions. */
  lemma {:induction false} PlanAppliesEquality(adds: seq<Addition>, d: DataEntry, e: EqDelete)
    requires BuilderPlan(Stored(adds)).Ok?
    ensures Planned(BuilderPlan(Stored(adds)).value, d, EqItem(e)) <==> EqualityRule(adds, d, e)
  {
    var parts := Vec(Stored(adds), Keys(Stored(adds))).value;
    LayoutEquality(parts, d, e);
    VecMeaning(adds, d, EqItem(e));
    if EqualityRule(adds, d, e) {
      var k, s, t :| s < t && DataAdded(adds, k, s, d) && EqualityAdded(adds, k, t, e);
      assert s <= t - 1 && DeleteAdded(adds, k, t - 1, EqItem(e));
      assert PairAdded(adds, k, d, EqItem(e));
    }
    if k :| PairAdded(adds, k, d, EqItem(e)) {
      var s, t :| s <= t && DataAdded(adds, k, s, d) && DeleteAdded(adds, k, t, EqItem(e));
      assert s < t + 1 && EqualityAdded(adds, k, t + 1, e);
    }
  }

  /** Delete files have distinct paths. */
  ghost predicate DistinctDeletePaths(adds: seq<Addition>)
  {
    forall k, s, x, k', s', x' :: AddPos(k, s, x) in adds && AddPos(k', s', x') in adds && x.path == x'.path ==> x == x'
  }

  /** With distinct delete paths the plan contains an effective positional pair exactly when the
      rule demands it. */
  lemma {:induction false} PlanIsExact(adds: seq<Addition>, d: DataEntry, x: PosDelete, k: Key, s: int)
    requires BuilderPlan(Stored(adds)).Ok? && DistinctDeletePaths(adds) && AddPos(k, s, x) in adds
    ensures Planned(BuilderPlan(Stored(adds)).value, d, PosItem(x.path)) && Covers(x, d.path) <==>
            PositionalRule(adds, d, x) && Covers(x, d.path)
  {
    if Planned(BuilderPlan(Stored(adds)).value, d, PosItem(x.path)) && Covers(x, d.path) {
      PlanIsSound(adds, d, x.path);
      var x': PosDelete :| x'.path == x.path && PositionalRule(adds, d, x');
    }
    if PositionalRule(adds, d, x) && Covers(x, d.path) {
      PlanIsComplete(adds, d, x);
    }
  }

  /** Every positional delete of the plan was added. */
  lemma {:induction false} DeletesOfPlan(adds: seq<Addition>, q: Path)
    requires BuilderPlan(Stored(adds)).Ok? && PosItem(q) in PlanItems(BuilderPlan(Stored(adds)).value)
    ensures exists k, s, x :: AddPos(k, s, x) in adds && x.path == q
  {
    var st := Stored(adds);
    var parts := Vec(st, Keys(st)).value;
    var x := LayoutMembers(parts, q);
    var i := PlanItemsHold(parts, PosItem(x));
    VecExactly(st, Keys(st));
    assert Ok(parts[i]) == ResolvePartition(MergedLayers(st, Keys(st)[i]));
    DeletesOfPartition(adds, Keys(st)[i], x);
  }

  lemma {:induction false} DeletesOfPartition(adds: seq<Addition>, k: Key, x: PosDelete)
    requires ResolvePartition(MergedLayers(Stored(adds), k)).Ok?
    requires PosItem(x) in Items(ResolvePartition(MergedLayers(Stored(adds), k)).value)
    ensures exists s :: AddPos(k, s, x) in adds
  {
    var layers := MergedLayers(Stored(adds), k);
    var part := ResolvePartition(layers).value;
    ResolveExactly(layers);
    ItemsHold(part, PosItem(x));
    var i :| 0 <= i < |part| && Holds(part[i], PosItem(x));
    ResolvedHolds(layers, i, DataEntry([], [], None), PosItem(x));
    MergedContents(adds, k, Numbers(layers)[i]);
    assert AddPos(k, Numbers(layers)[i], x) in adds;
  }

  // ----- When the planner fails -----

  /** A data file that must carry a vector shares a layer with other deletes. */
  ghost predicate MixedLayer(adds: seq<Addition>, k: Key, s: int)
  {
    && (exists d :: AddData(k, s, d) in adds && Matches(VectorsOf(adds, k), s, d))
    && (exists x: Item<PosDelete> :: DeleteAdded(adds, k, s, x))
  }

  ghost predicate OrderedAdditions(adds: seq<Addition>)
  {
    forall k, s, x :: AddPos(k, s, x) in adds ==> OrderedRange(x)
  }

  lemma {:induction false} MixedConflicts(adds: seq<Addition>, k: Key, s: int)
    requires MixedLayer(adds, k, s)
    ensures s in MergedLayers(Stored(adds), k) && Conflict(VectorsOf(adds, k), s, MergedLayers(Stored(adds), k)[s])
  {
    var l := LayerIn(MergedLayers(Stored(adds), k), s);
    var d :| AddData(k, s, d) in adds && Matches(VectorsOf(adds, k), s, d);
    var x: Item<PosDelete> :| DeleteAdded(adds, k, s, x);
    MergedContents(adds, k, s);
    DeleteAddedIsHeld(adds, k, s, x);
    var i :| 0 <= i < |l.files.data| && l.files.data[i] == d;
  }

  lemma {:induction false} ConflictIsMixed(adds: seq<Addition>, k: Key, s: int)
    ensures (s in MergedLayers(Stored(adds), k) && Conflict(VectorsOf(adds, k), s, MergedLayers(Stored(adds), k)[s]))
       <==> MixedLayer(adds, k, s)
  {
    var l := LayerIn(MergedLayers(Stored(adds), k), s);
    if MixedLayer(adds, k, s) { MixedConflicts(adds, k, s); }
    if s in MergedLayers(Stored(adds), k) && Conflict(VectorsOf(adds, k), s, l) {
      MergedContents(adds, k, s);
      var i :| 0 <= i < |l.files.data| && Matches(VectorsOf(adds, k), s, l.files.data[i]);
      assert AddData(k, s, l.files.data[i]) in adds;
      var x := if l.files.pos != [] then PosItem(l.files.pos[0]) else EqItem(l.files.eq[0]);
      DeleteAddedIsHeld(adds, k, s, x);
    }
  }

  /** The optimiser, if it takes the partition at all, can divide it. */
  ghost predicate Divisible(part: Partition<PosDelete>)
  {
    CanOptimizePartition(part) ==> Closes(part) && Shields(part)
  }

  lemma {:induction false} OptimizeAllExactly(parts: seq<Partition<PosDelete>>)
    ensures OptimizeAll(parts).Ok? <==> forall i :: 0 <= i < |parts| ==> Divisible(parts[i])
  {
    if parts != [] {
      var init, last := parts[..|parts|-1], parts[|parts|-1];
      OptimizeAllExactly(init);
      if CanOptimizePartition(last) { OptimizeExactly(last); }
      assert forall i :: 0 <= i < |init| ==> init[i] == parts[i];
    }
  }

  ghost predicate AllDivisible(adds: seq<Addition>)
  {
    forall k :: k in Stored(adds).partitions && ResolvePartition(MergedLayers(Stored(adds), k)).Ok? ==>
                  Divisible(ResolvePartition(MergedLayers(Stored(adds), k)).value)
  }

  lemma {:induction false} VecExists(adds: seq<Addition>)
    ensures Vec(Stored(adds), Keys(Stored(adds))).Err? <==> exists k, s :: MixedLayer(adds, k, s)
  {
    var st := Stored(adds);
    VecFailsExactly(st, Keys(st));
    forall k ensures ResolvePartition(MergedLayers(st, k)).Err? <==> exists s :: MixedLayer(adds, k, s) {
      ResolveFailsOnMixed(adds, k);
    }
    forall k, s | MixedLayer(adds, k, s) ensures k in Keys(st) { StoredPartitions(adds, k); }
  }

  lemma {:induction false} ResolveFailsOnMixed(adds: seq<Addition>, k: Key)
    ensures ResolvePartition(MergedLayers(Stored(adds), k)).Err? <==> exists s :: MixedLayer(adds, k, s)
  {
    ResolveExactly(MergedLayers(Stored(adds), k));
    forall s { ConflictIsMixed(adds, k, s); }
  }

  lemma {:induction false} VecAt(st: State, i: nat)
    requires Vec(st, Keys(st)).Ok? && i < |Keys(st)|
    ensures |Vec(st, Keys(st)).value| == |Keys(st)| && Keys(st)[i] in st.partitions
    ensures ResolvePartition(MergedLayers(st, Keys(st)[i])) == Ok(Vec(st, Keys(st)).value[i])
  {
    VecExactly(st, Keys(st));
    assert Ok(Vec(st, Keys(st)).value[i]) == ResolvePartition(MergedLayers(st, Keys(st)[i]));
    assert Keys(st)[i] in Keys(st);
  }

  lemma {:induction false} DivisibleLayout(adds: seq<Addition>)
    requires Vec(Stored(adds), Keys(Stored(adds))).Ok? && AllDivisible(adds)
    ensures OptimizeAll(Vec(Stored(adds), Keys(Stored(adds))).value).Ok?
  {
    var st := Stored(adds);
    var parts := Vec(st, Keys(st)).value;
    VecExactly(st, Keys(st));
    forall i | 0 <= i < |parts| ensures Divisible(parts[i]) { VecAt(st, i); }
    OptimizeAllExactly(parts);
  }

  lemma {:induction false} LayoutDivisible(adds: seq<Addition>, k: Key)
    requires Vec(Stored(adds), Keys(Stored(adds))).Ok? && k in Stored(adds).partitions
    requires OptimizeAll(Vec(Stored(adds), Keys(Stored(adds))).value).Ok?
    ensures ResolvePartition(MergedLayers(Stored(adds), k)).Ok?
    ensures Divisible(ResolvePartition(MergedLayers(Stored(adds), k)).value)
  {
    var st := Stored(adds);
    var keys := Keys(st);
    var i :| 0 <= i < |keys| && keys[i] == k;
    VecAt(st, i);
    OptimizeAllExactly(Vec(st, keys).value);
  }

  lemma {:induction false} LayoutExists(adds: seq<Addition>)
    requires Vec(Stored(adds), Keys(Stored(adds))).Ok?
    ensures BuilderPlan(Stored(adds)).Ok? <==> AllDivisible(adds)
  {
    if AllDivisible(adds) { DivisibleLayout(adds); }
    if BuilderPlan(Stored(adds)).Ok? {
      forall k | k in Stored(adds).partitions && ResolvePartition(MergedLayers(Stored(adds), k)).Ok?
        ensures Divisible(ResolvePartition(MergedLayers(Stored(adds), k)).value)
      {
        LayoutDivisible(adds, k);
      }
    }
  }

  /** Whatever the bounds of the deletes, there is a plan exactly when no layer is mixed and every
      partition that is optimised can be divided. */
  lemma {:induction false} PlanExistsExactly(adds: seq<Addition>)
    ensures BuilderPlan(Stored(adds)).Ok? <==> (forall k, s :: !MixedLayer(adds, k, s)) && AllDivisible(adds)
  {
    VecExists(adds);
    if Vec(Stored(adds), Keys(Stored(adds))).Ok? { LayoutExists(adds); }
  }

  /** With ordered delete ranges the planner fails exactly on a mixed layer; none of its internal
      checks can fire. */
  lemma {:induction false} PlanFailsExactly(adds: seq<Addition>)
    requires OrderedAdditions(adds)
    ensures BuilderPlan(Stored(adds)).Err? <==> exists k, s :: MixedLayer(adds, k, s)
  {
    PlanExistsExactly(adds);
    forall k | ResolvePartition(MergedLayers(Stored(adds), k)).Ok?
      ensures Divisible(ResolvePartition(MergedLayers(Stored(adds), k)).value)
    {
      var part := ResolvePartition(MergedLayers(Stored(adds), k)).value;
      ResolvedRangesOrdered(adds, k);
      if CanOptimizePartition(part) {
        OptimizeSucceeds(part);
        OptimizeExactly(part);
      }
    }
  }

  lemma {:induction false} ResolvedRangesOrdered(adds: seq<Addition>, k: Key)
    requires OrderedAdditions(adds) && ResolvePartition(MergedLayers(Stored(adds), k)).Ok?
    ensures OrderedRanges(ResolvePartition(MergedLayers(Stored(adds), k)).value)
  {
    var part := ResolvePartition(MergedLayers(Stored(adds), k)).value;
    forall x | PosItem(x) in Items(part) ensures OrderedRange(x) {
      DeletesOfPartition(adds, k, x);
    }
  }
}
