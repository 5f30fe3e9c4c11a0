/** Exactly which positional pairs the plan holds: the optimiser parts a delete from a data file
    wherever the path axis can be cut between them, and a delete stays where it reaches a file. */
module Separation {
  import opened Order
  import opened Plan
  import opened Scanline
  import opened Buckets
  import opened Dangling
  import opened Builder
  import opened Resolve
  import opened Planner
  import opened Meaning
  import opened ByKey
  import opened RegroupRules

  // ----- Where the path axis is cut -----

  /** A data file stands at the path, or the range of a delete begins there. */
  ghost predicate Begins(items: seq<Item<PosDelete>>, c: Path)
  {
    || (exists d :: DataItem(d) in items && d.path == c)
    || (exists y: PosDelete :: PosItem(y) in items && y.range.Some? && y.range.value.min == c)
  }

  /** The path lies behind the beginning of the delete's range and not behind its end. */
  predicate Within(y: PosDelete, c: Path)
  {
    y.range.Some? && Less(y.range.value.min, c) && Leq(c, y.range.value.max)
  }

  ghost predicate Cut(items: seq<Item<PosDelete>>, c: Path)
  {
    Begins(items, c) && forall y :: PosItem(y) in items ==> !Within(y, c)
  }

  /** The path `c` lies behind the one and up to the other of delete and file. */
  predicate Parts(x: PosDelete, p: Path, c: Path)
  {
    && x.range.Some?
    && ((Less(x.range.value.max, c) && Leq(c, p)) || (Less(p, c) && Leq(c, x.range.value.min)))
  }

  ghost predicate Separated(items: seq<Item<PosDelete>>, p: Path, x: PosDelete)
  {
    exists c :: Cut(items, c) && Parts(x, p, c)
  }

  /** There are positional deletes, all with bounds, and no equality deletes. */
  ghost predicate Optimised(items: seq<Item<PosDelete>>)
  {
    && (exists y: PosDelete :: PosItem(y) in items)
    && (forall y: PosDelete :: PosItem(y) in items ==> y.range.Some?)
    && (forall e: EqDelete :: EqItem(e) !in items)
  }

  lemma {:induction false} OptimisedWhen(part: Partition<PosDelete>)
    requires Optimised(Items(part))
    ensures CanOptimizePartition(part)
  {
    var y: PosDelete :| PosItem(y) in Items(part);
    ItemsHold(part, PosItem(y));
    forall i, j | 0 <= i < |part| && 0 <= j < |part[i].pos| ensures part[i].pos[j].range.Some? {
      ItemsHold(part, PosItem(part[i].pos[j]));
      assert Holds(part[i], PosItem(part[i].pos[j]));
    }
    forall i | 0 <= i < |part| ensures part[i].eq == [] {
      if part[i].eq != [] {
        ItemsHold(part, EqItem(part[i].eq[0]));
        assert Holds(part[i], EqItem(part[i].eq[0]));
      }
    }
  }

  /** The optimiser takes exactly these partitions. */
  lemma {:induction false} OptimisedExactly(part: Partition<PosDelete>)
    ensures CanOptimizePartition(part) <==> Optimised(Items(part))
  {
    if Optimised(Items(part)) { OptimisedWhen(part); }
    if CanOptimizePartition(part) {
      var i :| 0 <= i < |part| && part[i].pos != [];
      ItemsHold(part, PosItem(part[i].pos[0]));
      assert Holds(part[i], PosItem(part[i].pos[0]));
      forall y: PosDelete | PosItem(y) in Items(part) ensures y.range.Some? { ItemsHold(part, PosItem(y)); }
      forall e: EqDelete ensures EqItem(e) !in Items(part) { ItemsHold(part, EqItem(e)); }
    }
  }

  // ----- Bounds are cuts -----

  lemma {:induction false} DeleteEventSource(pos: seq<PosDelete>, e: Event) returns (i: nat)
    requires (forall k :: 0 <= k < |pos| ==> pos[k].range.Some?) && e in DeleteEvents(pos)
    ensures i < |pos|
    ensures e.kind == StartDelete ==> e.path == pos[i].range.value.min
    ensures e.kind == EndDelete ==> e.path == pos[i].range.value.max
    ensures e.kind != DataFile
  {
    var n := |pos| - 1;
    if e in DeleteEvents(pos[..n]) {
      i := DeleteEventSource(pos[..n], e);
    } else {
      i := n;
    }
  }

  lemma {:induction false} LayerBegins(layer: Layer<PosDelete>, e: Event)
    requires HasRanges(layer) && e in DeleteEvents(layer.pos) + DataEvents(layer.data) && e.kind != EndDelete
    ensures Begins(LayerItems(layer), e.path)
  {
    if e in DeleteEvents(layer.pos) {
      var i := DeleteEventSource(layer.pos, e);
      LayerItemsHold(layer, PosItem(layer.pos[i]));
    } else {
      var i :| 0 <= i < |DataEvents(layer.data)| && DataEvents(layer.data)[i] == e;
      LayerItemsHold(layer, DataItem(layer.data[i]));
    }
  }

  lemma {:induction false} BeginsLonger(s: seq<Item<PosDelete>>, t: seq<Item<PosDelete>>, c: Path)
    requires Begins(s, c) || Begins(t, c)
    ensures Begins(s + t, c)
  {
    forall item ensures item in s + t <==> item in s || item in t { InConcat(s, t, item); }
  }

  lemma {:induction false} EventBegins(part: Partition<PosDelete>, e: Event)
    requires Ranged(part) && e in Events(part) && e.kind != EndDelete
    ensures Begins(Items(part), e.path)
  {
    var n := |part| - 1;
    if e in Events(part[..n]) {
      EventBegins(part[..n], e);
    } else {
      InConcat(Events(part[..n]), DeleteEvents(part[n].pos) + DataEvents(part[n].data), e);
      LayerBegins(part[n], e);
    }
    BeginsLonger(Items(part[..n]), LayerItems(part[n]), e.path);
  }

  lemma {:induction false} WithinIsInside(y: PosDelete, c: Path)
    requires OrderedRange(y)
    ensures Within(y, c) <==> Inside(y, c)
  {
  }

  lemma {:induction false} DeleteEventsUncrossed(pos: seq<PosDelete>, e: Event)
    requires forall k :: 0 <= k < |pos| ==> pos[k].range.Some? && OrderedRange(pos[k]) && !Straddles(pos[k], e)
    ensures Open(DeleteEvents(pos), e) == 0
  {
    if pos != [] {
      DeleteEventsUncrossed(pos[..|pos|-1], e);
      DeleteEventsSnoc(pos, e);
    }
  }

  lemma {:induction false} EventsUncrossed(part: Partition<PosDelete>, e: Event)
    requires Ranged(part) && OrderedRanges(part)
    requires forall l, i :: 0 <= l < |part| && 0 <= i < |part[l].pos| ==> !Straddles(part[l].pos[i], e)
    ensures Open(Events(part), e) == 0
  {
    if part != [] {
      OrderedRangesSnoc(part);
      EventsUncrossed(part[..|part|-1], e);
      DeleteEventsUncrossed(part[|part|-1].pos, e);
      EventsSnoc(part, e);
    }
  }

  /** An event at a path inside no range is met with no range open, if the ranges that begin there
      have not been opened before it. */
  lemma {:induction false} StraddlesIsWithin(y: PosDelete, e: Event)
    requires y.range.Some? && (e.kind == StartDelete || (e.kind == DataFile && y.range.value.min != e.path))
    ensures Straddles(y, e) ==> Within(y, e.path)
  {
    var r := y.range.value;
    LeqReflexive(r.min);
    LeqReflexive(r.max);
    if Straddles(y, e) {
      LeqTotal(e.path, r.max);
      LeqTotal(r.min, e.path);
      if Leq(e.path, r.min) { LeqAntisymmetric(e.path, r.min); }
    }
  }

  lemma {:induction false} FirstEvent(part: Partition<PosDelete>, c: Path) returns (e: Event)
    requires Ranged(part) && Begins(Items(part), c)
    ensures e in Events(part) && e.path == c
    ensures e.kind == StartDelete
            || (e.kind == DataFile && forall y :: PosItem(y) in Items(part) && y.range.Some? ==> y.range.value.min != c)
  {
    if y: PosDelete :| PosItem(y) in Items(part) && y.range.Some? && y.range.value.min == c {
      EventOfItem(part, PosItem(y));
      e := Event(StartDelete, c);
    } else {
      var d :| DataItem(d) in Items(part) && d.path == c;
      EventOfItem(part, DataItem(d));
      e := Event(DataFile, c);
    }
  }

  lemma {:induction false} CutIsBound(part: Partition<PosDelete>, c: Path)
    requires Ranged(part) && OrderedRanges(part) && LowerBounds(part).Ok? && Cut(Items(part), c)
    ensures c in LowerBounds(part).value
  {
    var e := FirstEvent(part, c);
    forall l, i | 0 <= l < |part| && 0 <= i < |part[l].pos| ensures !Straddles(part[l].pos[i], e) {
      var y := part[l].pos[i];
      ItemsHold(part, PosItem(y));
      assert Holds(part[l], PosItem(y));
      assert HasRanges(part[l]);
      StraddlesIsWithin(y, e);
    }
    EventsUncrossed(part, e);
    UnshieldedBound(part, e);
  }

  lemma {:induction false} BoundIsCut(part: Partition<PosDelete>, c: Path)
    requires Ranged(part) && OrderedRanges(part) && LowerBounds(part).Ok? && c in LowerBounds(part).value
    ensures Cut(Items(part), c)
  {
    var e := BoundInside(part, c);
    EventBegins(part, e);
    forall y | PosItem(y) in Items(part) ensures !Within(y, c) {
      if Within(y, c) {
        WithinIsInside(y, c);
        OrderedShields(part, y, e);
      }
    }
  }

  /** The scanline cuts exactly where a file or range begins inside no range. */
  lemma {:induction false} BoundsAreCuts(part: Partition<PosDelete>, c: Path)
    requires Ranged(part) && OrderedRanges(part)
    ensures LowerBounds(part).Ok? && (c in LowerBounds(part).value <==> Cut(Items(part), c))
  {
    LowerBoundsSucceed(part);
    if Cut(Items(part), c) { CutIsBound(part, c); }
    if c in LowerBounds(part).value { BoundIsCut(part, c); }
  }

  // ----- Who shares a bucket -----

  lemma {:induction false} SeparatedBuckets(part: Partition<PosDelete>, d: DataEntry, x: PosDelete)
    requires CanOptimizePartition(part) && OrderedRanges(part) && Split(part).Ok?
    requires DataItem(d) in Items(part) && PosItem(x) in Items(part) && Separated(Items(part), d.path, x)
    ensures BucketOf(part, DataItem(d)) != BucketOf(part, PosItem(x))
  {
    var bounds, r := LowerBounds(part).value, x.range.value;
    PlacedItems(bounds, Items(part), PosItem(x));
    var c :| Cut(Items(part), c) && Parts(x, d.path, c);
    BoundsAreCuts(part, c);
    BoundsOfPartition(part);
    var k :| 0 <= k < |bounds| && bounds[k] == c;
    if Less(r.max, c) && Leq(c, d.path) {
      UpperBoundDivided(bounds, r.max, d.path, k);
    } else {
      UpperBoundDivided(bounds, d.path, r.min, k);
    }
  }

  /** Without a cut between two paths no bound divides them. */
  lemma {:induction false} Undivided(part: Partition<PosDelete>, p: Path, q: Path)
    requires Ranged(part) && OrderedRanges(part) && LowerBounds(part).Ok? && Leq(p, q)
    requires forall c :: Cut(Items(part), c) ==> !(Less(p, c) && Leq(c, q))
    ensures UpperBound(LowerBounds(part).value, p) == UpperBound(LowerBounds(part).value, q)
  {
    var bounds := LowerBounds(part).value;
    forall k | 0 <= k < |bounds| ensures Leq(bounds[k], p) || Less(q, bounds[k]) { BoundIsCut(part, bounds[k]); }
    UpperBoundUndivided(bounds, p, q);
  }

  lemma {:induction false} SharedBucket(part: Partition<PosDelete>, d: DataEntry, x: PosDelete)
    requires CanOptimizePartition(part) && OrderedRanges(part) && Split(part).Ok?
    requires DataItem(d) in Items(part) && PosItem(x) in Items(part) && !Separated(Items(part), d.path, x)
    ensures BucketOf(part, DataItem(d)) == BucketOf(part, PosItem(x))
  {
    var bounds := LowerBounds(part).value;
    PlacedItems(bounds, Items(part), PosItem(x));
    var r := x.range.value;
    LeqTotal(d.path, r.min);
    LeqTotal(d.path, r.max);
    if Covers(x, d.path) {
      CoveredShareBucket(part, d, x);
    } else if !Leq(r.min, d.path) {
      forall c | Cut(Items(part), c) ensures !(Less(d.path, c) && Leq(c, r.min)) { assert !Parts(x, d.path, c); }
      Undivided(part, d.path, r.min);
    } else {
      forall c | Cut(Items(part), c) ensures !(Less(r.max, c) && Leq(c, d.path)) { assert !Parts(x, d.path, c); }
      Undivided(part, r.max, d.path);
    }
  }

  lemma {:induction false} SplitSucceeds(part: Partition<PosDelete>)
    requires OrderedRanges(part)
    ensures Split(part).Ok?
  {
    if CanOptimizePartition(part) { OptimizeSucceeds(part); }
  }

  /** The file and the delete are put into one bucket. */
  ghost predicate Together(items: seq<Item<PosDelete>>, p: Path, x: PosDelete)
  {
    Optimised(items) ==> !Separated(items, p, x)
  }

  lemma {:induction false} BucketsExactly(part: Partition<PosDelete>, d: DataEntry, x: PosDelete)
    requires OrderedRanges(part) && Split(part).Ok? && DataItem(d) in Items(part) && PosItem(x) in Items(part)
    ensures BucketOf(part, DataItem(d)) == BucketOf(part, PosItem(x)) <==> Together(Items(part), d.path, x)
  {
    OptimisedExactly(part);
    if CanOptimizePartition(part) {
      if Separated(Items(part), d.path, x) {
        SeparatedBuckets(part, d, x);
      } else {
        SharedBucket(part, d, x);
      }
    }
  }

  lemma {:induction false} ItemsPlaced(part: Partition<PosDelete>, item: Item<PosDelete>)
    requires Split(part).Ok? && item in Items(part) && !item.EqItem?
    ensures 0 <= BucketOf(part, item) < |Split(part).value|
  {
    if CanOptimizePartition(part) { PlacedItems(LowerBounds(part).value, Items(part), item); }
  }

  /** With ordered bounds a delete is applied to a data file after splitting exactly when it was
      before and no cut, in a partition the optimiser takes, lies between them. */
  lemma {:induction false} SplitExactly(part: Partition<PosDelete>, d: DataEntry, x: PosDelete)
    requires OrderedRanges(part)
    ensures Split(part).Ok?
    ensures Planned(Split(part).value, d, PosItem(x)) <==>
            Applies(part, d, PosItem(x)) && (Optimised(Items(part)) ==> !Separated(Items(part), d.path, x))
  {
    SplitSucceeds(part);
    var buckets := Split(part).value;
    AppliesIsBefore(part, d, PosItem(x));
    if Applies(part, d, PosItem(x)) { BucketsExactly(part, d, x); }
    if g :| 0 <= g < |buckets| && Applies(buckets[g], d, PosItem(x)) { SplitApplies(part, g, d, x); }
    if Applies(part, d, PosItem(x)) && Together(Items(part), d.path, x) {
      ItemsPlaced(part, DataItem(d));
      SplitApplies(part, BucketOf(part, DataItem(d)), d, x);
    }
  }

  // ----- After the removal of dangling deletes -----

  lemma {:induction false} PairSnoc(init: seq<Item<PosDelete>>, item: Item<PosDelete>, d: DataEntry, x: PosDelete)
    ensures Before(init + [item], d, PosItem(x)) && KeptIn(init + [item], x) <==>
            || (Before(init, d, PosItem(x)) && KeptIn(init, x))
            || (DataItem(d) in init && item == PosItem(x) && !IsDangling({} + PathsOf(init), x))
  {
    BeforeSnoc(init, item, d, x);
    KeptSnoc(init, item, x);
    LastIsKept(init, x);
  }

  /** A pair survives pruning exactly when its delete does. */
  lemma {:induction false} PrunedPairs(items: seq<Item<PosDelete>>, d: DataEntry, q: Path)
    ensures Before(Prune(items), d, PosItem(q)) <==>
            exists x: PosDelete :: x.path == q && Before(items, d, PosItem(x)) && KeptIn(items, x)
  {
    if items != [] {
      var init, item := items[..|items|-1], items[|items|-1];
      var more := PruneItem({} + PathsOf(init), item);
      PrunedPairs(init, d, q);
      BeforeConcat(Prune(init), more, d, PosItem(q));
      PruneKeepsData(init, d);
      assert items == init + [item];
      assert !Before(more, d, PosItem(q));
      forall x: PosDelete
        ensures Before(items, d, PosItem(x)) && KeptIn(items, x) <==>
                || (Before(init, d, PosItem(x)) && KeptIn(init, x))
                || (DataItem(d) in init && item == PosItem(x) && !IsDangling({} + PathsOf(init), x))
      {
        PairSnoc(init, item, d, x);
      }
    }
  }

  /** The pair stands in the partition, is not separated, and the delete reaches some file. */
  ghost predicate Lasts(items: seq<Item<PosDelete>>, d: DataEntry, x: PosDelete)
  {
    Before(items, d, PosItem(x)) && KeptIn(items, x) && Together(items, d.path, x)
  }

  lemma {:induction false} BucketPair(part: Partition<PosDelete>, g: nat, d: DataEntry, x: PosDelete)
    requires OrderedRanges(part) && Split(part).Ok? && g < |Split(part).value|
    ensures Before(Items(Split(part).value[g]), d, PosItem(x)) && KeptIn(Items(Split(part).value[g]), x) <==>
            Lasts(Items(part), d, x) && BucketOf(part, DataItem(d)) == g
  {
    var bucket := Split(part).value[g];
    AppliesIsBefore(bucket, d, PosItem(x));
    AppliesIsBefore(part, d, PosItem(x));
    SplitApplies(part, g, d, x);
    if Before(Items(part), d, PosItem(x)) {
      BucketsExactly(part, d, x);
      if BucketOf(part, PosItem(x)) == g && KeptIn(Items(part), x) { KeptInBucket(part, g, x); }
    }
    if KeptIn(Items(bucket), x) { BucketKeeps(part, g, x); }
  }

  lemma {:induction false} BlockPairIsBucket(part: Partition<PosDelete>, p: nat, d: DataEntry, q: Path)
    requires OrderedRanges(part) && Layout([part]).Ok? && p < |Layout([part]).value|
    requires Applies(Layout([part]).value[p], d, PosItem(q))
    ensures exists x: PosDelete :: x.path == q && Lasts(Items(part), d, x)
  {
    LayoutSplits(part);
    var g := BlockAsBucket(part, p);
    var bucket := Split(part).value[g];
    AppliesIsBefore(PrunePartition(bucket), d, PosItem(q));
    PruneIsStreamwise(bucket);
    PrunedPairs(Items(bucket), d, q);
    var x: PosDelete :| x.path == q && Before(Items(bucket), d, PosItem(x)) && KeptIn(Items(bucket), x);
    BucketPair(part, g, d, x);
  }

  lemma {:induction false} BucketIsBlock(parts: seq<Partition<PosDelete>>, g: nat) returns (p: nat)
    requires g < |parts| && HasData(parts[g])
    ensures p < |RemoveDangling(parts)| && RemoveDangling(parts)[p] == PrunePartition(parts[g])
  {
    UnfoldDangling(parts);
    if g < |parts| - 1 {
      p := BucketIsBlock(parts[..|parts|-1], g);
    } else {
      p := |RemoveDangling(parts)| - 1;
    }
  }

  lemma {:induction false} BucketIsBlockPair(part: Partition<PosDelete>, d: DataEntry, x: PosDelete)
    requires OrderedRanges(part) && Layout([part]).Ok? && Lasts(Items(part), d, x)
    ensures Planned(Layout([part]).value, d, PosItem(x.path))
  {
    LayoutSplits(part);
    LayoutOne(part);
    ItemsPlaced(part, DataItem(d));
    var g := BucketOf(part, DataItem(d));
    var bucket := Split(part).value[g];
    BucketPair(part, g, d, x);
    AppliesIsBefore(bucket, d, PosItem(x));
    var i, j :| 0 <= i <= j < |bucket| && Holds(bucket[i], DataItem(d)) && Holds(bucket[j], PosItem(x));
    var p := BucketIsBlock(Split(part).value, g);
    PrunedPairs(Items(bucket), d, x.path);
    PruneIsStreamwise(bucket);
    AppliesIsBefore(PrunePartition(bucket), d, PosItem(x.path));
  }

  /** The pairs of one laid out partition. */
  lemma {:induction false} LayoutExactly(part: Partition<PosDelete>, d: DataEntry, q: Path)
    requires OrderedRanges(part) && Layout([part]).Ok?
    ensures Planned(Layout([part]).value, d, PosItem(q)) <==>
            exists x: PosDelete :: x.path == q && Lasts(Items(part), d, x)
  {
    var plan := Layout([part]).value;
    if p :| 0 <= p < |plan| && Applies(plan[p], d, PosItem(q)) { BlockPairIsBucket(part, p, d, q); }
    if x: PosDelete :| x.path == q && Lasts(Items(part), d, x) { BucketIsBlockPair(part, d, x); }
  }

  // ----- In terms of the additions of a key -----

  /** A data file of partition `k` stands at the path, or the range of one of its deletes begins
      there. */
  ghost predicate BeginsAt(adds: seq<Addition>, k: Key, c: Path)
  {
    || (exists s, d :: AddData(k, s, d) in adds && d.path == c)
    || (exists t, y :: AddPos(k, t, y) in adds && y.range.Some? && y.range.value.min == c)
  }

  ghost predicate CutAt(adds: seq<Addition>, k: Key, c: Path)
  {
    BeginsAt(adds, k, c) && forall t, y :: AddPos(k, t, y) in adds ==> !Within(y, c)
  }

  /** The partition has positional deletes, all with bounds, and no equality delete, its own or
      unpartitioned. */
  ghost predicate OptimisedAt(adds: seq<Addition>, k: Key)
  {
    && (exists t, y :: AddPos(k, t, y) in adds)
    && (forall t, y :: AddPos(k, t, y) in adds ==> y.range.Some?)
    && (forall t, e :: !EqualityAdded(adds, k, t, e))
  }

  /** The partition is split between the delete and the file. */
  ghost predicate SeparatedAt(adds: seq<Addition>, k: Key, p: Path, x: PosDelete)
  {
    OptimisedAt(adds, k) && exists c :: CutAt(adds, k, c) && Parts(x, p, c)
  }

  lemma {:induction false} ResolvedDelete(layers: Layers, x: Item<PosDelete>, i: nat)
    requires ResolvePartition(layers).Ok? && !x.DataItem? && i < |Numbers(layers)|
    ensures i < |ResolvePartition(layers).value| && Numbers(layers)[i] in layers
    ensures Holds(ResolvePartition(layers).value[i], x) <==> Holds(layers[Numbers(layers)[i]].files, x)
  {
    assert Numbers(layers)[i] in Numbers(layers);
    ResolvedHolds(layers, i, DataEntry([], [], None), x);
  }

  /** A delete stands in the resolved partition exactly when it stands in one of its layers. */
  lemma {:induction false} ResolvedDeletes(layers: Layers, x: Item<PosDelete>)
    requires ResolvePartition(layers).Ok? && !x.DataItem?
    ensures x in Items(ResolvePartition(layers).value) <==> exists s :: s in layers && Holds(layers[s].files, x)
  {
    var part := ResolvePartition(layers).value;
    ResolveExactly(layers);
    ItemsHold(part, x);
    if i :| 0 <= i < |part| && Holds(part[i], x) { ResolvedDelete(layers, x, i); }
    if s :| s in layers && Holds(layers[s].files, x) {
      assert s in Numbers(layers);
      var i :| 0 <= i < |Numbers(layers)| && Numbers(layers)[i] == s;
      ResolvedDelete(layers, x, i);
    }
  }

  lemma {:induction false} PartitionEquality(adds: seq<Addition>, k: Key, e: EqDelete)
    requires ResolvePartition(MergedLayers(Stored(adds), k)).Ok?
    ensures EqItem(e) in Items(ResolvePartition(MergedLayers(Stored(adds), k)).value) <==>
            exists t :: EqualityAdded(adds, k, t, e)
  {
    var layers := MergedLayers(Stored(adds), k);
    ResolvedDeletes(layers, EqItem(e));
    if s :| s in layers && Holds(layers[s].files, EqItem(e)) {
      DeleteAddedIsHeld(adds, k, s, EqItem(e));
      assert EqualityAdded(adds, k, s + 1, e);
    }
    if t :| EqualityAdded(adds, k, t, e) {
      assert DeleteAdded(adds, k, t - 1, EqItem(e));
      DeleteAddedIsHeld(adds, k, t - 1, EqItem(e));
    }
  }

  lemma {:induction false} PathInPartition(adds: seq<Addition>, k: Key, s: int, d0: DataEntry) returns (d: DataEntry)
    requires ResolvePartition(MergedLayers(Stored(adds), k)).Ok? && AddData(k, s, d0) in adds
    ensures d.path == d0.path && DataItem(d) in Items(ResolvePartition(MergedLayers(Stored(adds), k)).value)
  {
    d := Attach(VectorsOf(adds, k), s, d0);
    assert DataAdded(adds, k, s, d);
    PartitionFiles(adds, k, d);
  }

  lemma {:induction false} PathOfPartition(adds: seq<Addition>, k: Key, d: DataEntry) returns (s: int, d0: DataEntry)
    requires ResolvePartition(MergedLayers(Stored(adds), k)).Ok?
    requires DataItem(d) in Items(ResolvePartition(MergedLayers(Stored(adds), k)).value)
    ensures d.path == d0.path && AddData(k, s, d0) in adds
  {
    PartitionFiles(adds, k, d);
    s :| DataAdded(adds, k, s, d);
    d0 :| AddData(k, s, d0) in adds && d == Attach(VectorsOf(adds, k), s, d0);
  }

  lemma {:induction false} PartitionPath(adds: seq<Addition>, k: Key, c: Path)
    requires ResolvePartition(MergedLayers(Stored(adds), k)).Ok?
    ensures (exists d :: DataItem(d) in Items(ResolvePartition(MergedLayers(Stored(adds), k)).value) && d.path == c)
            <==> exists s, d :: AddData(k, s, d) in adds && d.path == c
  {
    var items := Items(ResolvePartition(MergedLayers(Stored(adds), k)).value);
    if d :| DataItem(d) in items && d.path == c { var s, d0 := PathOfPartition(adds, k, d); }
    if s, d0 :| AddData(k, s, d0) in adds && d0.path == c { var d := PathInPartition(adds, k, s, d0); }
  }

  /** The stream holds the deletes of partition `k`. */
  ghost predicate HoldsDeletes(items: seq<Item<PosDelete>>, adds: seq<Addition>, k: Key)
  {
    && (forall t, y :: AddPos(k, t, y) in adds ==> PosItem(y) in items)
    && (forall t, e :: EqualityAdded(adds, k, t, e) ==> EqItem(e) in items)
  }

  ghost predicate OnlyDeletes(items: seq<Item<PosDelete>>, adds: seq<Addition>, k: Key)
  {
    && (forall y :: PosItem(y) in items ==> exists t :: AddPos(k, t, y) in adds)
    && (forall e :: EqItem(e) in items ==> exists t :: EqualityAdded(adds, k, t, e))
  }

  lemma {:induction false} DeletesAgree(adds: seq<Addition>, k: Key)
    requires ResolvePartition(MergedLayers(Stored(adds), k)).Ok?
    ensures HoldsDeletes(Items(ResolvePartition(MergedLayers(Stored(adds), k)).value), adds, k)
    ensures OnlyDeletes(Items(ResolvePartition(MergedLayers(Stored(adds), k)).value), adds, k)
  {
    var items := Items(ResolvePartition(MergedLayers(Stored(adds), k)).value);
    forall y ensures PosItem(y) in items <==> exists t :: AddPos(k, t, y) in adds { PartitionDeletes(adds, k, y); }
    forall e ensures EqItem(e) in items <==> exists t :: EqualityAdded(adds, k, t, e) { PartitionEquality(adds, k, e); }
  }

  lemma {:induction false} CutsAgree(items: seq<Item<PosDelete>>, adds: seq<Addition>, k: Key, c: Path)
    requires HoldsDeletes(items, adds, k) && OnlyDeletes(items, adds, k)
    requires (exists d :: DataItem(d) in items && d.path == c) <==> exists s, d :: AddData(k, s, d) in adds && d.path == c
    ensures Cut(items, c) <==> CutAt(adds, k, c)
  {
    if y: PosDelete :| PosItem(y) in items && y.range.Some? && y.range.value.min == c {
      var t :| AddPos(k, t, y) in adds;
    }
    if t, y :| AddPos(k, t, y) in adds && y.range.Some? && y.range.value.min == c { assert PosItem(y) in items; }
    if CutAt(adds, k, c) {
      forall y | PosItem(y) in items ensures !Within(y, c) { var t :| AddPos(k, t, y) in adds; }
    }
  }

  lemma {:induction false} OptimisedAgrees(items: seq<Item<PosDelete>>, adds: seq<Addition>, k: Key)
    requires HoldsDeletes(items, adds, k) && OnlyDeletes(items, adds, k)
    ensures Optimised(items) <==> OptimisedAt(adds, k)
  {
    if Optimised(items) {
      var y: PosDelete :| PosItem(y) in items;
      var t :| AddPos(k, t, y) in adds;
    }
    if OptimisedAt(adds, k) {
      var t, y :| AddPos(k, t, y) in adds;
      assert PosItem(y) in items;
    }
  }

  lemma {:induction false} TogetherAgrees(adds: seq<Addition>, k: Key, p: Path, x: PosDelete)
    requires ResolvePartition(MergedLayers(Stored(adds), k)).Ok?
    ensures Together(Items(ResolvePartition(MergedLayers(Stored(adds), k)).value), p, x) <==>
            !SeparatedAt(adds, k, p, x)
  {
    var items := Items(ResolvePartition(MergedLayers(Stored(adds), k)).value);
    DeletesAgree(adds, k);
    OptimisedAgrees(items, adds, k);
    forall c ensures Cut(items, c) <==> CutAt(adds, k, c) {
      PartitionPath(adds, k, c);
      CutsAgree(items, adds, k, c);
    }
  }

  /** The delete applies to the file in partition `k`, still reaches some file, and is not parted
      from this one. */
  ghost predicate PairStays(adds: seq<Addition>, k: Key, d: DataEntry, x: PosDelete)
  {
    PositionalAt(adds, k, d, x) && Stays(adds, k, x) && !SeparatedAt(adds, k, d.path, x)
  }

  lemma {:induction false} LastsAgrees(adds: seq<Addition>, k: Key, d: DataEntry, x: PosDelete)
    requires ResolvePartition(MergedLayers(Stored(adds), k)).Ok? && OrderedAdditions(adds)
    ensures Lasts(Items(ResolvePartition(MergedLayers(Stored(adds), k)).value), d, x) <==> PairStays(adds, k, d, x)
  {
    PositionalInPartition(adds, k, d, x);
    if PositionalAt(adds, k, d, x) {
      var s, t :| s <= t && DataAdded(adds, k, s, d) && AddPos(k, t, x) in adds;
      StaysIsKept(adds, k, x);
      TogetherAgrees(adds, k, d.path, x);
    }
  }

  /** The pairs of one key's block. */
  lemma {:induction false} BlockPairsExactly(adds: seq<Addition>, k: Key, d: DataEntry, q: Path)
    requires KeyPlan(Stored(adds), k).Ok? && OrderedAdditions(adds)
    ensures Planned(KeyPlan(Stored(adds), k).value, d, PosItem(q)) <==>
            exists x: PosDelete :: x.path == q && PairStays(adds, k, d, x)
  {
    KeyPlanParts(Stored(adds), k);
    ResolvedRangesOrdered(adds, k);
    var part := ResolvePartition(MergedLayers(Stored(adds), k)).value;
    LayoutExactly(part, d, q);
    forall x: PosDelete ensures Lasts(Items(part), d, x) <==> PairStays(adds, k, d, x) { LastsAgrees(adds, k, d, x); }
  }

  ghost function Applying(d: DataEntry, q: Path): Partition<Path> -> bool
  {
    (part: Partition<Path>) => Applies(part, d, PosItem(q))
  }

  lemma {:induction false} PlannedIsAny(plan: seq<Partition<Path>>, d: DataEntry, q: Path)
    ensures Planned(plan, d, PosItem(q)) <==> Any(plan, Applying(d, q))
  {
    if p :| 0 <= p < |plan| && Applies(plan[p], d, PosItem(q)) { assert Applying(d, q)(plan[p]); }
    if p :| 0 <= p < |plan| && Applying(d, q)(plan[p]) { assert Applies(plan[p], d, PosItem(q)); }
  }

  lemma {:induction false} PositionalHasKey(adds: seq<Addition>, k: Key, d: DataEntry, x: PosDelete)
    requires PositionalAt(adds, k, d, x)
    ensures k in Stored(adds).partitions
  {
    var s, t :| s <= t && DataAdded(adds, k, s, d) && AddPos(k, t, x) in adds;
    KeyOfFile(adds, k, s, d);
  }

  /** The positional pairs of the plan: with ordered bounds, exactly those in which the delete belongs
      to the partition of the file, is not older, reaches some file of the partition, and is not
      parted from the file by a cut. */
  lemma {:induction false} PlanPairsExactly(adds: seq<Addition>, d: DataEntry, q: Path)
    requires BuilderPlan(Stored(adds)).Ok? && OrderedAdditions(adds)
    ensures Planned(BuilderPlan(Stored(adds)).value, d, PosItem(q)) <==>
            exists k, x: PosDelete :: x.path == q && PairStays(adds, k, d, x)
  {
    var st := Stored(adds);
    PlanIsBlocks(st);
    PlannedIsAny(BuilderPlan(st).value, d, q);
    AnyInBlocks(st, Keys(st), Applying(d, q));
    forall k | k in Keys(st)
      ensures Any(Block(st, k), Applying(d, q)) <==> exists x: PosDelete :: x.path == q && PairStays(adds, k, d, x)
    {
      PlannedIsAny(Block(st, k), d, q);
      BlockPairsExactly(adds, k, d, q);
    }
    if k, x: PosDelete :| x.path == q && PairStays(adds, k, d, x) { PositionalHasKey(adds, k, d, x); }
  }
}
