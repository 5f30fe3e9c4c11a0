/** Distribution of a partition's files into buckets
    (`PositonalDeleteOptimizer::RedistributeDataIntoBuckets`) and the proof that it changes
    neither the files of the partition nor which deletes apply to which data files. */
module Buckets {
  import opened Order
  import opened Plan
  import opened Scanline

  /** `std::upper_bound`: how many leading bounds do not exceed `path`. */
  function UpperBound(bounds: seq<Path>, path: Path): (n: nat)
    ensures n <= |bounds|
  {
    if bounds == [] || !Leq(bounds[0], path) then 0 else 1 + UpperBound(bounds[1..], path)
  }

  /** `CalculateBucketByPath`; -1 stands for its internal error. */
  function Bucket(bounds: seq<Path>, path: Path): int
  {
    UpperBound(bounds, path) - 1
  }

  lemma {:induction false} UpperBoundMonotone(bounds: seq<Path>, p: Path, q: Path)
    requires Leq(p, q)
    ensures UpperBound(bounds, p) <= UpperBound(bounds, q)
  {
    if bounds != [] && Leq(bounds[0], p) {
      LeqTransitive(bounds[0], p, q);
      UpperBoundMonotone(bounds[1..], p, q);
    }
  }

  lemma {:induction false} UpperBoundUndivided(bounds: seq<Path>, p: Path, q: Path)
    requires Leq(p, q)
    requires forall k :: 0 <= k < |bounds| ==> Leq(bounds[k], p) || Less(q, bounds[k])
    ensures UpperBound(bounds, p) == UpperBound(bounds, q)
  {
    if bounds != [] {
      if Leq(bounds[0], p) { LeqTransitive(bounds[0], p, q); }
      UpperBoundUndivided(bounds[1..], p, q);
    }
  }

  function AppendData(bucket: Partition<PosDelete>, d: DataEntry): (r: Partition<PosDelete>)
    ensures r != []
  {
    if bucket == [] || bucket[|bucket|-1].pos != [] then
      bucket + [Layer([d], [], [])]
    else
      var last := bucket[|bucket|-1];
      bucket[..|bucket|-1] + [last.(data := last.data + [d])]
  }

  function AppendDelete(bucket: Partition<PosDelete>, x: PosDelete): (r: Partition<PosDelete>)
    ensures r != []
  {
    if bucket == [] then [Layer([], [x], [])] else
      var last := bucket[|bucket|-1];
      bucket[..|bucket|-1] + [last.(pos := last.pos + [x])]
  }

  ghost predicate NoEquality(part: Partition<PosDelete>)
  {
    forall i :: 0 <= i < |part| ==> part[i].eq == []
  }

  lemma {:induction false} ExtendLayerData(layer: Layer<PosDelete>, d: DataEntry)
    requires layer.pos == [] && layer.eq == []
    ensures LayerItems(layer.(data := layer.data + [d])) == LayerItems(layer) + [DataItem(d)]
  {
  }

  lemma {:induction false} ExtendLayerDeletes(layer: Layer<PosDelete>, x: PosDelete)
    requires layer.eq == []
    ensures LayerItems(layer.(pos := layer.pos + [x])) == LayerItems(layer) + [PosItem(x)]
  {
  }

  /** Replacing the last layer by a longer one lengthens the stream. */
  lemma {:induction false} ExtendLast(bucket: Partition<PosDelete>, layer: Layer<PosDelete>, item: Item<PosDelete>)
    requires bucket != [] && LayerItems(layer) == LayerItems(bucket[|bucket|-1]) + [item]
    ensures Items(bucket[..|bucket|-1] + [layer]) == Items(bucket) + [item]
  {
    ItemsSnoc(bucket[..|bucket|-1], layer);
    SeqAssociative(Items(bucket[..|bucket|-1]), LayerItems(bucket[|bucket|-1]), [item]);
  }

  lemma {:induction false} AppendDataItems(bucket: Partition<PosDelete>, d: DataEntry)
    requires NoEquality(bucket)
    ensures NoEquality(AppendData(bucket, d))
    ensures Items(AppendData(bucket, d)) == Items(bucket) + [DataItem(d)]
  {
    if bucket == [] || bucket[|bucket|-1].pos != [] {
      ItemsSnoc(bucket, Layer([d], [], []));
      ExtendLayerData(EmptyLayer(), d);
    } else {
      var last := bucket[|bucket|-1];
      ExtendLayerData(last, d);
      ExtendLast(bucket, last.(data := last.data + [d]), DataItem(d));
    }
  }

  lemma {:induction false} AppendDeleteItems(bucket: Partition<PosDelete>, x: PosDelete)
    requires NoEquality(bucket)
    ensures NoEquality(AppendDelete(bucket, x))
    ensures Items(AppendDelete(bucket, x)) == Items(bucket) + [PosItem(x)]
  {
    if bucket == [] {
      ItemsSnoc([], Layer([], [x], []));
      ExtendLayerDeletes(EmptyLayer(), x);
    } else {
      var last := bucket[|bucket|-1];
      ExtendLayerDeletes(last, x);
      ExtendLast(bucket, last.(pos := last.pos + [x]), PosItem(x));
    }
  }

  /** The bucket a file belongs to; equality deletes are never distributed. */
  function ItemBucket(bounds: seq<Path>, item: Item<PosDelete>): int
  {
    match item
    case DataItem(d) => Bucket(bounds, d.path)
    case PosItem(x) => if x.range.Some? then Bucket(bounds, x.range.value.min) else -1
    case EqItem(_) => -1
  }

  /** The internal checks made while distributing one file. */
  predicate Placeable(bounds: seq<Path>, item: Item<PosDelete>)
  {
    match item
    case DataItem(d) => Bucket(bounds, d.path) >= 0
    case PosItem(x) => x.range.Some? && 0 <= Bucket(bounds, x.range.value.min) == Bucket(bounds, x.range.value.max)
    case EqItem(_) => true
  }

  function Place(bounds: seq<Path>, buckets: seq<Partition<PosDelete>>, item: Item<PosDelete>)
    : (r: seq<Partition<PosDelete>>)
    requires |buckets| == |bounds| && Placeable(bounds, item)
    ensures |r| == |bounds|
  {
    var g := ItemBucket(bounds, item);
    match item
    case DataItem(d) => buckets[g := AppendData(buckets[g], d)]
    case PosItem(x) => buckets[g := AppendDelete(buckets[g], x)]
    case EqItem(_) => buckets
  }

  function PlaceOne(bounds: seq<Path>, buckets: seq<Partition<PosDelete>>, item: Item<PosDelete>): Distribution
    requires |buckets| == |bounds|
  {
    if Placeable(bounds, item) then Ok(Place(bounds, buckets, item)) else Err(InternalError)
  }

  type Distribution = Result<seq<Partition<PosDelete>>>

  /** Distribute the files of a stream one after another, starting from given buckets. */
  function PlaceAll(bounds: seq<Path>, start: seq<Partition<PosDelete>>, items: seq<Item<PosDelete>>): (r: Distribution)
    requires |start| == |bounds|
    ensures r.Ok? ==> |r.value| == |bounds|
  {
    if items == [] then Ok(start) else
      var item := items[|items|-1];
      match PlaceAll(bounds, start, items[..|items|-1])
      case Err(e) => Err(e)
      case Ok(buckets) => PlaceOne(bounds, buckets, item)
  }

  function NoFiles(n: nat): (r: seq<Partition<PosDelete>>)
    ensures |r| == n && forall i :: 0 <= i < n ==> r[i] == []
  {
    seq(n, _ => [])
  }

  function Redistribute(bounds: seq<Path>, items: seq<Item<PosDelete>>): (r: Distribution)
    ensures r.Ok? ==> |r.value| == |bounds|
  {
    PlaceAll(bounds, NoFiles(|bounds|), items)
  }

  /** The files of a stream that belong to bucket `g`, in stream order. */
  function InBucket(bounds: seq<Path>, items: seq<Item<PosDelete>>, g: int): seq<Item<PosDelete>>
  {
    if items == [] then [] else
      var item := items[|items|-1];
      InBucket(bounds, items[..|items|-1], g) + (if ItemBucket(bounds, item) == g then [item] else [])
  }

  lemma {:induction false} PlaceAllSnoc(bounds: seq<Path>, start: seq<Partition<PosDelete>>,
        items: seq<Item<PosDelete>>, item: Item<PosDelete>)
    requires |start| == |bounds|
    ensures PlaceAll(bounds, start, items).Err? ==>
            PlaceAll(bounds, start, items + [item]) == PlaceAll(bounds, start, items)
    ensures PlaceAll(bounds, start, items).Ok? ==>
      PlaceAll(bounds, start, items + [item]) == PlaceOne(bounds, PlaceAll(bounds, start, items).value, item)
  {
    assert (items + [item])[..|items|] == items;
  }

  function Continue(bounds: seq<Path>, r: Distribution, items: seq<Item<PosDelete>>): Distribution
    requires r.Ok? ==> |r.value| == |bounds|
  {
    if r.Ok? then PlaceAll(bounds, r.value, items) else r
  }

  lemma {:induction false} PlaceAllConcat(bounds: seq<Path>, start: seq<Partition<PosDelete>>, s: seq<Item<PosDelete>>,
        t: seq<Item<PosDelete>>)
    requires |start| == |bounds|
    ensures PlaceAll(bounds, start, s + t) == Continue(bounds, PlaceAll(bounds, start, s), t)
  {
    if t == [] {
      assert s + t == s;
    } else {
      var init, item := t[..|t|-1], t[|t|-1];
      assert s + t == (s + init) + [item];
      PlaceAllSnoc(bounds, start, s + init, item);
      PlaceAllConcat(bounds, start, s, init);
    }
  }

  lemma {:induction false} PlaceAllFails(bounds: seq<Path>, start: seq<Partition<PosDelete>>,
        items: seq<Item<PosDelete>>, n: nat)
    requires |start| == |bounds| && n <= |items| && PlaceAll(bounds, start, items[..n]).Err?
    ensures PlaceAll(bounds, start, items) == PlaceAll(bounds, start, items[..n])
  {
    assert items == items[..n] + items[n..];
    PlaceAllConcat(bounds, start, items[..n], items[n..]);
  }

  /** The loop body for one data file. */
  method DistributeData(bounds: seq<Path>, d: DataEntry, before: seq<Partition<PosDelete>>)
    returns (ok: bool, after: seq<Partition<PosDelete>>)
    requires |before| == |bounds|
    ensures ok == Placeable(bounds, DataItem(d))
    ensures ok ==> after == Place(bounds, before, DataItem(d))
  {
    var g := Bucket(bounds, d.path);
    if g < 0 {
      return false, before;
    }
    return true, before[g := AppendData(before[g], d)];
  }

  /** The loop body for one positional delete, with its check that both ends share a bucket. */
  method DistributeDelete(bounds: seq<Path>, x: PosDelete, before: seq<Partition<PosDelete>>)
    returns (ok: bool, after: seq<Partition<PosDelete>>)
    requires |before| == |bounds| && x.range.Some?
    ensures ok == Placeable(bounds, PosItem(x))
    ensures ok ==> after == Place(bounds, before, PosItem(x))
  {
    var g1, g2 := Bucket(bounds, x.range.value.min), Bucket(bounds, x.range.value.max);
    if g1 < 0 || g2 < 0 || g1 != g2 {
      return false, before;
    }
    return true, before[g1 := AppendDelete(before[g1], x)];
  }

  /** The loop over the data files of one layer. */
  method DistributeAllData(bounds: seq<Path>, data: seq<DataEntry>, start: seq<Partition<PosDelete>>)
    returns (r: Distribution)
    requires |start| == |bounds|
    ensures r == PlaceAll(bounds, start, DataItems(data))
  {
    var buckets := start;
    for i := 0 to |data|
      invariant |buckets| == |bounds| && PlaceAll(bounds, start, DataItems(data)[..i]) == Ok(buckets)
    {
      ghost var items := DataItems<PosDelete>(data);
      assert items[..i+1] == items[..i] + [DataItem(data[i])];
      PlaceAllSnoc(bounds, start, items[..i], DataItem(data[i]));
      var ok, after := DistributeData(bounds, data[i], buckets);
      if !ok {
        PlaceAllFails(bounds, start, items, i + 1);
        return Err(InternalError);
      }
      buckets := after;
    }
    assert DataItems<PosDelete>(data)[..|data|] == DataItems(data);
    return Ok(buckets);
  }

  /** The loop over the positional deletes of one layer. */
  method DistributeAllDeletes(bounds: seq<Path>, pos: seq<PosDelete>, start: seq<Partition<PosDelete>>)
    returns (r: Distribution)
    requires |start| == |bounds| && forall i :: 0 <= i < |pos| ==> pos[i].range.Some?
    ensures r == PlaceAll(bounds, start, PosItems(pos))
  {
    var buckets := start;
    for i := 0 to |pos|
      invariant |buckets| == |bounds| && PlaceAll(bounds, start, PosItems(pos)[..i]) == Ok(buckets)
    {
      ghost var items := PosItems(pos);
      assert items[..i+1] == items[..i] + [PosItem(pos[i])];
      PlaceAllSnoc(bounds, start, items[..i], PosItem(pos[i]));
      var ok, after := DistributeDelete(bounds, pos[i], buckets);
      if !ok {
        PlaceAllFails(bounds, start, items, i + 1);
        return Err(InternalError);
      }
      buckets := after;
    }
    assert PosItems(pos)[..|pos|] == PosItems(pos);
    return Ok(buckets);
  }

  lemma {:induction false} PlaceLayer(bounds: seq<Path>, start: seq<Partition<PosDelete>>, layer: Layer<PosDelete>)
    requires |start| == |bounds| && layer.eq == []
    ensures PlaceAll(bounds, start, LayerItems(layer))
         == Continue(bounds, PlaceAll(bounds, start, DataItems(layer.data)), PosItems(layer.pos))
  {
    assert LayerItems(layer) == DataItems(layer.data) + PosItems(layer.pos);
    PlaceAllConcat(bounds, start, DataItems(layer.data), PosItems(layer.pos));
  }

  lemma {:induction false} LaterLayersFail(bounds: seq<Path>, part: Partition<PosDelete>, l: nat)
    requires l <= |part| && Redistribute(bounds, Items(part[..l])).Err?
    ensures Redistribute(bounds, Items(part)) == Redistribute(bounds, Items(part[..l]))
  {
    if l == |part| {
      assert part[..l] == part;
    } else {
      var init := part[..|part|-1];
      assert init[..l] == part[..l];
      LaterLayersFail(bounds, init, l);
      PlaceAllConcat(bounds, NoFiles(|bounds|), Items(init), LayerItems(part[|part|-1]));
    }
  }

  lemma {:induction false} RedistributeLayer(bounds: seq<Path>, part: Partition<PosDelete>, l: nat, r: Distribution)
    requires l < |part| && part[l].eq == [] && r.Ok? && |r.value| == |bounds|
    requires r == Redistribute(bounds, Items(part[..l]))
    ensures Redistribute(bounds, Items(part[..l+1]))
         == Continue(bounds, PlaceAll(bounds, r.value, DataItems(part[l].data)), PosItems(part[l].pos))
  {
    PlaceLayer(bounds, r.value, part[l]);
    PlaceAllConcat(bounds, NoFiles(|bounds|), Items(part[..l]), LayerItems(part[l]));
    assert part[..l+1] == part[..l] + [part[l]];
    ItemsSnoc(part[..l], part[l]);
  }

  /** `RedistributeDataIntoBuckets`, loops as in the original. */
  method RedistributeDataIntoBuckets(bounds: seq<Path>, part: Partition<PosDelete>) returns (r: Distribution)
    requires Ranged(part) && NoEquality(part)
    ensures r == Redistribute(bounds, Items(part))
  {
    r := Ok(NoFiles(|bounds|));
    for l := 0 to |part|
      invariant r.Ok? && |r.value| == |bounds| && r == Redistribute(bounds, Items(part[..l]))
    {
      RedistributeLayer(bounds, part, l, r);
      r := DistributeAllData(bounds, part[l].data, r.value);
      if r.Ok? {
        r := DistributeAllDeletes(bounds, part[l].pos, r.value);
      }
      if r.Err? {
        LaterLayersFail(bounds, part, l + 1);
        return;
      }
    }
    assert part[..|part|] == part;
  }

  lemma {:induction false} PlaceExtendsStream(bounds: seq<Path>, buckets: seq<Partition<PosDelete>>,
        item: Item<PosDelete>, g: nat)
    requires |buckets| == |bounds| && g < |bounds| && NoEquality(buckets[g]) && Placeable(bounds, item)
    ensures NoEquality(Place(bounds, buckets, item)[g])
    ensures Items(Place(bounds, buckets, item)[g])
         == Items(buckets[g]) + (if ItemBucket(bounds, item) == g then [item] else [])
  {
    match item
    case DataItem(d) => AppendDataItems(buckets[g], d);
    case PosItem(x) => AppendDeleteItems(buckets[g], x);
    case EqItem(_) =>
  }

  /** Each bucket's stream is exactly the sub-stream of the files that belong to it. */
  lemma {:induction false} BucketStreams(bounds: seq<Path>, items: seq<Item<PosDelete>>, g: nat)
    requires Redistribute(bounds, items).Ok? && g < |bounds|
    ensures NoEquality(Redistribute(bounds, items).value[g])
    ensures Items(Redistribute(bounds, items).value[g]) == InBucket(bounds, items, g)
  {
    if items == [] {
      assert Redistribute(bounds, items).value[g] == [];
    } else {
      var init, item := items[..|items|-1], items[|items|-1];
      BucketStreams(bounds, init, g);
      var before := Redistribute(bounds, init).value;
      PlaceExtendsStream(bounds, before, item, g);
      assert Redistribute(bounds, items).value == Place(bounds, before, item);
    }
  }

  lemma {:induction false} UnplaceLast(bounds: seq<Path>, items: seq<Item<PosDelete>>, after: seq<Partition<PosDelete>>)
    returns (before: seq<Partition<PosDelete>>)
    requires items != [] && Redistribute(bounds, items) == Ok(after)
    ensures Redistribute(bounds, items[..|items|-1]) == Ok(before) && |before| == |bounds|
    ensures Placeable(bounds, items[|items|-1]) && after == Place(bounds, before, items[|items|-1])
  {
    before := Redistribute(bounds, items[..|items|-1]).value;
  }

  /** Distribution neither loses nor duplicates a file. */
  lemma {:induction false} StreamsConserved(bounds: seq<Path>, items: seq<Item<PosDelete>>,
        buckets: seq<Partition<PosDelete>>)
    requires Redistribute(bounds, items) == Ok(buckets)
    requires forall i :: 0 <= i < |items| ==> !items[i].EqItem?
    ensures multiset(PlanItems(buckets)) == multiset(items)
  {
    if items == [] {
      EmptyBuckets(buckets);
    } else {
      var init, item := items[..|items|-1], items[|items|-1];
      var before := UnplaceLast(bounds, items, buckets);
      StreamsConserved(bounds, init, before);
      BucketStreams(bounds, init, ItemBucket(bounds, item));
      PlaceConserves(bounds, before, item);
      SplitLast(items);
    }
  }

  lemma {:induction false} PlaceConserves(bounds: seq<Path>, before: seq<Partition<PosDelete>>, item: Item<PosDelete>)
    requires |before| == |bounds| && Placeable(bounds, item) && !item.EqItem?
    requires NoEquality(before[ItemBucket(bounds, item)])
    ensures multiset(PlanItems(Place(bounds, before, item))) == multiset(PlanItems(before)) + multiset{item}
  {
    var g := ItemBucket(bounds, item);
    var after := Place(bounds, before, item);
    PlaceExtendsStream(bounds, before, item, g);
    assert after == before[g := after[g]];
    GrowBucket(before, g, after[g], item);
  }

  lemma {:induction false} EmptyBuckets(buckets: seq<Partition<PosDelete>>)
    requires forall i :: 0 <= i < |buckets| ==> buckets[i] == []
    ensures PlanItems(buckets) == []
  {
    if buckets != [] { EmptyBuckets(buckets[..|buckets|-1]); }
  }

  lemma {:induction false} GrowBucket(buckets: seq<Partition<PosDelete>>, g: nat, grown: Partition<PosDelete>,
        item: Item<PosDelete>)
    requires g < |buckets| && Items(grown) == Items(buckets[g]) + [item]
    ensures multiset(PlanItems(buckets[g := grown])) == multiset(PlanItems(buckets)) + multiset{item}
  {
    PlanItemsAround(buckets, g, buckets[g]);
    PlanItemsAround(buckets, g, grown);
    assert buckets == buckets[g := buckets[g]];
  }

  lemma {:induction false} PlanItemsAround(buckets: seq<Partition<PosDelete>>, g: nat, b: Partition<PosDelete>)
    requires g < |buckets|
    ensures PlanItems(buckets[g := b]) == PlanItems(buckets[..g]) + Items(b) + PlanItems(buckets[g+1..])
  {
    assert buckets[g := b] == (buckets[..g] + [b]) + buckets[g+1..];
    PlanItemsConcat(buckets[..g] + [b], buckets[g+1..]);
    PlanItemsSnoc(buckets[..g], b);
  }

  lemma {:induction false} InBucketMembers(bounds: seq<Path>, items: seq<Item<PosDelete>>, g: int, x: Item<PosDelete>)
    ensures x in InBucket(bounds, items, g) <==> x in items && ItemBucket(bounds, x) == g
  {
    if items != [] {
      var n := |items| - 1;
      InBucketMembers(bounds, items[..n], g, x);
      assert items == items[..n] + [items[n]];
    }
  }

  /** Selecting a bucket keeps the relative order of its files. */
  lemma {:induction false} InBucketKeepsOrder(bounds: seq<Path>, items: seq<Item<PosDelete>>, g: int, d: DataEntry,
        x: Item<PosDelete>)
    requires !x.DataItem?
    ensures Before(InBucket(bounds, items, g), d, x) <==>
            Before(items, d, x) && ItemBucket(bounds, DataItem(d)) == g && ItemBucket(bounds, x) == g
  {
    if items != [] {
      var n := |items| - 1;
      var init, item := items[..n], items[n];
      InBucketKeepsOrder(bounds, init, g, d, x);
      InBucketMembers(bounds, init, g, DataItem(d));
      var kept := if ItemBucket(bounds, item) == g then [item] else [];
      assert items == init + [item];
      BeforeConcat(init, [item], d, x);
      BeforeConcat(InBucket(bounds, init, g), kept, d, x);
      assert !Before(kept, d, x) && !Before([item], d, x);
    }
  }

  // ----- OptimizePartition -----

  predicate CanOptimizePartition(part: Partition<PosDelete>)
  {
    && (exists i :: 0 <= i < |part| && part[i].pos != [])
    && Ranged(part)
    && (forall i :: 0 <= i < |part| ==> part[i].eq == [])
  }

  function OptimizePartition(part: Partition<PosDelete>): Result<seq<Partition<PosDelete>>>
    requires CanOptimizePartition(part)
  {
    match LowerBounds(part)
    case Err(e) => Err(e)
    case Ok(bounds) => Redistribute(bounds, Items(part))
  }

  /** Two files in the same bucket keep their layer order, whatever the ranges are. */
  lemma {:induction false} SameBucketMeaning(part: Partition<PosDelete>, g: nat, d: DataEntry, x: Item<PosDelete>)
    requires CanOptimizePartition(part) && OptimizePartition(part).Ok? && !x.DataItem?
    requires g < |OptimizePartition(part).value|
    ensures Applies(OptimizePartition(part).value[g], d, x) <==>
            && Applies(part, d, x)
            && ItemBucket(LowerBounds(part).value, DataItem(d)) == g
            && ItemBucket(LowerBounds(part).value, x) == g
  {
    var bounds := LowerBounds(part).value;
    BucketStreams(bounds, Items(part), g);
    InBucketKeepsOrder(bounds, Items(part), g, d, x);
    AppliesIsBefore(part, d, x);
    AppliesIsBefore(OptimizePartition(part).value[g], d, x);
  }

  lemma {:induction false} PlacedItems(bounds: seq<Path>, items: seq<Item<PosDelete>>, x: Item<PosDelete>)
    requires Redistribute(bounds, items).Ok? && x in items
    ensures Placeable(bounds, x)
  {
    if items[|items|-1] != x { PlacedItems(bounds, items[..|items|-1], x); }
  }

  /** The optimiser preserves meaning on every partition it accepts: a covered pair applies in
      some bucket exactly when it applied before, and no pair is invented. */
  lemma {:induction false} OptimizePreservesMeaning(part: Partition<PosDelete>, d: DataEntry, x: PosDelete)
    requires CanOptimizePartition(part) && OptimizePartition(part).Ok?
    ensures Planned(OptimizePartition(part).value, d, PosItem(x)) ==> Applies(part, d, PosItem(x))
    ensures Covers(x, d.path) ==>
      (Applies(part, d, PosItem(x)) <==> Planned(OptimizePartition(part).value, d, PosItem(x)))
  {
    var bounds, buckets := LowerBounds(part).value, OptimizePartition(part).value;
    forall g | 0 <= g < |buckets| && Applies(buckets[g], d, PosItem(x)) ensures Applies(part, d, PosItem(x)) {
      SameBucketMeaning(part, g, d, PosItem(x));
    }
    if Covers(x, d.path) && Applies(part, d, PosItem(x)) {
      AppliesIsBefore(part, d, PosItem(x));
      PlacedItems(bounds, Items(part), DataItem(d));
      PlacedItems(bounds, Items(part), PosItem(x));
      var r := x.range.value;
      UpperBoundMonotone(bounds, r.min, d.path);
      UpperBoundMonotone(bounds, d.path, r.max);
      SameBucketMeaning(part, Bucket(bounds, d.path), d, PosItem(x));
    }
  }

  lemma {:induction false} OptimizeConservesFiles(part: Partition<PosDelete>)
    requires CanOptimizePartition(part) && OptimizePartition(part).Ok?
    ensures multiset(PlanItems(OptimizePartition(part).value)) == multiset(Items(part))
  {
    forall i | 0 <= i < |Items(part)| ensures !Items(part)[i].EqItem? {
      ItemsHold(part, Items(part)[i]);
    }
    StreamsConserved(LowerBounds(part).value, Items(part), OptimizePartition(part).value);
  }

  // ----- With ordered ranges the optimiser always succeeds -----

  lemma {:induction false} EventOfItem(part: Partition<PosDelete>, item: Item<PosDelete>)
    requires Ranged(part) && item in Items(part) && !item.EqItem?
    ensures item.DataItem? ==> Event(DataFile, item.d.path) in Events(part)
    ensures item.PosItem? ==> item.p.range.Some? && Event(StartDelete, item.p.range.value.min) in Events(part)
  {
    var n := |part| - 1;
    if item in Items(part[..n]) {
      EventOfItem(part[..n], item);
    } else {
      var layer := part[n];
      LayerItemsHold(layer, item);
      match item {
        case DataItem(d) =>
          var i :| 0 <= i < |layer.data| && layer.data[i] == d;
          assert DataEvents(layer.data)[i] == Event(DataFile, d.path);
        case PosItem(x) =>
          var i :| 0 <= i < |layer.pos| && layer.pos[i] == x;
          EventOfDelete(layer.pos, i);
      }
    }
  }

  lemma {:induction false} EventOfDelete(pos: seq<PosDelete>, i: nat)
    requires i < |pos| && forall k :: 0 <= k < |pos| ==> pos[k].range.Some?
    ensures Event(StartDelete, pos[i].range.value.min) in DeleteEvents(pos)
  {
    if i < |pos| - 1 { EventOfDelete(pos[..|pos|-1], i); }
  }

  /** No path of the partition lies below the first bound, so a bucket is always found. */
  lemma {:induction false} BoundsReachEveryPath(part: Partition<PosDelete>, e: Event)
    requires Ranged(part) && LowerBounds(part).Ok? && e in Events(part)
    ensures Bucket(LowerBounds(part).value, e.path) >= 0
  {
    var E := SortedEvents(part);
    EventsAreOrdered();
    SortIsSorted(Events(part), EventLeq);
    assert e in multiset(E);
    var k :| 0 <= k < |E| && E[k] == e;
    BoundsAreSorted(E);
    LeqReflexive(e.path);
    if k > 0 { assert EventLeq(E[0], E[k]); }
  }

  lemma {:induction false} UpperBoundDivided(bounds: seq<Path>, p: Path, q: Path, k: nat)
    requires SortedBy(bounds, Leq) && k < |bounds| && Less(p, bounds[k]) && Leq(bounds[k], q)
    ensures UpperBound(bounds, p) <= k < UpperBound(bounds, q)
  {
    if k > 0 {
      assert Leq(bounds[0], bounds[k]);
      LeqTransitive(bounds[0], bounds[k], q);
      UpperBoundDivided(bounds[1..], p, q, k - 1);
    }
  }

  lemma {:induction false} BoundsOfPartition(part: Partition<PosDelete>)
    requires Ranged(part) && LowerBounds(part).Ok?
    ensures SortedBy(LowerBounds(part).value, Leq)
  {
    EventsAreOrdered();
    SortIsSorted(Events(part), EventLeq);
    BoundsAreSorted(SortedEvents(part));
  }

  lemma {:induction false} ItemIsPlaceable(part: Partition<PosDelete>, item: Item<PosDelete>)
    requires Ranged(part) && Shields(part) && LowerBounds(part).Ok? && item in Items(part)
    ensures Placeable(LowerBounds(part).value, item)
  {
    var bounds := LowerBounds(part).value;
    match item {
      case DataItem(d) =>
        EventOfItem(part, item);
        BoundsReachEveryPath(part, Event(DataFile, d.path));
      case PosItem(x) =>
        EventOfItem(part, item);
        BoundsReachEveryPath(part, Event(StartDelete, x.range.value.min));
        DeleteUndivided(part, x);
      case EqItem(_) =>
    }
  }

  lemma {:induction false} DeleteUndivided(part: Partition<PosDelete>, x: PosDelete)
    requires Ranged(part) && Shields(part) && LowerBounds(part).Ok? && PosItem(x) in Items(part) && x.range.Some?
    ensures UpperBound(LowerBounds(part).value, x.range.value.min)
            == UpperBound(LowerBounds(part).value, x.range.value.max)
  {
    var bounds, r := LowerBounds(part).value, x.range.value;
    LeqTotal(r.min, r.max);
    forall k | 0 <= k < |bounds| ensures Leq(bounds[k], Lower(r)) || Less(Upper(r), bounds[k]) {
      if Inside(x, bounds[k]) { var e := BoundInside(part, bounds[k]); }
    }
    UpperBoundUndivided(bounds, Lower(r), Upper(r));
  }

  lemma {:induction false} RedistributeSucceeds(bounds: seq<Path>, items: seq<Item<PosDelete>>)
    requires forall i :: 0 <= i < |items| ==> Placeable(bounds, items[i])
    ensures Redistribute(bounds, items).Ok?
  {
    if items != [] { RedistributeSucceeds(bounds, items[..|items|-1]); }
  }

  /** A bound between a delete's two bounds makes the check `bucket_1 == bucket_2` fire. */
  lemma {:induction false} PlaceableShields(part: Partition<PosDelete>, x: PosDelete, e: Event)
    requires Ranged(part) && LowerBounds(part).Ok? && Placeable(LowerBounds(part).value, PosItem(x))
    requires e in Events(part) && e.kind != EndDelete && Inside(x, e.path)
    ensures Open(Events(part), e) > 0
  {
    if Open(Events(part), e) <= 0 {
      var bounds, r := LowerBounds(part).value, x.range.value;
      UnshieldedBound(part, e);
      BoundsOfPartition(part);
      var k :| 0 <= k < |bounds| && bounds[k] == e.path;
      UpperBoundDivided(bounds, Lower(r), Upper(r), k);
    }
  }

  /** The optimiser succeeds exactly when no range is closed before it was opened and every file
      that begins inside a delete's bounds does so within an open range.  Both conditions count
      starts and ends of the input's ranges. */
  lemma {:induction false} OptimizeExactly(part: Partition<PosDelete>)
    requires CanOptimizePartition(part)
    ensures OptimizePartition(part).Ok? <==> Closes(part) && Shields(part)
  {
    LowerBoundsExactly(part);
    if OptimizePartition(part).Ok? {
      forall x, e | PosItem(x) in Items(part) && e in Events(part) && e.kind != EndDelete && Inside(x, e.path)
        ensures Open(Events(part), e) > 0
      {
        PlacedItems(LowerBounds(part).value, Items(part), PosItem(x));
        PlaceableShields(part, x, e);
      }
    }
    if Closes(part) && Shields(part) {
      forall i | 0 <= i < |Items(part)| ensures Placeable(LowerBounds(part).value, Items(part)[i]) {
        ItemIsPlaceable(part, Items(part)[i]);
      }
      RedistributeSucceeds(LowerBounds(part).value, Items(part));
    }
  }

  lemma {:induction false} OrderedShields(part: Partition<PosDelete>, x: PosDelete, e: Event)
    requires Ranged(part) && OrderedRanges(part) && PosItem(x) in Items(part)
    requires e in Events(part) && e.kind != EndDelete && Inside(x, e.path)
    ensures Open(Events(part), e) > 0
  {
    ItemsHold(part, PosItem(x));
    var l :| 0 <= l < |part| && Holds(part[l], PosItem(x));
    var i :| 0 <= i < |part[l].pos| && part[l].pos[i] == x;
    assert OrderedRange(x);
    if !Straddles(x, e) { InsideStraddles(x, e); }
    EventsStraddled(part, e, l, i);
  }

  /** Every internal check of the optimiser, `bucket_1 == bucket_2` included, holds whenever each
      delete range has min <= max. */
  lemma {:induction false} OptimizeSucceeds(part: Partition<PosDelete>)
    requires CanOptimizePartition(part) && OrderedRanges(part)
    ensures OptimizePartition(part).Ok?
  {
    OptimizeExactly(part);
    forall e | e in Events(part) && e.kind == EndDelete ensures Open(Events(part), e) >= 0 {
      EventsBalanced(part, e);
    }
    forall x, e | PosItem(x) in Items(part) && e in Events(part) && e.kind != EndDelete && Inside(x, e.path)
      ensures Open(Events(part), e) > 0
    {
      OrderedShields(part, x, e);
    }
  }

  // ----- Inverted bounds -----

  /** A delete whose bounds are inverted and enclosed by other ranges goes through: the check for
      inverted bounds is only the balance of all ranges. */
  lemma {:induction false} EnclosedInversionSucceeds()
    ensures var part := InvertedButEnclosed();
      CanOptimizePartition(part) && !OrderedRanges(part) && OptimizePartition(part).Ok?
  {
    var part := InvertedButEnclosed();
    assert part[0].pos != [];
    var x := part[0].pos[2];
    LayerItemsHold(part[0], PosItem(x));
    ItemsSnoc([], part[0]);
    assert [] + [part[0]] == part;
    assert !OrderedRange(x);
    EnclosedCloses();
    EnclosedShields();
    OptimizeExactly(part);
  }

  function InvertedButEnclosed(): Partition<PosDelete>
  {
    [Layer([], [Bounded("a", "z"), Bounded("a", "z"), Bounded("m", "c")], [])]
  }

  function Bounded(min: Path, max: Path): PosDelete { PosDelete("x", Some(Range(min, max))) }

  /** What one delete adds to the number of open ranges. */
  function Adds(x: PosDelete, e: Event): int
    requires x.range.Some?
  {
    (if StartBelow(e)(Event(StartDelete, x.range.value.min)) then 1 else 0)
    - (if EndUpTo(e)(Event(EndDelete, x.range.value.max)) then 1 else 0)
  }

  lemma {:induction false} OpenSnoc(pos: seq<PosDelete>, x: PosDelete, e: Event)
    requires (forall k :: 0 <= k < |pos| ==> pos[k].range.Some?) && x.range.Some?
    ensures DeleteEvents(pos + [x])
            == DeleteEvents(pos) + [Event(StartDelete, x.range.value.min), Event(EndDelete, x.range.value.max)]
    ensures Open(DeleteEvents(pos + [x]), e) == Open(DeleteEvents(pos), e) + Adds(x, e)
  {
    assert (pos + [x])[..|pos|] == pos;
    var start, end := Event(StartDelete, x.range.value.min), Event(EndDelete, x.range.value.max);
    CountTwo(DeleteEvents(pos), start, end, StartBelow(e));
    CountTwo(DeleteEvents(pos), start, end, EndUpTo(e));
  }

  function Both(x: PosDelete): seq<Event>
    requires x.range.Some?
  {
    [Event(StartDelete, x.range.value.min), Event(EndDelete, x.range.value.max)]
  }

  lemma {:induction false} OpenThree(x: PosDelete, y: PosDelete, z: PosDelete, e: Event)
    requires x.range.Some? && y.range.Some? && z.range.Some?
    ensures Open(DeleteEvents([x, y, z]), e) == Adds(x, e) + Adds(y, e) + Adds(z, e)
    ensures DeleteEvents([x, y, z]) == [] + Both(x) + Both(y) + Both(z)
  {
    OpenSnoc([], x, e);
    OpenSnoc([] + [x], y, e);
    OpenSnoc([] + [x] + [y], z, e);
    ThreeOf(x, y, z);
  }

  lemma {:induction false} EventsOfOne(pos: seq<PosDelete>)
    requires forall k :: 0 <= k < |pos| ==> pos[k].range.Some?
    ensures Ranged([Layer([], pos, [])]) && Events([Layer([], pos, [])]) == DeleteEvents(pos)
  {
    var part: Partition<PosDelete> := [Layer([], pos, [])];
    assert part[..0] == [];
    assert Events(part) == Events(part[..0]) + (DeleteEvents(pos) + DataEvents([]));
    assert DeleteEvents(pos) + DataEvents([]) == DeleteEvents(pos);
    assert [] + DeleteEvents(pos) == DeleteEvents(pos);
  }

  lemma {:induction false} EventOfThree(x: PosDelete, y: PosDelete, z: PosDelete, e: Event)
    requires x.range.Some? && y.range.Some? && z.range.Some?
    ensures e in [] + Both(x) + Both(y) + Both(z) <==> e in Both(x) || e in Both(y) || e in Both(z)
  {
    InConcat([] + Both(x) + Both(y), Both(z), e);
    InConcat([] + Both(x), Both(y), e);
    InConcat([], Both(x), e);
  }

  /** The events of the three ranges, and how many are open at each. */
  lemma {:induction false} EnclosedEvents(e: Event)
    ensures var x, y, part := Bounded("a", "z"), Bounded("m", "c"), InvertedButEnclosed();
      && Ranged(part) && (e in Events(part) <==> e in Both(x) || e in Both(y))
      && Open(Events(part), e) == Adds(x, e) + Adds(x, e) + Adds(y, e)
  {
    var x, y := Bounded("a", "z"), Bounded("m", "c");
    OpenThree(x, x, y, e);
    EventsOfOne([x, x, y]);
    EventOfThree(x, x, y, e);
  }

  lemma {:induction false} EnclosedCloses()
    ensures Closes(InvertedButEnclosed())
  {
    var x, y := Bounded("a", "z"), Bounded("m", "c");
    var part := InvertedButEnclosed();
    EnclosedEvents(Event(DataFile, []));
    forall e | e in Events(part) && e.kind == EndDelete ensures Open(Events(part), e) >= 0 {
      EnclosedEvents(e);
      assert e == Event(EndDelete, "z") || e == Event(EndDelete, "c");
    }
  }

  lemma {:induction false} EnclosedDelete(d: PosDelete)
    requires PosItem(d) in Items(InvertedButEnclosed())
    ensures d == Bounded("a", "z") || d == Bounded("m", "c")
  {
    ItemsHold(InvertedButEnclosed(), PosItem(d));
  }

  lemma {:induction false} EnclosedShields()
    ensures Shields(InvertedButEnclosed())
  {
    var part := InvertedButEnclosed();
    EnclosedEvents(Event(DataFile, []));
    forall d, e | PosItem(d) in Items(part) && e in Events(part) && e.kind != EndDelete && Inside(d, e.path)
      ensures Open(Events(part), e) > 0
    {
      EnclosedEvents(e);
      EnclosedDelete(d);
      if e.path == "a" { LowestIsOutside(d); }
      assert e == Event(StartDelete, "m");
    }
  }

  lemma {:induction false} LowestIsOutside(d: PosDelete)
    requires d == Bounded("a", "z") || d == Bounded("m", "c")
    ensures !Inside(d, "a")
  {
  }

  /** A single delete with min > max makes the scan stop with its internal error. */
  lemma {:induction false} InvertedRangeFails(x: PosDelete)
    requires x.range.Some? && !OrderedRange(x)
    ensures CanOptimizePartition([Layer([], [x], [])]) && OptimizePartition([Layer([], [x], [])]) == Err(InternalError)
  {
    var part: Partition<PosDelete> := [Layer([], [x], [])];
    assert part[0].pos != [];
    var r := x.range.value;
    var start, end := Event(StartDelete, r.min), Event(EndDelete, r.max);
    assert DeleteEvents([x]) == [start, end];
    assert Events(part) == [start, end] by {
      assert part[..0] == [];
      assert Events(part) == Events(part[..0]) + (DeleteEvents(part[0].pos) + DataEvents(part[0].data));
    }
    LeqTotal(r.min, r.max);
    SortsAs(start, end);
    assert SortedEvents(part) == [end, start];
    FirstEndFails(end, [end, start]);
  }

  lemma {:induction false} SortsAs(start: Event, end: Event)
    requires !EventLeq(start, end)
    ensures Sort([start, end], EventLeq) == [end, start]
  {
    assert [start, end][1..] == [end] && [end][1..] == [];
    assert Sort([end], EventLeq) == Insert(end, Sort([], EventLeq), EventLeq) == [end];
    assert Insert(start, [end], EventLeq) == [end] + Insert(start, [], EventLeq);
  }

  lemma {:induction false} FirstEndFails(end: Event, events: seq<Event>)
    requires end.kind == EndDelete && events != [] && events[0] == end
    ensures ScanEvents(events) == Err(InternalError)
  {
    assert events[..1] == [end] && [end][..0] == [];
    assert ScanEvents([end]) == Err(InternalError);
    ScanFailurePersists(events, 1);
  }
}
