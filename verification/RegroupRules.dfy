/** Regrouping against what was added: exactly when it fails, and exactly which data files it puts
    into the shared partition. */
module RegroupRules {
  import opened Order
  import opened Permutations
  import opened Plan
  import opened Scanline
  import opened Buckets
  import opened Dangling
  import opened Builder
  import opened Resolve
  import opened Planner
  import opened Meaning
  import opened Conservation
  import opened ByKey
  import opened Referenced
  import opened RegroupMeaning
  import opened Scan
  import opened SameRegroup
  import opened RowDeletion

  // ----- One resolved partition and the plan partitions made of it -----

  /** The bucket of a file; a partition that is not optimised is its own only bucket. */
  function BucketOf(part: Partition<PosDelete>, item: Item<PosDelete>): int
    requires Split(part).Ok?
  {
    if CanOptimizePartition(part) then ItemBucket(LowerBounds(part).value, item) else 0
  }

  lemma {:induction false} InSplit(part: Partition<PosDelete>, g: nat, item: Item<PosDelete>)
    requires Split(part).Ok? && g < |Split(part).value|
    ensures item in Items(Split(part).value[g]) <==> item in Items(part) && BucketOf(part, item) == g
  {
    if CanOptimizePartition(part) {
      var bounds := LowerBounds(part).value;
      BucketStreams(bounds, Items(part), g);
      InBucketMembers(bounds, Items(part), g, item);
    }
  }

  lemma {:induction false} SplitApplies(part: Partition<PosDelete>, g: nat, d: DataEntry, x: PosDelete)
    requires Split(part).Ok? && g < |Split(part).value|
    ensures Applies(Split(part).value[g], d, PosItem(x)) <==>
            Applies(part, d, PosItem(x)) && BucketOf(part, DataItem(d)) == g && BucketOf(part, PosItem(x)) == g
  {
    if CanOptimizePartition(part) { SameBucketMeaning(part, g, d, PosItem(x)); }
  }

  /** A delete shares the bucket of every data file it covers. */
  lemma {:induction false} CoveredShareBucket(part: Partition<PosDelete>, d: DataEntry, x: PosDelete)
    requires Split(part).Ok? && DataItem(d) in Items(part) && PosItem(x) in Items(part) && Covers(x, d.path)
    ensures BucketOf(part, DataItem(d)) == BucketOf(part, PosItem(x))
  {
    if CanOptimizePartition(part) {
      var bounds := LowerBounds(part).value;
      PlacedItems(bounds, Items(part), DataItem(d));
      PlacedItems(bounds, Items(part), PosItem(x));
      UpperBoundMonotone(bounds, x.range.value.min, d.path);
      UpperBoundMonotone(bounds, d.path, x.range.value.max);
    }
  }

  /** A plan partition is a pruned bucket with data, and buckets keep their order. */
  lemma {:induction false} RemovalAt(parts: seq<Partition<PosDelete>>, p: nat) returns (g: nat)
    requires p < |RemoveDangling(parts)|
    ensures g < |parts| && HasData(parts[g]) && RemoveDangling(parts)[p] == PrunePartition(parts[g])
    ensures p == Count(parts[..g], WithData())
  {
    var init := parts[..|parts|-1];
    UnfoldDangling(parts);
    PartitionsCounted(init);
    if p < |RemoveDangling(init)| {
      g := RemovalAt(init, p);
      assert init[..g] == parts[..g];
    } else {
      g := |parts| - 1;
    }
  }

  lemma {:induction false} BlockAsBucket(part: Partition<PosDelete>, p: nat) returns (g: nat)
    requires Split(part).Ok? && Layout([part]).Ok? && p < |Layout([part]).value|
    ensures g < |Split(part).value| && HasData(Split(part).value[g])
    ensures Layout([part]).value[p] == PrunePartition(Split(part).value[g])
    ensures p == Count(Split(part).value[..g], WithData())
  {
    LayoutOne(part);
    g := RemovalAt(Split(part).value, p);
  }

  lemma {:induction false} LayoutSplits(part: Partition<PosDelete>)
    requires Layout([part]).Ok?
    ensures Split(part).Ok?
  {
    UnfoldOptimize([part]);
  }

  lemma {:induction false} PrunedData(part: Partition<PosDelete>, d: DataEntry)
    ensures DataItem(d) in Items(PrunePartition(part)) <==> DataItem(d) in Items(part)
  {
    PruneIsStreamwise(part);
    PruneKeepsData(Items(part), d);
  }

  /** Data files with one path, in one partition key, stand in one plan partition. */
  lemma {:induction false} SamePathSamePlace(part: Partition<PosDelete>, p: nat, q: nat, d: DataEntry, e: DataEntry)
    requires Layout([part]).Ok? && p < |Layout([part]).value| && q < |Layout([part]).value|
    requires DataItem(d) in Items(Layout([part]).value[p]) && DataItem(e) in Items(Layout([part]).value[q])
    requires d.path == e.path
    ensures p == q
  {
    LayoutSplits(part);
    var g := BlockAsBucket(part, p);
    var h := BlockAsBucket(part, q);
    PrunedData(Split(part).value[g], d);
    PrunedData(Split(part).value[h], e);
    InSplit(part, g, DataItem(d));
    InSplit(part, h, DataItem(e));
  }

  // ----- When regrouping fails -----

  /** Some data path occurs twice. */
  ghost predicate RepeatsPath(data: seq<DataEntry>)
  {
    exists q :: Count(data, HasPath(q)) > 1
  }

  lemma {:induction false} IndexCounts(part: Partition<Path>, refs: Refs, q: Path)
    requires IndexPartition(part, refs).Ok?
    ensures Count(DataOf(Items(part)), HasPath(q)) == if q in IndexPartition(part, refs).value.data then 1 else 0
  {
    if part != [] {
      var n := |part| - 1;
      var before := UnfoldIndex(part, refs, IndexPartition(part, refs).value);
      IndexCounts(part[..n], refs, q);
      IndexDataCounts(before.data, part[n].data, n, q);
      DataOfConcat(Items(part[..n]), LayerItems(part[n]));
      DataOfLayer(part[n]);
      CountConcat(DataOf(Items(part[..n])), part[n].data, HasPath(q));
    }
  }

  lemma {:induction false} LastLayerIndex(part: Partition<Path>, refs: Refs)
    requires part != [] && IndexPartition(part[..|part|-1], refs).Ok?
    requires forall q :: q in part[|part|-1].pos ==> q in refs
    ensures IndexPartition(part, refs).Err? <==> RepeatsPath(DataOf(Items(part)))
  {
    var n := |part| - 1;
    var index := IndexPartition(part[..n], refs).value;
    IndexDeletesSucceeds(index.deletes, refs, part[n].pos, n);
    IndexDataFailsExactly(index.data, part[n].data, n);
    DataOfConcat(Items(part[..n]), LayerItems(part[n]));
    DataOfLayer(part[n]);
    forall q
      ensures Count(DataOf(Items(part)), HasPath(q))
              == (if q in index.data then 1 else 0) + Count(part[n].data, HasPath(q))
    {
      IndexCounts(part[..n], refs, q);
      CountConcat(DataOf(Items(part[..n])), part[n].data, HasPath(q));
    }
  }

  lemma {:induction false} RepeatsLonger(s: seq<DataEntry>, t: seq<DataEntry>)
    requires RepeatsPath(s)
    ensures RepeatsPath(s + t)
  {
    var q :| Count(s, HasPath(q)) > 1;
    CountConcat(s, t, HasPath(q));
  }

  /** With all deletes annotated, indexing fails exactly on a repeated data path. */
  lemma {:induction false} IndexFailsExactly(part: Partition<Path>, refs: Refs)
    requires forall q :: PosItem(q) in Items(part) ==> q in refs
    ensures IndexPartition(part, refs).Err? <==> RepeatsPath(DataOf(Items(part)))
  {
    if part == [] {
      forall q ensures Count(DataOf(Items(part)), HasPath(q)) == 0 {}
    } else {
      var init, last := part[..|part|-1], part[|part|-1];
      forall q ensures PosItem(q) in Items(part) <==> PosItem(q) in Items(init) || q in last.pos {
        InConcat(Items(init), LayerItems(last), PosItem(q));
        LayerItemsHold(last, PosItem(q));
      }
      IndexFailsExactly(init, refs);
      if IndexPartition(init, refs).Ok? {
        LastLayerIndex(part, refs);
      } else {
        DataOfConcat(Items(init), LayerItems(last));
        RepeatsLonger(DataOf(Items(init)), DataOf(LayerItems(last)));
      }
    }
  }

  ghost function Repeating(): Partition<Path> -> bool
  {
    (part: Partition<Path>) => RepeatsPath(DataOf(Items(part)))
  }

  lemma {:induction false} RegroupStep(plan: seq<Partition<Path>>, refs: Refs)
    requires plan != []
    ensures RegroupAll(plan, refs).Err? <==>
            RegroupAll(plan[..|plan|-1], refs).Err? || IndexPartition(plan[|plan|-1], refs).Err?
  {
  }

  /** With all deletes annotated, regrouping fails exactly when a plan partition repeats a path. */
  lemma {:induction false} RegroupFailsExactly(plan: seq<Partition<Path>>, refs: Refs)
    requires forall q :: PosItem(q) in PlanItems(plan) ==> q in refs
    ensures RegroupAll(plan, refs).Err? <==> Any(plan, Repeating())
  {
    if plan != [] {
      var init, last := plan[..|plan|-1], plan[|plan|-1];
      forall q ensures PosItem(q) in PlanItems(plan) <==> PosItem(q) in PlanItems(init) || PosItem(q) in Items(last) {
        InConcat(PlanItems(init), Items(last), PosItem(q));
      }
      RegroupFailsExactly(init, refs);
      IndexFailsExactly(last, refs);
      RegroupStep(plan, refs);
      AnyLast(plan, Repeating());
    }
  }

  // ----- ... in terms of the additions -----

  lemma {:induction false} CountAllData(adds: seq<Addition>, vectors: Key -> Vectors, q: Path, i: nat, j: nat)
    requires i < j < |adds| && adds[i].AddData? && adds[j].AddData? && adds[i].d.path == adds[j].d.path == q
    ensures Count(AllData(adds, vectors), HasPath(q)) > 1
  {
    var init, last := adds[..|adds|-1], adds[|adds|-1];
    var more := if last.AddData? then [Attach(vectors(last.key), last.seqno, last.d)] else [];
    CountConcat(AllData(init, vectors), more, HasPath(q));
    if j < |adds| - 1 {
      CountAllData(init, vectors, q, i, j);
    } else {
      CountOneData(init, vectors, q, i);
      assert more[..0] == [];
    }
  }

  lemma {:induction false} CountOneData(adds: seq<Addition>, vectors: Key -> Vectors, q: Path, i: nat)
    requires i < |adds| && adds[i].AddData? && adds[i].d.path == q
    ensures Count(AllData(adds, vectors), HasPath(q)) > 0
  {
    var init, last := adds[..|adds|-1], adds[|adds|-1];
    var more := if last.AddData? then [Attach(vectors(last.key), last.seqno, last.d)] else [];
    CountConcat(AllData(init, vectors), more, HasPath(q));
    if i < |adds| - 1 {
      CountOneData(init, vectors, q, i);
    } else {
      assert more[..0] == [];
    }
  }

  lemma {:induction false} CountedData(adds: seq<Addition>, vectors: Key -> Vectors, q: Path) returns (i: nat)
    requires Count(AllData(adds, vectors), HasPath(q)) > 0
    ensures i < |adds| && adds[i].AddData? && adds[i].d.path == q
  {
    var d := CountPositive(AllData(adds, vectors), HasPath(q));
    AllDataPaths(adds, vectors, d);
    i :| 0 <= i < |adds| && adds[i].AddData? && adds[i].d.path == d.path;
  }

  lemma {:induction false} DistinctCounts(adds: seq<Addition>, vectors: Key -> Vectors, q: Path)
    requires DistinctPaths(adds)
    ensures Count(AllData(adds, vectors), HasPath(q)) <= 1
  {
    if adds != [] {
      var init, last := adds[..|adds|-1], adds[|adds|-1];
      DistinctCounts(init, vectors, q);
      if last.AddData? {
        CountSnoc(AllData(init, vectors), Attach(vectors(last.key), last.seqno, last.d), HasPath(q));
        if Count(AllData(init, vectors), HasPath(q)) > 0 {
          var i := CountedData(init, vectors, q);
          assert adds[i] == init[i] && adds[i].d.path != last.d.path;
        }
      } else {
        assert AllData(adds, vectors) == AllData(init, vectors) + [] == AllData(init, vectors);
      }
    }
  }

  /** A data path is repeated among additions exactly when it is among the data files. */
  lemma {:induction false} RepeatedAdditions(adds: seq<Addition>, vectors: Key -> Vectors)
    ensures RepeatsPath(AllData(adds, vectors)) <==> !DistinctPaths(adds)
  {
    if DistinctPaths(adds) {
      forall q ensures Count(AllData(adds, vectors), HasPath(q)) <= 1 { DistinctCounts(adds, vectors, q); }
    } else {
      var i, j :| 0 <= i < j < |adds| && adds[i].AddData? && adds[j].AddData? && adds[i].d.path == adds[j].d.path;
      CountAllData(adds, vectors, adds[i].d.path, i, j);
    }
  }

  lemma {:induction false} CountInPlan(plan: seq<Partition<Path>>, p: nat, f: DataEntry -> bool)
    requires p < |plan|
    ensures Count(DataOf(Items(plan[p])), f) <= Count(DataOf(PlanItems(plan)), f)
  {
    var init, last := plan[..|plan|-1], plan[|plan|-1];
    DataOfConcat(PlanItems(init), Items(last));
    CountConcat(DataOf(PlanItems(init)), DataOf(Items(last)), f);
    if p < |init| { CountInPlan(init, p, f); }
  }

  lemma {:induction false} CountPositive(s: seq<DataEntry>, f: DataEntry -> bool) returns (d: DataEntry)
    requires Count(s, f) > 0
    ensures d in s && f(d)
  {
    if f(s[|s|-1]) {
      d := s[|s|-1];
    } else {
      d := CountPositive(s[..|s|-1], f);
    }
  }

  /** All files of one path stand in one partition: the one with any has them all. */
  lemma {:induction false} CountConcentrated(plan: seq<Partition<Path>>, p: nat, f: DataEntry -> bool)
    requires p < |plan| && forall q :: 0 <= q < |plan| && q != p ==> Count(DataOf(Items(plan[q])), f) == 0
    ensures Count(DataOf(PlanItems(plan)), f) == Count(DataOf(Items(plan[p])), f)
  {
    var init, last := plan[..|plan|-1], plan[|plan|-1];
    DataOfConcat(PlanItems(init), Items(last));
    CountConcat(DataOf(PlanItems(init)), DataOf(Items(last)), f);
    if p < |init| {
      CountConcentrated(init, p, f);
    } else {
      CountNowhere(init, f);
    }
  }

  lemma {:induction false} CountNowhere(plan: seq<Partition<Path>>, f: DataEntry -> bool)
    requires forall q :: 0 <= q < |plan| ==> Count(DataOf(Items(plan[q])), f) == 0
    ensures Count(DataOf(PlanItems(plan)), f) == 0
  {
    if plan != [] {
      var init, last := plan[..|plan|-1], plan[|plan|-1];
      CountNowhere(init, f);
      DataOfConcat(PlanItems(init), Items(last));
      CountConcat(DataOf(PlanItems(init)), DataOf(Items(last)), f);
    }
  }

  lemma {:induction false} NoOthers(part: Partition<PosDelete>, p: nat, q: nat, r: Path)
    requires Layout([part]).Ok? && p < |Layout([part]).value| && q < |Layout([part]).value| && p != q
    requires Count(DataOf(Items(Layout([part]).value[p])), HasPath(r)) > 0
    ensures Count(DataOf(Items(Layout([part]).value[q])), HasPath(r)) == 0
  {
    var plan := Layout([part]).value;
    if Count(DataOf(Items(plan[q])), HasPath(r)) > 0 {
      var d := CountPositive(DataOf(Items(plan[p])), HasPath(r));
      var e := CountPositive(DataOf(Items(plan[q])), HasPath(r));
      DataOfMembers(Items(plan[p]), d);
      DataOfMembers(Items(plan[q]), e);
      SamePathSamePlace(part, p, q, d, e);
    }
  }

  lemma {:induction false} SomewhereCounted(plan: seq<Partition<Path>>, f: DataEntry -> bool) returns (p: nat)
    requires Count(DataOf(PlanItems(plan)), f) > 0
    ensures p < |plan| && Count(DataOf(Items(plan[p])), f) > 0
  {
    var init, last := plan[..|plan|-1], plan[|plan|-1];
    DataOfConcat(PlanItems(init), Items(last));
    CountConcat(DataOf(PlanItems(init)), DataOf(Items(last)), f);
    if Count(DataOf(Items(last)), f) > 0 {
      p := |init|;
    } else {
      p := SomewhereCounted(init, f);
    }
  }

  /** The plan partitions of one resolved partition repeat a path exactly if together they do. */
  lemma {:induction false} RepeatsTogether(part: Partition<PosDelete>)
    requires Layout([part]).Ok?
    ensures Any(Layout([part]).value, Repeating()) <==> RepeatsPath(DataOf(PlanItems(Layout([part]).value)))
  {
    var plan := Layout([part]).value;
    if Any(plan, Repeating()) {
      var p :| 0 <= p < |plan| && Repeating()(plan[p]);
      var r :| Count(DataOf(Items(plan[p])), HasPath(r)) > 1;
      CountInPlan(plan, p, HasPath(r));
    }
    if RepeatsPath(DataOf(PlanItems(plan))) {
      var r :| Count(DataOf(PlanItems(plan)), HasPath(r)) > 1;
      var p := SomewhereCounted(plan, HasPath(r));
      forall q | 0 <= q < |plan| && q != p ensures Count(DataOf(Items(plan[q])), HasPath(r)) == 0 {
        NoOthers(part, p, q, r);
      }
      CountConcentrated(plan, p, HasPath(r));
      assert Repeating()(plan[p]);
    }
  }

  lemma {:induction false} RepeatsPermuted(s: seq<DataEntry>, t: seq<DataEntry>)
    requires multiset(s) == multiset(t) && RepeatsPath(s)
    ensures RepeatsPath(t)
  {
    var q :| Count(s, HasPath(q)) > 1;
    CountPermutation(s, t, HasPath(q));
  }

  /** A block repeats a path in some plan partition exactly if its key was given one twice. */
  lemma {:induction false} BlockRepeats(adds: seq<Addition>, k: Key)
    requires KeyPlan(Stored(adds), k).Ok?
    ensures Any(Block(Stored(adds), k), Repeating()) <==> !DistinctPaths(OfKey(adds, k))
  {
    var vectors := j => VectorsOf(adds, j);
    KeyPlanParts(Stored(adds), k);
    var part := ResolvePartition(MergedLayers(Stored(adds), k)).value;
    RepeatsTogether(part);
    BlockKeepsData(adds, vectors, k);
    RepeatedAdditions(OfKey(adds, k), vectors);
    var s, t := DataOf(PlanItems(Block(Stored(adds), k))), AllData(OfKey(adds, k), vectors);
    if RepeatsPath(s) { RepeatsPermuted(s, t); }
    if RepeatsPath(t) { RepeatsPermuted(t, s); }
  }

  lemma {:induction false} KeyOfData(adds: seq<Addition>, k: Key)
    requires OfKey(adds, k) != []
    ensures k in Stored(adds).partitions
  {
    var a := OfKey(adds, k)[0];
    OfKeyMembers(adds, k, a);
    StoredExactly(adds, k, a.seqno);
  }

  lemma {:induction false} AnyInBlocks(st: State, keys: seq<Key>, f: Partition<Path> -> bool)
    ensures Any(Blocks(st, keys), f) <==> exists k :: k in keys && Any(Block(st, k), f)
  {
    if Any(Blocks(st, keys), f) {
      var p :| 0 <= p < |Blocks(st, keys)| && f(Blocks(st, keys)[p]);
      var k, q := BlockOf(st, keys, p);
      assert f(Block(st, k)[q]);
    }
    if k :| k in keys && Any(Block(st, k), f) {
      var i :| 0 <= i < |keys| && keys[i] == k;
      FlatMapAny(keys, BlockAt(st), i, f);
    }
  }

  lemma {:induction false} FlatMapAny<S, T>(s: seq<S>, g: S -> seq<T>, i: nat, f: T -> bool)
    requires i < |s| && Any(g(s[i]), f)
    ensures Any(FlatMap(s, g), f)
  {
    var init, last := FlatMap(s[..|s|-1], g), g(s[|s|-1]);
    if i < |s| - 1 {
      FlatMapAny(s[..|s|-1], g, i, f);
      var p :| 0 <= p < |init| && f(init[p]);
      assert f((init + last)[p]);
    } else {
      var p :| 0 <= p < |last| && f(last[p]);
      assert f((init + last)[|init| + p]);
    }
  }

  /** The builder's plan repeats a path in some plan partition exactly if some partition key was
      given one twice. */
  lemma {:induction false} PlanRepeats(adds: seq<Addition>)
    requires BuilderPlan(Stored(adds)).Ok?
    ensures Any(BuilderPlan(Stored(adds)).value, Repeating()) <==> exists k :: !DistinctPaths(OfKey(adds, k))
  {
    var st := Stored(adds);
    PlanIsBlocks(st);
    AnyInBlocks(st, Keys(st), Repeating());
    if k :| k in Keys(st) && Any(Block(st, k), Repeating()) { BlockRepeats(adds, k); }
    if k :| !DistinctPaths(OfKey(adds, k)) {
      KeyOfData(adds, k);
      BlockRepeats(adds, k);
    }
  }

  lemma {:induction false} RegroupOutcome(n: Notes, st: State)
    requires CanRegroup(n) && BuilderPlan(st).Ok?
    ensures FinalPlan(n, st).Err? <==> RegroupAll(BuilderPlan(st).value, n.refs).Err?
    ensures FinalPlan(n, st).Err? ==> FinalPlan(n, st).error == RegroupAll(BuilderPlan(st).value, n.refs).error
  {
  }

  /** A scan whose deletes allow regrouping, and whose builder finds a plan, fails exactly when two
      data files of one partition have the same path. */
  lemma {:induction false} RegroupedScanFails(entries: seq<Entry>, n: Notes, adds: seq<Addition>)
    requires Collected(entries, n, adds) && CanRegroup(n) && BuilderPlan(Stored(adds)).Ok?
    ensures FinalPlan(n, Stored(adds)).Err? <==> exists k :: !DistinctPaths(OfKey(adds, k))
    ensures FinalPlan(n, Stored(adds)).Err? ==> FinalPlan(n, Stored(adds)).error.DuplicateDataPath?
  {
    var meta := BuilderPlan(Stored(adds)).value;
    forall q | PosItem(q) in PlanItems(meta) ensures q in n.refs { PlanAnnotated(entries, n, adds, q); }
    AnnotatedPlanFails(n, adds);
    RegroupOutcome(n, Stored(adds));
    if RegroupAll(meta, n.refs).Err? { RegroupErrors(meta, n.refs); }
  }

  lemma {:induction false} AnnotatedPlanFails(n: Notes, adds: seq<Addition>)
    requires BuilderPlan(Stored(adds)).Ok?
    requires forall q :: PosItem(q) in PlanItems(BuilderPlan(Stored(adds)).value) ==> q in n.refs
    ensures RegroupAll(BuilderPlan(Stored(adds)).value, n.refs).Err? <==> exists k :: !DistinctPaths(OfKey(adds, k))
  {
    RegroupFailsExactly(BuilderPlan(Stored(adds)).value, n.refs);
    PlanRepeats(adds);
  }

  // ----- The shared partition -----

  /** A delete stays in the pruned stream: it has no bounds, or reaches a data file before it. */
  ghost predicate KeptIn(items: seq<Item<PosDelete>>, x: PosDelete)
  {
    PosItem(x) in items && (x.range.None? || exists d :: Before(items, d, PosItem(x)) && Reaches(x, d.path))
  }

  lemma {:induction false} PathIsData(items: seq<Item<PosDelete>>, p: Path) returns (d: DataEntry)
    requires p in PathsOf(items)
    ensures DataItem(d) in items && d.path == p
  {
    var last := items[|items|-1];
    if last.DataItem? && last.d.path == p {
      d := last.d;
    } else {
      d := PathIsData(items[..|items|-1], p);
    }
  }

  lemma {:induction false} LastIsKept(init: seq<Item<PosDelete>>, x: PosDelete)
    ensures !IsDangling({} + PathsOf(init), x) <==>
            x.range.None? || exists d :: DataItem(d) in init && Reaches(x, d.path)
  {
    assert {} + PathsOf(init) == PathsOf(init);
    DanglingExactly(PathsOf(init), x);
    if x.range.Some? {
      if p :| p in PathsOf(init) && Reaches(x, p) { var d := PathIsData(init, p); }
      if d :| DataItem(d) in init && Reaches(x, d.path) { PathsOfMembers(init, d); }
    }
  }

  lemma {:induction false} BeforeSnoc(init: seq<Item<PosDelete>>, item: Item<PosDelete>, d: DataEntry, x: PosDelete)
    ensures Before(init + [item], d, PosItem(x)) <==>
            Before(init, d, PosItem(x)) || (DataItem(d) in init && item == PosItem(x))
  {
    BeforeConcat(init, [item], d, PosItem(x));
    assert !Before([item], d, PosItem(x));
  }

  lemma {:induction false} KeptSnoc(init: seq<Item<PosDelete>>, item: Item<PosDelete>, x: PosDelete)
    ensures KeptIn(init + [item], x) <==> KeptIn(init, x) || (item == PosItem(x) && !IsDangling({} + PathsOf(init), x))
  {
    InConcat(init, [item], PosItem(x));
    LastIsKept(init, x);
    if x.range.Some? {
      forall d
        ensures Before(init + [item], d, PosItem(x)) <==>
                Before(init, d, PosItem(x)) || (DataItem(d) in init && item == PosItem(x))
      {
        BeforeSnoc(init, item, d, x);
      }
    }
  }

  /** The positional deletes of a pruned stream. */
  lemma {:induction false} PrunedDeletes(items: seq<Item<PosDelete>>, q: Path)
    ensures PosItem(q) in Prune(items) <==> exists x: PosDelete :: x.path == q && KeptIn(items, x)
  {
    if items != [] {
      var init, item := items[..|items|-1], items[|items|-1];
      PrunedDeletes(init, q);
      InConcat(Prune(init), PruneItem({} + PathsOf(init), item), PosItem(q));
      assert items == init + [item];
      forall x: PosDelete
        ensures KeptIn(items, x) <==> KeptIn(init, x) || (item == PosItem(x) && !IsDangling({} + PathsOf(init), x))
      {
        KeptSnoc(init, item, x);
      }
    }
  }

  lemma {:induction false} BucketKeeps(part: Partition<PosDelete>, g: nat, x: PosDelete)
    requires Split(part).Ok? && g < |Split(part).value| && KeptIn(Items(Split(part).value[g]), x)
    ensures KeptIn(Items(part), x)
  {
    var bucket := Split(part).value[g];
    InSplit(part, g, PosItem(x));
    if x.range.Some? {
      var d :| Before(Items(bucket), d, PosItem(x)) && Reaches(x, d.path);
      AppliesIsBefore(bucket, d, PosItem(x));
      SplitApplies(part, g, d, x);
      AppliesIsBefore(part, d, PosItem(x));
    }
  }

  lemma {:induction false} KeptInBucket(part: Partition<PosDelete>, g: nat, x: PosDelete)
    requires Split(part).Ok? && g < |Split(part).value| && KeptIn(Items(part), x)
    requires BucketOf(part, PosItem(x)) == g && OrderedRange(x)
    ensures KeptIn(Items(Split(part).value[g]), x)
  {
    var bucket := Split(part).value[g];
    InSplit(part, g, PosItem(x));
    if x.range.Some? {
      var d :| Before(Items(part), d, PosItem(x)) && Reaches(x, d.path);
      AppliesIsBefore(part, d, PosItem(x));
      assert DataItem(d) in Items(part);
      CoveredShareBucket(part, d, x);
      SplitApplies(part, g, d, x);
      AppliesIsBefore(bucket, d, PosItem(x));
    }
  }

  lemma {:induction false} ReferencingItems(part: Partition<Path>, refs: Refs, p: Path)
    ensures Referencing(part, refs, p) <==> exists q :: PosItem(q) in Items(part) && q in refs && refs[q] == p
  {
    if Referencing(part, refs, p) {
      var x: (Path, nat) :| References(part, refs, p, x);
      ItemsHold(part, PosItem(x.0));
      assert Holds(part[x.1], PosItem(x.0));
    }
    if q :| PosItem(q) in Items(part) && q in refs && refs[q] == p {
      ItemsHold(part, PosItem(q));
      var j :| 0 <= j < |part| && Holds(part[j], PosItem(q));
      assert References(part, refs, p, (q, j));
    }
  }

  /** Some delete that references the path stays. */
  ghost predicate Pursued(items: seq<Item<PosDelete>>, refs: Refs, p: Path)
  {
    exists x: PosDelete :: x.path in refs && refs[x.path] == p && KeptIn(items, x)
  }

  lemma {:induction false} PrunedReferencing(bucket: Partition<PosDelete>, refs: Refs, p: Path)
    ensures Referencing(PrunePartition(bucket), refs, p) <==> Pursued(Items(bucket), refs, p)
  {
    ReferencingItems(PrunePartition(bucket), refs, p);
    PruneIsStreamwise(bucket);
    if q :| PosItem(q) in Items(PrunePartition(bucket)) && q in refs && refs[q] == p {
      PrunedDeletes(Items(bucket), q);
    }
    if Pursued(Items(bucket), refs, p) {
      var x: PosDelete :| x.path in refs && refs[x.path] == p && KeptIn(Items(bucket), x);
      PrunedDeletes(Items(bucket), x.path);
      assert PosItem(x.path) in Items(PrunePartition(bucket));
    }
  }

  /** In the plan partition of a data file the deletes that reference it are those of its key. */
  lemma {:induction false} PursuedInPlan(part: Partition<PosDelete>, refs: Refs, d: DataEntry, p: nat)
    requires Layout([part]).Ok? && p < |Layout([part]).value| && DataItem(d) in Items(Layout([part]).value[p])
    requires forall x :: PosItem(x) in Items(part) && x.path in refs && refs[x.path] == d.path ==> Covers(x, d.path)
    ensures Referencing(Layout([part]).value[p], refs, d.path) <==> Pursued(Items(part), refs, d.path)
  {
    LayoutSplits(part);
    var g := BlockAsBucket(part, p);
    var bucket := Split(part).value[g];
    PrunedReferencing(bucket, refs, d.path);
    PrunedData(bucket, d);
    InSplit(part, g, DataItem(d));
    if Pursued(Items(bucket), refs, d.path) {
      var x: PosDelete :| x.path in refs && refs[x.path] == d.path && KeptIn(Items(bucket), x);
      BucketKeeps(part, g, x);
    }
    if Pursued(Items(part), refs, d.path) {
      var x: PosDelete :| x.path in refs && refs[x.path] == d.path && KeptIn(Items(part), x);
      CoveredShareBucket(part, d, x);
      CoversIsOrdered(x, d.path);
      KeptInBucket(part, g, x);
    }
  }

  lemma {:induction false} CoversIsOrdered(x: PosDelete, p: Path)
    requires Covers(x, p)
    ensures OrderedRange(x)
  {
    if x.range.Some? { LeqTransitive(x.range.value.min, p, x.range.value.max); }
  }

  // ----- ... in terms of the additions -----

  lemma {:induction false} PartitionDeletes(adds: seq<Addition>, k: Key, x: PosDelete)
    requires ResolvePartition(MergedLayers(Stored(adds), k)).Ok?
    ensures PosItem(x) in Items(ResolvePartition(MergedLayers(Stored(adds), k)).value) <==>
            exists t :: AddPos(k, t, x) in adds
  {
    var layers := MergedLayers(Stored(adds), k);
    var part := ResolvePartition(layers).value;
    if PosItem(x) in Items(part) { DeletesOfPartition(adds, k, x); }
    if t :| AddPos(k, t, x) in adds {
      DeleteAddedIsHeld(adds, k, t, PosItem(x));
      var i :| 0 <= i < |Numbers(layers)| && Numbers(layers)[i] == t;
      ResolvedHolds(layers, i, DataEntry([], [], None), PosItem(x));
      ItemsHold(part, PosItem(x));
    }
  }

  lemma {:induction false} PartitionFiles(adds: seq<Addition>, k: Key, d: DataEntry)
    requires ResolvePartition(MergedLayers(Stored(adds), k)).Ok?
    ensures DataItem(d) in Items(ResolvePartition(MergedLayers(Stored(adds), k)).value) <==>
            exists s :: DataAdded(adds, k, s, d)
  {
    var layers := MergedLayers(Stored(adds), k);
    var part := ResolvePartition(layers).value;
    ResolveExactly(layers);
    ItemsHold(part, DataItem(d));
    if DataItem(d) in Items(part) {
      var i :| 0 <= i < |part| && Holds(part[i], DataItem(d));
      ResolvedHolds(layers, i, d, EqItem(EqDelete([], [])));
      DataAddedIsCarried(adds, k, Numbers(layers)[i], d);
    }
    if s :| DataAdded(adds, k, s, d) {
      DataAddedIsCarried(adds, k, s, d);
      assert s in Numbers(layers);
      var i :| 0 <= i < |Numbers(layers)| && Numbers(layers)[i] == s;
      ResolvedHolds(layers, i, d, EqItem(EqDelete([], [])));
    }
  }

  /** A delete of partition `k` that no rewrite removes: it has no bounds, or covers a data file of
      the partition that is not newer. */
  ghost predicate Stays(adds: seq<Addition>, k: Key, x: PosDelete)
  {
    && (exists t :: AddPos(k, t, x) in adds)
    && (x.range.None? || exists d :: PositionalAt(adds, k, d, x) && Covers(x, d.path))
  }

  lemma {:induction false} PositionalInPartition(adds: seq<Addition>, k: Key, d: DataEntry, x: PosDelete)
    requires ResolvePartition(MergedLayers(Stored(adds), k)).Ok?
    ensures Before(Items(ResolvePartition(MergedLayers(Stored(adds), k)).value), d, PosItem(x)) <==>
            PositionalAt(adds, k, d, x)
  {
    var part := ResolvePartition(MergedLayers(Stored(adds), k)).value;
    AppliesIsBefore(part, d, PosItem(x));
    PartitionMeaning(adds, k, d, PosItem(x));
    if PairAdded(adds, k, d, PosItem(x)) {
      var s, t :| s <= t && DataAdded(adds, k, s, d) && DeleteAdded(adds, k, t, PosItem(x));
      assert AddPos(k, t, x) in adds;
    }
    if PositionalAt(adds, k, d, x) {
      var s, t :| s <= t && DataAdded(adds, k, s, d) && AddPos(k, t, x) in adds;
      assert DeleteAdded(adds, k, t, PosItem(x));
    }
  }

  lemma {:induction false} StaysInStream(items: seq<Item<PosDelete>>, adds: seq<Addition>, k: Key, x: PosDelete)
    requires PosItem(x) in items <==> exists t :: AddPos(k, t, x) in adds
    requires forall d :: Before(items, d, PosItem(x)) <==> PositionalAt(adds, k, d, x)
    requires OrderedRange(x)
    ensures KeptIn(items, x) <==> Stays(adds, k, x)
  {
    if x.range.Some? {
      if d :| Before(items, d, PosItem(x)) && Reaches(x, d.path) {
        assert PositionalAt(adds, k, d, x) && Covers(x, d.path);
      }
      if d :| PositionalAt(adds, k, d, x) && Covers(x, d.path) {
        assert Before(items, d, PosItem(x)) && Reaches(x, d.path);
      }
    }
  }

  lemma {:induction false} StaysIsKept(adds: seq<Addition>, k: Key, x: PosDelete)
    requires ResolvePartition(MergedLayers(Stored(adds), k)).Ok? && OrderedRange(x)
    ensures KeptIn(Items(ResolvePartition(MergedLayers(Stored(adds), k)).value), x) <==> Stays(adds, k, x)
  {
    var items := Items(ResolvePartition(MergedLayers(Stored(adds), k)).value);
    PartitionDeletes(adds, k, x);
    forall d ensures Before(items, d, PosItem(x)) <==> PositionalAt(adds, k, d, x) {
      PositionalInPartition(adds, k, d, x);
    }
    StaysInStream(items, adds, k, x);
  }

  /** The data file was added to partition `k`, needs no vector, and no delete of the partition that
      references it stays. */
  ghost predicate Untouched(adds: seq<Addition>, k: Key, refs: Refs, d: DataEntry)
  {
    && (exists s :: DataAdded(adds, k, s, d)) && d.dv.None?
    && !exists x: PosDelete :: x.path in refs && refs[x.path] == d.path && Stays(adds, k, x)
  }

  /** Every added delete that references the path has bounds that cover it. */
  ghost predicate ReferrersCover(adds: seq<Addition>, refs: Refs, p: Path)
  {
    forall k, s, x :: AddPos(k, s, x) in adds && x.path in refs && refs[x.path] == p ==> Covers(x, p)
  }

  lemma {:induction false} PursuedByAdditions(adds: seq<Addition>, k: Key, refs: Refs, p: Path)
    requires ResolvePartition(MergedLayers(Stored(adds), k)).Ok? && ReferrersCover(adds, refs, p)
    ensures Pursued(Items(ResolvePartition(MergedLayers(Stored(adds), k)).value), refs, p) <==>
            exists x: PosDelete :: x.path in refs && refs[x.path] == p && Stays(adds, k, x)
  {
    var items := Items(ResolvePartition(MergedLayers(Stored(adds), k)).value);
    forall x: PosDelete | x.path in refs && refs[x.path] == p ensures KeptIn(items, x) <==> Stays(adds, k, x) {
      PartitionDeletes(adds, k, x);
      if t :| AddPos(k, t, x) in adds {
        CoversIsOrdered(x, p);
        StaysIsKept(adds, k, x);
      }
    }
  }

  lemma {:induction false} UnaffectedInBlock(adds: seq<Addition>, k: Key, refs: Refs, d: DataEntry, p: nat)
    requires KeyPlan(Stored(adds), k).Ok? && ReferrersCover(adds, refs, d.path)
    requires p < |Block(Stored(adds), k)| && DataItem(d) in Items(Block(Stored(adds), k)[p])
    ensures Unaffected(Block(Stored(adds), k)[p], refs, d) <==> Untouched(adds, k, refs, d)
  {
    KeyPlanParts(Stored(adds), k);
    var part := ResolvePartition(MergedLayers(Stored(adds), k)).value;
    forall x | PosItem(x) in Items(part) && x.path in refs && refs[x.path] == d.path ensures Covers(x, d.path) {
      PartitionDeletes(adds, k, x);
    }
    PursuedInPlan(part, refs, d, p);
    PursuedByAdditions(adds, k, refs, d.path);
    DataOfBlock(part, d, p);
    PartitionFiles(adds, k, d);
  }

  lemma {:induction false} DataOfBlock(part: Partition<PosDelete>, d: DataEntry, p: nat)
    requires Layout([part]).Ok? && p < |Layout([part]).value| && DataItem(d) in Items(Layout([part]).value[p])
    ensures DataItem(d) in Items(part)
  {
    LayoutSplits(part);
    var g := BlockAsBucket(part, p);
    PrunedData(Split(part).value[g], d);
    InSplit(part, g, DataItem(d));
  }

  lemma {:induction false} BlockHoldsData(part: Partition<PosDelete>, d: DataEntry) returns (p: nat)
    requires Layout([part]).Ok? && DataItem(d) in Items(part)
    ensures p < |Layout([part]).value| && DataItem(d) in Items(Layout([part]).value[p])
  {
    LayoutConserves([part]);
    ItemsOfOne(part);
    DataOfMembers(Items(part), d);
    SameMembers(DataOf(PlanItems(Layout([part]).value)), DataOf(PlanItems([part])));
    DataOfMembers(PlanItems(Layout([part]).value), d);
    p := PlanItemsHold(Layout([part]).value, DataItem(d));
  }

  lemma {:induction false} UnaffectedInPlan(st: State, k: Key, refs: Refs, d: DataEntry, q: nat)
    requires BuilderPlan(st).Ok? && k in st.partitions && q < |Block(st, k)| && Unaffected(Block(st, k)[q], refs, d)
    ensures UnaffectedSomewhere(BuilderPlan(st).value, refs, d)
  {
    PlanIsBlocks(st);
    var f := (part: Partition<Path>) => Unaffected(part, refs, d);
    assert f(Block(st, k)[q]);
    AnyInBlocks(st, Keys(st), f);
    var p :| 0 <= p < |Blocks(st, Keys(st))| && f(Blocks(st, Keys(st))[p]);
  }

  lemma {:induction false} KeyOfFile(adds: seq<Addition>, k: Key, s: int, d: DataEntry)
    requires DataAdded(adds, k, s, d)
    ensures k in Stored(adds).partitions
  {
    var d0 :| AddData(k, s, d0) in adds && d == Attach(VectorsOf(adds, k), s, d0);
    StoredExactly(adds, k, s);
  }

  lemma {:induction false} UntouchedIsPlanned(adds: seq<Addition>, k: Key, refs: Refs, d: DataEntry)
    requires BuilderPlan(Stored(adds)).Ok? && ReferrersCover(adds, refs, d.path)
    requires Untouched(adds, k, refs, d)
    ensures UnaffectedSomewhere(BuilderPlan(Stored(adds)).value, refs, d)
  {
    var st := Stored(adds);
    var s :| DataAdded(adds, k, s, d);
    KeyOfFile(adds, k, s, d);
    PlanIsBlocks(st);
    KeyPlanParts(st, k);
    PartitionFiles(adds, k, d);
    var q := BlockHoldsData(ResolvePartition(MergedLayers(st, k)).value, d);
    UnaffectedInBlock(adds, k, refs, d, q);
    UnaffectedInPlan(st, k, refs, d, q);
  }

  /** The shared partition of a regrouped plan holds exactly the data files that need no vector and
      that no delete of their partition, among those that stay, references. */
  lemma {:induction false} SharedExactly(n: Notes, adds: seq<Addition>, d: DataEntry)
    requires BuilderPlan(Stored(adds)).Ok? && RegroupAll(BuilderPlan(Stored(adds)).value, n.refs).Ok?
    requires ReferrersCover(adds, n.refs, d.path)
    ensures d in RegroupAll(BuilderPlan(Stored(adds)).value, n.refs).value.shared <==>
            exists k :: Untouched(adds, k, n.refs, d)
  {
    var st := Stored(adds);
    var plan := BuilderPlan(st).value;
    RegroupAllMeaning(plan, n.refs, d, []);
    if UnaffectedSomewhere(plan, n.refs, d) {
      var p :| 0 <= p < |plan| && Unaffected(plan[p], n.refs, d);
      PlanIsBlocks(st);
      var k, q := BlockOf(st, Keys(st), p);
      UnaffectedInBlock(adds, k, n.refs, d, q);
    }
    if k :| Untouched(adds, k, n.refs, d) { UntouchedIsPlanned(adds, k, n.refs, d); }
  }
}
