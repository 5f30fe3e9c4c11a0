/** How the plan depends on the order of the entries: whether there is one does not depend on it,
    and the plan itself does exactly when two vectors are both newest for a data file. */
module VectorOrder {
  import opened Order
  import opened Permutations
  import opened Plan
  import opened Scanline
  import opened Buckets
  import opened Builder
  import opened Resolve
  import opened Planner
  import opened Meaning
  import opened Conservation
  import opened ByKey
  import opened Referenced
  import opened Scan
  import opened SamePlans
  import opened SameRegroup
  import opened RowDeletion
  import opened RegroupRules
  import opened Clauses

  // ----- Whether there is a plan -----

  lemma {:induction false} MixedSame(adds: seq<Addition>, adds': seq<Addition>, k: Key, s: int)
    requires multiset(adds) == multiset(adds') && MixedLayer(adds, k, s)
    ensures MixedLayer(adds', k, s)
  {
    SameMembers(adds, adds');
    var d :| AddData(k, s, d) in adds && Matches(VectorsOf(adds, k), s, d);
    MatchesSame(adds, adds', k, s, d);
    var x: Item<PosDelete> :| DeleteAdded(adds, k, s, x);
    assert DeleteAdded(adds', k, s, x);
  }

  function Undress(data: seq<DataEntry>): (r: seq<DataEntry>)
    ensures |r| == |data| && forall i :: 0 <= i < |data| ==> r[i] == data[i].(dv := None)
  {
    seq(|data|, i requires 0 <= i < |data| => data[i].(dv := None))
  }

  /** The partition without its vectors. */
  function Undressed(part: Partition<PosDelete>): (r: Partition<PosDelete>)
    ensures |r| == |part| && forall i :: 0 <= i < |part| ==> r[i] == part[i].(data := Undress(part[i].data))
  {
    seq(|part|, i requires 0 <= i < |part| => part[i].(data := Undress(part[i].data)))
  }

  lemma {:induction false} UndressedRanges(part: Partition<PosDelete>)
    ensures Ranged(Undressed(part)) <==> Ranged(part)
    ensures CanOptimizePartition(Undressed(part)) <==> CanOptimizePartition(part)
  {
    forall i | 0 <= i < |part|
      ensures HasRanges(Undressed(part)[i]) <==> HasRanges(part[i])
      ensures Undressed(part)[i].pos == part[i].pos && Undressed(part)[i].eq == part[i].eq
    {
    }
    if i :| 0 <= i < |part| && part[i].pos != [] { assert Undressed(part)[i].pos != []; }
  }

  lemma {:induction false} UndressedEvents(part: Partition<PosDelete>)
    requires Ranged(part) && Ranged(Undressed(part))
    ensures Events(Undressed(part)) == Events(part)
  {
    if part != [] {
      var n := |part| - 1;
      assert Undressed(part)[..n] == Undressed(part[..n]);
      UndressedEvents(part[..n]);
      assert DataEvents(Undress(part[n].data)) == DataEvents(part[n].data);
    }
  }

  lemma {:induction false} UndressedDeletes(part: Partition<PosDelete>, x: PosDelete)
    ensures PosItem(x) in Items(Undressed(part)) <==> PosItem(x) in Items(part)
  {
    ItemsHold(part, PosItem(x));
    ItemsHold(Undressed(part), PosItem(x));
    if i :| 0 <= i < |part| && Holds(part[i], PosItem(x)) { assert Holds(Undressed(part)[i], PosItem(x)); }
  }

  /** The optimiser does not look at vectors. */
  lemma {:induction false} UndressedDivisible(part: Partition<PosDelete>)
    ensures Divisible(Undressed(part)) <==> Divisible(part)
  {
    UndressedRanges(part);
    if CanOptimizePartition(part) {
      UndressedEvents(part);
      forall x ensures PosItem(x) in Items(Undressed(part)) <==> PosItem(x) in Items(part) {
        UndressedDeletes(part, x);
      }
    }
  }

  lemma {:induction false} DivisibleSame(p: Partition<PosDelete>, q: Partition<PosDelete>)
    requires SamePartition(p, q)
    ensures Divisible(p) <==> Divisible(q)
  {
    CanOptimizeSame(p, q);
    SplitSame(p, q);
    if CanOptimizePartition(p) {
      OptimizeExactly(p);
      OptimizeExactly(q);
    }
  }

  function UndressOne(): DataEntry -> seq<DataEntry> { (d: DataEntry) => [d.(dv := None)] }

  lemma {:induction false} UndressIsFlatMap(data: seq<DataEntry>)
    ensures Undress(data) == FlatMap(data, UndressOne())
  {
    if data != [] {
      UndressIsFlatMap(data[..|data|-1]);
      assert Undress(data) == Undress(data[..|data|-1]) + [data[|data|-1].(dv := None)];
    }
  }

  lemma {:induction false} UndressedLayerSame(current: Vectors, current': Vectors, s: int, l: StoredLayer,
        m: StoredLayer)
    requires SameLayer(l.files, m.files)
    ensures multiset(Undress(ResolvedLayer(current, s, l).data))
            == multiset(Undress(ResolvedLayer(current', s, m).data))
  {
    assert Undress(AttachAll(current, s, l.files.data)) == Undress(l.files.data);
    assert Undress(AttachAll(current', s, m.files.data)) == Undress(m.files.data);
    UndressIsFlatMap(l.files.data);
    UndressIsFlatMap(m.files.data);
    FlatMapPermutation(l.files.data, m.files.data, UndressOne());
  }

  lemma {:induction false} UndressedSame(a: Layers, b: Layers)
    requires SameLayers(a, b) && ResolvePartition(a).Ok? && ResolvePartition(b).Ok?
    ensures SamePartition(Undressed(ResolvePartition(a).value), Undressed(ResolvePartition(b).value))
  {
    var p, q := ResolvePartition(a).value, ResolvePartition(b).value;
    ResolveExactly(a);
    ResolveExactly(b);
    assert Numbers(a) == Numbers(b);
    forall i | 0 <= i < |p| ensures SameLayer(Undressed(p)[i], Undressed(q)[i]) {
      var s := Numbers(a)[i];
      assert s in a && s in b;
      UndressedLayerSame(CurrentVectors(a), CurrentVectors(b), s, a[s], b[s]);
    }
  }

  lemma {:induction false} DivisibleAlike(adds: seq<Addition>, adds': seq<Addition>, k: Key)
    requires multiset(adds) == multiset(adds')
    requires ResolvePartition(MergedLayers(Stored(adds), k)).Ok? && ResolvePartition(MergedLayers(Stored(adds'), k)).Ok?
    ensures Divisible(ResolvePartition(MergedLayers(Stored(adds), k)).value)
       <==> Divisible(ResolvePartition(MergedLayers(Stored(adds'), k)).value)
  {
    var a, b := MergedLayers(Stored(adds), k), MergedLayers(Stored(adds'), k);
    MergedSame(adds, adds', k);
    UndressedSame(a, b);
    UndressedDivisible(ResolvePartition(a).value);
    UndressedDivisible(ResolvePartition(b).value);
    DivisibleSame(Undressed(ResolvePartition(a).value), Undressed(ResolvePartition(b).value));
  }

  lemma {:induction false} PlanKept(adds: seq<Addition>, adds': seq<Addition>)
    requires multiset(adds) == multiset(adds') && BuilderPlan(Stored(adds)).Ok?
    ensures BuilderPlan(Stored(adds')).Ok?
  {
    PlanExistsExactly(adds);
    PlanExistsExactly(adds');
    forall k, s ensures !MixedLayer(adds', k, s) {
      if MixedLayer(adds', k, s) { MixedSame(adds', adds, k, s); }
    }
    forall k | k in Stored(adds').partitions && ResolvePartition(MergedLayers(Stored(adds'), k)).Ok?
      ensures Divisible(ResolvePartition(MergedLayers(Stored(adds'), k)).value)
    {
      MergedKeys(adds, adds', k, 0);
      ResolveFailsOnMixed(adds, k);
      DivisibleAlike(adds, adds', k);
    }
  }

  // ----- Whether it can be regrouped -----

  function OneOfKey(k: Key): Addition -> seq<Addition> { (a: Addition) => if DataOfKey(a, k) then [a] else [] }

  lemma {:induction false} OfKeyIsFlatMap(adds: seq<Addition>, k: Key)
    ensures OfKey(adds, k) == FlatMap(adds, OneOfKey(k))
  {
    if adds != [] {
      OfKeyIsFlatMap(adds[..|adds|-1], k);
      assert OfKey(adds[..|adds|-1], k) + [] == OfKey(adds[..|adds|-1], k);
    }
  }

  function Dress(vectors: Key -> Vectors): Addition -> seq<DataEntry>
  {
    (a: Addition) => if a.AddData? then [Attach(vectors(a.key), a.seqno, a.d)] else []
  }

  lemma {:induction false} AllDataIsFlatMap(adds: seq<Addition>, vectors: Key -> Vectors)
    ensures AllData(adds, vectors) == FlatMap(adds, Dress(vectors))
  {
    if adds != [] { AllDataIsFlatMap(adds[..|adds|-1], vectors); }
  }

  lemma {:induction false} AllDataPermuted(adds: seq<Addition>, adds': seq<Addition>, vectors: Key -> Vectors)
    requires multiset(adds) == multiset(adds')
    ensures multiset(AllData(adds, vectors)) == multiset(AllData(adds', vectors))
  {
    AllDataIsFlatMap(adds, vectors);
    AllDataIsFlatMap(adds', vectors);
    FlatMapPermutation(adds, adds', Dress(vectors));
  }

  lemma {:induction false} DistinctPermuted(adds: seq<Addition>, adds': seq<Addition>, k: Key)
    requires multiset(adds) == multiset(adds') && DistinctPaths(OfKey(adds, k))
    ensures DistinctPaths(OfKey(adds', k))
  {
    var none: Key -> Vectors := (j: Key) => map[];
    OfKeyIsFlatMap(adds, k);
    OfKeyIsFlatMap(adds', k);
    FlatMapPermutation(adds, adds', OneOfKey(k));
    AllDataPermuted(OfKey(adds, k), OfKey(adds', k), none);
    RepeatedAdditions(OfKey(adds, k), none);
    RepeatedAdditions(OfKey(adds', k), none);
    if RepeatsPath(AllData(OfKey(adds', k), none)) {
      RepeatsPermuted(AllData(OfKey(adds', k), none), AllData(OfKey(adds, k), none));
    }
  }

  /** All deletes of the plan are annotated, in whatever order they were added. */
  ghost predicate Covered(adds: seq<Addition>, refs: Refs)
  {
    forall k, s, x :: AddPos(k, s, x) in adds ==> x.path in refs
  }

  lemma {:induction false} RegroupOkExactly(n: Notes, adds: seq<Addition>)
    requires BuilderPlan(Stored(adds)).Ok? && CanRegroup(n) && Covered(adds, n.refs)
    ensures FinalPlan(n, Stored(adds)).Ok? <==> forall k :: DistinctPaths(OfKey(adds, k))
  {
    forall q | PosItem(q) in PlanItems(BuilderPlan(Stored(adds)).value) ensures q in n.refs { DeletesOfPlan(adds, q); }
    AnnotatedPlanFails(n, adds);
    RegroupOutcome(n, Stored(adds));
  }

  lemma {:induction false} FinalPlanKept(n: Notes, adds: seq<Addition>, adds': seq<Addition>)
    requires multiset(adds) == multiset(adds') && FinalPlan(n, Stored(adds)).Ok?
    requires CanRegroup(n) ==> Covered(adds, n.refs) && Covered(adds', n.refs)
    ensures FinalPlan(n, Stored(adds')).Ok?
  {
    PlanKept(adds, adds');
    if CanRegroup(n) {
      RegroupOkExactly(n, adds);
      RegroupOkExactly(n, adds');
      forall k ensures DistinctPaths(OfKey(adds', k)) { DistinctPermuted(adds, adds', k); }
    }
  }

  lemma {:induction false} CollectedAreCovered(entries: seq<Entry>, n: Notes, adds: seq<Addition>)
    requires Collected(entries, n, adds) && n.allAnnotated
    ensures Covered(adds, n.refs)
  {
    forall k, s, x | AddPos(k, s, x) in adds ensures x.path in n.refs { AllReferenced(entries, n, adds, k, s, x); }
  }

  /** Whether a scan has a plan does not depend on the order in which its entries are stored. */
  lemma {:induction false} FinalPlanExistsAlike(entries: seq<Entry>, n: Notes, adds: seq<Addition>,
        adds': seq<Addition>)
    requires Collected(entries, n, adds) && multiset(adds) == multiset(adds')
    ensures FinalPlan(n, Stored(adds)).Ok? <==> FinalPlan(n, Stored(adds')).Ok?
  {
    SameMembers(adds, adds');
    if CanRegroup(n) { CollectedAreCovered(entries, n, adds); }
    if FinalPlan(n, Stored(adds)).Ok? { FinalPlanKept(n, adds, adds'); }
    if FinalPlan(n, Stored(adds')).Ok? { FinalPlanKept(n, adds', adds); }
  }

  // ----- The vector stored last -----

  function VectorAt(adds: seq<Addition>, k: Key, s: int, p: Path): Option<DeletionVector>
  {
    if p in Gathered(adds, k, s).dvs then Some(Gathered(adds, k, s).dvs[p]) else None
  }

  predicate IsVector(a: Addition, k: Key, s: int, p: Path)
  {
    a.AddDv? && a.key == k && a.seqno == s && a.dv.referenced == p
  }

  lemma {:induction false} VectorAtSnoc(adds: seq<Addition>, a: Addition, k: Key, s: int, p: Path)
    ensures VectorAt(adds + [a], k, s, p) == if IsVector(a, k, s, p) then Some(a.dv) else VectorAt(adds, k, s, p)
  {
    assert (adds + [a])[..|adds|] == adds;
  }

  lemma {:induction false} VectorAtConcat(left: seq<Addition>, right: seq<Addition>, k: Key, s: int, p: Path)
    ensures VectorAt(left + right, k, s, p)
            == if VectorAt(right, k, s, p).Some? then VectorAt(right, k, s, p) else VectorAt(left, k, s, p)
  {
    if right == [] {
      assert left + right == left;
    } else {
      var init, a := right[..|right|-1], right[|right|-1];
      VectorAtConcat(left, init, k, s, p);
      assert left + right == (left + init) + [a];
      assert right == init + [a];
      VectorAtSnoc(left + init, a, k, s, p);
      VectorAtSnoc(init, a, k, s, p);
    }
  }

  /** One addition moved to the end. */
  function Postponed(adds: seq<Addition>, i: nat): seq<Addition>
    requires i < |adds|
  {
    (adds[..i] + adds[i+1..]) + [adds[i]]
  }

  lemma {:induction false} PostponedSame(adds: seq<Addition>, i: nat)
    requires i < |adds|
    ensures multiset(Postponed(adds, i)) == multiset(adds)
  {
    assert adds == adds[..i] + [adds[i]] + adds[i+1..];
  }

  lemma {:induction false} PostponedVector(adds: seq<Addition>, i: nat, k: Key, s: int, p: Path)
    requires i < |adds|
    ensures VectorAt(Postponed(adds, i), k, s, p)
            == if IsVector(adds[i], k, s, p) then Some(adds[i].dv) else VectorAt(adds, k, s, p)
  {
    var left, a, right := adds[..i], adds[i], adds[i+1..];
    assert adds == (left + [a]) + right;
    VectorAtSnoc(left + right, a, k, s, p);
    VectorAtConcat(left, right, k, s, p);
    VectorAtConcat(left + [a], right, k, s, p);
    VectorAtSnoc(left, a, k, s, p);
  }

  /** Of several newest vectors the one stored last is offered. */
  lemma {:induction false} LastStoredWins(adds: seq<Addition>, k: Key, p: Path, s: int)
    requires HighestAdded(adds, k, p, s)
    ensures p in VectorsOf(adds, k) && VectorsOf(adds, k)[p].1 == s
    ensures VectorAt(adds, k, s, p) == Some(VectorsOf(adds, k)[p].0)
  {
    var layers := MergedLayers(Stored(adds), k);
    VectorsOfExactly(adds, k, p, s);
    VectorsAreHighest(layers, p, s);
    MergedContents(adds, k, s);
  }

  // ----- Postponing a contested vector changes the plan -----

  /** Addition `i` is a vector that is newest for its path, and not the one stored last. */
  ghost predicate Loses(adds: seq<Addition>, i: nat)
  {
    && i < |adds| && adds[i].AddDv?
    && HighestAdded(adds, adds[i].key, adds[i].dv.referenced, adds[i].seqno)
    && VectorAt(adds, adds[i].key, adds[i].seqno, adds[i].dv.referenced) != Some(adds[i].dv)
  }

  /** The files that get vector `i` once it is postponed. */
  predicate Taken(a: Addition, d: DataEntry, k: Key, s: int)
    requires a.AddDv?
  {
    k == a.key && d.path == a.dv.referenced && s <= a.seqno
  }

  lemma {:induction false} PostponedNumber(adds: seq<Addition>, i: nat, k: Key, s: int, d: DataEntry)
    requires i < |adds|
    ensures Matches(VectorsOf(Postponed(adds, i), k), s, d) <==> Matches(VectorsOf(adds, k), s, d)
  {
    PostponedSame(adds, i);
    var adds' := Postponed(adds, i);
    if Matches(VectorsOf(adds, k), s, d) { MatchesSame(adds, adds', k, s, d); }
    if Matches(VectorsOf(adds', k), s, d) { MatchesSame(adds', adds, k, s, d); }
  }

  lemma {:induction false} PostponedAttach(adds: seq<Addition>, i: nat, k: Key, s: int, d: DataEntry)
    requires Loses(adds, i)
    ensures Taken(adds[i], d, k, s) ==>
      && Attach(VectorsOf(adds, k), s, d).dv.Some? && Attach(VectorsOf(adds, k), s, d).dv != Some(adds[i].dv)
      && Attach(VectorsOf(Postponed(adds, i), k), s, d) == d.(dv := Some(adds[i].dv))
    ensures !Taken(adds[i], d, k, s) ==>
            Attach(VectorsOf(Postponed(adds, i), k), s, d) == Attach(VectorsOf(adds, k), s, d)
  {
    var adds' := Postponed(adds, i);
    if Taken(adds[i], d, k, s) { LastStoredWins(adds, k, d.path, adds[i].seqno); }
    PostponedNumber(adds, i, k, s, d);
    if Matches(VectorsOf(adds, k), s, d) {
      var v := VectorsOf(adds, k)[d.path].1;
      VectorsOfExactly(adds, k, d.path, v);
      LastStoredWins(adds, k, d.path, v);
      PostponedSame(adds, i);
      HighestSame(adds, adds', k, d.path, v);
      LastStoredWins(adds', k, d.path, v);
      PostponedVector(adds, i, k, v, d.path);
    }
  }

  function Carries(p: Path, dv: DeletionVector): DataEntry -> bool { (d: DataEntry) => d.path == p && d.dv == Some(dv) }

  /** Dressing every file anew: no file loses the vector, and one gains it. */
  lemma {:induction false} CarriersGrow(adds: seq<Addition>, vectors: Key -> Vectors, vectors': Key -> Vectors,
        f: DataEntry -> bool)
    requires forall a :: a in adds && a.AddData? && f(Attach(vectors(a.key), a.seqno, a.d)) ==>
                           f(Attach(vectors'(a.key), a.seqno, a.d))
    ensures Count(AllData(adds, vectors), f) <= Count(AllData(adds, vectors'), f)
    ensures forall a :: a in adds && a.AddData? && !f(Attach(vectors(a.key), a.seqno, a.d))
                        && f(Attach(vectors'(a.key), a.seqno, a.d)) ==>
                          Count(AllData(adds, vectors), f) < Count(AllData(adds, vectors'), f)
  {
    if adds != [] {
      var init, a := adds[..|adds|-1], adds[|adds|-1];
      assert a in adds;
      forall b ensures b in adds <==> b in init || b == a { AdditionsSplit(adds, b); }
      CarriersGrow(init, vectors, vectors', f);
      if a.AddData? {
        CountSnoc(AllData(init, vectors), Attach(vectors(a.key), a.seqno, a.d), f);
        CountSnoc(AllData(init, vectors'), Attach(vectors'(a.key), a.seqno, a.d), f);
      } else {
        assert AllData(init, vectors) + [] == AllData(init, vectors);
        assert AllData(init, vectors') + [] == AllData(init, vectors');
      }
    }
  }

  lemma {:induction false} SamePartitionData<P>(p: Partition<P>, q: Partition<P>)
    requires SamePartition(p, q)
    ensures multiset(DataOf(Items(p))) == multiset(DataOf(Items(q)))
  {
    if p != [] {
      var n := |p| - 1;
      SamePartitionData(p[..n], q[..n]);
      DataOfConcat(Items(p[..n]), LayerItems(p[n]));
      DataOfConcat(Items(q[..n]), LayerItems(q[n]));
      DataOfLayer(p[n]);
      DataOfLayer(q[n]);
      SameConcat(DataOf(Items(p[..n])), p[n].data, DataOf(Items(q[..n])), q[n].data);
    }
  }

  lemma {:induction false} SamePlanData<P>(p: seq<Partition<P>>, q: seq<Partition<P>>)
    requires SamePlan(p, q)
    ensures multiset(DataOf(PlanItems(p))) == multiset(DataOf(PlanItems(q)))
  {
    if p != [] {
      var n := |p| - 1;
      SamePlanData(p[..n], q[..n]);
      SamePartitionData(p[n], q[n]);
      DataOfConcat(PlanItems(p[..n]), Items(p[n]));
      DataOfConcat(PlanItems(q[..n]), Items(q[n]));
      SameConcat(DataOf(PlanItems(p[..n])), DataOf(Items(p[n])), DataOf(PlanItems(q[..n])), DataOf(Items(q[n])));
    }
  }

  lemma {:induction false} PostponedData(adds: seq<Addition>, i: nat, k: Key, s: int, d: DataEntry)
    requires Loses(adds, i) && AddData(k, s, d) in adds && Taken(adds[i], d, k, s)
    ensures multiset(AllData(adds, k => VectorsOf(adds, k)))
         != multiset(AllData(Postponed(adds, i), k => VectorsOf(Postponed(adds, i), k)))
  {
    var adds', f := Postponed(adds, i), Carries(d.path, adds[i].dv);
    var vectors, vectors' := k => VectorsOf(adds, k), k => VectorsOf(adds', k);
    forall a | a in adds && a.AddData? && f(Attach(vectors(a.key), a.seqno, a.d))
      ensures f(Attach(vectors'(a.key), a.seqno, a.d))
    {
      PostponedAttach(adds, i, a.key, a.seqno, a.d);
    }
    PostponedAttach(adds, i, k, s, d);
    CarriersGrow(adds, vectors, vectors', f);
    PostponedSame(adds, i);
    AllDataPermuted(adds, adds', vectors');
    CountPermutation(AllData(adds, vectors'), AllData(adds', vectors'), f);
    if multiset(AllData(adds, vectors)) == multiset(AllData(adds', vectors')) {
      CountPermutation(AllData(adds, vectors), AllData(adds', vectors'), f);
    }
  }

  /** A data file's newest vector that was not stored last replaces the one that was when it is
      stored at the end instead: the plan is another. */
  lemma {:induction false} PostponedDiffers(n: Notes, adds: seq<Addition>, i: nat, k: Key, s: int, d: DataEntry)
    requires FinalPlan(n, Stored(adds)).Ok?
    requires Loses(adds, i) && AddData(k, s, d) in adds && Taken(adds[i], d, k, s)
    ensures !SameOutcome(FinalPlan(n, Stored(adds)), FinalPlan(n, Stored(Postponed(adds, i))))
  {
    var adds' := Postponed(adds, i);
    if SameOutcome(FinalPlan(n, Stored(adds)), FinalPlan(n, Stored(adds'))) {
      SamePlanData(FinalPlan(n, Stored(adds)).value, FinalPlan(n, Stored(adds')).value);
      FinalPlanKeepsData(n, adds);
      FinalPlanKeepsData(n, adds');
      PostponedData(adds, i, k, s, d);
    }
  }

  lemma {:induction false} LoserExists(adds: seq<Addition>, k: Key, s: int, d: DataEntry, v: int, dv: DeletionVector,
        dv': DeletionVector) returns (i: nat)
    requires Contested(adds, k, s, d, v, dv, dv')
    ensures Loses(adds, i) && Taken(adds[i], d, k, s)
  {
    LastStoredWins(adds, k, d.path, v);
    var w := if VectorAt(adds, k, v, d.path) == Some(dv) then dv' else dv;
    i :| 0 <= i < |adds| && adds[i] == AddDv(k, v, w);
  }

  /** Every order of the additions leads to the same plan, or to none. */
  ghost predicate OrderIrrelevant(n: Notes, adds: seq<Addition>)
  {
    forall adds' :: multiset(adds') == multiset(adds) ==>
                      SameOutcome(FinalPlan(n, Stored(adds)), FinalPlan(n, Stored(adds')))
  }

  /** The plan of a scan is independent of the order in which the entries are stored exactly when no
      two vectors are both newest for a data file, or there is no plan. */
  lemma {:induction false} OrderIrrelevantExactly(entries: seq<Entry>, n: Notes, adds: seq<Addition>)
    requires Collected(entries, n, adds)
    ensures OrderIrrelevant(n, adds) <==> FinalPlan(n, Stored(adds)).Err? || Uncontested(adds)
  {
    forall adds' | multiset(adds') == multiset(adds) && (FinalPlan(n, Stored(adds)).Err? || Uncontested(adds))
      ensures SameOutcome(FinalPlan(n, Stored(adds)), FinalPlan(n, Stored(adds')))
    {
      if Uncontested(adds) {
        FinalPlanSame(n, adds, adds');
      } else {
        FinalPlanExistsAlike(entries, n, adds, adds');
      }
    }
    if FinalPlan(n, Stored(adds)).Ok? && !Uncontested(adds) { OrderMatters(n, adds); }
  }

  lemma {:induction false} OrderMatters(n: Notes, adds: seq<Addition>)
    requires FinalPlan(n, Stored(adds)).Ok? && !Uncontested(adds)
    ensures !OrderIrrelevant(n, adds)
  {
    var k, s, d, v, dv, dv' :| Contested(adds, k, s, d, v, dv, dv');
    var i := LoserExists(adds, k, s, d, v, dv, dv');
    PostponedDiffers(n, adds, i, k, s, d);
    PostponedSame(adds, i);
  }

  // ----- Two orders of the same entries -----

  /** A data file and two vectors for it with one sequence number, in either order. */
  function TwoVectors(first: Path, second: Path): seq<Entry>
  {
    [DataFileEntry("f", 1), VectorEntry(first, 5, "f"), VectorEntry(second, 5, "f")]
  }

  function VectorOf(path: Path): DeletionVector { DeletionVector(path, 0, 0, "f") }

  function TwoAdditions(first: Path, second: Path): seq<Addition>
  {
    [AddData("k", 1, File("f")), AddDv("k", 5, VectorOf(first)), AddDv("k", 5, VectorOf(second))]
  }

  lemma {:induction false} TwoCollected(first: Path, second: Path)
    ensures Collected(TwoVectors(first, second), NoNotes().(hasReferenced := true), TwoAdditions(first, second))
  {
    var n := NoNotes().(hasReferenced := true);
    CollectThree(DataFileEntry("f", 1), VectorEntry(first, 5, "f"), VectorEntry(second, 5, "f"), NoNotes(), n, n,
                 AddData("k", 1, File("f")), AddDv("k", 5, VectorOf(first)), AddDv("k", 5, VectorOf(second)));
  }

  lemma {:induction false} TwoUnmixed(first: Path, second: Path, k: Key, s: int, x: Item<PosDelete>)
    ensures !DeleteAdded(TwoAdditions(first, second), k, s, x)
  {
  }

  lemma {:induction false} TwoDistinct(first: Path, second: Path, k: Key)
    ensures DistinctPaths(OfKey(TwoAdditions(first, second), k))
  {
    var a, b, c := AddData("k", 1, File("f")), AddDv("k", 5, VectorOf(first)), AddDv("k", 5, VectorOf(second));
    OneOfThree(a, b, c, k);
  }

  lemma {:induction false} TwoPlanned(first: Path, second: Path)
    ensures FinalPlan(NoNotes().(hasReferenced := true), Stored(TwoAdditions(first, second))).Ok?
  {
    var adds := TwoAdditions(first, second);
    assert forall k, s, x :: AddPos(k, s, x) !in adds;
    PlanFailsExactly(adds);
    forall k, s, x: Item<PosDelete> ensures !DeleteAdded(adds, k, s, x) { TwoUnmixed(first, second, k, s, x); }
    TwoCollected(first, second);
    forall k ensures DistinctPaths(OfKey(adds, k)) { TwoDistinct(first, second, k); }
    RegroupedScanFails(TwoVectors(first, second), NoNotes().(hasReferenced := true), adds);
  }

  lemma {:induction false} FirstLoses()
    ensures Loses(TwoAdditions("v", "w"), 1)
  {
    var adds := TwoAdditions("v", "w");
    var a, b, c := AddData("k", 1, File("f")), AddDv("k", 5, VectorOf("v")), AddDv("k", 5, VectorOf("w"));
    assert adds[1] == b && b in adds;
    forall t | VectorAdded(adds, "k", "f", t) ensures t <= 5 {
      var dv :| AddDv("k", t, dv) in adds && dv.referenced == "f";
    }
    ThreeOf(a, b, c);
    VectorAtSnoc([] + [a] + [b], c, "k", 5, "f");
  }

  lemma {:induction false} PostponedOfThree(a: Addition, b: Addition, c: Addition)
    ensures Postponed([a, b, c], 1) == [a, c, b]
  {
    assert [a, b, c][..1] == [a] && [a, b, c][2..] == [c];
  }

  lemma {:induction false} SwappedLast<T>(x: T, y: T, z: T)
    ensures multiset([x, y, z]) == multiset([x, z, y])
  {
  }

  /** Both orders have a plan, and not the same one. */
  lemma {:induction false} OrdersDisagree()
    ensures multiset(TwoVectors("v", "w")) == multiset(TwoVectors("w", "v"))
    ensures ScanPlan(TwoVectors("v", "w")).Ok? && ScanPlan(TwoVectors("w", "v")).Ok?
    ensures !SameOutcome(ScanPlan(TwoVectors("v", "w")), ScanPlan(TwoVectors("w", "v")))
  {
    var n, adds := NoNotes().(hasReferenced := true), TwoAdditions("v", "w");
    TwoCollected("v", "w");
    TwoCollected("w", "v");
    ScanIsFinalPlan(TwoVectors("v", "w"), n, adds);
    ScanIsFinalPlan(TwoVectors("w", "v"), n, TwoAdditions("w", "v"));
    TwoPlanned("v", "w");
    TwoPlanned("w", "v");
    FirstLoses();
    assert AddData("k", 1, File("f")) == adds[0];
    PostponedDiffers(n, adds, 1, "k", 1, File("f"));
    PostponedOfThree(adds[0], adds[1], adds[2]);
    SwappedLast(DataFileEntry("f", 1), VectorEntry("v", 5, "f"), VectorEntry("w", 5, "f"));
  }
}
