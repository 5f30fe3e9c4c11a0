/** The builder's plan by partition key: one block of plan partitions per key, each with the
    meaning of the additions of its key alone. */
module ByKey {
  import opened Order
  import opened Permutations
  import opened Plan
  import opened Dangling
  import opened Builder
  import opened Resolve
  import opened Planner
  import opened Meaning
  import opened Conservation

  /** The plan partitions that one key contributes. */
  function KeyPlan(st: State, k: Key): Result<seq<Partition<Path>>>
  {
    match ResolvePartition(MergedLayers(st, k))
    case Err(e) => Err(e)
    case Ok(part) => Layout([part])
  }

  function Block(st: State, k: Key): seq<Partition<Path>>
  {
    if KeyPlan(st, k).Ok? then KeyPlan(st, k).value else []
  }

  /** The blocks of the keys, one after another. */
  function Blocks(st: State, keys: seq<Key>): seq<Partition<Path>>
  {
    FlatMap(keys, BlockAt(st))
  }

  function BlockAt(st: State): Key -> seq<Partition<Path>>
  {
    (k: Key) => Block(st, k)
  }

  lemma {:induction false} RemovalConcat(p: seq<Partition<PosDelete>>, q: seq<Partition<PosDelete>>)
    ensures RemoveDangling(p + q) == RemoveDangling(p) + RemoveDangling(q)
  {
    if q == [] {
      assert p + q == p;
    } else {
      var init, last := q[..|q|-1], q[|q|-1];
      assert (p + q)[..|p + q|-1] == p + init;
      RemovalConcat(p, init);
      UnfoldDangling(p + q);
      UnfoldDangling(q);
      SeqAssociative(RemoveDangling(p), RemoveDangling(init), [PrunePartition(last)]);
    }
  }

  lemma {:induction false} LayoutOne(part: Partition<PosDelete>)
    requires Split(part).Ok?
    ensures Layout([part]) == Ok(RemoveDangling(Split(part).value))
  {
    var parts := [part];
    assert parts[..|parts|-1] == [];
    assert OptimizeAll(parts[..|parts|-1]) == Ok([]);
    assert [] + Split(part).value == Split(part).value;
  }

  lemma {:induction false} LayoutSnoc(parts: seq<Partition<PosDelete>>)
    requires parts != [] && Layout(parts).Ok?
    ensures Layout(parts[..|parts|-1]).Ok? && Layout([parts[|parts|-1]]).Ok?
    ensures Layout(parts).value == Layout(parts[..|parts|-1]).value + Layout([parts[|parts|-1]]).value
  {
    UnfoldOptimize(parts);
    LayoutOne(parts[|parts|-1]);
    RemovalConcat(OptimizeAll(parts[..|parts|-1]).value, Split(parts[|parts|-1]).value);
  }

  lemma {:induction false} VecInit(st: State, keys: seq<Key>)
    requires keys != [] && Vec(st, keys).Ok?
    ensures Vec(st, keys[..|keys|-1]).Ok? && Vec(st, keys).value != []
    ensures Vec(st, keys).value[..|Vec(st, keys).value|-1] == Vec(st, keys[..|keys|-1]).value
    ensures ResolvePartition(MergedLayers(st, keys[|keys|-1])) == Ok(Vec(st, keys).value[|Vec(st, keys).value|-1])
  {
    UnfoldVec(st, keys);
  }

  lemma {:induction false} VecBlocks(st: State, keys: seq<Key>)
    requires Vec(st, keys).Ok? && Layout(Vec(st, keys).value).Ok?
    ensures Layout(Vec(st, keys).value).value == Blocks(st, keys)
  {
    if keys != [] {
      var parts := Vec(st, keys).value;
      VecInit(st, keys);
      LayoutSnoc(parts);
      VecBlocks(st, keys[..|keys|-1]);
    }
  }

  lemma {:induction false} VecKey(st: State, keys: seq<Key>, k: Key)
    requires Vec(st, keys).Ok? && Layout(Vec(st, keys).value).Ok? && k in keys
    ensures KeyPlan(st, k).Ok?
  {
    VecInit(st, keys);
    LayoutSnoc(Vec(st, keys).value);
    if k != keys[|keys|-1] { VecKey(st, keys[..|keys|-1], k); }
  }

  /** The builder's plan is the blocks of its keys in ascending order. */
  lemma {:induction false} PlanIsBlocks(st: State)
    requires BuilderPlan(st).Ok?
    ensures BuilderPlan(st).value == Blocks(st, Keys(st))
    ensures forall k :: k in st.partitions ==> KeyPlan(st, k).Ok?
  {
    VecBlocks(st, Keys(st));
    forall k | k in st.partitions ensures KeyPlan(st, k).Ok? { VecKey(st, Keys(st), k); }
  }

  /** The key whose block holds plan partition `p`, and its place there. */
  lemma {:induction false} BlockOf(st: State, keys: seq<Key>, p: nat) returns (k: Key, q: nat)
    requires p < |Blocks(st, keys)|
    ensures k in keys && q < |Block(st, k)| && Blocks(st, keys)[p] == Block(st, k)[q]
  {
    var i;
    i, q := FlatMapAt(keys, BlockAt(st), p);
    k := keys[i];
  }

  // ----- The rules, for one key -----

  ghost predicate PositionalAt(adds: seq<Addition>, k: Key, d: DataEntry, x: PosDelete)
  {
    exists s, t :: s <= t && DataAdded(adds, k, s, d) && AddPos(k, t, x) in adds
  }

  ghost predicate EqualityAt(adds: seq<Addition>, k: Key, d: DataEntry, e: EqDelete)
  {
    exists s, t :: s < t && DataAdded(adds, k, s, d) && EqualityAdded(adds, k, t, e)
  }

  lemma {:induction false} KeyPlanParts(st: State, k: Key)
    requires KeyPlan(st, k).Ok?
    ensures ResolvePartition(MergedLayers(st, k)).Ok?
    ensures Layout([ResolvePartition(MergedLayers(st, k)).value]) == KeyPlan(st, k)
  {
  }

  /** No positional pair of a block is invented ... */
  lemma {:induction false} BlockIsSound(adds: seq<Addition>, k: Key, d: DataEntry, q: Path)
    requires KeyPlan(Stored(adds), k).Ok? && Planned(KeyPlan(Stored(adds), k).value, d, PosItem(q))
    ensures exists x: PosDelete :: x.path == q && PositionalAt(adds, k, d, x)
  {
    KeyPlanParts(Stored(adds), k);
    var part := ResolvePartition(MergedLayers(Stored(adds), k)).value;
    var x := LayoutSound([part], d, q);
    PlannedSingle(part, d, PosItem(x));
    PartitionMeaning(adds, k, d, PosItem(x));
    var s, t :| s <= t && DataAdded(adds, k, s, d) && DeleteAdded(adds, k, t, PosItem(x));
    assert AddPos(k, t, x) in adds;
  }

  /** ... none that can have an effect is lost ... */
  lemma {:induction false} BlockIsComplete(adds: seq<Addition>, k: Key, d: DataEntry, x: PosDelete)
    requires KeyPlan(Stored(adds), k).Ok? && PositionalAt(adds, k, d, x) && Covers(x, d.path)
    ensures Planned(KeyPlan(Stored(adds), k).value, d, PosItem(x.path))
  {
    KeyPlanParts(Stored(adds), k);
    var part := ResolvePartition(MergedLayers(Stored(adds), k)).value;
    var s, t :| s <= t && DataAdded(adds, k, s, d) && AddPos(k, t, x) in adds;
    assert DeleteAdded(adds, k, t, PosItem(x));
    PartitionMeaning(adds, k, d, PosItem(x));
    PlannedSingle(part, d, PosItem(x));
    LayoutComplete([part], d, x);
  }

  /** ... and equality pairs are exactly those of the rule. */
  lemma {:induction false} BlockAppliesEquality(adds: seq<Addition>, k: Key, d: DataEntry, e: EqDelete)
    requires KeyPlan(Stored(adds), k).Ok?
    ensures Planned(KeyPlan(Stored(adds), k).value, d, EqItem(e)) <==> EqualityAt(adds, k, d, e)
  {
    KeyPlanParts(Stored(adds), k);
    var part := ResolvePartition(MergedLayers(Stored(adds), k)).value;
    LayoutEquality([part], d, e);
    PlannedSingle(part, d, EqItem(e));
    PartitionMeaning(adds, k, d, EqItem(e));
    if EqualityAt(adds, k, d, e) {
      var s, t :| s < t && DataAdded(adds, k, s, d) && EqualityAdded(adds, k, t, e);
      assert s <= t - 1 && DeleteAdded(adds, k, t - 1, EqItem(e));
    }
    if PairAdded(adds, k, d, EqItem(e)) {
      var s, t :| s <= t && DataAdded(adds, k, s, d) && DeleteAdded(adds, k, t, EqItem(e));
      assert s < t + 1 && EqualityAdded(adds, k, t + 1, e);
    }
  }

  // ----- The data files of one key -----

  predicate DataOfKey(a: Addition, k: Key) { a.AddData? && a.key == k }

  /** The data additions of a key. */
  function OfKey(adds: seq<Addition>, k: Key): seq<Addition>
  {
    if adds == [] then [] else
      var init, a := OfKey(adds[..|adds|-1], k), adds[|adds|-1];
      if DataOfKey(a, k) then init + [a] else init
  }

  lemma {:induction false} OfKeyMembers(adds: seq<Addition>, k: Key, a: Addition)
    ensures a in OfKey(adds, k) <==> a in adds && DataOfKey(a, k)
  {
    if adds != [] {
      var init, last := adds[..|adds|-1], adds[|adds|-1];
      OfKeyMembers(init, k, a);
      InConcat(init, [last], a);
      assert adds == init + [last];
    }
  }

  lemma {:induction false} GatheredOfKey(adds: seq<Addition>, k: Key, s: int)
    ensures Gathered(OfKey(adds, k), k, s).files.data == Gathered(adds, k, s).files.data
  {
    if adds != [] {
      var init, a := adds[..|adds|-1], adds[|adds|-1];
      GatheredOfKey(init, k, s);
      if DataOfKey(a, k) { assert (OfKey(init, k) + [a])[..|OfKey(init, k)|] == OfKey(init, k); }
    }
  }

  lemma {:induction false} GroupsOfKey(adds: seq<Addition>, vectors: Key -> Vectors, k: Key, numbers: seq<int>)
    ensures Groups(adds, vectors, PlacesOf(k, numbers)) == Groups(OfKey(adds, k), vectors, PlacesOf(k, numbers))
  {
    if numbers != [] {
      var n := |numbers| - 1;
      assert PlacesOf(k, numbers)[..n] == PlacesOf(k, numbers[..n]);
      GroupsOfKey(adds, vectors, k, numbers[..n]);
      GatheredOfKey(adds, k, numbers[n]);
    }
  }

  lemma {:induction false} PlacedOfKey(adds: seq<Addition>, k: Key, s: int, d: DataEntry)
    requires AddData(k, s, d) in OfKey(adds, k)
    ensures (k, s) in PlacesOf(k, Numbers(MergedLayers(Stored(adds), k)))
  {
    var numbers := Numbers(MergedLayers(Stored(adds), k));
    OfKeyMembers(adds, k, AddData(k, s, d));
    StoredExactly(adds, k, s);
    assert s in numbers;
    var i :| 0 <= i < |numbers| && numbers[i] == s;
    assert PlacesOf(k, numbers)[i] == (k, s);
  }

  lemma {:induction false} PlacesOfDistinct(k: Key, layers: Layers)
    ensures forall i, j :: 0 <= i < j < |PlacesOf(k, Numbers(layers))| ==>
                             PlacesOf(k, Numbers(layers))[i] != PlacesOf(k, Numbers(layers))[j]
  {
  }

  lemma {:induction false} KeyData(adds: seq<Addition>, vectors: Key -> Vectors, k: Key, places: seq<Place>)
    requires places == PlacesOf(k, Numbers(MergedLayers(Stored(adds), k)))
    ensures multiset(Groups(adds, vectors, places)) == multiset(AllData(OfKey(adds, k), vectors))
  {
    var layers := MergedLayers(Stored(adds), k);
    GroupsOfKey(adds, vectors, k, Numbers(layers));
    PlacesOfDistinct(k, layers);
    forall j, s, d | AddData(j, s, d) in OfKey(adds, k) ensures (j, s) in places {
      OfKeyMembers(adds, k, AddData(j, s, d));
      PlacedOfKey(adds, k, s, d);
    }
    GroupsConserve(OfKey(adds, k), vectors, places);
  }

  lemma {:induction false} ItemsOfOne(part: Partition<PosDelete>)
    ensures PlanItems([part]) == Items(part)
  {
    PlanItemsSnoc([], part);
    assert [] + [part] == [part];
  }

  /** A block holds every data file of its key exactly as often as it was added, with its vector. */
  lemma {:induction false} BlockKeepsData(adds: seq<Addition>, vectors: Key -> Vectors, k: Key)
    requires KeyPlan(Stored(adds), k).Ok? && vectors(k) == VectorsOf(adds, k)
    ensures multiset(DataOf(PlanItems(KeyPlan(Stored(adds), k).value))) == multiset(AllData(OfKey(adds, k), vectors))
  {
    KeyPlanParts(Stored(adds), k);
    var layers := MergedLayers(Stored(adds), k);
    var part := ResolvePartition(layers).value;
    LayoutConserves([part]);
    ItemsOfOne(part);
    PartitionData(adds, vectors, k);
    KeyData(adds, vectors, k, PlacesOf(k, Numbers(layers)));
  }
}
