/** Every data file of the manifests appears in the plan exactly once, with its vector. */
module Conservation {
  import opened Order
  import opened Plan
  import opened Builder
  import opened Resolve
  import opened Planner
  import opened Meaning

  type Place = (Key, int)

  /** The data files added, in order, each with the vector that applies to it. */
  function AllData(adds: seq<Addition>, vectors: Key -> Vectors): seq<DataEntry>
  {
    if adds == [] then [] else
      var a := adds[|adds|-1];
      AllData(adds[..|adds|-1], vectors) + (if a.AddData? then [Attach(vectors(a.key), a.seqno, a.d)] else [])
  }

  function Group(adds: seq<Addition>, vectors: Key -> Vectors, p: Place): seq<DataEntry>
  {
    AttachAll(vectors(p.0), p.1, Gathered(adds, p.0, p.1).files.data)
  }

  function Groups(adds: seq<Addition>, vectors: Key -> Vectors, places: seq<Place>): seq<DataEntry>
  {
    if places == [] then [] else
      Groups(adds, vectors, places[..|places|-1]) + Group(adds, vectors, places[|places|-1])
  }

  lemma {:induction false} GroupSnoc(adds: seq<Addition>, a: Addition, vectors: Key -> Vectors, p: Place)
    ensures Group(adds + [a], vectors, p) == Group(adds, vectors, p) +
      (if a.AddData? && (a.key, a.seqno) == p then [Attach(vectors(a.key), a.seqno, a.d)] else [])
  {
    assert (adds + [a])[..|adds|] == adds;
  }

  /** What addition `a` contributes to the places listed. */
  function Extra(a: Addition, vectors: Key -> Vectors, places: seq<Place>): multiset<DataEntry>
  {
    if a.AddData? && (a.key, a.seqno) in places then multiset{Attach(vectors(a.key), a.seqno, a.d)} else multiset{}
  }

  lemma {:induction false} ExtraSnoc(a: Addition, vectors: Key -> Vectors, places: seq<Place>)
    requires places != [] && forall i, j :: 0 <= i < j < |places| ==> places[i] != places[j]
    ensures Extra(a, vectors, places)
            == Extra(a, vectors, places[..|places|-1]) + Extra(a, vectors, [places[|places|-1]])
  {
    if a.AddData? {
      InConcat(places[..|places|-1], [places[|places|-1]], (a.key, a.seqno));
      assert places == places[..|places|-1] + [places[|places|-1]];
    }
  }

  lemma {:induction false} GroupExtra(adds: seq<Addition>, a: Addition, vectors: Key -> Vectors, p: Place)
    ensures multiset(Group(adds + [a], vectors, p)) == multiset(Group(adds, vectors, p)) + Extra(a, vectors, [p])
  {
    GroupSnoc(adds, a, vectors, p);
  }

  lemma {:induction false} GroupsSnoc(adds: seq<Addition>, a: Addition, vectors: Key -> Vectors, places: seq<Place>)
    requires forall i, j :: 0 <= i < j < |places| ==> places[i] != places[j]
    ensures multiset(Groups(adds + [a], vectors, places))
            == multiset(Groups(adds, vectors, places)) + Extra(a, vectors, places)
  {
    if places != [] {
      var init, last := places[..|places|-1], places[|places|-1];
      GroupsSnoc(adds, a, vectors, init);
      GroupExtra(adds, a, vectors, last);
      ExtraSnoc(a, vectors, places);
    }
  }

  /** Grouping the additions by partition and layer is a permutation of them. */
  lemma {:induction false} GroupsConserve(adds: seq<Addition>, vectors: Key -> Vectors, places: seq<Place>)
    requires forall i, j :: 0 <= i < j < |places| ==> places[i] != places[j]
    requires forall k, s, d :: AddData(k, s, d) in adds ==> (k, s) in places
    ensures multiset(Groups(adds, vectors, places)) == multiset(AllData(adds, vectors))
  {
    if adds == [] {
      NoGroups(vectors, places);
    } else {
      var init, a := adds[..|adds|-1], adds[|adds|-1];
      assert adds == init + [a];
      assert a in adds && forall b :: b in init ==> b in adds;
      GroupsConserve(init, vectors, places);
      GroupsSnoc(init, a, vectors, places);
      if a.AddData? { assert AddData(a.key, a.seqno, a.d) in adds; }
    }
  }

  lemma {:induction false} NoGroups(vectors: Key -> Vectors, places: seq<Place>)
    ensures Groups([], vectors, places) == []
  {
    if places != [] { NoGroups(vectors, places[..|places|-1]); }
  }

  // ----- The places a state has layers for -----

  function PlacesOf(k: Key, numbers: seq<int>): (r: seq<Place>)
    ensures |r| == |numbers| && forall i :: 0 <= i < |r| ==> r[i] == (k, numbers[i])
  {
    seq(|numbers|, i requires 0 <= i < |numbers| => (k, numbers[i]))
  }

  function Places(st: State, keys: seq<Key>): seq<Place>
  {
    if keys == [] then [] else
      var k := keys[|keys|-1];
      Places(st, keys[..|keys|-1]) + PlacesOf(k, Numbers(MergedLayers(st, k)))
  }

  lemma {:induction false} PlacesMembers(st: State, keys: seq<Key>, p: Place)
    ensures p in Places(st, keys) <==> p.0 in keys && p.1 in MergedLayers(st, p.0)
  {
    if keys != [] {
      var init, k := keys[..|keys|-1], keys[|keys|-1];
      PlacesMembers(st, init, p);
      var numbers := Numbers(MergedLayers(st, k));
      InConcat(Places(st, init), PlacesOf(k, numbers), p);
      InConcat(init, [k], p.0);
      assert keys == init + [k];
      if p.0 == k && p.1 in numbers {
        var i :| 0 <= i < |numbers| && numbers[i] == p.1;
        assert PlacesOf(k, numbers)[i] == p;
      }
    }
  }

  lemma {:induction false} PlacesDistinct(st: State, keys: seq<Key>)
    requires forall i, j :: 0 <= i < j < |keys| ==> keys[i] != keys[j]
    ensures forall i, j :: 0 <= i < j < |Places(st, keys)| ==> Places(st, keys)[i] != Places(st, keys)[j]
  {
    if keys != [] {
      var init, k := keys[..|keys|-1], keys[|keys|-1];
      PlacesDistinct(st, init);
      var left, right := Places(st, init), PlacesOf(k, Numbers(MergedLayers(st, k)));
      forall i | 0 <= i < |left| ensures left[i].0 != k {
        PlacesMembers(st, init, left[i]);
      }
      DistinctConcat(left, right, k);
    }
  }

  lemma {:induction false} DistinctConcat(left: seq<Place>, right: seq<Place>, k: Key)
    requires forall i, j :: 0 <= i < j < |left| ==> left[i] != left[j]
    requires forall i, j :: 0 <= i < j < |right| ==> right[i] != right[j]
    requires forall i :: 0 <= i < |left| ==> left[i].0 != k
    requires forall i :: 0 <= i < |right| ==> right[i].0 == k
    ensures forall i, j :: 0 <= i < j < |left + right| ==> (left + right)[i] != (left + right)[j]
  {
  }

  lemma {:induction false} GroupsConcat(adds: seq<Addition>, vectors: Key -> Vectors, p: seq<Place>, q: seq<Place>)
    ensures Groups(adds, vectors, p + q) == Groups(adds, vectors, p) + Groups(adds, vectors, q)
  {
    if q == [] {
      assert p + q == p;
    } else {
      var init, last := q[..|q|-1], q[|q|-1];
      assert p + q == (p + init) + [last];
      assert ((p + init) + [last])[..|p + init|] == p + init;
      GroupsConcat(adds, vectors, p, init);
      SeqAssociative(Groups(adds, vectors, p), Groups(adds, vectors, init), Group(adds, vectors, last));
    }
  }

  // ----- The plan's data, group by group -----

  lemma {:induction false} LayersData(adds: seq<Addition>, vectors: Key -> Vectors, k: Key, part: Partition<PosDelete>,
        numbers: seq<int>)
    requires |part| == |numbers|
    requires forall i :: 0 <= i < |part| ==> part[i].data == Group(adds, vectors, (k, numbers[i]))
    ensures DataOf(Items(part)) == Groups(adds, vectors, PlacesOf(k, numbers))
  {
    if part != [] {
      var n := |part| - 1;
      LayersData(adds, vectors, k, part[..n], numbers[..n]);
      DataOfConcat(Items(part[..n]), LayerItems(part[n]));
      DataOfLayer(part[n]);
      assert PlacesOf(k, numbers)[..n] == PlacesOf(k, numbers[..n]);
    }
  }

  lemma {:induction false} PartitionData(adds: seq<Addition>, vectors: Key -> Vectors, k: Key)
    requires ResolvePartition(MergedLayers(Stored(adds), k)).Ok? && vectors(k) == VectorsOf(adds, k)
    ensures DataOf(Items(ResolvePartition(MergedLayers(Stored(adds), k)).value))
         == Groups(adds, vectors, PlacesOf(k, Numbers(MergedLayers(Stored(adds), k))))
  {
    var layers := MergedLayers(Stored(adds), k);
    var part, numbers := ResolvePartition(layers).value, Numbers(layers);
    ResolveExactly(layers);
    forall i | 0 <= i < |part| ensures part[i].data == Group(adds, vectors, (k, numbers[i])) {
      StoredExactly(adds, k, numbers[i]);
      assert numbers[i] in layers;
      assert layers[numbers[i]].files.data == Gathered(adds, k, numbers[i]).files.data;
    }
    LayersData(adds, vectors, k, part, numbers);
  }

  lemma {:induction false} VecData(adds: seq<Addition>, vectors: Key -> Vectors, keys: seq<Key>)
    requires Vec(Stored(adds), keys).Ok? && forall k :: vectors(k) == VectorsOf(adds, k)
    ensures DataOf(PlanItems(Vec(Stored(adds), keys).value)) == Groups(adds, vectors, Places(Stored(adds), keys))
  {
    if keys != [] {
      var st, init, k := Stored(adds), keys[..|keys|-1], keys[|keys|-1];
      var part := ResolvePartition(MergedLayers(st, k)).value;
      VecData(adds, vectors, init);
      PartitionData(adds, vectors, k);
      PlanItemsSnoc(Vec(st, init).value, part);
      DataOfConcat(PlanItems(Vec(st, init).value), Items(part));
      GroupsConcat(adds, vectors, Places(st, init), PlacesOf(k, Numbers(MergedLayers(st, k))));
    }
  }

  /** The plan holds every live data file exactly as often as the manifests do, each carrying the
      vector that applies to it, and no other data file. */
  lemma {:induction false} PlanKeepsData(adds: seq<Addition>)
    requires BuilderPlan(Stored(adds)).Ok?
    ensures multiset(DataOf(PlanItems(BuilderPlan(Stored(adds)).value)))
         == multiset(AllData(adds, k => VectorsOf(adds, k)))
  {
    var st, vectors := Stored(adds), k => VectorsOf(adds, k);
    var keys := Keys(st);
    VecData(adds, vectors, keys);
    LayoutConserves(Vec(st, keys).value);
    StateGroupsConserve(adds, vectors);
  }

  lemma {:induction false} StateGroupsConserve(adds: seq<Addition>, vectors: Key -> Vectors)
    ensures multiset(Groups(adds, vectors, Places(Stored(adds), Keys(Stored(adds)))))
            == multiset(AllData(adds, vectors))
  {
    var st := Stored(adds);
    PlacesDistinct(st, Keys(st));
    forall k, s, d | AddData(k, s, d) in adds ensures (k, s) in Places(st, Keys(st)) {
      DataHasPlace(adds, k, s, d);
    }
    GroupsConserve(adds, vectors, Places(st, Keys(st)));
  }

  lemma {:induction false} DataHasPlace(adds: seq<Addition>, k: Key, s: int, d: DataEntry)
    requires AddData(k, s, d) in adds
    ensures (k, s) in Places(Stored(adds), Keys(Stored(adds)))
  {
    StoredExactly(adds, k, s);
    assert LandsIn(AddData(k, s, d), k, s);
    PlacesMembers(Stored(adds), Keys(Stored(adds)), (k, s));
  }
}
