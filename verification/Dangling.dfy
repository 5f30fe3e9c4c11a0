/** Removal of positional deletes that cannot mention any data file they apply to
    (`ScanMetadataBuilder::RemoveDanglingDeletes`). */
module Dangling {
  import opened Order
  import opened Plan

  /** `lower_bound(min) == upper_bound(max)` on the sorted set of data paths: the same paths
      precede both iterators. */
  predicate IsDangling(paths: set<Path>, x: PosDelete)
  {
    x.range.Some? && forall p :: p in paths ==> (Less(p, x.range.value.min) <==> Leq(p, x.range.value.max))
  }

  /** The iterator test finds the path: it lies within ordered bounds, or strictly between
      inverted ones. */
  predicate Reaches(x: PosDelete, p: Path)
    requires x.range.Some?
  {
    var r := x.range.value;
    if Leq(r.min, r.max) then Leq(r.min, p) && Leq(p, r.max) else Less(r.max, p) && Less(p, r.min)
  }

  lemma {:induction false} ReachesExactly(x: PosDelete, p: Path)
    requires x.range.Some?
    ensures (Less(p, x.range.value.min) <==> Leq(p, x.range.value.max)) <==> !Reaches(x, p)
  {
    var r := x.range.value;
    LeqTotal(p, r.min);
    LeqTotal(p, r.max);
    if Leq(r.min, r.max) {
      if Less(p, r.min) { LeqTransitive(p, r.min, r.max); }
    } else if Leq(p, r.max) && Leq(r.min, p) {
      LeqTransitive(r.min, p, r.max);
    }
  }

  /** Whatever the bounds, the iterator test decides whether some collected path is reached. */
  lemma {:induction false} DanglingExactly(paths: set<Path>, x: PosDelete)
    ensures IsDangling(paths, x) <==> x.range.Some? && forall p :: p in paths ==> !Reaches(x, p)
  {
    if x.range.Some? {
      forall p ensures (Less(p, x.range.value.min) <==> Leq(p, x.range.value.max)) <==> !Reaches(x, p) {
        ReachesExactly(x, p);
      }
    }
  }

  function DataPaths(data: seq<DataEntry>): set<Path>
  {
    set i | 0 <= i < |data| :: data[i].path
  }

  function PathsOf<P>(items: seq<Item<P>>): set<Path>
  {
    if items == [] then {} else
      var last := items[|items|-1];
      PathsOf(items[..|items|-1]) + (if last.DataItem? then {last.d.path} else {})
  }

  function PruneItem(paths: set<Path>, item: Item<PosDelete>): seq<Item<Path>>
  {
    match item
    case DataItem(d) => [DataItem(d)]
    case PosItem(x) => if IsDangling(paths, x) then [] else [PosItem(x.path)]
    case EqItem(e) => [EqItem(e)]
  }

  /** The stream without its dangling deletes: a delete is judged by the data files before it. */
  function PruneAfter(paths: set<Path>, items: seq<Item<PosDelete>>): seq<Item<Path>>
  {
    if items == [] then [] else
      var init := items[..|items|-1];
      PruneAfter(paths, init) + PruneItem(paths + PathsOf(init), items[|items|-1])
  }

  function Prune(items: seq<Item<PosDelete>>): seq<Item<Path>>
  {
    PruneAfter({}, items)
  }

  function KeptDeletes(paths: set<Path>, pos: seq<PosDelete>): seq<Path>
  {
    if pos == [] then [] else
      var x := pos[|pos|-1];
      KeptDeletes(paths, pos[..|pos|-1]) + (if IsDangling(paths, x) then [] else [x.path])
  }

  /** All data paths of the partition. */
  function PartitionPaths(part: Partition<PosDelete>): set<Path>
  {
    if part == [] then {} else PartitionPaths(part[..|part|-1]) + DataPaths(part[|part|-1].data)
  }

  function PruneLayer(paths: set<Path>, layer: Layer<PosDelete>): Layer<Path>
  {
    Layer(layer.data, KeptDeletes(paths, layer.pos), layer.eq)
  }

  /** Layers that become empty disappear; the others keep their order. */
  function PrunePartition(part: Partition<PosDelete>): Partition<Path>
  {
    if part == [] then [] else
      var layer := PruneLayer(PartitionPaths(part), part[|part|-1]);
      PrunePartition(part[..|part|-1]) + (if layer.Empty() then [] else [layer])
  }

  predicate HasData<P>(part: Partition<P>)
  {
    exists i :: 0 <= i < |part| && part[i].data != []
  }

  /** Partitions without data files disappear. */
  function RemoveDangling(parts: seq<Partition<PosDelete>>): seq<Partition<Path>>
  {
    if parts == [] then [] else
      var part := parts[|parts|-1];
      RemoveDangling(parts[..|parts|-1]) + (if HasData(part) then [PrunePartition(part)] else [])
  }

  /** `RemoveDanglingDeletes`, loops as in the original. */
  method RemoveDanglingDeletes(parts: seq<Partition<PosDelete>>) returns (result: seq<Partition<Path>>)
    ensures result == RemoveDangling(parts)
  {
    result := [];
    for k := 0 to |parts|
      invariant result == RemoveDangling(parts[..k])
    {
      assert parts[..k+1][..k] == parts[..k];
      var layers := parts[k];
      if exists i :: 0 <= i < |layers| && layers[i].data != [] {
        var partition := PruneLayers(layers);
        result := result + [partition];
      }
    }
    assert parts[..|parts|] == parts;
  }

  method PruneLayers(layers: Partition<PosDelete>) returns (partition: Partition<Path>)
    ensures partition == PrunePartition(layers)
  {
    partition := [];
    var dataPaths: set<Path> := {};
    for l := 0 to |layers|
      invariant dataPaths == PartitionPaths(layers[..l])
      invariant partition == PrunePartition(layers[..l])
    {
      var layer := layers[l];
      assert layers[..l+1][..l] == layers[..l];
      ghost var earlier := dataPaths;
      for i := 0 to |layer.data|
        invariant dataPaths == earlier + DataPaths(layer.data[..i])
      {
        dataPaths := dataPaths + {layer.data[i].path};
        DataPathsSnoc(layer.data, i);
      }
      assert layer.data[..|layer.data|] == layer.data;
      var kept := [];
      for i := 0 to |layer.pos|
        invariant kept == KeptDeletes(dataPaths, layer.pos[..i])
      {
        assert layer.pos[..i+1][..i] == layer.pos[..i];
        if !IsDangling(dataPaths, layer.pos[i]) {
          kept := kept + [layer.pos[i].path];
        }
      }
      assert layer.pos[..|layer.pos|] == layer.pos;
      var resultLayer := Layer(layer.data, kept, layer.eq);
      if !resultLayer.Empty() {
        partition := partition + [resultLayer];
      }
    }
    assert layers[..|layers|] == layers;
  }

  lemma {:induction false} DataPathsSnoc(data: seq<DataEntry>, i: nat)
    requires i < |data|
    ensures DataPaths(data[..i+1]) == DataPaths(data[..i]) + {data[i].path}
  {
    forall p | p in DataPaths(data[..i]) + {data[i].path} ensures p in DataPaths(data[..i+1]) {
      if p in DataPaths(data[..i]) {
        var k :| 0 <= k < |data[..i]| && data[..i][k].path == p;
        assert data[..i+1][k].path == p;
      } else {
        assert data[..i+1][i].path == p;
      }
    }
    forall p | p in DataPaths(data[..i+1]) ensures p in DataPaths(data[..i]) + {data[i].path} {
      var k :| 0 <= k < |data[..i+1]| && data[..i+1][k].path == p;
      if k < i { assert data[..i][k].path == p; }
    }
  }

  // ----- Layers and streams -----

  lemma {:induction false} PruneSnoc(paths: set<Path>, items: seq<Item<PosDelete>>, item: Item<PosDelete>)
    ensures PruneAfter(paths, items + [item]) == PruneAfter(paths, items) + PruneItem(paths + PathsOf(items), item)
  {
    assert (items + [item])[..|items|] == items;
  }

  lemma {:induction false} PathsOfSnoc<P>(items: seq<Item<P>>, item: Item<P>)
    ensures PathsOf(items + [item]) == PathsOf(items) + (if item.DataItem? then {item.d.path} else {})
  {
    assert (items + [item])[..|items|] == items;
  }

  lemma {:induction false} PathsOfConcat<P>(s: seq<Item<P>>, t: seq<Item<P>>)
    ensures PathsOf(s + t) == PathsOf(s) + PathsOf(t)
  {
    if t == [] {
      assert s + t == s;
    } else {
      var init, item := t[..|t|-1], t[|t|-1];
      assert s + t == (s + init) + [item];
      PathsOfSnoc(s + init, item);
      PathsOfConcat(s, init);
    }
  }

  lemma {:induction false} PruneConcat(paths: set<Path>, s: seq<Item<PosDelete>>, t: seq<Item<PosDelete>>)
    ensures PruneAfter(paths, s + t) == PruneAfter(paths, s) + PruneAfter(paths + PathsOf(s), t)
  {
    if t == [] {
      assert s + t == s;
    } else {
      var init, item := t[..|t|-1], t[|t|-1];
      assert s + t == (s + init) + [item];
      PruneSnoc(paths, s + init, item);
      PruneConcat(paths, s, init);
      PathsOfConcat(s, init);
      assert paths + (PathsOf(s) + PathsOf(init)) == (paths + PathsOf(s)) + PathsOf(init);
      SeqAssociative(PruneAfter(paths, s), PruneAfter(paths + PathsOf(s), init),
                     PruneItem(paths + PathsOf(s) + PathsOf(init), item));
    }
  }

  lemma {:induction false} DataItemsSnoc<P>(data: seq<DataEntry>, d: DataEntry)
    ensures DataItems<P>(data + [d]) == DataItems<P>(data) + [DataItem(d)]
  {
  }

  lemma {:induction false} DataHasPaths(data: seq<DataEntry>)
    ensures PathsOf<PosDelete>(DataItems(data)) == DataPaths(data)
  {
    if data != [] {
      var init, d := data[..|data|-1], data[|data|-1];
      DataHasPaths(init);
      DataItemsSnoc<PosDelete>(init, d);
      assert data == init + [d];
      PathsOfSnoc<PosDelete>(DataItems(init), DataItem(d));
      DataPathsSnoc(data, |data| - 1);
      assert data[..|data|-1+1] == data;
    }
  }

  lemma {:induction false} PruneData(paths: set<Path>, data: seq<DataEntry>)
    ensures PruneAfter(paths, DataItems(data)) == DataItems(data)
  {
    if data != [] {
      var init, d := data[..|data|-1], data[|data|-1];
      PruneData(paths, init);
      DataItemsSnoc<PosDelete>(init, d);
      DataItemsSnoc<Path>(init, d);
      assert data == init + [d];
      PruneSnoc(paths, DataItems(init), DataItem(d));
    }
  }

  lemma {:induction false} PosItemsSnoc<P>(pos: seq<P>, x: P)
    ensures PosItems(pos + [x]) == PosItems(pos) + [PosItem(x)]
  {
  }

  lemma {:induction false} DeletesHaveNoPaths(pos: seq<PosDelete>)
    ensures PathsOf(PosItems(pos)) == {}
  {
    if pos != [] {
      var init, x := pos[..|pos|-1], pos[|pos|-1];
      DeletesHaveNoPaths(init);
      PosItemsSnoc(init, x);
      assert pos == init + [x];
      PathsOfSnoc(PosItems(init), PosItem(x));
    }
  }

  lemma {:induction false} PrunePos(paths: set<Path>, pos: seq<PosDelete>)
    ensures PruneAfter(paths, PosItems(pos)) == PosItems(KeptDeletes(paths, pos))
  {
    if pos != [] {
      var init, x := pos[..|pos|-1], pos[|pos|-1];
      PrunePos(paths, init);
      PosItemsSnoc(init, x);
      assert pos == init + [x];
      PruneSnoc(paths, PosItems(init), PosItem(x));
      DeletesHaveNoPaths(init);
      assert paths + {} == paths;
      if !IsDangling(paths, x) { PosItemsSnoc(KeptDeletes(paths, init), x.path); }
    }
  }

  lemma {:induction false} PruneEq(paths: set<Path>, eq: seq<EqDelete>)
    ensures PruneAfter(paths, EqItems(eq)) == EqItems(eq)
    ensures PathsOf<PosDelete>(EqItems(eq)) == {}
  {
    if eq != [] {
      var n := |eq| - 1;
      PruneEq(paths, eq[..n]);
      assert EqItems<PosDelete>(eq) == EqItems(eq[..n]) + [EqItem(eq[n])];
      PruneSnoc(paths, EqItems(eq[..n]), EqItem(eq[n]));
      PathsOfSnoc<PosDelete>(EqItems(eq[..n]), EqItem(eq[n]));
    }
  }

  lemma {:induction false} PruneLayerItems(paths: set<Path>, layer: Layer<PosDelete>)
    ensures PruneAfter(paths, LayerItems(layer)) == LayerItems(PruneLayer(paths + DataPaths(layer.data), layer))
    ensures PathsOf(LayerItems(layer)) == DataPaths(layer.data)
  {
    var a, b, c := DataItems<PosDelete>(layer.data), PosItems(layer.pos), EqItems<PosDelete>(layer.eq);
    var seen := paths + DataPaths(layer.data);
    PruneConcat(paths, a + b, c);
    PruneConcat(paths, a, b);
    PathsOfConcat(a + b, c);
    PathsOfConcat(a, b);
    PruneData(paths, layer.data);
    DataHasPaths(layer.data);
    PrunePos(seen, layer.pos);
    DeletesHaveNoPaths(layer.pos);
    PruneEq(paths + PathsOf(a + b), layer.eq);
  }

  /** Pruning layers and compacting them is pruning the stream. */
  lemma {:induction false} PruneIsStreamwise(part: Partition<PosDelete>)
    ensures Items(PrunePartition(part)) == Prune(Items(part))
    ensures PathsOf(Items(part)) == PartitionPaths(part)
  {
    if part != [] {
      var init, last := part[..|part|-1], part[|part|-1];
      PruneIsStreamwise(init);
      PruneConcat({}, Items(init), LayerItems(last));
      PathsOfConcat(Items(init), LayerItems(last));
      PruneLayerItems({} + PathsOf(Items(init)), last);
      var layer := PruneLayer(PartitionPaths(part), last);
      assert {} + PathsOf(Items(init)) + DataPaths(last.data) == PartitionPaths(part);
      if layer.Empty() {
        assert PrunePartition(part) == PrunePartition(init);
        assert LayerItems(layer) == [];
      } else {
        ItemsSnoc(PrunePartition(init), layer);
      }
    }
  }

  // ----- Meaning -----

  lemma {:induction false} PathsOfMembers<P>(items: seq<Item<P>>, d: DataEntry)
    requires DataItem(d) in items
    ensures d.path in PathsOf(items)
  {
    if items[|items|-1] != DataItem(d) { PathsOfMembers(items[..|items|-1], d); }
  }

  lemma {:induction false} PruneKeepsData(items: seq<Item<PosDelete>>, d: DataEntry)
    ensures DataItem(d) in Prune(items) <==> DataItem(d) in items
    ensures DataOf(Prune(items)) == DataOf(items)
  {
    if items != [] {
      var init, item := items[..|items|-1], items[|items|-1];
      PruneKeepsData(init, d);
      var kept := PruneItem({} + PathsOf(init), item);
      InConcat(Prune(init), kept, DataItem(d));
      InConcat(init, [item], DataItem(d));
      assert items == init + [item];
      DataOfConcat(Prune(init), kept);
      assert DataOf(kept) == if item.DataItem? then [item.d] else [] by {
        if kept != [] { assert kept[..0] == []; }
      }
    }
  }

  lemma {:induction false} PruneMembers(items: seq<Item<PosDelete>>, q: Path) returns (x: PosDelete)
    requires PosItem(q) in Prune(items)
    ensures x.path == q && PosItem(x) in items
  {
    var init, item := items[..|items|-1], items[|items|-1];
    InConcat(Prune(init), PruneItem({} + PathsOf(init), item), PosItem(q));
    if PosItem(q) in Prune(init) {
      x := PruneMembers(init, q);
    } else {
      x := item.p;
    }
    assert items == init + [item];
  }

  /** No positional pair is invented. */
  lemma {:induction false} PruneSound(items: seq<Item<PosDelete>>, d: DataEntry, q: Path)
    requires Before(Prune(items), d, PosItem(q))
    ensures exists x: PosDelete :: x.path == q && Before(items, d, PosItem(x))
  {
    assert items != [];
    var init, item := items[..|items|-1], items[|items|-1];
    var kept := PruneItem({} + PathsOf(init), item);
    assert items == init + [item];
    BeforeConcat(Prune(init), kept, d, PosItem(q));
    assert !Before(kept, d, PosItem(q));
    if Before(Prune(init), d, PosItem(q)) {
      PruneSound(init, d, q);
      var x: PosDelete :| x.path == q && Before(init, d, PosItem(x));
      BeforeConcat(init, [item], d, PosItem(x));
    } else {
      PruneKeepsData(init, d);
      assert item.PosItem? && item.p.path == q;
      BeforeConcat(init, [item], d, item);
    }
  }

  /** No pair that can have an effect is lost, whether or not the range is ordered. */
  lemma {:induction false} PruneComplete(items: seq<Item<PosDelete>>, d: DataEntry, x: PosDelete)
    requires Before(items, d, PosItem(x)) && Covers(x, d.path)
    ensures Before(Prune(items), d, PosItem(x.path))
  {
    var init, item := items[..|items|-1], items[|items|-1];
    var kept := PruneItem({} + PathsOf(init), item);
    assert items == init + [item];
    BeforeConcat(init, [item], d, PosItem(x));
    BeforeConcat(Prune(init), kept, d, PosItem(x.path));
    assert !Before([item], d, PosItem(x));
    if Before(init, d, PosItem(x)) {
      PruneComplete(init, d, x);
    } else {
      PruneKeepsData(init, d);
      PathsOfMembers(init, d);
      assert item == PosItem(x) && !IsDangling({} + PathsOf(init), x);
      assert kept == [PosItem(x.path)];
    }
  }

  /** Equality deletes are untouched. */
  lemma {:induction false} PruneKeepsEquality(items: seq<Item<PosDelete>>, d: DataEntry, e: EqDelete)
    ensures Before(Prune(items), d, EqItem(e)) <==> Before(items, d, EqItem(e))
  {
    if items != [] {
      var init, item := items[..|items|-1], items[|items|-1];
      var kept := PruneItem({} + PathsOf(init), item);
      assert items == init + [item];
      BeforeConcat(init, [item], d, EqItem(e));
      BeforeConcat(Prune(init), kept, d, EqItem(e));
      assert !Before([item], d, EqItem(e)) && !Before(kept, d, EqItem(e));
      PruneKeepsEquality(init, d, e);
      PruneKeepsData(init, d);
    }
  }

  /** The meaning of one partition before and after the removal of dangling deletes. */
  lemma {:induction false} PrunePreservesMeaning(part: Partition<PosDelete>, d: DataEntry)
    ensures forall q :: Applies(PrunePartition(part), d, PosItem(q)) ==>
              exists x: PosDelete :: x.path == q && Applies(part, d, PosItem(x))
    ensures forall x: PosDelete :: Covers(x, d.path) && Applies(part, d, PosItem(x)) ==>
              Applies(PrunePartition(part), d, PosItem(x.path))
    ensures forall e :: Applies(PrunePartition(part), d, EqItem(e)) <==> Applies(part, d, EqItem(e))
  {
    PruneIsStreamwise(part);
    forall q | Applies(PrunePartition(part), d, PosItem(q))
      ensures exists x: PosDelete :: x.path == q && Applies(part, d, PosItem(x))
    {
      AppliesIsBefore(PrunePartition(part), d, PosItem(q));
      PruneSound(Items(part), d, q);
      var x: PosDelete :| x.path == q && Before(Items(part), d, PosItem(x));
      AppliesIsBefore(part, d, PosItem(x));
    }
    forall x | Covers(x, d.path) && Applies(part, d, PosItem(x))
      ensures Applies(PrunePartition(part), d, PosItem(x.path))
    {
      AppliesIsBefore(part, d, PosItem(x));
      PruneComplete(Items(part), d, x);
      AppliesIsBefore(PrunePartition(part), d, PosItem(x.path));
    }
    forall e ensures Applies(PrunePartition(part), d, EqItem(e)) <==> Applies(part, d, EqItem(e)) {
      AppliesIsBefore(part, d, EqItem(e));
      PruneKeepsEquality(Items(part), d, e);
      AppliesIsBefore(PrunePartition(part), d, EqItem(e));
    }
  }

  // ----- Exactly what is removed -----

  /** Some data file of layer `l` or an earlier one is reached. */
  ghost predicate Reached(part: Partition<PosDelete>, l: nat, x: PosDelete)
    requires x.range.Some?
  {
    exists i, d :: 0 <= i <= l && i < |part| && d in part[i].data && Reaches(x, d.path)
  }

  /** A delete of layer `l` is dropped: it has bounds, and no data file it applies to is reached. */
  ghost predicate Dropped(part: Partition<PosDelete>, l: nat, x: PosDelete)
  {
    x.range.Some? && !Reached(part, l, x)
  }

  /** For ordered bounds "reached" means covered. */
  lemma {:induction false} DroppedWhenOrdered(part: Partition<PosDelete>, l: nat, x: PosDelete)
    requires x.range.Some? && Leq(x.range.value.min, x.range.value.max)
    ensures Dropped(part, l, x) <==>
            forall i, d :: 0 <= i <= l && i < |part| && d in part[i].data ==> !Covers(x, d.path)
  {
  }

  lemma {:induction false} PathsAreData(part: Partition<PosDelete>, p: Path)
    ensures p in PartitionPaths(part) <==> exists i, d :: 0 <= i < |part| && d in part[i].data && d.path == p
  {
    if part != [] {
      var init, last := part[..|part|-1], part[|part|-1];
      PathsAreData(init, p);
      if p in DataPaths(last.data) {
        var i :| 0 <= i < |last.data| && last.data[i].path == p;
        assert last.data[i] in part[|part|-1].data;
      }
      if p in PartitionPaths(init) {
        var i, d :| 0 <= i < |init| && d in init[i].data && d.path == p;
        assert part[i] == init[i];
      }
      if i, d :| 0 <= i < |part| && d in part[i].data && d.path == p {
        if i < |init| { assert init[i] == part[i]; }
      }
    }
  }

  /** The search at layer `l` drops exactly the deletes that reach no data file up to there. */
  lemma {:induction false} DroppedExactly(part: Partition<PosDelete>, l: nat, x: PosDelete)
    requires l < |part|
    ensures IsDangling(PartitionPaths(part[..l+1]), x) <==> Dropped(part, l, x)
  {
    var paths := PartitionPaths(part[..l+1]);
    DanglingExactly(paths, x);
    if x.range.Some? {
      if p :| p in paths && Reaches(x, p) {
        PathsAreData(part[..l+1], p);
        var i, d :| 0 <= i < |part[..l+1]| && d in part[..l+1][i].data && d.path == p;
        assert part[..l+1][i] == part[i];
      }
      if Reached(part, l, x) {
        var i, d :| 0 <= i <= l && i < |part| && d in part[i].data && Reaches(x, d.path);
        assert part[..l+1][i] == part[i];
        PathsAreData(part[..l+1], d.path);
      }
    }
  }

  /** The paths of the deletes of layer `l` that are not dropped, in order. */
  ghost function Remaining(part: Partition<PosDelete>, l: nat, pos: seq<PosDelete>): seq<Path>
  {
    if pos == [] then [] else
      var init, x := Remaining(part, l, pos[..|pos|-1]), pos[|pos|-1];
      if Dropped(part, l, x) then init else init + [x.path]
  }

  /** The layers with their data, their equality deletes and what remains of their positional
      deletes; layers without any file are left out. */
  ghost function Remains(part: Partition<PosDelete>, n: nat): Partition<Path>
    requires n <= |part|
  {
    if n == 0 then [] else
      var layer := Layer(part[n-1].data, Remaining(part, n - 1, part[n-1].pos), part[n-1].eq);
      if layer.Empty() then Remains(part, n - 1) else Remains(part, n - 1) + [layer]
  }

  lemma {:induction false} RemainingIsKept(part: Partition<PosDelete>, l: nat, pos: seq<PosDelete>)
    requires l < |part|
    ensures KeptDeletes(PartitionPaths(part[..l+1]), pos) == Remaining(part, l, pos)
  {
    if pos != [] {
      RemainingIsKept(part, l, pos[..|pos|-1]);
      DroppedExactly(part, l, pos[|pos|-1]);
    }
  }

  lemma {:induction false} PrunePrefix(part: Partition<PosDelete>, n: nat)
    requires n <= |part|
    ensures PrunePartition(part[..n]) == Remains(part, n)
  {
    if n > 0 {
      PrunePrefix(part, n - 1);
      assert part[..n][..n-1] == part[..n-1];
      RemainingIsKept(part, n - 1, part[n-1].pos);
    }
  }

  /** A partition with data loses exactly the dropped deletes and the layers left without files. */
  lemma {:induction false} PruneExactly(part: Partition<PosDelete>)
    ensures PrunePartition(part) == Remains(part, |part|)
  {
    PrunePrefix(part, |part|);
    assert part[..|part|] == part;
  }

  function WithData(): Partition<PosDelete> -> bool
  {
    (part: Partition<PosDelete>) => HasData(part)
  }

  /** Exactly the partitions without data vanish; the others keep their order. */
  lemma {:induction false} PartitionsKept(parts: seq<Partition<PosDelete>>, i: nat)
    requires i < |parts| && HasData(parts[i])
    ensures |RemoveDangling(parts)| == Count(parts, WithData())
    ensures Count(parts[..i], WithData()) < |RemoveDangling(parts)|
    ensures RemoveDangling(parts)[Count(parts[..i], WithData())] == Remains(parts[i], |parts[i]|)
  {
    PartitionsCounted(parts);
    CountAround(parts, i, WithData());
    PartitionsCounted(parts[..i+1]);
    CountSnoc(parts[..i], parts[i], WithData());
    assert parts[..i+1] == parts[..i] + [parts[i]];
    assert parts[..i+1][..i] == parts[..i];
    PartitionsCounted(parts[..i]);
    RemovalGrows(parts, i + 1);
    PruneExactly(parts[i]);
  }

  lemma {:induction false} PartitionsCounted(parts: seq<Partition<PosDelete>>)
    ensures |RemoveDangling(parts)| == Count(parts, WithData())
  {
    if parts != [] { PartitionsCounted(parts[..|parts|-1]); }
  }

  lemma {:induction false} RemovalGrows(parts: seq<Partition<PosDelete>>, n: nat)
    requires n <= |parts|
    ensures |RemoveDangling(parts[..n])| <= |RemoveDangling(parts)|
    ensures RemoveDangling(parts)[..|RemoveDangling(parts[..n])|] == RemoveDangling(parts[..n])
  {
    if n == |parts| {
      assert parts[..n] == parts;
    } else {
      assert parts[..|parts|-1][..n] == parts[..n];
      RemovalGrows(parts[..|parts|-1], n);
    }
  }
}
