/** The whole planner of `ScanMetadataBuilder::GetResult`: its stages, and what each does to the
    meaning of the plan. */
module Planner {
  import opened Order
  import opened Plan
  import opened Scanline
  import opened Buckets
  import opened Dangling
  import opened Builder
  import opened Resolve

  // ----- The stages -----

  function MergedLayers(st: State, k: Key): Layers
  {
    ApplyGlobal(LayersAt(st, k), st.globalEq)
  }

  function Vec(st: State, keys: seq<Key>): Result<seq<Partition<PosDelete>>>
  {
    if keys == [] then Ok([]) else
      match Vec(st, keys[..|keys|-1])
      case Err(e) => Err(e)
      case Ok(parts) =>
        match ResolvePartition(MergedLayers(st, keys[|keys|-1]))
        case Err(e) => Err(e)
        case Ok(part) => Ok(parts + [part])
  }

  /** What the optimiser turns one partition into. */
  function Split(part: Partition<PosDelete>): Distribution
  {
    if CanOptimizePartition(part) then OptimizePartition(part) else Ok([part])
  }

  function OptimizeAll(parts: seq<Partition<PosDelete>>): Distribution
  {
    if parts == [] then Ok([]) else
      match OptimizeAll(parts[..|parts|-1])
      case Err(e) => Err(e)
      case Ok(done) =>
        match Split(parts[|parts|-1])
        case Err(e) => Err(e)
        case Ok(more) => Ok(done + more)
  }

  /** `GetPartitions`. */
  function Layout(parts: seq<Partition<PosDelete>>): Result<seq<Partition<Path>>>
  {
    match OptimizeAll(parts)
    case Err(e) => Err(e)
    case Ok(split) => Ok(RemoveDangling(split))
  }

  function Keys(st: State): (keys: seq<Key>)
    ensures forall k :: k in keys <==> k in st.partitions
    ensures forall i, j :: 0 <= i < j < |keys| ==> keys[i] != keys[j] && Leq(keys[i], keys[j])
  {
    IncreasingPaths(st.partitions.Keys)
  }

  /** `ScanMetadataBuilder::GetResult` as a function of the stored state. */
  function BuilderPlan(st: State): Result<seq<Partition<Path>>>
  {
    match Vec(st, Keys(st))
    case Err(e) => Err(e)
    case Ok(parts) => Layout(parts)
  }

  // ----- The methods -----

  lemma {:induction false} VecFails(st: State, keys: seq<Key>, n: nat)
    requires n <= |keys| && Vec(st, keys[..n]).Err?
    ensures Vec(st, keys) == Vec(st, keys[..n])
  {
    if n == |keys| {
      assert keys[..n] == keys;
    } else {
      assert keys[..|keys|-1][..n] == keys[..n];
      VecFails(st, keys[..|keys|-1], n);
    }
  }

  lemma {:induction false} OptimizeFails(parts: seq<Partition<PosDelete>>, n: nat)
    requires n <= |parts| && OptimizeAll(parts[..n]).Err?
    ensures OptimizeAll(parts) == OptimizeAll(parts[..n])
  {
    if n == |parts| {
      assert parts[..n] == parts;
    } else {
      assert parts[..|parts|-1][..n] == parts[..n];
      OptimizeFails(parts[..|parts|-1], n);
    }
  }

  lemma {:induction false} NothingToOptimize(parts: seq<Partition<PosDelete>>)
    requires forall i :: 0 <= i < |parts| ==> !CanOptimizePartition(parts[i])
    ensures OptimizeAll(parts) == Ok(parts)
  {
    if parts != [] {
      NothingToOptimize(parts[..|parts|-1]);
      assert parts == parts[..|parts|-1] + [parts[|parts|-1]];
    }
  }

  method GetPartitions(parts: seq<Partition<PosDelete>>) returns (r: Result<seq<Partition<Path>>>)
    ensures r == Layout(parts)
  {
    var canOptimize := exists i :: 0 <= i < |parts| && CanOptimizePartition(parts[i]);
    var split: Distribution;
    if canOptimize {
      split := Optimize(parts);
    } else {
      NothingToOptimize(parts);
      split := Ok(parts);
    }
    if split.Err? {
      return Err(split.error);
    }
    var plan := RemoveDanglingDeletes(split.value);
    return Ok(plan);
  }

  method Optimize(parts: seq<Partition<PosDelete>>) returns (r: Distribution)
    ensures r == OptimizeAll(parts)
  {
    var result: seq<Partition<PosDelete>> := [];
    for i := 0 to |parts|
      invariant OptimizeAll(parts[..i]) == Ok(result)
    {
      assert parts[..i+1][..i] == parts[..i];
      if CanOptimizePartition(parts[i]) {
        var groups: Distribution := Err(InternalError);
        var bounds := FindBucketLowerBounds(parts[i]);
        if bounds.Ok? {
          groups := RedistributeDataIntoBuckets(bounds.value, parts[i]);
        } else {
          groups := Err(bounds.error);
        }
        if groups.Err? {
          OptimizeFails(parts, i + 1);
          return groups;
        }
        result := result + groups.value;
      } else {
        result := result + [parts[i]];
      }
    }
    assert parts[..|parts|] == parts;
    return Ok(result);
  }

  lemma {:induction false} VecStep(st: State, keys: seq<Key>, i: nat)
    requires i < |keys| && Vec(st, keys[..i]).Ok?
    ensures var part := ResolvePartition(MergedLayers(st, keys[i]));
      if part.Ok? then Vec(st, keys[..i+1]) == Ok(Vec(st, keys[..i]).value + [part.value])
      else Vec(st, keys) == Err(part.error)
  {
    assert keys[..i+1][..i] == keys[..i];
    if ResolvePartition(MergedLayers(st, keys[i])).Err? { VecFails(st, keys, i + 1); }
  }

  /** The stored layers of each key, merged and resolved. */
  method MergeAndResolve(st: State, keys: seq<Key>) returns (r: Result<seq<Partition<PosDelete>>>)
    requires forall k :: k in keys ==> k in st.partitions
    ensures r == Vec(st, keys)
  {
    var parts: seq<Partition<PosDelete>> := [];
    for i := 0 to |keys|
      invariant Vec(st, keys[..i]) == Ok(parts)
    {
      VecStep(st, keys, i);
      var layers := ApplyGlobalEqualityDeletes(st.partitions[keys[i]], st.globalEq);
      var part := ResolveDeletionVectors(layers);
      if part.Err? {
        return Err(part.error);
      }
      parts := parts + [part.value];
    }
    assert keys[..|keys|] == keys;
    r := Ok(parts);
  }

  /** `ScanMetadataBuilder::GetResult`: the stored layers are merged in place and then moved out,
      after which the builder's partitions are unspecified. */
  method GetResult(builder: ScanMetadataBuilder) returns (r: Result<seq<Partition<Path>>>)
    modifies builder
    ensures r == BuilderPlan(old(builder.Contents()))
    ensures builder.globalEqualityDeletes == old(builder.globalEqualityDeletes)
  {
    var st := State(builder.partitions, builder.globalEqualityDeletes);
    builder.partitions := *;
    var parts := MergeAndResolve(st, IncreasingPaths(st.partitions.Keys));
    if parts.Err? {
      return Err(parts.error);
    }
    r := GetPartitions(parts.value);
  }

  // ----- Meaning of each stage -----

  lemma {:induction false} PlannedConcat<P>(p: seq<Partition<P>>, q: seq<Partition<P>>, d: DataEntry, x: Item<P>)
    ensures Planned(p + q, d, x) <==> Planned(p, d, x) || Planned(q, d, x)
  {
    if Planned(p, d, x) {
      var i :| 0 <= i < |p| && Applies(p[i], d, x);
      assert Applies((p + q)[i], d, x);
    }
    if Planned(q, d, x) {
      var i :| 0 <= i < |q| && Applies(q[i], d, x);
      assert Applies((p + q)[|p| + i], d, x);
    }
    if Planned(p + q, d, x) {
      var i :| 0 <= i < |p + q| && Applies((p + q)[i], d, x);
      if i < |p| { assert Applies(p[i], d, x); } else { assert Applies(q[i - |p|], d, x); }
    }
  }

  lemma {:induction false} PlannedSingle<P>(part: Partition<P>, d: DataEntry, x: Item<P>)
    ensures Planned([part], d, x) <==> Applies(part, d, x)
  {
    if Applies(part, d, x) { assert Applies([part][0], d, x); }
  }

  lemma {:induction false} NoEqualityNoPair(part: Partition<PosDelete>, d: DataEntry, e: EqDelete)
    requires NoEquality(part)
    ensures !Applies(part, d, EqItem(e))
  {
  }

  lemma {:induction false} SplitMeaning(part: Partition<PosDelete>, d: DataEntry, x: PosDelete, e: EqDelete)
    requires Split(part).Ok?
    ensures Planned(Split(part).value, d, PosItem(x)) ==> Applies(part, d, PosItem(x))
    ensures Covers(x, d.path) && Applies(part, d, PosItem(x)) ==> Planned(Split(part).value, d, PosItem(x))
    ensures Planned(Split(part).value, d, EqItem(e)) <==> Applies(part, d, EqItem(e))
    ensures multiset(PlanItems(Split(part).value)) == multiset(Items(part))
  {
    if CanOptimizePartition(part) {
      OptimizePreservesMeaning(part, d, x);
      OptimizeConservesFiles(part);
      NoEqualityNoPair(part, d, e);
      var buckets := OptimizePartition(part).value;
      forall g | 0 <= g < |buckets| ensures !Applies(buckets[g], d, EqItem(e)) {
        SameBucketMeaning(part, g, d, EqItem(e));
      }
    } else {
      PlannedSingle(part, d, PosItem(x));
      PlannedSingle(part, d, EqItem(e));
      PlanItemsSnoc([], part);
      assert [] + [part] == [part];
      assert PlanItems<PosDelete>([]) + Items(part) == Items(part);
    }
  }

  lemma {:induction false} PlannedSnoc<P>(plan: seq<Partition<P>>, d: DataEntry, x: Item<P>)
    requires plan != []
    ensures Planned(plan, d, x) <==> Planned(plan[..|plan|-1], d, x) || Applies(plan[|plan|-1], d, x)
  {
    PlannedConcat(plan[..|plan|-1], [plan[|plan|-1]], d, x);
    PlannedSingle(plan[|plan|-1], d, x);
    assert plan == plan[..|plan|-1] + [plan[|plan|-1]];
  }

  lemma {:induction false} UnfoldOptimize(parts: seq<Partition<PosDelete>>)
    requires parts != [] && OptimizeAll(parts).Ok?
    ensures OptimizeAll(parts[..|parts|-1]).Ok? && Split(parts[|parts|-1]).Ok?
    ensures OptimizeAll(parts).value == OptimizeAll(parts[..|parts|-1]).value + Split(parts[|parts|-1]).value
  {
  }

  lemma {:induction false} OptimizeMeaning(parts: seq<Partition<PosDelete>>, d: DataEntry, x: PosDelete, e: EqDelete)
    requires OptimizeAll(parts).Ok?
    ensures Planned(OptimizeAll(parts).value, d, PosItem(x)) ==> Planned(parts, d, PosItem(x))
    ensures Covers(x, d.path) && Planned(parts, d, PosItem(x)) ==> Planned(OptimizeAll(parts).value, d, PosItem(x))
    ensures Planned(OptimizeAll(parts).value, d, EqItem(e)) <==> Planned(parts, d, EqItem(e))
  {
    if parts != [] {
      var init, last := parts[..|parts|-1], parts[|parts|-1];
      UnfoldOptimize(parts);
      OptimizeMeaning(init, d, x, e);
      SplitMeaning(last, d, x, e);
      PlannedConcat(OptimizeAll(init).value, Split(last).value, d, PosItem(x));
      PlannedConcat(OptimizeAll(init).value, Split(last).value, d, EqItem(e));
      PlannedSnoc(parts, d, PosItem(x));
      PlannedSnoc(parts, d, EqItem(e));
    }
  }

  lemma {:induction false} OptimizeConserves(parts: seq<Partition<PosDelete>>)
    requires OptimizeAll(parts).Ok?
    ensures multiset(PlanItems(OptimizeAll(parts).value)) == multiset(PlanItems(parts))
  {
    if parts != [] {
      var init, last := parts[..|parts|-1], parts[|parts|-1];
      UnfoldOptimize(parts);
      OptimizeConserves(init);
      SplitMeaning(last, DataEntry([], [], None), PosDelete([], None), EqDelete([], []));
      PlanItemsConcat(OptimizeAll(init).value, Split(last).value);
    }
  }

  lemma {:induction false} NoDataNoPair(part: Partition<PosDelete>, d: DataEntry, x: Item<PosDelete>)
    requires !HasData(part)
    ensures !Applies(part, d, x)
    ensures DataOf(Items(part)) == []
  {
    if DataOf(Items(part)) != [] {
      var d0 := DataOf(Items(part))[0];
      DataOfMembers(Items(part), d0);
      ItemsHold(part, DataItem(d0));
    }
  }

  lemma {:induction false} UnfoldDangling(parts: seq<Partition<PosDelete>>)
    requires parts != []
    ensures var before, last := RemoveDangling(parts[..|parts|-1]), parts[|parts|-1];
      RemoveDangling(parts) == if HasData(last) then before + [PrunePartition(last)] else before
  {
    assert RemoveDangling(parts[..|parts|-1]) + [] == RemoveDangling(parts[..|parts|-1]);
  }

  lemma {:induction false} DanglingSound(parts: seq<Partition<PosDelete>>, d: DataEntry, q: Path) returns (x: PosDelete)
    requires Planned(RemoveDangling(parts), d, PosItem(q))
    ensures x.path == q && Planned(parts, d, PosItem(x))
  {
    var init, last := parts[..|parts|-1], parts[|parts|-1];
    var before, pruned := RemoveDangling(init), PrunePartition(last);
    UnfoldDangling(parts);
    if Planned(before, d, PosItem(q)) {
      x := DanglingSound(init, d, q);
    } else {
      PlannedConcat(before, [pruned], d, PosItem(q));
      PlannedSingle(pruned, d, PosItem(q));
      PrunePreservesMeaning(last, d);
      x :| x.path == q && Applies(last, d, PosItem(x));
    }
    PlannedSnoc(parts, d, PosItem(x));
  }

  lemma {:induction false} DanglingComplete(parts: seq<Partition<PosDelete>>, d: DataEntry, x: PosDelete)
    requires Planned(parts, d, PosItem(x)) && Covers(x, d.path)
    ensures Planned(RemoveDangling(parts), d, PosItem(x.path))
  {
    var init, last := parts[..|parts|-1], parts[|parts|-1];
    var before, pruned := RemoveDangling(init), PrunePartition(last);
    UnfoldDangling(parts);
    PlannedSnoc(parts, d, PosItem(x));
    PlannedConcat(before, [pruned], d, PosItem(x.path));
    if Planned(init, d, PosItem(x)) {
      DanglingComplete(init, d, x);
    } else {
      if !HasData(last) { NoDataNoPair(last, d, PosItem(x)); }
      PrunePreservesMeaning(last, d);
      PlannedSingle(pruned, d, PosItem(x.path));
    }
  }

  lemma {:induction false} DanglingEquality(parts: seq<Partition<PosDelete>>, d: DataEntry, e: EqDelete)
    ensures Planned(RemoveDangling(parts), d, EqItem(e)) <==> Planned(parts, d, EqItem(e))
  {
    if parts != [] {
      var init, last := parts[..|parts|-1], parts[|parts|-1];
      var before, pruned := RemoveDangling(init), PrunePartition(last);
      UnfoldDangling(parts);
      DanglingEquality(init, d, e);
      PlannedSnoc(parts, d, EqItem(e));
      PlannedConcat(before, [pruned], d, EqItem(e));
      PlannedSingle(pruned, d, EqItem(e));
      if HasData(last) { PrunePreservesMeaning(last, d); } else { NoDataNoPair(last, d, EqItem(e)); }
    }
  }

  lemma {:induction false} DanglingKeepsData(parts: seq<Partition<PosDelete>>)
    ensures DataOf(PlanItems(RemoveDangling(parts))) == DataOf(PlanItems(parts))
  {
    if parts != [] {
      var init, last := parts[..|parts|-1], parts[|parts|-1];
      var before, pruned := RemoveDangling(init), PrunePartition(last);
      UnfoldDangling(parts);
      DanglingKeepsData(init);
      DataOfConcat(PlanItems(init), Items(last));
      if HasData(last) {
        PlanItemsSnoc(before, pruned);
        DataOfConcat(PlanItems(before), Items(pruned));
        PruneIsStreamwise(last);
        PruneKeepsData(Items(last), DataEntry([], [], None));
      } else {
        NoDataNoPair(last, DataEntry([], [], None), EqItem(EqDelete([], [])));
      }
    }
  }

  lemma {:induction false} DanglingMembers(parts: seq<Partition<PosDelete>>, q: Path) returns (x: PosDelete)
    requires PosItem(q) in PlanItems(RemoveDangling(parts))
    ensures x.path == q && PosItem(x) in PlanItems(parts)
  {
    var init, last := parts[..|parts|-1], parts[|parts|-1];
    var before, pruned := RemoveDangling(init), PrunePartition(last);
    UnfoldDangling(parts);
    if PosItem(q) in PlanItems(before) {
      x := DanglingMembers(init, q);
    } else {
      PlanItemsSnoc(before, pruned);
      InConcat(PlanItems(before), Items(pruned), PosItem(q));
      PruneIsStreamwise(last);
      x := PruneMembers(Items(last), q);
    }
    InConcat(PlanItems(init), Items(last), PosItem(x));
  }

  /** Every positional delete of a layout was in the partitions. */
  lemma {:induction false} LayoutMembers(parts: seq<Partition<PosDelete>>, q: Path) returns (x: PosDelete)
    requires Layout(parts).Ok? && PosItem(q) in PlanItems(Layout(parts).value)
    ensures x.path == q && PosItem(x) in PlanItems(parts)
  {
    x := DanglingMembers(OptimizeAll(parts).value, q);
    OptimizeConserves(parts);
    assert PosItem(x) in multiset(PlanItems(parts));
  }

  lemma {:induction false} PlanItemsHold<P>(plan: seq<Partition<P>>, x: Item<P>) returns (i: nat)
    requires x in PlanItems(plan)
    ensures i < |plan| && x in Items(plan[i])
  {
    var init, last := plan[..|plan|-1], plan[|plan|-1];
    InConcat(PlanItems(init), Items(last), x);
    if x in PlanItems(init) {
      i := PlanItemsHold(init, x);
    } else {
      i := |init|;
    }
  }

  /** The two rewrites together: a positional pair of the layout comes from the partitions ... */
  lemma {:induction false} LayoutSound(parts: seq<Partition<PosDelete>>, d: DataEntry, q: Path) returns (x: PosDelete)
    requires Layout(parts).Ok? && Planned(Layout(parts).value, d, PosItem(q))
    ensures x.path == q && Planned(parts, d, PosItem(x))
  {
    x := DanglingSound(OptimizeAll(parts).value, d, q);
    OptimizeMeaning(parts, d, x, EqDelete([], []));
  }

  /** ... every pair that can have an effect is kept ... */
  lemma {:induction false} LayoutComplete(parts: seq<Partition<PosDelete>>, d: DataEntry, x: PosDelete)
    requires Layout(parts).Ok? && Planned(parts, d, PosItem(x)) && Covers(x, d.path)
    ensures Planned(Layout(parts).value, d, PosItem(x.path))
  {
    OptimizeMeaning(parts, d, x, EqDelete([], []));
    DanglingComplete(OptimizeAll(parts).value, d, x);
  }

  /** ... equality pairs are unchanged ... */
  lemma {:induction false} LayoutEquality(parts: seq<Partition<PosDelete>>, d: DataEntry, e: EqDelete)
    requires Layout(parts).Ok?
    ensures Planned(Layout(parts).value, d, EqItem(e)) <==> Planned(parts, d, EqItem(e))
  {
    OptimizeMeaning(parts, d, PosDelete([], None), e);
    DanglingEquality(OptimizeAll(parts).value, d, e);
  }

  /** ... and every data file is kept exactly once. */
  lemma {:induction false} LayoutConserves(parts: seq<Partition<PosDelete>>)
    requires Layout(parts).Ok?
    ensures multiset(DataOf(PlanItems(Layout(parts).value))) == multiset(DataOf(PlanItems(parts)))
  {
    var split := OptimizeAll(parts).value;
    OptimizeConserves(parts);
    DataOfPermutation(PlanItems(split), PlanItems(parts));
    DanglingKeepsData(split);
  }

  lemma {:induction false} DataOfPermutation<P>(s: seq<Item<P>>, t: seq<Item<P>>)
    requires multiset(s) == multiset(t)
    ensures multiset(DataOf(s)) == multiset(DataOf(t))
  {
    if s == [] {
      assert |multiset(t)| == 0;
    } else {
      var n := |s| - 1;
      var x := s[n];
      assert x in multiset(t);
      var k :| 0 <= k < |t| && t[k] == x;
      DataOfRemove(t, k);
      SplitLast(s);
      Cancel(multiset(s[..n]), multiset(t[..k] + t[k+1..]), x);
      DataOfPermutation(s[..n], t[..k] + t[k+1..]);
    }
  }

  lemma {:induction false} DataOfRemove<P>(t: seq<Item<P>>, k: nat)
    requires k < |t|
    ensures multiset(t) == multiset(t[..k] + t[k+1..]) + multiset{t[k]}
    ensures multiset(DataOf(t))
            == multiset(DataOf(t[..k] + t[k+1..])) + (if t[k].DataItem? then multiset{t[k].d} else multiset{})
  {
    var left, right := t[..k], t[k+1..];
    DataOfSplit(t, k);
    DataOfConcat(left, right);
    assert t == left + [t[k]] + right;
  }

  lemma {:induction false} DataOfSplit<P>(t: seq<Item<P>>, k: nat)
    requires k < |t|
    ensures DataOf(t) == DataOf(t[..k]) + (if t[k].DataItem? then [t[k].d] else []) + DataOf(t[k+1..])
  {
    assert t == (t[..k] + [t[k]]) + t[k+1..];
    DataOfConcat(t[..k] + [t[k]], t[k+1..]);
    DataOfSnoc(t[..k], t[k]);
  }
}
