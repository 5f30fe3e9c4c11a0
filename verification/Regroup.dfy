/** What regrouping by `referenced_data_file` means. */
module RegroupMeaning {
  import opened Order
  import opened Plan
  import opened Planner
  import opened Referenced

  // ----- The index is exact -----

  ghost predicate DataIndexed(index: DataIndex, part: Partition<Path>)
  {
    && (forall p :: p in index ==> index[p].0.path == p && index[p].1 < |part| && index[p].0 in part[index[p].1].data)
    && (forall i, d :: 0 <= i < |part| && d in part[i].data ==> d.path in index && index[d.path] == (d, i))
  }

  lemma {:induction false} IndexDataAdds(index: DataIndex, data: seq<DataEntry>, l: nat, m: DataIndex)
    requires IndexData(index, data, l) == Ok(m)
    ensures forall p :: p in m <==> p in index || exists d :: d in data && d.path == p
    ensures forall p :: p in index ==> m[p] == index[p]
    ensures forall d :: d in data ==> d.path !in index && m[d.path] == (d, l)
  {
    if data != [] {
      var init, last := data[..|data|-1], data[|data|-1];
      var m' := IndexData(index, init, l).value;
      IndexDataAdds(index, init, l, m');
      forall d ensures d in data <==> d in init || d == last {
        InConcat(init, [last], d);
        assert data == init + [last];
      }
    }
  }

  /** Delete `x.0` of layer `x.1` references data path `p`. */
  predicate References(part: Partition<Path>, refs: Refs, p: Path, x: (Path, nat))
  {
    x.1 < |part| && x.0 in part[x.1].pos && x.0 in refs && refs[x.0] == p
  }

  lemma {:induction false} IndexDeletesAdds(index: DeleteIndex, refs: Refs, pos: seq<Path>, l: nat, m: DeleteIndex,
        p: Path, x: (Path, nat))
    requires IndexDeletes(index, refs, pos, l) == Ok(m)
    ensures x in DeletesFor(m, p) <==>
      x in DeletesFor(index, p) || (x.1 == l && x.0 in pos && x.0 in refs && refs[x.0] == p)
  {
    if pos != [] {
      var init, last := pos[..|pos|-1], pos[|pos|-1];
      var m' := IndexDeletes(index, refs, init, l).value;
      IndexDeletesAdds(index, refs, init, l, m', p, x);
      InConcat(init, [last], x.0);
      assert pos == init + [last];
      InConcat(DeletesFor(m', refs[last]), [(last, l)], x);
    }
  }

  lemma {:induction false} IndexDeletesKeys(index: DeleteIndex, refs: Refs, pos: seq<Path>, l: nat, m: DeleteIndex)
    requires IndexDeletes(index, refs, pos, l) == Ok(m)
    requires forall p :: p in index ==> index[p] != []
    ensures forall p :: p in m ==> m[p] != []
    ensures forall q :: q in pos ==> q in refs
  {
    if pos != [] {
      var init, last := pos[..|pos|-1], pos[|pos|-1];
      IndexDeletesKeys(index, refs, init, l, IndexDeletes(index, refs, init, l).value);
      forall q | q in pos ensures q in refs {
        InConcat(init, [last], q);
        assert pos == init + [last];
      }
    }
  }

  lemma {:induction false} UnfoldIndex(part: Partition<Path>, refs: Refs, index: Index) returns (before: Index)
    requires part != [] && IndexPartition(part, refs) == Ok(index)
    ensures IndexPartition(part[..|part|-1], refs) == Ok(before)
    ensures IndexData(before.data, part[|part|-1].data, |part| - 1) == Ok(index.data)
    ensures IndexDeletes(before.deletes, refs, part[|part|-1].pos, |part| - 1) == Ok(index.deletes)
  {
    before := IndexPartition(part[..|part|-1], refs).value;
  }

  lemma {:induction false} DataIsIndexed(part: Partition<Path>, refs: Refs, index: Index)
    requires IndexPartition(part, refs) == Ok(index)
    ensures DataIndexed(index.data, part)
  {
    if part != [] {
      var n := |part| - 1;
      var before := UnfoldIndex(part, refs, index);
      DataIsIndexed(part[..n], refs, before);
      IndexDataAdds(before.data, part[n].data, n, index.data);
      forall p | p in index.data
        ensures index.data[p].0.path == p && index.data[p].1 < |part| && index.data[p].0 in part[index.data[p].1].data
      {
        if p !in before.data {
          var d :| d in part[n].data && d.path == p;
        }
      }
      forall i, d | 0 <= i < |part| && d in part[i].data ensures d.path in index.data && index.data[d.path] == (d, i) {
        if i < n { assert part[..n][i] == part[i]; }
      }
    }
  }

  lemma {:induction false} DeletesAreIndexed(part: Partition<Path>, refs: Refs, index: Index, p: Path, x: (Path, nat))
    requires IndexPartition(part, refs) == Ok(index)
    ensures x in DeletesFor(index.deletes, p) <==> References(part, refs, p, x)
  {
    if part != [] {
      var n := |part| - 1;
      var before := UnfoldIndex(part, refs, index);
      DeletesAreIndexed(part[..n], refs, before, p, x);
      IndexDeletesAdds(before.deletes, refs, part[n].pos, n, index.deletes, p, x);
    }
  }

  lemma {:induction false} DeleteLists(part: Partition<Path>, refs: Refs, index: Index)
    requires IndexPartition(part, refs) == Ok(index)
    ensures forall p :: p in index.deletes ==> index.deletes[p] != []
  {
    if part != [] {
      var n := |part| - 1;
      var before := UnfoldIndex(part, refs, index);
      DeleteLists(part[..n], refs, before);
      IndexDeletesKeys(before.deletes, refs, part[n].pos, n, index.deletes);
    }
  }

  /** A path has an entry exactly when some delete of the partition references it. */
  lemma {:induction false} DeleteKeys(part: Partition<Path>, refs: Refs, index: Index, p: Path)
    requires IndexPartition(part, refs) == Ok(index)
    ensures p in index.deletes <==> Referencing(part, refs, p)
  {
    DeleteLists(part, refs, index);
    if p in index.deletes {
      var x := index.deletes[p][0];
      assert x in DeletesFor(index.deletes, p);
      DeletesAreIndexed(part, refs, index, p, x);
    }
    if Referencing(part, refs, p) {
      var x :| References(part, refs, p, x);
      DeletesAreIndexed(part, refs, index, p, x);
    }
  }

  /** Some delete of the partition references the path. */
  ghost predicate Referencing(part: Partition<Path>, refs: Refs, p: Path)
  {
    exists x :: References(part, refs, p, x)
  }

  // ----- Emission -----

  lemma {:induction false} NotOlderMembers(deletes: seq<(Path, nat)>, l: nat, q: Path)
    ensures q in NotOlder(deletes, l) <==> exists j: nat :: l <= j && (q, j) in deletes
  {
    if deletes != [] {
      var init, last := deletes[..|deletes|-1], deletes[|deletes|-1];
      NotOlderMembers(init, l, q);
      forall x ensures x in deletes <==> x in init || x == last {
        InConcat(init, [last], x);
        assert deletes == init + [last];
      }
      InConcat(NotOlder(init, l), if last.1 < l then [] else [last.0], q);
      if last.1 >= l && last.0 == q { assert (q, last.1) in deletes; }
    }
  }

  /** The group of one data file. */
  function GroupOf(index: Index, p: Path): Partition<Path>
    requires p in index.data
  {
    var (d, l) := index.data[p];
    [Layer([d], NotOlder(DeletesFor(index.deletes, p), l), [])]
  }

  predicate IsShared(index: Index, p: Path)
    requires p in index.data
  {
    p !in index.deletes && index.data[p].0.dv.None?
  }

  lemma {:induction false} GroupMeaning(index: Index, p: Path, d: DataEntry, q: Path)
    requires p in index.data
    ensures Applies(GroupOf(index, p), d, PosItem(q)) <==>
      d == index.data[p].0 && exists j: nat :: index.data[p].1 <= j && (q, j) in DeletesFor(index.deletes, p)
  {
    var (d0, l) := index.data[p];
    var group := GroupOf(index, p);
    NotOlderMembers(DeletesFor(index.deletes, p), l, q);
    if d == d0 && q in NotOlder(DeletesFor(index.deletes, p), l) {
      assert Holds(group[0], DataItem(d)) && Holds(group[0], PosItem(q));
    }
  }

  lemma {:induction false} PathsSnoc(paths: seq<Path>, p: Path)
    requires paths != []
    ensures p in paths <==> p in paths[..|paths|-1] || p == paths[|paths|-1]
  {
    InConcat(paths[..|paths|-1], [paths[|paths|-1]], p);
    assert paths == paths[..|paths|-1] + [paths[|paths|-1]];
  }

  lemma {:induction false} EmitOneMeaning(r: Regrouped, index: Index, p: Path, d: DataEntry, q: Path)
    requires p in index.data
    ensures Planned(EmitOne(r, index, p).groups, d, PosItem(q)) <==>
            Planned(r.groups, d, PosItem(q)) || Applies(GroupOf(index, p), d, PosItem(q))
    ensures d in EmitOne(r, index, p).shared <==> d in r.shared || (IsShared(index, p) && index.data[p].0 == d)
  {
    if IsShared(index, p) {
      GroupMeaning(index, p, d, q);
      assert DeletesFor(index.deletes, p) == [];
      InConcat(r.shared, [index.data[p].0], d);
    } else {
      PlannedConcat(r.groups, [GroupOf(index, p)], d, PosItem(q));
      PlannedSingle(GroupOf(index, p), d, PosItem(q));
    }
  }

  lemma {:induction false} EmitMeaning(r: Regrouped, index: Index, paths: seq<Path>, d: DataEntry, q: Path)
    requires forall p :: p in paths ==> p in index.data
    ensures Planned(Emit(r, index, paths).groups, d, PosItem(q)) <==>
      Planned(r.groups, d, PosItem(q)) || exists p :: p in paths && Applies(GroupOf(index, p), d, PosItem(q))
  {
    if paths != [] {
      var init, last := paths[..|paths|-1], paths[|paths|-1];
      forall p ensures p in paths <==> p in init || p == last { PathsSnoc(paths, p); }
      EmitMeaning(r, index, init, d, q);
      EmitOneMeaning(Emit(r, index, init), index, last, d, q);
    }
  }

  lemma {:induction false} EmitShares(r: Regrouped, index: Index, paths: seq<Path>, d: DataEntry)
    requires forall p :: p in paths ==> p in index.data
    ensures d in Emit(r, index, paths).shared <==>
      d in r.shared || exists p :: p in paths && IsShared(index, p) && index.data[p].0 == d
  {
    if paths != [] {
      var init, last := paths[..|paths|-1], paths[|paths|-1];
      forall p ensures p in paths <==> p in init || p == last { PathsSnoc(paths, p); }
      EmitShares(r, index, init, d);
      EmitOneMeaning(Emit(r, index, init), index, last, d, []);
    }
  }

  lemma {:induction false} IndexedPair(part: Partition<Path>, refs: Refs, index: Index, d: DataEntry, q: Path)
    requires IndexPartition(part, refs) == Ok(index)
    ensures (exists p :: p in index.data && Applies(GroupOf(index, p), d, PosItem(q))) <==>
            Applies(part, d, PosItem(q)) && q in refs && refs[q] == d.path
  {
    DataIsIndexed(part, refs, index);
    if p :| p in index.data && Applies(GroupOf(index, p), d, PosItem(q)) {
      GroupMeaning(index, p, d, q);
      var j: nat :| index.data[p].1 <= j && (q, j) in DeletesFor(index.deletes, p);
      DeletesAreIndexed(part, refs, index, p, (q, j));
      assert Holds(part[index.data[p].1], DataItem(d)) && Holds(part[j], PosItem(q));
    }
    if Applies(part, d, PosItem(q)) && q in refs && refs[q] == d.path {
      GroupForPair(part, refs, index, d, q);
    }
  }

  lemma {:induction false} GroupForPair(part: Partition<Path>, refs: Refs, index: Index, d: DataEntry, q: Path)
    requires IndexPartition(part, refs) == Ok(index)
    requires Applies(part, d, PosItem(q)) && q in refs && refs[q] == d.path
    ensures d.path in index.data && Applies(GroupOf(index, d.path), d, PosItem(q))
  {
    var i, j :| 0 <= i <= j < |part| && Holds(part[i], DataItem(d)) && Holds(part[j], PosItem(q));
    DataPlace(part, refs, index, i, d);
    DeletesAreIndexed(part, refs, index, d.path, (q, j));
    GroupMeaning(index, d.path, d, q);
  }

  lemma {:induction false} DataPlace(part: Partition<Path>, refs: Refs, index: Index, i: nat, d: DataEntry)
    requires IndexPartition(part, refs) == Ok(index) && i < |part| && d in part[i].data
    ensures d.path in index.data && index.data[d.path] == (d, i)
  {
    DataIsIndexed(part, refs, index);
  }

  /** The data files of a partition with neither vector nor referencing delete. */
  ghost predicate Unaffected(part: Partition<Path>, refs: Refs, d: DataEntry)
  {
    DataItem(d) in Items(part) && d.dv.None? && !Referencing(part, refs, d.path)
  }

  ghost predicate UnaffectedSomewhere(plan: seq<Partition<Path>>, refs: Refs, d: DataEntry)
  {
    exists i :: 0 <= i < |plan| && Unaffected(plan[i], refs, d)
  }

  lemma {:induction false} IndexedShared(part: Partition<Path>, refs: Refs, index: Index, d: DataEntry)
    requires IndexPartition(part, refs) == Ok(index)
    ensures (exists p :: p in index.data && IsShared(index, p) && index.data[p].0 == d) <==> Unaffected(part, refs, d)
  {
    DataIsIndexed(part, refs, index);
    DeleteKeys(part, refs, index, d.path);
    ItemsHold(part, DataItem(d));
    if p :| p in index.data && IsShared(index, p) && index.data[p].0 == d {
      assert Holds(part[index.data[p].1], DataItem(d));
    }
    if Unaffected(part, refs, d) {
      var i :| 0 <= i < |part| && Holds(part[i], DataItem(d));
      assert index.data[d.path] == (d, i) && IsShared(index, d.path);
    }
  }

  /** One partition: a delete stays with exactly the data file it references, and the shared
      partition receives exactly the files with neither vector nor referencing delete. */
  lemma {:induction false} RegroupOneMeaning(r: Regrouped, part: Partition<Path>, refs: Refs, d: DataEntry, q: Path)
    requires RegroupOne(r, part, refs).Ok?
    ensures Planned(RegroupOne(r, part, refs).value.groups, d, PosItem(q)) <==>
      Planned(r.groups, d, PosItem(q)) || (Applies(part, d, PosItem(q)) && q in refs && refs[q] == d.path)
    ensures d in RegroupOne(r, part, refs).value.shared <==> d in r.shared || Unaffected(part, refs, d)
  {
    var index := IndexPartition(part, refs).value;
    EmitMeaning(r, index, IncreasingPaths(index.data.Keys), d, q);
    EmitShares(r, index, IncreasingPaths(index.data.Keys), d);
    IndexedPair(part, refs, index, d, q);
    IndexedShared(part, refs, index, d);
  }

  // ----- Conservation of data files -----

  /** Everything emitted so far. */
  function Emitted(r: Regrouped): seq<DataEntry>
  {
    r.shared + DataOf(PlanItems(r.groups))
  }

  lemma {:induction false} EmitOneKeepsData(r: Regrouped, index: Index, p: Path)
    requires p in index.data
    ensures multiset(Emitted(EmitOne(r, index, p))) == multiset(Emitted(r)) + multiset{index.data[p].0}
  {
    if IsShared(index, p) {
      assert EmitOne(r, index, p).groups == r.groups;
    } else {
      GroupData(r.groups, index, p);
      assert EmitOne(r, index, p).groups == r.groups + [GroupOf(index, p)];
    }
  }

  lemma {:induction false} EmitKeepsData(r: Regrouped, index: Index, paths: seq<Path>)
    requires forall p :: p in paths ==> p in index.data
    ensures multiset(Emitted(Emit(r, index, paths))) == multiset(Emitted(r)) + multiset(Indexed(index, paths))
  {
    if paths != [] {
      EmitKeepsData(r, index, paths[..|paths|-1]);
      EmitOneKeepsData(Emit(r, index, paths[..|paths|-1]), index, paths[|paths|-1]);
    }
  }

  function Indexed(index: Index, paths: seq<Path>): seq<DataEntry>
    requires forall p :: p in paths ==> p in index.data
  {
    if paths == [] then [] else Indexed(index, paths[..|paths|-1]) + [index.data[paths[|paths|-1]].0]
  }

  lemma {:induction false} GroupData(groups: seq<Partition<Path>>, index: Index, p: Path)
    requires p in index.data
    ensures DataOf(PlanItems(groups + [GroupOf(index, p)])) == DataOf(PlanItems(groups)) + [index.data[p].0]
  {
    var group := GroupOf(index, p);
    PlanItemsSnoc(groups, group);
    DataOfConcat(PlanItems(groups), Items(group));
    DataOfLayer(group[0]);
    assert group[..0] == [] && Items(group) == LayerItems(group[0]);
  }

  function Once(b: bool): nat { if b then 1 else 0 }

  lemma {:induction false} CountConcatenated(s: seq<DataEntry>, t: seq<DataEntry>, d: DataEntry)
    ensures multiset(s + t)[d] == multiset(s)[d] + multiset(t)[d]
  {
  }

  lemma {:induction false} IndexDataKeeps(index: DataIndex, data: seq<DataEntry>, l: nat, m: DataIndex, d: DataEntry)
    requires IndexData(index, data, l) == Ok(m)
    ensures multiset(data)[d] == Once(d in data)
  {
    if data != [] {
      var init, last := data[..|data|-1], data[|data|-1];
      var m' := IndexData(index, init, l).value;
      IndexDataKeeps(index, init, l, m', d);
      IndexDataAdds(index, init, l, m');
      SplitLast(data);
      InConcat(init, [last], d);
      assert data == init + [last];
    }
  }

  /** An accepted partition has no data file twice. */
  lemma {:induction false} DataOnce(part: Partition<Path>, refs: Refs, index: Index, d: DataEntry)
    requires IndexPartition(part, refs) == Ok(index)
    ensures multiset(DataOf(Items(part)))[d] == Once(DataItem(d) in Items(part))
  {
    if part != [] {
      var n := |part| - 1;
      var before := UnfoldIndex(part, refs, index);
      DataOnce(part[..n], refs, before, d);
      IndexDataKeeps(before.data, part[n].data, n, index.data, d);
      DataOfConcat(Items(part[..n]), LayerItems(part[n]));
      DataOfLayer(part[n]);
      CountConcatenated(DataOf(Items(part[..n])), part[n].data, d);
      InConcat(Items(part[..n]), LayerItems(part[n]), DataItem(d));
      LayerItemsHold(part[n], DataItem(d));
      if DataItem(d) in Items(part[..n]) { NotInBoth(part[..n], part[n].data, refs, before, index.data, d); }
    }
  }

  lemma {:induction false} NotInBoth(init: Partition<Path>, data: seq<DataEntry>, refs: Refs, before: Index,
        after: DataIndex, d: DataEntry)
    requires IndexPartition(init, refs) == Ok(before) && IndexData(before.data, data, |init|) == Ok(after)
    requires DataItem(d) in Items(init)
    ensures d !in data
  {
    DataIsIndexed(init, refs, before);
    ItemsHold(init, DataItem(d));
    var i :| 0 <= i < |init| && Holds(init[i], DataItem(d));
    assert d in init[i].data && d.path in before.data;
    IndexDataAdds(before.data, data, |init|, after);
  }

  lemma {:induction false} IndexedOnce(index: Index, paths: seq<Path>, d: DataEntry)
    requires forall p :: p in paths ==> p in index.data && index.data[p].0.path == p
    requires forall i, j :: 0 <= i < j < |paths| ==> paths[i] != paths[j]
    ensures multiset(Indexed(index, paths))[d] == Once(d.path in paths && index.data[d.path].0 == d)
  {
    if paths != [] {
      var init, last := paths[..|paths|-1], paths[|paths|-1];
      assert last in paths && forall p :: p in init ==> p in paths;
      IndexedOnce(index, init, d);
      InConcat(init, [last], d.path);
      assert paths == init + [last];
      assert last !in init;
    }
  }

  lemma {:induction false} IndexedMembers(part: Partition<Path>, refs: Refs, index: Index, d: DataEntry)
    requires IndexPartition(part, refs) == Ok(index)
    ensures d.path in index.data && index.data[d.path].0 == d <==> DataItem(d) in Items(part)
  {
    DataIsIndexed(part, refs, index);
    ItemsHold(part, DataItem(d));
    if d.path in index.data && index.data[d.path].0 == d {
      assert Holds(part[index.data[d.path].1], DataItem(d));
    }
    if i :| 0 <= i < |part| && Holds(part[i], DataItem(d)) {
      assert index.data[d.path] == (d, i);
    }
  }

  lemma {:induction false} SameCount(part: Partition<Path>, refs: Refs, index: Index, d: DataEntry)
    requires IndexPartition(part, refs) == Ok(index)
    requires forall p :: p in index.data ==> index.data[p].0.path == p
    ensures multiset(Indexed(index, IncreasingPaths(index.data.Keys)))[d] == multiset(DataOf(Items(part)))[d]
  {
    IndexedOnce(index, IncreasingPaths(index.data.Keys), d);
    DataOnce(part, refs, index, d);
    IndexedMembers(part, refs, index, d);
  }

  lemma {:induction false} IndexedIsPartition(part: Partition<Path>, refs: Refs, index: Index)
    requires IndexPartition(part, refs) == Ok(index)
    ensures multiset(Indexed(index, IncreasingPaths(index.data.Keys))) == multiset(DataOf(Items(part)))
  {
    DataIsIndexed(part, refs, index);
    forall d { SameCount(part, refs, index, d); }
  }

  // ----- The whole plan -----

  lemma {:induction false} UnfoldRegroup(plan: seq<Partition<Path>>, refs: Refs)
    requires plan != [] && RegroupAll(plan, refs).Ok?
    ensures RegroupAll(plan[..|plan|-1], refs).Ok?
    ensures RegroupAll(plan, refs) == RegroupOne(RegroupAll(plan[..|plan|-1], refs).value, plan[|plan|-1], refs)
  {
  }

  lemma {:induction false} RegroupAllMeaning(plan: seq<Partition<Path>>, refs: Refs, d: DataEntry, q: Path)
    requires RegroupAll(plan, refs).Ok?
    ensures Planned(RegroupAll(plan, refs).value.groups, d, PosItem(q)) <==>
      Planned(plan, d, PosItem(q)) && q in refs && refs[q] == d.path
    ensures d in RegroupAll(plan, refs).value.shared <==> UnaffectedSomewhere(plan, refs, d)
  {
    if plan != [] {
      var init, last := plan[..|plan|-1], plan[|plan|-1];
      UnfoldRegroup(plan, refs);
      RegroupAllMeaning(init, refs, d, q);
      RegroupOneMeaning(RegroupAll(init, refs).value, last, refs, d, q);
      PlannedSnoc(plan, d, PosItem(q));
      UnaffectedSnoc(plan, refs, d);
    }
  }

  lemma {:induction false} UnaffectedSnoc(plan: seq<Partition<Path>>, refs: Refs, d: DataEntry)
    requires plan != []
    ensures UnaffectedSomewhere(plan, refs, d) <==>
      UnaffectedSomewhere(plan[..|plan|-1], refs, d) || Unaffected(plan[|plan|-1], refs, d)
  {
    var init := plan[..|plan|-1];
    if i :| 0 <= i < |plan| && Unaffected(plan[i], refs, d) {
      if i < |init| { assert Unaffected(init[i], refs, d); }
    }
    if i :| 0 <= i < |init| && Unaffected(init[i], refs, d) { assert Unaffected(plan[i], refs, d); }
  }

  lemma {:induction false} RegroupAllKeepsData(plan: seq<Partition<Path>>, refs: Refs)
    requires RegroupAll(plan, refs).Ok?
    ensures multiset(Emitted(RegroupAll(plan, refs).value)) == multiset(DataOf(PlanItems(plan)))
  {
    if plan != [] {
      var init, last := plan[..|plan|-1], plan[|plan|-1];
      UnfoldRegroup(plan, refs);
      RegroupAllKeepsData(init, refs);
      var index := IndexPartition(last, refs).value;
      EmitKeepsData(RegroupAll(init, refs).value, index, IncreasingPaths(index.data.Keys));
      IndexedIsPartition(last, refs, index);
      DataOfConcat(PlanItems(init), Items(last));
    }
  }

  lemma {:induction false} SharedHasNoPairs(shared: seq<DataEntry>, d: DataEntry, q: Path)
    ensures !Applies([Layer(shared, [], [])], d, PosItem(q))
    ensures DataOf(Items<Path>([Layer(shared, [], [])])) == shared
  {
    var part: Partition<Path> := [Layer(shared, [], [])];
    assert part[..0] == [] && Items(part) == LayerItems(part[0]);
    DataOfLayer(part[0]);
  }

  /** Regrouping keeps a pair exactly when the delete references the data file. */
  lemma {:induction false} RegroupPreservesMeaning(plan: seq<Partition<Path>>, refs: Refs, d: DataEntry, q: Path)
    requires Regroup(plan, refs).Ok?
    ensures Planned(Regroup(plan, refs).value, d, PosItem(q)) <==>
      Planned(plan, d, PosItem(q)) && q in refs && refs[q] == d.path
  {
    var r := RegroupAll(plan, refs).value;
    RegroupAllMeaning(plan, refs, d, q);
    if r.shared != [] {
      PlannedConcat([[Layer(r.shared, [], [])]], r.groups, d, PosItem(q));
      PlannedSingle([Layer(r.shared, [], [])], d, PosItem(q));
      SharedHasNoPairs(r.shared, d, q);
    }
  }

  /** Regrouping keeps every data file exactly once. */
  lemma {:induction false} RegroupKeepsData(plan: seq<Partition<Path>>, refs: Refs)
    requires Regroup(plan, refs).Ok?
    ensures multiset(DataOf(PlanItems(Regroup(plan, refs).value))) == multiset(DataOf(PlanItems(plan)))
  {
    var r := RegroupAll(plan, refs).value;
    RegroupAllKeepsData(plan, refs);
    if r.shared != [] {
      var first: seq<Partition<Path>> := [[Layer(r.shared, [], [])]];
      PlanItemsConcat(first, r.groups);
      DataOfConcat(PlanItems(first), PlanItems(r.groups));
      SharedHasNoPairs(r.shared, DataEntry([], [], None), []);
      PlanItemsSnoc([], first[0]);
      assert [] + [first[0]] == first;
      assert PlanItems<Path>([]) + Items(first[0]) == Items(first[0]);
    }
  }

  // ----- Errors -----

  lemma {:induction false} IndexDeletesSucceeds(index: DeleteIndex, refs: Refs, pos: seq<Path>, l: nat)
    requires forall q :: q in pos ==> q in refs
    ensures IndexDeletes(index, refs, pos, l).Ok?
  {
    if pos != [] {
      assert pos[|pos|-1] in pos && forall q :: q in pos[..|pos|-1] ==> q in pos;
      IndexDeletesSucceeds(index, refs, pos[..|pos|-1], l);
    }
  }

  lemma {:induction false} IndexDataErrors(index: DataIndex, data: seq<DataEntry>, l: nat)
    requires IndexData(index, data, l).Err?
    ensures IndexData(index, data, l).error.DuplicateDataPath?
  {
    if IndexData(index, data[..|data|-1], l).Err? { IndexDataErrors(index, data[..|data|-1], l); }
  }

  lemma {:induction false} IndexErrors(part: Partition<Path>, refs: Refs)
    requires IndexPartition(part, refs).Err?
    requires forall q :: PosItem(q) in Items(part) ==> q in refs
    ensures IndexPartition(part, refs).error.DuplicateDataPath?
  {
    var init, last := part[..|part|-1], part[|part|-1];
    forall q | q in last.pos ensures q in refs {
      LayerItemsHold(last, PosItem(q));
      InConcat(Items(init), LayerItems(last), PosItem(q));
    }
    if IndexPartition(init, refs).Err? {
      forall q | PosItem(q) in Items(init) ensures q in refs {
        InConcat(Items(init), LayerItems(last), PosItem(q));
      }
      IndexErrors(init, refs);
    } else {
      var index := IndexPartition(init, refs).value;
      IndexDeletesSucceeds(index.deletes, refs, last.pos, |part| - 1);
      IndexDataErrors(index.data, last.data, |part| - 1);
    }
  }

  /** If every delete is annotated, regrouping fails only on a repeated data path. */
  lemma {:induction false} RegroupErrors(plan: seq<Partition<Path>>, refs: Refs)
    requires RegroupAll(plan, refs).Err?
    requires forall q :: PosItem(q) in PlanItems(plan) ==> q in refs
    ensures RegroupAll(plan, refs).error.DuplicateDataPath?
  {
    var init, last := plan[..|plan|-1], plan[|plan|-1];
    if RegroupAll(init, refs).Err? {
      forall q | PosItem(q) in PlanItems(init) ensures q in refs {
        InConcat(PlanItems(init), Items(last), PosItem(q));
      }
      RegroupErrors(init, refs);
    } else {
      forall q | PosItem(q) in Items(last) ensures q in refs {
        InConcat(PlanItems(init), Items(last), PosItem(q));
      }
      IndexErrors(last, refs);
    }
  }
}
