/** Regrouping respects reordering inside layers. */
module SameRegroup {
  import opened Order
  import opened Permutations
  import opened Plan
  import opened Builder
  import opened Planner
  import opened Referenced
  import opened RegroupMeaning
  import opened SamePlans

  function HasPath(p: Path): DataEntry -> bool { (d: DataEntry) => d.path == p }

  lemma {:induction false} IndexDataCounts(index: DataIndex, data: seq<DataEntry>, l: nat, p: Path)
    requires IndexData(index, data, l).Ok?
    ensures (if p in index then 1 else 0) + Count(data, HasPath(p))
            == if p in IndexData(index, data, l).value then 1 else 0
  {
    if data != [] { IndexDataCounts(index, data[..|data|-1], l, p); }
  }

  /** Indexing data files fails exactly when a path occurs twice. */
  lemma {:induction false} IndexDataFailsExactly(index: DataIndex, data: seq<DataEntry>, l: nat)
    ensures IndexData(index, data, l).Err? <==>
      exists p :: (if p in index then 1 else 0) + Count(data, HasPath(p)) > 1
  {
    if data == [] {
      forall p ensures Count(data, HasPath(p)) == 0 {}
    } else {
      var init, last := data[..|data|-1], data[|data|-1];
      IndexDataFailsExactly(index, init, l);
      if IndexData(index, init, l).Ok? {
        var m := IndexData(index, init, l).value;
        forall p ensures (if p in index then 1 else 0) + Count(init, HasPath(p)) == if p in m then 1 else 0 {
          IndexDataCounts(index, init, l, p);
        }
        if last.path in m {
          assert (if last.path in index then 1 else 0) + Count(data, HasPath(last.path)) == 2;
        }
      } else {
        var p :| (if p in index then 1 else 0) + Count(init, HasPath(p)) > 1;
        assert Count(data, HasPath(p)) >= Count(init, HasPath(p));
      }
    }
  }

  lemma {:induction false} IndexDataSame(index: DataIndex, ds: seq<DataEntry>, es: seq<DataEntry>, l: nat)
    requires multiset(ds) == multiset(es)
    ensures IndexData(index, ds, l).Ok? <==> IndexData(index, es, l).Ok?
    ensures IndexData(index, ds, l).Ok? && IndexData(index, es, l).Ok? ==>
            IndexData(index, ds, l) == IndexData(index, es, l)
  {
    IndexDataFailsExactly(index, ds, l);
    IndexDataFailsExactly(index, es, l);
    forall p ensures Count(ds, HasPath(p)) == Count(es, HasPath(p)) { CountPermutation(ds, es, HasPath(p)); }
    if IndexData(index, ds, l).Ok? {
      var m, m' := IndexData(index, ds, l).value, IndexData(index, es, l).value;
      IndexDataAdds(index, ds, l, m);
      IndexDataAdds(index, es, l, m');
      SameMembers(ds, es);
      forall p ensures p in m <==> p in m' ensures p in m && p in m' ==> m[p] == m'[p] {
        if p in m && p !in index { var d :| d in ds && d.path == p; assert d in es; }
        if p in m' && p !in index { var d :| d in es && d.path == p; assert d in ds; }
      }
      assert m == m';
    }
  }

  ghost predicate SameDeletes(a: DeleteIndex, b: DeleteIndex)
  {
    a.Keys == b.Keys && forall p :: p in a && p in b ==> multiset(a[p]) == multiset(b[p])
  }

  function ReferencesTo(refs: Refs, p: Path, l: nat): Path -> seq<(Path, nat)>
  {
    (q: Path) => if q in refs && refs[q] == p then [(q, l)] else []
  }

  lemma {:induction false} IndexDeletesIsFlatMap(index: DeleteIndex, refs: Refs, pos: seq<Path>, l: nat, p: Path)
    requires IndexDeletes(index, refs, pos, l).Ok?
    ensures DeletesFor(IndexDeletes(index, refs, pos, l).value, p)
            == DeletesFor(index, p) + FlatMap(pos, ReferencesTo(refs, p, l))
  {
    if pos == [] {
      assert DeletesFor(index, p) + [] == DeletesFor(index, p);
    } else {
      var init, last := pos[..|pos|-1], pos[|pos|-1];
      IndexDeletesIsFlatMap(index, refs, init, l, p);
      SeqAssociative(DeletesFor(index, p), FlatMap(init, ReferencesTo(refs, p, l)), ReferencesTo(refs, p, l)(last));
      assert FlatMap(init, ReferencesTo(refs, p, l)) + [] == FlatMap(init, ReferencesTo(refs, p, l));
    }
  }

  lemma {:induction false} IndexDeletesDomain(index: DeleteIndex, refs: Refs, pos: seq<Path>, l: nat, p: Path)
    requires IndexDeletes(index, refs, pos, l).Ok?
    ensures p in IndexDeletes(index, refs, pos, l).value <==>
            p in index || exists q :: q in pos && q in refs && refs[q] == p
  {
    if pos != [] {
      var init, last := pos[..|pos|-1], pos[|pos|-1];
      IndexDeletesDomain(index, refs, init, l, p);
      forall q ensures q in pos <==> q in init || q == last { InConcat(init, [last], q); assert pos == init + [last]; }
    }
  }

  lemma {:induction false} IndexDeletesFailsExactly(index: DeleteIndex, refs: Refs, pos: seq<Path>, l: nat)
    ensures IndexDeletes(index, refs, pos, l).Ok? <==> forall q :: q in pos ==> q in refs
  {
    if pos != [] {
      var init, last := pos[..|pos|-1], pos[|pos|-1];
      IndexDeletesFailsExactly(index, refs, init, l);
      forall q ensures q in pos <==> q in init || q == last { InConcat(init, [last], q); assert pos == init + [last]; }
    }
  }

  lemma {:induction false} IndexDeletesSame(a: DeleteIndex, b: DeleteIndex, refs: Refs, xs: seq<Path>, ys: seq<Path>,
        l: nat)
    requires SameDeletes(a, b) && multiset(xs) == multiset(ys)
    ensures IndexDeletes(a, refs, xs, l).Ok? <==> IndexDeletes(b, refs, ys, l).Ok?
    ensures IndexDeletes(a, refs, xs, l).Ok? && IndexDeletes(b, refs, ys, l).Ok? ==>
      SameDeletes(IndexDeletes(a, refs, xs, l).value, IndexDeletes(b, refs, ys, l).value)
  {
    IndexDeletesFailsExactly(a, refs, xs, l);
    IndexDeletesFailsExactly(b, refs, ys, l);
    SameMembers(xs, ys);
    if IndexDeletes(a, refs, xs, l).Ok? {
      var m, m' := IndexDeletes(a, refs, xs, l).value, IndexDeletes(b, refs, ys, l).value;
      forall p ensures p in m <==> p in m' ensures p in m && p in m' ==> multiset(m[p]) == multiset(m'[p]) {
        IndexDeletesIsFlatMap(a, refs, xs, l, p);
        IndexDeletesIsFlatMap(b, refs, ys, l, p);
        IndexDeletesDomain(a, refs, xs, l, p);
        IndexDeletesDomain(b, refs, ys, l, p);
        FlatMapPermutation(xs, ys, ReferencesTo(refs, p, l));
        SameConcat(DeletesFor(a, p), FlatMap(xs, ReferencesTo(refs, p, l)), DeletesFor(b, p), FlatMap(ys,
                   ReferencesTo(refs, p, l)));
      }
    }
  }

  ghost predicate SameIndex(a: Index, b: Index)
  {
    a.data == b.data && SameDeletes(a.deletes, b.deletes)
  }

  ghost predicate SameIndexing(r: Result<Index>, s: Result<Index>)
  {
    (r.Ok? <==> s.Ok?) && (r.Ok? && s.Ok? ==> SameIndex(r.value, s.value))
  }

  lemma {:induction false} IndexSame(p: Partition<Path>, q: Partition<Path>, refs: Refs)
    requires SamePartition(p, q)
    ensures SameIndexing(IndexPartition(p, refs), IndexPartition(q, refs))
  {
    if p != [] {
      var n := |p| - 1;
      IndexSame(p[..n], q[..n], refs);
      if IndexPartition(p[..n], refs).Ok? {
        var a, b := IndexPartition(p[..n], refs).value, IndexPartition(q[..n], refs).value;
        IndexDataSame(a.data, p[n].data, q[n].data, n);
        IndexDeletesSame(a.deletes, b.deletes, refs, p[n].pos, q[n].pos, n);
      }
    }
  }

  function NotOlderThan(l: nat): ((Path, nat)) -> seq<Path>
  {
    (x: (Path, nat)) => if x.1 < l then [] else [x.0]
  }

  lemma {:induction false} NotOlderIsFlatMap(deletes: seq<(Path, nat)>, l: nat)
    ensures NotOlder(deletes, l) == FlatMap(deletes, NotOlderThan(l))
  {
    if deletes != [] { NotOlderIsFlatMap(deletes[..|deletes|-1], l); }
  }

  lemma {:induction false} GroupSame(a: Index, b: Index, p: Path)
    requires SameIndex(a, b) && p in a.data
    ensures SamePartition(GroupOf(a, p), GroupOf(b, p))
    ensures IsShared(a, p) <==> IsShared(b, p)
  {
    var l := a.data[p].1;
    NotOlderIsFlatMap(DeletesFor(a.deletes, p), l);
    NotOlderIsFlatMap(DeletesFor(b.deletes, p), l);
    FlatMapPermutation(DeletesFor(a.deletes, p), DeletesFor(b.deletes, p), NotOlderThan(l));
  }

  ghost predicate SameRegrouped(r: Regrouped, s: Regrouped)
  {
    r.shared == s.shared && SamePlan(r.groups, s.groups)
  }

  lemma {:induction false} EmitSame(r: Regrouped, s: Regrouped, a: Index, b: Index, paths: seq<Path>)
    requires SameRegrouped(r, s) && SameIndex(a, b) && forall p :: p in paths ==> p in a.data
    ensures SameRegrouped(Emit(r, a, paths), Emit(s, b, paths))
  {
    if paths != [] {
      var init, last := paths[..|paths|-1], paths[|paths|-1];
      assert last in paths && forall p :: p in init ==> p in paths;
      EmitSame(r, s, a, b, init);
      GroupSame(a, b, last);
      SamePlanSnoc(Emit(r, a, init).groups, Emit(s, b, init).groups, GroupOf(a, last), GroupOf(b, last));
    }
  }

  ghost predicate SameRegrouping(r: Result<Regrouped>, s: Result<Regrouped>)
  {
    (r.Ok? <==> s.Ok?) && (r.Ok? && s.Ok? ==> SameRegrouped(r.value, s.value))
  }

  lemma {:induction false} RegroupAllSame(p: seq<Partition<Path>>, q: seq<Partition<Path>>, refs: Refs)
    requires SamePlan(p, q)
    ensures SameRegrouping(RegroupAll(p, refs), RegroupAll(q, refs))
  {
    if p != [] {
      var n := |p| - 1;
      RegroupAllSame(p[..n], q[..n], refs);
      IndexSame(p[n], q[n], refs);
      if RegroupAll(p[..n], refs).Ok? && IndexPartition(p[n], refs).Ok? {
        var a, b := IndexPartition(p[n], refs).value, IndexPartition(q[n], refs).value;
        EmitSame(RegroupAll(p[..n], refs).value, RegroupAll(q[..n], refs).value, a, b, IncreasingPaths(a.data.Keys));
      }
    }
  }

  /** Without two newest vectors for a data file, the final plan does not depend on the order of the
      additions, except for the order of files inside a layer. */
  lemma {:induction false} FinalPlanSame(n: Notes, adds: seq<Addition>, adds': seq<Addition>)
    requires multiset(adds) == multiset(adds') && Uncontested(adds)
    ensures SameOutcome(FinalPlan(n, Stored(adds)), FinalPlan(n, Stored(adds')))
  {
    BuilderPlanSame(adds, adds');
    if BuilderPlan(Stored(adds)).Ok? && CanRegroup(n) {
      RegroupSame(BuilderPlan(Stored(adds)).value, BuilderPlan(Stored(adds')).value, n.refs);
    }
  }

  lemma {:induction false} RegroupSame(p: seq<Partition<Path>>, q: seq<Partition<Path>>, refs: Refs)
    requires SamePlan(p, q)
    ensures SameOutcome(Regroup(p, refs), Regroup(q, refs))
  {
    RegroupAllSame(p, q, refs);
    if RegroupAll(p, refs).Ok? {
      var r, s := RegroupAll(p, refs).value, RegroupAll(q, refs).value;
      var first: Partition<Path> := [Layer(r.shared, [], [])];
      assert SamePartition(first, first);
      SamePlanConcat([first], [first], r.groups, s.groups);
    }
  }
}
