/** Equality deletes end to end: from manifest entries through the plan and the handler to the
    fate of a single row. */
module RowDeletion {
  import opened Order
  import opened Plan
  import opened Builder
  import opened Resolve
  import opened Planner
  import opened Meaning
  import opened Conservation
  import opened ByKey
  import opened Referenced
  import opened Scan
  import opened Cells
  import opened Handler

  /** The delete files behind the paths of the plan. */
  type Store = Path -> DeleteFile

  function LayerRequests(store: Store, deletes: seq<EqDelete>, layer: int): (r: seq<Request>)
    ensures |r| == |deletes|
    ensures forall i :: 0 <= i < |r| ==> r[i] == Request(store(deletes[i].path), deletes[i].fieldIds, layer)
  {
    seq(|deletes|, i requires 0 <= i < |deletes| => Request(store(deletes[i].path), deletes[i].fieldIds, layer))
  }

  /** `SetDeletes`: all equality deletes of a plan partition, layer by layer. */
  function Requests(store: Store, part: Partition<Path>): seq<Request>
  {
    if part == [] then [] else
      Requests(store, part[..|part|-1]) + LayerRequests(store, part[|part|-1].eq, |part| - 1)
  }

  /** The delete file of `e` stands in layer `j` of the partition. */
  predicate InLayer(part: Partition<Path>, j: int, e: EqDelete)
  {
    0 <= j < |part| && e in part[j].eq
  }

  lemma {:induction false} RequestSource(store: Store, part: Partition<Path>, rq: Request)
    requires rq in Requests(store, part)
    ensures exists e :: InLayer(part, rq.layer, e) && rq == Request(store(e.path), e.fieldIds, rq.layer)
  {
    var n := |part| - 1;
    var init, last := Requests(store, part[..n]), LayerRequests(store, part[n].eq, n);
    if rq in init {
      RequestSource(store, part[..n], rq);
      var e :| InLayer(part[..n], rq.layer, e) && rq == Request(store(e.path), e.fieldIds, rq.layer);
      assert InLayer(part, rq.layer, e);
    } else {
      InConcat(init, last, rq);
      var i :| 0 <= i < |last| && last[i] == rq;
      assert InLayer(part, n, part[n].eq[i]);
    }
  }

  lemma {:induction false} RequestMade(store: Store, part: Partition<Path>, j: nat, e: EqDelete)
    requires InLayer(part, j, e)
    ensures Request(store(e.path), e.fieldIds, j) in Requests(store, part)
  {
    var n := |part| - 1;
    var init, last := Requests(store, part[..n]), LayerRequests(store, part[n].eq, n);
    InConcat(init, last, Request(store(e.path), e.fieldIds, j));
    if j < n {
      RequestMade(store, part[..n], j, e);
    } else {
      var i :| 0 <= i < |part[n].eq| && part[n].eq[i] == e;
      assert last[i] == Request(store(e.path), e.fieldIds, j);
    }
  }

  // ----- One partition of the plan -----

  /** Some equality delete applied to layer `i` has a row with the record's key. */
  ghost predicate DeletedInLayer(store: Store, part: Partition<Path>, i: int, rec: Record)
  {
    exists j, e :: i <= j && InLayer(part, j, e) && FileHits(store(e.path), e.fieldIds, rec)
  }

  lemma {:induction false} RequestsExact(store: Store, part: Partition<Path>, i: int, rec: Record)
    ensures AnyRequestHits(Requests(store, part), rec, i) <==> DeletedInLayer(store, part, i, rec)
  {
    var rqs := Requests(store, part);
    if AnyRequestHits(rqs, rec, i) {
      var k :| 0 <= k < |rqs| && RequestHits(rqs[k], rec, i);
      RequestSource(store, part, rqs[k]);
    }
    if DeletedInLayer(store, part, i, rec) {
      var j, e :| i <= j && InLayer(part, j, e) && FileHits(store(e.path), e.fieldIds, rec);
      RequestMade(store, part, j, e);
      var k :| 0 <= k < |rqs| && rqs[k] == Request(store(e.path), e.fieldIds, j);
      assert RequestHits(rqs[k], rec, i);
    }
  }

  /** The record has comparable, non-null keys for every equality delete of the partition. */
  ghost predicate PlainFor(cfg: Config, part: Partition<Path>, rec: Record)
  {
    forall j, e :: InLayer(part, j, e) ==> Plain(cfg, SortedIds(e.fieldIds), rec)
  }

  ghost predicate StoreTyped(cfg: Config, store: Store, part: Partition<Path>)
  {
    forall j, e :: InLayer(part, j, e) ==> FileTyped(cfg, store(e.path))
  }

  lemma {:induction false} RequestsAreTyped(cfg: Config, store: Store, part: Partition<Path>)
    requires StoreTyped(cfg, store, part)
    ensures RequestsTyped(cfg, Requests(store, part))
  {
    var rqs := Requests(store, part);
    forall k | 0 <= k < |rqs| ensures FileTyped(cfg, rqs[k].file) { RequestSource(store, part, rqs[k]); }
  }

  /** The handler after `SetDeletes`. */
  function Materialized(cfg: Config, store: Store, part: Partition<Path>): (r: Outcome<seq<Handler.Group>>)
    requires StoreTyped(cfg, store, part)
    ensures r.Success? ==> GroupsSuit(cfg, r.value)
  {
    RequestsAreTyped(cfg, store, part);
    AppendAll(cfg, Requests(store, part))
  }

  /** Every equality delete of the partition has a delete file the handler can take. */
  ghost predicate AdmissibleFor(cfg: Config, store: Store, part: Partition<Path>)
  {
    forall j, e :: InLayer(part, j, e) ==> Admissible(cfg, Request(store(e.path), e.fieldIds, j))
  }

  /** `SetDeletes` succeeds when the files are admissible and their rows within the limit. */
  lemma {:induction false} MaterializedSucceeds(cfg: Config, store: Store, part: Partition<Path>)
    requires StoreTyped(cfg, store, part) && AdmissibleFor(cfg, store, part)
    requires RowsOf(Requests(store, part)) <= cfg.maxRows
    ensures Materialized(cfg, store, part).Success?
  {
    var rqs := Requests(store, part);
    RequestsAreTyped(cfg, store, part);
    forall k | 0 <= k < |rqs| ensures Admissible(cfg, rqs[k]) { RequestSource(store, part, rqs[k]); }
    AppendAllSucceeds(cfg, rqs);
  }

  /** With the plan's layer index as layer, `IsDeleted` answers, and says yes exactly when an
      equality delete of the same or a later layer of the partition has the row's key. */
  lemma {:induction false} PartitionExact(cfg: Config, store: Store, part: Partition<Path>, i: int, rec: Record)
    requires StoreTyped(cfg, store, part) && PlainFor(cfg, part, rec) && Materialized(cfg, store, part).Success?
    ensures Comparable(cfg, Materialized(cfg, store, part).value, rec)
    ensures Visit(cfg, Materialized(cfg, store, part).value, Occupied(Materialized(cfg, store, part).value), rec, i)
            == Success(DeletedInLayer(store, part, i, rec))
  {
    var rqs := Requests(store, part);
    RequestsAreTyped(cfg, store, part);
    forall k | 0 <= k < |rqs| ensures Plain(cfg, SortedIds(rqs[k].ids), rec) { RequestSource(store, part, rqs[k]); }
    HandlerAnswers(cfg, rqs, rec, i);
    RequestsExact(store, part, i, rec);
  }

  // ----- Data files have one place -----

  /** No two data files among the additions have one path. */
  ghost predicate DistinctPaths(adds: seq<Addition>)
  {
    forall i, j :: 0 <= i < j < |adds| && adds[i].AddData? && adds[j].AddData? ==> adds[i].d.path != adds[j].d.path
  }

  lemma {:induction false} AllDataPaths(adds: seq<Addition>, vectors: Key -> Vectors, d: DataEntry)
    requires d in AllData(adds, vectors)
    ensures exists i :: 0 <= i < |adds| && adds[i].AddData? && adds[i].d.path == d.path
  {
    var init, last := adds[..|adds|-1], adds[|adds|-1];
    if d in AllData(init, vectors) {
      AllDataPaths(init, vectors, d);
      var i :| 0 <= i < |init| && init[i].AddData? && init[i].d.path == d.path;
      assert adds[i] == init[i];
    } else {
      InConcat(AllData(init, vectors), if last.AddData? then [Attach(vectors(last.key), last.seqno, last.d)] else [],
               d);
    }
  }

  lemma {:induction false} NotRepeated(adds: seq<Addition>, vectors: Key -> Vectors, d: DataEntry)
    requires DistinctPaths(adds) && adds != [] && d in AllData(adds[..|adds|-1], vectors)
    ensures adds[|adds|-1].AddData? ==> adds[|adds|-1].d.path != d.path
  {
    var init := adds[..|adds|-1];
    AllDataPaths(init, vectors, d);
    var i :| 0 <= i < |init| && init[i].AddData? && init[i].d.path == d.path;
    assert adds[i] == init[i];
  }

  lemma {:induction false} AllDataOnce(adds: seq<Addition>, vectors: Key -> Vectors, d: DataEntry)
    requires DistinctPaths(adds)
    ensures multiset(AllData(adds, vectors))[d] <= 1
  {
    if adds != [] {
      var n := |adds| - 1;
      var init, last := adds[..n], adds[n];
      AllDataOnce(init, vectors, d);
      if d in AllData(init, vectors) { NotRepeated(adds, vectors, d); }
      assert d in multiset(AllData(init, vectors)) <==> d in AllData(init, vectors);
    }
  }

  lemma {:induction false} ItemsSplit(part: Partition<Path>, k: nat)
    requires k <= |part|
    ensures Items(part) == Items(part[..k]) + Items(part[k..])
  {
    if k == |part| {
      assert part[..k] == part;
    } else {
      var n := |part| - 1;
      ItemsSplit(part[..n], k);
      assert part[..n][..k] == part[..k] && part[..n][k..] == part[k..][..n-k];
      SeqAssociative(Items(part[..k]), Items(part[k..][..n-k]), LayerItems(part[n]));
    }
  }

  /** A file found on both sides of a split occurs twice. */
  lemma {:induction false} Twice(s: seq<Item<Path>>, t: seq<Item<Path>>, d: DataEntry)
    requires DataItem(d) in s && DataItem(d) in t
    ensures multiset(DataOf(s + t))[d] >= 2
  {
    DataOfConcat(s, t);
    DataOfMembers(s, d);
    DataOfMembers(t, d);
    assert d in multiset(DataOf(s)) && d in multiset(DataOf(t));
  }

  lemma {:induction false} InItems(part: Partition<Path>, i: nat, d: DataEntry)
    requires i < |part| && d in part[i].data
    ensures DataItem(d) in Items(part)
  {
    ItemsHold(part, DataItem(d));
    assert Holds(part[i], DataItem(d));
  }

  lemma {:induction false} InPlanItems(plan: seq<Partition<Path>>, p: nat, d: DataEntry)
    requires p < |plan| && DataItem(d) in Items(plan[p])
    ensures DataItem(d) in PlanItems(plan)
  {
    var n := |plan| - 1;
    InConcat(PlanItems(plan[..n]), Items(plan[n]), DataItem(d));
    if p < n { InPlanItems(plan[..n], p, d); }
  }

  lemma {:induction false} TwoPartitions(plan: seq<Partition<Path>>, p: nat, q: nat, d: DataEntry)
    requires p < q < |plan| && DataItem(d) in Items(plan[p]) && DataItem(d) in Items(plan[q])
    ensures multiset(DataOf(PlanItems(plan)))[d] >= 2
  {
    InPlanItems(plan[..q], p, d);
    InPlanItems(plan[q..], 0, d);
    PlanItemsConcat(plan[..q], plan[q..]);
    assert plan == plan[..q] + plan[q..];
    Twice(PlanItems(plan[..q]), PlanItems(plan[q..]), d);
  }

  lemma {:induction false} TwoLayers(plan: seq<Partition<Path>>, p: nat, i: nat, j: nat, d: DataEntry)
    requires p < |plan| && i < j < |plan[p]| && d in plan[p][i].data && d in plan[p][j].data
    ensures multiset(DataOf(PlanItems(plan)))[d] >= 2
  {
    var part := plan[p];
    ItemsSplit(part, j);
    InItems(part[..j], i, d);
    InItems(part[j..], 0, d);
    Twice(Items(part[..j]), Items(part[j..]), d);
    PlanSplit(plan, p);
    DataOfConcat(PlanItems(plan[..p]) + Items(part), PlanItems(plan[p+1..]));
    DataOfConcat(PlanItems(plan[..p]), Items(part));
  }

  lemma {:induction false} PlanSplit(plan: seq<Partition<Path>>, p: nat)
    requires p < |plan|
    ensures PlanItems(plan) == (PlanItems(plan[..p]) + Items(plan[p])) + PlanItems(plan[p+1..])
  {
    assert plan == (plan[..p] + [plan[p]]) + plan[p+1..];
    PlanItemsConcat(plan[..p] + [plan[p]], plan[p+1..]);
    PlanItemsSnoc(plan[..p], plan[p]);
  }

  /** Inside a block, data files with distinct paths have a single place. */
  lemma {:induction false} OnePlace(adds: seq<Addition>, key: Key, d: DataEntry, p: nat, i: nat, q: nat, j: nat)
    requires KeyPlan(Stored(adds), key).Ok? && DistinctPaths(OfKey(adds, key))
    requires p < |Block(Stored(adds), key)| && i < |Block(Stored(adds), key)[p]|
    requires q < |Block(Stored(adds), key)| && j < |Block(Stored(adds), key)[q]|
    requires d in Block(Stored(adds), key)[p][i].data && d in Block(Stored(adds), key)[q][j].data
    ensures p == q && i == j
  {
    var plan := Block(Stored(adds), key);
    BlockKeepsData(adds, k => VectorsOf(adds, k), key);
    AllDataOnce(OfKey(adds, key), k => VectorsOf(adds, k), d);
    InItems(plan[p], i, d);
    InItems(plan[q], j, d);
    if p < q { TwoPartitions(plan, p, q, d); }
    if q < p { TwoPartitions(plan, q, p, d); }
    if p == q && i < j { TwoLayers(plan, p, i, j, d); }
    if p == q && j < i { TwoLayers(plan, p, j, i, d); }
  }

  // ----- End to end -----

  /** By the rules of scan planning, some equality delete with a row of this key applies to the
      data file in partition `k`: it is of the same partition or unpartitioned, and has a strictly
      greater sequence number. */
  ghost predicate DeletedByRule(store: Store, adds: seq<Addition>, k: Key, d: DataEntry, rec: Record)
  {
    exists e :: EqualityAt(adds, k, d, e) && FileHits(store(e.path), e.fieldIds, rec)
  }

  lemma {:induction false} LayerMeetsRule(store: Store, adds: seq<Addition>, k: Key, d: DataEntry, p: nat, i: nat,
        rec: Record)
    requires KeyPlan(Stored(adds), k).Ok? && p < |Block(Stored(adds), k)| && i < |Block(Stored(adds), k)[p]|
    requires d in Block(Stored(adds), k)[p][i].data && DeletedInLayer(store, Block(Stored(adds), k)[p], i, rec)
    ensures DeletedByRule(store, adds, k, d, rec)
  {
    var plan := Block(Stored(adds), k);
    var j, e :| i <= j && InLayer(plan[p], j, e) && FileHits(store(e.path), e.fieldIds, rec);
    assert Holds(plan[p][i], DataItem(d)) && Holds(plan[p][j], EqItem(e));
    assert Applies(plan[p], d, EqItem(e));
    BlockAppliesEquality(adds, k, d, e);
  }

  lemma {:induction false} PlaceOfPair(plan: seq<Partition<Path>>, d: DataEntry, e: EqDelete)
    returns (q: nat, k: nat, j: nat)
    requires Planned(plan, d, EqItem(e))
    ensures q < |plan| && k <= j < |plan[q]| && d in plan[q][k].data && InLayer(plan[q], j, e)
  {
    q :| 0 <= q < |plan| && Applies(plan[q], d, EqItem(e));
    k, j :| 0 <= k <= j < |plan[q]| && Holds(plan[q][k], DataItem(d)) && Holds(plan[q][j], EqItem(e));
  }

  lemma {:induction false} RuleMeetsLayer(store: Store, adds: seq<Addition>, k: Key, d: DataEntry, p: nat, i: nat,
        rec: Record)
    requires KeyPlan(Stored(adds), k).Ok? && p < |Block(Stored(adds), k)| && i < |Block(Stored(adds), k)[p]|
    requires d in Block(Stored(adds), k)[p][i].data && DistinctPaths(OfKey(adds, k))
    requires DeletedByRule(store, adds, k, d, rec)
    ensures DeletedInLayer(store, Block(Stored(adds), k)[p], i, rec)
  {
    var plan := Block(Stored(adds), k);
    var e :| EqualityAt(adds, k, d, e) && FileHits(store(e.path), e.fieldIds, rec);
    BlockAppliesEquality(adds, k, d, e);
    var q, l, j := PlaceOfPair(plan, d, e);
    OnePlace(adds, k, d, p, i, q, l);
  }

  /** Entries with an equality delete are never regrouped: the scan returns the builder's plan. */
  lemma {:induction false} EqualityScans(entries: seq<Entry>, n: Notes, adds: seq<Addition>)
    requires Collected(entries, n, adds) && exists e :: e in entries && IsEquality(e)
    ensures ScanPlan(entries) == BuilderPlan(Stored(adds))
  {
    NotesAreExact(entries);
    ScanIsFinalPlan(entries, n, adds);
  }

  /** The partition of a block, with data paths distinct inside each partition key: the lookup of a
      row with non-null keys never raises, and deletes it exactly when the rules of scan planning
      say so for the data file in the partition's key. */
  lemma {:induction false} BlockRowsDeleted(cfg: Config, store: Store, adds: seq<Addition>, k: Key, d: DataEntry,
        p: nat, i: nat, rec: Record)
    requires KeyPlan(Stored(adds), k).Ok? && p < |Block(Stored(adds), k)| && i < |Block(Stored(adds), k)[p]|
    requires d in Block(Stored(adds), k)[p][i].data && DistinctPaths(OfKey(adds, k))
    requires StoreTyped(cfg, store, Block(Stored(adds), k)[p]) && PlainFor(cfg, Block(Stored(adds), k)[p], rec)
    requires Materialized(cfg, store, Block(Stored(adds), k)[p]).Success?
    ensures var groups := Materialized(cfg, store, Block(Stored(adds), k)[p]).value;
      && Comparable(cfg, groups, rec)
      && Visit(cfg, groups, Occupied(groups), rec, i) == Success(DeletedByRule(store, adds, k, d, rec))
  {
    var part := Block(Stored(adds), k)[p];
    PartitionExact(cfg, store, part, i, rec);
    if DeletedInLayer(store, part, i, rec) { LayerMeetsRule(store, adds, k, d, p, i, rec); }
    if DeletedByRule(store, adds, k, d, rec) { RuleMeetsLayer(store, adds, k, d, p, i, rec); }
  }

  /** The whole plan: every plan partition belongs to the block of one key, and the rows of its
      data files fare by the rules for that key. */
  lemma {:induction false} RowsDeletedExactly(cfg: Config, store: Store, adds: seq<Addition>, d: DataEntry, p: nat,
        i: nat, rec: Record)
    returns (k: Key, q: nat)
    requires BuilderPlan(Stored(adds)).Ok? && p < |BuilderPlan(Stored(adds)).value|
    requires i < |BuilderPlan(Stored(adds)).value[p]|
    requires d in BuilderPlan(Stored(adds)).value[p][i].data && forall key :: DistinctPaths(OfKey(adds, key))
    requires StoreTyped(cfg, store, BuilderPlan(Stored(adds)).value[p])
    requires PlainFor(cfg, BuilderPlan(Stored(adds)).value[p], rec)
    requires Materialized(cfg, store, BuilderPlan(Stored(adds)).value[p]).Success?
    ensures k in Keys(Stored(adds)) && q < |Block(Stored(adds), k)|
    ensures BuilderPlan(Stored(adds)).value[p] == Block(Stored(adds), k)[q]
    ensures var groups := Materialized(cfg, store, BuilderPlan(Stored(adds)).value[p]).value;
      && Comparable(cfg, groups, rec)
      && Visit(cfg, groups, Occupied(groups), rec, i) == Success(DeletedByRule(store, adds, k, d, rec))
  {
    PlanIsBlocks(Stored(adds));
    k, q := BlockOf(Stored(adds), Keys(Stored(adds)), p);
    BlockRowsDeleted(cfg, store, adds, k, d, q, i, rec);
  }
}
