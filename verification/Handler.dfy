/** `EqualityDeleteHandler`: delete files are read into one table per set of field ids, and a row
    is deleted when one of the tables reports it. */
module Handler {
  import opened Order
  import opened Plan
  import opened Cells
  import opened MaxLayers
  import opened GenericKey
  import opened PackedKey
  import opened DeleteTables

  /** The type of every field, the factory's switch and the limit on materialised rows. */
  datatype Config = Config(schema: int -> Type, specialized: bool, maxRows: nat)

  /** A row by field id. */
  type Record = map<int, Cell>

  /** The columns of a delete file and its record batches. */
  datatype DeleteFile = DeleteFile(columns: set<int>, batches: seq<seq<Record>>)

  /** One call of `AppendDelete` with the file behind the path. */
  datatype Request = Request(file: DeleteFile, ids: seq<int>, layer: int)

  datatype Group = Group(ids: seq<int>, table: Table)

  predicate RecordTyped(cfg: Config, ids: set<int>, rec: Record)
  {
    forall id :: id in ids ==> id in rec && HasType(cfg.schema(id), rec[id])
  }

  predicate FileTyped(cfg: Config, file: DeleteFile)
  {
    forall b, k :: 0 <= b < |file.batches| && 0 <= k < |file.batches[b]| ==>
                     RecordTyped(cfg, file.columns, file.batches[b][k])
  }

  function Members(ids: seq<int>): set<int>
  {
    set id | id in ids
  }

  /** The `std::set` of the ids, in its iteration order. */
  function SortedIds(ids: seq<int>): (r: seq<int>)
    ensures forall id :: id in r <==> id in ids
  {
    Increasing(Members(ids))
  }

  function TypesOf(cfg: Config, ids: seq<int>): (r: seq<Type>)
    ensures |r| == |ids| && forall k :: 0 <= k < |ids| ==> r[k] == cfg.schema(ids[k])
  {
    seq(|ids|, k requires 0 <= k < |ids| => cfg.schema(ids[k]))
  }

  function CellAt(rec: Record, id: int): Cell
  {
    if id in rec then rec[id] else Cell(false, Bits(0))
  }

  function Project(ids: seq<int>, rec: Record): (r: Row)
    ensures |r| == |ids| && forall k :: 0 <= k < |ids| ==> r[k] == CellAt(rec, ids[k])
  {
    seq(|ids|, k requires 0 <= k < |ids| => CellAt(rec, ids[k]))
  }

  function ProjectAll(ids: seq<int>, recs: seq<Record>): (r: seq<Row>)
    ensures |r| == |recs| && forall k :: 0 <= k < |recs| ==> r[k] == Project(ids, recs[k])
  {
    seq(|recs|, k requires 0 <= k < |recs| => Project(ids, recs[k]))
  }

  function LoadsOf(ids: seq<int>, file: DeleteFile, layer: int): (r: seq<Load>)
    ensures |r| == |file.batches|
    ensures forall b :: 0 <= b < |r| ==> r[b] == Load(ProjectAll(ids, file.batches[b]), layer)
  {
    seq(|file.batches|, b requires 0 <= b < |file.batches| => Load(ProjectAll(ids, file.batches[b]), layer))
  }

  lemma {:induction false} ProjectTyped(cfg: Config, ids: seq<int>, rec: Record)
    requires RecordTyped(cfg, Members(ids), rec)
    ensures WellTyped(TypesOf(cfg, ids), Project(ids, rec))
  {
    forall k | 0 <= k < |ids| ensures HasType(TypesOf(cfg, ids)[k], Project(ids, rec)[k]) {
      assert ids[k] in Members(ids);
      assert Project(ids, rec)[k] == rec[ids[k]];
    }
  }

  lemma {:induction false} LoadsAreTyped(cfg: Config, ids: seq<int>, file: DeleteFile, layer: int)
    requires FileTyped(cfg, file) && Members(ids) <= file.columns
    ensures LoadsTyped(TypesOf(cfg, ids), LoadsOf(ids, file, layer))
  {
    forall b, k | 0 <= b < |file.batches| && 0 <= k < |file.batches[b]|
      ensures WellTyped(TypesOf(cfg, ids), LoadsOf(ids, file, layer)[b].rows[k])
    {
      assert RecordTyped(cfg, file.columns, file.batches[b][k]);
      ProjectTyped(cfg, ids, file.batches[b][k]);
    }
  }

  // ----- Table sizes -----

  function NullKeys(p: Packed): set<(nat, nat)>
  {
    set m, k | m in p.withNulls && k in p.withNulls[m] :: (m, k)
  }

  function Size(t: Table): nat
  {
    match t
    case GenericTable(bytes) => |bytes|
    case OneColumn(numbers, containsNull) => |numbers| + (if containsNull then 1 else 0)
    case MultipleColumns(_, packed) => |packed.values| + |NullKeys(packed)|
  }

  function TotalSize(groups: seq<Group>): nat
  {
    if groups == [] then 0 else TotalSize(groups[..|groups|-1]) + Size(groups[|groups|-1].table)
  }

  lemma {:induction false} UpdateMaxKeys<K>(values: map<K, int>, key: K, layer: int)
    ensures UpdateMax(values, key, layer).Keys == values.Keys + {key}
  {
  }

  lemma {:induction false} UpdateMaxSize<K>(values: map<K, int>, key: K, layer: int)
    ensures |UpdateMax(values, key, layer)| <= |values| + 1
  {
    UpdateMaxKeys(values, key, layer);
  }

  lemma {:induction false} AddNullKey(p: Packed, mask: nat, key: nat, layer: int)
    requires mask != 0
    ensures NullKeys(AddKey(p, mask, key, layer)) == NullKeys(p) + {(mask, key)}
  {
    var q := AddKey(p, mask, key, layer);
    UpdateMaxKeys(ByMask(p, mask), key, layer);
    forall m: nat, k: nat ensures (m, k) in NullKeys(q) <==> (m, k) in NullKeys(p) || (m, k) == (mask, key) {
      assert q.withNulls[mask].Keys == ByMask(p, mask).Keys + {key};
    }
  }

  lemma {:induction false} AddKeySize(p: Packed, mask: nat, key: nat, layer: int)
    ensures var q := AddKey(p, mask, key, layer); |q.values| + |NullKeys(q)| <= |p.values| + |NullKeys(p)| + 1
  {
    if mask == 0 {
      UpdateMaxSize(p.values, key, layer);
    } else {
      AddNullKey(p, mask, key, layer);
    }
  }

  lemma {:induction false} AddAllSize(types: seq<Type>, values: map<seq<byte>, int>, rows: seq<Row>, layer: int)
    requires AllTyped(types, rows) && AddAll(types, values, rows, layer).Success?
    ensures |AddAll(types, values, rows, layer).value| <= |values| + |rows|
  {
    if rows != [] {
      var init, last := rows[..|rows|-1], rows[|rows|-1];
      AddAllSize(types, values, init, layer);
      UpdateMaxSize(AddAll(types, values, init, layer).value, Key(types, last).value, layer);
    }
  }

  lemma {:induction false} AddPackedSize(types: seq<Type>, t: Table, rows: seq<Row>, layer: int)
    requires t.MultipleColumns? && AllTyped(types, rows) && InRange(t.order, |types|)
    ensures Size(t.(packed := AddPacked(types, t.order, t.packed, rows, layer))) <= Size(t) + |rows|
  {
    if rows != [] {
      var init, last := rows[..|rows|-1], rows[|rows|-1];
      assert WellTyped(types, last);
      AddPackedSize(types, t, init, layer);
      AddKeySize(AddPacked(types, t.order, t.packed, init, layer), Mask(last), Pack(types, t.order, last), layer);
    }
  }

  lemma {:induction false} AddOnesSize(types: seq<Type>, t: Table, rows: seq<Row>, layer: int)
    requires t.OneColumn? && |types| == 1 && AllTyped(types, rows)
    ensures Size(AddOnes(types, t, rows, layer)) <= Size(t) + |rows|
  {
    if rows != [] {
      var init, last := rows[..|rows|-1], rows[|rows|-1];
      assert WellTyped(types, last);
      AddOnesSize(types, t, init, layer);
      UpdateMaxSize(AddOnes(types, t, init, layer).numbers, Image(last), layer);
    }
  }

  lemma {:induction false} AddBatchSize(types: seq<Type>, t: Table, rows: seq<Row>, layer: int)
    requires Suits(types, t) && AllTyped(types, rows) && AddBatch(types, t, rows, layer).Success?
    ensures Size(AddBatch(types, t, rows, layer).value) <= Size(t) + |rows|
  {
    match t
    case GenericTable(bytes) => AddAllSize(types, bytes, rows, layer);
    case OneColumn(_, _) => AddOnesSize(types, t, rows, layer);
    case MultipleColumns(_, _) => AddPackedSize(types, t, rows, layer);
  }

  function LoadRows(loads: seq<Load>): nat
  {
    if loads == [] then 0 else LoadRows(loads[..|loads|-1]) + |loads[|loads|-1].rows|
  }

  lemma {:induction false} FilledSize(types: seq<Type>, t: Table, loads: seq<Load>)
    requires Suits(types, t) && LoadsTyped(types, loads) && Filled(types, t, loads).Success?
    ensures Size(Filled(types, t, loads).value) <= Size(t) + LoadRows(loads)
  {
    if loads != [] {
      var init, last := loads[..|loads|-1], loads[|loads|-1];
      assert LoadsTyped(types, init) && AllTyped(types, last.rows);
      FilledSize(types, t, init);
      AddBatchSize(types, Filled(types, t, init).value, last.rows, last.layer);
    }
  }

  /** An empty table reports nothing, so it may be skipped. */
  lemma {:induction false} EmptyReportsNothing(types: seq<Type>, t: Table, row: Row, l: int)
    requires Suits(types, t) && WellTyped(types, row) && Size(t) == 0
    ensures !Reports(types, t, row, l)
  {
    if t.MultipleColumns? { NoKeys(t.packed, Mask(row), Pack(types, t.order, row)); }
  }

  lemma {:induction false} NoKeys(p: Packed, mask: nat, key: nat)
    ensures key in ByMask(p, mask) ==> p.values != map[] || NullKeys(p) != {}
  {
    if key in ByMask(p, mask) && mask != 0 { assert (mask, key) in NullKeys(p); }
  }

  // ----- AppendDelete -----

  ghost predicate GroupsSuit(cfg: Config, groups: seq<Group>)
  {
    forall g :: 0 <= g < |groups| ==> Suits(TypesOf(cfg, groups[g].ids), groups[g].table)
  }

  /** The index of the group, or the number of groups. */
  function Find(groups: seq<Group>, ids: seq<int>): (g: nat)
    ensures g <= |groups| && (g < |groups| ==> groups[g].ids == ids)
    ensures forall k :: 0 <= k < g ==> groups[k].ids != ids
  {
    if groups == [] then 0 else
      var g := Find(groups[..|groups|-1], ids);
      if g < |groups| - 1 || groups[|groups|-1].ids == ids then g else |groups|
  }

  function NewGroup(cfg: Config, ids: seq<int>): Group
  {
    Group(ids, EmptyTable(TypesOf(cfg, ids), cfg.specialized, ByWidth(TypesOf(cfg, ids))))
  }

  function WithGroup(cfg: Config, groups: seq<Group>, ids: seq<int>): (r: seq<Group>)
    requires GroupsSuit(cfg, groups)
    ensures GroupsSuit(cfg, r) && Find(groups, ids) < |r| && r[Find(groups, ids)].ids == ids
  {
    FactorySuits(TypesOf(cfg, ids), cfg.specialized, ByWidth(TypesOf(cfg, ids)));
    if Find(groups, ids) < |groups| then groups else groups + [NewGroup(cfg, ids)]
  }

  function RowCount(file: DeleteFile): nat
  {
    LoadRows(LoadsOf([], file, 0))
  }

  /** The groups after one delete file, or why it is refused. */
  function AppendTo(cfg: Config, groups: seq<Group>, rq: Request): (r: Outcome<seq<Group>>)
    requires GroupsSuit(cfg, groups) && FileTyped(cfg, rq.file)
    ensures r.Success? ==> GroupsSuit(cfg, r.value)
  {
    var ids := SortedIds(rq.ids);
    if TotalSize(groups) + RowCount(rq.file) > cfg.maxRows then Failure(ExecutionError)
    else if !(Members(ids) <= rq.file.columns) then Failure(ExecutionError)
    else
      LoadsAreTyped(cfg, ids, rq.file, rq.layer);
      var gs, g := WithGroup(cfg, groups, ids), Find(groups, ids);
      match Filled(TypesOf(cfg, ids), gs[g].table, LoadsOf(ids, rq.file, rq.layer))
      case Failure(why) => Failure(why)
      case Success(t) => Success(gs[g := Group(ids, t)])
  }

  predicate RequestsTyped(cfg: Config, rqs: seq<Request>)
  {
    forall i :: 0 <= i < |rqs| ==> FileTyped(cfg, rqs[i].file)
  }

  function AppendAll(cfg: Config, rqs: seq<Request>): (r: Outcome<seq<Group>>)
    requires RequestsTyped(cfg, rqs)
    ensures r.Success? ==> GroupsSuit(cfg, r.value)
  {
    if rqs == [] then Success([]) else
      match AppendAll(cfg, rqs[..|rqs|-1])
      case Failure(why) => Failure(why)
      case Success(groups) => AppendTo(cfg, groups, rqs[|rqs|-1])
  }

  // ----- The row limit -----

  lemma {:induction false} TotalSizeUpdate(groups: seq<Group>, g: nat, h: Group)
    requires g < |groups|
    ensures TotalSize(groups[g := h]) == TotalSize(groups) - Size(groups[g].table) + Size(h.table)
  {
    var n := |groups| - 1;
    if g < n {
      TotalSizeUpdate(groups[..n], g, h);
      assert groups[g := h][..n] == groups[..n][g := h];
    } else {
      assert groups[g := h][..n] == groups[..n];
    }
  }

  lemma {:induction false} RowCountProjected(ids: seq<int>, file: DeleteFile, layer: int, n: nat)
    requires n <= |file.batches|
    ensures LoadRows(LoadsOf(ids, file, layer)[..n]) == LoadRows(LoadsOf([], file, 0)[..n])
  {
    if n > 0 {
      RowCountProjected(ids, file, layer, n - 1);
      assert LoadsOf(ids, file, layer)[..n][..n-1] == LoadsOf(ids, file, layer)[..n-1];
      assert LoadsOf([], file, 0)[..n][..n-1] == LoadsOf([], file, 0)[..n-1];
    }
  }

  lemma {:induction false} WithGroupSize(cfg: Config, groups: seq<Group>, ids: seq<int>)
    requires GroupsSuit(cfg, groups)
    ensures TotalSize(WithGroup(cfg, groups, ids)) == TotalSize(groups)
  {
    if Find(groups, ids) == |groups| {
      TotalSizeSnoc(groups, NewGroup(cfg, ids));
      EmptyTableSize(TypesOf(cfg, ids), cfg.specialized, ByWidth(TypesOf(cfg, ids)));
    }
  }

  lemma {:induction false} EmptyTableSize(types: seq<Type>, specialized: bool, order: seq<int>)
    ensures Size(EmptyTable(types, specialized, order)) == 0
  {
    assert NullKeys(Packed(map[], map[])) == {};
  }

  lemma {:induction false} TotalSizeSnoc(groups: seq<Group>, g: Group)
    ensures TotalSize(groups + [g]) == TotalSize(groups) + Size(g.table)
  {
    assert (groups + [g])[..|groups|] == groups;
  }

  /** The limit is never exceeded: a file is only read when its rows still fit. */
  lemma {:induction false} AppendKeepsLimit(cfg: Config, groups: seq<Group>, rq: Request)
    requires GroupsSuit(cfg, groups) && FileTyped(cfg, rq.file) && AppendTo(cfg, groups, rq).Success?
    ensures TotalSize(AppendTo(cfg, groups, rq).value) <= TotalSize(groups) + RowCount(rq.file) <= cfg.maxRows
  {
    var ids, file := SortedIds(rq.ids), rq.file;
    var loads := LoadsOf(ids, file, rq.layer);
    LoadsAreTyped(cfg, ids, file, rq.layer);
    var gs, g := WithGroup(cfg, groups, ids), Find(groups, ids);
    WithGroupSize(cfg, groups, ids);
    FilledSize(TypesOf(cfg, ids), gs[g].table, loads);
    RowCountProjected(ids, file, rq.layer, |file.batches|);
    assert loads[..|file.batches|] == loads && LoadsOf([], file, 0)[..|file.batches|] == LoadsOf([], file, 0);
    TotalSizeUpdate(gs, g, Group(ids, Filled(TypesOf(cfg, ids), gs[g].table, loads).value));
  }

  // ----- When a delete file is accepted -----

  /** Every group has the form the factory picks for its columns. */
  ghost predicate GroupsMade(cfg: Config, groups: seq<Group>)
  {
    forall g :: 0 <= g < |groups| ==>
                  (groups[g].table.GenericTable? <==> !Packs(TypesOf(cfg, groups[g].ids), cfg.specialized))
  }

  lemma {:induction false} WithGroupMade(cfg: Config, groups: seq<Group>, ids: seq<int>)
    requires GroupsSuit(cfg, groups) && GroupsMade(cfg, groups)
    ensures GroupsMade(cfg, WithGroup(cfg, groups, ids))
  {
    FactoryExactly(TypesOf(cfg, ids), cfg.specialized, ByWidth(TypesOf(cfg, ids)));
  }

  lemma {:induction false} AppendMade(cfg: Config, groups: seq<Group>, rq: Request)
    requires GroupsSuit(cfg, groups) && GroupsMade(cfg, groups) && FileTyped(cfg, rq.file)
    requires AppendTo(cfg, groups, rq).Success?
    ensures GroupsMade(cfg, AppendTo(cfg, groups, rq).value)
  {
    var ids := SortedIds(rq.ids);
    LoadsAreTyped(cfg, ids, rq.file, rq.layer);
    WithGroupMade(cfg, groups, ids);
  }

  /** The row's key fields that are not null have supported types. */
  predicate StorableRecord(cfg: Config, ids: seq<int>, rec: Record)
  {
    forall id :: id in ids && id in rec && rec[id].valid ==> Supported(cfg.schema(id))
  }

  function StorableIn(cfg: Config, ids: seq<int>): Record -> bool { (rec: Record) => StorableRecord(cfg, ids, rec) }

  /** The batch has at most 64 key fields and only storable rows. */
  ghost function StorableBatch(cfg: Config, ids: seq<int>): seq<Record> -> bool
  {
    (batch: seq<Record>) => |Members(ids)| <= 64 && All(batch, StorableIn(cfg, ids))
  }

  ghost predicate StorableFile(cfg: Config, file: DeleteFile, ids: seq<int>)
  {
    All(file.batches, StorableBatch(cfg, ids))
  }

  /** The key fields are columns of the file, and the file can be stored unless they pack. */
  ghost predicate Admissible(cfg: Config, rq: Request)
  {
    && Members(rq.ids) <= rq.file.columns
    && (Packs(TypesOf(cfg, SortedIds(rq.ids)), cfg.specialized) || StorableFile(cfg, rq.file, rq.ids))
  }

  lemma {:induction false} DistinctLength(ids: seq<int>, s: set<int>)
    requires (forall i, j :: 0 <= i < j < |ids| ==> ids[i] != ids[j]) && forall id :: id in ids <==> id in s
    ensures |ids| == |s|
  {
    if ids == [] {
      forall id ensures id !in s { assert id !in ids; }
      assert s == {};
    } else {
      var init, last := ids[..|ids|-1], ids[|ids|-1];
      forall id ensures id in init <==> id in s - {last} {
        InConcat(init, [last], id);
        assert ids == init + [last];
      }
      DistinctLength(init, s - {last});
    }
  }

  lemma {:induction false} FieldIsStorable(cfg: Config, sorted: seq<int>, rec: Record, id: int)
    requires Storable(TypesOf(cfg, sorted), Project(sorted, rec)) && id in sorted && id in rec && rec[id].valid
    ensures Supported(cfg.schema(id))
  {
    var k :| 0 <= k < |sorted| && sorted[k] == id;
    assert Project(sorted, rec)[k] == rec[id] && TypesOf(cfg, sorted)[k] == cfg.schema(id);
  }

  lemma {:induction false} RecordIsStorable(cfg: Config, ids: seq<int>, sorted: seq<int>, rec: Record)
    requires forall id :: id in sorted <==> id in ids
    ensures Storable(TypesOf(cfg, sorted), Project(sorted, rec)) <==> StorableRecord(cfg, ids, rec)
  {
    if Storable(TypesOf(cfg, sorted), Project(sorted, rec)) {
      forall id | id in ids && id in rec && rec[id].valid ensures Supported(cfg.schema(id)) {
        FieldIsStorable(cfg, sorted, rec, id);
      }
    }
    if StorableRecord(cfg, ids, rec) {
      forall k | 0 <= k < |sorted| && Project(sorted, rec)[k].valid ensures Supported(TypesOf(cfg, sorted)[k]) {
        assert sorted[k] in sorted;
      }
    }
  }

  lemma {:induction false} BatchIsStorable(cfg: Config, ids: seq<int>, sorted: seq<int>, batch: seq<Record>)
    requires forall id :: id in sorted <==> id in ids
    ensures All(ProjectAll(sorted, batch), StorableRow(TypesOf(cfg, sorted))) <==> All(batch, StorableIn(cfg, ids))
  {
    var rows, f := ProjectAll(sorted, batch), StorableRow(TypesOf(cfg, sorted));
    forall k | 0 <= k < |batch| ensures f(rows[k]) <==> StorableIn(cfg, ids)(batch[k]) {
      RecordIsStorable(cfg, ids, sorted, batch[k]);
    }
    AllAlike(rows, batch, f, StorableIn(cfg, ids));
  }

  lemma {:induction false} FileIsStorable(cfg: Config, file: DeleteFile, ids: seq<int>, sorted: seq<int>, layer: int)
    requires (forall id :: id in sorted <==> id in ids) && |sorted| == |Members(ids)|
    ensures All(LoadsOf(sorted, file, layer), StorableLoad(TypesOf(cfg, sorted))) <==> StorableFile(cfg, file, ids)
  {
    var loads, f := LoadsOf(sorted, file, layer), StorableLoad(TypesOf(cfg, sorted));
    forall b | 0 <= b < |file.batches| ensures f(loads[b]) <==> StorableBatch(cfg, ids)(file.batches[b]) {
      BatchIsStorable(cfg, ids, sorted, file.batches[b]);
    }
    AllAlike(loads, file.batches, f, StorableBatch(cfg, ids));
  }

  /** A delete file is accepted exactly when its rows still fit, its key fields are columns of the file
      and, unless they pack, number at most 64 and are of supported types where they are not null. */
  lemma {:induction false} AppendExactly(cfg: Config, groups: seq<Group>, rq: Request)
    requires GroupsSuit(cfg, groups) && GroupsMade(cfg, groups) && FileTyped(cfg, rq.file)
    ensures AppendTo(cfg, groups, rq).Success? <==>
            TotalSize(groups) + RowCount(rq.file) <= cfg.maxRows && Admissible(cfg, rq)
  {
    var ids := SortedIds(rq.ids);
    assert Members(ids) == Members(rq.ids);
    if Members(ids) <= rq.file.columns {
      LoadsAreTyped(cfg, ids, rq.file, rq.layer);
      WithGroupMade(cfg, groups, ids);
      var gs, g := WithGroup(cfg, groups, ids), Find(groups, ids);
      FilledExactly(TypesOf(cfg, ids), gs[g].table, LoadsOf(ids, rq.file, rq.layer));
      DistinctLength(ids, Members(rq.ids));
      FileIsStorable(cfg, rq.file, rq.ids, ids, rq.layer);
    }
  }

  /** Request `i` finds room behind those before it, and is admissible. */
  ghost predicate Admitted(cfg: Config, rqs: seq<Request>, i: nat)
    requires RequestsTyped(cfg, rqs) && i < |rqs|
  {
    && AppendAll(cfg, rqs[..i]).Success?
    && TotalSize(AppendAll(cfg, rqs[..i]).value) + RowCount(rqs[i].file) <= cfg.maxRows && Admissible(cfg, rqs[i])
  }

  lemma {:induction false} AllMade(cfg: Config, rqs: seq<Request>)
    requires RequestsTyped(cfg, rqs) && AppendAll(cfg, rqs).Success?
    ensures GroupsMade(cfg, AppendAll(cfg, rqs).value)
  {
    if rqs != [] {
      var init, last := rqs[..|rqs|-1], rqs[|rqs|-1];
      assert RequestsTyped(cfg, init) && FileTyped(cfg, last.file);
      AllMade(cfg, init);
      AppendMade(cfg, AppendAll(cfg, init).value, last);
    }
  }

  lemma {:induction false} LastAdmitted(cfg: Config, rqs: seq<Request>)
    requires RequestsTyped(cfg, rqs) && rqs != []
    ensures RequestsTyped(cfg, rqs[..|rqs|-1])
    ensures AppendAll(cfg, rqs).Success? ==> AppendAll(cfg, rqs[..|rqs|-1]).Success?
    ensures AppendAll(cfg, rqs).Success? <==> Admitted(cfg, rqs, |rqs| - 1)
  {
    var init, last := rqs[..|rqs|-1], rqs[|rqs|-1];
    assert RequestsTyped(cfg, init) && FileTyped(cfg, last.file);
    if AppendAll(cfg, init).Success? {
      AllMade(cfg, init);
      AppendExactly(cfg, AppendAll(cfg, init).value, last);
    }
  }

  lemma {:induction false} AdmittedInTurn(cfg: Config, rqs: seq<Request>, i: nat)
    requires RequestsTyped(cfg, rqs) && AppendAll(cfg, rqs).Success? && i < |rqs|
    ensures Admitted(cfg, rqs, i)
  {
    LastAdmitted(cfg, rqs);
    if i < |rqs| - 1 {
      AdmittedInTurn(cfg, rqs[..|rqs|-1], i);
      AdmittedLonger(cfg, rqs, |rqs| - 1, i);
    }
  }

  lemma {:induction false} AdmittedLonger(cfg: Config, rqs: seq<Request>, n: nat, i: nat)
    requires RequestsTyped(cfg, rqs) && i < n <= |rqs| && RequestsTyped(cfg, rqs[..n]) && Admitted(cfg, rqs[..n], i)
    ensures Admitted(cfg, rqs, i)
  {
    assert rqs[..n][..i] == rqs[..i];
  }

  /** A sequence of delete files is accepted exactly when each of them is in its turn. */
  lemma {:induction false} AppendAllExactly(cfg: Config, rqs: seq<Request>)
    requires RequestsTyped(cfg, rqs)
    ensures AppendAll(cfg, rqs).Success? <==> forall i :: 0 <= i < |rqs| ==> Admitted(cfg, rqs, i)
  {
    if AppendAll(cfg, rqs).Success? {
      forall i | 0 <= i < |rqs| ensures Admitted(cfg, rqs, i) { AdmittedInTurn(cfg, rqs, i); }
    } else {
      LastAdmitted(cfg, rqs);
    }
  }

  function RowsOf(rqs: seq<Request>): nat
  {
    if rqs == [] then 0 else RowsOf(rqs[..|rqs|-1]) + RowCount(rqs[|rqs|-1].file)
  }

  lemma {:induction false} AllWithinRows(cfg: Config, rqs: seq<Request>)
    requires RequestsTyped(cfg, rqs) && AppendAll(cfg, rqs).Success?
    ensures TotalSize(AppendAll(cfg, rqs).value) <= RowsOf(rqs)
  {
    if rqs != [] {
      var init, last := rqs[..|rqs|-1], rqs[|rqs|-1];
      assert RequestsTyped(cfg, init) && FileTyped(cfg, last.file);
      AllWithinRows(cfg, init);
      AppendKeepsLimit(cfg, AppendAll(cfg, init).value, last);
    }
  }

  /** Admissible files whose rows fit together are all accepted. */
  lemma {:induction false} AppendAllSucceeds(cfg: Config, rqs: seq<Request>)
    requires RequestsTyped(cfg, rqs) && (forall i :: 0 <= i < |rqs| ==> Admissible(cfg, rqs[i]))
    requires RowsOf(rqs) <= cfg.maxRows
    ensures AppendAll(cfg, rqs).Success?
  {
    if rqs != [] {
      var init, last := rqs[..|rqs|-1], rqs[|rqs|-1];
      assert RequestsTyped(cfg, init) && FileTyped(cfg, last.file);
      AppendAllSucceeds(cfg, init);
      AllWithinRows(cfg, init);
      AllMade(cfg, init);
      AppendExactly(cfg, AppendAll(cfg, init).value, last);
    }
  }

  // ----- What a lookup means -----

  /** The group reports the record as deleted. */
  ghost predicate GroupReports(cfg: Config, g: Group, rec: Record, l: int)
  {
    && Suits(TypesOf(cfg, g.ids), g.table) && WellTyped(TypesOf(cfg, g.ids), Project(g.ids, rec))
    && Reports(TypesOf(cfg, g.ids), g.table, Project(g.ids, rec), l)
  }

  ghost predicate AnyReports(cfg: Config, groups: seq<Group>, rec: Record, l: int)
  {
    exists g :: 0 <= g < |groups| && GroupReports(cfg, groups[g], rec, l)
  }

  /** The record has non-null values of supported types in these fields, and a short key. */
  predicate Plain(cfg: Config, ids: seq<int>, rec: Record)
  {
    && RecordTyped(cfg, Members(ids), rec) && |ids| <= 64
    && NoNulls(Project(ids, rec)) && (forall id :: id in ids ==> Supported(cfg.schema(id)))
    && |Encode(TypesOf(cfg, ids), Project(ids, rec))| < 0x1_0000
  }

  lemma {:induction false} PlainHasKey(cfg: Config, ids: seq<int>, rec: Record)
    requires Plain(cfg, ids, rec)
    ensures Key(TypesOf(cfg, ids), Project(ids, rec)).Success?
  {
    KeyExactly(TypesOf(cfg, ids), Project(ids, rec));
    forall k | 0 <= k < |ids| ensures Supported(TypesOf(cfg, ids)[k]) { assert ids[k] in ids; }
  }

  /** Two records have the same values in the given fields. */
  predicate SameKey(ids: seq<int>, r: Record, rec: Record)
  {
    forall id :: id in ids ==> id in r && id in rec && AgreeCell(r[id], rec[id])
  }

  ghost predicate BatchHits(file: DeleteFile, b: nat, ids: seq<int>, rec: Record)
    requires b < |file.batches|
  {
    exists k :: 0 <= k < |file.batches[b]| && SameKey(ids, file.batches[b][k], rec)
  }

  /** Some row of the delete file has the record's key. */
  ghost predicate FileHits(file: DeleteFile, ids: seq<int>, rec: Record)
  {
    exists b :: 0 <= b < |file.batches| && BatchHits(file, b, ids, rec)
  }

  lemma {:induction false} ProjectionsAgree(ids: seq<int>, sorted: seq<int>, r: Record, rec: Record)
    requires forall id :: id in sorted <==> id in ids
    requires forall id :: id in ids ==> id in r && id in rec
    ensures Agree(Project(sorted, r), Project(sorted, rec)) <==> SameKey(ids, r, rec)
  {
    if Agree(Project(sorted, r), Project(sorted, rec)) {
      forall id | id in ids ensures AgreeCell(r[id], rec[id]) {
        assert id in sorted;
        var k :| 0 <= k < |sorted| && sorted[k] == id;
        assert AgreeCell(Project(sorted, r)[k], Project(sorted, rec)[k]);
      }
    }
    if SameKey(ids, r, rec) {
      forall k | 0 <= k < |sorted| ensures AgreeCell(Project(sorted, r)[k], Project(sorted, rec)[k]) {
        assert sorted[k] in sorted;
        assert Project(sorted, r)[k] == r[sorted[k]] && Project(sorted, rec)[k] == rec[sorted[k]];
      }
    }
  }

  lemma {:induction false} BatchAgrees(cfg: Config, file: DeleteFile, ids: seq<int>, sorted: seq<int>, rec: Record,
        b: nat)
    requires FileTyped(cfg, file) && Members(sorted) <= file.columns && b < |file.batches|
    requires (forall id :: id in sorted <==> id in ids) && forall id :: id in ids ==> id in rec
    ensures Any(ProjectAll(sorted, file.batches[b]), Agreeing(Project(sorted, rec))) <==> BatchHits(file, b, ids, rec)
  {
    var rows := ProjectAll(sorted, file.batches[b]);
    forall k | 0 <= k < |rows|
      ensures Agree(rows[k], Project(sorted, rec)) <==> SameKey(ids, file.batches[b][k], rec)
    {
      assert RecordTyped(cfg, file.columns, file.batches[b][k]);
      forall id | id in ids ensures id in file.batches[b][k] { assert id in Members(sorted); }
      ProjectionsAgree(ids, sorted, file.batches[b][k], rec);
    }
    if Any(rows, Agreeing(Project(sorted, rec))) {
      var k :| 0 <= k < |rows| && Agreeing(Project(sorted, rec))(rows[k]);
      assert SameKey(ids, file.batches[b][k], rec);
    }
    if k :| 0 <= k < |file.batches[b]| && SameKey(ids, file.batches[b][k], rec) {
      assert Agreeing(Project(sorted, rec))(rows[k]);
    }
  }

  lemma {:induction false} DeletedByFile(cfg: Config, file: DeleteFile, ids: seq<int>, sorted: seq<int>, layer: int,
        rec: Record, l: int)
    requires FileTyped(cfg, file) && Members(sorted) <= file.columns
    requires (forall id :: id in sorted <==> id in ids) && forall id :: id in ids ==> id in rec
    ensures Deleted(LoadsOf(sorted, file, layer), Project(sorted, rec), l) <==> l <= layer && FileHits(file, ids, rec)
  {
    var loads, f := LoadsOf(sorted, file, layer), Deleting(Project(sorted, rec), l);
    forall b | 0 <= b < |file.batches| ensures f(loads[b]) <==> l <= layer && BatchHits(file, b, ids, rec) {
      BatchAgrees(cfg, file, ids, sorted, rec, b);
    }
    if Any(loads, f) {
      var b :| 0 <= b < |loads| && f(loads[b]);
      assert BatchHits(file, b, ids, rec);
    }
    if l <= layer && FileHits(file, ids, rec) {
      var b :| 0 <= b < |file.batches| && BatchHits(file, b, ids, rec);
      assert f(loads[b]);
    }
  }

  /** The record is deleted by the request: a row with its key, in its layer or above. */
  ghost predicate RequestHits(rq: Request, rec: Record, l: int)
  {
    l <= rq.layer && FileHits(rq.file, rq.ids, rec)
  }

  lemma {:induction false} GroupFilled(cfg: Config, ids: seq<int>, t: Table, rq: Request, rec: Record, l: int)
    requires FileTyped(cfg, rq.file) && Members(ids) <= rq.file.columns && ids == SortedIds(rq.ids)
    requires Suits(TypesOf(cfg, ids), t) && LoadsTyped(TypesOf(cfg, ids), LoadsOf(ids, rq.file, rq.layer))
    requires Filled(TypesOf(cfg, ids), t, LoadsOf(ids, rq.file, rq.layer)).Success? && Plain(cfg, ids, rec)
    ensures GroupReports(cfg, Group(ids, Filled(TypesOf(cfg, ids), t, LoadsOf(ids, rq.file, rq.layer)).value), rec, l)
            <==>
            GroupReports(cfg, Group(ids, t), rec, l) || RequestHits(rq, rec, l)
  {
    var types, loads, row := TypesOf(cfg, ids), LoadsOf(ids, rq.file, rq.layer), Project(ids, rec);
    ProjectTyped(cfg, ids, rec);
    PlainHasKey(cfg, ids, rec);
    FilledHits(types, t, loads, row, l);
    HitIsDeleted(types, t, loads, row, l);
    forall id | id in rq.ids ensures id in rec { assert id in Members(ids); }
    DeletedByFile(cfg, rq.file, rq.ids, ids, rq.layer, rec, l);
  }

  lemma {:induction false} EmptyGroupReports(cfg: Config, groups: seq<Group>, ids: seq<int>, rec: Record, l: int)
    requires GroupsSuit(cfg, groups)
    ensures AnyReports(cfg, WithGroup(cfg, groups, ids), rec, l) <==> AnyReports(cfg, groups, rec, l)
  {
    var gs := WithGroup(cfg, groups, ids);
    if AnyReports(cfg, groups, rec, l) {
      var g :| 0 <= g < |groups| && GroupReports(cfg, groups[g], rec, l);
      assert gs[g] == groups[g];
    }
    if AnyReports(cfg, gs, rec, l) {
      var g :| 0 <= g < |gs| && GroupReports(cfg, gs[g], rec, l);
      if g == |groups| {
        EmptyTableSize(TypesOf(cfg, ids), cfg.specialized, ByWidth(TypesOf(cfg, ids)));
        EmptyReportsNothing(TypesOf(cfg, ids), gs[g].table, Project(ids, rec), l);
      }
      assert gs[g] == groups[g];
    }
  }

  lemma {:induction false} ReplaceReports(cfg: Config, groups: seq<Group>, g: nat, h: Group, rec: Record, l: int,
        more: bool)
    requires g < |groups| && (GroupReports(cfg, h, rec, l) <==> GroupReports(cfg, groups[g], rec, l) || more)
    ensures AnyReports(cfg, groups[g := h], rec, l) <==> AnyReports(cfg, groups, rec, l) || more
  {
    var gs := groups[g := h];
    if AnyReports(cfg, groups, rec, l) {
      var k :| 0 <= k < |groups| && GroupReports(cfg, groups[k], rec, l);
      assert GroupReports(cfg, gs[k], rec, l);
    }
    if more { assert GroupReports(cfg, gs[g], rec, l); }
    if AnyReports(cfg, gs, rec, l) {
      var k :| 0 <= k < |gs| && GroupReports(cfg, gs[k], rec, l);
      assert k != g ==> GroupReports(cfg, groups[k], rec, l);
    }
  }

  /** One delete file adds exactly its own hits. */
  lemma {:induction false} AppendReports(cfg: Config, groups: seq<Group>, rq: Request, rec: Record, l: int)
    requires GroupsSuit(cfg, groups) && FileTyped(cfg, rq.file) && AppendTo(cfg, groups, rq).Success?
    requires Plain(cfg, SortedIds(rq.ids), rec)
    ensures AnyReports(cfg, AppendTo(cfg, groups, rq).value, rec, l) <==>
            AnyReports(cfg, groups, rec, l) || RequestHits(rq, rec, l)
  {
    var ids := SortedIds(rq.ids);
    LoadsAreTyped(cfg, ids, rq.file, rq.layer);
    var gs, g := WithGroup(cfg, groups, ids), Find(groups, ids);
    EmptyGroupReports(cfg, groups, ids, rec, l);
    GroupFilled(cfg, ids, gs[g].table, rq, rec, l);
    var t := Filled(TypesOf(cfg, ids), gs[g].table, LoadsOf(ids, rq.file, rq.layer)).value;
    ReplaceReports(cfg, gs, g, Group(ids, t), rec, l, RequestHits(rq, rec, l));
  }

  ghost predicate AnyRequestHits(rqs: seq<Request>, rec: Record, l: int)
  {
    exists i :: 0 <= i < |rqs| && RequestHits(rqs[i], rec, l)
  }

  /** After any sequence of delete files, a plain record is reported exactly when one of the files
      of its layer or above has a row with its key. */
  lemma {:induction false} HandlerExact(cfg: Config, rqs: seq<Request>, rec: Record, l: int)
    requires RequestsTyped(cfg, rqs) && AppendAll(cfg, rqs).Success?
    requires forall i :: 0 <= i < |rqs| ==> Plain(cfg, SortedIds(rqs[i].ids), rec)
    ensures AnyReports(cfg, AppendAll(cfg, rqs).value, rec, l) <==> AnyRequestHits(rqs, rec, l)
  {
    if rqs != [] {
      var init, last := rqs[..|rqs|-1], rqs[|rqs|-1];
      assert RequestsTyped(cfg, init) && FileTyped(cfg, last.file);
      HandlerExact(cfg, init, rec, l);
      AppendReports(cfg, AppendAll(cfg, init).value, last, rec, l);
      RequestHitsLast(rqs, rec, l);
    }
  }

  lemma {:induction false} RequestHitsLast(rqs: seq<Request>, rec: Record, l: int)
    requires rqs != []
    ensures AnyRequestHits(rqs, rec, l) <==> AnyRequestHits(rqs[..|rqs|-1], rec, l) || RequestHits(rqs[|rqs|-1], rec, l)
  {
    var init := rqs[..|rqs|-1];
    if AnyRequestHits(init, rec, l) {
      var i :| 0 <= i < |init| && RequestHits(init[i], rec, l);
      assert RequestHits(rqs[i], rec, l);
    }
    if AnyRequestHits(rqs, rec, l) {
      var i :| 0 <= i < |rqs| && RequestHits(rqs[i], rec, l);
      assert i < |init| ==> RequestHits(init[i], rec, l);
    }
  }

  // ----- The object -----

  /** The groups whose tables hold rows: all that a lookup has to visit. */
  function Occupied(groups: seq<Group>): (r: seq<nat>)
    ensures forall k :: 0 <= k < |r| ==> r[k] < |groups| && Size(groups[r[k]].table) > 0
    ensures forall g :: 0 <= g < |groups| && Size(groups[g].table) > 0 ==> g in r
  {
    if groups == [] then [] else
      var r := Occupied(groups[..|groups|-1]);
      if Size(groups[|groups|-1].table) > 0 then r + [|groups| - 1] else r
  }

  /** The columns each selected table compares, for every row of the batch. */
  function Prepared(groups: seq<Group>, which: seq<nat>, batch: seq<Record>): (r: seq<seq<Row>>)
    requires forall k :: 0 <= k < |which| ==> which[k] < |groups|
    ensures |r| == |which| && forall k :: 0 <= k < |which| ==> r[k] == ProjectAll(groups[which[k]].ids, batch)
  {
    seq(|which|, k requires 0 <= k < |which| => ProjectAll(groups[which[k]].ids, batch))
  }

  lemma {:induction false} PreparedSnoc(groups: seq<Group>, which: seq<nat>, batch: seq<Record>, k: nat)
    requires (forall j :: 0 <= j < |which| ==> which[j] < |groups|) && k < |which|
    ensures Prepared(groups, which[..k+1], batch)
            == Prepared(groups, which[..k], batch) + [ProjectAll(groups[which[k]].ids, batch)]
  {
  }

  /** The record can be compared with every group. */
  predicate Comparable(cfg: Config, groups: seq<Group>, rec: Record)
  {
    forall g :: 0 <= g < |groups| ==> RecordTyped(cfg, Members(groups[g].ids), rec)
  }

  function GroupLookup(cfg: Config, groups: seq<Group>, g: nat, rec: Record, l: int): Outcome<bool>
    requires GroupsSuit(cfg, groups) && Comparable(cfg, groups, rec) && g < |groups|
  {
    ProjectTyped(cfg, groups[g].ids, rec);
    Lookup(TypesOf(cfg, groups[g].ids), groups[g].table, Project(groups[g].ids, rec), l)
  }

  lemma {:induction false} LookupReports(cfg: Config, groups: seq<Group>, g: nat, rec: Record, l: int)
    requires GroupsSuit(cfg, groups) && Comparable(cfg, groups, rec) && g < |groups|
    ensures GroupReports(cfg, groups[g], rec, l) <==> GroupLookup(cfg, groups, g, rec, l) == Success(true)
  {
    ProjectTyped(cfg, groups[g].ids, rec);
  }

  /** The tables are asked one after another until one says yes or raises. */
  function Visit(cfg: Config, groups: seq<Group>, which: seq<nat>, rec: Record, l: int): Outcome<bool>
    requires GroupsSuit(cfg, groups) && Comparable(cfg, groups, rec)
    requires forall k :: 0 <= k < |which| ==> which[k] < |groups|
  {
    if which == [] then Success(false) else
      var before := Visit(cfg, groups, which[..|which|-1], rec, l);
      if before == Success(false) then GroupLookup(cfg, groups, which[|which|-1], rec, l) else before
  }

  lemma {:induction false} VisitStops(cfg: Config, groups: seq<Group>, which: seq<nat>, rec: Record, l: int, n: nat)
    requires GroupsSuit(cfg, groups) && Comparable(cfg, groups, rec)
    requires (forall k :: 0 <= k < |which| ==> which[k] < |groups|) && n <= |which|
    requires Visit(cfg, groups, which[..n], rec, l) != Success(false)
    ensures Visit(cfg, groups, which, rec, l) == Visit(cfg, groups, which[..n], rec, l)
  {
    if n < |which| {
      assert which[..|which|-1][..n] == which[..n];
      VisitStops(cfg, groups, which[..|which|-1], rec, l, n);
    } else {
      assert which[..n] == which;
    }
  }

  ghost function Reporting(cfg: Config, groups: seq<Group>, rec: Record, l: int): nat -> bool
  {
    (g: nat) => g < |groups| && GroupReports(cfg, groups[g], rec, l)
  }

  lemma {:induction false} VisitReports(cfg: Config, groups: seq<Group>, which: seq<nat>, rec: Record, l: int)
    requires GroupsSuit(cfg, groups) && Comparable(cfg, groups, rec)
    requires (forall k :: 0 <= k < |which| ==> which[k] < |groups|) && Visit(cfg, groups, which, rec, l).Success?
    ensures Visit(cfg, groups, which, rec, l).value <==> Any(which, Reporting(cfg, groups, rec, l))
  {
    if which != [] {
      VisitReports(cfg, groups, which[..|which|-1], rec, l);
      LookupReports(cfg, groups, which[|which|-1], rec, l);
      AnyLast(which, Reporting(cfg, groups, rec, l));
    }
  }

  /** Skipping the empty tables changes nothing: the answer is what the tables report. */
  lemma {:induction false} VisitExact(cfg: Config, groups: seq<Group>, rec: Record, l: int)
    requires GroupsSuit(cfg, groups) && Comparable(cfg, groups, rec)
    requires Visit(cfg, groups, Occupied(groups), rec, l).Success?
    ensures Visit(cfg, groups, Occupied(groups), rec, l).value <==> AnyReports(cfg, groups, rec, l)
  {
    var which := Occupied(groups);
    VisitReports(cfg, groups, which, rec, l);
    if Any(which, Reporting(cfg, groups, rec, l)) {
      var k :| 0 <= k < |which| && Reporting(cfg, groups, rec, l)(which[k]);
      assert GroupReports(cfg, groups[which[k]], rec, l);
    }
    if AnyReports(cfg, groups, rec, l) {
      var g :| 0 <= g < |groups| && GroupReports(cfg, groups[g], rec, l);
      ReportedIsOccupied(cfg, groups, g, rec, l);
      var k :| 0 <= k < |which| && which[k] == g;
      assert Reporting(cfg, groups, rec, l)(which[k]);
    }
  }

  lemma {:induction false} ReportedIsOccupied(cfg: Config, groups: seq<Group>, g: nat, rec: Record, l: int)
    requires g < |groups| && GroupReports(cfg, groups[g], rec, l)
    ensures g in Occupied(groups)
  {
    if Size(groups[g].table) == 0 {
      EmptyReportsNothing(TypesOf(cfg, groups[g].ids), groups[g].table, Project(groups[g].ids, rec), l);
    }
  }

  lemma {:induction false} VisitSucceeds(cfg: Config, groups: seq<Group>, which: seq<nat>, rec: Record, l: int)
    requires GroupsSuit(cfg, groups) && Comparable(cfg, groups, rec)
    requires forall g :: 0 <= g < |groups| ==> Plain(cfg, groups[g].ids, rec)
    requires forall k :: 0 <= k < |which| ==> which[k] < |groups|
    ensures Visit(cfg, groups, which, rec, l).Success?
  {
    if which != [] {
      VisitSucceeds(cfg, groups, which[..|which|-1], rec, l);
      PlainHasKey(cfg, groups[which[|which|-1]].ids, rec);
    }
  }

  lemma {:induction false} AppendIds(cfg: Config, groups: seq<Group>, rq: Request, g: nat)
    requires GroupsSuit(cfg, groups) && FileTyped(cfg, rq.file) && AppendTo(cfg, groups, rq).Success?
    requires g < |AppendTo(cfg, groups, rq).value|
    ensures AppendTo(cfg, groups, rq).value[g].ids == if g < |groups| then groups[g].ids else SortedIds(rq.ids)
  {
    var ids := SortedIds(rq.ids);
    var gs, k := WithGroup(cfg, groups, ids), Find(groups, ids);
    assert gs[g].ids == if g < |groups| then groups[g].ids else ids;
  }

  /** Every group was made for the ids of some request. */
  lemma {:induction false} GroupsOfRequests(cfg: Config, rqs: seq<Request>, g: nat) returns (i: nat)
    requires RequestsTyped(cfg, rqs) && AppendAll(cfg, rqs).Success? && g < |AppendAll(cfg, rqs).value|
    ensures i < |rqs| && AppendAll(cfg, rqs).value[g].ids == SortedIds(rqs[i].ids)
  {
    var init, last := rqs[..|rqs|-1], rqs[|rqs|-1];
    assert RequestsTyped(cfg, init);
    var groups := AppendAll(cfg, init).value;
    assert FileTyped(cfg, last.file);
    AppendIds(cfg, groups, last, g);
    if g < |groups| {
      i := GroupsOfRequests(cfg, init, g);
    } else {
      i := |rqs| - 1;
    }
  }

  /** The lookup never raises on a plain record, and its answer is the naive one. */
  lemma {:induction false} HandlerAnswers(cfg: Config, rqs: seq<Request>, rec: Record, l: int)
    requires RequestsTyped(cfg, rqs) && AppendAll(cfg, rqs).Success?
    requires forall i :: 0 <= i < |rqs| ==> Plain(cfg, SortedIds(rqs[i].ids), rec)
    ensures Comparable(cfg, AppendAll(cfg, rqs).value, rec)
    ensures Visit(cfg, AppendAll(cfg, rqs).value, Occupied(AppendAll(cfg, rqs).value), rec, l)
            == Success(AnyRequestHits(rqs, rec, l))
  {
    var groups := AppendAll(cfg, rqs).value;
    forall g | 0 <= g < |groups| ensures Plain(cfg, groups[g].ids, rec) { var i := GroupsOfRequests(cfg, rqs, g); }
    VisitSucceeds(cfg, groups, Occupied(groups), rec, l);
    VisitExact(cfg, groups, rec, l);
    HandlerExact(cfg, rqs, rec, l);
  }

  /** `ParseEqualityDeleteFile`: batch after batch until the first error. */
  method ParseEqualityDeleteFile(types: seq<Type>, empty: Table, loads: seq<Load>) returns (r: Outcome<Table>)
    requires Suits(types, empty) && LoadsTyped(types, loads)
    ensures r == Filled(types, empty, loads)
  {
    var t := empty;
    for b := 0 to |loads|
      invariant Filled(types, empty, loads[..b]) == Success(t)
    {
      FilledStep(types, empty, loads, b);
      var more := AddBatch(types, t, loads[b].rows, loads[b].layer);
      if more.Failure? {
        FilledFails(types, empty, loads, b + 1);
        return more;
      }
      t := more.value;
    }
    assert loads[..|loads|] == loads;
    r := Success(t);
  }

  class EqualityDeleteHandler {
    const cfg: Config
    var currentRows: nat
    var materialized: seq<Group>
    var forFile: seq<nat>
    var prepared: seq<seq<Row>>
    var dataLayer: Option<int>

    ghost predicate Valid()
      reads this
    {
      && GroupsSuit(cfg, materialized) && GroupsMade(cfg, materialized)
      && currentRows == TotalSize(materialized) && currentRows <= cfg.maxRows
    }

    /** The tables with rows have been selected and the batch's columns picked for each. */
    ghost predicate Ready(batch: seq<Record>)
      reads this
    {
      && GroupsSuit(cfg, materialized)
      && forFile == Occupied(materialized) && prepared == Prepared(materialized, forFile, batch)
    }

    constructor (cfg: Config)
      ensures this.cfg == cfg && materialized == [] && dataLayer == None && Valid()
    {
      this.cfg := cfg;
      currentRows := 0;
      materialized := [];
      forFile := [];
      prepared := [];
      dataLayer := None;
    }

    method AppendDelete(file: DeleteFile, ids: seq<int>, layer: int) returns (r: Outcome<()>)
      requires Valid() && FileTyped(cfg, file)
      modifies this
      ensures r.Success? <==> old(currentRows) + RowCount(file) <= cfg.maxRows
                              && Admissible(cfg, Request(file, ids, layer))
      ensures r.Success? ==>
              AppendTo(cfg, old(materialized), Request(file, ids, layer)) == Success(materialized) && Valid()
      ensures r.Failure? ==> AppendTo(cfg, old(materialized), Request(file, ids, layer)) == Failure(r.reason)
    {
      AppendExactly(cfg, materialized, Request(file, ids, layer));
      if currentRows + RowCount(file) > cfg.maxRows {
        return Failure(ExecutionError);
      }
      var fieldIds := SortedIds(ids);
      if !(Members(fieldIds) <= file.columns) {
        return Failure(ExecutionError);
      }
      ghost var groups := materialized;
      var g := Find(materialized, fieldIds);
      materialized := WithGroup(cfg, materialized, fieldIds);
      LoadsAreTyped(cfg, fieldIds, file, layer);
      var t := ParseEqualityDeleteFile(TypesOf(cfg, fieldIds), materialized[g].table, LoadsOf(fieldIds, file, layer));
      if t.Failure? {
        return Failure(t.reason);
      }
      AppendKeepsLimit(cfg, groups, Request(file, ids, layer));
      AppendMade(cfg, groups, Request(file, ids, layer));
      materialized := materialized[g := Group(fieldIds, t.value)];
      currentRows := TotalSize(materialized);
      r := Success(());
    }

    method PrepareDeletesForFile(layer: int) returns (any: bool)
      modifies this`forFile, this`dataLayer
      ensures dataLayer == Some(layer) && forFile == Occupied(materialized)
      ensures any <==> exists g :: 0 <= g < |materialized| && Size(materialized[g].table) > 0
    {
      dataLayer := Some(layer);
      forFile := Occupied(materialized);
      any := |forFile| > 0;
      if any { assert forFile[0] < |materialized|; }
    }

    method PrepareDeletesForBatch(batch: seq<Record>)
      requires GroupsSuit(cfg, materialized) && forFile == Occupied(materialized)
      modifies this`prepared
      ensures Ready(batch)
    {
      prepared := [];
      for k := 0 to |forFile|
        invariant prepared == Prepared(materialized, forFile[..k], batch)
      {
        PreparedSnoc(materialized, forFile, batch, k);
        prepared := prepared + [ProjectAll(materialized[forFile[k]].ids, batch)];
      }
      assert forFile[..|forFile|] == forFile;
    }

    /** The answer is what the tables report; an unsupported key type raises. */
    method IsDeleted(row: nat, ghost batch: seq<Record>) returns (r: Outcome<bool>)
      requires Ready(batch) && row < |batch| && Comparable(cfg, materialized, batch[row])
      ensures dataLayer.None? ==> r == Failure(ExecutionError)
      ensures dataLayer.Some? ==> r == Visit(cfg, materialized, forFile, batch[row], dataLayer.value)
      ensures r.Success? ==> dataLayer.Some? && r.value == AnyReports(cfg, materialized, batch[row], dataLayer.value)
    {
      if dataLayer.None? {
        return Failure(ExecutionError);
      }
      ghost var rec, l := batch[row], dataLayer.value;
      for k := 0 to |prepared|
        invariant Visit(cfg, materialized, forFile[..k], rec, l) == Success(false)
      {
        assert forFile[..k+1][..k] == forFile[..k];
        var g := materialized[forFile[k]];
        ProjectTyped(cfg, g.ids, rec);
        var found := Lookup(TypesOf(cfg, g.ids), g.table, prepared[k][row], dataLayer.value);
        if found != Success(false) {
          VisitStops(cfg, materialized, forFile, rec, l, k + 1);
          if found == Success(true) { VisitExact(cfg, materialized, rec, l); }
          return found;
        }
      }
      assert forFile[..|forFile|] == forFile;
      VisitExact(cfg, materialized, rec, l);
      r := Success(false);
    }
  }

  lemma {:induction false} FilledStep(types: seq<Type>, t: Table, loads: seq<Load>, b: nat)
    requires Suits(types, t) && LoadsTyped(types, loads) && b < |loads|
    requires LoadsTyped(types, loads[..b]) && Filled(types, t, loads[..b]).Success?
    ensures LoadsTyped(types, loads[..b+1]) && AllTyped(types, loads[b].rows)
    ensures Filled(types, t, loads[..b+1])
            == AddBatch(types, Filled(types, t, loads[..b]).value, loads[b].rows, loads[b].layer)
  {
    assert loads[..b+1][..b] == loads[..b];
  }

  lemma {:induction false} FilledFails(types: seq<Type>, t: Table, loads: seq<Load>, n: nat)
    requires Suits(types, t) && LoadsTyped(types, loads) && n <= |loads|
    requires LoadsTyped(types, loads[..n]) && Filled(types, t, loads[..n]).Failure?
    ensures Filled(types, t, loads) == Filled(types, t, loads[..n])
  {
    if n < |loads| {
      var init := loads[..|loads|-1];
      assert init[..n] == loads[..n];
      FilledFails(types, t, init, n);
    } else {
      assert loads[..n] == loads;
    }
  }
}
