/** How many rows a table counts: one for each key it holds, so that delete files with rows that
    agree are counted once. */
module TableSizes {
  import opened Cells
  import opened MaxLayers
  import opened GenericKey
  import opened PackedKey
  import opened DeleteTables
  import opened Handler

  /** What a form keeps of a row. */
  datatype Slot = ByteSlot(key: seq<byte>) | NumberSlot(image: nat) | NullSlot | PackedSlot(mask: nat, number: nat)

  function SlotOf(types: seq<Type>, t: Table, row: Row): Slot
    requires Suits(types, t) && WellTyped(types, row)
  {
    match t
    case GenericTable(_) => ByteSlot(Visible(Encode(types, row)))
    case OneColumn(_, _) => if row[0].valid then NumberSlot(DeleteTables.Image(row)) else NullSlot
    case MultipleColumns(order, _) => PackedSlot(Mask(row), Pack(types, order, row))
  }

  function Image<A, B>(s: set<A>, f: A -> B): set<B> { set x | x in s :: f(x) }

  function OfBytes(): seq<byte> -> Slot { (k: seq<byte>) => ByteSlot(k) }
  function OfNumber(): nat -> Slot { (n: nat) => NumberSlot(n) }
  function OfPlain(): nat -> Slot { (k: nat) => PackedSlot(0, k) }
  function OfNulls(): ((nat, nat)) -> Slot { (q: (nat, nat)) => PackedSlot(q.0, q.1) }

  function PackedSlots(p: Packed): set<Slot>
  {
    Image(p.values.Keys, OfPlain()) + Image(NullKeys(p), OfNulls())
  }

  function Slots(t: Table): set<Slot>
  {
    match t
    case GenericTable(bytes) => Image(bytes.Keys, OfBytes())
    case OneColumn(numbers, containsNull) => Image(numbers.Keys, OfNumber()) + (if containsNull then {NullSlot} else {})
    case MultipleColumns(_, packed) => PackedSlots(packed)
  }

  /** Keys of rows with nulls are kept apart from the others. */
  predicate Proper(t: Table)
  {
    t.MultipleColumns? ==> forall q :: q in NullKeys(t.packed) ==> q.0 != 0
  }

  // ----- The size is the number of slots -----

  ghost predicate Injective<A(!new), B(!new)>(s: set<A>, f: A -> B)
  {
    forall x, y :: x in s && y in s && f(x) == f(y) ==> x == y
  }

  lemma {:induction false} ImageAdd<A, B>(s: set<A>, x: A, f: A -> B)
    ensures Image(s + {x}, f) == Image(s, f) + {f(x)}
  {
  }

  lemma {:induction false} NotInImage<A(!new), B(!new)>(s: set<A>, x: A, f: A -> B)
    requires Injective(s + {x}, f) && x !in s
    ensures f(x) !in Image(s, f)
  {
  }

  lemma {:induction false} ImageUnion<A, B>(s: set<A>, t: set<A>, f: A -> B)
    ensures Image(s + t, f) == Image(s, f) + Image(t, f)
  {
  }

  lemma {:induction false} ImageSame<A, B>(s: set<A>, f: A -> B, g: A -> B)
    requires forall x :: x in s ==> f(x) == g(x)
    ensures Image(s, f) == Image(s, g)
  {
  }

  lemma {:induction false} ImageSize<A(!new), B(!new)>(s: set<A>, f: A -> B)
    requires Injective(s, f)
    ensures |Image(s, f)| == |s|
    decreases |s|
  {
    if s == {} {
      assert Image(s, f) == {};
    } else {
      var x :| x in s;
      var rest := s - {x};
      ImageSize(rest, f);
      assert rest + {x} == s;
      ImageAdd(rest, x, f);
      NotInImage(rest, x, f);
    }
  }

  lemma {:induction false} DisjointSize<T>(a: set<T>, b: set<T>)
    requires a * b == {}
    ensures |a + b| == |a| + |b|
  {
  }

  lemma {:induction false} PackedSize(p: Packed)
    requires forall q :: q in NullKeys(p) ==> q.0 != 0
    ensures |PackedSlots(p)| == |p.values| + |NullKeys(p)|
  {
    ImageSize(p.values.Keys, OfPlain());
    ImageSize(NullKeys(p), OfNulls());
    assert Image(p.values.Keys, OfPlain()) * Image(NullKeys(p), OfNulls()) == {};
    DisjointSize(Image(p.values.Keys, OfPlain()), Image(NullKeys(p), OfNulls()));
  }

  lemma {:induction false} SizeIsSlots(t: Table)
    requires Proper(t)
    ensures Size(t) == |Slots(t)|
  {
    match t
    case GenericTable(bytes) => ImageSize(bytes.Keys, OfBytes());
    case OneColumn(numbers, containsNull) => ImageSize(numbers.Keys, OfNumber());
    case MultipleColumns(_, packed) => PackedSize(packed);
  }

  // ----- Every row adds its slot -----

  lemma {:induction false} GenericSlot(types: seq<Type>, bytes: map<seq<byte>, int>, row: Row, layer: int)
    requires WellTyped(types, row) && Key(types, row).Success?
    ensures Slots(GenericTable(UpdateMax(bytes, Key(types, row).value, layer)))
            == Slots(GenericTable(bytes)) + {SlotOf(types, GenericTable(bytes), row)}
  {
    UpdateMaxKeys(bytes, Key(types, row).value, layer);
    ImageAdd(bytes.Keys, Key(types, row).value, OfBytes());
  }

  lemma {:induction false} NumberSlots(types: seq<Type>, t: Table, row: Row, layer: int)
    requires t.OneColumn? && Suits(types, t) && WellTyped(types, row)
    ensures Slots(AddOne(t, row, layer)) == Slots(t) + {SlotOf(types, t, row)}
  {
    if row[0].valid {
      UpdateMaxKeys(t.numbers, DeleteTables.Image(row), layer);
      ImageAdd(t.numbers.Keys, DeleteTables.Image(row), OfNumber());
    }
  }

  lemma {:induction false} PackedAdd(p: Packed, mask: nat, key: nat, layer: int)
    ensures PackedSlots(AddKey(p, mask, key, layer)) == PackedSlots(p) + {PackedSlot(mask, key)}
    ensures (forall q :: q in NullKeys(p) ==> q.0 != 0) ==>
            forall q :: q in NullKeys(AddKey(p, mask, key, layer)) ==> q.0 != 0
  {
    if mask == 0 {
      UpdateMaxKeys(p.values, key, layer);
      ImageAdd(p.values.Keys, key, OfPlain());
      assert NullKeys(AddKey(p, mask, key, layer)) == NullKeys(p);
    } else {
      AddNullKey(p, mask, key, layer);
      ImageAdd(NullKeys(p), (mask, key), OfNulls());
      assert AddKey(p, mask, key, layer).values == p.values;
    }
  }

  ghost function SlotAs(types: seq<Type>, t: Table): Row -> Slot
  {
    (row: Row) => if Suits(types, t) && WellTyped(types, row) then SlotOf(types, t, row) else NullSlot
  }

  /** The rows, each once. */
  function RowSet(rows: seq<Row>): set<Row>
  {
    if rows == [] then {} else RowSet(rows[..|rows|-1]) + {rows[|rows|-1]}
  }

  lemma {:induction false} RowSetMembers(rows: seq<Row>, row: Row)
    ensures row in RowSet(rows) <==> row in rows
  {
    if rows != [] { RowSetMembers(rows[..|rows|-1], row); }
  }

  lemma {:induction false} RowSetConcat(rows: seq<Row>, more: seq<Row>)
    ensures RowSet(rows + more) == RowSet(rows) + RowSet(more)
  {
    forall row ensures row in RowSet(rows + more) <==> row in RowSet(rows) || row in RowSet(more) {
      RowSetMembers(rows + more, row);
      RowSetMembers(rows, row);
      RowSetMembers(more, row);
    }
  }

  /** What the rows leave in a table of the form `t`. */
  ghost function RowSlots(types: seq<Type>, t: Table, rows: seq<Row>): set<Slot>
  {
    Image(RowSet(rows), SlotAs(types, t))
  }

  lemma {:induction false} RowSlotsLast(types: seq<Type>, t: Table, rows: seq<Row>)
    requires rows != []
    ensures RowSlots(types, t, rows)
            == RowSlots(types, t, rows[..|rows|-1]) + {SlotAs(types, t)(rows[|rows|-1])}
  {
    ImageAdd(RowSet(rows[..|rows|-1]), rows[|rows|-1], SlotAs(types, t));
  }

  lemma {:induction false} GenericBatch(types: seq<Type>, bytes: map<seq<byte>, int>, rows: seq<Row>, layer: int)
    requires AllTyped(types, rows) && AddAll(types, bytes, rows, layer).Success?
    ensures Slots(GenericTable(AddAll(types, bytes, rows, layer).value))
            == Slots(GenericTable(bytes)) + RowSlots(types, GenericTable(bytes), rows)
  {
    if rows != [] {
      var n := |rows| - 1;
      assert WellTyped(types, rows[n]);
      GenericBatch(types, bytes, rows[..n], layer);
      RowSlotsLast(types, GenericTable(bytes), rows);
      GenericSlot(types, AddAll(types, bytes, rows[..n], layer).value, rows[n], layer);
    }
  }

  lemma {:induction false} NumberBatch(types: seq<Type>, t: Table, rows: seq<Row>, layer: int)
    requires t.OneColumn? && Suits(types, t) && AllTyped(types, rows)
    ensures Slots(AddOnes(types, t, rows, layer)) == Slots(t) + RowSlots(types, t, rows)
  {
    if rows != [] {
      var n := |rows| - 1;
      assert WellTyped(types, rows[n]);
      NumberBatch(types, t, rows[..n], layer);
      RowSlotsLast(types, t, rows);
      NumberSlots(types, AddOnes(types, t, rows[..n], layer), rows[n], layer);
    }
  }

  lemma {:induction false} PackedBatch(types: seq<Type>, t: Table, rows: seq<Row>, layer: int)
    requires t.MultipleColumns? && Suits(types, t) && AllTyped(types, rows)
    ensures PackedSlots(AddPacked(types, t.order, t.packed, rows, layer)) == Slots(t) + RowSlots(types, t, rows)
    ensures Proper(t) ==> Proper(t.(packed := AddPacked(types, t.order, t.packed, rows, layer)))
  {
    if rows != [] {
      var n := |rows| - 1;
      assert WellTyped(types, rows[n]);
      PackedBatch(types, t, rows[..n], layer);
      RowSlotsLast(types, t, rows);
      PackedAdd(AddPacked(types, t.order, t.packed, rows[..n], layer), Mask(rows[n]), Pack(types, t.order, rows[n]),
                layer);
    }
  }

  lemma {:induction false} BatchSlots(types: seq<Type>, t: Table, load: Load)
    requires Suits(types, t) && AllTyped(types, load.rows) && AddBatch(types, t, load.rows, load.layer).Success?
    ensures Slots(AddBatch(types, t, load.rows, load.layer).value) == Slots(t) + RowSlots(types, t, load.rows)
    ensures Proper(t) ==> Proper(AddBatch(types, t, load.rows, load.layer).value)
  {
    match t
    case GenericTable(bytes) => GenericBatch(types, bytes, load.rows, load.layer);
    case OneColumn(_, _) => NumberBatch(types, t, load.rows, load.layer);
    case MultipleColumns(_, _) => PackedBatch(types, t, load.rows, load.layer);
  }

  // ----- Whole histories -----

  function AllRows(loads: seq<Load>): seq<Row>
  {
    if loads == [] then [] else AllRows(loads[..|loads|-1]) + loads[|loads|-1].rows
  }

  lemma {:induction false} AllRowsTyped(types: seq<Type>, loads: seq<Load>)
    requires LoadsTyped(types, loads)
    ensures AllTyped(types, AllRows(loads))
  {
    if loads != [] {
      var init, last := loads[..|loads|-1], loads[|loads|-1];
      assert LoadsTyped(types, init) && AllTyped(types, last.rows);
      AllRowsTyped(types, init);
    }
  }

  lemma {:induction false} RowSlotsConcat(types: seq<Type>, t: Table, rows: seq<Row>, more: seq<Row>)
    ensures RowSlots(types, t, rows + more) == RowSlots(types, t, rows) + RowSlots(types, t, more)
  {
    RowSetConcat(rows, more);
    ImageUnion(RowSet(rows), RowSet(more), SlotAs(types, t));
  }

  lemma {:induction false} SameRowSlots(types: seq<Type>, t: Table, u: Table, rows: seq<Row>)
    requires Suits(types, t) && Suits(types, u) && SameForm(t, u) && AllTyped(types, rows)
    ensures RowSlots(types, t, rows) == RowSlots(types, u, rows)
  {
    forall row | row in RowSet(rows) ensures SlotAs(types, t)(row) == SlotAs(types, u)(row) {
      RowSetMembers(rows, row);
      var i :| 0 <= i < |rows| && rows[i] == row;
      assert WellTyped(types, rows[i]);
    }
    ImageSame(RowSet(rows), SlotAs(types, t), SlotAs(types, u));
  }

  lemma {:induction false} FilledSlots(types: seq<Type>, t: Table, loads: seq<Load>)
    requires Suits(types, t) && LoadsTyped(types, loads) && Filled(types, t, loads).Success?
    ensures AllTyped(types, AllRows(loads))
    ensures Slots(Filled(types, t, loads).value) == Slots(t) + RowSlots(types, t, AllRows(loads))
    ensures Proper(t) ==> Proper(Filled(types, t, loads).value)
  {
    AllRowsTyped(types, loads);
    if loads != [] {
      var init, last := loads[..|loads|-1], loads[|loads|-1];
      assert LoadsTyped(types, init) && AllTyped(types, last.rows);
      FilledSlots(types, t, init);
      var u := Filled(types, t, init).value;
      BatchSlots(types, u, last);
      SameRowSlots(types, t, u, last.rows);
      RowSlotsConcat(types, t, AllRows(init), last.rows);
    }
  }

  // ----- Slots are keys -----

  lemma {:induction false} SlotsAreKeys(types: seq<Type>, t: Table, r: Row, row: Row)
    requires Suits(types, t) && WellTyped(types, r) && WellTyped(types, row)
    requires NoNulls(r) && NoNulls(row) && Distinguishes(types, t, row)
    ensures SlotOf(types, t, r) == SlotOf(types, t, row) <==> r == row
  {
    match t
    case GenericTable(_) =>
      ShortKeyIdentifies(types, row, r);
      if Agree(row, r) { AgreeIsEqual(row, r); }
    case OneColumn(_, _) =>
      assert HasType(types[0], r[0]) && HasType(types[0], row[0]);
      if SlotOf(types, t, r) == SlotOf(types, t, row) { assert r == [r[0]] && row == [row[0]]; }
    case MultipleColumns(order, _) =>
      PackedHit(types, order, r, row);
      if Agree(r, row) { AgreeIsEqual(r, row); }
  }

  lemma {:induction false} AgreeIsEqual(r: Row, s: Row)
    requires NoNulls(r) && Agree(r, s)
    ensures r == s
  {
    forall i | 0 <= i < |r| ensures r[i] == s[i] { assert AgreeCell(r[i], s[i]); }
  }

  predicate Distinguishable(types: seq<Type>, t: Table, rows: seq<Row>)
    requires AllTyped(types, rows)
  {
    forall i :: 0 <= i < |rows| ==> NoNulls(rows[i]) && Distinguishes(types, t, rows[i])
  }

  lemma {:induction false} RowIsDistinguished(types: seq<Type>, t: Table, rows: seq<Row>, row: Row)
    requires AllTyped(types, rows) && Distinguishable(types, t, rows) && row in RowSet(rows)
    ensures WellTyped(types, row) && NoNulls(row) && Distinguishes(types, t, row)
  {
    RowSetMembers(rows, row);
    var i :| 0 <= i < |rows| && rows[i] == row;
    assert WellTyped(types, rows[i]);
  }

  lemma {:induction false} DistinctSlots(types: seq<Type>, t: Table, rows: seq<Row>)
    requires Suits(types, t) && AllTyped(types, rows) && Distinguishable(types, t, rows)
    ensures |RowSlots(types, t, rows)| == |RowSet(rows)|
  {
    var f := SlotAs(types, t);
    forall r, row | r in RowSet(rows) && row in RowSet(rows) && f(r) == f(row) ensures r == row {
      RowIsDistinguished(types, t, rows, r);
      RowIsDistinguished(types, t, rows, row);
      SlotsAreKeys(types, t, r, row);
    }
    ImageSize(RowSet(rows), f);
  }

  /** A table filled with distinguishable rows counts every row once, however often and in whatever
      layers it was added. */
  lemma {:induction false} TableCounts(types: seq<Type>, specialized: bool, order: seq<int>, loads: seq<Load>)
    requires Suits(types, EmptyTable(types, specialized, order)) && LoadsTyped(types, loads)
    requires Filled(types, EmptyTable(types, specialized, order), loads).Success?
    requires AllTyped(types, AllRows(loads))
    requires Distinguishable(types, EmptyTable(types, specialized, order), AllRows(loads))
    ensures Size(Filled(types, EmptyTable(types, specialized, order), loads).value) == |RowSet(AllRows(loads))|
  {
    var t := EmptyTable(types, specialized, order);
    FilledSlots(types, t, loads);
    assert NullKeys(Packed(map[], map[])) == {};
    assert Slots(t) == {};
    assert Slots(t) + RowSlots(types, t, AllRows(loads)) == RowSlots(types, t, AllRows(loads));
    SizeIsSlots(Filled(types, t, loads).value);
    DistinctSlots(types, t, AllRows(loads));
  }

  // ----- The rows of a file -----

  function AllRecords(batches: seq<seq<Record>>): seq<Record>
  {
    if batches == [] then [] else AllRecords(batches[..|batches|-1]) + batches[|batches|-1]
  }

  /** The rows counted against the limit are all the rows of the file. */
  lemma {:induction false} RowsCounted(file: DeleteFile, n: nat)
    requires n <= |file.batches|
    ensures LoadRows(LoadsOf([], file, 0)[..n]) == |AllRecords(file.batches[..n])|
    ensures n == |file.batches| ==> RowCount(file) == |AllRecords(file.batches)|
  {
    var loads := LoadsOf([], file, 0);
    if n > 0 {
      RowsCounted(file, n - 1);
      assert loads[..n][..n-1] == loads[..n-1] && file.batches[..n][..n-1] == file.batches[..n-1];
    }
    if n == |file.batches| { assert loads[..n] == loads && file.batches[..n] == file.batches; }
  }
}
