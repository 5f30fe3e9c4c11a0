/** The three forms of an equality delete (`EqualityDelete` and `MakeEqualityDelete`): whichever
    form the factory picks, a lookup means "some added row has this key in a high enough layer". */
module DeleteTables {
  import opened Order
  import opened Cells
  import opened MaxLayers
  import opened GenericKey
  import opened PackedKey

  datatype Table =
    | GenericTable(bytes: map<seq<byte>, int>)
    | OneColumn(numbers: map<nat, int>, containsNull: bool)
    | MultipleColumns(order: seq<int>, packed: Packed)

  // ----- The factory -----

  predicate UsesPacking(types: seq<Type>, specialized: bool)
  {
    specialized && |types| != 1 && AllPackable(types) && TotalWidth(types) <= 128
  }

  function EmptyTable(types: seq<Type>, specialized: bool, order: seq<int>): Table
  {
    if specialized && |types| == 1 && Packable(types[0]) then OneColumn(map[], false)
    else if UsesPacking(types, specialized) then MultipleColumns(order, Packed(map[], map[]))
    else GenericTable(map[])
  }

  function Wider(types: seq<Type>): (int, int) -> bool
  {
    (i: int, j: int) => WidthAt(types)(i) >= WidthAt(types)(j)
  }

  lemma {:induction false} WidthUpTo(types: seq<Type>, i: nat)
    requires i < |types|
    ensures TotalWidth(types[i..]) == BitWidth(types[i]) + TotalWidth(types[i+1..])
  {
    assert types[i..][1..] == types[i+1..];
  }

  /** The columns by descending width. */
  function ByWidth(types: seq<Type>): (order: seq<int>)
    ensures IsOrder(order, |types|)
  {
    SortIsSorted(Indices(|types|), Wider(types));
    Sort(Indices(|types|), Wider(types))
  }

  /** `std::sort`: any order by descending width, columns of equal width standing in any order. */
  method SortByWidth(types: seq<Type>) returns (order: seq<int>)
    ensures IsOrder(order, |types|) && SortedBy(order, Wider(types))
  {
    SortIsSorted(Indices(|types|), Wider(types));
    order := Sort(Indices(|types|), Wider(types));
  }

  /** The widths of the packable columns are summed even when another column is not packable. */
  method MakeEqualityDelete(types: seq<Type>, specialized: bool) returns (t: Table, order: seq<int>)
    ensures IsOrder(order, |types|) && SortedBy(order, Wider(types)) && t == EmptyTable(types, specialized, order)
  {
    order := SortByWidth(types);
    if !specialized {
      return GenericTable(map[]), order;
    }
    if |types| == 1 {
      return if Packable(types[0]) then OneColumn(map[], false) else GenericTable(map[]), order;
    }
    var allGood, total := true, 0;
    for i := 0 to |types|
      invariant allGood <==> forall k :: 0 <= k < i ==> Packable(types[k])
      invariant total + TotalWidth(types[i..]) == TotalWidth(types)
    {
      WidthUpTo(types, i);
      if Packable(types[i]) {
        total := total + BitWidth(types[i]);
      } else {
        allGood := false;
      }
    }
    t := if !allGood || total > 128 then GenericTable(map[]) else MultipleColumns(order, Packed(map[], map[]));
  }

  /** What the factory guarantees about the table and its columns. */
  ghost predicate Suits(types: seq<Type>, t: Table)
  {
    match t
    case GenericTable(_) => true
    case OneColumn(_, _) => |types| == 1 && Packable(types[0])
    case MultipleColumns(order, _) =>
      AllPackable(types) && TotalWidth(types) <= 128 && IsOrder(order, |types|) && InRange(order, |types|)
  }

  lemma {:induction false} FactorySuits(types: seq<Type>, specialized: bool, order: seq<int>)
    requires IsOrder(order, |types|)
    ensures Suits(types, EmptyTable(types, specialized, order))
  {
    OrderInRange(order, |types|);
  }

  /** The bits of the columns' values together. */
  function SumBits(types: seq<Type>): nat
  {
    if types == [] then 0 else SumBits(types[..|types|-1]) + 8 * ByteWidth(types[|types|-1])
  }

  /** The specialised forms serve numbers of these types that fit side by side into 128 bits. */
  predicate Packs(types: seq<Type>, specialized: bool)
  {
    && specialized
    && (forall i :: 0 <= i < |types| ==>
          types[i] == INT16 || types[i] == INT32 || types[i] == INT64 || types[i] == TIMESTAMP)
    && SumBits(types) <= 128
  }

  lemma {:induction false} WidthSnoc(types: seq<Type>, ty: Type)
    ensures TotalWidth(types + [ty]) == TotalWidth(types) + BitWidth(ty)
  {
    if types == [] {
      assert types + [ty] == [ty] && [ty][1..] == [];
    } else {
      assert (types + [ty])[1..] == types[1..] + [ty];
      WidthSnoc(types[1..], ty);
    }
  }

  lemma {:induction false} WidthIsBits(types: seq<Type>)
    requires AllPackable(types)
    ensures TotalWidth(types) == SumBits(types)
  {
    if types != [] {
      var init, last := types[..|types|-1], types[|types|-1];
      WidthIsBits(init);
      WidthSnoc(init, last);
      assert types == init + [last];
    }
  }

  /** Which form the factory picks, by the types of the columns. */
  lemma {:induction false} FactoryExactly(types: seq<Type>, specialized: bool, order: seq<int>)
    ensures EmptyTable(types, specialized, order).GenericTable? <==> !Packs(types, specialized)
    ensures EmptyTable(types, specialized, order).OneColumn? <==> Packs(types, specialized) && |types| == 1
  {
    if AllPackable(types) { WidthIsBits(types); }
    if |types| == 1 { assert types[..0] == [] && SumBits(types) == 8 * ByteWidth(types[0]); }
  }

  // ----- Adding and looking up -----

  function Image(row: Row): nat
    requires |row| == 1
  {
    if row[0].value.Bits? then row[0].value.image else 0
  }

  function AddOne(t: Table, row: Row, layer: int): Table
    requires t.OneColumn? && |row| == 1
  {
    if row[0].valid then t.(numbers := UpdateMax(t.numbers, Image(row), layer)) else t.(containsNull := true)
  }

  function AddOnes(types: seq<Type>, t: Table, rows: seq<Row>, layer: int): (r: Table)
    requires t.OneColumn? && |types| == 1 && AllTyped(types, rows)
    ensures r.OneColumn?
  {
    if rows == [] then t else
      assert WellTyped(types, rows[|rows|-1]);
      AddOne(AddOnes(types, t, rows[..|rows|-1], layer), rows[|rows|-1], layer)
  }

  /** One record batch of a delete file. */
  function AddBatch(types: seq<Type>, t: Table, rows: seq<Row>, layer: int): Outcome<Table>
    requires Suits(types, t) && AllTyped(types, rows)
  {
    match t
    case GenericTable(bytes) =>
      if |types| > 64 then Failure(NotImplemented) else
      (match AddAll(types, bytes, rows, layer)
       case Failure(why) => Failure(why)
       case Success(b) => Success(GenericTable(b)))
    case OneColumn(_, _) => Success(AddOnes(types, t, rows, layer))
    case MultipleColumns(order, packed) => Success(MultipleColumns(order, AddPacked(types, order, packed, rows, layer)))
  }

  function Lookup(types: seq<Type>, t: Table, row: Row, dataLayer: int): Outcome<bool>
    requires Suits(types, t) && WellTyped(types, row)
  {
    match t
    case GenericTable(bytes) =>
      (match Key(types, row)
       case Failure(why) => Failure(why)
       case Success(k) => Success(Has(bytes, k, dataLayer)))
    case OneColumn(numbers, containsNull) =>
      Success(if row[0].valid then Has(numbers, Image(row), dataLayer) else containsNull)
    case MultipleColumns(order, packed) =>
      Success(Has(ByMask(packed, Mask(row)), Pack(types, order, row), dataLayer))
  }

  /** Added row `r` of layer `layer` makes the form `t` report `row` of layer `dataLayer`. */
  predicate Hits(types: seq<Type>, t: Table, r: Row, layer: int, row: Row, dataLayer: int)
    requires Suits(types, t) && WellTyped(types, row)
  {
    && |r| == |types|
    && match t
       case GenericTable(_) => dataLayer <= layer && Key(types, r).Success? && Key(types, r) == Key(types, row)
       case OneColumn(_, _) =>
         if row[0].valid then dataLayer <= layer && r[0].valid && Image(r) == Image(row) else !r[0].valid
       case MultipleColumns(order, _) =>
         dataLayer <= layer && Mask(r) == Mask(row) && Pack(types, order, r) == Pack(types, order, row)
  }

  function Hitting(types: seq<Type>, t: Table, layer: int, row: Row, dataLayer: int): Row -> bool
    requires Suits(types, t) && WellTyped(types, row)
  {
    (r: Row) => Hits(types, t, r, layer, row, dataLayer)
  }

  predicate SameForm(t: Table, u: Table)
  {
    match t
    case GenericTable(_) => u.GenericTable?
    case OneColumn(_, _) => u.OneColumn?
    case MultipleColumns(order, _) => u.MultipleColumns? && u.order == order
  }

  ghost predicate Reports(types: seq<Type>, t: Table, row: Row, dataLayer: int)
    requires Suits(types, t) && WellTyped(types, row)
  {
    Lookup(types, t, row, dataLayer) == Success(true)
  }

  lemma {:induction false} AddOnesReports(types: seq<Type>, t: Table, rows: seq<Row>, layer: int, row: Row, l: int)
    requires t.OneColumn? && Suits(types, t) && AllTyped(types, rows) && WellTyped(types, row)
    ensures Reports(types, AddOnes(types, t, rows, layer), row, l) <==>
            Reports(types, t, row, l) || Any(rows, Hitting(types, t, layer, row, l))
  {
    if rows != [] {
      var init, last := rows[..|rows|-1], rows[|rows|-1];
      AddOnesReports(types, t, init, layer, row, l);
      AnyLast(rows, Hitting(types, t, layer, row, l));
      assert WellTyped(types, last);
      UpdateMaxHas(AddOnes(types, t, init, layer).numbers, Image(last), layer, Image(row), l);
    }
  }

  lemma {:induction false} GenericReports(types: seq<Type>, t: Table, rows: seq<Row>, layer: int, row: Row, l: int)
    requires t.GenericTable? && AllTyped(types, rows) && WellTyped(types, row)
    requires AddBatch(types, t, rows, layer).Success? && Key(types, row).Success?
    ensures Reports(types, AddBatch(types, t, rows, layer).value, row, l) <==>
            Reports(types, t, row, l) || Any(rows, Hitting(types, t, layer, row, l))
  {
    var k := Key(types, row).value;
    AddAllHas(types, t.bytes, rows, layer, k, l);
    if l <= layer {
      AnySame(rows, HasKey(types, k), Hitting(types, t, layer, row, l));
    } else {
      AnyNone(rows, Hitting(types, t, layer, row, l));
    }
  }

  lemma {:induction false} PackedReports(types: seq<Type>, t: Table, rows: seq<Row>, layer: int, row: Row, l: int)
    requires t.MultipleColumns? && Suits(types, t) && AllTyped(types, rows) && WellTyped(types, row)
    ensures Reports(types, AddBatch(types, t, rows, layer).value, row, l) <==>
            Reports(types, t, row, l) || Any(rows, Hitting(types, t, layer, row, l))
  {
    var mask, key := Mask(row), Pack(types, t.order, row);
    AddPackedHas(types, t.order, t.packed, rows, layer, mask, key, l);
    if l <= layer {
      AnySame(rows, HasPacked(types, t.order, mask, key), Hitting(types, t, layer, row, l));
    } else {
      AnyNone(rows, Hitting(types, t, layer, row, l));
    }
  }

  /** One batch adds exactly the hits of its rows. */
  lemma {:induction false} AddBatchReports(types: seq<Type>, t: Table, rows: seq<Row>, layer: int, row: Row, l: int)
    requires Suits(types, t) && AllTyped(types, rows) && WellTyped(types, row)
    requires AddBatch(types, t, rows, layer).Success? && Key(types, row).Success?
    ensures SameForm(t, AddBatch(types, t, rows, layer).value) && Suits(types, AddBatch(types, t, rows, layer).value)
    ensures Reports(types, AddBatch(types, t, rows, layer).value, row, l) <==>
            Reports(types, t, row, l) || Any(rows, Hitting(types, t, layer, row, l))
  {
    match t
    case GenericTable(_) => GenericReports(types, t, rows, layer, row, l);
    case OneColumn(_, _) => AddOnesReports(types, t, rows, layer, row, l);
    case MultipleColumns(_, _) => PackedReports(types, t, rows, layer, row, l);
  }

  // ----- Hits are agreements -----

  /** When the form compares `row` by its values alone. */
  predicate Distinguishes(types: seq<Type>, t: Table, row: Row)
    requires WellTyped(types, row)
  {
    if t.GenericTable? then |types| <= 64 && |Encode(types, row)| < 0x1_0000 else NoNulls(row)
  }

  lemma {:induction false} HitIsAgreement(types: seq<Type>, t: Table, r: Row, layer: int, row: Row, l: int)
    requires Suits(types, t) && WellTyped(types, r) && WellTyped(types, row)
    requires Distinguishes(types, t, row) && Key(types, row).Success?
    ensures Hits(types, t, r, layer, row, l) <==> l <= layer && Agree(r, row)
  {
    match t
    case GenericTable(_) =>
      ShortKeyIdentifies(types, row, r);
      if Agree(r, row) { AgreeingKeys(types, r, row); AgreeSymmetric(r, row); }
      if Hits(types, t, r, layer, row, l) { AgreeSymmetric(row, r); }
    case OneColumn(_, _) =>
      if Hits(types, t, r, layer, row, l) { assert HasType(types[0], r[0]) && HasType(types[0], row[0]); }
    case MultipleColumns(order, _) => PackedHit(types, order, r, row);
  }

  lemma {:induction false} AgreeSymmetric(r: Row, s: Row)
    ensures Agree(r, s) ==> Agree(s, r)
  {
  }

  lemma {:induction false} AgreeingKeys(types: seq<Type>, r: Row, s: Row)
    requires |r| == |types| && Agree(r, s)
    ensures Key(types, r) == Key(types, s)
  {
    forall ty ensures Contains(types, r, ty) <==> Contains(types, s, ty) {
      if Contains(types, r, ty) {
        var i :| 0 <= i < |r| && r[i].valid && types[i] == ty;
        assert s[i].valid;
      }
      if Contains(types, s, ty) {
        var i :| 0 <= i < |s| && s[i].valid && types[i] == ty;
        assert r[i].valid;
      }
    }
    AgreeingRows(types, r, s);
  }

  lemma {:induction false} PackedHit(types: seq<Type>, order: seq<int>, r: Row, row: Row)
    requires WellTyped(types, r) && WellTyped(types, row) && AllPackable(types)
    requires IsOrder(order, |types|) && InRange(order, |types|) && NoNulls(row)
    ensures Mask(r) == Mask(row) && Pack(types, order, r) == Pack(types, order, row) <==> Agree(r, row)
  {
    PackedExactly(types, order, r, row);
    if Mask(r) == Mask(row) { MaskInjective(r, row); }
    if Agree(r, row) { MaskOfAgreeing(r, row); }
  }

  // ----- Whole histories -----

  datatype Load = Load(rows: seq<Row>, layer: int)

  predicate LoadsTyped(types: seq<Type>, loads: seq<Load>)
  {
    forall i :: 0 <= i < |loads| ==> AllTyped(types, loads[i].rows)
  }

  /** The table after a history of batches, or the first error. */
  function Filled(types: seq<Type>, t: Table, loads: seq<Load>): (r: Outcome<Table>)
    requires Suits(types, t) && LoadsTyped(types, loads)
    ensures r.Success? ==> Suits(types, r.value) && SameForm(t, r.value)
  {
    if loads == [] then Success(t) else
      match Filled(types, t, loads[..|loads|-1])
      case Failure(why) => Failure(why)
      case Success(u) => AddBatch(types, u, loads[|loads|-1].rows, loads[|loads|-1].layer)
  }

  /** All rows of the batch can be stored in the generic form. */
  ghost function StorableLoad(types: seq<Type>): Load -> bool
  {
    (load: Load) => |types| <= 64 && All(load.rows, StorableRow(types))
  }

  lemma {:induction false} AddBatchExactly(types: seq<Type>, t: Table, load: Load)
    requires Suits(types, t) && AllTyped(types, load.rows)
    ensures AddBatch(types, t, load.rows, load.layer).Success? <==> (t.GenericTable? ==> StorableLoad(types)(load))
  {
    if t.GenericTable? { AddAllExactly(types, t.bytes, load.rows, load.layer); }
  }

  /** A history is taken exactly when the form is a specialised one, or every batch has at most 64
      columns and only storable rows. */
  lemma {:induction false} FilledExactly(types: seq<Type>, t: Table, loads: seq<Load>)
    requires Suits(types, t) && LoadsTyped(types, loads)
    ensures Filled(types, t, loads).Success? <==> (t.GenericTable? ==> All(loads, StorableLoad(types)))
  {
    if loads != [] {
      var init, last := loads[..|loads|-1], loads[|loads|-1];
      assert LoadsTyped(types, init) && AllTyped(types, last.rows);
      FilledExactly(types, t, init);
      AllLast(loads, StorableLoad(types));
      if Filled(types, t, init).Success? { AddBatchExactly(types, Filled(types, t, init).value, last); }
    }
  }

  function Agreeing(row: Row): Row -> bool
  {
    (r: Row) => Agree(r, row)
  }

  ghost function Deleting(row: Row, l: int): Load -> bool
  {
    (load: Load) => l <= load.layer && Any(load.rows, Agreeing(row))
  }

  /** Some added row with the key of `row` lies in layer `l` or above: the naive meaning. */
  ghost predicate Deleted(loads: seq<Load>, row: Row, l: int)
  {
    Any(loads, Deleting(row, l))
  }

  ghost function HittingLoad(types: seq<Type>, t: Table, row: Row, l: int): Load -> bool
    requires Suits(types, t) && WellTyped(types, row)
  {
    (load: Load) => Any(load.rows, Hitting(types, t, load.layer, row, l))
  }

  /** Some added row makes the form report `row`. */
  ghost predicate Hit(types: seq<Type>, t: Table, loads: seq<Load>, row: Row, l: int)
    requires Suits(types, t) && WellTyped(types, row)
  {
    Any(loads, HittingLoad(types, t, row, l))
  }

  lemma {:induction false} SameHits(types: seq<Type>, t: Table, u: Table, rows: seq<Row>, layer: int, row: Row, l: int)
    requires Suits(types, t) && Suits(types, u) && SameForm(t, u) && WellTyped(types, row)
    ensures Any(rows, Hitting(types, t, layer, row, l)) <==> Any(rows, Hitting(types, u, layer, row, l))
  {
    AnySame(rows, Hitting(types, t, layer, row, l), Hitting(types, u, layer, row, l));
  }

  /** After any history, on any row, null or not. */
  lemma {:induction false} FilledHits(types: seq<Type>, t: Table, loads: seq<Load>, row: Row, l: int)
    requires Suits(types, t) && LoadsTyped(types, loads) && WellTyped(types, row) && Key(types, row).Success?
    requires Filled(types, t, loads).Success?
    ensures Reports(types, Filled(types, t, loads).value, row, l) <==>
            Reports(types, t, row, l) || Hit(types, t, loads, row, l)
  {
    if loads != [] {
      var init, last := loads[..|loads|-1], loads[|loads|-1];
      assert LoadsTyped(types, init) && AllTyped(types, last.rows);
      FilledHits(types, t, init, row, l);
      var u := Filled(types, t, init).value;
      AddBatchReports(types, u, last.rows, last.layer, row, l);
      SameHits(types, t, u, last.rows, last.layer, row, l);
      AnyLast(loads, HittingLoad(types, t, row, l));
    }
  }

  lemma {:induction false} BatchHits(types: seq<Type>, t: Table, rows: seq<Row>, layer: int, row: Row, l: int)
    requires Suits(types, t) && AllTyped(types, rows) && WellTyped(types, row)
    requires Distinguishes(types, t, row) && Key(types, row).Success?
    ensures Any(rows, Hitting(types, t, layer, row, l)) <==> l <= layer && Any(rows, Agreeing(row))
  {
    forall i | 0 <= i < |rows|
      ensures Hitting(types, t, layer, row, l)(rows[i]) <==> l <= layer && Agreeing(row)(rows[i])
    {
      assert WellTyped(types, rows[i]);
      HitIsAgreement(types, t, rows[i], layer, row, l);
    }
    if l <= layer {
      AnySame(rows, Hitting(types, t, layer, row, l), Agreeing(row));
    } else {
      AnyNone(rows, Hitting(types, t, layer, row, l));
    }
  }

  lemma {:induction false} HitIsDeleted(types: seq<Type>, t: Table, loads: seq<Load>, row: Row, l: int)
    requires Suits(types, t) && LoadsTyped(types, loads) && WellTyped(types, row) && Key(types, row).Success?
    requires Distinguishes(types, t, row)
    ensures Hit(types, t, loads, row, l) <==> Deleted(loads, row, l)
  {
    forall i | 0 <= i < |loads| ensures HittingLoad(types, t, row, l)(loads[i]) <==> Deleting(row, l)(loads[i]) {
      BatchHits(types, t, loads[i].rows, loads[i].layer, row, l);
    }
    AnySame(loads, HittingLoad(types, t, row, l), Deleting(row, l));
  }

  /** Every form, after any history, answers the naive question. */
  lemma {:induction false} TableExact(types: seq<Type>, specialized: bool, order: seq<int>, loads: seq<Load>, row: Row,
        l: int)
    requires IsOrder(order, |types|) && LoadsTyped(types, loads) && WellTyped(types, row) && Key(types, row).Success?
    requires Suits(types, EmptyTable(types, specialized, order))
    requires Filled(types, EmptyTable(types, specialized, order), loads).Success?
    requires Distinguishes(types, EmptyTable(types, specialized, order), row)
    ensures Lookup(types, Filled(types, EmptyTable(types, specialized, order), loads).value, row, l)
            == Success(Deleted(loads, row, l))
  {
    var t := EmptyTable(types, specialized, order);
    FilledHits(types, t, loads, row, l);
    HitIsDeleted(types, t, loads, row, l);
    assert ByMask(Packed(map[], map[]), Mask(row)) == map[];
  }

  /** The specialised forms refine the generic one on rows without nulls. */
  lemma {:induction false} FormsAgree(types: seq<Type>, order: seq<int>, loads: seq<Load>, row: Row, l: int)
    requires IsOrder(order, |types|) && LoadsTyped(types, loads) && WellTyped(types, row) && Key(types, row).Success?
    requires NoNulls(row) && |types| <= 64 && |Encode(types, row)| < 0x1_0000
    requires Suits(types, EmptyTable(types, true, order))
    requires Filled(types, EmptyTable(types, true, order), loads).Success?
    requires Filled(types, GenericTable(map[]), loads).Success?
    ensures Lookup(types, Filled(types, EmptyTable(types, true, order), loads).value, row, l)
            == Lookup(types, Filled(types, GenericTable(map[]), loads).value, row, l)
  {
    TableExact(types, true, order, loads, row, l);
    TableExact(types, false, order, loads, row, l);
  }

  // ----- Null keys -----

  function NullRow(): Row -> bool
  {
    (r: Row) => |r| == 1 && !r[0].valid
  }

  ghost function NullsFrom(l: int): Load -> bool
  {
    (load: Load) => l <= load.layer && Any(load.rows, NullRow())
  }

  ghost function Nulls(): Load -> bool
  {
    (load: Load) => Any(load.rows, NullRow())
  }

  /** The one-column form forgets the layer of a null key. */
  lemma {:induction false} NullsIgnoreLayers(types: seq<Type>, loads: seq<Load>, row: Row, l: int)
    requires |types| == 1 && Packable(types[0]) && LoadsTyped(types, loads) && WellTyped(types, row) && !row[0].valid
    requires Filled(types, OneColumn(map[], false), loads).Success?
    ensures Lookup(types, Filled(types, OneColumn(map[], false), loads).value, row, l) == Success(Any(loads, Nulls()))
  {
    var t := OneColumn(map[], false);
    FilledHits(types, t, loads, row, l);
    forall i | 0 <= i < |loads| ensures HittingLoad(types, t, row, l)(loads[i]) <==> Nulls()(loads[i]) {
      AnySame(loads[i].rows, Hitting(types, t, loads[i].layer, row, l), NullRow());
    }
    AnySame(loads, HittingLoad(types, t, row, l), Nulls());
  }

  lemma {:induction false} NullDeleted(loads: seq<Load>, row: Row, l: int)
    requires |row| == 1 && !row[0].valid
    ensures Deleted(loads, row, l) <==> Any(loads, NullsFrom(l))
  {
    forall i | 0 <= i < |loads| ensures Deleting(row, l)(loads[i]) <==> NullsFrom(l)(loads[i]) {
      AnySame(loads[i].rows, Agreeing(row), NullRow());
    }
    AnySame(loads, Deleting(row, l), NullsFrom(l));
  }

  /** On a null key the one-column form is right exactly when no null was added at all, or one was
      added in the row's layer or above. */
  lemma {:induction false} NullsExactlyWhen(types: seq<Type>, loads: seq<Load>, row: Row, l: int)
    requires |types| == 1 && Packable(types[0]) && LoadsTyped(types, loads) && WellTyped(types, row) && !row[0].valid
    requires Filled(types, OneColumn(map[], false), loads).Success?
    ensures Lookup(types, Filled(types, OneColumn(map[], false), loads).value, row, l)
            == Success(Deleted(loads, row, l)) <==>
            !Any(loads, Nulls()) || Any(loads, NullsFrom(l))
  {
    NullsIgnoreLayers(types, loads, row, l);
    NullDeleted(loads, row, l);
    if Any(loads, NullsFrom(l)) {
      var i :| 0 <= i < |loads| && NullsFrom(l)(loads[i]);
      assert Nulls()(loads[i]);
    }
  }

  function NullCell(): Cell { Cell(false, Bits(0)) }

  /** A null of layer 0 is reported as deleting a null of layer 1. */
  lemma {:induction false} NullLayerForgotten()
    ensures var loads := [Load([[NullCell()]], 0)];
      && Filled([INT32], OneColumn(map[], false), loads).Success?
      && Lookup([INT32], Filled([INT32], OneColumn(map[], false), loads).value, [NullCell()], 1) == Success(true)
      && !Deleted(loads, [NullCell()], 1)
  {
    var row, loads := [NullCell()], [Load([[NullCell()]], 0)];
    assert loads[..0] == [];
    NullsIgnoreLayers([INT32], loads, row, 1);
    assert NullRow()(loads[0].rows[0]);
    assert Nulls()(loads[0]);
  }

  /** Null slots hold a fixed value. */
  predicate Filler(filler: seq<Value>, row: Row)
  {
    |row| == |filler| && forall i :: 0 <= i < |row| && !row[i].valid ==> row[i].value == filler[i]
  }

  /** The packed form compares null slots too: two rows with the same key are taken to be equal
      exactly when their null slots hold the same values. */
  lemma {:induction false} NullSlotsMatter(types: seq<Type>, order: seq<int>, r: Row, row: Row)
    requires WellTyped(types, r) && WellTyped(types, row) && AllPackable(types)
    requires IsOrder(order, |types|) && InRange(order, |types|)
    ensures Mask(r) == Mask(row) && Pack(types, order, r) == Pack(types, order, row) <==>
            Agree(r, row) && forall i :: 0 <= i < |row| && !row[i].valid ==> r[i].value == row[i].value
  {
    PackedExactly(types, order, r, row);
    if Mask(r) == Mask(row) { MaskInjective(r, row); }
    if Agree(r, row) { MaskOfAgreeing(r, row); }
  }

  /** The row has the key of `row` and the same values behind its nulls. */
  function SlotsAgreeing(row: Row): Row -> bool
  {
    (r: Row) => Agree(r, row) && forall i :: 0 <= i < |row| && !row[i].valid ==> r[i].value == row[i].value
  }

  ghost function DeletingSlots(row: Row, l: int): Load -> bool
  {
    (load: Load) => l <= load.layer && Any(load.rows, SlotsAgreeing(row))
  }

  lemma {:induction false} SlotsBatch(types: seq<Type>, t: Table, rows: seq<Row>, layer: int, row: Row, l: int)
    requires Suits(types, t) && t.MultipleColumns? && AllTyped(types, rows) && WellTyped(types, row)
    ensures Any(rows, Hitting(types, t, layer, row, l)) <==> l <= layer && Any(rows, SlotsAgreeing(row))
  {
    forall j | 0 <= j < |rows|
      ensures Hitting(types, t, layer, row, l)(rows[j]) <==> l <= layer && SlotsAgreeing(row)(rows[j])
    {
      assert WellTyped(types, rows[j]);
      NullSlotsMatter(types, t.order, rows[j], row);
    }
    if l <= layer {
      AnySame(rows, Hitting(types, t, layer, row, l), SlotsAgreeing(row));
    } else {
      AnyNone(rows, Hitting(types, t, layer, row, l));
    }
  }

  /** After any history the packed form reports exactly the rows whose key and null slots were
      added in their layer or above. */
  lemma {:induction false} PackedComparesSlots(types: seq<Type>, order: seq<int>, loads: seq<Load>, row: Row, l: int)
    requires AllPackable(types) && TotalWidth(types) <= 128 && IsOrder(order, |types|) && InRange(order, |types|)
    requires LoadsTyped(types, loads) && WellTyped(types, row)
    ensures Filled(types, MultipleColumns(order, Packed(map[], map[])), loads).Success?
    ensures Lookup(types, Filled(types, MultipleColumns(order, Packed(map[], map[])), loads).value, row, l)
            == Success(Any(loads, DeletingSlots(row, l)))
  {
    var t := MultipleColumns(order, Packed(map[], map[]));
    PackedNeverFails(types, t, loads);
    PackableKeys(types, row);
    FilledHits(types, t, loads, row, l);
    forall i | 0 <= i < |loads| ensures HittingLoad(types, t, row, l)(loads[i]) <==> DeletingSlots(row, l)(loads[i]) {
      SlotsBatch(types, t, loads[i].rows, loads[i].layer, row, l);
    }
    AnySame(loads, HittingLoad(types, t, row, l), DeletingSlots(row, l));
    assert ByMask(t.packed, Mask(row)) == map[];
  }

  lemma {:induction false} SlotsAreKeys(loads: seq<Load>, row: Row, l: int)
    requires Any(loads, DeletingSlots(row, l))
    ensures Deleted(loads, row, l)
  {
    var i :| 0 <= i < |loads| && DeletingSlots(row, l)(loads[i]);
    var j :| 0 <= j < |loads[i].rows| && SlotsAgreeing(row)(loads[i].rows[j]);
    assert Agreeing(row)(loads[i].rows[j]);
    assert Deleting(row, l)(loads[i]);
  }

  /** The packed form is right exactly when the key, if it was added at all in the row's layer or
      above, was added there once with the same values behind its nulls. */
  lemma {:induction false} PackedExactlyWhen(types: seq<Type>, order: seq<int>, loads: seq<Load>, row: Row, l: int)
    requires AllPackable(types) && TotalWidth(types) <= 128 && IsOrder(order, |types|) && InRange(order, |types|)
    requires LoadsTyped(types, loads) && WellTyped(types, row)
    ensures Filled(types, MultipleColumns(order, Packed(map[], map[])), loads).Success?
    ensures (Lookup(types, Filled(types, MultipleColumns(order, Packed(map[], map[])), loads).value, row, l)
             == Success(Deleted(loads, row, l)))
            <==> (Deleted(loads, row, l) ==> Any(loads, DeletingSlots(row, l)))
  {
    PackedComparesSlots(types, order, loads, row, l);
    if Any(loads, DeletingSlots(row, l)) { SlotsAreKeys(loads, row, l); }
  }

  /** With a fixed filler the packed form is exact on rows with nulls as well. */
  lemma {:induction false} PackedWithNulls(types: seq<Type>, order: seq<int>, loads: seq<Load>, row: Row, l: int,
        filler: seq<Value>)
    requires AllPackable(types) && TotalWidth(types) <= 128 && IsOrder(order, |types|) && InRange(order, |types|)
    requires LoadsTyped(types, loads) && WellTyped(types, row) && Filler(filler, row)
    requires forall i, j :: 0 <= i < |loads| && 0 <= j < |loads[i].rows| ==> Filler(filler, loads[i].rows[j])
    ensures Filled(types, MultipleColumns(order, Packed(map[], map[])), loads).Success?
    ensures Lookup(types, Filled(types, MultipleColumns(order, Packed(map[], map[])), loads).value, row, l)
            == Success(Deleted(loads, row, l))
  {
    PackedComparesSlots(types, order, loads, row, l);
    forall i | 0 <= i < |loads| ensures DeletingSlots(row, l)(loads[i]) <==> Deleting(row, l)(loads[i]) {
      AnySame(loads[i].rows, SlotsAgreeing(row), Agreeing(row));
    }
    AnySame(loads, DeletingSlots(row, l), Deleting(row, l));
  }

  function TwoTypes(): seq<Type> { [INT16, INT16] }

  /** Rows with one key, a number and a null, and different values behind the null. */
  function SlotRow(slot: bool): (row: Row)
    ensures WellTyped(TwoTypes(), row)
  {
    [Cell(true, Bits(7)), Cell(false, Bits(if slot then 1 else 0))]
  }

  lemma {:induction false} TwoTypesFit()
    ensures AllPackable(TwoTypes()) && TotalWidth(TwoTypes()) <= 128 && IsOrder(Indices(2), 2)
  {
    assert TwoTypes()[1..] == [INT16] && [INT16][1..] == [];
  }

  function TwoColumns(): (t: Table)
    ensures Suits(TwoTypes(), t)
  {
    TwoTypesFit();
    MultipleColumns(Indices(2), Packed(map[], map[]))
  }

  /** One delete row, in layer 0. */
  function SlotLoads(): (loads: seq<Load>)
    ensures LoadsTyped(TwoTypes(), loads)
  {
    [Load([SlotRow(false)], 0)]
  }

  /** The delete row is added in layer 0, yet the data row of layer 0 with its key is not reported. */
  lemma {:induction false} NullSlotMissed()
    ensures Filled(TwoTypes(), TwoColumns(), SlotLoads()).Success?
    ensures Lookup(TwoTypes(), Filled(TwoTypes(), TwoColumns(), SlotLoads()).value, SlotRow(true), 0) == Success(false)
    ensures Deleted(SlotLoads(), SlotRow(true), 0)
  {
    var loads, row := SlotLoads(), SlotRow(true);
    TwoTypesFit();
    PackedComparesSlots(TwoTypes(), Indices(2), loads, row, 0);
    assert Agreeing(row)(loads[0].rows[0]);
    assert Deleting(row, 0)(loads[0]);
    assert !SlotsAgreeing(row)(loads[0].rows[0]);
    AnyNone(loads[0].rows, SlotsAgreeing(row));
    AnyNone(loads, DeletingSlots(row, 0));
  }

  lemma {:induction false} PackableKeys(types: seq<Type>, row: Row)
    requires AllPackable(types) && |row| == |types|
    ensures Key(types, row).Success?
  {
  }

  lemma {:induction false} PackedNeverFails(types: seq<Type>, t: Table, loads: seq<Load>)
    requires Suits(types, t) && t.MultipleColumns? && LoadsTyped(types, loads)
    ensures Filled(types, t, loads).Success?
  {
    if loads != [] {
      assert LoadsTyped(types, loads[..|loads|-1]);
      PackedNeverFails(types, t, loads[..|loads|-1]);
    }
  }
}
