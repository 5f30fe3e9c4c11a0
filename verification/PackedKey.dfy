/** The bit-packed key of `SpecializedDeleteMultipleColumn`: the values of all columns side by
    side in one unsigned integer, and an 8-bit mask of the null columns. */
module PackedKey {
  import opened Order
  import opened Cells
  import opened MaxLayers

  predicate Packable(ty: Type) { ty == INT16 || ty == INT32 || ty == INT64 || ty == TIMESTAMP }

  /** `TypeToBitWidth`; other types are refused before packing. */
  function BitWidth(ty: Type): nat
  {
    match ty
    case INT16 => 16
    case INT32 => 32
    case INT64 | TIMESTAMP => 64
    case _ => 0
  }

  predicate AllPackable(types: seq<Type>)
  {
    forall i :: 0 <= i < |types| ==> Packable(types[i])
  }

  function TotalWidth(types: seq<Type>): nat
  {
    if types == [] then 0 else BitWidth(types[0]) + TotalWidth(types[1..])
  }

  /** A set of columns fits into 128 bits only if there are at most eight. */
  lemma {:induction false} EightColumns(types: seq<Type>)
    requires AllPackable(types)
    ensures 16 * |types| <= TotalWidth(types)
  {
    if types != [] { EightColumns(types[1..]); }
  }

  /** `order_` is a permutation of the columns. */
  ghost predicate IsOrder(order: seq<int>, n: nat)
  {
    multiset(order) == multiset(Indices(n))
  }

  predicate InRange(order: seq<int>, n: nat)
  {
    forall k :: 0 <= k < |order| ==> 0 <= order[k] < n
  }

  lemma {:induction false} OrderCovers(order: seq<int>, n: nat, i: int)
    requires IsOrder(order, n)
    ensures i in order <==> 0 <= i < n
  {
    assert i in order <==> i in multiset(order);
    assert i in Indices(n) <==> i in multiset(Indices(n));
    if 0 <= i < n { assert Indices(n)[i] == i; }
  }

  lemma {:induction false} OrderInRange(order: seq<int>, n: nat)
    requires IsOrder(order, n)
    ensures InRange(order, n)
  {
    forall k | 0 <= k < |order| ensures 0 <= order[k] < n { OrderCovers(order, n, order[k]); }
  }

  // ----- Sums do not depend on the order -----

  function Sum(s: seq<int>, f: int -> nat): nat
  {
    if s == [] then 0 else f(s[0]) + Sum(s[1..], f)
  }

  lemma {:induction false} SumConcat(s: seq<int>, t: seq<int>, f: int -> nat)
    ensures Sum(s + t, f) == Sum(s, f) + Sum(t, f)
  {
    if s == [] {
      assert s + t == t;
    } else {
      assert (s + t)[1..] == s[1..] + t;
      SumConcat(s[1..], t, f);
    }
  }

  lemma {:induction false} SumRemove(t: seq<int>, k: nat, f: int -> nat)
    requires k < |t|
    ensures multiset(t) == multiset(t[..k] + t[k+1..]) + multiset{t[k]}
    ensures Sum(t, f) == f(t[k]) + Sum(t[..k] + t[k+1..], f)
  {
    assert t == t[..k] + ([t[k]] + t[k+1..]);
    assert ([t[k]] + t[k+1..])[1..] == t[k+1..];
    SumConcat(t[..k], [t[k]] + t[k+1..], f);
    SumConcat(t[..k], t[k+1..], f);
  }

  lemma {:induction false} SumPermutation(s: seq<int>, t: seq<int>, f: int -> nat)
    requires multiset(s) == multiset(t)
    ensures Sum(s, f) == Sum(t, f)
  {
    if s == [] {
      assert |multiset(t)| == 0;
    } else {
      assert s[0] in multiset(t);
      var k :| 0 <= k < |t| && t[k] == s[0];
      SumRemove(t, k, f);
      SplitFirst(s);
      assert multiset(s) == multiset(s[1..]) + multiset{s[0]};
      Cancel(multiset(s[1..]), multiset(t[..k] + t[k+1..]), s[0]);
      SumPermutation(s[1..], t[..k] + t[k+1..], f);
    }
  }

  function WidthAt(types: seq<Type>): int -> nat
  {
    (i: int) => if 0 <= i < |types| then BitWidth(types[i]) else 0
  }

  function NullBit(row: Row): int -> nat
  {
    (i: int) => if 0 <= i < |row| && !row[i].valid then Pow2(i) else 0
  }

  lemma {:induction false} SumOfWidths(types: seq<Type>, i: nat)
    requires i <= |types|
    ensures Sum(Indices(|types|)[i..], WidthAt(types)) == TotalWidth(types[i..])
    decreases |types| - i
  {
    if i < |types| {
      SumOfWidths(types, i + 1);
      assert Indices(|types|)[i..][1..] == Indices(|types|)[i+1..];
      assert types[i..][1..] == types[i+1..];
    }
  }

  lemma {:induction false} OrderWidth(types: seq<Type>, order: seq<int>)
    requires IsOrder(order, |types|)
    ensures Sum(order, WidthAt(types)) == TotalWidth(types)
  {
    SumPermutation(order, Indices(|types|), WidthAt(types));
    SumOfWidths(types, 0);
    assert Indices(|types|)[0..] == Indices(|types|) && types[0..] == types;
  }

  lemma {:induction false} SumOfBits(row: Row, i: nat)
    requires i <= |row|
    ensures Sum(Indices(|row|)[i..], NullBit(row)) == Pow2(i) * Mask(row[i..])
    decreases |row| - i
  {
    if i < |row| {
      SumOfBits(row, i + 1);
      assert Indices(|row|)[i..][1..] == Indices(|row|)[i+1..];
      assert row[i..][1..] == row[i+1..];
      Distribute(Pow2(i), if row[i].valid then 0 else 1, 2, Mask(row[i+1..]));
    }
  }

  lemma {:induction false} Distribute(p: nat, a: nat, w: nat, x: nat)
    ensures p * (a + w * x) == p * a + (p * w) * x
  {
    assert p * (w * x) == (p * w) * x;
  }

  /** The null mask is the same in whatever order the columns are visited. */
  lemma {:induction false} OrderMask(row: Row, order: seq<int>)
    requires IsOrder(order, |row|)
    ensures Sum(order, NullBit(row)) == Mask(row)
  {
    SumPermutation(order, Indices(|row|), NullBit(row));
    SumOfBits(row, 0);
    assert Indices(|row|)[0..] == Indices(|row|) && row[0..] == row;
  }

  // ----- Packing -----

  /** The values of the given columns, the first in the lowest bits. */
  function Pack(types: seq<Type>, order: seq<int>, row: Row): nat
    requires |row| == |types| && InRange(order, |types|)
  {
    if order == [] then 0 else
      (if row[order[0]].value.Bits? then row[order[0]].value.image else 0)
      + Pow2(BitWidth(types[order[0]])) * Pack(types, order[1..], row)
  }

  /** The columns that are not null, in the same order. */
  function ValidOnly(order: seq<int>, row: Row): (r: seq<int>)
    requires InRange(order, |row|)
    ensures InRange(r, |row|)
  {
    if order == [] then [] else
      var init, i := ValidOnly(order[..|order|-1], row), order[|order|-1];
      if row[i].valid then init + [i] else init
  }

  /** Both row constructors agree on rows without nulls. */
  lemma {:induction false} ConstructorsAgree(order: seq<int>, row: Row)
    requires InRange(order, |row|) && NoNulls(row)
    ensures ValidOnly(order, row) == order
  {
    if order != [] {
      ConstructorsAgree(order[..|order|-1], row);
      assert order == order[..|order|-1] + [order[|order|-1]];
    }
  }

  lemma {:induction false} WidthOfImages(ty: Type)
    requires Packable(ty)
    ensures Images(ty) == Pow2(BitWidth(ty))
  {
    Pow2Values();
  }

  lemma {:induction false} DigitFits(types: seq<Type>, row: Row, i: nat)
    requires WellTyped(types, row) && i < |row| && Packable(types[i])
    ensures row[i].value.Bits? && row[i].value.image < Pow2(BitWidth(types[i]))
  {
    WidthOfImages(types[i]);
  }

  lemma {:induction false} PackBound(types: seq<Type>, order: seq<int>, row: Row)
    requires WellTyped(types, row) && AllPackable(types) && InRange(order, |types|)
    ensures Pack(types, order, row) < Pow2(Sum(order, WidthAt(types)))
  {
    if order != [] {
      PackBound(types, order[1..], row);
      DigitFits(types, row, order[0]);
      var w := BitWidth(types[order[0]]);
      Pow2Add(w, Sum(order[1..], WidthAt(types)));
      LowerDigits(row[order[0]].value.image, Pack(types, order[1..], row), Pow2(Sum(order[1..], WidthAt(types))),
                  Pow2(w));
    }
  }

  lemma {:induction false} PackInjective(types: seq<Type>, order: seq<int>, r: Row, s: Row, i: int)
    requires WellTyped(types, r) && WellTyped(types, s) && AllPackable(types) && InRange(order, |types|)
    requires Pack(types, order, r) == Pack(types, order, s) && i in order
    ensures r[i].value == s[i].value
  {
    var k := order[0];
    DigitFits(types, r, k);
    DigitFits(types, s, k);
    DigitUnique(r[k].value.image, Pack(types, order[1..], r), s[k].value.image, Pack(types, order[1..], s),
                Pow2(BitWidth(types[k])));
    if i != k { PackInjective(types, order[1..], r, s, i); }
  }

  lemma {:induction false} PackSame(types: seq<Type>, order: seq<int>, r: Row, s: Row)
    requires |r| == |s| == |types| && InRange(order, |types|)
    requires forall i :: 0 <= i < |r| ==> r[i].value == s[i].value
    ensures Pack(types, order, r) == Pack(types, order, s)
  {
    if order != [] { PackSame(types, order[1..], r, s); }
  }

  /** Under any column order, two rows have the same packed key exactly when all their slots,
      null or not, hold the same values. */
  lemma {:induction false} PackedExactly(types: seq<Type>, order: seq<int>, r: Row, s: Row)
    requires WellTyped(types, r) && WellTyped(types, s) && AllPackable(types)
    requires IsOrder(order, |types|) && InRange(order, |types|)
    ensures Pack(types, order, r) == Pack(types, order, s) <==> forall i :: 0 <= i < |r| ==> r[i].value == s[i].value
  {
    if Pack(types, order, r) == Pack(types, order, s) {
      forall i | 0 <= i < |r| ensures r[i].value == s[i].value {
        OrderCovers(order, |types|, i);
        PackInjective(types, order, r, s, i);
      }
    } else if forall i :: 0 <= i < |r| ==> r[i].value == s[i].value {
      PackSame(types, order, r, s);
    }
  }

  /** The bits of the unsigned integer chosen by the factory. */
  function Container(types: seq<Type>): nat
  {
    if TotalWidth(types) <= 32 then 32 else if TotalWidth(types) <= 64 then 64 else 128
  }

  lemma {:induction false} SumSnoc(order: seq<int>, i: int, f: int -> nat)
    ensures Sum(order + [i], f) == Sum(order, f) + f(i)
  {
    SumConcat(order, [i], f);
    assert [i][1..] == [];
  }

  lemma {:induction false} PackSnoc(types: seq<Type>, order: seq<int>, i: int, row: Row)
    requires WellTyped(types, row) && AllPackable(types) && InRange(order, |types|) && 0 <= i < |row|
    ensures InRange(order + [i], |types|) && row[i].value.Bits?
    ensures Pack(types, order + [i], row)
            == Pack(types, order, row) + row[i].value.image * Pow2(Sum(order, WidthAt(types)))
  {
    DigitFits(types, row, i);
    if order == [] {
      assert [] + [i] == [i] && [i][1..] == [];
    } else {
      PackSnoc(types, order[1..], i, row);
      PackCons(types, order, i, row);
      var w, rest := BitWidth(types[order[0]]), Sum(order[1..], WidthAt(types));
      Pow2Add(w, rest);
      AddDigit(row[order[0]].value.image, Pow2(w), Pack(types, order[1..], row), Pack(types, order[1..] + [i], row),
               row[i].value.image, Pow2(rest));
    }
  }

  lemma {:induction false} PackCons(types: seq<Type>, order: seq<int>, i: int, row: Row)
    requires WellTyped(types, row) && AllPackable(types) && InRange(order, |types|) && order != [] && 0 <= i < |row|
    ensures InRange(order + [i], |types|) && row[order[0]].value.Bits?
    ensures Pack(types, order + [i], row)
            == row[order[0]].value.image + Pow2(BitWidth(types[order[0]])) * Pack(types, order[1..] + [i], row)
    ensures Pack(types, order, row)
            == row[order[0]].value.image + Pow2(BitWidth(types[order[0]])) * Pack(types, order[1..], row)
  {
    DigitFits(types, row, order[0]);
    assert (order + [i])[1..] == order[1..] + [i];
  }

  lemma {:induction false} AddDigit(d: nat, p: nat, x: nat, y: nat, a: nat, q: nat)
    requires y == x + a * q
    ensures d + p * y == (d + p * x) + a * (p * q)
  {
    assert p * y == p * x + p * (a * q);
    assert p * (a * q) == a * (p * q);
  }

  /** One more column fits as long as all widths together do. */
  lemma {:induction false} PackNext(types: seq<Type>, order: seq<int>, i: int, row: Row, bits: nat)
    requires WellTyped(types, row) && AllPackable(types) && InRange(order, |types|) && 0 <= i < |row|
    requires Sum(order, WidthAt(types)) + BitWidth(types[i]) <= bits
    ensures InRange(order + [i], |types|) && row[i].value.Bits?
    ensures Sum(order + [i], WidthAt(types)) == Sum(order, WidthAt(types)) + BitWidth(types[i])
    ensures Pack(types, order + [i], row)
            == Pack(types, order, row) + row[i].value.image * Pow2(Sum(order, WidthAt(types)))
    ensures Pack(types, order + [i], row) < Pow2(bits)
  {
    PackSnoc(types, order, i, row);
    SumSnoc(order, i, WidthAt(types));
    PackBound(types, order + [i], row);
    Pow2Monotone(Sum(order + [i], WidthAt(types)), bits);
  }

  lemma {:induction false} SumPrefix(order: seq<int>, k: nat, f: int -> nat)
    requires k < |order|
    ensures order[..k+1] == order[..k] + [order[k]]
    ensures Sum(order[..k], f) + f(order[k]) <= Sum(order, f)
  {
    assert order[..k+1] == order[..k] + [order[k]];
    assert order == order[..k+1] + order[k+1..];
    SumConcat(order[..k+1], order[k+1..], f);
    SumSnoc(order[..k], order[k], f);
  }

  /** Addition and shift in an unsigned integer of the given width lose nothing here. */
  function AddShifted(result: nat, image: nat, shift: nat, bits: nat): (r: nat)
    requires result + image * Pow2(shift) < Pow2(bits)
    ensures r == result + image * Pow2(shift)
  {
    SmallModulo(image * Pow2(shift), Pow2(bits));
    SmallModulo(result + image * Pow2(shift), Pow2(bits));
    (result + (image * Pow2(shift)) % Pow2(bits)) % Pow2(bits)
  }

  method ConstructRowIgnoreNulls(types: seq<Type>, order: seq<int>, row: Row, bits: nat) returns (result: nat)
    requires WellTyped(types, row) && AllPackable(types) && InRange(order, |types|)
    requires Sum(order, WidthAt(types)) <= bits
    ensures result == Pack(types, order, row)
  {
    result := 0;
    var shift := 0;
    for k := 0 to |order|
      invariant shift == Sum(order[..k], WidthAt(types))
      invariant result == Pack(types, order[..k], row)
    {
      SumPrefix(order, k, WidthAt(types));
      PackNext(types, order[..k], order[k], row, bits);
      result := AddShifted(result, row[order[k]].value.image, shift, bits);
      shift := shift + BitWidth(types[order[k]]);
    }
    assert order[..|order|] == order;
  }

  lemma {:induction false} ValidNext(order: seq<int>, k: nat, row: Row)
    requires InRange(order, |row|) && k < |order|
    ensures ValidOnly(order[..k+1], row)
            == if row[order[k]].valid then ValidOnly(order[..k], row) + [order[k]] else ValidOnly(order[..k], row)
  {
    assert order[..k+1][..k] == order[..k];
  }

  lemma {:induction false} ValidWidth(order: seq<int>, row: Row, f: int -> nat)
    requires InRange(order, |row|)
    ensures Sum(ValidOnly(order, row), f) <= Sum(order, f)
  {
    if order != [] {
      var init, i := order[..|order|-1], order[|order|-1];
      ValidWidth(init, row, f);
      SumSnoc(init, i, f);
      assert order == init + [i];
      SumSnoc(ValidOnly(init, row), i, f);
    }
  }

  /** Skips null columns without leaving room for them. */
  method ConstructRow(types: seq<Type>, order: seq<int>, row: Row, bits: nat) returns (result: nat)
    requires WellTyped(types, row) && AllPackable(types) && InRange(order, |types|)
    requires Sum(order, WidthAt(types)) <= bits
    ensures result == Pack(types, ValidOnly(order, row), row)
  {
    result := 0;
    var shift := 0;
    for k := 0 to |order|
      invariant shift == Sum(ValidOnly(order[..k], row), WidthAt(types))
      invariant result == Pack(types, ValidOnly(order[..k], row), row)
    {
      SumPrefix(order, k, WidthAt(types));
      ValidNext(order, k, row);
      ValidWidth(order[..k], row, WidthAt(types));
      if !row[order[k]].valid {
        continue;
      }
      PackNext(types, ValidOnly(order[..k], row), order[k], row, bits);
      result := AddShifted(result, row[order[k]].value.image, shift, bits);
      shift := shift + BitWidth(types[order[k]]);
    }
    assert order[..|order|] == order;
  }

  lemma {:induction false} SumUpTo(order: seq<int>, k: nat, f: int -> nat)
    requires k < |order|
    ensures Sum(order[..k+1], f) == Sum(order[..k], f) + f(order[k])
  {
    SumPrefix(order, k, f);
    SumSnoc(order[..k], order[k], f);
  }

  lemma {:induction false} PartialMask(row: Row, order: seq<int>, k: nat)
    requires IsOrder(order, |row|) && |row| <= 8 && k <= |order|
    ensures Sum(order[..k], NullBit(row)) < 256
  {
    OrderMask(row, order);
    MaskBound(row);
    Pow2Monotone(|row|, 8);
    Pow2Values();
    SumConcat(order[..k], order[k..], NullBit(row));
    assert order == order[..k] + order[k..];
  }

  /** The 8-bit mask; each bit is set at most once, so setting it is an addition. */
  method NullsMask(row: Row, order: seq<int>) returns (mask: nat)
    requires IsOrder(order, |row|) && InRange(order, |row|) && |row| <= 8
    ensures mask == Mask(row)
  {
    mask := 0;
    for k := 0 to |order|
      invariant mask == Sum(order[..k], NullBit(row))
    {
      SumUpTo(order, k, NullBit(row));
      PartialMask(row, order, k + 1);
      if !row[order[k]].valid {
        mask := (mask + Pow2(order[k])) % 256;
      }
    }
    assert order[..|order|] == order;
    OrderMask(row, order);
  }

  // ----- The lookup -----

  /** Keys without nulls, and keys with nulls by their mask. */
  datatype Packed = Packed(values: map<nat, int>, withNulls: map<nat, map<nat, int>>)

  function ByMask(p: Packed, mask: nat): map<nat, int>
  {
    if mask == 0 then p.values else if mask in p.withNulls then p.withNulls[mask] else map[]
  }

  function AddKey(p: Packed, mask: nat, key: nat, layer: int): Packed
  {
    if mask == 0 then p.(values := UpdateMax(p.values, key, layer))
    else p.(withNulls := p.withNulls[mask := UpdateMax(ByMask(p, mask), key, layer)])
  }

  function AddPacked(types: seq<Type>, order: seq<int>, p: Packed, rows: seq<Row>, layer: int): Packed
    requires AllTyped(types, rows) && InRange(order, |types|)
  {
    if rows == [] then p else
      var row := rows[|rows|-1];
      assert WellTyped(types, row);
      AddKey(AddPacked(types, order, p, rows[..|rows|-1], layer), Mask(row), Pack(types, order, row), layer)
  }

  lemma {:induction false} AddKeyHas(p: Packed, mask: nat, key: nat, layer: int, m: nat, k: nat, l: int)
    ensures Has(ByMask(AddKey(p, mask, key, layer), m), k, l) <==>
            Has(ByMask(p, m), k, l) || (m == mask && k == key && l <= layer)
  {
    UpdateMaxHas(ByMask(p, mask), key, layer, k, l);
  }

  function HasPacked(types: seq<Type>, order: seq<int>, mask: nat, key: nat): Row -> bool
    requires InRange(order, |types|)
  {
    (r: Row) => |r| == |types| && Mask(r) == mask && Pack(types, order, r) == key
  }

  /** A key is found at a layer exactly when it was there before or one of the rows has it. */
  lemma {:induction false} AddPackedHas(types: seq<Type>, order: seq<int>, p: Packed, rows: seq<Row>, layer: int,
        mask: nat, key: nat, l: int)
    requires AllTyped(types, rows) && InRange(order, |types|)
    ensures Has(ByMask(AddPacked(types, order, p, rows, layer), mask), key, l) <==>
            Has(ByMask(p, mask), key, l) || (l <= layer && Any(rows, HasPacked(types, order, mask, key)))
  {
    if rows != [] {
      var init, row := rows[..|rows|-1], rows[|rows|-1];
      assert WellTyped(types, row);
      AddPackedHas(types, order, p, init, layer, mask, key, l);
      AddKeyHas(AddPacked(types, order, p, init, layer), Mask(row), Pack(types, order, row), layer, mask, key, l);
      AnyLast(rows, HasPacked(types, order, mask, key));
    }
  }

  lemma {:induction false} AddPackedLast(types: seq<Type>, order: seq<int>, p: Packed, rows: seq<Row>, i: nat,
        layer: int)
    requires AllTyped(types, rows) && InRange(order, |types|) && i < |rows|
    ensures WellTyped(types, rows[i])
    ensures AddPacked(types, order, p, rows[..i+1], layer)
            == AddKey(AddPacked(types, order, p, rows[..i], layer), Mask(rows[i]), Pack(types, order, rows[i]), layer)
  {
    assert rows[..i+1][..i] == rows[..i];
  }

  predicate HasNulls(rows: seq<Row>)
  {
    exists i :: 0 <= i < |rows| && !NoNulls(rows[i])
  }

  class SpecializedDeleteMultipleColumn {
    const types: seq<Type>
    const order: seq<int>
    var table: Packed

    /** What the factory guarantees. */
    ghost predicate Valid()
    {
      AllPackable(types) && TotalWidth(types) <= 128 && IsOrder(order, |types|) && InRange(order, |types|)
    }

    constructor (types: seq<Type>, order: seq<int>)
      requires AllPackable(types) && TotalWidth(types) <= 128 && IsOrder(order, |types|)
      ensures Valid() && this.types == types && this.order == order && table == Packed(map[], map[])
    {
      this.types := types;
      this.order := order;
      table := Packed(map[], map[]);
      OrderInRange(order, |types|);
    }

    method Add(columns: seq<Type>, rows: seq<Row>, layer: int) returns (r: Outcome<()>)
      requires Valid() && AllTyped(columns, rows)
      modifies this
      ensures columns != types ==> r == Failure(ExecutionError)
      ensures columns == types && HasNulls(rows) && |types| >= 9 ==> r == Failure(NotImplemented)
      ensures columns == types && !(HasNulls(rows) && |types| >= 9) ==> r.Success?
      ensures table == if r.Success? then AddPacked(types, order, old(table), rows, layer) else old(table)
    {
      if columns != types {
        return Failure(ExecutionError);
      }
      var withNulls := HasNulls(rows);
      if withNulls && |types| >= 9 {
        return Failure(NotImplemented);
      }
      for i := 0 to |rows|
        invariant table == AddPacked(types, order, old(table), rows[..i], layer)
      {
        var mask, key := ReadKey(rows[i], withNulls);
        AddPackedLast(types, order, old(table), rows, i, layer);
        InsertKey(mask, key, layer);
      }
      assert rows[..|rows|] == rows;
      r := Success(());
    }

    method InsertKey(mask: nat, key: nat, layer: int)
      modifies this
      ensures table == AddKey(old(table), mask, key, layer)
    {
      if mask == 0 {
        table := table.(values := UpdateMax(table.values, key, layer));
      } else {
        if mask !in table.withNulls {
          table := table.(withNulls := table.withNulls[mask := map[]]);
        }
        table := table.(withNulls := table.withNulls[mask := UpdateMax(table.withNulls[mask], key, layer)]);
      }
    }

    /** The key of a row; the mask is only looked at in batches with nulls. */
    method ReadKey(row: Row, withNulls: bool) returns (mask: nat, key: nat)
      requires Valid() && WellTyped(types, row)
      requires if withNulls then |types| <= 8 else NoNulls(row)
      ensures mask == Mask(row) && key == Pack(types, order, row)
    {
      OrderWidth(types, order);
      if withNulls {
        mask := NullsMask(row, order);
        key := ConstructRowIgnoreNulls(types, order, row, Container(types));
      } else {
        MaskZero(row);
        mask := 0;
        key := ConstructRow(types, order, row, Container(types));
        ConstructorsAgree(order, row);
      }
    }

    method IsDeleted(row: Row, dataLayer: int) returns (r: bool)
      requires Valid() && WellTyped(types, row)
      ensures r == Has(ByMask(table, Mask(row)), Pack(types, order, row), dataLayer)
    {
      EightColumns(types);
      MaskZero(row);
      var mask, key := ReadKey(row, !NoNulls(row));
      if NoNulls(row) {
        r := key in table.values && table.values[key] >= dataLayer;
      } else if mask !in table.withNulls {
        r := false;
      } else {
        r := key in table.withNulls[mask] && table.withNulls[mask][key] >= dataLayer;
      }
    }
  }
}
