/** The byte key of `GenericDeleteKey`: a 64-bit null mask followed by the non-null values, and
    the lookup `GenericEqualityDelete` built on it. */
module GenericKey {
  import opened Order
  import opened Cells
  import opened MaxLayers

  /** A fixed-width value is its memory image; a string is preceded by its 32-bit length. */
  function CellBytes(ty: Type, c: Cell): seq<byte>
  {
    if !c.valid then []
    else if c.value.Text? then LittleEndian(|c.value.bytes|, 4) + c.value.bytes
    else LittleEndian(c.value.image, ByteWidth(ty))
  }

  function Body(types: seq<Type>, row: Row): seq<byte>
    requires |types| == |row|
  {
    if row == [] then [] else CellBytes(types[0], row[0]) + Body(types[1..], row[1..])
  }

  function Encode(types: seq<Type>, row: Row): seq<byte>
    requires |types| == |row|
  {
    LittleEndian(Mask(row), 8) + Body(types, row)
  }

  /** `SizedPtr` keeps the size in the upper 16 bits of the pointer, and both `operator==` and
      the hash look only at as many bytes as that size says. */
  function Visible(bytes: seq<byte>): seq<byte>
  {
    bytes[..|bytes| % 0x1_0000]
  }

  function Hidden(bytes: seq<byte>): seq<byte>
  {
    bytes[|bytes| % 0x1_0000..]
  }

  lemma {:induction false} VisibleSplits(bytes: seq<byte>)
    ensures Visible(bytes) + Hidden(bytes) == bytes + []
  {
  }

  lemma {:induction false} ShortIsVisible(bytes: seq<byte>)
    requires |bytes| < 0x1_0000
    ensures Visible(bytes) == bytes
  {
  }

  lemma {:induction false} Remainder(n: nat)
    requires n >= 0x1_0000
    ensures n % 0x1_0000 <= n - 0x1_0000
  {
  }

  predicate Contains(types: seq<Type>, row: Row, ty: Type)
    requires |types| == |row|
  {
    exists i :: 0 <= i < |row| && row[i].valid && types[i] == ty
  }

  /** What a key compares by, or the exception its constructor throws.  Null values are neither
      measured nor written. */
  function Key(types: seq<Type>, row: Row): Outcome<seq<byte>>
    requires |types| == |row|
  {
    if Contains(types, row, LIST) then Failure(NotImplemented)
    else if Contains(types, row, TIME32) then Failure(ExecutionError)
    else Success(Visible(Encode(types, row)))
  }

  /** The types whose values can be measured and written. */
  predicate Supported(ty: Type)
  {
    || ty == INT8 || ty == INT16 || ty == INT32 || ty == INT64 || ty == FLOAT || ty == DOUBLE
    || ty == DATE32 || ty == TIME64 || ty == TIMESTAMP || ty == STRING || ty == BINARY
  }

  /** Every value that is not null has a supported type. */
  predicate Storable(types: seq<Type>, row: Row)
    requires |types| == |row|
  {
    forall i :: 0 <= i < |row| && row[i].valid ==> Supported(types[i])
  }

  function StorableRow(types: seq<Type>): Row -> bool
  {
    (row: Row) => |row| == |types| && Storable(types, row)
  }

  /** A row has a key exactly when its values are storable; otherwise a value that cannot be measured
      is reported before one that cannot be written. */
  lemma {:induction false} KeyExactly(types: seq<Type>, row: Row)
    requires |types| == |row|
    ensures Key(types, row).Success? <==> Storable(types, row)
    ensures Key(types, row) == Failure(NotImplemented) <==>
            exists i :: 0 <= i < |row| && row[i].valid && types[i] == LIST
  {
    if Storable(types, row) {
      assert !Contains(types, row, LIST) && !Contains(types, row, TIME32);
    } else {
      var i :| 0 <= i < |row| && row[i].valid && !Supported(types[i]);
      assert types[i] == LIST || types[i] == TIME32;
    }
  }

  // ----- The encoding is a prefix code -----

  lemma {:induction false} Halves<T>(a: seq<T>, b: seq<T>, c: seq<T>, d: seq<T>)
    requires |a| == |c| && a + b == c + d
    ensures a == c && b == d
  {
    assert a == (a + b)[..|a|] && c == (c + d)[..|c|];
    assert b == (a + b)[|a|..] && d == (c + d)[|c|..];
  }

  lemma {:induction false} ImageInjective(ty: Type, n: nat, m: nat)
    requires n < Images(ty) && m < Images(ty) && LittleEndian(n, ByteWidth(ty)) == LittleEndian(m, ByteWidth(ty))
    ensures n == m
  {
    ImagesArePowers(ty);
    LittleEndianInjective(n, m, ByteWidth(ty));
  }

  lemma {:induction false} ImagesArePowers(ty: Type)
    requires !IsText(ty)
    ensures Images(ty) == Pow2(8 * ByteWidth(ty))
  {
    Pow2Values();
  }

  lemma {:induction false} CellPrefixFree(ty: Type, c: Cell, d: Cell, rest: seq<byte>, rest': seq<byte>)
    requires HasType(ty, c) && HasType(ty, d) && c.valid == d.valid
    requires CellBytes(ty, c) + rest == CellBytes(ty, d) + rest'
    ensures AgreeCell(c, d) && rest == rest'
  {
    if !c.valid {
      assert [] + rest == rest && [] + rest' == rest';
    } else if c.value.Text? {
      var n, m := |c.value.bytes|, |d.value.bytes|;
      SeqAssociative(LittleEndian(n, 4), c.value.bytes, rest);
      SeqAssociative(LittleEndian(m, 4), d.value.bytes, rest');
      Halves(LittleEndian(n, 4), c.value.bytes + rest, LittleEndian(m, 4), d.value.bytes + rest');
      ImageInjective(INT32, n, m);
      Halves(c.value.bytes, rest, d.value.bytes, rest');
    } else {
      Halves(LittleEndian(c.value.image, ByteWidth(ty)), rest, LittleEndian(d.value.image, ByteWidth(ty)), rest');
      ImageInjective(ty, c.value.image, d.value.image);
    }
  }

  lemma {:induction false} BodyPrefixFree(types: seq<Type>, r: Row, s: Row, rest: seq<byte>, rest': seq<byte>)
    requires WellTyped(types, r) && WellTyped(types, s)
    requires forall i :: 0 <= i < |r| ==> r[i].valid == s[i].valid
    requires Body(types, r) + rest == Body(types, s) + rest'
    ensures Agree(r, s) && rest == rest'
  {
    if r == [] {
      assert [] + rest == rest && [] + rest' == rest';
    } else {
      var b, b' := Body(types[1..], r[1..]), Body(types[1..], s[1..]);
      SeqAssociative(CellBytes(types[0], r[0]), b, rest);
      SeqAssociative(CellBytes(types[0], s[0]), b', rest');
      CellPrefixFree(types[0], r[0], s[0], b + rest, b' + rest');
      BodyPrefixFree(types[1..], r[1..], s[1..], rest, rest');
      AgreeCons(r, s);
    }
  }

  /** No key is a proper prefix of another key of the same columns, and equal keys come from
      equal rows. */
  lemma {:induction false} EncodePrefixFree(types: seq<Type>, r: Row, s: Row, rest: seq<byte>, rest': seq<byte>)
    requires WellTyped(types, r) && WellTyped(types, s) && |types| <= 64
    requires Encode(types, r) + rest == Encode(types, s) + rest'
    ensures Agree(r, s) && rest == rest'
  {
    var m, m' := LittleEndian(Mask(r), 8), LittleEndian(Mask(s), 8);
    SeqAssociative(m, Body(types, r), rest);
    SeqAssociative(m', Body(types, s), rest');
    Halves(m, Body(types, r) + rest, m', Body(types, s) + rest');
    MaskBound(r);
    MaskBound(s);
    Pow2Monotone(|r|, 64);
    LittleEndianInjective(Mask(r), Mask(s), 8);
    MaskInjective(r, s);
    BodyPrefixFree(types, r, s, rest, rest');
  }

  lemma {:induction false} AgreeingBodies(types: seq<Type>, r: Row, s: Row)
    requires |types| == |r| && Agree(r, s)
    ensures Body(types, r) == Body(types, s)
  {
    if r != [] {
      AgreeCons(r, s);
      AgreeingBodies(types[1..], r[1..], s[1..]);
    }
  }

  lemma {:induction false} AgreeingRows(types: seq<Type>, r: Row, s: Row)
    requires |types| == |r| && Agree(r, s)
    ensures Encode(types, r) == Encode(types, s)
  {
    MaskOfAgreeing(r, s);
    AgreeingBodies(types, r, s);
  }

  /** A key shorter than 2^16 bytes is matched by exactly the rows that agree with it. */
  lemma {:induction false} ShortKeyIdentifies(types: seq<Type>, r: Row, s: Row)
    requires WellTyped(types, r) && WellTyped(types, s) && |types| <= 64
    requires |Encode(types, r)| < 0x1_0000
    ensures Visible(Encode(types, r)) == Visible(Encode(types, s)) <==> Agree(r, s)
  {
    var e, f := Encode(types, r), Encode(types, s);
    if Visible(e) == Visible(f) {
      ShortIsVisible(e);
      VisibleSplits(f);
      EncodePrefixFree(types, r, s, Hidden(f), []);
    }
    if Agree(r, s) { AgreeingRows(types, r, s); }
  }

  // ----- Longer keys collide -----

  function OtherByte(b: byte): (r: byte)
    ensures r != b
  {
    if b == 0 then 1 else 0
  }

  /** The text with another last byte. */
  function TwistText(text: seq<byte>): (r: seq<byte>)
    requires text != []
    ensures |r| == |text| && r != text && SamePrefix(r, text, |text| - 1)
  {
    var r := text[..|text|-1] + [OtherByte(text[|text|-1])];
    assert r[|text|-1] != text[|text|-1];
    r
  }

  lemma {:induction false} TwistCell(ty: Type, c: Cell) returns (d: Cell)
    requires HasType(ty, c) && |CellBytes(ty, c)| > 8
    ensures HasType(ty, d) && d.valid == c.valid && !AgreeCell(c, d)
    ensures |CellBytes(ty, d)| == |CellBytes(ty, c)|
    ensures SamePrefix(CellBytes(ty, c), CellBytes(ty, d), |CellBytes(ty, c)| - 1)
  {
    var text := c.value.bytes;
    d := Cell(true, Text(TwistText(text)));
    PrefixAfter(LittleEndian(|text|, 4), text, TwistText(text), |text| - 1);
  }

  /** A row that differs only near the end of its encoding. */
  lemma {:induction false} TwistBody(types: seq<Type>, r: Row) returns (s: Row)
    requires WellTyped(types, r) && |Body(types, r)| > 8 * |r|
    ensures WellTyped(types, s) && !Agree(r, s)
    ensures forall i :: 0 <= i < |r| ==> r[i].valid == s[i].valid
    ensures |Body(types, s)| == |Body(types, r)|
    ensures SamePrefix(Body(types, r), Body(types, s), |Body(types, r)| - 8 * |r|)
  {
    var head, tail := CellBytes(types[0], r[0]), Body(types[1..], r[1..]);
    if |tail| > 8 * |r[1..]| {
      var t := TwistBody(types[1..], r[1..]);
      s := [r[0]] + t;
      assert s[1..] == t;
      AgreeCons(r, s);
      PrefixAfter(head, tail, Body(types[1..], t), |tail| - 8 * |r[1..]|);
      ShorterPrefix(head + tail, head + Body(types[1..], t), |head| + |tail| - 8 * |r[1..]|, |head| + |tail| - 8 * |r|);
    } else {
      var c := TwistCell(types[0], r[0]);
      s := [c] + r[1..];
      assert s[1..] == r[1..];
      var head' := CellBytes(types[0], c);
      PrefixBefore(head, head', tail, |head| - 1);
      ShorterPrefix(head + tail, head' + tail, |head| - 1, |head| + |tail| - 8 * |r|);
    }
  }

  predicate SamePrefix(a: seq<byte>, b: seq<byte>, n: nat)
  {
    n <= |a| && n <= |b| && forall i :: 0 <= i < n ==> a[i] == b[i]
  }

  lemma {:induction false} ShorterPrefix(a: seq<byte>, b: seq<byte>, n: nat, m: nat)
    requires SamePrefix(a, b, n) && m <= n
    ensures SamePrefix(a, b, m)
  {
  }

  lemma {:induction false} PrefixAfter(head: seq<byte>, a: seq<byte>, b: seq<byte>, n: nat)
    requires SamePrefix(a, b, n)
    ensures SamePrefix(head + a, head + b, |head| + n)
  {
  }

  lemma {:induction false} PrefixBefore(a: seq<byte>, b: seq<byte>, tail: seq<byte>, n: nat)
    requires SamePrefix(a, b, n)
    ensures SamePrefix(a + tail, b + tail, n)
  {
  }

  lemma {:induction false} LongKeyCollides(types: seq<Type>, r: Row) returns (s: Row)
    requires WellTyped(types, r) && |types| <= 64 && |Encode(types, r)| >= 0x1_0000
    ensures WellTyped(types, s) && !Agree(r, s)
    ensures Visible(Encode(types, r)) == Visible(Encode(types, s))
  {
    s := TwistBody(types, r);
    MaskOfAgreeing(r, s);
    var e, f := Encode(types, r), Encode(types, s);
    Remainder(|e|);
    PrefixAfter(LittleEndian(Mask(r), 8), Body(types, r), Body(types, s), |Body(types, r)| - 8 * |r|);
    SameVisible(e, f, 8 + |Body(types, r)| - 8 * |r|);
  }

  lemma {:induction false} SameVisible(e: seq<byte>, f: seq<byte>, n: nat)
    requires SamePrefix(e, f, n) && |e| == |f| && |e| % 0x1_0000 <= n
    ensures Visible(e) == Visible(f)
  {
  }

  /** A row is matched by itself alone exactly when its key has fewer than 2^16 bytes. */
  lemma {:induction false} KeyIdentifiesExactly(types: seq<Type>, r: Row)
    requires WellTyped(types, r) && |types| <= 64
    ensures (forall s :: WellTyped(types, s) && Visible(Encode(types, s)) == Visible(Encode(types, r)) ==> Agree(r, s))
            <==> |Encode(types, r)| < 0x1_0000
  {
    if |Encode(types, r)| < 0x1_0000 {
      forall s | WellTyped(types, s) && Visible(Encode(types, s)) == Visible(Encode(types, r)) ensures Agree(r, s) {
        ShortKeyIdentifies(types, r, s);
      }
    } else {
      var s := LongKeyCollides(types, r);
    }
  }

  // ----- The constructor -----

  lemma {:induction false} BodyLength(types: seq<Type>, row: Row, i: nat)
    requires |types| == |row| && i < |row|
    ensures Body(types[i..], row[i..]) == CellBytes(types[i], row[i]) + Body(types[i+1..], row[i+1..])
  {
    assert types[i..][1..] == types[i+1..] && row[i..][1..] == row[i+1..];
  }

  lemma {:induction false} MaskSnoc(row: Row, c: Cell)
    ensures Mask(row + [c]) == Mask(row) + (if c.valid then 0 else Pow2(|row|))
  {
    if row == [] {
      assert [c][1..] == [] && row + [c] == [c];
    } else {
      MaskSnoc(row[1..], c);
      assert (row + [c])[1..] == row[1..] + [c];
    }
  }

  lemma {:induction false} MaskUpTo(row: Row, i: nat)
    requires i < |row|
    ensures Mask(row[..i+1]) == Mask(row[..i]) + (if row[i].valid then 0 else Pow2(i))
  {
    MaskSnoc(row[..i], row[i]);
    assert row[..i+1] == row[..i] + [row[i]];
  }

  lemma {:induction false} ContainsLater(types: seq<Type>, row: Row, ty: Type)
    requires |types| == |row| && forall k :: 0 <= k < |row| && row[k].valid ==> types[k] != ty
    ensures !Contains(types, row, ty)
  {
  }

  /** The room a value needs. */
  function GetWidth(ty: Type, c: Cell): (w: nat)
    requires HasType(ty, c) && c.valid
    ensures w == |CellBytes(ty, c)|
  {
    if IsText(ty) then 4 + |c.value.bytes| else ByteWidth(ty)
  }

  /** `memcpy` of `s` to `data + offset`. */
  method Write(data: array<byte>, offset: nat, s: seq<byte>)
    requires offset + |s| <= data.Length
    modifies data
    ensures data[..offset + |s|] == old(data[..offset]) + s
  {
    for i := 0 to |s|
      invariant data[..offset + i] == old(data[..offset]) + s[..i]
    {
      data[offset + i] := s[i];
      assert data[..offset + i + 1] == data[..offset + i] + [s[i]];
      assert s[..i + 1] == s[..i] + [s[i]];
    }
    assert s[..|s|] == s;
  }

  /** The first pass of the constructor: the null mask and the total width. */
  method Measure(types: seq<Type>, row: Row) returns (r: Outcome<(nat, nat)>)
    requires WellTyped(types, row)
    ensures Contains(types, row, LIST) ==> r == Failure(NotImplemented)
    ensures !Contains(types, row, LIST) ==> r == Success((Mask(row), |Body(types, row)|))
  {
    var mask: nat, p, width: nat := 0, 1, 0;
    for i := 0 to |row|
      invariant mask == Mask(row[..i]) && p == Pow2(i)
      invariant width + |Body(types[i..], row[i..])| == |Body(types, row)|
      invariant forall k :: 0 <= k < i && row[k].valid ==> types[k] != LIST
    {
      BodyLength(types, row, i);
      MaskUpTo(row, i);
      if !row[i].valid {
        mask := mask + p;
      } else if types[i] == LIST {
        return Failure(NotImplemented);
      } else {
        width := width + GetWidth(types[i], row[i]);
      }
      p := 2 * p;
    }
    assert row[..|row|] == row;
    r := Success((mask, width));
  }

  /** The second pass: every non-null value is written behind what is there already. */
  method WriteBody(types: seq<Type>, row: Row, data: array<byte>) returns (ok: bool)
    requires WellTyped(types, row) && data.Length == 8 + |Body(types, row)|
    modifies data
    ensures ok <==> !Contains(types, row, TIME32)
    ensures ok ==> data[..] == old(data[..8]) + Body(types, row)
  {
    var firstUnused: nat := 8;
    ghost var all := data[..8] + Body(types, row);
    for i := 0 to |row|
      invariant firstUnused + |Body(types[i..], row[i..])| == data.Length
      invariant data[..firstUnused] + Body(types[i..], row[i..]) == all
      invariant forall k :: 0 <= k < i && row[k].valid ==> types[k] != TIME32
    {
      BodyLength(types, row, i);
      ghost var before, rest := data[..firstUnused], Body(types[i+1..], row[i+1..]);
      if row[i].valid {
        if types[i] == TIME32 {
          return false;
        }
        var bytes := CellBytes(types[i], row[i]);
        SeqAssociative(before, bytes, rest);
        Write(data, firstUnused, bytes);
        firstUnused := firstUnused + |bytes|;
      } else {
        assert [] + rest == rest;
      }
    }
    ContainsLater(types, row, TIME32);
    assert data[..] == data[..firstUnused] + [];
    ok := true;
  }

  /** The constructor; the size of the buffer is a 32-bit number. */
  method ConstructKey(types: seq<Type>, row: Row) returns (r: Outcome<seq<byte>>)
    requires |types| <= 64 && WellTyped(types, row)
    requires |Encode(types, row)| < 0x1_0000_0000
    ensures r == Key(types, row)
  {
    var measured := Measure(types, row);
    if measured.Failure? {
      return Failure(measured.reason);
    }
    var size := (8 + measured.value.1) % 0x1_0000_0000;
    SmallModulo(8 + measured.value.1, 0x1_0000_0000);
    var data := new byte[size];
    var mask := LittleEndian(measured.value.0, 8);
    Write(data, 0, mask);
    assert data[..8] == mask;
    var ok := WriteBody(types, row, data);
    if !ok {
      return Failure(ExecutionError);
    }
    r := Success(Visible(data[..]));
  }

  // ----- The lookup -----

  /** The map after adding rows one by one, or the first exception. */
  function AddAll(types: seq<Type>, values: map<seq<byte>, int>, rows: seq<Row>, layer: int): Outcome<map<seq<byte>,
        int>>
    requires AllTyped(types, rows)
  {
    if rows == [] then Success(values) else
      match AddAll(types, values, rows[..|rows|-1], layer)
      case Failure(why) => Failure(why)
      case Success(v) =>
        match Key(types, rows[|rows|-1])
        case Failure(why) => Failure(why)
        case Success(k) => Success(UpdateMax(v, k, layer))
  }

  lemma {:induction false} AddAllFails(types: seq<Type>, values: map<seq<byte>, int>, rows: seq<Row>, layer: int,
        n: nat)
    requires AllTyped(types, rows)
    requires n <= |rows| && AddAll(types, values, rows[..n], layer).Failure?
    ensures AddAll(types, values, rows, layer) == AddAll(types, values, rows[..n], layer)
  {
    if n < |rows| {
      var init := rows[..|rows|-1];
      assert init[..n] == rows[..n];
      AddAllFails(types, values, init, layer, n);
    } else {
      assert rows[..n] == rows;
    }
  }

  /** The rows are added exactly when all of them are storable. */
  lemma {:induction false} AddAllExactly(types: seq<Type>, values: map<seq<byte>, int>, rows: seq<Row>, layer: int)
    requires AllTyped(types, rows)
    ensures AddAll(types, values, rows, layer).Success? <==> All(rows, StorableRow(types))
  {
    if rows != [] {
      var n := |rows| - 1;
      AddAllExactly(types, values, rows[..n], layer);
      assert WellTyped(types, rows[n]);
      KeyExactly(types, rows[n]);
      AllLast(rows, StorableRow(types));
    }
  }

  function HasKey(types: seq<Type>, k: seq<byte>): Row -> bool
  {
    (r: Row) => |r| == |types| && Key(types, r) == Success(k)
  }

  /** A key is found at a layer exactly when it was there before or one of the rows has it. */
  lemma {:induction false} AddAllHas(types: seq<Type>, values: map<seq<byte>, int>, rows: seq<Row>, layer: int,
        k: seq<byte>, l: int)
    requires AllTyped(types, rows) && AddAll(types, values, rows, layer).Success?
    ensures Has(AddAll(types, values, rows, layer).value, k, l) <==>
            Has(values, k, l) || (l <= layer && Any(rows, HasKey(types, k)))
  {
    if rows != [] {
      var n := |rows| - 1;
      AddAllHas(types, values, rows[..n], layer, k, l);
      UpdateMaxHas(AddAll(types, values, rows[..n], layer).value, Key(types, rows[n]).value, layer, k, l);
      AnyLast(rows, HasKey(types, k));
    }
  }

  class GenericEqualityDelete {
    const types: seq<Type>
    var values: map<seq<byte>, int>

    constructor (types: seq<Type>)
      ensures this.types == types && values == map[]
    {
      this.types := types;
      values := map[];
    }

    method Add(rows: seq<Row>, layer: int) returns (r: Outcome<()>)
      requires AllTyped(types, rows) && forall i :: 0 <= i < |rows| ==> |Encode(types, rows[i])| < 0x1_0000_0000
      modifies this
      ensures |types| > 64 ==> r == Failure(NotImplemented) && values == old(values)
      ensures |types| <= 64 && r.Success? ==> AddAll(types, old(values), rows, layer) == Success(values)
      ensures |types| <= 64 && r.Failure? ==> AddAll(types, old(values), rows, layer) == Failure(r.reason)
    {
      if |types| > 64 {
        return Failure(NotImplemented);
      }
      for i := 0 to |rows|
        invariant AddAll(types, old(values), rows[..i], layer) == Success(values)
      {
        assert rows[..i+1][..i] == rows[..i];
        var key := ConstructKey(types, rows[i]);
        if key.Failure? {
          AddAllFails(types, old(values), rows, layer, i + 1);
          return Failure(key.reason);
        }
        values := UpdateMax(values, key.value, layer);
      }
      assert rows[..|rows|] == rows;
      r := Success(());
    }

    method IsDeleted(row: Row, dataLayer: int) returns (r: Outcome<bool>)
      requires WellTyped(types, row) && |types| <= 64 && |Encode(types, row)| < 0x1_0000_0000
      ensures Key(types, row).Failure? ==> r == Failure(Key(types, row).reason)
      ensures Key(types, row).Success? ==> r == Success(Has(values, Key(types, row).value, dataLayer))
    {
      var key := ConstructKey(types, row);
      if key.Failure? {
        return Failure(key.reason);
      }
      r := Success(key.value in values && values[key.value] >= dataLayer);
    }
  }
}
