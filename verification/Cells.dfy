/** Rows of Arrow columns as the equality-delete lookup sees them, and the little-endian memory
    image of their numbers. */
module Cells {

  newtype byte = x: int | 0 <= x < 256

  /** The column types the lookup distinguishes.  `TIME32` stands for the fixed-width types that
      can be measured but not written, `LIST` for the types that cannot be measured. */
  datatype Type = INT8 | INT16 | INT32 | INT64 | FLOAT | DOUBLE | DATE32 | TIME64 | TIMESTAMP | TIME32
                | STRING | BINARY | LIST

  /** A number is given by its bit image, a string by its bytes. */
  datatype Value = Bits(image: nat) | Text(bytes: seq<byte>)

  /** One array slot.  A null slot still holds some value, which only some readers ignore. */
  datatype Cell = Cell(valid: bool, value: Value)

  type Row = seq<Cell>

  datatype Reason = NotImplemented | ExecutionError

  datatype Outcome<+T> = Success(value: T) | Failure(reason: Reason)

  predicate IsText(ty: Type) { ty == STRING || ty == BINARY || ty == LIST }

  /** Bytes of a fixed-width value. */
  function ByteWidth(ty: Type): (w: nat)
    ensures w <= 8
  {
    match ty
    case INT8 => 1
    case INT16 => 2
    case INT32 | FLOAT | DATE32 | TIME32 => 4
    case INT64 | DOUBLE | TIME64 | TIMESTAMP => 8
    case STRING | BINARY | LIST => 0
  }

  /** The number of values of a fixed-width type. */
  function Images(ty: Type): nat
  {
    match ByteWidth(ty)
    case 0 => 0
    case 1 => 0x100
    case 2 => 0x1_0000
    case 4 => 0x1_0000_0000
    case _ => 0x1_0000_0000_0000_0000
  }

  function Pow2(n: nat): (r: nat)
    ensures r > 0
  {
    if n == 0 then 1 else 2 * Pow2(n - 1)
  }

  /** The slot holds a value of the column's type; strings have 32-bit lengths. */
  predicate HasType(ty: Type, c: Cell)
  {
    if IsText(ty) then c.value.Text? && |c.value.bytes| < 0x1_0000_0000
    else c.value.Bits? && c.value.image < Images(ty)
  }

  predicate WellTyped(types: seq<Type>, row: Row)
  {
    |row| == |types| && forall i :: 0 <= i < |row| ==> HasType(types[i], row[i])
  }

  predicate AllTyped(types: seq<Type>, rows: seq<Row>)
  {
    forall i :: 0 <= i < |rows| ==> WellTyped(types, rows[i])
  }

  predicate NoNulls(row: Row)
  {
    forall i :: 0 <= i < |row| ==> row[i].valid
  }

  predicate AgreeCell(c: Cell, d: Cell)
  {
    c.valid == d.valid && (c.valid ==> c.value == d.value)
  }

  /** Equality of keys: the same columns are null and the others hold the same values. */
  predicate Agree(r: Row, s: Row)
  {
    |r| == |s| && forall i :: 0 <= i < |r| ==> AgreeCell(r[i], s[i])
  }

  lemma {:induction false} AgreeCons(r: Row, s: Row)
    requires |r| == |s| > 0
    ensures Agree(r, s) <==> AgreeCell(r[0], s[0]) && Agree(r[1..], s[1..])
  {
    if AgreeCell(r[0], s[0]) && Agree(r[1..], s[1..]) {
      forall i | 0 <= i < |r| ensures AgreeCell(r[i], s[i]) {
        if i > 0 { assert r[i] == r[1..][i-1] && s[i] == s[1..][i-1]; }
      }
    }
  }

  lemma {:induction false} Pow2Add(a: nat, b: nat)
    ensures Pow2(a + b) == Pow2(a) * Pow2(b)
  {
    if a > 0 {
      Pow2Add(a - 1, b);
      assert a + b - 1 == (a - 1) + b;
      MulAssociates(2, Pow2(a - 1), Pow2(b));
    }
  }

  lemma {:induction false} MulAssociates(a: nat, b: nat, c: nat)
    ensures a * (b * c) == (a * b) * c
  {
  }

  lemma {:induction false} Pow2Monotone(a: nat, b: nat)
    requires a <= b
    ensures Pow2(a) <= Pow2(b)
  {
    if a < b { Pow2Monotone(a, b - 1); }
  }

  lemma {:induction false} Pow2Values()
    ensures Pow2(8) == 0x100 && Pow2(16) == 0x1_0000 && Pow2(32) == 0x1_0000_0000 && Pow2(64) == 0x1_0000_0000_0000_0000
  {
    assert Pow2(4) == 16;
    Pow2Add(4, 4);
    Pow2Add(8, 8);
    Pow2Add(16, 16);
    Pow2Add(32, 32);
  }

  /** A digit below the base and the rest are determined by the sum. */
  lemma {:induction false} DigitUnique(a: nat, x: nat, b: nat, y: nat, base: nat)
    requires a < base && b < base && a + base * x == b + base * y
    ensures a == b && x == y
  {
    if x < y { LowerDigits(a, x, y, base); }
    if y < x { LowerDigits(b, y, x, base); }
  }

  lemma {:induction false} LowerDigits(a: nat, x: nat, y: nat, base: nat)
    requires a < base && x < y
    ensures a + base * x < base * y
  {
    MulMonotone(base, x + 1, y);
    assert base * (x + 1) == base * x + base;
  }

  lemma {:induction false} MulMonotone(a: nat, x: nat, y: nat)
    requires x <= y
    ensures a * x <= a * y
  {
  }

  lemma {:induction false} SmallModulo(n: nat, m: nat)
    requires n < m
    ensures n % m == n
  {
  }

  // ----- Little-endian images -----

  function LittleEndian(n: nat, width: nat): (r: seq<byte>)
    ensures |r| == width
  {
    if width == 0 then [] else [(n % 256) as byte] + LittleEndian(n / 256, width - 1)
  }

  lemma {:induction false} LittleEndianInjective(n: nat, m: nat, width: nat)
    requires n < Pow2(8 * width) && m < Pow2(8 * width)
    requires LittleEndian(n, width) == LittleEndian(m, width)
    ensures n == m
  {
    if width > 0 {
      ShiftByte(n, width);
      ShiftByte(m, width);
      assert LittleEndian(n, width)[0] == LittleEndian(m, width)[0];
      assert LittleEndian(n, width)[1..] == LittleEndian(n / 256, width - 1);
      assert LittleEndian(m, width)[1..] == LittleEndian(m / 256, width - 1);
      LittleEndianInjective(n / 256, m / 256, width - 1);
    }
  }

  lemma {:induction false} ShiftByte(n: nat, width: nat)
    requires width > 0 && n < Pow2(8 * width)
    ensures n / 256 < Pow2(8 * (width - 1))
  {
    Pow2Values();
    Pow2Add(8, 8 * (width - 1));
    assert n < 256 * Pow2(8 * (width - 1));
  }

  // ----- Null masks -----

  /** Bit `i` is set when column `i` is null. */
  function Mask(row: Row): nat
  {
    if row == [] then 0 else (if row[0].valid then 0 else 1) + 2 * Mask(row[1..])
  }

  lemma {:induction false} MaskBound(row: Row)
    ensures Mask(row) < Pow2(|row|)
  {
    if row != [] { MaskBound(row[1..]); }
  }

  lemma {:induction false} MaskInjective(r: Row, s: Row)
    requires |r| == |s| && Mask(r) == Mask(s)
    ensures forall i :: 0 <= i < |r| ==> r[i].valid == s[i].valid
  {
    if r != [] {
      DigitUnique(if r[0].valid then 0 else 1, Mask(r[1..]), if s[0].valid then 0 else 1, Mask(s[1..]), 2);
      MaskInjective(r[1..], s[1..]);
      forall i | 0 <= i < |r| ensures r[i].valid == s[i].valid {
        if i > 0 { assert r[i] == r[1..][i-1] && s[i] == s[1..][i-1]; }
      }
    }
  }

  lemma {:induction false} MaskOfAgreeing(r: Row, s: Row)
    requires |r| == |s| && forall i :: 0 <= i < |r| ==> r[i].valid == s[i].valid
    ensures Mask(r) == Mask(s)
  {
    if r != [] { MaskOfAgreeing(r[1..], s[1..]); }
  }

  lemma {:induction false} MaskZero(r: Row)
    ensures Mask(r) == 0 <==> NoNulls(r)
  {
    if r != [] {
      MaskZero(r[1..]);
      if r[0].valid && NoNulls(r[1..]) {
        forall i | 0 <= i < |r| ensures r[i].valid { if i > 0 { assert r[i] == r[1..][i-1]; } }
      }
    }
  }
}
