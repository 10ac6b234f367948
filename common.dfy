/** Fixed-width integer types and the Option wrapper shared by the sensor model. */
module Common {

  /** An unsigned 8-bit value (`uint8_t`, `unsigned char`). */
  type Byte = x: int | 0 <= x < 0x100

  /** An unsigned 16-bit value (`uint16_t`). */
  type U16 = x: int | 0 <= x < 0x1_0000

  /** An unsigned 32-bit value (`uint32_t`). */
  type U32 = x: int | 0 <= x < 0x1_0000_0000

  /** An unsigned 64-bit value (`uint64_t`). */
  type U64 = x: int | 0 <= x < 0x1_0000_0000_0000_0000

  /** C's conversion of a non-negative result to `uint32_t`: reduction modulo 2^32. */
  function Wrap32(x: nat): (r: U32)
    ensures x < 0x1_0000_0000 ==> r == x
    ensures (r - x) % 0x1_0000_0000 == 0
  {
    x % 0x1_0000_0000
  }

  /** Wrapping an operand of a uint32 product first does not change the wrapped product. */
  lemma Wrap32MulWrap(x: nat, s: nat)
    ensures Wrap32(Wrap32(x) * s) == Wrap32(x * s)
  {
    var q, w := x / 0x1_0000_0000, x % 0x1_0000_0000;
    assert x * s == (q * s) * 0x1_0000_0000 + w * s by {
      assert x == q * 0x1_0000_0000 + w;
    }
    Mod32AddMultiple(q * s, w * s);
  }

  /** Adding a multiple of 2^32 does not change the remainder modulo 2^32. */
  lemma {:induction false} Mod32AddMultiple(k: nat, y: nat)
    ensures (k * 0x1_0000_0000 + y) % 0x1_0000_0000 == y % 0x1_0000_0000
  {
    if k > 0 {
      Mod32AddMultiple(k - 1, y);
      assert k * 0x1_0000_0000 + y == ((k - 1) * 0x1_0000_0000 + y) + 0x1_0000_0000;
    }
  }

  /** A nullable pointer: `None` is `NULL`. */
  datatype Option<+T> = None | Some(value: T)

  function Min(a: int, b: int): int { if a < b then a else b }
  function Max(a: int, b: int): int { if a > b then a else b }

  /** Multiplying by the same natural number keeps the order. */
  lemma MulMonotone(a: nat, b: nat, k: nat)
    requires a <= b
    ensures a * k <= b * k
  {
  }

  /** Dividing by the same positive number keeps the order. */
  lemma DivMonotone(a: nat, b: nat, d: nat)
    requires a <= b && d > 0
    ensures a / d <= b / d
  {
    var qa, qb := a / d, b / d;
    assert qb * d <= b < qb * d + d;
    assert qa * d <= a;
    if qa > qb {
      MulMonotone(qb + 1, qa, d);
      assert false;
    }
  }

  /** `base + row * stride`: where row `row` of an image with rows stride elements apart starts. */
  function RowStart(row: nat, stride: nat): nat
  {
    row * stride
  }

  /** `base + row * stride + col`: where element col of row `row` lies. */
  function Offset(row: nat, col: nat, stride: nat): nat
  {
    RowStart(row, stride) + col
  }

  /** Rows do not overlap: row a ends before row b starts. */
  lemma RowsOrdered(a: nat, b: nat, stride: nat)
    requires a < b
    ensures RowStart(a, stride) + stride <= RowStart(b, stride)
  {
    MulMonotone(a + 1, b, stride);
  }

  /** The first `used` elements of each of the first `rows` rows lie inside an image of len elements. */
  predicate RowsFit(len: nat, rows: nat, stride: nat, used: nat)
  {
    forall r :: 0 <= r < rows ==> RowStart(r, stride) + used <= len
  }

  /** It is enough that the last row fits. */
  lemma RowsFitByLast(len: nat, rows: nat, stride: nat, used: nat)
    requires used <= stride
    ensures RowsFit(len, rows, stride, used) <==> (rows == 0 || RowStart(rows - 1, stride) + used <= len)
  {
    if rows > 0 && RowStart(rows - 1, stride) + used <= len {
      forall r | 0 <= r < rows
        ensures RowStart(r, stride) + used <= len
      {
        if r < rows - 1 {
          RowsOrdered(r, rows - 1, stride);
        }
      }
    }
  }

  /** Rows of stride elements used in full fit exactly when the image holds rows * stride elements. */
  lemma RowsFitBySize(len: nat, rows: nat, stride: nat)
    ensures RowsFit(len, rows, stride, stride) <==> rows * stride <= len
  {
    RowsFitByLast(len, rows, stride, stride);
    if rows > 0 {
      assert RowStart(rows - 1, stride) + stride == rows * stride;
    }
  }
}
