/** Saturating and checked machine arithmetic (math/overflow.go). */
module Overflow {

  const MAX_U64 := 0xFFFF_FFFF_FFFF_FFFF
  const MAX_I64 := 0x7FFF_FFFF_FFFF_FFFF
  const MAX_U32 := 0xFFFF_FFFF
  const MAX_I32 := 0x7FFF_FFFF
  const MIN_I32 := -0x8000_0000
  const TWO_64 := 0x1_0000_0000_0000_0000
  const TWO_32 := 0x1_0000_0000

  type byte = x: int | 0 <= x < 256
  type uint64 = x: int | 0 <= x <= MAX_U64
  type int64 = x: int | -MAX_I64 - 1 <= x <= MAX_I64
  type uint32 = x: int | 0 <= x <= MAX_U32
  type int32 = x: int | MIN_I32 <= x <= MAX_I32

  datatype Checked<T> = Value(value: T) | Overflow

  /** Two's-complement truncation to 32 and 64 bits. */
  function WrapInt32(x: int): (r: int32)
    ensures (x - r) % TWO_32 == 0
  {
    var m := x % TWO_32;
    if m > MAX_I32 then m - TWO_32 else m
  }

  function WrapInt64(x: int): (r: int64)
    ensures (x - r) % TWO_64 == 0
  {
    var m := x % TWO_64;
    if m > MAX_I64 then m - TWO_64 else m
  }

  /** The comparison of the wrapped sum with both operands detects overflow exactly. */
  function AddUint64WithErr(a: uint64, b: uint64): (r: Checked<uint64>)
    ensures r.Overflow? <==> a + b > MAX_U64
    ensures r.Value? ==> r.value == a + b
  {
    var s := (a + b) % TWO_64;
    if s >= a && s >= b then Value(s) else Overflow
  }

  function AddUint64(a: uint64, b: uint64): (r: uint64)
    ensures r == if a + b > MAX_U64 then MAX_U64 else a + b
  {
    match AddUint64WithErr(a, b)
    case Value(s) => s
    case Overflow => MAX_U64
  }

  /** Difference and shortfall: exactly one of the two is the distance between a and b. */
  function SubUint64(a: uint64, b: uint64): (r: (uint64, uint64))
    ensures r.0 - r.1 == a - b
    ensures r.0 == 0 || r.1 == 0
  {
    if a >= b then (a - b, 0) else (0, b - a)
  }

  lemma ProductGap(d: int, b: int)
    requires b > 0
    ensures d >= 1 ==> d * b >= b
    ensures d <= -1 ==> d * b < 0
  {
    if d >= 1 {
      assert (d - 1) * b >= 0;
    }
  }

  /** A wrapped product divides back to the first operand only when nothing was lost. */
  lemma WrappedProductDividesBack(a: uint64, b: uint64)
    requires b > 0
    ensures a == ((a * b) % TWO_64) / b <==> a * b <= MAX_U64
  {
    var p := a * b;
    assert 0 <= p;
    var res := p % TWO_64;
    var q := res / b;
    var rem := res - q * b;
    assert 0 <= rem < b;
    if p <= MAX_U64 {
      assert (a - q) * b == rem;
      ProductGap(a - q, b);
    }
  }

  /** The division test `a == res/b` detects multiplication overflow exactly. */
  function MulUint64WithErr(a: uint64, b: uint64): (r: Checked<uint64>)
    ensures r.Overflow? <==> a * b > MAX_U64
    ensures r.Value? ==> r.value == a * b
  {
    var res := (a * b) % TWO_64;
    if a == 0 || b == 0 then
      Value(res)
    else
      WrappedProductDividesBack(a, b);
      if a == res / b then Value(res) else Overflow
  }

  function MulUint64(a: uint64, b: uint64): (r: uint64)
    ensures a * b <= MAX_U64 ==> r == a * b
    ensures a * b > MAX_U64 ==> r == MAX_U64
  {
    match MulUint64WithErr(a, b)
    case Value(p) => p
    case Overflow => MAX_U64
  }

  /** The sign test on the wrapped sum reports every true overflow, and never a spurious one. */
  function AddInt32WithError(a: int32, b: int32): (r: Checked<int32>)
    ensures r.Overflow? <==> !(MIN_I32 <= a + b <= MAX_I32)
    ensures r.Value? ==> r.value == a + b
  {
    var res := WrapInt32(a + b);
    if (res > a) == (b > 0) then Value(res) else Overflow
  }

  function AddInt32(a: int32, b: int32): (r: int32)
    ensures r == if MIN_I32 <= a + b <= MAX_I32 then a + b else MAX_I32
  {
    match AddInt32WithError(a, b)
    case Value(s) => s
    case Overflow => MAX_I32
  }

  function SubInt(a: int64, b: int64): (r: int64)
    ensures r == if -MAX_I64 - 1 <= a - b <= MAX_I64 then a - b else -MAX_I64 - 1
  {
    var res := WrapInt64(a - b);
    if (res < a) == (b > 0) then res else -MAX_I64 - 1
  }
}
