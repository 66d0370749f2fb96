/** Value types shared by every module: optional values, the fixed-width
  * integers of the C code and the `esp_err_t` codes it returns. */
module CTypes {
  datatype Option<T> = None | Some(value: T)

  type u8 = x: int | 0 <= x < 0x100
  type u16 = x: int | 0 <= x < 0x1_0000
  type u32 = x: int | 0 <= x < 0x1_0000_0000
  type u64 = x: int | 0 <= x < 0x1_0000_0000_0000_0000
  type i8 = x: int | -0x80 <= x < 0x80
  type i16 = x: int | -0x8000 <= x < 0x8000

  /** The `esp_err_t` results of the modelled code. `Bus` stands for any
    * error code handed back by an I2C driver call (a timeout, a NACK). */
  datatype EspErr =
    | OK
    | FAIL
    | NO_MEM
    | INVALID_ARG
    | INVALID_STATE
    | NOT_FOUND
    | INVALID_CRC
    | INVALID_RESPONSE
    | INVALID_SIZE
    | Bus(code: int)

  /** The byte `b` read as an unsigned integer. */
  function U8(b: bv8): (r: u8)
    ensures r as bv8 == b
  {
    b as int
  }

  /** Reading back a byte's bit pattern gives the byte. */
  lemma ByteBitsBack(a: u8)
    ensures (a as bv8) as int == a
  {
    assert a % 0x100 == a;
  }

  /** Distinct bytes have distinct bit patterns. */
  lemma ByteBitsInjective(a: u8, b: u8)
    requires a as bv8 == b as bv8
    ensures a == b
  {
    ByteBitsBack(a);
    ByteBitsBack(b);
  }

  /** Two's-complement reading of a 16-bit pattern, as a cast to `int16_t`. */
  function ToI16(x: u16): (r: i16)
    ensures r % 0x1_0000 == x
    ensures x < 0x8000 <==> r >= 0
  {
    if x < 0x8000 then x else x - 0x1_0000
  }

  /** Two's-complement reading of an 8-bit pattern, as a cast to `int8_t`. */
  function ToI8(x: u8): (r: i8)
    ensures r % 0x100 == x
    ensures x < 0x80 <==> r >= 0
  {
    if x < 0x80 then x else x - 0x100
  }

  /** `uint32_t` truncation of an arbitrary integer. */
  function WrapU32(x: int): (r: u32)
    ensures (x - r) % 0x1_0000_0000 == 0
    ensures 0 <= x < 0x1_0000_0000 ==> r == x
    ensures -0x1_0000_0000 <= x < 0 ==> r == x + 0x1_0000_0000
  {
    x % 0x1_0000_0000
  }

  /** `uint64_t` truncation of an arbitrary integer. */
  function WrapU64(x: int): (r: u64)
    ensures (x - r) % 0x1_0000_0000_0000_0000 == 0
    ensures 0 <= x < 0x1_0000_0000_0000_0000 ==> r == x
    ensures -0x1_0000_0000_0000_0000 <= x < 0 ==> r == x + 0x1_0000_0000_0000_0000
    ensures 0x1_0000_0000_0000_0000 <= x < 0x2_0000_0000_0000_0000 ==> r == x - 0x1_0000_0000_0000_0000
  {
    x % 0x1_0000_0000_0000_0000
  }

  /** `uint64_t` difference `a - b`, wrapping below zero. */
  function SubU64(a: u64, b: u64): (r: u64)
    ensures a >= b ==> r == a - b
    ensures a < b ==> r == a - b + 0x1_0000_0000_0000_0000
  {
    if a >= b then a - b else a - b + 0x1_0000_0000_0000_0000
  }

  function Min(a: int, b: int): (r: int)
    ensures r <= a && r <= b && (r == a || r == b)
  {
    if a <= b then a else b
  }

  function Max(a: int, b: int): (r: int)
    ensures r >= a && r >= b && (r == a || r == b)
  {
    if a >= b then a else b
  }

  /** Clamp `x` into `[lo, hi]`, testing the lower bound first as the C code does. */
  function Clamp(x: int, lo: int, hi: int): (r: int)
    requires lo <= hi
    ensures lo <= r <= hi
    ensures lo <= x <= hi ==> r == x
    ensures x < lo ==> r == lo
    ensures x > hi ==> r == hi
  {
    if x < lo then lo else if x > hi then hi else x
  }
}

/** Integer arithmetic facts used by the codecs and index maps. */
module Arith {
  /** `2^n`. */
  function Pow2(n: nat): (r: nat)
    ensures r >= 1
  {
    if n == 0 then 1 else 2 * Pow2(n - 1)
  }

  lemma {:induction false} Pow2Add(a: nat, b: nat)
    ensures Pow2(a + b) == Pow2(a) * Pow2(b)
  {
    if a > 0 {
      Pow2Add(a - 1, b);
    }
  }

  lemma MulAtLeast(a: int, m: int)
    requires a >= 1 && m > 0
    ensures a * m >= m
  {
    assert a * m == (a - 1) * m + m;
  }

  /** Euclidean division is the unique quotient/remainder pair. */
  lemma DivModUnique(x: int, m: int, q: int, r: int)
    requires m > 0 && 0 <= r < m && x == q * m + r
    ensures x / m == q && x % m == r
  {
    var q', r' := x / m, x % m;
    assert x == q' * m + r';
    assert q * m - q' * m == r' - r;
    assert (q - q') * m == q * m - q' * m;
    if q > q' {
      MulAtLeast(q - q', m);
    } else if q < q' {
      assert (q' - q) * m == q' * m - q * m;
      MulAtLeast(q' - q, m);
    }
  }

  lemma MulDivMod(q: int, m: int, r: int)
    requires m > 0 && 0 <= r < m
    ensures (q * m + r) / m == q && (q * m + r) % m == r
  {
    DivModUnique(q * m + r, m, q, r);
  }

  /** A quotient of a number below `k * m` is below `k`. */
  lemma DivBelow(x: int, m: int, k: int)
    requires m > 0 && 0 <= x < k * m
    ensures 0 <= x / m < k
  {
  }

  /** A row-major index within a `rows` by `cols` grid stays below
    * `rows * cols`. */
  lemma LinearBound(r: int, c: int, rows: int, cols: int)
    requires 0 <= r < rows && 0 <= c < cols
    ensures 0 <= r * cols + c < rows * cols
  {
    assert rows * cols - r * cols == (rows - r) * cols;
    MulAtLeast(rows - r, cols);
  }

  /** The index `q * m + r` of the digit pair (q, r) in base `m`, written
    * as repeated addition so that callers reason about it only through
    * `JoinValue` and the lemmas below. */
  function Join(q: nat, m: nat, r: nat): nat {
    if q == 0 then r else Join(q - 1, m, r) + m
  }

  lemma {:induction false} JoinValue(q: nat, m: nat, r: nat)
    ensures Join(q, m, r) == q * m + r
  {
    if q > 0 {
      JoinValue(q - 1, m, r);
    }
  }

  /** Moving an amount between the low digit and the total. */
  lemma JoinShift(q: nat, m: nat, r: nat, d: nat)
    ensures Join(q, m, r + d) == Join(q, m, r) + d
  {
    JoinValue(q, m, r);
    JoinValue(q, m, r + d);
  }

  lemma JoinSplit(q: nat, m: nat, r: nat)
    requires r < m
    ensures Join(q, m, r) / m == q && Join(q, m, r) % m == r
  {
    JoinValue(q, m, r);
    MulDivMod(q, m, r);
  }

  lemma SplitJoin(x: nat, m: nat)
    requires m > 0
    ensures Join(x / m, m, x % m) == x
  {
    JoinValue(x / m, m, x % m);
  }

  lemma JoinBelow(q: nat, m: nat, r: nat, k: nat)
    requires q < k && r < m
    ensures Join(q, m, r) < k * m
  {
    JoinValue(q, m, r);
    LinearBound(q, r, k, m);
  }

  lemma JoinLess(q1: nat, q2: nat, m: nat, r1: nat, r2: nat)
    requires q1 < q2 && r1 < m && r2 < m
    ensures Join(q1, m, r1) < Join(q2, m, r2)
  {
    JoinValue(q1, m, r1);
    JoinValue(q2, m, r2);
    assert q2 * m - q1 * m == (q2 - q1) * m;
    MulAtLeast(q2 - q1, m);
  }

  /** Adding a multiple of `m` does not change a residue. */
  lemma ModAddMultiple(x: int, k: int, m: int)
    requires m > 0
    ensures (x + k * m) % m == x % m
  {
    DivModUnique(x + k * m, m, x / m + k, x % m);
  }

  /** `(a % m + b) % m == (a + b) % m`. */
  lemma ModAddLeft(a: int, b: int, m: int)
    requires m > 0
    ensures (a % m + b) % m == (a + b) % m
  {
    ModAddMultiple(a % m + b, a / m, m);
  }

  /** C's `/` on integers truncates toward zero. */
  function CDiv(a: int, b: int): (r: int)
    requires b != 0
    ensures a >= 0 && b > 0 ==> r == a / b
    ensures (a >= 0) == (b > 0) ==> r >= 0
  {
    DivAtMost(Abs(a), Abs(b));
    var q := Abs(a) / Abs(b);
    if (a >= 0) == (b > 0) then q else -q
  }

  function Abs(a: int): (r: nat)
    ensures r == a || r == -a
  {
    if a < 0 then -a else a
  }

  /** Arithmetic right shift of a signed value (`x >> n` as GCC compiles it):
    * division by `2^n` rounding toward minus infinity. */
  function Shr(x: int, n: nat): (r: int)
    ensures x >= 0 ==> 0 <= r <= x
  {
    DivAtMost(x, Pow2(n));
    x / Pow2(n)
  }

  lemma DivAtMost(x: int, p: int)
    requires p > 0
    ensures x >= 0 ==> 0 <= x / p <= x
  {
    if x >= 0 && x / p > 0 {
      assert x == (x / p) * p + x % p;
      MulAtLeast(p, x / p);
      assert p * (x / p) == (x / p) * p;
    }
  }

  /** Left shift as multiplication (no overflow is modelled). */
  function Shl(x: int, n: nat): (r: int)
    ensures x >= 0 ==> r >= 0
    ensures Shr(r, n) == x
  {
    MulDivMod(x, Pow2(n), 0);
    x * Pow2(n)
  }
}
