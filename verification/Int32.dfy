/** The 32-bit signed integers that bitwise operators work on: their operands are cut to 32 bits first. */
module Int32 {
  import opened BitStrings
  import opened BitOps

  const TWO31: int := 0x8000_0000
  const TWO32: int := 0x1_0000_0000

  /** What a shift or a bitwise operation keeps of an integer. */
  function ToInt32(x: int): int {
    (x + TWO31) % TWO32 - TWO31
  }

  predicate IsInt32(x: int) {
    -TWO31 <= x < TWO31
  }

  /** The 32 bits of an integer, as a number. */
  function Unsigned(x: int): nat {
    x % TWO32
  }

  /** `a & b` */
  function And32(a: int, b: int): int {
    ToInt32(And(Unsigned(a), Unsigned(b)))
  }

  /** `a | b` */
  function Or32(a: int, b: int): int {
    ToInt32(Or(Unsigned(a), Unsigned(b)))
  }

  /** `x << k` */
  function ShiftLeft32(x: int, k: nat): int {
    ToInt32(ShiftLeft(Unsigned(x), k))
  }

  /** `x >> k`: the sign bit is copied in, which complements before and after for a negative number. */
  function ShiftRight32(x: int, k: nat): int {
    var v := ToInt32(x);
    if v >= 0 then ShiftRight(v, k) else -1 - ShiftRight(-1 - v, k)
  }

  // ---------------------------------------------------------------- what they come to

  lemma Cut(x: int, t: int)
    ensures ToInt32(x + t * TWO32) == ToInt32(x) && Unsigned(x + t * TWO32) == Unsigned(x)
  {
    var u := (x + TWO31) / TWO32;
    DivMod(x + t * TWO32 + TWO31, u + t, TWO32, (x + TWO31) % TWO32);
    DivMod(x + t * TWO32, x / TWO32 + t, TWO32, x % TWO32);
  }

  lemma Fits(x: int)
    requires IsInt32(x)
    ensures ToInt32(x) == x
  {
  }

  /** The low bits are not touched by cutting. */
  lemma LowPart(x: int, m: int, c: int)
    requires m > 0 && c * m == TWO32
    ensures Unsigned(x) % m == x % m
  {
    var q, r := x / TWO32, x % TWO32;
    assert q * TWO32 == q * (c * m) == (q * c) * m;
    DivMod(x, q * c + r / m, m, r % m) by { assert (q * c + r / m) * m == (q * c) * m + (r / m) * m; }
  }

  /** Shifting left multiplies, and loses what no longer fits. */
  lemma ShiftLeftCuts(x: int, k: nat, m: nat)
    requires m == Pow2(k)
    ensures ShiftLeft32(x, k) == ToInt32(x * m)
  {
    ShiftLeftIsProduct(Unsigned(x), k);
    var q := x / TWO32;
    assert x * m == Unsigned(x) * m + (q * m) * TWO32;
    Cut(Unsigned(x) * m, q * m);
  }

  /** Shifting right divides and rounds towards minus infinity. */
  lemma ShiftRightFloors(x: int, k: nat, m: nat)
    requires IsInt32(x) && m == Pow2(k)
    ensures m > 0 && ShiftRight32(x, k) == x / m
  {
    Fits(x);
    if x >= 0 {
      ShiftRightIsQuotient(x, k, m);
    } else {
      ShiftRightIsQuotient(-1 - x, k, m);
      Complement(x, m);
    }
  }

  lemma Complement(x: int, m: int)
    requires m > 0
    ensures -1 - (-1 - x) / m == x / m
  {
    var q, r := (-1 - x) / m, (-1 - x) % m;
    assert x == (-1 - q) * m + (m - 1 - r);
    DivMod(x, -1 - q, m, m - 1 - r);
  }

  /** Masking with the low bits is the remainder, for a negative number too. */
  lemma MaskCuts(x: int, k: nat, m: nat)
    requires m == Pow2(k) && k < 32
    ensures m > 0 && And32(x, m - 1) == x % m
  {
    Powers(k, m);
    MaskIsRemainder(Unsigned(x), k, m);
    LowPart(x, m, 2 * Pow2(31 - k));
    assert Unsigned(m - 1) == m - 1;
    Fits(x % m);
  }

  lemma Powers(k: nat, m: nat)
    requires m == Pow2(k) && k < 32
    ensures 0 < m <= TWO31 && Pow2(31 - k) * m == TWO31 && 2 * Pow2(31 - k) * m == TWO32
  {
    Pow2Grows(k, k);
    Pow2Grows(k, 31);
    PowAdd(31 - k, k);
    Pow31();
    MulAssoc(2, Pow2(31 - k), m);
  }

  lemma Pow31()
    ensures Pow2(31) == TWO31
  {
    assert Pow2(8) == 256;
    assert Pow2(16) == 256 * 256 by { PowAdd(8, 8); }
    assert Pow2(24) == 256 * 256 * 256 by { PowAdd(16, 8); }
    assert Pow2(7) == 128;
    PowAdd(24, 7);
  }

  /** A digit is put where a left shift has left zeros: the or is a sum, and nothing overflows. */
  lemma OrAfterShift(x: int, d: nat, k: nat, m: nat)
    requires m == Pow2(k) && d < m && k < 32
    ensures Or32(ShiftLeft32(x, k), d) == ToInt32(x * m) + d && IsInt32(ToInt32(x * m) + d)
  {
    Powers(k, m);
    ShiftLeftCuts(x, k, m);
    var c := Pow2(31 - k);
    var h := MultipleCut(x, m, c);
    var y := ToInt32(x * m);
    assert y == h * m && Unsigned(d) == d;
    RoomBelow(h, m, c, d);
    var g := MultipleUnsigned(h, m, 2 * c);
    OrDigit(y, d, k, m, g);
  }

  lemma OrDigit(y: int, d: nat, k: nat, m: nat, g: nat)
    requires m == Pow2(k) && d < m && d < TWO32 && Unsigned(y) == g * m && IsInt32(y + d)
    ensures Or32(y, d) == y + d
  {
    OrIsSum(g, d, k, m, Unsigned(y));
    CutSum(y, d);
  }

  lemma CutSum(y: int, d: nat)
    requires IsInt32(y + d) && d < TWO32
    ensures Unsigned(d) == d && ToInt32(Unsigned(y) + d) == y + d
  {
    var q := y / TWO32;
    assert y + d == Unsigned(y) + d + q * TWO32;
    Cut(Unsigned(y) + d, q);
    Fits(y + d);
  }

  // A multiple stays a multiple when it is cut.
  lemma MultipleCut(x: int, m: int, c: int) returns (h: int)
    requires m > 0 && c * m == TWO31
    ensures ToInt32(x * m) == h * m && -c <= h < c
  {
    var t := (x * m + TWO31) / TWO32;
    h := x - t * (2 * c);
    assert t * TWO32 == t * (2 * (c * m)) == (t * (2 * c)) * m;
    assert h * m == x * m - (t * (2 * c)) * m;
    SameOrder(h, c, m);
    SameOrder(h, -c, m);
    assert -c * m == -(c * m);
  }

  lemma SameOrder(a: int, b: int, m: int)
    requires m > 0
    ensures a < b <==> a * m < b * m
    ensures a < b ==> a * m + m <= b * m
  {
    NotNegative(b - a - 1, m);
    NotNegative(a - b, m);
    assert (b - a - 1) * m == b * m - a * m - m;
    assert (a - b) * m == a * m - b * m;
  }

  lemma NotNegative(a: int, m: int)
    requires m > 0
    ensures a >= 0 ==> a * m >= 0
  {
  }

  lemma RoomBelow(h: int, m: int, c: int, d: int)
    requires m > 0 && 0 <= d < m && c * m == TWO31 && -c <= h < c
    ensures IsInt32(h * m + d)
  {
    SameOrder(h, c, m);
    SameOrder(h, -c, m);
    assert -c * m == -(c * m);
  }

  lemma MultipleUnsigned(h: int, m: int, c: int) returns (g: nat)
    requires m > 0 && c > 0 && c * m == TWO32
    ensures Unsigned(h * m) == g * m
  {
    g := h % c;
    var q := h / c;
    assert h * m == (q * c + g) * m == q * (c * m) + g * m;
    SameOrder(g, c, m);
    DivMod(h * m, q, TWO32, g * m);
  }
}
