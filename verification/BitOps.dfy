/** Masking, merging and shifting of non-negative integers, bit by bit, and what they come to in arithmetic. */
module BitOps {
  import opened BitStrings

  /** The number of bits of a number. */
  function Width(u: nat): nat {
    if u == 0 then 0 else Width(u / 2) + 1
  }

  lemma {:induction false} WidthBound(u: nat)
    ensures u < Pow2(Width(u))
    decreases u
  {
    if u > 0 {
      WidthBound(u / 2);
    }
  }

  lemma {:induction false} Pow2Grows(a: nat, b: nat)
    requires a <= b
    ensures 0 < Pow2(a) <= Pow2(b)
    decreases b
  {
    if a < b {
      Pow2Grows(a, b - 1);
    } else if a > 0 {
      Pow2Grows(a - 1, a - 1);
    }
  }

  function Widest(a: nat, b: nat): nat {
    if Width(a) < Width(b) then Width(b) else Width(a)
  }

  /** Two bit strings of one length, combined place by place. */
  function Combine(x: Bits, y: Bits, both: bool): (r: Bits)
    requires |x| == |y|
  {
    if x == [] then []
    else
      var n := |x| - 1;
      Combine(x[..n], y[..n], both) + [if both then x[n] && y[n] else x[n] || y[n]]
  }

  function CombineWide(a: nat, b: nat, w: nat, both: bool): nat {
    BitsOfLength(a, w);
    BitsOfLength(b, w);
    NumOf(Combine(BitsOf(a, w), BitsOf(b, w), both))
  }

  /** `a & b` */
  function And(a: nat, b: nat): nat {
    CombineWide(a, b, Widest(a, b), true)
  }

  /** `a | b` */
  function Or(a: nat, b: nat): nat {
    CombineWide(a, b, Widest(a, b), false)
  }

  /** `u << k`: zeros are put behind the bits. */
  function ShiftLeft(u: nat, k: nat): nat {
    NumOf(BitsOf(u, Width(u)) + Zeros(k))
  }

  /** `u >> k`: the last bits are dropped. */
  function ShiftRight(u: nat, k: nat): nat {
    BitsOfLength(u, Width(u));
    if Width(u) <= k then 0 else NumOf(BitsOf(u, Width(u))[..Width(u) - k])
  }

  // ---------------------------------------------------------------- one bit at a time

  lemma CombineLast(a: nat, b: nat, w: nat, both: bool)
    requires w > 0
    ensures CombineWide(a, b, w, both) ==
            2 * CombineWide(a / 2, b / 2, w - 1, both)
            + Bit(if both then a % 2 == 1 && b % 2 == 1 else a % 2 == 1 || b % 2 == 1)
  {
    BitsOfLength(a, w);
    BitsOfLength(b, w);
    BitsOfLength(a / 2, w - 1);
    BitsOfLength(b / 2, w - 1);
    var x, y := BitsOf(a, w), BitsOf(b, w);
    assert x[..w - 1] == BitsOf(a / 2, w - 1) && y[..w - 1] == BitsOf(b / 2, w - 1);
    var front, last := Combine(x[..w - 1], y[..w - 1], both), if both then x[w - 1] && y[w - 1] else x[w - 1] || y[w - 1];
    assert Combine(x, y, both) == front + [last];
    assert (front + [last])[..|front|] == front;
  }

  function Place(x: nat, y: nat, both: bool): nat {
    if both then Bit(x == 1 && y == 1) else Bit(x == 1 || y == 1)
  }

  /** The same on the digits of the numbers. */
  function Wide(a: nat, b: nat, w: nat, both: bool): nat {
    if w == 0 then 0 else 2 * Wide(a / 2, b / 2, w - 1, both) + Place(a % 2, b % 2, both)
  }

  lemma {:induction false} CombineIsWide(a: nat, b: nat, w: nat, both: bool)
    ensures CombineWide(a, b, w, both) == Wide(a, b, w, both)
    decreases w
  {
    if w > 0 {
      CombineLast(a, b, w, both);
      CombineIsWide(a / 2, b / 2, w - 1, both);
    }
  }

  function LowBits(u: nat, k: nat): nat {
    if k == 0 then 0 else 2 * LowBits(u / 2, k - 1) + u % 2
  }

  function Digit(u: nat, k: nat): nat {
    if k == 0 then u % 2 else Digit(u / 2, k - 1)
  }

  function Ones(k: nat): nat {
    if k == 0 then 0 else 2 * Ones(k - 1) + 1
  }

  lemma {:induction false} OnesIsMask(k: nat)
    ensures Ones(k) == Pow2(k) - 1
    decreases k
  {
    if k > 0 {
      OnesIsMask(k - 1);
    }
  }

  lemma Halves(n: nat, x: nat)
    requires x < 2
    ensures (2 * n + x) / 2 == n && (2 * n + x) % 2 == x
  {
  }

  lemma WideStep(a: nat, x: nat, b: nat, y: nat, w: nat, both: bool)
    requires w > 0 && x < 2 && y < 2
    ensures Wide(2 * a + x, 2 * b + y, w, both) == 2 * Wide(a, b, w - 1, both) + Place(x, y, both)
  {
    Halves(a, x);
    Halves(b, y);
  }

  lemma {:induction false} MaskWide(u: nat, k: nat, w: nat)
    requires k <= w
    ensures Wide(u, Ones(k), w, true) == LowBits(u, k)
    decreases w
  {
    if w > 0 {
      WideStep(u / 2, u % 2, if k == 0 then 0 else Ones(k - 1), if k == 0 then 0 else 1, w, true);
      MaskWide(u / 2, if k == 0 then 0 else k - 1, w - 1);
    }
  }

  lemma {:induction false} TestWide(u: nat, k: nat, w: nat)
    requires k < w
    ensures Wide(u, Pow2(k), w, true) == if Digit(u, k) == 1 then Pow2(k) else 0
    decreases w
  {
    if k == 0 {
      WideStep(u / 2, u % 2, 0, 1, w, true);
      MaskWide(u / 2, 0, w - 1);
    } else {
      WideStep(u / 2, u % 2, Pow2(k - 1), 0, w, true);
      TestWide(u / 2, k - 1, w - 1);
    }
  }

  lemma {:induction false} OrZero(u: nat, w: nat)
    requires u < Pow2(w)
    ensures Wide(u, 0, w, false) == u
    decreases w
  {
    if w > 0 {
      WideStep(u / 2, u % 2, 0, 0, w, false);
      OrZero(u / 2, w - 1);
    }
  }

  lemma {:induction false} SetWide(u: nat, k: nat, w: nat)
    requires k < w && u < Pow2(k)
    ensures Wide(u, Pow2(k), w, false) == u + Pow2(k)
    decreases w
  {
    if k == 0 {
      WideStep(0, 0, 0, 1, w, false);
      Pow2Grows(0, w - 1);
      OrZero(0, w - 1);
    } else {
      WideStep(u / 2, u % 2, Pow2(k - 1), 0, w, false);
      SetWide(u / 2, k - 1, w - 1);
    }
  }

  lemma {:induction false} LowBitsIsRemainder(u: nat, k: nat, m: nat)
    requires m == Pow2(k)
    ensures m > 0 && LowBits(u, k) == u % m && Digit(u, k) == u / m % 2
    decreases k
  {
    if k > 0 {
      var half := Pow2(k - 1);
      LowBitsIsRemainder(u / 2, k - 1, half);
      HalfStep(u, half);
    }
  }

  lemma HalfStep(u: nat, m: nat)
    requires m > 0
    ensures u % (2 * m) == 2 * (u / 2 % m) + u % 2 && u / (2 * m) == u / 2 / m
  {
    var h := u / 2;
    var q, r := h / m, h % m;
    assert h == q * m + r;
    assert q * (2 * m) == 2 * (q * m);
    DivMod(u, q, 2 * m, 2 * r + u % 2);
  }

  // ---------------------------------------------------------------- what the operations come to

  /** Masking with the low `k` bits is the remainder modulo 2^k. */
  lemma MaskIsRemainder(u: nat, k: nat, m: nat)
    requires m == Pow2(k)
    ensures m > 0 && And(u, m - 1) == u % m
  {
    OnesIsMask(k);
    WidthOfMask(k);
    CombineIsWide(u, m - 1, Widest(u, m - 1), true);
    MaskWide(u, k, Widest(u, m - 1));
    LowBitsIsRemainder(u, k, m);
  }

  lemma {:induction false} WidthOfMask(k: nat)
    ensures Pow2(k) > 0 && Width(Ones(k)) == k && Width(Pow2(k)) == k + 1
    decreases k
  {
    if k > 0 {
      WidthOfMask(k - 1);
      Halves(Ones(k - 1), 1);
      Halves(Pow2(k - 1), 0);
    } else {
      assert Width(1) == Width(0) + 1;
    }
  }

  /** Testing bit `k` looks at that binary digit. */
  lemma TestIsDigit(u: nat, k: nat, m: nat)
    requires m == Pow2(k)
    ensures m > 0 && (And(u, m) == 0 <==> u / m % 2 == 0)
  {
    WidthOfMask(k);
    CombineIsWide(u, m, Widest(u, m), true);
    TestWide(u, k, Widest(u, m));
    LowBitsIsRemainder(u, k, m);
  }

  /** Setting a bit above a number adds it. */
  lemma SetIsSum(x: nat, k: nat, m: nat)
    requires m == Pow2(k) && x < m
    ensures Or(x, m) == x + m
  {
    WidthOfMask(k);
    CombineIsWide(x, m, Widest(x, m), false);
    SetWide(x, k, Widest(x, m));
  }

  // The number with `k` zero digits behind it.
  function Raised(h: nat, k: nat): nat {
    if k == 0 then h else 2 * Raised(h, k - 1)
  }

  lemma {:induction false} RaisedIsProduct(h: nat, k: nat)
    ensures Raised(h, k) == h * Pow2(k)
    decreases k
  {
    if k > 0 {
      RaisedIsProduct(h, k - 1);
    }
  }

  lemma {:induction false} JoinWide(h: nat, d: nat, k: nat, w: nat)
    requires d < Pow2(k) && Raised(h, k) < Pow2(w) && d < Pow2(w)
    ensures Wide(Raised(h, k), d, w, false) == Raised(h, k) + d
    decreases w
  {
    if k == 0 {
      OrZero(h, w);
    } else if w > 0 {
      var e, x := d / 2, d % 2;
      assert d == 2 * e + x;
      WideStep(Raised(h, k - 1), 0, e, x, w, false);
      JoinWide(h, e, k - 1, w - 1);
    }
  }

  /** A number and digits below its lowest bits: the or is the sum. */
  lemma OrIsSum(h: nat, d: nat, k: nat, m: nat, u: nat)
    requires m == Pow2(k) && d < m && u == h * m
    ensures Or(u, d) == u + d
  {
    var w := Widest(u, d);
    WidthBound(u);
    WidthBound(d);
    Pow2Grows(Width(u), w);
    Pow2Grows(Width(d), w);
    CombineIsWide(u, d, w, false);
    RaisedIsProduct(h, k);
    JoinWide(h, d, k, w);
  }

  /** Shifting left multiplies by 2^k. */
  lemma ShiftLeftIsProduct(u: nat, k: nat)
    ensures ShiftLeft(u, k) == u * Pow2(k)
  {
    WidthBound(u);
    NumOfBitsOf(u, Width(u));
    NumOfConcat(BitsOf(u, Width(u)), Zeros(k));
    NumOfZeros(k);
  }

  /** Shifting right divides by 2^k and drops the remainder. */
  lemma ShiftRightIsQuotient(u: nat, k: nat, m: nat)
    requires m == Pow2(k)
    ensures m > 0 && ShiftRight(u, k) == u / m
  {
    var w := Width(u);
    Pow2Grows(k, k);
    WidthBound(u);
    BitsOfLength(u, w);
    NumOfBitsOf(u, w);
    if w <= k {
      Pow2Grows(w, k);
      DivMod(u, 0, m, u);
    } else {
      var bits := BitsOf(u, w);
      var high, low := bits[..w - k], bits[w - k..];
      assert bits == high + low;
      NumOfConcat(high, low);
      NumOfBound(low);
      DivMod(u, NumOf(high), m, NumOf(low));
    }
  }
}
