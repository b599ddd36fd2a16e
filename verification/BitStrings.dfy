/** Numbers as bit strings, most significant bit first, and their regrouping into digits of another width. */
module BitStrings {
  import opened Sequences

  type Bits = seq<bool>

  function Pow2(k: nat): nat {
    if k == 0 then 1 else 2 * Pow2(k - 1)
  }

  // ---------------------------------------------------------------- arithmetic

  lemma SmallMultiple(n: int, t: int)
    requires n > 0 && -n < n * t < n
    ensures t == 0
  {
  }

  /** Quotient and remainder of a number given in that form. */
  lemma DivMod(x: int, q: int, n: int, r: int)
    requires n > 0 && 0 <= r < n && x == q * n + r
    ensures x / n == q && x % n == r
  {
    var t := x / n - q;
    assert n * t == n * (x / n) - n * q;
    SmallMultiple(n, t);
  }

  lemma MulAssoc(a: int, b: int, c: int)
    ensures a * b * c == a * (b * c)
  {
  }

  lemma {:induction false} PowAdd(a: nat, b: nat)
    ensures Pow2(a + b) == Pow2(a) * Pow2(b)
    decreases a
  {
    if a > 0 {
      PowAdd(a - 1, b);
      MulAssoc(2, Pow2(a - 1), Pow2(b));
    }
  }

  // ---------------------------------------------------------------- bits

  function Bit(b: bool): nat { if b then 1 else 0 }

  /** The low `k` bits of `v`. */
  function BitsOf(v: nat, k: nat): Bits {
    if k == 0 then [] else BitsOf(v / 2, k - 1) + [v % 2 == 1]
  }

  function NumOf(bs: Bits): nat {
    if bs == [] then 0 else 2 * NumOf(bs[..|bs| - 1]) + Bit(bs[|bs| - 1])
  }

  function Zeros(n: nat): Bits {
    seq(n, _ => false)
  }

  lemma {:induction false} BitsOfLength(v: nat, k: nat)
    ensures |BitsOf(v, k)| == k
    decreases k
  {
    if k > 0 {
      BitsOfLength(v / 2, k - 1);
    }
  }

  lemma {:induction false} NumOfBitsOf(v: nat, k: nat)
    requires v < Pow2(k)
    ensures NumOf(BitsOf(v, k)) == v
    decreases k
  {
    if k > 0 {
      NumOfBitsOf(v / 2, k - 1);
      var bs := BitsOf(v, k);
      assert bs[..|bs| - 1] == BitsOf(v / 2, k - 1);
    }
  }

  lemma {:induction false} NumOfBound(bs: Bits)
    ensures NumOf(bs) < Pow2(|bs|)
    decreases |bs|
  {
    if bs != [] {
      NumOfBound(bs[..|bs| - 1]);
    }
  }

  lemma {:induction false} BitsOfNumOf(bs: Bits)
    ensures BitsOf(NumOf(bs), |bs|) == bs
    decreases |bs|
  {
    if bs != [] {
      BitsOfNumOf(bs[..|bs| - 1]);
      assert bs == bs[..|bs| - 1] + [bs[|bs| - 1]];
    }
  }

  lemma {:induction false} NumOfConcat(a: Bits, b: Bits)
    ensures NumOf(a + b) == NumOf(a) * Pow2(|b|) + NumOf(b)
    decreases |b|
  {
    if b == [] {
      assert a + b == a;
    } else {
      var n := |b| - 1;
      assert (a + b)[..|a + b| - 1] == a + b[..n];
      NumOfConcat(a, b[..n]);
      var x, p := NumOf(a), Pow2(n);
      assert x * (2 * p) == 2 * (x * p);
    }
  }

  lemma {:induction false} NumOfZeros(n: nat)
    ensures NumOf(Zeros(n)) == 0
    decreases n
  {
    if n > 0 {
      assert Zeros(n)[..n - 1] == Zeros(n - 1);
      NumOfZeros(n - 1);
    }
  }

  // ---------------------------------------------------------------- digits

  predicate Digits(ds: seq<nat>, k: nat) {
    forall i :: 0 <= i < |ds| ==> ds[i] < Pow2(k)
  }

  /** The bit string of a digit sequence. */
  function Concat(ds: seq<nat>, k: nat): Bits {
    if ds == [] then [] else Concat(ds[..|ds| - 1], k) + BitsOf(ds[|ds| - 1], k)
  }

  lemma {:induction false} ConcatLength(ds: seq<nat>, k: nat)
    ensures |Concat(ds, k)| == |ds| * k
    decreases |ds|
  {
    if ds != [] {
      var n := |ds| - 1;
      ConcatLength(ds[..n], k);
      BitsOfLength(ds[n], k);
      OneMore(n, k, |ds| * k);
    }
  }

  lemma OneMore(n: nat, k: nat, m: nat)
    requires m == (n + 1) * k
    ensures m == n * k + k
  {
  }

  lemma ConcatSnoc(ds: seq<nat>, d: nat, k: nat)
    ensures Concat(ds + [d], k) == Concat(ds, k) + BitsOf(d, k)
  {
    assert (ds + [d])[..|ds|] == ds;
  }

  /** Cut into digits of `k` bits, the last one padded with zeros. */
  function Regroup(bits: Bits, k: nat): seq<nat>
    requires k > 0
    decreases |bits|
  {
    if bits == [] then []
    else if |bits| < k then [NumOf(bits + Zeros(k - |bits|))]
    else [NumOf(bits[..k])] + Regroup(bits[k..], k)
  }

  lemma RegroupExact(d: nat, t: Bits, k: nat)
    requires k > 0 && d < Pow2(k)
    ensures Regroup(BitsOf(d, k) + t, k) == [d] + Regroup(t, k)
  {
    var bits := BitsOf(d, k) + t;
    BitsOfLength(d, k);
    NumOfBitsOf(d, k);
    assert bits[..k] == BitsOf(d, k) && bits[k..] == t;
  }

  /** Digits in front are unaffected by what follows them. */
  lemma {:induction false} RegroupPrefix(ds: seq<nat>, t: Bits, k: nat)
    requires k > 0 && Digits(ds, k)
    ensures Regroup(Concat(ds, k) + t, k) == ds + Regroup(t, k)
    decreases |ds|
  {
    if ds == [] {
      assert Concat(ds, k) + t == t;
    } else {
      var init, d := ds[..|ds| - 1], ds[|ds| - 1];
      RegroupPrefix(init, BitsOf(d, k) + t, k);
      RegroupExact(d, t, k);
      Assoc(Concat(init, k), BitsOf(d, k), t);
      Assoc(init, [d], Regroup(t, k));
      assert init + [d] == ds;
    }
  }

  /** Bits needed to fill up the last digit. */
  function Padding(n: nat, k: nat): nat
    requires k > 0
  {
    if n == 0 then 0 else if n < k then k - n else Padding(n - k, k)
  }

  lemma {:induction false} ConcatAppend(a: seq<nat>, b: seq<nat>, k: nat)
    ensures Concat(a + b, k) == Concat(a, k) + Concat(b, k)
    decreases |b|
  {
    if b == [] {
      assert a + b == a;
    } else {
      var init, d := b[..|b| - 1], b[|b| - 1];
      assert (a + b)[..|a + b| - 1] == a + init;
      ConcatAppend(a, init, k);
      Assoc(Concat(a, k), Concat(init, k), BitsOf(d, k));
    }
  }

  lemma {:induction false} RegroupDigits(bits: Bits, k: nat)
    requires k > 0
    ensures Digits(Regroup(bits, k), k)
    decreases |bits|
  {
    if bits == [] {
    } else if |bits| < k {
      NumOfBound(bits + Zeros(k - |bits|));
    } else {
      RegroupDigits(bits[k..], k);
      NumOfBound(bits[..k]);
    }
  }

  /** Regrouping keeps the bit string, up to the padding of the last digit. */
  lemma {:induction false} ConcatRegroup(bits: Bits, k: nat)
    requires k > 0
    ensures Concat(Regroup(bits, k), k) == bits + Zeros(Padding(|bits|, k))
    decreases |bits|
  {
    if bits == [] {
      assert Zeros(0) == [];
    } else if |bits| < k {
      var full := bits + Zeros(k - |bits|);
      OneDigit(full);
      assert |full| == k;
    } else {
      var rest := bits[k..];
      ConcatRegroup(rest, k);
      assert Padding(|bits|, k) == Padding(|rest|, k);
      HeadDigit(bits, k, Regroup(rest, k), Zeros(Padding(|rest|, k)));
    }
  }

  lemma HeadDigit(bits: Bits, k: nat, ds: seq<nat>, pad: Bits)
    requires k <= |bits| && Concat(ds, k) == bits[k..] + pad
    ensures Concat([NumOf(bits[..k])] + ds, k) == bits + pad
  {
    var d := NumOf(bits[..k]);
    OneDigit(bits[..k]);
    ConcatAppend([d], ds, k);
    assert bits[..k] + bits[k..] == bits;
    Assoc(bits[..k], bits[k..], pad);
  }

  lemma OneDigit(bits: Bits)
    ensures Concat([NumOf(bits)], |bits|) == bits
  {
    BitsOfNumOf(bits);
    ConcatSnoc([], NumOf(bits), |bits|);
    assert [] + [NumOf(bits)] == [NumOf(bits)];
  }
}
