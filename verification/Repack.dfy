/**
  Packing 5-bit words into bytes and back, with the accumulator of the original: a 32-bit signed number
  that is shifted left forever and silently loses its high bits.
 */
module Repack {
  import opened BitStrings
  import opened Int32

  type word = x: int | 0 <= x < 32
  type byte = x: int | 0 <= x < 256

  /** What `(acc << k) | d` comes to for a digit `d` of `k` bits: the shift clears the bits that `d` fills. */
  function ShiftIn(acc: int, d: nat, k: nat): int {
    ToInt32(acc * Pow2(k)) + d
  }

  /** What `(acc >> b) & (2^k - 1)` comes to; the arithmetic shift rounds towards minus infinity. */
  function Extract(acc: int, b: nat, k: nat): nat {
    PowPositive(b);
    PowPositive(k);
    (acc / Pow2(b)) % Pow2(k)
  }

  /** What `(acc << (k - b)) & (2^k - 1)` comes to. */
  function PadOut(acc: int, b: nat, k: nat): nat
    requires b <= k
  {
    PowPositive(k);
    ToInt32(acc * Pow2(k - b)) % Pow2(k)
  }

  lemma {:induction false} PowPositive(k: nat)
    ensures Pow2(k) > 0
    decreases k
  {
    if k > 0 {
      PowPositive(k - 1);
    }
  }

  // ---------------------------------------------------------------- arithmetic of the accumulator

  lemma Pow32()
    ensures Pow2(32) == TWO32
  {
    assert Pow2(4) == 2 * (2 * (2 * (2 * Pow2(0)))) == 16;
    PowAdd(4, 4);
    PowAdd(8, 8);
    PowAdd(16, 16);
  }

  // A left shift that loses the bits above bit 31 keeps the low ones.
  lemma ShiftMod(acc: int, p: int, m: int, d: int, u: int)
    requires p > 0 && m > 0 && u * (p * m) == TWO32 && 0 <= d < m
    ensures p * m > 0 && (ToInt32(acc * m) + d) % (p * m) == acc % p * m + d
  {
    var a, r, n := acc / p, acc % p, p * m;
    var t := (acc * m + TWO31) / TWO32;
    assert ToInt32(acc * m) == acc * m - t * TWO32;
    assert r * m <= (p - 1) * m;
    assert (p - 1) * m == p * m - m;
    assert r * m >= 0;
    calc {
      acc * m;
      (a * p + r) * m;
      a * p * m + r * m;
      { MulAssoc(a, p, m); }
      a * n + r * m;
    }
    MulAssoc(t, u, n);
    assert (a - t * u) * n == a * n - t * u * n;
    DivMod(ToInt32(acc * m) + d, a - t * u, n, r * m + d);
  }

  /** The low bits of the accumulator are the bits waiting to be emitted. */
  ghost predicate Holds(acc: int, pending: Bits) {
    PowPositive(|pending|);
    acc % Pow2(|pending|) == NumOf(pending)
  }

  lemma ShiftInHolds(acc: int, pending: Bits, d: nat, k: nat)
    requires Holds(acc, pending) && |pending| + k <= 32 && d < Pow2(k)
    ensures Holds(ShiftIn(acc, d, k), pending + BitsOf(d, k))
  {
    var bits := |pending|;
    BitsOfLength(d, k);
    NumOfBitsOf(d, k);
    NumOfConcat(pending, BitsOf(d, k));
    PowersUpTo32(bits, k);
    ShiftMod(acc, Pow2(bits), Pow2(k), d, Pow2(32 - bits - k));
  }

  lemma PowersUpTo32(a: nat, b: nat)
    requires a + b <= 32
    ensures Pow2(a) > 0 && Pow2(b) > 0 && Pow2(a + b) == Pow2(a) * Pow2(b)
    ensures Pow2(32 - a - b) * (Pow2(a) * Pow2(b)) == TWO32
  {
    PowPositive(a);
    PowPositive(b);
    PowAdd(a, b);
    PowAdd(32 - a - b, a + b);
    Pow32();
  }

  lemma NumOfSplit(bits: Bits, k: nat)
    requires k <= |bits|
    ensures var b := |bits| - k;
            && Pow2(b) > 0 && Pow2(k) > 0 && Pow2(|bits|) == Pow2(k) * Pow2(b)
            && NumOf(bits) == NumOf(bits[..k]) * Pow2(b) + NumOf(bits[k..])
            && NumOf(bits[..k]) < Pow2(k) && NumOf(bits[k..]) < Pow2(b)
  {
    var b := |bits| - k;
    assert bits[..k] + bits[k..] == bits;
    NumOfConcat(bits[..k], bits[k..]);
    NumOfBound(bits[..k]);
    NumOfBound(bits[k..]);
    PowPositive(b);
    PowPositive(k);
    PowAdd(k, b);
  }

  lemma ExtractHolds(acc: int, pending: Bits, k: nat)
    requires Holds(acc, pending) && k <= |pending|
    ensures Extract(acc, |pending| - k, k) == NumOf(pending[..k]) && Holds(acc, pending[k..])
  {
    NumOfSplit(pending, k);
    SplitTop(acc, Pow2(|pending|), Pow2(k), Pow2(|pending| - k), NumOf(pending[..k]), NumOf(pending[k..]));
  }

  lemma SplitTop(acc: int, n: int, top: int, low: int, hi: int, lo: int)
    requires top > 0 && low > 0 && 0 <= hi < top && 0 <= lo < low
    requires n == top * low && n > 0 && acc % n == hi * low + lo
    ensures acc / low % top == hi && acc % low == lo
  {
    var q := acc / n;
    MulAssoc(q, top, low);
    assert (q * top + hi) * low == q * top * low + hi * low;
    DivMod(acc, q * top + hi, low, lo);
    DivMod(acc / low, q, top, hi);
  }

  lemma PadOutHolds(acc: int, pending: Bits, k: nat)
    requires Holds(acc, pending) && 0 < |pending| < k <= 32
    ensures [PadOut(acc, |pending|, k)] == Regroup(pending, k)
  {
    var b := |pending|;
    NumOfConcat(pending, Zeros(k - b));
    NumOfZeros(k - b);
    PowersUpTo32(b, k - b);
    ShiftMod(acc, Pow2(b), Pow2(k - b), 0, Pow2(32 - k));
  }

  // ---------------------------------------------------------------- the loops

  /** The input consumed so far is the emitted digits followed by the pending bits. */
  ghost predicate Carried(input: Bits, out: seq<nat>, k: nat, acc: int, pending: Bits) {
    input == Concat(out, k) + pending && Holds(acc, pending)
  }

  lemma CarryIn(input: Bits, out: seq<nat>, k: nat, acc: int, pending: Bits, d: nat, j: nat)
    requires Carried(input, out, k, acc, pending) && |pending| + j <= 32 && d < Pow2(j)
    ensures Carried(input + BitsOf(d, j), out, k, ShiftIn(acc, d, j), pending + BitsOf(d, j))
    ensures |pending + BitsOf(d, j)| == |pending| + j
  {
    ShiftInHolds(acc, pending, d, j);
    BitsOfLength(d, j);
  }

  lemma EmitDigit(base: Bits, k: nat, pending: Bits, d: nat)
    requires k <= |pending| && BitsOf(d, k) == pending[..k]
    ensures base + BitsOf(d, k) + pending[k..] == base + pending
  {
    assert pending == pending[..k] + pending[k..];
  }

  lemma CarryOut(input: Bits, out: seq<nat>, k: nat, acc: int, pending: Bits)
    requires Carried(input, out, k, acc, pending) && k <= |pending|
    ensures var d := Extract(acc, |pending| - k, k);
            d < Pow2(k) && Carried(input, out + [d], k, acc, pending[k..])
  {
    var d := Extract(acc, |pending| - k, k);
    ExtractHolds(acc, pending, k);
    NumOfBound(pending[..k]);
    BitsOfNumOf(pending[..k]);
    ConcatSnoc(out, d, k);
    EmitDigit(Concat(out, k), k, pending, d);
  }

  lemma CarryEnd(input: Bits, out: seq<nat>, k: nat, acc: int, pending: Bits)
    requires Carried(input, out, k, acc, pending) && |pending| < k <= 32 && Digits(out, k)
    ensures Regroup(input, k) ==
            out + if pending == [] then [] else [PadOut(acc, |pending|, k)]
  {
    RegroupPrefix(out, pending, k);
    if pending != [] {
      PadOutHolds(acc, pending, k);
    }
  }

  lemma DigitSizes()
    ensures Pow2(5) == 32 && Pow2(8) == 256
  {
    assert Pow2(4) == 2 * (2 * (2 * (2 * Pow2(0)))) == 16;
    PowAdd(4, 1);
    PowAdd(4, 4);
  }

  /** `(acc << k) | d` */
  method PushDigit(acc: int, d: nat, k: nat) returns (r: int)
    requires d < Pow2(k) && k < 32
    ensures r == ShiftIn(acc, d, k) && IsInt32(r)
  {
    OrAfterShift(acc, d, k, Pow2(k));
    return Or32(ShiftLeft32(acc, k), d);
  }

  /** `(acc >> b) & (2^k - 1)` */
  method TakeDigit(acc: int, b: nat, k: nat) returns (d: nat)
    requires IsInt32(acc) && k < 32
    ensures d == Extract(acc, b, k)
  {
    ShiftRightFloors(acc, b, Pow2(b));
    MaskCuts(ShiftRight32(acc, b), k, Pow2(k));
    return And32(ShiftRight32(acc, b), Pow2(k) - 1);
  }

  /** `(acc << (k - b)) & (2^k - 1)` */
  method PadDigit(acc: int, b: nat, k: nat) returns (d: nat)
    requires b <= k < 32
    ensures d == PadOut(acc, b, k)
  {
    ShiftLeftCuts(acc, k - b, Pow2(k - b));
    MaskCuts(ShiftLeft32(acc, k - b), k, Pow2(k));
    return And32(ShiftLeft32(acc, k - b), Pow2(k) - 1);
  }

  /** `w & 31` */
  method MaskWord(w: word) returns (d: nat)
    ensures d == w
  {
    DigitSizes();
    MaskCuts(w, 5, 32);
    return And32(w, 31);
  }

  /** The inner loop: emits digits while enough bits are pending. */
  method Drain(k: nat, acc: int, bitsIn: nat, outIn: seq<nat>, ghost input: Bits, ghost pendingIn: Bits)
    returns (out: seq<nat>, bits: nat, ghost pending: Bits)
    requires 0 < k < 32 && |pendingIn| == bitsIn && IsInt32(acc)
    requires Carried(input, outIn, k, acc, pendingIn) && Digits(outIn, k)
    ensures |pending| == bits < k
    ensures Carried(input, out, k, acc, pending) && Digits(out, k)
  {
    out, bits, pending := outIn, bitsIn, pendingIn;
    while bits >= k
      invariant |pending| == bits
      invariant Carried(input, out, k, acc, pending) && Digits(out, k)
    {
      CarryOut(input, out, k, acc, pending);
      bits := bits - k;
      var digit := TakeDigit(acc, bits, k);
      out := out + [digit];
      pending := pending[k..];
    }
  }

  lemma ConcatNext(ds: seq<nat>, i: nat, k: nat)
    requires i < |ds|
    ensures Concat(ds[..i + 1], k) == Concat(ds[..i], k) + BitsOf(ds[i], k)
  {
    assert ds[..i + 1] == ds[..i] + [ds[i]];
    ConcatSnoc(ds[..i], ds[i], k);
  }

  /** Packs words most significant bit first, zero-padding the last byte. */
  method WordsToBytesPadded(words: seq<word>) returns (out: seq<nat>)
    ensures out == Rebase(words, 5, 8) && Digits(out, 8)
  {
    DigitSizes();
    out := [];
    var acc, bits := 0, 0;
    ghost var pending: Bits := [];
    assert words[..0] == [];
    for i := 0 to |words|
      invariant |pending| == bits < 8 && IsInt32(acc)
      invariant Carried(Concat(words[..i], 5), out, 8, acc, pending) && Digits(out, 8)
    {
      ConcatNext(words, i, 5);
      CarryIn(Concat(words[..i], 5), out, 8, acc, pending, words[i], 5);
      var w := MaskWord(words[i]);
      acc := PushDigit(acc, w, 5);
      bits := bits + 5;
      out, bits, pending := Drain(8, acc, bits, out, Concat(words[..i + 1], 5), pending + BitsOf(words[i], 5));
    }
    assert words[..|words|] == words;
    CarryEnd(Concat(words, 5), out, 8, acc, pending);
    RegroupDigits(Concat(words, 5), 8);
    if bits > 0 {
      var last := PadDigit(acc, bits, 8);
      out := out + [last];
    }
  }

  /** Unpacks bytes into words, zero-padding the last word. */
  method BytesToWordsPadded(bytes: seq<byte>) returns (out: seq<nat>)
    ensures out == Rebase(bytes, 8, 5) && Digits(out, 5)
  {
    DigitSizes();
    out := [];
    var acc, bits := 0, 0;
    ghost var pending: Bits := [];
    assert bytes[..0] == [];
    for i := 0 to |bytes|
      invariant |pending| == bits < 5 && IsInt32(acc)
      invariant Carried(Concat(bytes[..i], 8), out, 5, acc, pending) && Digits(out, 5)
    {
      ConcatNext(bytes, i, 8);
      CarryIn(Concat(bytes[..i], 8), out, 5, acc, pending, bytes[i], 8);
      acc := PushDigit(acc, bytes[i], 8);
      bits := bits + 8;
      out, bits, pending := Drain(5, acc, bits, out, Concat(bytes[..i + 1], 8), pending + BitsOf(bytes[i], 8));
    }
    assert bytes[..|bytes|] == bytes;
    CarryEnd(Concat(bytes, 8), out, 5, acc, pending);
    RegroupDigits(Concat(bytes, 8), 5);
    if bits > 0 {
      var last := PadDigit(acc, bits, 5);
      out := out + [last];
    }
  }

  // ---------------------------------------------------------------- round trips

  /** The digits of `from` bits regrouped into digits of `to` bits. */
  function Rebase(ds: seq<nat>, from: nat, to: nat): seq<nat>
    requires to > 0
  {
    Regroup(Concat(ds, from), to)
  }

  lemma {:induction false} PaddingIsSmall(n: nat, k: nat)
    requires k > 0
    ensures Padding(n, k) < k && exists q: nat :: n + Padding(n, k) == q * k
    decreases n
  {
    if n >= k {
      PaddingIsSmall(n - k, k);
      var q: nat :| n - k + Padding(n - k, k) == q * k;
      assert n + Padding(n, k) == (q + 1) * k;
    } else {
      assert n + Padding(n, k) == (if n == 0 then 0 else 1) * k;
    }
  }

  lemma ZeroDigit(n: nat, k: nat)
    requires n < k
    ensures Regroup(Zeros(n), k) == if n == 0 then [] else [0]
  {
    assert Zeros(n) + Zeros(k - n) == Zeros(k);
    NumOfZeros(k);
  }

  /** Regrouping there and back returns the digits, and one zero digit for a non-empty padding. */
  lemma ThereAndBack(ds: seq<nat>, from: nat, to: nat)
    requires 0 < from && 0 < to && Digits(ds, from)
    ensures var pad := Padding(|ds| * from, to);
            && |Rebase(ds, from, to)| * to == |ds| * from + pad
            && pad < to
            && Digits(Rebase(ds, from, to), to)
            && Rebase(Rebase(ds, from, to), to, from) == ds + Regroup(Zeros(pad), from)
  {
    var bits := Concat(ds, from);
    var pad := Padding(|bits|, to);
    ConcatLength(ds, from);
    ConcatRegroup(bits, to);
    RegroupDigits(bits, to);
    PaddingIsSmall(|bits|, to);
    RegroupPrefix(ds, Zeros(pad), from);
    ConcatLength(Rebase(ds, from, to), to);
  }

  /** Packing back what was unpacked returns the bytes, followed by one zero byte unless 5 divides their number. */
  lemma PackUnpack(bytes: seq<nat>, from: nat, to: nat)
    requires from == 8 && to == 5 && Digits(bytes, from)
    ensures |Rebase(bytes, from, to)| == (8 * |bytes| + 4) / 5
    ensures |bytes| % 5 == 0 ==> Rebase(Rebase(bytes, from, to), to, from) == bytes
    ensures |bytes| % 5 != 0 ==> Rebase(Rebase(bytes, from, to), to, from) == bytes + [0]
  {
    ThereAndBack(bytes, from, to);
    var pad := Padding(|bytes| * from, to);
    ZeroDigit(pad, from);
    WordsForBytes(|bytes|, |Rebase(bytes, from, to)|, pad);
    assert bytes + [] == bytes;
  }

  lemma WordsForBytes(n: nat, words: nat, pad: nat)
    requires words * 5 == n * 8 + pad && pad < 5
    ensures words == (8 * n + 4) / 5 && (pad == 0 <==> n % 5 == 0)
  {
  }

  /** A number of words that fills whole bytes survives the other way round too. */
  lemma UnpackPack(words: seq<nat>, from: nat, to: nat)
    requires from == 5 && to == 8 && Digits(words, from) && |words| % 8 == 0
    ensures Rebase(Rebase(words, from, to), to, from) == words
    ensures |Rebase(words, from, to)| == |words| / 8 * 5
  {
    ThereAndBack(words, from, to);
    assert Padding(|words| * from, to) == 0;
    ZeroDigit(0, from);
    assert words + [] == words;
  }

  /** A signature is 65 bytes or 104 words, exactly. */
  lemma SignatureIsExact(bytes: seq<nat>, from: nat, to: nat)
    requires from == 8 && to == 5 && Digits(bytes, from) && |bytes| == 65
    ensures |Rebase(bytes, from, to)| == 104 && Rebase(Rebase(bytes, from, to), to, from) == bytes
  {
    PackUnpack(bytes, from, to);
  }
}
