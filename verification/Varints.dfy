/** Base-128 varints, as a number and as the bytes on the wire. */
module Varints {

  type byte = x: int | 0 <= x < 256

  const TWO63: int := 0x8000_0000_0000_0000
  const TWO64: int := 0x1_0000_0000_0000_0000

  /** The encoding the writer emits: seven bits a byte, least significant first. */
  function Varint(n: nat): seq<byte> {
    if n < 128 then [n] else [n % 128 + 128] + Varint(n / 128)
  }

  /** Any byte run a reader accepts as one varint: every byte but the last has its top bit set. */
  predicate IsVarint(bs: seq<byte>) {
    bs != [] && bs[|bs| - 1] < 128 && forall i :: 0 <= i < |bs| - 1 ==> bs[i] >= 128
  }

  function Value(bs: seq<byte>): nat {
    if bs == [] then 0 else bs[0] % 128 + 128 * Value(bs[1..])
  }

  function Pow128(k: nat): nat {
    if k == 0 then 1 else 128 * Pow128(k - 1)
  }

  lemma {:induction false} VarintRoundTrip(n: nat)
    ensures IsVarint(Varint(n)) && Value(Varint(n)) == n && Varint(n)[0] % 128 == n % 128
    decreases n
  {
    var bs := Varint(n);
    if n < 128 {
      assert bs[1..] == [];
    } else {
      VarintRoundTrip(n / 128);
      assert bs[1..] == Varint(n / 128);
      assert forall i :: 1 <= i < |bs| ==> bs[i] == Varint(n / 128)[i - 1];
    }
  }

  lemma {:induction false} ValueBound(bs: seq<byte>)
    ensures Value(bs) < Pow128(|bs|)
    decreases |bs|
  {
    if bs != [] {
      ValueBound(bs[1..]);
    }
  }

  /** The encoding has at most `k` bytes exactly when the number has at most `k` base-128 digits. */
  lemma {:induction false} VarintLength(n: nat, k: nat)
    requires k > 0
    ensures |Varint(n)| <= k <==> n < Pow128(k)
    decreases k
  {
    if k == 1 {
      assert Pow128(1) == 128 * Pow128(0);
    } else if n >= 128 {
      VarintLength(n / 128, k - 1);
    } else {
      PowAtLeast128(k);
    }
  }

  lemma {:induction false} PowAtLeast128(k: nat)
    requires k > 0
    ensures Pow128(k) >= 128
    decreases k
  {
    if k > 1 {
      PowAtLeast128(k - 1);
    }
  }

  /** No byte run that reads as `n` is shorter. */
  lemma VarintShortest(n: nat, bs: seq<byte>)
    requires IsVarint(bs) && Value(bs) == n
    ensures |Varint(n)| <= |bs|
  {
    ValueBound(bs);
    VarintLength(n, |bs|);
  }

  // ---------------------------------------------------------------- signed 64-bit values

  predicate Int64(v: int) {
    -TWO63 <= v < TWO63
  }

  /** Two's complement into an unsigned 64-bit number. */
  function ToUnsigned(v: int): nat
    requires Int64(v)
  {
    if v < 0 then v + TWO64 else v
  }

  function ToSigned(u: nat): int {
    if u >= TWO63 then u - TWO64 else u
  }

  /** The signed reader inverts the signed writer; ten bytes at most, and exactly ten when negative. */
  lemma Int64RoundTrip(v: int)
    requires Int64(v)
    ensures ToSigned(Value(Varint(ToUnsigned(v)))) == v
    ensures |Varint(ToUnsigned(v))| <= 10
    ensures v < 0 <==> |Varint(ToUnsigned(v))| == 10
  {
    var u := ToUnsigned(v);
    VarintRoundTrip(u);
    assert Pow128(3) == 128 * (128 * (128 * Pow128(0)));
    assert Pow128(6) == 128 * (128 * (128 * Pow128(3)));
    assert Pow128(9) == 128 * (128 * (128 * Pow128(6)));
    VarintLength(u, 10);
    VarintLength(u, 9);
  }

  // ---------------------------------------------------------------- reading from the front of an input

  datatype Read<+T> = Got(value: T, rest: seq<byte>) | Truncated

  function ReadVarint(s: seq<byte>): Read<nat>
    decreases |s|
  {
    if s == [] then Truncated
    else if s[0] < 128 then Got(s[0], s[1..])
    else
      match ReadVarint(s[1..])
      case Got(v, rest) => Got(s[0] % 128 + 128 * v, rest)
      case Truncated => Truncated
  }

  lemma {:induction false} ReadVarintShrinks(s: seq<byte>)
    ensures ReadVarint(s).Got? ==> |ReadVarint(s).rest| < |s|
    decreases |s|
  {
    if s != [] && s[0] >= 128 {
      ReadVarintShrinks(s[1..]);
    }
  }

  /** Reading a varint off the front of any input yields its value and the untouched rest. */
  lemma {:induction false} ReadVarintExact(bs: seq<byte>, t: seq<byte>)
    requires IsVarint(bs)
    ensures ReadVarint(bs + t) == Got(Value(bs), t)
    decreases |bs|
  {
    assert (bs + t)[0] == bs[0];
    assert (bs + t)[1..] == bs[1..] + t;
    if |bs| == 1 {
      assert bs[1..] == [] && [] + t == t;
    } else {
      ReadVarintExact(bs[1..], t);
    }
  }

  /** Reading fails exactly when no byte ends a varint. */
  lemma {:induction false} TruncatedExactly(s: seq<byte>)
    ensures ReadVarint(s).Truncated? <==> forall i :: 0 <= i < |s| ==> s[i] >= 128
    decreases |s|
  {
    if s != [] && s[0] >= 128 {
      TruncatedExactly(s[1..]);
      assert forall i :: 1 <= i < |s| ==> s[i] == s[1..][i - 1];
    }
  }

  lemma VarintCons(b: byte, bs: seq<byte>)
    requires b >= 128 && IsVarint(bs)
    ensures IsVarint([b] + bs) && Value([b] + bs) == b % 128 + 128 * Value(bs)
  {
    assert ([b] + bs)[1..] == bs;
    assert forall i :: 1 <= i < |bs| + 1 ==> ([b] + bs)[i] == bs[i - 1];
  }

  /** What is read is always a whole varint at the front. */
  lemma {:induction false} ReadIsVarint(s: seq<byte>) returns (bs: seq<byte>)
    requires ReadVarint(s).Got?
    ensures IsVarint(bs) && Value(bs) == ReadVarint(s).value && s == bs + ReadVarint(s).rest
    decreases |s|
  {
    if s[0] < 128 {
      bs := [s[0]];
      assert bs[1..] == [];
    } else {
      var tail := ReadIsVarint(s[1..]);
      VarintCons(s[0], tail);
      bs := [s[0]] + tail;
      assert s == [s[0]] + s[1..];
    }
  }
}
