/**
  The hand-written protobuf codec of the versioned storage client. Strings are their bytes.

  The specification parses an input into fields and interprets them; the writer and the reader are
  objects that append to an output and advance a position.
 */
module VssProtobuf {
  import opened Wrappers
  import opened Sequences
  import opened Varints
  import opened BitOps
  import BitStrings
  import Int32

  const WIRE_VARINT: nat := 0
  const WIRE_FIX64: nat := 1
  const WIRE_LEN: nat := 2
  const WIRE_FIX32: nat := 5

  type Bytes = seq<byte>

  datatype Error = TruncatedVarint | TruncatedLength | UnsupportedWire

  // ---------------------------------------------------------------- fields

  /** A decoded field; the contents of fixed-width fields are skipped. */
  datatype Payload = PVarint(u: nat) | PLen(data: Bytes) | PFix32 | PFix64
  datatype Field = Field(num: nat, payload: Payload)

  datatype Parsed = Next(field: Field, rest: Bytes) | Bad(error: Error)

  function DropUpTo(s: Bytes, n: nat): Bytes {
    if n <= |s| then s[n..] else []
  }

  datatype Tag = Tag(num: nat, wire: nat)

  function TagOf(t: nat): Tag {
    Tag(t / 8, t % 8)
  }

  function ParsePayload(tag: Tag, s: Bytes): Parsed {
    if tag.wire == WIRE_VARINT then
      match ReadVarint(s)
      case Got(u, rest) => Next(Field(tag.num, PVarint(u)), rest)
      case Truncated => Bad(TruncatedVarint)
    else if tag.wire == WIRE_LEN then
      match ReadVarint(s)
      case Got(len, rest) =>
        if len <= |rest| then Next(Field(tag.num, PLen(rest[..len])), rest[len..]) else Bad(TruncatedLength)
      case Truncated => Bad(TruncatedVarint)
    else if tag.wire == WIRE_FIX32 then Next(Field(tag.num, PFix32), DropUpTo(s, 4))
    else if tag.wire == WIRE_FIX64 then Next(Field(tag.num, PFix64), DropUpTo(s, 8))
    else Bad(UnsupportedWire)
  }

  function ParseField(s: Bytes): Parsed {
    match ReadVarint(s)
    case Got(t, rest) => ParsePayload(TagOf(t), rest)
    case Truncated => Bad(TruncatedVarint)
  }

  lemma ParseFieldShrinks(s: Bytes)
    ensures ParseField(s).Next? ==> |ParseField(s).rest| < |s|
  {
    ReadVarintShrinks(s);
    if ReadVarint(s).Got? {
      ReadVarintShrinks(ReadVarint(s).rest);
    }
  }

  /** All the fields of a message. */
  function ParseFields(s: Bytes): Result<seq<Field>, Error>
    decreases |s|
  {
    if s == [] then Ok([])
    else
      match ParseField(s)
      case Bad(e) => Err(e)
      case Next(f, rest) =>
        ParseFieldShrinks(s);
        match ParseFields(rest)
        case Ok(fs) => Ok([f] + fs)
        case Err(e) => Err(e)
  }

  // ---------------------------------------------------------------- fields as they lie on the wire

  /** Any well-formed field, minimal varints or not. */
  datatype RawPayload = RVarint(bs: Bytes) | RLen(len: Bytes, data: Bytes) | RFix32(bs: Bytes) | RFix64(bs: Bytes)
  datatype RawField = RawField(tag: Bytes, payload: RawPayload) {

    function Wire(): nat {
      match payload
      case RVarint(_) => WIRE_VARINT
      case RLen(_, _) => WIRE_LEN
      case RFix32(_) => WIRE_FIX32
      case RFix64(_) => WIRE_FIX64
    }

    predicate WellFormed() {
      IsVarint(tag) && Value(tag) % 8 == Wire()
      && match payload
         case RVarint(bs) => IsVarint(bs)
         case RLen(len, data) => IsVarint(len) && Value(len) == |data|
         case RFix32(bs) => |bs| == 4
         case RFix64(bs) => |bs| == 8
    }

    function OnWire(): Bytes {
      tag + match payload
            case RVarint(bs) => bs
            case RLen(len, data) => len + data
            case RFix32(bs) => bs
            case RFix64(bs) => bs
    }

    function Meaning(): Field {
      Field(Value(tag) / 8,
            match payload
            case RVarint(bs) => PVarint(Value(bs))
            case RLen(_, data) => PLen(data)
            case RFix32(_) => PFix32
            case RFix64(_) => PFix64)
    }
  }

  /** A well-formed field is read back exactly, whatever follows it. */
  lemma ParseRawField(r: RawField, t: Bytes)
    requires r.WellFormed()
    ensures ParseField(r.OnWire() + t) == Next(r.Meaning(), t)
  {
    var body := r.OnWire()[|r.tag|..];
    assert r.OnWire() + t == r.tag + (body + t);
    ReadVarintExact(r.tag, body + t);
    match r.payload {
      case RVarint(bs) =>
        assert body == bs;
        ReadVarintExact(bs, t);
      case RLen(len, data) =>
        assert body + t == len + (data + t);
        ReadVarintExact(len, data + t);
        assert (data + t)[..|data|] == data && (data + t)[|data|..] == t;
      case RFix32(bs) =>
        assert body == bs && (bs + t)[4..] == t;
      case RFix64(bs) =>
        assert body == bs && (bs + t)[8..] == t;
    }
  }

  function Wires(rs: seq<RawField>): Bytes {
    if rs == [] then [] else rs[0].OnWire() + Wires(rs[1..])
  }

  function Meanings(rs: seq<RawField>): seq<Field> {
    if rs == [] then [] else [rs[0].Meaning()] + Meanings(rs[1..])
  }

  predicate AllWellFormed(rs: seq<RawField>) {
    forall i :: 0 <= i < |rs| ==> rs[i].WellFormed()
  }

  /** Parsing inverts any concatenation of well-formed fields. */
  lemma {:induction false} ParseInvertsWires(rs: seq<RawField>)
    requires AllWellFormed(rs)
    ensures ParseFields(Wires(rs)) == Ok(Meanings(rs))
    decreases |rs|
  {
    if rs != [] {
      ParseRawField(rs[0], Wires(rs[1..]));
      ParseInvertsWires(rs[1..]);
      assert rs[0].tag != [];
      assert Wires(rs) != [];
    }
  }

  lemma {:induction false} MeaningsConcat(a: seq<RawField>, b: seq<RawField>)
    ensures Meanings(a + b) == Meanings(a) + Meanings(b) && Wires(a + b) == Wires(a) + Wires(b)
    decreases |a|
  {
    if a == [] {
      assert a + b == b;
    } else {
      assert (a + b)[1..] == a[1..] + b;
      MeaningsConcat(a[1..], b);
      Assoc([a[0].Meaning()], Meanings(a[1..]), Meanings(b));
      Assoc(a[0].OnWire(), Wires(a[1..]), Wires(b));
    }
  }

  // ---------------------------------------------------------------- key-value records

  datatype KeyValue = KeyValue(key: Bytes, version: int, value: Bytes)

  const EMPTY := KeyValue([], 0, [])

  /** Later occurrences of a field win; anything else is ignored. */
  function Assign(kv: KeyValue, f: Field): KeyValue {
    if f.num == 1 && f.payload.PLen? then kv.(key := f.payload.data)
    else if f.num == 2 && f.payload.PVarint? then kv.(version := ToSigned(f.payload.u))
    else if f.num == 3 && f.payload.PLen? then kv.(value := f.payload.data)
    else kv
  }

  function Interpret(kv: KeyValue, fs: seq<Field>): KeyValue
    decreases fs
  {
    if fs == [] then kv else Interpret(Assign(kv, fs[0]), fs[1..])
  }

  function Decoded(s: Bytes): Result<KeyValue, Error> {
    match ParseFields(s)
    case Ok(fs) => Ok(Interpret(EMPTY, fs))
    case Err(e) => Err(e)
  }

  lemma {:induction false} InterpretConcat(kv: KeyValue, a: seq<Field>, b: seq<Field>)
    ensures Interpret(kv, a + b) == Interpret(Interpret(kv, a), b)
    decreases |a|
  {
    if a == [] {
      assert a + b == b;
    } else {
      assert (a + b)[0] == a[0] && (a + b)[1..] == a[1..] + b;
      InterpretConcat(Assign(kv, a[0]), a[1..], b);
    }
  }

  lemma DecodedWires(rs: seq<RawField>)
    requires AllWellFormed(rs)
    ensures Decoded(Wires(rs)) == Ok(Interpret(EMPTY, Meanings(rs)))
  {
    ParseInvertsWires(rs);
  }

  lemma InsertOne(a: seq<RawField>, r: RawField, b: seq<RawField>)
    ensures Wires(a + ([r] + b)) == Wires(a) + r.OnWire() + Wires(b)
    ensures Meanings(a + ([r] + b)) == Meanings(a) + ([r.Meaning()] + Meanings(b))
  {
    MeaningsConcat(a, [r] + b);
    assert ([r] + b)[0] == r && ([r] + b)[1..] == b;
    assert Wires([r] + b) == r.OnWire() + Wires(b);
    assert Wires(a) + (r.OnWire() + Wires(b)) == Wires(a) + r.OnWire() + Wires(b);
  }

  /** A field with another number, inserted between any two fields, does not change what is decoded. */
  lemma UnknownFieldIgnored(a: seq<RawField>, r: RawField, b: seq<RawField>)
    requires AllWellFormed(a) && AllWellFormed(b) && r.WellFormed()
    requires r.Meaning().num !in {1, 2, 3}
    ensures Decoded(Wires(a) + r.OnWire() + Wires(b)) == Decoded(Wires(a) + Wires(b))
  {
    MeaningsConcat(a, b);
    InsertOne(a, r, b);
    DecodedWires(a + b);
    DecodedWires(a + ([r] + b));
    InterpretConcat(EMPTY, Meanings(a), Meanings(b));
    InterpretConcat(EMPTY, Meanings(a), [r.Meaning()] + Meanings(b));
    assert ([r.Meaning()] + Meanings(b))[1..] == Meanings(b);
  }

  // ---------------------------------------------------------------- encoding

  function LenField(num: nat, data: Bytes): RawField {
    RawField(Varint(num * 8 + WIRE_LEN), RLen(Varint(|data|), data))
  }

  function Int64Field(num: nat, v: int): RawField
    requires Int64(v)
  {
    RawField(Varint(num * 8 + WIRE_VARINT), RVarint(Varint(ToUnsigned(v))))
  }

  /** Default values are left out. */
  function OptLen(num: nat, data: Bytes): seq<RawField> {
    if data == [] then [] else [LenField(num, data)]
  }

  function OptInt64(num: nat, v: int): seq<RawField>
    requires Int64(v)
  {
    if v == 0 then [] else [Int64Field(num, v)]
  }

  function KvFields(kv: KeyValue): seq<RawField>
    requires Int64(kv.version)
  {
    OptLen(1, kv.key) + (OptInt64(2, kv.version) + OptLen(3, kv.value))
  }

  lemma LenFieldMeaning(num: nat, data: Bytes)
    ensures LenField(num, data).WellFormed() && LenField(num, data).Meaning() == Field(num, PLen(data))
  {
    VarintRoundTrip(num * 8 + WIRE_LEN);
    VarintRoundTrip(|data|);
  }

  lemma Int64FieldMeaning(num: nat, v: int)
    requires Int64(v)
    ensures Int64Field(num, v).WellFormed()
    ensures Int64Field(num, v).Meaning() == Field(num, PVarint(ToUnsigned(v)))
    ensures ToSigned(ToUnsigned(v)) == v
  {
    VarintRoundTrip(num * 8 + WIRE_VARINT);
    VarintRoundTrip(ToUnsigned(v));
  }

  lemma OptLenEffect(kv: KeyValue, num: nat, data: Bytes, fs: seq<Field>)
    requires num == 1 ==> kv.key == []
    requires num == 3 ==> kv.value == []
    ensures AllWellFormed(OptLen(num, data))
    ensures Interpret(kv, Meanings(OptLen(num, data)) + fs) == Interpret(Assign(kv, Field(num, PLen(data))), fs)
  {
    LenFieldMeaning(num, data);
    FieldEffect(kv, OptLen(num, data), fs);
  }

  lemma OptInt64Effect(kv: KeyValue, v: int, fs: seq<Field>)
    requires Int64(v) && kv.version == 0
    ensures AllWellFormed(OptInt64(2, v))
    ensures Interpret(kv, Meanings(OptInt64(2, v)) + fs) == Interpret(kv.(version := v), fs)
  {
    Int64FieldMeaning(2, v);
    FieldEffect(kv, OptInt64(2, v), fs);
  }

  lemma FieldEffect(kv: KeyValue, rs: seq<RawField>, fs: seq<Field>)
    requires |rs| <= 1
    ensures Interpret(kv, Meanings(rs) + fs) ==
            Interpret(if rs == [] then kv else Assign(kv, rs[0].Meaning()), fs)
  {
    if rs == [] {
      assert [] + fs == fs;
    } else {
      assert Meanings(rs) == [rs[0].Meaning()];
      assert (Meanings(rs) + fs)[1..] == fs;
    }
  }

  lemma AssignAll(kv: KeyValue)
    requires Int64(kv.version)
    ensures AllWellFormed(KvFields(kv)) && Interpret(EMPTY, Meanings(KvFields(kv))) == kv
  {
    var a, b, c := OptLen(1, kv.key), OptInt64(2, kv.version), OptLen(3, kv.value);
    MeaningsConcat(b, c);
    MeaningsConcat(a, b + c);
    OptLenEffect(EMPTY, 1, kv.key, Meanings(b) + Meanings(c));
    OptInt64Effect(EMPTY.(key := kv.key), kv.version, Meanings(c));
    OptLenEffect(EMPTY.(key := kv.key, version := kv.version), 3, kv.value, []);
    assert Meanings(c) + [] == Meanings(c);
  }

  /** Decoding inverts encoding for every key, value and 64-bit version. */
  lemma KeyValueRoundTrip(kv: KeyValue)
    requires Int64(kv.version)
    ensures Decoded(Wires(KvFields(kv))) == Ok(kv)
  {
    AssignAll(kv);
    ParseInvertsWires(KvFields(kv));
  }

  lemma Int64Wire(out: Bytes, field: nat, value: int)
    requires Int64(value)
    ensures out + Wires(OptInt64(field, value)) ==
            if value == 0 then out else out + Varint(field * 8 + WIRE_VARINT) + Varint(ToUnsigned(value))
  {
    WireSingle(OptInt64(field, value));
    if value != 0 {
      assert Int64Field(field, value).OnWire() == Varint(field * 8 + WIRE_VARINT) + Varint(ToUnsigned(value));
    }
  }

  // ---------------------------------------------------------------- the writer

  class Writer {
    var out: Bytes

    constructor ()
      ensures out == []
    {
      out := [];
    }

    /** Tags and lengths, by division. */
    method WriteVarint(nRaw: nat)
      modifies this
      ensures out == old(out) + Varint(nRaw)
    {
      var n := nRaw;
      while n > 0x7f
        invariant out + Varint(n) == old(out) + Varint(nRaw)
      {
        out := out + [n % 128 + 0x80];
        n := n / 128;
      }
      out := out + [n];
    }

    /** Signed 64-bit values, by masking and shifting the two's complement. */
    method WriteVarintI64(vRaw: int)
      requires Int64(vRaw)
      modifies this
      ensures out == old(out) + Varint(ToUnsigned(vRaw))
    {
      var u := if vRaw < 0 then vRaw + TWO64 else vRaw;
      while u > 0x7f
        invariant u >= 0 && out + Varint(u) == old(out) + Varint(ToUnsigned(vRaw))
      {
        var low := LowSeven(u);
        var marked := WithTopBit(low);
        out := out + [marked];
        u := DropSeven(u);
      }
      out := out + [u];
    }

    method WriteInt64(field: nat, value: int)
      requires Int64(value)
      modifies this
      ensures out == old(out) + Wires(OptInt64(field, value))
    {
      Int64Wire(out, field, value);
      if value == 0 {
        return;
      }
      WriteVarint(field * 8 + WIRE_VARINT);
      WriteVarintI64(value);
    }

    method WriteBytes(field: nat, value: Bytes)
      modifies this
      ensures out == old(out) + Wires(OptLen(field, value))
    {
      WireSingle(OptLen(field, value));
      if |value| == 0 {
        return;
      }
      WriteMessage(field, value);
    }

    method WriteMessage(field: nat, value: Bytes)
      modifies this
      ensures out == old(out) + LenField(field, value).OnWire()
    {
      WriteVarint(field * 8 + WIRE_LEN);
      WriteVarint(|value|);
      ghost var before := out;
      for i := 0 to |value|
        invariant out == before + value[..i]
      {
        out := out + [value[i]];
      }
      assert value[..|value|] == value;
    }
  }

  lemma PowerSeven()
    ensures BitStrings.Pow2(7) == 128
  {
    assert BitStrings.Pow2(3) == 8;
    assert BitStrings.Pow2(7) == 2 * (2 * (2 * (2 * BitStrings.Pow2(3))));
  }

  method LowSeven(u: nat) returns (r: nat)
    ensures r == u % 128
  {
    PowerSeven();
    MaskIsRemainder(u, 7, 0x80);
    return And(u, 0x7f);
  }

  /** `t & 7`, which first cuts `t` to 32 bits. */
  method LowThree(t: nat) returns (r: nat)
    ensures r == t % 8
  {
    assert BitStrings.Pow2(3) == 8;
    Int32.MaskCuts(t, 3, 8);
    return Int32.And32(t, 7);
  }

  method WithTopBit(x: nat) returns (r: nat)
    requires x < 0x80
    ensures r == x + 0x80
  {
    PowerSeven();
    SetIsSum(x, 7, 0x80);
    return Or(x, 0x80);
  }

  method DropSeven(u: nat) returns (r: nat)
    ensures r == u / 128
  {
    PowerSeven();
    ShiftRightIsQuotient(u, 7, 0x80);
    return ShiftRight(u, 7);
  }

  /** The continuation bit of a byte. */
  method TopBitClear(b: nat) returns (clear: bool)
    requires b < 256
    ensures clear <==> b < 0x80
  {
    PowerSeven();
    clear := BitClear(b, 7, 0x80);
  }

  /** `(u & m) == 0` for a single bit `m`. */
  method BitClear(u: nat, k: nat, m: nat) returns (clear: bool)
    requires m == BitStrings.Pow2(k)
    ensures m > 0 && (clear <==> u / m % 2 == 0)
  {
    TestIsDigit(u, k, m);
    return And(u, m) == 0;
  }

  method ShiftedUp(u: nat, k: nat, ghost m: nat) returns (r: nat)
    requires m == BitStrings.Pow2(k)
    ensures r == u * m
  {
    ShiftLeftIsProduct(u, k);
    return ShiftLeft(u, k);
  }

  method EncodeKeyValue(kv: KeyValue) returns (encoded: Bytes)
    requires Int64(kv.version)
    ensures encoded == Wires(KvFields(kv))
    ensures Decoded(encoded) == Ok(kv)
  {
    var w := new Writer();
    w.WriteBytes(1, kv.key);
    w.WriteInt64(2, kv.version);
    w.WriteBytes(3, kv.value);
    encoded := w.out;
    WiresOfKv(kv);
    KeyValueRoundTrip(kv);
  }

  lemma WiresOfKv(kv: KeyValue)
    requires Int64(kv.version)
    ensures [] + Wires(OptLen(1, kv.key)) + Wires(OptInt64(2, kv.version)) + Wires(OptLen(3, kv.value))
            == Wires(KvFields(kv))
  {
    var a, b, c := OptLen(1, kv.key), OptInt64(2, kv.version), OptLen(3, kv.value);
    MeaningsConcat(b, c);
    MeaningsConcat(a, b + c);
  }

  lemma WireSingle(rs: seq<RawField>)
    requires |rs| <= 1
    ensures Wires(rs) == if rs == [] then [] else rs[0].OnWire()
  {
    if rs != [] {
      assert rs[1..] == [];
      assert rs[0].OnWire() + [] == rs[0].OnWire();
    }
  }

  // ---------------------------------------------------------------- the reader

  class Reader {
    const buf: Bytes
    var pos: nat

    constructor (buf: Bytes)
      ensures this.buf == buf && Remaining() == buf
    {
      this.buf := buf;
      pos := 0;
    }

    // A skipped fixed-width field may carry the position past the end.
    ghost function Remaining(): Bytes
      reads this
    {
      if pos < |buf| then buf[pos..] else []
    }

    predicate Eof()
      reads this
      ensures Eof() <==> Remaining() == []
    {
      pos >= |buf|
    }

    method TakeVarint() returns (r: Result<nat, Error>)
      modifies this
      ensures match ReadVarint(old(Remaining()))
              case Got(v, rest) => r == Ok(v) && Remaining() == rest
              case Truncated => r == Err(TruncatedVarint)
    {
      var result, multiplier := 0, 1;
      ghost var whole := ReadVarint(Remaining());
      while true
        invariant result >= 0 && multiplier >= 1
        invariant whole == Weighted(result, multiplier, ReadVarint(Remaining()))
        decreases |buf| - pos
      {
        if pos >= |buf| {
          return Err(TruncatedVarint);
        }
        var b := buf[pos];
        ghost var before := Remaining();
        pos := pos + 1;
        assert Remaining() == before[1..];
        var low := LowSeven(b);
        var last := TopBitClear(b);
        var add := Scaled(low, multiplier);
        WeightedStep(result, multiplier, before, add);
        result := result + add;
        if last {
          return Ok(result);
        }
        multiplier := multiplier * 128;
      }
    }

    method TakeVarintI64() returns (r: Result<int, Error>)
      modifies this
      ensures match ReadVarint(old(Remaining()))
              case Got(u, rest) => r == Ok(ToSigned(u)) && Remaining() == rest
              case Truncated => r == Err(TruncatedVarint)
    {
      var result: nat, shift: nat := 0, 0;
      ghost var whole, m := ReadVarint(Remaining()), 1;
      while true
        invariant m == BitStrings.Pow2(shift) && whole == Weighted(result, m, ReadVarint(Remaining()))
        decreases |buf| - pos
      {
        if pos >= |buf| {
          return Err(TruncatedVarint);
        }
        var b := buf[pos];
        ghost var before := Remaining();
        pos := pos + 1;
        assert Remaining() == before[1..];
        var low := LowSeven(b);
        var shifted := ShiftedUp(low, shift, m);
        var last := TopBitClear(b);
        assert shifted == Scaled(low, m);
        WeightedStep(result, m, before, shifted);
        result := result + shifted;
        if last {
          return Ok(if result >= TWO63 then result - TWO64 else result);
        }
        SevenMore(shift);
        shift, m := shift + 7, m * 128;
      }
    }

    method TakeBytes() returns (r: Result<Bytes, Error>)
      modifies this
      ensures match ReadVarint(old(Remaining()))
              case Got(len, rest) =>
                if len <= |rest| then r == Ok(rest[..len]) && Remaining() == rest[len..]
                else r == Err(TruncatedLength)
              case Truncated => r == Err(TruncatedVarint)
    {
      var head := TakeVarint();
      match head {
        case Err(e) => return Err(e);
        case Ok(len) =>
          if pos + len > |buf| && len > 0 {
            return Err(TruncatedLength);
          }
          ghost var rest := Remaining();
          if len == 0 {
            assert rest[..0] == [] && rest[0..] == rest;
            return Ok([]);
          }
          var out := buf[pos..pos + len];
          assert out == rest[..len];
          pos := pos + len;
          assert Remaining() == rest[len..];
          return Ok(out);
      }
    }

    method TakeTag() returns (r: Result<Tag, Error>)
      modifies this
      ensures match ReadVarint(old(Remaining()))
              case Got(t, rest) => r == Ok(TagOf(t)) && Remaining() == rest
              case Truncated => r == Err(TruncatedVarint)
    {
      var raw := TakeVarint();
      match raw {
        case Err(e) => return Err(e);
        case Ok(t) =>
          var wire := LowThree(t);
          return Ok(Tag(t / 8, wire));
      }
    }

    /** Skips the payload of a field that is not wanted. */
    method Skip(tag: Tag) returns (r: Result<(), Error>)
      modifies this
      ensures match ParsePayload(tag, old(Remaining()))
              case Next(_, rest) => r == Ok(()) && Remaining() == rest
              case Bad(e) => r == Err(e)
    {
      if tag.wire == WIRE_VARINT {
        var v := TakeVarint();
        return if v.Ok? then Ok(()) else Err(v.error);
      } else if tag.wire == WIRE_LEN {
        var d := TakeBytes();
        return if d.Ok? then Ok(()) else Err(d.error);
      } else if tag.wire == WIRE_FIX32 {
        ghost var before := Remaining();
        pos := pos + 4;
        assert Remaining() == DropUpTo(before, 4);
        return Ok(());
      } else if tag.wire == WIRE_FIX64 {
        ghost var before := Remaining();
        pos := pos + 8;
        assert Remaining() == DropUpTo(before, 8);
        return Ok(());
      }
      return Err(UnsupportedWire);
    }
  }

  /** The reader's accumulator and multiplier applied to what is still to be read. */
  function Weighted(result: nat, multiplier: nat, r: Read<nat>): Read<nat> {
    match r
    case Got(v, rest) => Got(result + multiplier * v, rest)
    case Truncated => Truncated
  }

  /** Seven bits at their place. */
  function Scaled(low: nat, multiplier: nat): nat {
    low * multiplier
  }

  lemma MulSplit(m: nat, b: nat, v: nat, add: nat)
    requires add == b * m
    ensures m * (b + 128 * v) == add + (m * 128) * v
  {
  }

  /** Taking one byte off the input adds its seven bits, and ends the number when its top bit is clear. */
  lemma WeightedStep(result: nat, m: nat, s: Bytes, add: nat)
    requires s != [] && add == Scaled(s[0] % 128, m)
    ensures Weighted(result, m, ReadVarint(s)) ==
            if s[0] < 0x80 then Got(result + add, s[1..])
            else Weighted(result + add, m * 128, ReadVarint(s[1..]))
  {
    var tail, b := ReadVarint(s[1..]), s[0] % 128;
    if s[0] < 0x80 {
      MulSplit(m, b, 0, add);
      assert s[0] == b + 128 * 0;
    } else if tail.Got? {
      MulSplit(m, b, tail.value, add);
    }
  }

  lemma SevenMore(k: nat)
    ensures BitStrings.Pow2(k + 7) == BitStrings.Pow2(k) * 128
  {
    assert BitStrings.Pow2(k + 2) == 4 * BitStrings.Pow2(k) by { assert BitStrings.Pow2(k + 1) == 2 * BitStrings.Pow2(k); }
    assert BitStrings.Pow2(k + 4) == 4 * BitStrings.Pow2(k + 2) by { assert BitStrings.Pow2(k + 3) == 2 * BitStrings.Pow2(k + 2); }
    assert BitStrings.Pow2(k + 6) == 4 * BitStrings.Pow2(k + 4) by { assert BitStrings.Pow2(k + 5) == 2 * BitStrings.Pow2(k + 4); }
  }

  /** What decoding makes of the remaining input, given the record so far. */
  function Continue(kv: KeyValue, s: Bytes): Result<KeyValue, Error> {
    match ParseFields(s)
    case Ok(fs) => Ok(Interpret(kv, fs))
    case Err(e) => Err(e)
  }

  lemma ContinueStep(kv: KeyValue, s: Bytes)
    requires s != []
    ensures Continue(kv, s) == match ParseField(s)
                               case Bad(e) => Err(e)
                               case Next(f, rest) => Continue(Assign(kv, f), rest)
  {
    var p := ParseField(s);
    if p.Next? && ParseFields(p.rest).Ok? {
      var fs := ParseFields(p.rest).value;
      assert ([p.field] + fs)[1..] == fs;
    }
  }

  /** One round of the decoding loop: a tag, then the wanted payload or a skip. */
  method TakeKvField(reader: Reader, kv: KeyValue) returns (r: Result<KeyValue, Error>)
    modifies reader
    ensures match ParseField(old(reader.Remaining()))
            case Next(f, rest) => r == Ok(Assign(kv, f)) && reader.Remaining() == rest
            case Bad(e) => r == Err(e)
  {
    var tag := reader.TakeTag();
    if tag.Err? {
      return Err(tag.error);
    }
    var Tag(field, wire) := tag.value;
    if field == 1 && wire == WIRE_LEN {
      var d := reader.TakeBytes();
      return if d.Ok? then Ok(kv.(key := d.value)) else Err(d.error);
    } else if field == 2 && wire == WIRE_VARINT {
      var v := reader.TakeVarintI64();
      return if v.Ok? then Ok(kv.(version := v.value)) else Err(v.error);
    } else if field == 3 && wire == WIRE_LEN {
      var d := reader.TakeBytes();
      return if d.Ok? then Ok(kv.(value := d.value)) else Err(d.error);
    }
    var skipped := reader.Skip(tag.value);
    return if skipped.Ok? then Ok(kv) else Err(skipped.error);
  }

  /** The decoding loop yields the interpretation of the parsed fields, or the first parse error. */
  method DecodeKeyValue(buf: Bytes) returns (r: Result<KeyValue, Error>)
    ensures r == Decoded(buf)
  {
    var reader := new Reader(buf);
    var kv := EMPTY;
    while !reader.Eof()
      invariant fresh(reader) && Decoded(buf) == Continue(kv, reader.Remaining())
      decreases |reader.Remaining()|
    {
      ContinueStep(kv, reader.Remaining());
      ParseFieldShrinks(reader.Remaining());
      var step := TakeKvField(reader, kv);
      if step.Err? {
        return Err(step.error);
      }
      kv := step.value;
    }
    return Ok(kv);
  }
}
