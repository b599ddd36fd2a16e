/** Which inputs the codec accepts at all, and which of several occurrences of a field counts. */
module VssWire {
  import opened Wrappers
  import opened Sequences
  import opened Varints
  import opened VssProtobuf

  // ---------------------------------------------------------------- accepted inputs

  /** The last field may lack up to `n` of its bytes: a fixed-width field is skipped without looking. */
  predicate MayLack(rs: seq<RawField>, n: nat) {
    n == 0 || (rs != [] && match rs[|rs| - 1].payload
                           case RFix32(_) => n <= 4
                           case RFix64(_) => n <= 8
                           case _ => false)
  }

  /** The input is some well-formed fields, the last of which may be cut short. */
  predicate Framed(s: Bytes, rs: seq<RawField>, missing: Bytes) {
    AllWellFormed(rs) && MayLack(rs, |missing|) && s + missing == Wires(rs)
  }

  function Zeros(n: nat): Bytes {
    seq(n, _ => 0)
  }

  function FixedPayload(wire: nat, bs: Bytes): RawPayload {
    if wire == WIRE_FIX32 then RFix32(bs) else RFix64(bs)
  }

  // One parsed payload is well-formed, or of fixed width at the end of the input.
  lemma PayloadOnWire(tag: Bytes, body: Bytes) returns (r: RawField, missing: Bytes)
    requires IsVarint(tag) && ParsePayload(TagOf(Value(tag)), body).Next?
    ensures r.WellFormed() && r.Meaning() == ParsePayload(TagOf(Value(tag)), body).field && MayLack([r], |missing|)
    ensures missing != [] ==> ParsePayload(TagOf(Value(tag)), body).rest == []
    ensures tag + (body + missing) == r.OnWire() + ParsePayload(TagOf(Value(tag)), body).rest
  {
    var wire := Value(tag) % 8;
    missing := [];
    if wire == WIRE_VARINT {
      var bs := ReadIsVarint(body);
      r := RawField(tag, RVarint(bs));
      Assoc(tag, bs, ReadVarint(body).rest);
      assert body + [] == body;
    } else if wire == WIRE_LEN {
      r := LenOnWire(tag, body);
      assert body + [] == body;
    } else {
      r, missing := FixedOnWire(tag, body, if wire == WIRE_FIX32 then 4 else 8);
    }
  }

  lemma FixedOnWire(tag: Bytes, body: Bytes, width: nat) returns (r: RawField, missing: Bytes)
    requires IsVarint(tag) && Value(tag) % 8 in {WIRE_FIX32, WIRE_FIX64}
    requires width == if Value(tag) % 8 == WIRE_FIX32 then 4 else 8
    ensures r.WellFormed() && r.Meaning() == Field(Value(tag) / 8, if width == 4 then PFix32 else PFix64)
    ensures MayLack([r], |missing|) && (missing != [] ==> DropUpTo(body, width) == [])
    ensures tag + (body + missing) == r.OnWire() + DropUpTo(body, width)
  {
    missing := if width <= |body| then [] else Zeros(width - |body|);
    var bs := (body + missing)[..width];
    r := RawField(tag, FixedPayload(Value(tag) % 8, bs));
    assert body + missing == bs + DropUpTo(body, width);
    Assoc(tag, bs, DropUpTo(body, width));
  }

  lemma LenOnWire(tag: Bytes, body: Bytes) returns (r: RawField)
    requires IsVarint(tag) && Value(tag) % 8 == WIRE_LEN && ParsePayload(TagOf(Value(tag)), body).Next?
    ensures r.WellFormed() && r.Meaning() == ParsePayload(TagOf(Value(tag)), body).field
    ensures tag + body == r.OnWire() + ParsePayload(TagOf(Value(tag)), body).rest
  {
    var len := ReadIsVarint(body);
    var rest := ReadVarint(body).rest;
    var data, more := rest[..Value(len)], rest[Value(len)..];
    r := RawField(tag, RLen(len, data));
    assert rest == data + more;
    Assoc(len, data, more);
    Assoc(tag, len + data, more);
  }

  lemma FieldOnWire(s: Bytes) returns (r: RawField, missing: Bytes)
    requires ParseField(s).Next?
    ensures r.WellFormed() && r.Meaning() == ParseField(s).field && MayLack([r], |missing|)
    ensures missing != [] ==> ParseField(s).rest == []
    ensures s + missing == r.OnWire() + ParseField(s).rest
  {
    var tag := ReadIsVarint(s);
    var body := ReadVarint(s).rest;
    r, missing := PayloadOnWire(tag, body);
    Assoc(tag, body, missing);
  }

  lemma {:induction false} AcceptedIsFramed(s: Bytes) returns (rs: seq<RawField>, missing: Bytes)
    requires ParseFields(s).Ok?
    ensures Framed(s, rs, missing) && ParseFields(s) == Ok(Meanings(rs))
    decreases |s|
  {
    rs, missing := [], [];
    if s != [] {
      var rest := ParseField(s).rest;
      var r, cut := FieldOnWire(s);
      ParseFieldShrinks(s);
      var more, lack := AcceptedIsFramed(rest);
      rs := [r] + more;
      missing := cut + lack;
      assert rs[1..] == more;
      if cut != [] {
        NothingOnWire(more, lack);
      }
      assert s + missing == s + cut + lack;
      assert s + cut + lack == r.OnWire() + rest + lack;
      Assoc(r.OnWire(), rest, lack);
    }
  }

  lemma NothingOnWire(rs: seq<RawField>, missing: Bytes)
    requires Framed([], rs, missing) && ParseFields([]) == Ok(Meanings(rs))
    ensures rs == [] && missing == []
  {
  }

  lemma {:induction false} WidthOnWire(rs: seq<RawField>, n: nat)
    requires AllWellFormed(rs) && MayLack(rs, n)
    ensures n <= |Wires(rs)|
    decreases |rs|
  {
    if |rs| > 1 {
      WidthOnWire(rs[1..], n);
    }
  }

  lemma LastCut(s: Bytes, r: RawField, missing: Bytes)
    requires r.WellFormed() && MayLack([r], |missing|) && missing != [] && s + missing == r.OnWire()
    ensures s != [] && ParseField(s) == Next(r.Meaning(), [])
  {
    var bs := r.OnWire()[|r.tag|..];
    var few := bs[..|bs| - |missing|];
    assert s == (s + missing)[..|s|];
    assert s == r.tag + few;
    ReadVarintExact(r.tag, few);
  }

  lemma {:induction false} FramedIsAccepted(s: Bytes, rs: seq<RawField>, missing: Bytes)
    requires Framed(s, rs, missing)
    ensures ParseFields(s) == Ok(Meanings(rs))
    decreases |rs|
  {
    if missing == [] {
      assert s + [] == s;
      ParseInvertsWires(rs);
    } else if |rs| == 1 {
      assert rs[1..] == [] && [rs[0]] == rs;
      assert Wires(rs) == rs[0].OnWire() + [] == rs[0].OnWire();
      LastCut(s, rs[0], missing);
    } else {
      var r, more := rs[0], rs[1..];
      WidthOnWire(more, |missing|);
      var t := Wires(more)[..|Wires(more)| - |missing|];
      assert s == (s + missing)[..|s|] == r.OnWire() + t;
      assert t + missing == Wires(more) by { assert missing == (s + missing)[|s|..]; }
      ParseRawField(r, t);
      assert r.tag != [] && s != [];
      FramedIsAccepted(t, more, missing);
    }
  }

  /**
    An input is accepted, with these fields, exactly when it is a concatenation of well-formed fields with these
    meanings, of which the last, if of fixed width, may lack some of its bytes.
   */
  lemma AcceptedExactly(s: Bytes, fs: seq<Field>)
    ensures ParseFields(s) == Ok(fs) <==>
            exists rs: seq<RawField>, missing: Bytes :: Framed(s, rs, missing) && Meanings(rs) == fs
  {
    if ParseFields(s) == Ok(fs) {
      var rs, missing := AcceptedIsFramed(s);
    }
    if rs: seq<RawField>, missing: Bytes :| Framed(s, rs, missing) && Meanings(rs) == fs {
      FramedIsAccepted(s, rs, missing);
    }
  }

  // ---------------------------------------------------------------- the layout of a record

  // Empty bytes and a zero version are left out.
  function TaggedBytes(tag: byte, data: Bytes): Bytes {
    if data == [] then [] else [tag] + Varint(|data|) + data
  }

  function TaggedVersion(tag: byte, v: int): Bytes
    requires Int64(v)
  {
    if v == 0 then [] else [tag] + Varint(if v < 0 then v + TWO64 else v)
  }

  lemma BytesLayout(num: nat, data: Bytes)
    requires num < 16
    ensures Wires(OptLen(num, data)) == TaggedBytes(num * 8 + 2, data)
  {
    WireSingle(OptLen(num, data));
    if data != [] {
      assert Varint(num * 8 + 2) == [num * 8 + 2];
      Assoc([num * 8 + 2], Varint(|data|), data);
    }
  }

  lemma VersionLayout(v: int)
    requires Int64(v)
    ensures Wires(OptInt64(2, v)) == TaggedVersion(16, v)
  {
    WireSingle(OptInt64(2, v));
    assert Varint(16) == [16];
  }

  /** A record is its key under tag 10, its version in two's complement under tag 16, and its value under tag 26. */
  lemma RecordLayout(kv: KeyValue)
    requires Int64(kv.version)
    ensures Wires(KvFields(kv)) == TaggedBytes(10, kv.key) + TaggedVersion(16, kv.version) + TaggedBytes(26, kv.value)
  {
    WiresOfKv(kv);
    BytesLayout(1, kv.key);
    BytesLayout(3, kv.value);
    VersionLayout(kv.version);
  }

  // ---------------------------------------------------------------- repeated fields

  predicate Sets(f: Field, num: nat) {
    f.num == num && if num == 2 then f.payload.PVarint? else f.payload.PLen?
  }

  predicate NoneSets(fs: seq<Field>, num: nat) {
    forall i :: 0 <= i < |fs| ==> !Sets(fs[i], num)
  }

  lemma {:induction false} Untouched(kv: KeyValue, fs: seq<Field>)
    ensures NoneSets(fs, 1) ==> Interpret(kv, fs).key == kv.key
    ensures NoneSets(fs, 2) ==> Interpret(kv, fs).version == kv.version
    ensures NoneSets(fs, 3) ==> Interpret(kv, fs).value == kv.value
    decreases |fs|
  {
    if fs != [] {
      assert forall i :: 0 <= i < |fs[1..]| ==> fs[1..][i] == fs[i + 1];
      Untouched(Assign(kv, fs[0]), fs[1..]);
    }
  }

  /** Of several keys, versions or values in a record the last one counts. */
  lemma LastFieldWins(a: seq<RawField>, r: RawField, b: seq<RawField>)
    requires AllWellFormed(a) && AllWellFormed(b) && r.WellFormed()
    ensures var d, f := Decoded(Wires(a) + r.OnWire() + Wires(b)), r.Meaning();
            && d.Ok?
            && (Sets(f, 1) && NoneSets(Meanings(b), 1) ==> d.value.key == f.payload.data)
            && (Sets(f, 2) && NoneSets(Meanings(b), 2) ==> d.value.version == ToSigned(f.payload.u))
            && (Sets(f, 3) && NoneSets(Meanings(b), 3) ==> d.value.value == f.payload.data)
  {
    InsertOne(a, r, b);
    DecodedWires(a + ([r] + b));
    InterpretConcat(EMPTY, Meanings(a), [r.Meaning()] + Meanings(b));
    assert ([r.Meaning()] + Meanings(b))[1..] == Meanings(b);
    Untouched(Assign(Interpret(EMPTY, Meanings(a)), r.Meaning()), Meanings(b));
  }
}
