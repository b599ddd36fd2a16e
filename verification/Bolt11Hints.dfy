/**
  The route-hint transformer: appends routing tags to the data part of an invoice and signs it again.
  Bech32 is left out (an invoice is its prefix and its words), and the signature scheme is a parameter.
 */
module Bolt11Hints {
  import opened Wrappers
  import opened Sequences
  import opened BitStrings
  import opened Repack

  const SIG_WORDS: nat := 104
  const TIMESTAMP_WORDS: nat := 7
  const ROUTING_TAG_TYPE: word := 3
  const LIMIT: nat := 10_000
  const NODE_ID_BYTES: nat := 33
  const HINT_BYTES: nat := 51

  // Byte widths of the numbers in a hint.
  const SCID_BYTES: nat := 8
  const FEE_BYTES: nat := 4
  const CLTV_BYTES: nat := 2

  type Words = seq<word>
  type Bytes = seq<byte>

  datatype Invoice = Invoice(hrp: Bytes, words: Words)

  datatype Error = NoHints | TooShort | PayeeMismatch | BadNodeId | SelfCheckFailed | TooLong
  // ---------------------------------------------------------------- tagged fields

  /** A self-delimiting run of words: a type, a length in two words, and the payload. */
  datatype Tagged = Tagged(kind: word, payload: Words)

  function TagWords(t: Tagged): Words
    requires |t.payload| < 1024
  {
    [t.kind, |t.payload| / 32, |t.payload| % 32] + t.payload
  }

  function TagLength(ws: Words): nat
    requires |ws| >= 3
  {
    (ws[1] as int) * 32 + ws[2] as int
  }

  /** The fields that make up the words exactly, if they do. */
  function ParseTags(ws: Words): Option<seq<Tagged>>
    decreases |ws|
  {
    if ws == [] then Some([])
    else if |ws| < 3 || |ws| < 3 + TagLength(ws) then None
    else
      match ParseTags(ws[3 + TagLength(ws)..])
      case None => None
      case Some(fs) => Some([Tagged(ws[0], ws[3..3 + TagLength(ws)])] + fs)
  }

  predicate WellFormed(ws: Words) {
    ParseTags(ws).Some?
  }

  lemma ParseCons(t: Tagged, rest: Words)
    requires |t.payload| < 1024
    ensures ParseTags(TagWords(t) + rest) == match ParseTags(rest)
                                             case None => None
                                             case Some(fs) => Some([t] + fs)
  {
    var ws := TagWords(t) + rest;
    var n := |t.payload|;
    assert ws[0] == t.kind && ws[1] == n / 32 && ws[2] == n % 32;
    assert TagLength(ws) == n;
    assert ws[3..3 + n] == t.payload;
    assert ws[3 + n..] == rest;
  }

  /** The first field of well-formed words and what follows it. */
  lemma SplitHead(ws: Words) returns (t: Tagged, rest: Words)
    requires ws != [] && WellFormed(ws)
    ensures |t.payload| < 1024 && ws == TagWords(t) + rest && WellFormed(rest)
    ensures ParseTags(ws).value == [t] + ParseTags(rest).value
  {
    var n := TagLength(ws);
    t, rest := Tagged(ws[0], ws[3..3 + n]), ws[3 + n..];
    assert ws == ws[..3] + ws[3..3 + n] + rest;
    assert ws[..3] == [t.kind, n / 32, n % 32];
  }

  /** Well-formed parts parse independently of each other. */
  lemma {:induction false} ParseTagsConcat(a: Words, b: Words)
    requires WellFormed(a) && WellFormed(b)
    ensures ParseTags(a + b) == Some(ParseTags(a).value + ParseTags(b).value)
    decreases |a|
  {
    if a == [] {
      assert a + b == b && [] + ParseTags(b).value == ParseTags(b).value;
    } else {
      var t, rest := SplitHead(a);
      var fa, fb := ParseTags(rest).value, ParseTags(b).value;
      ParseTagsConcat(rest, b);
      ParseCons(t, rest + b);
      Assoc(TagWords(t), rest, b);
      Assoc([t], fa, fb);
    }
  }

  /** The walk over the fields that looks for a routing tag. */
  function WalkFinds(ws: Words): bool
    decreases |ws|
  {
    if |ws| < 3 then false
    else if ws[0] == ROUTING_TAG_TYPE then true
    else if |ws| < 3 + TagLength(ws) then false
    else WalkFinds(ws[3 + TagLength(ws)..])
  }

  predicate HasRoutingTag(fs: seq<Tagged>) {
    exists i :: 0 <= i < |fs| && fs[i].kind == ROUTING_TAG_TYPE
  }

  lemma {:induction false} WalkFindsRoutingTag(ws: Words)
    requires WellFormed(ws)
    ensures WalkFinds(ws) <==> HasRoutingTag(ParseTags(ws).value)
    decreases |ws|
  {
    if ws != [] {
      var rest := ws[3 + TagLength(ws)..];
      WalkFindsRoutingTag(rest);
      var fs, tail := ParseTags(ws).value, ParseTags(rest).value;
      assert forall i :: 0 <= i < |tail| ==> fs[i + 1] == tail[i];
      assert forall i :: 1 <= i < |fs| ==> fs[i] == tail[i - 1];
      assert fs[0].kind == ws[0];
    }
  }

  /** A routing tag starts at word `i`, behind whole fields. */
  predicate RoutingAt(ws: Words, i: nat) {
    i + 3 <= |ws| && ws[i] == 3 && WellFormed(ws[..i])
  }

  /** On any words, malformed ones included, the walk finds a routing tag exactly when one starts behind whole fields. */
  lemma {:induction false} WalkFindsExactly(ws: Words)
    ensures WalkFinds(ws) <==> exists i: nat :: RoutingAt(ws, i)
    decreases |ws|
  {
    if |ws| >= 3 && ws[0] == 3 {
      assert RoutingAt(ws, 0);
    } else if |ws| >= 3 {
      var n := 3 + TagLength(ws);
      if n <= |ws| {
        WalkFindsExactly(ws[n..]);
        if i: nat :| RoutingAt(ws[n..], i) {
          FieldInFront(ws, n, n + i);
          assert RoutingAt(ws, n + i);
        }
      }
      if i: nat :| RoutingAt(ws, i) {
        FirstFieldFits(ws, i);
        FieldInFront(ws, n, i);
        assert RoutingAt(ws[n..], i - n);
      }
    }
  }

  // Whole fields that start with a given field are that field and whole fields.
  lemma FieldInFront(ws: Words, n: nat, i: nat)
    requires 3 <= |ws| && n == 3 + TagLength(ws) <= i <= |ws|
    ensures WellFormed(ws[..i]) <==> WellFormed(ws[n..][..i - n])
    ensures ws[n..][..i - n] == ws[n..i]
  {
    var front := ws[..i];
    assert TagLength(front) == TagLength(ws) && front[n..] == ws[n..i] && ws[n..][..i - n] == ws[n..i];
  }

  lemma FirstFieldFits(ws: Words, i: nat)
    requires 3 <= |ws| && RoutingAt(ws, i) && ws[0] != 3
    ensures 3 + TagLength(ws) <= i
  {
    assert ws[..i] != [];
    assert |ws[..i]| >= 3 && TagLength(ws[..i]) == TagLength(ws);
  }

  // ---------------------------------------------------------------- invoices

  predicate LongEnough(inv: Invoice) {
    |inv.words| > TIMESTAMP_WORDS + SIG_WORDS
  }

  function DataWords(inv: Invoice): Words
    requires LongEnough(inv)
  {
    inv.words[..|inv.words| - SIG_WORDS]
  }

  function SigWords(inv: Invoice): Words
    requires LongEnough(inv)
  {
    inv.words[|inv.words| - SIG_WORDS..]
  }

  /** The tagged fields of the data part, after the timestamp. */
  function FieldWords(inv: Invoice): Words
    requires LongEnough(inv)
  {
    DataWords(inv)[TIMESTAMP_WORDS..]
  }

  method HasRouteHint(inv: Invoice) returns (r: Result<bool, Error>)
    ensures r == if LongEnough(inv) then Ok(WalkFinds(FieldWords(inv))) else Err(TooShort)
    ensures r.Ok? <==> |inv.words| > 7 + 104
    ensures r.Ok? ==> r.value == WalkFinds(inv.words[7..|inv.words| - 104])
  {
    if |inv.words| <= TIMESTAMP_WORDS + SIG_WORDS {
      return Err(TooShort);
    }
    var dataWords := DataWords(inv);
    var i := TIMESTAMP_WORDS;
    while i + 3 <= |dataWords|
      invariant i >= TIMESTAMP_WORDS
      invariant WalkFinds(FieldWords(inv)) == (i <= |dataWords| && WalkFinds(dataWords[i..]))
      decreases |dataWords| - i
    {
      var len := (dataWords[i + 1] as int) * 32 + dataWords[i + 2] as int;
      if dataWords[i] == ROUTING_TAG_TYPE {
        return Ok(true);
      }
      assert TagLength(dataWords[i..]) == len;
      if i + 3 + len <= |dataWords| {
        assert dataWords[i..][3 + len..] == dataWords[i + 3 + len..];
      }
      i := i + 3 + len;
    }
    return Ok(false);
  }

  // ---------------------------------------------------------------- hints

  datatype Hint = Hint(srcNodeId: Bytes, scid: int, feeBaseMsat: int, feeProportional: int, cltvDelta: int)

  function Pow256(n: nat): nat {
    if n == 0 then 1 else 256 * Pow256(n - 1)
  }

  /** The low `n` bytes of a number, most significant first. */
  function BigEndian(v: int, n: nat): Bytes
    decreases n, v
  {
    if n == 0 then [] else BigEndian(v / 256, n - 1) + [v % 256]
  }

  function FromBigEndian(bs: Bytes): nat {
    if bs == [] then 0 else 256 * FromBigEndian(bs[..|bs| - 1]) + bs[|bs| - 1]
  }

  lemma {:induction false} BigEndianRoundTrip(v: int, n: nat)
    ensures |BigEndian(v, n)| == n && Pow256(n) > 0
    ensures FromBigEndian(BigEndian(v, n)) == v % Pow256(n)
    ensures n > 0 ==> BigEndian(v, n)[n - 1] == v % 256
    decreases n
  {
    if n > 0 {
      BigEndianRoundTrip(v / 256, n - 1);
      var bs := BigEndian(v, n);
      assert bs[..n - 1] == BigEndian(v / 256, n - 1);
      RemainderStep(v, Pow256(n - 1));
    }
  }

  lemma RemainderStep(v: int, p: int)
    requires p > 0
    ensures v % (256 * p) == 256 * (v / 256 % p) + v % 256
  {
    var w := v / 256;
    var q := w / p;
    assert w == q * p + w % p;
    assert q * (256 * p) == 256 * (q * p);
    DivMod(v, q, 256 * p, 256 * (w % p) + v % 256);
  }

  /** The values that fit their fields. */
  predicate InRange(h: Hint) {
    && 0 <= h.scid < Pow256(SCID_BYTES) && 0 <= h.feeBaseMsat < Pow256(FEE_BYTES)
    && 0 <= h.feeProportional < Pow256(FEE_BYTES) && 0 <= h.cltvDelta < Pow256(CLTV_BYTES)
  }

  function HintPayload(h: Hint): Bytes {
    h.srcNodeId + BigEndian(h.scid, SCID_BYTES) + BigEndian(h.feeBaseMsat, FEE_BYTES)
    + BigEndian(h.feeProportional, FEE_BYTES) + BigEndian(h.cltvDelta, CLTV_BYTES)
  }

  function DecodeHint(p: Bytes): Hint
    requires |p| == HINT_BYTES
  {
    Hint(p[..33], FromBigEndian(p[33..41]), FromBigEndian(p[41..45]),
         FromBigEndian(p[45..49]), FromBigEndian(p[49..51]))
  }

  lemma FiveParts(id: Bytes, a: Bytes, b: Bytes, c: Bytes, d: Bytes)
    requires |id| == 33 && |a| == 8 && |b| == 4 && |c| == 4 && |d| == 2
    ensures var p := id + a + b + c + d;
            |p| == 51 && p[..33] == id && p[33..41] == a && p[41..45] == b && p[45..49] == c && p[49..51] == d
  {
  }

  lemma PayloadParts(h: Hint)
    requires |h.srcNodeId| == NODE_ID_BYTES
    ensures var p := HintPayload(h);
            && |p| == HINT_BYTES && p[..33] == h.srcNodeId
            && p[33..41] == BigEndian(h.scid, SCID_BYTES) && p[41..45] == BigEndian(h.feeBaseMsat, FEE_BYTES)
            && p[45..49] == BigEndian(h.feeProportional, FEE_BYTES) && p[49..51] == BigEndian(h.cltvDelta, CLTV_BYTES)
  {
    var a, b, c, d := BigEndian(h.scid, SCID_BYTES), BigEndian(h.feeBaseMsat, FEE_BYTES),
      BigEndian(h.feeProportional, FEE_BYTES), BigEndian(h.cltvDelta, CLTV_BYTES);
    BigEndianRoundTrip(h.scid, SCID_BYTES);
    BigEndianRoundTrip(h.feeBaseMsat, FEE_BYTES);
    BigEndianRoundTrip(h.feeProportional, FEE_BYTES);
    BigEndianRoundTrip(h.cltvDelta, CLTV_BYTES);
    FiveParts(h.srcNodeId, a, b, c, d);
  }

  lemma ModExactly(v: int, n: int)
    requires n > 0
    ensures v % n == v <==> 0 <= v < n
  {
    if 0 <= v < n {
      DivMod(v, 0, n, v);
    }
  }

  lemma FieldRanges()
    ensures Pow256(CLTV_BYTES) == 0x1_0000 && Pow256(FEE_BYTES) == 0x1_0000_0000
    ensures Pow256(SCID_BYTES) == 0x1_0000_0000_0000_0000
  {
    assert Pow256(2) == 0x1_0000;
    assert Pow256(4) == 256 * (256 * Pow256(2));
    assert Pow256(6) == 256 * (256 * Pow256(4));
    assert Pow256(8) == 256 * (256 * Pow256(6));
  }

  /** A payload decodes to its hint exactly when every value fits its field. */
  lemma HintRoundTrip(h: Hint)
    requires |h.srcNodeId| == NODE_ID_BYTES
    ensures var p := HintPayload(h);
            && |p| == 51 && p[..33] == h.srcNodeId
            && FromBigEndian(p[33..41]) == h.scid % 0x1_0000_0000_0000_0000
            && FromBigEndian(p[41..45]) == h.feeBaseMsat % 0x1_0000_0000
            && FromBigEndian(p[45..49]) == h.feeProportional % 0x1_0000_0000
            && FromBigEndian(p[49..51]) == h.cltvDelta % 0x1_0000
    ensures DecodeHint(HintPayload(h)) == h <==> InRange(h)
  {
    PayloadParts(h);
    FieldRanges();
    BigEndianRoundTrip(h.scid, SCID_BYTES);
    BigEndianRoundTrip(h.feeBaseMsat, FEE_BYTES);
    BigEndianRoundTrip(h.feeProportional, FEE_BYTES);
    BigEndianRoundTrip(h.cltvDelta, CLTV_BYTES);
    ModExactly(h.scid, Pow256(SCID_BYTES));
    ModExactly(h.feeBaseMsat, Pow256(FEE_BYTES));
    ModExactly(h.feeProportional, Pow256(FEE_BYTES));
    ModExactly(h.cltvDelta, Pow256(CLTV_BYTES));
  }

  /** Fills `byteLen` bytes of the buffer from the last to the first. */
  method WriteUIntBE(target: array<byte>, valueIn: int, offset: nat, byteLen: nat)
    requires offset + byteLen <= target.Length
    modifies target
    ensures target[..offset] == old(target[..offset])
    ensures target[offset + byteLen..] == old(target[offset + byteLen..])
    ensures target[offset..offset + byteLen] == BigEndian(valueIn, byteLen)
  {
    var value, i: nat := valueIn, byteLen;
    while i > 0
      invariant i <= byteLen
      invariant BigEndian(valueIn, byteLen) == BigEndian(value, i) + target[offset + i..offset + byteLen]
      invariant target[..offset] == old(target[..offset])
      invariant target[offset + byteLen..] == old(target[offset + byteLen..])
    {
      i := i - 1;
      ghost var done := target[offset + i + 1..offset + byteLen];
      target[offset + i] := value % 256;
      assert target[offset + i..offset + byteLen] == [value % 256] + done;
      Assoc(BigEndian(value / 256, i), [value % 256], done);
      value := value / 256;
    }
    assert BigEndian(value, 0) == [];
  }

  // ---------------------------------------------------------------- routing tags

  /** The routing field that carries a hint. */
  function RoutingTag(h: Hint): (t: Tagged)
    requires |h.srcNodeId| == NODE_ID_BYTES
    ensures |t.payload| == 82
  {
    RoutingWords(h);
    Tagged(ROUTING_TAG_TYPE, Rebase(HintPayload(h), 8, 5))
  }

  /** What a payer reads back from a routing field. */
  function TagHint(t: Tagged): Option<Hint> {
    var bytes := Rebase(t.payload, 5, 8);
    if |bytes| < HINT_BYTES || exists i :: 0 <= i < |bytes| && bytes[i] >= 256 then None
    else Some(DecodeHint(bytes[..HINT_BYTES]))
  }

  lemma DigitsAreBytes(bs: Bytes, k: nat)
    requires k == 8
    ensures Digits(bs, k)
  {
    DigitSizes();
  }

  lemma DigitsAreWords(ws: seq<nat>, k: nat)
    requires k == 5 && Digits(ws, k)
    ensures forall i :: 0 <= i < |ws| ==> ws[i] < 32
  {
    DigitSizes();
  }

  lemma RoutingWords(h: Hint)
    requires |h.srcNodeId| == NODE_ID_BYTES
    ensures var ws := Rebase(HintPayload(h), 8, 5);
            && |ws| == 82 && (forall i :: 0 <= i < |ws| ==> ws[i] < 32)
            && Rebase(ws, 5, 8) == HintPayload(h) + [0]
  {
    PayloadParts(h);
    DigitsAreBytes(HintPayload(h), 8);
    PackUnpack(HintPayload(h), 8, 5);
    ThereAndBack(HintPayload(h), 8, 5);
    DigitsAreWords(Rebase(HintPayload(h), 8, 5), 5);
  }

  /** The field of a hint is read back as that hint exactly when the hint's values fit. */
  lemma RoutingTagRoundTrip(h: Hint)
    requires |h.srcNodeId| == NODE_ID_BYTES
    ensures RoutingTag(h).kind == ROUTING_TAG_TYPE
    ensures TagHint(RoutingTag(h)) == Some(h) <==> InRange(h)
  {
    RoutingWords(h);
    HintRoundTrip(h);
    var p := HintPayload(h);
    assert (p + [0])[..HINT_BYTES] == p;
  }

  method BuildPayload(hint: Hint) returns (p: Bytes)
    requires |hint.srcNodeId| == NODE_ID_BYTES
    ensures p == HintPayload(hint)
  {
    var payload := new byte[51](_ => 0);
    forall i | 0 <= i < 33 {
      payload[i] := hint.srcNodeId[i];
    }
    assert payload[..33] == hint.srcNodeId;
    WriteUIntBE(payload, hint.scid, 33, SCID_BYTES);
    ghost var a := payload[..41];
    assert a == payload[..33] + payload[33..41];
    WriteUIntBE(payload, hint.feeBaseMsat, 41, FEE_BYTES);
    ghost var b := payload[..45];
    assert b == a + payload[41..45];
    WriteUIntBE(payload, hint.feeProportional, 45, FEE_BYTES);
    ghost var c := payload[..49];
    assert c == b + payload[45..49];
    WriteUIntBE(payload, hint.cltvDelta, 49, CLTV_BYTES);
    p := payload[..];
    assert p == c + payload[49..51];
  }

  method EncodeRoutingTag(hint: Hint) returns (r: Result<Words, Error>)
    ensures r == if |hint.srcNodeId| == NODE_ID_BYTES then Ok(TagWords(RoutingTag(hint))) else Err(BadNodeId)
    ensures r.Ok? ==> |r.value| == 85 && r.value[..3] == [3, 2, 18] && r.value[3..] == Rebase(HintPayload(hint), 8, 5)
  {
    if |hint.srcNodeId| != NODE_ID_BYTES {
      return Err(BadNodeId);
    }
    var payload := BuildPayload(hint);
    RoutingWords(hint);
    var dataWords: Words := BytesToWordsPadded(payload);
    assert dataWords == RoutingTag(hint).payload;
    return Ok([ROUTING_TAG_TYPE, |dataWords| / 32, |dataWords| % 32] + dataWords);
  }

  // ---------------------------------------------------------------- appending

  type Signature = s: Bytes | |s| == 65 witness seq(65, _ => 0)

  predicate NodeIdsOk(hints: seq<Hint>) {
    forall i :: 0 <= i < |hints| ==> |hints[i].srcNodeId| == NODE_ID_BYTES
  }

  function RoutingTags(hints: seq<Hint>): (ts: seq<Tagged>)
    requires NodeIdsOk(hints)
  {
    seq(|hints|, i requires 0 <= i < |hints| => RoutingTag(hints[i]))
  }

  predicate ShortTags(ts: seq<Tagged>) {
    forall i :: 0 <= i < |ts| ==> |ts[i].payload| < 1024
  }

  /** The words of a list of fields. */
  function AllWords(ts: seq<Tagged>): Words
    requires ShortTags(ts)
  {
    if ts == [] then [] else AllWords(ts[..|ts| - 1]) + TagWords(ts[|ts| - 1])
  }

  lemma {:induction false} AllWordsParse(ts: seq<Tagged>)
    requires ShortTags(ts)
    ensures ParseTags(AllWords(ts)) == Some(ts)
    decreases |ts|
  {
    if ts != [] {
      var init, t := ts[..|ts| - 1], ts[|ts| - 1];
      AllWordsParse(init);
      ParseCons(t, []);
      assert TagWords(t) + [] == TagWords(t) && [t] + [] == [t];
      ParseTagsConcat(AllWords(init), TagWords(t));
      assert init + [t] == ts;
    }
  }

  /** The words of the routing fields, in the order of the hints. */
  function HintWords(hints: seq<Hint>): Words
    requires NodeIdsOk(hints)
  {
    AllWords(RoutingTags(hints))
  }

  /** The bytes of a packed signature, in wire order. */
  function SigBytes(sigWords: Words): Signature
    requires |sigWords| == SIG_WORDS
  {
    BytesOf(sigWords);
    DigitSizes();
    UnpackPack(sigWords, 5, 8);
    Rebase(sigWords, 5, 8)
  }

  lemma BytesOf(ws: Words)
    ensures forall i :: 0 <= i < |Rebase(ws, 5, 8)| ==> Rebase(ws, 5, 8)[i] < 256
  {
    RegroupDigits(Concat(ws, 5), 8);
    DigitSizes();
  }

  /** What is signed: the prefix and the zero-padded data part. */
  function Message(hrp: Bytes, dataWords: Words): Bytes {
    BytesOf(dataWords);
    hrp + Rebase(dataWords, 5, 8)
  }

  /** The signer returns the recovery id first; the wire wants it last. */
  function WireOrder(sig: Signature): Signature {
    sig[1..] + [sig[0]]
  }

  lemma SignatureWords(sig: Signature)
    ensures var ws := Rebase(sig, 8, 5);
            && |ws| == SIG_WORDS && (forall i :: 0 <= i < |ws| ==> ws[i] < 32)
            && Rebase(ws, 5, 8) == sig
  {
    DigitsAreBytes(sig, 8);
    SignatureIsExact(sig, 8, 5);
    ThereAndBack(sig, 8, 5);
    DigitsAreWords(Rebase(sig, 8, 5), 5);
  }

  /** The data part of an invoice with hints appended. */
  function NewData(inv: Invoice, hints: seq<Hint>): Words
    requires LongEnough(inv) && NodeIdsOk(hints)
  {
    DataWords(inv) + HintWords(hints)
  }

  function Signed(hrp: Bytes, data: Words, sign: Bytes -> Signature): Invoice {
    SignatureWords(WireOrder(sign(Message(hrp, data))));
    Invoice(hrp, data + Rebase(WireOrder(sign(Message(hrp, data))), 8, 5))
  }

  /** Recovers a key from a message, the 64 bytes of a signature, and its recovery id. */
  type Recovery = (Bytes, Bytes, byte) -> Bytes

  function Recovered(m: Bytes, wire: Signature, recover: Recovery): Bytes {
    recover(m, wire[..64], wire[64])
  }

  /** The key the invoice's own signature recovers to. */
  function Payee(inv: Invoice, recover: Recovery): Bytes
    requires LongEnough(inv)
  {
    Recovered(Message(inv.hrp, DataWords(inv)), SigBytes(SigWords(inv)), recover)
  }

  predicate RecoversTo(hrp: Bytes, data: Words, sign: Bytes -> Signature, recover: Recovery, key: Bytes) {
    var m := Message(hrp, data);
    Recovered(m, WireOrder(sign(m)), recover) == key
  }

  /** The signer and the recovery fit together: the signer puts the recovery id in front of the 64 bytes. */
  ghost predicate Scheme(sign: Bytes -> Signature, recover: Recovery, key: Bytes) {
    forall m :: recover(m, sign(m)[1..], sign(m)[0]) == key
  }

  /** With such a scheme the check after signing never fails, and the new invoice again belongs to the key. */
  lemma SchemeRecovers(hrp: Bytes, data: Words, sign: Bytes -> Signature, recover: Recovery, key: Bytes)
    requires Scheme(sign, recover, key) && |data| > TIMESTAMP_WORDS
    ensures RecoversTo(hrp, data, sign, recover, key)
    ensures LongEnough(Signed(hrp, data, sign)) && Payee(Signed(hrp, data, sign), recover) == key
  {
    var m := Message(hrp, data);
    assert WireOrder(sign(m))[..64] == sign(m)[1..];
    SignedParts(hrp, data, sign);
  }

  /** The prefix comes first, and the rest unpacks to the data words. */
  predicate Commits(m: Bytes, hrp: Bytes, data: Words) {
    hrp <= m && data <= Rebase(m[|hrp|..], 8, 5)
  }

  lemma MessageCommits(hrp: Bytes, data: Words)
    ensures Commits(Message(hrp, data), hrp, data)
  {
    DigitSizes();
    BytesOf(data);
    ThereAndBack(data, 5, 8);
    assert Message(hrp, data)[|hrp|..] == Rebase(data, 5, 8);
  }

  /** Messages of equal shape are equal only for the same prefix and the same data. */
  lemma MessageInjective(hrp: Bytes, data: Words, hrp': Bytes, data': Words)
    requires |hrp| == |hrp'| && |data| == |data'| && Message(hrp, data) == Message(hrp', data')
    ensures hrp == hrp' && data == data'
  {
    MessageCommits(hrp, data);
    MessageCommits(hrp', data');
  }

  predicate Fits(inv: Invoice) {
    |inv.hrp| + 7 + |inv.words| <= LIMIT
  }

  lemma HintWordsNext(hints: seq<Hint>, i: nat)
    requires i < |hints| && NodeIdsOk(hints[..i]) && |hints[i].srcNodeId| == NODE_ID_BYTES
    ensures NodeIdsOk(hints[..i + 1])
    ensures HintWords(hints[..i + 1]) == HintWords(hints[..i]) + TagWords(RoutingTag(hints[i]))
  {
    var ts, t := RoutingTags(hints[..i]), RoutingTag(hints[i]);
    assert hints[..i + 1] == hints[..i] + [hints[i]];
    assert RoutingTags(hints[..i + 1]) == ts + [t];
    assert (ts + [t])[..|ts|] == ts;
  }

  method AppendTags(dataWords: Words, hints: seq<Hint>) returns (r: Result<Words, Error>)
    ensures r == if NodeIdsOk(hints) then Ok(dataWords + HintWords(hints)) else Err(BadNodeId)
  {
    var newData := dataWords;
    for i := 0 to |hints|
      invariant NodeIdsOk(hints[..i]) && newData == dataWords + HintWords(hints[..i])
    {
      var tag := EncodeRoutingTag(hints[i]);
      if tag.Err? {
        return Err(BadNodeId);
      }
      HintWordsNext(hints, i);
      Assoc(dataWords, HintWords(hints[..i]), TagWords(RoutingTag(hints[i])));
      newData := newData + tag.value;
    }
    assert hints[..|hints|] == hints;
    return Ok(newData);
  }

  method SigningMessage(hrp: Bytes, dataWords: Words) returns (m: Bytes)
    ensures m == Message(hrp, dataWords) && Commits(m, hrp, dataWords)
  {
    MessageCommits(hrp, dataWords);
    BytesOf(dataWords);
    var dataBytes: Bytes := WordsToBytesPadded(dataWords);
    return hrp + dataBytes;
  }

  method RecoverPayee(m: Bytes, sigWords: Words, recover: Recovery) returns (key: Bytes)
    requires |sigWords| == SIG_WORDS
    ensures key == Recovered(m, SigBytes(sigWords), recover)
  {
    BytesOf(sigWords);
    var bytes: Bytes := WordsToBytesPadded(sigWords);
    assert bytes == SigBytes(sigWords);
    return recover(m, bytes[..64], bytes[64]);
  }

  /** Signs the data part and refuses a signature that does not recover to the given key. */
  method Resign(hrp: Bytes, data: Words, key: Bytes, sign: Bytes -> Signature, recover: Recovery)
    returns (r: Result<Invoice, Error>)
    ensures r == if !RecoversTo(hrp, data, sign, recover, key) then Err(SelfCheckFailed)
                 else if !Fits(Signed(hrp, data, sign)) then Err(TooLong)
                 else Ok(Signed(hrp, data, sign))
    ensures r.Ok? ==> r.value.hrp == hrp && data <= r.value.words && |hrp| + 7 + |r.value.words| <= 10_000
    ensures r == Err(TooLong) ==> |hrp| + 7 + |data| + 104 > 10_000
  {
    var m := SigningMessage(hrp, data);
    var sig: Signature := WireOrder(sign(m));
    SignatureWords(sig);
    var newSigWords: Words := BytesToWordsPadded(sig);
    assert SigBytes(newSigWords) == sig;
    var recovered := RecoverPayee(m, newSigWords, recover);
    if recovered != key {
      return Err(SelfCheckFailed);
    }
    if |hrp| + 7 + |data + newSigWords| > LIMIT {
      return Err(TooLong);
    }
    return Ok(Invoice(hrp, data + newSigWords));
  }

  method AppendRouteHints(inv: Invoice, hints: seq<Hint>, ourPubkey: Bytes,
                          sign: Bytes -> Signature, recover: Recovery)
    returns (r: Result<Invoice, Error>)
    ensures r == if hints == [] then Err(NoHints)
                 else if !LongEnough(inv) then Err(TooShort)
                 else if Payee(inv, recover) != ourPubkey then Err(PayeeMismatch)
                 else if !NodeIdsOk(hints) then Err(BadNodeId)
                 else if !RecoversTo(inv.hrp, NewData(inv, hints), sign, recover, ourPubkey) then Err(SelfCheckFailed)
                 else if !Fits(Signed(inv.hrp, NewData(inv, hints), sign)) then Err(TooLong)
                 else Ok(Signed(inv.hrp, NewData(inv, hints), sign))
  {
    if |hints| == 0 {
      return Err(NoHints);
    }
    if |inv.words| <= TIMESTAMP_WORDS + SIG_WORDS {
      return Err(TooShort);
    }
    var message := SigningMessage(inv.hrp, DataWords(inv));
    var originalPayee := RecoverPayee(message, SigWords(inv), recover);
    if originalPayee != ourPubkey {
      return Err(PayeeMismatch);
    }
    var newData := AppendTags(DataWords(inv), hints);
    if newData.Err? {
      return Err(newData.error);
    }
    r := Resign(inv.hrp, newData.value, ourPubkey, sign, recover);
  }

  /**
    Appending hints to a well-formed invoice keeps every original word of the data part, parses as the
    original fields followed by one routing field for each hint, and makes a routing tag visible.
   */
  lemma AppendedInvoice(inv: Invoice, hints: seq<Hint>, sign: Bytes -> Signature)
    requires LongEnough(inv) && WellFormed(FieldWords(inv)) && hints != [] && NodeIdsOk(hints)
    ensures var out := Signed(inv.hrp, NewData(inv, hints), sign);
            && LongEnough(out)
            && DataWords(inv) <= DataWords(out)
            && ParseTags(FieldWords(out)) == Some(ParseTags(FieldWords(inv)).value + RoutingTags(hints))
            && WalkFinds(FieldWords(out))
            && SigBytes(SigWords(out)) == WireOrder(sign(Message(out.hrp, DataWords(out))))
            && out.hrp == inv.hrp && Commits(Message(out.hrp, DataWords(out)), out.hrp, DataWords(out))
    ensures forall i :: 0 <= i < |hints| ==>
              (TagHint(RoutingTags(hints)[i]) == Some(hints[i]) <==> InRange(hints[i]))
  {
    SignedParts(inv.hrp, NewData(inv, hints), sign);
    MessageCommits(inv.hrp, NewData(inv, hints));
    AppendedParses(inv, RoutingTags(hints), Signed(inv.hrp, NewData(inv, hints), sign));
    forall i | 0 <= i < |hints|
      ensures TagHint(RoutingTags(hints)[i]) == Some(hints[i]) <==> InRange(hints[i])
    {
      RoutingTagRoundTrip(hints[i]);
    }
  }

  // Appending fields, the first of them a routing tag, to well-formed words.
  lemma FieldsAppended(before: Words, tags: seq<Tagged>)
    requires WellFormed(before) && ShortTags(tags) && tags != [] && tags[0].kind == ROUTING_TAG_TYPE
    ensures ParseTags(before + AllWords(tags)) == Some(ParseTags(before).value + tags)
    ensures WalkFinds(before + AllWords(tags))
  {
    AllWordsParse(tags);
    ParseTagsConcat(before, AllWords(tags));
    WalkFindsRoutingTag(before + AllWords(tags));
    var fs := ParseTags(before).value;
    assert (fs + tags)[|fs|] == tags[0];
  }

  // Signing puts exactly the signature's words behind the data part.
  lemma SignedParts(hrp: Bytes, data: Words, sign: Bytes -> Signature)
    requires |data| > TIMESTAMP_WORDS
    ensures var out := Signed(hrp, data, sign);
            && LongEnough(out) && out.hrp == hrp && DataWords(out) == data
            && SigBytes(SigWords(out)) == WireOrder(sign(Message(hrp, data)))
  {
    var sig := WireOrder(sign(Message(hrp, data)));
    SignatureWords(sig);
    assert SigWords(Signed(hrp, data, sign)) == Rebase(sig, 8, 5);
  }

  lemma AppendedParses(inv: Invoice, tags: seq<Tagged>, out: Invoice)
    requires LongEnough(inv) && WellFormed(FieldWords(inv)) && ShortTags(tags) && LongEnough(out)
    requires tags != [] && tags[0].kind == ROUTING_TAG_TYPE
    requires DataWords(out) == DataWords(inv) + AllWords(tags)
    ensures DataWords(inv) <= DataWords(out)
    ensures ParseTags(FieldWords(out)) == Some(ParseTags(FieldWords(inv)).value + tags)
    ensures WalkFinds(FieldWords(out))
  {
    var a, b := DataWords(inv), AllWords(tags);
    assert (a + b)[TIMESTAMP_WORDS..] == a[TIMESTAMP_WORDS..] + b;
    FieldsAppended(FieldWords(inv), tags);
  }
}
