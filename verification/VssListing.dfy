/** The listing of keys and versions a storage server answers with, decoded field by field. */
module VssListing {
  import opened Wrappers
  import opened Sequences
  import opened Varints
  import opened VssProtobuf

  datatype Listing = Listing(keyVersions: seq<KeyValue>, nextPageToken: Option<Bytes>, globalVersion: Option<nat>)

  const NOTHING_LISTED := Listing([], None, None)

  /** Repeated records accumulate in order; a malformed one fails the whole listing. */
  function AssignListing(l: Listing, f: Field): Result<Listing, Error> {
    if f.num == 1 && f.payload.PLen? then
      match Decoded(f.payload.data)
      case Ok(kv) => Ok(l.(keyVersions := l.keyVersions + [kv]))
      case Err(e) => Err(e)
    else if f.num == 2 && f.payload.PLen? then Ok(l.(nextPageToken := Some(f.payload.data)))
    else if f.num == 3 && f.payload.PVarint? then Ok(l.(globalVersion := Some(f.payload.u)))
    else Ok(l)
  }

  function DecodedListing(l: Listing, s: Bytes): Result<Listing, Error>
    decreases |s|
  {
    if s == [] then Ok(l)
    else
      match ParseField(s)
      case Bad(e) => Err(e)
      case Next(f, rest) =>
        ParseFieldShrinks(s);
        match AssignListing(l, f)
        case Err(e) => Err(e)
        case Ok(l') => DecodedListing(l', rest)
  }

  /** One round of the listing loop. */
  method TakeListingField(reader: Reader, l: Listing) returns (r: Result<Listing, Error>)
    modifies reader
    ensures match ParseField(old(reader.Remaining()))
            case Next(f, rest) => r == AssignListing(l, f) && reader.Remaining() == rest
            case Bad(e) => r == Err(e)
  {
    var tag := reader.TakeTag();
    if tag.Err? {
      return Err(tag.error);
    }
    var Tag(field, wire) := tag.value;
    if field == 1 && wire == WIRE_LEN {
      var d := reader.TakeBytes();
      if d.Err? {
        return Err(d.error);
      }
      var kv := DecodeKeyValue(d.value);
      return if kv.Ok? then Ok(l.(keyVersions := l.keyVersions + [kv.value])) else Err(kv.error);
    } else if field == 2 && wire == WIRE_LEN {
      var d := reader.TakeBytes();
      return if d.Ok? then Ok(l.(nextPageToken := Some(d.value))) else Err(d.error);
    } else if field == 3 && wire == WIRE_VARINT {
      var v := reader.TakeVarint();
      return if v.Ok? then Ok(l.(globalVersion := Some(v.value))) else Err(v.error);
    }
    var skipped := reader.Skip(tag.value);
    return if skipped.Ok? then Ok(l) else Err(skipped.error);
  }

  method DecodeListKeyVersions(buf: Bytes) returns (r: Result<Listing, Error>)
    ensures r == DecodedListing(NOTHING_LISTED, buf)
  {
    var reader := new Reader(buf);
    var l := NOTHING_LISTED;
    while !reader.Eof()
      invariant fresh(reader)
      invariant DecodedListing(NOTHING_LISTED, buf) == DecodedListing(l, reader.Remaining())
      decreases |reader.Remaining()|
    {
      ParseFieldShrinks(reader.Remaining());
      var step := TakeListingField(reader, l);
      if step.Err? {
        return Err(step.error);
      }
      l := step.value;
    }
    return Ok(l);
  }

  predicate AllInt64(kvs: seq<KeyValue>) {
    forall i :: 0 <= i < |kvs| ==> Int64(kvs[i].version)
  }

  function KvItem(kv: KeyValue): Bytes
    requires Int64(kv.version)
  {
    LenField(1, Wires(KvFields(kv))).OnWire()
  }

  /** The records of a listing as the server sends them. */
  function ListingWire(kvs: seq<KeyValue>): Bytes
    requires AllInt64(kvs)
  {
    if kvs == [] then [] else KvItem(kvs[0]) + ListingWire(kvs[1..])
  }

  lemma KvItemStep(l: Listing, kv: KeyValue, t: Bytes)
    requires Int64(kv.version)
    ensures DecodedListing(l, KvItem(kv) + t) == DecodedListing(Appended(l, [kv]), t)
  {
    var data := Wires(KvFields(kv));
    LenFieldMeaning(1, data);
    KeyValueRoundTrip(kv);
    ParseRawField(LenField(1, data), t);
    assert LenField(1, data).tag != [];
    assert LenField(1, data).OnWire() + t != [];
  }

  /** A record that does not decode fails the whole listing, whatever else it holds. */
  lemma MalformedRecordFails(l: Listing, data: Bytes, e: Error, t: Bytes)
    requires Decoded(data) == Err(e)
    ensures DecodedListing(l, LenField(1, data).OnWire() + t) == Err(e)
  {
    LenFieldMeaning(1, data);
    ParseRawField(LenField(1, data), t);
    assert LenField(1, data).tag != [];
    assert LenField(1, data).OnWire() + t != [];
  }

  function Appended(l: Listing, kvs: seq<KeyValue>): Listing {
    l.(keyVersions := l.keyVersions + kvs)
  }

  lemma AppendedStep(l: Listing, kvs: seq<KeyValue>)
    requires kvs != []
    ensures Appended(Appended(l, [kvs[0]]), kvs[1..]) == Appended(l, kvs)
  {
    assert l.keyVersions + [kvs[0]] + kvs[1..] == l.keyVersions + kvs;
  }

  /** Records at the front of a listing are decoded in order; the rest follows. */
  lemma {:induction false} ListingRoundTrip(l: Listing, kvs: seq<KeyValue>, t: Bytes)
    requires AllInt64(kvs)
    ensures DecodedListing(l, ListingWire(kvs) + t) == DecodedListing(Appended(l, kvs), t)
    decreases |kvs|
  {
    if kvs == [] {
      assert l.keyVersions + [] == l.keyVersions && [] + t == t;
    } else {
      Assoc(KvItem(kvs[0]), ListingWire(kvs[1..]), t);
      KvItemStep(l, kvs[0], ListingWire(kvs[1..]) + t);
      ListingRoundTrip(Appended(l, [kvs[0]]), kvs[1..], t);
      AppendedStep(l, kvs);
    }
  }

  // Tag 18 is field 2, length-delimited; tag 24 is field 3, a varint.
  function TokenWire(token: Option<Bytes>): Bytes {
    match token
    case Some(tok) => [18] + Varint(|tok|) + tok
    case None => []
  }

  function VersionWire(version: Option<nat>): Bytes {
    match version
    case Some(v) => [24] + Varint(v)
    case None => []
  }

  /** Whatever was read before, a page token replaces the one of the listing, and nothing else. */
  lemma TokenStep(l: Listing, tok: Bytes, t: Bytes)
    ensures DecodedListing(l, TokenWire(Some(tok)) + t) == DecodedListing(l.(nextPageToken := Some(tok)), t)
  {
    var f := LenField(2, tok);
    LenFieldMeaning(2, tok);
    ParseRawField(f, t);
    assert f.tag == [18];
    Assoc([18], Varint(|tok|), tok);
    assert f.OnWire() == TokenWire(Some(tok));
    assert f.OnWire() + t != [];
  }

  lemma VersionStep(l: Listing, v: nat, t: Bytes)
    ensures DecodedListing(l, VersionWire(Some(v)) + t) == DecodedListing(l.(globalVersion := Some(v)), t)
  {
    var f := RawField([24], RVarint(Varint(v)));
    VarintRoundTrip(24);
    VarintRoundTrip(v);
    assert Varint(24) == [24];
    ParseRawField(f, t);
    assert f.OnWire() + t != [];
  }

  /** A whole response decodes to what was sent; a page token or a version that was not sent is absent. */
  lemma ResponseRoundTrip(kvs: seq<KeyValue>, token: Option<Bytes>, version: Option<nat>)
    requires AllInt64(kvs)
    ensures DecodedListing(NOTHING_LISTED, ListingWire(kvs) + (TokenWire(token) + VersionWire(version)))
            == Ok(Listing(kvs, token, version))
  {
    var l := Listing(kvs, None, None);
    assert Appended(NOTHING_LISTED, kvs) == l;
    ListingRoundTrip(NOTHING_LISTED, kvs, TokenWire(token) + VersionWire(version));
    if token.Some? {
      TokenStep(l, token.value, VersionWire(version));
    } else {
      assert [] + VersionWire(version) == VersionWire(version);
    }
    if version.Some? {
      VersionStep(l.(nextPageToken := token), version.value, []);
      assert VersionWire(version) + [] == VersionWire(version);
    }
  }

  /** The fields of a response, in whatever order they come. */
  datatype Part = Record(kv: KeyValue) | Token(tok: Bytes) | Version(v: nat) | Foreign(field: RawField)

  predicate Sendable(part: Part) {
    match part
    case Record(kv) => Int64(kv.version)
    case Foreign(f) => f.WellFormed() && f.Meaning().num !in {1, 2, 3}
    case _ => true
  }

  predicate AllSendable(parts: seq<Part>) {
    forall i :: 0 <= i < |parts| ==> Sendable(parts[i])
  }

  function PartWire(part: Part): Bytes
    requires Sendable(part)
  {
    match part
    case Record(kv) => KvItem(kv)
    case Token(tok) => TokenWire(Some(tok))
    case Version(v) => VersionWire(Some(v))
    case Foreign(f) => f.OnWire()
  }

  function PartsWire(parts: seq<Part>): Bytes
    requires AllSendable(parts)
  {
    if parts == [] then [] else PartWire(parts[0]) + PartsWire(parts[1..])
  }

  function Records(parts: seq<Part>): seq<KeyValue> {
    if parts == [] then []
    else (if parts[0].Record? then [parts[0].kv] else []) + Records(parts[1..])
  }

  lemma ForeignStep(l: Listing, f: RawField, t: Bytes)
    requires f.WellFormed() && f.Meaning().num !in {1, 2, 3}
    ensures DecodedListing(l, f.OnWire() + t) == DecodedListing(l, t)
  {
    ParseRawField(f, t);
    assert f.tag != [];
    assert f.OnWire() + t != [];
  }

  function After(l: Listing, part: Part): Listing {
    match part
    case Record(kv) => Appended(l, [kv])
    case Token(tok) => l.(nextPageToken := Some(tok))
    case Version(v) => l.(globalVersion := Some(v))
    case Foreign(_) => l
  }

  function AfterAll(l: Listing, parts: seq<Part>): Listing
    decreases |parts|
  {
    if parts == [] then l else AfterAll(After(l, parts[0]), parts[1..])
  }

  lemma PartStep(l: Listing, part: Part, t: Bytes)
    requires Sendable(part)
    ensures DecodedListing(l, PartWire(part) + t) == DecodedListing(After(l, part), t)
  {
    match part
    case Record(kv) => KvItemStep(l, kv, t);
    case Token(tok) => TokenStep(l, tok, t);
    case Version(v) => VersionStep(l, v, t);
    case Foreign(f) => ForeignStep(l, f, t);
  }

  lemma {:induction false} PartsDecoded(l: Listing, parts: seq<Part>)
    requires AllSendable(parts)
    ensures DecodedListing(l, PartsWire(parts)) == Ok(AfterAll(l, parts))
    decreases |parts|
  {
    if parts != [] {
      PartStep(l, parts[0], PartsWire(parts[1..]));
      PartsDecoded(After(l, parts[0]), parts[1..]);
    }
  }

  lemma {:induction false} RecordsKept(l: Listing, parts: seq<Part>)
    ensures AfterAll(l, parts).keyVersions == l.keyVersions + Records(parts)
    decreases |parts|
  {
    if parts != [] {
      RecordsKept(After(l, parts[0]), parts[1..]);
    }
  }

  lemma {:induction false} TokenKept(l: Listing, parts: seq<Part>)
    requires forall i :: 0 <= i < |parts| ==> !parts[i].Token?
    ensures AfterAll(l, parts).nextPageToken == l.nextPageToken
    decreases |parts|
  {
    if parts != [] {
      TokenKept(After(l, parts[0]), parts[1..]);
    }
  }

  lemma {:induction false} VersionKept(l: Listing, parts: seq<Part>)
    requires forall i :: 0 <= i < |parts| ==> !parts[i].Version?
    ensures AfterAll(l, parts).globalVersion == l.globalVersion
    decreases |parts|
  {
    if parts != [] {
      VersionKept(After(l, parts[0]), parts[1..]);
    }
  }

  lemma {:induction false} AfterSplit(l: Listing, a: seq<Part>, b: seq<Part>)
    ensures AfterAll(l, a + b) == AfterAll(AfterAll(l, a), b)
    decreases |a|
  {
    if a == [] {
      assert a + b == b;
    } else {
      assert (a + b)[0] == a[0] && (a + b)[1..] == a[1..] + b;
      AfterSplit(After(l, a[0]), a[1..], b);
    }
  }

  lemma SplitAt(l: Listing, parts: seq<Part>, i: nat)
    requires i < |parts|
    ensures AfterAll(l, parts) == AfterAll(After(AfterAll(l, parts[..i]), parts[i]), parts[i + 1..])
  {
    assert parts == parts[..i] + parts[i..];
    AfterSplit(l, parts[..i], parts[i..]);
    assert parts[i..][0] == parts[i] && parts[i..][1..] == parts[i + 1..];
  }

  /** Fields in any order give all records in order; what is neither of the three is ignored. */
  lemma AnyOrderDecodes(l: Listing, parts: seq<Part>)
    requires AllSendable(parts)
    ensures var r := DecodedListing(l, PartsWire(parts));
            && r.Ok? && r.value.keyVersions == l.keyVersions + Records(parts)
            && ((forall i :: 0 <= i < |parts| ==> !parts[i].Token?) ==> r.value.nextPageToken == l.nextPageToken)
            && ((forall i :: 0 <= i < |parts| ==> !parts[i].Version?) ==> r.value.globalVersion == l.globalVersion)
  {
    PartsDecoded(l, parts);
    RecordsKept(l, parts);
    if forall i :: 0 <= i < |parts| ==> !parts[i].Token? {
      TokenKept(l, parts);
    }
    if forall i :: 0 <= i < |parts| ==> !parts[i].Version? {
      VersionKept(l, parts);
    }
  }

  /** Of several page tokens, or several versions, the last one counts. */
  lemma LastOccurrenceWins(l: Listing, parts: seq<Part>, i: nat)
    requires AllSendable(parts) && i < |parts|
    ensures var r := DecodedListing(l, PartsWire(parts));
            && (parts[i].Token? && (forall j :: i < j < |parts| ==> !parts[j].Token?) ==>
                  r.Ok? && r.value.nextPageToken == Some(parts[i].tok))
            && (parts[i].Version? && (forall j :: i < j < |parts| ==> !parts[j].Version?) ==>
                  r.Ok? && r.value.globalVersion == Some(parts[i].v))
  {
    PartsDecoded(l, parts);
    SplitAt(l, parts, i);
    var l' := After(AfterAll(l, parts[..i]), parts[i]);
    if parts[i].Token? && forall j :: i < j < |parts| ==> !parts[j].Token? {
      TokenKept(l', parts[i + 1..]);
    }
    if parts[i].Version? && forall j :: i < j < |parts| ==> !parts[j].Version? {
      VersionKept(l', parts[i + 1..]);
    }
  }
}
