/**
  Splitting a payment over weighted destinations, and the sorted record list each part carries. Amounts
  and shares are real numbers, so fractional ones are covered and only binary rounding is left out.
 */
module Splits {
  import opened Wrappers
  import SortedKeys

  type Bytes = seq<int>

  datatype Number = Finite(value: real) | NotFinite

  datatype Error = BadAmount | BadShare | NoShares

  // ---------------------------------------------------------------- amounts

  function Sum(xs: seq<real>): real {
    if xs == [] then 0.0 else Sum(xs[..|xs| - 1]) + xs[|xs| - 1]
  }

  function Floor(x: real): real {
    x.Floor as real
  }

  /** A share's exact part of the amount. */
  function Part(amount: real, share: real, total: real): real
    requires total > 0.0
  {
    amount * share / total
  }

  function Parts(amount: real, shares: seq<real>, total: real): seq<real>
    requires total > 0.0
  {
    seq(|shares|, i requires 0 <= i < |shares| => Part(amount, shares[i], total))
  }

  function Floors(xs: seq<real>): seq<real> {
    seq(|xs|, i requires 0 <= i < |xs| => Floor(xs[i]))
  }

  predicate NonNegative(xs: seq<real>) {
    forall i :: 0 <= i < |xs| ==> xs[i] >= 0.0
  }

  /** The parts of a list of shares add up to the part of their sum. */
  lemma {:induction false} PartsAddUp(amount: real, shares: seq<real>, total: real)
    requires total > 0.0
    ensures Sum(Parts(amount, shares, total)) == Part(amount, Sum(shares), total)
    decreases |shares|
  {
    if shares != [] {
      var n := |shares| - 1;
      PartsAddUp(amount, shares[..n], total);
      assert Parts(amount, shares, total)[..n] == Parts(amount, shares[..n], total);
      assert amount * (Sum(shares[..n]) + shares[n]) == amount * Sum(shares[..n]) + amount * shares[n];
    }
  }

  lemma WholePart(amount: real, total: real)
    requires total > 0.0
    ensures Part(amount, total, total) == amount
  {
  }

  /** Rounding a list down loses less than one for each element. */
  lemma {:induction false} RoundingLoss(xs: seq<real>)
    ensures Sum(Floors(xs)) <= Sum(xs)
    ensures xs != [] ==> Sum(xs) < Sum(Floors(xs)) + |xs| as real
    decreases |xs|
  {
    if xs != [] {
      var n := |xs| - 1;
      RoundingLoss(xs[..n]);
      assert Floors(xs)[..n] == Floors(xs[..n]);
    }
  }

  lemma {:induction false} FloorsAreWhole(xs: seq<real>)
    ensures Floor(Sum(Floors(xs))) == Sum(Floors(xs))
    decreases |xs|
  {
    if xs != [] {
      var n := |xs| - 1;
      FloorsAreWhole(xs[..n]);
      assert Floors(xs)[..n] == Floors(xs[..n]);
      WholeSum(Sum(Floors(xs[..n])), xs[n].Floor);
    }
  }

  lemma WholeSum(a: real, k: int)
    requires Floor(a) == a
    ensures Floor(a + k as real) == a + k as real
  {
    assert a + k as real == (a.Floor + k) as real;
  }

  /** All but the last get their rounded part; the last gets the rest. */
  function Allocation(amount: real, shares: seq<real>): seq<real>
    requires shares != [] && Sum(shares) > 0.0
  {
    var floors := Floors(Parts(amount, shares, Sum(shares)));
    var init := floors[..|floors| - 1];
    init + [amount - Sum(init)]
  }

  /** What the destinations before the i-th are allocated. */
  function Before(amount: real, shares: seq<real>, i: nat): real
    requires i < |shares| && Sum(shares) > 0.0
  {
    Sum(Floors(Parts(amount, shares, Sum(shares)))[..i])
  }

  lemma AllocationAt(amount: real, shares: seq<real>, i: nat)
    requires i < |shares| && Sum(shares) > 0.0
    ensures var r := Allocation(amount, shares);
            && |r| == |shares|
            && (i == |shares| - 1 ==> r[i] == amount - Before(amount, shares, i))
            && (i < |shares| - 1 ==> r[i] == Floor(amount * shares[i] / Sum(shares))
                                     && Before(amount, shares, i + 1) == Before(amount, shares, i) + r[i])
    ensures Before(amount, shares, 0) == 0.0
  {
    var floors := Floors(Parts(amount, shares, Sum(shares)));
    assert floors[..i + 1][..i] == floors[..i];
  }

  // The amount is what the others are allocated, the last one's rounded part, and less than one for each.
  lemma LastBounds(amount: real, shares: seq<real>, n: nat)
    requires |shares| == n + 1 && Sum(shares) > 0.0
    ensures var own := Floor(Part(amount, shares[n], Sum(shares)));
            var spent := Before(amount, shares, n);
            own <= amount - spent < own + (n + 1) as real && Floor(spent) == spent
  {
    var total := Sum(shares);
    var parts := Parts(amount, shares, total);
    PartsAddUp(amount, shares, total);
    WholePart(amount, total);
    RoundingLoss(parts);
    FloorsAreWhole(parts[..n]);
    assert Floors(parts[..n]) == Floors(parts)[..n];
  }

  lemma PartsNonNegative(amount: real, shares: seq<real>)
    requires Sum(shares) > 0.0 && NonNegative(shares) && amount >= 0.0
    ensures NonNegative(Floors(Parts(amount, shares, Sum(shares))))
  {
    forall i | 0 <= i < |shares|
      ensures Part(amount, shares[i], Sum(shares)) >= 0.0
    {
      assert amount * shares[i] >= 0.0;
    }
  }

  /**
    The amounts are not negative and add up to the payment exactly; the last destination gets its own
    rounded part and less than one more for each destination, for a whole payment at most n - 1 more.
   */
  lemma AllocationIsFair(amount: real, shares: seq<real>, n: nat)
    requires |shares| == n + 1 && Sum(shares) > 0.0 && NonNegative(shares) && amount >= 0.0
    ensures var r := Allocation(amount, shares);
            var own := Floor(Part(amount, shares[n], Sum(shares)));
            && |r| == n + 1 && Sum(r) == amount && NonNegative(r)
            && (forall i :: 0 <= i < n ==> r[i] == (amount * shares[i] / Sum(shares)).Floor as real)
            && own <= r[n] < own + (n + 1) as real
            && (Floor(amount) == amount ==> Floor(r[n]) == r[n] && r[n] <= own + n as real)
  {
    var floors := Floors(Parts(amount, shares, Sum(shares)));
    PartsNonNegative(amount, shares);
    assert floors[n] >= 0.0;
    AllocationAt(amount, shares, n);
    LastBounds(amount, shares, n);
    forall i | 0 <= i < n
      ensures Allocation(amount, shares)[i] == (amount * shares[i] / Sum(shares)).Floor as real
    {
      AllocationAt(amount, shares, i);
    }
    assert (floors[..n] + [amount - Sum(floors[..n])])[..n] == floors[..n];
    LastIsWhole(amount, Before(amount, shares, n), floors[n], n);
  }

  lemma LastIsWhole(amount: real, spent: real, own: real, n: nat)
    requires Floor(spent) == spent && Floor(own) == own && amount - spent < own + (n + 1) as real
    ensures Floor(amount) == amount ==> Floor(amount - spent) == amount - spent && amount - spent <= own + n as real
  {
    if Floor(amount) == amount {
      var a, s, o := amount.Floor, spent.Floor, own.Floor;
      assert amount == a as real && spent == s as real && own == o as real;
      WholeGap(a, s, o, n);
      assert Floor((a - s) as real) == (a - s) as real;
    }
  }

  // A whole difference below n + 1 is at most n.
  lemma WholeGap(a: int, s: int, o: int, n: nat)
    requires a as real - s as real < o as real + (n + 1) as real
    ensures a - s <= o + n && a as real - s as real == (a - s) as real
  {
    assert (a - s) as real < (o + n + 1) as real;
  }

  // ---------------------------------------------------------------- records

  datatype Tlv = Tlv(key: int, value: Bytes)

  const BOOST_KEY: int := 7629169
  const FEED_GUID_KEY: int := 7629175

  // `extra` pairs each key with its value; a key that does not parse is `None`.
  datatype TlvOptions = TlvOptions(boostJson: Bytes, feedGuid: Bytes, customKey: Option<int>, customValue: Option<Bytes>,
                                   extra: seq<(Option<int>, Bytes)>)

  /** The value a later record with the same key wins. */
  function LastValue(rs: seq<Tlv>, key: int): Option<Bytes> {
    if rs == [] then None
    else if rs[|rs| - 1].key == key then Some(rs[|rs| - 1].value)
    else LastValue(rs[..|rs| - 1], key)
  }

  function ExtraRecords(extra: seq<(Option<int>, Bytes)>): seq<Tlv> {
    if extra == [] then []
    else
      var (key, value) := extra[|extra| - 1];
      ExtraRecords(extra[..|extra| - 1]) + if key.Some? then [Tlv(key.value, value)] else []
  }

  /** Everything that is pushed, in order. An empty feed id counts as none. */
  function AllRecords(o: TlvOptions): seq<Tlv> {
    [Tlv(BOOST_KEY, o.boostJson)]
    + (if o.feedGuid != [] then [Tlv(FEED_GUID_KEY, o.feedGuid)] else [])
    + (if o.customKey.Some? && o.customValue.Some? then [Tlv(o.customKey.value, o.customValue.value)] else [])
    + ExtraRecords(o.extra)
  }

  predicate StrictlyByKey(rs: seq<Tlv>) {
    forall i, j :: 0 <= i < j < |rs| ==> rs[i].key < rs[j].key
  }

  method Deduplicate(records: seq<Tlv>) returns (m: map<int, Bytes>)
    ensures forall key :: LastValue(records, key) == if key in m then Some(m[key]) else None
  {
    m := map[];
    for i := 0 to |records|
      invariant forall key :: LastValue(records[..i], key) == if key in m then Some(m[key]) else None
    {
      assert records[..i + 1][..i] == records[..i];
      m := m[records[i].key := records[i].value];
    }
    assert records[..|records|] == records;
  }

  method CollectRecords(o: TlvOptions) returns (records: seq<Tlv>)
    ensures records == AllRecords(o)
  {
    records := [Tlv(BOOST_KEY, o.boostJson)];
    if o.feedGuid != [] {
      records := records + [Tlv(FEED_GUID_KEY, o.feedGuid)];
    }
    if o.customKey.Some? && o.customValue.Some? {
      records := records + [Tlv(o.customKey.value, o.customValue.value)];
    }
    ghost var first := records;
    for i := 0 to |o.extra|
      invariant records == first + ExtraRecords(o.extra[..i])
    {
      assert o.extra[..i + 1][..i] == o.extra[..i];
      var (key, value) := o.extra[i];
      if key.Some? {
        records := records + [Tlv(key.value, value)];
      }
    }
    assert o.extra[..|o.extra|] == o.extra;
  }

  /** Ascending keys without repeats; each key present in the input has its last value. */
  method EncodeV4VTlvs(o: TlvOptions) returns (sorted: seq<Tlv>)
    ensures forall i, j :: 0 <= i < j < |sorted| ==> sorted[i].key < sorted[j].key
    ensures StrictlyByKey(sorted)
    ensures forall key :: LastValue(sorted, key) == LastValue(AllRecords(o), key)
  {
    var records := CollectRecords(o);
    var m := Deduplicate(records);
    var keys := SortedKeys.Sorted(m.Keys);
    sorted := [];
    for i := 0 to |keys|
      invariant |sorted| == i
      invariant forall j :: 0 <= j < i ==> keys[j] in m && sorted[j] == Tlv(keys[j], m[keys[j]])
    {
      assert keys[i] in keys;
      sorted := sorted + [Tlv(keys[i], m[keys[i]])];
    }
    forall key
      ensures LastValue(sorted, key) == if key in m then Some(m[key]) else None
    {
      UniqueValue(sorted, key);
      if key in m {
        var j :| 0 <= j < |keys| && keys[j] == key;
        assert sorted[j].key == key;
      }
    }
  }

  /** The value of a key is that of its last record. */
  lemma {:induction false} LastValueExactly(rs: seq<Tlv>, key: int)
    ensures LastValue(rs, key).None? <==> forall i :: 0 <= i < |rs| ==> rs[i].key != key
    ensures forall i :: 0 <= i < |rs| && rs[i].key == key && (forall j :: i < j < |rs| ==> rs[j].key != key) ==>
              LastValue(rs, key) == Some(rs[i].value)
    decreases |rs|
  {
    if rs != [] {
      LastValueExactly(rs[..|rs| - 1], key);
    }
  }

  lemma {:induction false} LastValueConcat(a: seq<Tlv>, b: seq<Tlv>, key: int)
    ensures LastValue(a + b, key) == if LastValue(b, key).Some? then LastValue(b, key) else LastValue(a, key)
    decreases |b|
  {
    if b == [] {
      assert a + b == a;
    } else {
      assert (a + b)[..|a + b| - 1] == a + b[..|b| - 1];
      LastValueConcat(a, b[..|b| - 1], key);
    }
  }

  /**
    What each key of a part ends up with: the last parsed extra record, else the destination's custom record, else
    the feed id under 7629175, else the boost under 7629169.
   */
  lemma RecordsExactly(o: TlvOptions, key: int)
    ensures LastValue(AllRecords(o), key) ==
              if LastExtra(o.extra, key).Some? then LastExtra(o.extra, key)
              else if o.customKey == Some(key) && o.customValue.Some? then o.customValue
              else if key == 7629175 && o.feedGuid != [] then Some(o.feedGuid)
              else if key == 7629169 then Some(o.boostJson)
              else None
  {
    var a := [Tlv(BOOST_KEY, o.boostJson)];
    var b := if o.feedGuid != [] then [Tlv(FEED_GUID_KEY, o.feedGuid)] else [];
    var c := if o.customKey.Some? && o.customValue.Some? then [Tlv(o.customKey.value, o.customValue.value)] else [];
    LastValueConcat(a + b + c, ExtraRecords(o.extra), key);
    LastValueConcat(a + b, c, key);
    LastValueConcat(a, b, key);
    ExtraExactly(o.extra, key);
  }

  /** The value of the last extra record whose key parses to the given one. */
  function LastExtra(extra: seq<(Option<int>, Bytes)>, key: int): Option<Bytes> {
    if extra == [] then None
    else if extra[|extra| - 1].0 == Some(key) then Some(extra[|extra| - 1].1)
    else LastExtra(extra[..|extra| - 1], key)
  }

  lemma {:induction false} ExtraExactly(extra: seq<(Option<int>, Bytes)>, key: int)
    ensures LastValue(ExtraRecords(extra), key) == LastExtra(extra, key)
    decreases |extra|
  {
    if extra != [] {
      var (k, v) := extra[|extra| - 1];
      ExtraExactly(extra[..|extra| - 1], key);
      LastValueConcat(ExtraRecords(extra[..|extra| - 1]), if k.Some? then [Tlv(k.value, v)] else [], key);
    }
  }

  lemma {:induction false} UniqueValue(rs: seq<Tlv>, key: int)
    requires StrictlyByKey(rs)
    ensures LastValue(rs, key).Some? ==> Tlv(key, LastValue(rs, key).value) in rs
    ensures forall i :: 0 <= i < |rs| && rs[i].key == key ==> LastValue(rs, key) == Some(rs[i].value)
    decreases |rs|
  {
    if rs != [] {
      var n := |rs| - 1;
      UniqueValue(rs[..n], key);
    }
  }

  // ---------------------------------------------------------------- splits

  datatype Destination = Destination(pubkey: Bytes, share: Number, customKey: Option<int>, customValue: Option<Bytes>)

  datatype Split = Split(pubkey: Bytes, amountSats: real, tlvs: seq<Tlv>)

  predicate GoodShare(n: Number) {
    n.Finite? && n.value >= 0.0
  }

  predicate GoodShares(ds: seq<Destination>) {
    forall i :: 0 <= i < |ds| ==> GoodShare(ds[i].share)
  }

  function Shares(ds: seq<Destination>): (r: seq<real>)
    requires GoodShares(ds)
    ensures NonNegative(r)
  {
    seq(|ds|, i requires 0 <= i < |ds| => ds[i].share.value)
  }

  function TlvsOf(d: Destination, boostJson: Bytes, feedGuid: Bytes): TlvOptions {
    TlvOptions(boostJson, feedGuid, d.customKey, d.customValue, [])
  }

  /** The part of one destination: its key, its amount, and its own records in ascending order. */
  ghost predicate IsSplit(s: Split, d: Destination, amountSats: real, boostJson: Bytes, feedGuid: Bytes) {
    && s.pubkey == d.pubkey && s.amountSats == amountSats && StrictlyByKey(s.tlvs)
    && forall key :: LastValue(s.tlvs, key) == LastValue(AllRecords(TlvsOf(d, boostJson, feedGuid)), key)
  }

  /** What a split must be: refused, or each destination paid its amount of the allocation. */
  ghost predicate Splitting(ds: seq<Destination>, amount: Number, boost: nat -> Bytes, feedGuid: Bytes, r: Result<seq<Split>, Error>) {
    if ds == [] then r == Ok([])
    else if !GoodShare(amount) then r == Err(BadAmount)
    else if !GoodShares(ds) then r == Err(BadShare)
    else if Sum(Shares(ds)) <= 0.0 then r == Err(NoShares)
    else
      && r.Ok? && |r.value| == |ds|
      && var amounts := Allocation(amount.value, Shares(ds));
         |amounts| == |ds| &&
         forall i :: 0 <= i < |ds| ==> IsSplit(r.value[i], ds[i], amounts[i], boost(i), feedGuid)
  }

  /** A destination's part carries the boost, the feed id unless it is empty, and the destination's own record on top. */
  lemma SplitCarries(s: Split, d: Destination, amountSats: real, boostJson: Bytes, feedGuid: Bytes, key: int)
    requires IsSplit(s, d, amountSats, boostJson, feedGuid)
    ensures LastValue(s.tlvs, key) ==
              if d.customKey == Some(key) && d.customValue.Some? then d.customValue
              else if key == 7629175 && feedGuid != [] then Some(feedGuid)
              else if key == 7629169 then Some(boostJson)
              else None
  {
    RecordsExactly(TlvsOf(d, boostJson, feedGuid), key);
  }

  method TotalShares(ds: seq<Destination>) returns (total: real)
    requires GoodShares(ds)
    ensures total == Sum(Shares(ds))
  {
    total := 0.0;
    for i := 0 to |ds|
      invariant total == Sum(Shares(ds)[..i])
    {
      assert Shares(ds)[..i + 1][..i] == Shares(ds)[..i];
      total := total + ds[i].share.value;
    }
    assert Shares(ds)[..|ds|] == Shares(ds);
  }

  method MakeSplit(d: Destination, destSats: real, boostJson: Bytes, feedGuid: Bytes) returns (s: Split)
    ensures IsSplit(s, d, destSats, boostJson, feedGuid)
  {
    var tlvs := EncodeV4VTlvs(TlvsOf(d, boostJson, feedGuid));
    return Split(d.pubkey, destSats, tlvs);
  }

  method SplitOver(ds: seq<Destination>, amount: real, total: real, boost: nat -> Bytes, feedGuid: Bytes)
    returns (splits: seq<Split>)
    requires GoodShares(ds) && total == Sum(Shares(ds)) > 0.0 && ds != []
    ensures |splits| == |ds| == |Allocation(amount, Shares(ds))|
    ensures forall i :: 0 <= i < |ds| ==> IsSplit(splits[i], ds[i], Allocation(amount, Shares(ds))[i], boost(i), feedGuid)
  {
    var allocatedSats := 0.0;
    splits := [];
    ghost var shares := Shares(ds);
    for i := 0 to |ds|
      invariant |splits| == i
      invariant i < |ds| ==> allocatedSats == Before(amount, shares, i)
      invariant forall j :: 0 <= j < i ==> IsSplit(splits[j], ds[j], Allocation(amount, shares)[j], boost(j), feedGuid)
    {
      AllocationAt(amount, shares, i);
      var destSats: real;
      if i == |ds| - 1 {
        destSats := amount - allocatedSats;
      } else {
        destSats := Floor(amount * ds[i].share.value / total);
        allocatedSats := allocatedSats + destSats;
      }
      var split := MakeSplit(ds[i], destSats, boost(i), feedGuid);
      splits := splits + [split];
    }
  }

  /** `boost(i)` is the serialized boost record of destination `i`. */
  method CalculateSplits(ds: seq<Destination>, amount: Number, boost: nat -> Bytes, feedGuid: Bytes)
    returns (r: Result<seq<Split>, Error>)
    ensures Splitting(ds, amount, boost, feedGuid, r)
  {
    if |ds| == 0 {
      return Ok([]);
    }
    if !GoodShare(amount) {
      return Err(BadAmount);
    }
    if exists i :: 0 <= i < |ds| && !GoodShare(ds[i].share) {
      return Err(BadShare);
    }
    var total := TotalShares(ds);
    if total <= 0.0 {
      return Err(NoShares);
    }
    var splits := SplitOver(ds, amount.value, total, boost, feedGuid);
    return Ok(splits);
  }

  function Amounts(ss: seq<Split>): seq<real> {
    seq(|ss|, i requires 0 <= i < |ss| => ss[i].amountSats)
  }

  /** A split that is not refused pays out exactly the amount, nobody a negative one. */
  lemma SplitsConserve(ds: seq<Destination>, amount: Number, boost: nat -> Bytes, feedGuid: Bytes, r: Result<seq<Split>, Error>)
    requires ds != [] && Splitting(ds, amount, boost, feedGuid, r) && r.Ok?
    ensures amount.Finite? && Sum(Amounts(r.value)) == amount.value && NonNegative(Amounts(r.value))
  {
    var amounts := Allocation(amount.value, Shares(ds));
    AllocationIsFair(amount.value, Shares(ds), |ds| - 1);
    forall i | 0 <= i < |ds|
      ensures Amounts(r.value)[i] == amounts[i]
    {
      assert IsSplit(r.value[i], ds[i], amounts[i], boost(i), feedGuid);
    }
    assert Amounts(r.value) == amounts;
  }
}
