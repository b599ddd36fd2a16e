/**
  The one-time opening fee of a just-in-time channel: the store of promised channels, the fee, and the
  decision taken for each intercepted payment. A run is any sequence of registrations and payments.
 */
module JitSkim {
  import opened Wrappers

  const MILLION: nat := 1_000_000

  type Scid = string
  type Hash = string

  function LowerChar(c: char): char {
    if 'A' <= c <= 'Z' then c - 'A' + 'a' else c
  }

  function Lower(s: Hash): Hash {
    seq(|s|, i requires 0 <= i < |s| => LowerChar(s[i]))
  }

  /** Hashes that differ in more than the case of ASCII letters stay different; lower-case ones are left alone. */
  lemma LowerExactly(s: Hash, t: Hash)
    ensures Lower(s) == Lower(t) <==>
              |s| == |t| && forall i :: 0 <= i < |s| ==>
                s[i] == t[i] || ('A' <= s[i] <= 'Z' && t[i] as int == s[i] as int + 32)
                || ('A' <= t[i] <= 'Z' && s[i] as int == t[i] as int + 32)
    ensures Lower(s) == s <==> forall i :: 0 <= i < |s| ==> !('A' <= s[i] <= 'Z')
  {
    assert |Lower(s)| == |s| && |Lower(t)| == |t|;
    assert forall i :: 0 <= i < |s| ==> Lower(s)[i] == LowerChar(s[i]);
    assert forall i :: 0 <= i < |t| ==> Lower(t)[i] == LowerChar(t[i]);
  }

  // ---------------------------------------------------------------- fees

  datatype FeeParams = FeeParams(minFeeMsat: nat, proportionalPpm: nat)

  /** An amount that covers both the minimum and the proportional part. */
  predicate Covers(f: int, paymentMsat: nat, p: FeeParams) {
    f >= p.minFeeMsat && f * MILLION >= paymentMsat * p.proportionalPpm
  }

  /** The opening fee is the least amount that covers both. */
  function ComputeOpeningFeeMsat(paymentMsat: nat, p: FeeParams): (fee: nat)
    ensures fee >= p.minFeeMsat && fee * 1_000_000 >= paymentMsat * p.proportionalPpm
    ensures fee == p.minFeeMsat || (fee - 1) * 1_000_000 < paymentMsat * p.proportionalPpm
    ensures Covers(fee, paymentMsat, p)
    ensures forall f: int :: Covers(f, paymentMsat, p) ==> fee <= f
  {
    var proportional := (paymentMsat * p.proportionalPpm + 999_999) / MILLION;
    if proportional > p.minFeeMsat then proportional else p.minFeeMsat
  }

  function ForwardedAmountMsat(paymentMsat: nat, feeMsat: nat): (r: Option<nat>)
    ensures r.None? <==> feeMsat >= paymentMsat
    ensures r.Some? ==> r.value > 0 && r.value + feeMsat == paymentMsat
  {
    if feeMsat >= paymentMsat then None else Some(paymentMsat - feeMsat)
  }

  /** What is left of a payment, possibly less than nothing. */
  function Net(paymentMsat: nat, p: FeeParams): int {
    paymentMsat - ComputeOpeningFeeMsat(paymentMsat, p)
  }

  lemma NetRises(a: nat, b: nat, p: FeeParams)
    requires a <= b && p.proportionalPpm <= MILLION
    ensures Net(a, p) <= Net(b, p)
  {
    assert b * p.proportionalPpm - a * p.proportionalPpm == (b - a) * p.proportionalPpm;
    assert (b - a) * p.proportionalPpm <= (b - a) * MILLION;
    var f := ComputeOpeningFeeMsat(a, p) + (b - a);
    assert Covers(f, b, p);
  }

  lemma Product(x: nat, y: nat, m: nat)
    requires y > m
    ensures x * y >= x * m + x
  {
    Times(x, m + 1, y);
    assert x * (m + 1) == x * m + x;
  }

  lemma Times(x: nat, a: nat, b: nat)
    requires a <= b
    ensures x * a <= x * b
  {
  }

  /** At a million parts per million or more, the fee takes the whole payment. */
  lemma FeeTakesAll(a: nat, p: FeeParams)
    requires p.proportionalPpm >= MILLION
    ensures ComputeOpeningFeeMsat(a, p) >= a
  {
    assert a * p.proportionalPpm >= a * MILLION;
  }

  /** The net amount never falls as the payment grows, exactly for rates up to a million. */
  lemma NetMonotoneExactly(p: FeeParams)
    ensures (forall a: nat, b: nat :: a <= b ==> Net(a, p) <= Net(b, p)) <==> p.proportionalPpm <= MILLION
  {
    if p.proportionalPpm <= MILLION {
      forall a: nat, b: nat | a <= b
        ensures Net(a, p) <= Net(b, p)
      {
        NetRises(a, b, p);
      }
    } else {
      var n := p.minFeeMsat + 1;
      WholeFee(p, n);
      WholeFee(p, n + 1);
      assert (n + 1) * MILLION == n * MILLION + MILLION;
      assert (n + 1) * p.proportionalPpm == n * p.proportionalPpm + p.proportionalPpm;
      assert Net(n * MILLION, p) > Net(n * MILLION + MILLION, p);
    }
  }

  // The fee of a whole number of millions has no rounding in it.
  lemma WholeFee(p: FeeParams, n: nat)
    requires p.proportionalPpm > MILLION && n > p.minFeeMsat
    ensures ComputeOpeningFeeMsat(n * MILLION, p) == n * p.proportionalPpm
  {
    Product(n, p.proportionalPpm, MILLION);
    Regroup(n, p.proportionalPpm);
    assert Covers(n * p.proportionalPpm, n * MILLION, p);
  }

  /** Whatever the rate, a payment larger than one that was forwarded is forwarded too, and no less of it. */
  lemma ForwardedNeverFalls(a: nat, b: nat, p: FeeParams)
    requires a <= b && ForwardedAmountMsat(a, ComputeOpeningFeeMsat(a, p)).Some?
    ensures ForwardedAmountMsat(b, ComputeOpeningFeeMsat(b, p)).Some?
    ensures ForwardedAmountMsat(a, ComputeOpeningFeeMsat(a, p)).value <= ForwardedAmountMsat(b, ComputeOpeningFeeMsat(b, p)).value
  {
    if p.proportionalPpm >= MILLION {
      FeeTakesAll(a, p);
    }
    NetRises(a, b, p);
  }

  lemma LowRateForwards(p: FeeParams, n: nat)
    requires p.proportionalPpm < MILLION && n == p.minFeeMsat + 1
    ensures ComputeOpeningFeeMsat(n * MILLION, p) < n * MILLION
  {
    Product(n, MILLION, p.proportionalPpm);
    var f := n * MILLION - n;
    Regroup(n, p.proportionalPpm);
    Times(MILLION, n * p.proportionalPpm, f);
    assert Covers(f, n * MILLION, p);
  }

  lemma Regroup(n: nat, ppm: nat)
    ensures n * MILLION * ppm == MILLION * (n * ppm)
  {
  }

  /** Some payment gets through exactly when the rate is below a million. */
  lemma ForwardableExactly(p: FeeParams)
    ensures (exists a: nat :: ForwardedAmountMsat(a, ComputeOpeningFeeMsat(a, p)).Some?) <==> p.proportionalPpm < MILLION
  {
    if p.proportionalPpm < MILLION {
      var n := p.minFeeMsat + 1;
      var a := n * MILLION;
      LowRateForwards(p, n);
      assert ForwardedAmountMsat(a, ComputeOpeningFeeMsat(a, p)).Some?;
    } else {
      forall a: nat
        ensures ForwardedAmountMsat(a, ComputeOpeningFeeMsat(a, p)).None?
      {
        FeeTakesAll(a, p);
      }
    }
  }

  // ---------------------------------------------------------------- the store

  datatype Entry = Entry(paymentHash: Hash, feeParams: FeeParams, feeSkimmed: bool)

  datatype Request = Request(scid: Scid, paymentHash: Hash, amountMsat: nat)

  datatype Decision = Resume | Fail | ResumeModified(outAmountMsat: nat)

  type Entries = map<Scid, Entry>

  class JitStore {
    var byScidMap: Entries

    constructor ()
      ensures byScidMap == map[]
    {
      byScidMap := map[];
    }

    method Register(scid: Scid, paymentHash: Hash, feeParams: FeeParams)
      modifies this
      ensures byScidMap == Applied(old(byScidMap), Registered(scid, paymentHash, feeParams))
    {
      byScidMap := byScidMap[scid := Entry(Lower(paymentHash), feeParams, false)];
    }

    method ByScid(scid: Scid) returns (e: Option<Entry>)
      ensures e == if scid in byScidMap then Some(byScidMap[scid]) else None
    {
      return if scid in byScidMap then Some(byScidMap[scid]) else None;
    }

    method MarkSkimmed(scid: Scid)
      modifies this
      ensures byScidMap == if scid in old(byScidMap) then old(byScidMap)[scid := old(byScidMap)[scid].(feeSkimmed := true)]
                           else old(byScidMap)
    {
      if scid in byScidMap {
        byScidMap := byScidMap[scid := byScidMap[scid].(feeSkimmed := true)];
      }
    }
  }

  method DecideIntercept(req: Request, store: JitStore) returns (d: Decision)
    modifies store
    ensures d == Decided(old(store.byScidMap), req)
    ensures store.byScidMap == Applied(old(store.byScidMap), Intercepted(req))
  {
    var entry := store.ByScid(req.scid);
    if entry.None? {
      return Resume;
    }
    if entry.value.paymentHash != Lower(req.paymentHash) {
      return Resume;
    }
    if entry.value.feeSkimmed {
      return Resume;
    }
    var fee := ComputeOpeningFeeMsat(req.amountMsat, entry.value.feeParams);
    if fee >= req.amountMsat {
      return Fail;
    }
    store.MarkSkimmed(req.scid);
    return ResumeModified(req.amountMsat - fee);
  }

  // ---------------------------------------------------------------- runs

  datatype Event = Registered(scid: Scid, paymentHash: Hash, feeParams: FeeParams) | Intercepted(req: Request)

  /** The one payment an entry was registered for, its fee not yet taken. */
  predicate Due(m: Entries, req: Request) {
    req.scid in m && m[req.scid].paymentHash == Lower(req.paymentHash) && !m[req.scid].feeSkimmed
  }

  function Decided(m: Entries, req: Request): Decision {
    if !Due(m, req) then Resume
    else
      match ForwardedAmountMsat(req.amountMsat, ComputeOpeningFeeMsat(req.amountMsat, m[req.scid].feeParams))
      case None => Fail
      case Some(out) => ResumeModified(out)
  }

  function Applied(m: Entries, e: Event): Entries {
    match e
    case Registered(scid, h, p) => m[scid := Entry(Lower(h), p, false)]
    case Intercepted(req) =>
      if Due(m, req) && Decided(m, req).ResumeModified? then m[req.scid := m[req.scid].(feeSkimmed := true)] else m
  }

  function StoreAfter(es: seq<Event>): Entries {
    if es == [] then map[] else Applied(StoreAfter(es[..|es| - 1]), es[|es| - 1])
  }

  function DecisionAt(es: seq<Event>, j: nat): Decision
    requires j < |es| && es[j].Intercepted?
  {
    Decided(StoreAfter(es[..j]), es[j].req)
  }

  predicate Skims(es: seq<Event>, j: nat) {
    j < |es| && es[j].Intercepted? && DecisionAt(es, j).ResumeModified?
  }

  predicate SkimsAt(es: seq<Event>, j: nat, scid: Scid) {
    Skims(es, j) && es[j].req.scid == scid
  }

  // ---------------------------------------------------------------- a run by its history alone

  predicate Registers(e: Event, scid: Scid) {
    e.Registered? && e.scid == scid
  }

  /** The latest registration of the channel among the first `j` events. */
  function Latest(es: seq<Event>, j: nat, scid: Scid): (r: Option<nat>)
    requires j <= |es|
    ensures r.None? ==> forall i :: 0 <= i < j ==> !Registers(es[i], scid)
    ensures r.Some? ==> r.value < j && Registers(es[r.value], scid)
    ensures r.Some? ==> forall i :: r.value < i < j ==> !Registers(es[i], scid)
  {
    if j == 0 then None else if Registers(es[j - 1], scid) then Some(j - 1) else Latest(es, j - 1, scid)
  }

  predicate SkimmedBetween(es: seq<Event>, k: nat, j: nat, scid: Scid) {
    exists i: nat :: k < i < j && SkimsAt(es, i, scid)
  }

  lemma StoreNext(es: seq<Event>, j: nat)
    requires j < |es|
    ensures StoreAfter(es[..j + 1]) == Applied(StoreAfter(es[..j]), es[j])
  {
    assert es[..j + 1][..j] == es[..j];
  }

  /** The entry a channel must have, told from the events alone. */
  function Expected(es: seq<Event>, j: nat, scid: Scid): Option<Entry>
    requires j <= |es|
  {
    match Latest(es, j, scid)
    case None => None
    case Some(k) => Some(Entry(Lower(es[k].paymentHash), es[k].feeParams, SkimmedBetween(es, k, j, scid)))
  }

  function Find(m: Entries, scid: Scid): Option<Entry> {
    if scid in m then Some(m[scid]) else None
  }

  lemma ExpectedNext(es: seq<Event>, j: nat, scid: Scid)
    requires j < |es|
    ensures Registers(es[j], scid) ==>
              Expected(es, j + 1, scid) == Some(Entry(Lower(es[j].paymentHash), es[j].feeParams, false))
    ensures !Registers(es[j], scid) && Expected(es, j, scid).None? ==> Expected(es, j + 1, scid).None?
    ensures !Registers(es[j], scid) && Expected(es, j, scid).Some? ==>
              var e := Expected(es, j, scid).value;
              Expected(es, j + 1, scid) == Some(e.(feeSkimmed := e.feeSkimmed || SkimsAt(es, j, scid)))
  {
    var k := Latest(es, j, scid);
    if k.Some? {
    }
  }

  /** The store tells of each channel its latest registration and whether it was skimmed since. */
  lemma {:induction false} StoreTellsHistory(es: seq<Event>, j: nat, scid: Scid)
    requires j <= |es|
    ensures Find(StoreAfter(es[..j]), scid) == Expected(es, j, scid)
    decreases j
  {
    if j > 0 {
      StoreTellsHistory(es, j - 1, scid);
      StoreNext(es, j - 1);
      ExpectedNext(es, j - 1, scid);
    }
  }

  /**
    A payment is touched exactly when its channel's latest registration names its hash and has not been
    skimmed since; it then fails if the fee would take all of it, and is forwarded less the fee otherwise.
   */
  lemma DecisionsExactly(es: seq<Event>, j: nat)
    requires j < |es| && es[j].Intercepted?
    ensures var req := es[j].req;
            var k := Latest(es, j, req.scid);
            var due := k.Some? && Lower(es[k.value].paymentHash) == Lower(req.paymentHash)
                       && !SkimmedBetween(es, k.value, j, req.scid);
            if !due then DecisionAt(es, j) == Resume
            else
              var fee := ComputeOpeningFeeMsat(req.amountMsat, es[k.value].feeParams);
              if fee >= req.amountMsat then DecisionAt(es, j) == Fail
              else
                && DecisionAt(es, j).ResumeModified? && DecisionAt(es, j).outAmountMsat > 0
                && DecisionAt(es, j).outAmountMsat + fee == req.amountMsat
  {
    StoreTellsHistory(es, j, es[j].req.scid);
  }

  /** No registration is skimmed twice: between two skims the channel was registered again. */
  lemma SkimmedOnce(es: seq<Event>, i: nat, j: nat, scid: Scid)
    requires i < j && SkimsAt(es, i, scid) && SkimsAt(es, j, scid)
    ensures exists k :: i < k < j && Registers(es[k], scid)
  {
    DecisionsExactly(es, j);
    var k := Latest(es, j, scid).value;
    assert !SkimmedBetween(es, k, j, scid);
    assert k != i;
  }
}
