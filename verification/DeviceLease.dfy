/**
  The cross-device lease: any number of devices claim one record in a shared versioned store by
  compare-and-swap. Each start of a wallet draws a fresh owner id, so a device is one start.

  Requests travel apart from their senders: a write or a delete is processed at any later time, may be
  overtaken, lost before it arrives, or processed with its reply lost. A run is any sequence of enabled
  events. Each write carries a `Basis`, what its sender last saw in the store, as history that no step
  reads.
 */
module DeviceLease {
  import opened Wrappers

  const LEASE_MS: nat := 120_000

  type Owner = nat

  datatype Record = Record(owner: Owner, acquiredAt: int, expiresAt: int)

  // A stored value that is not a lease record has no `value`.
  datatype Object = Object(version: nat, value: Option<Record>)

  datatype Decision = Acquire | Renew | Blocked

  /** What a starting device does about the record it read. */
  function EvaluateDeviceLease(existing: Option<Record>, ownerId: Owner, now: int): (d: Decision)
    ensures d == Blocked <==> existing.Some? && existing.value.owner != ownerId && now < existing.value.expiresAt
    ensures d == Blocked <==> LiveOther(existing, ownerId, now)
    ensures d == Renew <==> existing.Some? && existing.value.owner == ownerId
  {
    if existing.None? then Acquire
    else if existing.value.owner == ownerId then Renew
    else if now >= existing.value.expiresAt then Acquire
    else Blocked
  }

  /** Somebody else's record, still unexpired. */
  predicate LiveOther(r: Option<Record>, me: Owner, now: int) {
    r.Some? && r.value.owner != me && now < r.value.expiresAt
  }

  function Stored(o: Option<Object>): Option<Record> {
    if o.None? then None else o.value.value
  }

  /** The version a write must name: zero for an absent key. */
  function Version(o: Option<Object>): nat {
    if o.None? then 0 else o.value.version
  }

  function NewRecord(me: Owner, now: int): Record {
    Record(me, now, now + LEASE_MS)
  }

  // ---------------------------------------------------------------- one device

  // What the store held when its owner last knew it, and how many deletes had happened by then.
  datatype Basis = Basis(epoch: nat, seen: Option<Object>)

  datatype Phase = Idle | Got(read: Basis) | Waiting | Running | Refused

  datatype Device = Device(phase: Phase, version: nat, stopped: bool, conflicted: bool, basis: Option<Basis>)

  const FRESH: Device := Device(Idle, 0, false, false, None)

  datatype Request =
    | PutAcquire(device: Owner, record: Record, read: Basis)
    | PutRenew(device: Owner, version: nat, record: Record, basis: Option<Basis>)
    | Delete(device: Owner, version: nat)

  function AfterAcquired(d: Device, b: Basis): Device {
    d.(phase := Running, version := Version(b.seen), basis := Some(b))
  }

  function AfterDegraded(d: Device): Device {
    d.(phase := Running)
  }

  /** A renewal's reply counts one up, from whatever the device now believes the version to be. */
  function AfterRenewed(d: Device, asked: nat, b: Basis): Device {
    d.(version := d.version + 1, basis := if d.version == asked then Some(b) else None)
  }

  /** After a conflict the version becomes one more than the version just read. */
  function AfterResync(d: Device, obj: Option<Object>): Device {
    d.(version := (if obj.None? then d.version else obj.value.version) + 1, conflicted := false, basis := None)
  }

  // ---------------------------------------------------------------- the store

  datatype Write = Write(device: Owner, renewal: bool, basis: Option<Basis>,
                         version: nat, before: Option<Object>, at: int, epoch: nat)

  // The shared clock, the object under the lease key, the number of deletes, and every write that took;
  // `strict` if the store checks the version a delete names, as it does for a write.
  datatype Server = Server(clock: int, store: Option<Object>, deletes: nat, log: seq<Write>, strict: bool)

  function Put(sv: Server, w: Write, r: Record): Server {
    sv.(store := Some(Object(w.version + 1, Some(r))), log := sv.log + [w])
  }

  function Deleted(sv: Server, version: nat): Server {
    if sv.store.None? || (sv.strict && version != Version(sv.store)) then sv
    else sv.(store := None, deletes := sv.deletes + 1)
  }

  function WriteOf(sv: Server, q: Request): Write
    requires !q.Delete?
  {
    match q
    case PutAcquire(d, r, b) => Write(d, false, Some(b), Version(b.seen), sv.store, sv.clock, sv.deletes)
    case PutRenew(d, v, r, b) => Write(d, true, b, v, sv.store, sv.clock, sv.deletes)
  }

  function NowStored(sv: Server): Basis {
    Basis(sv.deletes, sv.store)
  }

  // ---------------------------------------------------------------- steps

  datatype State = State(server: Server, devices: seq<Device>, flight: seq<Request>)

  // `releasesWait`: a delete is only processed while no device is between its read and its write.
  datatype Config = Config(devices: nat, releasesWait: bool, strict: bool)

  datatype Event =
    | Tick(ms: nat)
    | Read(d: Owner)
    | ReadFails(d: Owner)
    | Decide(d: Owner)
    | Heartbeat(d: Owner)
    | Resync(d: Owner)
    | ResyncFails(d: Owner)
    | Release(d: Owner)
    | Arrive(i: nat, replied: bool)
    | Lose(i: nat)

  predicate Claiming(q: Request) {
    q.PutAcquire?
  }

  predicate Quiet(s: State) {
    && (forall d :: 0 <= d < |s.devices| ==> !s.devices[d].phase.Got?)
    && (forall i :: 0 <= i < |s.flight| ==> !Claiming(s.flight[i]))
  }

  predicate Enabled(cfg: Config, s: State, e: Event) {
    match e
    case Tick(_) => true
    case Read(d) => d < |s.devices| && s.devices[d].phase.Idle?
    case ReadFails(d) => d < |s.devices| && s.devices[d].phase.Idle?
    case Decide(d) => d < |s.devices| && s.devices[d].phase.Got?
    case Heartbeat(d) => d < |s.devices| && s.devices[d].phase.Running? && !s.devices[d].stopped
    case Resync(d) => d < |s.devices| && s.devices[d].conflicted
    case ResyncFails(d) => d < |s.devices| && s.devices[d].conflicted
    case Release(d) => d < |s.devices| && s.devices[d].phase.Running?
    case Arrive(i, _) => i < |s.flight| && s.flight[i].device < |s.devices|
                         && (s.flight[i].Delete? && cfg.releasesWait ==> Quiet(s))
    case Lose(i) => i < |s.flight| && s.flight[i].device < |s.devices|
  }

  function Without<T>(q: seq<T>, i: nat): seq<T>
    requires i < |q|
  {
    q[..i] + q[i + 1..]
  }

  /** The store's answer to a request. */
  function Processed(sv: Server, q: Request): Server {
    match q
    case Delete(_, v) => Deleted(sv, v)
    case PutAcquire(_, r, b) => if Version(b.seen) == Version(sv.store) then Put(sv, WriteOf(sv, q), r) else sv
    case PutRenew(_, v, r, _) => if v == Version(sv.store) then Put(sv, WriteOf(sv, q), r) else sv
  }

  /** What the sender makes of the answer; `after` is what the store then holds. */
  function Answered(dev: Device, q: Request, before: Server, after: Basis): Device {
    match q
    case Delete(_, _) => dev
    case PutAcquire(_, _, b) =>
      if Version(b.seen) == Version(before.store) then AfterAcquired(dev, after) else dev.(phase := Refused)
    case PutRenew(_, v, _, _) =>
      if v == Version(before.store) then AfterRenewed(dev, v, after) else dev.(conflicted := true)
  }

  /** No answer: a claim starts degraded, a renewal or a release is given up. */
  function Unanswered(dev: Device, q: Request): Device {
    if q.PutAcquire? then AfterDegraded(dev) else dev
  }

  function Decided(s: State, d: Owner): State
    requires d < |s.devices| && s.devices[d].phase.Got?
  {
    var b, now := s.devices[d].phase.read, s.server.clock;
    if EvaluateDeviceLease(Stored(b.seen), d, now) == Blocked
    then s.(devices := s.devices[d := s.devices[d].(phase := Refused)])
    else s.(devices := s.devices[d := s.devices[d].(phase := Waiting)],
            flight := s.flight + [PutAcquire(d, NewRecord(d, now), b)])
  }

  function Arrived(s: State, i: nat, replied: bool): State
    requires i < |s.flight| && s.flight[i].device < |s.devices|
  {
    var q := s.flight[i];
    var d, sv := q.device, Processed(s.server, q);
    State(sv,
          s.devices[d := if replied then Answered(s.devices[d], q, s.server, NowStored(sv)) else Unanswered(s.devices[d], q)],
          Without(s.flight, i))
  }

  function Apply(cfg: Config, s: State, e: Event): State
    requires Enabled(cfg, s, e)
  {
    match e
    case Tick(ms) => s.(server := s.server.(clock := s.server.clock + ms))
    case Read(d) => s.(devices := s.devices[d := s.devices[d].(phase := Got(NowStored(s.server)))])
    case ReadFails(d) => s.(devices := s.devices[d := AfterDegraded(s.devices[d])])
    case Decide(d) => Decided(s, d)
    case Heartbeat(d) =>
      var dev := s.devices[d];
      s.(flight := s.flight + [PutRenew(d, dev.version, NewRecord(d, s.server.clock), dev.basis)])
    case Resync(d) => s.(devices := s.devices[d := AfterResync(s.devices[d], s.server.store)])
    case ResyncFails(d) => s.(devices := s.devices[d := s.devices[d].(conflicted := false)])
    case Release(d) => s.(devices := s.devices[d := s.devices[d].(stopped := true)], 
                            flight := s.flight + [Delete(d, s.devices[d].version)])
    case Arrive(i, replied) => Arrived(s, i, replied)
    case Lose(i) =>
      var q := s.flight[i];
      s.(devices := s.devices[q.device := Unanswered(s.devices[q.device], q)], flight := Without(s.flight, i))
  }

  /** Any clock and any stored object, malformed ones included; every device is about to start. */
  predicate Init(cfg: Config, s: State) {
    && s.server.deletes == 0 && s.server.log == [] && s.server.strict == cfg.strict && s.flight == []
    && (s.server.store.Some? ==> s.server.store.value.version >= 1)
    && s.devices == seq(cfg.devices, _ => FRESH)
  }

  predicate ValidRun(cfg: Config, s: State, es: seq<Event>)
    decreases |es|
  {
    es == [] || (Enabled(cfg, s, es[0]) && ValidRun(cfg, Apply(cfg, s, es[0]), es[1..]))
  }

  function After(cfg: Config, s: State, es: seq<Event>): State
    requires ValidRun(cfg, s, es)
    decreases |es|
  {
    if es == [] then s else After(cfg, Apply(cfg, s, es[0]), es[1..])
  }

  // ---------------------------------------------------------------- what every step keeps

  /** How the store may change: between deletes the version only grows, and only with the contents. */
  predicate Later(a: Server, b: Server) {
    && a.clock <= b.clock && a.deletes <= b.deletes
    && (a.deletes == b.deletes ==> a.store == b.store || Version(a.store) < Version(b.store))
  }

  /** A basis is out of date unless no delete happened and the version is unchanged; then it is exact. */
  predicate Known(b: Basis, sv: Server) {
    && b.epoch <= sv.deletes
    && (b.epoch == sv.deletes ==> b.seen == sv.store || Version(b.seen) < Version(sv.store))
  }

  predicate Mine(b: Basis, me: Owner) {
    Stored(b.seen).Some? && Stored(b.seen).value.owner == me
  }

  predicate DeviceOk(me: Owner, d: Device, sv: Server) {
    && (d.phase.Got? ==> Known(d.phase.read, sv))
    && (d.basis.Some? ==> Known(d.basis.value, sv) && Version(d.basis.value.seen) == d.version && Mine(d.basis.value, me))
  }

  predicate RequestOk(q: Request, sv: Server) {
    match q
    case PutAcquire(d, r, b) => Known(b, sv) && !LiveOther(Stored(b.seen), d, sv.clock) && r.owner == d
    case PutRenew(d, v, r, b) => r.owner == d && (b.Some? ==> Known(b.value, sv) && Version(b.value.seen) == v && Mine(b.value, d))
    case Delete(_, _) => true
  }

  /** A write overwrote exactly its basis, unless a delete came in between; its basis was its own or free. */
  predicate WriteOk(w: Write) {
    && (!w.renewal ==> w.basis.Some?)
    && (w.basis.Some? ==> !LiveOther(Stored(w.basis.value.seen), w.device, w.at))
    && (w.basis.Some? ==> w.basis.value.epoch <= w.epoch && Version(w.basis.value.seen) == w.version)
    && (w.basis.Some? && w.basis.value.epoch == w.epoch ==> w.before == w.basis.value.seen)
  }

  predicate Past(w: Write, sv: Server) {
    w.epoch <= sv.deletes && (w.epoch == sv.deletes ==> w.version < Version(sv.store))
  }

  /** Between two deletes, every write names a higher version than the one before. */
  predicate Ordered(w: Write, x: Write) {
    w.epoch <= x.epoch && (w.epoch == x.epoch ==> w.version < x.version)
  }

  predicate LogOk(sv: Server) {
    && (forall i :: 0 <= i < |sv.log| ==> WriteOk(sv.log[i]) && Past(sv.log[i], sv))
    && (forall i, j :: 0 <= i < j < |sv.log| ==> Ordered(sv.log[i], sv.log[j]))
  }

  predicate Inv(cfg: Config, s: State) {
    && |s.devices| == cfg.devices
    && (s.server.store.Some? ==> s.server.store.value.version >= 1)
    && (forall d :: 0 <= d < |s.devices| ==> DeviceOk(d, s.devices[d], s.server))
    && (forall i :: 0 <= i < |s.flight| ==> RequestOk(s.flight[i], s.server))
    && LogOk(s.server)
  }

  lemma ProcessedLater(sv: Server, q: Request)
    requires sv.store.Some? ==> sv.store.value.version >= 1
    requires RequestOk(q, sv) && LogOk(sv)
    ensures Later(sv, Processed(sv, q)) && LogOk(Processed(sv, q))
    ensures Processed(sv, q).store.Some? ==> Processed(sv, q).store.value.version >= 1
  {
    var sv' := Processed(sv, q);
    if |sv'.log| > |sv.log| {
      var w := WriteOf(sv, q);
      assert WriteOk(w);
      assert Past(w, sv');
      forall i | 0 <= i < |sv.log|
        ensures Past(sv.log[i], sv') && Ordered(sv.log[i], w)
      {
        assert Past(sv.log[i], sv);
      }
    }
  }

  // The devices and requests left alone by a step that moves the store forward.
  lemma OthersKeep(s: State, sv: Server)
    requires Later(s.server, sv)
    requires forall d :: 0 <= d < |s.devices| ==> DeviceOk(d, s.devices[d], s.server)
    requires forall i :: 0 <= i < |s.flight| ==> RequestOk(s.flight[i], s.server)
    ensures forall d :: 0 <= d < |s.devices| ==> DeviceOk(d, s.devices[d], sv)
    ensures forall i :: 0 <= i < |s.flight| ==> RequestOk(s.flight[i], sv)
  {
    forall i | 0 <= i < |s.flight|
      ensures RequestOk(s.flight[i], sv)
    {
      assert RequestOk(s.flight[i], s.server);
    }
  }

  lemma ArriveStep(cfg: Config, s: State, i: nat, replied: bool)
    requires Inv(cfg, s) && i < |s.flight| && s.flight[i].device < |s.devices|
    ensures Inv(cfg, Arrived(s, i, replied))
  {
    var q := s.flight[i];
    ProcessedLater(s.server, q);
    OthersKeep(s, Processed(s.server, q));
  }

  lemma InvStep(cfg: Config, s: State, e: Event)
    requires Inv(cfg, s) && Enabled(cfg, s, e)
    ensures Inv(cfg, Apply(cfg, s, e))
  {
    match e
    case Tick(ms) => OthersKeep(s, Apply(cfg, s, e).server);
    case Arrive(i, replied) => ArriveStep(cfg, s, i, replied);
    case _ =>
  }

  lemma {:induction false} InvRun(cfg: Config, s: State, es: seq<Event>)
    requires Inv(cfg, s) && ValidRun(cfg, s, es)
    ensures Inv(cfg, After(cfg, s, es))
    decreases |es|
  {
    if es != [] {
      InvStep(cfg, s, es[0]);
      InvRun(cfg, Apply(cfg, s, es[0]), es[1..]);
    }
  }

  // ---------------------------------------------------------------- safety

  /** The write replaced a record that another device could still rely on. */
  predicate Steals(w: Write) {
    LiveOther(Stored(w.before), w.device, w.at)
  }

  /**
    In every run, a claim that replaces another device's unexpired record had a delete processed between
    its read and its write. A renewal does so only after such a delete, or when the device never got the
    reply to its claim or has resynced after a conflict.
   */
  lemma TakeoverNeedsDelete(cfg: Config, s: State, es: seq<Event>, w: Write)
    requires Init(cfg, s) && ValidRun(cfg, s, es) && w in After(cfg, s, es).server.log && Steals(w)
    ensures !w.renewal ==> w.basis.Some?
    ensures w.basis.Some? ==> w.basis.value.epoch < w.epoch
  {
    InvRun(cfg, s, es);
  }

  /** Of the devices that read the same record, at most one claim takes until a delete is processed. */
  lemma {:induction false} OneWinnerPerRead(cfg: Config, s: State, es: seq<Event>, i: nat, j: nat)
    requires Init(cfg, s) && ValidRun(cfg, s, es) && i < j < |After(cfg, s, es).server.log|
    requires var log := After(cfg, s, es).server.log;
             !log[i].renewal && !log[j].renewal && log[i].basis == log[j].basis
    ensures var w := After(cfg, s, es).server.log[j];
            w.basis.Some? && w.basis.value.epoch < w.epoch
  {
    InvRun(cfg, s, es);
    var log := After(cfg, s, es).server.log;
    assert WriteOk(log[i]) && WriteOk(log[j]) && Ordered(log[i], log[j]);
  }

  predicate Exclusive(sv: Server) {
    forall i :: 0 <= i < |sv.log| && !sv.log[i].renewal ==> !Steals(sv.log[i])
  }

  /** No claim replaces another device's unexpired record, in any run. */
  ghost predicate AlwaysExclusive(cfg: Config) {
    forall s, es :: Init(cfg, s) && ValidRun(cfg, s, es) ==> Exclusive(After(cfg, s, es).server)
  }

  // While deletes wait, nothing between a read and its write is older than the last delete.
  predicate Calm(s: State) {
    && (forall d :: 0 <= d < |s.devices| && s.devices[d].phase.Got? ==> s.devices[d].phase.read.epoch == s.server.deletes)
    && (forall i :: 0 <= i < |s.flight| && s.flight[i].PutAcquire? ==> s.flight[i].read.epoch == s.server.deletes)
    && Exclusive(s.server)
  }

  lemma CalmArrive(cfg: Config, s: State, i: nat, replied: bool)
    requires Inv(cfg, s) && Calm(s) && Enabled(cfg, s, Arrive(i, replied)) && (s.flight[i].Delete? ==> Quiet(s))
    ensures Calm(Arrived(s, i, replied))
  {
    var q, s' := s.flight[i], Arrived(s, i, replied);
    assert RequestOk(q, s.server);
    assert Exclusive(s'.server);
    assert forall k :: 0 <= k < |s'.flight| ==> s'.flight[k] in s.flight;
  }

  lemma CalmStep(cfg: Config, s: State, e: Event)
    requires Inv(cfg, s) && Calm(s) && Enabled(cfg, s, e)
    requires e.Arrive? && s.flight[e.i].Delete? ==> Quiet(s)
    ensures Calm(Apply(cfg, s, e))
  {
    match e
    case Arrive(i, replied) => CalmArrive(cfg, s, i, replied);
    case _ =>
  }

  lemma {:induction false} CalmRun(cfg: Config, s: State, es: seq<Event>)
    requires Inv(cfg, s) && Calm(s) && ValidRun(cfg, s, es) && cfg.releasesWait
    ensures Calm(After(cfg, s, es))
    decreases |es|
  {
    if es != [] {
      InvStep(cfg, s, es[0]);
      CalmStep(cfg, s, es[0]);
      CalmRun(cfg, Apply(cfg, s, es[0]), es[1..]);
    }
  }

  // ---------------------------------------------------------------- one device alone

  // A claim is in flight only while its device waits for it, a delete only after the device was stopped.
  predicate Matched(s: State) {
    && (forall i :: 0 <= i < |s.flight| ==> PhaseFits(s, s.flight[i]))
    && (forall i, j :: 0 <= i < j < |s.flight| && Claiming(s.flight[i]) && Claiming(s.flight[j]) ==>
          s.flight[i].device != s.flight[j].device)
  }

  predicate PhaseFits(s: State, q: Request) {
    && q.device < |s.devices|
    && (q.PutAcquire? ==> s.devices[q.device].phase.Waiting?)
    && (q.Delete? ==> s.devices[q.device].phase.Running? && s.devices[q.device].stopped)
  }

  // A request leaves the network and its sender moves on.
  lemma MatchedWithout(s: State, t: State, i: nat)
    requires Matched(s) && i < |s.flight| && t.flight == Without(s.flight, i) && |t.devices| == |s.devices|
    requires forall d :: 0 <= d < |s.devices| && d != s.flight[i].device ==> t.devices[d] == s.devices[d]
    requires var d := s.flight[i].device;
             && (t.devices[d].phase == s.devices[d].phase || s.flight[i].PutAcquire?)
             && t.devices[d].stopped == s.devices[d].stopped
    ensures Matched(t)
  {
    assert forall k :: 0 <= k < |t.flight| ==> t.flight[k] == s.flight[if k < i then k else k + 1];
    forall k | 0 <= k < |t.flight|
      ensures PhaseFits(t, t.flight[k])
    {
      var j := if k < i then k else k + 1;
      assert PhaseFits(s, s.flight[j]) && PhaseFits(s, s.flight[i]);
    }
  }

  lemma MatchedStep(cfg: Config, s: State, e: Event)
    requires Matched(s) && Enabled(cfg, s, e)
    ensures Matched(Apply(cfg, s, e))
  {
    var t := Apply(cfg, s, e);
    if e.Arrive? || e.Lose? {
      MatchedWithout(s, t, e.i);
    } else {
      forall k | 0 <= k < |t.flight|
        ensures PhaseFits(t, t.flight[k])
      {
        assert k < |s.flight| ==> t.flight[k] == s.flight[k] && PhaseFits(s, s.flight[k]);
      }
    }
  }

  // A single device never has a delete processed while it claims.
  lemma {:induction false} AloneRun(cfg: Config, s: State, es: seq<Event>)
    requires Inv(cfg, s) && Calm(s) && Matched(s) && ValidRun(cfg, s, es) && cfg.devices <= 1
    ensures Calm(After(cfg, s, es))
    decreases |es|
  {
    if es != [] {
      var e := es[0];
      assert e.Arrive? && s.flight[e.i].Delete? ==> Quiet(s) by {
        assert forall i :: 0 <= i < |s.flight| ==> PhaseFits(s, s.flight[i]);
      }
      InvStep(cfg, s, e);
      CalmStep(cfg, s, e);
      MatchedStep(cfg, s, e);
      AloneRun(cfg, Apply(cfg, s, e), es[1..]);
    }
  }

  // ---------------------------------------------------------------- runs written out

  /** A list of states, each the outcome of its event, is a run. */
  lemma {:induction false} Trace(cfg: Config, states: seq<State>, es: seq<Event>)
    requires |states| == |es| + 1
    requires forall k :: 0 <= k < |es| ==> Enabled(cfg, states[k], es[k]) && states[k + 1] == Apply(cfg, states[k], es[k])
    ensures ValidRun(cfg, states[0], es) && After(cfg, states[0], es) == states[|es|]
    decreases |es|
  {
    if es != [] {
      Trace(cfg, states[1..], es[1..]);
    }
  }

  lemma {:induction false} RunConcat(cfg: Config, s: State, a: seq<Event>, b: seq<Event>)
    requires ValidRun(cfg, s, a) && ValidRun(cfg, After(cfg, s, a), b)
    ensures ValidRun(cfg, s, a + b) && After(cfg, s, a + b) == After(cfg, After(cfg, s, a), b)
    decreases |a|
  {
    if a == [] {
      assert a + b == b;
    } else {
      RunConcat(cfg, Apply(cfg, s, a[0]), a[1..], b);
      assert (a + b)[1..] == a[1..] + b;
    }
  }
}
