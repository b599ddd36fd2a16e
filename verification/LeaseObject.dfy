/** The object a device runs, section by section, tied to the steps of the lease protocol. */
module LeaseObject {
  import opened Wrappers
  import opened DeviceLease

  datatype PutReply = Accepted | Conflict | NoReply
  datatype AcquireResult = Held | Degraded | LockError

  /** The decision step sends the given write, or refuses the start when there is none. */
  ghost predicate DecidesTo(cfg: Config, s: State, d: Owner, sent: Option<(nat, Record)>)
    requires Enabled(cfg, s, Decide(d))
  {
    var dev, t := s.devices[d], Apply(cfg, s, Decide(d));
    match sent
    case None => t == s.(devices := s.devices[d := dev.(phase := Refused)])
    case Some(w) =>
      && w.0 == Version(dev.phase.read.seen)
      && t == s.(devices := s.devices[d := dev.(phase := Waiting)], flight := s.flight + [PutAcquire(d, w.1, dev.phase.read)])
  }

  /**
    The object a device runs. Its methods are the stretches between two awaits; each leaves the object as
    the corresponding step of the protocol leaves its device.
   */
  class VssDeviceLease {
    const ownerId: Owner
    var version: nat
    var stopped: bool

    ghost predicate Matches(d: Device)
      reads this
    {
      version == d.version && stopped == d.stopped
    }

    /** This object is the device of its owner in the protocol state. */
    ghost predicate MatchesIn(s: State)
      reads this
    {
      ownerId < |s.devices| && Matches(s.devices[ownerId])
    }

    constructor (ownerId: Owner)
      ensures this.ownerId == ownerId && Matches(FRESH)
    {
      this.ownerId := ownerId;
      version := 0;
      stopped := false;
    }

    /** From the object read to the write to send, if the lease is free. */
    method AcquireAfterRead(obj: Option<Object>, now: int) returns (r: Option<(nat, Record)>)
      ensures r == None <==>
                obj.Some? && obj.value.value.Some? && obj.value.value.value.owner != ownerId && now < obj.value.value.value.expiresAt
      ensures r.Some? ==> r.value == (if obj.Some? then obj.value.version else 0, Record(ownerId, now, now + 120_000))
      ensures forall cfg, s: State | MatchesIn(s) && s.devices[ownerId].phase.Got?
                                     && s.devices[ownerId].phase.read.seen == obj && s.server.clock == now ::
                DecidesTo(cfg, s, ownerId, r)
    {
      var curVersion := if obj.Some? then obj.value.version else 0;
      var existing := if obj.Some? then obj.value.value else None;
      if EvaluateDeviceLease(existing, ownerId, now) == Blocked {
        return None;
      }
      return Some((curVersion, NewRecord(ownerId, now)));
    }

    method AcquireAfterWrite(curVersion: nat, reply: PutReply) returns (r: AcquireResult)
      modifies this`version
      ensures r == match reply case Accepted => Held case Conflict => LockError case NoReply => Degraded
      ensures version == if reply.Accepted? then curVersion + 1 else old(version)
      ensures forall d, b: Basis :: old(Matches(d)) && Version(b.seen) == curVersion + 1 && reply.Accepted? ==>
                Matches(AfterAcquired(d, b))
      ensures forall d :: old(Matches(d)) && !reply.Accepted? ==> Matches(AfterDegraded(d))
    {
      match reply
      case Accepted =>
        version := curVersion + 1;
        return Held;
      case Conflict => return LockError;
      case NoReply => return Degraded;
    }

    /** A running device's renewal is the one its heartbeat sends; there is none exactly when no heartbeat can happen. */
    method RenewRequest(now: int) returns (r: Option<(nat, Record)>)
      ensures r == if stopped then None else Some((version, Record(ownerId, now, now + 120_000)))
      ensures forall cfg, s: State | MatchesIn(s) && s.devices[ownerId].phase.Running? && s.server.clock == now ::
                && (r.Some? <==> Enabled(cfg, s, Heartbeat(ownerId)))
                && (r.Some? ==> Apply(cfg, s, Heartbeat(ownerId)) ==
                                s.(flight := s.flight + [PutRenew(ownerId, r.value.0, r.value.1, s.devices[ownerId].basis)]))
    {
      if stopped {
        return None;
      }
      return Some((version, NewRecord(ownerId, now)));
    }

    method RenewStored()
      modifies this`version
      ensures version == old(version) + 1
      ensures forall d, asked, b :: old(Matches(d)) ==> Matches(AfterRenewed(d, asked, b))
    {
      version := version + 1;
    }

    method RenewResync(obj: Option<Object>)
      modifies this`version
      ensures version == (if obj.Some? then obj.value.version else old(version)) + 1
      ensures forall d :: old(Matches(d)) ==> Matches(AfterResync(d, obj))
    {
      version := (if obj.Some? then obj.value.version else version) + 1;
    }

    method ReleaseStart()
      modifies this`stopped
      ensures forall d: Device :: old(Matches(d)) ==> Matches(d.(stopped := true))
    {
      stopped := true;
    }
  }
}
