/** Runs of the lease protocol written out: what an undisturbed device gets, and how a claim goes wrong. */
module LeaseRuns {
  import opened Wrappers
  import opened DeviceLease

  /** An undisturbed claim is refused, and leaves the store alone, when another device's record is unexpired. */
  lemma UndisturbedRefused(cfg: Config, s: State, d: Owner)
    requires d < |s.devices| && s.devices[d].phase.Idle? && LiveOther(Stored(s.server.store), d, s.server.clock)
    ensures ValidRun(cfg, s, [Read(d), Decide(d)])
    ensures After(cfg, s, [Read(d), Decide(d)]) == s.(devices := s.devices[d := s.devices[d].(phase := Refused)])
  {
    var s1 := Apply(cfg, s, Read(d));
    Trace(cfg, [s, s1, Apply(cfg, s1, Decide(d))], [Read(d), Decide(d)]);
  }

  function Claim(d: Owner, at: nat): seq<Event> {
    [Read(d), Decide(d), Arrive(at, true)]
  }

  /** It takes when the stored record is absent, malformed, its own or expired. */
  lemma UndisturbedTakes(cfg: Config, s: State, d: Owner)
    requires d < |s.devices| && s.devices[d].phase.Idle? && !LiveOther(Stored(s.server.store), d, s.server.clock)
    ensures ValidRun(cfg, s, Claim(d, |s.flight|))
    ensures var t := After(cfg, s, Claim(d, |s.flight|));
            var o := Object(Version(s.server.store) + 1, Some(NewRecord(d, s.server.clock)));
            && t.server.store == Some(o) && t.server.deletes == s.server.deletes
            && t.server.clock == s.server.clock && t.flight == s.flight
            && t.devices == s.devices[d := s.devices[d].(phase := Running, version := o.version,
                                                         basis := Some(Basis(s.server.deletes, Some(o))))]
  {
    var s1 := Apply(cfg, s, Read(d));
    var s2 := Apply(cfg, s1, Decide(d));
    var s3 := Apply(cfg, s2, Arrive(|s.flight|, true));
    assert s3.flight == s.flight;
    assert s3.devices == s.devices[d := s3.devices[d]];
    Trace(cfg, [s, s1, s2, s3], Claim(d, |s.flight|));
  }

  /**
    Undisturbed, a device that takes the lease keeps any other that starts later out for two minutes and no longer:
    that one's claim is refused before they are over and goes out from then on.
   */
  lemma LeaseLastsExactly(cfg: Config, s: State, d: Owner, e: Owner, ms: nat)
    requires d < |s.devices| && e < |s.devices| && d != e && s.devices[d].phase.Idle? && s.devices[e].phase.Idle?
    requires !LiveOther(Stored(s.server.store), d, s.server.clock)
    ensures ValidRun(cfg, s, Claim(d, |s.flight|) + [Tick(ms), Read(e), Decide(e)])
    ensures var t := After(cfg, s, Claim(d, |s.flight|) + [Tick(ms), Read(e), Decide(e)]);
            && |t.devices| == |s.devices|
            && (t.devices[e].phase.Refused? <==> ms < 120_000) && (t.devices[e].phase.Waiting? <==> ms >= 120_000)
  {
    UndisturbedTakes(cfg, s, d);
    var a := After(cfg, s, Claim(d, |s.flight|));
    var b := Apply(cfg, a, Tick(ms));
    var c := Apply(cfg, b, Read(e));
    Trace(cfg, [a, b, c, Apply(cfg, c, Decide(e))], [Tick(ms), Read(e), Decide(e)]);
    RunConcat(cfg, s, Claim(d, |s.flight|), [Tick(ms), Read(e), Decide(e)]);
  }

  // Device 0 has read a lapsed record and sent its claim.
  predicate ClaimSent(cfg: Config, lapsed: Object, s: State) {
    && s.server.clock == 0 && s.flight == [PutAcquire(0, NewRecord(0, 0), Basis(0, Some(lapsed)))]
    && |s.devices| == cfg.devices && forall d :: 1 < d < |s.devices| ==> s.devices[d] == FRESH
  }

  function Lapsed(cfg: Config): Object {
    Object(1, Some(Record(cfg.devices, 0, 0)))
  }

  lemma SendClaim(cfg: Config, s: State)
    requires cfg.devices >= 2 && Init(cfg, s) && s.server.store == Some(Lapsed(cfg)) && s.server.clock == 0
    ensures ValidRun(cfg, s, [Read(0), Decide(0)])
    ensures var t := After(cfg, s, [Read(0), Decide(0)]);
            ClaimSent(cfg, Lapsed(cfg), t) && t.server == s.server && t.devices[1] == FRESH
  {
    var s1 := Apply(cfg, s, Read(0));
    Trace(cfg, [s, s1, Apply(cfg, s1, Decide(0))], [Read(0), Decide(0)]);
  }

  // Device 1 takes the lapsed lease over and releases it: the key is absent again.
  lemma ComeAndGo(cfg: Config, s: State) returns (es: seq<Event>)
    requires cfg.devices >= 3 && ClaimSent(cfg, Lapsed(cfg), s) && !cfg.releasesWait
    requires s.server.store == Some(Lapsed(cfg)) && s.devices[1] == FRESH
    ensures ValidRun(cfg, s, es)
    ensures var t := After(cfg, s, es); ClaimSent(cfg, Lapsed(cfg), t) && t.server.store == None
  {
    UndisturbedTakes(cfg, s, 1);
    var t := After(cfg, s, Claim(1, 1));
    var t1 := Apply(cfg, t, Release(1));
    var t2 := Apply(cfg, t1, Arrive(1, true));
    Trace(cfg, [t, t1, t2], [Release(1), Arrive(1, true)]);
    RunConcat(cfg, s, Claim(1, 1), [Release(1), Arrive(1, true)]);
    es := Claim(1, 1) + [Release(1), Arrive(1, true)];
  }

  function LeaseOf1(at: nat): Object {
    Object(1, Some(NewRecord(1, at)))
  }

  // Device 1 started degraded on an empty store and sent two heartbeats: the first took and has lapsed.
  predicate FirstLapsed(cfg: Config, t: State) {
    && t.server.store == Some(LeaseOf1(0)) && t.server.clock == LEASE_MS && t.server.deletes == 0
    && t.flight == [PutRenew(1, 0, NewRecord(1, LEASE_MS - 1), None)]
    && |t.devices| == cfg.devices >= 2 && t.devices[0] == FRESH && t.devices[1].phase.Running? && t.devices[1].version == 1
  }

  // Its second heartbeat took after its own delete, and device 0 still claims over the lapsed record.
  predicate SecondTook(cfg: Config, t: State) {
    && t.server.store == Some(LeaseOf1(LEASE_MS - 1)) && t.server.clock == LEASE_MS && |t.devices| == cfg.devices >= 2
    && t.flight == [PutAcquire(0, NewRecord(0, LEASE_MS), Basis(0, Some(LeaseOf1(0))))]
  }

  lemma FirstLapses(cfg: Config, s: State) returns (es: seq<Event>)
    requires cfg.devices >= 2 && Init(cfg, s) && s.server.store == None && s.server.clock == 0
    ensures ValidRun(cfg, s, es) && FirstLapsed(cfg, After(cfg, s, es))
  {
    var s1 := Apply(cfg, s, ReadFails(1));
    var s2 := Apply(cfg, s1, Heartbeat(1));
    var s3 := Apply(cfg, s2, Tick(LEASE_MS - 1));
    var s4 := Apply(cfg, s3, Heartbeat(1));
    assert s4.flight == [PutRenew(1, 0, NewRecord(1, 0), None), PutRenew(1, 0, NewRecord(1, LEASE_MS - 1), None)];
    var s5 := Apply(cfg, s4, Arrive(0, true));
    var s6 := Apply(cfg, s5, Tick(1));
    es := [ReadFails(1), Heartbeat(1), Tick(LEASE_MS - 1), Heartbeat(1), Arrive(0, true), Tick(1)];
    Trace(cfg, [s, s1, s2, s3, s4, s5, s6], es);
  }

  // Device 0 reads the lapsed record and claims; 1 releases, and its second heartbeat follows its own delete.
  lemma LateHeartbeat(cfg: Config, s: State) returns (es: seq<Event>)
    requires FirstLapsed(cfg, s) && !cfg.releasesWait
    ensures ValidRun(cfg, s, es) && SecondTook(cfg, After(cfg, s, es))
  {
    var s1 := Apply(cfg, s, Read(0));
    var s2 := Apply(cfg, s1, Decide(0));
    var s3 := Apply(cfg, s2, Release(1));
    assert s3.flight == s2.flight + [Delete(1, 1)];
    var s4 := Apply(cfg, s3, Arrive(2, true));
    var s5 := Apply(cfg, s4, Arrive(0, true));
    es := [Read(0), Decide(0), Release(1), Arrive(2, true), Arrive(0, true)];
    Trace(cfg, [s, s1, s2, s3, s4, s5], es);
  }

  lemma StealAtOnce(cfg: Config, u: State)
    requires SecondTook(cfg, u)
    ensures ValidRun(cfg, u, [Arrive(0, true)]) && !Exclusive(After(cfg, u, [Arrive(0, true)]).server)
  {
    var v := Apply(cfg, u, Arrive(0, true));
    Trace(cfg, [u, v], [Arrive(0, true)]);
    var w := v.server.log[|u.server.log|];
    assert !w.renewal && Steals(w);
  }

  /** Two devices suffice, whether or not the store checks the version of a delete. */
  lemma TwoDevicesSteal(cfg: Config) returns (s: State, es: seq<Event>)
    requires cfg.devices >= 2 && !cfg.releasesWait
    ensures Init(cfg, s) && ValidRun(cfg, s, es) && !Exclusive(After(cfg, s, es).server)
  {
    s := State(Server(0, None, 0, [], cfg.strict), seq(cfg.devices, _ => FRESH), []);
    var a := FirstLapses(cfg, s);
    var t := After(cfg, s, a);
    var b := LateHeartbeat(cfg, t);
    RunConcat(cfg, s, a, b);
    StealAtOnce(cfg, After(cfg, t, b));
    RunConcat(cfg, s, a + b, [Arrive(0, true)]);
    es := a + b + [Arrive(0, true)];
  }

  /**
    No claim ever replaces another device's unexpired record, in any run, if and only if deletes are held
    back while a device is between its read and its write, or there is no second device. Whether the store
    checks the version that a delete names makes no difference.
   */
  lemma ExclusiveExactly(cfg: Config)
    ensures AlwaysExclusive(cfg) <==> cfg.releasesWait || cfg.devices <= 1
  {
    if cfg.releasesWait || cfg.devices <= 1 {
      forall s, es | Init(cfg, s) && ValidRun(cfg, s, es)
        ensures Exclusive(After(cfg, s, es).server)
      {
        if cfg.releasesWait {
          CalmRun(cfg, s, es);
        } else {
          AloneRun(cfg, s, es);
        }
      }
    } else {
      var s, es := TwoDevicesSteal(cfg);
    }
  }

  // ---------------------------------------------------------------- after a conflict

  /**
    The resynced version is one past the stored one, so a renewal that nobody else's write precedes is
    refused again and leaves the store alone.
   */
  lemma ResyncedRenewalConflicts(cfg: Config, s: State, d: Owner)
    requires d < |s.devices| && s.devices[d].conflicted && s.devices[d].phase.Running? && !s.devices[d].stopped
    ensures var run := [Resync(d), Heartbeat(d), Arrive(|s.flight|, true)];
            && ValidRun(cfg, s, run)
            && var t := After(cfg, s, run);
               t.server == s.server && |t.devices| == |s.devices| && t.devices[d].conflicted
  {
    var s1 := Apply(cfg, s, Resync(d));
    var s2 := Apply(cfg, s1, Heartbeat(d));
    var s3 := Apply(cfg, s2, Arrive(|s.flight|, true));
    Trace(cfg, [s, s1, s2, s3], [Resync(d), Heartbeat(d), Arrive(|s.flight|, true)]);
  }
}
