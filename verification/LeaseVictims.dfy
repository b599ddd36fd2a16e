/** Whose record a claim can replace: for a device that is still running, two starts are safe and three are not. */
module LeaseVictims {
  import opened Wrappers
  import opened DeviceLease
  import opened LeaseRuns

  /** The event is a claim that takes over an unexpired record whose device is still running. */
  predicate StealsFromRunning(s: State, e: Event) {
    && e.Arrive? && e.i < |s.flight| && s.flight[e.i].PutAcquire?
    && Version(s.flight[e.i].read.seen) == Version(s.server.store)
    && LiveOther(Stored(s.server.store), s.flight[e.i].device, s.server.clock)
    && var victim := Stored(s.server.store).value.owner;
       victim < |s.devices| && s.devices[victim].phase.Running? && !s.devices[victim].stopped
  }

  /** No event of any run does. */
  ghost predicate AlwaysSparesRunning(cfg: Config) {
    forall s, es, e ::
      Init(cfg, s) && ValidRun(cfg, s, es) && Enabled(cfg, After(cfg, s, es), e) ==> !StealsFromRunning(After(cfg, s, es), e)
  }

  predicate OthersStopped(s: State, me: Owner) {
    forall v :: 0 <= v < |s.devices| && v != me ==> s.devices[v].stopped
  }

  // With two devices, a claimant that missed a delete is the only one not stopped.
  predicate MissedMeansAlone(s: State) {
    && (forall d :: 0 <= d < |s.devices| && s.devices[d].phase.Got? && s.devices[d].phase.read.epoch != s.server.deletes ==>
          OthersStopped(s, d))
    && (forall i :: 0 <= i < |s.flight| && s.flight[i].PutAcquire? && s.flight[i].read.epoch != s.server.deletes ==>
          OthersStopped(s, s.flight[i].device))
  }

  // Processing the delete of a stopped device leaves every claimant with only stopped others.
  lemma AloneArrive(cfg: Config, s: State, i: nat, replied: bool)
    requires |s.devices| <= 2 && Matched(s) && MissedMeansAlone(s) && Enabled(cfg, s, Arrive(i, replied))
    ensures MissedMeansAlone(Arrived(s, i, replied))
  {
    var q, t := s.flight[i], Arrived(s, i, replied);
    assert PhaseFits(s, q);
    assert forall v :: 0 <= v < |s.devices| ==> t.devices[v].stopped == s.devices[v].stopped;
    forall d | 0 <= d < |t.devices| && t.devices[d].phase.Got? && t.devices[d].phase.read.epoch != t.server.deletes
      ensures OthersStopped(t, d)
    {
      assert s.devices[d].phase == t.devices[d].phase;
    }
    forall k | 0 <= k < |t.flight| && t.flight[k].PutAcquire? && t.flight[k].read.epoch != t.server.deletes
      ensures OthersStopped(t, t.flight[k].device)
    {
      var j := if k < i then k else k + 1;
      assert t.flight[k] == s.flight[j] && PhaseFits(s, s.flight[j]);
    }
  }

  lemma AloneStep(cfg: Config, s: State, e: Event)
    requires |s.devices| <= 2 && Matched(s) && MissedMeansAlone(s) && Enabled(cfg, s, e)
    ensures MissedMeansAlone(Apply(cfg, s, e))
  {
    if e.Arrive? {
      AloneArrive(cfg, s, e.i, e.replied);
    } else {
      AloneElsewhere(cfg, s, e);
    }
  }

  lemma AloneElsewhere(cfg: Config, s: State, e: Event)
    requires MissedMeansAlone(s) && Enabled(cfg, s, e) && !e.Arrive?
    ensures MissedMeansAlone(Apply(cfg, s, e))
  {
    var t := Apply(cfg, s, e);
    assert t.server.deletes == s.server.deletes;
    assert forall v :: 0 <= v < |s.devices| ==> s.devices[v].stopped ==> t.devices[v].stopped;
    assert forall d :: 0 <= d < |s.devices| && OthersStopped(s, d) ==> OthersStopped(t, d);
    forall d | 0 <= d < |t.devices| && t.devices[d].phase.Got? && t.devices[d].phase.read.epoch != t.server.deletes
      ensures OthersStopped(t, d)
    {
      assert t.devices[d].phase == s.devices[d].phase;
    }
    forall k | 0 <= k < |t.flight| && t.flight[k].PutAcquire? && t.flight[k].read.epoch != t.server.deletes
      ensures OthersStopped(t, t.flight[k].device)
    {
      if e.Lose? {
        assert t.flight[k] == s.flight[if k < e.i then k else k + 1];
      } else if k < |s.flight| {
        assert t.flight[k] == s.flight[k];
      }
    }
  }

  lemma {:induction false} TwoRun(cfg: Config, s: State, es: seq<Event>)
    requires Inv(cfg, s) && cfg.devices <= 2 && Matched(s) && MissedMeansAlone(s) && ValidRun(cfg, s, es)
    ensures Inv(cfg, After(cfg, s, es)) && Matched(After(cfg, s, es)) && MissedMeansAlone(After(cfg, s, es))
    decreases |es|
  {
    if es != [] {
      InvStep(cfg, s, es[0]);
      MatchedStep(cfg, s, es[0]);
      AloneStep(cfg, s, es[0]);
      TwoRun(cfg, Apply(cfg, s, es[0]), es[1..]);
    }
  }

  lemma Spares(cfg: Config, s: State, es: seq<Event>, e: Event)
    requires cfg.releasesWait || cfg.devices <= 2
    requires Init(cfg, s) && ValidRun(cfg, s, es)
    ensures !StealsFromRunning(After(cfg, s, es), e)
  {
    var t := After(cfg, s, es);
    InvRun(cfg, s, es);
    if cfg.releasesWait {
      CalmRun(cfg, s, es);
    } else {
      TwoRun(cfg, s, es);
    }
    if e.Arrive? && e.i < |t.flight| && t.flight[e.i].PutAcquire? && t.flight[e.i].read.epoch == t.server.deletes {
      assert RequestOk(t.flight[e.i], t.server);
    }
  }

  /**
    No claim ever replaces the unexpired record of a device that is still running, in any run, if and only if
    deletes are held back while a device is between its read and its write, or there is no third device.
   */
  lemma SparesRunningExactly(cfg: Config)
    ensures AlwaysSparesRunning(cfg) <==> cfg.releasesWait || cfg.devices <= 2
  {
    if cfg.releasesWait || cfg.devices <= 2 {
      forall s, es, e | Init(cfg, s) && ValidRun(cfg, s, es) && Enabled(cfg, After(cfg, s, es), e)
        ensures !StealsFromRunning(After(cfg, s, es), e)
      {
        Spares(cfg, s, es, e);
      }
    } else {
      var s, es := RunningVictim(cfg);
      assert StealsFromRunning(After(cfg, s, es), Arrive(0, true));
    }
  }

  /** Device 1 comes and goes while 0's claim is under way; 2 then runs under the version that 0 had read. */
  lemma RunningVictim(cfg: Config) returns (s: State, es: seq<Event>)
    requires cfg.devices >= 3 && !cfg.releasesWait
    ensures Init(cfg, s) && ValidRun(cfg, s, es)
    ensures Enabled(cfg, After(cfg, s, es), Arrive(0, true)) && StealsFromRunning(After(cfg, s, es), Arrive(0, true))
  {
    s := State(Server(0, Some(Lapsed(cfg)), 0, [], cfg.strict), seq(cfg.devices, _ => FRESH), []);
    SendClaim(cfg, s);
    var a := [Read(0), Decide(0)];
    var t := After(cfg, s, a);
    var b := ComeAndGo(cfg, t);
    var u := After(cfg, t, b);
    UndisturbedTakes(cfg, u, 2);
    RunConcat(cfg, s, a, b);
    RunConcat(cfg, s, a + b, Claim(2, 1));
    es := a + b + Claim(2, 1);
  }

  /** A version repeats after a delete: such a claim does replace a live record, with no degraded start involved. */
  lemma RepeatedVersionSteals(cfg: Config) returns (s: State, es: seq<Event>)
    requires cfg.devices >= 3 && !cfg.releasesWait
    ensures Init(cfg, s) && ValidRun(cfg, s, es) && !Exclusive(After(cfg, s, es).server)
  {
    var before;
    s, before := RunningVictim(cfg);
    var t := After(cfg, s, before);
    var u := Apply(cfg, t, Arrive(0, true));
    Trace(cfg, [t, u], [Arrive(0, true)]);
    RunConcat(cfg, s, before, [Arrive(0, true)]);
    es := before + [Arrive(0, true)];
    var w := u.server.log[|t.server.log|];
    assert !w.renewal && Steals(w);
  }
}
