/** Version numbers under the lease key: what they count, and when a renewal takes after a resync. */
module LeaseVersions {
  import opened Wrappers
  import opened DeviceLease

  /** The writes that took since the last delete. */
  function Since(log: seq<Write>, epoch: nat): nat {
    if log == [] then 0
    else Since(log[..|log| - 1], epoch) + if log[|log| - 1].epoch == epoch then 1 else 0
  }

  // `first` is the version stored at the beginning.
  predicate Counted(sv: Server, first: nat) {
    && (sv.store.Some? ==> sv.store.value.version >= 1)
    && (forall i :: 0 <= i < |sv.log| ==> sv.log[i].epoch <= sv.deletes)
    && Version(sv.store) == (if sv.deletes == 0 then first else 0) + Since(sv.log, sv.deletes)
  }

  lemma {:induction false} SinceNone(log: seq<Write>, epoch: nat)
    requires forall i :: 0 <= i < |log| ==> log[i].epoch < epoch
    ensures Since(log, epoch) == 0
    decreases |log|
  {
    if log != [] {
      SinceNone(log[..|log| - 1], epoch);
    }
  }

  lemma CountedProcessed(sv: Server, q: Request, first: nat)
    requires Counted(sv, first)
    ensures Counted(Processed(sv, q), first)
  {
    var sv' := Processed(sv, q);
    if q.Delete? {
      if sv'.deletes > sv.deletes {
        SinceNone(sv.log, sv'.deletes);
      }
    } else if sv' != sv {
      assert sv'.log[..|sv.log|] == sv.log;
    }
  }

  /** `b` comes later: between deletes the version grows exactly with the writes that took. */
  predicate Grown(a: Server, b: Server) {
    && a.deletes <= b.deletes && |a.log| <= |b.log|
    && (a.deletes == b.deletes ==> Version(b.store) == Version(a.store) + |b.log| - |a.log|)
  }

  lemma {:induction false} GrownRun(cfg: Config, s: State, es: seq<Event>, first: nat)
    requires Counted(s.server, first) && ValidRun(cfg, s, es)
    ensures Counted(After(cfg, s, es).server, first) && Grown(s.server, After(cfg, s, es).server)
    decreases |es|
  {
    if es != [] {
      var s1 := Apply(cfg, s, es[0]);
      if es[0].Arrive? {
        CountedProcessed(s.server, s.flight[es[0].i], first);
      }
      assert Counted(s1.server, first) && Grown(s.server, s1.server);
      GrownRun(cfg, s1, es[1..], first);
    }
  }

  /** In every run the version is the number of writes since the last delete, on top of the first version before any. */
  lemma VersionCountsWrites(cfg: Config, s: State, es: seq<Event>)
    requires Init(cfg, s) && ValidRun(cfg, s, es)
    ensures var sv := After(cfg, s, es).server;
            Version(sv.store) == (if sv.deletes == 0 then Version(s.server.store) else 0) + Since(sv.log, sv.deletes)
  {
    GrownRun(cfg, s, es, Version(s.server.store));
  }

  /** The request takes if it arrives now. */
  predicate Takes(cfg: Config, s: State, i: nat)
    requires Enabled(cfg, s, Arrive(i, true))
  {
    |Apply(cfg, s, Arrive(i, true)).server.log| > |s.server.log|
  }

  /**
    Device `d` resyncs in `s`, reached by any run; any run follows; then a renewal under the resynced version
    arrives. With no delete in between it takes exactly when one other write took since the resync's read, or,
    when the key was absent, exactly when as many took as the device's own old version plus one. After a delete
    it takes exactly when that many writes took since the last delete.
   */
  lemma ResyncedRenewalTakesExactly(cfg: Config, s0: State, before: seq<Event>, d: Owner, between: seq<Event>, i: nat)
    requires Init(cfg, s0) && ValidRun(cfg, s0, before)
    requires Enabled(cfg, After(cfg, s0, before), Resync(d))
    requires ValidRun(cfg, Apply(cfg, After(cfg, s0, before), Resync(d)), between)
    requires var r := Apply(cfg, After(cfg, s0, before), Resync(d));
             var t := After(cfg, r, between);
             && Enabled(cfg, t, Arrive(i, true))
             && t.flight[i].PutRenew? && t.flight[i].version == r.devices[d].version
    ensures var s := After(cfg, s0, before);
            var r := Apply(cfg, s, Resync(d));
            var t := After(cfg, r, between);
            && (t.server.deletes == s.server.deletes && s.server.store.Some? ==>
                  (Takes(cfg, t, i) <==> |t.server.log| == |s.server.log| + 1))
            && (t.server.deletes == s.server.deletes && s.server.store.None? ==>
                  (Takes(cfg, t, i) <==> |t.server.log| == |s.server.log| + s.devices[d].version + 1))
            && (t.server.deletes != s.server.deletes ==>
                  (Takes(cfg, t, i) <==> Since(t.server.log, t.server.deletes) == r.devices[d].version))
  {
    var first := Version(s0.server.store);
    GrownRun(cfg, s0, before, first);
    var r := Apply(cfg, After(cfg, s0, before), Resync(d));
    GrownRun(cfg, r, between, first);
  }
}
