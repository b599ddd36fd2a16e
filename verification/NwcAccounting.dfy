/**
  Where every sat of the spent figure comes from: what was sent, what is being handed over, what was charged
  for payments that never left, and what refunds lost by falling between a read and the debit that follows it.
 */
module NwcAccounting {
  import opened Wrappers
  import opened NwcBudget

  /** What the current window started with: the loaded figure, or nothing after a reset. */
  function Opening(s: State, loaded: nat): nat {
    if s.window == 0 then loaded else 0
  }

  /** Every charge of the window that was not given back, on top of what the window started with. */
  function Owed(s: State, loaded: nat): nat {
    Opening(s, loaded) + Total(s.reqs, s.window, Charges)
  }

  // ---------------------------------------------------------------- refunds that a debit overwrites

  /** `missed`: sats refunded since the last read; `lost`: sats refunded in this window between a read and its later debit. */
  datatype Tally = Tally(missed: nat, lost: nat)

  function Tallied(cfg: Config, s: State, e: Event, y: Tally): Tally
    requires Enabled(cfg, s, e)
  {
    if !e.On? then y
    else
      match e.act
      case ReadBudget => Tally(0, if WindowElapsed(cfg.renewal, s.budget.last, s.clock) then 0 else y.lost)
      case Debit => Tally(0, y.lost + y.missed)
      case SendFail => y.(missed := y.missed + s.reqs[e.i].Sats())
      case FailPayment => y.(missed := y.missed + s.reqs[e.i].Sats())
      case _ => y
  }

  function TallyAfter(cfg: Config, s: State, run: seq<Event>, y: Tally): Tally
    requires ValidRun(cfg, s, run)
    decreases run
  {
    if run == [] then y else TallyAfter(cfg, Apply(cfg, s, run[0]), run[1..], Tallied(cfg, s, run[0], y))
  }

  /** Sats refunded in the current window between a read and the debit that followed it. */
  function LostRefunds(cfg: Config, s: State, run: seq<Event>): nat
    requires ValidRun(cfg, s, run)
  {
    TallyAfter(cfg, s, run, Tally(0, 0)).lost
  }

  // The figure is what is owed and what refunds lost; a figure read and not yet debited has missed the refunds since.
  predicate Accounts(s: State, loaded: nat, y: Tally) {
    && s.budget.spent == Owed(s, loaded) + y.lost
    && forall j :: 0 <= j < |s.reqs| && s.reqs[j].phase.Read? ==> s.reqs[j].phase.spentToday == s.budget.spent + y.missed
  }

  lemma NothingOwedAfterReset(cfg: Config, s: State, i: nat)
    requires GateInv(s) && BudgetInv(cfg, s) && Enabled(cfg, s, On(i, ReadBudget))
    requires WindowElapsed(cfg.renewal, s.budget.last, s.clock)
    ensures var t := Apply(cfg, s, On(i, ReadBudget)); Total(t.reqs, t.window, Charges) == 0
  {
    var t := Apply(cfg, s, On(i, ReadBudget));
    assert RequestInv(cfg, s, LiveSum(s.reqs, s.window), s.reqs[i]);
    forall j | 0 <= j < |t.reqs|
      ensures Weight(t.reqs[j], t.window, Charges) == 0
    {
      if j != i {
        MutualExclusion(s, i, j);
        OthersSurviveReset(cfg, s, t, s.reqs[j]);
      }
    }
    TotalFresh(t.reqs, t.window, Charges);
  }

  // Only a debit and a refund change what a request's charge counts for.
  lemma WeightNext(cfg: Config, s: State, r: Request, act: Act)
    requires ActEnabled(cfg, s, r, act) && (act.SendFail? || act.FailPayment? ==> r.LiveIn(s.window))
    ensures var was, now := Weight(r, s.window, Charges), Weight(NextRequest(cfg, s, r, act), s.window, Charges);
            && (act.Debit? ==> was == 0 && now == r.Sats())
            && (act.SendFail? || act.FailPayment? ==> was == r.Sats() && now == 0)
            && (!act.Debit? && !act.SendFail? && !act.FailPayment? ==> now == was)
  {
  }

  // What a step of request `i` adds to what is owed.
  lemma OwedNext(cfg: Config, s: State, i: nat, act: Act, loaded: nat)
    requires SettlesWithinWindow(cfg) && GateInv(s) && BudgetInv(cfg, s) && Enabled(cfg, s, On(i, act))
    ensures var t := Apply(cfg, s, On(i, act));
            var r, was, now := s.reqs[i], Owed(s, loaded), Owed(t, loaded);
            && (act.Debit? ==> now == was + r.Sats())
            && (act.SendFail? || act.FailPayment? ==> r.Sats() <= was && now == was - r.Sats())
            && (act.ReadBudget? ==> now == if t.window == s.window then was else 0)
            && (!act.Debit? && !act.SendFail? && !act.FailPayment? && !act.ReadBudget? ==> now == was)
  {
    var t := Apply(cfg, s, On(i, act));
    if act.ReadBudget? && WindowElapsed(cfg.renewal, s.budget.last, s.clock) {
      NothingOwedAfterReset(cfg, s, i);
    } else {
      if act.SendFail? || act.FailPayment? {
        RefundStep(cfg, s, i, act);
      }
      TotalUpdate(s.reqs, s.window, Charges, i, t.reqs[i]);
      TotalAtLeast(s.reqs, s.window, Charges, i);
      WeightNext(cfg, s, s.reqs[i], act);
    }
  }

  lemma AccountsOn(cfg: Config, s: State, i: nat, act: Act, loaded: nat, y: Tally)
    requires SettlesWithinWindow(cfg) && GateInv(s) && BudgetInv(cfg, s) && Accounts(s, loaded, y)
    requires Enabled(cfg, s, On(i, act))
    ensures Accounts(Apply(cfg, s, On(i, act)), loaded, Tallied(cfg, s, On(i, act), y))
  {
    var t := Apply(cfg, s, On(i, act));
    OwedNext(cfg, s, i, act, loaded);
    forall j | 0 <= j < |s.reqs| && j != i && (act.ReadBudget? || act.Debit? || act.SendFail?)
      ensures !s.reqs[j].phase.Read?
    {
      MutualExclusion(s, i, j);
      assert RequestInv(cfg, s, LiveSum(s.reqs, s.window), s.reqs[i]);
      assert RequestInv(cfg, s, LiveSum(s.reqs, s.window), s.reqs[j]);
    }
  }

  lemma AccountsStep(cfg: Config, s: State, e: Event, loaded: nat, y: Tally)
    requires SettlesWithinWindow(cfg) && GateInv(s) && BudgetInv(cfg, s) && Accounts(s, loaded, y) && Enabled(cfg, s, e)
    ensures Accounts(Apply(cfg, s, e), loaded, Tallied(cfg, s, e, y))
  {
    if e.On? {
      AccountsOn(cfg, s, e.i, e.act, loaded, y);
    } else {
      AccountsElsewhere(cfg, s, e, loaded, y);
    }
  }

  lemma AccountsElsewhere(cfg: Config, s: State, e: Event, loaded: nat, y: Tally)
    requires Accounts(s, loaded, y) && Enabled(cfg, s, e) && !e.On?
    ensures Accounts(Apply(cfg, s, e), loaded, y)
  {
    if e.Arrive? {
      TotalAppend(s.reqs, s.window, Charges, Request(e.msat, s.chain, Queued, false));
    }
  }

  lemma {:induction false} AccountsRun(cfg: Config, s: State, run: seq<Event>, loaded: nat, y: Tally)
    requires SettlesWithinWindow(cfg) && GateInv(s) && BudgetInv(cfg, s) && Accounts(s, loaded, y)
    requires ValidRun(cfg, s, run)
    ensures Accounts(After(cfg, s, run), loaded, TallyAfter(cfg, s, run, y))
    decreases run
  {
    if run != [] {
      AccountsStep(cfg, s, run[0], loaded, y);
      GateStep(cfg, s, run[0]);
      BudgetStep(cfg, s, run[0]);
      AccountsRun(cfg, Apply(cfg, s, run[0]), run[1..], loaded, Tallied(cfg, s, run[0], y));
    }
  }

  // ---------------------------------------------------------------- the whole figure

  /** Every charge that was not given back is sent, being handed over, or stranded. */
  lemma {:induction false} ChargesSplit(reqs: seq<Request>, w: nat)
    ensures Total(reqs, w, Charges) == Total(reqs, w, Sent) + Total(reqs, w, Reserved) + Total(reqs, w, Stranded)
    decreases |reqs|
  {
    if reqs != [] {
      ChargesSplit(reqs[..|reqs| - 1], w);
    }
  }

  /**
    In every run the figure is exactly what the window opened with, the charges of payments sent and not
    refunded, of the one being handed over and of those abandoned unsent, and the refunds lost to a debit.
   */
  lemma ExactAccounting(cfg: Config, s: State, run: seq<Event>)
    requires SettlesWithinWindow(cfg) && Init(cfg, s) && ValidRun(cfg, s, run)
    ensures var t := After(cfg, s, run);
            t.budget.spent == Opening(t, s.budget.spent)
                              + Total(t.reqs, t.window, Sent) + Total(t.reqs, t.window, Reserved)
                              + Total(t.reqs, t.window, Stranded) + LostRefunds(cfg, s, run)
  {
    AccountsRun(cfg, s, run, s.budget.spent, Tally(0, 0));
    ChargesSplit(After(cfg, s, run).reqs, After(cfg, s, run).window);
  }

  /** Refunds compose with later charges exactly when none of the window fell between a read and its later debit. */
  lemma RefundsComposeExactly(cfg: Config, s: State, run: seq<Event>)
    requires SettlesWithinWindow(cfg) && Init(cfg, s) && ValidRun(cfg, s, run)
    ensures After(cfg, s, run).budget.spent >= Owed(After(cfg, s, run), s.budget.spent)
    ensures After(cfg, s, run).budget.spent == Owed(After(cfg, s, run), s.budget.spent) <==> LostRefunds(cfg, s, run) == 0
  {
    AccountsRun(cfg, s, run, s.budget.spent, Tally(0, 0));
  }

  lemma {:induction false} StrandedExactly(reqs: seq<Request>, w: nat)
    ensures Total(reqs, w, Stranded) == 0 <==>
            forall i :: 0 <= i < |reqs| && reqs[i].phase == Abandoned(w) ==> reqs[i].Sats() == 0
    decreases |reqs|
  {
    if reqs != [] {
      var n := |reqs| - 1;
      StrandedExactly(reqs[..n], w);
      assert forall i :: 0 <= i < n ==> reqs[..n][i] == reqs[i];
    }
  }

  /**
    Lost refunds aside, the figure counts only payments handed to the node, or being handed over, exactly when no
    request with a positive charge was abandoned in the current window.
   */
  lemma OnlySentExactly(cfg: Config, s: State, run: seq<Event>)
    requires SettlesWithinWindow(cfg) && Init(cfg, s) && ValidRun(cfg, s, run)
    ensures var t := After(cfg, s, run);
            t.budget.spent == Opening(t, s.budget.spent)
                              + Total(t.reqs, t.window, Sent) + Total(t.reqs, t.window, Reserved) + LostRefunds(cfg, s, run)
            <==> forall i :: 0 <= i < |t.reqs| && t.reqs[i].phase == Abandoned(t.window) ==> t.reqs[i].Sats() == 0
  {
    ExactAccounting(cfg, s, run);
    StrandedExactly(After(cfg, s, run).reqs, After(cfg, s, run).window);
  }

  // ---------------------------------------------------------------- failing runs

  /** A request that is debited and then abandoned by an exception. */
  function ChargeAndAbandon(msat: nat): seq<Event> {
    [Arrive(msat), On(0, Start), On(0, ReadBudget), On(0, Debit), On(0, Abandon), On(0, Release)]
  }

  function EmptyPairing(now: int): State {
    State([], None, Budget(0, now), now, 0)
  }

  /** From an empty pairing: no payment is ever handed to the node, the gate is open again, and the charge stays. */
  lemma AbandonedChargeStays(cfg: Config, msat: nat, now: int)
    requires msat >= 1000 && WithinControls(cfg, 0, msat / 1000)
    ensures var s, run := EmptyPairing(now), ChargeAndAbandon(msat);
            && Init(cfg, s) && ValidRun(cfg, s, run)
            && (forall k :: 0 <= k < |run| ==> run[k] != On(0, SendOk))
            && var t := After(cfg, s, run);
               && t.reqs == [Request(msat, None, Abandoned(0), true)]
               && t.budget.spent == msat / 1000 > 0 && Total(t.reqs, t.window, Sent) == 0
  {
    var s, run := EmptyPairing(now), ChargeAndAbandon(msat);
    ChargeFirst(cfg, msat, now);
    AbandonFirst(cfg, msat, now);
    TallyConcat(cfg, s, run[..4], run[4..], Tally(0, 0));
    assert run == run[..4] + run[4..];
  }

  function StrandedIn(msat: nat, now: int): State {
    State([Request(msat, None, Abandoned(0), true)], Some(0), Budget(msat / 1000, now), now, 0)
  }

  lemma AbandonFirst(cfg: Config, msat: nat, now: int)
    ensures var s, run := FirstIn(msat, Charged(now, 0), now, now), ChargeAndAbandon(msat)[4..];
            && ValidRun(cfg, s, run) && After(cfg, s, run) == StrandedIn(msat, now)
    ensures Total(StrandedIn(msat, now).reqs, 0, Sent) == 0
  {
    var t, y := FirstIn(msat, Charged(now, 0), now, now), Tally(0, 0);
    var t1 := Apply(cfg, t, On(0, Abandon));
    var t2 := Apply(cfg, t1, On(0, Release));
    assert ChargeAndAbandon(msat)[4..] == [On(0, Abandon), On(0, Release)];
    assert t2.reqs == StrandedIn(msat, now).reqs;
    Traced(cfg, [t, t1, t2], [y, y, y], [On(0, Abandon), On(0, Release)]);
    NothingSent(StrandedIn(msat, now).reqs[0]);
  }

  lemma NothingSent(r: Request)
    requires r.phase == Abandoned(0)
    ensures Total([r], 0, Sent) == 0
  {
    TotalAppend([], 0, Sent, r);
    assert [] + [r] == [r];
  }

  // A pairing whose one request, charged at `at`, is in the given phase.
  function FirstIn(msat: nat, phase: Phase, at: int, clock: int): State {
    State([Request(msat, None, phase, phase.InFlight?)], Some(0), Budget(msat / 1000, at), clock, 0)
  }

  lemma {:induction false} Traced(cfg: Config, states: seq<State>, ys: seq<Tally>, run: seq<Event>)
    requires |states| == |ys| == |run| + 1
    requires forall k :: 0 <= k < |run| ==>
               && Enabled(cfg, states[k], run[k]) && states[k + 1] == Apply(cfg, states[k], run[k])
               && ys[k + 1] == Tallied(cfg, states[k], run[k], ys[k])
    ensures ValidRun(cfg, states[0], run) && After(cfg, states[0], run) == states[|run|]
    ensures TallyAfter(cfg, states[0], run, ys[0]) == ys[|run|]
    decreases |run|
  {
    if run != [] {
      Traced(cfg, states[1..], ys[1..], run[1..]);
    }
  }

  lemma {:induction false} TallyConcat(cfg: Config, s: State, a: seq<Event>, b: seq<Event>, y: Tally)
    requires ValidRun(cfg, s, a) && ValidRun(cfg, After(cfg, s, a), b)
    ensures ValidRun(cfg, s, a + b) && After(cfg, s, a + b) == After(cfg, After(cfg, s, a), b)
    ensures TallyAfter(cfg, s, a + b, y) == TallyAfter(cfg, After(cfg, s, a), b, TallyAfter(cfg, s, a, y))
    decreases a
  {
    if a == [] {
      assert a + b == b;
    } else {
      TallyConcat(cfg, Apply(cfg, s, a[0]), a[1..], b, Tallied(cfg, s, a[0], y));
      assert (a + b)[1..] == a[1..] + b;
    }
  }

  lemma ChargeFirst(cfg: Config, msat: nat, now: int)
    requires WithinControls(cfg, 0, msat / 1000)
    ensures var run := ChargeAndAbandon(msat)[..4];
            && ValidRun(cfg, EmptyPairing(now), run)
            && After(cfg, EmptyPairing(now), run) == FirstIn(msat, Charged(now, 0), now, now)
            && TallyAfter(cfg, EmptyPairing(now), run, Tally(0, 0)) == Tally(0, 0)
  {
    var run, y := ChargeAndAbandon(msat)[..4], Tally(0, 0);
    NotElapsedAtOnce(cfg, now);
    var s := EmptyPairing(now);
    var s1 := Apply(cfg, s, run[0]);
    var s2 := Apply(cfg, s1, run[1]);
    var s3 := Apply(cfg, s2, run[2]);
    var s4 := Apply(cfg, s3, run[3]);
    Traced(cfg, [s, s1, s2, s3, s4], [y, y, y, y, y], run);
  }

  lemma NotElapsedAtOnce(cfg: Config, now: int)
    ensures !WindowElapsed(cfg.renewal, now, now)
  {
  }

  /** A refund between a read and its debit is overwritten: the same figure results as without it. */
  lemma RefundOverwritten(cfg: Config, s: State, i: nat, j: nat)
    requires Enabled(cfg, s, On(i, Debit)) && Enabled(cfg, s, On(j, FailPayment))
    ensures var refunded := Apply(cfg, s, On(j, FailPayment));
            && Enabled(cfg, refunded, On(i, Debit))
            && Apply(cfg, refunded, On(i, Debit)).budget.spent == Apply(cfg, s, On(i, Debit)).budget.spent
  {
  }

  /** The first payment is sent; a second request reads the budget, the first fails and is refunded, the second is debited. */
  function RefundBetween(first: nat, second: nat): seq<Event> {
    ChargeAndAbandon(first)[..4]
    + [On(0, SendOk), Arrive(second), On(1, Start), On(1, ReadBudget), On(0, FailPayment), On(1, Debit)]
  }

  lemma SecondReads(cfg: Config, first: nat, second: nat, now: int)
    ensures var run := RefundBetween(first, second)[4..8];
            var s := FirstIn(first, Charged(now, 0), now, now);
            && ValidRun(cfg, s, run)
            && After(cfg, s, run) == State([Request(first, None, InFlight(now, 0, now), true),
                                            Request(second, Some(0), Read(first / 1000, now), false)],
                                           Some(1), Budget(first / 1000, now), now, 0)
            && TallyAfter(cfg, s, run, Tally(0, 0)) == Tally(0, 0)
  {
    var run, y := RefundBetween(first, second)[4..8], Tally(0, 0);
    NotElapsedAtOnce(cfg, now);
    var s := FirstIn(first, Charged(now, 0), now, now);
    var s1 := Apply(cfg, s, run[0]);
    var s2 := Apply(cfg, s1, run[1]);
    var s3 := Apply(cfg, s2, run[2]);
    var s4 := Apply(cfg, s3, run[3]);
    assert s4.reqs == [Request(first, None, InFlight(now, 0, now), true), Request(second, Some(0), Read(first / 1000, now), false)];
    Traced(cfg, [s, s1, s2, s3, s4], [y, y, y, y, y], run);
  }

  /** Such runs exist: the refund of the first payment is lost, and its sats stay counted beside the second's. */
  lemma RefundLost(cfg: Config, first: nat, second: nat, now: int)
    requires WithinControls(cfg, 0, first / 1000) && WithinControls(cfg, first / 1000, second / 1000)
    ensures var s, run := EmptyPairing(now), RefundBetween(first, second);
            && Init(cfg, s) && ValidRun(cfg, s, run) && LostRefunds(cfg, s, run) == first / 1000
            && After(cfg, s, run).budget.spent == first / 1000 + second / 1000
            && After(cfg, s, run).reqs == [Request(first, None, Failed, true), Request(second, Some(0), Charged(now, 0), false)]
  {
    var s, run, y := EmptyPairing(now), RefundBetween(first, second), Tally(0, 0);
    ChargeFirst(cfg, first, now);
    SecondReads(cfg, first, second, now);
    var t := FirstIn(first, Charged(now, 0), now, now);
    var u := After(cfg, t, run[4..8]);
    var u1 := Apply(cfg, u, run[8]);
    var u2 := Apply(cfg, u1, run[9]);
    assert u2.reqs == [Request(first, None, Failed, true), Request(second, Some(0), Charged(now, 0), false)];
    Traced(cfg, [u, u1, u2], [y, Tally(first / 1000, 0), Tally(0, first / 1000)], run[8..]);
    TallyConcat(cfg, t, run[4..8], run[8..], y);
    TallyConcat(cfg, s, run[..4], run[4..8] + run[8..], y);
    assert run == run[..4] + (run[4..8] + run[8..]);
    assert run[..4] == ChargeAndAbandon(first)[..4];
  }
}
