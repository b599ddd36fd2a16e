/**
  Spend authority of one Nostr Wallet Connect pairing.

  A pay request is serialized behind the previous request of the same client only until it has
  reserved its budget, so settlements, refunds and time-outs of earlier payments interleave with
  later requests. Every atomic stretch between two awaits is one `Event`; a run is any sequence of
  enabled events. The module proves that requests reserve one at a time and in arrival order, and
  decides exactly when the spending cap holds over every run.
 */
module NwcBudget {
  import opened Wrappers

  // How long a pay request waits for settlement before it gives up and keeps the charge.
  const SETTLEMENT_TIMEOUT_MS: nat := 90_000

  datatype Renewal = Never | Daily | Weekly | Monthly | Yearly

  /** Length of the rolling budget window, months and years approximated; `None` for a budget that never renews. */
  function WindowMs(renewal: Renewal): (w: Option<nat>)
    ensures w.None? <==> renewal.Never?
    ensures renewal.Daily? ==> w == Some(86_400_000)
    ensures renewal.Weekly? ==> w == Some(7 * 86_400_000)
    ensures renewal.Monthly? ==> w == Some(30 * 86_400_000)
    ensures renewal.Yearly? ==> w == Some(365 * 86_400_000)
  {
    match renewal
    case Never => None
    case Daily => Some(24 * 60 * 60 * 1000)
    case Weekly => Some(7 * 24 * 60 * 60 * 1000)
    case Monthly => Some(30 * 24 * 60 * 60 * 1000)
    case Yearly => Some(365 * 24 * 60 * 60 * 1000)
  }

  /** A connection stored without a renewal is a daily one. */
  function RenewalOrDaily(stored: Option<Renewal>): (r: Renewal)
    ensures stored.Some? ==> r == stored.value
    ensures stored.None? ==> WindowMs(r) == Some(86_400_000)
  {
    match stored
    case None => Daily
    case Some(r) => r
  }

  predicate WindowElapsed(stored: Option<Renewal>, last: int, now: int) {
    match WindowMs(RenewalOrDaily(stored))
    case None => false
    case Some(w) => now - last >= w
  }

  /**
    What the environment fixes for a whole run: the pairing's controls, a bound on the time from reading the
    clock for a request to the node accepting its payment, and how late the settlement timer may fire.
   */
  datatype Config = Config(limitSats: nat, maxAmountSats: nat, renewal: Option<Renewal>,
                           initiationMs: nat, timerLagMs: nat)

  // The longest a failure can still be refunded after the node accepted the payment.
  function WaitMs(cfg: Config): nat {
    SETTLEMENT_TIMEOUT_MS + cfg.timerLagMs
  }

  // The mutable half of a pairing.
  datatype Budget = Budget(spent: nat, last: int)

  /** Outcome of the budget read at the start of a request: the window is reset when it has elapsed. */
  function BudgetRead(cfg: Config, b: Budget, now: int): Budget {
    if WindowElapsed(cfg.renewal, b.last, now) then Budget(0, now) else b
  }

  /** The debit writes the amount on top of the figure that was read, not on top of the current one. */
  function Debited(spentToday: nat, sats: nat, now: int): Budget {
    Budget(spentToday + sats, now)
  }

  function Refunded(b: Budget, sats: nat): Budget {
    b.(spent := if b.spent >= sats then b.spent - sats else 0)
  }

  predicate WithinControls(cfg: Config, spentToday: nat, sats: nat) {
    && (cfg.maxAmountSats > 0 ==> sats <= cfg.maxAmountSats)
    && (cfg.limitSats > 0 ==> spentToday + sats <= cfg.limitSats)
  }

  /** The stored pairing, updated in place by the request handlers. */
  class Pairing {
    const limitSats: nat
    const maxAmountSats: nat
    const renewal: Option<Renewal>
    const initiationMs: nat
    const timerLagMs: nat
    var spentTodaySats: nat
    var lastSpentTimestamp: int

    ghost function Cfg(): Config {
      Config(limitSats, maxAmountSats, renewal, initiationMs, timerLagMs)
    }

    ghost function Current(): Budget
      reads this
    {
      Budget(spentTodaySats, lastSpentTimestamp)
    }

    constructor (cfg: Config, now: int)
      ensures Cfg() == cfg && Current() == Budget(0, now)
    {
      limitSats, maxAmountSats, renewal := cfg.limitSats, cfg.maxAmountSats, cfg.renewal;
      initiationMs, timerLagMs := cfg.initiationMs, cfg.timerLagMs;
      spentTodaySats, lastSpentTimestamp := 0, now;
    }

    method ReadBudget(now: int) returns (spentToday: nat)
      modifies this
      ensures Current() == BudgetRead(Cfg(), old(Current()), now)
      ensures spentToday == spentTodaySats
      ensures if WindowElapsed(renewal, old(lastSpentTimestamp), now) then spentTodaySats == 0 && lastSpentTimestamp == now
              else spentTodaySats == old(spentTodaySats) && lastSpentTimestamp == old(lastSpentTimestamp)
    {
      spentToday := spentTodaySats;
      if WindowElapsed(renewal, lastSpentTimestamp, now) {
        spentToday := 0;
        spentTodaySats := 0;
        lastSpentTimestamp := now;
      }
    }

    method CheckControls(spentToday: nat, sats: nat) returns (ok: bool)
      ensures ok <==> (maxAmountSats == 0 || sats <= maxAmountSats) && (limitSats == 0 || spentToday + sats <= limitSats)
      ensures ok <==> WithinControls(Cfg(), spentToday, sats)
    {
      if maxAmountSats > 0 && sats > maxAmountSats {
        return false;
      }
      if limitSats > 0 && spentToday + sats > limitSats {
        return false;
      }
      return true;
    }

    method DebitBudget(spentToday: nat, sats: nat, now: int)
      modifies this
      ensures Current() == Debited(spentToday, sats, now)
      ensures spentTodaySats == spentToday + sats && lastSpentTimestamp == now
    {
      spentTodaySats := spentToday + sats;
      lastSpentTimestamp := now;
    }

    method RefundBudget(sats: nat)
      modifies this
      ensures Current() == Refunded(old(Current()), sats)
      ensures spentTodaySats == (if old(spentTodaySats) < sats then 0 else old(spentTodaySats) - sats)
      ensures lastSpentTimestamp == old(lastSpentTimestamp)
    {
      if spentTodaySats >= sats {
        spentTodaySats := spentTodaySats - sats;
      } else {
        spentTodaySats := 0;
      }
    }
  }

  /**
    Life of one pay request. `now` is the clock captured when the budget was read; `window` counts
    the resets that had happened when the charge was made.
   */
  datatype Phase =
    | Queued                                             // behind the previous request's reservation
    | Deciding                                           // running, budget not read yet
    | Read(spentToday: nat, now: int)                    // budget read, debit not written yet
    | Charged(now: int, window: nat)                     // debited, the node has not answered yet
    | InFlight(now: int, window: nat, sentAt: int)       // accepted; the settlement wait is running
    | TimedOut(window: nat)                              // wait given up, payment still pending
    | Settled(window: nat)
    | Failed                                             // definitively failed, charge given back
    | Kept(window: nat)                                  // failed after the time-out: the charge stays
    | Abandoned(window: nat)                             // never handed to the node: the charge stays
    | Ended                                              // finished without a charge

  /** `prev` is the tail of the client's chain found on arrival; `released` resolves this request's own. */
  datatype Request = Request(msat: nat, prev: Option<nat>, phase: Phase, released: bool) {
    // Charges are in whole sats; the remainder is dropped.
    function Sats(): nat { msat / 1000 }

    // Holds the client's gate.
    predicate Reserving() { !phase.Queued? && !released }

    predicate LiveIn(w: nat) {
      match phase
      case Charged(_, v) => v == w
      case InFlight(_, v, _) => v == w
      case TimedOut(v) => v == w
      case Settled(v) => v == w
      case _ => false
    }
  }

  /** `reqs` is in arrival order; `chain` is the client's entry in the chain map. */
  datatype State = State(reqs: seq<Request>, chain: Option<nat>, budget: Budget, clock: int, window: nat)

  datatype Act =
    | Start
    | ReadBudget
    | Decline             // any exit before the debit, over-budget requests included
    | Debit
    | SendFail            // the node refused: refund inside the gate
    | Abandon             // an exception before the node was asked: no refund
    | SendOk              // in flight: the gate opens
    | Settle
    | FailPayment         // definitive failure while the wait is running: refund outside the gate
    | Timeout
    | FailAfterTimeout
    | Release             // the gate of a request that ended without a payment in flight

  datatype Event =
    | Tick(now: int)
    | Arrive(msat: nat)
    | DropChain           // the drained chain entry is removed
    | On(i: nat, act: Act)

  predicate IsReleased(s: State, link: Option<nat>) {
    match link
    case None => true
    case Some(p) => p < |s.reqs| && s.reqs[p].released
  }

  predicate ActEnabled(cfg: Config, s: State, r: Request, act: Act) {
    match act
    case Start => r.phase.Queued? && IsReleased(s, r.prev)
    case ReadBudget => r.phase.Deciding?
    case Decline => r.phase.Deciding? || r.phase.Read?
    case Debit => r.phase.Read? && WithinControls(cfg, r.phase.spentToday, r.Sats())
    case SendFail => r.phase.Charged?
    case Abandon => r.phase.Charged?
    case SendOk => r.phase.Charged? && s.clock <= r.phase.now + cfg.initiationMs
    case Settle => r.phase.InFlight? || r.phase.TimedOut?
    case FailPayment => r.phase.InFlight? && s.clock <= r.phase.sentAt + WaitMs(cfg)
    case Timeout => r.phase.InFlight?
    case FailAfterTimeout => r.phase.TimedOut?
    case Release => (r.phase.Ended? || r.phase.Failed? || r.phase.Abandoned?) && !r.released
  }

  predicate Enabled(cfg: Config, s: State, e: Event) {
    match e
    case Tick(now) => now >= s.clock
    case Arrive(_) => true
    case DropChain => s.chain.Some? && IsReleased(s, s.chain)
    case On(i, act) => i < |s.reqs| && ActEnabled(cfg, s, s.reqs[i], act)
  }

  /** The request after its step. */
  function NextRequest(cfg: Config, s: State, r: Request, act: Act): Request
    requires ActEnabled(cfg, s, r, act)
  {
    match act
    case Start => r.(phase := Deciding)
    case ReadBudget => r.(phase := Read(BudgetRead(cfg, s.budget, s.clock).spent, s.clock))
    case Decline => r.(phase := Ended)
    case Debit => r.(phase := Charged(r.phase.now, s.window))
    case SendFail => r.(phase := Failed)
    case Abandon => r.(phase := Abandoned(r.phase.window))
    case SendOk => r.(phase := InFlight(r.phase.now, r.phase.window, s.clock), released := true)
    case Settle => r.(phase := Settled(r.phase.window))
    case FailPayment => r.(phase := Failed)
    case Timeout => r.(phase := TimedOut(r.phase.window))
    case FailAfterTimeout => r.(phase := Kept(r.phase.window))
    case Release => r.(released := true)
  }

  /** The pairing after the step of request `r`. */
  function NextBudget(cfg: Config, s: State, r: Request, act: Act): Budget
    requires ActEnabled(cfg, s, r, act)
  {
    match act
    case ReadBudget => BudgetRead(cfg, s.budget, s.clock)
    case Debit => Debited(r.phase.spentToday, r.Sats(), r.phase.now)
    case SendFail => Refunded(s.budget, r.Sats())
    case FailPayment => Refunded(s.budget, r.Sats())
    case _ => s.budget
  }

  function Apply(cfg: Config, s: State, e: Event): State
    requires Enabled(cfg, s, e)
  {
    match e
    case Tick(now) => s.(clock := now)
    case Arrive(msat) => s.(reqs := s.reqs + [Request(msat, s.chain, Queued, false)], chain := Some(|s.reqs|))
    case DropChain => s.(chain := None)
    case On(i, act) =>
      var r := s.reqs[i];
      s.(reqs := s.reqs[i := NextRequest(cfg, s, r, act)],
         budget := NextBudget(cfg, s, r, act),
         window := if act.ReadBudget? && WindowElapsed(cfg.renewal, s.budget.last, s.clock)
                   then s.window + 1 else s.window)
  }

  /** A loaded pairing with no request yet; what was spent before the load still counts. */
  predicate Init(cfg: Config, s: State) {
    && s.reqs == [] && s.chain.None? && s.window == 0
    && s.budget.last <= s.clock
    && (cfg.limitSats > 0 ==> s.budget.spent <= cfg.limitSats)
  }

  predicate ValidRun(cfg: Config, s: State, run: seq<Event>)
    decreases run
  {
    run == [] || (Enabled(cfg, s, run[0]) && ValidRun(cfg, Apply(cfg, s, run[0]), run[1..]))
  }

  function After(cfg: Config, s: State, run: seq<Event>): State
    requires ValidRun(cfg, s, run)
    decreases run
  {
    if run == [] then s else After(cfg, Apply(cfg, s, run[0]), run[1..])
  }

  // ---------------------------------------------------------------- the gate

  /**
    The chain entry is the newest request, or is absent because everything was released; a request
    that has started has only released requests before it.
   */
  ghost predicate GateInv(s: State) {
    && (s.chain.Some? ==> s.chain.value + 1 == |s.reqs|)
    && (s.chain.None? ==> forall i :: 0 <= i < |s.reqs| ==> s.reqs[i].released)
    && (forall j :: 0 <= j < |s.reqs| ==> LinkOk(s, j))
    && (forall i, j :: 0 <= i < j < |s.reqs| && !s.reqs[j].phase.Queued? ==> s.reqs[i].released)
    && (forall i :: 0 <= i < |s.reqs| && s.reqs[i].released ==> !s.reqs[i].phase.Queued?)
  }

  ghost predicate LinkOk(s: State, j: nat)
    requires j < |s.reqs|
  {
    match s.reqs[j].prev
    case Some(p) => p + 1 == j
    case None => forall i :: 0 <= i < j ==> s.reqs[i].released
  }

  // Advancing request `i` keeps the gate when everything before it is released.
  lemma GateAdvance(s: State, t: State, i: nat)
    requires GateInv(s) && i < |s.reqs| && t.chain == s.chain
    requires |t.reqs| == |s.reqs| && t.reqs == s.reqs[i := t.reqs[i]]
    requires t.reqs[i].prev == s.reqs[i].prev && !t.reqs[i].phase.Queued?
    requires s.reqs[i].released ==> t.reqs[i].released
    requires s.reqs[i].phase.Queued? ==> IsReleased(s, s.reqs[i].prev)
    ensures GateInv(t)
  {
    forall j | 0 <= j < |t.reqs| ensures LinkOk(t, j) {
      assert LinkOk(s, j);
    }
    forall k | 0 <= k < i ensures s.reqs[k].released {
      assert LinkOk(s, i);
    }
  }

  lemma GateStep(cfg: Config, s: State, e: Event)
    requires GateInv(s) && Enabled(cfg, s, e)
    ensures GateInv(Apply(cfg, s, e))
  {
    var t := Apply(cfg, s, e);
    match e {
      case Tick(_) =>
        assert forall j | 0 <= j < |t.reqs| :: LinkOk(s, j) ==> LinkOk(t, j);
      case Arrive(_) =>
        assert forall j | 0 <= j < |s.reqs| :: LinkOk(s, j) ==> LinkOk(t, j);
      case DropChain =>
        assert forall j | 0 <= j < |t.reqs| :: LinkOk(s, j) ==> LinkOk(t, j);
      case On(i, act) =>
        GateAdvance(s, t, i);
    }
  }

  // ---------------------------------------------------------------- the budget

  /** What a request's charge may be counted as; `Charges` is everything that was not given back. */
  datatype Class = Live | Charges | Sent | Reserved | Stranded

  predicate Counts(r: Request, w: nat, k: Class) {
    match k
    case Live => r.LiveIn(w)
    case Charges => r.LiveIn(w) || r.phase == Kept(w) || r.phase == Abandoned(w)
    case Sent => (r.LiveIn(w) && !r.phase.Charged?) || r.phase == Kept(w)
    case Reserved => r.LiveIn(w) && r.phase.Charged?
    case Stranded => r.phase == Abandoned(w)
  }

  function Weight(r: Request, w: nat, k: Class): nat {
    if Counts(r, w, k) then r.Sats() else 0
  }

  function Total(reqs: seq<Request>, w: nat, k: Class): nat {
    if reqs == [] then 0 else Total(reqs[..|reqs| - 1], w, k) + Weight(reqs[|reqs| - 1], w, k)
  }

  /** Whole sats charged in window `w` by payments that have not definitively failed. */
  function LiveSum(reqs: seq<Request>, w: nat): nat {
    Total(reqs, w, Live)
  }

  lemma {:induction false} TotalUpdate(reqs: seq<Request>, w: nat, k: Class, i: nat, r: Request)
    requires i < |reqs|
    ensures Total(reqs[i := r], w, k) + Weight(reqs[i], w, k) == Total(reqs, w, k) + Weight(r, w, k)
    decreases |reqs|
  {
    var n := |reqs| - 1;
    if i == n {
      assert reqs[i := r][..n] == reqs[..n];
    } else {
      assert reqs[i := r][..n] == reqs[..n][i := r];
      TotalUpdate(reqs[..n], w, k, i, r);
    }
  }

  lemma TotalAppend(reqs: seq<Request>, w: nat, k: Class, r: Request)
    ensures Total(reqs + [r], w, k) == Total(reqs, w, k) + Weight(r, w, k)
  {
    assert (reqs + [r])[..|reqs|] == reqs;
  }

  lemma {:induction false} TotalFresh(reqs: seq<Request>, w: nat, k: Class)
    requires forall i :: 0 <= i < |reqs| ==> Weight(reqs[i], w, k) == 0
    ensures Total(reqs, w, k) == 0
    decreases |reqs|
  {
    if reqs != [] {
      TotalFresh(reqs[..|reqs| - 1], w, k);
    }
  }

  lemma {:induction false} TotalAtLeast(reqs: seq<Request>, w: nat, k: Class, i: nat)
    requires i < |reqs|
    ensures Weight(reqs[i], w, k) <= Total(reqs, w, k)
    decreases |reqs|
  {
    if i < |reqs| - 1 {
      TotalAtLeast(reqs[..|reqs| - 1], w, k, i);
    }
  }

  /** No refund can arrive after the window it was charged in has been reset. */
  predicate SettlesWithinWindow(cfg: Config) {
    match WindowMs(RenewalOrDaily(cfg.renewal))
    case None => true
    case Some(w) => cfg.initiationMs + WaitMs(cfg) < w
  }

  predicate UnderLimit(cfg: Config, sats: nat) {
    cfg.limitSats > 0 ==> sats <= cfg.limitSats
  }

  // `live` is the live total of the current window.
  predicate RequestInv(cfg: Config, s: State, live: nat, r: Request) {
    match r.phase
    case Deciding => !r.released
    case Read(spentToday, now) =>
      !r.released && live <= spentToday && UnderLimit(cfg, spentToday) && s.budget.last <= now <= s.clock
    case Charged(now, w) => !r.released && w == s.window && now <= s.budget.last
    case InFlight(now, w, sentAt) =>
      && w <= s.window
      && sentAt <= now + cfg.initiationMs
      && (w == s.window ==> now <= s.budget.last)
      && (w < s.window ==> OutlivedWindow(cfg, now, s.clock))
    case TimedOut(w) => w <= s.window
    case Settled(w) => w <= s.window
    case Kept(w) => w <= s.window
    case Abandoned(w) => w <= s.window
    case _ => true
  }

  predicate OutlivedWindow(cfg: Config, now: int, clock: int) {
    match WindowMs(RenewalOrDaily(cfg.renewal))
    case None => false
    case Some(w) => clock >= now + w
  }

  ghost predicate BudgetInv(cfg: Config, s: State) {
    var live := LiveSum(s.reqs, s.window);
    && live <= s.budget.spent
    && UnderLimit(cfg, s.budget.spent)
    && s.budget.last <= s.clock
    && (forall i :: 0 <= i < |s.reqs| ==> RequestInv(cfg, s, live, s.reqs[i]))
  }

  // Requests that are not reserving are unaffected by a reset of the window.
  lemma OthersSurviveReset(cfg: Config, s: State, t: State, r: Request)
    requires RequestInv(cfg, s, LiveSum(s.reqs, s.window), r) && !r.Reserving()
    requires WindowElapsed(cfg.renewal, s.budget.last, s.clock)
    requires t.window == s.window + 1 && t.clock == s.clock
    ensures RequestInv(cfg, t, 0, r) && Weight(r, t.window, Charges) == 0
  {
  }

  lemma ReadBudgetStep(cfg: Config, s: State, i: nat)
    requires GateInv(s) && BudgetInv(cfg, s) && Enabled(cfg, s, On(i, ReadBudget))
    ensures BudgetInv(cfg, Apply(cfg, s, On(i, ReadBudget)))
  {
    var t := Apply(cfg, s, On(i, ReadBudget));
    assert RequestInv(cfg, s, LiveSum(s.reqs, s.window), s.reqs[i]);
    TotalUpdate(s.reqs, s.window, Live, i, t.reqs[i]);
    if WindowElapsed(cfg.renewal, s.budget.last, s.clock) {
      forall j | 0 <= j < |t.reqs| && j != i
        ensures RequestInv(cfg, t, 0, t.reqs[j]) && Weight(t.reqs[j], t.window, Live) == 0
      {
        MutualExclusion(s, i, j);
        OthersSurviveReset(cfg, s, t, s.reqs[j]);
      }
      TotalFresh(t.reqs, t.window, Live);
    }
  }

  // No two requests of a client are both past their start and short of their reservation.
  lemma MutualExclusion(s: State, i: nat, j: nat)
    requires GateInv(s) && i < |s.reqs| && j < |s.reqs| && i != j
    ensures !(s.reqs[i].Reserving() && s.reqs[j].Reserving())
  {
  }

  lemma DebitStep(cfg: Config, s: State, i: nat)
    requires GateInv(s) && BudgetInv(cfg, s) && Enabled(cfg, s, On(i, Debit))
    ensures BudgetInv(cfg, Apply(cfg, s, On(i, Debit)))
  {
    var t := Apply(cfg, s, On(i, Debit));
    assert RequestInv(cfg, s, LiveSum(s.reqs, s.window), s.reqs[i]);
    TotalUpdate(s.reqs, s.window, Live, i, t.reqs[i]);
    forall j | 0 <= j < |t.reqs| && j != i
      ensures RequestInv(cfg, t, LiveSum(t.reqs, t.window), t.reqs[j])
    {
      MutualExclusion(s, i, j);
      assert RequestInv(cfg, s, LiveSum(s.reqs, s.window), s.reqs[j]);
    }
  }

  lemma RefundStep(cfg: Config, s: State, i: nat, act: Act)
    requires SettlesWithinWindow(cfg)
    requires GateInv(s) && BudgetInv(cfg, s) && Enabled(cfg, s, On(i, act))
    requires act.SendFail? || act.FailPayment?
    ensures s.reqs[i].LiveIn(s.window)
    ensures BudgetInv(cfg, Apply(cfg, s, On(i, act)))
  {
    var t := Apply(cfg, s, On(i, act));
    assert RequestInv(cfg, s, LiveSum(s.reqs, s.window), s.reqs[i]);
    TotalUpdate(s.reqs, s.window, Live, i, t.reqs[i]);
  }

  lemma PlainStep(cfg: Config, s: State, i: nat, act: Act)
    requires GateInv(s) && BudgetInv(cfg, s) && Enabled(cfg, s, On(i, act))
    requires !act.ReadBudget? && !act.Debit? && !act.SendFail? && !act.FailPayment?
    ensures BudgetInv(cfg, Apply(cfg, s, On(i, act)))
  {
    var t := Apply(cfg, s, On(i, act));
    assert RequestInv(cfg, s, LiveSum(s.reqs, s.window), s.reqs[i]);
    TotalUpdate(s.reqs, s.window, Live, i, t.reqs[i]);
  }

  lemma EnvironmentStep(cfg: Config, s: State, e: Event)
    requires BudgetInv(cfg, s) && Enabled(cfg, s, e) && !e.On?
    ensures BudgetInv(cfg, Apply(cfg, s, e))
  {
    var t, live := Apply(cfg, s, e), LiveSum(s.reqs, s.window);
    if e.Arrive? {
      TotalAppend(s.reqs, s.window, Live, Request(e.msat, s.chain, Queued, false));
    }
    assert LiveSum(t.reqs, t.window) == live;
    forall j | 0 <= j < |t.reqs|
      ensures RequestInv(cfg, t, live, t.reqs[j])
    {
      if j < |s.reqs| {
      }
    }
  }

  lemma BudgetStep(cfg: Config, s: State, e: Event)
    requires SettlesWithinWindow(cfg)
    requires GateInv(s) && BudgetInv(cfg, s) && Enabled(cfg, s, e)
    ensures BudgetInv(cfg, Apply(cfg, s, e))
  {
    if !e.On? {
      EnvironmentStep(cfg, s, e);
    } else if e.act.ReadBudget? {
      ReadBudgetStep(cfg, s, e.i);
    } else if e.act.Debit? {
      DebitStep(cfg, s, e.i);
    } else if e.act.SendFail? || e.act.FailPayment? {
      RefundStep(cfg, s, e.i, e.act);
    } else {
      PlainStep(cfg, s, e.i, e.act);
    }
  }

  // ---------------------------------------------------------------- whole runs

  lemma {:induction false} GateRun(cfg: Config, s: State, run: seq<Event>)
    requires GateInv(s) && ValidRun(cfg, s, run)
    ensures GateInv(After(cfg, s, run))
    decreases run
  {
    if run != [] {
      GateStep(cfg, s, run[0]);
      GateRun(cfg, Apply(cfg, s, run[0]), run[1..]);
    }
  }

  // The requests up to some point have reserved, in arrival order, and every request after the next
  // one is still queued: only one request at a time is between its start and its reservation.
  ghost predicate ReservedUpTo(s: State, n: nat) {
    && n <= |s.reqs|
    && (forall i :: 0 <= i < n ==> s.reqs[i].released)
    && (forall i :: n <= i < |s.reqs| ==> !s.reqs[i].released)
    && (forall i :: n < i < |s.reqs| ==> s.reqs[i].phase.Queued?)
  }

  lemma {:induction false} ReservedPrefix(s: State, n: nat)
    requires GateInv(s) && n <= |s.reqs| && forall i :: 0 <= i < n ==> s.reqs[i].released
    ensures exists m :: ReservedUpTo(s, m)
    decreases |s.reqs| - n
  {
    if n < |s.reqs| && s.reqs[n].released {
      ReservedPrefix(s, n + 1);
    } else {
      assert ReservedUpTo(s, n);
    }
  }

  /** In every reachable state requests reserve one at a time and in arrival order. */
  lemma ReserveInArrivalOrder(cfg: Config, s: State, run: seq<Event>)
    requires Init(cfg, s) && ValidRun(cfg, s, run)
    ensures exists n :: ReservedUpTo(After(cfg, s, run), n)
  {
    GateRun(cfg, s, run);
    ReservedPrefix(After(cfg, s, run), 0);
  }

  lemma {:induction false} BudgetRun(cfg: Config, s: State, run: seq<Event>)
    requires SettlesWithinWindow(cfg)
    requires GateInv(s) && BudgetInv(cfg, s) && ValidRun(cfg, s, run)
    ensures BudgetInv(cfg, After(cfg, s, run))
    decreases run
  {
    if run != [] {
      GateStep(cfg, s, run[0]);
      BudgetStep(cfg, s, run[0]);
      BudgetRun(cfg, Apply(cfg, s, run[0]), run[1..]);
    }
  }

  predicate CapHeld(cfg: Config, s: State) {
    LiveSum(s.reqs, s.window) <= s.budget.spent && UnderLimit(cfg, s.budget.spent)
  }

  /** The cap holds in every state of every run. */
  ghost predicate CapAlwaysHeld(cfg: Config) {
    forall s: State, run: seq<Event> ::
      Init(cfg, s) && ValidRun(cfg, s, run) ==> CapHeld(cfg, After(cfg, s, run))
  }

  /** The largest single payment the controls admit on an empty budget. */
  function Largest(cfg: Config): nat {
    if 0 < cfg.maxAmountSats < cfg.limitSats then cfg.maxAmountSats else cfg.limitSats
  }

  // A request for the largest payment that arrives, reads the budget and is debited.
  function SpendMost(cfg: Config, i: nat): seq<Event> {
    [Arrive(Largest(cfg) * 1000), On(i, Start), On(i, ReadBudget), On(i, Debit)]
  }

  lemma {:induction false} RunConcat(cfg: Config, s: State, a: seq<Event>, b: seq<Event>)
    requires ValidRun(cfg, s, a) && ValidRun(cfg, After(cfg, s, a), b)
    ensures ValidRun(cfg, s, a + b) && After(cfg, s, a + b) == After(cfg, After(cfg, s, a), b)
    decreases a
  {
    if a == [] {
      assert a + b == b;
    } else {
      RunConcat(cfg, Apply(cfg, s, a[0]), a[1..], b);
      assert (a + b)[1..] == a[1..] + b;
    }
  }

  lemma RunOne(cfg: Config, s: State, e: Event)
    requires Enabled(cfg, s, e)
    ensures ValidRun(cfg, s, [e]) && After(cfg, s, [e]) == Apply(cfg, s, e)
  {
    assert [e][1..] == [];
  }

  lemma RunTwo(cfg: Config, s: State, e: Event, f: Event)
    requires Enabled(cfg, s, e) && Enabled(cfg, Apply(cfg, s, e), f)
    ensures ValidRun(cfg, s, [e, f])
    ensures After(cfg, s, [e, f]) == Apply(cfg, Apply(cfg, s, e), f)
  {
    RunOne(cfg, s, e);
    RunOne(cfg, Apply(cfg, s, e), f);
    RunConcat(cfg, s, [e], [f]);
    assert [e] + [f] == [e, f];
  }

  // The state after that debit on a client whose earlier requests have all reserved.
  function SpentMost(cfg: Config, s: State): State {
    var w := if WindowElapsed(cfg.renewal, s.budget.last, s.clock) then s.window + 1 else s.window;
    State(s.reqs + [Request(Largest(cfg) * 1000, s.chain, Charged(s.clock, w), false)],
          Some(|s.reqs|), Budget(Largest(cfg), s.clock), s.clock, w)
  }

  lemma SpendMostRuns(cfg: Config, s: State)
    requires IsReleased(s, s.chain)
    requires BudgetRead(cfg, s.budget, s.clock).spent == 0
    ensures ValidRun(cfg, s, SpendMost(cfg, |s.reqs|))
    ensures After(cfg, s, SpendMost(cfg, |s.reqs|)) == SpentMost(cfg, s)
  {
    var i := |s.reqs|;
    var run := SpendMost(cfg, i);
    var s1 := Apply(cfg, s, run[0]);
    var s2 := Apply(cfg, s1, run[1]);
    RunTwo(cfg, s, run[0], run[1]);
    var s3 := Apply(cfg, s2, run[2]);
    var s4 := Apply(cfg, s3, run[3]);
    RunTwo(cfg, s2, run[2], run[3]);
    RunConcat(cfg, s, [run[0], run[1]], [run[2], run[3]]);
    assert run == [run[0], run[1]] + [run[2], run[3]];
    assert s4.reqs == SpentMost(cfg, s).reqs;
  }

  // The first payment, accepted as late as allowed and still in flight at clock `late`.
  function OnePending(cfg: Config, late: int): State {
    State([Request(Largest(cfg) * 1000, None, InFlight(0, 0, cfg.initiationMs), true)],
          Some(0), Budget(Largest(cfg), 0), late, 0)
  }

  // A second payment in flight in a new window, whose budget has lost the refund of the first.
  function RefundCrossed(cfg: Config, late: int): State {
    State([Request(Largest(cfg) * 1000, None, Failed, true),
           Request(Largest(cfg) * 1000, Some(0), InFlight(late, 1, late), true)],
          Some(1), Budget(0, late), late, 1)
  }

  lemma FirstPayment(cfg: Config, s: State, late: int) returns (run: seq<Event>)
    requires s == State([], None, Budget(0, 0), 0, 0) && late >= cfg.initiationMs
    ensures ValidRun(cfg, s, run) && After(cfg, s, run) == OnePending(cfg, late)
  {
    SpendMostRuns(cfg, s);
    var a := SpentMost(cfg, s);
    var tick, ok := Tick(cfg.initiationMs), On(0, SendOk);
    RunTwo(cfg, a, tick, ok);
    var b := Apply(cfg, Apply(cfg, a, tick), ok);
    RunOne(cfg, b, Tick(late));
    run := SpendMost(cfg, 0) + [tick, ok];
    RunConcat(cfg, s, SpendMost(cfg, 0), [tick, ok]);
    RunConcat(cfg, s, run, [Tick(late)]);
    run := run + [Tick(late)];
    assert Apply(cfg, b, Tick(late)).reqs == OnePending(cfg, late).reqs;
  }

  lemma RefundCrosses(cfg: Config, late: int) returns (run: seq<Event>)
    requires WindowElapsed(cfg.renewal, 0, late) && late <= cfg.initiationMs + WaitMs(cfg)
    ensures ValidRun(cfg, OnePending(cfg, late), run)
    ensures After(cfg, OnePending(cfg, late), run) == RefundCrossed(cfg, late)
  {
    var b := OnePending(cfg, late);
    SpendMostRuns(cfg, b);
    var c := SpentMost(cfg, b);
    var ok, fail := On(1, SendOk), On(0, FailPayment);
    RunTwo(cfg, c, ok, fail);
    run := SpendMost(cfg, 1) + [ok, fail];
    RunConcat(cfg, b, SpendMost(cfg, 1), [ok, fail]);
    assert Apply(cfg, Apply(cfg, c, ok), fail).reqs == RefundCrossed(cfg, late).reqs;
  }

  lemma RespendBreaksCap(cfg: Config, late: int)
    requires cfg.limitSats > 0
    ensures var t := SpentMost(cfg, RefundCrossed(cfg, late));
            !CapHeld(cfg, t) && LiveSum(t.reqs, t.window) == 2 * Largest(cfg)
  {
    var d := RefundCrossed(cfg, late);
    var t := SpentMost(cfg, d);
    TotalAppend(d.reqs, t.window, Live, t.reqs[2]);
    TotalAppend([d.reqs[0]], t.window, Live, d.reqs[1]);
    assert [d.reqs[0]] + [d.reqs[1]] == d.reqs;
    TotalAppend([], t.window, Live, d.reqs[0]);
    assert [] + [d.reqs[0]] == [d.reqs[0]];
  }

  // A failure that arrives after a later request has reset the window is refunded out of the new
  // window's spending, which can then be spent again.
  lemma LateRefundBreaksCap(cfg: Config, w: nat) returns (s: State, run: seq<Event>)
    requires cfg.limitSats > 0
    requires WindowMs(RenewalOrDaily(cfg.renewal)) == Some(w)
    requires cfg.initiationMs + WaitMs(cfg) >= w
    ensures Init(cfg, s) && ValidRun(cfg, s, run) && !CapHeld(cfg, After(cfg, s, run))
    ensures cfg.maxAmountSats == 0 ==>
              LiveSum(After(cfg, s, run).reqs, After(cfg, s, run).window) > cfg.limitSats
  {
    var late := if cfg.initiationMs >= w then cfg.initiationMs else w;
    s := State([], None, Budget(0, 0), 0, 0);
    var leg1 := FirstPayment(cfg, s, late);
    var leg2 := RefundCrosses(cfg, late);
    RunConcat(cfg, s, leg1, leg2);
    var d := RefundCrossed(cfg, late);
    SpendMostRuns(cfg, d);
    RunConcat(cfg, s, leg1 + leg2, SpendMost(cfg, 2));
    run := leg1 + leg2 + SpendMost(cfg, 2);
    RespendBreaksCap(cfg, late);
  }

  /**
    The spending cap holds over every interleaving of a client's requests, settlements, failures,
    time-outs and window resets exactly when a refund can never outlive the budget window.
   */
  lemma SpendingCapExactly(cfg: Config)
    requires cfg.limitSats > 0
    ensures CapAlwaysHeld(cfg) <==> SettlesWithinWindow(cfg)
  {
    if SettlesWithinWindow(cfg) {
      forall s: State, run: seq<Event> | Init(cfg, s) && ValidRun(cfg, s, run)
        ensures CapHeld(cfg, After(cfg, s, run))
      {
        SpendingCap(cfg, s, run);
      }
    } else {
      var w := WindowMs(RenewalOrDaily(cfg.renewal)).value;
      var s, run := LateRefundBreaksCap(cfg, w);
    }
  }

  /**
    A budget stored without a renewal is a daily one: its cap holds over every run exactly when initiation and
    timer lag together stay below the day less the ninety seconds of the wait. One that never renews always holds.
   */
  lemma DailyCapExactly(cfg: Config)
    requires cfg.limitSats > 0
    ensures cfg.renewal.None? || cfg.renewal == Some(Daily) ==>
              (CapAlwaysHeld(cfg) <==> cfg.initiationMs + cfg.timerLagMs < 86_310_000)
    ensures cfg.renewal == Some(Never) ==> CapAlwaysHeld(cfg)
  {
    SpendingCapExactly(cfg);
  }

  /** Every refund is taken from the window its charge was made in, and the cap holds. */
  lemma SpendingCap(cfg: Config, s: State, run: seq<Event>)
    requires SettlesWithinWindow(cfg)
    requires Init(cfg, s) && ValidRun(cfg, s, run)
    ensures CapHeld(cfg, After(cfg, s, run))
    ensures forall i: nat, act: Act | act.SendFail? || act.FailPayment? ::
              Enabled(cfg, After(cfg, s, run), On(i, act)) ==>
              After(cfg, s, run).reqs[i].LiveIn(After(cfg, s, run).window)
  {
    GateRun(cfg, s, run);
    BudgetRun(cfg, s, run);
    var t := After(cfg, s, run);
    forall i: nat, act: Act | (act.SendFail? || act.FailPayment?) && Enabled(cfg, t, On(i, act))
      ensures t.reqs[i].LiveIn(t.window)
    {
      RefundStep(cfg, t, i, act);
    }
  }

  // ---------------------------------------------------------------- the per-payment maximum

  /** The budget was debited for the request, whatever became of it afterwards. */
  predicate EverCharged(r: Request) {
    !r.phase.Queued? && !r.phase.Deciding? && !r.phase.Read? && !r.phase.Ended?
  }

  predicate AllWithinMaximum(cfg: Config, s: State) {
    forall i :: 0 <= i < |s.reqs| && EverCharged(s.reqs[i]) ==> s.reqs[i].msat / 1000 <= cfg.maxAmountSats
  }

  lemma {:induction false} MaximumRun(cfg: Config, s: State, run: seq<Event>)
    requires cfg.maxAmountSats > 0 && AllWithinMaximum(cfg, s) && ValidRun(cfg, s, run)
    ensures AllWithinMaximum(cfg, After(cfg, s, run))
    decreases run
  {
    if run != [] {
      MaximumRun(cfg, Apply(cfg, s, run[0]), run[1..]);
    }
  }

  /** In every reachable state no payment above the per-payment maximum was ever charged. */
  lemma PerPaymentMaximum(cfg: Config, s: State, run: seq<Event>)
    requires cfg.maxAmountSats > 0 && Init(cfg, s) && ValidRun(cfg, s, run)
    ensures AllWithinMaximum(cfg, After(cfg, s, run))
  {
    MaximumRun(cfg, s, run);
  }

  // ---------------------------------------------------------------- millisatoshis

  function LiveMsat(reqs: seq<Request>, w: nat): nat {
    if reqs == [] then 0
    else LiveMsat(reqs[..|reqs| - 1], w) + if reqs[|reqs| - 1].LiveIn(w) then reqs[|reqs| - 1].msat else 0
  }

  function LiveCount(reqs: seq<Request>, w: nat): nat {
    if reqs == [] then 0
    else LiveCount(reqs[..|reqs| - 1], w) + if reqs[|reqs| - 1].LiveIn(w) then 1 else 0
  }

  lemma {:induction false} MsatBound(reqs: seq<Request>, w: nat)
    ensures 1000 * LiveSum(reqs, w) <= LiveMsat(reqs, w) <= 1000 * LiveSum(reqs, w) + 999 * LiveCount(reqs, w)
    decreases |reqs|
  {
    if reqs != [] {
      MsatBound(reqs[..|reqs| - 1], w);
    }
  }

  /** What truncation to whole sats can add: less than one sat for each live payment. */
  lemma SpendingCapMsat(cfg: Config, s: State, run: seq<Event>)
    requires SettlesWithinWindow(cfg) && cfg.limitSats > 0
    requires Init(cfg, s) && ValidRun(cfg, s, run)
    ensures var t := After(cfg, s, run);
            LiveMsat(t.reqs, t.window) <= 1000 * cfg.limitSats + 999 * LiveCount(t.reqs, t.window)
  {
    SpendingCap(cfg, s, run);
    var t := After(cfg, s, run);
    MsatBound(t.reqs, t.window);
  }
}
