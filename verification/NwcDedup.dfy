/**
  Replay protection in front of the request handler: stale events are dropped by age, repeated ones
  by a bounded memory of recently handled event ids.
 */
module NwcDedup {
  import opened Wrappers
  import opened Sequences

  const MAX_HANDLED_EVENT_IDS: nat := 2000
  const NWC_REQUEST_MAX_AGE_SEC: int := 300

  type EventId = string

  /** A delivery from a relay; synthetic events carry no id or a zero `createdAt`. */
  datatype Delivery = Delivery(id: Option<EventId>, createdAt: int, nowSec: int)

  datatype Verdict = Stale | Duplicate | Process

  predicate IsStale(d: Delivery) {
    d.createdAt > 0 && d.nowSec - d.createdAt > NWC_REQUEST_MAX_AGE_SEC
  }

  /** The ids the handler remembers after handling `handled`, oldest first. */
  function Remembered(handled: seq<EventId>): seq<EventId> {
    if |handled| <= MAX_HANDLED_EVENT_IDS then handled else handled[|handled| - MAX_HANDLED_EVENT_IDS..]
  }

  function Judge(handled: seq<EventId>, d: Delivery): Verdict {
    if IsStale(d) then Stale
    else if d.id.Some? && d.id.value in Remembered(handled) then Duplicate
    else Process
  }

  /** The identified events processed by a run of deliveries, in order. */
  function Handled(run: seq<Delivery>): seq<EventId> {
    if run == [] then []
    else
      var d := run[|run| - 1];
      var before := Handled(run[..|run| - 1]);
      if Judge(before, d).Process? && d.id.Some? then before + [d.id.value] else before
  }

  /** Any two handlings of the same id are more than 2000 handlings apart. */
  predicate SpacedOut(handled: seq<EventId>) {
    forall i, j :: 0 <= i < j < |handled| && j - i <= 2000 ==> handled[i] != handled[j]
  }

  /**
    In any run of deliveries an id is processed again only after 2000 other ids were handled in between.
   */
  lemma {:induction false} ReprocessedOnlyAfterEviction(run: seq<Delivery>)
    ensures SpacedOut(Handled(run))
    decreases |run|
  {
    if run != [] {
      var d := run[|run| - 1];
      var before := Handled(run[..|run| - 1]);
      ReprocessedOnlyAfterEviction(run[..|run| - 1]);
      if Judge(before, d).Process? && d.id.Some? {
        var n := |before|;
        forall i | 0 <= i < n && n - i <= MAX_HANDLED_EVENT_IDS ensures before[i] != d.id.value {
          var r := Remembered(before);
          assert before[i] == r[i - (n - |r|)];
        }
      }
    }
  }

  /** A fresh event is dropped exactly when its id is one of the last 2000 handled. */
  lemma DroppedExactlyWhenRecent(run: seq<Delivery>, d: Delivery)
    requires !IsStale(d) && d.id.Some?
    ensures Judge(Handled(run), d).Duplicate? <==>
            exists i :: 0 <= i < |Handled(run)| && |Handled(run)| - i <= 2000
                        && Handled(run)[i] == d.id.value
  {
    var h := Handled(run);
    var from := if |h| <= MAX_HANDLED_EVENT_IDS then 0 else |h| - MAX_HANDLED_EVENT_IDS;
    if i :| from <= i < |h| && h[i] == d.id.value {
      assert h[from..][i - from] == d.id.value;
    }
  }

  // ---------------------------------------------------------------- a run by its verdicts alone

  /** The ids handled before delivery `i`. */
  function Before(run: seq<Delivery>, i: nat): seq<EventId>
    requires i <= |run|
  {
    Handled(run[..i])
  }

  function VerdictAt(run: seq<Delivery>, i: nat): Verdict
    requires i < |run|
  {
    Judge(Before(run, i), run[i])
  }

  predicate Processes(run: seq<Delivery>, i: nat) {
    i < |run| && VerdictAt(run, i).Process? && run[i].id.Some?
  }

  /** What each delivery adds to the handled ids: its own id if it is processed. */
  function NewIds(run: seq<Delivery>): seq<seq<EventId>> {
    seq(|run|, i requires 0 <= i < |run| => if Processes(run, i) then [run[i].id.value] else [])
  }

  function Joined(parts: seq<seq<EventId>>, i: nat, j: nat): seq<EventId>
    requires i <= j <= |parts|
    decreases j
  {
    if i == j then [] else Joined(parts, i, j - 1) + parts[j - 1]
  }

  /** The number of identified events processed from delivery `i` up to delivery `j`. */
  function ProcessedBetween(run: seq<Delivery>, i: nat, j: nat): nat
    requires i <= j <= |run|
  {
    |Joined(NewIds(run), i, j)|
  }

  // Sequences each of which adds one part to the one before it.
  predicate Chain(hs: seq<seq<EventId>>, parts: seq<seq<EventId>>) {
    |hs| == |parts| + 1 && hs[0] == [] && forall k :: 0 <= k < |parts| ==> hs[k + 1] == hs[k] + parts[k] && |parts[k]| <= 1
  }

  lemma {:induction false} ChainGrows(hs: seq<seq<EventId>>, parts: seq<seq<EventId>>, i: nat, j: nat)
    requires Chain(hs, parts) && i <= j <= |parts|
    ensures hs[j] == hs[i] + Joined(parts, i, j)
    decreases j
  {
    if i < j {
      ChainGrows(hs, parts, i, j - 1);
      Assoc(hs[i], Joined(parts, i, j - 1), parts[j - 1]);
      assert hs[j - 1 + 1] == hs[j - 1] + parts[j - 1];
    }
  }

  // Each element came with one of the parts.
  lemma {:induction false} ChainSource(hs: seq<seq<EventId>>, parts: seq<seq<EventId>>, j: nat, k: nat) returns (i: nat)
    requires Chain(hs, parts) && j <= |parts| && k < |hs[j]|
    ensures i < j && parts[i] == [hs[j][k]] && |hs[i]| == k
    decreases j
  {
    assert j > 0 && hs[j - 1 + 1] == hs[j - 1] + parts[j - 1];
    if k < |hs[j - 1]| {
      i := ChainSource(hs, parts, j - 1, k);
    } else {
      i := j - 1;
    }
  }

  function Histories(run: seq<Delivery>): seq<seq<EventId>> {
    seq(|run| + 1, i requires 0 <= i <= |run| => Before(run, i))
  }

  lemma HistoriesChain(run: seq<Delivery>)
    ensures Chain(Histories(run), NewIds(run))
  {
    forall i | 0 <= i < |run|
      ensures Before(run, i + 1) == Before(run, i) + NewIds(run)[i]
    {
      assert run[..i + 1][..i] == run[..i];
    }
  }

  predicate Replays(run: seq<Delivery>, i: nat, j: nat) {
    i < j < |run| && Processes(run, i) && run[i].id == run[j].id && ProcessedBetween(run, i, j) <= 2000
  }

  /**
    An event more than five minutes old is stale. A fresh one with an id is dropped exactly when an event with that
    id was processed before it and, from then on, no more than 2000 were; otherwise it is processed.
   */
  lemma VerdictsExactly(run: seq<Delivery>, j: nat)
    requires j < |run|
    ensures VerdictAt(run, j).Stale? <==> run[j].createdAt > 0 && run[j].nowSec - run[j].createdAt > 300
    ensures run[j].id.None? ==> !VerdictAt(run, j).Duplicate?
    ensures run[j].id.Some? && !VerdictAt(run, j).Stale? ==>
              (VerdictAt(run, j).Duplicate? <==> exists i: nat :: Replays(run, i, j))
  {
    var d, h := run[j], Before(run, j);
    if d.id.Some? && !IsStale(d) {
      DroppedExactlyWhenRecent(run[..j], d);
      if VerdictAt(run, j).Duplicate? {
        var k :| 0 <= k < |h| && |h| - k <= 2000 && h[k] == d.id.value;
        ReplayFound(run, j, k);
      }
      if i: nat :| Replays(run, i, j) {
        var k := ReplayedId(run, i, j);
      }
    }
  }

  lemma ReplayFound(run: seq<Delivery>, j: nat, k: nat)
    requires j < |run| && k < |Before(run, j)| && |Before(run, j)| - k <= 2000
    requires run[j].id.Some? && Before(run, j)[k] == run[j].id.value
    ensures exists i: nat :: Replays(run, i, j)
  {
    HistoriesChain(run);
    var i := ChainSource(Histories(run), NewIds(run), j, k);
    ChainGrows(Histories(run), NewIds(run), i, j);
    assert Replays(run, i, j);
  }

  lemma ReplayedId(run: seq<Delivery>, i: nat, j: nat) returns (k: nat)
    requires Replays(run, i, j)
    ensures k < |Before(run, j)| && |Before(run, j)| - k <= 2000 && Before(run, j)[k] == run[j].id.value
  {
    var hs, parts := Histories(run), NewIds(run);
    k := |hs[i]|;
    HistoriesChain(run);
    ChainGrows(hs, parts, i, j);
    ChainGrows(hs, parts, i + 1, j);
    assert hs[i + 1] == hs[i] + parts[i];
  }

  /** The handler's two fields: a set for the lookup and a queue for the eviction order. */
  class HandledEvents {
    var ids: set<EventId>
    var order: seq<EventId>
    ghost var run: seq<Delivery>

    ghost predicate Valid()
      reads this
    {
      && order == Remembered(Handled(run))
      && ids == (set x | x in order)
      && NoRepeats(order)
    }

    constructor ()
      ensures Valid() && run == []
    {
      ids, order, run := {}, [], [];
    }

    method MarkEventHandled(eventId: EventId)
      requires ids == (set x | x in order) && |order| <= MAX_HANDLED_EVENT_IDS
      requires NoRepeats(order)
      requires eventId !in ids
      modifies `ids, `order
      ensures order == if |old(order)| < MAX_HANDLED_EVENT_IDS then old(order) + [eventId]
                       else old(order)[1..] + [eventId]
      ensures ids == (set x | x in order)
      ensures NoRepeats(order)
    {
      ids := ids + {eventId};
      order := order + [eventId];
      if |order| > MAX_HANDLED_EVENT_IDS {
        var evicted := order[0];
        assert evicted !in order[1..];
        order := order[1..];
        ids := ids - {evicted};
      }
    }

    method Receive(d: Delivery) returns (v: Verdict)
      requires Valid()
      modifies this
      ensures Valid() && run == old(run) + [d]
      ensures v == Judge(Handled(old(run)), d)
    {
      ghost var h := Handled(run);
      ReprocessedOnlyAfterEviction(run);
      assert (run + [d])[..|run|] == run;
      if d.createdAt > 0 && d.nowSec - d.createdAt > NWC_REQUEST_MAX_AGE_SEC {
        v := Stale;
      } else if d.id.Some? && d.id.value in ids {
        v := Duplicate;
      } else {
        v := Process;
        if d.id.Some? {
          MarkEventHandled(d.id.value);
        }
      }
      run := run + [d];
    }
  }
}
