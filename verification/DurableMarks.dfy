/** The high-water marks reach the storage: what is in memory has been issued, and what is issued lands. */
module DurableMarks {
  import opened Wrappers
  import opened Highwater
  import opened DurablePersist

  /** The marks carried by the last mark write among some requests. */
  function LastMarks(ops: seq<Op>): Option<Marks> {
    if ops == [] then None
    else
      match ops[|ops| - 1]
      case MarkWrite(m) => Some(m)
      case _ => LastMarks(ops[..|ops| - 1])
  }

  predicate NoMarkWriteFailed(io: Io) {
    forall k :: 0 <= k < |io.settled| && k < |io.issued| && io.issued[k].MarkWrite? ==> io.settled[k]
  }

  /** The marks in memory are the last that were issued, and the last that settled are on the disk if none failed. */
  predicate Issued(s: State) {
    s.session.Up? ==>
      var io := s.session.io;
      && |io.settled| <= |io.issued|
      && LastMarks(io.issued) == Some(s.session.marks)
      && (NoMarkWriteFailed(io) && LastMarks(io.issued[..|io.settled|]).Some? ==>
            s.disk.marks == LastMarks(io.issued[..|io.settled|]).value)
  }

  lemma LastMarksSnoc(ops: seq<Op>, op: Op)
    ensures LastMarks(ops + [op]) == if op.MarkWrite? then Some(op.marks) else LastMarks(ops)
  {
    assert (ops + [op])[..|ops|] == ops;
  }

  // Issuing a request leaves what has settled alone.
  lemma IssueKeeps(disk: Disk, u: Session, v: Session, op: Op)
    requires u.Up? && v.Up? && Issued(State(disk, u)) && v.io.issued == u.io.issued + [op] && v.io.settled == u.io.settled
    requires v.marks == if op.MarkWrite? then op.marks else u.marks
    ensures Issued(State(disk, v))
  {
    LastMarksSnoc(u.io.issued, op);
    assert v.io.issued[..|u.io.settled|] == u.io.issued[..|u.io.settled|];
    assert forall k :: 0 <= k < |u.io.settled| ==> v.io.issued[k] == u.io.issued[k];
  }

  lemma SettleKeeps(s: State, ok: bool)
    requires Issued(s) && Enabled(s, Settle(ok))
    ensures Issued(Apply(s, Settle(ok)))
  {
    var io, n := s.session.io, |s.session.io.settled|;
    assert io.issued[..n + 1] == io.issued[..n] + [io.issued[n]];
    LastMarksSnoc(io.issued[..n], io.issued[n]);
    var io' := Apply(s, Settle(ok)).session.io;
    assert forall k :: 0 <= k < n ==> io'.settled[k] == io.settled[k];
    assert io'.settled[n] == ok;
  }

  lemma RestartIssues(s: State, loaded: seq<Summary>)
    requires Enabled(s, Restart(loaded))
    ensures Issued(Apply(s, Restart(loaded)))
  {
    var marks := Merged(s.disk.marks, loaded);
    LastMarksSnoc([], MarkWrite(marks));
    assert [] + [MarkWrite(marks)] == [MarkWrite(marks)];
  }

  lemma FlushEndIssues(s: State, i: nat, chainMonitor: bool, known: bool)
    requires Issued(s) && Enabled(s, FlushEnd(i, chainMonitor, known))
    ensures Issued(Apply(s, FlushEnd(i, chainMonitor, known)))
  {
    var u, v := s.session, Apply(s, FlushEnd(i, chainMonitor, known)).session;
    if v.marks != u.marks {
      IssueKeeps(s.disk, u, v, MarkWrite(v.marks));
    }
  }

  lemma IssuedStep(s: State, e: Event)
    requires Issued(s) && Enabled(s, e)
    ensures Issued(Apply(s, e))
  {
    match e
    case Restart(loaded) => RestartIssues(s, loaded);
    case Settle(ok) => SettleKeeps(s, ok);
    case FlushEnd(i, cm, known) => FlushEndIssues(s, i, cm, known);
    case Persist(c, id, full, update) =>
      if s.session.io.healthy {
        IssueKeeps(s.disk, s.session, Apply(s, e).session, MonitorWrite(c, id, full));
      }
    case EnterManagerWrite(i) =>
      if s.session.hasManager {
        IssueKeeps(s.disk, s.session, Apply(s, e).session, ManagerSnapshot);
      }
    case _ =>
  }

  lemma {:induction false} IssuedRun(s: State, run: seq<Event>)
    requires Issued(s) && ValidRun(s, run)
    ensures Issued(After(s, run))
    decreases run
  {
    if run != [] {
      IssuedStep(s, run[0]);
      IssuedRun(Apply(s, run[0]), run[1..]);
    }
  }

  /** In every reachable session the last mark write issued carries the marks in memory. */
  lemma MarksAreIssued(s: State, run: seq<Event>)
    requires Init(s) && ValidRun(s, run) && After(s, run).session.Up?
    ensures LastMarks(After(s, run).session.io.issued) == Some(After(s, run).session.marks)
  {
    IssuedRun(s, run);
  }

  /** The flush of task `i` ends well: the cache is healthy and every cache write it waited for committed. */
  ghost predicate EndsWell(u: Session, e: Event) {
    && u.Up? && e.FlushEnd? && e.chainMonitor && AtStage(u, e.i) && u.tasks[e.i].stage.Flushing? && u.io.healthy
    && var stage := u.tasks[e.i].stage;
       forall k :: stage.from <= k < stage.upTo && k < |u.io.settled| && k < |u.io.issued| && u.io.issued[k].ViaCache() ==>
         u.io.settled[k]
  }

  /**
    Of all the events of a session only the end of a flush that ends well acknowledges, and only its own task; and
    only it moves a mark: its channel's, to the acknowledged id, when that is higher and the channel is still known.
   */
  lemma AckAndMarkExactly(s: State, e: Event)
    requires Inv(s) && Enabled(s, e) && s.session.Up? && !e.Kill?
    ensures var u, v := s.session, Apply(s, e).session;
            && v.Up? && |u.tasks| <= |v.tasks|
            && (forall j :: 0 <= j < |v.tasks| ==>
                  (v.tasks[j].stage.Acked? <==> (j < |u.tasks| && u.tasks[j].stage.Acked?) || (EndsWell(u, e) && e.i == j)))
            && (v.marks != u.marks <==>
                  EndsWell(u, e) && e.known
                  && (u.tasks[e.i].channel in u.marks ==> u.marks[u.tasks[e.i].channel] < u.tasks[e.i].id))
            && (v.marks != u.marks ==> v.marks == u.marks[u.tasks[e.i].channel := u.tasks[e.i].id])
  {
    if e.FlushEnd? {
      var t := s.session.tasks[e.i];
      assert FlushSucceeds(s.session.io, t.stage) && e.chainMonitor <==> EndsWell(s.session, e);
      RaiseChanges(s.session.marks, t.channel, t.id);
    }
  }

  lemma RaiseChanges(marks: Marks, c: Channel, id: nat)
    ensures Raise(marks, c, id) != marks <==> (c in marks ==> marks[c] < id)
    ensures Raise(marks, c, id) != marks ==> Raise(marks, c, id) == marks[c := id]
  {
    if c !in marks || marks[c] < id {
      assert c in marks[c := id] && marks[c := id][c] == id;
    }
  }

  // ---------------------------------------------------------------- what a flush waits for

  /** A flush that waits for, or waited for, the first `n` requests, or was given up. */
  predicate WaitsFor(stage: Stage, n: nat) {
    match stage
    case Flushing(_, upTo, _) => upTo == n
    case Acked(_, upTo) => upTo == n
    case Stopped => true
    case _ => false
  }

  lemma TargetStep(s: State, e: Event, i: nat, n: nat)
    requires Enabled(s, e) && AtStage(s.session, i) && WaitsFor(s.session.tasks[i].stage, n) && !e.Kill?
    ensures var v := Apply(s, e).session;
            AtStage(v, i) && WaitsFor(v.tasks[i].stage, n) && s.session.io.issued <= v.io.issued
  {
  }

  lemma {:induction false} FlushTarget(s: State, run: seq<Event>, i: nat, n: nat)
    requires ValidRun(s, run) && AtStage(s.session, i) && WaitsFor(s.session.tasks[i].stage, n)
    requires forall e :: e in run ==> !e.Kill?
    ensures AtStage(After(s, run).session, i) && WaitsFor(After(s, run).session.tasks[i].stage, n)
    ensures s.session.io.issued <= After(s, run).session.io.issued
    decreases run
  {
    if run != [] {
      assert run[0] in run;
      TargetStep(s, run[0], i, n);
      FlushTarget(Apply(s, run[0]), run[1..], i, n);
    }
  }

  /** An acknowledgement means that every cache write issued before its flush began, by any task, has committed. */
  lemma FlushWaitsForAllIssued(s: State, before: seq<Event>, i: nat, run: seq<Event>)
    requires Init(s) && ValidRun(s, before) && Enabled(After(s, before), FlushBegin(i))
    requires ValidRun(Apply(After(s, before), FlushBegin(i)), run) && forall e :: e in run ==> !e.Kill?
    ensures var u, v := After(s, before).session, After(Apply(After(s, before), FlushBegin(i)), run).session;
            && AtStage(v, i) && u.io.issued <= v.io.issued
            && (v.tasks[i].stage.Acked? ==>
                  && |u.io.issued| <= |v.io.settled|
                  && forall k :: 0 <= k < |u.io.issued| && u.io.issued[k].ViaCache() ==> v.io.settled[k])
  {
    var t := After(s, before);
    var b := Apply(t, FlushBegin(i));
    RunKeepsInv(s, before);
    Step(t, FlushBegin(i));
    FlushTarget(b, run, i, |t.session.io.issued|);
    RunKeepsInv(b, run);
    var v := After(b, run).session;
    assert TaskInv(v, v.tasks[i]);
    assert forall k :: 0 <= k < |t.session.io.issued| ==> v.io.issued[k] == t.session.io.issued[k];
  }

  // ---------------------------------------------------------------- the undisturbed run, to its end

  // Everything settled and no mark write failed.
  predicate Stored(s: State) {
    s.session.Up? && |s.session.io.settled| == |s.session.io.issued| && NoMarkWriteFailed(s.session.io)
  }

  lemma StoredMarks(s: State)
    requires Issued(s) && Stored(s)
    ensures s.disk.marks == s.session.marks
  {
    var io := s.session.io;
    assert io.issued[..|io.settled|] == io.issued;
  }

  /** A start from a disk that carries these marks is refused if the channel is back below the id. */
  lemma BelowMarkHalts(disk: Disk, loaded: seq<Summary>, c: Channel, id: nat)
    requires Lists(loaded, disk.monitors) && c in disk.marks && id <= disk.marks[c]
    requires c in disk.monitors && disk.monitors[c] < id
    ensures Started(disk, loaded).Halted?
  {
    GuardHaltsExactlyOnRegression(disk, loaded);
  }

  /** A persist from rest, until everything it issued has settled. */
  function ToTheEnd(s: State, c: Channel, id: nat, full: bool, update: Handle): seq<Event>
    requires AtRest(s)
  {
    var ack := PickUpdateId(update, id);
    WriteBatch(s, c, id, full, update) + FlushBatch(|s.session.tasks|)
    + if Raise(s.session.marks, c, ack) == s.session.marks then [] else [Settle(true)]
  }

  lemma RunsToTheEnd(s: State, c: Channel, id: nat, full: bool, update: Handle)
    requires AtRest(s) && Inv(s) && Issued(s) && Stored(s) && Enabled(s, Persist(c, id, full, update))
    ensures var run := ToTheEnd(s, c, id, full, update);
            && ValidRun(s, run)
            && var t := After(s, run);
               Stored(t) && t.session.marks == Raise(s.session.marks, c, PickUpdateId(update, id))
  {
    var a, b := WriteBatch(s, c, id, full, update), FlushBatch(|s.session.tasks|);
    BatchWritten(s, c, id, full, update);
    BatchFlushed(s, c, id, full, update);
    RunConcat(s, a, b);
    var t := After(s, a + b);
    WrittenMarksKept(s, c, id, full, update);
    if t.session.marks == s.session.marks {
      assert a + b + [] == a + b;
    } else {
      LastSettles(t);
      RunConcat(s, a + b, [Settle(true)]);
    }
  }

  lemma LastSettles(t: State)
    requires t.session.Up? && |t.session.io.issued| == |t.session.io.settled| + 1 && NoMarkWriteFailed(t.session.io)
    ensures ValidRun(t, [Settle(true)])
    ensures Stored(After(t, [Settle(true)])) && After(t, [Settle(true)]).session.marks == t.session.marks
  {
    Trace([t, Apply(t, Settle(true))], [Settle(true)]);
  }

  lemma WrittenMarksKept(s: State, c: Channel, id: nat, full: bool, update: Handle)
    requires AtRest(s) && Stored(s)
    ensures Stored(Written(s, c, id, full, update)) && Written(s, c, id, full, update).session.marks == s.session.marks
  {
  }

  /**
    Once everything has settled, the disk carries a mark for the channel that is no lower than the acknowledged id,
    and a start from any disk with these marks where the channel is back below that id is refused.
   */
  lemma UndisturbedMarkIsStored(s: State, c: Channel, id: nat, full: bool, update: Handle)
    requires AtRest(s) && Inv(s) && Issued(s) && Stored(s) && Enabled(s, Persist(c, id, full, update))
    ensures ValidRun(s, ToTheEnd(s, c, id, full, update))
    ensures var marks := After(s, ToTheEnd(s, c, id, full, update)).disk.marks;
            c in marks && PickUpdateId(update, id) <= marks[c]
    ensures forall disk: Disk, loaded | disk.marks == After(s, ToTheEnd(s, c, id, full, update)).disk.marks
                                        && Lists(loaded, disk.monitors) && c in disk.monitors
                                        && disk.monitors[c] < PickUpdateId(update, id) ::
              Started(disk, loaded).Halted?
  {
    var run, ack := ToTheEnd(s, c, id, full, update), PickUpdateId(update, id);
    RunsToTheEnd(s, c, id, full, update);
    IssuedRun(s, run);
    StoredMarks(After(s, run));
    forall disk: Disk, loaded | disk.marks == After(s, run).disk.marks && Lists(loaded, disk.monitors)
                                && c in disk.monitors && disk.monitors[c] < ack
      ensures Started(disk, loaded).Halted?
    {
      BelowMarkHalts(disk, loaded, c, ack);
    }
  }
}
