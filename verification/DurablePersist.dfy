/**
  Durable persistence of channel monitors: a monitor update is acknowledged to the node engine only
  after the storage has committed it, and a high-water mark follows each acknowledgement.

  Storage requests are issued in order and settle in order, each committing or failing. A page kill
  drops everything that has not settled. Every atomic stretch of the promise chain is one `Event`.
 */
module DurablePersist {
  import opened Wrappers
  import opened Highwater

  // ---------------------------------------------------------------- pure helpers

  datatype Handle = NoneHandle | Present(updateId: nat)

  /** A missing update reaches the persister as an empty handle; the monitor's own latest id is acked then. */
  function PickUpdateId(update: Handle, latest: nat): nat {
    match update
    case NoneHandle => latest
    case Present(id) => id
  }

  // ---------------------------------------------------------------- storage

  /** `FullMonitor` and `DeltaMonitor` go through the cache; the other two are direct writes. */
  datatype Op =
    | FullMonitor(channel: Channel, id: nat)
    | DeltaMonitor(channel: Channel, id: nat)
    | ManagerSnapshot
    | MarkWrite(marks: Marks)
  {
    predicate ViaCache() { FullMonitor? || DeltaMonitor? }
  }

  /** `monitors` is the update id each channel would load at; a delta after a gap is not loaded. */
  datatype Disk = Disk(monitors: Marks, marks: Marks)

  function Committed(d: Disk, op: Op): Disk {
    match op
    case FullMonitor(c, id) => d.(monitors := d.monitors[c := id])
    case DeltaMonitor(c, id) =>
      if c in d.monitors && id == d.monitors[c] + 1 then d.(monitors := d.monitors[c := id]) else d
    case ManagerSnapshot => d
    case MarkWrite(m) => d.(marks := m)
  }

  /** `settled[i]` is the outcome of request `i`; its handlers have run when `i < reacted`. */
  datatype Io = Io(issued: seq<Op>, settled: seq<bool>, reacted: nat, healthy: bool)

  /** Every cache write with an index in [from, to) committed. */
  predicate AllCommitted(io: Io, from: nat, to: nat) {
    to <= |io.settled| <= |io.issued|
    && forall i :: from <= i < to && io.issued[i].ViaCache() ==> io.settled[i]
  }

  // ---------------------------------------------------------------- the protocol

  /**
    The promise chain started by one monitor persist; `id` is the update id it will ack and `op` is the monitor's
    own storage request, or none when a degraded cache refused the write and the engine went on regardless.
   */
  datatype Stage =
    | Scheduled
    | WritingManager(snapshot: nat)
    | FlushReady(manager: Manager)
    | Flushing(manager: Manager, upTo: nat, from: nat)
    | Acked(manager: Manager, upTo: nat)
    | Stopped

  /** The manager snapshot of the batch, or that no manager existed. */
  datatype Manager = NoManager | Snapshot(op: nat)

  datatype Task = Task(channel: Channel, id: nat, op: Option<nat>, stage: Stage) {
    predicate Precedes(k: nat) { op.Some? ==> op.value < k }
  }

  datatype Session =
    | Down
    | Up(io: Io, latest: Marks, start: Marks, marks: Marks, tasks: seq<Task>, hasManager: bool)
    | Halted

  datatype State = State(disk: Disk, session: Session)

  datatype Event =
    | Restart(loaded: seq<Summary>)
    | Kill
    | ManagerChanges(present: bool)
    | Persist(channel: Channel, id: nat, full: bool, update: Handle)
    | PersistFault(channel: Channel, id: nat)        // the inner persister reported a failure, with nothing written
    | Settle(ok: bool)
    | React
    | EnterManagerWrite(i: nat)
    | ManagerWritten(i: nat)
    | FlushBegin(i: nat)
    | FlushEnd(i: nat, chainMonitor: bool, known: bool)

  /** The monitors read back at start: each stored channel, at the id it loads at. */
  predicate Lists(loaded: seq<Summary>, monitors: Marks) {
    && (forall s :: s in loaded ==> s.channel in monitors && s.latest == monitors[s.channel])
    && (forall c :: c in monitors ==> Summary(c, monitors[c]) in loaded)
  }

  /** The engine numbers a channel's updates consecutively; a full write may repeat or skip ahead. */
  predicate NextId(latest: Marks, c: Channel, id: nat, full: bool) {
    if full then c in latest ==> latest[c] <= id else c in latest && id == latest[c] + 1
  }

  predicate AtStage(s: Session, i: nat) {
    s.Up? && i < |s.tasks|
  }

  predicate Enabled(s: State, e: Event) {
    var u := s.session;
    match e
    case Restart(loaded) => u.Down? && Lists(loaded, s.disk.monitors)
    case Kill => true
    case ManagerChanges(_) => u.Up?
    case Persist(c, id, full, update) =>
      u.Up? && NextId(u.latest, c, id, full) && PickUpdateId(update, id) <= id
    case PersistFault(c, id) => u.Up?
    case Settle(_) => u.Up? && |u.io.settled| < |u.io.issued|
    case React => u.Up? && u.io.reacted < |u.io.settled| && u.io.reacted < |u.io.issued|
    case EnterManagerWrite(i) => AtStage(u, i) && u.tasks[i].stage.Scheduled?
    case ManagerWritten(i) =>
      AtStage(u, i) && u.tasks[i].stage.WritingManager? && u.tasks[i].stage.snapshot < |u.io.settled|
    case FlushBegin(i) => AtStage(u, i) && u.tasks[i].stage.FlushReady?
    case FlushEnd(i, _, _) =>
      AtStage(u, i) && u.tasks[i].stage.Flushing? && u.tasks[i].stage.upTo <= |u.io.settled|
  }

  function MonitorWrite(c: Channel, id: nat, full: bool): Op {
    if full then FullMonitor(c, id) else DeltaMonitor(c, id)
  }

  function Issue(io: Io, op: Op): Io {
    io.(issued := io.issued + [op])
  }

  function WithStage(u: Session, i: nat, stage: Stage): Session
    requires AtStage(u, i)
  {
    u.(tasks := u.tasks[i := u.tasks[i].(stage := stage)])
  }

  predicate SomeBehind(loaded: seq<Summary>, stored: Marks) {
    exists s :: s in loaded && Behind(s, stored)
  }

  /** The start guard: halt on a regression, otherwise merge the marks and write them back. */
  function Started(disk: Disk, loaded: seq<Summary>): Session {
    if SomeBehind(loaded, disk.marks) then Halted
    else
      var marks := Merged(disk.marks, loaded);
      Up(Io([MarkWrite(marks)], [], 0, true), disk.monitors, disk.monitors, marks, [], false)
  }

  /** A degraded cache refuses the write; unless the engine reports that as a fault, the ack is scheduled all the same. */
  function Persisted(u: Session, c: Channel, id: nat, full: bool, update: Handle): Session
    requires u.Up?
  {
    var v := u.(latest := u.latest[c := id]);
    var ackId := PickUpdateId(update, id);
    if !u.io.healthy then v.(tasks := u.tasks + [Task(c, ackId, None, Scheduled)])
    else v.(io := Issue(u.io, MonitorWrite(c, id, full)), tasks := u.tasks + [Task(c, ackId, Some(|u.io.issued|), Scheduled)])
  }

  /** A failed cache write makes the cache refuse everything that follows. */
  function Reacted(io: Io): Io
    requires io.reacted < |io.settled| && io.reacted < |io.issued|
  {
    io.(reacted := io.reacted + 1,
        healthy := io.healthy && (io.issued[io.reacted].ViaCache() ==> io.settled[io.reacted]))
  }

  /** The flush succeeds when the cache is healthy and nothing it waited for failed. */
  predicate FlushSucceeds(io: Io, stage: Stage)
    requires stage.Flushing?
  {
    io.healthy && AllCommitted(io, stage.from, stage.upTo)
  }

  /** Acknowledge, then advance and write back the mark of a channel the chain monitor still knows. */
  function Acknowledged(u: Session, i: nat, known: bool): Session
    requires AtStage(u, i) && u.tasks[i].stage.Flushing?
  {
    var t := u.tasks[i];
    var v := WithStage(u, i, Acked(t.stage.manager, t.stage.upTo));
    var raised := Raise(u.marks, t.channel, t.id);
    if known && raised != u.marks then v.(marks := raised, io := Issue(u.io, MarkWrite(raised))) else v
  }

  function NextUp(s: State, e: Event): State
    requires Enabled(s, e) && s.session.Up? && !e.Restart? && !e.Kill?
  {
    var u := s.session;
    match e
    case ManagerChanges(present) => s.(session := u.(hasManager := present))
    case Persist(c, id, full, update) => s.(session := Persisted(u, c, id, full, update))
    case PersistFault(c, id) => s
    case Settle(ok) =>
      var op := u.io.issued[|u.io.settled|];
      State(if ok then Committed(s.disk, op) else s.disk,
            u.(io := u.io.(settled := u.io.settled + [ok])))
    case React => s.(session := u.(io := Reacted(u.io)))
    case EnterManagerWrite(i) =>
      if u.hasManager then
        s.(session := WithStage(u, i, WritingManager(|u.io.issued|)).(io := Issue(u.io, ManagerSnapshot)))
      else s.(session := WithStage(u, i, FlushReady(NoManager)))
    case ManagerWritten(i) =>
      var k := u.tasks[i].stage.snapshot;
      s.(session := WithStage(u, i, if u.io.settled[k] then FlushReady(Snapshot(k)) else Stopped))
    case FlushBegin(i) =>
      var m := u.tasks[i].stage.manager;
      s.(session := WithStage(u, i, if u.io.healthy then Flushing(m, |u.io.issued|, u.io.reacted) else Stopped))
    case FlushEnd(i, chainMonitor, known) =>
      s.(session := if FlushSucceeds(u.io, u.tasks[i].stage) && chainMonitor then Acknowledged(u, i, known)
                    else WithStage(u, i, Stopped))
  }

  function Apply(s: State, e: Event): State
    requires Enabled(s, e)
  {
    match e
    case Restart(loaded) => s.(session := Started(s.disk, loaded))
    case Kill => s.(session := Down)
    case _ => NextUp(s, e)
  }

  predicate Init(s: State) {
    s.session.Down? && Below(s.disk.marks, s.disk.monitors)
  }

  predicate ValidRun(s: State, run: seq<Event>)
    decreases run
  {
    run == [] || (Enabled(s, run[0]) && ValidRun(Apply(s, run[0]), run[1..]))
  }

  function After(s: State, run: seq<Event>): State
    requires ValidRun(s, run)
    decreases run
  {
    if run == [] then s else After(Apply(s, run[0]), run[1..])
  }

  /** Each mark is at most the id its channel loads at. */
  predicate Below(marks: Marks, monitors: Marks) {
    forall c :: c in marks ==> c in monitors && marks[c] <= monitors[c]
  }

  // ---------------------------------------------------------------- invariants

  /** The ids the channels would load at if the first `n` requests all committed. */
  function Intended(start: Marks, ops: seq<Op>, n: nat): Marks
    requires n <= |ops|
  {
    if n == 0 then start
    else
      var m := Intended(start, ops, n - 1);
      if ops[n - 1].ViaCache() then m[ops[n - 1].channel := ops[n - 1].id] else m
  }

  lemma {:induction false} IntendedAppend(start: Marks, ops: seq<Op>, n: nat, op: Op)
    requires n <= |ops|
    ensures Intended(start, ops + [op], n) == Intended(start, ops, n)
    decreases n
  {
    if n > 0 {
      IntendedAppend(start, ops, n - 1, op);
    }
  }

  /** Each request was issued with the engine's numbering. */
  ghost predicate Numbered(start: Marks, ops: seq<Op>) {
    forall k :: 0 <= k < |ops| && ops[k].ViaCache() ==>
      NextId(Intended(start, ops, k), ops[k].channel, ops[k].id, ops[k].FullMonitor?)
  }

  lemma {:induction false} IntendedMonotone(start: Marks, ops: seq<Op>, a: nat, b: nat)
    requires Numbered(start, ops) && a <= b <= |ops|
    ensures Below(Intended(start, ops, a), Intended(start, ops, b))
    decreases b
  {
    if a < b {
      IntendedMonotone(start, ops, a, b - 1);
    }
  }

  ghost predicate IoInv(disk: Disk, u: Session)
    requires u.Up?
  {
    var io := u.io;
    && io.reacted <= |io.settled| <= |io.issued|
    && (io.healthy ==> AllCommitted(io, 0, io.reacted))
    && Numbered(u.start, io.issued)
    && (io.healthy ==> u.latest == Intended(u.start, io.issued, |io.issued|))
    && Below(disk.monitors, Intended(u.start, io.issued, |io.settled|))
    && (forall n :: 0 <= n <= |io.settled| && AllCommitted(io, 0, n) ==>
          Below(Intended(u.start, io.issued, n), disk.monitors))
  }

  /** No mark, in memory, on its way to the disk or on the disk, is ahead of the monitors. */
  ghost predicate MarksInv(s: State) {
    && Below(s.disk.marks, s.disk.monitors)
    && (s.session.Up? ==>
          && Below(s.session.marks, s.disk.monitors)
          && forall k :: 0 <= k < |s.session.io.issued| && s.session.io.issued[k].MarkWrite? ==>
               Below(s.session.io.issued[k].marks, s.disk.monitors))
  }

  predicate ManagerOk(io: Io, t: Task, m: Manager) {
    m.Snapshot? ==> t.Precedes(m.op) && m.op < |io.settled| && io.settled[m.op]
                    && m.op < |io.issued| && io.issued[m.op].ManagerSnapshot?
  }

  // The task's own request, if it has one, is a monitor write of its channel.
  predicate OwnRequest(io: Io, t: Task) {
    t.op.Some? ==>
      var k := t.op.value;
      k < |io.issued| && io.issued[k].ViaCache() && io.issued[k].channel == t.channel && t.id <= io.issued[k].id
  }

  ghost predicate TaskInv(u: Session, t: Task)
    requires u.Up?
  {
    var io := u.io;
    && OwnRequest(io, t)
    && (t.op.None? ==> !io.healthy && !t.stage.Flushing? && !t.stage.Acked?)
    && match t.stage
       case Scheduled => true
       case WritingManager(k) => t.Precedes(k) && k < |io.issued| && io.issued[k].ManagerSnapshot?
       case FlushReady(m) => ManagerOk(io, t, m)
       case Flushing(m, upTo, from) =>
         ManagerOk(io, t, m) && t.Precedes(upTo) && upTo <= |io.issued| && from <= |io.settled|
         && from <= upTo && AllCommitted(io, 0, from)
       case Acked(m, upTo) => ManagerOk(io, t, m) && t.Precedes(upTo) && AllCommitted(io, 0, upTo)
       case Stopped => true
  }

  ghost predicate TasksInv(u: Session) {
    u.Up? ==> forall i :: 0 <= i < |u.tasks| ==> TaskInv(u, u.tasks[i])
  }

  ghost predicate Inv(s: State) {
    MarksInv(s) && TasksInv(s.session) && (s.session.Up? ==> IoInv(s.disk, s.session))
  }

  // ---------------------------------------------------------------- steps keep the invariant

  /** `b` continues `a`: more requests issued, more settled, and no recovery from a failure. */
  predicate Continues(a: Io, b: Io) {
    && a.issued <= b.issued && a.settled <= b.settled && (b.healthy ==> a.healthy)
    && |a.settled| <= |a.issued| && |b.settled| <= |b.issued|
  }

  lemma TaskContinues(u: Session, v: Session, t: Task)
    requires u.Up? && v.Up? && Continues(u.io, v.io) && TaskInv(u, t)
    ensures TaskInv(v, t)
  {
    assert forall i :: 0 <= i < |u.io.issued| ==> v.io.issued[i] == u.io.issued[i];
    assert forall i :: 0 <= i < |u.io.settled| ==> v.io.settled[i] == u.io.settled[i];
  }

  lemma AllCommittedAppend(a: Io, b: Io, n: nat)
    requires Continues(a, b) && n <= |a.settled|
    ensures AllCommitted(a, 0, n) <==> AllCommitted(b, 0, n)
  {
    assert forall i :: 0 <= i < n ==> b.issued[i] == a.issued[i] && b.settled[i] == a.settled[i];
  }

  lemma NumberedAppend(start: Marks, ops: seq<Op>, op: Op)
    requires Numbered(start, ops)
    requires op.ViaCache() ==> NextId(Intended(start, ops, |ops|), op.channel, op.id, op.FullMonitor?)
    ensures Numbered(start, ops + [op])
    ensures forall n :: 0 <= n <= |ops| ==> Intended(start, ops + [op], n) == Intended(start, ops, n)
  {
    forall n | 0 <= n <= |ops| ensures Intended(start, ops + [op], n) == Intended(start, ops, n) {
      IntendedAppend(start, ops, n, op);
    }
    assert forall k :: 0 <= k < |ops| ==> (ops + [op])[k] == ops[k];
  }

  // Issuing a request that keeps the engine's numbering.
  lemma IssueKeepsIo(disk: Disk, u: Session, op: Op, latest: Marks)
    requires u.Up? && IoInv(disk, u)
    requires op.ViaCache() ==>
               u.io.healthy && NextId(u.latest, op.channel, op.id, op.FullMonitor?)
               && latest == u.latest[op.channel := op.id]
    requires !op.ViaCache() ==> latest == u.latest
    ensures IoInv(disk, u.(io := Issue(u.io, op), latest := latest))
  {
    var v := u.(io := Issue(u.io, op), latest := latest);
    NumberedAppend(u.start, u.io.issued, op);
    forall n | 0 <= n <= |u.io.settled| ensures AllCommitted(u.io, 0, n) <==> AllCommitted(v.io, 0, n) {
      AllCommittedAppend(u.io, v.io, n);
    }
  }

  // One more request settles: the disk stays below what was intended, and reaches it if it did before.
  lemma DiskFollows(d: Disk, start: Marks, ops: seq<Op>, n: nat, ok: bool)
    requires n < |ops| && Numbered(start, ops) && Below(d.monitors, Intended(start, ops, n))
    ensures var e := if ok then Committed(d, ops[n]) else d;
            && Below(d.monitors, e.monitors) && Below(e.monitors, Intended(start, ops, n + 1))
            && ((ops[n].ViaCache() ==> ok) && Below(Intended(start, ops, n), d.monitors) ==>
                  Below(Intended(start, ops, n + 1), e.monitors))
  {
    assert ops[n].ViaCache() ==> NextId(Intended(start, ops, n), ops[n].channel, ops[n].id, ops[n].FullMonitor?);
  }

  lemma BelowTrans(a: Marks, b: Marks, c: Marks)
    requires Below(a, b) && Below(b, c)
    ensures Below(a, c)
  {
  }

  lemma SettleKeepsIo(disk: Disk, u: Session, ok: bool)
    requires u.Up? && IoInv(disk, u) && |u.io.settled| < |u.io.issued|
    ensures var disk' := if ok then Committed(disk, u.io.issued[|u.io.settled|]) else disk;
            && IoInv(disk', u.(io := u.io.(settled := u.io.settled + [ok])))
            && Below(disk.monitors, disk'.monitors)
  {
    var io, n := u.io, |u.io.settled|;
    var io' := io.(settled := io.settled + [ok]);
    var disk' := if ok then Committed(disk, io.issued[n]) else disk;
    DiskFollows(disk, u.start, io.issued, n, ok);
    forall k | 0 <= k <= n ensures AllCommitted(io, 0, k) <==> AllCommitted(io', 0, k) {
      AllCommittedAppend(io, io', k);
    }
    forall k | 0 <= k <= n + 1 && AllCommitted(io', 0, k)
      ensures Below(Intended(u.start, io.issued, k), disk'.monitors)
    {
      if k <= n {
        BelowTrans(Intended(u.start, io.issued, k), disk.monitors, disk'.monitors);
      } else {
        assert AllCommitted(io', 0, n);
        assert io.issued[n].ViaCache() ==> io'.settled[n];
      }
    }
  }

  lemma SettleStep(s: State, ok: bool)
    requires Inv(s) && Enabled(s, Settle(ok))
    ensures Inv(Apply(s, Settle(ok)))
  {
    SettleKeepsIo(s.disk, s.session, ok);
    var t := Apply(s, Settle(ok));
    forall i | 0 <= i < |t.session.tasks| ensures TaskInv(t.session, t.session.tasks[i]) {
      TaskContinues(s.session, t.session, s.session.tasks[i]);
    }
  }

  // A step of the session that issues at most a mark or a manager snapshot, or nothing.
  lemma IssueStep(s: State, op: Op, v: Session)
    requires Inv(s) && s.session.Up?
    requires op.ViaCache() ==>
               s.session.io.healthy && NextId(s.session.latest, op.channel, op.id, op.FullMonitor?)
               && v == s.session.(io := Issue(s.session.io, op), latest := s.session.latest[op.channel := op.id])
    requires !op.ViaCache() ==> v == s.session.(io := Issue(s.session.io, op))
    requires op.MarkWrite? ==> Below(op.marks, s.disk.monitors)
    ensures Inv(State(s.disk, v))
  {
    IssueKeepsIo(s.disk, s.session, op, v.latest);
    forall i | 0 <= i < |v.tasks| ensures TaskInv(v, v.tasks[i]) {
      TaskContinues(s.session, v, s.session.tasks[i]);
    }
  }

  lemma StageStep(s: State, i: nat, t: Task)
    requires Inv(s) && AtStage(s.session, i) && TaskInv(s.session, t)
    ensures Inv(State(s.disk, s.session.(tasks := s.session.tasks[i := t])))
  {
    var v := s.session.(tasks := s.session.tasks[i := t]);
    forall k | 0 <= k < |v.tasks| ensures TaskInv(v, v.tasks[k]) {
      TaskContinues(s.session, v, if k == i then t else s.session.tasks[k]);
    }
  }

  lemma PersistStep(s: State, c: Channel, id: nat, full: bool, update: Handle)
    requires Inv(s) && Enabled(s, Persist(c, id, full, update))
    ensures Inv(Apply(s, Persist(c, id, full, update)))
  {
    var u := s.session;
    var t := Apply(s, Persist(c, id, full, update));
    var op := MonitorWrite(c, id, full);
    var v := if u.io.healthy then u.(io := Issue(u.io, op), latest := u.latest[c := id]) else u;
    if u.io.healthy {
      IssueStep(s, op, v);
    }
    var task := t.session.tasks[|u.tasks|];
    assert TaskInv(v, task);
    forall k | 0 <= k < |t.session.tasks| ensures TaskInv(t.session, t.session.tasks[k]) {
      TaskContinues(v, t.session, if k < |v.tasks| then v.tasks[k] else task);
    }
  }

  lemma ReactStep(s: State)
    requires Inv(s) && Enabled(s, React)
    ensures Inv(Apply(s, React))
  {
    var u, v := s.session, Apply(s, React).session;
    forall k | 0 <= k < |u.tasks| ensures TaskInv(v, u.tasks[k]) {
      TaskContinues(u, v, u.tasks[k]);
    }
    forall n | 0 <= n <= |u.io.settled| ensures AllCommitted(u.io, 0, n) <==> AllCommitted(v.io, 0, n) {
      AllCommittedAppend(u.io, v.io, n);
    }
  }

  lemma ManagerStep(s: State, i: nat)
    requires Inv(s) && Enabled(s, EnterManagerWrite(i))
    ensures Inv(Apply(s, EnterManagerWrite(i)))
  {
    var u := s.session;
    var t := u.tasks[i];
    assert TaskInv(u, t);
    if u.hasManager {
      var v := u.(io := Issue(u.io, ManagerSnapshot));
      IssueStep(s, ManagerSnapshot, v);
      TaskContinues(u, v, t);
      StageStep(State(s.disk, v), i, t.(stage := WritingManager(|u.io.issued|)));
    } else {
      StageStep(s, i, t.(stage := FlushReady(NoManager)));
    }
  }

  // A flush that succeeds waited for, or had already seen, the commit of every earlier cache write.
  lemma FlushCovers(u: Session, t: Task)
    requires u.Up? && TaskInv(u, t) && t.stage.Flushing? && FlushSucceeds(u.io, t.stage)
    ensures AllCommitted(u.io, 0, t.stage.upTo)
  {
  }

  lemma FlushEndStep(s: State, i: nat, chainMonitor: bool, known: bool)
    requires Inv(s) && Enabled(s, FlushEnd(i, chainMonitor, known))
    ensures Inv(Apply(s, FlushEnd(i, chainMonitor, known)))
  {
    var u := s.session;
    var t := u.tasks[i];
    assert TaskInv(u, t);
    if !(FlushSucceeds(u.io, t.stage) && chainMonitor) {
      StageStep(s, i, t.(stage := Stopped));
      return;
    }
    FlushCovers(u, t);
    var acked := t.(stage := Acked(t.stage.manager, t.stage.upTo));
    StageStep(s, i, acked);
    var v := u.(tasks := u.tasks[i := acked]);
    var raised := Raise(u.marks, t.channel, t.id);
    AckedIsLoadable(s, t.op.value, t.stage.upTo);
    assert Below(raised, s.disk.monitors);
    if known && raised != u.marks {
      var w := v.(marks := raised);
      forall k | 0 <= k < |w.tasks| ensures TaskInv(w, w.tasks[k]) {
        TaskContinues(v, w, v.tasks[k]);
      }
      IssueStep(State(s.disk, w), MarkWrite(raised), w.(io := Issue(w.io, MarkWrite(raised))));
    }
  }

  // Once every cache write before `upTo` committed, a monitor written there loads at its id or later.
  lemma AckedIsLoadable(s: State, op: nat, upTo: nat)
    requires Inv(s) && s.session.Up? && op < upTo && AllCommitted(s.session.io, 0, upTo)
    requires s.session.io.issued[op].ViaCache()
    ensures var o := s.session.io.issued[op];
            o.channel in s.disk.monitors && o.id <= s.disk.monitors[o.channel]
  {
    var u := s.session;
    IntendedMonotone(u.start, u.io.issued, op + 1, upTo);
    assert Below(Intended(u.start, u.io.issued, upTo), s.disk.monitors);
    assert u.io.issued[op].channel in Intended(u.start, u.io.issued, op + 1);
  }

  lemma RestartStep(s: State, loaded: seq<Summary>)
    requires Inv(s) && Enabled(s, Restart(loaded))
    ensures Apply(s, Restart(loaded)).session.Up? && Inv(Apply(s, Restart(loaded)))
  {
    MergedIsLeastUpperBound(s.disk.marks, loaded);
    var marks := Merged(s.disk.marks, loaded);
    forall c | c in marks ensures c in s.disk.monitors && marks[c] <= s.disk.monitors[c] {
      assert Attained(c, marks[c], s.disk.marks, loaded);
    }
  }

  lemma Step(s: State, e: Event)
    requires Inv(s) && Enabled(s, e)
    ensures Inv(Apply(s, e))
  {
    match e {
      case Restart(loaded) => RestartStep(s, loaded);
      case Kill =>
      case ManagerChanges(p) => SessionStep(s, e);
      case Persist(c, id, full, update) => PersistStep(s, c, id, full, update);
      case PersistFault(_, _) =>
      case Settle(ok) => SettleStep(s, ok);
      case React => ReactStep(s);
      case EnterManagerWrite(i) => ManagerStep(s, i);
      case ManagerWritten(i) => SessionStep(s, e);
      case FlushBegin(i) => SessionStep(s, e);
      case FlushEnd(i, cm, known) => FlushEndStep(s, i, cm, known);
    }
  }

  lemma SessionStep(s: State, e: Event)
    requires Inv(s) && Enabled(s, e) && (e.ManagerChanges? || e.ManagerWritten? || e.FlushBegin?)
    ensures Inv(Apply(s, e))
  {
    var u := s.session;
    if e.ManagerChanges? {
      var v := Apply(s, e).session;
      forall k | 0 <= k < |u.tasks| ensures TaskInv(v, u.tasks[k]) {
        TaskContinues(u, v, u.tasks[k]);
      }
    } else {
      assert TaskInv(u, u.tasks[e.i]);
      StageStep(s, e.i, Apply(s, e).session.tasks[e.i]);
    }
  }

  lemma {:induction false} RunKeepsInv(s: State, run: seq<Event>)
    requires Inv(s) && ValidRun(s, run)
    ensures Inv(After(s, run))
    decreases run
  {
    if run != [] {
      Step(s, run[0]);
      RunKeepsInv(Apply(s, run[0]), run[1..]);
    }
  }

  // ---------------------------------------------------------------- whole runs

  /**
    In every run of persists, commits, failed commits and page kills, an update has been acknowledged only
    after its channel's monitor write at that id or later committed and after its batch's manager snapshot,
    issued later than that write, committed too.
   */
  lemma AckOnlyAfterDurable(s: State, run: seq<Event>, i: nat)
    requires Init(s) && ValidRun(s, run)
    requires AtStage(After(s, run).session, i) && After(s, run).session.tasks[i].stage.Acked?
    ensures var u := After(s, run).session;
            var t, m := u.tasks[i], u.tasks[i].stage.manager;
            && t.op.Some?
            && var k := t.op.value;
               && k < |u.io.settled| && k < |u.io.issued| && u.io.settled[k]
               && u.io.issued[k].ViaCache() && u.io.issued[k].channel == t.channel && t.id <= u.io.issued[k].id
               && t.channel in After(s, run).disk.monitors && t.id <= After(s, run).disk.monitors[t.channel]
               && (m.Snapshot? ==>
                     && k < m.op < |u.io.settled| && m.op < |u.io.issued|
                     && u.io.issued[m.op].ManagerSnapshot? && u.io.settled[m.op])
  {
    RunKeepsInv(s, run);
    var u := After(s, run).session;
    assert TaskInv(u, u.tasks[i]);
    AckedIsLoadable(After(s, run), u.tasks[i].op.value, u.tasks[i].stage.upTo);
  }

  /** A persist whose write the cache refused is never acknowledged, and no flush it waits for succeeds. */
  lemma RefusedNeverAcked(s: State, run: seq<Event>, i: nat)
    requires Init(s) && ValidRun(s, run)
    requires AtStage(After(s, run).session, i) && After(s, run).session.tasks[i].op.None?
    ensures var u := After(s, run).session;
            && !u.io.healthy && !u.tasks[i].stage.Acked? && !u.tasks[i].stage.Flushing?
  {
    RunKeepsInv(s, run);
    assert TaskInv(After(s, run).session, After(s, run).session.tasks[i]);
  }

  /** A flush that began after a cache write had failed is never followed by an acknowledgement. */
  lemma NoFlushSucceedsAfterFailure(s: State, run: seq<Event>, i: nat, failed: nat)
    requires Init(s) && ValidRun(s, run)
    requires AtStage(After(s, run).session, i)
    requires var io := After(s, run).session.io;
             failed < |io.settled| && failed < |io.issued| && io.issued[failed].ViaCache() && !io.settled[failed]
    ensures var t := After(s, run).session.tasks[i]; t.stage.Acked? ==> t.stage.upTo <= failed
    ensures var u := After(s, run).session;
            u.tasks[i].stage.Flushing? && failed < u.tasks[i].stage.upTo ==> !FlushSucceeds(u.io, u.tasks[i].stage)
  {
    RunKeepsInv(s, run);
    var u := After(s, run).session;
    assert TaskInv(u, u.tasks[i]);
    if u.tasks[i].stage.Flushing? && FlushSucceeds(u.io, u.tasks[i].stage) {
      FlushCovers(u, u.tasks[i]);
    }
  }

  /** Tasks from `n` on that passed the manager write carry a manager snapshot. */
  predicate Batched(u: Session, n: nat) {
    u.Up? && u.hasManager && n <= |u.tasks|
    && forall i :: n <= i < |u.tasks| ==>
         match u.tasks[i].stage
         case FlushReady(m) => m.Snapshot?
         case Flushing(m, _, _) => m.Snapshot?
         case Acked(m, _) => m.Snapshot?
         case _ => true
  }

  predicate KeepsManager(e: Event) {
    !e.Kill? && (e.ManagerChanges? ==> e.present)
  }

  /** While the manager exists, every acknowledged batch contains a manager snapshot. */
  lemma {:induction false} ManagerJoinsBatch(s: State, run: seq<Event>, n: nat)
    requires ValidRun(s, run) && Batched(s.session, n)
    requires forall e :: e in run ==> KeepsManager(e)
    ensures Batched(After(s, run).session, n)
    decreases run
  {
    if run != [] {
      assert KeepsManager(run[0]);
      ManagerJoinsBatch(Apply(s, run[0]), run[1..], n);
    }
  }

  /** No persisted mark is ever ahead of the channel state on disk, so no restart after a kill halts. */
  lemma MarkNeverAheadOfDisk(s: State, run: seq<Event>)
    requires Init(s) && ValidRun(s, run)
    ensures var t := After(s, run);
            && Below(t.disk.marks, t.disk.monitors)
            && !t.session.Halted?
            && (forall loaded :: Lists(loaded, t.disk.monitors) ==> Started(t.disk, loaded).Up?)
  {
    RunKeepsInv(s, run);
    NeverHalted(s, run);
    var t := After(s, run);
    forall loaded | Lists(loaded, t.disk.monitors) ensures Started(t.disk, loaded).Up? {
      RestartStep(State(t.disk, Down), loaded);
    }
  }

  lemma {:induction false} NeverHalted(s: State, run: seq<Event>)
    requires Inv(s) && !s.session.Halted? && ValidRun(s, run)
    ensures !After(s, run).session.Halted?
    decreases run
  {
    if run != [] {
      Step(s, run[0]);
      if run[0].Restart? {
        RestartStep(s, run[0].loaded);
      }
      NeverHalted(Apply(s, run[0]), run[1..]);
    }
  }

  /** On any disk, however it came about, the start is refused exactly when a stored monitor is below its mark. */
  lemma GuardHaltsExactlyOnRegression(disk: Disk, loaded: seq<Summary>)
    requires Lists(loaded, disk.monitors)
    ensures Started(disk, loaded).Halted? <==>
            exists c :: c in disk.marks && c in disk.monitors && disk.monitors[c] < disk.marks[c]
  {
    if c :| c in disk.marks && c in disk.monitors && disk.monitors[c] < disk.marks[c] {
      assert Behind(Summary(c, disk.monitors[c]), disk.marks);
    }
    if SomeBehind(loaded, disk.marks) {
      var s :| s in loaded && Behind(s, disk.marks);
      assert s.channel in disk.marks && s.channel in disk.monitors;
    }
  }

  // ---------------------------------------------------------------- progress

  /** A list of states, each the outcome of its event, is a run. */
  lemma {:induction false} Trace(states: seq<State>, run: seq<Event>)
    requires |states| == |run| + 1
    requires forall k :: 0 <= k < |run| ==> Enabled(states[k], run[k]) && states[k + 1] == Apply(states[k], run[k])
    ensures ValidRun(states[0], run) && After(states[0], run) == states[|run|]
    decreases |run|
  {
    if run != [] {
      Trace(states[1..], run[1..]);
    }
  }

  lemma {:induction false} RunConcat(s: State, a: seq<Event>, b: seq<Event>)
    requires ValidRun(s, a) && ValidRun(After(s, a), b)
    ensures ValidRun(s, a + b) && After(s, a + b) == After(After(s, a), b)
    decreases a
  {
    if a == [] {
      assert a + b == b;
    } else {
      RunConcat(Apply(s, a[0]), a[1..], b);
      assert (a + b)[1..] == a[1..] + b;
    }
  }

  // Nothing outstanding, nothing failed, a manager present.
  predicate AtRest(s: State) {
    && s.session.Up? && s.session.hasManager
    && var io := s.session.io; io.healthy && io.reacted == |io.settled| == |io.issued|
  }

  // Then the disk holds what the engine last wrote, so a delta follows on without a gap.
  lemma RestIsCurrent(s: State)
    requires AtRest(s) && Inv(s)
    ensures s.disk.monitors == s.session.latest
  {
    var io := s.session.io;
    assert AllCommitted(io, 0, |io.settled|);
    assert Below(s.session.latest, s.disk.monitors) && Below(s.disk.monitors, s.session.latest);
  }

  // The monitor and the manager snapshot of its batch are written and committed.
  function WriteBatch(s: State, c: Channel, id: nat, full: bool, update: Handle): seq<Event>
    requires AtRest(s)
  {
    [Persist(c, id, full, update), EnterManagerWrite(|s.session.tasks|), Settle(true), Settle(true)]
  }

  function Written(s: State, c: Channel, id: nat, full: bool, update: Handle): State
    requires AtRest(s)
  {
    var u, n := s.session, |s.session.io.issued|;
    State(s.disk.(monitors := s.disk.monitors[c := id]),
          u.(latest := u.latest[c := id],
             io := u.io.(issued := u.io.issued + [MonitorWrite(c, id, full), ManagerSnapshot],
                         settled := u.io.settled + [true, true]),
             tasks := u.tasks + [Task(c, PickUpdateId(update, id), Some(n), WritingManager(n + 1))]))
  }

  // Both requests are issued and not yet settled.
  function BatchIssued(s: State, c: Channel, id: nat, full: bool, update: Handle): State
    requires AtRest(s)
  {
    var w := Written(s, c, id, full, update);
    State(s.disk, w.session.(io := w.session.io.(settled := s.session.io.settled)))
  }

  lemma IssueBatch(s: State, c: Channel, id: nat, full: bool, update: Handle)
    requires AtRest(s) && Enabled(s, Persist(c, id, full, update))
    ensures var run := WriteBatch(s, c, id, full, update)[..2];
            ValidRun(s, run) && After(s, run) == BatchIssued(s, c, id, full, update)
  {
    var run := WriteBatch(s, c, id, full, update);
    var s1 := Apply(s, run[0]);
    var s2 := Apply(s1, run[1]);
    assert s2.session.io.issued == s.session.io.issued + [MonitorWrite(c, id, full), ManagerSnapshot];
    assert s2.session.tasks == Written(s, c, id, full, update).session.tasks;
    Trace([s, s1, s2], run[..2]);
  }

  lemma BatchWritten(s: State, c: Channel, id: nat, full: bool, update: Handle)
    requires AtRest(s) && Inv(s) && Enabled(s, Persist(c, id, full, update))
    ensures ValidRun(s, WriteBatch(s, c, id, full, update))
    ensures After(s, WriteBatch(s, c, id, full, update)) == Written(s, c, id, full, update)
  {
    RestIsCurrent(s);
    IssueBatch(s, c, id, full, update);
    var s2 := BatchIssued(s, c, id, full, update);
    var s3 := Apply(s2, Settle(true));
    var s4 := Apply(s3, Settle(true));
    assert s4.session.io.settled == s.session.io.settled + [true, true];
    Trace([s2, s3, s4], [Settle(true), Settle(true)]);
    var run := WriteBatch(s, c, id, full, update);
    RunConcat(s, run[..2], [Settle(true), Settle(true)]);
    assert run[..2] + [Settle(true), Settle(true)] == run;
  }

  function FlushBatch(i: nat): seq<Event> {
    [ManagerWritten(i), FlushBegin(i), FlushEnd(i, true, true)]
  }

  lemma BatchFlushed(s: State, c: Channel, id: nat, full: bool, update: Handle)
    requires AtRest(s) && Inv(s)
    ensures var t, i := Written(s, c, id, full, update), |s.session.tasks|;
            && ValidRun(t, FlushBatch(i))
            && var v := After(t, FlushBatch(i)).session;
               && v.Up? && i < |v.tasks| && v.tasks[i].stage.Acked?
               && v.tasks[i].channel == c && v.tasks[i].id == PickUpdateId(update, id)
               && v.marks == Raise(s.session.marks, c, PickUpdateId(update, id))
               && After(t, FlushBatch(i)).disk == t.disk
               && v.io == if v.marks == t.session.marks then t.session.io else Issue(t.session.io, MarkWrite(v.marks))
  {
    var t, i := Written(s, c, id, full, update), |s.session.tasks|;
    var t1 := Apply(t, ManagerWritten(i));
    var t2 := Apply(t1, FlushBegin(i));
    assert AllCommitted(s.session.io, 0, s.session.io.reacted);
    assert FlushSucceeds(t2.session.io, t2.session.tasks[i].stage);
    var t3 := Apply(t2, FlushEnd(i, true, true));
    Trace([t, t1, t2, t3], FlushBatch(i));
  }

  /** With nothing failing, a persist, full or delta, is acknowledged and its channel's mark raised to the acknowledged id. */
  lemma UndisturbedPersistIsAcked(s: State, c: Channel, id: nat, full: bool, update: Handle)
    requires AtRest(s) && Inv(s) && Enabled(s, Persist(c, id, full, update))
    ensures var run := WriteBatch(s, c, id, full, update) + FlushBatch(|s.session.tasks|);
            && ValidRun(s, run)
            && var t := After(s, run);
               && AtStage(t.session, |s.session.tasks|)
               && var task, marks := t.session.tasks[|s.session.tasks|], s.session.marks;
                  && task.stage.Acked? && task.channel == c
                  && task.id == (if update.Present? then update.updateId else id)
                  && t.session.marks == (if c in marks && marks[c] >= task.id then marks else marks[c := task.id])
                  && t.disk.monitors == s.disk.monitors[c := id]
  {
    BatchWritten(s, c, id, full, update);
    BatchFlushed(s, c, id, full, update);
    RunConcat(s, WriteBatch(s, c, id, full, update), FlushBatch(|s.session.tasks|));
  }
}
