/**
  The cache beneath the persistence protocol: there a monitor write is one request and a flush waits for an
  interval of requests; here each write is an index request, if needed, and a value request.
 */
module MonitorStore {
  import opened Highwater
  import opened StorageCache
  import DurablePersist

  // ---------------------------------------------------------------- what a flush keeps

  lemma {:induction false} AfterConcat(m: Mem, a: seq<KvOp>, b: seq<KvOp>)
    ensures MemAfter(m, a + b) == MemAfter(MemAfter(m, a), b)
    ensures Log(m, a + b) == Log(m, a) + Log(MemAfter(m, a), b)
    decreases |b|
  {
    if b == [] {
      assert a + b == a;
    } else {
      var init := b[..|b| - 1];
      assert (a + b)[..|a + b| - 1] == a + init;
      AfterConcat(m, a, init);
    }
  }

  // With the first operations committed, what follows is a session of its own.
  lemma RestFromFlushed(d: Disk, a: seq<KvOp>, b: seq<KvOp>, c: nat) returns (e: Disk, i: nat)
    requires NoOrphans(d) && |Log(Load(d), a)| <= c <= |Log(Load(d), a + b)|
    ensures NoOrphans(e) && Load(e) == MemAfter(Load(d), a)
    ensures i <= |Log(Load(e), b)| && Killed(d, a + b, c) == Killed(e, b, i)
  {
    var log := Log(Load(d), a);
    e, i := Killed(d, a, |log|), c - |log|;
    RecoverStep(d, a, |log|);
    LoadSynced(e);
    AfterConcat(Load(d), a, b);
    assert log[..|log|] == log;
    assert Log(Load(d), a + b)[..c] == log + Log(Load(e), b)[..i];
    CommitAllConcat(d, log, Log(Load(e), b)[..i]);
  }

  lemma FlushedPart(d: Disk, a: seq<KvOp>, b: seq<KvOp>, c: nat) returns (j: nat)
    requires NoOrphans(d) && |Log(Load(d), a)| <= c <= |Log(Load(d), a + b)|
    ensures j <= |b| && Load(Killed(d, a + b, c)).cache == MemAfter(Load(d), a + b[..j]).cache
  {
    var e, i := RestFromFlushed(d, a, b, c);
    j := RecoveredPart(e, b, i);
    AfterConcat(Load(d), a, b[..j]);
  }

  lemma RecoveredPart(e: Disk, b: seq<KvOp>, i: nat) returns (j: nat)
    requires NoOrphans(e) && i <= |Log(Load(e), b)|
    ensures j <= |b| && Load(Killed(e, b, i)).cache == MapAfter(e, b, j)
  {
    RecoverStep(e, b, i);
    j :| 0 <= j <= |b| && Load(Killed(e, b, i)).cache == MapAfter(e, b, j);
  }

  /** What was flushed survives: a kill after the first `k` operations have committed recovers at least those. */
  lemma FlushedSurvives(d: Disk, ops: seq<KvOp>, k: nat, c: nat) returns (n: nat)
    requires NoOrphans(d) && k <= |ops| && |Log(Load(d), ops[..k])| <= c <= |Log(Load(d), ops)|
    ensures k <= n <= |ops| && Load(Killed(d, ops, c)).cache == MapAfter(d, ops, n)
  {
    assert ops[..k] + ops[k..] == ops;
    var j := FlushedPart(d, ops[..k], ops[k..], c);
    n := k + j;
    assert ops[..n] == ops[..k] + ops[k..][..j];
  }

  // ---------------------------------------------------------------- monitors as stored values

  /** The cache shows the marks: each channel has a key, and the value under it tells the id the channel loads at. */
  ghost predicate Shows(cache: map<string, Bytes>, marks: Marks, channels: set<Channel>, key: Channel -> string, id: Bytes -> nat) {
    && (forall c :: c in marks ==> c in channels)
    && (forall c :: c in channels ==> (c in marks <==> key(c) in cache))
    && (forall c :: c in marks && key(c) in cache ==> marks[c] == id(cache[key(c)]))
  }

  predicate Distinct(channels: set<Channel>, key: Channel -> string) {
    forall c, e :: c in channels && e in channels && key(c) == key(e) ==> c == e
  }

  datatype MonitorWrite = MonitorWrite(channel: Channel, value: Bytes)

  function AsPuts(ws: seq<MonitorWrite>, key: Channel -> string): seq<KvOp> {
    seq(|ws|, i requires 0 <= i < |ws| => Put(key(ws[i].channel), ws[i].value))
  }

  /** The same writes in the persistence protocol. */
  function AsRequests(ws: seq<MonitorWrite>, id: Bytes -> nat): seq<DurablePersist.Op> {
    seq(|ws|, i requires 0 <= i < |ws| => DurablePersist.FullMonitor(ws[i].channel, id(ws[i].value)))
  }

  predicate AllOf(ws: seq<MonitorWrite>, channels: set<Channel>) {
    forall i :: 0 <= i < |ws| ==> ws[i].channel in channels
  }

  lemma {:induction false} PutsAreWrites(d: Disk, start: Marks, ws: seq<MonitorWrite>, channels: set<Channel>,
                                         key: Channel -> string, id: Bytes -> nat, n: nat)
    requires Distinct(channels, key) && AllOf(ws, channels) && n <= |ws|
    requires Shows(Load(d).cache, start, channels, key, id)
    ensures Shows(MapAfter(d, AsPuts(ws, key), n), DurablePersist.Intended(start, AsRequests(ws, id), n), channels, key, id)
    decreases n
  {
    var ops := AsPuts(ws, key);
    if n == 0 {
      assert ops[..0] == [];
    } else {
      PutsAreWrites(d, start, ws, channels, key, id, n - 1);
      NextPut(d, ops, n);
      OnePut(MapAfter(d, ops, n - 1), DurablePersist.Intended(start, AsRequests(ws, id), n - 1), ws[n - 1], channels, key, id);
    }
  }

  lemma OnePut(cache: map<string, Bytes>, marks: Marks, w: MonitorWrite, channels: set<Channel>,
               key: Channel -> string, id: Bytes -> nat)
    requires Distinct(channels, key) && w.channel in channels && Shows(cache, marks, channels, key, id)
    ensures Shows(cache[key(w.channel) := w.value], marks[w.channel := id(w.value)], channels, key, id)
  {
  }

  lemma NextPut(d: Disk, ops: seq<KvOp>, n: nat)
    requires 0 < n <= |ops| && ops[n - 1].Put?
    ensures MapAfter(d, ops, n) == MapAfter(d, ops, n - 1)[ops[n - 1].key := ops[n - 1].value]
  {
    assert ops[..n][..n - 1] == ops[..n - 1];
  }

  /**
    Kill the cache anywhere among its index and value requests: the monitors it then loads are those of the
    protocol after some number of whole writes, and no fewer than were flushed.
   */
  lemma RequestsRefineWrites(d: Disk, start: Marks, ws: seq<MonitorWrite>, channels: set<Channel>,
                             key: Channel -> string, id: Bytes -> nat, flushed: nat, c: nat) returns (n: nat)
    requires NoOrphans(d) && Distinct(channels, key) && AllOf(ws, channels) && flushed <= |ws|
    requires Shows(Load(d).cache, start, channels, key, id)
    requires |Log(Load(d), AsPuts(ws, key)[..flushed])| <= c <= |Log(Load(d), AsPuts(ws, key))|
    ensures flushed <= n <= |ws|
    ensures Shows(Load(Killed(d, AsPuts(ws, key), c)).cache, DurablePersist.Intended(start, AsRequests(ws, id), n),
                  channels, key, id)
  {
    n := FlushedSurvives(d, AsPuts(ws, key), flushed, c);
    PutsAreWrites(d, start, ws, channels, key, id, n);
  }
}
