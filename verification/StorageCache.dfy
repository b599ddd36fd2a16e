/**
  The write-behind cache under the channel state: reads are served from memory, and every write or
  remove is answered at once while its storage requests are still on their way.
 */
module StorageCache {
  import opened Sequences
  import opened StorageKeys

  type Bytes = seq<nat>

  // ---------------------------------------------------------------- storage requests

  datatype DiskOp =
    | SetIndex(keys: set<string>)
    | SetItem(key: string, value: Bytes)
    | RemoveItem(key: string)

  /** The part of the storage the cache owns: its key index and the values under cache keys. */
  datatype Disk = Disk(index: set<string>, items: map<string, Bytes>)

  function Commit(d: Disk, op: DiskOp): Disk {
    match op
    case SetIndex(keys) => d.(index := keys)
    case SetItem(k, v) => d.(items := d.items[k := v])
    case RemoveItem(k) => d.(items := d.items - {k})
  }

  function CommitAll(d: Disk, ops: seq<DiskOp>): Disk
    decreases |ops|
  {
    if ops == [] then d else CommitAll(Commit(d, ops[0]), ops[1..])
  }

  lemma {:induction false} CommitAllConcat(d: Disk, a: seq<DiskOp>, b: seq<DiskOp>)
    ensures CommitAll(d, a + b) == CommitAll(CommitAll(d, a), b)
    decreases |a|
  {
    if a == [] {
      assert a + b == b;
    } else {
      assert (a + b)[1..] == a[1..] + b;
      CommitAllConcat(Commit(d, a[0]), a[1..], b);
    }
  }

  lemma CommitOne(d: Disk, a: DiskOp)
    ensures CommitAll(d, [a]) == Commit(d, a)
  {
    assert [a][1..] == [];
  }

  lemma CommitTwo(d: Disk, a: DiskOp, b: DiskOp)
    ensures CommitAll(d, [a, b]) == Commit(Commit(d, a), b)
  {
    assert [a, b][1..] == [b];
    CommitOne(Commit(d, a), b);
  }

  // ---------------------------------------------------------------- the cache as a value

  datatype Mem = Mem(cache: map<string, Bytes>, keys: set<string>)

  datatype KvOp = Put(key: string, value: Bytes) | Del(key: string)

  /** Loading reads the index and then each indexed value; a key without a value stays in the index. */
  function Load(d: Disk): Mem {
    Mem(map k | k in d.index && k in d.items :: d.items[k], d.index)
  }

  function Next(m: Mem, op: KvOp): Mem {
    match op
    case Put(k, v) => Mem(m.cache[k := v], m.keys + {k})
    case Del(k) => Mem(m.cache - {k}, m.keys - {k})
  }

  /** The requests one operation issues: the index first, when it changes, then the value. */
  function Requests(m: Mem, op: KvOp): seq<DiskOp> {
    match op
    case Put(k, v) => (if k in m.keys then [] else [SetIndex(m.keys + {k})]) + [SetItem(k, v)]
    case Del(k) => (if k in m.keys then [SetIndex(m.keys - {k})] else []) + [RemoveItem(k)]
  }

  function MemAfter(m: Mem, ops: seq<KvOp>): Mem {
    if ops == [] then m else Next(MemAfter(m, ops[..|ops| - 1]), ops[|ops| - 1])
  }

  function Log(m: Mem, ops: seq<KvOp>): seq<DiskOp> {
    if ops == [] then []
    else Log(m, ops[..|ops| - 1]) + Requests(MemAfter(m, ops[..|ops| - 1]), ops[|ops| - 1])
  }

  /** The key-value map after the first `n` operations. */
  function MapAfter(d: Disk, ops: seq<KvOp>, n: nat): map<string, Bytes>
    requires n <= |ops|
  {
    MemAfter(Load(d), ops[..n]).cache
  }

  // ---------------------------------------------------------------- crash recovery

  /** A kill after `c` storage requests have committed. */
  function Killed(d: Disk, ops: seq<KvOp>, c: nat): Disk
    requires c <= |Log(Load(d), ops)|
  {
    CommitAll(d, Log(Load(d), ops)[..c])
  }

  /** Wherever the kill lands, loading again gives the map after some prefix of the operations. */
  ghost predicate RecoversAPrefix(d: Disk, ops: seq<KvOp>) {
    forall c: nat :: c <= |Log(Load(d), ops)| ==> RecoversAt(d, ops, c)
  }

  ghost predicate RecoversAt(d: Disk, ops: seq<KvOp>, c: nat)
    requires c <= |Log(Load(d), ops)|
  {
    exists n: nat :: n <= |ops| && Load(Killed(d, ops, c)).cache == MapAfter(d, ops, n)
  }

  /** No value is stored under a key the index does not list. */
  predicate NoOrphans(d: Disk) {
    forall k :: k in d.items ==> k in d.index
  }

  predicate Synced(d: Disk, m: Mem) {
    d.index == m.keys && d.items == m.cache && NoOrphans(d)
  }

  lemma LoadSynced(d: Disk)
    requires NoOrphans(d)
    ensures Synced(d, Load(d))
  {
    assert Load(d).cache == d.items;
  }

  // One operation, killed after `c` of its requests: the map is the one before it or the one after it.
  lemma PartialOp(d: Disk, m: Mem, op: KvOp, c: nat)
    requires Synced(d, m) && c <= |Requests(m, op)|
    ensures var cache := Load(CommitAll(d, Requests(m, op)[..c])).cache;
            cache == m.cache || cache == Next(m, op).cache
    ensures c == |Requests(m, op)| ==> Synced(CommitAll(d, Requests(m, op)[..c]), Next(m, op))
  {
    var rs := Requests(m, op);
    var d1 := Commit(d, rs[0]);
    if c == 0 {
      assert rs[..0] == [];
      assert Load(d).cache == m.cache;
    } else if c == 1 {
      assert rs[..1] == [rs[0]];
      CommitOne(d, rs[0]);
      FirstRequest(d, m, op);
    } else {
      var d2 := Commit(d1, rs[1]);
      assert rs[..2] == [rs[0], rs[1]];
      CommitTwo(d, rs[0], rs[1]);
      assert d2.items == Next(m, op).cache;
      assert Load(d2).cache == Next(m, op).cache;
    }
  }

  lemma FirstRequest(d: Disk, m: Mem, op: KvOp)
    requires Synced(d, m)
    ensures var rs := Requests(m, op);
            var d1 := Commit(d, rs[0]);
            && (Load(d1).cache == m.cache || Load(d1).cache == Next(m, op).cache)
            && (|rs| == 1 ==> Synced(d1, Next(m, op)))
  {
    var rs := Requests(m, op);
    var d1 := Commit(d, rs[0]);
    if |rs| == 1 {
      assert d1.items == Next(m, op).cache;
      assert d1.index == Next(m, op).keys;
      assert Load(d1).cache == d1.items;
    } else if op.Put? {
      assert Load(d1).cache == m.cache;
    } else {
      assert Load(d1).cache == m.cache - {op.key};
    }
  }

  lemma {:induction false} RecoverStep(d: Disk, ops: seq<KvOp>, c: nat)
    requires NoOrphans(d) && c <= |Log(Load(d), ops)|
    ensures RecoversAt(d, ops, c)
    ensures c == |Log(Load(d), ops)| ==> Synced(Killed(d, ops, c), MemAfter(Load(d), ops))
    decreases |ops|
  {
    var m0, log := Load(d), Log(Load(d), ops);
    LoadSynced(d);
    if ops == [] {
      assert log[..c] == [];
      assert Load(Killed(d, ops, c)).cache == MapAfter(d, ops, 0);
      return;
    }
    var k := |ops| - 1;
    var init, op := ops[..k], ops[k];
    var l := Log(m0, init);
    var m := MemAfter(m0, init);
    if c <= |l| && !(c == |log|) {
      assert log[..c] == l[..c];
      RecoverStep(d, init, c);
      var n: nat :| n <= |init| && Load(Killed(d, init, c)).cache == MapAfter(d, init, n);
      assert init[..n] == ops[..n];
      assert Load(Killed(d, ops, c)).cache == MapAfter(d, ops, n);
    } else {
      RecoverStep(d, init, |l|);
      assert l[..|l|] == l;
      var synced := CommitAll(d, l);
      var e := c - |l|;
      assert log[..c] == l + Requests(m, op)[..e];
      CommitAllConcat(d, l, Requests(m, op)[..e]);
      PartialOp(synced, m, op, e);
      assert ops[..k] == init && ops[..k + 1] == ops;
      assert MapAfter(d, ops, k) == m.cache && MapAfter(d, ops, k + 1) == Next(m, op).cache;
    }
  }

  /**
    Crash recovery holds for every sequence of writes and removes exactly when the session started from
    a disk without orphaned values.
   */
  lemma CrashRecoveryExactly(d: Disk)
    ensures (forall ops :: RecoversAPrefix(d, ops)) <==> NoOrphans(d)
  {
    if NoOrphans(d) {
      forall ops ensures RecoversAPrefix(d, ops) {
        forall c: nat | c <= |Log(Load(d), ops)| ensures RecoversAt(d, ops, c) {
          RecoverStep(d, ops, c);
        }
      }
    } else {
      var k :| k in d.items && k !in d.index;
      OrphanResurrects(d, k, d.items[k] + [0]);
    }
  }

  // Writing an orphaned key and being killed after the index commit brings the old value back.
  lemma OrphanResurrects(d: Disk, k: string, v: Bytes)
    requires k in d.items && k !in d.index && v != d.items[k]
    ensures Load(Killed(d, [Put(k, v)], 1)).cache == Load(d).cache[k := d.items[k]]
    ensures !RecoversAPrefix(d, [Put(k, v)])
  {
    var m, ops := Load(d), [Put(k, v)];
    assert ops[..0] == [] && ops[..1] == ops;
    var index := SetIndex(m.keys + {k});
    assert Log(m, ops) == [index, SetItem(k, v)];
    assert Log(m, ops)[..1] == [index];
    CommitOne(d, index);
    var recovered := Load(Killed(d, ops, 1)).cache;
    assert recovered == m.cache[k := d.items[k]];
    assert MapAfter(d, ops, 0) == m.cache && k !in m.cache;
    assert MapAfter(d, ops, 1) == m.cache[k := v];
    forall n: nat | n <= |ops| ensures recovered != MapAfter(d, ops, n) {
      assert n == 0 || n == 1;
      assert k in recovered && recovered[k] != v;
    }
    assert !RecoversAt(d, ops, 1);
  }

  /**
    Two kills suffice: one between the index write and the removal of a removed entry, the next between
    the index write and the value of its re-addition.
   */
  lemma TwoKillsResurrect(d: Disk, k: string, v: Bytes)
    requires NoOrphans(d) && k in d.items && v != d.items[k]
    ensures var once := Killed(d, [Del(k)], 1);
            && Load(once).cache == Load(d).cache - {k}
            && Load(Killed(once, [Put(k, v)], 1)).cache == Load(d).cache
  {
    LoadSynced(d);
    var m, ops := Load(d), [Del(k)];
    var index := SetIndex(m.keys - {k});
    assert ops[..0] == [];
    assert Log(m, ops) == [index, RemoveItem(k)];
    assert Log(m, ops)[..1] == [index];
    CommitOne(d, index);
    var once := Killed(d, ops, 1);
    assert once == d.(index := m.keys - {k});
    assert Load(once).cache == m.cache - {k};
    OrphanResurrects(once, k, v);
    assert (m.cache - {k})[k := d.items[k]] == m.cache;
  }

  /** The kill comes right before the removal of a value that is still stored; its key has left the index already. */
  predicate CutBeforeRemoval(d: Disk, ops: seq<KvOp>, c: nat)
    requires c <= |Log(Load(d), ops)|
  {
    var log := Log(Load(d), ops);
    c < |log| && log[c].RemoveItem? && log[c].key in Killed(d, ops, c).items
  }

  // Within one operation the only state with an orphan is the one before the removal of a stored key.
  lemma OrphanWithin(d: Disk, m: Mem, op: KvOp, c: nat)
    requires Synced(d, m) && c <= |Requests(m, op)|
    ensures var rs := Requests(m, op);
            var e := CommitAll(d, rs[..c]);
            NoOrphans(e) <==> !(c < |rs| && rs[c].RemoveItem? && rs[c].key in e.items)
  {
    var rs := Requests(m, op);
    PartialOp(d, m, op, c);
    assert rs[..0] == [];
    if c == |rs| {
      assert rs[..c] == rs;
    } else if c == 1 {
      assert rs[..1] == [rs[0]];
      CommitOne(d, rs[0]);
    }
  }

  /** Of all kills, exactly those between the index commit and the removal of a stored key leave an orphan. */
  lemma {:induction false} OrphanExactly(d: Disk, ops: seq<KvOp>, c: nat)
    requires NoOrphans(d) && c <= |Log(Load(d), ops)|
    ensures NoOrphans(Killed(d, ops, c)) <==> !CutBeforeRemoval(d, ops, c)
    decreases |ops|
  {
    var m := Load(d);
    if ops == [] {
      assert Log(m, ops)[..c] == [];
    } else {
      var init, op := ops[..|ops| - 1], ops[|ops| - 1];
      var log, rs := Log(m, init), Requests(MemAfter(m, init), op);
      assert Log(m, ops) == log + rs;
      if c < |log| {
        OrphanExactly(d, init, c);
        assert Log(m, ops)[..c] == log[..c];
      } else {
        RecoverStep(d, init, |log|);
        assert log[..|log|] == log;
        var e, i := Killed(d, init, |log|), c - |log|;
        assert Log(m, ops)[..c] == log + rs[..i];
        CommitAllConcat(d, log, rs[..i]);
        OrphanWithin(e, MemAfter(m, init), op, i);
      }
    }
  }

  /** One page session: the operations accepted, and how many of its storage requests committed before the kill. */
  datatype Session = Session(ops: seq<KvOp>, committed: nat)

  predicate Possible(d: Disk, ss: seq<Session>)
    decreases |ss|
  {
    ss == [] || (ss[0].committed <= |Log(Load(d), ss[0].ops)|
                 && Possible(Killed(d, ss[0].ops, ss[0].committed), ss[1..]))
  }

  predicate NoCutBeforeRemoval(d: Disk, ss: seq<Session>)
    requires Possible(d, ss)
    decreases |ss|
  {
    ss == [] || (!CutBeforeRemoval(d, ss[0].ops, ss[0].committed)
                 && NoCutBeforeRemoval(Killed(d, ss[0].ops, ss[0].committed), ss[1..]))
  }

  /** Whatever each of the sessions and the one after them does, any kill in it recovers a prefix of its own operations. */
  ghost predicate AllRecover(d: Disk, ss: seq<Session>)
    requires Possible(d, ss)
    decreases |ss|
  {
    && (forall ops :: RecoversAPrefix(d, ops))
    && (ss != [] ==> AllRecover(Killed(d, ss[0].ops, ss[0].committed), ss[1..]))
  }

  /** Over any number of sessions recovery never fails if and only if no kill comes right before such a removal. */
  lemma {:induction false} SessionsRecoverExactly(d: Disk, ss: seq<Session>)
    requires NoOrphans(d) && Possible(d, ss)
    ensures AllRecover(d, ss) <==> NoCutBeforeRemoval(d, ss)
    decreases |ss|
  {
    CrashRecoveryExactly(d);
    if ss != [] {
      var e := Killed(d, ss[0].ops, ss[0].committed);
      OrphanExactly(d, ss[0].ops, ss[0].committed);
      CrashRecoveryExactly(e);
      if NoOrphans(e) {
        SessionsRecoverExactly(e, ss[1..]);
      }
    }
  }

  // ---------------------------------------------------------------- refinement of a named map

  datatype NamedOp = Write(name: Name, value: Bytes) | Remove(name: Name)

  function ToKvOp(op: NamedOp): KvOp {
    match op
    case Write(n, v) => Put(StorageKey(n), v)
    case Remove(n) => Del(StorageKey(n))
  }

  function NamedMap(ops: seq<NamedOp>): map<Name, Bytes> {
    if ops == [] then map[]
    else NextNamed(NamedMap(ops[..|ops| - 1]), ops[|ops| - 1])
  }

  function KvOps(ops: seq<NamedOp>): seq<KvOp> {
    seq(|ops|, i requires 0 <= i < |ops| => ToKvOp(ops[i]))
  }

  const BLANK: Disk := Disk({}, map[])

  /** A cache loaded from empty storage, after the operations. */
  function FreshCache(ops: seq<NamedOp>): Mem {
    MemAfter(Load(BLANK), KvOps(ops))
  }

  lemma FreshNext(ops: seq<NamedOp>)
    ensures ops == [] ==> FreshCache(ops) == Mem(map[], {})
    ensures ops != [] ==> FreshCache(ops) == Next(FreshCache(ops[..|ops| - 1]), ToKvOp(ops[|ops| - 1]))
  {
    if ops != [] {
      assert KvOps(ops)[..|ops| - 1] == KvOps(ops[..|ops| - 1]);
    } else {
      assert Load(BLANK) == Mem(map[], {});
    }
  }

  function NamesListed(keys: set<string>, primary: string, secondary: string): set<string> {
    set k | k in keys && Listed(k, primary, secondary) :: k[|NamespacePrefix(primary, secondary)|..]
  }

  lemma NamesListedAdd(keys: set<string>, k: string, primary: string, secondary: string)
    ensures NamesListed(keys + {k}, primary, secondary) ==
            NamesListed(keys, primary, secondary)
            + (if Listed(k, primary, secondary) then {k[|NamespacePrefix(primary, secondary)|..]} else {})
  {
    var prefix := NamespacePrefix(primary, secondary);
    forall x | x in NamesListed(keys, primary, secondary) ensures x in NamesListed(keys + {k}, primary, secondary) {
      var j :| j in keys && Listed(j, primary, secondary) && x == j[|prefix|..];
      assert j in keys + {k};
    }
  }

  ghost function Elements(s: seq<string>): set<string> {
    set x | x in s
  }

  lemma AppendName(matched: seq<string>, done: set<string>, k: string, primary: string, secondary: string)
    requires k !in done && Listed(k, primary, secondary) && NoRepeats(matched)
    requires Elements(matched) == NamesListed(done, primary, secondary)
    ensures var name := k[|NamespacePrefix(primary, secondary)|..];
            NoRepeats(matched + [name]) && Elements(matched + [name]) == Elements(matched) + {name}
  {
    var prefix := NamespacePrefix(primary, secondary);
    var name := k[|prefix|..];
    assert k == prefix + name;
    forall j | j in done && Listed(j, primary, secondary) ensures j[|prefix|..] != name {
      assert j == prefix + j[|prefix|..];
    }
    assert name !in Elements(matched);
  }

  predicate AllRegular(ops: seq<NamedOp>) {
    forall i :: 0 <= i < |ops| ==> Regular(ops[i].name)
  }

  /** The cache holds the map under the joined keys, and nothing else. */
  ghost predicate Refines(c: Mem, m: map<Name, Bytes>) {
    c.keys == c.cache.Keys && SameValues(c.cache, m) && Named(c.keys, m)
  }

  ghost predicate SameValues(cache: map<string, Bytes>, m: map<Name, Bytes>) {
    && (forall n :: n in m ==> Regular(n))
    && (forall n :: Regular(n) ==> (StorageKey(n) in cache <==> n in m))
    && (forall n :: n in m ==> cache[StorageKey(n)] == m[n])
  }

  ghost predicate Named(keys: set<string>, m: map<Name, Bytes>) {
    forall k :: k in keys ==> exists n :: n in m && StorageKey(n) == k
  }

  lemma NamedMore(keys: set<string>, m: map<Name, Bytes>, name: Name, sk: string, m': map<Name, Bytes>)
    requires Named(keys, m) && sk == StorageKey(name) && m'.Keys == m.Keys + {name}
    ensures Named(keys + {sk}, m')
  {
    forall k | k in keys + {sk} ensures exists n :: n in m' && StorageKey(n) == k {
      if k != sk {
        var n :| n in m && StorageKey(n) == k;
        assert n in m';
      } else {
        assert name in m';
      }
    }
  }

  function NextNamed(m: map<Name, Bytes>, op: NamedOp): map<Name, Bytes> {
    match op
    case Write(n, v) => m[n := v]
    case Remove(n) => m - {n}
  }

  // Another regular name has another key.
  lemma OtherKey(name: Name, sk: string)
    requires Regular(name) && sk == StorageKey(name)
    ensures forall n :: Regular(n) && n != name ==> StorageKey(n) != sk
  {
    forall n | Regular(n) && n != name ensures StorageKey(n) != sk {
      if StorageKey(n) == sk {
        StorageKeyInjective(n, name);
      }
    }
  }

  lemma RefinesPut(c: Mem, m: map<Name, Bytes>, name: Name, sk: string, v: Bytes)
    requires Refines(c, m) && Regular(name) && sk == StorageKey(name)
    requires forall n :: Regular(n) && n != name ==> StorageKey(n) != sk
    ensures Refines(Next(c, Put(sk, v)), m[name := v])
  {
    NamedMore(c.keys, m, name, sk, m[name := v]);
    PutValues(c.cache, m, name, sk, v);
  }

  lemma PutValues(cache: map<string, Bytes>, m: map<Name, Bytes>, name: Name, sk: string, v: Bytes)
    requires SameValues(cache, m) && Regular(name) && sk == StorageKey(name)
    requires forall n :: Regular(n) && n != name ==> StorageKey(n) != sk
    ensures SameValues(cache[sk := v], m[name := v])
  {
  }

  lemma DelValues(cache: map<string, Bytes>, m: map<Name, Bytes>, name: Name, sk: string)
    requires SameValues(cache, m) && Regular(name) && sk == StorageKey(name)
    requires forall n :: Regular(n) && n != name ==> StorageKey(n) != sk
    ensures SameValues(cache - {sk}, m - {name})
  {
  }

  lemma RefinesDel(c: Mem, m: map<Name, Bytes>, name: Name, sk: string)
    requires Refines(c, m) && Regular(name) && sk == StorageKey(name)
    requires forall n :: Regular(n) && n != name ==> StorageKey(n) != sk
    ensures Refines(Next(c, Del(sk)), m - {name})
  {
    DelValues(c.cache, m, name, sk);
    forall k | k in c.keys - {sk} ensures exists n :: n in m - {name} && StorageKey(n) == k {
      var n :| n in m && StorageKey(n) == k;
      assert n in m - {name};
    }
  }

  lemma RefinesNext(c: Mem, m: map<Name, Bytes>, op: NamedOp)
    requires Refines(c, m) && Regular(op.name)
    ensures Refines(Next(c, ToKvOp(op)), NextNamed(m, op))
  {
    var sk := StorageKey(op.name);
    OtherKey(op.name, sk);
    match op
    case Write(n, v) => RefinesPut(c, m, n, sk, v);
    case Remove(n) => RefinesDel(c, m, n, sk);
  }

  /** Under any accepted writes and removes a fresh cache is the map keyed by full names. */
  lemma {:induction false} FreshCacheRefinesMap(ops: seq<NamedOp>)
    requires AllRegular(ops)
    ensures Refines(FreshCache(ops), NamedMap(ops))
    decreases |ops|
  {
    FreshNext(ops);
    if ops != [] {
      FreshCacheRefinesMap(ops[..|ops| - 1]);
      RefinesNext(FreshCache(ops[..|ops| - 1]), NamedMap(ops[..|ops| - 1]), ops[|ops| - 1]);
    }
  }

  /** Listing a namespace yields exactly the keys that are live in it. */
  lemma ListIsNamespace(ops: seq<NamedOp>, primary: string, secondary: string)
    requires AllRegular(ops) && Regular(Name(primary, secondary, ""))
    ensures forall x :: x in NamesListed(FreshCache(ops).keys, primary, secondary) <==> Name(primary, secondary, x) in NamedMap(ops)
  {
    FreshCacheRefinesMap(ops);
    var keys := FreshCache(ops).keys;
    forall x | x in NamesListed(keys, primary, secondary) ensures Name(primary, secondary, x) in NamedMap(ops) {
      var k :| k in keys && Listed(k, primary, secondary) && x == k[|NamespacePrefix(primary, secondary)|..];
      var n :| n in NamedMap(ops) && StorageKey(n) == k;
      ListedExactly(n, primary, secondary);
    }
    forall x | Name(primary, secondary, x) in NamedMap(ops) ensures x in NamesListed(keys, primary, secondary) {
      var n := Name(primary, secondary, x);
      ListedExactly(n, primary, secondary);
      assert StorageKey(n) in keys;
    }
  }

  /** A name has the value of its last write, and none if a remove follows. */
  lemma {:induction false} LastWriteWins(ops: seq<NamedOp>, n: Name, i: nat)
    requires i < |ops| && ops[i].name == n && forall j :: i < j < |ops| ==> ops[j].name != n
    ensures n in NamedMap(ops) <==> ops[i].Write?
    ensures ops[i].Write? ==> NamedMap(ops)[n] == ops[i].value
    decreases |ops|
  {
    if i < |ops| - 1 {
      LastWriteWins(ops[..|ops| - 1], n, i);
    }
  }

  /** A name that was never written has no value. */
  lemma {:induction false} NeverWritten(ops: seq<NamedOp>, n: Name)
    requires forall i :: 0 <= i < |ops| && ops[i].name == n ==> ops[i].Remove?
    ensures n !in NamedMap(ops)
    decreases |ops|
  {
    if ops != [] {
      NeverWritten(ops[..|ops| - 1], n);
    }
  }

  // ---------------------------------------------------------------- the cache as an object

  datatype ReadResult = Found(value: Bytes) | NotFound

  lemma OneMoreOp(m: Mem, ops: seq<KvOp>, op: KvOp)
    ensures MemAfter(m, ops + [op]) == Next(MemAfter(m, ops), op)
    ensures Log(m, ops + [op]) == Log(m, ops) + Requests(MemAfter(m, ops), op)
  {
    assert (ops + [op])[..|ops|] == ops;
  }

  /**
    `issued` is the sequence of requests handed to the storage. The ghost history says which disk the
    session was loaded from and which operations were accepted since.
   */
  class Cache {
    var cache: map<string, Bytes>
    var keys: set<string>
    var issued: seq<DiskOp>
    var persistenceHealthy: bool
    ghost var start: Disk
    ghost var accepted: seq<NamedOp>

    ghost predicate Valid()
      reads this
    {
      && Mem(cache, keys) == MemAfter(Load(start), KvOps(accepted))
      && issued == Log(Load(start), KvOps(accepted))
    }

    constructor (d: Disk)
      ensures Valid() && start == d && accepted == [] && persistenceHealthy
    {
      var loaded, todo := map[], d.index;
      while todo != {}
        invariant todo <= d.index
        invariant loaded == map k | k in d.index - todo && k in d.items :: d.items[k]
        decreases |todo|
      {
        var k :| k in todo;
        todo := todo - {k};
        if k in d.items {
          loaded := loaded[k := d.items[k]];
        }
      }
      cache, keys, issued, persistenceHealthy := loaded, d.index, [], true;
      start, accepted := d, [];
    }

    /** The value a load and the accepted operations leave; for a cache started empty, the named map's. */
    method Read(n: Name) returns (r: ReadResult)
      requires Valid()
      ensures var m := MemAfter(Load(start), KvOps(accepted)).cache;
              r == if StorageKey(n) in m then Found(m[StorageKey(n)]) else NotFound
      ensures start == BLANK && AllRegular(accepted) && Regular(n) ==>
                r == if n in NamedMap(accepted) then Found(NamedMap(accepted)[n]) else NotFound
    {
      if start == BLANK && AllRegular(accepted) {
        FreshCacheRefinesMap(accepted);
      }
      var storeKey := StorageKey(n);
      if storeKey in cache {
        return Found(cache[storeKey]);
      }
      return NotFound;
    }

    /** Refused without any effect once persistence is degraded. */
    method WriteValue(n: Name, buf: Bytes) returns (ok: bool)
      requires Valid()
      modifies this
      ensures Valid() && start == old(start) && persistenceHealthy == old(persistenceHealthy)
      ensures ok == old(persistenceHealthy)
      ensures accepted == if ok then old(accepted) + [Write(n, buf)] else old(accepted)
    {
      if !persistenceHealthy {
        return false;
      }
      Extend(Write(n, buf));
      PutKey(StorageKey(n), buf);
      return true;
    }

    method PutKey(storeKey: string, buf: Bytes)
      modifies `cache, `keys, `issued
      ensures Mem(cache, keys) == Next(old(Mem(cache, keys)), Put(storeKey, buf))
      ensures issued == old(issued) + Requests(old(Mem(cache, keys)), Put(storeKey, buf))
    {
      cache := cache[storeKey := buf];
      if storeKey !in keys {
        keys := keys + {storeKey};
        issued := issued + [SetIndex(keys)];
      }
      issued := issued + [SetItem(storeKey, buf)];
    }

    method RemoveValue(n: Name) returns (ok: bool)
      requires Valid()
      modifies this
      ensures Valid() && start == old(start) && persistenceHealthy == old(persistenceHealthy)
      ensures ok == old(persistenceHealthy)
      ensures accepted == if ok then old(accepted) + [Remove(n)] else old(accepted)
    {
      if !persistenceHealthy {
        return false;
      }
      Extend(Remove(n));
      DeleteKey(StorageKey(n));
      return true;
    }

    method DeleteKey(storeKey: string)
      modifies `cache, `keys, `issued
      ensures Mem(cache, keys) == Next(old(Mem(cache, keys)), Del(storeKey))
      ensures issued == old(issued) + Requests(old(Mem(cache, keys)), Del(storeKey))
    {
      cache := cache - {storeKey};
      if storeKey in keys {
        keys := keys - {storeKey};
        issued := issued + [SetIndex(keys)];
      }
      issued := issued + [RemoveItem(storeKey)];
    }

    ghost method Extend(op: NamedOp)
      requires Valid()
      modifies `accepted
      ensures accepted == old(accepted) + [op]
      ensures MemAfter(Load(start), KvOps(accepted)) == Next(Mem(cache, keys), ToKvOp(op))
      ensures Log(Load(start), KvOps(accepted)) == issued + Requests(Mem(cache, keys), ToKvOp(op))
    {
      OneMoreOp(Load(start), KvOps(accepted), ToKvOp(op));
      assert KvOps(accepted + [op]) == KvOps(accepted) + [ToKvOp(op)];
      accepted := accepted + [op];
    }

    /** A storage request has settled; its failure degrades the cache for the rest of the session. */
    method RequestSettled(ok: bool)
      requires Valid()
      modifies `persistenceHealthy
      ensures Valid() && persistenceHealthy == (old(persistenceHealthy) && ok)
    {
      if !ok {
        OnPersistError();
      }
    }

    method OnPersistError()
      requires Valid()
      modifies `persistenceHealthy
      ensures Valid() && !persistenceHealthy
    {
      persistenceHealthy := false;
    }

    /** Each listed name once; for a cache started empty, the live keys of the namespace. */
    method List(primary: string, secondary: string) returns (matched: seq<string>)
      requires Valid()
      ensures NoRepeats(matched)
      ensures Elements(matched) == NamesListed(MemAfter(Load(start), KvOps(accepted)).keys, primary, secondary)
      ensures start == BLANK && AllRegular(accepted) && Regular(Name(primary, secondary, "")) ==>
                forall x :: x in matched <==> Name(primary, secondary, x) in NamedMap(accepted)
    {
      matched := ListKeys(primary, secondary);
      if start == BLANK && AllRegular(accepted) && Regular(Name(primary, secondary, "")) {
        ListIsNamespace(accepted, primary, secondary);
      }
    }

    method ListKeys(primary: string, secondary: string) returns (matched: seq<string>)
      ensures Elements(matched) == NamesListed(keys, primary, secondary)
      ensures NoRepeats(matched)
    {
      var prefix := NamespacePrefix(primary, secondary);
      var todo := keys;
      ghost var done: set<string> := {};
      matched := [];
      while todo != {}
        invariant done + todo == keys && done !! todo
        invariant Elements(matched) == NamesListed(done, primary, secondary)
        invariant NoRepeats(matched)
        decreases |todo|
      {
        var storeKey :| storeKey in todo;
        NamesListedAdd(done, storeKey, primary, secondary);
        if prefix <= storeKey && '/' !in storeKey[|prefix|..] {
          AppendName(matched, done, storeKey, primary, secondary);
          matched := matched + [storeKey[|prefix|..]];
        }
        done := done + {storeKey};
        todo := todo - {storeKey};
      }
    }
  }
}
