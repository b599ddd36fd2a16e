/**
  Export and import of the wallet's irreplaceable storage entries, and the re-hydration of lost channel
  state from the durable replica. Encryption is left out: an envelope is its payload.
 */
module Backup {
  import opened Sequences
  import StorageCache

  const SEED := "ldk_seed"
  const CHANNEL_MANAGER := "channel_manager"
  const INDEX := "ldk_keys_index"
  const HIGHWATER := "monitor_update_highwater"
  const TX_PREFIX := "tx_"

  const DIRECT_KEYS: seq<string> :=
    [SEED, CHANNEL_MANAGER, INDEX, "state_version", "peer_addresses", "node_alias",
     "nwc_wallet_private_key", "nwc_connections"]

  /** A stored string; the key index is held parsed. */
  datatype Value = Text(text: string) | KeyList(keys: seq<string>)

  type Items = map<string, Value>

  datatype Error = NoSeed | MalformedIndex | NetworkMismatch
  datatype Exported = Ok(entries: Items) | Fail(error: Error)

  // ---------------------------------------------------------------- what a backup contains

  predicate IsIndexed(items: Items, k: string) {
    INDEX in items && items[INDEX].KeyList? && k in items[INDEX].keys
  }

  /** `enumerable` tells whether the storage can list its keys, which payment history needs. */
  predicate BackedUp(items: Items, enumerable: bool, k: string) {
    k in items && (k in DIRECT_KEYS || IsIndexed(items, k) || (enumerable && TX_PREFIX <= k))
  }

  function Selected(items: Items, enumerable: bool): Items {
    map k | k in items && BackedUp(items, enumerable, k) :: items[k]
  }

  // An empty string counts as absent.
  predicate Has(items: Items, k: string) {
    k in items && items[k] != Text("")
  }

  predicate Exportable(items: Items) {
    Has(items, SEED) && (Has(items, INDEX) ==> items[INDEX].KeyList?)
  }

  /** Copies the listed keys that are present. */
  method CopyPresent(items: Items, keys: seq<string>, into: Items) returns (entries: Items)
    requires forall k :: k in into ==> k in items && into[k] == items[k]
    ensures forall k :: k in entries <==> k in into || (k in keys && k in items)
    ensures forall k :: k in entries ==> k in items && entries[k] == items[k]
  {
    entries := into;
    for i := 0 to |keys|
      invariant forall k :: k in entries <==> k in into || (k in keys[..i] && k in items)
      invariant forall k :: k in entries ==> k in items && entries[k] == items[k]
    {
      if keys[i] in items {
        entries := entries[keys[i] := items[keys[i]]];
      }
      assert keys[..i + 1] == keys[..i] + [keys[i]];
    }
    assert keys[..|keys|] == keys;
  }

  /** Copies the payment-history records. */
  method CopyHistory(items: Items, into: Items) returns (entries: Items)
    requires forall k :: k in into ==> k in items && into[k] == items[k]
    ensures forall k :: k in entries <==> k in into || (k in items && TX_PREFIX <= k)
    ensures forall k :: k in entries ==> k in items && entries[k] == items[k]
  {
    var todo := items.Keys;
    entries := into;
    while todo != {}
      invariant todo <= items.Keys
      invariant forall k :: k in entries <==> k in into || (k in items.Keys - todo && TX_PREFIX <= k)
      invariant forall k :: k in entries ==> k in items && entries[k] == items[k]
      decreases |todo|
    {
      var k :| k in todo;
      if TX_PREFIX <= k {
        entries := entries[k := items[k]];
      }
      todo := todo - {k};
    }
  }

  method ExportState(items: Items, enumerable: bool) returns (r: Exported)
    ensures r.Ok? <==> Exportable(items)
    ensures r.Ok? ==> r.entries == Selected(items, enumerable)
    ensures r == Fail(NoSeed) <==> "ldk_seed" !in items || items["ldk_seed"] == Text("")
    ensures r == Fail(MalformedIndex) <==>
              && "ldk_seed" in items && items["ldk_seed"] != Text("")
              && "ldk_keys_index" in items && items["ldk_keys_index"].Text? && items["ldk_keys_index"] != Text("")
  {
    if !Has(items, SEED) {
      return Fail(NoSeed);
    }
    IndexIsDirect();
    var direct := CopyPresent(items, DIRECT_KEYS, map[]);
    if Has(direct, INDEX) && direct[INDEX].Text? {
      return Fail(MalformedIndex);
    }
    var indexed := CopyPresent(items, if Has(direct, INDEX) then direct[INDEX].keys else [], direct);
    var entries := indexed;
    if enumerable {
      entries := CopyHistory(items, indexed);
    }
    SelectedExactly(items, enumerable, entries);
    return Ok(entries);
  }

  /**
    A backup holds what is stored of the eight named entries, of the keys the index lists, and of payment history if
    the storage can list its keys; nothing else, and nothing changed.
   */
  lemma BackupHolds(items: Items, enumerable: bool, k: string)
    ensures k in Selected(items, enumerable) <==>
              && k in items
              && (|| k in {"ldk_seed", "channel_manager", "ldk_keys_index", "state_version", "peer_addresses", "node_alias",
                           "nwc_wallet_private_key", "nwc_connections"}
                  || ("ldk_keys_index" in items && items["ldk_keys_index"].KeyList? && k in items["ldk_keys_index"].keys)
                  || (enumerable && "tx_" <= k))
    ensures k in Selected(items, enumerable) ==> Selected(items, enumerable)[k] == items[k]
  {
    var d := DIRECT_KEYS;
    assert d[0] in d && d[1] in d && d[2] in d && d[3] in d && d[4] in d && d[5] in d && d[6] in d && d[7] in d;
  }

  lemma SelectedExactly(items: Items, enumerable: bool, entries: Items)
    requires forall k :: k in entries <==> BackedUp(items, enumerable, k)
    requires forall k :: k in entries ==> k in items && entries[k] == items[k]
    ensures entries == Selected(items, enumerable)
  {
  }

  lemma IndexIsDirect()
    ensures INDEX in DIRECT_KEYS
  {
    assert DIRECT_KEYS[2] == INDEX;
  }

  // ---------------------------------------------------------------- import

  /** `order` lists the payload's entries once each, in any order. */
  ghost predicate Lists(order: seq<string>, entries: Items) {
    && (forall k :: k in entries <==> k in order)
    && NoRepeats(order)
  }

  /** A storage whose every state since `trace[0]` a page kill could leave behind. */
  class Storage {
    var items: Items
    ghost var trace: seq<Items>

    ghost predicate Valid()
      reads this
    {
      trace != [] && trace[|trace| - 1] == items
    }

    constructor (initial: Items)
      ensures Valid() && items == initial && trace == [initial]
    {
      items, trace := initial, [initial];
    }

    method SetItem(k: string, v: Value)
      requires Valid()
      modifies this
      ensures Valid() && items == old(items)[k := v] && trace == old(trace) + [items]
    {
      items := items[k := v];
      trace := trace + [items];
    }

    method RemoveItem(k: string)
      requires Valid()
      modifies this
      ensures Valid() && items == old(items) - {k} && trace == old(trace) + [items]
    {
      items := items - {k};
      trace := trace + [items];
    }
  }

  function Restored(items: Items, entries: Items): Items {
    (items - {HIGHWATER}) + entries
  }

  /** The keys in the order they are written: as listed, the seed last. */
  function WriteOrder(entries: Items, order: seq<string>): seq<string> {
    WithoutSeed(order) + if SEED in entries then [SEED] else []
  }

  function WithoutSeed(order: seq<string>): seq<string> {
    if order == [] then []
    else WithoutSeed(order[..|order| - 1]) + if order[|order| - 1] == SEED then [] else [order[|order| - 1]]
  }

  lemma WithoutSeedNext(order: seq<string>, i: nat)
    requires i < |order|
    ensures WithoutSeed(order[..i + 1]) == WithoutSeed(order[..i]) + if order[i] == SEED then [] else [order[i]]
  {
    assert order[..i + 1][..i] == order[..i];
  }

  function Written(items: Items, entries: Items, ks: seq<string>): Items {
    items + (map k | k in ks && k in entries :: entries[k])
  }

  /** The storage after each of the writes. */
  function States(items: Items, entries: Items, ks: seq<string>): seq<Items> {
    seq(|ks|, i requires 0 <= i < |ks| => Written(items, entries, ks[..i + 1]))
  }

  lemma WrittenSnoc(items: Items, entries: Items, ks: seq<string>, k: string)
    requires k in entries
    ensures Written(items, entries, ks + [k]) == Written(items, entries, ks)[k := entries[k]]
  {
  }

  lemma StatesSnoc(items: Items, entries: Items, ks: seq<string>, k: string)
    ensures States(items, entries, ks + [k]) == States(items, entries, ks) + [Written(items, entries, ks + [k])]
  {
    var more := ks + [k];
    assert more[..|more|] == more;
    forall i | 0 <= i < |ks|
      ensures States(items, entries, more)[i] == States(items, entries, ks)[i]
    {
      assert more[..i + 1] == ks[..i + 1];
    }
  }

  // One more write, as the storage sees it.
  lemma OneWrite(trace: seq<Items>, items: Items, entries: Items, ks: seq<string>, k: string)
    requires k in entries
    ensures Written(items, entries, ks + [k]) == Written(items, entries, ks)[k := entries[k]]
    ensures trace + States(items, entries, ks) + [Written(items, entries, ks + [k])] == trace + States(items, entries, ks + [k])
  {
    WrittenSnoc(items, entries, ks, k);
    StatesSnoc(items, entries, ks, k);
    Assoc(trace, States(items, entries, ks), [Written(items, entries, ks + [k])]);
  }

  lemma {:induction false} WithoutSeedMembers(order: seq<string>)
    ensures forall k :: k in WithoutSeed(order) <==> k in order && k != SEED
    decreases |order|
  {
    if order != [] {
      var n := |order| - 1;
      WithoutSeedMembers(order[..n]);
      assert order == order[..n] + [order[n]];
    }
  }

  lemma {:induction false} WithoutSeedOnce(order: seq<string>)
    requires NoRepeats(order)
    ensures NoRepeats(WithoutSeed(order))
    decreases |order|
  {
    if order != [] {
      var n := |order| - 1;
      WithoutSeedOnce(order[..n]);
      WithoutSeedMembers(order[..n]);
      var front := WithoutSeed(order[..n]);
      assert forall i :: 0 <= i < |front| ==> front[i] in front;
    }
  }

  /** Every entry is written once. */
  lemma WriteOrderLists(entries: Items, order: seq<string>)
    requires Lists(order, entries)
    ensures NoRepeats(WriteOrder(entries, order))
    ensures forall k :: k in WriteOrder(entries, order) <==> k in entries
  {
    WithoutSeedMembers(order);
    WithoutSeedOnce(order);
    var front := WithoutSeed(order);
    assert forall i :: 0 <= i < |front| ==> front[i] in front;
  }

  lemma AllWritten(items: Items, entries: Items, order: seq<string>)
    requires Lists(order, entries)
    ensures Written(items, entries, WriteOrder(entries, order)) == items + entries
  {
    WriteOrderLists(entries, order);
  }

  /** The storage states of an import: the stale mark goes first, then each entry, the seed last. */
  function ImportStates(items: Items, entries: Items, order: seq<string>): seq<Items> {
    [items - {HIGHWATER}] + States(items - {HIGHWATER}, entries, WriteOrder(entries, order))
  }

  /** Writes every entry but the seed, one state after another. */
  method WriteEntries(storage: Storage, entries: Items, order: seq<string>)
    requires storage.Valid() && forall k :: k in order ==> k in entries
    modifies storage
    ensures storage.Valid() && storage.items == Written(old(storage.items), entries, WithoutSeed(order))
    ensures storage.trace == old(storage.trace) + States(old(storage.items), entries, WithoutSeed(order))
  {
    ghost var before, trace, ks := storage.items, storage.trace, [];
    for i := 0 to |order|
      invariant ks == WithoutSeed(order[..i])
      invariant storage.Valid() && storage.items == Written(before, entries, ks)
      invariant storage.trace == trace + States(before, entries, ks)
    {
      WithoutSeedNext(order, i);
      if order[i] != SEED {
        OneWrite(trace, before, entries, ks, order[i]);
        ks := ks + [order[i]];
        storage.SetItem(order[i], entries[order[i]]);
      }
    }
    assert order[..|order|] == order;
  }

  /** Writes every entry, the seed last. */
  method WriteAll(storage: Storage, entries: Items, order: seq<string>)
    requires storage.Valid() && Lists(order, entries)
    modifies storage
    ensures storage.Valid() && storage.items == old(storage.items) + entries
    ensures storage.trace == old(storage.trace) + States(old(storage.items), entries, WriteOrder(entries, order))
  {
    ghost var base, front := storage.items, WithoutSeed(order);
    WriteEntries(storage, entries, order);
    assert front + [] == front;
    if SEED in entries {
      OneWrite(old(storage.trace), base, entries, front, SEED);
      storage.SetItem(SEED, entries[SEED]);
    }
    AllWritten(base, entries, order);
  }

  /** Every state the import passes through can be left behind by a kill. */
  method ImportState(storage: Storage, payloadNetwork: string, network: string, entries: Items, order: seq<string>)
    returns (outcome: Imported)
    requires storage.Valid() && Lists(order, entries)
    modifies storage
    ensures storage.Valid()
    ensures outcome == if payloadNetwork != network then Refused(NetworkMismatch) else Done
    ensures outcome.Refused? ==> storage.items == old(storage.items) && storage.trace == old(storage.trace)
    ensures outcome.Done? ==> storage.items == Restored(old(storage.items), entries)
    ensures outcome.Done? ==> storage.trace == old(storage.trace) + ImportStates(old(storage.items), entries, order)
  {
    if payloadNetwork != network {
      return Refused(NetworkMismatch);
    }
    storage.RemoveItem(HIGHWATER);
    ghost var base := storage.items;
    WriteAll(storage, entries, order);
    Assoc(old(storage.trace), [base], States(base, entries, WriteOrder(entries, order)));
    return Done;
  }

  datatype Imported = Done | Refused(error: Error)

  // ---------------------------------------------------------------- seed last

  /** The stored seed implies that every other entry of the backup is stored already. */
  predicate SeedLast(items: Items, entries: Items) {
    SEED in items ==> forall k :: k in entries && k != SEED ==> k in items && items[k] == entries[k]
  }

  predicate Lacks(items: Items, entries: Items, k: string)
    requires k in entries
  {
    k !in items || items[k] != entries[k]
  }

  /** In every state of an import a stored seed implies that the rest is stored, exactly when no seed or all the rest was there before. */
  lemma SeedLastExactly(items: Items, entries: Items, order: seq<string>)
    requires Lists(order, entries)
    ensures (forall i :: 0 <= i < |ImportStates(items, entries, order)| ==> SeedLast(ImportStates(items, entries, order)[i], entries))
            <==> SEED !in items || forall k :: k in entries && k != SEED ==> !Lacks(items - {HIGHWATER}, entries, k)
  {
    var base, ks, states := items - {HIGHWATER}, WriteOrder(entries, order), ImportStates(items, entries, order);
    assert states[0] == base && |SEED| != |HIGHWATER|;
    if SEED !in items || forall k :: k in entries && k != SEED ==> !Lacks(base, entries, k) {
      forall i | 0 <= i < |states|
        ensures SeedLast(states[i], entries)
      {
        if i > 0 {
          SeedLastAt(base, entries, order, i);
        }
      }
    }
  }

  lemma SeedLastAt(base: Items, entries: Items, order: seq<string>, i: nat)
    requires Lists(order, entries) && i <= |WriteOrder(entries, order)|
    requires SEED !in base || forall k :: k in entries && k != SEED ==> !Lacks(base, entries, k)
    ensures SeedLast(Written(base, entries, WriteOrder(entries, order)[..i]), entries)
  {
    var ks := WriteOrder(entries, order);
    WriteOrderLists(entries, order);
    WithoutSeedMembers(order);
    if SEED in ks[..i] {
      var j :| 0 <= j < i && ks[j] == SEED;
      assert j == |WithoutSeed(order)|;
      assert ks[..i] == ks;
    }
  }

  // ---------------------------------------------------------------- round trip

  /** What is stored, as the channel-state cache finds it; `decode` turns a stored string into a value. */
  function AsDisk(items: Items, decode: Value -> StorageCache.Bytes): StorageCache.Disk {
    StorageCache.Disk(set k | INDEX in items && items[INDEX].KeyList? && k in items[INDEX].keys,
                      map k | k in items :: decode(items[k]))
  }

  /** A backup restored into empty storage is the backup, and the cache loads the same on both sides. */
  lemma RestoreReproducesBackup(items: Items, enumerable: bool, decode: Value -> StorageCache.Bytes)
    requires Exportable(items)
    ensures Restored(map[], Selected(items, enumerable)) == Selected(items, enumerable)
    ensures StorageCache.Load(AsDisk(Restored(map[], Selected(items, enumerable)), decode))
            == StorageCache.Load(AsDisk(items, decode))
    ensures Selected(Restored(map[], Selected(items, enumerable)), enumerable) == Selected(items, enumerable)
  {
    var e := Selected(items, enumerable);
    assert Restored(map[], e) == e;
    IndexIsDirect();
    assert INDEX in items ==> INDEX in e && e[INDEX] == items[INDEX];
    assert INDEX in e ==> INDEX in items;
    var d, d' := AsDisk(items, decode), AsDisk(e, decode);
    assert d'.index == d.index;
    forall k | k in d.index && k in d.items
      ensures k in d'.items && d'.items[k] == d.items[k]
    {
      assert IsIndexed(items, k);
    }
    assert StorageCache.Load(d').cache == StorageCache.Load(d).cache;
    assert forall k :: IsIndexed(e, k) == IsIndexed(items, k);
    assert Selected(e, enumerable) == e;
  }

  // ---------------------------------------------------------------- re-hydration

  datatype Replica = Missing | Envelope(network: string, entries: Items, order: seq<string>)

  predicate Restorable(items: Items, network: string, replica: Replica) {
    CHANNEL_MANAGER !in items && replica.Envelope? && replica.network == network
  }

  /** The storage after an uninterrupted re-hydration. */
  function Rehydrated(items: Items, network: string, replica: Replica): Items {
    if !Restorable(items, network, replica) then items
    else if HIGHWATER in items then Restored(items, replica.entries)[HIGHWATER := items[HIGHWATER]]
    else Restored(items, replica.entries)
  }

  /** Its storage states: those of the import, and a last one when a retained mark is put back. */
  function RehydrationStates(items: Items, network: string, replica: Replica): seq<Items> {
    if !Restorable(items, network, replica) then []
    else
      ImportStates(items, replica.entries, replica.order)
      + if HIGHWATER in items then [Rehydrated(items, network, replica)] else []
  }

  /**
    Restores from the replica only into storage without a channel manager, and puts a retained
    high-water mark back afterwards so that the start guard still sees it.
   */
  method MaybeRestoreFromReplica(storage: Storage, network: string, replica: Replica) returns (restored: bool)
    requires storage.Valid()
    requires replica.Envelope? ==> Lists(replica.order, replica.entries)
    modifies storage
    ensures storage.Valid()
    ensures restored <==> Restorable(old(storage.items), network, replica)
    ensures restored <==> "channel_manager" !in old(storage.items) && replica.Envelope? && replica.network == network
    ensures var mark := "monitor_update_highwater";
            mark in old(storage.items) ==> mark in storage.items && storage.items[mark] == old(storage.items)[mark]
    ensures storage.items == Rehydrated(old(storage.items), network, replica)
    ensures storage.trace == old(storage.trace) + RehydrationStates(old(storage.items), network, replica)
  {
    if CHANNEL_MANAGER in storage.items || replica.Missing? {
      return false;
    }
    var hadMark := HIGHWATER in storage.items;
    var mark := if hadMark then storage.items[HIGHWATER] else Text("");
    var outcome := ImportState(storage, replica.network, network, replica.entries, replica.order);
    if outcome.Refused? {
      return false;
    }
    if hadMark {
      storage.SetItem(HIGHWATER, mark);
    }
    return true;
  }

  /** A retained mark is present in every state of a re-hydration exactly when nothing is restored. */
  lemma MarkKeptExactly(items: Items, network: string, replica: Replica)
    requires HIGHWATER in items
    ensures (forall x :: x in RehydrationStates(items, network, replica) ==> HIGHWATER in x)
            <==> !Restorable(items, network, replica)
  {
    if Restorable(items, network, replica) {
      assert RehydrationStates(items, network, replica)[0] == items - {HIGHWATER};
    }
  }

  /** Killed before its last write, a re-hydration has lost the mark, and no later start brings it back. */
  lemma MarkLostForGood(items: Items, network: string, replica: Replica, x: Items)
    requires Restorable(items, network, replica) && Lists(replica.order, replica.entries)
    requires HIGHWATER !in replica.entries && x in ImportStates(items, replica.entries, replica.order)
    ensures HIGHWATER !in x && HIGHWATER !in Rehydrated(x, network, replica)
  {
  }

  predicate Holds(items: Items, entries: Items) {
    forall k :: k in entries ==> !Lacks(items, entries, k)
  }

  /** A start after a kill in any state of the import ends with everything the replica holds. */
  ghost predicate AlwaysResumed(items: Items, network: string, replica: Replica)
    requires replica.Envelope?
  {
    forall x :: x in ImportStates(items, replica.entries, replica.order) ==>
      Holds(Rehydrated(x, network, replica), replica.entries)
  }

  /** No entry that the storage lacks is written after the channel manager. */
  predicate NothingFollows(base: Items, entries: Items, ks: seq<string>) {
    forall p, j :: 0 <= p < j < |ks| && ks[p] == CHANNEL_MANAGER && ks[j] in entries ==> !Lacks(base, entries, ks[j])
  }

  // After `i` of the writes: what was written is there, the rest is as before.
  lemma WrittenAt(base: Items, entries: Items, ks: seq<string>, i: nat, j: nat)
    requires NoRepeats(ks) && i <= |ks| && j < |ks| && ks[j] in entries
    ensures var x := Written(base, entries, ks[..i]);
            && (j < i ==> !Lacks(x, entries, ks[j]))
            && (i <= j ==> (ks[j] in x <==> ks[j] in base) && (Lacks(x, entries, ks[j]) <==> Lacks(base, entries, ks[j])))
  {
    if j < i {
      assert ks[..i][j] == ks[j];
    } else {
      assert ks[j] !in ks[..i];
    }
  }

  lemma StateAfter(items: Items, entries: Items, order: seq<string>, i: nat)
    requires i <= |WriteOrder(entries, order)|
    ensures i < |ImportStates(items, entries, order)|
    ensures ImportStates(items, entries, order)[i] == Written(items - {HIGHWATER}, entries, WriteOrder(entries, order)[..i])
    ensures Written(items - {HIGHWATER}, entries, WriteOrder(entries, order)[..i]) in ImportStates(items, entries, order)
  {
    var base := items - {HIGHWATER};
    assert Written(base, entries, []) == base;
  }

  /** Killed right after the manager was written: seed and manager are there, and what follows stays missing. */
  lemma StoppedAfterManager(items: Items, network: string, replica: Replica, p: nat, j: nat) returns (x: Items)
    requires Restorable(items, network, replica) && Lists(replica.order, replica.entries)
    requires var ks := WriteOrder(replica.entries, replica.order);
             && p < j < |ks| && ks[p] == CHANNEL_MANAGER && ks[j] in replica.entries
             && Lacks(items - {HIGHWATER}, replica.entries, ks[j])
    ensures x in ImportStates(items, replica.entries, replica.order)
    ensures CHANNEL_MANAGER in x && (SEED in items ==> SEED in x) && Rehydrated(x, network, replica) == x
    ensures Lacks(x, replica.entries, WriteOrder(replica.entries, replica.order)[j])
  {
    x := StoppedState(items, replica.entries, replica.order, CHANNEL_MANAGER, p, j);
  }

  lemma StoppedState(items: Items, entries: Items, order: seq<string>, k: string, p: nat, j: nat) returns (x: Items)
    requires Lists(order, entries)
    requires p < j < |WriteOrder(entries, order)| && WriteOrder(entries, order)[p] == k
    requires WriteOrder(entries, order)[j] in entries && Lacks(items - {HIGHWATER}, entries, WriteOrder(entries, order)[j])
    ensures x in ImportStates(items, entries, order)
    ensures k in x && (SEED in items ==> SEED in x) && Lacks(x, entries, WriteOrder(entries, order)[j])
  {
    var ks := WriteOrder(entries, order);
    x := Written(items - {HIGHWATER}, entries, ks[..p + 1]);
    StateAfter(items, entries, order, p + 1);
    WriteOrderLists(entries, order);
    assert ks[p] in ks;
    StoppedAt(items - {HIGHWATER}, entries, ks, p, j);
    assert |SEED| != |HIGHWATER|;
  }

  lemma StoppedAt(base: Items, entries: Items, ks: seq<string>, p: nat, j: nat)
    requires NoRepeats(ks) && p < j < |ks| && ks[p] in entries && ks[j] in entries && Lacks(base, entries, ks[j])
    ensures var x := Written(base, entries, ks[..p + 1]);
            ks[p] in x && Lacks(x, entries, ks[j]) && forall k :: k in base ==> k in x
  {
    WrittenAt(base, entries, ks, p + 1, p);
    WrittenAt(base, entries, ks, p + 1, j);
  }

  // The manager is only there once it has been written.
  lemma ManagerPosition(base: Items, entries: Items, ks: seq<string>, i: nat) returns (p: nat)
    requires CHANNEL_MANAGER !in base && i <= |ks| && CHANNEL_MANAGER in Written(base, entries, ks[..i])
    ensures p < i && ks[p] == CHANNEL_MANAGER
  {
    p :| 0 <= p < i && ks[p] == CHANNEL_MANAGER;
  }

  lemma ResumedAt(items: Items, network: string, replica: Replica, i: nat)
    requires Restorable(items, network, replica) && Lists(replica.order, replica.entries)
    requires i <= |WriteOrder(replica.entries, replica.order)|
    requires NothingFollows(items - {HIGHWATER}, replica.entries, WriteOrder(replica.entries, replica.order))
    ensures Holds(Rehydrated(Written(items - {HIGHWATER}, replica.entries, WriteOrder(replica.entries, replica.order)[..i]),
                             network, replica), replica.entries)
  {
    var ks, base := WriteOrder(replica.entries, replica.order), items - {HIGHWATER};
    var x := Written(base, replica.entries, ks[..i]);
    WriteOrderLists(replica.entries, replica.order);
    if CHANNEL_MANAGER in x {
      var p := ManagerPosition(base, replica.entries, ks, i);
      forall k | k in replica.entries
        ensures !Lacks(x, replica.entries, k)
      {
        var j :| 0 <= j < |ks| && ks[j] == k;
        WrittenAt(base, replica.entries, ks, i, j);
      }
    } else {
      RestoredHolds(x, network, replica);
    }
  }

  // A re-hydration that runs to its end leaves everything the replica holds.
  lemma RestoredHolds(x: Items, network: string, replica: Replica)
    requires Restorable(x, network, replica)
    ensures forall k :: k in replica.entries && k != HIGHWATER ==> !Lacks(Rehydrated(x, network, replica), replica.entries, k)
    ensures HIGHWATER !in x ==> Holds(Rehydrated(x, network, replica), replica.entries)
  {
  }

  /**
    Every interrupted re-hydration is resumed by the next start, and ends with everything the replica holds, if
    and only if no entry that the storage lacks is written after the channel manager: a start that finds a manager
    restores nothing.
   */
  lemma ResumedExactly(items: Items, network: string, replica: Replica)
    requires Restorable(items, network, replica) && Lists(replica.order, replica.entries)
    ensures AlwaysResumed(items, network, replica)
            <==> NothingFollows(items - {HIGHWATER}, replica.entries, WriteOrder(replica.entries, replica.order))
  {
    var ks, base := WriteOrder(replica.entries, replica.order), items - {HIGHWATER};
    var states := ImportStates(items, replica.entries, replica.order);
    if NothingFollows(base, replica.entries, ks) {
      forall x | x in states
        ensures Holds(Rehydrated(x, network, replica), replica.entries)
      {
        var i :| 0 <= i < |states| && states[i] == x;
        StateAfter(items, replica.entries, replica.order, i);
        ResumedAt(items, network, replica, i);
      }
    } else {
      var p, j :| 0 <= p < j < |ks| && ks[p] == CHANNEL_MANAGER && ks[j] in replica.entries && Lacks(base, replica.entries, ks[j]);
      var x := StoppedAfterManager(items, network, replica, p, j);
    }
  }

  // ---------------------------------------------------------------- any number of kills

  /** Each start re-hydrates and is killed in a state of its import; `xs` are the states left behind. */
  ghost predicate Interrupted(items: Items, network: string, replica: Replica, xs: seq<Items>)
    requires replica.Envelope?
    decreases |xs|
  {
    xs == [] || (Restorable(items, network, replica) && xs[0] in ImportStates(items, replica.entries, replica.order)
                 && Interrupted(xs[0], network, replica, xs[1..]))
  }

  /** However many starts are killed, the next one ends with everything the replica holds. */
  ghost predicate ResumedAfterAny(items: Items, network: string, replica: Replica)
    requires replica.Envelope?
  {
    forall xs :: xs != [] && Interrupted(items, network, replica, xs) ==>
      Holds(Rehydrated(xs[|xs| - 1], network, replica), replica.entries)
  }

  // What an import leaves lacks no more than before.
  lemma StateLacksLess(items: Items, entries: Items, order: seq<string>, x: Items, k: string)
    requires Lists(order, entries) && k in entries && x in ImportStates(items, entries, order)
    ensures Lacks(x - {HIGHWATER}, entries, k) ==> Lacks(items - {HIGHWATER}, entries, k) || k == HIGHWATER
  {
    var states := ImportStates(items, entries, order);
    var i :| 0 <= i < |states| && states[i] == x;
    StateAfter(items, entries, order, i);
    WriteOrderLists(entries, order);
    var ks := WriteOrder(entries, order);
    var j :| 0 <= j < |ks| && ks[j] == k;
    WrittenAt(items - {HIGHWATER}, entries, ks, i, j);
  }

  lemma FollowsKept(items: Items, network: string, replica: Replica, x: Items)
    requires Restorable(items, network, replica) && Lists(replica.order, replica.entries)
    requires x in ImportStates(items, replica.entries, replica.order)
    requires NothingFollows(items - {HIGHWATER}, replica.entries, WriteOrder(replica.entries, replica.order))
    ensures NothingFollows(x - {HIGHWATER}, replica.entries, WriteOrder(replica.entries, replica.order))
  {
    var ks := WriteOrder(replica.entries, replica.order);
    forall p, j | 0 <= p < j < |ks| && ks[p] == CHANNEL_MANAGER && ks[j] in replica.entries
      ensures !Lacks(x - {HIGHWATER}, replica.entries, ks[j])
    {
      assert !Lacks(items - {HIGHWATER}, replica.entries, ks[j]);
      StateLacksLess(items, replica.entries, replica.order, x, ks[j]);
    }
  }

  lemma ResumedOnce(items: Items, network: string, replica: Replica, x: Items)
    requires Restorable(items, network, replica) && Lists(replica.order, replica.entries)
    requires NothingFollows(items - {HIGHWATER}, replica.entries, WriteOrder(replica.entries, replica.order))
    requires x in ImportStates(items, replica.entries, replica.order)
    ensures Holds(Rehydrated(x, network, replica), replica.entries)
  {
    ResumedExactly(items, network, replica);
  }

  lemma {:induction false} ResumedChain(items: Items, network: string, replica: Replica, xs: seq<Items>)
    requires xs != [] && replica.Envelope? && Lists(replica.order, replica.entries) && Interrupted(items, network, replica, xs)
    requires NothingFollows(items - {HIGHWATER}, replica.entries, WriteOrder(replica.entries, replica.order))
    ensures Holds(Rehydrated(xs[|xs| - 1], network, replica), replica.entries)
    decreases |xs|
  {
    if |xs| == 1 {
      ResumedOnce(items, network, replica, xs[0]);
    } else {
      FollowsKept(items, network, replica, xs[0]);
      ResumedChain(xs[0], network, replica, xs[1..]);
      assert xs[1..][|xs| - 2] == xs[|xs| - 1];
    }
  }

  /** The same condition decides it for any number of interrupted re-hydrations in a row. */
  lemma ResumedAfterAnyExactly(items: Items, network: string, replica: Replica)
    requires Restorable(items, network, replica) && Lists(replica.order, replica.entries)
    ensures ResumedAfterAny(items, network, replica)
            <==> NothingFollows(items - {HIGHWATER}, replica.entries, WriteOrder(replica.entries, replica.order))
  {
    if NothingFollows(items - {HIGHWATER}, replica.entries, WriteOrder(replica.entries, replica.order)) {
      forall xs | xs != [] && Interrupted(items, network, replica, xs)
        ensures Holds(Rehydrated(xs[|xs| - 1], network, replica), replica.entries)
      {
        ResumedChain(items, network, replica, xs);
      }
    }
    if ResumedAfterAny(items, network, replica) {
      OneKill(items, network, replica);
      ResumedExactly(items, network, replica);
    }
  }

  // A single kill is such a sequence.
  lemma OneKill(items: Items, network: string, replica: Replica)
    requires Restorable(items, network, replica) && ResumedAfterAny(items, network, replica)
    ensures AlwaysResumed(items, network, replica)
  {
    forall x | x in ImportStates(items, replica.entries, replica.order)
      ensures Holds(Rehydrated(x, network, replica), replica.entries)
    {
      InterruptedOnce(items, network, replica, x);
      var xs := [x];
      assert xs[|xs| - 1] == x;
    }
  }

  lemma InterruptedOnce(items: Items, network: string, replica: Replica, x: Items)
    requires Restorable(items, network, replica) && x in ImportStates(items, replica.entries, replica.order)
    ensures Interrupted(items, network, replica, [x])
  {
    assert [x][1..] == [];
  }

  // Leaving the seed out keeps the order of the rest.
  lemma {:induction false} OrderKept(order: seq<string>, p: nat, j: nat) returns (p': nat, j': nat)
    requires p < j < |order| && order[p] != SEED && order[j] != SEED
    ensures p' < j' < |WithoutSeed(order)| && WithoutSeed(order)[p'] == order[p] && WithoutSeed(order)[j'] == order[j]
    decreases |order|
  {
    var n := |order| - 1;
    if j < n {
      p', j' := OrderKept(order[..n], p, j);
    } else {
      WithoutSeedMembers(order[..n]);
      assert order[..n][p] == order[p];
      assert order[p] in WithoutSeed(order[..n]);
      var front := WithoutSeed(order[..n]);
      p' :| 0 <= p' < |front| && front[p'] == order[p];
      j' := |front|;
    }
  }

  /** An export lists the manager before the index, so re-hydrating storage that lost both is not always resumed. */
  lemma ExportOrderNotResumed(items: Items, network: string, replica: Replica, p: nat, j: nat)
    requires Restorable(items, network, replica) && Lists(replica.order, replica.entries) && INDEX !in items
    requires p < j < |replica.order| && replica.order[p] == DIRECT_KEYS[1] && replica.order[j] == DIRECT_KEYS[2]
    ensures !AlwaysResumed(items, network, replica)
  {
    ManagerBeforeIndex();
    var p', j' := OrderKept(replica.order, p, j);
    assert replica.order[j] in replica.order;
    StillLacking(items, replica.entries, replica.order, p', j');
    ResumedExactly(items, network, replica);
  }

  lemma ManagerBeforeIndex()
    ensures DIRECT_KEYS[1] == CHANNEL_MANAGER && DIRECT_KEYS[2] == INDEX && SEED != CHANNEL_MANAGER && SEED != INDEX
  {
    assert SEED[0] == 'l' && CHANNEL_MANAGER[0] == 'c' && |SEED| != |INDEX|;
  }

  lemma StillLacking(items: Items, entries: Items, order: seq<string>, p: nat, j: nat)
    requires p < j < |WithoutSeed(order)| && WithoutSeed(order)[p] == CHANNEL_MANAGER
    requires WithoutSeed(order)[j] == INDEX && INDEX in entries && INDEX !in items
    ensures !NothingFollows(items - {HIGHWATER}, entries, WriteOrder(entries, order))
  {
    var ks := WriteOrder(entries, order);
    assert ks[p] == CHANNEL_MANAGER && ks[j] == INDEX;
    assert Lacks(items - {HIGHWATER}, entries, ks[j]);
  }
}
