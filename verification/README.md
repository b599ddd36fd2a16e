# Verified model of the Libre Listener wallet's home-grown protocols

The wallet runs a Lightning node in a browser page. What this project models is the code around the
node engine that has to be right on its own: who may spend how much, when channel state is durable,
which device may run, how bytes are laid out, and how money is divided. The engine itself, IndexedDB,
Nostr relays, the versioned store and cryptography appear as an environment that takes any step it may.

Concurrent code is modelled as a state machine whose events are the stretches between two awaits (and
the environment's own steps); a run is any sequence of enabled events, and main results speak of every
run. Code that updates fields or buffers is a class or a method with loops, proved against a
specification function or property. Where a promise fails, the failing run is constructed and the exact
condition under which the promise holds is proved.

| file | subject |
|---|---|
| `NwcBudget.dfy`, `NwcAccounting.dfy`, `NwcDedup.dfy` | spend authority of a Nostr Wallet Connect pairing; where its figure comes from; replay protection |
| `StorageKeys.dfy`, `StorageCache.dfy` | the write-behind cache: names, refinement of a map, crash recovery |
| `Highwater.dfy`, `DurablePersist.dfy`, `DurableMarks.dfy`, `MonitorStore.dfy` | monotone marks; acknowledge only what is durable; the start guard; how marks reach the storage; the cache beneath it |
| `Backup.dfy` | export, import and re-hydration of wallet state |
| `BitOps.dfy`, `Varints.dfy`, `VssProtobuf.dfy`, `VssListing.dfy`, `VssWire.dfy` | bit operations; the protobuf writer and reader; key listings; which inputs are accepted |
| `BitStrings.dfy`, `Int32.dfy`, `Repack.dfy`, `Bolt11Hints.dfy` | 32-bit operators, 5-bit/8-bit repacking and the BOLT #11 route-hint transformer |
| `DeviceLease.dfy`, `LeaseObject.dfy`, `LeaseRuns.dfy`, `LeaseVersions.dfy`, `LeaseVictims.dfy` | the compare-and-swap lease between devices; what versions count; whose record can be replaced |
| `ChainSync.dfy` | catch-up and block-by-block chain synchronization |
| `JitSkim.dfy` | the one-time opening fee of a just-in-time channel |
| `Splits.dfy` | value-for-value payment splits and their records |
| `Sequences.dfy`, `SortedKeys.dfy`, `Wrappers.dfy` | shared helpers |

## Findings

- The spending cap depends on the settlement bound: a refund that arrives after a later request has
  reset the window is taken out of the new window's spending, which can then be spent again
  (`NwcBudget.LateRefundBreaksCap`). The 90 s wait leaves a window of a day or more untouched as long as
  its timer fires on time; a page frozen for the length of the window breaks the condition.
- `refundBudget` promises to reverse the debit of a payment that failed to initiate. A throw between the
  debit and `send_payment` in `pay_invoice` skips it: the charge of a payment that was never sent stays
  (`NwcAccounting.AbandonedChargeStays`). The figure counts only what was handed to the node exactly when
  no positive charge was so abandoned in the window (`NwcAccounting.OnlySentExactly`).
- The same comment says that a refund composes rather than falling back to a stale snapshot. The debit that
  follows writes on top of the figure its request had read, so a refund in between is lost
  (`NwcAccounting.RefundLost`); it composes exactly when there is none (`NwcAccounting.RefundsComposeExactly`).
- A kill between the index write and the removal of a value leaves the value behind, and no other kill
  does (`StorageCache.OrphanExactly`); adding the key again and being killed once more brings the removed
  value back (`StorageCache.TwoKillsResurrect`).
- Re-hydration removes a retained high-water mark and puts it back only after the import; a kill in
  between loses the mark for good (`Backup.MarkLostForGood`).
- Re-hydration runs with the seed already stored and writes the channel manager before the entries that
  follow it in the payload. A kill in between leaves seed and manager without the rest, and the next
  start restores nothing because a manager exists (`Backup.StoppedAfterManager`, `Backup.ResumedExactly`).
- After a release the lease key's versions start again from zero, so an acquire that waited through a
  release can replace a live record (`LeaseVictims.RunningVictim`).
- The comment in `renew` says the resync after a conflict keeps renewals working. The version it sets is
  one past the stored one: with no release in between, the next renewal is refused again unless exactly
  one other write took first (`LeaseVersions.ResyncedRenewalTakesExactly`); the model follows the code.
- The comment above `forwardSyncBatchEnd` promises no skipped confirmations or output spends. A
  transaction watched after its block was passed is found by the next call's catch-up, but catch-up looks
  at no outputs: a spender is missed for good unless its output was registered when its block was
  searched (`ChainSync.SpenderFoundExactly`, `ChainSync.LateOutputMissed`).

## Model

| member | source | states |
|---|---|---|
| `NwcBudget.SpendingCapExactly` | packages/libre-listener-wallet/src/nwc-manager.ts:222-257 | For a positive limit, in every run of one client's requests, settlements, failures, time-outs and window resets the sats charged since the last reset and not definitively failed stay at or below `spentTodaySats`, itself at or below the limit, if and only if initiation, the 90 s settlement wait and the lag of its timer together are shorter than the budget window |
| `NwcBudget.DailyCapExactly` | packages/shared/src/nwc-schema.ts:123-146 | Spelled out for a budget stored without a renewal, or a daily one: the cap holds over every run if and only if initiation and timer lag together are below 86,310,000 ms; for one that never renews it always holds |
| `NwcBudget.PerPaymentMaximum` | packages/libre-listener-wallet/src/nwc-manager.ts:768-784 | With a per-payment maximum, in every reachable state no request that was ever charged, refunded ones included, is above it |
| `NwcBudget.SpendingCap` | packages/libre-listener-wallet/src/nwc-manager.ts:774-842 | Under that condition the cap holds in every reachable state, and every refund is taken from the window its charge was made in |
| `NwcBudget.LateRefundBreaksCap` | packages/libre-listener-wallet/src/nwc-manager.ts:247-257 | Without it a concrete run exists in which a refund crosses a window reset and the freed budget is spent again |
| `NwcBudget.SpendingCapMsat` | packages/libre-listener-wallet/src/nwc-manager.ts:766-766 | What flooring to whole sats lets through: at most 999 msat for each live payment above the limit |
| `NwcAccounting.ExactAccounting` | packages/libre-listener-wallet/src/nwc-manager.ts:217-257 | While no refund can outlive the window, the figure is in every run exactly what the window opened with, plus the charges of payments sent and not refunded, of the one being handed over and of those abandoned unsent, plus the refunds lost between a read and its later debit |
| `NwcAccounting.RefundsComposeExactly` | packages/libre-listener-wallet/src/nwc-manager.ts:217-225 | Under the same condition refunds compose with later charges, so that the figure is what is owed, if and only if no sats of the window were refunded between a read and its later debit; otherwise it is higher |
| `NwcAccounting.RefundLost` | packages/libre-listener-wallet/src/nwc-manager.ts:875-893 | A run in which such a refund is lost |
| `NwcAccounting.RefundOverwritten` | packages/libre-listener-wallet/src/nwc-manager.ts:875-893 | A refund between a read and its debit leaves the same figure as no refund |
| `NwcAccounting.OnlySentExactly` | packages/libre-listener-wallet/src/nwc-manager.ts:807-842 | Under the same condition, and lost refunds aside, the figure counts only payments sent or being handed over if and only if no request with a positive charge was abandoned in the current window |
| `NwcAccounting.AbandonedChargeStays` | packages/libre-listener-wallet/src/nwc-manager.ts:807-825 | A run from an empty pairing: an exception between debit and send opens the gate again, nothing was ever sent, and the charge stays |
| `NwcBudget.RefundStep` | packages/libre-listener-wallet/src/nwc-manager.ts:222-257 | A refund is only enabled while its charge belongs to the current window, and keeps the budget invariant |
| `NwcBudget.ReadBudgetStep` | packages/libre-listener-wallet/src/nwc-manager.ts:666-673 | Reading the budget, with or without a window reset, keeps the budget invariant while other payments are in flight |
| `NwcBudget.DebitStep` | packages/libre-listener-wallet/src/nwc-manager.ts:869-893 | Debiting on top of the figure that was read, possibly after refunds in between, keeps the budget invariant |
| `NwcBudget.MutualExclusion` | packages/libre-listener-wallet/src/nwc-manager.ts:589-608 | No two requests of a client are both past their start and short of their reservation |
| `NwcBudget.GateRun` | packages/libre-listener-wallet/src/nwc-manager.ts:589-608 | The chain entry is the newest request or everything has reserved; dropping a drained entry lets nothing overtake |
| `NwcBudget.ReserveInArrivalOrder` | packages/libre-listener-wallet/src/nwc-manager.ts:589-608 | In every reachable state the reserved requests are exactly a prefix of the arrivals and at most one request is reserving |
| `NwcBudget.WindowMs` | packages/shared/src/nwc-schema.ts:123-146 | No window for a budget that never renews, otherwise 1, 7, 30 or 365 days |
| `NwcBudget.Pairing.ReadBudget` | packages/libre-listener-wallet/src/nwc-manager.ts:666-673 | When the window has elapsed the figure is zero and the stamp is now, otherwise both are unchanged; returns the figure that now counts |
| `NwcBudget.Pairing.CheckControls` | packages/libre-listener-wallet/src/nwc-manager.ts:863-873 | Accepts exactly when the maximum is zero or not exceeded and the limit is zero or not exceeded by the figure read plus the amount |
| `NwcBudget.Pairing.DebitBudget` | packages/libre-listener-wallet/src/nwc-manager.ts:234-238 | The new figure is what was read plus the amount, stamped with the time of the read |
| `NwcBudget.Pairing.RefundBudget` | packages/libre-listener-wallet/src/nwc-manager.ts:222-225 | Gives the amount back, never below zero, and leaves the time stamp alone |
| `NwcDedup.ReprocessedOnlyAfterEviction` | packages/libre-listener-wallet/src/nwc-manager.ts:545-580 | In every run the same event id is processed again only after at least 2000 other ids were handled in between |
| `NwcDedup.DroppedExactlyWhenRecent` | packages/libre-listener-wallet/src/nwc-manager.ts:553-580 | An event that is not stale is dropped exactly when its id is among the last 2000 handled |
| `NwcDedup.VerdictsExactly` | packages/libre-listener-wallet/src/nwc-manager.ts:545-580 | Told from the deliveries alone: an event is stale exactly when it carries a time more than 300 s back; a fresh one with an id is dropped exactly when an event with that id was processed before and no more than 2000 identified events were processed from then on |
| `NwcDedup.HandledEvents.MarkEventHandled` | packages/libre-listener-wallet/src/nwc-manager.ts:545-552 | The set stays equal to the elements of the duplicate-free queue, which drops its oldest id beyond 2000 |
| `NwcDedup.HandledEvents.Receive` | packages/libre-listener-wallet/src/nwc-manager.ts:553-580 | The two fields judge each delivery as the whole history of deliveries does, age check included |
| `Highwater.MergedIsLeastUpperBound` | packages/libre-listener-wallet/src/state-highwater.ts:50-57 | Merging is the least map above the stored marks and above every loaded monitor |
| `Highwater.MergeHighwater` | packages/libre-listener-wallet/src/state-highwater.ts:50-57 | The loop computes that merge |
| `Highwater.FindRegression` | packages/libre-listener-wallet/src/state-highwater.ts:62-70 | Nothing exactly when no loaded monitor has a higher mark; otherwise the first that is behind |
| `Highwater.MarkKeeper.RecordDurableHighwater` | packages/libre-listener-wallet/src/index.ts:1334-1352 | Raises one channel's mark, never lowers it, and asks for a write exactly when something changed |
| `DurablePersist.AckOnlyAfterDurable` | packages/libre-listener-wallet/src/durable-persist.ts:49-83 | In every run of persists, commits, failed commits and page kills an acknowledged update's request is a monitor write of its channel at that id or later and has committed, its channel loads at that id or later, and its batch's manager snapshot was issued after the write and has committed |
| `DurablePersist.RefusedNeverAcked` | packages/libre-listener-wallet/src/storage-cache.ts:87-99 | A persist whose write a degraded cache refused is scheduled for an ack all the same, and in every run never gets one |
| `DurablePersist.ManagerJoinsBatch` | packages/libre-listener-wallet/src/index.ts:1505-1508 | While a channel manager exists every batch that gets past the manager write carries a manager snapshot, which AckOnlyAfterDurable shows committed |
| `DurablePersist.NoFlushSucceedsAfterFailure` | packages/libre-listener-wallet/src/storage-cache.ts:87-115 | Once a cache commit has failed, no flush that waits past it succeeds and nothing issued after it is ever acknowledged |
| `DurablePersist.MarkNeverAheadOfDisk` | packages/libre-listener-wallet/src/index.ts:753-768 | In every reachable state each persisted mark is at most the id its channel loads at, so a restart after any kill is never refused |
| `DurablePersist.GuardHaltsExactlyOnRegression` | packages/libre-listener-wallet/src/index.ts:753-768 | On any disk the start is refused exactly when some stored monitor is below its persisted mark |
| `DurablePersist.UndisturbedPersistIsAcked` | packages/libre-listener-wallet/src/durable-persist.ts:49-124 | With nothing failing, a persist, full or delta, is acknowledged under the update's own id, or the monitor's latest id when no update came with it, loads at its id, and raises its channel's mark to the acknowledged id if that is higher |
| `DurableMarks.MarksAreIssued` | packages/libre-listener-wallet/src/index.ts:1334-1352 | In every reachable session the last mark write issued, at the start or since, carries the marks in memory |
| `DurableMarks.UndisturbedMarkIsStored` | packages/libre-listener-wallet/src/index.ts:753-768 | Once an undisturbed persist and all it issued have settled, the stored mark is at least the acknowledged id, and a start from any disk with these marks and the channel below that id is refused |
| `DurableMarks.AckAndMarkExactly` | packages/libre-listener-wallet/src/index.ts:1334-1352 | Of all events only the end of a flush that ends well acknowledges, and only its own task; only it moves a mark: its channel's, to that id, when that is higher and the chain monitor still knows the channel |
| `DurableMarks.FlushWaitsForAllIssued` | packages/libre-listener-wallet/src/storage-cache.ts:87-99 | In every run an acknowledgement means that every cache write issued before its flush began, by any task, has committed |
| `DurablePersist.Step` | packages/libre-listener-wallet/src/durable-persist.ts:90-164 | Every event of the protocol keeps the invariant that ties marks, tasks and storage together |
| `DurablePersist.FlushEndStep` | packages/libre-listener-wallet/src/durable-persist.ts:71-83 | Acknowledging and advancing the mark keeps the invariant, whatever has settled meanwhile |
| `DurablePersist.SettleKeepsIo` | packages/libre-listener-wallet/src/storage-cache.ts:172-215 | A commit or a failure in issue order keeps the disk between what was intended and what is known committed |
| `StorageKeys.StorageKeyInjective` | packages/libre-listener-wallet/src/storage-cache.ts:45-51 | Joined keys identify their names, for slash-free parts and no secondary namespace without a primary |
| `StorageKeys.SameKeyExactly` | packages/libre-listener-wallet/src/storage-cache.ts:45-51 | Two names with slash-free parts share a key exactly when they are equal, or one has as its secondary, with no primary, what the other has as its primary |
| `StorageKeys.IrregularNamesCollide` | packages/libre-listener-wallet/src/storage-cache.ts:45-51 | Without that rule two names share a key |
| `StorageKeys.ListedExactly` | packages/libre-listener-wallet/src/storage-cache.ts:217-238 | A key is listed in exactly its own namespace |
| `StorageCache.CrashRecoveryExactly` | packages/libre-listener-wallet/src/storage-cache.ts:117-141 | Loading after a kill at any point of any operations yields the map after some prefix of them, if and only if the start disk has no value outside the index |
| `StorageCache.OrphanResurrects` | packages/libre-listener-wallet/src/storage-cache.ts:203-210 | A value left outside the index comes back when its key is written again and the page is killed after the index commit |
| `StorageCache.TwoKillsResurrect` | packages/libre-listener-wallet/src/storage-cache.ts:203-210 | Such a value arises from an ordinary disk by one kill during a remove, so two kills undo a remove |
| `StorageCache.OrphanExactly` | packages/libre-listener-wallet/src/storage-cache.ts:195-215 | Of all kills exactly those between the index commit and the removal of a stored key leave a value outside the index |
| `StorageCache.SessionsRecoverExactly` | packages/libre-listener-wallet/src/storage-cache.ts:117-215 | Over any number of sessions, each killed anywhere, every kill recovers a prefix of its session if and only if no session is killed at such a point |
| `StorageCache.FreshCacheRefinesMap` | packages/libre-listener-wallet/src/storage-cache.ts:163-215 | Under any accepted writes and removes the cache is the map keyed by full names |
| `StorageCache.ListIsNamespace` | packages/libre-listener-wallet/src/storage-cache.ts:217-238 | A listing is exactly the live keys of its namespace |
| `StorageCache.LastWriteWins` | packages/libre-listener-wallet/src/storage-cache.ts:152-215 | A name has the value of its last accepted write, and none when a remove came last |
| `StorageCache.Cache.constructor` | packages/libre-listener-wallet/src/storage-cache.ts:117-141 | The load loop yields the index and the indexed values that exist |
| `StorageCache.Cache.Read` | packages/libre-listener-wallet/src/storage-cache.ts:163-170 | The value left by the load and the accepted operations; for a cache started empty, lookup in the map keyed by full names |
| `StorageCache.Cache.WriteValue` | packages/libre-listener-wallet/src/storage-cache.ts:172-193 | Refused without effect once degraded; otherwise memory and issued requests follow the specification, index before value |
| `StorageCache.Cache.RemoveValue` | packages/libre-listener-wallet/src/storage-cache.ts:195-215 | The same for removes: the index without the key first, then the value |
| `StorageCache.Cache.RequestSettled` | packages/libre-listener-wallet/src/storage-cache.ts:101-115 | A failed request degrades the cache, a committed one leaves it as it was, and neither touches the rest |
| `StorageCache.Cache.List` | packages/libre-listener-wallet/src/storage-cache.ts:217-238 | Each listed name once; for a cache started empty exactly the live keys of the namespace |
| `MonitorStore.FlushedSurvives` | packages/libre-listener-wallet/src/storage-cache.ts:87-99 | A kill after the requests of the first k operations have committed recovers the map after k operations or more |
| `MonitorStore.RequestsRefineWrites` | packages/libre-listener-wallet/src/storage-cache.ts:172-193 | Killed anywhere among the index and value requests of full monitor writes, the cache loads the monitors that the persistence protocol has after some number of whole writes, no fewer than were flushed |
| `Backup.ExportState` | packages/libre-listener-wallet/src/index.ts:1651-1707 | The payload is exactly the direct keys, the indexed keys and the payment records that exist; a missing or empty seed and a malformed index are refused |
| `Backup.BackupHolds` | packages/libre-listener-wallet/src/index.ts:1656-1690 | A backup holds what is stored of the eight named entries, of the indexed keys, and of payment history if the storage can list its keys; nothing else, nothing changed |
| `Backup.ImportState` | packages/libre-listener-wallet/src/index.ts:1713-1740 | The storage passes through exactly the listed states: the stale mark gone, then one entry more each time, the seed last; another network is refused without effect |
| `Backup.SeedLastExactly` | packages/libre-listener-wallet/src/index.ts:1725-1739 | In every one of these states a stored seed implies that all other entries are stored, if and only if no seed, or all the rest, was stored before |
| `Backup.WriteEntries` | packages/libre-listener-wallet/src/index.ts:1731-1735 | The loop writes every entry but the seed, and its states are exactly the prefixes |
| `Backup.RestoreReproducesBackup` | packages/libre-listener-wallet/src/index.ts:1656-1740 | A backup restored into empty storage is that backup, the cache loads the same on both sides, and it exports the same backup again |
| `Backup.MaybeRestoreFromReplica` | packages/libre-listener-wallet/src/index.ts:1755-1774 | Restores exactly into storage without a channel manager from a replica of its own network; the states it passes through and the final one, with a retained mark put back, are given exactly |
| `Backup.MarkKeptExactly` | packages/libre-listener-wallet/src/index.ts:1763-1767 | A retained mark is present in every state exactly when nothing is restored |
| `Backup.MarkLostForGood` | packages/libre-listener-wallet/src/index.ts:1755-1774 | After a kill in any state of the import the mark is gone, and the next start does not bring it back |
| `Backup.ResumedExactly` | packages/libre-listener-wallet/src/index.ts:1755-1774 | After a kill in any state the next start ends with everything the replica holds, if and only if no entry that the storage lacks is written after the channel manager |
| `Backup.ResumedAfterAnyExactly` | packages/libre-listener-wallet/src/index.ts:1755-1774 | The same condition decides it for any number of interrupted re-hydrations in a row |
| `Backup.StoppedAfterManager` | packages/libre-listener-wallet/src/index.ts:1731-1759 | The failing run: seed and channel manager are stored, an entry behind them is missing, and the next start restores nothing |
| `Backup.ExportOrderNotResumed` | packages/libre-listener-wallet/src/backup-keys.ts:44-53 | Exports list the manager before the index, so re-hydrating storage that lost both is not always resumed |
| `Varints.VarintRoundTrip` | packages/libre-listener-wallet/src/vss-protobuf.ts:46-59 | The encoding is one well-formed varint of the encoded number |
| `Varints.VarintLength` | packages/libre-listener-wallet/src/vss-protobuf.ts:46-59 | At most k bytes exactly when the number has at most k base-128 digits |
| `Varints.VarintShortest` | packages/libre-listener-wallet/src/vss-protobuf.ts:46-68 | No byte run that reads as the number is shorter |
| `Varints.Int64RoundTrip` | packages/libre-listener-wallet/src/vss-protobuf.ts:61-68 | The signed reader inverts the signed writer; at most ten bytes, exactly ten when and only when negative |
| `Varints.ReadVarintExact` | packages/libre-listener-wallet/src/vss-protobuf.ts:123-150 | Reading any varint, minimal or not, off the front yields its value and the untouched rest |
| `VssProtobuf.KeyValueRoundTrip` | packages/libre-listener-wallet/src/vss-protobuf.ts:188-251 | Decoding inverts encoding for every key, value and 64-bit version, omitted defaults and -1 included |
| `VssWire.RecordLayout` | packages/libre-listener-wallet/src/vss-protobuf.ts:188-194 | The bytes of a record: key under tag 10, version in two's complement under tag 16, value under tag 26, empty and zero ones left out |
| `VssWire.AcceptedExactly` | packages/libre-listener-wallet/src/vss-protobuf.ts:114-177 | An input is accepted, with given fields, if and only if it is a concatenation of well-formed fields with these meanings, of which the last, if of fixed width, may lack some of its bytes |
| `VssWire.LastFieldWins` | packages/libre-listener-wallet/src/vss-protobuf.ts:240-251 | Of several occurrences of a field, anywhere in the input, the last one counts |
| `VssProtobuf.UnknownFieldIgnored` | packages/libre-listener-wallet/src/vss-protobuf.ts:240-251 | Any well-formed field with another number, between any two fields, leaves the decoded record unchanged |
| `VssProtobuf.ParseRawField` | packages/libre-listener-wallet/src/vss-protobuf.ts:114-177 | A well-formed field of any wire type is read back exactly whatever follows it |
| `VssProtobuf.ParseInvertsWires` | packages/libre-listener-wallet/src/vss-protobuf.ts:114-177 | Parsing inverts any concatenation of well-formed fields |
| `VssProtobuf.Writer.WriteVarint` | packages/libre-listener-wallet/src/vss-protobuf.ts:46-59 | The division loop emits the varint of its argument |
| `BitOps.MaskIsRemainder` | packages/libre-listener-wallet/src/vss-protobuf.ts:61-68 | Masking the bits of a number with the low k bits gives its remainder modulo 2^k |
| `BitOps.SetIsSum` | packages/libre-listener-wallet/src/vss-protobuf.ts:61-68 | Setting bit k of a number below 2^k adds 2^k |
| `BitOps.ShiftRightIsQuotient` | packages/libre-listener-wallet/src/vss-protobuf.ts:61-68 | Dropping the last k bits gives the quotient by 2^k |
| `BitOps.ShiftLeftIsProduct` | packages/libre-listener-wallet/src/vss-protobuf.ts:138-150 | Putting k zeros behind the bits multiplies by 2^k |
| `BitOps.TestIsDigit` | packages/libre-listener-wallet/src/vss-protobuf.ts:123-150 | Masking with bit k is zero exactly when that binary digit is |
| `VssProtobuf.Writer.WriteVarintI64` | packages/libre-listener-wallet/src/vss-protobuf.ts:61-68 | The loop that masks, sets and shifts the bits of the two's complement emits its varint, the bytes the division loop emits for every non-negative number |
| `VssProtobuf.Writer.WriteInt64` | packages/libre-listener-wallet/src/vss-protobuf.ts:70-109 | Nothing for zero, otherwise one varint field |
| `VssProtobuf.Writer.WriteBytes` | packages/libre-listener-wallet/src/vss-protobuf.ts:70-109 | Nothing for an empty value, otherwise one length-delimited field |
| `VssProtobuf.Reader.TakeVarint` | packages/libre-listener-wallet/src/vss-protobuf.ts:123-134 | The loop that masks and multiplies reads what the specification reads, or reports truncation |
| `VssProtobuf.Reader.TakeVarintI64` | packages/libre-listener-wallet/src/vss-protobuf.ts:138-150 | The loop that shifts each seven bits into place reads the same number, as a signed 64-bit value |
| `VssProtobuf.Reader.TakeTag` | packages/libre-listener-wallet/src/vss-protobuf.ts:152-155 | Field number and wire type of the tag read, the mask cutting to 32 bits notwithstanding |
| `VssProtobuf.Reader.TakeBytes` | packages/libre-listener-wallet/src/vss-protobuf.ts:157-163 | The announced bytes, or truncation, and the position after them |
| `VssProtobuf.Reader.Skip` | packages/libre-listener-wallet/src/vss-protobuf.ts:169-176 | Skips exactly the payload the tag announces; unknown wire types are an error |
| `VssProtobuf.EncodeKeyValue` | packages/libre-listener-wallet/src/vss-protobuf.ts:188-194 | Writes the three fields in order; the result decodes to the record |
| `VssProtobuf.DecodeKeyValue` | packages/libre-listener-wallet/src/vss-protobuf.ts:240-251 | The loop yields the interpretation of all parsed fields, or the first parse error, on every input |
| `VssListing.DecodeListKeyVersions` | packages/libre-listener-wallet/src/vss-protobuf.ts:271-282 | The loop over the whole response, nested records, page token and version included, on every input |
| `VssListing.ListingRoundTrip` | packages/libre-listener-wallet/src/vss-protobuf.ts:271-282 | Records at the front of a listing decode in order, whatever follows them |
| `VssListing.ResponseRoundTrip` | packages/libre-listener-wallet/src/vss-protobuf.ts:271-282 | Records, then a page token under tag 18 and a version under tag 24, each present or not, decode to exactly these |
| `VssListing.AnyOrderDecodes` | packages/libre-listener-wallet/src/vss-protobuf.ts:271-282 | With the fields in any order and foreign ones between them, all records are decoded in order, and a page token or version that was not sent is absent |
| `VssListing.LastOccurrenceWins` | packages/libre-listener-wallet/src/vss-protobuf.ts:271-282 | Of several page tokens or versions the last one counts |
| `VssListing.MalformedRecordFails` | packages/libre-listener-wallet/src/vss-protobuf.ts:271-282 | A malformed record fails the whole listing with its error |
| `BitStrings.ConcatRegroup` | packages/libre-listener-wallet/src/bolt11-hints.ts:29-60 | Regrouping a bit string keeps it, up to the zero padding of the last digit |
| `BitOps.OrIsSum` | packages/libre-listener-wallet/src/bolt11-hints.ts:35-35 | Or-ing digits below a number's lowest bits adds them |
| `Int32.OrAfterShift` | packages/libre-listener-wallet/src/bolt11-hints.ts:35-52 | `(x << k) | d` on 32-bit integers is the cut product plus the digit, without overflow, for negative x too |
| `Int32.ShiftRightFloors` | packages/libre-listener-wallet/src/bolt11-hints.ts:39-55 | The sign-copying right shift is division rounded towards minus infinity |
| `Int32.MaskCuts` | packages/libre-listener-wallet/src/bolt11-hints.ts:39-58 | Masking low bits after cutting to 32 bits is the remainder, for a negative number too |
| `Repack.WordsToBytesPadded` | packages/libre-listener-wallet/src/bolt11-hints.ts:29-44 | The loop with its bitwise operators and its accumulator truncated to 32 bits equals zero-padded regrouping of the unbounded bit string |
| `Repack.BytesToWordsPadded` | packages/libre-listener-wallet/src/bolt11-hints.ts:46-60 | The same in the other direction |
| `Repack.PackUnpack` | packages/libre-listener-wallet/src/bolt11-hints.ts:29-60 | Packing back what was unpacked returns the bytes, followed by one zero byte exactly when 5 does not divide their number |
| `Repack.UnpackPack` | packages/libre-listener-wallet/src/bolt11-hints.ts:29-60 | Words that fill whole bytes survive the other way round |
| `Repack.SignatureIsExact` | packages/libre-listener-wallet/src/bolt11-hints.ts:128-130 | 65 bytes are 104 words and back, exactly |
| `Repack.ThereAndBack` | packages/libre-listener-wallet/src/bolt11-hints.ts:29-60 | The general law for any two digit widths |
| `Bolt11Hints.AppendedInvoice` | packages/libre-listener-wallet/src/bolt11-hints.ts:146-174 | Appending any non-empty list of hints keeps the prefix and every word of the data part, parses as the original fields followed by one routing field per hint, makes a routing tag visible and signs prefix and new data; each field reads back as its hint exactly when the hint's values fit |
| `Bolt11Hints.AppendRouteHints` | packages/libre-listener-wallet/src/bolt11-hints.ts:146-174 | The result on every input: the first failing check decides the error, otherwise the re-signed invoice |
| `Bolt11Hints.Resign` | packages/libre-listener-wallet/src/bolt11-hints.ts:159-174 | Signs, moves the recovery id last, refuses a signature that does not recover to the key, and a result above 10,000 characters |
| `Bolt11Hints.AppendTags` | packages/libre-listener-wallet/src/bolt11-hints.ts:156-157 | The loop appends the routing fields in order, and fails on a bad node id |
| `Bolt11Hints.EncodeRoutingTag` | packages/libre-listener-wallet/src/bolt11-hints.ts:108-117 | Type 3, the length 82 as the words 2 and 18, and the packed 51 bytes; a node id of other than 33 bytes is refused |
| `Bolt11Hints.RoutingTagRoundTrip` | packages/libre-listener-wallet/src/bolt11-hints.ts:108-117 | A routing field reads back as its hint exactly when every value fits its field |
| `Bolt11Hints.HintRoundTrip` | packages/libre-listener-wallet/src/bolt11-hints.ts:108-117 | The 51 bytes are node id, short channel id, base fee, proportional fee and delta, each modulo its range, and decode to the hint exactly when every value fits its field |
| `Bolt11Hints.BigEndianRoundTrip` | packages/libre-listener-wallet/src/bolt11-hints.ts:71-76 | The bytes read back as the value modulo the field's range, negative values included, the lowest byte last |
| `Bolt11Hints.WriteUIntBE` | packages/libre-listener-wallet/src/bolt11-hints.ts:71-76 | Fills exactly the given stretch of the buffer with the big-endian bytes |
| `Bolt11Hints.HasRouteHint` | packages/libre-listener-wallet/src/bolt11-hints.ts:96-106 | The walk over the self-delimiting fields, or an error for a short invoice |
| `Bolt11Hints.WalkFindsRoutingTag` | packages/libre-listener-wallet/src/bolt11-hints.ts:96-106 | On well-formed fields the walk succeeds exactly when one of them is a routing field |
| `Bolt11Hints.WalkFindsExactly` | packages/libre-listener-wallet/src/bolt11-hints.ts:96-106 | On any words, malformed ones included, the walk succeeds exactly when a routing tag starts behind some whole fields |
| `Bolt11Hints.ParseTagsConcat` | packages/libre-listener-wallet/src/bolt11-hints.ts:95-106 | Well-formed parts parse independently of each other |
| `Bolt11Hints.SignedParts` | packages/libre-listener-wallet/src/bolt11-hints.ts:159-174 | The signed invoice splits back into the data part and a signature that recovers in wire order |
| `Bolt11Hints.SigningMessage` | packages/libre-listener-wallet/src/bolt11-hints.ts:119-126 | The message is the prefix and the zero-padded packing of the data words: it starts with the prefix, and the rest unpacks to the data |
| `Bolt11Hints.MessageCommits` | packages/libre-listener-wallet/src/bolt11-hints.ts:119-126 | The message starts with the prefix and the rest unpacks to the data words |
| `Bolt11Hints.MessageInjective` | packages/libre-listener-wallet/src/bolt11-hints.ts:119-126 | For prefixes of one length and data of one length, equal messages have equal prefix and equal data |
| `Bolt11Hints.SchemeRecovers` | packages/libre-listener-wallet/src/bolt11-hints.ts:128-174 | With a signer that puts the recovery id first and a recovery that fits it, the check after signing never fails and the new invoice belongs to the key again |
| `Bolt11Hints.RecoverPayee` | packages/libre-listener-wallet/src/bolt11-hints.ts:128-133 | Recovery gets the first 64 packed bytes of the signature words and the 65th as the recovery id |
| `LeaseRuns.ExclusiveExactly` | packages/libre-listener-wallet/src/vss-device-lease.ts:66-100 | For any number of devices, no acquire ever replaces another device's unexpired record, in any run, if and only if deletes are held back while a device is between its read and its write, or there is no second device, whether or not the store checks the version of a delete |
| `DeviceLease.TakeoverNeedsDelete` | packages/libre-listener-wallet/src/vss-device-lease.ts:66-130 | A write that replaces another device's unexpired record had a delete processed after its sender last knew the record; only a renewal without such knowledge (degraded start, or resynced after a conflict) is excepted |
| `DeviceLease.OneWinnerPerRead` | packages/libre-listener-wallet/src/vss-device-lease.ts:66-100 | Of the devices that read the same record, a second acquire takes only after a delete processed in between |
| `LeaseVictims.SparesRunningExactly` | packages/libre-listener-wallet/src/vss-device-lease.ts:66-141 | No acquire ever replaces the unexpired record of a device that is still running, in any run, if and only if deletes are so held back or there is no third device |
| `LeaseVictims.RunningVictim` | packages/libre-listener-wallet/src/vss-device-lease.ts:71-141 | The failing run with three devices, none of them degraded |
| `LeaseVictims.RepeatedVersionSteals` | packages/libre-listener-wallet/src/vss-device-lease.ts:71-87 | A concrete run: after a release the version numbers repeat and a waiting acquire replaces a live record |
| `LeaseRuns.TwoDevicesSteal` | packages/libre-listener-wallet/src/vss-device-lease.ts:66-137 | The failing run with two devices, on either kind of store: a heartbeat that a degraded start sent is processed after the device's own delete |
| `DeviceLease.AloneRun` | packages/libre-listener-wallet/src/vss-device-lease.ts:132-141 | A single device never has a delete processed while it claims |
| `LeaseRuns.UndisturbedTakes` | packages/libre-listener-wallet/src/vss-device-lease.ts:66-100 | An undisturbed acquire takes when the record is absent, malformed, its own or expired, and stores the next version |
| `LeaseRuns.UndisturbedRefused` | packages/libre-listener-wallet/src/vss-device-lease.ts:80-83 | It is refused, with the store untouched, when another device's record is unexpired |
| `LeaseRuns.LeaseLastsExactly` | packages/libre-listener-wallet/src/vss-device-lease.ts:66-100 | A device that takes the lease undisturbed keeps a later start of another one out for exactly 120,000 ms |
| `DeviceLease.InvStep` | packages/libre-listener-wallet/src/vss-device-lease.ts:66-141 | Every step keeps what devices and requests in flight know of the store out of date or exact |
| `LeaseVersions.ResyncedRenewalTakesExactly` | packages/libre-listener-wallet/src/vss-device-lease.ts:114-124 | In any run between a resync's read and the arrival of a renewal under the resynced version: with no delete in between the renewal takes exactly when one other write took; after a delete, exactly when as many writes took since it as that version says |
| `LeaseVersions.VersionCountsWrites` | packages/libre-listener-wallet/src/vss-device-lease.ts:85-112 | In every run the stored version is the number of writes since the last delete, on top of the first version before any delete |
| `LeaseRuns.ResyncedRenewalConflicts` | packages/libre-listener-wallet/src/vss-device-lease.ts:114-124 | So a renewal that follows its resync undisturbed conflicts again |
| `DeviceLease.EvaluateDeviceLease` | packages/shared/src/device-lease.ts:34-43 | Blocked exactly for another device's unexpired record; renew exactly for one's own |
| `LeaseObject.VssDeviceLease.AcquireAfterRead` | packages/libre-listener-wallet/src/vss-device-lease.ts:66-86 | No write exactly for another device's unexpired record; otherwise the version read, zero for an absent key, and a record that expires in 120,000 ms |
| `LeaseObject.VssDeviceLease.AcquireAfterWrite` | packages/libre-listener-wallet/src/vss-device-lease.ts:85-99 | The reply decides held, lock error or degraded; the version moves only when the write took |
| `LeaseObject.VssDeviceLease.RenewRequest` | packages/libre-listener-wallet/src/vss-device-lease.ts:108-111 | Its version and a record for another 120,000 ms, which is the request a heartbeat of this device sends in any protocol state; none exactly when stopped |
| `LeaseObject.VssDeviceLease.RenewStored` | packages/libre-listener-wallet/src/vss-device-lease.ts:112-112 | Counts the version up by one, as the protocol's device does |
| `LeaseObject.VssDeviceLease.RenewResync` | packages/libre-listener-wallet/src/vss-device-lease.ts:121-124 | One past the version read, or one past its own when the key is absent |
| `LeaseObject.VssDeviceLease.ReleaseStart` | packages/libre-listener-wallet/src/vss-device-lease.ts:133-135 | Marks the device stopped and nothing else |
| `ChainSync.BestBlocksConsecutive` | packages/libre-listener-wallet/src/esplora-client.ts:356-428 | Over any sequence of calls, aborted ones included, `best_block_updated` sees consecutive ascending heights with no gap and no repeat |
| `ChainSync.EveryBlockSearched` | packages/libre-listener-wallet/src/esplora-client.ts:366-428 | Each block is passed by one call, which reports in it everything then looked for: relevant, registered, and spenders of registered outputs |
| `ChainSync.ReportedSoundly` | packages/libre-listener-wallet/src/esplora-client.ts:308-428 | Whatever a call reports is at its own height, within the blocks passed, and was watched (at or below the start) or looked for in its block |
| `ChainSync.SpenderFoundExactly` | packages/libre-listener-wallet/src/esplora-client.ts:313-400 | Over any calls a spender that nothing else asks for is ever reported if and only if its output was registered when the call that passed its block searched it |
| `ChainSync.LateOutputMissed` | packages/libre-listener-wallet/src/esplora-client.ts:313-400 | The failing run: every fetch succeeds, an output is registered right after the block that creates and spends it, and its spender is never reported |
| `ChainSync.CleanCallReports` | packages/libre-listener-wallet/src/esplora-client.ts:308-428 | A call without a failed fetch reports every transaction it watches at or below its new best height, at that transaction's own height |
| `ChainSync.CatchUpExactly` | packages/libre-listener-wallet/src/esplora-client.ts:308-354 | At or below its start a call reports only confirmed transactions that are relevant with their block unknown, or registered; when no fetch fails, all of them at their heights |
| `ChainSync.ForwardExactly` | packages/libre-listener-wallet/src/esplora-client.ts:366-415 | In each block it passes, a call reports exactly the block's transactions that are relevant, registered or spend a registered output, failed fetches or not |
| `ChainSync.TipReached` | packages/libre-listener-wallet/src/esplora-client.ts:69-78 | A tip d ahead is reached once ceil(d/20) calls have completed; aborted calls in between lose nothing |
| `ChainSync.TipReachedExactly` | packages/libre-listener-wallet/src/esplora-client.ts:69-78 | And not before, when every call completes against that tip |
| `ChainSync.TipApproached` | packages/libre-listener-wallet/src/esplora-client.ts:356-428 | Each completed call is worth twenty blocks until the tip |
| `ChainSync.Sync` | packages/libre-listener-wallet/src/esplora-client.ts:245-430 | One call on any inputs and failures: each transaction once and at its own height, a confirmation above every height told before it, forward progress never beyond the batch, nothing skipped |
| `ChainSync.CatchUp` | packages/libre-listener-wallet/src/esplora-client.ts:308-354 | Buried transactions are confirmed lowest height first; with no failed fetch, all that are registered or relevant with their block unknown |
| `ChainSync.PlanBuriedConfirmations` | packages/libre-listener-wallet/src/esplora-client.ts:49-67 | Groups of strictly ascending heights at or below the best, each holding exactly the transactions of its height in watch order, none missing |
| `ChainSync.ConfirmGroup` | packages/libre-listener-wallet/src/esplora-client.ts:336-353 | Any failed fetch gives up that height alone; otherwise its transactions are confirmed in block order |
| `ChainSync.ForwardBlock` | packages/libre-listener-wallet/src/esplora-client.ts:366-415 | A block's transactions are exactly the active ones confirmed in it; any failed fetch gives the block up |
| `ChainSync.Forward` | packages/libre-listener-wallet/src/esplora-client.ts:358-428 | The loop reports whole blocks up to the batch end, or stops at the first that failed |
| `ChainSync.SortByPosition` | packages/libre-listener-wallet/src/esplora-client.ts:415-415 | The same transactions ordered by position |
| `JitSkim.DecisionsExactly` | packages/libre-lsps2-server/src/intercept.ts:8-22 | In every run a payment is touched exactly when its channel's latest registration names its hash and was not skimmed since; it fails exactly when the fee takes all of it, and is otherwise forwarded with forward + fee = incoming and a positive forward |
| `JitSkim.SkimmedOnce` | packages/libre-lsps2-server/src/intercept.ts:14-21 | Between two skims of a channel it was registered again: no registration is skimmed twice |
| `JitSkim.StoreTellsHistory` | packages/libre-lsps2-server/src/jit-store.ts:18-46 | The store tells of each channel its latest registration and whether it was skimmed since, and nothing else |
| `JitSkim.LowerExactly` | packages/libre-lsps2-server/src/jit-store.ts:21-30 | Lower-casing makes two hashes equal exactly when they differ at most in the case of ASCII letters, and leaves lower-case ones alone |
| `JitSkim.DecideIntercept` | packages/libre-lsps2-server/src/intercept.ts:8-22 | The method decides and updates the store as the run's step does |
| `JitSkim.ComputeOpeningFeeMsat` | packages/libre-lsps2-server/src/fee.ts:11-16 | The least amount that is at least the minimum and, in millionths, at least the proportional part |
| `JitSkim.ForwardedAmountMsat` | packages/libre-lsps2-server/src/fee.ts:20-25 | Refused exactly when the fee takes all; otherwise positive and exact |
| `JitSkim.NetMonotoneExactly` | packages/libre-lsps2-server/src/fee.ts:11-25 | What is left never falls as the payment grows if and only if the rate is at most 1,000,000 ppm |
| `JitSkim.ForwardedNeverFalls` | packages/libre-lsps2-server/src/fee.ts:11-25 | Whatever the rate, a payment larger than a forwarded one is forwarded too, and no less of it |
| `JitSkim.ForwardableExactly` | packages/libre-lsps2-server/src/fee.ts:11-25 | Some payment gets through exactly when the rate is below 1,000,000 ppm |
| `JitSkim.JitStore.Register` | packages/libre-lsps2-server/src/jit-store.ts:21-30 | Replaces the channel's entry with an unskimmed one under the lower-cased hash |
| `JitSkim.JitStore.MarkSkimmed` | packages/libre-lsps2-server/src/jit-store.ts:42-45 | Sets the flag of an existing entry and changes nothing else |
| `Splits.AllocationIsFair` | packages/shared/src/v4v-utils.ts:145-167 | Amounts are non-negative and sum exactly to the payment; each but the last is its floored share, which the last exceeds by less than n, by at most n-1 for a whole payment |
| `Splits.SplitsConserve` | packages/shared/src/v4v-utils.ts:130-191 | Whatever is not refused pays out exactly the amount |
| `Splits.CalculateSplits` | packages/shared/src/v4v-utils.ts:130-191 | Empty, bad amount, bad share and zero total in that order; otherwise every destination gets its amount of the allocation and its own sorted records |
| `Splits.SplitOver` | packages/shared/src/v4v-utils.ts:158-167 | The loop gives all but the last their floored share and the last the remainder |
| `Splits.PartsAddUp` | packages/shared/src/v4v-utils.ts:151-165 | The unrounded parts of any shares add up to the part of their sum |
| `Splits.RoundingLoss` | packages/shared/src/v4v-utils.ts:165-165 | Rounding down loses less than one for each destination and never gains |
| `Splits.EncodeV4VTlvs` | packages/shared/src/v4v-utils.ts:65-125 | Strictly ascending keys; for every key, present or not, the value is that of the last record pushed under it |
| `Splits.RecordsExactly` | packages/shared/src/v4v-utils.ts:75-107 | What each key ends up with: the last extra record that parses to it, else the custom record, else the feed id under 7629175, else the boost under 7629169 |
| `Splits.SplitCarries` | packages/shared/src/v4v-utils.ts:177-182 | The part of a destination carries the boost, the feed id unless it is empty, and the destination's own record on top |
| `Splits.LastValueExactly` | packages/shared/src/v4v-utils.ts:109-113 | The value of a key is that of its last record, and there is none exactly without such a record |
| `Splits.Deduplicate` | packages/shared/src/v4v-utils.ts:109-113 | The map holds exactly the last value of each key |

## Left out

- The node engine (LDK), routing, signing and hashing: abstract parameters or events. Signing and recovery are arbitrary functions.
- JSON, UTF-8, hex and bech32: records are datatypes, strings passed to a codec are byte sequences, an invoice is its prefix and its words.
- Floating point: integers are unbounded, so the division-based varint and the multiplier-based reader are also covered above 2^53, where the original loses digits; splits are computed over real numbers without binary rounding.
- Hash case folding in the fee interceptor covers the ASCII letters.
- The reorganization walk of chain synchronization (esplora-client.ts:261-306) and `transaction_unconfirmed`: blocks are only ever appended. Manager and monitor are one listener, as they always hear the same.
- Position ties: a missing merkle proof counts as position zero; the order of two transactions with the same position is not specified.
- Fee-rate estimates, broadcasting, and the HTTP layer of the block explorer client.
- Liveness of the lease after a renewal conflict: the resynced version is one past the version read. Renewal replies are taken together with the store's answer, so a reply that overtakes another renewal's is not modelled.
- Devices are starts of a wallet, each with a fresh owner id.
- Other storage keys that share IndexedDB with the cache. In `DurablePersist` a monitor write is one request and a flush waits for an interval of requests; `MonitorStore` refines full writes to the cache's index and value requests, while delta writes, whose values live under keys of their own, are not refined.
- Parsing and serializing the stored marks; a malformed stored value.
- Promise objects: a chain of awaits is the stage of a task, and handlers run in any order their promises allow.
- Archiving of monitors, unrecoverable persist statuses, and monitors whose channel the chain monitor has dropped beyond skipping their mark.
- DurablePersist.ManagerJoinsBatch: assumes the manager stays present during the run, as the wallet only drops it when it stops.
- Requests other than payments, `updateConnection`, and two payments of the same invoice: each payment settles or fails once, under its own hash.
- NwcBudget.SpendingCapExactly: the time from reading the clock to handing a payment to the node (`initiationMs`) and how late the 90 s timer may fire (`timerLagMs`) are parameters, since nothing bounds them; a frozen page makes the second one large.
- Between reading the budget and debiting it any other event may happen, which covers the await of `pay_keysend` and is more than `pay_invoice` allows.
- A storage write that throws during an import leaves one of the states a kill leaves; the exception itself is not modelled.
- Backup encryption and the passphrase; the key list of a storage that cannot enumerate omits payment history, as in the original.
- The other protobuf messages (get, put, delete, error): they add fields of the kinds already covered.
- The order in which a JavaScript `Map` or object lists its entries is taken as arbitrary where the result does not depend on it.
- Permission methods, connection limits, roaming policy, user interface, service workers, the mock LSPS1 server and the Android client.
