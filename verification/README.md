# SyncForge replication protocol, modelled and proved

SyncForge keeps an application's records on many devices and one server. A device writes
locally at any time; `Sync` pushes its outbox and pulls everyone else's writes. Every
replica keeps an op log and, per record, the result of folding the ops it received through
`conflict.Resolve`. This project models that protocol end to end and proves what the
application relies on: every replica that received the same writes shows the same record,
whatever order they arrived in, whatever was lost, retried or interrupted, and whatever the
wall clocks read.

## How the model is built

Specification functions on values, the code's loops and objects proved against them, and a
transition system over them whose runs the main theorems are about.

| File | What it holds |
|---|---|
| `Vectors.dfy` | version vectors: the four loops, the pointwise order and its lattice |
| `Hlc.dfy`, `HlcString.dfy` | timestamps, the mutable clock with its wrapping uint32 counter, the sortable string |
| `Oplog.dfy`, `Conflict.dfy` | ops, records, `Resolve`, its fold, and exactly when folds converge |
| `Store.dfy`, `Database.dfy` | the log, records, audit rows and counter as a value, and as the mutable store |
| `Causality.dfy` | the hypotheses under which folds converge, as facts about a history of writes and about one log |
| `Protocol.dfy` | N devices and a server as a labelled transition system; a run is any list of labels |
| `Invariants.dfy`, `Preservation.dfy`, `Safety.dfy` | the inductive invariant and its proof, step by step |
| `Theorems.dfy` | what holds in every reachable state and along every run |
| `ServerRecords.dfy` | the server's own record table, where push handlers interleave between their statements: what it holds in every reachable state |
| `ServerTheorems.dfy` | exactly when that table is right, exactly which saves keep it so, and the server as a replica; each op is folded at most once |
| `ServerRuns.dfy` | three reachable states with a wrong table: an overlap, a delete undone, a cut push |
| `Sync.dfy`, `Rounds.dfy`, `Paging.dfy` | whole pushes, pulls and `Sync` calls; two rounds suffice; pages are the log's suffix |
| `Retries.dfy` | pushes that break off and are sent again: what a retry keeps, and exactly when nothing is lost |
| `Server.dfy`, `Client.dfy` | the server's request handlers and the client SDK as objects |

The steps of the transition system are: a local write; sending the outbox; a handler's
append, its load and its save (three steps, which other handlers and devices may interleave
with); a response reaching the device; fetching a page; applying one row of it; saving its
checkpoint. A label that is not enabled changes nothing. Sending twice is a retry, never
acknowledging is a lost response, fetching again is an abandoned pull, a handler that never
steps again is a lost request or a broken connection, and each clock call takes any int64 as
its wall reading. `past` (the writer's log when an op was written) and `readings` (the wall
readings taken) are history variables; no step's outcome depends on `readings`, and `past`
only serves to demand that a new op's id is fresh.

The hypotheses of the fold theorem are not assumed anywhere: the invariant derives them
from what `applyLocalWrite`, `Clock.Now`, `Clock.Observe`, the outbox order and the
checkpointed pull do together.

Assumptions, all visible in the definitions:

- Generated op ids are fresh, and every device has its own id; the set of devices is fixed
  when a run starts, and a device that has done nothing yet is a newly opened one.
- A device handles one call at a time, and applies a row or makes a local write in one
  step. Its clock lives as long as the run: a client that is closed and opened again starts a
  new clock (`pkg/client/client.go:100`), about which nothing is claimed.
- A run takes fewer than 2^32 clock readings; up to there no logical counter can wrap, which
  is proved. The clock functions themselves wrap as the code does, and
  `TickAdvancesIff` and `ReceiveAdvancesIff` say exactly when that matters.
- Vector counters and sequence numbers are unbounded naturals. In a run of this length no
  vector counter passes 2^32, which is proved, so the uint64 of the code never wraps.
- Payloads are opaque strings. A Go string is a sequence of bytes, one `char` each.
- A pulled row that does not validate stops the pull, as a decoding error does.

## Where the code and its comments differ

- `internal/conflict/conflict.go:14-19` says that pairwise-concurrent writes folded through
  `Resolve` in any order converge. That is false of `Resolve` alone:
  `PairwiseConcurrentMayDiverge` gives three writes and two orders. `SetConvergesIff` gives the
  exact condition for the writes of one set: they converge if and only if the latest of them is
  not covered by the others. Replicas hold parts of the set on the way, and for all parts at
  once the condition is that no write is covered (`ConvergesIffUncovered`). Both are met by
  every op set the protocol produces (`CausalHistoriesConverge` with the invariant).
- `internal/storage/sqlite/oplog.go:21-22` says that for a known id the existing row is
  returned. What is returned is the caller's op with the stored sequence number (lines 32-35).
  `RedeliveredOpIsStored` shows that in every reachable state the two are the same.
- `internal/server/sync.go:13-17` calls a push idempotent and its retries safe. For the log,
  the counter and the sequence numbers that is so (`LogIsExactlyOnce`, `FoldedAtMostOnce`). For
  the record table it is not: a request that breaks off after `AppendOp` and before `PutRecord`
  leaves a row that every retry takes for folded. `CutPushIsNotRepaired` is such a run, and
  `CutIsRepairedIff` says when one device's attempts lose nothing: when a later op of the batch
  on the same record was folded. The last write to a record has none; it is then missing from
  the table until an op whose writer had seen it is saved, from whichever device
  (`MissedIsCountedIff`).
- `internal/hlc/hlc.go:51-52` calls the string form sortable. It is so for physical parts
  from 1970 on; `StringSortsIff` says for which pairs of timestamps it is, over all of int64.
- `internal/hlc/hlc.go:71-73` calls the clock strictly monotonic. It is so exactly when the
  counter does not wrap (`TickAdvancesIff`); when it does, the clock goes back
  (`WrapGoesBack`, and `FullCounterGoesBack` for one such clock).
- `pkg/client/sync.go:19-22` promises that a device agrees with the server. It does with the
  server's log. With the server's record table it does, in any reachable state, if and only if
  the table's record covers every op logged on the record (`TableRightIff`, `ServerAgreesIff`).
  A save loses nothing if and only if the vector it stores dominates that of the record it
  replaces (`SaveAdvancesIff`), and the table is always the fold of the saved ops if and only
  if no save of the run loses anything (`CompleteIffLossless`). The code does not see to that:
  in `OverlapLosesWrite` two devices push at once and one write is gone from the table without
  an audit row, and in `OverwrittenValueReturns` a deleted value comes back.

## Model

| member | source | states |
|---|---|---|
| Vectors.Clone | internal/vector/vector.go:30-36 | for every iteration order, the copy is equal to the original |
| Vectors.Increment | internal/vector/vector.go:39-43 | one node's counter goes up by one, no other counter changes |
| Vectors.Compare | internal/vector/vector.go:46-75 | for every iteration order of both maps, decides the pointwise order with missing = 0: each of the four answers if and only if its definition holds |
| Vectors.Merge | internal/vector/vector.go:80-91 | for every iteration order, the pointwise maximum |
| Vectors.JoinIsLeastUpperBound | internal/vector/vector.go:77-91 | a vector dominates the merge if and only if it dominates both inputs, and the merge dominates both |
| Vectors.JoinIsCommutative | internal/vector/vector.go:77-91 | merge is idempotent, and commutative on counters; as maps when no entry is zero |
| Vectors.JoinIsAssociative | internal/vector/vector.go:77-91 | merge is associative on counters; as maps when no entry is zero |
| Vectors.RelateIsDual | internal/vector/vector.go:15-27 | swapping the arguments of Compare swaps Ancestor and Descendant; a vector is never after or concurrent with a merge of it |
| Vectors.LeqAntisymmetric | internal/vector/vector.go:16-18 | vectors without zero entries that dominate each other are the same map |
| Vectors.BumpAdvances | internal/vector/vector.go:38-43 | an incremented vector is a strict descendant of the one it came from |
| Hlc.CompareTotal | internal/hlc/hlc.go:30-49 | Compare is antisymmetric and 0 only on identical timestamps, so After is trichotomous |
| Hlc.AfterTransitive | internal/hlc/hlc.go:30-49 | After is transitive: with CompareTotal, a strict total order on all timestamps |
| Hlc.LexIsByteOrder | internal/hlc/hlc.go:48 | the node ids' order is byte order: a proper prefix first, else the first place where they differ decides |
| Hlc.CompareIsLexicographic | internal/hlc/hlc.go:30-49 | Compare is negative if and only if the physical part is smaller, or equal with a smaller counter, or both equal with a node id that is smaller in byte order |
| Hlc.TickAdvancesIff | internal/hlc/hlc.go:71-87 | a local event is strictly later than everything before it if and only if the counter does not wrap |
| Hlc.ReceiveAdvancesIff | internal/hlc/hlc.go:89-115 | observing puts the clock strictly after its own past and the observed timestamp if and only if no counter it continues from wraps |
| Hlc.WrapGoesBack | internal/hlc/hlc.go:74-115 | a call that wraps puts the clock back behind a timestamp it has given out or seen |
| Hlc.FullCounterGoesBack | internal/hlc/hlc.go:71-87 | a clock whose counter is full and whose wall reading has not moved on gives out an earlier timestamp |
| Hlc.Clock.Now | internal/hlc/hlc.go:74-87 | the result is the new state: the physical part is the maximum of the wall reading and the old one, the counter restarts at 0 when the wall has moved on and otherwise goes up by one modulo 2^32, and the node id is the clock's own; it is later than the old one if and only if the counter did not wrap |
| Hlc.Clock.Observe | internal/hlc/hlc.go:93-115 | the same for the receive rule: the physical part is the maximum of all three, the counter goes on from the larger of the counters that belong to it and restarts at 0 when the wall alone is ahead |
| HlcString.DigitsSort | internal/hlc/hlc.go:53-55 | zero-padded decimals of one width compare like their numbers |
| HlcString.StringSortsIff | internal/hlc/hlc.go:51-55 | for all int64, uint32 and node ids: the byte order of two strings is the order of the timestamps if and only if the physical parts are a pair that SortsRight admits |
| HlcString.StringIsOrderIsomorphism | internal/hlc/hlc.go:51-55 | for physical parts that are not negative the string order is the timestamp order |
| HlcString.StringIsInjective | internal/hlc/hlc.go:53-55 | different timestamps, negative ones included, have different strings |
| HlcString.StringReads | internal/hlc/hlc.go:53-55 | from 1970 on the string is 19 digits that read as the physical part, a dash, 10 digits that read as the counter, a dash, and the node id |
| HlcString.NegativeReads | internal/hlc/hlc.go:53-55 | before 1970 the first column is a dash and a magnitude that reads as the negated physical part, in 18 digits or, from 10^18 on, in 19 |
| HlcString.StringParts | internal/hlc/hlc.go:53-55 | after that column, whatever it is: a dash, 10 digits that read as the counter, a dash, and the node id |
| Conflict.ResolveWithoutConflict | internal/conflict/conflict.go:54-68 | a new record, and an op whose vector dominates the record's, take the op as it is; an op dominated by the record (or equal) leaves the record and its winner as they are; neither is a conflict |
| Conflict.ResolveConflict | internal/conflict/conflict.go:70-90 | otherwise it is one: the side with the later timestamp is kept field by field, the counters are the maxima of both, and winner and loser are named |
| Conflict.FoldVectorIsJoin | internal/conflict/conflict.go:54-91 | whatever the ops and their order, the record's vector is the join of all vectors and its other fields are those of one of the ops |
| Conflict.LatestIsMaximum | internal/conflict/conflict.go:12-17 | the reference winner is an op of the list whose timestamp no other exceeds |
| Conflict.MaterializeIgnoresOrder | internal/conflict/conflict.go:14-19 | the reference record depends on the set of ops only, not on order or repetition |
| Conflict.SetConvergesIff | internal/conflict/conflict.go:14-19 | for any set of ops with distinct timestamps: all enumerations of exactly that set, in any order and with any repetitions, fold to the latest op under the joint vector if and only if the latest op is not covered by ops with smaller timestamps |
| Conflict.ConvergesIffUncovered | internal/conflict/conflict.go:14-19 | the same for every enumeration of every nonempty part of the set at once: if and only if no op of the set is covered |
| Conflict.PartMayDiverge | internal/conflict/conflict.go:14-19 | four writes that converge in every order though a part of them does not |
| Conflict.CoveredOpIsLost | internal/conflict/conflict.go:59-63 | for any covered op, an order of it and the earlier ops in which the fold goes wrong |
| Conflict.CausalHistoriesConverge | internal/conflict/conflict.go:54-91 | if counting a write means dominating it, and dominating means being later, every fold converges, for any mix of causal and concurrent writes |
| Conflict.SameOpsSameRecord | pkg/client/sync.go:19-22 | two replicas' folds of the same ops are the identical record, vector included |
| Conflict.PairwiseConcurrentMayDiverge | internal/conflict/conflict.go:14-19 | three pairwise-concurrent writes with distinct timestamps on which two orders disagree |
| Conflict.LateClockMayDiverge | internal/hlc/hlc.go:89-92 | a causally later write with a smaller timestamp, as without Observe, makes two orders disagree |
| Store.OutboxMembers | internal/storage/sqlite/oplog.go:132-152 | the outbox holds exactly the device's ops that are not acknowledged |
| Store.OutboxOrder | internal/storage/sqlite/oplog.go:134-152 | what a device logged before an outbox op is acknowledged, foreign, or earlier in the outbox |
| Causality.VectorsAreCausality | internal/vector/vector.go:45-75 | on one record, "p was in the log when q was written", "q's vector counts p" and "p's vector is below q's" are the same, and Compare says which |
| Causality.HistoriesHaveCausalClocks | internal/conflict/conflict.go:54-91 | the ops of any record in a history satisfy every hypothesis of the fold theorem |
| Causality.VectorKnowsLog | internal/vector/vector.go:77-79 | a replica has an op if and only if its record's vector counts the op, though the merged vector is the vector of no single op |
| Causality.DetectionIsExact | internal/conflict/conflict.go:59-90 | a new op whose past is logged is never taken for a stale one, and is flagged if and only if some logged op on the record is causally concurrent with it |
| Causality.ConflictNamesLatest | internal/conflict/conflict.go:70-90 | a flagged op's audit row names the latest of all ops applied so far as winner, and an applied op with a smaller timestamp as loser |
| Causality.DominantWriteWins | internal/conflict/conflict.go:65-68 | a write that saw every other logged write on its record is what the record shows, with its own vector |
| Causality.RecordsOnlyAdvance | internal/conflict/conflict.go:54-91 | on a longer log the record's vector is not smaller and its timestamp not earlier |
| Causality.SameOpsOnRecord | pkg/client/sync.go:19-22 | two causal logs with the same ops on a record fold to the identical record |
| Causality.WriteKeepsHistory | pkg/client/client.go:196-231 | a local write on top of the local record keeps causality, vectors and timestamps in agreement for all ops ever written |
| Preservation.DeviceWrites | pkg/client/client.go:196-231 | a local write keeps the device's whole invariant: causal log, own writes, clock above every op, every record the fold of its ops |
| Preservation.DeviceApplies | pkg/client/sync.go:85-128 | applying a pulled row keeps the device's whole invariant, appends at most that row, and appends nothing for an echoed own op |
| Preservation.DeviceMarks | internal/storage/sqlite/oplog.go:154-173 | marking acknowledged ops changes neither log contents nor records, and only ops the server has are ever marked |
| Safety.OutboxIsBatch | pkg/client/sync.go:48-60 | a push request lists the device's writes so that each op's past is on the server or earlier in the batch |
| Safety.PulledRow | pkg/client/sync.go:85-95 | the row a pull applies next is the server row after the checkpoint and the rows applied, and its whole past is on the device |
| Safety.StepKeepsInv | internal/server/sync.go:31-81 | every step of the system, server statements interleaved, keeps the invariant |
| Safety.ReachableInv | pkg/client/sync.go:15-46 | the invariant holds in every reachable state of any number of devices |
| Theorems.PastIsLogAtWriteTime | pkg/client/client.go:196-231 | an op's recorded past is what its device's log holds before the op |
| Theorems.VectorsCharacteriseCausality | pkg/client/client.go:217 | in every run: dominance of vectors, counting the other's write, and having seen the other are equivalent; Concurrent means neither saw the other |
| Theorems.TimestampsRespectCausality | internal/hlc/hlc.go:71-115 | in every run: what a device had logged when it wrote is earlier, and no two ops anywhere share a timestamp |
| Theorems.ClocksAreBounded | internal/hlc/hlc.go:74-115 | in every run, of every op and of every device's clock: no counter passes the number of clock calls made by all devices, and the physical part is 0 or a reading actually taken, never negative |
| Theorems.NoCallWraps | internal/hlc/hlc.go:74-115 | before the 2^32-th clock call of the whole system neither Now nor Observe can wrap a counter on any device |
| Theorems.StringsSortInRuns | internal/hlc/hlc.go:51-55 | in every run all timestamps sort as strings, whatever the wall clocks read |
| Theorems.WriteCountsAreBounded | internal/vector/vector.go:7-10 | in every run a vector's counter is at most the number of clock calls, so far below the uint64 limit |
| Theorems.RecordIsLatestWrite | internal/conflict/conflict.go:54-103 | in every reachable state a device's record is the latest write in its log under the joint vector |
| Theorems.DevicesConverge | pkg/client/sync.go:19-22 | in every reachable state two devices that applied the same ops on a record hold the identical record |
| Theorems.ValueIsNotOverwritten | internal/conflict/conflict.go:59-90 | the value shown is never one that a write in the device's log has seen and overwritten |
| Theorems.DominantWriteIsShown | pkg/client/client.go:146-161 | a write that saw all others on its record is shown by every device that applied it; such a delete stays deleted |
| Theorems.RecordsNeverGoBack | internal/conflict/conflict.go:54-91 | along every run each device's record only advances, in vector and in timestamp |
| Theorems.ServerLogIsCausal | internal/storage/sqlite/oplog.go:24-72 | in every reachable state the server's sequence numbers are 1, 2, 3, ... and an op's past comes before it |
| Theorems.ServerHasWritePrefixes | internal/server/sync.go:31-81 | the server's ops of one device are a prefix of that device's writes |
| Theorems.SavedPageIsExact | pkg/client/sync.go:72-138 | in every reachable state a device that is not in the middle of a pull holds exactly its own writes and the server log up to its checkpoint |
| Theorems.DeviceLogIsBounded | pkg/client/sync.go:72-138 | at any moment it holds those, and beyond them only rows of the page that comes next |
| Theorems.FetchIsStep | pkg/client/sync.go:78-84 | in every reachable state, whatever is under way, every device can fetch the next 100 rows of the server log, or what there is of them, with their last number and whether more follow; nothing else changes |
| Theorems.WritesAreConserved | internal/storage/sqlite/oplog.go:132-173 | every write is in its device's outbox or on the server, and leaves the outbox exactly when it was acknowledged |
| Theorems.ServerIdsAreUnique | internal/storage/sqlite/oplog.go:21-35 | no op id ever has two server rows |
| Theorems.ServerSeqIsForever | internal/storage/sqlite/oplog.go:15-35 | along every run a server row keeps its place, its op and its sequence number |
| Theorems.RedeliveredStep | internal/server/sync.go:42-48 | in every reachable state, whatever runs in between, a handler that comes to an op the server has moves past it and changes no row, counter, record or audit row |
| Theorems.RedeliveryIsNoOp | internal/server/sync.go:13-17 | redelivering any part of a stored batch changes nothing but the handler itself |
| Theorems.RedeliveredOpIsStored | internal/storage/sqlite/oplog.go:21-35 | an op that arrives under a stored id is the stored op, at the stored number |
| Theorems.LocalWriteFastForwards | pkg/client/client.go:189-195 | on any local record a local write takes the fast-forward branch |
| Theorems.WriteAcceptedIff | internal/oplog/op.go:62-82 | a local put or delete is refused if and only if the op id, the device id, the collection or the record id is empty |
| Theorems.WriteIsStep | pkg/client/client.go:196-231 | in every reachable state, whatever pushes and pulls are under way, every device can write to every record: the write is the record and the last op of the log and of the outbox, its kind, payload and counters are right, its past is the log before it, and nothing else changes |
| Theorems.DeviceDetectsExactly | pkg/client/sync.go:92-127 | applying a new pulled op never takes the stale branch, and adds one audit row if and only if some logged op on its record is causally concurrent with it; the row names the latest of all ops applied by then and an earlier one |
| Theorems.ConflictRowsAreRight | pkg/client/sync.go:109-123 | every audit row a device keeps carries the number of the log row on whose arrival it was added, names that row's op, and names the latest op applied by then and an earlier one |
| ServerRecords.ReachableTable | internal/server/sync.go:42-77 | in every reachable state every record, and every record a handler has loaded, is the fold of ops already saved, and no two handlers hold the same log row |
| ServerTheorems.TableRightIff | internal/server/sync.go:42-58 | in every reachable state and for every record: the table is the fold of the log if and only if the record covers every op logged on it |
| ServerTheorems.SaveRightIff | internal/server/sync.go:49-58 | before a save: it makes the table right on its record if and only if every op logged on it is at or below the loaded vector joined with the op's |
| ServerTheorems.SaveAdvancesIff | internal/server/sync.go:49-58 | a save keeps its record from going back, in vector and timestamp, if and only if the vector it stores dominates that of the record it replaces |
| ServerTheorems.NeverGoesBackIff | internal/server/sync.go:42-58 | along a run from any reachable state the server's records never go back if and only if every save has that property |
| ServerTheorems.CompleteIffLossless | internal/server/sync.go:42-58 | and over whole runs every record is always the fold of the ops saved by then if and only if every save has it |
| ServerTheorems.SerialRunIsLossless | internal/server/sync.go:49-55 | runs in which load-to-save spans on one record do not overlap have it; appends and stalled handlers are not restricted |
| ServerTheorems.QuietRecordIsRight | pkg/client/sync.go:19-22 | after such saves a record that no handler is working on is the fold of its log |
| ServerTheorems.ServerConverges | pkg/client/sync.go:19-22 | and every record equals that of any device that applied the ops saved on it; a stalled handler keeps only its own op out |
| ServerTheorems.ServerAgreesIff | pkg/client/sync.go:19-22 | in any reachable state the server agrees with a device that has its ops on a record if and only if the server's record covers them |
| ServerTheorems.ServerValueIsNotOverwritten | internal/conflict/conflict.go:59-90 | where saves lose nothing, the server's value is never one that a saved write has seen and overwritten |
| ServerTheorems.ServerDominantWriteIsShown | pkg/client/client.go:146-161 | and a saved write that saw all others on its record is what the server shows; such a delete stays deleted |
| ServerTheorems.ServerRecordsNeverGoBack | internal/conflict/conflict.go:54-91 | and every record only advances, in vector and in timestamp |
| ServerTheorems.ServerDetectsExactly | internal/server/sync.go:48-77 | a save that loses nothing adds an audit row if and only if no saved op on the record saw the op and some saved op is causally concurrent with it; the row carries the op's number and names the latest of them and an earlier one |
| ServerTheorems.ServerAuditRowsAreRight | internal/server/sync.go:59-70 | in every run every server audit row was added by a save of the run: it carries the number of the saved op, names it, and names as winner the latest of it and the ops folded into the record that was loaded, as loser an earlier one; where saves lose nothing, the latest of it and all ops saved by then |
| ServerTheorems.AtMostOneHolder | internal/server/sync.go:42-48 | in every reachable state no two handlers hold the same log row |
| ServerTheorems.FoldedAtMostOnce | internal/server/sync.go:13-17 | along every run, however batches are redelivered and handlers interleave, no two saves are for the same log row |
| ServerRuns.OverlapLosesWrite | internal/server/sync.go:42-58 | a reachable state with all handlers finished in which the table shows one of two concurrent writes, the other is neither in the record nor in its vector, and there is no audit row |
| ServerRuns.OverwrittenValueReturns | internal/server/sync.go:42-58 | a run whose last save replaces a delete by the value that the delete had seen and overwritten |
| ServerRuns.CutPushIsNotRepaired | internal/server/sync.go:42-58 | a reachable state after a cut push and an acknowledged retry: the log has the op, the outbox is empty, the device shows it, and the table has no record |
| Causality.CoveredIffSeen | internal/vector/vector.go:77-79 | the joint vector of folded ops covers exactly the writes that were folded or seen by a folded one |
| Causality.CoverMeansFold | internal/conflict/conflict.go:54-91 | some of a record's ops fold to the record of all of them if and only if their joint vector covers all of them |
| Causality.DetectionFor | internal/conflict/conflict.go:59-90 | on a record folded from any of its ops, a new op is dropped as stale if and only if a folded op saw it, and otherwise flagged if and only if a folded op is causally concurrent with it |
| Causality.SkippingIsRightIff | internal/conflict/conflict.go:54-91 | leaving an op out of a fold before a later one gives the same record if and only if the later op's writer had seen it |
| Retries.RetryIsTransparent | internal/server/sync.go:13-17 | a batch cut off anywhere, with any ops logged and not folded, and delivered again up to anywhere leaves the server as the longer delivery that missed the same ops: a retry disturbs nothing and repairs nothing |
| Retries.LogIsExactlyOnce | internal/storage/sqlite/oplog.go:21-35 | whatever was missed, log, counter and sequence numbers are those of one clean delivery |
| Retries.CutIsRepairedIff | internal/server/sync.go:42-58 | from any reachable state one device's cut push and its retries leave the record a clean delivery would leave if and only if every op logged and not folded has a later op of the batch on its record that was folded |
| Retries.DeliverIsRun | internal/server/sync.go:31-81 | every delivery of a device's outbox, whichever of its ops were logged and not folded, is a run of the transition system |
| Retries.CountedAfterSaveIff | internal/server/sync.go:49-58 | in any reachable state a save makes its record take account of a logged write if and only if it is the saved op, the saved op's writer had seen it, or the loaded record took account of it |
| Retries.MissedIsCountedIff | internal/server/sync.go:42-58 | along any run whose saves lose nothing, all devices pushing: a logged write the record has missed counts at the end if and only if the run saved it or an op whose writer had seen it |
| HlcString.NegativeTimesSortBackwards | internal/hlc/hlc.go:51-55 | two times before 1970, one nanosecond apart, whose strings sort the wrong way round |
| Sync.AcceptedAreAll | internal/server/sync.go:28-80 | a batch that is not refused is acknowledged whole and in order, and every op in it was admissible |
| Sync.PageAdvances | pkg/client/sync.go:130-136 | whenever a page is not empty its checkpoint passes at least one row, so the pull loop ends |
| Sync.SyncPushIsRun | pkg/client/sync.go:48-70 | a whole answered push is a run of the transition system |
| Sync.SyncPullIsRun | pkg/client/sync.go:72-138 | a whole pull is a run of the transition system, and it ends at the end of the server log |
| Rounds.PushDelivers | pkg/client/sync.go:48-70 | an answered push leaves the outbox empty and every write of the device on the server |
| Rounds.PullCatchesUp | pkg/client/sync.go:72-138 | a finished pull leaves the whole server log on the device and the checkpoint at its end |
| Rounds.RoundDelivers | test/integration/sync_integration_test.go:140-152 | after one round in any order the server has every write of every device that took part |
| Rounds.TwoRoundsSuffice | test/integration/sync_integration_test.go:140-178 | from any reachable state, any number of devices, any orders: after two rounds without writes the server and every device of the second round, a fresh observer included, hold exactly all writes, and all device records are identical |
| Rounds.EndedPullCatchesUp | pkg/client/sync.go:72-138 | a device that ends a pull during any run holds everything the server had when the run began |
| Rounds.InterleavedRoundsSuffice | test/integration/sync_integration_test.go:140-178 | the same with all calls interleaved, retried, cut or abandoned in any way: once no write waits to be pushed, every device that ends a pull holds exactly all writes, and all their records are identical |
| Rounds.TwoRoundsServerAgrees | test/integration/sync_integration_test.go:173-178 | from any state reached without a lossy save, stalled handlers included: the server's record is then the fold of all writes but those a handler still holds, and where none is held it is the devices' record |
| Rounds.TwoRoundsServerAgreesIff | test/integration/sync_integration_test.go:173-178 | from any reachable state at all: the server's record is then the devices' if and only if it covers every write on it |
| Paging.MatchingIff | internal/storage/sqlite/oplog.go:95-98 | a query selects exactly the log rows that are numbered, numbered after `since`, and in the collection if one is named |
| Paging.PageIsPage | internal/storage/sqlite/oplog.go:85-130 | the page: selected rows in order, at most the limit (100 if none is given), none left out up to its checkpoint, and more announced if and only if some were left out |
| Paging.PageSplits | internal/storage/sqlite/oplog.go:89-130 | a page of an earlier log and what a longer log has after the page's checkpoint make up the longer log's matching rows |
| Paging.PagesLoseNothing | internal/storage/sqlite/oplog.go:85-130 | for any page size and filter, with the log growing between pages: the pages and what is still to come are exactly the matching rows, in order, once each |
| Paging.PagedPullIsSuffix | pkg/client/sync.go:78-137 | when the last page has no more, the pages together are the matching rows of the log |
| Paging.PagesDuringRun | pkg/client/sync.go:78-137 | the same for pages answered at any points of any run from a reachable state |
| Database.DB.constructor | internal/storage/sqlite/db.go:76-80 | a new store is empty and its counter is 1 |
| Database.DB.NextServerSeq | internal/storage/sqlite/oplog.go:74-83 | returns the counter's old value and bumps it |
| Database.DB.AppendOp | internal/storage/sqlite/oplog.go:24-72 | refuses exactly an op with an empty id, device, collection, record or node id, or without payload though no delete, and then changes nothing; for a known id changes nothing and returns the caller's op with the stored number; otherwise appends one unacknowledged row, numbered by the counter where asked, and keeps op ids unique |
| Database.DB.GetRecord | internal/storage/sqlite/records.go:17-30 | what is returned is a record of the key that was asked for, as stored under it |
| Database.DB.PutRecord | internal/storage/sqlite/records.go:32-54 | the record reads back under its key, every other key reads as before, and log, audit rows and counter are untouched |
| Paging.BySeqSorts | internal/storage/sqlite/oplog.go:101 | the ordered rows are the selected rows, in order of their numbers |
| Database.DB.OpsSince | internal/storage/sqlite/oplog.go:89-130 | one page of the log: its rows are exactly selected ones, in order, up to the limit (100 by default), every selected row missing from it is announced by hasMore and lies at or beyond the checkpoint; on a log in number order, the page of the simple suffix |
| Database.DB.UnpushedOps | internal/storage/sqlite/oplog.go:134-152 | the outbox, oldest first |
| Database.DB.MarkPushed | internal/storage/sqlite/oplog.go:156-173 | sets the flag of exactly the rows with the given ids, and changes no other flag, op, number, record or counter |
| Database.DB.CurrentCheckpoint | internal/storage/sqlite/db.go:134-143 | on a densely numbered store: the last row's number, which is the number of rows, 0 if none |
| Server.SyncServer.StoreOp | internal/server/sync.go:42-78 | a known op changes nothing; a new one is one more log row under the next number, its record is what Resolve made of it, every other record stays, and exactly a conflict adds one audit row, with that number |
| Server.SyncServer.HandlePush | internal/server/sync.go:18-94 | accepts a batch if and only if every op is the authenticated device's and well formed, and then acknowledges all ids in order, all of them stored; stops at the first refusal with what came before stored; reports record, winner and loser of exactly the audit rows it added, and the number of log rows |
| Server.SyncServer.CutPush | internal/server/sync.go:42-52 | a request that breaks off inside an op leaves the ops before it handled and that op logged, its record not reached |
| Server.SyncServer.HandlePull | internal/server/sync.go:98-127 | answers with the page OpsSince describes; a row that is not on it is not selected, or lies strictly beyond the checkpoint and is announced |
| Server.StopsAt | internal/server/sync.go:31-40 | a refusal leaves what was stored before it and looks at nothing after it |
| Client.SyncClient.Register | pkg/client/client.go:121-132 | an answered request registers the device for good, a failed one changes nothing |
| Client.SyncClient.ApplyLocalWrite | pkg/client/client.go:196-231 | accepted if and only if no name it needs is empty; then the record and the new last log row show the write (kind, payload, clock, counters one up for the device), other records and the audit rows stay, and the caller gets the view of it; refused, only the clock ticks |
| Client.SyncClient.PutValue | pkg/client/client.go:137-144 | succeeds if and only if no name is empty, on new, existing and deleted records alike; the record then shows the value, otherwise the store is unchanged |
| Client.SyncClient.Delete | pkg/client/client.go:148-151 | succeeds under the same condition; the record then is a tombstone without payload, otherwise the store is unchanged |
| Client.SyncClient.Get | pkg/client/client.go:155-161 | finds a record if and only if it is stored and not deleted, and then returns its own collection, id and payload |
| Client.SyncClient.PendingChanges | pkg/client/client.go:181-187 | the size of the outbox |
| Client.SyncClient.Post | pkg/client/sync.go:62-65 | one delivery attempt, lost, cut between ops or inside one, unanswered or answered, takes the server from the reach of the earlier attempts to the next |
| Client.SyncClient.Push | pkg/client/sync.go:48-70 | for any sequence of attempts: the server's log is as after one delivery as far as they came, and its whole state too if none broke off inside an op, otherwise without exactly the ops that were cut; answered, the outbox is empty; unanswered, the device is unchanged |
| Client.SyncClient.ApplyPulled | pkg/client/sync.go:90-127 | a known op changes nothing but the clock; a new one is one more log row under the server's number, its record is what Resolve made of it, every other record stays, and exactly a conflict adds one audit row, with that number |
| Client.SyncClient.ApplyPage | pkg/client/sync.go:85-128 | applies the rows up to the first that does not decode, counts those that were new and reports exactly the audit rows added |
| Client.SyncClient.Pull | pkg/client/sync.go:72-138 | the loop ends; the device's new state for any number of answered page requests, that of the whole pull if enough are, the number of new ops, and exactly the audit rows added |
| Client.SyncClient.Sync | pkg/client/sync.go:23-46 | an unregistered device is refused with nothing changed; a push never answered leaves the device unchanged and the server where the attempts left it; otherwise both sides' new states, and a result that counts the pushed and pulled ops and reports all new audit rows |

## Left out

- HTTP decoding, status codes, authentication, token hashing, device registration and the status endpoint: plumbing without replicated state; a request arrives as its ops and an authenticated device id.
- SQL, JSON and the wire types of `pkg/api/api.go`: the store is sequences and maps, and a decoded op is the op that was encoded.
- Retry timing and backoff (`pkg/client/retry.go`): a push is given the list of what becomes of its attempts, a pull how many of its page requests are answered.
- Other devices' requests between one client's own requests in `Client.SyncClient.Push`, `Pull` and `Sync`: the server object stands still there; the transition system interleaves them freely, and `Paging.PagesDuringRun`, `Rounds.InterleavedRoundsSuffice` and `Retries.MissedIsCountedIff` are about such runs.
- A request that breaks off between `PutRecord` and `RecordConflict`: a save does both in one step; such a cut loses the audit row of one conflict and nothing else.
- A crash between a device's statements, concurrent calls on one `Client`, and reopening a store with a new clock: the code then guarantees neither that records match the log nor that timestamps respect causality.
- `WithTx` rollback: a storage operation either happens or its request breaks off, so nothing is ever rolled back.
- `List` and `ListRecords`: a filter over the record table.
- Audit timestamps and `ListConflicts`: wall-clock metadata.
- Vectors.Increment: does not model the wrap of a uint64 counter; `Theorems.WriteCountsAreBounded` shows that no run considered here comes near it.
- Client.SyncClient.Push: when an earlier attempt reached the server unanswered, the reported conflicts are only those of the answered attempt, as in the code; the contract then says that they are a final part of the new audit rows.
