/** Push requests that are cut off and sent again (internal/server/sync.go:13-17,42-55).  A
    request that dies between two ops leaves nothing behind; one that dies after an op was
    logged and before its record was saved leaves a row that every retry takes for folded. */
module Retries {
  import opened Wrappers
  import opened Vectors
  import opened Hlc
  import opened Oplog
  import opened Conflict
  import opened Store
  import opened Causality
  import opened Protocol
  import opened Invariants
  import opened Safety
  import opened Theorems
  import opened ServerRecords
  import opened ServerTheorems
  import opened Sync

  /** The server after a batch whose ops at the positions `missed` were logged and not folded. */
  function Deliver(st: Store, ops: seq<Op>, missed: set<nat>): Store {
    if ops == [] then st
    else
      var n := |ops| - 1;
      var before := Deliver(st, ops[..n], missed);
      if n in missed then Append(before, ops[n], 0, true).st else Ingest(before, ops[n], 0, true).st
  }

  lemma DeliverNext(st: Store, ops: seq<Op>, n: nat, missed: set<nat>)
    requires n < |ops|
    ensures Deliver(st, ops[..n + 1], missed) ==
      var before := Deliver(st, ops[..n], missed);
      if n in missed then Append(before, ops[n], 0, true).st else Ingest(before, ops[n], 0, true).st
  {
    assert ops[..n + 1][..n] == ops[..n];
  }

  lemma DeliverNothing(st: Store, ops: seq<Op>, missed: set<nat>)
    requires ops == []
    ensures Deliver(st, ops, missed) == st
  {
  }

  lemma {:induction false} DeliverAgrees(st: Store, ops: seq<Op>, a: set<nat>, b: set<nat>)
    requires forall j :: 0 <= j < |ops| ==> (j in a <==> j in b)
    ensures Deliver(st, ops, a) == Deliver(st, ops, b)
  {
    hide Append, Ingest;
    if ops != [] {
      DeliverAgrees(st, ops[..|ops| - 1], a, b);
    }
  }

  /** A batch the handler goes through whole misses nothing. */
  lemma {:induction false} HandledIsDelivered(st: Store, d: string, ops: seq<Op>)
    requires forall p :: p in ops ==> Admissible(p, d)
    ensures HandleOps(st, d, ops).ok && HandleOps(st, d, ops).st == Deliver(st, ops, {})
  {
    hide Admissible, Ingest, Append;
    if ops != [] {
      Front(ops);
      assert ops[|ops| - 1] in ops;
      HandledIsDelivered(st, d, ops[..|ops| - 1]);
    }
  }

  // ---------------------------------------------------------------- log, counter and numbers

  /** What arriving ops do to the log and the counter does not depend on the records. */
  lemma SameLogAfter(a: Store, b: Store, op: Op)
    requires a.oplog == b.oplog && a.next == b.next
    ensures var x, y, z := Append(a, op, 0, true).st, Ingest(a, op, 0, true).st, Ingest(b, op, 0, true).st;
      x.oplog == y.oplog == z.oplog && x.next == y.next == z.next
  {
    hide Resolve;
  }

  /** Whatever was missed, log, counter and sequence numbers are those of one clean delivery. */
  lemma {:induction false} LogIsExactlyOnce(st: Store, ops: seq<Op>, missed: set<nat>)
    ensures Deliver(st, ops, missed).oplog == Deliver(st, ops, {}).oplog
    ensures Deliver(st, ops, missed).next == Deliver(st, ops, {}).next
  {
    hide Append, Ingest;
    if ops != [] {
      var n := |ops| - 1;
      LogIsExactlyOnce(st, ops[..n], missed);
      SameLogAfter(Deliver(st, ops[..n], missed), Deliver(st, ops[..n], {}), ops[n]);
    }
  }

  lemma StoresId(st: Store, op: Op)
    ensures var a, b := Append(st, op, 0, true).st, Ingest(st, op, 0, true).st;
      forall id ::
        (HasId(a.oplog, id) <==> HasId(st.oplog, id) || id == op.id) && (HasId(b.oplog, id) <==> HasId(a.oplog, id))
  {
    hide Resolve;
    var a := Append(st, op, 0, true).st;
    assert Ingest(st, op, 0, true).st.oplog == a.oplog;
    forall id ensures HasId(a.oplog, id) <==> HasId(st.oplog, id) || id == op.id {
      AppendedId(st, op, id);
    }
  }

  lemma AppendedId(st: Store, op: Op, id: string)
    ensures HasId(Append(st, op, 0, true).st.oplog, id) <==> HasId(st.oplog, id) || id == op.id
  {
    var log := st.oplog + [Row(op, st.next, false)];
    assert log[|st.oplog|].op == op;
    if i :| 0 <= i < |st.oplog| && st.oplog[i].op.id == id {
      assert log[i].op.id == id;
    }
  }

  lemma {:induction false} DeliveredIds(st: Store, ops: seq<Op>, missed: set<nat>)
    ensures forall id ::
      HasId(Deliver(st, ops, missed).oplog, id) <==> HasId(st.oplog, id) || exists p :: p in ops && p.id == id
  {
    hide HasId, Append, Ingest;
    if ops != [] {
      var n := |ops| - 1;
      Front(ops);
      DeliveredIds(st, ops[..n], missed);
      StoresId(Deliver(st, ops[..n], missed), ops[n]);
    }
  }

  // ---------------------------------------------------------------- retries

  /** Ops the server has are passed over. */
  lemma {:induction false} StoredOpsChangeNothing(st: Store, d: string, ops: seq<Op>)
    requires forall p :: p in ops ==> Admissible(p, d) && HasId(st.oplog, p.id)
    ensures HandleOps(st, d, ops).ok && HandleOps(st, d, ops).st == st
  {
    hide Admissible, HasId;
    if ops != [] {
      Front(ops);
      assert ops[|ops| - 1] in ops;
      StoredOpsChangeNothing(st, d, ops[..|ops| - 1]);
    }
  }

  lemma PartIsAdmissible(ops: seq<Op>, d: string, n: nat)
    requires n <= |ops| && forall p :: p in ops ==> Admissible(p, d)
    ensures forall p :: p in ops[..n] ==> Admissible(p, d)
  {
  }

  lemma OldPartChangesNothing(st: Store, d: string, ops: seq<Op>, n: nat, k: nat, missed: set<nat>)
    requires k <= n <= |ops| && forall p :: p in ops ==> Admissible(p, d)
    ensures HandleOps(Deliver(st, ops[..n], missed), d, ops[..k])
      == HandleOps(Deliver(st, ops[..n], missed), d, ops[..k]).(st := Deliver(st, ops[..n], missed), ok := true)
  {
    hide Admissible, HasId, HandleOps, Deliver;
    var once := Deliver(st, ops[..n], missed);
    DeliveredIds(st, ops[..n], missed);
    forall p | p in ops[..k] ensures Admissible(p, d) && HasId(once.oplog, p.id) {
      var i :| 0 <= i < k && ops[i] == p;
      assert ops[..n][i] == p;
    }
    StoredOpsChangeNothing(once, d, ops[..k]);
  }

  /** A batch that came up to n ops, with some of them logged and not folded, and that is
      delivered again up to k ops, leaves the server as the longer delivery would that missed
      the same ops: a retry changes nothing of what came before, and repairs nothing. */
  lemma {:induction false} RetryIsTransparent(st: Store, d: string, ops: seq<Op>, n: nat, k: nat, missed: set<nat>)
    requires n <= |ops| && k <= |ops| && forall p :: p in ops ==> Admissible(p, d)
    requires forall j :: j in missed ==> j < n
    ensures HandleOps(Deliver(st, ops[..n], missed), d, ops[..k]).ok
    ensures HandleOps(Deliver(st, ops[..n], missed), d, ops[..k]).st
      == Deliver(st, ops[..if n >= k then n else k], missed)
  {
    hide Admissible, Ingest, Append, HandleOps, Deliver;
    if k <= n {
      OldPartChangesNothing(st, d, ops, n, k, missed);
    } else {
      RetryIsTransparent(st, d, ops, n, k - 1, missed);
      assert ops[..k] == ops[..k - 1] + [ops[k - 1]] && ops[k - 1] in ops;
      HandleOpsAppend(Deliver(st, ops[..n], missed), d, ops[..k - 1], ops[k - 1]);
      DeliverNext(st, ops, k - 1, missed);
    }
  }

  // ---------------------------------------------------------------- exactly when nothing is lost

  /** The ops on record k that the delivery folded: new to the log and not missed. */
  function FoldedOf(log: seq<Row>, ops: seq<Op>, missed: set<nat>, k: Key): seq<Op> {
    if ops == [] then []
    else
      var n := |ops| - 1;
      FoldedOf(log, ops[..n], missed, k)
      + if n !in missed && KeyOf(ops[n]) == k && !HasId(log, ops[n].id) then [ops[n]] else []
  }

  predicate IsFolded(log: seq<Row>, ops: seq<Op>, missed: set<nat>, k: Key, i: int) {
    0 <= i < |ops| && i !in missed && KeyOf(ops[i]) == k && !HasId(log, ops[i].id)
  }

  lemma {:induction false} FoldedMembers(log: seq<Row>, ops: seq<Op>, missed: set<nat>, k: Key)
    ensures forall p :: p in FoldedOf(log, ops, missed, k) <==>
      exists i :: IsFolded(log, ops, missed, k, i) && ops[i] == p
  {
    hide HasId;
    if ops != [] {
      var n := |ops| - 1;
      var front := ops[..n];
      FoldedMembers(log, front, missed, k);
      forall p
        ensures p in FoldedOf(log, ops, missed, k) <==> exists i :: IsFolded(log, ops, missed, k, i) && ops[i] == p
      {
        if i :| IsFolded(log, front, missed, k, i) && front[i] == p {
          assert IsFolded(log, ops, missed, k, i);
        }
        if i :| IsFolded(log, ops, missed, k, i) && ops[i] == p {
          if i < n {
            assert IsFolded(log, front, missed, k, i) && front[i] == p;
          }
        }
        if p in FoldedOf(log, ops, missed, k) && p !in FoldedOf(log, front, missed, k) {
          assert IsFolded(log, ops, missed, k, n) && ops[n] == p;
        }
      }
    }
  }

  lemma IngestedRecord(st: Store, op: Op, k: Key)
    requires Keyed(st)
    ensures Keyed(Ingest(st, op, 0, true).st)
    ensures Lookup(Ingest(st, op, 0, true).st, k) ==
      if !HasId(st.oplog, op.id) && KeyOf(op) == k then Some(Resolve(Lookup(st, k), op).rec) else Lookup(st, k)
  {
    if !HasId(st.oplog, op.id) {
      var a := Append(st, op, 0, true);
      assert forall j :: Lookup(a.st, j) == Lookup(st, j);
      ResolvedKey(Lookup(st, KeyOf(op)), op);
      SettleIs(a.st, Resolve(Lookup(st, KeyOf(op)), op), op, a.serverSeq);
    }
  }

  lemma ResolvedKey(existing: Option<Record>, op: Op)
    requires existing.Some? ==> KeyOfRecord(existing.value) == KeyOf(op)
    ensures KeyOfRecord(Resolve(existing, op).rec) == KeyOf(op)
  {
  }

  lemma AppendedRecord(st: Store, op: Op, k: Key)
    ensures Lookup(Append(st, op, 0, true).st, k) == Lookup(st, k)
  {
  }

  /** The record after a delivery: the ops folded before, and those the delivery folded. */
  lemma {:induction false} DeliveredRecord(st: Store, ops: seq<Op>, missed: set<nat>, k: Key, cs: seq<Op>)
    requires Keyed(st) && Lookup(st, k) == Fold(cs) && DistinctIds(ops)
    ensures Keyed(Deliver(st, ops, missed))
    ensures Lookup(Deliver(st, ops, missed), k) == Fold(cs + FoldedOf(st.oplog, ops, missed, k))
  {
    hide Append, Ingest, Resolve, Fold, HasId, Lookup;
    if ops == [] {
      assert cs + FoldedOf(st.oplog, ops, missed, k) == cs;
    } else {
      var n := |ops| - 1;
      var before, fs := Deliver(st, ops[..n], missed), FoldedOf(st.oplog, ops[..n], missed, k);
      DeliveredRecord(st, ops[..n], missed, k, cs);
      DeliveredIds(st, ops[..n], missed);
      forall p | p in ops[..n] ensures p.id != ops[n].id {
        var i :| 0 <= i < n && ops[i] == p;
      }
      if n in missed {
        forall j ensures Lookup(Append(before, ops[n], 0, true).st, j) == Lookup(before, j) {
          AppendedRecord(before, ops[n], j);
        }
        assert cs + (fs + []) == cs + fs;
      } else {
        IngestedRecord(before, ops[n], k);
        FoldAppend(cs + fs, ops[n]);
        assert cs + (fs + [ops[n]]) == cs + fs + [ops[n]] && cs + (fs + []) == cs + fs;
      }
    }
  }

  // ---- what an outbox looks like

  lemma {:induction false} OutboxNoRepeats(log: seq<Row>, d: string)
    requires NoRepeats(Ops(log))
    ensures NoRepeats(Outbox(log, d))
  {
    if log != [] {
      var front := log[..|log| - 1];
      assert Ops(front) == Ops(log)[..|log| - 1];
      OutboxNoRepeats(front, d);
      OutboxMembers(front, d);
      forall p | p in Outbox(front, d) ensures p != log[|log| - 1].op {
        var i :| 0 <= i < |front| && front[i].op == p;
        assert Ops(log)[i] == p && Ops(log)[|log| - 1] == log[|log| - 1].op;
      }
    }
  }

  /** Each op of an outbox saw the ones before it. */
  lemma OutboxInOrder(h: Past, log: seq<Row>, d: string, i: nat, j: nat)
    requires NoRepeats(Outbox(log, d)) && OwnLog(h, d, Ops(log)) && i < j < |Outbox(log, d)|
    ensures Outbox(log, d)[j] in h && Outbox(log, d)[i] in h[Outbox(log, d)[j]]
  {
    var m := OutboxOrder(log, d, i);
    var n := OutboxOrder(log, d, j);
    var batch, xs := Outbox(log, d), Ops(log);
    assert xs[m] == batch[i] && xs[n] == batch[j];
    assert batch[j] !in batch[..i] && batch[j] != batch[i];
    assert m < n;
    assert xs[..n][m] == batch[i];
    assert batch[i] in Elements(xs[..n]);
  }

  /** What the retry theorem needs to know of a device's outbox. */
  ghost predicate GoodBatch(h: Past, ops: seq<Op>) {
    && NoRepeats(ops) && (forall p :: p in ops ==> p in h)
    && (forall i, j :: 0 <= i < j < |ops| ==> ops[i] in h[ops[j]])
  }

  lemma OutboxIsGood(w: World, d: string, n: nat)
    requires Reachable(w) && d in w.devices && n <= |Outbox(w.devices[d].st.oplog, d)|
    ensures GoodBatch(w.past, Outbox(w.devices[d].st.oplog, d)[..n])
    ensures DistinctIds(Outbox(w.devices[d].st.oplog, d)[..n])
  {
    hide Reachable, PullInv, ForeignFromServer, Outbox, HandlerInv, Plausible;
    var log, batch := w.devices[d].st.oplog, Outbox(w.devices[d].st.oplog, d);
    DeviceFacts(w, d);
    OutboxNoRepeats(log, d);
    OutboxMembers(log, d);
    forall p | p in batch ensures p in w.past {
      var i :| 0 <= i < |log| && log[i].op == p;
      assert Ops(log)[i] == p;
    }
    forall i, j | 0 <= i < j < n ensures batch[..n][i] in w.past[batch[..n][j]] {
      OutboxInOrder(w.past, log, d, i, j);
    }
    hide DeviceInv;
    GoodIsDistinct(w.past, batch[..n]);
  }

  lemma GoodIsDistinct(h: Past, ops: seq<Op>)
    requires History(h) && GoodBatch(h, ops)
    ensures DistinctIds(ops)
  {
  }

  lemma StoredMeansLogged(h: Past, log: seq<Row>, p: Op)
    requires History(h) && CausalLog(h, Ops(log)) && p in h
    ensures HasId(log, p.id) <==> p in Ops(log)
  {
    HasIdInOps(log, p.id);
  }

  /** A later op of the batch on the same record is new whenever the earlier one is. */
  lemma LaterIsNew(h: Past, log: seq<Row>, ops: seq<Op>, i: nat, j: nat)
    requires History(h) && CausalLog(h, Ops(log)) && GoodBatch(h, ops) && j < i < |ops|
    requires !HasId(log, ops[j].id)
    ensures !HasId(log, ops[i].id)
  {
    StoredMeansLogged(h, log, ops[i]);
    StoredMeansLogged(h, log, ops[j]);
    if ops[i] in Ops(log) {
      PastIsLogged(h, Ops(log), ops[i], ops[j]);
    }
  }

  /** The op at j is taken care of: a later one on its record was folded. */
  predicate Repaired(ops: seq<Op>, missed: set<nat>, j: nat) {
    j < |ops| && exists i :: j < i < |ops| && i !in missed && KeyOf(ops[i]) == KeyOf(ops[j])
  }

  lemma UnloggedIsUnseen(h: Past, xs: seq<Op>, r: Op, p: Op)
    requires CausalLog(h, xs) && r in xs && r in h && p !in xs
    ensures p != r && p !in h[r]
  {
    if p in h[r] { PastIsLogged(h, xs, r, p); }
  }

  lemma LaterSaw(h: Past, ops: seq<Op>, i: nat, j: nat)
    requires History(h) && GoodBatch(h, ops) && i < |ops| && j < |ops|
    ensures ops[i] in h && ops[j] in h
    ensures ops[j] == ops[i] || ops[j] in h[ops[i]] <==> j <= i
  {
    assert ops[i] in ops && ops[j] in ops;
    if i < j {
      PastIsIrreflexive(h, ops[i], ops[j]);
    }
  }

  /** A missed op is seen by what was folded exactly when a later op of the batch on its
      record was folded. */
  lemma MissedSeenIff(h: Past, log: seq<Row>, ops: seq<Op>, missed: set<nat>, j: nat, cs: seq<Op>)
    requires History(h) && CausalLog(h, Ops(log)) && GoodBatch(h, ops)
    requires j in missed && j < |ops| && !HasId(log, ops[j].id)
    requires forall p :: p in cs ==> p in Ops(log)
    ensures Seen(h, cs + FoldedOf(log, ops, missed, KeyOf(ops[j])), ops[j]) <==> Repaired(ops, missed, j)
  {
    hide History, CausalLog, HasId, GoodBatch, Ops, FoldedOf;
    var k, p := KeyOf(ops[j]), ops[j];
    var fs := FoldedOf(log, ops, missed, k);
    FoldedMembers(log, ops, missed, k);
    LaterSaw(h, ops, j, j);
    StoredMeansLogged(h, log, p);
    forall r | r in cs && r in h ensures p != r && p !in h[r] {
      UnloggedIsUnseen(h, Ops(log), r, p);
    }
    forall i | IsFolded(log, ops, missed, k, i) ensures ops[i] in h && (p == ops[i] || p in h[ops[i]] <==> j < i) {
      LaterSaw(h, ops, i, j);
    }
    forall i | j < i < |ops| && i !in missed && KeyOf(ops[i]) == k ensures IsFolded(log, ops, missed, k, i) {
      LaterIsNew(h, log, ops, i, j);
    }
    assert Seen(h, cs + fs, p) <==> exists r :: r in fs && r in h && (p == r || p in h[r]);
  }

  lemma ServerIsKeyed(w: World)
    requires TableInv(w)
    ensures Keyed(w.server)
  {
    hide Fold, IsSaved;
    forall k | Lookup(w.server, k).Some? ensures KeyOfRecord(Lookup(w.server, k).value) == k {
      var cs :| FoldOfSaved(w, k, Lookup(w.server, k), cs);
      FoldKey(cs, k);
    }
  }

  /** One device's cut push and its retries leave the record a clean delivery would leave if and
      only if every op that was logged and not folded has a later op of the batch on its record
      that was folded.  For the last write to a record there is none: it is then missing until
      an op that saw it is saved (MissedIsCountedIff). */
  lemma CutIsRepairedIff(w: World, d: string, n: nat, missed: set<nat>, k: Key)
    requires Reachable(w) && d in w.devices && n <= |Outbox(w.devices[d].st.oplog, d)|
    requires forall j :: j in missed ==> j < n && !HasId(w.server.oplog, Outbox(w.devices[d].st.oplog, d)[j].id)
    ensures var ops := Outbox(w.devices[d].st.oplog, d)[..n];
      (Lookup(Deliver(w.server, ops, missed), k) == Lookup(Deliver(w.server, ops, {}), k)
       <==> forall j :: j in missed && KeyOf(ops[j]) == k ==> Repaired(ops, missed, j))
  {
    hide Reachable, Inv, History, CausalLog, Outbox, HasId, GoodBatch, DistinctIds, Deliver, Fold, FromSaved, IsSaved,
      FoldedOf, Seen, Repaired, HeldOnce, Ops;
    var ops, log := Outbox(w.devices[d].st.oplog, d)[..n], w.server.oplog;
    ReachableTable(w);
    ServerHistory(w);
    OutboxIsGood(w, d, n);
    ServerIsKeyed(w);
    assert FromSaved(w, k, Lookup(w.server, k));
    BatchFoldsIff(w, ops, missed, k);
  }

  lemma BatchFoldsIff(w: World, ops: seq<Op>, missed: set<nat>, k: Key)
    requires History(w.past) && CausalLog(w.past, ServerLog(w))
    requires GoodBatch(w.past, ops) && DistinctIds(ops)
    requires Keyed(w.server) && FromSaved(w, k, Lookup(w.server, k))
    requires forall j :: j in missed ==> j < |ops| && !HasId(w.server.oplog, ops[j].id)
    ensures (Lookup(Deliver(w.server, ops, missed), k) == Lookup(Deliver(w.server, ops, {}), k)
      <==> forall j :: j in missed && KeyOf(ops[j]) == k ==> Repaired(ops, missed, j))
  {
    hide History, CausalLog, HasId, Deliver, Fold, IsSaved, FoldedOf, Seen, Repaired, DistinctIds, Keyed, Lookup, Ops;
    var h, log := w.past, w.server.oplog;
    var cs :| FoldOfSaved(w, k, Lookup(w.server, k), cs);
    SavedAreKnown(h, w, cs, k);
    DeliveredRecord(w.server, ops, missed, k, cs);
    DeliveredRecord(w.server, ops, {}, k, cs);
    var some, all := cs + FoldedOf(log, ops, missed, k), cs + FoldedOf(log, ops, {}, k);
    FoldedMembers(log, ops, missed, k);
    FoldedMembers(log, ops, {}, k);
    forall p | p in some ensures p in all {
      if i :| IsFolded(log, ops, missed, k, i) && ops[i] == p {
        assert IsFolded(log, ops, {}, k, i);
      }
    }
    AllKnown(h, ops, log, k, cs);
    SomeFoldIff(h, log, ops, missed, k, cs, some, all);
  }

  lemma AllKnown(h: Past, ops: seq<Op>, log: seq<Row>, k: Key, cs: seq<Op>)
    requires GoodBatch(h, ops) && OpsOn(h, cs, k)
    ensures OpsOn(h, cs + FoldedOf(log, ops, {}, k), k)
  {
    hide HasId, FoldedOf;
    FoldedMembers(log, ops, {}, k);
  }

  lemma SomeFoldIff(h: Past, log: seq<Row>, ops: seq<Op>, missed: set<nat>, k: Key, cs: seq<Op>, some: seq<Op>,
      all: seq<Op>)
    requires History(h) && CausalLog(h, Ops(log)) && GoodBatch(h, ops)
    requires forall j :: j in missed ==> j < |ops| && !HasId(log, ops[j].id)
    requires forall p :: p in cs ==> p in Ops(log)
    requires some == cs + FoldedOf(log, ops, missed, k) && all == cs + FoldedOf(log, ops, {}, k)
    requires OpsOn(h, all, k) && forall p :: p in some ==> p in all
    ensures Fold(some) == Fold(all) <==> (forall j :: j in missed && KeyOf(ops[j]) == k ==> Repaired(ops, missed, j))
  {
    hide History, CausalLog, HasId, Fold, FoldedOf, Seen, Repaired, Leq, JoinAll, Ops, GoodBatch;
    CoverMeansFold(h, some, all, k);
    FoldedMembers(log, ops, missed, k);
    FoldedMembers(log, ops, {}, k);
    forall p | p in all ensures (some != [] && Leq(p.vv, JoinAll(some))) <==> Seen(h, some, p) {
      CoveredIffSeen(h, some, k, p);
      SeenInNothing(h, some, p);
    }
    forall j | j in missed && KeyOf(ops[j]) == k ensures Seen(h, some, ops[j]) <==> Repaired(ops, missed, j) {
      MissedSeenIff(h, log, ops, missed, j, cs);
    }
    forall j | j in missed && KeyOf(ops[j]) == k ensures ops[j] in all {
      assert IsFolded(log, ops, {}, k, j);
    }
    forall p | p in all && p !in some ensures exists j :: j in missed && KeyOf(ops[j]) == k && ops[j] == p {
      var i :| IsFolded(log, ops, {}, k, i) && ops[i] == p;
      assert !IsFolded(log, ops, missed, k, i);
    }
    forall p | p in some ensures Seen(h, some, p) {
      SeenItself(h, some, p);
    }
  }

  lemma SeenInNothing(h: Past, cs: seq<Op>, p: Op)
    ensures Seen(h, cs, p) ==> cs != []
  {
  }

  lemma SeenItself(h: Past, cs: seq<Op>, p: Op)
    requires p in cs && p in h
    ensures Seen(h, cs, p)
  {
  }

  // ---------------------------------------------------------------- deliveries are runs

  lemma SendIs(w: World, d: string)
    requires d in w.devices && Outbox(w.devices[d].st.oplog, d) != []
    ensures Step(w, Send(d)) == w.(
      handlers := w.handlers + [Handler(d, Outbox(w.devices[d].st.oplog, d), 0, Ready)])
  {
  }

  /** A request that goes over n ops the server has and then logs the next one and dies, or
      handles it. */
  function OneMore(h: nat, n: nat, miss: bool): seq<Label> {
    HandleMany(h, n) + if miss then [AppendNext(h)] else HandleOne(h)
  }

  lemma AppendNextIs(w: World, h: nat) returns (hd: Handler)
    requires Working(w, h) && w.handlers[h].stage.Ready? && Admissible(Current(w, h), w.handlers[h].deviceId)
    ensures Step(w, AppendNext(h)) == w.(
      server := Append(w.server, Current(w, h), 0, true).st, handlers := w.handlers[h := hd])
  {
    hide HasId, SeqOf, Admissible;
    hd := Step(w, AppendNext(h)).handlers[h];
  }

  lemma OneMoreIs(w: World, h: nat, n: nat, miss: bool) returns (hd: Handler)
    requires h < |w.handlers| && w.handlers[h].stage.Ready? && w.handlers[h].done == 0
    requires n < |w.handlers[h].batch| && forall p :: p in w.handlers[h].batch ==> Admissible(p, w.handlers[h].deviceId)
    requires HandleOps(w.server, w.handlers[h].deviceId, w.handlers[h].batch[..n]).st == w.server
    ensures var op := w.handlers[h].batch[n];
      Run(w, OneMore(h, n, miss)) == w.(
        server := if miss then Append(w.server, op, 0, true).st else Ingest(w.server, op, 0, true).st,
        handlers := w.handlers[h := hd])
  {
    hide Step, Admissible, HandleOps, Ingest, Append, Run;
    var mid := Run(w, HandleMany(h, n));
    HandleManyIs(w, h, n);
    RunConcat(w, HandleMany(h, n), if miss then [AppendNext(h)] else HandleOne(h));
    assert Current(mid, h) == w.handlers[h].batch[n] && Current(mid, h) in w.handlers[h].batch;
    if miss {
      RunOne(mid, AppendNext(h));
      hd := AppendNextIs(mid, h);
    } else {
      HandleOneIs(mid, h);
      hd := w.handlers[h].(done := n + 1);
    }
  }

  /** Every delivery of a device's outbox, whichever ops it missed, is a run of the system:
      requests that break off inside an op, and retries. */
  lemma {:induction false} DeliverIsRun(w: World, d: string, n: nat, missed: set<nat>)
    returns (run: seq<Label>, hs: seq<Handler>)
    requires d in w.devices && n <= |Outbox(w.devices[d].st.oplog, d)|
    requires forall p :: p in Outbox(w.devices[d].st.oplog, d) ==> Admissible(p, d)
    ensures Run(w, run) == w.(
      server := Deliver(w.server, Outbox(w.devices[d].st.oplog, d)[..n], missed), handlers := w.handlers + hs)
  {
    hide Step, Admissible, HandleOps, Ingest, Append, Run, Outbox, Deliver;
    var batch := Outbox(w.devices[d].st.oplog, d);
    if n == 0 {
      run, hs := [], [];
      RunNone(w);
      DeliverNothing(w.server, batch[..0], missed);
      assert w.handlers + [] == w.handlers;
    } else {
      var run0, hs0 := DeliverIsRun(w, d, n - 1, missed);
      var w1 := Run(w, run0);
      var h := |w1.handlers|;
      var w2 := Step(w1, Send(d));
      SendIs(w1, d);
      OldPartChangesNothing(w.server, d, batch, n - 1, n - 1, missed);
      var hd := OneMoreIs(w2, h, n - 1, n - 1 in missed);
      DeliverNext(w.server, batch, n - 1, missed);
      RunOne(w1, Send(d));
      RunConcat(w, run0, [Send(d)]);
      RunConcat(w, run0 + [Send(d)], OneMore(h, n - 1, n - 1 in missed));
      run := run0 + [Send(d)] + OneMore(h, n - 1, n - 1 in missed);
      hs := hs0 + [hd];
      assert (w1.handlers + [Handler(d, batch, 0, Ready)])[h := hd] == w.handlers + hs;
    }
  }

  // ---------------------------------------------------------------- when a missed write counts again

  /** After a save, in any reachable state, the record takes account of a logged write exactly
      when it is the saved op, the saved op's writer had seen it, or the record that was loaded
      took account of it. */
  lemma CountedAfterSaveIff(w: World, h: nat, p: Op)
    requires Reachable(w) && SaveEnabled(w, h) && p in ServerLog(w) && KeyOf(p) == KeyOf(Current(w, h))
    ensures Current(w, h) in w.past
    ensures var q := Current(w, h);
      (Covers(Lookup(Step(w, SaveNext(h)).server, KeyOf(q)), p)
       <==> p == q || p in w.past[q] || Covers(w.handlers[h].stage.existing, p))
  {
    hide Reachable, Inv, TableInv, History, CausalLog, StepSave, Leq, JoinAll, Join, Fold, FromSaved, IsSaved, Ops,
      Covers;
    var q, s := Current(w, h), w.handlers[h].stage;
    ReachableTable(w);
    ServerHistory(w);
    StepIsSave(w, h);
    SaveIs(w, h);
    SaveCovers(w, h, p);
    StoredIs(w, h);
    LoggedIsKnown(w.past, ServerLog(w), p);
    LoggedIsKnown(w.past, ServerLog(w), q);
    LoadedIsFromSaved(w, h);
    JoinedWith(w, q, s.existing, p);
  }

  lemma LoadedIsFromSaved(w: World, h: nat)
    requires TableInv(w) && SaveEnabled(w, h)
    ensures FromSaved(w, KeyOf(Current(w, h)), w.handlers[h].stage.existing)
  {
    hide FromSaved;
    assert LoadedFromSaved(w, w.handlers[h]);
  }

  lemma JoinedWith(w: World, q: Op, existing: Option<Record>, p: Op)
    requires History(w.past) && CausalLog(w.past, ServerLog(w)) && FromSaved(w, KeyOf(q), existing)
    requires p in w.past && q in w.past && KeyOf(p) == KeyOf(q)
    ensures Leq(p.vv, Join(RecordVector(existing), q.vv)) <==> (p == q || p in w.past[q] || Covers(existing, p))
  {
    hide History, CausalLog, IsSaved, JoinAll, Join, Fold, Leq;
    var h, k := w.past, KeyOf(q);
    var cs :| FoldOfSaved(w, k, existing, cs);
    SavedAreKnown(h, w, cs, k);
    FoldVector(h, cs, k);
    JoinNext(cs, q);
    assert q in cs + [q] && forall r :: r in cs ==> r in cs + [q];
    CoveredIffSeen(h, cs, k, p);
    CoveredIffSeen(h, cs + [q], k, p);
    SeenInNothing(h, cs, p);
    SeenByOneMore(h, cs, q, p);
  }

  lemma SeenByOneMore(h: Past, cs: seq<Op>, q: Op, p: Op)
    requires q in h
    ensures Seen(h, cs + [q], p) <==> (Seen(h, cs, p) || p == q || p in h[q])
  {
    assert q in cs + [q] && forall r :: r in cs ==> r in cs + [q];
  }

  /** The step saves p itself or an op whose writer had seen it. */
  ghost predicate CountsAt(w: World, l: Label, p: Op) {
    l.SaveNext? && SaveEnabled(w, l.h) && KeyOf(Current(w, l.h)) == KeyOf(p)
    && (p == Current(w, l.h) || (Current(w, l.h) in w.past && p in w.past[Current(w, l.h)]))
  }

  ghost predicate CountsDuring(w: World, run: seq<Label>, p: Op) {
    run != [] &&
      (CountsDuring(w, run[..|run| - 1], p) || CountsAt(Run(w, run[..|run| - 1]), run[|run| - 1], p))
  }

  predicate LoadedWithout(hd: Handler, p: Op) {
    BetweenLoadAndSave(hd, KeyOf(p)) ==> !Covers(hd.stage.existing, p)
  }

  /** Neither the record nor any loaded copy of it takes account of p. */
  ghost predicate Uncounted(w: World, p: Op) {
    && !Covers(Lookup(w.server, KeyOf(p)), p)
    && forall i :: 0 <= i < |w.handlers| ==> LoadedWithout(w.handlers[i], p)
  }

  lemma SameUncounted(w: World, w': World, p: Op)
    requires Uncounted(w, p) && Lookup(w'.server, KeyOf(p)) == Lookup(w.server, KeyOf(p))
    requires |w.handlers| <= |w'.handlers|
    requires forall i :: 0 <= i < |w'.handlers| ==>
      (i < |w.handlers| && w'.handlers[i] == w.handlers[i]) || LoadedWithout(w'.handlers[i], p)
    ensures Uncounted(w', p)
  {
  }

  lemma StepKeepsUncounted(w: World, l: Label, p: Op)
    requires Reachable(w) && p in ServerLog(w) && Uncounted(w, p) && !CountsAt(w, l, p)
    ensures Uncounted(Step(w, l), p)
  {
    hide Reachable, Inv, TableInv, Step, Lookup, Covers, Ops, Resolve, LoadedWithout;
    var w' := Step(w, l);
    if l.SaveNext? && SaveEnabled(w, l.h) {
      ReachableTable(w);
      SaveIs(w, l.h);
      StepIsSave(w, l.h);
      ReadyLoadsNothing(w'.handlers[l.h], p);
      if KeyOf(Current(w, l.h)) == KeyOf(p) {
        CountedAfterSaveIff(w, l.h, p);
        LoadedHere(w, l.h, p);
        assert forall i :: 0 <= i < |w.handlers| && i != l.h ==> w'.handlers[i] == w.handlers[i];
      } else {
        SameUncounted(w, w', p);
      }
    } else {
      OtherStepsKeepRecords(w, l);
      if l.AppendNext? || l.LoadNext? || l.SaveNext? {
        HandlerStep(w, l);
        LoadsUncounted(w, l, p);
      } else {
        QuietStep(w, l);
        forall i | |w.handlers| <= i < |w'.handlers| ensures LoadedWithout(w'.handlers[i], p) {
          ReadyLoadsNothing(w'.handlers[i], p);
        }
      }
      SameUncounted(w, w', p);
    }
  }

  lemma ReadyLoadsNothing(hd: Handler, p: Op)
    requires hd.stage.Ready?
    ensures LoadedWithout(hd, p)
  {
  }

  lemma LoadedHere(w: World, h: nat, p: Op)
    requires SaveEnabled(w, h) && KeyOf(Current(w, h)) == KeyOf(p) && LoadedWithout(w.handlers[h], p)
    ensures !Covers(w.handlers[h].stage.existing, p)
  {
    assert BetweenLoadAndSave(w.handlers[h], KeyOf(p));
  }

  /** What a handler has in hand after a step that is not its save. */
  lemma LoadsUncounted(w: World, l: Label, p: Op)
    requires Uncounted(w, p) && (l.AppendNext? || l.LoadNext? || (l.SaveNext? && !SaveEnabled(w, l.h)))
    ensures |Step(w, l).handlers| == |w.handlers|
    ensures l.h < |w.handlers| ==> LoadedWithout(Step(w, l).handlers[l.h], p)
  {
    hide HasId, SeqOf, Admissible, Lookup, Covers;
    assert l.h < |w.handlers| ==> LoadedWithout(w.handlers[l.h], p);
  }

  lemma AdvanceKeepsCover(r: Option<Record>, s: Option<Record>, p: Op)
    requires Advances(r, s) && Covers(r, p)
    ensures Covers(s, p)
  {
    LeqTransitive(p.vv, r.value.vv, s.value.vv);
  }

  lemma LoggedStays(w: World, run: seq<Label>, p: Op)
    requires p in ServerLog(w)
    ensures p in ServerLog(Run(w, run))
  {
    hide Run;
    RunExtends(w, run);
    OpsPrefix(w.server.oplog, Run(w, run).server.oplog);
  }

  lemma StepCountsIff(w: World, l: Label, p: Op)
    requires Reachable(w) && p in ServerLog(w) && Uncounted(w, p)
    ensures Covers(Lookup(Step(w, l).server, KeyOf(p)), p) <==> CountsAt(w, l, p)
    ensures !CountsAt(w, l, p) ==> Uncounted(Step(w, l), p)
  {
    hide Reachable, Step, Lookup, Covers, Ops;
    if CountsAt(w, l, p) {
      CountedAfterSaveIff(w, l.h, p);
    } else {
      StepKeepsUncounted(w, l, p);
    }
  }

  /** A logged write that neither the record nor any loaded copy takes account of, along a run
      whose saves lose nothing: it counts at the end if and only if the run saved it or an op
      whose writer had seen it, whichever device pushed that op. */
  lemma {:induction false} MissedIsCountedIff(w: World, run: seq<Label>, p: Op)
    requires Reachable(w) && LosslessRun(w, run) && |Run(w, run).readings| <= MAX_LOGICAL
    requires p in ServerLog(w) && Uncounted(w, p)
    ensures Covers(Lookup(Run(w, run).server, KeyOf(p)), p) <==> CountsDuring(w, run, p)
    ensures !CountsDuring(w, run, p) ==> Uncounted(Run(w, run), p)
  {
    hide Reachable, Step, Lookup, Covers, Ops, CountsAt, LosslessStep, Uncounted;
    if run == [] {
      UncountedNow(w, p);
    } else {
      var front, l := run[..|run| - 1], run[|run| - 1];
      var mid := Run(w, front);
      ReadingsGrow(mid, l);
      MissedIsCountedIff(w, front, p);
      ReachableRun(w, front);
      LoggedStays(w, front, p);
      if CountsDuring(w, front, p) {
        StepAdvancesIff(mid, l);
        AdvanceKeepsCover(Lookup(mid.server, KeyOf(p)), Lookup(Step(mid, l).server, KeyOf(p)), p);
      } else {
        StepCountsIff(mid, l, p);
      }
    }
  }

  lemma UncountedNow(w: World, p: Op)
    requires Uncounted(w, p)
    ensures !Covers(Lookup(w.server, KeyOf(p)), p)
  {
  }
}
