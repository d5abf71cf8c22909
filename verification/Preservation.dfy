/** Every step keeps the invariant. */
module Preservation {
  import opened Wrappers
  import opened Vectors
  import opened Hlc
  import opened Oplog
  import opened Conflict
  import opened Store
  import opened Causality
  import opened Protocol
  import opened Invariants

  // ---------------------------------------------------------------- records and conflicts

  /** Appending an op and storing its resolution keeps every record the fold of its ops. */
  lemma PutMatches(st: Store, row: Row)
    requires RecordsMatch(st)
    ensures var d := Resolve(Lookup(st, KeyOf(row.op)), row.op);
      && d.rec == Fold(OnKey(Ops(st.oplog) + [row.op], KeyOf(row.op))).value
      && RecordsMatch(Put(st.(oplog := st.oplog + [row]), d.rec))
  {
    hide Fold, Resolve, Ops, OnKey;
    var xs, k := Ops(st.oplog), KeyOf(row.op);
    var d := Resolve(Lookup(st, k), row.op);
    var st' := Put(st.(oplog := st.oplog + [row]), d.rec);
    OpsAppend(st.oplog, row);
    FoldAppend(OnKey(xs, k), row.op);
    OnKeyAppend(xs, row.op, k);
    OnKeyMembers(xs + [row.op], k);
    FoldKey(OnKey(xs, k) + [row.op], k);
    forall j ensures Lookup(st', j) == Fold(OnKey(Ops(st'.oplog), j)) {
      OnKeyAppend(xs, row.op, j);
      assert Lookup(st, j) == Fold(OnKey(xs, j));
    }
  }

  lemma FoundInLonger(c: ConflictRow, log: seq<Row>, longer: seq<Row>, n: nat)
    requires FoundAt(c, log, n) && log <= longer
    ensures FoundAt(c, longer, n)
  {
    assert Ops(longer)[..n] == Ops(log)[..n];
  }

  lemma ConflictsStayRight(st: Store, row: Row)
    requires ConflictsRight(st)
    ensures ConflictsRight(st.(oplog := st.oplog + [row]))
  {
    hide FoundAt;
    var st' := st.(oplog := st.oplog + [row]);
    forall c | c in st'.conflicts ensures exists n :: FoundAt(c, st'.oplog, n) {
      var n :| FoundAt(c, st.oplog, n);
      FoundInLonger(c, st.oplog, st'.oplog, n);
    }
  }

  lemma AuditRowKept(st: Store, d: Decision, op: Op, serverSeq: nat)
    requires ConflictsRight(st)
    requires d.conflicted ==> FoundAt(AuditRow(d, op, serverSeq), st.oplog, |st.oplog|)
    ensures ConflictsRight(Settle(st, d, op, serverSeq))
  {
    hide FoundAt;
    var st' := Settle(st, d, op, serverSeq);
    forall c | c in st'.conflicts ensures exists n :: FoundAt(c, st'.oplog, n) {
      if c in st.conflicts {
        var n :| FoundAt(c, st.oplog, n);
      } else {
        assert c == AuditRow(d, op, serverSeq);
      }
    }
  }

  lemma FoundNow(h: Past, st: Store, row: Row)
    requires History(h) && CausalLog(h, Ops(st.oplog)) && Deliverable(h, Ops(st.oplog), row.op)
    requires Resolve(Fold(OnKey(Ops(st.oplog), KeyOf(row.op))), row.op).conflicted
    ensures var d := Resolve(Fold(OnKey(Ops(st.oplog), KeyOf(row.op))), row.op);
      FoundAt(AuditRow(d, row.op, row.serverSeq), st.oplog + [row], |st.oplog| + 1)
  {
    hide History, CausalLog, Deliverable, Resolve, Fold, OnKey, RowIsRight;
    ConflictNamesLatest(h, Ops(st.oplog), row.op, row.serverSeq);
    OpsAppend(st.oplog, row);
    assert Ops(st.oplog + [row])[..|st.oplog| + 1] == Ops(st.oplog) + [row.op];
  }

  lemma MatchesOn(st: Store, k: Key)
    requires RecordsMatch(st)
    ensures Lookup(st, k) == Fold(OnKey(Ops(st.oplog), k))
  {
  }

  /** The same, with the audit row, for an op that arrives with its past logged. */
  lemma SettleKeepsConflicts(h: Past, st: Store, row: Row)
    requires History(h) && CausalLog(h, Ops(st.oplog)) && Deliverable(h, Ops(st.oplog), row.op)
    requires RecordsMatch(st) && ConflictsRight(st)
    ensures var logged := st.(oplog := st.oplog + [row]);
      ConflictsRight(Settle(logged, Resolve(Lookup(st, KeyOf(row.op)), row.op), row.op, row.serverSeq))
  {
    var op := row.op;
    var logged := st.(oplog := st.oplog + [row]);
    hide History, CausalLog, Deliverable, Resolve, Fold, OnKey, RecordsMatch, ConflictsRight, FoundAt, Lookup, Settle;
    MatchesOn(st, KeyOf(op));
    ConflictsStayRight(st, row);
    if Resolve(Fold(OnKey(Ops(st.oplog), KeyOf(op))), op).conflicted {
      FoundNow(h, st, row);
    }
    AuditRowKept(logged, Resolve(Lookup(st, KeyOf(op)), op), op, row.serverSeq);
  }

  // ---------------------------------------------------------------- a device, when others move

  lemma DeviceUnderLongerServer(h: Past, slog: seq<Row>, slog': seq<Row>, dev: Device, d: string)
    requires DeviceInv(h, slog, dev, d) && slog <= slog'
    ensures DeviceInv(h, slog', dev, d)
  {
    assert forall i :: 0 <= i < |slog| ==> slog'[i] == slog[i];
    forall p | p in Ops(slog) ensures p in Ops(slog') {
      var i :| 0 <= i < |slog| && Ops(slog)[i] == p;
      assert Ops(slog')[i] == p;
    }
  }

  lemma PullUnderLongerServer(slog: seq<Row>, slog': seq<Row>, dev: Device, pull: Pulling)
    requires PullInv(slog, dev, pull) && slog <= slog'
    ensures PullInv(slog', dev, pull)
  {
    assert forall i :: 0 <= i < |slog| ==> slog'[i] == slog[i];
    var c, n := dev.checkpoint, |pull.page.rows|;
    assert slog'[c..c + n] == slog[c..c + n];
  }

  lemma ForeignUnderLongerServer(slog: seq<Row>, slog': seq<Row>, dev: Device, d: string, a: int, b: int)
    requires ForeignFromServer(slog, dev, d, a) && slog <= slog' && a <= b
    ensures ForeignFromServer(slog', dev, d, b)
  {
    assert forall i :: 0 <= i < |slog| ==> slog'[i] == slog[i];
  }

  lemma DeviceUnderForeignWrite(h: Past, slog: seq<Row>, dev: Device, d: string, q: Op, s: set<Op>)
    requires DeviceInv(h, slog, dev, d) && q !in h && q.deviceId != d
    requires At(q.vv, d) <= At(VectorOn(Ops(dev.st.oplog), KeyOf(q)), d)
    ensures DeviceInv(h[q := s], slog, dev, d)
  {
    CausalLogExtendHistory(h, Ops(dev.st.oplog), q, s);
  }

  // ---------------------------------------------------------------- a device appends an op

  lemma AppendCovers(dev: Device, dev': Device, row: Row)
    requires ClockCovers(dev) && dev'.st.oplog == dev.st.oplog + [row]
    requires After(dev'.clock, dev.clock) && !After(row.op.hlc, dev'.clock)
    ensures ClockCovers(dev')
  {
    OpsAppend(dev.st.oplog, row);
    forall p | p in Ops(dev'.st.oplog) ensures !After(p.hlc, dev'.clock) {
      CompareTotal(p.hlc, dev'.clock);
      if p in Ops(dev.st.oplog) {
        NotAfterThenAfter(p.hlc, dev.clock, dev'.clock);
      }
    }
  }

  lemma AppendKeepsServerFacts(slog: seq<Row>, dev: Device, dev': Device, d: string, row: Row)
    requires HasPrefix(slog, dev, dev.checkpoint) && AcknowledgedOnServer(slog, dev, d)
    requires dev'.st.oplog == dev.st.oplog + [row] && dev'.checkpoint == dev.checkpoint && !row.pushed
    ensures HasPrefix(slog, dev', dev'.checkpoint) && AcknowledgedOnServer(slog, dev', d)
  {
    OpsAppend(dev.st.oplog, row);
  }

  /** What the log, the clock and the records need so that appending a foreign `row` keeps them. */
  lemma DeviceAppend(h: Past, slog: seq<Row>, dev: Device, dev': Device, d: string, row: Row)
    requires History(h) && DeviceInv(h, slog, dev, d)
    requires Deliverable(h, Ops(dev.st.oplog), row.op) && row.op.deviceId != d && !row.pushed
    requires dev'.st.oplog == dev.st.oplog + [row] && dev'.checkpoint == dev.checkpoint
    requires After(dev'.clock, dev.clock) && After(dev'.clock, row.op.hlc)
    requires RecordsMatch(dev'.st) && ConflictsRight(dev'.st)
    ensures DeviceInv(h, slog, dev', d)
  {
    var xs := Ops(dev.st.oplog);
    OpsAppend(dev.st.oplog, row);
    CausalLogAppend(h, xs, row.op);
    CompareTotal(row.op.hlc, dev'.clock);
    AppendCovers(dev, dev', row);
    AppendKeepsServerFacts(slog, dev, dev', d, row);
    OwnCountGrows(h, d, xs, row.op);
    OwnLogAppend(h, d, xs, row.op);
  }

  lemma OwnLogAppend(h: Past, d: string, xs: seq<Op>, p: Op)
    requires OwnLog(h, d, xs) && p.deviceId != d
    ensures OwnLog(h, d, xs + [p])
  {
    var ys := xs + [p];
    forall i | 0 <= i < |ys| && ys[i].deviceId == d ensures ys[i] in h && h[ys[i]] == Elements(ys[..i]) {
      assert ys[..i] == xs[..i];
    }
  }

  lemma VectorOnGrows(xs: seq<Op>, p: Op, k: Key)
    ensures Leq(VectorOn(xs, k), VectorOn(xs + [p], k))
    ensures KeyOf(p) == k ==> Leq(p.vv, VectorOn(xs + [p], k))
  {
    var ys := OnKey(xs, k);
    OnKeyAppend(xs, p, k);
    if KeyOf(p) == k {
      assert (ys + [p])[..|ys|] == ys;
      JoinIsLeastUpperBound(JoinAll(ys), p.vv, p.vv);
    }
  }

  lemma OwnCountGrows(h: Past, d: string, xs: seq<Op>, p: Op)
    requires OwnCountIsKnown(h, d, xs)
    ensures OwnCountIsKnown(h, d, xs + [p])
  {
    forall r | r in h ensures At(r.vv, d) <= At(VectorOn(xs + [p], KeyOf(r)), d) {
      VectorOnGrows(xs, p, KeyOf(r));
      LeqAt(VectorOn(xs, KeyOf(r)), VectorOn(xs + [p], KeyOf(r)), d);
    }
  }

  // ---------------------------------------------------------------- a device writes

  /** What a local record's vector is, seen from the log. */
  lemma LocalVector(h: Past, st: Store, k: Key)
    requires History(h) && CausalLog(h, Ops(st.oplog)) && RecordsMatch(st)
    ensures var existing := Lookup(st, k);
      (if existing.Some? then existing.value.vv else map[]) == VectorOn(Ops(st.oplog), k)
  {
    assert Lookup(st, k) == Fold(OnKey(Ops(st.oplog), k));
    hide History, RecordsMatch, CausalLog;
    if OnKey(Ops(st.oplog), k) != [] {
      LogFold(h, Ops(st.oplog), k);
    }
  }

  lemma TickCovers(dev: Device, d: string, phys: int64)
    requires ClockCovers(dev) && dev.clock.logical < MAX_LOGICAL
    ensures After(Tick(dev.clock, d, phys), dev.clock)
    ensures forall p :: p in Ops(dev.st.oplog) ==> After(Tick(dev.clock, d, phys), p.hlc)
  {
    var t := Tick(dev.clock, d, phys);
    TickAdvancesIff(dev.clock, d, phys);
    forall p | p in Ops(dev.st.oplog) ensures After(t, p.hlc) {
      NotAfterThenAfter(p.hlc, dev.clock, t);
    }
  }

  /** The op a local write makes is a fresh write on top of the device's log. */
  lemma LocalWriteIsFresh(h: Past, slog: seq<Row>, dev: Device, d: string, k: Key, change: Option<string>, id: string,
      phys: int64)
    requires History(h) && DeviceInv(h, slog, dev, d) && FreshId(h, id)
    requires dev.clock.logical < MAX_LOGICAL
    ensures var r := LocalWrite(dev, d, k, change, id, phys);
      && After(r.dev.clock, dev.clock)
      && r.op.deviceId == d && KeyOf(r.op) == k && r.op.hlc == r.dev.clock
      && (r.ok ==> FreshWrite(h, Ops(dev.st.oplog), r.op) && r.op.vv == Bump(VectorOn(Ops(dev.st.oplog), k), d))
  {
    LocalVector(h, dev.st, k);
    TickCovers(dev, d, phys);
    hide History, DeviceInv, Lookup, After, Tick, Ops, OnKey, Resolve, Append, Bump, VectorOn;
  }

  /** The write counts no device further than one past what some logged op does. */
  lemma WriteCounts(h: Past, xs: seq<Op>, q: Op, b: nat)
    requires CausalLog(h, xs) && q.vv == Bump(VectorOn(xs, KeyOf(q)), q.deviceId)
    requires forall p :: p in h ==> CountsUpTo(p.vv, b)
    ensures CountsUpTo(q.vv, b + 1)
  {
    var zs := OnKey(xs, KeyOf(q));
    OnKeyMembers(xs, KeyOf(q));
    BumpAdvances(JoinAll(zs), q.deviceId);
    forall n | n in q.vv ensures q.vv[n] <= b + 1 {
      assert q.vv[n] == At(q.vv, n) <= At(JoinAll(zs), n) + 1;
      if zs != [] {
        var r := JoinAllAttained(zs, n);
        assert CountsUpTo(r.vv, b) && At(r.vv, n) <= b;
      }
    }
  }

  lemma DeviceWrites(h: Past, slog: seq<Row>, dev: Device, d: string, k: Key, change: Option<string>, id: string,
      phys: int64)
    requires History(h) && DeviceInv(h, slog, dev, d) && FreshId(h, id)
    requires dev.clock.logical < MAX_LOGICAL
    requires LocalWrite(dev, d, k, change, id, phys).ok
    ensures var r := LocalWrite(dev, d, k, change, id, phys);
      && r.op !in h && History(h[r.op := Elements(Ops(dev.st.oplog))])
      && DeviceInv(h[r.op := Elements(Ops(dev.st.oplog))], slog, r.dev, d)
      && r.dev.st.oplog == dev.st.oplog + [Row(r.op, 0, false)]
  {
    var r := LocalWrite(dev, d, k, change, id, phys);
    var xs, q := Ops(dev.st.oplog), r.op;
    var h' := h[q := Elements(xs)];
    LocalWriteIsFresh(h, slog, dev, d, k, change, id, phys);
    WriteKeepsHistory(h, xs, q);
    HasIdInOps(dev.st.oplog, id);
    assert !HasId(dev.st.oplog, id);
    var row := Row(q, 0, false);
    OpsAppend(dev.st.oplog, row);
    CausalLogExtendHistory(h, xs, q, Elements(xs));
    assert q !in xs;
    CausalLogAppend(h', xs, q);
    PutMatches(dev.st, row);
    ConflictsStayRight(dev.st, row);
    OwnLogWrite(h, d, xs, q);
    OwnCountWrite(h, d, xs, q);
    CompareTotal(q.hlc, r.dev.clock);
    AppendCovers(dev, r.dev, row);
    AppendKeepsServerFacts(slog, dev, r.dev, d, row);
  }

  lemma OwnLogWrite(h: Past, d: string, xs: seq<Op>, q: Op)
    requires OwnLog(h, d, xs) && q !in h && q.deviceId == d
    ensures OwnLog(h[q := Elements(xs)], d, xs + [q])
  {
    var h', ys := h[q := Elements(xs)], xs + [q];
    assert ys[|xs|] == q;
    forall i | 0 <= i < |ys| && ys[i].deviceId == d ensures ys[i] in h' && h'[ys[i]] == Elements(ys[..i]) {
      assert ys[..i] == xs[..i];
      if i == |xs| {
        assert xs[..i] == xs;
      }
    }
  }

  lemma OwnCountWrite(h: Past, d: string, xs: seq<Op>, q: Op)
    requires OwnCountIsKnown(h, d, xs)
    ensures OwnCountIsKnown(h[q := Elements(xs)], d, xs + [q])
  {
    OwnCountGrows(h, d, xs, q);
    VectorOnGrows(xs, q, KeyOf(q));
    LeqAt(q.vv, VectorOn(xs + [q], KeyOf(q)), d);
  }

  /** The write counts no other device further than that device's own record does. */
  lemma WriteRespectsOthers(h: Past, xs: seq<Op>, q: Op, e: string, ys: seq<Op>)
    requires CausalLog(h, xs) && q.vv == Bump(VectorOn(xs, KeyOf(q)), q.deviceId) && e != q.deviceId
    requires OwnCountIsKnown(h, e, ys)
    ensures At(q.vv, e) <= At(VectorOn(ys, KeyOf(q)), e)
  {
    var zs := OnKey(xs, KeyOf(q));
    OnKeyMembers(xs, KeyOf(q));
    BumpAdvances(JoinAll(zs), q.deviceId);
    if zs != [] {
      var r := JoinAllAttained(zs, e);
      assert At(r.vv, e) <= At(VectorOn(ys, KeyOf(r)), e);
    }
  }

  // ---------------------------------------------------------------- a device applies a pulled row

  /** A row the device has already only moves the clock. */
  lemma DeviceSeesAgain(h: Past, slog: seq<Row>, dev: Device, d: string, clock: Timestamp)
    requires DeviceInv(h, slog, dev, d) && After(clock, dev.clock)
    ensures DeviceInv(h, slog, dev.(clock := clock), d)
  {
    var dev' := dev.(clock := clock);
    forall p | p in Ops(dev'.st.oplog) ensures !After(p.hlc, dev'.clock) {
      NotAfterThenAfter(p.hlc, dev.clock, clock);
      CompareTotal(p.hlc, clock);
    }
  }

  /** A new row is appended and folded into its record. */
  lemma StoreTakesNew(h: Past, st: Store, op: Op, serverSeq: nat)
    requires History(h) && CausalLog(h, Ops(st.oplog)) && RecordsMatch(st) && ConflictsRight(st)
    requires Deliverable(h, Ops(st.oplog), op) && !HasId(st.oplog, op.id)
    ensures var st' := Ingest(st, op, serverSeq, false).st;
      && st'.oplog == st.oplog + [Row(op, serverSeq, false)]
      && RecordsMatch(st') && ConflictsRight(st')
  {
    var row := Row(op, serverSeq, false);
    var grown := st.(oplog := st.oplog + [row]);
    assert Lookup(grown, KeyOf(op)) == Lookup(st, KeyOf(op));
    var dec := Resolve(Lookup(st, KeyOf(op)), op);
    hide Resolve, RecordsMatch, ConflictsRight, History, CausalLog, Deliverable, Ops;
    PutMatches(st, row);
    SettleMatches(grown, dec, op, serverSeq);
    SettleKeepsConflicts(h, st, row);
  }

  /** The log has an op exactly when it has its id. */
  lemma KnownById(h: Past, log: seq<Row>, op: Op)
    requires IdsIdentify(h) && op in h && forall p :: p in Ops(log) ==> p in h
    ensures HasId(log, op.id) <==> op in Ops(log)
  {
    HasIdInOps(log, op.id);
  }

  lemma DeviceParts(h: Past, slog: seq<Row>, dev: Device, d: string, op: Op)
    requires History(h) && DeviceInv(h, slog, dev, d) && op in h
    ensures CausalLog(h, Ops(dev.st.oplog)) && RecordsMatch(dev.st) && ConflictsRight(dev.st)
    ensures HasId(dev.st.oplog, op.id) <==> op in Ops(dev.st.oplog)
    ensures op.deviceId == d ==> op in Ops(dev.st.oplog)
  {
    KnownById(h, dev.st.oplog, op);
  }

  lemma DeviceApplies(h: Past, slog: seq<Row>, dev: Device, d: string, row: Row, phys: int64)
    requires History(h) && DeviceInv(h, slog, dev, d)
    requires row.op in h && h[row.op] <= Elements(Ops(dev.st.oplog)) && row in slog
    requires dev.clock.logical < MAX_LOGICAL && row.op.hlc.logical < MAX_LOGICAL
    ensures DeviceInv(h, slog, ApplyRow(dev, d, row, phys), d)
    ensures row.op in Ops(ApplyRow(dev, d, row, phys).st.oplog)
    ensures ApplyRow(dev, d, row, phys).st.oplog ==
      dev.st.oplog + if row.op in Ops(dev.st.oplog) then [] else [Row(row.op, row.serverSeq, false)]
    ensures row.op.deviceId == d ==> row.op in Ops(dev.st.oplog)
  {
    var dev', logged := ApplyRow(dev, d, row, phys), Row(row.op, row.serverSeq, false);
    ReceiveAdvancesIff(dev.clock, row.op.hlc, d, phys);
    assert After(dev'.clock, dev.clock) && After(dev'.clock, row.op.hlc);
    hide History, DeviceInv, Receive, Resolve, After, Settle, Lookup, CausalLog, RecordsMatch, ConflictsRight, HasId,
      Ops;
    DeviceParts(h, slog, dev, d, row.op);
    if row.op in Ops(dev.st.oplog) {
      DeviceSeesAgain(h, slog, dev, d, dev'.clock);
      assert dev' == dev.(clock := dev'.clock);
    } else {
      StoreTakesNew(h, dev.st, row.op, row.serverSeq);
      DeviceAppend(h, slog, dev, dev', d, logged);
      OpsAppend(dev.st.oplog, logged);
    }
  }

  lemma SettleMatches(st: Store, d: Decision, op: Op, seqNo: nat)
    requires RecordsMatch(Put(st, d.rec))
    ensures RecordsMatch(Settle(st, d, op, seqNo))
  {
    var put, st' := Put(st, d.rec), Settle(st, d, op, seqNo);
    forall k ensures Lookup(st', k) == Fold(OnKey(Ops(st'.oplog), k)) {
      assert Lookup(put, k) == Fold(OnKey(Ops(put.oplog), k));
    }
  }

  // ---------------------------------------------------------------- a device marks ops pushed

  lemma FoundUnderMarks(c: ConflictRow, st: Store, ids: seq<string>, n: nat)
    requires FoundAt(c, st.oplog, n)
    ensures FoundAt(c, MarkAll(st, ids).oplog, n)
  {
    assert Ops(MarkAll(st, ids).oplog) == Ops(st.oplog);
  }

  lemma MarksKeepStore(st: Store, ids: seq<string>)
    requires RecordsMatch(st) && ConflictsRight(st)
    ensures Ops(MarkAll(st, ids).oplog) == Ops(st.oplog)
    ensures RecordsMatch(MarkAll(st, ids)) && ConflictsRight(MarkAll(st, ids))
  {
    hide FoundAt;
    var st' := MarkAll(st, ids);
    assert Ops(st'.oplog) == Ops(st.oplog);
    forall k ensures Lookup(st', k) == Fold(OnKey(Ops(st'.oplog), k)) {
      assert Lookup(st, k) == Fold(OnKey(Ops(st.oplog), k));
    }
    forall c | c in st'.conflicts ensures exists n :: FoundAt(c, st'.oplog, n) {
      var n :| FoundAt(c, st.oplog, n);
      FoundUnderMarks(c, st, ids, n);
    }
  }

  lemma MarksAreOnServer(h: Past, slog: seq<Row>, dev: Device, d: string, ids: seq<string>)
    requires IdsIdentify(h) && AcknowledgedOnServer(slog, dev, d)
    requires forall p :: p in Ops(dev.st.oplog) ==> p in h
    requires forall id :: id in ids ==> exists p :: p in Ops(slog) && p in h && p.id == id
    ensures AcknowledgedOnServer(slog, dev.(st := MarkAll(dev.st, ids)), d)
  {
    var log' := MarkAll(dev.st, ids).oplog;
    forall i | 0 <= i < |log'| && log'[i].op.deviceId == d && log'[i].pushed ensures log'[i].op in Ops(slog) {
      var row := dev.st.oplog[i];
      assert Ops(dev.st.oplog)[i] == row.op;
      if !row.pushed {
        var p :| p in Ops(slog) && p in h && p.id == row.op.id;
        assert p == row.op;
      }
    }
  }

  lemma DeviceMarks(h: Past, slog: seq<Row>, dev: Device, d: string, ids: seq<string>)
    requires History(h) && DeviceInv(h, slog, dev, d)
    requires forall id :: id in ids ==> exists p :: p in Ops(slog) && p in h && p.id == id
    ensures DeviceInv(h, slog, dev.(st := MarkAll(dev.st, ids)), d)
  {
    MarksKeepStore(dev.st, ids);
    MarksAreOnServer(h, slog, dev, d, ids);
    hide History, OwnLog, OwnCountIsKnown, RecordsMatch, ConflictsRight, AcknowledgedOnServer, CausalLog, Ops, MarkAll;
  }
}
