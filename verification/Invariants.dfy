/** The inductive invariant of the protocol, one predicate per component. */
module Invariants {
  import opened Vectors
  import opened Hlc
  import opened Conflict
  import opened Store
  import opened Causality
  import opened Protocol

  // ---------------------------------------------------------------- stores

  /** Every record is the fold of the log's ops on it. */
  ghost predicate RecordsMatch(st: Store) {
    forall k :: Lookup(st, k) == Fold(OnKey(Ops(st.oplog), k))
  }

  /** The audit row was added when the n-th log row arrived: it carries that row's number,
      names its op, and is right about the log up to it. */
  ghost predicate FoundAt(c: ConflictRow, log: seq<Row>, n: nat) {
    && 0 < n <= |log|
    && c.detectedAtSeq == log[n - 1].serverSeq
    && (log[n - 1].op.id == c.winningOpId || log[n - 1].op.id == c.losingOpId)
    && RowIsRight(c, Ops(log)[..n])
  }

  ghost predicate ConflictsRight(st: Store) {
    forall c :: c in st.conflicts ==> exists n :: FoundAt(c, st.oplog, n)
  }

  /** Sequence numbers are 1, 2, 3, ... in log order, and the counter is the next one. */
  ghost predicate Dense(st: Store) {
    && st.next == |st.oplog| + 1
    && forall i :: 0 <= i < |st.oplog| ==> st.oplog[i].serverSeq == i + 1
  }

  // ---------------------------------------------------------------- devices

  /** The clock has seen every timestamp in the log. */
  ghost predicate ClockCovers(dev: Device) {
    forall p :: p in Ops(dev.st.oplog) ==> !After(p.hlc, dev.clock)
  }

  /** Foreign rows are server rows below `horizon`, with the server's sequence numbers. */
  ghost predicate ForeignFromServer(slog: seq<Row>, dev: Device, d: string, horizon: int) {
    forall i :: 0 <= i < |dev.st.oplog| && dev.st.oplog[i].op.deviceId != d ==>
      && 0 < dev.st.oplog[i].serverSeq <= horizon
      && dev.st.oplog[i].serverSeq <= |slog|
      && slog[dev.st.oplog[i].serverSeq - 1].op == dev.st.oplog[i].op
  }

  /** The first `n` server rows are all in the device's log. */
  ghost predicate HasPrefix(slog: seq<Row>, dev: Device, n: int) {
    0 <= n <= |slog| && forall i :: 0 <= i < n ==> slog[i].op in Ops(dev.st.oplog)
  }

  /** Acknowledged writes are on the server. */
  ghost predicate AcknowledgedOnServer(slog: seq<Row>, dev: Device, d: string) {
    forall i :: 0 <= i < |dev.st.oplog| && dev.st.oplog[i].op.deviceId == d && dev.st.oplog[i].pushed ==>
      dev.st.oplog[i].op in Ops(slog)
  }

  ghost predicate DeviceInv(h: Past, slog: seq<Row>, dev: Device, d: string) {
    && CausalLog(h, Ops(dev.st.oplog))
    && OwnLog(h, d, Ops(dev.st.oplog))
    && OwnCountIsKnown(h, d, Ops(dev.st.oplog))
    && ClockCovers(dev)
    && RecordsMatch(dev.st)
    && ConflictsRight(dev.st)
    && HasPrefix(slog, dev, dev.checkpoint)
    && AcknowledgedOnServer(slog, dev, d)
  }

  /** The page in hand is the server log from the checkpoint on, applied up to `pos`. */
  ghost predicate PullInv(slog: seq<Row>, dev: Device, pull: Pulling) {
    var c, rows := dev.checkpoint, pull.page.rows;
    && 0 <= c && c + |rows| <= |slog| && |rows| <= PULL_PAGE_SIZE
    && rows == slog[c..c + |rows|]
    && pull.page.next == c + |rows|
    && (pull.page.hasMore ==> |rows| == PULL_PAGE_SIZE)
    && pull.pos <= |rows|
    && HasPrefix(slog, dev, c + pull.pos)
  }

  function Min(a: int, b: int): int {
    if a <= b then a else b
  }

  /** How far into the server log the device can have applied rows. */
  function Horizon(dev: Device, pulls: map<string, Pulling>, d: string): int {
    if d in pulls then dev.checkpoint + |pulls[d].page.rows| else dev.checkpoint
  }

  // ---------------------------------------------------------------- handlers

  /** A batch holds its device's writes in an order that respects their pasts, given what
      the server already has. */
  ghost predicate HandlerInv(h: Past, slog: seq<Row>, hd: Handler) {
    && hd.done <= |hd.batch|
    && (forall j :: 0 <= j < |hd.batch| ==> hd.batch[j] in h && hd.batch[j].deviceId == hd.deviceId)
    && (forall j, p :: 0 <= j < |hd.batch| && p in h[hd.batch[j]] ==> p in Ops(slog) || p in hd.batch[..j])
    && (forall j :: 0 <= j < hd.done ==> hd.batch[j] in Ops(slog))
    && (!hd.stage.Ready? ==> hd.done < |hd.batch| && hd.batch[hd.done] in Ops(slog))
  }

  // ---------------------------------------------------------------- clocks

  /** Counters are bounded by the clock calls made, and physical parts are 0 or readings
      after 1970. */
  ghost predicate Plausible(t: Timestamp, readings: seq<int64>) {
    && t.logical <= |readings|
    && (t.physical == 0 || t.physical in readings)
    && t.physical >= 0
  }

  /** No counter of the vector is above b. */
  predicate CountsUpTo(v: Vector, b: nat) {
    forall n :: n in v ==> v[n] <= b
  }

  ghost predicate ClocksPlausible(w: World) {
    && (forall d :: d in w.devices ==> Plausible(w.devices[d].clock, w.readings))
    && forall p :: p in w.past ==> Plausible(p.hlc, w.readings) && CountsUpTo(p.vv, |w.readings|)
  }

  // ---------------------------------------------------------------- the whole system

  ghost predicate PastInv(w: World) {
    && History(w.past)
    && forall p :: p in w.past ==> p.deviceId in w.devices
  }

  ghost predicate ServerInv(h: Past, st: Store) {
    CausalLog(h, Ops(st.oplog)) && Dense(st)
  }

  ghost predicate DevicesInv(w: World) {
    forall d :: d in w.devices ==> DeviceInv(w.past, w.server.oplog, w.devices[d], d)
  }

  ghost predicate PullsInv(w: World) {
    && (forall d :: d in w.pulls ==> d in w.devices && PullInv(w.server.oplog, w.devices[d], w.pulls[d]))
    && forall d :: d in w.devices ==>
      ForeignFromServer(w.server.oplog, w.devices[d], d, Horizon(w.devices[d], w.pulls, d))
  }

  ghost predicate HandlersInv(w: World) {
    forall i :: 0 <= i < |w.handlers| ==> HandlerInv(w.past, w.server.oplog, w.handlers[i])
  }

  ghost predicate Inv(w: World) {
    && PastInv(w)
    && ServerInv(w.past, w.server)
    && DevicesInv(w)
    && PullsInv(w)
    && HandlersInv(w)
    && ClocksPlausible(w)
  }
}
