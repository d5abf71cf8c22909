/** Whole requests and whole Sync calls as functions of the state (handlePush in
    internal/server/sync.go; push, pull and Sync in pkg/client/sync.go), and the runs of the
    transition system they are. */
module Sync {
  import opened Hlc
  import opened Oplog
  import opened Conflict
  import opened Store
  import opened Protocol
  import opened Invariants
  import opened Safety
  import opened Theorems

  // ---------------------------------------------------------------- pushing

  datatype PushReply = PushReply(st: Store, accepted: seq<string>, ok: bool)

  /** The handler's loop over a batch: it stops at the first op it refuses. */
  function HandleOps(st: Store, d: string, ops: seq<Op>): PushReply {
    if ops == [] then PushReply(st, [], true)
    else
      var n := |ops| - 1;
      var r := HandleOps(st, d, ops[..n]);
      if !r.ok then r
      else if !Admissible(ops[n], d) then r.(ok := false)
      else PushReply(Ingest(r.st, ops[n], 0, true).st, r.accepted + [ops[n].id], true)
  }

  lemma NothingHandled(st: Store, d: string, ops: seq<Op>)
    requires ops == []
    ensures HandleOps(st, d, ops) == PushReply(st, [], true)
  {
  }

  lemma HandleOpsAppend(st: Store, d: string, ops: seq<Op>, op: Op)
    ensures var r := HandleOps(st, d, ops);
      HandleOps(st, d, ops + [op]) ==
        if !r.ok then r
        else if !Admissible(op, d) then r.(ok := false)
        else PushReply(Ingest(r.st, op, 0, true).st, r.accepted + [op.id], true)
  {
    assert (ops + [op])[..|ops|] == ops;
  }

  /** A batch the handler accepts is acknowledged whole, in order. */
  lemma {:induction false} AcceptedAreAll(st: Store, d: string, ops: seq<Op>)
    requires HandleOps(st, d, ops).ok
    ensures HandleOps(st, d, ops).accepted == Ids(ops)
    ensures forall p :: p in ops ==> Admissible(p, d)
  {
    if ops != [] {
      AcceptedAreAll(st, d, ops[..|ops| - 1]);
      assert Ids(ops) == Ids(ops[..|ops| - 1]) + [ops[|ops| - 1].id];
      Front(ops);
    }
  }

  // ---------------------------------------------------------------- pulling

  /** The rows of a page up to the first one that does not decode. */
  function ValidPrefix(rows: seq<Row>): (n: nat)
    ensures n <= |rows|
    ensures forall i :: 0 <= i < n ==> Validates(rows[i].op)
    ensures n < |rows| ==> !Validates(rows[n].op)
  {
    if rows == [] || !Validates(rows[0].op) then 0
    else 1 + ValidPrefix(rows[1..])
  }

  /** Apply rows in order; the i-th clock call from here reads walls(n + i). */
  function ApplyRows(dev: Device, d: string, rows: seq<Row>, walls: nat -> int64, n: nat): Device {
    if rows == [] then dev
    else
      var m := |rows| - 1;
      ApplyRow(ApplyRows(dev, d, rows[..m], walls, n), d, rows[m], walls(n + m))
  }

  datatype PullReply = PullReply(dev: Device, n: nat, ok: bool)

  /** The pull loop against a server log that does not change meanwhile. */
  function PullAll(dev: Device, d: string, slog: seq<Row>, walls: nat -> int64, n: nat): PullReply
    decreases |Matching(slog, dev.checkpoint, "")|
  {
    var page := PageSince(slog, dev.checkpoint, "", PULL_PAGE_SIZE);
    var valid := ValidPrefix(page.rows);
    var applied := ApplyRows(dev, d, page.rows[..valid], walls, n);
    if valid < |page.rows| then PullReply(applied, n + valid, false)
    else
      var saved := applied.(checkpoint := page.next);
      if page.hasMore then
        PageAdvances(slog, dev.checkpoint, "", PULL_PAGE_SIZE);
        PullAll(saved, d, slog, walls, n + valid)
      else PullReply(saved, n + valid, true)
  }

  /** The same loop when only `answered` page requests get an answer. */
  function PullSome(dev: Device, d: string, slog: seq<Row>, walls: nat -> int64, n: nat, answered: nat): PullReply
    decreases answered
  {
    if answered == 0 then PullReply(dev, n, false)
    else
      var page := PageSince(slog, dev.checkpoint, "", PULL_PAGE_SIZE);
      var valid := ValidPrefix(page.rows);
      var applied := ApplyRows(dev, d, page.rows[..valid], walls, n);
      if valid < |page.rows| then PullReply(applied, n + valid, false)
      else
        var saved := applied.(checkpoint := page.next);
        if page.hasMore then PullSome(saved, d, slog, walls, n + valid, answered - 1)
        else PullReply(saved, n + valid, true)
  }

  /** A pull that ends well is the whole pull, and one page per row is always enough. */
  lemma {:induction false} PullSomeIsAll(dev: Device, d: string, slog: seq<Row>, walls: nat -> int64, n: nat,
      answered: nat)
    ensures PullSome(dev, d, slog, walls, n, answered).ok || answered > |Matching(slog, dev.checkpoint, "")| ==>
      PullSome(dev, d, slog, walls, n, answered) == PullAll(dev, d, slog, walls, n)
    decreases answered
  {
    hide ApplyRows, PageSince, Matching;
    if answered > 0 {
      var page := PageSince(slog, dev.checkpoint, "", PULL_PAGE_SIZE);
      var valid := ValidPrefix(page.rows);
      var applied := ApplyRows(dev, d, page.rows[..valid], walls, n);
      if valid == |page.rows| && page.hasMore {
        PageAdvances(slog, dev.checkpoint, "", PULL_PAGE_SIZE);
        PullSomeIsAll(applied.(checkpoint := page.next), d, slog, walls, n + valid, answered - 1);
      }
    }
  }

  lemma {:induction false} MatchingMembers(log: seq<Row>, since: int, collection: string)
    ensures forall r :: r in Matching(log, since, collection) <==> r in log && Matches(r, since, collection)
  {
    if log != [] {
      MatchingMembers(log[..|log| - 1], since, collection);
      assert log == log[..|log| - 1] + [log[|log| - 1]];
    }
  }

  /** Raising `since` past a matching row leaves strictly fewer rows. */
  lemma {:induction false} MatchingShrinks(log: seq<Row>, since: int, next: int, collection: string)
    requires since <= next
    ensures |Matching(log, next, collection)| <= |Matching(log, since, collection)|
    ensures (exists r :: r in log && Matches(r, since, collection) && r.serverSeq <= next) ==>
      |Matching(log, next, collection)| < |Matching(log, since, collection)|
  {
    if log != [] {
      var front, last := log[..|log| - 1], log[|log| - 1];
      MatchingShrinks(front, since, next, collection);
      assert log == front + [last];
    }
  }

  /** Whenever a page says there is more, its checkpoint passed at least one row. */
  lemma PageAdvances(log: seq<Row>, since: int, collection: string, limit: int)
    ensures PageSince(log, since, collection, limit).next >= since
    ensures PageSince(log, since, collection, limit).hasMore ==> PageSince(log, since, collection, limit).rows != []
    ensures PageSince(log, since, collection, limit).rows != [] ==>
      var next := PageSince(log, since, collection, limit).next;
      next > since && |Matching(log, next, collection)| < |Matching(log, since, collection)|
  {
    var page := PageSince(log, since, collection, limit);
    var all := Matching(log, since, collection);
    MatchingMembers(log, since, collection);
    if page.rows != [] {
      var r := page.rows[|page.rows| - 1];
      assert r == all[|page.rows| - 1];
      assert r in all;
      MatchingShrinks(log, since, page.next, collection);
    }
  }

  // ---------------------------------------------------------------- whole Sync calls

  function Taken(walls: nat -> int64, n: nat, count: nat): seq<int64> {
    seq(count, i requires 0 <= i < count => walls(n + i))
  }

  /** A push that reaches the server and is answered. */
  function SyncPush(w: World, d: string): World
    requires d in w.devices
  {
    var batch := Outbox(w.devices[d].st.oplog, d);
    if batch == [] then w
    else
      w.(server := HandleOps(w.server, d, batch).st,
         devices := w.devices[d := w.devices[d].(st := MarkAll(w.devices[d].st, Ids(batch)))],
         handlers := w.handlers + [Handler(d, batch, |batch|, Ready)])
  }

  function SyncPull(w: World, d: string, walls: nat -> int64): World
    requires d in w.devices
  {
    var n := |w.readings|;
    var r := PullAll(w.devices[d], d, w.server.oplog, walls, n);
    w.(devices := w.devices[d := r.dev],
       pulls := w.pulls - {d},
       readings := w.readings + Taken(walls, n, if r.n >= n then r.n - n else 0))
  }

  /** Sync: push, then pull. */
  function SyncOne(w: World, d: string, walls: nat -> int64): World
    requires d in w.devices
  {
    SyncPull(SyncPush(w, d), d, walls)
  }

  /** The devices of `order` sync one after another; walls gives every clock reading. */
  function Round(w: World, order: seq<string>, walls: nat -> int64): World
    requires forall d :: d in order ==> d in w.devices
    ensures Round(w, order, walls).devices.Keys == w.devices.Keys
    decreases |order|
  {
    if order == [] then w
    else
      var n := |order| - 1;
      SyncOne(Round(w, order[..n], walls), order[n], walls)
  }

  // ---------------------------------------------------------------- the runs they are

  predicate NoWrites(run: seq<Label>) {
    forall l :: l in run ==> !l.Write?
  }

  /** Only the steps of a pull. */
  predicate PullsOnly(run: seq<Label>) {
    forall l :: l in run ==> l.Fetch? || l.ApplyNext? || l.SavePage?
  }

  /** One op handled without interruption. */
  lemma HandleOneIs(w: World, h: nat)
    requires Working(w, h) && w.handlers[h].stage.Ready? && Admissible(Current(w, h), w.handlers[h].deviceId)
    ensures Run(w, HandleOne(h)) == w.(
      server := Ingest(w.server, Current(w, h), 0, true).st,
      handlers := w.handlers[h := w.handlers[h].(done := w.handlers[h].done + 1)])
  {
    hide StepAppend, StepLoad, StepSave, Resolve, Settle, Admissible, Run;
    if HasId(w.server.oplog, Current(w, h).id) {
      RedeliveredOp(w, h);
    } else {
      RunThree(w, h);
      AppendThenLoad(w, h);
      SaveStepIs(StepLoad(StepAppend(w, h), h), h);
    }
  }

  lemma {:induction false} HandleManyIs(w: World, h: nat, n: nat)
    requires h < |w.handlers| && w.handlers[h].stage.Ready? && w.handlers[h].done == 0
    requires n <= |w.handlers[h].batch|
    requires forall p :: p in w.handlers[h].batch ==> Admissible(p, w.handlers[h].deviceId)
    ensures HandleOps(w.server, w.handlers[h].deviceId, w.handlers[h].batch[..n]).ok
    ensures Run(w, HandleMany(h, n)) == w.(
      server := HandleOps(w.server, w.handlers[h].deviceId, w.handlers[h].batch[..n]).st,
      handlers := w.handlers[h := w.handlers[h].(done := n)])
  {
    hide Step, Admissible, Ingest;
    var hd := w.handlers[h];
    if n == 0 {
      assert w.handlers[h := hd.(done := 0)] == w.handlers;
    } else {
      HandleManyIs(w, h, n - 1);
      var mid := Run(w, HandleMany(h, n - 1));
      RunConcat(w, HandleMany(h, n - 1), HandleOne(h));
      assert hd.batch[..n] == hd.batch[..n - 1] + [hd.batch[n - 1]];
      HandleOpsAppend(w.server, hd.deviceId, hd.batch[..n - 1], hd.batch[n - 1]);
      assert Current(mid, h) == hd.batch[n - 1] && hd.batch[n - 1] in hd.batch;
      HandleOneIs(mid, h);
    }
  }

  function PushRun(w: World, d: string): seq<Label>
    requires d in w.devices
  {
    var batch := Outbox(w.devices[d].st.oplog, d);
    if batch == [] then []
    else [Send(d)] + HandleMany(|w.handlers|, |batch|) + [Acknowledge(|w.handlers|)]
  }

  lemma {:induction false} HandleManyWritesNothing(h: nat, n: nat)
    ensures NoWrites(HandleMany(h, n))
  {
    if n > 0 {
      HandleManyWritesNothing(h, n - 1);
    }
  }

  lemma AcknowledgeIs(w: World, h: nat, d: string)
    requires h < |w.handlers| && w.handlers[h].done == |w.handlers[h].batch| && w.handlers[h].deviceId == d
    requires d in w.devices
    ensures Step(w, Acknowledge(h)) == w.(
      devices := w.devices[d := w.devices[d].(st := MarkAll(w.devices[d].st, Ids(w.handlers[h].batch)))])
  {
  }

  lemma SyncPushIsRun(w: World, d: string)
    requires d in w.devices
    requires forall p :: p in Outbox(w.devices[d].st.oplog, d) ==> Admissible(p, d)
    ensures Run(w, PushRun(w, d)) == SyncPush(w, d) && NoWrites(PushRun(w, d))
  {
    hide Admissible, HandleOps, Outbox, Run, MarkAll;
    var batch, h := Outbox(w.devices[d].st.oplog, d), |w.handlers|;
    if batch == [] {
      RunNone(w);
    } else {
      var w1 := Step(w, Send(d));
      assert w1 == w.(handlers := w.handlers + [Handler(d, batch, 0, Ready)]);
      hide Step;
      RunOne(w, Send(d));
      HandleManyIs(w1, h, |batch|);
      assert batch[..|batch|] == batch;
      RunConcat(w, [Send(d)], HandleMany(h, |batch|));
      var w2 := Run(w1, HandleMany(h, |batch|));
      RunConcat(w, [Send(d)] + HandleMany(h, |batch|), [Acknowledge(h)]);
      RunOne(w2, Acknowledge(h));
      AcknowledgeIs(w2, h, d);
      HandleManyWritesNothing(h, |batch|);
    }
  }

  function Applies(d: string, walls: nat -> int64, n: nat, count: nat): seq<Label> {
    if count == 0 then [] else Applies(d, walls, n, count - 1) + [ApplyNext(d, walls(n + count - 1))]
  }

  lemma ApplyIs(w: World, d: string, phys: int64)
    requires d in w.devices && d in w.pulls && w.pulls[d].pos < |w.pulls[d].page.rows|
    requires Validates(w.pulls[d].page.rows[w.pulls[d].pos].op)
    ensures Step(w, ApplyNext(d, phys)) == w.(
      devices := w.devices[d := ApplyRow(w.devices[d], d, w.pulls[d].page.rows[w.pulls[d].pos], phys)],
      pulls := w.pulls[d := w.pulls[d].(pos := w.pulls[d].pos + 1)],
      readings := w.readings + [phys])
  {
  }

  lemma TakenNext(walls: nat -> int64, n: nat, count: nat)
    requires count > 0
    ensures Taken(walls, n, count) == Taken(walls, n, count - 1) + [walls(n + count - 1)]
  {
  }

  lemma ApplyRowsNext(dev: Device, d: string, rows: seq<Row>, count: nat, walls: nat -> int64, n: nat)
    requires 0 < count <= |rows|
    ensures ApplyRows(dev, d, rows[..count], walls, n)
      == ApplyRow(ApplyRows(dev, d, rows[..count - 1], walls, n), d, rows[count - 1], walls(n + count - 1))
  {
    assert rows[..count][..count - 1] == rows[..count - 1];
  }

  /** The state after the first `count` rows of the page were applied. */
  function Applied(w: World, d: string, walls: nat -> int64, count: nat): World
    requires d in w.devices && d in w.pulls && count <= |w.pulls[d].page.rows|
  {
    w.(devices := w.devices[d := ApplyRows(w.devices[d], d, w.pulls[d].page.rows[..count], walls, |w.readings|)],
       pulls := w.pulls[d := w.pulls[d].(pos := count)],
       readings := w.readings + Taken(walls, |w.readings|, count))
  }

  lemma AppliedNext(w: World, d: string, walls: nat -> int64, count: nat)
    requires d in w.devices && d in w.pulls && 0 < count <= |w.pulls[d].page.rows|
    requires Validates(w.pulls[d].page.rows[count - 1].op)
    ensures Step(Applied(w, d, walls, count - 1), ApplyNext(d, walls(|w.readings| + count - 1))) == Applied(w, d,
      walls, count)
  {
    hide ApplyRow, ApplyRows, Validates, Step, Taken;
    var mid, phys := Applied(w, d, walls, count - 1), walls(|w.readings| + count - 1);
    ApplyIs(mid, d, phys);
    ApplyRowsNext(w.devices[d], d, w.pulls[d].page.rows, count, walls, |w.readings|);
    TakenNext(walls, |w.readings|, count);
  }

  lemma {:induction false} AppliesIs(w: World, d: string, walls: nat -> int64, count: nat)
    requires d in w.devices && d in w.pulls && w.pulls[d].pos == 0 && count <= |w.pulls[d].page.rows|
    requires forall i :: 0 <= i < count ==> Validates(w.pulls[d].page.rows[i].op)
    ensures PullsOnly(Applies(d, walls, |w.readings|, count))
    ensures Run(w, Applies(d, walls, |w.readings|, count)) == Applied(w, d, walls, count)
  {
    hide ApplyRow, Validates, Step;
    var n := |w.readings|;
    if count == 0 {
      assert w.devices[d := w.devices[d]] == w.devices;
      assert w.pulls[d := w.pulls[d].(pos := 0)] == w.pulls;
      assert w.readings + Taken(walls, n, 0) == w.readings;
    } else {
      hide Applied, Run;
      AppliesIs(w, d, walls, count - 1);
      var a, l := Applies(d, walls, n, count - 1), ApplyNext(d, walls(n + count - 1));
      RunConcat(w, a, [l]);
      RunOne(Run(w, a), l);
      AppliedNext(w, d, walls, count);
    }
  }

  /** One page, start to finish. */
  function PageRun(w: World, d: string, walls: nat -> int64): seq<Label>
    requires d in w.devices
  {
    var rows := PageSince(w.server.oplog, w.devices[d].checkpoint, "", PULL_PAGE_SIZE).rows;
    [Fetch(d)] + Applies(d, walls, |w.readings|, |rows|) + [SavePage(d)]
  }

  lemma SavePageIs(w: World, d: string)
    requires d in w.devices && d in w.pulls && w.pulls[d].pos == |w.pulls[d].page.rows|
    ensures Step(w, SavePage(d)) == w.(
      devices := w.devices[d := w.devices[d].(checkpoint := w.pulls[d].page.next)],
      pulls := w.pulls - {d})
  {
  }

  lemma SetTwice<V>(m: map<string, V>, k: string, a: V, b: V)
    ensures m[k := a][k := b] == m[k := b]
    ensures m[k := a] - {k} == m - {k}
  {
  }

  lemma PageIsSaved(w: World, d: string, walls: nat -> int64, page: Page)
    requires d in w.devices
    ensures Step(Applied(w.(pulls := w.pulls[d := Pulling(page, 0)]), d, walls, |page.rows|), SavePage(d)) == w.(
      devices := w.devices[d := ApplyRows(w.devices[d], d, page.rows, walls, |w.readings|).(checkpoint := page.next)],
      pulls := w.pulls - {d},
      readings := w.readings + Taken(walls, |w.readings|, |page.rows|))
  {
    hide ApplyRows, Taken, Step;
    assert page.rows[..|page.rows|] == page.rows;
    var applied := ApplyRows(w.devices[d], d, page.rows, walls, |w.readings|);
    SavePageIs(Applied(w.(pulls := w.pulls[d := Pulling(page, 0)]), d, walls, |page.rows|), d);
    SetTwice(w.devices, d, applied, applied.(checkpoint := page.next));
    SetTwice(w.pulls, d, Pulling(page, 0), Pulling(page, |page.rows|));
    SetTwice(w.pulls, d, Pulling(page, |page.rows|), Pulling(page, 0));
  }

  lemma PageRunIs(w: World, d: string, walls: nat -> int64)
    requires d in w.devices
    requires var page := PageSince(w.server.oplog, w.devices[d].checkpoint, "", PULL_PAGE_SIZE);
      forall i :: 0 <= i < |page.rows| ==> Validates(page.rows[i].op)
    ensures PullsOnly(PageRun(w, d, walls))
    ensures var page := PageSince(w.server.oplog, w.devices[d].checkpoint, "", PULL_PAGE_SIZE);
      Run(w, PageRun(w, d, walls)) == w.(
        devices := w.devices[d :=
          ApplyRows(w.devices[d], d, page.rows, walls, |w.readings|).(checkpoint := page.next)],
        pulls := w.pulls - {d},
        readings := w.readings + Taken(walls, |w.readings|, |page.rows|))
  {
    hide PageSince, Validates, ApplyRows, Run, Taken;
    var page := PageSince(w.server.oplog, w.devices[d].checkpoint, "", PULL_PAGE_SIZE);
    var a := Applies(d, walls, |w.readings|, |page.rows|);
    var w1 := w.(pulls := w.pulls[d := Pulling(page, 0)]);
    assert Step(w, Fetch(d)) == w1;
    var w2 := Applied(w1, d, walls, |page.rows|);
    PageIsSaved(w, d, walls, page);
    hide Step, Applied;
    RunOne(w, Fetch(d));
    AppliesIs(w1, d, walls, |page.rows|);
    RunConcat(w, [Fetch(d)], a);
    RunConcat(w, [Fetch(d)] + a, [SavePage(d)]);
    RunOne(w2, SavePage(d));
  }

  /** The whole pull is a run, and it ends at the end of the server log. */
  lemma {:induction false} SyncPullIsRun(w: World, d: string, walls: nat -> int64) returns (run: seq<Label>)
    requires d in w.devices && 0 <= w.devices[d].checkpoint <= |w.server.oplog| && Dense(w.server)
    requires forall i :: 0 <= i < |w.server.oplog| ==> Validates(w.server.oplog[i].op)
    ensures PullsOnly(run) && NoWrites(run) && Run(w, run) == SyncPull(w, d, walls)
    ensures var r := PullAll(w.devices[d], d, w.server.oplog, walls, |w.readings|);
      r.ok && r.dev.checkpoint == |w.server.oplog| && r.n >= |w.readings|
    decreases |w.server.oplog| - w.devices[d].checkpoint
  {
    hide Step, ApplyRows, Validates, PageSince;
    var dev, slog, n := w.devices[d], w.server.oplog, |w.readings|;
    var page := PageSince(slog, dev.checkpoint, "", PULL_PAGE_SIZE);
    PageIsNextSlice(w.server, dev.checkpoint);
    var valid := ValidPrefix(page.rows);
    assert forall i :: 0 <= i < |page.rows| ==> page.rows[i] == slog[dev.checkpoint + i];
    assert valid == |page.rows|;
    assert page.rows[..valid] == page.rows;
    PageRunIs(w, d, walls);
    var one := PageRun(w, d, walls);
    var mid := Run(w, one);
    if page.hasMore {
      var rest := SyncPullIsRun(mid, d, walls);
      run := one + rest;
      RunConcat(w, one, rest);
      TakenConcat(walls, n, |page.rows|, PullAll(mid.devices[d], d, slog, walls, |mid.readings|).n - |mid.readings|);
      assert mid.devices[d := SyncPull(mid, d, walls).devices[d]] == w.devices[d := SyncPull(mid, d, walls).devices[d]];
      assert (w.pulls - {d}) - {d} == w.pulls - {d};
    } else {
      run := one;
    }
  }

  lemma TakenConcat(walls: nat -> int64, n: nat, a: nat, b: nat)
    ensures Taken(walls, n, a) + Taken(walls, n + a, b) == Taken(walls, n, a + b)
  {
  }
}
