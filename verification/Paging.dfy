/** Paged pulls (OpsSince in internal/storage/sqlite/oplog.go, the loop of pull in
    pkg/client/sync.go): the pages put together are the simple suffix of the log, even when
    the log grows between them. */
module Paging {
  import opened Hlc
  import opened Store
  import opened Protocol
  import opened Invariants
  import opened Safety
  import opened Theorems
  import opened Sync

  /** Rows in server_seq order, as the server's table order is. */
  ghost predicate Ascending(log: seq<Row>) {
    forall i, j :: 0 <= i < j < |log| ==> log[i].serverSeq < log[j].serverSeq
  }

  lemma {:induction false} MatchingPrefix(log: seq<Row>, longer: seq<Row>, since: int, collection: string)
    requires log <= longer
    ensures Matching(log, since, collection) <= Matching(longer, since, collection)
  {
    if |log| < |longer| {
      MatchingPrefix(log, longer[..|longer| - 1], since, collection);
    } else {
      assert log == longer;
    }
  }

  lemma {:induction false} NothingAfter(log: seq<Row>, since: int, collection: string)
    requires forall i :: 0 <= i < |log| ==> log[i].serverSeq <= since
    ensures Matching(log, since, collection) == []
  {
    if log != [] {
      NothingAfter(log[..|log| - 1], since, collection);
    }
  }

  /** Asking again from the m-th matching row yields the matching rows after it. */
  lemma {:induction false} SplitAt(log: seq<Row>, since: int, collection: string, m: nat)
    requires Ascending(log) && 0 < m <= |Matching(log, since, collection)|
    ensures var all := Matching(log, since, collection);
      all == all[..m] + Matching(log, all[m - 1].serverSeq, collection)
  {
    var front, last := log[..|log| - 1], log[|log| - 1];
    var all := Matching(log, since, collection);
    var before := Matching(front, since, collection);
    MatchingMembers(front, since, collection);
    if m <= |before| {
      SplitAt(front, since, collection, m);
      assert before[m - 1] in before;
      assert all[..m] == before[..m];
    } else {
      assert all == before + [last] && all[m - 1] == last;
      assert forall i :: 0 <= i < |log| ==> log[i].serverSeq <= last.serverSeq;
      NothingAfter(log, last.serverSeq, collection);
      assert all[..m] == all;
    }
  }

  /** One page of `log` and what a later, longer log has after its checkpoint. */
  lemma PageSplits(log: seq<Row>, longer: seq<Row>, since: int, collection: string, limit: int)
    requires log <= longer && Ascending(longer)
    ensures var page := PageSince(log, since, collection, limit);
      Matching(longer, since, collection) == page.rows + Matching(longer, page.next, collection)
  {
    var page := PageSince(log, since, collection, limit);
    var some, all := Matching(log, since, collection), Matching(longer, since, collection);
    MatchingPrefix(log, longer, since, collection);
    var m := |page.rows|;
    assert page.rows == some[..m] == all[..m];
    if m > 0 {
      SplitAt(longer, since, collection, m);
    }
  }

  // ---------------------------------------------------------------- ordering rows

  predicate Ordered(rows: seq<Row>) {
    forall i, j :: 0 <= i < j < |rows| ==> rows[i].serverSeq <= rows[j].serverSeq
  }

  lemma {:induction false} InsertMembers(rows: seq<Row>, row: Row)
    ensures multiset(InsertBySeq(rows, row)) == multiset(rows) + multiset{row}
    ensures forall r :: r in InsertBySeq(rows, row) ==> r in rows || r == row
  {
    if rows != [] {
      var n := |rows| - 1;
      assert rows == rows[..n] + [rows[n]];
      InsertMembers(rows[..n], row);
    }
  }

  lemma {:induction false} InsertKeepsOrder(rows: seq<Row>, row: Row)
    requires Ordered(rows)
    ensures Ordered(InsertBySeq(rows, row))
  {
    if rows != [] {
      var n := |rows| - 1;
      var front := InsertBySeq(rows[..n], row);
      InsertKeepsOrder(rows[..n], row);
      InsertMembers(rows[..n], row);
      if rows[n].serverSeq > row.serverSeq {
        forall i | 0 <= i < |front| ensures front[i].serverSeq <= rows[n].serverSeq {
          assert front[i] in front;
        }
      }
    }
  }

  lemma {:induction false} BySeqMembers(rows: seq<Row>)
    ensures multiset(BySeq(rows)) == multiset(rows)
  {
    hide InsertBySeq;
    if rows != [] {
      var n := |rows| - 1;
      BySeqMembers(rows[..n]);
      InsertMembers(BySeq(rows[..n]), rows[n]);
      assert rows == rows[..n] + [rows[n]];
    }
  }

  /** BySeq sorts: the same rows, in order of their numbers. */
  lemma {:induction false} BySeqSorts(rows: seq<Row>)
    ensures Ordered(BySeq(rows)) && multiset(BySeq(rows)) == multiset(rows)
  {
    hide InsertBySeq, Ordered;
    BySeqMembers(rows);
    if rows == [] {
      NothingOrdered(BySeq(rows));
    } else {
      BySeqSorts(rows[..|rows| - 1]);
      InsertKeepsOrder(BySeq(rows[..|rows| - 1]), rows[|rows| - 1]);
    }
  }

  lemma NothingOrdered(rows: seq<Row>)
    requires rows == []
    ensures Ordered(rows)
  {
  }

  lemma {:induction false} BySeqOfOrdered(rows: seq<Row>)
    requires Ordered(rows)
    ensures BySeq(rows) == rows
  {
    if rows != [] {
      var n := |rows| - 1;
      BySeqOfOrdered(rows[..n]);
      assert rows == rows[..n] + [rows[n]];
    }
  }

  lemma {:induction false} MatchingOrdered(log: seq<Row>, since: int, collection: string)
    requires Ascending(log)
    ensures Ordered(Matching(log, since, collection))
  {
    if log != [] {
      var n := |log| - 1;
      MatchingOrdered(log[..n], since, collection);
      MatchingMembers(log[..n], since, collection);
      forall r | r in Matching(log[..n], since, collection) ensures r.serverSeq <= log[n].serverSeq {
        var i :| 0 <= i < n && log[i] == r;
      }
    }
  }

  // ---------------------------------------------------------------- what one page holds

  /** Which rows a query selects: numbered, numbered after `since`, and in the collection if
      one is named. */
  lemma MatchingIff(log: seq<Row>, since: int, collection: string)
    ensures forall r :: r in Matching(log, since, collection) <==>
      r in log && r.serverSeq > since && r.serverSeq > 0 && (collection == "" || r.op.collection == collection)
  {
    MatchingMembers(log, since, collection);
  }

  /** A page spelled out: selected rows in order, at most as many as asked for (100 if no
      positive number was), none left out up to its checkpoint, and word of whether there are
      more. */
  ghost predicate IsPage(page: Page, log: seq<Row>, since: int, collection: string, limit: int) {
    && Ordered(page.rows)
    && |page.rows| <= (if limit > 0 then limit else 100)
    && (page.hasMore ==> |page.rows| == if limit > 0 then limit else 100)
    && page.next == (if page.rows == [] then since else page.rows[|page.rows| - 1].serverSeq)
    && (forall r | r in page.rows ::
         r in log && r.serverSeq > since && r.serverSeq > 0 && (collection == "" || r.op.collection == collection))
    && (forall r | r in log && r.serverSeq > since && r.serverSeq > 0
                   && (collection == "" || r.op.collection == collection) && r !in page.rows ::
         page.hasMore && r.serverSeq >= page.next)
    && (page.hasMore ==>
         exists r | r in log && r.serverSeq > since && r.serverSeq > 0
                    && (collection == "" || r.op.collection == collection) :: r.serverSeq >= page.next)
  }

  lemma BySeqSame(rows: seq<Row>)
    ensures forall r :: r in BySeq(rows) <==> r in rows
  {
    BySeqMembers(rows);
    forall r ensures r in BySeq(rows) <==> r in rows {
      assert r in multiset(BySeq(rows)) <==> r in multiset(rows);
    }
  }

  /** What cutting the first page off ordered rows does. */
  lemma CutPage(all: seq<Row>, since: int, limit: int)
    requires Ordered(all)
    ensures var page := PageOf(all, since, limit);
      && |page.rows| <= |all| && page.rows == all[..|page.rows|] && Ordered(page.rows)
      && |page.rows| <= (if limit > 0 then limit else 100)
      && (page.hasMore ==> |page.rows| == if limit > 0 then limit else 100)
      && (page.hasMore <==> |page.rows| < |all|)
      && page.next == (if page.rows == [] then since else page.rows[|page.rows| - 1].serverSeq)
      && forall i :: |page.rows| <= i < |all| ==> all[i].serverSeq >= page.next
  {
  }

  lemma BeyondPrefix(all: seq<Row>, n: nat, r: Row) returns (i: nat)
    requires n <= |all| && r in all && r !in all[..n]
    ensures n <= i < |all| && all[i] == r
  {
    forall j | 0 <= j < n ensures all[j] != r {
      assert all[..n][j] in all[..n];
    }
    i :| 0 <= i < |all| && all[i] == r;
  }

  lemma SelectedRows(log: seq<Row>, since: int, collection: string)
    ensures forall r :: r in BySeq(Matching(log, since, collection)) <==>
      r in log && r.serverSeq > since && r.serverSeq > 0 && (collection == "" || r.op.collection == collection)
  {
    BySeqSame(Matching(log, since, collection));
    MatchingIff(log, since, collection);
    hide BySeq, Matching;
  }

  lemma PageIsPage(log: seq<Row>, since: int, collection: string, limit: int)
    ensures IsPage(PageOf(BySeq(Matching(log, since, collection)), since, limit), log, since, collection, limit)
  {
    var all := BySeq(Matching(log, since, collection));
    BySeqSorts(Matching(log, since, collection));
    SelectedRows(log, since, collection);
    hide BySeq, Matching, PageOf, Ordered;
    CutPage(all, since, limit);
    CutKeepsAll(all, PageOf(all, since, limit));
  }

  lemma CutKeepsAll(all: seq<Row>, page: Page)
    requires |page.rows| <= |all| && page.rows == all[..|page.rows|]
    requires page.hasMore <==> |page.rows| < |all|
    requires forall i :: |page.rows| <= i < |all| ==> all[i].serverSeq >= page.next
    ensures forall r :: r in page.rows ==> r in all
    ensures forall r :: r in all && r !in page.rows ==> page.hasMore && r.serverSeq >= page.next
    ensures page.hasMore ==> exists r :: r in all && r.serverSeq >= page.next
  {
    forall r | r in all && r !in page.rows ensures page.hasMore && r.serverSeq >= page.next {
      var i := BeyondPrefix(all, |page.rows|, r);
    }
    if page.hasMore {
      assert all[|page.rows|] in all;
    }
  }

  lemma PageRowsSelected(page: Page, log: seq<Row>, since: int, collection: string, limit: int)
    requires IsPage(page, log, since, collection, limit)
    ensures forall r :: r in page.rows ==>
      r in log && r.serverSeq > since && r.serverSeq > 0 && (collection == "" || r.op.collection == collection)
  {
    hide Ordered;
  }

  // ---------------------------------------------------------------- whole pulls

  /** Page i is answered from logs[i]; each next page starts at the previous checkpoint. */
  function CheckpointAfter(logs: seq<seq<Row>>, since: int, collection: string, limit: int): int {
    if logs == [] then since
    else
      var n := |logs| - 1;
      PageSince(logs[n], CheckpointAfter(logs[..n], since, collection, limit), collection, limit).next
  }

  function PagesTogether(logs: seq<seq<Row>>, since: int, collection: string, limit: int): seq<Row> {
    if logs == [] then []
    else
      var n := |logs| - 1;
      PagesTogether(logs[..n], since, collection, limit)
      + PageSince(logs[n], CheckpointAfter(logs[..n], since, collection, limit), collection, limit).rows
  }

  ghost predicate AllPrefixesOf(logs: seq<seq<Row>>, log: seq<Row>) {
    forall i :: 0 <= i < |logs| ==> logs[i] <= log
  }

  /** However the log grew between pages, the pages so far followed by what the final log
      has after the checkpoint are exactly the final log's matching rows, in order: no row
      is skipped, repeated or reordered. */
  lemma {:induction false} PagesLoseNothing(logs: seq<seq<Row>>, log: seq<Row>, since: int, collection: string,
      limit: int)
    requires Ascending(log) && AllPrefixesOf(logs, log)
    ensures Matching(log, since, collection) ==
      PagesTogether(logs, since, collection, limit)
      + Matching(log, CheckpointAfter(logs, since, collection, limit), collection)
  {
    hide Matching, PageSince;
    if logs != [] {
      var n := |logs| - 1;
      PagesLoseNothing(logs[..n], log, since, collection, limit);
      PageSplits(logs[n], log, CheckpointAfter(logs[..n], since, collection, limit), collection, limit);
    }
  }

  /** When the last page says there is no more, the pages together are every matching row
      of the log that page was answered from. */
  lemma PagedPullIsSuffix(logs: seq<seq<Row>>, since: int, collection: string, limit: int)
    requires logs != [] && Ascending(logs[|logs| - 1]) && AllPrefixesOf(logs, logs[|logs| - 1])
    requires var n := |logs| - 1;
      !PageSince(logs[n], CheckpointAfter(logs[..n], since, collection, limit), collection, limit).hasMore
    ensures PagesTogether(logs, since, collection, limit) == Matching(logs[|logs| - 1], since, collection)
  {
    var n := |logs| - 1;
    var c := CheckpointAfter(logs[..n], since, collection, limit);
    PagesLoseNothing(logs[..n], logs[n], since, collection, limit);
    assert PageSince(logs[n], c, collection, limit).rows == Matching(logs[n], c, collection);
  }

  // ---------------------------------------------------------------- pulls during a run

  lemma ServerLogAscends(w: World)
    requires Reachable(w)
    ensures Ascending(w.server.oplog)
  {
    hide Reachable, DevicesInv, PullsInv, HandlersInv, ClocksPlausible, PastInv;
    ReachableInv(w);
  }

  lemma LogGrewTo(w: World, run: seq<Label>, n: nat)
    requires n <= |run|
    ensures Run(w, run[..n]).server.oplog <= Run(w, run).server.oplog
  {
    hide Step, Run;
    assert run == run[..n] + run[n..];
    RunConcat(w, run[..n], run[n..]);
    RunExtends(Run(w, run[..n]), run[n..]);
  }

  /** Page i of a pull is answered after cuts[i] steps of a run.  Whatever pushes and writes
      the run holds, the pages and the rows still to come are the server log's suffix. */
  lemma PagesDuringRun(w: World, run: seq<Label>, cuts: seq<nat>, logs: seq<seq<Row>>, since: int, collection: string,
      limit: int)
    requires Reachable(w) && |Run(w, run).readings| <= MAX_LOGICAL
    requires |logs| == |cuts| && forall i :: 0 <= i < |cuts| ==>
      cuts[i] <= |run| && logs[i] == Run(w, run[..cuts[i]]).server.oplog
    ensures var log := Run(w, run).server.oplog;
      Matching(log, since, collection) ==
        PagesTogether(logs, since, collection, limit)
        + Matching(log, CheckpointAfter(logs, since, collection, limit), collection)
  {
    hide Reachable, Run, PagesTogether, CheckpointAfter, Matching;
    ReachableRun(w, run);
    ServerLogAscends(Run(w, run));
    forall i | 0 <= i < |logs| ensures logs[i] <= Run(w, run).server.oplog {
      LogGrewTo(w, run, cuts[i]);
    }
    PagesLoseNothing(logs, Run(w, run).server.oplog, since, collection, limit);
  }
}
