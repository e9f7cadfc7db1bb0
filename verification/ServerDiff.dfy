/**
 How the server cuts a page: at most `limit` changed rows in order of time, never
 splitting rows of equal time. The client's assumption about pages is proved here.
 */
module ServerDiff {
  import opened SyncMachine

  ghost predicate SortedByTime(rows: seq<Row>) {
    forall i, j :: 0 <= i < j < |rows| ==> rows[i].version.time <= rows[j].version.time
  }

  /** The rows later than a time, as the database orders them; ties fall in any order. */
  ghost predicate Listing(s: Server, since: int, all: seq<Row>) {
    && SortedByTime(all)
    && DistinctFiles(all)
    && (forall r :: r in all ==> r.file in s.rows && s.rows[r.file] == r.version && r.version.time > since)
    && (forall f :: f in s.rows && s.rows[f].time > since ==> OnPage(f, all))
  }

  /** The list without its last rows of that time. */
  function WithoutVersion(files: seq<Row>, time: int): (kept: seq<Row>)
    ensures kept <= files
  {
    if files == [] || files[|files| - 1].version.time != time then files else WithoutVersion(files[..|files| - 1], time)
  }

  /** Of a list in order of time that ends there, exactly the rows of earlier times are left. */
  lemma {:induction false} EarlierRowsAreLeft(files: seq<Row>, time: int)
    requires SortedByTime(files) && forall r :: r in files ==> r.version.time <= time
    ensures forall r :: r in files ==> (r in WithoutVersion(files, time) <==> r.version.time < time)
  {
    if files != [] {
      var front, last := files[..|files| - 1], files[|files| - 1];
      assert forall r :: r in files <==> r in front || r == last;
      if last.version.time == time {
        EarlierRowsAreLeft(front, time);
      } else {
        forall r | r in files ensures r.version.time < time {
          var j :| 0 <= j < |files| && files[j] == r;
          assert r.version.time <= last.version.time;
        }
      }
    }
  }

  /** removeFilesWithVersion: the rows of that time are dropped from the end of the list. */
  method RemoveFilesWithVersion(files: seq<Row>, time: int) returns (kept: seq<Row>)
    ensures kept == WithoutVersion(files, time)
  {
    var i := |files| - 1;
    assert files[..i + 1] == files;
    while i >= 0 && files[i].version.time == time
      invariant -1 <= i < |files|
      invariant WithoutVersion(files, time) == WithoutVersion(files[..i + 1], time)
    {
      assert files[..i + 1][..i] == files[..i];
      i := i - 1;
    }
    kept := files[..i + 1];
  }

  /** GetFilesWithVersion: all rows of one time. */
  function WithTime(all: seq<Row>, time: int): (rows: seq<Row>)
    ensures forall r :: r in rows <==> r in all && r.version.time == time
    ensures DistinctFiles(all) ==> DistinctFiles(rows)
  {
    if all == [] then []
    else
      var front, last := WithTime(all[..|all| - 1], time), all[|all| - 1];
      assert forall r :: r in all <==> r in all[..|all| - 1] || r == last;
      if last.version.time == time then
        assert DistinctFiles(all) ==> forall r :: r in front ==> r.file != last.file by {
          if DistinctFiles(all) {
            forall r | r in front ensures r.file != last.file {
              var i :| 0 <= i < |all| - 1 && all[i] == r;
            }
          }
        }
        front + [last]
      else front
  }

  /** A down-closed part of the listing, not empty, is a page with more behind it. */
  lemma CutIsPage(s: Server, since: int, all: seq<Row>, rows: seq<Row>, bound: int)
    requires Listing(s, since, all) && DistinctFiles(rows) && rows != []
    requires forall r :: r in rows <==> r in all && r.version.time <= bound
    ensures ValidPage(s, since, Page(rows, true))
  {}

  /** The answer to a request for the rows later than a time, of which `all` is the listing. */
  function DiffPage(all: seq<Row>, limit: nat): Page {
    if |all| <= limit then Page(all, false)
    else
      var lastTime := all[limit].version.time;
      var filtered := WithoutVersion(all[..limit + 1], lastTime);
      Page(if filtered != [] then filtered else WithTime(all, lastTime), true)
  }

  lemma FrontIsLeft(all: seq<Row>, limit: nat)
    requires SortedByTime(all) && limit < |all|
    ensures
      var diff, lastTime := all[..limit + 1], all[limit].version.time;
      var rows := WithoutVersion(diff, lastTime);
      |rows| <= limit && forall r :: r in diff ==> (r in rows <==> r.version.time < lastTime)
  {
    var diff, lastTime := all[..limit + 1], all[limit].version.time;
    assert diff[limit] in diff && diff[|diff| - 1] == all[limit];
    EarlierRowsAreLeft(diff, lastTime);
  }

  lemma FilteredExactly(all: seq<Row>, limit: nat, j: nat)
    requires SortedByTime(all) && limit < |all| && j < |all|
    ensures
      var lastTime := all[limit].version.time;
      all[j] in WithoutVersion(all[..limit + 1], lastTime) <==> all[j].version.time < lastTime
  {
    FrontIsLeft(all, limit);
    var diff := all[..limit + 1];
    assert all[j] in WithoutVersion(diff, all[limit].version.time) ==> all[j] in diff;
    assert j <= limit ==> diff[j] == all[j];
  }

  /** Exactly the rows earlier than the first row over the limit stay. */
  lemma OnThePage(all: seq<Row>, limit: nat)
    requires SortedByTime(all) && limit < |all|
    ensures
      var lastTime := all[limit].version.time;
      forall r :: r in WithoutVersion(all[..limit + 1], lastTime) <==> r in all && r.version.time < lastTime
  {
    var lastTime := all[limit].version.time;
    forall r ensures r in WithoutVersion(all[..limit + 1], lastTime) <==> r in all && r.version.time < lastTime {
      FrontIsLeft(all, limit);
      if r in all {
        var j :| 0 <= j < |all| && all[j] == r;
        FilteredExactly(all, limit, j);
      }
    }
  }

  lemma FilteredIsPage(s: Server, since: int, all: seq<Row>, limit: nat)
    requires Listing(s, since, all) && limit < |all|
    requires WithoutVersion(all[..limit + 1], all[limit].version.time) != []
    ensures
      var rows := WithoutVersion(all[..limit + 1], all[limit].version.time);
      ValidPage(s, since, Page(rows, true)) && |rows| <= limit
  {
    var lastTime := all[limit].version.time;
    var rows := WithoutVersion(all[..limit + 1], lastTime);
    FrontIsLeft(all, limit);
    OnThePage(all, limit);
    CutIsPage(s, since, all, rows, lastTime - 1);
  }

  lemma OneTimeIsPage(s: Server, since: int, all: seq<Row>, limit: nat)
    requires Listing(s, since, all) && limit < |all|
    requires WithoutVersion(all[..limit + 1], all[limit].version.time) == []
    ensures ValidPage(s, since, Page(WithTime(all, all[limit].version.time), true))
  {
    var diff, lastTime := all[..limit + 1], all[limit].version.time;
    EarlierRowsAreLeft(diff, lastTime);
    assert diff[0] in diff && all[limit] in all;
    forall r | r in all ensures r in WithTime(all, lastTime) <==> r.version.time <= lastTime {
      var j :| 0 <= j < |all| && all[j] == r;
      assert diff[0].version.time <= r.version.time;
    }
    CutIsPage(s, since, all, WithTime(all, lastTime), lastTime);
  }

  lemma WholeIsPage(s: Server, since: int, all: seq<Row>)
    requires Listing(s, since, all)
    ensures ValidPage(s, since, Page(all, false))
  {}

  /** For every limit the answer is a page the client may count on. */
  lemma DiffPageIsValid(s: Server, since: int, all: seq<Row>, limit: nat)
    requires Listing(s, since, all)
    ensures
      var page := DiffPage(all, limit);
      && ValidPage(s, since, page) && (page.hasMore <==> |all| > limit)
      && (|all| <= limit ==> page.rows == all)
      && (|all| > limit ==>
            var lastTime := all[limit].version.time;
            forall r :: r in page.rows <==>
              r in all && if all[0].version.time < lastTime
                then r.version.time < lastTime else r.version.time == lastTime)
      && (|page.rows| > limit ==> forall r, r' :: r in page.rows && r' in page.rows ==>
          r.version.time == r'.version.time)
  {
    if |all| <= limit {
      WholeIsPage(s, since, all);
    } else {
      FilteredExactly(all, limit, 0);
      if WithoutVersion(all[..limit + 1], all[limit].version.time) != [] {
        FilteredIsPage(s, since, all, limit);
        OnThePage(all, limit);
      } else {
        OneTimeIsPage(s, since, all, limit);
      }
    }
  }

  /** getDiff, on the rows the database has later than the client's time. */
  method GetDiff(all: seq<Row>, limit: nat) returns (page: Page)
    ensures page == DiffPage(all, limit)
  {
    var diff := if |all| <= limit then all else all[..limit + 1];
    if |diff| <= limit {
      return Page(diff, false);
    }
    var lastTime := diff[limit].version.time;
    var filtered := RemoveFilesWithVersion(diff, lastTime);
    if |filtered| > 0 {
      return Page(filtered, true);
    }
    return Page(WithTime(all, lastTime), true);
  }
}
