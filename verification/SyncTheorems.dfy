/**
 What runs of the sync machine guarantee, where the first-sync shortcut stops being
 safe, and that pages and restarts leave no trace in the result.
 */
module SyncTheorems {
  import opened SyncMachine
  import opened ServerDiff

  // ---- one page, with or without the first-sync shortcut ----

  function PutRow(a: Album, first: bool, r: Row): Album {
    if first && r.version.removed then a
    else
      var put := a.(entries := a.entries[r.file := Entry(r.version.removed, false)]);
      if r.version.removed then put else PutFileRow(put, r.file, r.version.time)
  }

  /** The album after all rows of a page. */
  function PutRows(a: Album, first: bool, rows: seq<Row>): Album
    decreases |rows|
  {
    if rows == [] then a else PutRows(PutRow(a, first, rows[0]), first, rows[1..])
  }

  lemma {:induction false} PutRowsEffect(a: Album, first: bool, rows: seq<Row>, f: FileId)
    requires DistinctFiles(rows)
    ensures
      var a' := PutRows(a, first, rows);
      && a'.server == a.server && a'.cursor == a.cursor
      && (!OnPage(f, rows) ==> (Live(a', f) <==> Live(a, f)) && forall t :: Shows(a, f, t) ==> Shows(a', f, t))
      && (forall r :: r in rows && r.file == f ==>
            if r.version.removed
                then (Live(a', f) <==> first && Live(a, f)) else Live(a', f) && Shows(a', f, r.version.time))
    decreases |rows|
  {
    if rows != [] {
      var r0, rest := rows[0], rows[1..];
      assert forall i :: 0 <= i < |rest| ==> rest[i] == rows[i + 1];
      PutRowsEffect(PutRow(a, first, r0), first, rest, f);
      assert forall r :: r in rows <==> r == r0 || r in rest;
      assert OnPage(f, rest) ==> OnPage(f, rows) by {
        if OnPage(f, rest) {
          var r :| r in rest && r.file == f;
          assert r in rows;
        }
      }
      if r0.file == f {
        assert !OnPage(f, rest);
        assert r0 in rows;
      }
    }
  }

  /** The condition under which the first-sync shortcut loses nothing: no marker on the page has a live entry. */
  ghost predicate NoMarkerIsLive(a: Album, rows: seq<Row>, bound: int) {
    forall r :: r in rows && r.version.removed && r.version.time <= bound ==> !Live(a, r.file)
  }

  /** After a page, everything up to the next cursor is reflected iff a first sync met no marker of a live entry. */
  lemma PageSoundExactly(a: Album, first: bool, page: Page, target: int)
    requires CursorSound(a) && ValidPage(a.server, a.cursor, page)
    ensures
      var bound := if page.hasMore then PageMax(a.cursor, page.rows) else target;
      SoundUpTo(PutRows(a, first, page.rows), bound) <==> (first ==> NoMarkerIsLive(a, page.rows, bound))
  {
    var a', bound := PutRows(a, first, page.rows), if page.hasMore then PageMax(a.cursor, page.rows) else target;
    PutRowsEffect(a, first, page.rows, 0);
    if first ==> NoMarkerIsLive(a, page.rows, bound) {
      forall f | f in a.server.rows && a.server.rows[f].time <= bound ensures Reflected(a', f) {
        PutRowsEffect(a, first, page.rows, f);
        if a.server.rows[f].time <= a.cursor {
          assert Reflected(a, f) && !OnPage(f, page.rows);
        } else {
          assert OnPage(f, page.rows);
          var r :| r in page.rows && r.file == f;
        }
      }
    } else {
      var r :| r in page.rows && r.version.removed && r.version.time <= bound && Live(a, r.file);
      PutRowsEffect(a, first, page.rows, r.file);
      assert !Reflected(a', r.file);
    }
  }

  /** The machine's steps for one row. */
  ghost function RowLabels(first: bool, r: Row): seq<Label> {
    if first && r.version.removed then [SkipRow] else if r.version.removed then [PutEntry] else [PutEntry, PutFile]
  }

  ghost function PageLabels(first: bool, rows: seq<Row>): seq<Label>
    decreases |rows|
  {
    if rows == [] then [] else RowLabels(first, rows[0]) + PageLabels(first, rows[1..])
  }

  lemma RowSteps(w: World)
    requires AtRow(w) && !w.run.entryPut
    ensures
      var ls := RowLabels(w.run.first, Current(w));
      Runs(w, ls) && After(w, ls) == World(PutRow(w.album, w.run.first, Current(w)), w.run.(i := w.run.i + 1))
  {
    var ls := RowLabels(w.run.first, Current(w));
    assert ls[1..] == if |ls| == 2 then [PutFile] else [];
    if |ls| == 2 {
      var w1 := Apply(w, PutEntry);
      assert ls[1..][1..] == [];
      assert Runs(w1, [PutFile]) && After(w1, [PutFile]) == Apply(w1, PutFile) by {
        assert [PutFile][1..] == [];
      }
    }
  }

  /** The page's rows put one after the other are a run of the machine. */
  lemma {:induction false} PageSteps(w: World)
    requires w.run.Applying? && w.run.i <= |w.run.page.rows| && !w.run.entryPut
    ensures
      var rows := w.run.page.rows[w.run.i..];
      var ls := PageLabels(w.run.first, rows);
      && Runs(w, ls)
      && After(w, ls) == World(PutRows(w.album, w.run.first, rows), w.run.(i := |w.run.page.rows|))
    decreases |w.run.page.rows| - w.run.i
  {
    var rows := w.run.page.rows[w.run.i..];
    if AtRow(w) {
      RowSteps(w);
      var w1 := World(PutRow(w.album, w.run.first, Current(w)), w.run.(i := w.run.i + 1));
      PageSteps(w1);
      assert rows[0] == Current(w) && rows[1..] == w.run.page.rows[w.run.i + 1..];
      RunAppend(w, RowLabels(w.run.first, Current(w)), PageLabels(w.run.first, rows[1..]));
    }
  }

  // ---- holding removals back only while the cursor is zero is not enough ----

  /** The page is an answer the server gives with this limit. */
  ghost predicate Served(s: Server, since: int, page: Page, limit: nat) {
    exists all :: Listing(s, since, all) && page == DiffPage(all, limit)
  }

  /** Removals wait only for the first cursor, and pages are answers of the server with limit 1. */
  ghost predicate EnabledLoosely(w: World, l: Label) {
    && EnabledAtAll(w, l)
    && (l.ServerChange? && l.version.removed && w.album.cursor == 0 ==> !ShownOrFetched(w, l.f))
    && (l.Fetch? ==> Served(w.album.server, w.album.cursor, l.page, 1))
  }

  ghost predicate RunsLoosely(w: World, ls: seq<Label>)
    decreases |ls|
  {
    ls == [] || (EnabledLoosely(w, ls[0]) && RunsLoosely(Apply(w, ls[0]), ls[1..]))
  }

  ghost function AfterLoosely(w: World, ls: seq<Label>): World
    requires RunsLoosely(w, ls)
    decreases |ls|
  {
    if ls == [] then w else AfterLoosely(Apply(w, ls[0]), ls[1..])
  }

  ghost function Empty(s: Server): World {
    World(Album(s, map[], map[], map[], 0, 0), Idle)
  }

  const LIVE := Version(1, false)
  const GONE := Version(3, true)
  const TWO_FILES := Server(map[7 := LIVE, 8 := Version(2, false)], 2)
  const ONE_GONE := Server(map[7 := GONE, 8 := Version(2, false)], 3)
  const ONE_GONE_ONE_NEWER := Server(map[7 := GONE, 8 := Version(4, false)], 4)
  const FIRST_PAGE := Page([Row(7, LIVE)], true)
  const SECOND_PAGE := Page([Row(7, GONE)], true)

  /** The first page of a first run, and a second one; between them its file is removed and the other one changed. */
  ghost function FirstHalf(): seq<Label> {
    [Begin(2), Fetch(FIRST_PAGE), PutEntry, PutFile, SaveCursor]
  }

  ghost function SecondHalf(): seq<Label> {
    [ServerChange(7, GONE), ServerChange(8, Version(4, false)), Fetch(SECOND_PAGE), SkipRow, SaveCursor]
  }

  ghost function Before(entries: map<FileId, Entry>, files: map<FileId, FileRow>, next: nat, cursor: int,
                        run: Run): World {
    World(Album(TWO_FILES, entries, files, files, next, cursor), run)
  }

  ghost function Later(s: Server, cursor: int, run: Run): World {
    var files := map[7 := FileRow(1, 0)];
    World(Album(s, map[7 := Entry(false, false)], files, files, 1, cursor), run)
  }

  ghost predicate Leads(w: World, l: Label, w': World) {
    EnabledLoosely(w, l) && Apply(w, l) == w'
  }

  lemma TwoRowListing(s: Server, since: int, x: Row, y: Row)
    requires s.rows == map[x.file := x.version, y.file := y.version] && x.file != y.file
    requires since < x.version.time < y.version.time
    ensures Listing(s, since, [x, y])
  {
    var all := [x, y];
    assert all[0] in all && all[1] in all;
  }

  lemma TwoRowPage(x: Row, y: Row)
    requires x.version.time < y.version.time
    ensures DiffPage([x, y], 1) == Page([x], true)
  {
    var all := [x, y];
    assert all[..2] == all && all[..1] == [x];
    assert WithoutVersion([x], y.version.time) == [x];
    assert WithoutVersion(all, y.version.time) == WithoutVersion(all[..1], y.version.time);
  }

  /** Of two changed rows the server sends the earlier one first. */
  lemma TwoRowsServed(s: Server, since: int, x: Row, y: Row)
    requires s.rows == map[x.file := x.version, y.file := y.version] && x.file != y.file
    requires since < x.version.time < y.version.time
    ensures Served(s, since, Page([x], true), 1) && ValidPage(s, since, Page([x], true))
  {
    TwoRowListing(s, since, x, y);
    TwoRowPage(x, y);
    DiffPageIsValid(s, since, [x, y], 1);
  }

  lemma PageTimes()
    ensures PageMax(0, FIRST_PAGE.rows) == 1 && PageMax(1, SECOND_PAGE.rows) == 3
  {
    assert FIRST_PAGE.rows[..0] == [] && SECOND_PAGE.rows[..0] == [];
  }

  lemma FirstFetch()
    ensures
      && Leads(Empty(TWO_FILES), Begin(2), Before(map[], map[], 0, 0, Ready(true, 2)))
      && Leads(Before(map[], map[], 0, 0, Ready(true, 2)), Fetch(FIRST_PAGE),
               Before(map[], map[], 0, 0, Applying(true, 2, FIRST_PAGE, 0, false)))
  {
    TwoRowsServed(TWO_FILES, 0, Row(7, LIVE), Row(8, Version(2, false)));
  }

  lemma FirstPuts()
    ensures
      var e, fs := map[7 := Entry(false, false)], map[7 := FileRow(1, 0)];
      && Leads(Before(map[], map[], 0, 0, Applying(true, 2, FIRST_PAGE, 0, false)), PutEntry,
               Before(e, map[], 0, 0, Applying(true, 2, FIRST_PAGE, 0, true)))
      && Leads(Before(e, map[], 0, 0, Applying(true, 2, FIRST_PAGE, 0, true)), PutFile,
               Before(e, fs, 1, 0, Applying(true, 2, FIRST_PAGE, 1, false)))
      && Leads(Before(e, fs, 1, 0, Applying(true, 2, FIRST_PAGE, 1, false)), SaveCursor,
               Later(TWO_FILES, 1, Ready(true, 2)))
  {
    PageTimes();
  }

  lemma RemovedMeanwhile()
    ensures
      && Leads(Later(TWO_FILES, 1, Ready(true, 2)), ServerChange(7, GONE), Later(ONE_GONE, 1, Ready(true, 2)))
      && Leads(Later(ONE_GONE, 1, Ready(true, 2)), ServerChange(8, Version(4, false)),
               Later(ONE_GONE_ONE_NEWER, 1, Ready(true, 2)))
  {
    assert TWO_FILES.rows[7 := GONE] == ONE_GONE.rows;
    assert ONE_GONE.rows[8 := Version(4, false)] == ONE_GONE_ONE_NEWER.rows;
  }

  lemma SecondFetch()
    ensures
      var s := ONE_GONE_ONE_NEWER;
      && Leads(Later(s, 1, Ready(true, 2)), Fetch(SECOND_PAGE), Later(s, 1, Applying(true, 2, SECOND_PAGE, 0, false)))
      && Leads(Later(s, 1, Applying(true, 2, SECOND_PAGE, 0, false)), SkipRow,
               Later(s, 1, Applying(true, 2, SECOND_PAGE, 1, false)))
      && Leads(Later(s, 1, Applying(true, 2, SECOND_PAGE, 1, false)), SaveCursor, Later(s, 3, Ready(true, 2)))
  {
    TwoRowsServed(ONE_GONE_ONE_NEWER, 1, Row(7, GONE), Row(8, Version(4, false)));
    PageTimes();
  }

  ghost predicate Reaches(w: World, ls: seq<Label>, w': World) {
    RunsLoosely(w, ls) && AfterLoosely(w, ls) == w'
  }

  /** A run given by the states it passes through. */
  ghost predicate Passes(ws: seq<World>, ls: seq<Label>) {
    |ws| == |ls| + 1 && forall i :: 0 <= i < |ls| ==> Leads(ws[i], ls[i], ws[i + 1])
  }

  lemma {:induction false} PassingReaches(ws: seq<World>, ls: seq<Label>)
    requires Passes(ws, ls)
    ensures Reaches(ws[0], ls, ws[|ls|])
    decreases |ls|
  {
    if ls != [] {
      assert ws[1..][0] == ws[1];
      forall i | 0 <= i < |ls[1..]| ensures Leads(ws[1..][i], ls[1..][i], ws[1..][i + 1]) {
        assert Leads(ws[i + 1], ls[i + 1], ws[i + 2]);
      }
      PassingReaches(ws[1..], ls[1..]);
    }
  }

  lemma {:induction false} ReachesAppend(w: World, ls: seq<Label>, w1: World, ls': seq<Label>, w2: World)
    requires Reaches(w, ls, w1) && Reaches(w1, ls', w2)
    ensures Reaches(w, ls + ls', w2)
    decreases |ls|
  {
    if ls == [] {
      assert ls + ls' == ls';
    } else {
      assert (ls + ls')[1..] == ls[1..] + ls';
      ReachesAppend(Apply(w, ls[0]), ls[1..], w1, ls', w2);
    }
  }

  lemma FirstHalfReaches()
    ensures Reaches(Empty(TWO_FILES), FirstHalf(), Later(TWO_FILES, 1, Ready(true, 2)))
  {
    var e, fs := map[7 := Entry(false, false)], map[7 := FileRow(1, 0)];
    var ws := [
      Empty(TWO_FILES),
      Before(map[], map[], 0, 0, Ready(true, 2)),
      Before(map[], map[], 0, 0, Applying(true, 2, FIRST_PAGE, 0, false)),
      Before(e, map[], 0, 0, Applying(true, 2, FIRST_PAGE, 0, true)),
      Before(e, fs, 1, 0, Applying(true, 2, FIRST_PAGE, 1, false)),
      Later(TWO_FILES, 1, Ready(true, 2))];
    FirstFetch();
    FirstPuts();
    PassingReaches(ws, FirstHalf());
  }

  lemma SecondHalfReaches()
    ensures Reaches(Later(TWO_FILES, 1, Ready(true, 2)), SecondHalf(), Later(ONE_GONE_ONE_NEWER, 3, Ready(true, 2)))
  {
    var s := ONE_GONE_ONE_NEWER;
    var ws := [
      Later(TWO_FILES, 1, Ready(true, 2)),
      Later(ONE_GONE, 1, Ready(true, 2)),
      Later(s, 1, Ready(true, 2)),
      Later(s, 1, Applying(true, 2, SECOND_PAGE, 0, false)),
      Later(s, 1, Applying(true, 2, SECOND_PAGE, 1, false)),
      Later(s, 3, Ready(true, 2))];
    RemovedMeanwhile();
    SecondFetch();
    PassingReaches(ws, SecondHalf());
  }

  /**
   With removals held back only at cursor zero, a run on pages the server really gives
   can leave a removed file live behind the cursor.
   */
  lemma FrozenAtZeroIsNotEnough()
    ensures RunsLoosely(Empty(TWO_FILES), FirstHalf() + SecondHalf())
    ensures !CursorSound(AfterLoosely(Empty(TWO_FILES), FirstHalf() + SecondHalf()).album)
  {
    var middle, end := Later(TWO_FILES, 1, Ready(true, 2)), Later(ONE_GONE_ONE_NEWER, 3, Ready(true, 2));
    FirstHalfReaches();
    SecondHalfReaches();
    ReachesAppend(Empty(TWO_FILES), FirstHalf(), middle, SecondHalf(), end);
    assert !Reflected(end.album, 7);
  }

  // ---- pages and restarts leave no trace ----

  ghost predicate QuietRun(w: World, ls: seq<Label>) {
    Runs(w, ls) && AllQuiet(ls)
  }

  /** Everything stored so far is what the server says. */
  ghost predicate OnlyServer(w: World, s: Server) {
    && w.album.server == s
    && NoStale(w.album)
    && (forall f :: f in w.album.files ==>
          f in s.rows && !s.rows[f].removed && w.album.files[f].time == s.rows[f].time)
    && (w.run.Applying? ==> forall r :: r in w.run.page.rows ==> r.file in s.rows && s.rows[r.file] == r.version)
  }

  lemma QuietStepKeeps(w: World, l: Label, s: Server)
    requires Inv(w) && OnlyServer(w, s) && Enabled(w, l) && Quiet(l)
    ensures OnlyServer(Apply(w, l), s)
  {}

  lemma {:induction false} QuietRunKeeps(w: World, ls: seq<Label>, s: Server)
    requires Inv(w) && OnlyServer(w, s) && QuietRun(w, ls)
    ensures Inv(After(w, ls)) && OnlyServer(After(w, ls), s)
    decreases |ls|
  {
    if ls != [] {
      StepKeeps(w, ls[0]);
      QuietStepKeeps(w, ls[0], s);
      assert forall l :: l in ls[1..] ==> l in ls;
      QuietRunKeeps(Apply(w, ls[0]), ls[1..], s);
    }
  }

  ghost function LiveEntries(a: Album): set<FileId> {
    set f | f in a.entries && !a.entries[f].removed
  }

  ghost function LiveOnServer(s: Server): set<FileId> {
    set f | f in s.rows && !s.rows[f].removed
  }

  ghost function Times(files: map<FileId, FileRow>): map<FileId, int> {
    map f | f in files :: files[f].time
  }

  ghost function FileRowsOnServer(s: Server): map<FileId, int> {
    map f | f in s.rows && !s.rows[f].removed :: s.rows[f].time
  }

  /** However the pages are cut and wherever the run is stopped and restarted, a caught-up album is the server's. */
  lemma CaughtUp(s: Server, ls: seq<Label>)
    requires ServerOk(s) && QuietRun(Empty(s), ls)
    requires After(Empty(s), ls).album.cursor == s.lastUpdatedAt
    ensures LiveEntries(After(Empty(s), ls).album) == LiveOnServer(s)
    ensures Times(After(Empty(s), ls).album.files) == FileRowsOnServer(s)
  {
    assert Inv(Empty(s));
    QuietRunKeeps(Empty(s), ls, s);
    var a := After(Empty(s), ls).album;
    forall f ensures f in LiveEntries(a) <==> f in LiveOnServer(s) {
      assert f in LiveEntries(a) ==> Live(a, f);
      assert f in s.rows ==> Reflected(a, f);
    }
    var expected := FileRowsOnServer(s);
    forall f ensures f in a.files.Keys <==> f in expected.Keys {
      assert f in s.rows ==> Reflected(a, f);
      assert f in a.files ==> f in s.rows && !s.rows[f].removed;
    }
    assert a.files.Keys == expected.Keys;
    assert forall f :: f in a.files ==> a.files[f].time == expected[f];
  }

  /** Page and restart independence. */
  lemma PageAndRestartIndependence(s: Server, ls: seq<Label>, ls': seq<Label>)
    requires ServerOk(s) && QuietRun(Empty(s), ls) && QuietRun(Empty(s), ls')
    requires After(Empty(s), ls).album.cursor == s.lastUpdatedAt == After(Empty(s), ls').album.cursor
    ensures LiveEntries(After(Empty(s), ls).album) == LiveEntries(After(Empty(s), ls').album)
    ensures Times(After(Empty(s), ls).album.files) == Times(After(Empty(s), ls').album.files)
  {
    CaughtUp(s, ls);
    CaughtUp(s, ls');
  }
}
