/**
 Incremental sync of one album as a state machine. The server holds one row per
 file, the client pulls pages behind a persisted cursor, and each database put is a
 step of its own, so a stop can fall between any two of them.
 */
module SyncMachine {
  type FileId = int

  /** One row of the server: when the file was last changed in the album, and whether it was removed. */
  datatype Version = Version(time: int, removed: bool)
  datatype Server = Server(rows: map<FileId, Version>, lastUpdatedAt: int)

  datatype Row = Row(file: FileId, version: Version)
  datatype Page = Page(rows: seq<Row>, hasMore: bool)

  datatype Entry = Entry(removed: bool, synced: bool)

  /** A stored file row: the time of the version it came from, and the ordinal of the put that stored it. */
  datatype FileRow = FileRow(time: int, stamp: nat)

  /**
   An album and the client's record of it. All albums share the file rows and number their
   puts with `next`; `applied` has the rows this album itself has put last.
   */
  datatype Album = Album(server: Server, entries: map<FileId, Entry>, files: map<FileId, FileRow>,
                         applied: map<FileId, FileRow>, next: nat, cursor: int)

  // ---- pages ----

  /** maxUpdated after the rows: the largest time among them and the cursor. */
  function PageMax(cursor: int, rows: seq<Row>): (m: int)
    ensures m >= cursor
    ensures forall r :: r in rows ==> r.version.time <= m
    ensures m == cursor || exists r :: r in rows && r.version.time == m
  {
    if rows == [] then cursor
    else
      var m := PageMax(cursor, rows[..|rows| - 1]);
      var last := rows[|rows| - 1];
      assert forall r :: r in rows ==> r in rows[..|rows| - 1] || r == last;
      if last.version.time > m then last.version.time else m
  }

  ghost predicate OnPage(f: FileId, rows: seq<Row>) {
    exists r :: r in rows && r.file == f
  }

  ghost predicate DistinctFiles(rows: seq<Row>) {
    forall i, j :: 0 <= i < j < |rows| ==> rows[i].file != rows[j].file
  }

  /** A page is a cut of the rows later than the cursor; equal times are never split. */
  ghost predicate ValidPage(s: Server, cursor: int, page: Page) {
    && DistinctFiles(page.rows)
    && (forall r :: r in page.rows ==> r.file in s.rows && s.rows[r.file] == r.version && r.version.time > cursor)
    && (forall f | f in s.rows && cursor < s.rows[f].time ::
          s.rows[f].time <= PageMax(cursor, page.rows) || !page.hasMore ==> OnPage(f, page.rows))
    && (page.hasMore ==> page.rows != [])
  }

  // ---- what the cursor promises ----

  ghost predicate Live(a: Album, f: FileId) {
    f in a.entries && !a.entries[f].removed
  }

  /** The stored file row is the one this album has put, or another album has put the file since. */
  ghost predicate SameOrLater(files: map<FileId, FileRow>, row: FileRow, f: FileId) {
    f in files && row.stamp <= files[f].stamp && (row.stamp == files[f].stamp ==> files[f] == row)
  }

  /** This album has put the file at the time or later, and that row or a later put is the stored one. */
  ghost predicate Shows(a: Album, f: FileId, t: int) {
    f in a.applied && a.applied[f].time >= t && SameOrLater(a.files, a.applied[f], f)
  }

  /**
   The server's row of f shows locally: a live entry with that version of the file or a newer one,
   or no live entry.
   */
  ghost predicate Reflected(a: Album, f: FileId)
    requires f in a.server.rows
  {
    if a.server.rows[f].removed then !Live(a, f) else Live(a, f) && Shows(a, f, a.server.rows[f].time)
  }

  /** Everything up to the time is reflected. */
  ghost predicate SoundUpTo(a: Album, t: int) {
    forall f :: f in a.server.rows && a.server.rows[f].time <= t ==> Reflected(a, f)
  }

  ghost predicate CursorSound(a: Album) {
    SoundUpTo(a, a.cursor)
  }

  // ---- the machine ----

  datatype Run =
    | Idle
    | Ready(first: bool, target: int)
    | Applying(first: bool, target: int, page: Page, i: nat, entryPut: bool)

  datatype World = World(album: Album, run: Run)

  datatype Label =
    | ServerChange(f: FileId, version: Version)
    | ServerTouch(t: int)
    | OtherAlbumPut(f: FileId, t: int)
    | Begin(target: int)
    | Fetch(page: Page)
    | SkipRow
    | PutEntry
    | PutFile
    | SaveCursor
    | Stop
    | MarkSynced(f: FileId)
    | DropEntry(f: FileId)

  /** A first sync is open: one is running, or none has stored a cursor yet. */
  ghost predicate FirstSyncOpen(w: World) {
    w.album.cursor == 0 || (w.run != Idle && w.run.first)
  }

  /** The client shows the file in the album, or is about to: its page has the file live. */
  ghost predicate ShownOrFetched(w: World, f: FileId) {
    Live(w.album, f) || (w.run.Applying? && exists r :: r in w.run.page.rows && r.file == f && !r.version.removed)
  }

  /**
   The steps, with the hypothesis that no file the client shows or has fetched is removed while a
   first sync is open.
   */
  ghost predicate Enabled(w: World, l: Label) {
    && (l.ServerChange? && l.version.removed && FirstSyncOpen(w) ==> !ShownOrFetched(w, l.f))
    && EnabledAtAll(w, l)
  }

  ghost predicate EnabledAtAll(w: World, l: Label) {
    match l
    case ServerChange(f, version) => version.time > w.album.server.lastUpdatedAt
    case ServerTouch(t) => t > w.album.server.lastUpdatedAt
    case OtherAlbumPut(f, t) => true
    case Begin(target) => w.run == Idle && 0 < target <= w.album.server.lastUpdatedAt
    case Fetch(page) => w.run.Ready? && w.album.cursor != w.run.target
        && ValidPage(w.album.server, w.album.cursor, page)
    case SkipRow => AtRow(w) && !w.run.entryPut && Current(w).version.removed && w.run.first
    case PutEntry => AtRow(w) && !w.run.entryPut && !(Current(w).version.removed && w.run.first)
    case PutFile => AtRow(w) && w.run.entryPut
    case SaveCursor => w.run.Applying? && w.run.i == |w.run.page.rows|
    case Stop => w.run != Idle
    case MarkSynced(f) => w.run == Idle && f in w.album.entries
    case DropEntry(f) => w.run == Idle && f in w.album.entries && w.album.entries[f].removed
  }

  ghost predicate AtRow(w: World) {
    w.run.Applying? && w.run.i < |w.run.page.rows|
  }

  ghost function Current(w: World): Row
    requires AtRow(w)
  {
    w.run.page.rows[w.run.i]
  }

  /** The cursor stored after a page: the album's own time once there is no more. */
  ghost function NextCursor(w: World): int
    requires w.run.Applying?
  {
    if w.run.page.hasMore then PageMax(w.album.cursor, w.run.page.rows) else w.run.target
  }

  /** The album's own put of a file row. */
  function PutFileRow(a: Album, f: FileId, t: int): Album {
    var row := FileRow(t, a.next);
    a.(files := a.files[f := row], applied := a.applied[f := row], next := a.next + 1)
  }

  ghost function Apply(w: World, l: Label): World
    requires EnabledAtAll(w, l)
  {
    var a := w.album;
    match l
    case ServerChange(f, version) => w.(album := a.(server := Server(a.server.rows[f := version], version.time)))
    case ServerTouch(t) => w.(album := a.(server := a.server.(lastUpdatedAt := t)))
    case OtherAlbumPut(f, t) => w.(album := a.(files := a.files[f := FileRow(t, a.next)], next := a.next + 1))
    case Begin(target) => w.(run := Ready(a.cursor == 0, target))
    case Fetch(page) => w.(run := Applying(w.run.first, w.run.target, page, 0, false))
    case SkipRow => w.(run := w.run.(i := w.run.i + 1))
    case PutEntry =>
      var r := Current(w);
      var a' := a.(entries := a.entries[r.file := Entry(r.version.removed, false)]);
      World(a', if r.version.removed then w.run.(i := w.run.i + 1) else w.run.(entryPut := true))
    case PutFile =>
      var r := Current(w);
      World(PutFileRow(a, r.file, r.version.time), w.run.(i := w.run.i + 1, entryPut := false))
    case SaveCursor => World(a.(cursor := NextCursor(w)), Ready(w.run.first, w.run.target))
    case Stop => w.(run := Idle)
    case MarkSynced(f) => w.(album := a.(entries := a.entries[f := a.entries[f].(synced := true)]))
    case DropEntry(f) => w.(album := a.(entries := a.entries - {f}))
  }

  // ---- the invariant ----

  ghost predicate ServerOk(s: Server) {
    s.lastUpdatedAt >= 0 && forall f :: f in s.rows ==> 0 < s.rows[f].time <= s.lastUpdatedAt
  }

  /** Stamps are those of puts made, and what this album has put is stored unless put again since. */
  ghost predicate StampsOk(a: Album) {
    && (forall f :: f in a.files ==> a.files[f].stamp < a.next)
    && (forall f :: f in a.applied ==> SameOrLater(a.files, a.applied[f], f))
  }

  /** No live entry for a file the server has removed. */
  ghost predicate NoStale(a: Album) {
    forall f :: Live(a, f) ==> f in a.server.rows && !a.server.rows[f].removed
  }

  ghost predicate AlbumOk(a: Album) {
    && ServerOk(a.server) && StampsOk(a)
    && 0 <= a.cursor <= a.server.lastUpdatedAt
    && a.entries.Keys <= a.server.rows.Keys
    && CursorSound(a)
  }

  /** A row of the page from position i on shows the server's present version of f. */
  ghost predicate Pending(w: World, f: FileId)
    requires w.run.Applying? && w.run.i <= |w.run.page.rows| && f in w.album.server.rows
  {
    exists j :: w.run.i <= j < |w.run.page.rows| && w.run.page.rows[j] == Row(f, w.album.server.rows[f])
  }

  /**
   A fetched row is the server's still, or has been overtaken by one later than the next
   cursor, which in a first sync has not removed a file that the page has live.
   */
  ghost predicate RowOk(w: World, r: Row)
    requires w.run.Applying?
  {
    && r.version.time > w.album.cursor
    && r.file in w.album.server.rows
    && (w.album.server.rows[r.file] == r.version ||
        (w.album.server.rows[r.file].time > NextCursor(w) && w.album.server.rows[r.file].time > r.version.time
           && (w.run.first && w.album.server.rows[r.file].removed ==> r.version.removed)))
  }

  ghost predicate ApplyingOk(w: World)
    requires w.run.Applying?
  {
    && w.run.i <= |w.run.page.rows|
    && 0 < NextCursor(w) <= w.album.server.lastUpdatedAt
    && DistinctFiles(w.run.page.rows)
    && (forall r :: r in w.run.page.rows ==> RowOk(w, r))
    && (forall f :: f in w.album.server.rows && w.album.server.rows[f].time <= NextCursor(w)
          ==> Reflected(w.album, f) || Pending(w, f))
    && (w.run.entryPut ==> AtRow(w) && !Current(w).version.removed && Live(w.album, Current(w).file))
  }

  ghost predicate Inv(w: World) {
    && AlbumOk(w.album)
    && (FirstSyncOpen(w) ==> NoStale(w.album))
    && (w.run != Idle ==> 0 < w.run.target <= w.album.server.lastUpdatedAt && (w.album.cursor == 0 ==> w.run.first))
    && (w.run.Applying? ==> ApplyingOk(w))
  }

  ghost function Initial(): World {
    World(Album(Server(map[], 0), map[], map[], map[], 0, 0), Idle)
  }

  lemma InitialOk()
    ensures Inv(Initial())
  {}

  lemma ServerChangeKeeps(w: World, l: Label)
    requires Inv(w) && Enabled(w, l) && l.ServerChange?
    ensures Inv(Apply(w, l))
  {
    var w' := Apply(w, l);
    assert forall f :: Live(w'.album, f) <==> Live(w.album, f);
    assert forall f :: f in w.album.server.rows && f != l.f ==> Reflected(w'.album, f) == Reflected(w.album, f);
    if w.run.Applying? {
      assert NextCursor(w') == NextCursor(w);
      forall r | r in w'.run.page.rows ensures RowOk(w', r) {
        assert RowOk(w, r);
      }
      forall f | f in w'.album.server.rows && w'.album.server.rows[f].time <= NextCursor(w')
        ensures Reflected(w'.album, f) || Pending(w', f)
      {
        assert f != l.f;
        assert Reflected(w.album, f) || Pending(w, f);
      }
    }
  }

  /** File rows were only put, under new stamps. */
  ghost predicate FilesLater(files: map<FileId, FileRow>, next: nat, files': map<FileId, FileRow>, next': nat) {
    && next <= next' && files.Keys <= files'.Keys
    && forall f :: f in files' ==>
         files'[f].stamp < next' && (files'[f].stamp >= next || (f in files && files'[f] == files[f]))
  }

  lemma StoredStays(files: map<FileId, FileRow>, next: nat, files': map<FileId, FileRow>, next': nat, row: FileRow,
                    f: FileId)
    requires FilesLater(files, next, files', next') && SameOrLater(files, row, f) && files[f].stamp < next
    ensures SameOrLater(files', row, f)
  {}

  /** File rows put for other albums take nothing from this one. */
  lemma FilesLaterKeep(w: World, files': map<FileId, FileRow>, next': nat)
    requires Inv(w) && FilesLater(w.album.files, w.album.next, files', next')
    ensures Inv(w.(album := w.album.(files := files', next := next')))
  {
    var a := w.album;
    var w' := w.(album := a.(files := files', next := next'));
    forall f | f in a.applied ensures SameOrLater(files', a.applied[f], f) {
      StoredStays(a.files, a.next, files', next', a.applied[f], f);
    }
    assert forall f :: Live(w'.album, f) <==> Live(a, f);
    assert forall f :: f in a.server.rows && Reflected(a, f) ==> Reflected(w'.album, f);
    if w.run.Applying? {
      assert NextCursor(w') == NextCursor(w);
      assert forall r :: RowOk(w, r) ==> RowOk(w', r);
      assert forall f :: f in a.server.rows && Pending(w, f) ==> Pending(w', f);
    }
  }

  lemma OtherPutKeeps(w: World, l: Label)
    requires Inv(w) && Enabled(w, l) && l.OtherAlbumPut?
    ensures Inv(Apply(w, l))
  {
    FilesLaterKeep(w, w.album.files[l.f := FileRow(l.t, w.album.next)], w.album.next + 1);
  }

  lemma TouchKeeps(w: World, l: Label)
    requires Inv(w) && Enabled(w, l) && l.ServerTouch?
    ensures Inv(Apply(w, l))
  {
    var w' := Apply(w, l);
    assert forall f :: Live(w'.album, f) <==> Live(w.album, f);
    assert forall f :: f in w.album.server.rows && Reflected(w.album, f) ==> Reflected(w'.album, f);
    if w.run.Applying? {
      assert NextCursor(w') == NextCursor(w);
      assert forall r :: RowOk(w, r) ==> RowOk(w', r);
      assert forall f :: f in w.album.server.rows && Pending(w, f) ==> Pending(w', f);
    }
  }

  lemma RunControlKeeps(w: World, l: Label)
    requires Inv(w) && Enabled(w, l) && (l.Begin? || l.Stop? || l.MarkSynced? || l.DropEntry?)
    ensures Inv(Apply(w, l))
  {}

  lemma FetchKeeps(w: World, l: Label)
    requires Inv(w) && Enabled(w, l) && l.Fetch?
    ensures Inv(Apply(w, l))
  {
    var w' := Apply(w, l);
    forall f | f in w'.album.server.rows && w'.album.server.rows[f].time <= NextCursor(w')
      ensures Reflected(w'.album, f) || Pending(w', f)
    {
      if w.album.cursor < w.album.server.rows[f].time {
        assert OnPage(f, l.page.rows);
        var r :| r in l.page.rows && r.file == f;
        var j :| 0 <= j < |l.page.rows| && l.page.rows[j] == r;
        assert w'.run.page.rows[j] == Row(f, w.album.server.rows[f]);
      } else {
        assert Reflected(w.album, f);
      }
    }
  }

  /** Skipping a delete marker is safe because, in a first sync, no live entry is stale. */
  lemma SkipKeeps(w: World, l: Label)
    requires Inv(w) && Enabled(w, l) && l.SkipRow?
    ensures Inv(Apply(w, l))
  {
    var w', r := Apply(w, l), Current(w);
    assert RowOk(w, r);
    assert forall x :: RowOk(w, x) ==> RowOk(w', x);
    forall f | f in w'.album.server.rows && w'.album.server.rows[f].time <= NextCursor(w')
      ensures Reflected(w'.album, f) || Pending(w', f)
    {
      assert Reflected(w.album, f) || Pending(w, f);
    }
  }

  lemma PutEntryKeeps(w: World, l: Label)
    requires Inv(w) && Enabled(w, l) && l.PutEntry?
    ensures Inv(Apply(w, l))
  {
    var w', r := Apply(w, l), Current(w);
    assert RowOk(w, r);
    assert forall x :: RowOk(w, x) ==> RowOk(w', x);
    assert forall f :: f != r.file ==> (Live(w'.album, f) <==> Live(w.album, f));
    assert forall f :: f in w.album.server.rows && f != r.file ==> Reflected(w'.album, f) == Reflected(w.album, f);
    forall f | f in w'.album.server.rows && w'.album.server.rows[f].time <= NextCursor(w')
      ensures Reflected(w'.album, f) || Pending(w', f)
    {
      assert Reflected(w.album, f) || Pending(w, f);
      if f == r.file && !r.version.removed {
        assert w'.run.page.rows[w'.run.i] == Row(f, w.album.server.rows[f]);
      }
    }
  }

  lemma PutFileKeeps(w: World, l: Label)
    requires Inv(w) && Enabled(w, l) && l.PutFile?
    ensures Inv(Apply(w, l))
  {
    var w', r := Apply(w, l), Current(w);
    assert RowOk(w, r);
    assert forall x :: RowOk(w, x) ==> RowOk(w', x);
    assert forall f :: f in w.album.server.rows && f != r.file && Reflected(w.album, f) ==> Reflected(w'.album, f);
    forall f | f in w'.album.server.rows && w'.album.server.rows[f].time <= NextCursor(w')
      ensures Reflected(w'.album, f) || Pending(w', f)
    {
      assert Reflected(w.album, f) || Pending(w, f);
    }
  }

  lemma SaveCursorKeeps(w: World, l: Label)
    requires Inv(w) && Enabled(w, l) && l.SaveCursor?
    ensures Inv(Apply(w, l))
  {
    var w' := Apply(w, l);
    forall f | f in w'.album.server.rows && w'.album.server.rows[f].time <= w'.album.cursor
      ensures Reflected(w'.album, f)
    {
      assert Reflected(w.album, f) || Pending(w, f);
    }
  }

  lemma StepKeeps(w: World, l: Label)
    requires Inv(w) && Enabled(w, l)
    ensures Inv(Apply(w, l))
  {
    match l
    case ServerChange(_, _) => ServerChangeKeeps(w, l);
    case ServerTouch(_) => TouchKeeps(w, l);
    case OtherAlbumPut(_, _) => OtherPutKeeps(w, l);
    case Begin(_) => RunControlKeeps(w, l);
    case Fetch(_) => FetchKeeps(w, l);
    case SkipRow => SkipKeeps(w, l);
    case PutEntry => PutEntryKeeps(w, l);
    case PutFile => PutFileKeeps(w, l);
    case SaveCursor => SaveCursorKeeps(w, l);
    case Stop => RunControlKeeps(w, l);
    case MarkSynced(_) => RunControlKeeps(w, l);
    case DropEntry(_) => RunControlKeeps(w, l);
  }

  // ---- runs ----

  ghost predicate Runs(w: World, ls: seq<Label>)
    decreases |ls|
  {
    ls == [] || (Enabled(w, ls[0]) && Runs(Apply(w, ls[0]), ls[1..]))
  }

  ghost function After(w: World, ls: seq<Label>): World
    requires Runs(w, ls)
    decreases |ls|
  {
    if ls == [] then w else After(Apply(w, ls[0]), ls[1..])
  }

  lemma {:induction false} RunKeeps(w: World, ls: seq<Label>)
    requires Inv(w) && Runs(w, ls)
    ensures Inv(After(w, ls))
    decreases |ls|
  {
    if ls != [] {
      StepKeeps(w, ls[0]);
      RunKeeps(Apply(w, ls[0]), ls[1..]);
    }
  }

  /** Cursor soundness in every reachable state. */
  lemma CursorAlwaysSound(ls: seq<Label>)
    requires Runs(Initial(), ls)
    ensures CursorSound(After(Initial(), ls).album)
  {
    InitialOk();
    RunKeeps(Initial(), ls);
  }

  lemma {:induction false} RunSnoc(w: World, ls: seq<Label>, l: Label)
    requires Runs(w, ls) && Enabled(After(w, ls), l)
    ensures Runs(w, ls + [l]) && After(w, ls + [l]) == Apply(After(w, ls), l)
    decreases |ls|
  {
    if ls == [] {
      assert ls + [l] == [l];
      assert [l][1..] == [];
    } else {
      assert (ls + [l])[1..] == ls[1..] + [l];
      RunSnoc(Apply(w, ls[0]), ls[1..], l);
    }
  }

  lemma {:induction false} RunAppend(w: World, ls: seq<Label>, more: seq<Label>)
    requires Runs(w, ls) && Runs(After(w, ls), more)
    ensures Runs(w, ls + more) && After(w, ls + more) == After(After(w, ls), more)
    decreases |ls|
  {
    if ls == [] {
      assert ls + more == more;
    } else {
      assert (ls + more)[1..] == ls[1..] + more;
      RunAppend(Apply(w, ls[0]), ls[1..], more);
    }
  }

  // ---- the server between two calls ----

  ghost predicate RunsTo(w: World, ls: seq<Label>, w': World) {
    Runs(w, ls) && After(w, ls) == w'
  }

  lemma RunsToAppend(w: World, ls: seq<Label>, w1: World, more: seq<Label>, w2: World)
    requires RunsTo(w, ls, w1) && RunsTo(w1, more, w2)
    ensures RunsTo(w, ls + more, w2)
  {
    RunAppend(w, ls, more);
  }

  ghost function TimeOf(l: Label): int
    requires l.ServerChange? || l.ServerTouch?
  {
    if l.ServerTouch? then l.t else l.version.time
  }

  /** The server's changes lead from one server to another. */
  ghost predicate MovesTo(s: Server, cs: seq<Label>, s': Server)
    decreases |cs|
  {
    if cs == [] then s' == s
    else
      && (cs[0].ServerChange? || cs[0].ServerTouch?) && TimeOf(cs[0]) > s.lastUpdatedAt
      && MovesTo(Server(if cs[0].ServerTouch? then s.rows else s.rows[cs[0].f := cs[0].version], TimeOf(cs[0])),
                 cs[1..], s')
  }

  ghost predicate NoRemovals(cs: seq<Label>) {
    forall l :: l in cs && l.ServerChange? ==> !l.version.removed
  }

  /** Removals excepted while a first sync is open, the server's changes are steps at any point of a run. */
  lemma {:induction false} MovesAreSteps(w: World, cs: seq<Label>, s': Server)
    requires MovesTo(w.album.server, cs, s') && (FirstSyncOpen(w) ==> NoRemovals(cs))
    ensures RunsTo(w, cs, w.(album := w.album.(server := s')))
    decreases |cs|
  {
    if cs != [] {
      assert cs[0] in cs && forall l :: l in cs[1..] ==> l in cs;
      MovesAreSteps(Apply(w, cs[0]), cs[1..], s');
    }
  }

  // ---- what fetching an album may change ----

  /** Steps of the client fetching one album. */
  predicate Quiet(l: Label) {
    l.Begin? || l.Fetch? || l.SkipRow? || l.PutEntry? || l.PutFile? || l.SaveCursor? || l.Stop?
  }

  ghost predicate AllQuiet(ls: seq<Label>) {
    forall l :: l in ls ==> Quiet(l)
  }

  /** Steps of a fetch lead from one world to another. */
  ghost predicate Steps(w: World, ls: seq<Label>, w': World) {
    Runs(w, ls) && After(w, ls) == w' && AllQuiet(ls)
  }

  lemma NoSteps(w: World)
    ensures Steps(w, [], w)
  {}

  lemma StepsSnoc(w: World, ls: seq<Label>, w1: World, l: Label, w2: World)
    requires Steps(w, ls, w1) && Enabled(w1, l) && Quiet(l) && w2 == Apply(w1, l)
    ensures Steps(w, ls + [l], w2)
  {
    RunSnoc(w, ls, l);
  }

  lemma StepsAppend(w: World, ls: seq<Label>, w1: World, more: seq<Label>, w2: World)
    requires Steps(w, ls, w1) && Steps(w1, more, w2)
    ensures Steps(w, ls + more, w2)
  {
    RunAppend(w, ls, more);
  }

  /** Entries were only put, every put entry is to be synced again, and the album put rows only for those. */
  ghost predicate EntriesReset(es: map<FileId, Entry>, ap: map<FileId, FileRow>, es': map<FileId, Entry>,
                               ap': map<FileId, FileRow>) {
    && es.Keys <= es'.Keys
    && forall f :: f in es' && es'[f].synced ==>
         f in es && es[f] == es'[f] && (f in ap' ==> f in ap && ap'[f] == ap[f])
  }

  ghost predicate FetchFrame(a: Album, a': Album) {
    EntriesReset(a.entries, a.applied, a'.entries, a'.applied) && FilesLater(a.files, a.next, a'.files, a'.next)
  }

  /** Every stamp is that of a put made, and an entry whose row is still to be put is marked to be synced. */
  ghost predicate FetchOk(w: World) {
    && (forall f :: f in w.album.files ==> w.album.files[f].stamp < w.album.next)
    && (w.run.Applying? && w.run.entryPut ==>
          AtRow(w) && Current(w).file in w.album.entries && !w.album.entries[Current(w).file].synced)
  }

  lemma StepFrames(w: World, l: Label)
    requires FetchOk(w) && Enabled(w, l) && Quiet(l)
    ensures FetchOk(Apply(w, l)) && FetchFrame(w.album, Apply(w, l).album)
  {}

  lemma FramesCompose(a: Album, a': Album, a'': Album)
    requires FetchFrame(a, a') && FetchFrame(a', a'')
    ensures FetchFrame(a, a'')
  {}

  /** A fetch run resets entries and puts file rows under new stamps, and nothing else. */
  lemma {:induction false} RunFrames(w: World, ls: seq<Label>)
    requires FetchOk(w) && Runs(w, ls) && AllQuiet(ls)
    ensures FetchFrame(w.album, After(w, ls).album)
    decreases |ls|
  {
    if ls != [] {
      StepFrames(w, ls[0]);
      assert forall l :: l in ls[1..] ==> l in ls;
      RunFrames(Apply(w, ls[0]), ls[1..]);
      FramesCompose(w.album, Apply(w, ls[0]).album, After(w, ls).album);
    }
  }
}
