/**
 The client's sync loops over its store, each put a transaction of its own. A stop
 can strike before any put: `puts` is the number of transactions that still succeed.
 */
module SyncClient {
  import opened Sets
  import opened CollectionList
  import opened SyncMachine

  // ---- the entry bucket, keyed by album and file ----

  type Bucket = map<AlbumId, map<FileId, Entry>>

  function EntriesOf(m: Bucket, a: AlbumId): map<FileId, Entry> {
    if a in m then m[a] else map[]
  }

  function WithEntry(m: Bucket, a: AlbumId, f: FileId, e: Entry): (m': Bucket)
    ensures EntriesOf(m', a) == EntriesOf(m, a)[f := e]
    ensures forall b :: b != a ==> EntriesOf(m', b) == EntriesOf(m, b)
  {
    m[a := EntriesOf(m, a)[f := e]]
  }

  function WithoutEntry(m: Bucket, a: AlbumId, f: FileId): (m': Bucket)
    ensures EntriesOf(m', a) == EntriesOf(m, a) - {f}
    ensures forall b :: b != a ==> EntriesOf(m', b) == EntriesOf(m, b)
  {
    m[a := EntriesOf(m, a) - {f}]
  }

  /** The file rows each album has put last. */
  type Applied = map<AlbumId, map<FileId, FileRow>>

  function AppliedBy(m: Applied, a: AlbumId): map<FileId, FileRow> {
    if a in m then m[a] else map[]
  }

  /** What a store holds about files: the rows, the number of puts so far, and who put what last. */
  datatype FileStore = FileStore(rows: map<FileId, FileRow>, next: nat, applied: Applied)

  /** Album a puts a row of file f. */
  function WithRow(fs: FileStore, a: AlbumId, f: FileId, time: int): (fs': FileStore)
    ensures AppliedBy(fs'.applied, a) == AppliedBy(fs.applied, a)[f := FileRow(time, fs.next)]
    ensures forall b :: b != a ==> AppliedBy(fs'.applied, b) == AppliedBy(fs.applied, b)
  {
    var row := FileRow(time, fs.next);
    FileStore(fs.rows[f := row], fs.next + 1, fs.applied[a := AppliedBy(fs.applied, a)[f := row]])
  }

  /** Every stamp is that of a put made. */
  ghost predicate Stamped(fs: FileStore) {
    forall f :: f in fs.rows ==> fs.rows[f].stamp < fs.next
  }

  /** Entries were only put, every put entry is to be synced again, and file rows came only for those. */
  ghost predicate OnlyResets(m: Bucket, fs: FileStore, m': Bucket, fs': FileStore) {
    && fs.rows.Keys <= fs'.rows.Keys && (Stamped(fs) ==> Stamped(fs'))
    && forall a :: EntriesReset(EntriesOf(m, a), AppliedBy(fs.applied, a), EntriesOf(m', a), AppliedBy(fs'.applied, a))
  }

  /** Other albums' entries and puts are as they were. */
  ghost predicate OthersSame(a: AlbumId, m: Bucket, fs: FileStore, m': Bucket, fs': FileStore) {
    forall b :: b != a ==> EntriesOf(m', b) == EntriesOf(m, b) && AppliedBy(fs'.applied, b) == AppliedBy(fs.applied, b)
  }

  /** What a fetch of album a does to the store: only a's entries are put, and file rows are put under new stamps. */
  ghost predicate Frame(a: AlbumId, m: Bucket, fs: FileStore, m': Bucket, fs': FileStore) {
    && OthersSame(a, m, fs, m', fs')
    && EntriesReset(EntriesOf(m, a), AppliedBy(fs.applied, a), EntriesOf(m', a), AppliedBy(fs'.applied, a))
    && FilesLater(fs.rows, fs.next, fs'.rows, fs'.next)
  }

  lemma FrameResets(a: AlbumId, m0: Bucket, fs0: FileStore, m: Bucket, fs: FileStore, m': Bucket, fs': FileStore)
    requires OnlyResets(m0, fs0, m, fs) && Frame(a, m, fs, m', fs')
    ensures OnlyResets(m0, fs0, m', fs')
  {
    forall b
      ensures EntriesReset(EntriesOf(m0, b), AppliedBy(fs0.applied, b), EntriesOf(m', b), AppliedBy(fs'.applied, b))
    {
      assert EntriesReset(EntriesOf(m0, b), AppliedBy(fs0.applied, b), EntriesOf(m, b), AppliedBy(fs.applied, b));
    }
  }

  /** Rows of the server later than a time. */
  ghost function LaterThan(s: Server, t: int): set<FileId> {
    set f | f in s.rows && s.rows[f].time > t
  }

  /** A page with more behind it leaves strictly fewer rows later than its last time. */
  lemma PageMakesProgress(s: Server, cursor: int, page: Page)
    requires ValidPage(s, cursor, page) && page.hasMore
    ensures PageMax(cursor, page.rows) > cursor
    ensures LaterThan(s, PageMax(cursor, page.rows)) < LaterThan(s, cursor)
  {
    var r := page.rows[0];
    assert r in page.rows;
    assert r.file in LaterThan(s, cursor);
  }

  lemma PageMaxStep(cursor: int, rows: seq<Row>, n: nat)
    requires n < |rows|
    ensures
      var m := PageMax(cursor, rows[..n]);
      PageMax(cursor, rows[..n + 1]) == if rows[n].version.time > m then rows[n].version.time else m
  {}

  // ---- how many puts a fetch takes ----

  function RowPuts(first: bool, r: Row): nat {
    if !r.version.removed then 2 else if first then 0 else 1
  }

  function PagePuts(first: bool, rows: seq<Row>): (n: nat)
    ensures n <= 2 * |rows|
  {
    if rows == [] then 0 else PagePuts(first, rows[..|rows| - 1]) + RowPuts(first, rows[|rows| - 1])
  }

  lemma PagePutsStep(first: bool, rows: seq<Row>, n: nat)
    requires n < |rows|
    ensures PagePuts(first, rows[..n + 1]) == PagePuts(first, rows[..n]) + RowPuts(first, rows[n])
  {
    assert rows[..n + 1][..n] == rows[..n];
  }

  lemma {:induction false} PagePutsGrow(first: bool, rows: seq<Row>, n: nat)
    requires n <= |rows|
    ensures PagePuts(first, rows[..n]) <= PagePuts(first, rows)
  {
    if n == |rows| {
      assert rows[..n] == rows;
    } else {
      PagePutsGrow(first, rows[..|rows| - 1], n);
      assert rows[..|rows| - 1][..n] == rows[..n];
    }
  }

  ghost function FilesOf(rows: seq<Row>): set<FileId> {
    set r | r in rows :: r.file
  }

  lemma {:induction false} OneFileEach(rows: seq<Row>)
    requires DistinctFiles(rows)
    ensures |FilesOf(rows)| == |rows|
  {
    if rows != [] {
      var front, last := rows[..|rows| - 1], rows[|rows| - 1];
      OneFileEach(front);
      assert forall r :: r in rows <==> r in front || r == last;
      assert last.file !in FilesOf(front);
      assert FilesOf(rows) == FilesOf(front) + {last.file};
    }
  }

  /** The rows of a page are rows later than the cursor, and those behind it are others. */
  lemma PageSize(s: Server, cursor: int, page: Page)
    requires ValidPage(s, cursor, page)
    ensures |page.rows| <= |LaterThan(s, cursor)|
    ensures |page.rows| + |LaterThan(s, PageMax(cursor, page.rows))| <= |LaterThan(s, cursor)|
  {
    var behind := LaterThan(s, PageMax(cursor, page.rows));
    OneFileEach(page.rows);
    assert FilesOf(page.rows) !! behind;
    assert FilesOf(page.rows) + behind <= LaterThan(s, cursor);
    SubsetSize(FilesOf(page.rows) + behind, LaterThan(s, cursor));
  }

  /** What fetching an album takes at most: three puts a row later than the cursor, and one. */
  ghost function AlbumPuts(s: Server, cursor: int): nat {
    3 * |LaterThan(s, cursor)| + 1
  }

  /** One page less to fetch. */
  lemma PageSpent(s: Server, cursor: int, first: bool, page: Page)
    requires ValidPage(s, cursor, page)
    ensures PagePuts(first, page.rows) + 1 <= AlbumPuts(s, cursor)
    ensures page.hasMore ==>
              PagePuts(first, page.rows) + 1 + AlbumPuts(s, PageMax(cursor, page.rows)) <= AlbumPuts(s, cursor)
  {
    PageSize(s, cursor, page);
  }

  /** What fetching a number of albums takes at most. */
  ghost function FetchPuts(todo: set<AlbumId>, servers: map<AlbumId, Server>, cursors: map<AlbumId, int>): nat
    requires todo <= servers.Keys
    decreases |todo|
  {
    if todo == {} then 0
    else
      EmptyOrNot(todo);
      var a :| a in todo;
      AlbumPuts(servers[a], CursorIn(cursors, a)) + FetchPuts(todo - {a}, servers, cursors)
  }

  lemma {:induction false} FetchPutsWithout(todo: set<AlbumId>, servers: map<AlbumId, Server>, cursors: map<AlbumId,
                                            int>, a: AlbumId)
    requires a in todo && todo <= servers.Keys
    ensures FetchPuts(todo, servers, cursors)
         == AlbumPuts(servers[a], CursorIn(cursors, a)) + FetchPuts(todo - {a}, servers, cursors)
    decreases |todo|
  {
    var b :| b in todo && FetchPuts(todo, servers, cursors)
                          == AlbumPuts(servers[b], CursorIn(cursors, b)) + FetchPuts(todo - {b}, servers, cursors);
    if b != a {
      FetchPutsWithout(todo - {b}, servers, cursors, a);
      FetchPutsWithout(todo - {a}, servers, cursors, b);
      assert todo - {b} - {a} == todo - {a} - {b};
    }
  }

  lemma OneLess(todo: set<AlbumId>, servers: map<AlbumId, Server>, cs0: map<AlbumId, int>, cs: map<AlbumId, int>,
                a: AlbumId)
    requires todo <= servers.Keys && CursorIn(cs, a) == CursorIn(cs0, a)
    ensures FetchPuts(todo, servers, cs0)
         == FetchPuts(todo - {a}, servers, cs0) + if a in todo then AlbumPuts(servers[a], CursorIn(cs, a)) else 0
  {
    if a in todo {
      FetchPutsWithout(todo, servers, cs0, a);
    } else {
      assert todo - {a} == todo;
    }
  }

  function CursorIn(cursors: map<AlbumId, int>, a: AlbumId): int {
    if a in cursors then cursors[a] else 0
  }

  /** The albums still to be fetched: live, not skipped, and not at their own time yet. */
  function Lagging(albums: map<AlbumId, RemoteAlbum>, skip: set<AlbumId>, cursors: map<AlbumId, int>): set<AlbumId> {
    set a | a in albums && !albums[a].isDeleted && a !in skip && CursorIn(cursors, a) != albums[a].lastUpdatedAt
  }

  /** The stores hold the same about the album. */
  ghost predicate SameOf(a: AlbumId, m: Bucket, fs: FileStore, cs: map<AlbumId, int>, m': Bucket, fs': FileStore,
                         cs': map<AlbumId, int>) {
    && EntriesOf(m', a) == EntriesOf(m, a)
    && AppliedBy(fs'.applied, a) == AppliedBy(fs.applied, a)
    && CursorIn(cs', a) == CursorIn(cs, a)
  }

  /** From one store to the next entries were only reset, and albums outside the set hold what they held. */
  ghost predicate FetchedOnly(fetched: set<AlbumId>, m: Bucket, fs: FileStore, cs: map<AlbumId, int>,
                              m': Bucket, fs': FileStore, cs': map<AlbumId, int>) {
    && OnlyResets(m, fs, m', fs')
    && (forall a :: a !in fetched ==> SameOf(a, m, fs, cs, m', fs', cs'))
    && (fetched == {} ==> m' == m && fs' == fs && cs' == cs)
  }

  ghost predicate CursorsSame(a: AlbumId, cs: map<AlbumId, int>, cs': map<AlbumId, int>) {
    forall b :: b != a ==> CursorIn(cs', b) == CursorIn(cs, b)
  }

  /** One more album has been fetched, or it was up to date and nothing happened. */
  lemma FetchedStep(fetched: set<AlbumId>, m0: Bucket, fs0: FileStore, cs0: map<AlbumId, int>, m: Bucket,
                    fs: FileStore, cs: map<AlbumId, int>,
                    a: AlbumId, m': Bucket, fs': FileStore, cs': map<AlbumId, int>)
    requires FetchedOnly(fetched, m0, fs0, cs0, m, fs, cs)
    requires Frame(a, m, fs, m', fs') && CursorsSame(a, cs, cs')
    ensures FetchedOnly(fetched + {a}, m0, fs0, cs0, m', fs', cs')
  {
    FrameResets(a, m0, fs0, m, fs, m', fs');
  }

  lemma MoreFetched(fetched: set<AlbumId>, more: set<AlbumId>, m: Bucket, fs: FileStore, cs: map<AlbumId, int>,
                    m': Bucket, fs': FileStore, cs': map<AlbumId, int>)
    requires FetchedOnly(fetched, m, fs, cs, m', fs', cs') && fetched <= more
    ensures FetchedOnly(more, m, fs, cs, m', fs', cs')
  {}

  lemma LaggingShrinks(albums: map<AlbumId, RemoteAlbum>, skip: set<AlbumId>, cs: map<AlbumId, int>, a: AlbumId,
                       cs': map<AlbumId, int>)
    requires CursorsSame(a, cs, cs') && a in albums && CursorIn(cs', a) == albums[a].lastUpdatedAt
    ensures Lagging(albums, skip, cs') == Lagging(albums, skip, cs) - {a}
  {}

  /** What a store holds about one album. */
  ghost function ViewIn(m: Bucket, fs: FileStore, cs: map<AlbumId, int>, a: AlbumId, s: Server): Album {
    Album(s, EntriesOf(m, a), fs.rows, AppliedBy(fs.applied, a), fs.next, CursorIn(cs, a))
  }

  /** The machine's invariant for every album, no run being under way. */
  ghost predicate AllOkIn(m: Bucket, fs: FileStore, cs: map<AlbumId, int>, servers: map<AlbumId, Server>) {
    forall a :: a in servers ==> Inv(World(ViewIn(m, fs, cs, a, servers[a]), Idle))
  }

  /** What the fetch half of a run takes at most. */
  ghost function FetchAllPuts(colls: Albums, servers: map<AlbumId, Server>, cursors: map<AlbumId, int>,
                              listCursor: int, answer: Answer): nat
    requires forall a :: a in colls && !colls[a].isDeleted ==> a in servers
  {
    ListPuts(listCursor, answer) + FetchPuts(Lagging(colls, {}, cursors), servers, cursors)
  }

  // ---- the calls of a fetch ----

  /** The pages fetched in a list of steps, in order. */
  ghost function Fetched(ls: seq<Label>): seq<Page> {
    if ls == [] then []
    else
      var last := ls[|ls| - 1];
      Fetched(ls[..|ls| - 1]) + if last.Fetch? then [last.page] else []
  }

  ghost predicate NoFetch(ls: seq<Label>) {
    forall l :: l in ls ==> !l.Fetch?
  }

  lemma {:induction false} FetchedAppend(ls: seq<Label>, more: seq<Label>)
    ensures Fetched(ls + more) == Fetched(ls) + Fetched(more)
  {
    if more == [] {
      assert ls + more == ls;
    } else {
      FetchedAppend(ls, more[..|more| - 1]);
      assert (ls + more)[..|ls + more| - 1] == ls + more[..|more| - 1];
    }
  }

  lemma FetchedSnoc(ls: seq<Label>, l: Label)
    requires !l.Fetch?
    ensures Fetched(ls + [l]) == Fetched(ls)
  {
    assert (ls + [l])[..|ls|] == ls;
  }

  lemma {:induction false} NothingFetched(ls: seq<Label>)
    requires NoFetch(ls)
    ensures Fetched(ls) == []
  {
    if ls != [] {
      NothingFetched(ls[..|ls| - 1]);
    }
  }

  lemma OneFetched(page: Page, first: seq<Label>, more: seq<Label>)
    requires first == [Fetch(page)] && NoFetch(more)
    ensures Fetched(first + more) == [page]
  {
    FetchedAppend(first, more);
    NothingFetched(more);
    assert first[..0] == [] && Fetched(first) == [page];
  }

  lemma {:induction false} MovesFetchNothing(s: Server, cs: seq<Label>, s': Server)
    requires MovesTo(s, cs, s')
    ensures NoFetch(cs)
    decreases |cs|
  {
    if cs != [] {
      MovesFetchNothing(Server(if cs[0].ServerTouch? then s.rows else s.rows[cs[0].f := cs[0].version], TimeOf(cs[0])),
                        cs[1..], s');
      assert forall l :: l in cs ==> l == cs[0] || l in cs[1..];
    }
  }

  /** The puts of whole pages: those of the rows, and one for the cursor behind each. */
  ghost function CallPuts(first: bool, pages: seq<Page>): nat {
    if pages == [] then 0
    else CallPuts(first, pages[..|pages| - 1]) + PagePuts(first, pages[|pages| - 1].rows) + 1
  }

  lemma OneMoreCall(first: bool, pages: seq<Page>, page: Page)
    ensures CallPuts(first, pages + [page]) == CallPuts(first, pages) + PagePuts(first, page.rows) + 1
  {
    assert (pages + [page])[..|pages|] == pages;
  }

  /**
   The cursors a fetch goes through: call j is made with cursor j, as long as that is not the
   target, and gets page j; the next cursor is the page's last time, or the target when the page
   has no more behind it. The last page may be one that was not stored as a whole.
   */
  ghost predicate CallsFollow(cs: seq<int>, target: int, respond: (int, nat) -> Page, pages: seq<Page>) {
    && |cs| <= |pages| + 1 <= |cs| + 1
    && (forall j :: 0 <= j < |pages| ==> cs[j] != target && pages[j] == respond(cs[j], j))
    && (forall j :: 0 <= j < |cs| - 1 ==>
          cs[j + 1] == if pages[j].hasMore then PageMax(cs[j], pages[j].rows) else target)
  }

  /** All calls of these steps were stored as a whole, and took so many puts. */
  ghost predicate CallsStored(cs: seq<int>, target: int, respond: (int, nat) -> Page, first: bool, ls: seq<Label>,
                              spent: nat) {
    && |cs| == |Fetched(ls)| + 1 && CallsFollow(cs, target, respond, Fetched(ls))
    && spent == CallPuts(first, Fetched(ls))
  }

  /** A call's steps, and the server's behind them, fetch one page. */
  lemma OneMorePage(ls: seq<Label>, more: seq<Label>, page: Page, s: Server, moves: seq<Label>, s': Server)
    requires Fetched(more) == [page] && MovesTo(s, moves, s')
    ensures Fetched(ls + more) == Fetched(ls + more + moves) == Fetched(ls) + [page]
  {
    FetchedAppend(ls, more);
    FetchedAppend(ls + more, moves);
    MovesFetchNothing(s, moves, s');
    NothingFetched(moves);
  }

  /** The cursors with one more call. */
  lemma OneMoreCursor(cs: seq<int>, target: int, respond: (int, nat) -> Page, pages: seq<Page>, page: Page, c: int)
    requires |cs| == |pages| + 1 && CallsFollow(cs, target, respond, pages)
    requires cs[|pages|] != target && page == respond(cs[|pages|], |pages|)
    ensures CallsFollow(cs, target, respond, pages + [page])
    ensures c == (if page.hasMore then PageMax(cs[|pages|], page.rows) else target) ==>
              CallsFollow(cs + [c], target, respond, pages + [page])
  {}

  /** One more call, after which the cursor moves on and the server changes, unless a put failed. */
  lemma CallsGoOn(cs: seq<int>, target: int, respond: (int, nat) -> Page, first: bool, ls: seq<Label>, spent: nat,
                  page: Page, more: seq<Label>, c: int, s: Server, moves: seq<Label>, s': Server)
    requires CallsStored(cs, target, respond, first, ls, spent) && cs[|cs| - 1] != target
    requires page == respond(cs[|cs| - 1], |cs| - 1) && Fetched(more) == [page] && MovesTo(s, moves, s')
    ensures |Fetched(ls + more)| == |cs| && CallsFollow(cs, target, respond, Fetched(ls + more))
    ensures CallPuts(first, Fetched(ls + more)) == spent + PagePuts(first, page.rows) + 1
    ensures c == (if page.hasMore then PageMax(cs[|cs| - 1], page.rows) else target) ==>
              CallsStored(cs + [c], target, respond, first, ls + more + moves,
                          spent + PagePuts(first, page.rows) + 1)
  {
    OneMorePage(ls, more, page, s, moves, s');
    OneMoreCall(first, Fetched(ls), page);
    OneMoreCursor(cs, target, respond, Fetched(ls), page, c);
  }

  /** How a fetch ends that is given only so many calls. */
  datatype FetchEnd = Finished | PutFailed | Unfinished

  class Client {
    var entries: Bucket
    var files: FileStore
    var cursors: map<AlbumId, int>
    var albums: map<AlbumId, RemoteAlbum>
    var collectionsCursor: int
    var puts: nat

    constructor (puts: nat)
      ensures entries == map[] && files == FileStore(map[], 0, map[]) && cursors == map[] && albums == map[]
      ensures collectionsCursor == 0
      ensures this.puts == puts
    {
      entries, files, cursors, albums, collectionsCursor := map[], FileStore(map[], 0, map[]), map[], map[], 0;
      this.puts := puts;
    }

    /** A missing value reads as zero. */
    function Cursor(a: AlbumId): int
      reads this
    {
      CursorIn(cursors, a)
    }

    /** What the store holds about one album. */
    ghost function View(a: AlbumId, s: Server): Album
      reads this
    {
      ViewIn(entries, files, cursors, a, s)
    }

    method Commit() returns (ok: bool)
      modifies this`puts
      ensures ok == (old(puts) > 0)
      ensures puts == if ok then old(puts) - 1 else 0
    {
      ok := puts > 0;
      if ok {
        puts := puts - 1;
      }
    }

    method UpsertAlbumEntry(a: AlbumId, f: FileId, e: Entry) returns (ok: bool)
      modifies this`puts, this`entries
      ensures ok == (old(puts) > 0) && puts == (if ok then old(puts) - 1 else 0)
      ensures entries == if ok then WithEntry(old(entries), a, f, e) else old(entries)
    {
      ok := Commit();
      if ok {
        entries := WithEntry(entries, a, f, e);
      }
    }

    method DeleteAlbumEntry(a: AlbumId, f: FileId) returns (ok: bool)
      modifies this`puts, this`entries
      ensures ok == (old(puts) > 0) && puts == (if ok then old(puts) - 1 else 0)
      ensures entries == if ok then WithoutEntry(old(entries), a, f) else old(entries)
    {
      ok := Commit();
      if ok {
        entries := WithoutEntry(entries, a, f);
      }
    }

    method PutRemoteFile(a: AlbumId, f: FileId, time: int) returns (ok: bool)
      modifies this`puts, this`files
      ensures ok == (old(puts) > 0) && puts == (if ok then old(puts) - 1 else 0)
      ensures files == if ok then WithRow(old(files), a, f, time) else old(files)
    {
      ok := Commit();
      if ok {
        files := WithRow(files, a, f, time);
      }
    }

    method PutCursor(a: AlbumId, t: int) returns (ok: bool)
      modifies this`puts, this`cursors
      ensures ok == (old(puts) > 0) && puts == (if ok then old(puts) - 1 else 0)
      ensures cursors == if ok then old(cursors)[a := t] else old(cursors)
    {
      ok := Commit();
      if ok {
        cursors := cursors[a := t];
      }
    }

    /** The world of album a in the middle of a run. */
    ghost function At(a: AlbumId, s: Server, run: Run): World
      reads this
    {
      World(View(a, s), run)
    }

    /**
     One row of a page: nothing, one put or two. The steps taken are the machine's, up to
     the end of the row or up to the put that failed.
     */
    method StoreRow(a: AlbumId, ghost s: Server, ghost run: Run, first: bool, r: Row)
      returns (ok: bool, ghost ls: seq<Label>, ghost half: bool)
      requires run.Applying? && run.i < |run.page.rows| && !run.entryPut && run.first == first
      requires run.page.rows[run.i] == r
      modifies this`puts, this`entries, this`files
      ensures ok <==> old(puts) >= RowPuts(first, r)
      ensures puts == if ok then old(puts) - RowPuts(first, r) else 0
      ensures Steps(old(At(a, s, run)), ls, At(a, s, if ok then run.(i := run.i + 1) else run.(entryPut := half)))
      ensures NoFetch(ls)
      ensures OthersSame(a, old(entries), old(files), entries, files)
    {
      ghost var w0 := At(a, s, run);
      ls, half := [], false;
      NoSteps(w0);
      if first && r.version.removed {
        StepsSnoc(w0, ls, w0, SkipRow, At(a, s, run.(i := run.i + 1)));
        ls := ls + [SkipRow];
        return true, ls, half;
      }
      ok := UpsertAlbumEntry(a, r.file, Entry(r.version.removed, false));
      if !ok {
        return;
      }
      ghost var w1 := At(a, s, if r.version.removed then run.(i := run.i + 1) else run.(entryPut := true));
      StepsSnoc(w0, ls, w0, PutEntry, w1);
      ls := ls + [PutEntry];
      if r.version.removed {
        return;
      }
      half := true;
      ok := PutRemoteFile(a, r.file, r.version.time);
      if !ok {
        return;
      }
      StepsSnoc(w0, ls, w1, PutFile, At(a, s, run.(i := run.i + 1)));
      ls := ls + [PutFile];
    }

    /** The next row of a page, `ls` being the steps taken so far. */
    method StoreNext(a: AlbumId, ghost s: Server, first: bool, ghost target: int, page: Page, n: nat, ghost w0: World,
                     ghost ls: seq<Label>)
      returns (ok: bool, ghost ls': seq<Label>, ghost half: bool)
      requires n < |page.rows| && Steps(w0, ls, At(a, s, Applying(first, target, page, n, false))) && NoFetch(ls)
      modifies this`puts, this`entries, this`files
      ensures ok <==> old(puts) >= RowPuts(first, page.rows[n])
      ensures puts == if ok then old(puts) - RowPuts(first, page.rows[n]) else 0
      ensures Steps(w0, ls',
                    At(a, s, if ok
                       then Applying(first, target, page, n + 1, false) else Applying(first, target, page, n, half)))
      ensures NoFetch(ls')
      ensures OthersSame(a, old(entries), old(files), entries, files)
    {
      ghost var w, more := At(a, s, Applying(first, target, page, n, false)), [];
      ok, more, half := StoreRow(a, s, Applying(first, target, page, n, false), first, page.rows[n]);
      ghost var w' :=
          At(a, s, if ok then Applying(first, target, page, n + 1, false) else Applying(first, target, page, n, half));
      StepsAppend(w0, ls, w, more, w');
      ls' := ls + more;
    }

    /** The rows of a page in order; `i` and `half` say where a failed put stopped it. */
    method StorePage(a: AlbumId, ghost s: Server, first: bool, ghost target: int, page: Page)
      returns (ok: bool, maxUpdated: int, ghost ls: seq<Label>, ghost i: nat, ghost half: bool)
      modifies this`puts, this`entries, this`files
      ensures ok <==> old(puts) >= PagePuts(first, page.rows)
      ensures puts == if ok then old(puts) - PagePuts(first, page.rows) else 0
      ensures i <= |page.rows|
      ensures Steps(old(At(a, s, Applying(first, target, page, 0, false))), ls,
                    At(a, s, Applying(first, target, page, i, half)))
      ensures NoFetch(ls)
      ensures ok ==> i == |page.rows| && !half && maxUpdated == PageMax(Cursor(a), page.rows)
      ensures OthersSame(a, old(entries), old(files), entries, files)
    {
      ghost var w0, m0, fs0, cs0, puts0 :=
          At(a, s, Applying(first, target, page, 0, false)), entries, files, cursors, puts;
      maxUpdated, ls, i, half := Cursor(a), [], 0, false;
      NoSteps(w0);
      for n := 0 to |page.rows|
        invariant i == n && !half && cursors == cs0 && puts0 == puts + PagePuts(first, page.rows[..n])
        invariant maxUpdated == PageMax(CursorIn(cs0, a), page.rows[..n])
        invariant Steps(w0, ls, At(a, s, Applying(first, target, page, n, false))) && NoFetch(ls)
        invariant OthersSame(a, m0, fs0, entries, files)
      {
        var r := page.rows[n];
        PageMaxStep(CursorIn(cs0, a), page.rows, n);
        PagePutsStep(first, page.rows, n);
        if r.version.time > maxUpdated {
          maxUpdated := r.version.time;
        }
        ok, ls, half := StoreNext(a, s, first, target, page, n, w0, ls);
        if !ok {
          PagePutsGrow(first, page.rows, n + 1);
          return;
        }
        i, half := n + 1, false;
      }
      assert page.rows[..|page.rows|] == page.rows;
      ok := true;
    }

    /** One turn of the fetch loop: a page is stored and the cursor saved. */
    method FetchPage(a: AlbumId, target: int, ghost s: Server, isFirstSync: bool, page: Page)
      returns (ok: bool, lastSyncTime: int, ghost ls: seq<Label>)
      requires Cursor(a) != target && ValidPage(s, Cursor(a), page)
      modifies this`puts, this`entries, this`files, this`cursors
      ensures ok <==> old(puts) > PagePuts(isFirstSync, page.rows)
      ensures puts == if ok then old(puts) - PagePuts(isFirstSync, page.rows) - 1 else 0
      ensures Steps(old(At(a, s, Ready(isFirstSync, target))), ls,
                    At(a, s, if ok then Ready(isFirstSync, target) else Idle))
      ensures Fetched(ls) == [page] && (!ok ==> cursors == old(cursors))
      ensures ok ==> Cursor(a) == lastSyncTime == if page.hasMore then PageMax(old(Cursor(a)), page.rows) else target
      ensures OthersSame(a, old(entries), old(files), entries, files)
      ensures CursorsSame(a, old(cursors), cursors)
    {
      ghost var w0, w1 := At(a, s, Ready(isFirstSync, target)), At(a, s, Applying(isFirstSync, target, page, 0, false));
      lastSyncTime, ls := Cursor(a), [];
      NoSteps(w0);
      StepsSnoc(w0, ls, w0, Fetch(page), w1);
      ls := ls + [Fetch(page)];
      ghost var more, i, half;
      var maxUpdated;
      ok, maxUpdated, more, i, half := StorePage(a, s, isFirstSync, target, page);
      ghost var w2 := At(a, s, Applying(isFirstSync, target, page, i, half));
      StepsAppend(w0, ls, w1, more, w2);
      OneFetched(page, ls, more);
      ls := ls + more;
      if !ok {
        StepsSnoc(w0, ls, w2, Label.Stop, At(a, s, Idle));
        FetchedSnoc(ls, Label.Stop);
        ls := ls + [Label.Stop];
        return;
      }
      if page.hasMore {
        PageMakesProgress(s, lastSyncTime, page);
      } else {
        maxUpdated := target;
      }
      if maxUpdated > lastSyncTime || !page.hasMore {
        ok := PutCursor(a, maxUpdated);
        if !ok {
          StepsSnoc(w0, ls, w2, Label.Stop, At(a, s, Idle));
          FetchedSnoc(ls, Label.Stop);
          ls := ls + [Label.Stop];
          return;
        }
        StepsSnoc(w0, ls, w2, SaveCursor, At(a, s, Ready(isFirstSync, target)));
        FetchedSnoc(ls, SaveCursor);
        ls := ls + [SaveCursor];
        lastSyncTime := maxUpdated;
      }
    }

    /**
     The loop over one album, against a server that holds still for the call. The steps
     are the machine's; when the loop ends by itself the stored cursor is the album's own
     time, and it always ends: every page with more behind it leaves fewer rows.
     */
    method FetchAlbum(a: AlbumId, target: int, ghost s: Server, respond: (int, nat) -> Page)
      returns (done: bool, ghost ls: seq<Label>)
      requires 0 < target <= s.lastUpdatedAt
      requires forall c, n :: ValidPage(s, c, respond(c, n))
      modifies this`puts, this`entries, this`files, this`cursors
      ensures puts <= old(puts)
      ensures if done
          then old(puts) <= puts + AlbumPuts(s, old(Cursor(a)))
              else puts == 0 && old(puts) < AlbumPuts(s, old(Cursor(a)))
      ensures Steps(old(At(a, s, Idle)), ls, At(a, s, Idle))
      ensures old(Cursor(a)) == target ==>
                done && entries == old(entries) && files == old(files) && cursors == old(cursors) && puts == old(puts)
      ensures done ==> Cursor(a) == target
      ensures OthersSame(a, old(entries), old(files), entries, files)
      ensures CursorsSame(a, old(cursors), cursors)
    {
      ghost var w0 := At(a, s, Idle);
      ls := [];
      var lastSyncTime, calls: nat := Cursor(a), 0;
      var isFirstSync := lastSyncTime == 0;
      ghost var w := At(a, s, Ready(isFirstSync, target));
      NoSteps(w0);
      StepsSnoc(w0, ls, w0, Begin(target), w);
      ls := ls + [Begin(target)];
      ghost var cursor0 := Cursor(a);
      while lastSyncTime != target
        invariant puts <= old(puts)
        invariant old(puts) + (if lastSyncTime == target then 0 else AlbumPuts(s, lastSyncTime))
            <= puts + AlbumPuts(s, cursor0)
        invariant lastSyncTime == Cursor(a)
        invariant w == At(a, s, Ready(isFirstSync, target)) && Steps(w0, ls, w)
        invariant OthersSame(a, old(entries), old(files), entries, files)
        invariant CursorsSame(a, old(cursors), cursors)
        invariant old(Cursor(a)) == target ==>
                    && lastSyncTime == target && entries == old(entries) && files == old(files)
                    && cursors == old(cursors) && puts == old(puts)
        decreases if lastSyncTime == target then 0 else 1, LaterThan(s, lastSyncTime)
      {
        var page := respond(lastSyncTime, calls);
        calls := calls + 1;
        if page.hasMore {
          PageMakesProgress(s, lastSyncTime, page);
        }
        ghost var more;
        PageSpent(s, lastSyncTime, isFirstSync, page);
        done, lastSyncTime, more := FetchPage(a, target, s, isFirstSync, page);
        ghost var w' := At(a, s, if done then Ready(isFirstSync, target) else Idle);
        StepsAppend(w0, ls, w, more, w');
        ls, w := ls + more, w';
        if !done {
          return;
        }
      }
      StepsSnoc(w0, ls, w, Label.Stop, At(a, s, Idle));
      return true, ls + [Label.Stop];
    }

    /**
     The same loop against a server that changes between the calls, for any number of calls:
     server n answers call n. Removals have to wait for the end of a first sync. The steps of
     client and server are again a run of the machine, with one fetch for each call; `cs` are the
     cursors the calls are made with, the last one being the stored one.
     */
    method FetchMoving(a: AlbumId, target: int, ghost servers: nat -> Server, ghost moves: nat -> seq<Label>,
                       respond: (int, nat) -> Page, calls: nat)
      returns (end: FetchEnd, ghost ls: seq<Label>, ghost n: nat, ghost cs: seq<int>)
      requires 0 <= Cursor(a) && 0 < target <= servers(0).lastUpdatedAt
      requires forall i: nat :: MovesTo(servers(i), moves(i), servers(i + 1))
      requires Cursor(a) == 0 ==> forall i: nat :: NoRemovals(moves(i))
      requires forall c, i: nat :: ValidPage(servers(i), c, respond(c, i))
      modifies this`puts, this`entries, this`files, this`cursors
      ensures RunsTo(old(At(a, servers(0), Idle)), ls,
                     At(a, servers(n), if end == Unfinished then Ready(old(Cursor(a)) == 0, target) else Idle))
      ensures Inv(old(At(a, servers(0), Idle))) ==> CursorSound(View(a, servers(n)))
      ensures |cs| == n + 1 && cs[0] == old(Cursor(a)) && cs[n] == Cursor(a)
      ensures CallsFollow(cs, target, respond, Fetched(ls))
      ensures |Fetched(ls)| == if end == PutFailed then n + 1 else n
      ensures end == Finished <==> Cursor(a) == target
      ensures end == Unfinished ==> n == calls
      ensures var spent := CallPuts(old(Cursor(a)) == 0, Fetched(ls));
              if end == PutFailed then n < calls && puts == 0 && old(puts) < spent else old(puts) == puts + spent
      ensures OthersSame(a, old(entries), old(files), entries, files) && CursorsSame(a, old(cursors), cursors)
    {
      ghost var w0, m0, fs0, cs0, puts0 := At(a, servers(0), Idle), entries, files, cursors, puts;
      var lastSyncTime := Cursor(a);
      var isFirstSync := lastSyncTime == 0;
      ghost var w := At(a, servers(0), Ready(isFirstSync, target));
      NoSteps(w0);
      StepsSnoc(w0, [], w0, Begin(target), w);
      FetchedSnoc([], Begin(target));
      ls, n, cs := [] + [Begin(target)], 0, [lastSyncTime];
      end := Unfinished;
      for i := 0 to calls
        invariant n == i && lastSyncTime == Cursor(a) && (isFirstSync || lastSyncTime > 0) && end == Unfinished
        invariant w == At(a, servers(i), Ready(isFirstSync, target)) && RunsTo(w0, ls, w)
        invariant |cs| == i + 1 && cs[0] == CursorIn(cs0, a) && cs[i] == lastSyncTime && puts <= puts0
        invariant CallsStored(cs, target, respond, isFirstSync, ls, puts0 - puts)
        invariant OthersSame(a, m0, fs0, entries, files) && CursorsSame(a, cs0, cursors)
      {
        if lastSyncTime == target {
          break;
        }
        end, lastSyncTime, ls, w, cs := FetchCall(a, target, servers(i), moves(i), servers(i + 1), isFirstSync, respond,
                                                  i, w0, ls, w, cs, puts0);
        if end == PutFailed {
          break;
        }
        n := i + 1;
      }
      if end == Unfinished && lastSyncTime == target {
        RunSnoc(w0, ls, Label.Stop);
        FetchedSnoc(ls, Label.Stop);
        end, ls, w := Finished, ls + [Label.Stop], At(a, servers(n), Idle);
      }
      SoundAfter(w0, ls, w);
    }

    /** Call i of that loop, and what the server does behind it. */
    method FetchCall(a: AlbumId, target: int, ghost s: Server, ghost moves: seq<Label>, ghost s': Server,
                     isFirstSync: bool, respond: (int, nat) -> Page, i: nat, ghost w0: World, ghost ls: seq<Label>,
                     ghost w: World, ghost cs: seq<int>, ghost puts0: nat)
      returns (end: FetchEnd, lastSyncTime: int, ghost ls': seq<Label>, ghost w': World, ghost cs': seq<int>)
      requires Cursor(a) != target && 0 < target && ValidPage(s, Cursor(a), respond(Cursor(a), i))
      requires w == At(a, s, Ready(isFirstSync, target)) && RunsTo(w0, ls, w)
      requires MovesTo(s, moves, s') && (isFirstSync ==> NoRemovals(moves)) && (isFirstSync || Cursor(a) > 0)
      requires |cs| == i + 1 && cs[i] == Cursor(a) && puts <= puts0
      requires CallsStored(cs, target, respond, isFirstSync, ls, puts0 - puts)
      modifies this`puts, this`entries, this`files, this`cursors
      ensures end == if old(puts) > PagePuts(isFirstSync, respond(old(Cursor(a)), i).rows)
                     then Unfinished else PutFailed
      ensures puts <= old(puts) && (end == PutFailed ==> puts == 0)
      ensures w' == At(a, if end == PutFailed then s else s', if end == PutFailed then Idle
                       else Ready(isFirstSync, target))
      ensures RunsTo(w0, ls', w')
      ensures end == Unfinished ==>
                && lastSyncTime == Cursor(a) && (isFirstSync || lastSyncTime > 0) && cs' == cs + [lastSyncTime]
                && CallsStored(cs', target, respond, isFirstSync, ls', puts0 - puts)
      ensures end == PutFailed ==>
                && cs' == cs && Cursor(a) == old(Cursor(a)) && |Fetched(ls')| == |cs|
                && CallsFollow(cs, target, respond, Fetched(ls')) && puts0 < CallPuts(isFirstSync, Fetched(ls'))
      ensures OthersSame(a, old(entries), old(files), entries, files) && CursorsSame(a, old(cursors), cursors)
    {
      var page := respond(Cursor(a), i);
      var ok;
      ghost var more, spent: nat := [], puts0 - puts;
      ok, lastSyncTime, more := FetchPage(a, target, s, isFirstSync, page);
      w' := At(a, s, if ok then Ready(isFirstSync, target) else Idle);
      RunsToAppend(w0, ls, w, more, w');
      CallsGoOn(cs, target, respond, isFirstSync, ls, spent, page, more, lastSyncTime, s, moves, s');
      ls', end, cs' := ls + more, PutFailed, cs;
      if ok {
        ghost var w1 := w';
        w' := At(a, s', Ready(isFirstSync, target));
        MovesAreSteps(w1, moves, s');
        RunsToAppend(w0, ls', w1, moves, w');
        ls', end, cs' := ls' + moves, Unfinished, cs + [lastSyncTime];
      }
    }

    // ---- all albums ----

    ghost predicate AllOk(servers: map<AlbumId, Server>)
      reads this
    {
      AllOkIn(entries, files, cursors, servers)
    }

    /** The turn of one album in fetchRemoteFiles. */
    method FetchOne(a: AlbumId, target: int, ghost servers: map<AlbumId, Server>, respond: (AlbumId, int, nat) -> Page)
      returns (done: bool)
      requires AllOk(servers) && a in servers && 0 < target <= servers[a].lastUpdatedAt
      requires forall c, n :: ValidPage(servers[a], c, respond(a, c, n))
      modifies this`puts, this`entries, this`files, this`cursors
      ensures AllOk(servers)
      ensures puts <= old(puts)
      ensures if done then Cursor(a) == target && old(puts) <= puts + AlbumPuts(servers[a], old(Cursor(a)))
              else puts == 0 && old(puts) < AlbumPuts(servers[a], old(Cursor(a)))
      ensures Frame(a, old(entries), old(files), entries, files)
      ensures CursorsSame(a, old(cursors), cursors)
      ensures old(Cursor(a)) == target ==>
                done && entries == old(entries) && files == old(files) && cursors == old(cursors) && puts == old(puts)
    {
      assert Inv(At(a, servers[a], Idle));
      ghost var ls;
      done, ls := FetchAlbum(a, target, servers[a], (c: int, n: nat) => respond(a, c, n));
      RunFrames(old(At(a, servers[a], Idle)), ls);
      RunKeeps(old(At(a, servers[a], Idle)), ls);
      forall b | b in servers ensures Inv(At(b, servers[b], Idle)) {
        if b != a {
          FilesLaterKeep(old(At(b, servers[b], Idle)), files.rows, files.next);
        }
      }
    }

    /** One turn of the loop over the albums, seen from the start of the run. */
    method FetchTurn(a: AlbumId, ghost servers: map<AlbumId, Server>, respond: (AlbumId, int, nat) -> Page,
                     skip: set<AlbumId>,
                     ghost fetched: set<AlbumId>, ghost m0: Bucket, ghost fs0: FileStore, ghost cs0: map<AlbumId, int>)
      returns (done: bool, ghost fetched': set<AlbumId>)
      requires a in albums && AllOk(servers)
      requires !albums[a].isDeleted ==> a in servers && 0 < albums[a].lastUpdatedAt <= servers[a].lastUpdatedAt
      requires a in servers ==> forall c, n :: ValidPage(servers[a], c, respond(a, c, n))
      requires FetchedOnly(fetched, m0, fs0, cs0, entries, files, cursors)
      modifies this`puts, this`entries, this`files, this`cursors
      ensures AllOk(servers)
      ensures FetchedOnly(fetched', m0, fs0, cs0, entries, files, cursors)
      ensures fetched' == fetched + {a} * Lagging(albums, skip, old(cursors))
      ensures puts <= old(puts)
      ensures !done ==>
          puts == 0 && a in Lagging(albums, skip, old(cursors)) && old(puts) < AlbumPuts(servers[a], old(Cursor(a)))
      ensures done ==>
                && Lagging(albums, skip, cursors) == Lagging(albums, skip, old(cursors)) - {a}
                && old(puts) <= puts + if a in Lagging(albums, skip, old(cursors))
                    then AlbumPuts(servers[a], old(Cursor(a))) else 0
    {
      ghost var es, fs, cs := entries, files, cursors;
      fetched' := fetched;
      if albums[a].isDeleted || a in skip {
        return true, fetched';
      }
      done := FetchOne(a, albums[a].lastUpdatedAt, servers, respond);
      if a in Lagging(albums, skip, cs) {
        FetchedStep(fetched, m0, fs0, cs0, es, fs, cs, a, entries, files, cursors);
        fetched' := fetched + {a};
      }
      if done {
        LaggingShrinks(albums, skip, cs, a, cursors);
      }
    }

    /**
     That turn with a count of puts: `spent` so far, of which the albums that still lag behind leave
     room in `cost`.
     */
    method FetchNext(a: AlbumId, ghost servers: map<AlbumId, Server>, respond: (AlbumId, int, nat) -> Page,
                     skip: set<AlbumId>,
                     ghost fetched: set<AlbumId>, ghost m0: Bucket, ghost fs0: FileStore, ghost cs0: map<AlbumId, int>,
                     ghost puts0: nat, ghost cost: nat,
                     ghost todo: set<AlbumId>, ghost lagging0: set<AlbumId>)
      returns (done: bool, ghost fetched': set<AlbumId>)
      requires a in albums && AllOk(servers) && a in todo && fetched !! todo && fetched <= lagging0
      requires Lagging(albums, skip, cursors) <= todo * lagging0
      requires forall b :: b in albums && !albums[b].isDeleted ==>
                 b in servers && 0 < albums[b].lastUpdatedAt <= servers[b].lastUpdatedAt
      requires a in servers ==> forall c, n :: ValidPage(servers[a], c, respond(a, c, n))
      requires FetchedOnly(fetched, m0, fs0, cs0, entries, files, cursors)
      requires puts0 + FetchPuts(Lagging(albums, skip, cursors), servers, cs0) <= puts + cost
      modifies this`puts, this`entries, this`files, this`cursors
      ensures AllOk(servers) && puts <= old(puts)
      ensures FetchedOnly(fetched', m0, fs0, cs0, entries, files, cursors)
      ensures fetched' !! todo - {a} && fetched' <= lagging0
      ensures if done then Lagging(albums, skip, cursors) <= (todo - {a}) * lagging0 else puts == 0 && puts0 < cost
      ensures done ==> puts0 + FetchPuts(Lagging(albums, skip, cursors), servers, cs0) <= puts + cost
    {
      ghost var lagging := Lagging(albums, skip, cursors);
      assert SameOf(a, m0, fs0, cs0, entries, files, cursors);
      OneLess(lagging, servers, cs0, cursors, a);
      done, fetched' := FetchTurn(a, servers, respond, skip, fetched, m0, fs0, cs0);
    }

    /** The loop over the albums, in any order; `fetched` are those that were fetched. */
    method FetchLoop(ghost servers: map<AlbumId, Server>, respond: (AlbumId, int, nat) -> Page, skip: set<AlbumId>)
      returns (done: bool, ghost fetched: set<AlbumId>)
      requires AllOk(servers)
      requires forall a :: a in albums && !albums[a].isDeleted ==>
                 a in servers && 0 < albums[a].lastUpdatedAt <= servers[a].lastUpdatedAt
      requires forall a, c, n :: a in servers ==> ValidPage(servers[a], c, respond(a, c, n))
      modifies this`puts, this`entries, this`files, this`cursors
      ensures AllOk(servers) && puts <= old(puts) && fetched <= Lagging(albums, skip, old(cursors))
      ensures FetchedOnly(fetched, old(entries), old(files), old(cursors), entries, files, cursors)
      ensures var cost := FetchPuts(Lagging(albums, skip, old(cursors)), servers, old(cursors));
              if done then Lagging(albums, skip, cursors) == {} && old(puts) <= puts + cost
                  else puts == 0 && old(puts) < cost
    {
      var todo: set<AlbumId> := albums.Keys;
      fetched := {};
      ghost var lagging0, m0, fs0, cs0, puts0 := Lagging(albums, skip, cursors), entries, files, cursors, puts;
      ghost var cost := FetchPuts(lagging0, servers, cs0);
      while todo != {}
        invariant todo <= albums.Keys && fetched <= lagging0
        invariant Lagging(albums, skip, cursors) <= todo * lagging0 && fetched !! todo && puts <= puts0
        invariant puts0 + FetchPuts(Lagging(albums, skip, cursors), servers, cs0) <= puts + cost
        invariant AllOk(servers)
        invariant FetchedOnly(fetched, m0, fs0, cs0, entries, files, cursors)
      {
        EmptyOrNot(todo);
        var a :| a in todo;
        done, fetched := FetchNext(a, servers, respond, skip, fetched, m0, fs0, cs0, puts0, cost,
                                   todo, lagging0);
        todo := todo - {a};
        if !done {
          return;
        }
      }
      done := true;
    }

    /**
     fetchRemoteFiles: every live album that no filter skips and that lags behind is fetched, in any
     order, and no other.
     */
    method FetchRemoteFiles(ghost servers: map<AlbumId, Server>, respond: (AlbumId, int, nat) -> Page,
                            skip: set<AlbumId>)
      returns (done: bool)
      requires AllOk(servers)
      requires forall a :: a in albums && !albums[a].isDeleted ==>
                 a in servers && 0 < albums[a].lastUpdatedAt <= servers[a].lastUpdatedAt
      requires forall a, c, n :: a in servers ==> ValidPage(servers[a], c, respond(a, c, n))
      modifies this`puts, this`entries, this`files, this`cursors
      ensures AllOk(servers)
      ensures FetchedOnly(Lagging(albums, skip, old(cursors)), old(entries), old(files), old(cursors), entries, files,
                          cursors)
      ensures puts <= old(puts)
      ensures var cost := FetchPuts(Lagging(albums, skip, old(cursors)), servers, old(cursors));
              if done then Lagging(albums, skip, cursors) == {} && old(puts) <= puts + cost
                  else puts == 0 && old(puts) < cost
    {
      ghost var lagging0, m0, fs0, cs0, puts0 := Lagging(albums, skip, cursors), entries, files, cursors, puts;
      ghost var fetched;
      done, fetched := FetchLoop(servers, respond, skip);
      MoreFetched(fetched, lagging0, m0, fs0, cs0, entries, files, cursors);
    }

    /** What holds of the stored albums between any two puts. */
    ghost predicate CollectionsOk(colls: Albums)
      reads this
    {
      ListOk(albums, colls, collectionsCursor)
    }

    /**
     fetchRemoteCollections: the answer is put entry by entry, then the cursor. A first
     fetch drops deleted collections, and the cursor does not count them.
     */
    method FetchRemoteCollections(answer: Answer) returns (done: bool, ghost k: nat)
      modifies this`puts, this`albums, this`collectionsCursor
      ensures k <= |answer| && albums == PutAlbums(old(albums), old(collectionsCursor) == 0, answer[..k])
      ensures collectionsCursor
           == if done
               then LatestKept(old(collectionsCursor), old(collectionsCursor) == 0, answer) else old(collectionsCursor)
      ensures done ==> k == |answer|
      ensures done <==> old(puts) >= ListPuts(old(collectionsCursor), answer)
      ensures puts == if done then old(puts) - ListPuts(old(collectionsCursor), answer) else 0
    {
      var lastSyncTime := collectionsCursor;
      var maxUpdated := lastSyncTime;
      k := 0;
      for n := 0 to |answer|
        invariant k == n && collectionsCursor == lastSyncTime == old(collectionsCursor)
        invariant old(puts) == puts + KeptCount(lastSyncTime == 0, answer[..n])
        invariant maxUpdated == LatestKept(lastSyncTime, lastSyncTime == 0, answer[..n])
        invariant albums == PutAlbums(old(albums), lastSyncTime == 0, answer[..n])
      {
        PutStep(old(albums), lastSyncTime, lastSyncTime == 0, answer, n);
        var (id, album) := answer[n];
        if lastSyncTime == 0 && album.isDeleted {
          k := n + 1;
          continue;
        }
        if album.lastUpdatedAt > maxUpdated {
          maxUpdated := album.lastUpdatedAt;
        }
        var ok := Commit();
        if !ok {
          KeptCountGrows(lastSyncTime == 0, answer, n + 1);
          return false, k;
        }
        albums := albums[id := album];
        k := n + 1;
      }
      assert answer[..|answer|] == answer;
      if maxUpdated > lastSyncTime {
        var ok := Commit();
        if !ok {
          return false, k;
        }
        collectionsCursor := maxUpdated;
      }
      done := true;
    }

    /** Every live entry of an album that is not deleted has its file row. */
    ghost predicate FileRowsPresent()
      reads this
    {
      forall a, f | a in albums && !albums[a].isDeleted && f in EntriesOf(entries, a) ::
        !EntriesOf(entries, a)[f].removed ==> f in files.rows
    }

    /**
     The list half of a run: whatever stops it, the list stays in order, and a whole answer shows
     every collection.
     */
    method FetchList(ghost colls: Albums, answer: Answer) returns (done: bool)
      requires CollectionsOk(colls) && AnswerTo(answer, colls, collectionsCursor)
      modifies this`puts, this`albums, this`collectionsCursor
      ensures CollectionsOk(colls) && ListMoved(old(albums), albums, colls)
      ensures done ==> forall a :: a in colls ==> AlbumShown(albums, colls, a)
      ensures done <==> old(puts) >= ListPuts(old(collectionsCursor), answer)
      ensures puts == if done then old(puts) - ListPuts(old(collectionsCursor), answer) else 0
    {
      ghost var k;
      done, k := FetchRemoteCollections(answer);
      PartKeeps(old(albums), colls, old(collectionsCursor), answer[..k]);
      PartMoves(old(albums), colls, old(collectionsCursor) == 0, answer[..k]);
      if done {
        assert answer[..k] == answer;
        AnswerShowsAll(old(albums), colls, old(collectionsCursor), answer);
      }
    }

    /**
     The part of SyncAccount before the disk is touched, with no filter and a server that
     holds still: whatever earlier stopped runs left behind, syncFiles is only reached
     with a file row for every live entry. Albums that were up to date are left alone.
     */
    method FetchAll(ghost colls: Albums, ghost servers: map<AlbumId, Server>, answer: Answer,
                    respond: (AlbumId, int, nat) -> Page)
      returns (reached: bool)
      requires CollectionsOk(colls) && AllOk(servers)
      requires forall a :: a in colls && !colls[a].isDeleted ==>
                 a in servers && servers[a].lastUpdatedAt == colls[a].lastUpdatedAt
      requires AnswerTo(answer, colls, collectionsCursor)
      requires forall a, c, n :: a in servers ==> ValidPage(servers[a], c, respond(a, c, n))
      modifies this
      ensures CollectionsOk(colls) && AllOk(servers) && ListMoved(old(albums), albums, colls)
      ensures OnlyResets(old(entries), old(files), entries, files)
      ensures Lagging(colls, {}, old(cursors)) == {} ==>
          entries == old(entries) && files == old(files) && cursors == old(cursors)
      ensures forall a :: a !in servers ==> SameOf(a, old(entries), old(files), old(cursors), entries, files, cursors)
      ensures puts <= old(puts)
      ensures var cost := FetchAllPuts(colls, servers, old(cursors), old(collectionsCursor), answer);
              if reached then FetchedAll(colls, servers) && old(puts) <= puts + cost else puts == 0 && old(puts) < cost
    {
      ghost var es, fs, cs := entries, files, cursors;
      ResetsNothing(es, fs);
      reached := FetchList(colls, answer);
      assert entries == es && files == fs && cursors == cs;
      if reached {
        reached := FetchFiles(colls, servers, respond);
      }
    }

    /** The files half of a run, the list being the server's. */
    method FetchFiles(ghost colls: Albums, ghost servers: map<AlbumId, Server>, respond: (AlbumId, int, nat) -> Page)
      returns (done: bool)
      requires CollectionsOk(colls) && AllOk(servers)
      requires forall a :: a in colls && !colls[a].isDeleted ==>
                 a in servers && servers[a].lastUpdatedAt == colls[a].lastUpdatedAt
      requires forall a :: a in colls ==> AlbumShown(albums, colls, a)
      requires forall a, c, n :: a in servers ==> ValidPage(servers[a], c, respond(a, c, n))
      modifies this`puts, this`entries, this`files, this`cursors
      ensures AllOk(servers)
      ensures OnlyResets(old(entries), old(files), entries, files)
      ensures Lagging(colls, {}, old(cursors)) == {} ==>
          entries == old(entries) && files == old(files) && cursors == old(cursors)
      ensures forall a :: a !in servers ==> SameOf(a, old(entries), old(files), old(cursors), entries, files, cursors)
      ensures puts <= old(puts)
      ensures var cost := FetchPuts(Lagging(colls, {}, old(cursors)), servers, old(cursors));
              if done then FetchedAll(colls, servers) && old(puts) <= puts + cost else puts == 0 && old(puts) < cost
    {
      LaggingShown(albums, colls, cursors);
      LiveAreServed(albums, colls, servers);
      done := FetchRemoteFiles(servers, respond, {});
      if done {
        CaughtUpAll(colls, servers);
      }
    }

    /**
     Everything is fetched: the list is the server's, every live album is at its own time, and every
     live entry has its row.
     */
    ghost predicate FetchedAll(colls: Albums, servers: map<AlbumId, Server>)
      reads this
    {
      && FileRowsPresent()
      && (forall a :: a in colls ==> AlbumShown(albums, colls, a))
      && (forall a :: a in albums && !albums[a].isDeleted ==> a in servers && Cursor(a) == servers[a].lastUpdatedAt)
    }

    lemma CaughtUpAll(colls: Albums, servers: map<AlbumId, Server>)
      requires CollectionsOk(colls) && AllOk(servers)
      requires forall a :: a in colls && !colls[a].isDeleted ==>
                 a in servers && servers[a].lastUpdatedAt == colls[a].lastUpdatedAt
      requires forall a :: a in colls ==> AlbumShown(albums, colls, a)
      requires Lagging(albums, {}, cursors) == {}
      ensures FetchedAll(colls, servers)
    {
      forall a | a in albums && !albums[a].isDeleted
        ensures a in servers && Cursor(a) == servers[a].lastUpdatedAt
        ensures forall f :: f in EntriesOf(entries, a) && !EntriesOf(entries, a)[f].removed ==> f in files.rows
      {
        assert AlbumShown(albums, colls, a);
        assert a !in Lagging(albums, {}, cursors);
        var v := View(a, servers[a]);
        assert Inv(At(a, servers[a], Idle));
        forall f | f in EntriesOf(entries, a) && !EntriesOf(entries, a)[f].removed ensures f in files.rows {
          assert Live(v, f);
          assert Reflected(v, f);
        }
      }
    }
  }

  lemma SoundAfter(w: World, ls: seq<Label>, w': World)
    requires RunsTo(w, ls, w')
    ensures Inv(w) ==> CursorSound(w'.album)
  {
    if Inv(w) {
      RunKeeps(w, ls);
    }
  }

  lemma ResetsNothing(m: Bucket, fs: FileStore)
    ensures OnlyResets(m, fs, m, fs)
  {}

  lemma LiveAreServed(albums: Albums, colls: Albums, servers: map<AlbumId, Server>)
    requires albums.Keys <= colls.Keys && forall a :: a in colls ==>
        AlbumShown(albums, colls, a) && colls[a].lastUpdatedAt > 0
    requires forall a :: a in colls && !colls[a].isDeleted ==>
        a in servers && servers[a].lastUpdatedAt == colls[a].lastUpdatedAt
    ensures forall a :: a in albums && !albums[a].isDeleted ==>
        a in servers && 0 < albums[a].lastUpdatedAt == servers[a].lastUpdatedAt
  {
    forall a | a in albums && !albums[a].isDeleted
      ensures a in servers && 0 < albums[a].lastUpdatedAt == servers[a].lastUpdatedAt
    {
      assert AlbumShown(albums, colls, a);
    }
  }

  /** Where the list is the server's, the albums that lag behind are those of the server that do. */
  lemma LaggingShown(albums: Albums, colls: Albums, cs: map<AlbumId, int>)
    requires albums.Keys <= colls.Keys && forall a :: a in colls ==> AlbumShown(albums, colls, a)
    ensures Lagging(albums, {}, cs) == Lagging(colls, {}, cs)
  {}
}
