/**
 Whole histories of an account: from an empty store and an empty export directory, any
 alternation of runs, stopped or not, with changes on the server.
 */
module History {
  import opened Disk
  import opened Folder
  import opened Exporter
  import opened CollectionList
  import opened SyncMachine
  import opened SyncClient
  import opened Reconciler
  import opened DiskView
  import opened Account
  import opened Traces
  import AlbumFolders

  // ---- the first state ----

  const EMPTY := State(map[], map[], FileStore(map[], 0, map[]), map[], map[], 0)

  lemma NothingStored(fold: CaseFold, colls: Albums, servers: Servers)
    requires forall a :: a in colls ==> colls[a].lastUpdatedAt > 0
    requires forall a :: a in servers ==> ServerOk(servers[a])
    ensures
      StateOk(fold, EMPTY, colls, servers) && AllPlaced(EMPTY) && NoneComesBack(colls, EMPTY.albums)
  {}

  /** An empty store and an empty export directory. */
  method NewAccount(fold: CaseFold, puts: nat, ghost colls: Albums, ghost servers: Servers)
    returns (x: Export, dir: AlbumFolders.ExportDir)
    requires forall a :: a in colls ==> colls[a].lastUpdatedAt > 0
    requires forall a :: a in servers ==> ServerOk(servers[a])
    ensures fresh(x) && fresh(x.store) && fresh(dir) && x.fold == fold && x.store.puts == puts
    ensures AccountOk(x, dir, colls, servers) && AllPlaced(StateOf(x)) && NoneComesBack(colls, StateOf(x).albums)
    ensures StateOf(x) == EMPTY && dir.root == map[]
  {
    var store := new Client(puts);
    x := new Export(fold, store);
    dir := new AlbumFolders.ExportDir(map[]);
    NothingStored(fold, colls, servers);
    assert StateOf(x) == EMPTY;
    assert ByAlbum(dir.root) == map[] by {
      assert forall a :: !AlbumFolders.HasFolder(dir.root, a);
    }
  }

  // ---- changes on the server ----

  /**
   A file of an album may change later than all the client has seen. Only a removal may have
   to wait: while the album has no cursor yet, a file must not go that is live in the store.
   */
  predicate FileMayChange(colls: Albums, servers: Servers, entries: Bucket, cursors: map<AlbumId, int>, listCursor: int,
                          a: AlbumId, f: SyncMachine.FileId, v: Version) {
    && a in colls && a in servers && v.time > servers[a].lastUpdatedAt && v.time > listCursor
    && (v.removed && CursorIn(cursors, a) == 0 && f in EntriesOf(entries, a) ==> EntriesOf(entries, a)[f].removed)
  }

  function WithFile(servers: Servers, a: AlbumId, f: SyncMachine.FileId, v: Version): Servers
    requires a in servers
  {
    servers[a := Server(servers[a].rows[f := v], v.time)]
  }

  /** The file's change moves the album's own time too. */
  lemma FileChangeKeeps(fold: CaseFold, st: State, colls: Albums, servers: Servers, a: AlbumId, f: SyncMachine.FileId,
                        v: Version)
    requires StateOk(fold, st, colls, servers)
    requires FileMayChange(colls, servers, st.entries, st.cursors, st.listCursor, a, f, v)
    ensures StateOk(fold, st, colls[a := colls[a].(lastUpdatedAt := v.time)], WithFile(servers, a, f, v))
  {
    var servers', colls' := WithFile(servers, a, f, v), colls[a := colls[a].(lastUpdatedAt := v.time)];
    StepKeeps(World(ViewOf(st, a, servers[a]), Idle), ServerChange(f, v));
    forall b | b in servers' ensures Inv(World(ViewOf(st, b, servers'[b]), Idle)) {
      assert b != a ==> Inv(World(ViewOf(st, b, servers[b]), Idle));
    }
    ListKeeps(st.albums, colls, st.listCursor, a, colls'[a]);
  }

  /**
   A change later than the list's cursor leaves the list in order; a deletion has to spare what a
   first list has stored.
   */
  lemma ListKeeps(albums: Albums, colls: Albums, cursor: int, a: AlbumId, c: RemoteAlbum)
    requires ListOk(albums, colls, cursor) && c.lastUpdatedAt > cursor
    requires c.isDeleted && cursor == 0 && a in albums ==> albums[a].isDeleted
    ensures ListOk(albums, colls[a := c], cursor)
  {
    var colls' := colls[a := c];
    forall b | b in colls' && colls'[b].lastUpdatedAt <= cursor ensures AlbumShown(albums, colls', b) {
      assert AlbumShown(albums, colls, b);
    }
  }

  /**
   An album may appear, be renamed or be deleted, later than all the client has seen. A deleted
   one does not come back, and one that a first list has stored half-way is not deleted then.
   */
  predicate AlbumMayChange(lib: AlbumFolders.Library, colls: Albums, servers: Servers, albums: Albums, listCursor: int,
                           a: AlbumId, c: RemoteAlbum) {
    && c.lastUpdatedAt > 0 && c.lastUpdatedAt > listCursor
    && (a in servers ==> c.lastUpdatedAt > servers[a].lastUpdatedAt)
    && (a in colls && colls[a].isDeleted ==> c.isDeleted)
    && (c.isDeleted && listCursor == 0 && a in albums ==> albums[a].isDeleted)
    && (!c.isDeleted ==> AlbumFolders.IsPlain(AlbumFolders.Sanitize(lib, c.name)))
  }

  function WithAlbum(servers: Servers, a: AlbumId, t: int): Servers {
    servers[a := Server(if a in servers then servers[a].rows else map[], t)]
  }

  lemma AlbumChangeKeeps(fold: CaseFold, lib: AlbumFolders.Library, st: State, colls: Albums, servers: Servers,
                         a: AlbumId, c: RemoteAlbum)
    requires StateOk(fold, st, colls, servers)
    requires AlbumMayChange(lib, colls, servers, st.albums, st.listCursor, a, c)
    ensures StateOk(fold, st, colls[a := c], WithAlbum(servers, a, c.lastUpdatedAt))
  {
    var servers' := WithAlbum(servers, a, c.lastUpdatedAt);
    if a in servers {
      StepKeeps(World(ViewOf(st, a, servers[a]), Idle), ServerTouch(c.lastUpdatedAt));
    }
    forall b | b in servers' ensures Inv(World(ViewOf(st, b, servers'[b]), Idle)) {
      assert b != a ==> Inv(World(ViewOf(st, b, servers[b]), Idle));
    }
    ListKeeps(st.albums, colls, st.listCursor, a, c);
  }

  // ---- histories ----

  /** A run whose puts give out after a number, a file that changes in an album, an album that changes. */
  datatype Event =
    | Run(env: Environment, puts: nat)
    | FileChanged(a: AlbumId, f: SyncMachine.FileId, version: Version)
    | AlbumChanged(a: AlbumId, album: RemoteAlbum)

  type Responder = (Albums, Servers, int) -> Answers

  /** The server always answers as it should. */
  ghost predicate RespondsOk(answer: Responder) {
    forall colls, servers, cursor :: WorldOk(colls, servers) ==>
        AnswersOk(answer(colls, servers, cursor), colls, servers, cursor)
  }

  /** The account and the server between two events. */
  ghost predicate AllInOrder(fold: CaseFold, lib: AlbumFolders.Library, st: State, colls: Albums, servers: Servers) {
    && StateOk(fold, st, colls, servers) && WorldOk(colls, servers) && NamesOk(lib, colls)
    && AllPlaced(st) && NoneComesBack(colls, st.albums)
  }

  lemma FileChangeInOrder(fold: CaseFold, lib: AlbumFolders.Library, st: State, colls: Albums, servers: Servers,
                          a: AlbumId, f: SyncMachine.FileId, v: Version)
    requires AllInOrder(fold, lib, st, colls, servers)
    requires FileMayChange(colls, servers, st.entries, st.cursors, st.listCursor, a, f, v)
    ensures AllInOrder(fold, lib, st, colls[a := colls[a].(lastUpdatedAt := v.time)], WithFile(servers, a, f, v))
  {
    FileChangeKeeps(fold, st, colls, servers, a, f, v);
    WorldAfter(lib, st.albums, colls, servers, a, colls[a].(lastUpdatedAt := v.time), WithFile(servers, a, f, v));
  }

  lemma AlbumChangeInOrder(fold: CaseFold, lib: AlbumFolders.Library, st: State, colls: Albums, servers: Servers,
                           a: AlbumId, c: RemoteAlbum)
    requires AllInOrder(fold, lib, st, colls, servers)
    requires AlbumMayChange(lib, colls, servers, st.albums, st.listCursor, a, c)
    ensures AllInOrder(fold, lib, st, colls[a := c], WithAlbum(servers, a, c.lastUpdatedAt))
  {
    AlbumChangeKeeps(fold, lib, st, colls, servers, a, c);
    WorldAfter(lib, st.albums, colls, servers, a, c, WithAlbum(servers, a, c.lastUpdatedAt));
  }

  lemma WorldAfter(lib: AlbumFolders.Library, albums: Albums, colls: Albums, servers: Servers, a: AlbumId,
                   c: RemoteAlbum, servers': Servers)
    requires WorldOk(colls, servers) && NamesOk(lib, colls) && NoneComesBack(colls, albums) && albums.Keys <= colls.Keys
    requires a in servers' && servers' == servers[a := servers'[a]] && servers'[a].lastUpdatedAt == c.lastUpdatedAt
    requires a in colls && colls[a].isDeleted ==> c.isDeleted
    requires !c.isDeleted ==> AlbumFolders.IsPlain(AlbumFolders.Sanitize(lib, c.name))
    ensures WorldOk(colls[a := c], servers') && NamesOk(lib, colls[a := c]) && NoneComesBack(colls[a := c], albums)
  {
    var colls' := colls[a := c];
    forall b | Wanted(colls', b)
      ensures b in servers' && servers'[b].lastUpdatedAt == colls'[b].lastUpdatedAt
      ensures AlbumFolders.IsPlain(AlbumFolders.Sanitize(lib, colls'[b].name))
    {
      assert b != a ==> Wanted(colls, b);
    }
  }

  /** The account, and the collections and rows on the server, between two events. */
  datatype Moment = Moment(st: State, colls: Albums, servers: Servers)

  ghost predicate InOrderAt(fold: CaseFold, lib: AlbumFolders.Library, m: Moment) {
    AllInOrder(fold, lib, m.st, m.colls, m.servers)
  }

  /** What an event makes of the server. Changes that may not happen yet do not. */
  ghost function WorldAfterEvent(lib: AlbumFolders.Library, m: Moment, e: Event): (Albums, Servers) {
    match e
    case Run(_, _) => (m.colls, m.servers)
    case FileChanged(a, f, v) =>
      if FileMayChange(m.colls, m.servers, m.st.entries, m.st.cursors, m.st.listCursor, a, f, v)
      then (m.colls[a := m.colls[a].(lastUpdatedAt := v.time)], WithFile(m.servers, a, f, v))
      else (m.colls, m.servers)
    case AlbumChanged(a, c) =>
      if AlbumMayChange(lib, m.colls, m.servers, m.st.albums, m.st.listCursor, a, c)
      then (m.colls[a := c], WithAlbum(m.servers, a, c.lastUpdatedAt))
      else (m.colls, m.servers)
  }

  /** The run has puts enough for all there can be to do. */
  ghost predicate EnoughPuts(e: Event, m: Moment, answer: Responder)
    requires e.Run?
  {
    WorldOk(m.colls, m.servers)
        && e.puts >= RunPuts(m.st, m.colls, m.servers, answer(m.colls, m.servers, m.st.listCursor))
  }

  /**
   What an event makes of the account: a run with working downloads and puts enough leaves
   everything done, where all was done nothing is touched, and no change on the server touches it.
   */
  ghost predicate EventOutcome(fold: CaseFold, answer: Responder, e: Event, m: Moment, st: State) {
    && (e.Run? && EveryDownloadWorks(e.env) && EnoughPuts(e, m, answer) ==>
          EveryAlbumDone(st, m.colls, m.servers) && UpToDate(st, m.colls))
    && (e.Run? && UpToDate(m.st, m.colls) ==>
        UpToDate(st, m.colls) && st.disk == m.st.disk && st.entries == m.st.entries)
    && (!e.Run? ==> st == m.st)
  }

  ghost predicate Follows(fold: CaseFold, lib: AlbumFolders.Library, answer: Responder, e: Event, m: Moment,
                          m': Moment) {
    (m'.colls, m'.servers) == WorldAfterEvent(lib, m, e) && EventOutcome(fold, answer, e, m, m'.st)
  }

  ghost function InOrder(fold: CaseFold, lib: AlbumFolders.Library): Moment -> bool {
    m => InOrderAt(fold, lib, m)
  }

  ghost function FollowsBy(fold: CaseFold, lib: AlbumFolders.Library, answer: Responder): (Event, Moment,
      Moment) -> bool {
    (e, m, m') => Follows(fold, lib, answer, e, m, m')
  }

  /** The moments between events, each in order and following from the one before by its event. */
  ghost predicate IsHistory(fold: CaseFold, lib: AlbumFolders.Library, answer: Responder, events: seq<Event>,
                            ms: seq<Moment>) {
    IsTrace(InOrder(fold, lib), FollowsBy(fold, lib, answer), events, ms)
  }

  ghost predicate HistoryOk(x: Export, dir: AlbumFolders.ExportDir, lib: AlbumFolders.Library, m: Moment)
    reads x, x.store, dir
  {
    InOrder(x.fold, lib)(m) && StateOf(x) == m.st && DiskIn(dir.root, x.disk)
  }

  /** A run whose puts give out after a number. */
  method RunOnce(x: Export, dir: AlbumFolders.ExportDir, lib: AlbumFolders.Library, colls: Albums, servers: Servers,
                 env: Environment, puts: nat, answer: Responder, ghost m: Moment)
    returns (ghost m': Moment)
    requires m.colls == colls && m.servers == servers && HistoryOk(x, dir, lib, m)
    requires AlbumFolders.LibraryOk(lib) && RespondsOk(answer) && EnvironmentOk(x.fold, env)
    modifies x, x.store, dir
    ensures HistoryOk(x, dir, lib, m') && Follows(x.fold, lib, answer, Run(env, puts), m, m')
  {
    x.store.puts := puts;
    assert StateOf(x) == m.st;
    var answers := answer(colls, servers, x.store.collectionsCursor);
    var r := SyncAccount(x, dir, lib, colls, servers, answers, env);
    m' := Moment(StateOf(x), colls, servers);
    RunFollows(x.fold, lib, answer, m, m'.st, env, puts, r);
  }

  lemma RunFollows(fold: CaseFold, lib: AlbumFolders.Library, answer: Responder, m: Moment, st: State,
                   env: Environment, puts: nat, r: SyncResult)
    requires InOrderAt(fold, lib, m) && StateOk(fold, st, m.colls, m.servers)
    requires RunOutcome(fold, m.st, st, m.colls, m.servers, env, r)
    requires var cost := RunPuts(m.st, m.colls, m.servers, answer(m.colls, m.servers, m.st.listCursor));
             puts >= cost && EveryDownloadWorks(env) ==> r == Completed
    ensures InOrderAt(fold, lib, Moment(st, m.colls, m.servers))
    ensures Follows(fold, lib, answer, Run(env, puts), m, Moment(st, m.colls, m.servers))
  {}

  /** A file's change, if it may happen now. */
  method ChangeFile(x: Export, colls: Albums, servers: Servers, a: AlbumId, f: SyncMachine.FileId, v: Version,
                    ghost lib: AlbumFolders.Library, ghost answer: Responder, ghost m: Moment)
    returns (colls': Albums, servers': Servers)
    requires m == Moment(StateOf(x), colls, servers) && InOrderAt(x.fold, lib, m)
    ensures InOrderAt(x.fold, lib, Moment(m.st, colls', servers'))
    ensures Follows(x.fold, lib, answer, FileChanged(a, f, v), m, Moment(m.st, colls', servers'))
  {
    colls', servers' := colls, servers;
    if FileMayChange(colls, servers, x.store.entries, x.store.cursors, x.store.collectionsCursor, a, f, v) {
      FileChangeInOrder(x.fold, lib, m.st, colls, servers, a, f, v);
      colls', servers' := colls[a := colls[a].(lastUpdatedAt := v.time)], WithFile(servers, a, f, v);
    }
  }

  /** An album's change, if it may happen now. */
  method ChangeAlbum(x: Export, colls: Albums, servers: Servers, a: AlbumId, c: RemoteAlbum,
                     lib: AlbumFolders.Library, ghost answer: Responder, ghost m: Moment)
    returns (colls': Albums, servers': Servers)
    requires m == Moment(StateOf(x), colls, servers) && InOrderAt(x.fold, lib, m)
    ensures InOrderAt(x.fold, lib, Moment(m.st, colls', servers'))
    ensures Follows(x.fold, lib, answer, AlbumChanged(a, c), m, Moment(m.st, colls', servers'))
  {
    colls', servers' := colls, servers;
    if AlbumMayChange(lib, colls, servers, x.store.albums, x.store.collectionsCursor, a, c) {
      AlbumChangeInOrder(x.fold, lib, m.st, colls, servers, a, c);
      colls', servers' := colls[a := c], WithAlbum(servers, a, c.lastUpdatedAt);
    }
  }

  /** One event. */
  method Happen(x: Export, dir: AlbumFolders.ExportDir, lib: AlbumFolders.Library, colls: Albums, servers: Servers,
                e: Event,
                answer: Responder, ghost m: Moment)
    returns (colls': Albums, servers': Servers, ghost m': Moment)
    requires m.colls == colls && m.servers == servers && HistoryOk(x, dir, lib, m)
    requires AlbumFolders.LibraryOk(lib) && RespondsOk(answer) && (e.Run? ==> EnvironmentOk(x.fold, e.env))
    modifies x, x.store, dir
    ensures m'.colls == colls' && m'.servers == servers'
    ensures HistoryOk(x, dir, lib, m') && Follows(x.fold, lib, answer, e, m, m')
  {
    match e {
      case Run(env, puts) =>
        m' := RunOnce(x, dir, lib, colls, servers, env, puts, answer, m);
        colls', servers' := colls, servers;
      case FileChanged(a, f, v) =>
        colls', servers' := ChangeFile(x, colls, servers, a, f, v, lib, answer, m);
        m' := Moment(m.st, colls', servers');
      case AlbumChanged(a, c) =>
        colls', servers' := ChangeAlbum(x, colls, servers, a, c, lib, answer, m);
        m' := Moment(m.st, colls', servers');
    }
  }

  /** The next event, `ms` being the moments so far and `m` the last one. */
  method HappenNext(x: Export, dir: AlbumFolders.ExportDir, lib: AlbumFolders.Library, colls: Albums, servers: Servers,
                    events: seq<Event>, n: nat, answer: Responder, ghost ms: seq<Moment>, ghost m: Moment)
    returns (colls': Albums, servers': Servers, ghost ms': seq<Moment>, ghost m': Moment)
    requires n < |events| && IsHistory(x.fold, lib, answer, events[..n], ms) && m == ms[n]
    requires m.colls == colls && m.servers == servers && HistoryOk(x, dir, lib, m)
    requires AlbumFolders.LibraryOk(lib) && RespondsOk(answer)
    requires events[n].Run? ==> EnvironmentOk(x.fold, events[n].env)
    modifies x, x.store, dir
    ensures IsHistory(x.fold, lib, answer, events[..n + 1], ms') && ms'[0] == ms[0] && m' == ms'[n + 1]
    ensures m'.colls == colls' && m'.servers == servers' && HistoryOk(x, dir, lib, m')
  {
    colls', servers', m' := Happen(x, dir, lib, colls, servers, events[n], answer, m);
    TraceSnoc(InOrder(x.fold, lib), FollowsBy(x.fold, lib, answer), events, n, ms, m');
    ms' := ms + [m'];
  }

  /** The events from the n-th on, `ms` being the moments so far and `m` the last one. */
  method HappenAll(x: Export, dir: AlbumFolders.ExportDir, lib: AlbumFolders.Library, colls: Albums, servers: Servers,
                   events: seq<Event>, n: nat, answer: Responder, ghost ms: seq<Moment>, ghost m: Moment)
    returns (colls': Albums, servers': Servers, ghost ms': seq<Moment>, ghost m': Moment)
    requires n <= |events| && IsHistory(x.fold, lib, answer, events[..n], ms) && m == ms[n]
    requires m.colls == colls && m.servers == servers && HistoryOk(x, dir, lib, m)
    requires AlbumFolders.LibraryOk(lib) && RespondsOk(answer)
    requires forall i :: 0 <= i < |events| && events[i].Run? ==> EnvironmentOk(x.fold, events[i].env)
    modifies x, x.store, dir
    ensures IsHistory(x.fold, lib, answer, events[..|events|], ms') && ms'[0] == ms[0] && m' == ms'[|events|]
    ensures m'.colls == colls' && m'.servers == servers' && HistoryOk(x, dir, lib, m')
    decreases |events| - n
  {
    colls', servers', ms', m' := colls, servers, ms, m;
    if n < |events| {
      colls', servers', ms', m' := HappenNext(x, dir, lib, colls, servers, events, n, answer, ms, m);
      colls', servers', ms', m' := HappenAll(x, dir, lib, colls', servers', events, n + 1, answer, ms', m');
    }
  }

  /** Against an empty server a new account is in order, and a history can start there. */
  lemma EmptyInOrder(fold: CaseFold, lib: AlbumFolders.Library, answer: Responder, events: seq<Event>)
    ensures var m := Moment(EMPTY, map[], map[]);
            InOrder(fold, lib)(m) && IsHistory(fold, lib, answer, events[..0], [m])
  {
    NothingStored(fold, map[], map[]);
    NoEvents(InOrder(fold, lib), FollowsBy(fold, lib, answer), events, Moment(EMPTY, map[], map[]));
  }

  lemma WholePrefix(events: seq<Event>)
    ensures events[..|events|] == events
  {}

  /**
   Export convergence over every history. From an empty account and an empty server the events
   happen one after the other: `ms` has the moments between them, each in order, where no album
   has lost anything it marks synced, and each following from the one before by its event. So
   after a run with working downloads and puts enough every live album is done.
   */
  method Replay(fold: CaseFold, lib: AlbumFolders.Library, events: seq<Event>, answer: Responder)
    returns (x: Export, dir: AlbumFolders.ExportDir, colls: Albums, servers: Servers, ghost ms: seq<Moment>)
    requires AlbumFolders.LibraryOk(lib) && RespondsOk(answer)
    requires forall i :: 0 <= i < |events| && events[i].Run? ==> EnvironmentOk(fold, events[i].env)
    ensures IsHistory(fold, lib, answer, events, ms) && ms[0] == Moment(EMPTY, map[], map[])
    ensures x.fold == fold && ms[|events|] == Moment(StateOf(x), colls, servers) && DiskIn(dir.root, x.disk)
  {
    x, dir := NewAccount(fold, 0, map[], map[]);
    EmptyInOrder(fold, lib, answer, events);
    WholePrefix(events);
    ghost var m := Moment(EMPTY, map[], map[]);
    colls, servers, ms, m := HappenAll(x, dir, lib, map[], map[], events, 0, answer, [m], m);
  }

  /** After a run with working downloads and puts enough, the next one, whatever becomes of it, changes nothing. */
  lemma SecondRunChangesNothing(fold: CaseFold, lib: AlbumFolders.Library, answer: Responder, events: seq<Event>,
                                ms: seq<Moment>, i: nat)
    requires IsHistory(fold, lib, answer, events, ms) && i + 1 < |events| && events[i].Run? && events[i + 1].Run?
    requires EveryDownloadWorks(events[i].env) && EnoughPuts(events[i], ms[i], answer)
    ensures EveryAlbumDone(ms[i + 1].st, ms[i].colls, ms[i].servers)
    ensures ms[i + 2].st.disk == ms[i + 1].st.disk && ms[i + 2].st.entries == ms[i + 1].st.entries
  {
    assert FollowsBy(fold, lib, answer)(events[i], ms[i], ms[i + 1]);
    assert FollowsBy(fold, lib, answer)(events[i + 1], ms[i + 1], ms[i + 2]);
  }
}
