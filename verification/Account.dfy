/**
 SyncAccount from the server to the disk: collections, files, folders, export. Between its
 steps the account is a value, and each step is a lemma about that value.
 */
module Account {
  import opened Sets
  import opened Decimal
  import opened Disk
  import opened Folder
  import opened Exporter
  import opened CollectionList
  import opened SyncMachine
  import opened SyncClient
  import opened SyncTheorems
  import opened EntryOrder
  import opened Reconciler
  import opened DiskView
  import AlbumFolders

  // ---- the entries of the store as a list ----

  ghost predicate IsListed(items: seq<Item>, a: AlbumId, f: FileId) {
    exists i :: 0 <= i < |items| && items[i].album == a && items[i].file == f
  }

  ghost predicate ItemsDistinct(items: seq<Item>) {
    forall i, j :: 0 <= i < j < |items| ==> (items[i].album, items[i].file) != (items[j].album, items[j].file)
  }

  /** The list grows by one new entry. */
  lemma ListOne(items: seq<Item>, item: Item)
    requires ItemsDistinct(items) && !IsListed(items, item.album, item.file)
    ensures ItemsDistinct(items + [item])
    ensures forall a, f ::
              IsListed(items + [item], a, f) <==> IsListed(items, a, f) || (a == item.album && f == item.file)
  {
    var more := items + [item];
    assert more[|items|] == item;
    forall a, f | IsListed(items, a, f) ensures IsListed(more, a, f) {
      var i :| 0 <= i < |items| && items[i].album == a && items[i].file == f;
      assert more[i] == items[i];
    }
    forall i | 0 <= i < |items| ensures (items[i].album, items[i].file) != (item.album, item.file) {
      assert (items[i].album, items[i].file) == (item.album, item.file) ==> IsListed(items, item.album, item.file);
    }
  }

  /** The entries of one album are appended. */
  method ListAlbumEntries(entries: Bucket, a: AlbumId, items0: seq<Item>) returns (items: seq<Item>)
    requires ItemsDistinct(items0) && AllPresent(items0, 0, entries) && forall f :: !IsListed(items0, a, f)
    ensures ItemsDistinct(items) && AllPresent(items, 0, entries)
    ensures forall b, f :: IsListed(items, b, f) <==> IsListed(items0, b, f) || (b == a && f in EntriesOf(entries, a))
  {
    items := items0;
    var es := EntriesOf(entries, a);
    var todo: set<FileId> := es.Keys;
    while todo != {}
      invariant todo <= es.Keys
      invariant ItemsDistinct(items) && AllPresent(items, 0, entries)
      invariant forall b, f :: IsListed(items, b, f) <==> IsListed(items0, b, f) || (b == a && f in es && f !in todo)
    {
      EmptyOrNot(todo);
      var f :| f in todo;
      ListOne(items, Item(a, f, es[f]));
      items, todo := items + [Item(a, f, es[f])], todo - {f};
    }
  }

  /** getRemoteAlbumEntries: every entry of the bucket, once. */
  method ListEntries(entries: Bucket) returns (items: seq<Item>)
    ensures Snapshot(items, entries)
  {
    items := [];
    var todo: set<AlbumId> := entries.Keys;
    while todo != {}
      invariant todo <= entries.Keys
      invariant ItemsDistinct(items) && AllPresent(items, 0, entries)
      invariant forall a, f :: IsListed(items, a, f) <==> f in EntriesOf(entries, a) && a !in todo
    {
      EmptyOrNot(todo);
      var a :| a in todo;
      items := ListAlbumEntries(entries, a, items);
      todo := todo - {a};
    }
    forall a, f | f in EntriesOf(entries, a)
      ensures exists i :: 0 <= i < |items| && items[i].album == a && items[i].file == f
    {
      assert IsListed(items, a, f);
    }
  }

  /** A sorted snapshot is a snapshot. */
  lemma SortedSnapshot(items: seq<Item>, entries: Bucket)
    requires Snapshot(items, entries)
    ensures Snapshot(SortedEntries(items), entries) && Sorted(SortedEntries(items))
  {
    SortedEntriesSorted(items);
    PermutedSnapshot(items, SortedEntries(items), entries);
  }

  lemma PermutedSnapshot(items: seq<Item>, items': seq<Item>, entries: Bucket)
    requires Snapshot(items, entries) && multiset(items) == multiset(items')
    ensures Snapshot(items', entries)
  {
    assert forall x :: x in items <==> x in items' by {
      assert forall x :: x in items <==> x in multiset(items);
      assert forall x :: x in items' <==> x in multiset(items');
    }
    forall j | 0 <= j < |items'| ensures Present(items'[j], entries) {
      assert items'[j] in items;
    }
    forall i, j | 0 <= i < j < |items'| ensures (items'[i].album, items'[i].file) != (items'[j].album, items'[j].file) {
      OncePermuted(items, items', i, j);
      assert items'[i] in items && items'[j] in items;
    }
    forall a, f | f in EntriesOf(entries, a)
      ensures exists i :: 0 <= i < |items'| && items'[i].album == a && items'[i].file == f
    {
      var i :| 0 <= i < |items| && items[i].album == a && items[i].file == f;
      assert items[i] in items';
    }
  }

  /** Distinct items stay distinct under permutation. */
  lemma OncePermuted(items: seq<Item>, items': seq<Item>, i: nat, j: nat)
    requires forall x, y :: 0 <= x < y < |items| ==> items[x] != items[y]
    requires multiset(items) == multiset(items') && i < j < |items'|
    ensures items'[i] != items'[j]
  {
    MultiplicityOne(items, items'[i]);
    var front := items'[..j];
    assert items' == front + [items'[j]] + items'[j + 1..];
    assert items'[i] in front && items'[i] == front[i];
    assert multiset(items')[items'[j]] == multiset(front)[items'[j]] + 1 + multiset(items'[j + 1..])[items'[j]];
  }

  lemma {:induction false} MultiplicityOne(items: seq<Item>, x: Item)
    requires forall i, j :: 0 <= i < j < |items| ==> items[i] != items[j]
    ensures multiset(items)[x] <= 1
  {
    if items != [] {
      assert items == [items[0]] + items[1..];
      MultiplicityOne(items[1..], x);
      assert items[0] !in items[1..];
      assert items[0] !in multiset(items[1..]);
    }
  }

  method ListSorted(entries: Bucket) returns (items: seq<Item>)
    ensures Snapshot(items, entries) && Sorted(items)
  {
    var all := ListEntries(entries);
    SortedSnapshot(all, entries);
    items := SortedEntries(all);
  }

  // ---- an account as a value ----

  datatype State = State(disk: DiskState, entries: Bucket, files: FileStore, cursors: map<AlbumId, int>,
                         albums: Albums, listCursor: int)

  ghost function StateOf(x: Export): State
    reads x, x.store
  {
    State(x.disk, x.store.entries, x.store.files, x.store.cursors, x.store.albums, x.store.collectionsCursor)
  }

  type Servers = map<AlbumId, Server>

  ghost function ViewOf(st: State, a: AlbumId, s: Server): Album {
    ViewIn(st.entries, st.files, st.cursors, a, s)
  }

  ghost predicate AllInv(st: State, servers: Servers) {
    AllOkIn(st.entries, st.files, st.cursors, servers)
  }

  ghost predicate SyncedLive(entries: Bucket) {
    forall a, f :: f in EntriesOf(entries, a) && EntriesOf(entries, a)[f].synced ==> !EntriesOf(entries, a)[f].removed
  }

  /** The store has nothing on albums the server does not serve. */
  ghost predicate OnlyServed(st: State, servers: Servers) {
    forall a :: a !in servers ==>
      EntriesOf(st.entries, a) == map[] && AppliedBy(st.files.applied, a) == map[] && CursorIn(st.cursors, a) == 0
  }

  /** What holds between any two runs, stopped ones included. */
  ghost predicate StateOk(fold: CaseFold, st: State, colls: Albums, servers: Servers) {
    && AllSane(fold, st.disk, st.entries, st.files.rows.Keys) && SyncedLive(st.entries)
    && ListOk(st.albums, colls, st.listCursor)
    && AllInv(st, servers) && Stamped(st.files) && OnlyServed(st, servers)
    && st.disk.Keys <= st.albums.Keys && forall a :: a in st.disk ==> !st.disk[a].isDeleted
  }

  /** Every entry of the album that is marked synced has its record, in no older version. */
  ghost predicate Held(st: State, a: AlbumId) {
    SyncedShown(RecordsOf(st.disk, a), EntriesOf(st.entries, a), AppliedBy(st.files.applied, a))
  }

  /** Every album holds what it marks synced, except where it was deleted and lost its folder. */
  ghost predicate AllPlaced(st: State) {
    forall a :: Held(st, a) || (a !in st.disk && a in st.albums && st.albums[a].isDeleted)
  }

  /** No album that the client knows as deleted is live on the server. */
  ghost predicate NoneComesBack(colls: Albums, albums: Albums) {
    forall a :: a in albums && albums[a].isDeleted && a in colls ==> colls[a].isDeleted
  }

  /**
   The folder has exactly the records of the files live in the album on the server, each
   exported from the row the album put for the server's version or from a later put; the
   files each record lists hold just that, and all entries are synced.
   */
  ghost predicate AlbumDone(st: State, servers: Servers, a: AlbumId) {
    && a in st.disk && a in servers && ContentRight(st.disk[a].folder)
    && var rs, ap := RecordsOf(st.disk, a), AppliedBy(st.files.applied, a);
    && Exported(rs, EntriesOf(st.entries, a), ap)
    && rs.Keys == LiveOnServer(servers[a])
    && forall f :: f in rs ==> f in ap && ap[f].time >= servers[a].rows[f].time && ap[f].stamp <= rs[f].stamp
  }

  ghost predicate EveryAlbumDone(st: State, colls: Albums, servers: Servers) {
    forall a :: Wanted(colls, a) ==> AlbumDone(st, servers, a)
  }

  ghost predicate EveryFolderExported(st: State) {
    forall a :: a in st.disk ==>
        Exported(RecordsOf(st.disk, a), EntriesOf(st.entries, a), AppliedBy(st.files.applied, a))
  }

  /** Nothing is left to fetch, to make or to export. */
  ghost predicate UpToDate(st: State, colls: Albums) {
    && (forall a :: a in colls ==> AlbumShown(st.albums, colls, a))
    && Lagging(colls, {}, st.cursors) == {}
    && (forall a :: a in st.disk <==> Wanted(colls, a))
    && EveryFolderExported(st)
  }

  // ---- the fetch ----

  /** What a fetch, stopped or not, does to the account. */
  ghost predicate FetchStep(st: State, st': State, colls: Albums) {
    && st'.disk == st.disk && OnlyResets(st.entries, st.files, st'.entries, st'.files)
    && ListMoved(st.albums, st'.albums, colls)
    && (Lagging(colls, {}, st.cursors) == {} ==>
        st'.entries == st.entries && st'.files == st.files && st'.cursors == st.cursors)
  }

  lemma FetchKeepsSane(fold: CaseFold, st: State, st': State, colls: Albums)
    requires AllSane(fold, st.disk, st.entries, st.files.rows.Keys) && SyncedLive(st.entries)
    requires FetchStep(st, st', colls)
    ensures AllSane(fold, st'.disk, st'.entries, st'.files.rows.Keys) && SyncedLive(st'.entries)
  {
    forall a | a in st.disk && !st.disk[a].isDeleted
      ensures AlbumSane(fold, st.disk[a].folder, EntriesOf(st'.entries, a), st'.files.rows.Keys)
    {
      assert AlbumSane(fold, st.disk[a].folder, EntriesOf(st.entries, a), st.files.rows.Keys);
      assert EntriesReset(EntriesOf(st.entries, a), AppliedBy(st.files.applied, a), EntriesOf(st'.entries, a),
                          AppliedBy(st'.files.applied, a));
    }
    forall a, f | f in EntriesOf(st'.entries, a) && EntriesOf(st'.entries, a)[f].synced
      ensures !EntriesOf(st'.entries, a)[f].removed
    {
      assert EntriesReset(EntriesOf(st.entries, a), AppliedBy(st.files.applied, a), EntriesOf(st'.entries, a),
                          AppliedBy(st'.files.applied, a));
    }
  }

  lemma FetchKeepsOk(fold: CaseFold, st: State, st': State, colls: Albums, servers: Servers)
    requires StateOk(fold, st, colls, servers) && FetchStep(st, st', colls)
    requires ListOk(st'.albums, colls, st'.listCursor) && AllInv(st', servers)
    requires forall a :: a !in servers ==>
        SameOf(a, st.entries, st.files, st.cursors, st'.entries, st'.files, st'.cursors)
    ensures StateOk(fold, st', colls, servers)
  {
    FetchKeepsSane(fold, st, st', colls);
    assert forall a :: a !in servers ==>
        SameOf(a, st.entries, st.files, st.cursors, st'.entries, st'.files, st'.cursors);
  }

  /** What an album holds it still holds after a fetch. */
  lemma FetchKeepsHeld(st: State, st': State, colls: Albums, a: AlbumId)
    requires FetchStep(st, st', colls) && Held(st, a)
    ensures Held(st', a)
  {
    assert EntriesReset(EntriesOf(st.entries, a), AppliedBy(st.files.applied, a), EntriesOf(st'.entries, a),
                        AppliedBy(st'.files.applied, a));
    forall f | f in EntriesOf(st'.entries, a) && EntriesOf(st'.entries, a)[f].synced
      ensures ShownAt(RecordsOf(st'.disk, a), f, AppliedBy(st'.files.applied, a))
    {
      assert ShownAt(RecordsOf(st.disk, a), f, AppliedBy(st.files.applied, a));
    }
  }

  lemma FetchKeepsPlaced(st: State, st': State, colls: Albums)
    requires FetchStep(st, st', colls) && AllPlaced(st) && NoneComesBack(colls, st.albums)
    ensures AllPlaced(st') && NoneComesBack(colls, st'.albums)
  {
    forall a ensures Held(st', a) || (a !in st'.disk && a in st'.albums && st'.albums[a].isDeleted) {
      if Held(st, a) {
        FetchKeepsHeld(st, st', colls, a);
      }
    }
  }

  // ---- the folders ----

  ghost predicate FoldersStep(st: State, st': State) {
    st' == st.(disk := FoldersFor(st.disk, st.albums))
  }

  lemma EmptyFolderHasNothing(fold: CaseFold)
    ensures WellFormed(fold, EmptyFolder()) && ContentRight(EmptyFolder()) && Records(EmptyFolder()) == map[]
  {
    assert forall n :: !HasRecord(EmptyFolder(), n);
    assert RecordIds(EmptyFolder()) == {};
  }

  lemma FoldersKeepOk(fold: CaseFold, st: State, st': State, colls: Albums, servers: Servers)
    requires StateOk(fold, st, colls, servers) && FoldersStep(st, st')
    ensures StateOk(fold, st', colls, servers)
  {
    forall a | a in st'.disk
      ensures AlbumSane(fold, st'.disk[a].folder, EntriesOf(st'.entries, a), st'.files.rows.Keys)
      ensures !st'.disk[a].isDeleted && a in st'.albums
    {
      FoldersForAt(st.disk, st.albums, a);
      if a in st.disk {
        assert AlbumSane(fold, st.disk[a].folder, EntriesOf(st.entries, a), st.files.rows.Keys);
      } else {
        EmptyIsSane(fold, EntriesOf(st.entries, a), st.files.rows.Keys);
      }
    }
  }

  lemma EmptyIsSane(fold: CaseFold, es: Entries, rows: set<SyncMachine.FileId>)
    requires forall f :: f in es && es[f].synced ==> !es[f].removed
    ensures AlbumSane(fold, EmptyFolder(), es, rows)
  {
    EmptyFolderHasNothing(fold);
  }

  /**
   An album's records are untouched by the making of folders, unless its folder goes or is new, and
   then there are none.
   */
  lemma RecordsAfterFolders(st: State, st': State, a: AlbumId)
    requires FoldersStep(st, st')
    ensures RecordsOf(st'.disk, a) == if a in st.disk && a in st'.disk then RecordsOf(st.disk, a) else map[]
  {
    FoldersForAt(st.disk, st.albums, a);
    if a in st'.disk && a !in st.disk {
      EmptyFolderHasNothing(AsciiLower);
    }
  }

  /**
   Making folders leaves every live album holding what it marks synced exactly when none that
   gets a fresh folder has an entry marked synced, as one that was deleted here and has come
   back would.
   */
  lemma FreshFoldersExactly(st: State, st': State)
    requires FoldersStep(st, st') && forall a :: a in st.disk ==> Held(st, a)
    ensures (forall a :: a in st'.disk ==> Held(st', a))
       <==> forall a, f :: Wanted(st.albums, a) && a !in st.disk && f in EntriesOf(st.entries, a) ==>
           !EntriesOf(st.entries, a)[f].synced
  {
    forall a | a in st'.disk
      ensures Held(st', a)
          <==> a in st.disk || forall f :: f in EntriesOf(st.entries, a) ==> !EntriesOf(st.entries, a)[f].synced
    {
      RecordsAfterFolders(st, st', a);
      if a !in st.disk && Held(st', a) {
        forall f | f in EntriesOf(st.entries, a) ensures !EntriesOf(st.entries, a)[f].synced {
          assert EntriesOf(st.entries, a)[f].synced ==>
              ShownAt(RecordsOf(st'.disk, a), f, AppliedBy(st.files.applied, a));
        }
      }
    }
    assert forall a :: a in st'.disk && a !in st.disk <==> Wanted(st.albums, a) && a !in st.disk;
  }

  lemma FoldersKeepHeld(st: State, st': State, a: AlbumId)
    requires FoldersStep(st, st') && Held(st, a) && a in st'.disk
    ensures Held(st', a)
  {
    RecordsAfterFolders(st, st', a);
    if a !in st.disk {
      assert RecordsOf(st.disk, a) == map[];
    }
  }

  lemma FoldersKeepPlaced(st: State, st': State, colls: Albums)
    requires FoldersStep(st, st') && AllPlaced(st) && st.disk.Keys <= st.albums.Keys
    ensures AllPlaced(st') && forall a :: a in st'.disk ==> Held(st', a)
  {
    forall a ensures Held(st', a) || (a !in st'.disk && a in st'.albums && st'.albums[a].isDeleted)
      ensures a in st'.disk ==> Held(st', a)
    {
      RecordsAfterFolders(st, st', a);
      if Held(st, a) && a in st'.disk {
        FoldersKeepHeld(st, st', a);
      } else if Held(st, a) && a !in st.disk {
        assert RecordsOf(st'.disk, a) == RecordsOf(st.disk, a);
      }
    }
  }

  /**
   The failing family: any album with an entry marked synced that is found deleted in one
   run and live in a later one gets an empty folder, and no export brings the entry's file
   back: it stays marked synced and without a record.
   */
  lemma ReturnedAlbumStaysEmpty(st: State, deleted: Albums, shared: Albums, a: AlbumId, f: SyncMachine.FileId)
    requires a in deleted && deleted[a].isDeleted && Wanted(shared, a)
    requires f in EntriesOf(st.entries, a) && EntriesOf(st.entries, a)[f].synced
    ensures
      var again := st.(disk := FoldersFor(FoldersFor(st.disk, deleted), shared));
      && a in again.disk && RecordsOf(again.disk, a) == map[] && !Held(again, a)
      && forall st' :: ExportStep(again, st') ==>
           && f in EntriesOf(st'.entries, a) && EntriesOf(st'.entries, a)[f].synced
           && f !in RecordsOf(st'.disk, a) && !Held(st', a)
  {
    var again := st.(disk := FoldersFor(FoldersFor(st.disk, deleted), shared));
    var gone := st.(disk := FoldersFor(st.disk, deleted));
    FoldersForAt(st.disk, deleted, a);
    FoldersForAt(gone.disk, shared, a);
    RecordsAfterFolders(gone.(albums := shared), gone.(albums := shared, disk := FoldersFor(gone.disk, shared)), a);
    LostWithout(again, a, f);
    forall st' | ExportStep(again, st')
      ensures f in EntriesOf(st'.entries, a) && EntriesOf(st'.entries, a)[f].synced
      ensures f !in RecordsOf(st'.disk, a) && !Held(st', a)
    {
      assert AlbumRunOf(a, again.disk, again.entries, st'.disk, st'.entries, again.files.applied);
      assert SameAt(EntriesOf(again.entries, a), EntriesOf(st'.entries, a), f);
      assert RecordSame(RecordsOf(again.disk, a), RecordsOf(st'.disk, a), f);
      ExportKeepsHeld(again, st', a);
    }
  }

  lemma LostWithout(st: State, a: AlbumId, f: SyncMachine.FileId)
    requires f in EntriesOf(st.entries, a) && EntriesOf(st.entries, a)[f].synced && RecordsOf(st.disk, a) == map[]
    ensures !Held(st, a)
  {
    assert !ShownAt(RecordsOf(st.disk, a), f, AppliedBy(st.files.applied, a));
  }

  // ---- the export ----

  /** What the export, stopped or not, does to the account. */
  ghost predicate ExportStep(st: State, st': State) {
    && SameAlbums(st.disk, st.entries, st'.disk, st'.entries, st.files.applied)
    && st' == st.(disk := st'.disk, entries := st'.entries)
  }

  /** Settling entries takes nothing from what the cursor promises. */
  lemma SettlingKeepsInv(v: Album, es': map<FileId, Entry>)
    requires Inv(World(v, Idle))
    requires forall f :: FinishedAt(v.entries, es', f, false)
    ensures Inv(World(v.(entries := es'), Idle))
  {
    var v' := v.(entries := es');
    forall f ensures Live(v', f) <==> Live(v, f) {
      assert FinishedAt(v.entries, es', f, false);
    }
    assert forall f :: f in v.server.rows && Reflected(v, f) ==> Reflected(v', f);
    forall f | f in es' ensures f in v.server.rows {
      assert FinishedAt(v.entries, es', f, false);
    }
  }

  lemma ExportKeepsInv(st: State, st': State, servers: Servers)
    requires ExportStep(st, st') && AllInv(st, servers) && forall a :: a in st.disk ==> !st.disk[a].isDeleted
    ensures AllInv(st', servers)
  {
    forall a | a in servers ensures Inv(World(ViewOf(st', a, servers[a]), Idle)) {
      assert AlbumRunOf(a, st.disk, st.entries, st'.disk, st'.entries, st.files.applied);
      SettlingKeepsInv(ViewOf(st, a, servers[a]), EntriesOf(st'.entries, a));
      assert ViewOf(st', a, servers[a]) == ViewOf(st, a, servers[a]).(entries := EntriesOf(st'.entries, a));
    }
  }

  lemma ExportKeepsLive(fold: CaseFold, st: State, st': State)
    requires ExportStep(st, st') && SyncedLive(st.entries) && AllSane(fold, st'.disk, st'.entries, st'.files.rows.Keys)
    requires forall a :: a in st.disk ==> !st.disk[a].isDeleted
    ensures SyncedLive(st'.entries)
  {
    forall a, f | f in EntriesOf(st'.entries, a) && EntriesOf(st'.entries, a)[f].synced
      ensures !EntriesOf(st'.entries, a)[f].removed
    {
      assert AlbumRunOf(a, st.disk, st.entries, st'.disk, st'.entries, st.files.applied);
      assert FinishedAt(EntriesOf(st.entries, a), EntriesOf(st'.entries, a), f, Dropped(a, st.disk));
      if a in st'.disk {
        assert AlbumSane(fold, st'.disk[a].folder, EntriesOf(st'.entries, a), st'.files.rows.Keys);
      }
    }
  }

  lemma ExportKeepsOk(fold: CaseFold, st: State, st': State, colls: Albums, servers: Servers)
    requires StateOk(fold, st, colls, servers) && ExportStep(st, st')
    requires AllSane(fold, st'.disk, st'.entries, st'.files.rows.Keys)
    ensures StateOk(fold, st', colls, servers)
  {
    ExportKeepsInv(st, st', servers);
    ExportKeepsLive(fold, st, st');
    ExportAddsNone(st, st');
  }

  lemma ExportAddsNone(st: State, st': State)
    requires ExportStep(st, st')
    ensures forall a :: EntriesOf(st'.entries, a).Keys <= EntriesOf(st.entries, a).Keys
  {
    forall a, f | f in EntriesOf(st'.entries, a) ensures f in EntriesOf(st.entries, a) {
      assert AlbumRunOf(a, st.disk, st.entries, st'.disk, st'.entries, st.files.applied);
      assert FinishedAt(EntriesOf(st.entries, a), EntriesOf(st'.entries, a), f, Dropped(a, st.disk));
    }
  }

  /** The export takes from no album what it holds, and gives back to none what it has lost. */
  lemma ExportKeepsHeld(st: State, st': State, a: AlbumId)
    requires ExportStep(st, st')
    ensures Held(st', a) <==> Held(st, a)
  {
    assert AlbumRunOf(a, st.disk, st.entries, st'.disk, st'.entries, st.files.applied);
    RunKeepsShown(RecordsOf(st.disk, a), EntriesOf(st.entries, a), RecordsOf(st'.disk, a), EntriesOf(st'.entries, a),
                  Dropped(a, st.disk), AppliedBy(st.files.applied, a));
  }

  lemma ExportKeepsPlaced(st: State, st': State)
    requires ExportStep(st, st') && AllPlaced(st)
    ensures AllPlaced(st')
  {
    forall a ensures Held(st', a) || (a !in st'.disk && a in st'.albums && st'.albums[a].isDeleted) {
      ExportKeepsHeld(st, st', a);
    }
  }

  /**
   A caught-up album has exactly the server's live files as live entries, each put in the server's
   version or a newer one.
   */
  lemma CaughtUpIsLive(v: Album)
    requires Inv(World(v, Idle)) && v.cursor == v.server.lastUpdatedAt
    ensures LiveEntries(v) == LiveOnServer(v.server)
    ensures forall f :: f in LiveEntries(v) ==> Shows(v, f, v.server.rows[f].time)
  {
    forall f ensures f in LiveEntries(v) <==> f in LiveOnServer(v.server) {
      assert f in LiveEntries(v) <==> Live(v, f);
      assert f in v.server.rows ==> Reflected(v, f);
    }
    forall f | f in LiveEntries(v) ensures Shows(v, f, v.server.rows[f].time) {
      assert Live(v, f) && Reflected(v, f);
    }
  }

  /** A caught-up album that is exported is done. */
  lemma ExportedIsDone(fold: CaseFold, st: State, colls: Albums, servers: Servers, a: AlbumId)
    requires StateOk(fold, st, colls, servers) && a in st.disk && a in servers
    requires CursorIn(st.cursors, a) == servers[a].lastUpdatedAt
    requires Exported(RecordsOf(st.disk, a), EntriesOf(st.entries, a), AppliedBy(st.files.applied, a))
    ensures AlbumDone(st, servers, a)
  {
    var v, rs := ViewOf(st, a, servers[a]), RecordsOf(st.disk, a);
    assert AlbumSane(fold, st.disk[a].folder, EntriesOf(st.entries, a), st.files.rows.Keys);
    CaughtUpIsLive(v);
    assert LiveEntries(v) == EntriesOf(st.entries, a).Keys;
    forall f | f in rs
      ensures f in v.applied && v.applied[f].time >= servers[a].rows[f].time && v.applied[f].stamp <= rs[f].stamp
    {
      assert f in LiveEntries(v) && ShownAt(rs, f, v.applied);
    }
  }

  // ---- one run for an account ----

  /** What holds between runs; the folders of the export directory are the disk seen by album id. */
  ghost predicate AccountOk(x: Export, dir: AlbumFolders.ExportDir, colls: Albums, servers: Servers)
    reads x, x.store, dir
  {
    StateOk(x.fold, StateOf(x), colls, servers) && DiskIn(dir.root, x.disk)
  }

  /** Every collection that is not deleted has its rows, and both have the same time. */
  ghost predicate WorldOk(colls: Albums, servers: Servers) {
    forall a :: Wanted(colls, a) ==> a in servers && servers[a].lastUpdatedAt == colls[a].lastUpdatedAt
  }

  /** The names of live albums make plain folder names. */
  ghost predicate NamesOk(lib: AlbumFolders.Library, colls: Albums) {
    forall a :: Wanted(colls, a) ==> AlbumFolders.IsPlain(AlbumFolders.Sanitize(lib, colls[a].name))
  }

  /** What the server answers in a run, holding still for it. */
  datatype Answers = Answers(collections: Answer, pages: (AlbumId, int, nat) -> Page)

  ghost predicate AnswersOk(answers: Answers, colls: Albums, servers: Servers, cursor: int) {
    && AnswerTo(answers.collections, colls, cursor)
    && forall a, c, n :: a in servers ==> ValidPage(servers[a], c, answers.pages(a, c, n))
  }

  ghost predicate EveryDownloadWorks(env: Environment) {
    forall a, f, row :: WorksOn(env, a, f, row)
  }

  ghost predicate WorksOn(env: Environment, a: AlbumId, f: SyncMachine.FileId, row: FileRow) {
    Yields(env.describe(f, row), env.got(a, f))
  }

  // ---- how many puts a run takes at most ----

  ghost function FetchPutsOf(st: State, colls: Albums, servers: Servers, answers: Answers): nat
    requires WorldOk(colls, servers)
  {
    FetchAllPuts(colls, servers, st.cursors, st.listCursor, answers.collections)
  }

  /** The files of all albums. */
  ghost function AlbumFiles(servers: Servers): set<(AlbumId, SyncMachine.FileId)> {
    set a, f | a in servers && f in servers[a].rows :: (a, f)
  }

  /** The export takes at most one put for each file of an album. */
  ghost function ExportPuts(servers: Servers): nat {
    |AlbumFiles(servers)|
  }

  ghost function RunPuts(st: State, colls: Albums, servers: Servers, answers: Answers): nat
    requires WorldOk(colls, servers)
  {
    FetchPutsOf(st, colls, servers, answers) + ExportPuts(servers)
  }

  ghost function PairsOf(items: seq<Item>): set<(AlbumId, SyncMachine.FileId)> {
    set i | 0 <= i < |items| :: (items[i].album, items[i].file)
  }

  lemma {:induction false} PairsCount(items: seq<Item>)
    requires ItemsDistinct(items)
    ensures |PairsOf(items)| == |items|
  {
    if items != [] {
      var front, last := items[..|items| - 1], items[|items| - 1];
      PairsCount(front);
      assert PairsOf(items) == PairsOf(front) + {(last.album, last.file)} by {
        forall x | x in PairsOf(items) ensures x in PairsOf(front) + {(last.album, last.file)} {
          var i :| 0 <= i < |items| && x == (items[i].album, items[i].file);
          assert i < |front| ==> front[i] == items[i];
        }
        forall i | 0 <= i < |front| ensures (front[i].album, front[i].file) in PairsOf(items) {
          assert front[i] == items[i];
        }
      }
      assert (last.album, last.file) !in PairsOf(front);
    }
  }

  /** There are no more entries than files of albums. */
  lemma ItemsFit(st: State, servers: Servers, items: seq<Item>)
    requires AllInv(st, servers) && OnlyServed(st, servers) && Snapshot(items, st.entries)
    ensures |items| <= ExportPuts(servers)
  {
    PairsCount(items);
    forall i | 0 <= i < |items| ensures (items[i].album, items[i].file) in AlbumFiles(servers) {
      var a := items[i].album;
      assert Present(items[i], st.entries);
      assert a in servers;
      assert Inv(World(ViewOf(st, a, servers[a]), Idle));
    }
    SubsetSize(PairsOf(items), AlbumFiles(servers));
  }

  /** The fetch half of SyncAccount. */
  method Fetch(x: Export, ghost colls: Albums, ghost servers: Servers, answers: Answers) returns (reached: bool)
    requires StateOk(x.fold, StateOf(x), colls, servers) && WorldOk(colls, servers)
    requires AnswersOk(answers, colls, servers, x.store.collectionsCursor)
    modifies x.store
    ensures StateOk(x.fold, StateOf(x), colls, servers) && FetchStep(old(StateOf(x)), StateOf(x), colls)
    ensures x.store.puts <= old(x.store.puts)
    ensures var cost := FetchPutsOf(old(StateOf(x)), colls, servers, answers);
            if reached then Fetched(StateOf(x), colls) && old(x.store.puts) <= x.store.puts + cost
            else x.store.puts == 0 && old(x.store.puts) < cost
  {
    ghost var st := StateOf(x);
    reached := x.store.FetchAll(colls, servers, answers.collections, answers.pages);
    FetchKeepsOk(x.fold, st, StateOf(x), colls, servers);
    if reached {
      AllFetched(x, colls, servers);
    }
  }

  /** Every live entry of a live album has its file row. */
  ghost predicate RowsPresent(st: State) {
    forall a, f | Wanted(st.albums, a) && f in EntriesOf(st.entries, a) :: !EntriesOf(st.entries, a)[f].removed ==>
        f in st.files.rows
  }

  /** Everything is fetched. */
  ghost predicate Fetched(st: State, colls: Albums) {
    && RowsPresent(st)
    && (forall a :: a in colls ==> AlbumShown(st.albums, colls, a)) && Lagging(colls, {}, st.cursors) == {}
  }

  /** Everything is fetched and just the live albums have folders. */
  ghost predicate Ready(st: State, colls: Albums) {
    Fetched(st, colls) && forall a :: a in st.disk <==> Wanted(colls, a)
  }

  lemma AllFetched(x: Export, colls: Albums, servers: Servers)
    requires x.store.FetchedAll(colls, servers) && WorldOk(colls, servers) && x.store.albums.Keys <= colls.Keys
    ensures Fetched(StateOf(x), colls)
  {
    var st := StateOf(x);
    forall a, f | Wanted(st.albums, a) && f in EntriesOf(st.entries, a) && !EntriesOf(st.entries, a)[f].removed
      ensures f in st.files.rows
    {}
    forall a | a in colls && !colls[a].isDeleted ensures CursorIn(st.cursors, a) == colls[a].lastUpdatedAt {
      assert AlbumShown(st.albums, colls, a);
      assert x.store.Cursor(a) == servers[a].lastUpdatedAt;
    }
  }

  /** The folders of the export directory are made and renamed, and read again by album id. */
  method MakeIn(dir: AlbumFolders.ExportDir, lib: AlbumFolders.Library, albums: Albums, ghost disk: DiskState,
                ghost colls: Albums)
    returns (disk': DiskState)
    requires DiskIn(dir.root, disk) && AlbumFolders.LibraryOk(lib) && NamesOk(lib, colls)
    requires albums.Keys <= colls.Keys && forall a :: a in colls ==> AlbumShown(albums, colls, a)
    modifies dir
    ensures disk' == FoldersFor(disk, albums) && DiskIn(dir.root, disk')
  {
    ghost var root := dir.root;
    var list := ListAlbums(albums);
    PlainNames(lib, list, albums, colls);
    var listing := ListNames(dir.root);
    var ok;
    ghost var n;
    ok, n := dir.CreateLocalFolders(lib, list, {}, listing);
    FoldersRefine(lib, root, dir.root, list, albums);
    var names := ListNames(dir.root);
    disk' := LoadDisk(dir.root, names);
  }

  /** createLocalFolderForRemoteAlbums, and the disk as syncFiles finds it then. */
  method MakeFolders(x: Export, dir: AlbumFolders.ExportDir, lib: AlbumFolders.Library, ghost colls: Albums,
                     ghost servers: Servers)
    requires AccountOk(x, dir, colls, servers) && Fetched(StateOf(x), colls)
    requires AlbumFolders.LibraryOk(lib) && NamesOk(lib, colls)
    modifies x`disk, dir
    ensures AccountOk(x, dir, colls, servers) && Ready(StateOf(x), colls)
    ensures FoldersStep(old(StateOf(x)), StateOf(x))
  {
    ghost var st := StateOf(x);
    var disk := MakeIn(dir, lib, x.store.albums, x.disk, colls);
    assert x as object != dir && x.store as object != dir;
    assert unchanged(x) && unchanged(x.store);
    x.disk := disk;
    FoldersReady(x.fold, st, StateOf(x), colls, servers);
  }

  /** The account once its folders are made. */
  lemma FoldersReady(fold: CaseFold, st: State, st': State, colls: Albums, servers: Servers)
    requires StateOk(fold, st, colls, servers) && Fetched(st, colls) && FoldersStep(st, st')
    ensures StateOk(fold, st', colls, servers) && Ready(st', colls)
  {
    FoldersKeepOk(fold, st, st', colls, servers);
    FoldersOfLive(st, colls);
  }

  lemma PlainNames(lib: AlbumFolders.Library, list: seq<AlbumFolders.Album>, albums: Albums, colls: Albums)
    requires SameAlbumList(list, albums) && NamesOk(lib, colls) && albums.Keys <= colls.Keys
    requires forall a :: a in colls ==> AlbumShown(albums, colls, a)
    ensures AllPlain(lib, list)
  {
    forall i | 0 <= i < |list| ensures !AlbumFolders.Unplain(lib, list[i]) {
      assert AlbumShown(albums, colls, list[i].id);
    }
  }

  lemma FoldersOfLive(st: State, colls: Albums)
    requires st.albums.Keys <= colls.Keys && st.disk.Keys <= st.albums.Keys
    requires forall a :: a in colls ==> AlbumShown(st.albums, colls, a)
    ensures forall a :: a in FoldersFor(st.disk, st.albums) <==> Wanted(colls, a)
  {
    forall a ensures a in FoldersFor(st.disk, st.albums) <==> Wanted(colls, a) {
      FoldersForAt(st.disk, st.albums, a);
      assert a in colls ==> AlbumShown(st.albums, colls, a);
    }
  }

  /** What an export comes to that ends with the given result. */
  ghost predicate ExportOutcome(fold: CaseFold, st: State, st': State, servers: Servers, env: Environment,
                                r: SyncResult) {
    && ExportStep(st, st') && r != Fatal
    && (r == Completed && EveryDownloadWorks(env) ==> forall a :: a in st'.disk && Held(st', a) ==>
        AlbumDone(st', servers, a))
    && (EveryFolderExported(st) ==> r == Completed && st' == st)
  }

  /** syncFiles on the sorted entries, and what it says of the account. */
  method SyncSorted(x: Export, env: Environment) returns (r: SyncResult, ghost items: seq<Item>)
    requires x.Consistent() && EnvironmentOk(x.fold, env) && x.AllRowsStored()
    modifies x`disk, x`folderReads, x.store`puts, x.store`entries
    ensures Snapshot(items, old(StateOf(x)).entries) && ExportStep(old(StateOf(x)), StateOf(x))
    ensures AllSane(x.fold, StateOf(x).disk, StateOf(x).entries, StateOf(x).files.rows.Keys)
    ensures r == Fatal ==>
        exists i :: 0 <= i < |items| && RowMissing(items[i], {}, old(StateOf(x)).disk, StateOf(x).files.rows)
    ensures r == Completed ==>
        AllSettled(items, |items|, {}, StateOf(x).disk, StateOf(x).entries, env, StateOf(x).files.rows)
    ensures Reconciler.AllQuiet(items, |items|, {}, old(StateOf(x)).disk) ==>
              r == Completed && StateOf(x).disk == old(StateOf(x)).disk && StateOf(x).entries == old(StateOf(x)).entries
    ensures x.store.puts <= old(x.store.puts) <= x.store.puts + |items|
    ensures r == Stopped ==>
              old(x.store.puts) < |items|
                  || exists i :: 0 <= i < |items|
                      && StopsAt(items[i], {}, old(StateOf(x)).disk, env, old(StateOf(x)).files.rows)
  {
    var sorted := ListSorted(x.store.entries);
    items := sorted;
    r := x.SyncFiles(sorted, {}, env);
  }

  /** syncFiles, where everything has been fetched; where all is exported it changes nothing. */
  method ExportAll(x: Export, ghost colls: Albums, ghost servers: Servers, env: Environment) returns (r: SyncResult)
    requires StateOk(x.fold, StateOf(x), colls, servers) && WorldOk(colls, servers)
    requires Ready(StateOf(x), colls) && EnvironmentOk(x.fold, env)
    modifies x`disk, x`folderReads, x.store`puts, x.store`entries
    ensures StateOk(x.fold, StateOf(x), colls, servers)
    ensures ExportOutcome(x.fold, old(StateOf(x)), StateOf(x), servers, env, r)
    ensures x.store.puts <= old(x.store.puts) <= x.store.puts + ExportPuts(servers)
    ensures r == Stopped && EveryDownloadWorks(env) ==> old(x.store.puts) < ExportPuts(servers)
  {
    ghost var st := StateOf(x);
    RowsAreStored(x, colls, servers);
    ghost var items;
    r, items := SyncSorted(x, env);
    ghost var st' := StateOf(x);
    ItemsFit(st, servers, items);
    if EveryFolderExported(st) {
      ExportedIsQuiet(items, st.disk, st.entries, st.files.applied);
    }
    if EveryDownloadWorks(env) {
      NoneStops(st.disk, env, st.files.rows, items);
    }
    ExportDone(x.fold, st, st', colls, servers, items, env, r);
  }

  /** The account after syncFiles. */
  lemma ExportDone(fold: CaseFold, st: State, st': State, colls: Albums, servers: Servers, items: seq<Item>,
                   env: Environment, r: SyncResult)
    requires StateOk(fold, st, colls, servers) && WorldOk(colls, servers) && Ready(st, colls)
    requires Snapshot(items, st.entries)
    requires ExportStep(st, st') && AllSane(fold, st'.disk, st'.entries, st'.files.rows.Keys)
    requires r == Fatal ==> exists i :: 0 <= i < |items| && RowMissing(items[i], {}, st.disk, st'.files.rows)
    requires r == Completed ==> AllSettled(items, |items|, {}, st'.disk, st'.entries, env, st'.files.rows)
    requires EveryFolderExported(st) ==> r == Completed && st'.disk == st.disk && st'.entries == st.entries
    ensures StateOk(fold, st', colls, servers) && ExportOutcome(fold, st, st', servers, env, r)
  {
    ExportKeepsOk(fold, st, st', colls, servers);
    NoRowMissing(st, st', colls, items);
    if r == Completed && EveryDownloadWorks(env) {
      forall a | a in st'.disk && Held(st', a) ensures AlbumDone(st', servers, a) {
        HeldIsDone(fold, st, st', colls, servers, items, env, a);
      }
    }
  }

  lemma RowsAreStored(x: Export, colls: Albums, servers: Servers)
    requires StateOk(x.fold, StateOf(x), colls, servers) && WorldOk(colls, servers) && Ready(StateOf(x), colls)
    ensures x.AllRowsStored()
  {
    forall a | a in x.disk && !x.disk[a].isDeleted
      ensures RowsStored(AppliedBy(x.store.files.applied, a), x.store.files.rows)
    {
      assert Inv(World(ViewOf(StateOf(x), a, servers[a]), Idle));
    }
  }

  /** The fatal exit needs a live entry without a file row, and there is none. */
  lemma NoRowMissing(st: State, st': State, colls: Albums, items: seq<Item>)
    requires Snapshot(items, st.entries) && ExportStep(st, st') && Ready(st, colls)
    ensures forall i :: 0 <= i < |items| ==> !RowMissing(items[i], {}, st.disk, st'.files.rows)
  {
    forall i | 0 <= i < |items| ensures !RowMissing(items[i], {}, st.disk, st'.files.rows) {
      assert Present(items[i], st.entries);
      assert items[i].album in st.disk ==> AlbumShown(st.albums, colls, items[i].album);
    }
  }

  lemma NoneStops(disk: DiskState, env: Environment, rows: map<SyncMachine.FileId, FileRow>, items: seq<Item>)
    requires EveryDownloadWorks(env)
    ensures forall i :: 0 <= i < |items| ==> !StopsAt(items[i], {}, disk, env, rows)
  {
    forall i | 0 <= i < |items| ensures !StopsAt(items[i], {}, disk, env, rows) {
      if items[i].file in rows {
        assert WorksOn(env, items[i].album, items[i].file, rows[items[i].file]);
      }
    }
  }

  /** After a completed run with working downloads an album that has lost nothing is done. */
  lemma HeldIsDone(fold: CaseFold, st: State, st': State, colls: Albums, servers: Servers, items: seq<Item>,
                   env: Environment, a: AlbumId)
    requires StateOk(fold, st', colls, servers) && ExportStep(st, st') && Snapshot(items, st.entries)
    requires AllSettled(items, |items|, {}, st'.disk, st'.entries, env, st'.files.rows)
    requires EveryDownloadWorks(env)
    requires WorldOk(colls, servers) && Ready(st, colls) && a in st'.disk && Held(st', a)
    ensures AlbumDone(st', servers, a)
  {
    assert Wanted(colls, a) && a !in Lagging(colls, {}, st.cursors) && AlbumShown(st.albums, colls, a);
    forall f | f in EntriesOf(st'.entries, a) ensures Works(env, st'.files.rows, a, f) {
      SettledHasRow(st, st', items, env, a, f);
      assert WorksOn(env, a, f, st'.files.rows[f]);
    }
    ExportKeepsHeld(st, st', a);
    Converged(fold, items, st.disk, st.entries, st'.disk, st'.entries, env, st'.files, a);
    ExportedIsDone(fold, st', colls, servers, a);
  }

  /** Of the entries left, each is live and so has its file row. */
  lemma SettledHasRow(st: State, st': State, items: seq<Item>, env: Environment, a: AlbumId,
                      f: SyncMachine.FileId)
    requires ExportStep(st, st') && Snapshot(items, st.entries) && f in EntriesOf(st'.entries, a)
    requires AllSettled(items, |items|, {}, st'.disk, st'.entries, env, st'.files.rows)
    requires a in st'.disk && !st'.disk[a].isDeleted && SyncedLive(st'.entries)
    requires forall g :: g in EntriesOf(st.entries, a) && !EntriesOf(st.entries, a)[g].removed ==> g in st.files.rows
    ensures f in st'.files.rows
  {
    assert AlbumRunOf(a, st.disk, st.entries, st'.disk, st'.entries, st.files.applied);
    assert FinishedAt(EntriesOf(st.entries, a), EntriesOf(st'.entries, a), f, Dropped(a, st.disk));
    var i :| 0 <= i < |items| && items[i].album == a && items[i].file == f;
    assert Present(items[i], st.entries) && ItemSettled(items[i], st'.disk, st'.entries, env, st'.files.rows);
    if items[i].entry.synced {
      assert SameAt(EntriesOf(st.entries, a), EntriesOf(st'.entries, a), f);
    }
  }

  /** The export, with the folders' new contents in the export directory. */
  method ExportInto(x: Export, dir: AlbumFolders.ExportDir, ghost colls: Albums, ghost servers: Servers,
                    env: Environment) returns (r: SyncResult)
    requires AccountOk(x, dir, colls, servers) && WorldOk(colls, servers)
    requires Ready(StateOf(x), colls) && EnvironmentOk(x.fold, env)
    modifies x`disk, x`folderReads, x.store`puts, x.store`entries, dir
    ensures AccountOk(x, dir, colls, servers) && ExportOutcome(x.fold, old(StateOf(x)), StateOf(x), servers, env, r)
    ensures x.store.puts <= old(x.store.puts) <= x.store.puts + ExportPuts(servers)
    ensures r == Stopped && EveryDownloadWorks(env) ==> old(x.store.puts) < ExportPuts(servers)
  {
    ghost var root, disk := dir.root, x.disk;
    r := ExportAll(x, colls, servers, env);
    ghost var st := StateOf(x);
    assert x as object != dir && x.store as object != dir;
    assert dir.root == root;
    SameFolderSet(root, disk, x.disk);
    ContentsStored(dir.root, x.disk);
    dir.root := WithContents(dir.root, x.disk);
    assert StateOf(x) == st;
  }

  lemma SameFolderSet(root: Root, disk: DiskState, disk': DiskState)
    requires ByAlbum(root) == disk && SameDirs(disk, disk')
    ensures disk'.Keys == AlbumIds(root) && forall a :: a in disk' ==> !disk'[a].isDeleted
  {}

  /** What a run comes to that ends with the given result. */
  ghost predicate RunOutcome(fold: CaseFold, st: State, st': State, colls: Albums, servers: Servers, env: Environment,
                             r: SyncResult) {
    && r != Fatal
    && (r == Completed && EveryDownloadWorks(env) ==> forall a :: Wanted(colls, a) ==>
        (AlbumDone(st', servers, a) <==> Held(st', a)))
    && (forall a :: a in st'.disk && Held(st, a) ==> Held(st', a))
    && (AllPlaced(st) && NoneComesBack(colls, st.albums) ==>
          && AllPlaced(st') && NoneComesBack(colls, st'.albums)
          && (r == Completed && EveryDownloadWorks(env) ==>
              EveryAlbumDone(st', colls, servers) && UpToDate(st', colls)))
    && (UpToDate(st, colls) ==> UpToDate(st', colls) && st'.disk == st.disk && st'.entries == st.entries)
  }

  /** The steps of SyncAccount behind the fetch; `made` is the account once the folders are made. */
  method FinishRun(x: Export, dir: AlbumFolders.ExportDir, lib: AlbumFolders.Library, ghost colls: Albums,
                   ghost servers: Servers, env: Environment)
    returns (r: SyncResult, ghost made: State)
    requires AccountOk(x, dir, colls, servers) && WorldOk(colls, servers) && EnvironmentOk(x.fold, env)
    requires AlbumFolders.LibraryOk(lib) && NamesOk(lib, colls) && Fetched(StateOf(x), colls)
    modifies x, x.store, dir
    ensures AccountOk(x, dir, colls, servers)
    ensures FoldersStep(old(StateOf(x)), made) && Ready(made, colls)
    ensures ExportOutcome(x.fold, made, StateOf(x), servers, env, r)
    ensures x.store.puts <= old(x.store.puts) <= x.store.puts + ExportPuts(servers)
    ensures r == Stopped && EveryDownloadWorks(env) ==> old(x.store.puts) < ExportPuts(servers)
  {
    ghost var puts := x.store.puts;
    MakeFolders(x, dir, lib, colls, servers);
    made := StateOf(x);
    assert x.store as object != dir && x.store as object != x;
    assert x.store.puts == puts;
    r := ExportInto(x, dir, colls, servers, env);
  }

  /** Fetch, folders and export put together. */
  lemma RunDone(fold: CaseFold, st0: State, st1: State, st2: State, st: State, colls: Albums, servers: Servers,
                env: Environment, r: SyncResult)
    requires FetchStep(st0, st1, colls) && FoldersStep(st1, st2) && st1.disk.Keys <= st1.albums.Keys
    requires Ready(st2, colls)
    requires ExportOutcome(fold, st2, st, servers, env, r)
    ensures RunOutcome(fold, st0, st, colls, servers, env, r)
  {
    WholeRun(st0, st1, st2, st, colls);
    DoneIsUpToDate(st, colls, servers);
  }

  lemma DoneIsUpToDate(st: State, colls: Albums, servers: Servers)
    requires (forall a :: a in colls ==> AlbumShown(st.albums, colls, a)) && Lagging(colls, {}, st.cursors) == {}
    requires forall a :: a in st.disk <==> Wanted(colls, a)
    ensures EveryAlbumDone(st, colls, servers) ==> UpToDate(st, colls)
  {}

  /**
   SyncAccount. Whatever earlier stopped runs left behind, a run never ends in the fatal
   exit, and with working downloads it completes unless the puts run out. Then every live
   album is done iff it holds what it marks synced, which a run takes from no album that
   has its folder, and which all albums do when none has come back. Where everything is up
   to date a run changes neither disk nor entries.
   */
  method SyncAccount(x: Export, dir: AlbumFolders.ExportDir, lib: AlbumFolders.Library, ghost colls: Albums,
                     ghost servers: Servers,
                     answers: Answers, env: Environment)
    returns (r: SyncResult)
    requires AccountOk(x, dir, colls, servers) && WorldOk(colls, servers) && EnvironmentOk(x.fold, env)
    requires AlbumFolders.LibraryOk(lib) && NamesOk(lib, colls)
    requires AnswersOk(answers, colls, servers, x.store.collectionsCursor)
    modifies x, x.store, dir
    ensures AccountOk(x, dir, colls, servers)
    ensures RunOutcome(x.fold, old(StateOf(x)), StateOf(x), colls, servers, env, r)
    ensures var cost := RunPuts(old(StateOf(x)), colls, servers, answers);
            && x.store.puts <= old(x.store.puts) <= x.store.puts + cost
            && (old(x.store.puts) >= cost && EveryDownloadWorks(env) ==> r == Completed)
  {
    ghost var st0, root, puts0 := StateOf(x), dir.root, x.store.puts;
    var reached := Fetch(x, colls, servers, answers);
    ghost var st1, puts1 := StateOf(x), x.store.puts;
    assert x.store as object != dir && x.disk == st0.disk;
    assert dir.root == root;
    if reached {
      ghost var st2;
      r, st2 := FinishRun(x, dir, lib, colls, servers, env);
      ghost var st3 := StateOf(x);
      AllSpent(x.fold, st0, colls, servers, answers, env, r, puts0, puts1, x.store.puts);
      RunDone(x.fold, st0, st1, st2, st3, colls, servers, env, r);
    } else {
      r := Stopped;
      FetchSpent(st0, colls, servers, answers, puts0);
      StoppedRun(x.fold, st0, st1, colls, servers, env);
    }
  }

  /** What a run takes, and that with working downloads only too few puts stop it. */
  lemma AllSpent(fold: CaseFold, st: State, colls: Albums, servers: Servers, answers: Answers, env: Environment,
                 r: SyncResult,
                 puts0: nat, puts1: nat, puts2: nat)
    requires WorldOk(colls, servers) && r != Fatal
    requires puts1 <= puts0 <= puts1 + FetchPutsOf(st, colls, servers, answers)
    requires puts2 <= puts1 <= puts2 + ExportPuts(servers)
    requires r == Stopped && EveryDownloadWorks(env) ==> puts1 < ExportPuts(servers)
    ensures var cost := RunPuts(st, colls, servers, answers);
            puts2 <= puts0 <= puts2 + cost && (puts0 >= cost && EveryDownloadWorks(env) ==> r == Completed)
  {}

  lemma FetchSpent(st: State, colls: Albums, servers: Servers, answers: Answers, puts0: nat)
    requires WorldOk(colls, servers) && puts0 < FetchPutsOf(st, colls, servers, answers)
    ensures puts0 < RunPuts(st, colls, servers, answers)
  {}

  /** A run that is stopped in the fetch. */
  lemma StoppedRun(fold: CaseFold, st: State, st': State, colls: Albums, servers: Servers, env: Environment)
    requires FetchStep(st, st', colls)
    ensures RunOutcome(fold, st, st', colls, servers, env, Stopped)
  {
    forall a | Held(st, a) ensures Held(st', a) {
      FetchKeepsHeld(st, st', colls, a);
    }
    if AllPlaced(st) && NoneComesBack(colls, st.albums) {
      FetchKeepsPlaced(st, st', colls);
    }
  }

  /** What fetch, folders and export together keep. */
  ghost predicate WholeOutcome(st: State, st': State, colls: Albums) {
    && (forall a :: a in st'.disk && Held(st, a) ==> Held(st', a))
    && (AllPlaced(st) && NoneComesBack(colls, st.albums) ==>
          AllPlaced(st') && NoneComesBack(colls, st'.albums) && forall a :: a in st'.disk ==> Held(st', a))
    && (UpToDate(st, colls) ==> UpToDate(st', colls) && st'.disk == st.disk && st'.entries == st.entries)
  }

  /** Fetch, folders and export put together. */
  lemma WholeRun(st0: State, st1: State, st2: State, st: State, colls: Albums)
    requires FetchStep(st0, st1, colls) && FoldersStep(st1, st2) && ExportStep(st2, st)
    requires st1.disk.Keys <= st1.albums.Keys && Ready(st2, colls)
    requires EveryFolderExported(st2) ==> st == st2
    ensures WholeOutcome(st0, st, colls)
  {
    forall a | a in st.disk && Held(st0, a) ensures Held(st, a) {
      FetchKeepsHeld(st0, st1, colls, a);
      FoldersKeepHeld(st1, st2, a);
      ExportKeepsHeld(st2, st, a);
    }
    if AllPlaced(st0) && NoneComesBack(colls, st0.albums) {
      WholePlaced(st0, st1, st2, st, colls);
    }
    if UpToDate(st0, colls) {
      SameFolders(st1.disk, st1.albums, colls);
      assert st2 == st1;
    }
  }

  lemma WholePlaced(st0: State, st1: State, st2: State, st: State, colls: Albums)
    requires FetchStep(st0, st1, colls) && FoldersStep(st1, st2) && ExportStep(st2, st)
    requires st1.disk.Keys <= st1.albums.Keys
    requires AllPlaced(st0) && NoneComesBack(colls, st0.albums)
    ensures AllPlaced(st) && NoneComesBack(colls, st.albums) && forall a :: a in st.disk ==> Held(st, a)
  {
    FetchKeepsPlaced(st0, st1, colls);
    FoldersKeepPlaced(st1, st2, colls);
    ExportKeepsPlaced(st2, st);
    forall a | a in st.disk ensures Held(st, a) {
      ExportKeepsHeld(st2, st, a);
    }
  }

  lemma SameFolders(disk: DiskState, albums: Albums, colls: Albums)
    requires forall a :: a in disk <==> Wanted(colls, a)
    requires forall a :: a in FoldersFor(disk, albums) <==> Wanted(colls, a)
    ensures FoldersFor(disk, albums) == disk
  {
    forall a | a in disk ensures a in FoldersFor(disk, albums) && FoldersFor(disk, albums)[a] == disk[a] {
      FoldersForAt(disk, albums, a);
    }
    assert forall a :: a in FoldersFor(disk, albums) <==> a in disk;
    assert FoldersFor(disk, albums).Keys == disk.Keys;
  }
}
