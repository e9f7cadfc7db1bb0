/**
 syncFiles: the loop over all entries of the store, and what it makes of the disk.
 */
module Reconciler {
  import opened Decimal
  import opened Disk
  import opened Folder
  import opened Exporter
  import SyncMachine
  import opened CollectionList
  import opened SyncClient
  import opened EntryOrder

  datatype SyncResult = Completed | Stopped | Fatal

  /** How the loop goes on after an entry. */
  datatype Turn = Next | Stop | Crash

  /** The environment of a run: what a download yields, and what a file row describes. */
  datatype Environment = Environment(
    got: (AlbumId, FileId) -> Download,
    describe: (FileId, FileRow) -> RemoteFile)

  /** How storing the file ends; among files that are in order the names taken make no difference. */
  function StoreOutcome(fold: CaseFold, file: RemoteFile, got: Download): Outcome {
    OutcomeAmong(fold, {}, file, got)
  }

  /**
   The file can be stored so that its record is read back: no name of a folder, no title album_meta,
   no parts that differ in case only.
   */
  ghost predicate FileOk(fold: CaseFold, file: RemoteFile, got: Download) {
    && PartsOk(got) && file.timestampOk && NoFolderName(file, got) && file.base + file.ext != "album_meta"
    && (got.Decrypted? ==> !PartsClash(fold, file, got.unpacked))
  }

  ghost predicate EnvironmentOk(fold: CaseFold, env: Environment) {
    forall a, f, row :: DescribedWell(fold, env, a, f, row)
  }

  ghost predicate DescribedWell(fold: CaseFold, env: Environment, a: AlbumId, f: FileId, row: FileRow) {
    var file := env.describe(f, row);
    file.id == f && file.row == row && FileOk(fold, file, env.got(a, f))
  }

  /** The download of the file, as its row describes it, gives something to store. */
  ghost predicate Works(env: Environment, rows: map<FileId, FileRow>, a: AlbumId, f: FileId) {
    f in rows && Yields(env.describe(f, rows[f]), env.got(a, f))
  }

  /** The download of the file, as its row describes it, ends the run. */
  ghost predicate FailsHard(env: Environment, rows: map<FileId, FileRow>, a: AlbumId, f: FileId) {
    f in rows && EndsRun(env.describe(f, rows[f]), env.got(a, f))
  }

  type DiskState = map<AlbumId, AlbumDir>

  /** The disk with one album's folder holding something else. */
  function WithFolder(disk: DiskState, a: AlbumId, d: Folder): DiskState {
    disk[a := AlbumDir(false, d)]
  }

  type Entries = map<FileId, Entry>

  /** The files an album folder has records of, with the rows they were exported from. */
  type Shown = map<FileId, FileRow>

  // ---- what holds between runs ----

  /** Records have entries and file rows and list files that hold what they say; what is synced is live. */
  ghost predicate AlbumSane(fold: CaseFold, d: Folder, es: Entries, rows: set<FileId>) {
    && WellFormed(fold, d) && ContentRight(d)
    && Records(d).Keys <= es.Keys && Records(d).Keys <= rows
    && forall f :: f in es && es[f].synced ==> !es[f].removed
  }

  ghost predicate AllSane(fold: CaseFold, disk: DiskState, entries: Bucket, rows: set<FileId>) {
    forall a :: a in disk && !disk[a].isDeleted ==> AlbumSane(fold, disk[a].folder, EntriesOf(entries, a), rows)
  }

  /** The record was exported from the row the album has put last, or from a later put of the file. */
  ghost predicate NotOlder(row: FileRow, f: FileId, ap: map<FileId, FileRow>) {
    f in ap ==> ap[f].stamp <= row.stamp
  }

  ghost predicate ShownAt(rs: Shown, f: FileId, ap: map<FileId, FileRow>) {
    f in rs && NotOlder(rs[f], f, ap)
  }

  /** Every entry marked synced has its record, and not of an older version. */
  ghost predicate SyncedShown(rs: Shown, es: Entries, ap: map<FileId, FileRow>) {
    forall f :: f in es && es[f].synced ==> ShownAt(rs, f, ap)
  }

  ghost predicate RowsStored(ap: map<FileId, FileRow>, rows: map<FileId, FileRow>) {
    forall f :: f in ap ==> SyncMachine.SameOrLater(rows, ap[f], f)
  }

  // ---- what one entry's turn may change ----

  ghost predicate SameAt(es: Entries, es': Entries, g: FileId) {
    (g in es <==> g in es') && (g in es ==> es[g] == es'[g])
  }

  ghost predicate RecordSame(rs: Shown, rs': Shown, g: FileId) {
    (g in rs <==> g in rs') && (g in rs ==> rs[g] == rs'[g])
  }

  /** Entries may go when delete-marked, or when the album is, and never turn from live to removed or back. */
  ghost predicate FinishedAt(es: Entries, es': Entries, f: FileId, lossy: bool) {
    && (f in es' ==> f in es && es'[f].removed == es[f].removed)
    && (f in es && f !in es' ==> es[f].removed || lossy)
  }

  ghost predicate Dropped(a: AlbumId, disk: DiskState) {
    a in disk && disk[a].isDeleted
  }

  ghost predicate SameDirs(disk: DiskState, disk': DiskState) {
    disk'.Keys == disk.Keys && forall b :: b in disk ==> disk'[b].isDeleted == disk[b].isDeleted
  }

  /**
   In album a, from one state to the next, only file f is affected: not when it was synced, and
   synced now only when shown.
   */
  ghost predicate FileTurn(rs: Shown, es: Entries, rs': Shown, es': Entries, f: FileId, lossy: bool, ap: map<FileId,
                           FileRow>) {
    && (forall g :: g != f ==> SameAt(es, es', g) && RecordSame(rs, rs', g))
    && FinishedAt(es, es', f, lossy)
    && (f in es && es[f].synced ==> SameAt(es, es', f) && RecordSame(rs, rs', f))
    && (f in es' && es'[f].synced ==> es[f].synced || ShownAt(rs', f, ap))
  }

  /** The records of an album, none when it has no folder. */
  ghost function RecordsOf(disk: DiskState, a: AlbumId): Shown {
    if a in disk then Records(disk[a].folder) else map[]
  }

  /** Only file f of album a is affected. */
  ghost predicate OnlyAt(a: AlbumId, f: FileId, disk: DiskState, entries: Bucket, disk': DiskState, entries': Bucket,
                         applied: Applied) {
    && SameDirs(disk, disk')
    && (forall b :: b in disk && b != a ==> disk'[b] == disk[b])
    && (forall b :: b != a ==> EntriesOf(entries', b) == EntriesOf(entries, b))
    && FileTurn(RecordsOf(disk, a), EntriesOf(entries, a), RecordsOf(disk', a), EntriesOf(entries', a), f,
                Dropped(a, disk), AppliedBy(applied, a))
  }

  /**
   The entry is gone, or live and marked synced just when its record is there; a download that works
   leaves it synced.
   */
  ghost predicate FileSettled(rs: Shown, es: Entries, f: FileId, works: bool) {
    f in es ==> !es[f].removed && (es[f].synced <==> f in rs) && (works ==> es[f].synced)
  }

  /** In an album that is exported; of a deleted one the entry is gone. */
  ghost predicate Settled(a: AlbumId, f: FileId, disk: DiskState, entries: Bucket, works: bool) {
    a in disk ==>
      if disk[a].isDeleted then f !in EntriesOf(entries, a)
      else FileSettled(RecordsOf(disk, a), EntriesOf(entries, a), f, works)
  }

  ghost predicate Present(item: Item, entries: Bucket) {
    item.file in EntriesOf(entries, item.album) && EntriesOf(entries, item.album)[item.file] == item.entry
  }

  lemma OthersStay(a: AlbumId, f: FileId, disk: DiskState, entries: Bucket, disk': DiskState, entries': Bucket,
                   applied: Applied, item: Item, works: bool)
    requires OnlyAt(a, f, disk, entries, disk', entries', applied) && (item.album, item.file) != (a, f)
    ensures Present(item, entries) ==> Present(item, entries')
    ensures Settled(item.album, item.file, disk, entries, works) ==>
        Settled(item.album, item.file, disk', entries', works)
  {
    if item.album == a {
      assert SameAt(EntriesOf(entries, a), EntriesOf(entries', a), item.file);
      assert RecordSame(RecordsOf(disk, a), RecordsOf(disk', a), item.file);
    }
  }

  /** The items are the entries of the store, each once. */
  ghost predicate Snapshot(items: seq<Item>, entries: Bucket) {
    && AllPresent(items, 0, entries)
    && (forall i, j :: 0 <= i < j < |items| ==> (items[i].album, items[i].file) != (items[j].album, items[j].file))
    && (forall a, f :: f in EntriesOf(entries, a) ==>
        exists i :: 0 <= i < |items| && items[i].album == a && items[i].file == f)
  }

  ghost predicate AllPresent(items: seq<Item>, i: nat, entries: Bucket) {
    forall j :: i <= j < |items| ==> Present(items[j], entries)
  }

  /** An entry that was still to be synced has had its turn. */
  ghost predicate ItemSettled(item: Item, disk: DiskState, entries: Bucket, env: Environment,
                              rows: map<FileId, FileRow>) {
    item.entry.synced || Settled(item.album, item.file, disk, entries, Works(env, rows, item.album, item.file))
  }

  ghost predicate AllSettled(items: seq<Item>, i: nat, skip: set<AlbumId>, disk: DiskState,
                             entries: Bucket,
                             env: Environment, rows: map<FileId, FileRow>)
    requires i <= |items|
  {
    forall j :: 0 <= j < i ==> items[j].album in skip || ItemSettled(items[j], disk, entries, env, rows)
  }

  /** A live entry still to be synced, in an exported album that no filter skips: its file is to be downloaded. */
  ghost predicate Pending(item: Item, skip: set<AlbumId>, disk: DiskState) {
    && item.album !in skip && item.album in disk && !disk[item.album].isDeleted
    && !item.entry.synced && !item.entry.removed
  }

  ghost predicate RowMissing(item: Item, skip: set<AlbumId>, disk: DiskState, rows: map<FileId, FileRow>) {
    Pending(item, skip, disk) && item.file !in rows
  }

  /** The file is to be downloaded, and its download ends the run. */
  ghost predicate StopsAt(item: Item, skip: set<AlbumId>, disk: DiskState, env: Environment,
                          rows: map<FileId, FileRow>) {
    Pending(item, skip, disk) && FailsHard(env, rows, item.album, item.file)
  }

  /** None of the first i entries lacks its row or has a download that ends the run. */
  ghost predicate AllPassed(items: seq<Item>, i: nat, skip: set<AlbumId>, disk: DiskState, env: Environment,
                            rows: map<FileId, FileRow>)
    requires i <= |items|
  {
    forall j :: 0 <= j < i ==> !RowMissing(items[j], skip, disk, rows) && !StopsAt(items[j], skip, disk, env, rows)
  }

  /** Skipped albums keep their entries and folders, and their folders are not read. */
  ghost predicate SkippedKept(skip: set<AlbumId>, disk: DiskState, entries: Bucket, disk': DiskState, entries': Bucket,
                              fills: seq<AlbumId>) {
    forall a :: a in skip ==>
      && EntriesOf(entries', a) == EntriesOf(entries, a)
      && (a in disk' <==> a in disk) && (a in disk ==> disk'[a] == disk[a])
      && a !in fills
  }

  /** Entries are only finished, what was synced stays with its record, and what has become synced is shown. */
  ghost predicate AlbumRun(rs0: Shown, es0: Entries, rs: Shown, es: Entries, lossy: bool, ap: map<FileId, FileRow>) {
    && (forall f :: FinishedAt(es0, es, f, lossy))
    && (forall f :: f in es0 && es0[f].synced ==> SameAt(es0, es, f) && RecordSame(rs0, rs, f))
    && (forall f :: f in es && es[f].synced ==> (f in es0 && es0[f].synced) || ShownAt(rs, f, ap))
  }

  ghost predicate AlbumRunOf(a: AlbumId, disk: DiskState, entries: Bucket, disk': DiskState, entries': Bucket,
                             applied: Applied) {
    AlbumRun(RecordsOf(disk, a), EntriesOf(entries, a), RecordsOf(disk', a), EntriesOf(entries', a), Dropped(a, disk),
             AppliedBy(applied, a))
  }

  /** No album folder comes or goes, no entry comes, and in each album entries are only finished. */
  ghost predicate SameAlbums(disk: DiskState, entries: Bucket, disk': DiskState, entries': Bucket, applied: Applied) {
    SameDirs(disk, disk') && forall a :: AlbumRunOf(a, disk, entries, disk', entries', applied)
  }

  lemma AlbumRunStep(rs0: Shown, es0: Entries, rs: Shown, es: Entries, rs': Shown, es': Entries, f: FileId,
                     lossy: bool, ap: map<FileId, FileRow>)
    requires AlbumRun(rs0, es0, rs, es, lossy, ap) && FileTurn(rs, es, rs', es', f, lossy, ap)
    ensures AlbumRun(rs0, es0, rs', es', lossy, ap)
  {
    forall g
      ensures FinishedAt(es0, es', g, lossy)
      ensures g in es0 && es0[g].synced ==> SameAt(es0, es', g) && RecordSame(rs0, rs', g)
      ensures g in es' && es'[g].synced ==> (g in es0 && es0[g].synced) || ShownAt(rs', g, ap)
    {
      assert FinishedAt(es0, es, g, lossy);
      assert g != f ==> SameAt(es, es', g) && RecordSame(rs, rs', g);
    }
  }

  lemma SameAlbumsStep(disk0: DiskState, entries0: Bucket, disk: DiskState, entries: Bucket,
                       disk': DiskState, entries': Bucket, applied: Applied, a: AlbumId, f: FileId)
    requires SameAlbums(disk0, entries0, disk, entries, applied)
    requires OnlyAt(a, f, disk, entries, disk', entries', applied)
    ensures SameAlbums(disk0, entries0, disk', entries', applied)
  {
    forall b ensures AlbumRunOf(b, disk0, entries0, disk', entries', applied) {
      assert AlbumRunOf(b, disk0, entries0, disk, entries, applied);
      if b == a {
        AlbumRunStep(RecordsOf(disk0, a), EntriesOf(entries0, a), RecordsOf(disk, a), EntriesOf(entries, a),
                     RecordsOf(disk', a), EntriesOf(entries', a), f, Dropped(a, disk0), AppliedBy(applied, a));
      }
    }
  }

  lemma SameAlbumsAtFirst(disk: DiskState, entries: Bucket, applied: Applied)
    ensures SameAlbums(disk, entries, disk, entries, applied)
  {}

  /** One more entry is settled, the settled ones stay so, and the others are still as read. */
  lemma StepSettles(items: seq<Item>, i: nat, skip: set<AlbumId>, disk: DiskState, entries: Bucket,
                    disk': DiskState, entries': Bucket, applied: Applied, env: Environment, rows: map<FileId, FileRow>)
    requires i < |items|
    requires forall j, k :: 0 <= j < k < |items| ==> (items[j].album, items[j].file) != (items[k].album, items[k].file)
    requires OnlyAt(items[i].album, items[i].file, disk, entries, disk', entries', applied)
    requires AllPresent(items, i, entries) && AllSettled(items, i, skip, disk, entries, env, rows)
    requires items[i].album in skip || ItemSettled(items[i], disk', entries', env, rows)
    ensures AllPresent(items, i + 1, entries') && AllSettled(items, i + 1, skip, disk', entries', env, rows)
  {
    forall j | 0 <= j < |items| && j != i
      ensures j > i ==> Present(items[j], entries')
      ensures j < i ==> items[j].album in skip || ItemSettled(items[j], disk', entries', env, rows)
    {
      OthersStay(items[i].album, items[i].file, disk, entries, disk', entries', applied, items[j],
                 Works(env, rows, items[j].album, items[j].file));
    }
  }

  /** The reads so far are those of the slotted items, which come in the order of the list. */
  ghost predicate SlotHistory(items: seq<Item>, i: nat, slotted: seq<Item>, fills: seq<AlbumId>, empty: bool,
                              slot: AlbumId)
    requires i <= |items|
  {
    && fills == Reads(slotted)
    && (empty <==> slotted == [])
    && (slotted != [] ==> slot == slotted[|slotted| - 1].album)
    && InListOrder(items, i, slotted)
  }

  ghost predicate InListOrder(items: seq<Item>, i: nat, slotted: seq<Item>)
    requires i <= |items|
  {
    && (forall x :: x in slotted ==> exists j :: 0 <= j < i && items[j] == x)
    && (Sorted(items) ==> Sorted(slotted))
  }

  /** A turn that gets to the slot reads a folder exactly when the album changes. */
  lemma HistoryStep(items: seq<Item>, i: nat, slotted: seq<Item>, fills: seq<AlbumId>, empty: bool, slot: AlbumId,
                    here: bool, read: bool, fills': seq<AlbumId>, empty': bool, slot': AlbumId)
    requires i < |items| && SlotHistory(items, i, slotted, fills, empty, slot)
    requires fills' == if read then fills + [items[i].album] else fills
    requires here ==> !empty' && slot' == items[i].album && (read <==> empty || slot != items[i].album)
    requires !here ==> empty' == empty && slot' == slot && !read
    ensures SlotHistory(items, i + 1, if here then slotted + [items[i]] else slotted, fills', empty', slot')
  {
    if here {
      var more := slotted + [items[i]];
      assert more[..|more| - 1] == slotted;
      OrderStep(items, i, slotted);
    } else {
      assert forall x :: x in slotted ==> exists j :: 0 <= j < i + 1 && items[j] == x;
    }
  }

  lemma OrderStep(items: seq<Item>, i: nat, slotted: seq<Item>)
    requires i < |items| && InListOrder(items, i, slotted)
    ensures InListOrder(items, i + 1, slotted + [items[i]])
  {
    var more := slotted + [items[i]];
    forall x | x in more ensures exists j :: 0 <= j < i + 1 && items[j] == x {
      if x in slotted {
        var j :| 0 <= j < i && items[j] == x;
      }
    }
    if Sorted(items) {
      forall k | 0 <= k < |slotted| ensures !Less(items[i], slotted[k]) {
        assert slotted[k] in slotted;
      }
    }
  }

  /** Where the loop is after i entries. */
  ghost predicate Progress(items: seq<Item>, i: nat, skip: set<AlbumId>, env: Environment,
                           files: FileStore,
                           disk0: DiskState, entries0: Bucket, disk: DiskState, entries: Bucket)
    requires i <= |items|
  {
    && SameAlbums(disk0, entries0, disk, entries, files.applied)
    && AllPresent(items, i, entries)
    && AllSettled(items, i, skip, disk, entries, env, files.rows)
  }

  lemma ProgressStep(items: seq<Item>, i: nat, skip: set<AlbumId>, env: Environment, files: FileStore,
                     disk0: DiskState, entries0: Bucket, disk: DiskState, entries: Bucket,
                     disk': DiskState, entries': Bucket, turn: Turn)
    requires i < |items| && Progress(items, i, skip, env, files, disk0, entries0, disk, entries)
    requires forall j, k :: 0 <= j < k < |items| ==> (items[j].album, items[j].file) != (items[k].album, items[k].file)
    requires OnlyAt(items[i].album, items[i].file, disk, entries, disk', entries', files.applied)
    requires turn == Next ==> items[i].album in skip || ItemSettled(items[i], disk', entries', env, files.rows)
    ensures SameAlbums(disk0, entries0, disk', entries', files.applied)
    ensures turn == Next ==> Progress(items, i + 1, skip, env, files, disk0, entries0, disk', entries')
  {
    SameAlbumsStep(disk0, entries0, disk, entries, disk', entries', files.applied, items[i].album, items[i].file);
    if turn == Next {
      StepSettles(items, i, skip, disk, entries, disk', entries', files.applied, env, files.rows);
    }
  }

  /** Nothing is done at this entry: it is synced already, or of an album that is skipped or has no folder. */
  predicate Quiet(item: Item, skip: set<AlbumId>, disk: DiskState) {
    item.entry.synced || item.album in skip || item.album !in disk
  }

  ghost predicate AllQuiet(items: seq<Item>, i: nat, skip: set<AlbumId>, disk: DiskState)
    requires i <= |items|
  {
    forall j :: 0 <= j < i ==> Quiet(items[j], skip, disk)
  }

  /** As long as there was nothing to do, nothing has been done. */
  ghost predicate QuietSoFar(items: seq<Item>, i: nat, skip: set<AlbumId>, disk0: DiskState, entries0: Bucket,
                             disk: DiskState,
                             entries: Bucket, fills: seq<AlbumId>)
    requires i <= |items|
  {
    AllQuiet(items, i, skip, disk0) ==> fills == [] && disk == disk0 && entries == entries0
  }

  lemma QuietStep(items: seq<Item>, i: nat, skip: set<AlbumId>, disk0: DiskState, entries0: Bucket, disk: DiskState,
                  entries: Bucket,
                  fills: seq<AlbumId>,
                  disk': DiskState, entries': Bucket, fills': seq<AlbumId>, turn: Turn)
    requires i < |items| && QuietSoFar(items, i, skip, disk0, entries0, disk, entries, fills)
    requires Quiet(items[i], skip, disk) ==> turn == Next && fills' == fills && disk' == disk && entries' == entries
    ensures QuietSoFar(items, i + 1, skip, disk0, entries0, disk', entries', fills')
    ensures turn != Next ==> !AllQuiet(items, i + 1, skip, disk0)
  {
    if AllQuiet(items, i + 1, skip, disk0) {
      assert AllQuiet(items, i, skip, disk0);
      assert Quiet(items[i], skip, disk0);
    }
  }

  /** Which albums are exported and which deleted does not change on the way. */
  lemma SamePending(item: Item, skip: set<AlbumId>, disk: DiskState, disk': DiskState)
    requires SameDirs(disk, disk')
    ensures Pending(item, skip, disk) <==> Pending(item, skip, disk')
  {}

  /** A skipped entry's turn does nothing, and any other's does nothing to a skipped album. */
  lemma SkippedStep(skip: set<AlbumId>, disk0: DiskState, entries0: Bucket, disk: DiskState, entries: Bucket,
                    fills: seq<AlbumId>, disk': DiskState, entries': Bucket, fills': seq<AlbumId>, item: Item,
                    applied: Applied)
    requires SkippedKept(skip, disk0, entries0, disk, entries, fills)
    requires OnlyAt(item.album, item.file, disk, entries, disk', entries', applied)
    requires item.album in skip ==> disk' == disk && entries' == entries && fills' == fills
    requires fills' == fills || fills' == fills + [item.album]
    ensures SkippedKept(skip, disk0, entries0, disk', entries', fills')
  {}

  /** One more entry that did not end the run, its turn seen from the start. */
  lemma PassedStep(items: seq<Item>, i: nat, skip: set<AlbumId>, disk0: DiskState, disk: DiskState, env: Environment,
                   rows: map<FileId, FileRow>)
    requires i < |items| && SameDirs(disk0, disk) && AllPassed(items, i, skip, disk0, env, rows)
    requires !RowMissing(items[i], skip, disk, rows) && !StopsAt(items[i], skip, disk, env, rows)
    ensures AllPassed(items, i + 1, skip, disk0, env, rows)
  {
    SamePending(items[i], skip, disk0, disk);
  }

  /** Where the loop is after i entries, all but the slot's content. */
  ghost predicate LoopAt(items: seq<Item>, i: nat, skip: set<AlbumId>, env: Environment,
                         files: FileStore,
                         disk0: DiskState, entries0: Bucket, disk: DiskState, entries: Bucket,
                         slotted: seq<Item>, fills: seq<AlbumId>, empty: bool, slot: AlbumId)
    requires i <= |items|
  {
    && Progress(items, i, skip, env, files, disk0, entries0, disk, entries)
    && SlotHistory(items, i, slotted, fills, empty, slot)
    && QuietSoFar(items, i, skip, disk0, entries0, disk, entries, fills)
    && SkippedKept(skip, disk0, entries0, disk, entries, fills)
    && AllPassed(items, i, skip, disk0, env, files.rows)
  }

  lemma LoopStep(items: seq<Item>, i: nat, skip: set<AlbumId>, env: Environment, files: FileStore,
                 disk0: DiskState, entries0: Bucket, disk: DiskState, entries: Bucket,
                 slotted: seq<Item>, fills: seq<AlbumId>, empty: bool, slot: AlbumId,
                 turn: Turn, here: bool, read: bool, disk': DiskState, entries': Bucket, empty': bool, slot': AlbumId)
    requires i < |items|
    requires LoopAt(items, i, skip, env, files, disk0, entries0, disk, entries, slotted, fills, empty, slot)
    requires forall j, k :: 0 <= j < k < |items| ==> (items[j].album, items[j].file) != (items[k].album, items[k].file)
    requires OnlyAt(items[i].album, items[i].file, disk, entries, disk', entries', files.applied)
    requires turn == Next ==> items[i].album in skip || ItemSettled(items[i], disk', entries', env, files.rows)
    requires here ==> !empty' && slot' == items[i].album && (read <==> empty || slot != items[i].album)
    requires !here ==> empty' == empty && slot' == slot && !read
    requires Quiet(items[i], skip, disk) ==> turn == Next && !here && disk' == disk && entries' == entries
    requires turn == Next ==>
        !RowMissing(items[i], skip, disk, files.rows) && !StopsAt(items[i], skip, disk, env, files.rows)
    ensures
      var slotted' := if here then slotted + [items[i]] else slotted;
      var fills' := if read then fills + [items[i].album] else fills;
      && (turn == Next ==>
          LoopAt(items, i + 1, skip, env, files, disk0, entries0, disk', entries', slotted', fills', empty',
                 slot'))
      && SameAlbums(disk0, entries0, disk', entries', files.applied)
      && (turn != Next ==> !AllQuiet(items, i + 1, skip, disk0))
      && SkippedKept(skip, disk0, entries0, disk', entries', fills')
      && InListOrder(items, i + 1, slotted') && fills' == Reads(slotted')
  {
    var fills' := if read then fills + [items[i].album] else fills;
    HistoryStep(items, i, slotted, fills, empty, slot, here, read, fills', empty', slot');
    ProgressStep(items, i, skip, env, files, disk0, entries0, disk, entries, disk', entries', turn);
    SkippedStep(skip, disk0, entries0, disk, entries, fills, disk', entries', fills', items[i], files.applied);
    if turn == Next {
      PassedStep(items, i, skip, disk0, disk, env, files.rows);
    }
    QuietStep(items, i, skip, disk0, entries0, disk, entries, fills, disk', entries', fills', turn);
  }

  /** With any skipping, a sorted list makes the loop read each folder at most twice. */
  lemma SortedReads(items: seq<Item>, i: nat, slotted: seq<Item>, fills: seq<AlbumId>, reads0: seq<AlbumId>)
    requires i <= |items| && InListOrder(items, i, slotted) && fills == Reads(slotted)
    ensures reads0 <= reads0 + fills && (Sorted(items) ==> forall a :: Count(a, (reads0 + fills)[|reads0|..]) <= 2)
  {
    assert (reads0 + fills)[|reads0|..] == fills;
    if Sorted(items) {
      forall a ensures Count(a, fills) <= 2 {
        ReadsBounded(slotted, a);
      }
    }
  }

  // ---- what a completed run comes to ----

  /** The album shows exactly its live entries, in no older version, all of them synced. */
  ghost predicate Exported(rs: Shown, es: Entries, ap: map<FileId, FileRow>) {
    && rs.Keys == es.Keys
    && (forall f :: f in es ==> es[f].synced && !es[f].removed)
    && SyncedShown(rs, es, ap)
  }

  /** A run, stopped or not, takes the record from no synced entry and gives none back. */
  lemma RunKeepsShown(rs0: Shown, es0: Entries, rs: Shown, es: Entries, lossy: bool, ap: map<FileId, FileRow>)
    requires AlbumRun(rs0, es0, rs, es, lossy, ap)
    ensures SyncedShown(rs, es, ap) <==> SyncedShown(rs0, es0, ap)
  {
    if SyncedShown(rs0, es0, ap) {
      forall f | f in es && es[f].synced ensures ShownAt(rs, f, ap) {
        assert f in es0 && es0[f].synced ==> RecordSame(rs0, rs, f) && ShownAt(rs0, f, ap);
      }
    }
    if SyncedShown(rs, es, ap) {
      forall f | f in es0 && es0[f].synced ensures ShownAt(rs0, f, ap) {
        assert SameAt(es0, es, f) && RecordSame(rs0, rs, f) && ShownAt(rs, f, ap);
      }
    }
  }

  /** The entries a completed run with working downloads leaves are synced. */
  lemma AllSynced(items: seq<Item>, disk0: DiskState, entries0: Bucket, disk: DiskState,
                  entries: Bucket,
                  env: Environment, files: FileStore, a: AlbumId, f: FileId)
    requires Snapshot(items, entries0) && AlbumRunOf(a, disk0, entries0, disk, entries, files.applied)
    requires a in disk && !disk[a].isDeleted && f in EntriesOf(entries, a)
    requires AllSettled(items, |items|, {}, disk, entries, env, files.rows) && Works(env, files.rows, a, f)
    ensures EntriesOf(entries, a)[f].synced
  {
    assert FinishedAt(EntriesOf(entries0, a), EntriesOf(entries, a), f, Dropped(a, disk0));
    var i :| 0 <= i < |items| && items[i].album == a && items[i].file == f;
    assert Present(items[i], entries0) && ItemSettled(items[i], disk, entries, env, files.rows);
    if items[i].entry.synced {
      assert SameAt(EntriesOf(entries0, a), EntriesOf(entries, a), f);
    }
  }

  /**
   Convergence, exactly: when all entries have had their turn and downloads work, an album is
   exported iff every entry that was marked synced at the start had its record.
   */
  lemma Converged(fold: CaseFold, items: seq<Item>, disk0: DiskState, entries0: Bucket, disk: DiskState,
                  entries: Bucket,
                  env: Environment, files: FileStore, a: AlbumId)
    requires Snapshot(items, entries0) && SameAlbums(disk0, entries0, disk, entries, files.applied)
    requires AllSane(fold, disk, entries, files.rows.Keys) && a in disk && !disk[a].isDeleted
    requires AllSettled(items, |items|, {}, disk, entries, env, files.rows)
    requires forall f :: f in EntriesOf(entries, a) ==> Works(env, files.rows, a, f)
    ensures Exported(RecordsOf(disk, a), EntriesOf(entries, a), AppliedBy(files.applied, a))
       <==> SyncedShown(RecordsOf(disk0, a), EntriesOf(entries0, a), AppliedBy(files.applied, a))
  {
    assert AlbumRunOf(a, disk0, entries0, disk, entries, files.applied);
    forall f | f in EntriesOf(entries, a) ensures EntriesOf(entries, a)[f].synced {
      AllSynced(items, disk0, entries0, disk, entries, env, files, a, f);
    }
    SaneKeys(fold, disk, entries, files.rows.Keys, a);
    ExportedIff(RecordsOf(disk0, a), EntriesOf(entries0, a), RecordsOf(disk, a), EntriesOf(entries, a),
                Dropped(a, disk0), AppliedBy(files.applied, a));
  }

  lemma SaneKeys(fold: CaseFold, disk: DiskState, entries: Bucket, rows: set<FileId>, a: AlbumId)
    requires AllSane(fold, disk, entries, rows) && a in disk && !disk[a].isDeleted
    ensures RecordsOf(disk, a).Keys <= EntriesOf(entries, a).Keys
    ensures forall f :: f in EntriesOf(entries, a) && EntriesOf(entries, a)[f].synced ==>
        !EntriesOf(entries, a)[f].removed
  {
    assert AlbumSane(fold, disk[a].folder, EntriesOf(entries, a), rows);
  }

  lemma ExportedIff(rs0: Shown, es0: Entries, rs: Shown, es: Entries, lossy: bool, ap: map<FileId, FileRow>)
    requires AlbumRun(rs0, es0, rs, es, lossy, ap) && rs.Keys <= es.Keys
    requires forall f :: f in es ==> es[f].synced && !es[f].removed
    ensures Exported(rs, es, ap) <==> SyncedShown(rs0, es0, ap)
  {
    RunKeepsShown(rs0, es0, rs, es, lossy, ap);
    if SyncedShown(rs, es, ap) {
      forall f ensures f in rs <==> f in es {
        assert f in es ==> ShownAt(rs, f, ap);
      }
    }
  }

  /** After that, another run finds nothing to do. */
  lemma ExportedIsQuiet(items: seq<Item>, disk: DiskState, entries: Bucket, applied: Applied)
    requires Snapshot(items, entries)
    requires forall a :: a in disk ==> Exported(RecordsOf(disk, a), EntriesOf(entries, a), AppliedBy(applied, a))
    ensures AllQuiet(items, |items|, {}, disk)
  {
    forall i | 0 <= i < |items| ensures Quiet(items[i], {}, disk) {
      assert Present(items[i], entries);
    }
  }

  /** Names of a map, as a directory listing gives them. */
  method ListNames<V>(m: map<string, V>) returns (names: seq<string>)
    ensures ListingOf(names, m)
  {
    names := [];
    var todo := m.Keys;
    while todo != {}
      invariant todo <= m.Keys
      invariant forall n :: n in names <==> n in m.Keys - todo
      invariant forall i, j :: 0 <= i < j < |names| ==> names[i] != names[j]
    {
      SomeName(todo);
      var n :| n in todo;
      assert n !in names;
      assert forall x :: x in names + [n] <==> x in names || x == n;
      names, todo := names + [n], todo - {n};
    }
  }

  /** The disk side of downloadEntry, for a file that can be stored. */
  method UpdateRight(info: AlbumDiskInfo, d: Folder, removed: bool, file: RemoteFile, got: Download)
    returns (out: Outcome, d': Folder)
    requires WellFormed(info.fold, d) && ContentRight(d) && Agrees(info.fold, info.Value(), d)
    requires FileOk(info.fold, file, got)
    modifies info
    ensures WellFormed(info.fold, d') && ContentRight(d') && OthersKept(d, d', file.id)
    ensures Agrees(info.fold, info.Value(), d')
    ensures out == (if removed then Done else StoreOutcome(info.fold, file, got)) && out != BadTimestampError
    ensures Records(d') == RecordsAfter(d, removed, file, out)
  {
    ghost var m;
    FileOkIsRight(info.fold, IndexWithout(info.fold, info.Value(), file.id), removed, file, got);
    out, d', m := UpdateFolder(info, d, removed, file, got);
  }

  lemma SomeName(s: set<string>)
    ensures s == {} || exists n :: n in s
  {}

  class Export {
    const fold: CaseFold
    const store: Client
    var disk: DiskState
    /** The folders read so far, one entry for every index that was built. */
    ghost var folderReads: seq<AlbumId>

    constructor (fold: CaseFold, store: Client)
      ensures this.fold == fold && this.store == store && disk == map[] && folderReads == []
    {
      this.fold, this.store, disk, folderReads := fold, store, map[], [];
    }

    ghost predicate Consistent()
      reads this, store
    {
      AllSane(fold, disk, store.entries, store.files.rows.Keys)
    }

    /** The index in the slot is what a fresh read of its folder would give. */
    ghost predicate SlotOk(info: AlbumDiskInfo?, slot: AlbumId)
      reads this, info
    {
      info != null ==>
        && slot in disk && !disk[slot].isDeleted
        && info.fold == fold && Agrees(fold, info.Value(), disk[slot].folder)
    }

    /** The one put that ends a file's turn: the entry goes, or is marked synced. */
    method SettleEntry(item: Item) returns (ok: bool)
      requires Present(item, store.entries) && !item.entry.synced
      modifies store`puts, store`entries
      ensures ok == (old(store.puts) > 0) && store.puts == if ok then old(store.puts) - 1 else 0
      ensures store.entries == if !ok then old(store.entries)
                               else if item.entry.removed then WithoutEntry(old(store.entries), item.album, item.file)
                               else WithEntry(old(store.entries), item.album, item.file, Entry.Entry(false, true))
    {
      if item.entry.removed {
        ok := store.DeleteAlbumEntry(item.album, item.file);
      } else {
        ok := store.UpsertAlbumEntry(item.album, item.file, item.entry.(synced := true));
      }
    }

    /** The disk side of downloadEntry: the album's folder and its index are brought up to date. */
    method UpdateAlbum(info: AlbumDiskInfo, a: AlbumId, removed: bool, file: RemoteFile, got: Download)
      returns (out: Outcome, ghost d': Folder)
      requires a in disk && !disk[a].isDeleted && SlotOk(info, a)
      requires WellFormed(fold, disk[a].folder) && ContentRight(disk[a].folder)
      requires FileOk(fold, file, got)
      modifies this`disk, info
      ensures disk == WithFolder(old(disk), a, d') && SlotOk(info, a)
      ensures WellFormed(fold, d') && ContentRight(d') && OthersKept(old(disk)[a].folder, d', file.id)
      ensures out == (if removed then Done else StoreOutcome(fold, file, got)) && out != BadTimestampError
      ensures Records(d') == RecordsAfter(old(disk)[a].folder, removed, file, out)
    {
      var made;
      out, made := UpdateRight(info, disk[a].folder, removed, file, got);
      d' := made;
      disk := WithFolder(disk, a, made);
    }

    /** The end of downloadEntry, the album's folder having become `d'`: on success, one put for the entry. */
    method FinishEntry(item: Item, stored: Outcome, ghost file: RemoteFile, ghost disk0: DiskState, ghost d': Folder,
                       ghost works: bool)
      returns (out: Outcome)
      requires item.album in disk0 && !disk0[item.album].isDeleted && disk == WithFolder(disk0, item.album, d')
      requires AlbumSane(fold, disk0[item.album].folder, EntriesOf(store.entries, item.album), store.files.rows.Keys)
      requires Present(item, store.entries) && !item.entry.synced && item.file in store.files.rows
      requires file.id == item.file && file.row == store.files.rows[item.file]
      requires RowsStored(AppliedBy(store.files.applied, item.album), store.files.rows)
      requires WellFormed(fold, d') && ContentRight(d') && (item.entry.removed ==> stored == Done)
      requires (stored == Done <==> item.entry.removed || works)
      requires Records(d') == RecordsAfter(disk0[item.album].folder, item.entry.removed, file, stored)
      modifies store`puts, store`entries
      ensures out == stored || (out == HardError && old(store.puts) == 0)
      ensures store.puts <= old(store.puts) <= store.puts + 1
      ensures OnlyAt(item.album, item.file, disk0, old(store.entries), disk, store.entries, old(store.files).applied)
      ensures AlbumSane(fold, d', EntriesOf(store.entries, item.album), old(store.files).rows.Keys)
      ensures out != HardError ==> Settled(item.album, item.file, disk, store.entries, works)
    {
      ghost var entries0, files := store.entries, store.files;
      var ok := true;
      if stored == Done {
        ok := SettleEntry(item);
      }
      TurnDone(fold, item, file, disk0, entries0, files, d', stored, ok, store.entries, works);
      out := if ok then stored else HardError;
    }

    /** downloadEntry: folder and index first, then one put for the entry. */
    method DownloadEntry(info: AlbumDiskInfo, item: Item, file: RemoteFile, got: Download, ghost works: bool)
      returns (out: Outcome, ghost d': Folder)
      requires works == (StoreOutcome(fold, file, got) == Done)
      requires item.album in disk && !disk[item.album].isDeleted && SlotOk(info, item.album)
      requires AlbumSane(fold, disk[item.album].folder, EntriesOf(store.entries, item.album), store.files.rows.Keys)
      requires Present(item, store.entries) && !item.entry.synced && item.file in store.files.rows
      requires file.id == item.file && file.row == store.files.rows[item.file] && FileOk(fold, file, got)
      requires RowsStored(AppliedBy(store.files.applied, item.album), store.files.rows)
      modifies this`disk, info, store`puts, store`entries
      ensures out == (if item.entry.removed then Done else StoreOutcome(fold, file, got))
          || (out == HardError && old(store.puts) == 0)
      ensures (out == HardError && old(store.puts) == 0)
          || if item.entry.removed then out == Done else OutcomeFits(file, got, true, out)
      ensures store.puts <= old(store.puts) <= store.puts + 1
      ensures OnlyAt(item.album, item.file, old(disk), old(store.entries), disk, store.entries,
                     old(store.files).applied)
      ensures SlotOk(info, item.album)
      ensures AlbumSane(fold, d', EntriesOf(store.entries, item.album), old(store.files).rows.Keys)
      ensures disk == WithFolder(old(disk), item.album, d') && OthersKept(old(disk)[item.album].folder, d', item.file)
      ensures out != HardError ==> Settled(item.album, item.file, disk, store.entries, works)
    {
      ghost var disk0, entries, files := disk, store.entries, store.files;
      OutcomeCases(fold, file, got);
      out, d' := UpdateAlbum(info, item.album, item.entry.removed, file, got);
      assert store.entries == entries && store.files == files;
      out := FinishEntry(item, out, file, disk0, d', works);
    }

    /** The index of a folder, from the slot or freshly read. */
    method IndexOf(a: AlbumId, info: AlbumDiskInfo?, slot: AlbumId) returns (index: AlbumDiskInfo)
      requires a in disk && !disk[a].isDeleted && Consistent() && SlotOk(info, slot)
      modifies this`folderReads
      ensures SlotOk(index, a)
      ensures if info == null || slot != a
          then fresh(index) && folderReads == old(folderReads) + [a]
              else index == info && folderReads == old(folderReads)
    {
      if info == null || slot != a {
        var d := disk[a].folder;
        var fileNames := ListNames(d.files);
        var metaNames := ListNames(d.meta);
        index := ReadFilesMetadata(fold, d, fileNames, metaNames);
        folderReads := folderReads + [a];
      } else {
        index := info;
      }
    }

    /** An entry is dropped without touching the disk. */
    method DropEntry(item: Item) returns (ok: bool)
      requires Present(item, store.entries) && !item.entry.synced
      requires item.album in disk
      requires (disk[item.album].isDeleted || (item.entry.removed && item.file !in store.files.rows))
      requires Consistent()
      modifies store`puts, store`entries
      ensures Consistent()
      ensures OnlyAt(item.album, item.file, disk, old(store.entries), disk, store.entries, old(store.files).applied)
      ensures ok == (old(store.puts) > 0) && store.puts == if ok then old(store.puts) - 1 else 0
      ensures ok ==> forall works :: Settled(item.album, item.file, disk, store.entries, works)
    {
      ghost var entries0, files := store.entries, store.files;
      ok := store.DeleteAlbumEntry(item.album, item.file);
      DropDone(fold, item, disk, entries0, files, store.entries);
    }

    /** downloadEntry, seen by all albums. */
    method DownloadKept(index: AlbumDiskInfo, item: Item, file: RemoteFile, got: Download, ghost works: bool)
      returns (out: Outcome)
      requires works == (StoreOutcome(fold, file, got) == Done)
      requires Consistent() && item.album in disk && !disk[item.album].isDeleted && SlotOk(index, item.album)
      requires Present(item, store.entries) && !item.entry.synced && item.file in store.files.rows
      requires file.id == item.file && file.row == store.files.rows[item.file] && FileOk(fold, file, got)
      requires RowsStored(AppliedBy(store.files.applied, item.album), store.files.rows)
      modifies this`disk, index, store`puts, store`entries
      ensures Consistent() && SlotOk(index, item.album)
      ensures OnlyAt(item.album, item.file, old(disk), old(store.entries), disk, store.entries,
                     old(store.files).applied)
      ensures out == (if item.entry.removed then Done else StoreOutcome(fold, file, got))
          || (out == HardError && old(store.puts) == 0)
      ensures store.puts <= old(store.puts) <= store.puts + 1
      ensures out != HardError ==> Settled(item.album, item.file, disk, store.entries, works)
    {
      ghost var disk0, entries0, files := disk, store.entries, store.files;
      ghost var d';
      out, d' := DownloadEntry(index, item, file, got, works);
      TurnKeepsAll(fold, item.album, item.file, disk0, entries0, disk, store.entries, files);
    }

    /** The turn of an entry with a file row, its folder's index being in the slot. */
    method SyncWithRow(item: Item, env: Environment, index: AlbumDiskInfo) returns (turn: Turn)
      requires Consistent() && Present(item, store.entries) && !item.entry.synced
      requires item.album in disk && !disk[item.album].isDeleted && SlotOk(index, item.album)
      requires item.file in store.files.rows
      requires DescribedWell(fold, env, item.album, item.file, store.files.rows[item.file])
      requires RowsStored(AppliedBy(store.files.applied, item.album), store.files.rows)
      modifies this`disk, store`puts, store`entries, index
      ensures Consistent() && SlotOk(index, item.album)
      ensures OnlyAt(item.album, item.file, old(disk), old(store.entries), disk, store.entries,
                     old(store.files).applied)
      ensures turn != Crash
      ensures turn == Stop ==>
          old(store.puts) == 0
              || (!item.entry.removed && FailsHard(env, old(store.files).rows, item.album, item.file))
      ensures turn == Next ==> item.entry.removed || !FailsHard(env, old(store.files).rows, item.album, item.file)
      ensures store.puts <= old(store.puts) <= store.puts + 1
      ensures turn == Next ==>
                Settled(item.album, item.file, disk, store.entries,
                        Works(env, old(store.files).rows, item.album, item.file))
    {
      var file, got := env.describe(item.file, store.files.rows[item.file]), env.got(item.album, item.file);
      OutcomeCases(fold, file, got);
      ghost var works := Works(env, store.files.rows, item.album, item.file);
      var out := DownloadKept(index, item, file, got, works);
      assert out == HardError <==> !(out == Done || Skippable(out, file));
      turn := if out == Done || Skippable(out, file) then Next else Stop;
    }

    /** The turn of an entry whose folder's index is in the slot. */
    method SyncSlotted(item: Item, env: Environment, index: AlbumDiskInfo) returns (turn: Turn)
      requires Consistent() && Present(item, store.entries) && !item.entry.synced && EnvironmentOk(fold, env)
      requires item.album in disk && !disk[item.album].isDeleted && SlotOk(index, item.album)
      requires RowsStored(AppliedBy(store.files.applied, item.album), store.files.rows)
      modifies this`disk, store`puts, store`entries, index
      ensures Consistent() && SlotOk(index, item.album) && folderReads == old(folderReads)
      ensures OnlyAt(item.album, item.file, old(disk), old(store.entries), disk, store.entries,
                     old(store.files).applied)
      ensures turn == Stop ==>
          old(store.puts) == 0
              || (!item.entry.removed && FailsHard(env, old(store.files).rows, item.album, item.file))
      ensures turn == Next ==> item.entry.removed || !FailsHard(env, old(store.files).rows, item.album, item.file)
      ensures store.puts <= old(store.puts) <= store.puts + 1
      ensures turn == Next ==>
                Settled(item.album, item.file, disk, store.entries,
                        Works(env, old(store.files).rows, item.album, item.file))
      ensures turn == Crash <==> !item.entry.removed && item.file !in old(store.files).rows
    {
      if item.file in store.files.rows {
        assert DescribedWell(fold, env, item.album, item.file, store.files.rows[item.file]);
        turn := SyncWithRow(item, env, index);
      } else if item.entry.removed {
        var ok := DropEntry(item);
        turn := if ok then Next else Stop;
      } else {
        turn := Crash;
        NothingDone(item.album, item.file, disk, store.entries, store.files.applied);
      }
    }

    /** The turn of an entry whose album has a folder. */
    method SyncInFolder(item: Item, env: Environment, info: AlbumDiskInfo?, slot: AlbumId)
      returns (turn: Turn, index: AlbumDiskInfo)
      requires Consistent() && SlotOk(info, slot) && Present(item, store.entries) && !item.entry.synced
      requires EnvironmentOk(fold, env)
      requires item.album in disk && !disk[item.album].isDeleted
      requires RowsStored(AppliedBy(store.files.applied, item.album), store.files.rows)
      modifies this`disk, this`folderReads, store`puts, store`entries, info
      ensures Consistent() && SlotOk(index, item.album) && (index == info || fresh(index))
      ensures OnlyAt(item.album, item.file, old(disk), old(store.entries), disk, store.entries,
                     old(store.files).applied)
      ensures turn == Stop ==>
          old(store.puts) == 0
              || (!item.entry.removed && FailsHard(env, old(store.files).rows, item.album, item.file))
      ensures turn == Next ==> item.entry.removed || !FailsHard(env, old(store.files).rows, item.album, item.file)
      ensures store.puts <= old(store.puts) <= store.puts + 1
      ensures turn == Next ==>
                Settled(item.album, item.file, disk, store.entries,
                        Works(env, old(store.files).rows, item.album, item.file))
      ensures turn == Crash <==> !item.entry.removed && item.file !in old(store.files).rows
      ensures folderReads == if info == null || slot != item.album
          then old(folderReads) + [item.album] else old(folderReads)
    {
      ghost var disk0, entries, files := disk, store.entries, store.files;
      index := IndexOf(item.album, info, slot);
      assert disk == disk0 && store.entries == entries && store.files == files;
      turn := SyncSlotted(item, env, index);
    }

    /** What this album has put last is stored, or put again since, for every exported album. */
    ghost predicate AllRowsStored()
      reads this, store
    {
      forall a :: a in disk && !disk[a].isDeleted ==> RowsStored(AppliedBy(store.files.applied, a), store.files.rows)
    }

    /**
     One turn of the loop of syncFiles. `slotted` is set when the entry gets as far as the
     index slot; then a folder is read just when the slot had to be filled.
     */
    method SyncItem(item: Item, skip: set<AlbumId>, env: Environment, info: AlbumDiskInfo?, slot: AlbumId)
      returns (turn: Turn, info': AlbumDiskInfo?, slot': AlbumId, ghost slotted: bool)
      requires Consistent() && SlotOk(info, slot) && Present(item, store.entries) && EnvironmentOk(fold, env)
      requires AllRowsStored()
      modifies this`disk, this`folderReads, store`puts, store`entries, info
      ensures Consistent() && SlotOk(info', slot')
      ensures info' == info || fresh(info')
      ensures OnlyAt(item.album, item.file, old(disk), old(store.entries), disk, store.entries,
                     old(store.files).applied)
      ensures turn == Stop ==> old(store.puts) == 0 || StopsAt(item, skip, old(disk), env, old(store.files).rows)
      ensures turn == Next ==> !StopsAt(item, skip, old(disk), env, old(store.files).rows)
      ensures turn == Crash <==> RowMissing(item, skip, old(disk), old(store.files).rows)
      ensures store.puts <= old(store.puts) <= store.puts + 1
      ensures turn == Next ==>
          item.album in skip || ItemSettled(item, disk, store.entries, env, old(store.files).rows)
      ensures slotted ==> info' != null && slot' == item.album
      ensures !slotted ==> info' == info && slot' == slot
      ensures folderReads == if slotted && (info == null || slot != item.album)
          then old(folderReads) + [item.album] else old(folderReads)
      ensures item.entry.synced || item.album in skip || item.album !in old(disk) ==>
                turn == Next && !slotted && disk == old(disk) && store.entries == old(store.entries)
    {
      turn, info', slot', slotted := Next, info, slot, false;
      if item.entry.synced || item.album in skip || item.album !in disk {
        NothingDone(item.album, item.file, disk, store.entries, store.files.applied);
      } else if disk[item.album].isDeleted {
        var ok := DropEntry(item);
        turn := if ok then Next else Stop;
      } else {
        slotted, slot' := true, item.album;
        turn, info' := SyncInFolder(item, env, info, slot);
      }
    }

    /** The state of the loop of syncFiles after i entries. */
    ghost predicate LoopOk(items: seq<Item>, i: nat, skip: set<AlbumId>, env: Environment, disk0: DiskState,
                           entries0: Bucket,
                           info: AlbumDiskInfo?, slot: AlbumId, slotted: seq<Item>, fills: seq<AlbumId>)
      requires i <= |items|
      reads this, store, info
    {
      && Consistent() && SlotOk(info, slot) && AllRowsStored()
      && LoopAt(items, i, skip, env, store.files, disk0, entries0, disk, store.entries, slotted, fills, info
                == null, slot)
    }

    /** One turn of the loop, seen from the start of the run; `fills` are the folders it has read. */
    method TakeTurn(items: seq<Item>, i: nat, skip: set<AlbumId>, env: Environment, ghost disk0: DiskState,
                    ghost entries0: Bucket,
                    info: AlbumDiskInfo?, slot: AlbumId, ghost slotted: seq<Item>, ghost fills: seq<AlbumId>,
                        ghost reads0: seq<AlbumId>, ghost puts0: nat)
      returns (turn: Turn, info': AlbumDiskInfo?, slot': AlbumId, ghost slotted': seq<Item>, ghost fills': seq<AlbumId>)
      requires i < |items| && EnvironmentOk(fold, env)
      requires forall j, k :: 0 <= j < k < |items| ==>
          (items[j].album, items[j].file) != (items[k].album, items[k].file)
      requires LoopOk(items, i, skip, env, disk0, entries0, info, slot, slotted, fills) && folderReads == reads0 + fills
      requires puts0 <= store.puts + i
      modifies this`disk, this`folderReads, store`puts, store`entries, info
      ensures info' == info || fresh(info')
      ensures folderReads == reads0 + fills'
      ensures turn == Next ==> LoopOk(items, i + 1, skip, env, disk0, entries0, info', slot', slotted', fills')
      ensures turn != Next ==> Consistent() && SameAlbums(disk0, entries0, disk, store.entries, store.files.applied)
                               && !AllQuiet(items, i + 1, skip, disk0)
      ensures SkippedKept(skip, disk0, entries0, disk, store.entries, fills')
      ensures store.puts <= old(store.puts) && puts0 <= store.puts + i + 1
      ensures turn == Stop ==> puts0 <= i || StopsAt(items[i], skip, disk0, env, store.files.rows)
      ensures turn == Crash ==> RowMissing(items[i], skip, disk0, store.files.rows)
      ensures InListOrder(items, i + 1, slotted') && fills' == Reads(slotted')
    {
      ghost var disk1, entries1, files := disk, store.entries, store.files;
      ghost var here;
      turn, info', slot', here := SyncItem(items[i], skip, env, info, slot);
      ghost var read := here && (info == null || slot != items[i].album);
      fills' := if read then fills + [items[i].album] else fills;
      slotted' := if here then slotted + [items[i]] else slotted;
      Regroup(reads0, fills, [items[i].album]);
      SamePending(items[i], skip, disk0, disk1);
      LoopStep(items, i, skip, env, files, disk0, entries0, disk1, entries1, slotted, fills, info == null, slot,
               turn, here, read, disk, store.entries, info' == null, slot');
    }

    /**
     syncFiles over the sorted entries. A run leaves each entry settled, unless it stopped
     on the way: because the puts ran out or because a download failed in a way that is not
     skipped. It reads no folder more than twice.
     */
    method SyncFiles(items: seq<Item>, skip: set<AlbumId>, env: Environment) returns (r: SyncResult)
      requires Consistent() && EnvironmentOk(fold, env) && Snapshot(items, store.entries) && AllRowsStored()
      modifies this`disk, this`folderReads, store`puts, store`entries
      ensures store.puts <= old(store.puts) <= store.puts + |items|
      ensures r == Stopped ==>
                old(store.puts) < |items|
                    || exists i :: 0 <= i < |items| && StopsAt(items[i], skip, old(disk), env, store.files.rows)
      ensures r == Completed ==> AllPassed(items, |items|, skip, old(disk), env, store.files.rows)
      ensures Consistent() && SameAlbums(old(disk), old(store.entries), disk, store.entries, store.files.applied)
      ensures r == Completed ==> AllSettled(items, |items|, skip, disk, store.entries, env, store.files.rows)
      ensures r == Fatal ==> exists i :: 0 <= i < |items| && RowMissing(items[i], skip, old(disk), store.files.rows)
      ensures old(folderReads) <= folderReads
      ensures SkippedKept(skip, old(disk), old(store.entries), disk, store.entries,
                          folderReads[|old(folderReads)|..])
      ensures (Sorted(items) ==> forall a :: Count(a, folderReads[|old(folderReads)|..]) <= 2)
      ensures AllQuiet(items, |items|, skip, old(disk)) ==>
                r == Completed && folderReads == old(folderReads) && disk == old(disk)
                    && store.entries == old(store.entries)
    {
      var info: AlbumDiskInfo?, slot: AlbumId := null, 0;
      ghost var slotted: seq<Item>, fills: seq<AlbumId> := [], [];
      ghost var disk0, entries0, reads0, puts0 := disk, store.entries, folderReads, store.puts;
      SameAlbumsAtFirst(disk, store.entries, store.files.applied);
      for i := 0 to |items|
        invariant info == null || fresh(info)
        invariant folderReads == reads0 + fills && store.puts <= puts0 <= store.puts + i
        invariant LoopOk(items, i, skip, env, disk0, entries0, info, slot, slotted, fills)
      {
        var turn;
        turn, info, slot, slotted, fills :=
          TakeTurn(items, i, skip, env, disk0, entries0, info, slot, slotted, fills, reads0, puts0);
        if turn != Next {
          SortedReads(items, i + 1, slotted, fills, reads0);
          return if turn == Stop then Stopped else Fatal;
        }
      }
      SortedReads(items, |items|, slotted, fills, reads0);
      r := Completed;
    }
  }

  lemma Regroup(x: seq<AlbumId>, y: seq<AlbumId>, z: seq<AlbumId>)
    ensures (x + y) + z == x + (y + z)
  {}

  /** A file that can be stored leaves the index right, whatever names are taken. */
  lemma FileOkIsRight(fold: CaseFold, ix: Index, removed: bool, file: RemoteFile, got: Download)
    requires FileOk(fold, file, got)
    ensures LeavesRight(fold, ix, removed, file, got)
    ensures OutcomeAmong(fold, ix.fileNames, file, got) == StoreOutcome(fold, file, got) != BadTimestampError
  {
    OutcomeAnywhere(fold, ix.fileNames, file, got);
  }

  /** The put that ends a file's turn is a step of the sync machine, taken between fetches. */
  lemma ExportPutIsStep(item: Item, entries: Bucket, files: FileStore, cursors: map<AlbumId, int>,
                        s: SyncMachine.Server)
    requires Present(item, entries)
    ensures
      var w := SyncMachine.World(ViewIn(entries, files, cursors, item.album, s), SyncMachine.Idle);
      var l := if item.entry.removed then SyncMachine.DropEntry(item.file) else SyncMachine.MarkSynced(item.file);
      var entries' := if item.entry.removed then WithoutEntry(entries, item.album, item.file)
                      else WithEntry(entries, item.album, item.file, Entry.Entry(false, true));
      && SyncMachine.Enabled(w, l)
      && SyncMachine.Apply(w, l) == w.(album := ViewIn(entries', files, cursors, item.album, s))
  {}

  lemma NothingDone(a: AlbumId, f: FileId, disk: DiskState, entries: Bucket, applied: Applied)
    ensures OnlyAt(a, f, disk, entries, disk, entries, applied)
  {}

  /** With a file that can be stored the outcome is success, a skipped error or the end of the run. */
  lemma OutcomeCases(fold: CaseFold, file: RemoteFile, got: Download)
    requires FileOk(fold, file, got)
    ensures
      var out := StoreOutcome(fold, file, got);
      && (out == Done <==> Yields(file, got)) && (out == HardError <==> EndsRun(file, got))
      && (Skippable(out, file) <==> out != Done && out != HardError)
      && OutcomeFits(file, got, true, out)
  {
    OutcomeByDownload(fold, {}, file, got);
  }

  /** Records and entries after a turn that was to put the file's record from this row. */
  lemma FileTurnDone(rs: Shown, es: Entries, rs': Shown, es': Entries, f: FileId, row: FileRow, removed: bool,
                     done: bool, ok: bool, lossy: bool, ap: map<FileId, FileRow>)
    requires rs' == if done && !removed then rs[f := row] else rs - {f}
    requires f in es && !es[f].synced && es[f].removed == removed && (removed ==> done) && NotOlder(row, f, ap)
    requires es' == if !done || !ok then es else if removed then es - {f} else es[f := Entry.Entry(false, true)]
    ensures FileTurn(rs, es, rs', es', f, lossy, ap)
    ensures ok ==> FileSettled(rs', es', f, done)
  {}

  lemma FolderReplaced(disk: DiskState, a: AlbumId, d: Folder)
    requires a in disk && !disk[a].isDeleted
    ensures var disk' := WithFolder(disk, a, d);
            SameDirs(disk, disk') && RecordsOf(disk', a) == Records(d) && forall b :: b in disk && b != a ==>
                disk'[b] == disk[b]
  {}

  lemma EntryReplaced(item: Item, entries: Bucket, done: bool, entries': Bucket)
    requires entries' == if !done then entries
                         else if item.entry.removed then WithoutEntry(entries, item.album, item.file)
                         else WithEntry(entries, item.album, item.file, Entry.Entry(false, true))
    ensures forall b :: b != item.album ==> EntriesOf(entries', b) == EntriesOf(entries, b)
    ensures var es := EntriesOf(entries, item.album);
            EntriesOf(entries', item.album) ==
            if !done then es else if item.entry.removed
                then es - {item.file} else es[item.file := Entry.Entry(false, true)]
  {}

  /** Folder and entry after a turn, put together. */
  lemma TurnDone(fold: CaseFold, item: Item, file: RemoteFile, disk: DiskState, entries: Bucket, files: FileStore,
                 d': Folder, out: Outcome, ok: bool, entries': Bucket, works: bool)
    requires item.album in disk && !disk[item.album].isDeleted
    requires AlbumSane(fold, disk[item.album].folder, EntriesOf(entries, item.album), files.rows.Keys)
    requires Present(item, entries) && !item.entry.synced && item.file in files.rows
    requires file.id == item.file && file.row == files.rows[item.file]
    requires RowsStored(AppliedBy(files.applied, item.album), files.rows)
    requires WellFormed(fold, d') && ContentRight(d') && (out == Done <==> item.entry.removed || works)
    requires Records(d') == RecordsAfter(disk[item.album].folder, item.entry.removed, file, out)
    requires entries' == if out != Done || !ok then entries
                         else if item.entry.removed then WithoutEntry(entries, item.album, item.file)
                         else WithEntry(entries, item.album, item.file, Entry.Entry(false, true))
    ensures
      var disk' := WithFolder(disk, item.album, d');
      && OnlyAt(item.album, item.file, disk, entries, disk', entries', files.applied)
      && AlbumSane(fold, d', EntriesOf(entries', item.album), files.rows.Keys)
      && (ok ==> Settled(item.album, item.file, disk', entries', works))
  {
    var a, es, es' := item.album, EntriesOf(entries, item.album), EntriesOf(entries', item.album);
    FolderReplaced(disk, a, d');
    EntryReplaced(item, entries, out == Done && ok, entries');
    FileTurnDone(RecordsOf(disk, a), es, Records(d'), es', item.file, file.row, item.entry.removed, out
                 == Done, ok, Dropped(a, disk), AppliedBy(files.applied, a));
    SaneAfter(fold, disk[a].folder, d', es, es', files.rows.Keys, item.file);
  }

  /** One file's turn keeps its album in order. */
  lemma SaneAfter(fold: CaseFold, d: Folder, d': Folder, es: Entries, es': Entries, rows: set<FileId>, f: FileId)
    requires AlbumSane(fold, d, es, rows) && WellFormed(fold, d') && ContentRight(d') && f in rows
    requires forall g :: g != f ==> SameAt(es, es', g) && RecordSame(Records(d), Records(d'), g)
    requires f in Records(d') ==> f in es'
    requires f in es' && es'[f].synced ==> !es'[f].removed
    ensures AlbumSane(fold, d', es', rows)
  {
    forall g ensures g in Records(d') ==> g in es' && g in rows {
      assert g != f ==> SameAt(es, es', g) && RecordSame(Records(d), Records(d'), g);
    }
    forall g | g in es' && es'[g].synced ensures !es'[g].removed {
      assert g != f ==> SameAt(es, es', g);
    }
  }

  lemma DropDone(fold: CaseFold, item: Item, disk: DiskState, entries: Bucket, files: FileStore, entries': Bucket)
    requires AllSane(fold, disk, entries, files.rows.Keys) && Present(item, entries) && !item.entry.synced
    requires item.album in disk && (disk[item.album].isDeleted || (item.entry.removed && item.file !in files.rows))
    requires entries' == entries || entries' == WithoutEntry(entries, item.album, item.file)
    ensures AllSane(fold, disk, entries', files.rows.Keys)
    ensures OnlyAt(item.album, item.file, disk, entries, disk, entries', files.applied)
    ensures item.file !in EntriesOf(entries', item.album) ==>
              forall works :: Settled(item.album, item.file, disk, entries', works)
  {
    var es, es' := EntriesOf(entries, item.album), EntriesOf(entries', item.album);
    assert forall g :: g != item.file ==> SameAt(es, es', g);
    forall a | a in disk && !disk[a].isDeleted
      ensures AlbumSane(fold, disk[a].folder, EntriesOf(entries', a), files.rows.Keys)
    {
      assert AlbumSane(fold, disk[a].folder, EntriesOf(entries, a), files.rows.Keys);
    }
  }

  lemma TurnKeepsAll(fold: CaseFold, a: AlbumId, f: FileId, disk: DiskState, entries: Bucket,
                     disk': DiskState, entries': Bucket, files: FileStore)
    requires AllSane(fold, disk, entries, files.rows.Keys)
    requires OnlyAt(a, f, disk, entries, disk', entries', files.applied)
    requires a in disk' && !disk'[a].isDeleted ==>
        AlbumSane(fold, disk'[a].folder, EntriesOf(entries', a), files.rows.Keys)
    ensures AllSane(fold, disk', entries', files.rows.Keys)
  {
    forall b | b in disk' && !disk'[b].isDeleted
      ensures AlbumSane(fold, disk'[b].folder, EntriesOf(entries', b), files.rows.Keys)
    {
      assert b != a ==> AlbumSane(fold, disk[b].folder, EntriesOf(entries, b), files.rows.Keys);
    }
  }
}
