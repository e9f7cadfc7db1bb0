/**
 An exported album folder on disk, when an index agrees with it, and how removing and
 adding a file's parts keeps the two in agreement.
 */
module Folder {
  import opened Decimal
  import opened Disk
  import SyncMachine

  const ALBUM_META_FILE := "album_meta.json"

  type FileRow = SyncMachine.FileRow

  /** What an exported file holds: a remote file, decrypted with what a stored row says of it. */
  datatype Content = Content(id: int, row: FileRow)

  /** Top-level files with what they hold, and the .meta folder, where a file that is no record is None. */
  datatype Folder = Folder(files: map<string, Content>, meta: map<string, Option<Record>>)

  /** A folder as it is made: nothing but the album's own metadata file. */
  function EmptyFolder(): Folder {
    Folder(map[], map[ALBUM_META_FILE := None])
  }

  predicate EndsWith(s: string, t: string) {
    |t| <= |s| && s[|s| - |t|..] == t
  }

  /** The metadata files that are read. */
  predicate IsIndexed(name: string) {
    name != ALBUM_META_FILE && EndsWith(name, ".json")
  }

  ghost predicate HasRecord(d: Folder, n: string) {
    n in d.meta && IsIndexed(n) && d.meta[n].Some?
  }

  function MetaOf(r: Option<Record>, n: string): Option<DiskMeta> {
    match r
    case Some(record) => Some(DiskMeta(record, n))
    case None => None
  }

  ghost function RecordIds(d: Folder): set<int> {
    set n | n in d.meta && HasRecord(d, n) :: d.meta[n].value.id
  }

  ghost function RecordName(d: Folder, id: int): (n: string)
    requires id in RecordIds(d)
    ensures HasRecord(d, n) && d.meta[n].value.id == id
  {
    var n :| n in d.meta && HasRecord(d, n) && d.meta[n].value.id == id;
    n
  }

  /** The files a folder has records of, with the rows they were exported from. */
  ghost function Records(d: Folder): map<int, FileRow> {
    map id | id in RecordIds(d) :: d.meta[RecordName(d, id)].value.row
  }

  /** With distinct ids the records are a map of their own. */
  lemma RecordsAre(d: Folder, m: map<int, FileRow>)
    requires IdsDistinct(d)
    requires forall n :: HasRecord(d, n) ==> d.meta[n].value.id in m && m[d.meta[n].value.id] == d.meta[n].value.row
    requires forall id :: id in m ==> exists n :: HasRecord(d, n) && d.meta[n].value.id == id
    ensures Records(d) == m
  {
    forall id ensures id in Records(d) <==> id in m {
      if id in m {
        var n :| HasRecord(d, n) && d.meta[n].value.id == id;
        assert n in d.meta;
      }
    }
    assert Records(d).Keys == m.Keys;
  }

  lemma RecordAt(d: Folder, n: string)
    requires IdsDistinct(d) && HasRecord(d, n)
    ensures d.meta[n].value.id in Records(d) && Records(d)[d.meta[n].value.id] == d.meta[n].value.row
  {
    assert n in d.meta;
  }

  // ---- well-formed folders ----

  /** No two names of the folder differ only in case. */
  ghost predicate NamesDistinct(fold: CaseFold, d: Folder) {
    && (forall n, n' :: n in d.files && n' in d.files && Lower(fold, n) == Lower(fold, n') ==> n == n')
    && (forall n, n' | n in d.meta && n' in d.meta && IsIndexed(n) && IsIndexed(n') ::
          Lower(fold, n) == Lower(fold, n') ==> n == n')
  }

  ghost predicate IdsDistinct(d: Folder) {
    forall n, n' | HasRecord(d, n) && HasRecord(d, n') :: d.meta[n].value.id == d.meta[n'].value.id ==> n == n'
  }

  ghost predicate Lists(d: Folder, n: string, file: string) {
    HasRecord(d, n) && file in d.meta[n].value.fileNames
  }

  /** Every listed name is a file of the folder, spelled as listed, and listed by one record only. */
  ghost predicate ListsOwned(d: Folder) {
    && (forall n, file :: Lists(d, n, file) ==> file in d.files)
    && (forall n, n', file :: Lists(d, n, file) && Lists(d, n', file) ==> n == n')
  }

  ghost predicate WellFormed(fold: CaseFold, d: Folder) {
    NamesDistinct(fold, d) && IdsDistinct(d) && ListsOwned(d)
  }

  // ---- agreement ----

  ghost predicate FileNamesAgree(fold: CaseFold, names: set<string>, d: Folder) {
    && (forall n :: n in d.files ==> Lower(fold, n) in names)
    && (forall s :: s in names ==> exists n :: n in d.files && Lower(fold, n) == s)
  }

  /** The metadata files of the folder are those the map has, and no others. */
  ghost predicate MetaKeysAgree(fold: CaseFold, keys: set<string>, d: Folder) {
    && (forall n :: n in d.meta && IsIndexed(n) ==> Lower(fold, n) in keys)
    && (forall s :: s in keys ==> exists n :: n in d.meta && IsIndexed(n) && Lower(fold, n) == s)
  }

  ghost predicate MetaValuesAgree(fold: CaseFold, metaFiles: map<string, Option<DiskMeta>>, d: Folder) {
    forall n | n in d.meta && IsIndexed(n) :: Lower(fold, n) in metaFiles ==>
        metaFiles[Lower(fold, n)] == MetaOf(d.meta[n], n)
  }

  ghost predicate MetaFilesAgree(fold: CaseFold, metaFiles: map<string, Option<DiskMeta>>, d: Folder) {
    MetaKeysAgree(fold, metaFiles.Keys, d) && MetaValuesAgree(fold, metaFiles, d)
  }

  ghost predicate IdsAgree(byId: map<int, DiskMeta>, d: Folder) {
    && (forall n :: HasRecord(d, n) ==>
          d.meta[n].value.id in byId && byId[d.meta[n].value.id] == DiskMeta(d.meta[n].value, n))
    && (forall id :: id in byId ==> exists n :: HasRecord(d, n) && d.meta[n].value.id == id)
  }

  /** The index is what a fresh read of the folder gives. */
  ghost predicate Agrees(fold: CaseFold, ix: Index, d: Folder) {
    FileNamesAgree(fold, ix.fileNames, d) && MetaFilesAgree(fold, ix.metaFiles, d) && IdsAgree(ix.byId, d)
  }

  /** A folder has one agreeing index, so agreement is equality with the rebuilt index. */
  lemma AgreesUnique(fold: CaseFold, ix: Index, ix': Index, d: Folder)
    requires Agrees(fold, ix, d) && Agrees(fold, ix', d)
    ensures ix == ix'
  {
    assert forall s :: s in ix.fileNames <==> s in ix'.fileNames;
    assert forall s :: s in ix.metaFiles <==> s in ix'.metaFiles;
    assert forall s :: s in ix.metaFiles ==> ix.metaFiles[s] == ix'.metaFiles[s];
    assert forall id :: id in ix.byId <==> id in ix'.byId;
    assert forall id :: id in ix.byId ==> ix.byId[id] == ix'.byId[id];
  }

  lemma IndexedIds(fold: CaseFold, ix: Index, d: Folder)
    requires Agrees(fold, ix, d)
    ensures ix.byId.Keys == RecordIds(d)
  {
    forall id ensures id in ix.byId.Keys <==> id in RecordIds(d) {
      if id in ix.byId {
        var n :| HasRecord(d, n) && d.meta[n].value.id == id;
        assert n in d.meta;
      }
    }
  }

  // ---- removing a record and its files ----

  function FolderRemoved(d: Folder, m: DiskMeta): Folder {
    Folder(d.files - (set n | n in m.record.fileNames), d.meta - {m.metaFileName})
  }

  lemma RemoveKeepsWellFormed(fold: CaseFold, d: Folder, m: DiskMeta)
    requires WellFormed(fold, d)
    requires HasRecord(d, m.metaFileName) && d.meta[m.metaFileName].value == m.record
    ensures WellFormed(fold, FolderRemoved(d, m))
  {
    var d' := FolderRemoved(d, m);
    assert forall n :: HasRecord(d', n) ==> HasRecord(d, n) && d'.meta[n] == d.meta[n];
    forall n, file | Lists(d', n, file) ensures file in d'.files {
      assert Lists(d, n, file);
      assert file in m.record.fileNames ==> Lists(d, m.metaFileName, file);
    }
    forall n, n', file | Lists(d', n, file) && Lists(d', n', file) ensures n == n' {
      assert Lists(d, n, file) && Lists(d, n', file);
    }
  }

  lemma RemoveKeepsAgreement(fold: CaseFold, ix: Index, d: Folder, m: DiskMeta)
    requires WellFormed(fold, d) && Agrees(fold, ix, d)
    requires HasRecord(d, m.metaFileName) && d.meta[m.metaFileName].value == m.record
    ensures Agrees(fold, IndexRemoved(fold, ix, m), FolderRemoved(d, m))
  {
    RemovedFileNames(fold, ix, d, m);
    RemovedMetaFiles(fold, ix, d, m);
    RemovedIds(fold, ix, d, m);
  }

  lemma RemovedIds(fold: CaseFold, ix: Index, d: Folder, m: DiskMeta)
    requires IdsDistinct(d) && IdsAgree(ix.byId, d)
    requires HasRecord(d, m.metaFileName) && d.meta[m.metaFileName].value == m.record
    ensures IdsAgree(IndexRemoved(fold, ix, m).byId, FolderRemoved(d, m))
  {
    var d', byId := FolderRemoved(d, m), ix.byId - {m.record.id};
    assert forall n :: HasRecord(d', n) <==> HasRecord(d, n) && n != m.metaFileName;
    forall id | id in byId ensures exists n :: HasRecord(d', n) && d'.meta[n].value.id == id {
      var n :| HasRecord(d, n) && d.meta[n].value.id == id;
      assert HasRecord(d', n);
    }
  }

  lemma RemovedFileNames(fold: CaseFold, ix: Index, d: Folder, m: DiskMeta)
    requires NamesDistinct(fold, d) && ListsOwned(d) && FileNamesAgree(fold, ix.fileNames, d)
    requires HasRecord(d, m.metaFileName) && d.meta[m.metaFileName].value == m.record
    ensures FileNamesAgree(fold, IndexRemoved(fold, ix, m).fileNames, FolderRemoved(d, m))
  {
    var d', ix' := FolderRemoved(d, m), IndexRemoved(fold, ix, m);
    forall n | n in d'.files ensures Lower(fold, n) in ix'.fileNames {
      if Lower(fold, n) in LowerAll(fold, m.record.fileNames) {
        var file :| file in m.record.fileNames && Lower(fold, file) == Lower(fold, n);
        assert Lists(d, m.metaFileName, file);
      }
    }
    forall s | s in ix'.fileNames ensures exists n :: n in d'.files && Lower(fold, n) == s {
      var n :| n in d.files && Lower(fold, n) == s;
      assert n in d'.files;
    }
  }

  lemma RemovedMetaFiles(fold: CaseFold, ix: Index, d: Folder, m: DiskMeta)
    requires NamesDistinct(fold, d) && MetaFilesAgree(fold, ix.metaFiles, d)
    requires HasRecord(d, m.metaFileName)
    ensures MetaFilesAgree(fold, IndexRemoved(fold, ix, m).metaFiles, FolderRemoved(d, m))
  {}

  // ---- adding a record and its files ----

  /** The parts are stored under their names, and the record under its metadata name. */
  function FolderAdded(d: Folder, m: DiskMeta): Folder {
    Folder(d.files + (map n | n in m.record.fileNames :: Content(m.record.id, m.record.row)),
           d.meta[m.metaFileName := Some(m.record)])
  }

  lemma AddKeepsWellFormed(fold: CaseFold, ix: Index, d: Folder, m: DiskMeta)
    requires WellFormed(fold, d) && Agrees(fold, ix, d)
    requires Addable(fold, ix, m) && IsIndexed(m.metaFileName)
    ensures WellFormed(fold, FolderAdded(d, m))
  {
    AddedNamesDistinct(fold, ix, d, m);
    AddedIdsDistinct(fold, ix, d, m);
    AddedListsOwned(fold, ix, d, m);
  }

  lemma AddedRecords(fold: CaseFold, ix: Index, d: Folder, m: DiskMeta, n: string)
    requires MetaFilesAgree(fold, ix.metaFiles, d) && Lower(fold, m.metaFileName) !in ix.metaFiles
    requires IsIndexed(m.metaFileName)
    ensures m.metaFileName !in d.meta
    ensures HasRecord(FolderAdded(d, m), n) <==> HasRecord(d, n) || n == m.metaFileName
    ensures n != m.metaFileName && n in d.meta ==> FolderAdded(d, m).meta[n] == d.meta[n]
  {}

  lemma AddedIdsDistinct(fold: CaseFold, ix: Index, d: Folder, m: DiskMeta)
    requires IdsDistinct(d) && Agrees(fold, ix, d)
    requires Addable(fold, ix, m) && IsIndexed(m.metaFileName)
    ensures IdsDistinct(FolderAdded(d, m)) && Records(FolderAdded(d, m)) == Records(d)[m.record.id := m.record.row]
  {
    AddedIsNew(fold, ix, d, m);
    NewRecord(d, FolderAdded(d, m), m.metaFileName, m.record);
  }

  lemma AddedListsOwned(fold: CaseFold, ix: Index, d: Folder, m: DiskMeta)
    requires ListsOwned(d) && Agrees(fold, ix, d)
    requires Addable(fold, ix, m) && IsIndexed(m.metaFileName)
    ensures ListsOwned(FolderAdded(d, m))
  {
    var d' := FolderAdded(d, m);
    forall n, file | Lists(d', n, file)
      ensures file in d'.files
      ensures if n == m.metaFileName
          then file in m.record.fileNames && file !in d.files else Lists(d, n, file) && file in d.files
    {
      AddedRecords(fold, ix, d, m, n);
      if n == m.metaFileName {
        assert Lower(fold, file) in LowerAll(fold, m.record.fileNames);
      } else {
        assert Lists(d, n, file);
      }
    }
  }

  lemma AddedNamesDistinct(fold: CaseFold, ix: Index, d: Folder, m: DiskMeta)
    requires NamesDistinct(fold, d) && FileNamesAgree(fold, ix.fileNames, d)
    requires MetaKeysAgree(fold, ix.metaFiles.Keys, d)
    requires Addable(fold, ix, m) && IsIndexed(m.metaFileName)
    ensures NamesDistinct(fold, FolderAdded(d, m))
  {
    var d' := FolderAdded(d, m);
    forall n, n' | n in d'.files && n' in d'.files && Lower(fold, n) == Lower(fold, n') ensures n == n' {
      assert n in d.files || n in m.record.fileNames;
      assert n' in d.files || n' in m.record.fileNames;
    }
  }

  lemma AddKeepsAgreement(fold: CaseFold, ix: Index, d: Folder, m: DiskMeta)
    requires WellFormed(fold, d) && Agrees(fold, ix, d)
    requires Addable(fold, ix, m) && IsIndexed(m.metaFileName)
    ensures Agrees(fold, IndexAdded(fold, ix, m), FolderAdded(d, m))
  {
    AddedFileNames(fold, ix, d, m);
    AddedMetaFiles(fold, ix, d, m);
    AddedIds(fold, ix, d, m);
  }

  lemma AddedMetaFiles(fold: CaseFold, ix: Index, d: Folder, m: DiskMeta)
    requires MetaFilesAgree(fold, ix.metaFiles, d) && Lower(fold, m.metaFileName) !in ix.metaFiles
    requires IsIndexed(m.metaFileName)
    ensures MetaFilesAgree(fold, IndexAdded(fold, ix, m).metaFiles, FolderAdded(d, m))
  {}

  lemma AddedIds(fold: CaseFold, ix: Index, d: Folder, m: DiskMeta)
    requires Agrees(fold, ix, d) && Addable(fold, ix, m) && IsIndexed(m.metaFileName)
    ensures IdsAgree(IndexAdded(fold, ix, m).byId, FolderAdded(d, m))
  {
    var d', byId := FolderAdded(d, m), ix.byId[m.record.id := m];
    forall n | HasRecord(d', n)
      ensures d'.meta[n].value.id in byId && byId[d'.meta[n].value.id] == DiskMeta(d'.meta[n].value, n)
    {
      AddedRecords(fold, ix, d, m, n);
    }
    forall id | id in byId ensures exists n :: HasRecord(d', n) && d'.meta[n].value.id == id {
      if id == m.record.id {
        assert HasRecord(d', m.metaFileName);
      } else {
        var n :| HasRecord(d, n) && d.meta[n].value.id == id;
        AddedRecords(fold, ix, d, m, n);
      }
    }
  }

  lemma AddedFileNames(fold: CaseFold, ix: Index, d: Folder, m: DiskMeta)
    requires Agrees(fold, ix, d)
    ensures FileNamesAgree(fold, IndexAdded(fold, ix, m).fileNames, FolderAdded(d, m))
  {}

  // ---- what removing and adding leave alone ----

  /** Every record of another file is still there, and so are its files, with the same content. */
  ghost predicate OthersKept(d: Folder, d': Folder, id: int) {
    forall n | HasRecord(d, n) && d.meta[n].value.id != id ::
      && HasRecord(d', n) && d'.meta[n] == d.meta[n]
      && forall file | file in d.meta[n].value.fileNames && file in d.files :: file in d'.files
          && d'.files[file] == d.files[file]
  }

  lemma OthersKeptTransitive(d: Folder, d1: Folder, d2: Folder, id: int)
    requires OthersKept(d, d1, id) && OthersKept(d1, d2, id)
    ensures OthersKept(d, d2, id)
  {}

  lemma RemoveKeepsOthers(d: Folder, m: DiskMeta)
    requires IdsDistinct(d) && ListsOwned(d)
    requires HasRecord(d, m.metaFileName) && d.meta[m.metaFileName].value == m.record
    ensures OthersKept(d, FolderRemoved(d, m), m.record.id)
    ensures Records(FolderRemoved(d, m)) == Records(d) - {m.record.id}
  {
    var d' := FolderRemoved(d, m);
    forall n | HasRecord(d, n) && d.meta[n].value.id != m.record.id
      ensures HasRecord(d', n) && d'.meta[n] == d.meta[n]
      ensures forall file | file in d.meta[n].value.fileNames && file in d.files ::
                file in d'.files && d'.files[file] == d.files[file]
    {
      forall file | file in d.meta[n].value.fileNames && file in d.files ensures file in d'.files {
        assert Lists(d, n, file);
        assert file in m.record.fileNames ==> Lists(d, m.metaFileName, file);
      }
    }
    forall n ensures HasRecord(d', n) <==> HasRecord(d, n) && n != m.metaFileName {}
    forall n | HasRecord(d', n) ensures d'.meta[n].value.id in Records(d) - {m.record.id}
      ensures Records(d)[d'.meta[n].value.id] == d'.meta[n].value.row
    {
      RecordAt(d, n);
    }
    forall id | id in Records(d) - {m.record.id} ensures exists n :: HasRecord(d', n) && d'.meta[n].value.id == id {
      assert HasRecord(d', RecordName(d, id));
    }
    RecordsAre(d', Records(d) - {m.record.id});
  }

  lemma AddKeepsOthers(fold: CaseFold, ix: Index, d: Folder, m: DiskMeta)
    requires Agrees(fold, ix, d) && Addable(fold, ix, m) && IsIndexed(m.metaFileName)
    ensures OthersKept(d, FolderAdded(d, m), m.record.id)
  {
    var d' := FolderAdded(d, m);
    assert m.metaFileName !in d.meta;
    forall file | file in d.files ensures file in d'.files && d'.files[file] == d.files[file] {
      assert file in m.record.fileNames ==> Lower(fold, file) in LowerAll(fold, m.record.fileNames);
    }
  }

  lemma AddedIsNew(fold: CaseFold, ix: Index, d: Folder, m: DiskMeta)
    requires Agrees(fold, ix, d) && Addable(fold, ix, m) && IsIndexed(m.metaFileName)
    ensures m.metaFileName !in d.meta && m.record.id !in Records(d)
  {
    IndexedIds(fold, ix, d);
  }

  /** A record under a new name and with a new id is added to the records. */
  lemma NewRecord(d: Folder, d': Folder, n: string, r: Record)
    requires IdsDistinct(d) && IsIndexed(n) && n !in d.meta && r.id !in Records(d) && d'.meta == d.meta[n := Some(r)]
    ensures IdsDistinct(d') && Records(d') == Records(d)[r.id := r.row]
  {
    NewRecordDistinct(d, d', n, r);
    var rows := Records(d)[r.id := r.row];
    forall x | HasRecord(d', x)
      ensures d'.meta[x].value.id in rows && rows[d'.meta[x].value.id] == d'.meta[x].value.row
    {
      if x != n {
        OldRecord(d, d', n, r, x);
      }
    }
    forall id | id in rows ensures exists x :: HasRecord(d', x) && d'.meta[x].value.id == id {
      assert HasRecord(d', if id == r.id then n else RecordName(d, id));
    }
    RecordsAre(d', rows);
  }

  lemma OldRecord(d: Folder, d': Folder, n: string, r: Record, x: string)
    requires IdsDistinct(d) && d'.meta == d.meta[n := Some(r)] && HasRecord(d', x) && x != n
    ensures HasRecord(d, x) && d'.meta[x] == d.meta[x]
    ensures d.meta[x].value.id in Records(d) && Records(d)[d.meta[x].value.id] == d.meta[x].value.row
  {
    assert HasRecord(d, x);
    RecordAt(d, x);
  }

  lemma NewRecordDistinct(d: Folder, d': Folder, n: string, r: Record)
    requires IdsDistinct(d) && r.id !in Records(d) && d'.meta == d.meta[n := Some(r)]
    ensures IdsDistinct(d')
  {
    forall x, y | HasRecord(d', x) && HasRecord(d', y) && d'.meta[x].value.id == d'.meta[y].value.id ensures x == y {
      if x != n {
        OldRecord(d, d', n, r, x);
      }
      if y != n {
        OldRecord(d, d', n, r, y);
      }
    }
  }

  // ---- what the files hold ----

  /**
   Every record lists files, and each of them holds the remote file the record is about, exported
   from the same row.
   */
  ghost predicate ContentRight(d: Folder) {
    forall n | HasRecord(d, n) :: HoldsListed(d.files, d.meta[n].value)
  }

  ghost predicate HoldsListed(files: map<string, Content>, r: Record) {
    r.fileNames != [] && forall file :: file in r.fileNames ==> file in files && files[file] == Content(r.id, r.row)
  }

  lemma RemoveKeepsContent(d: Folder, m: DiskMeta)
    requires ListsOwned(d) && ContentRight(d)
    requires HasRecord(d, m.metaFileName) && d.meta[m.metaFileName].value == m.record
    ensures ContentRight(FolderRemoved(d, m))
  {
    var d' := FolderRemoved(d, m);
    forall n | HasRecord(d', n) ensures HoldsListed(d'.files, d'.meta[n].value) {
      assert HasRecord(d, n) && d'.meta[n] == d.meta[n];
      forall file | file in d.meta[n].value.fileNames ensures file in d'.files {
        assert Lists(d, n, file);
        assert file in m.record.fileNames ==> Lists(d, m.metaFileName, file);
      }
    }
  }

  lemma AddKeepsContent(fold: CaseFold, ix: Index, d: Folder, m: DiskMeta)
    requires Agrees(fold, ix, d) && Addable(fold, ix, m) && IsIndexed(m.metaFileName)
    requires ContentRight(d) && m.record.fileNames != []
    ensures ContentRight(FolderAdded(d, m))
  {
    var d' := FolderAdded(d, m);
    forall n | HasRecord(d', n) ensures HoldsListed(d'.files, d'.meta[n].value) {
      AddedRecords(fold, ix, d, m, n);
      if n != m.metaFileName {
        assert HoldsListed(d.files, d.meta[n].value);
        forall file | file in d.meta[n].value.fileNames ensures file in d'.files && d'.files[file] == d.files[file] {
          assert file in m.record.fileNames ==> Lower(fold, file) in LowerAll(fold, m.record.fileNames);
        }
      }
    }
  }

  // ---- reading a folder ----

  /** A listing names every key once. */
  ghost predicate ListingOf<V>(names: seq<string>, m: map<string, V>) {
    && (forall n :: n in names <==> n in m)
    && (forall i, j :: 0 <= i < j < |names| ==> names[i] != names[j])
  }

  /** The folder with one more metadata file. */
  ghost function WithMeta(d: Folder, n: string, r: Option<Record>): Folder {
    Folder(d.files, d.meta[n := r])
  }

  /** Reading one more metadata file. */
  lemma OneMoreMeta(fold: CaseFold, d: Folder, n: string, r: Option<Record>, metaFiles: map<string, Option<DiskMeta>>)
    requires n !in d.meta && IsIndexed(n) && NamesDistinct(fold, WithMeta(d, n, r))
    requires MetaFilesAgree(fold, metaFiles, d)
    ensures MetaFilesAgree(fold, metaFiles[Lower(fold, n) := MetaOf(r, n)], WithMeta(d, n, r))
  {}

  /** Reading one more record. */
  lemma OneMoreId(d: Folder, n: string, record: Record, byId: map<int, DiskMeta>)
    requires n !in d.meta && IsIndexed(n) && IdsDistinct(WithMeta(d, n, Some(record))) && IdsAgree(byId, d)
    ensures IdsAgree(byId[record.id := DiskMeta(record, n)], WithMeta(d, n, Some(record)))
  {
    var d', byId' := WithMeta(d, n, Some(record)), byId[record.id := DiskMeta(record, n)];
    assert forall x :: HasRecord(d', x) <==> HasRecord(d, x) || x == n;
    forall id | id in byId' ensures exists x :: HasRecord(d', x) && d'.meta[x].value.id == id {
      if id == record.id {
        assert HasRecord(d', n);
      } else {
        var x :| HasRecord(d, x) && d.meta[x].value.id == id;
        assert HasRecord(d', x);
      }
    }
  }

  /** A file that is not read, or is no record, leaves the maps in agreement. */
  lemma NothingRead(fold: CaseFold, d: Folder, n: string, r: Option<Record>, metaFiles: map<string, Option<DiskMeta>>,
                    byId: map<int, DiskMeta>)
    requires n !in d.meta
    ensures !IsIndexed(n) && MetaFilesAgree(fold, metaFiles, d) ==> MetaFilesAgree(fold, metaFiles, WithMeta(d, n, r))
    ensures (!IsIndexed(n) || r.None?) && IdsAgree(byId, d) ==> IdsAgree(byId, WithMeta(d, n, r))
  {
    var d' := WithMeta(d, n, r);
    if !IsIndexed(n) && MetaFilesAgree(fold, metaFiles, d) {
      assert forall x :: x in d.meta ==> x in d'.meta;
    }
    if (!IsIndexed(n) || r.None?) && IdsAgree(byId, d) {
      assert forall x :: HasRecord(d', x) <==> HasRecord(d, x);
    }
  }

  ghost predicate RecordsAgree(fold: CaseFold, metaFiles: map<string, Option<DiskMeta>>, byId: map<int, DiskMeta>,
                               d: Folder) {
    MetaFilesAgree(fold, metaFiles, d) && IdsAgree(byId, d)
  }

  /** The folder made of the first i metadata files of a listing. */
  ghost function Listed(d: Folder, listing: seq<string>, i: nat): Folder
    requires ListingOf(listing, d.meta) && i <= |listing|
  {
    if i == 0 then Folder(map[], map[])
    else
      assert listing[i - 1] in listing;
      WithMeta(Listed(d, listing, i - 1), listing[i - 1], d.meta[listing[i - 1]])
  }

  lemma {:induction false} ListedIsPart(d: Folder, listing: seq<string>, i: nat)
    requires ListingOf(listing, d.meta) && i <= |listing|
    ensures forall x :: x in Listed(d, listing, i).meta ==> x in d.meta && Listed(d, listing, i).meta[x] == d.meta[x]
    ensures forall j :: 0 <= j < |listing| ==> (listing[j] in Listed(d, listing, i).meta <==> j < i)
    ensures Listed(d, listing, i).files == map[]
  {
    if i > 0 {
      assert listing[i - 1] in listing;
      ListedIsPart(d, listing, i - 1);
    }
  }

  /** A part of a well-formed .meta folder is well-formed. */
  lemma ListedDistinct(fold: CaseFold, d: Folder, listing: seq<string>, i: nat)
    requires NamesDistinct(fold, d) && IdsDistinct(d) && ListingOf(listing, d.meta) && i <= |listing|
    ensures NamesDistinct(fold, Listed(d, listing, i)) && IdsDistinct(Listed(d, listing, i))
  {
    ListedIsPart(d, listing, i);
    assert forall x :: HasRecord(Listed(d, listing, i), x) ==> HasRecord(d, x);
  }

  lemma NextListed(fold: CaseFold, d: Folder, listing: seq<string>, i: nat)
    requires NamesDistinct(fold, d) && IdsDistinct(d) && ListingOf(listing, d.meta) && i < |listing|
    ensures
      var n := listing[i];
      n in d.meta && n !in Listed(d, listing, i).meta &&
      var next := WithMeta(Listed(d, listing, i), n, d.meta[n]);
      Listed(d, listing, i + 1) == next && NamesDistinct(fold, next) && IdsDistinct(next)
  {
    assert listing[i] in listing;
    ListedIsPart(d, listing, i);
    ListedDistinct(fold, d, listing, i + 1);
  }

  /** One turn of the walk over the .meta folder. */
  method ReadMetaFile(fold: CaseFold, ghost part: Folder, n: string, r: Option<Record>,
                      metaFiles: map<string, Option<DiskMeta>>, byId: map<int, DiskMeta>)
    returns (metaFiles': map<string, Option<DiskMeta>>, byId': map<int, DiskMeta>)
    requires n !in part.meta && NamesDistinct(fold, WithMeta(part, n, r)) && IdsDistinct(WithMeta(part, n, r))
    requires RecordsAgree(fold, metaFiles, byId, part)
    ensures RecordsAgree(fold, metaFiles', byId', WithMeta(part, n, r))
  {
    NothingRead(fold, part, n, r, metaFiles, byId);
    if n == ALBUM_META_FILE || !EndsWith(n, ".json") {
      return metaFiles, byId;
    }
    OneMoreMeta(fold, part, n, r, metaFiles);
    metaFiles' := metaFiles[Lower(fold, n) := MetaOf(r, n)];
    byId' := byId;
    if r.Some? {
      OneMoreId(part, n, r.value, byId);
      byId' := byId[r.value.id := DiskMeta(r.value, n)];
    }
  }

  /** The walk over the .meta folder. */
  method ReadRecords(fold: CaseFold, d: Folder, listing: seq<string>)
    returns (metaFiles: map<string, Option<DiskMeta>>, byId: map<int, DiskMeta>)
    requires NamesDistinct(fold, d) && IdsDistinct(d) && ListingOf(listing, d.meta)
    ensures RecordsAgree(fold, metaFiles, byId, d)
  {
    metaFiles, byId := map[], map[];
    for i := 0 to |listing|
      invariant RecordsAgree(fold, metaFiles, byId, Listed(d, listing, i))
    {
      NextListed(fold, d, listing, i);
      metaFiles, byId := ReadMetaFile(fold, Listed(d, listing, i), listing[i], d.meta[listing[i]], metaFiles, byId);
    }
    AllListed(fold, d, listing, metaFiles, byId);
  }

  lemma AllListed(fold: CaseFold, d: Folder, listing: seq<string>, metaFiles: map<string, Option<DiskMeta>>,
                  byId: map<int, DiskMeta>)
    requires ListingOf(listing, d.meta)
    requires RecordsAgree(fold, metaFiles, byId, Listed(d, listing, |listing|))
    ensures RecordsAgree(fold, metaFiles, byId, d)
  {
    var part := Listed(d, listing, |listing|);
    ListedIsPart(d, listing, |listing|);
    forall n | n in d.meta ensures n in part.meta {
      assert n in listing;
    }
    assert part.meta == d.meta;
    assert forall x :: HasRecord(part, x) <==> HasRecord(d, x);
  }

  /** The walk over the top level of the folder. */
  method ReadFileNames(fold: CaseFold, d: Folder, listing: seq<string>) returns (names: set<string>)
    requires ListingOf(listing, d.files)
    ensures FileNamesAgree(fold, names, d)
  {
    names := {};
    for i := 0 to |listing|
      invariant forall j :: 0 <= j < i ==> Lower(fold, listing[j]) in names
      invariant forall s :: s in names ==> exists j :: 0 <= j < i && Lower(fold, listing[j]) == s
    {
      names := names + {Lower(fold, listing[i])};
    }
    forall n | n in d.files ensures Lower(fold, n) in names {
      assert n in listing;
    }
    forall s | s in names ensures exists n :: n in d.files && Lower(fold, n) == s {
      var j :| 0 <= j < |listing| && Lower(fold, listing[j]) == s;
      assert listing[j] in listing;
    }
  }

  /** readFilesMetadata: the two directory listings are walked and the three maps filled. */
  method ReadFilesMetadata(fold: CaseFold, d: Folder, fileListing: seq<string>, metaListing: seq<string>)
    returns (info: AlbumDiskInfo)
    requires WellFormed(fold, d)
    requires ListingOf(fileListing, d.files) && ListingOf(metaListing, d.meta)
    ensures fresh(info) && info.fold == fold && Agrees(fold, info.Value(), d)
  {
    var names := ReadFileNames(fold, d, fileListing);
    var metaFiles, byId := ReadRecords(fold, d, metaListing);
    info := new AlbumDiskInfo(fold, Index(names, metaFiles, byId));
  }
}
