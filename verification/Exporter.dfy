/**
 The export reconciler: entries of the store are turned into files and records on
 disk, one album folder's index at a time being held in memory.
 */
module Exporter {
  import opened Decimal
  import opened Disk
  import opened Folder
  import SyncMachine
  import opened SyncClient

  type FileId = SyncMachine.FileId
  type Entry = SyncMachine.Entry

  /** A stored file row read back; base and ext are its title split by the path library. */
  datatype RemoteFile = RemoteFile(id: FileId, row: FileRow, title: string, base: string, ext: string, live: bool,
                                   timestampOk: bool)

  /** What unpacking a live photo yields: extensions of the parts found. */
  datatype Unpacked = NotAZip | UnexpectedPart | Parts(image: Option<string>, video: Option<string>)

  datatype Download = NetworkFailed | DecryptionFailed | Decrypted(unpacked: Unpacked)

  datatype Outcome = Done | DecryptionError | ZipFormatError | LiveZipError | BadTimestampError | HardError

  datatype AlbumDir = AlbumDir(isDeleted: bool, folder: Folder)

  /** Errors after which syncFiles goes on with the next entry. */
  predicate Skippable(o: Outcome, file: RemoteFile) {
    o == DecryptionError || (file.live && (o == ZipFormatError || o == LiveZipError)) || o == BadTimestampError
  }

  // ---- titles and parts ----

  predicate IsExtension(e: string) {
    e == "" || e[0] == '.'
  }

  /** The path library yields extensions. */
  ghost predicate PartsOk(got: Download) {
    got.Decrypted? && got.unpacked.Parts? ==>
      && (got.unpacked.image.Some? ==> IsExtension(got.unpacked.image.value))
      && (got.unpacked.video.Some? ==> IsExtension(got.unpacked.video.value))
  }

  /** A live photo's two parts have extensions that differ in case only. */
  predicate CaseClash(fold: CaseFold, image: Option<string>, video: Option<string>) {
    image.Some? && video.Some? && image != video && Lower(fold, image.value) == Lower(fold, video.value)
  }

  /** The metadata name that comes up is the album's own metadata file, which is not read as a record. */
  predicate Clobbers(fold: CaseFold, taken: set<string>, file: RemoteFile) {
    file.base + file.ext == "album_meta" && Lower(fold, ALBUM_META_FILE) !in taken
  }

  lemma StemOf(base: string, ext: string, k: nat)
    ensures
      var stem := if k == 0 then base + ext else base + "_" + Print(k) + ext;
      Candidate(base, ext + ".json", k) == stem + ".json" && (k > 0 ==> stem != "album_meta")
  {
    if k > 0 {
      var stem := base + "_" + Print(k) + ext;
      assert stem[|base| + 1] == Print(k)[0] && IsDigit(Print(k)[0]);
      assert forall i :: 0 <= i < 10 ==> !IsDigit("album_meta"[i]);
    }
  }

  /** A generated metadata name is one that is read back, unless it is the album's. */
  lemma GeneratedIsIndexed(fold: CaseFold, taken: set<string>, file: RemoteFile, k: nat, name: string)
    requires FirstFree(fold, taken, file.base, file.ext + ".json", k, name)
    ensures IsIndexed(name) <==> !Clobbers(fold, taken, file)
  {
    StemOf(file.base, file.ext, k);
    StemOf(file.base, file.ext, 0);
    assert ALBUM_META_FILE == "album_meta" + ".json";
    assert name[..|name| - 5] + ".json" == name;
    if name == ALBUM_META_FILE {
      assert name[..|name| - 5] == "album_meta";
    }
  }

  /** An extension cannot start inside a run of digits and underscores. */
  lemma NotLonger(x: string, e: string, y: string, e': string)
    requires x + e == y + e' && (e == "" || e[0] == '.')
    requires forall i :: 0 <= i < |y| ==> IsDigit(y[i]) || y[i] == '_'
    ensures |y| <= |x|
  {
    var s := x + e;
    assert forall i :: 0 <= i < |y| ==> s[i] == y[i];
    assert e != "" ==> s[|x|] == '.';
  }

  lemma SuffixesSplit(x: string, e: string, y: string, e': string)
    requires x + e == y + e' && (e == "" || e[0] == '.') && (e' == "" || e'[0] == '.')
    requires forall i :: 0 <= i < |x| ==> IsDigit(x[i]) || x[i] == '_'
    requires forall i :: 0 <= i < |y| ==> IsDigit(y[i]) || y[i] == '_'
    ensures e == e'
  {
    NotLonger(x, e, y, e');
    NotLonger(y, e', x, e);
    assert (x + e)[|x|..] == e && (y + e')[|x|..] == e';
  }

  /** The parts of a live photo get different names although neither is claimed when the other is chosen. */
  lemma PartNamesDiffer(fold: CaseFold, base: string, e: string, e': string, i: nat, j: nat)
    requires IsExtension(e) && IsExtension(e') && Lower(fold, e) != Lower(fold, e')
    ensures Lower(fold, Candidate(base, e, i)) != Lower(fold, Candidate(base, e', j))
  {
    LowerCandidate(fold, base, e, i);
    LowerCandidate(fold, base, e', j);
    var b, x, y := Lower(fold, base), Suffix(i) + Lower(fold, e), Suffix(j) + Lower(fold, e');
    if b + x == b + y {
      DropPrefix(b, x, y);
      SuffixesSplit(Suffix(i), Lower(fold, e), Suffix(j), Lower(fold, e'));
    }
  }

  lemma SameLower(fold: CaseFold, base: string, e: string, e': string, k: nat)
    requires Lower(fold, e) == Lower(fold, e')
    ensures Lower(fold, Candidate(base, e, k)) == Lower(fold, Candidate(base, e', k))
  {
    LowerCandidate(fold, base, e, k);
    LowerCandidate(fold, base, e', k);
  }

  /** The first free name is one name. */
  lemma FirstFreeUnique(fold: CaseFold, taken: set<string>, base: string, e: string, e': string, i: nat, j: nat,
                        x: string, y: string)
    requires FirstFree(fold, taken, base, e, i, x) && FirstFree(fold, taken, base, e', j, y)
    requires Lower(fold, e) == Lower(fold, e')
    ensures i == j && Lower(fold, x) == Lower(fold, y) && (x == y <==> e == e')
  {
    SameLower(fold, base, e, e', i);
    SameLower(fold, base, e, e', j);
    assert !(i < j) && !(j < i);
    var stem := if i == 0 then base else base + "_" + Print(i);
    assert x == stem + e && y == stem + e';
    if x == y {
      DropPrefix(stem, e, e');
    }
  }

  /** What is known of the two names of a live photo's parts. */
  lemma PartNames(fold: CaseFold, taken: set<string>, base: string, e: string, e': string, i: nat, j: nat, x: string,
                  y: string)
    requires FirstFree(fold, taken, base, e, i, x) && FirstFree(fold, taken, base, e', j, y)
    requires IsExtension(e) && IsExtension(e')
    ensures x == y <==> e == e'
    ensures Lower(fold, x) == Lower(fold, y) <==> Lower(fold, e) == Lower(fold, e')
  {
    if Lower(fold, e) == Lower(fold, e') {
      FirstFreeUnique(fold, taken, base, e, e', i, j, x, y);
    } else {
      PartNamesDiffer(fold, base, e, e', i, j);
    }
  }

  // ---- names that are folders ----

  /** In an album folder these names stand for a folder: itself, its parent, the metadata folder. */
  predicate IsFolderName(name: string) {
    name in ["", ".", "..", "/", ".meta"]
  }

  /** The first free name for base and extension is a folder's, and a move to it fails. */
  predicate MoveFails(fold: CaseFold, taken: set<string>, base: string, ext: string) {
    IsFolderName(base + ext) && Lower(fold, base + ext) !in taken
  }

  lemma FreeFolderName(fold: CaseFold, taken: set<string>, base: string, ext: string, k: nat, name: string)
    requires FirstFree(fold, taken, base, ext, k, name)
    ensures IsFolderName(name) <==> MoveFails(fold, taken, base, ext)
  {
    if k > 0 {
      assert Lower(fold, Candidate(base, ext, 0)) in taken;
      assert name[|base|] == '_';
    }
  }

  // ---- one entry ----

  /** removeDiskFile: metadata file first, then the listed files, then the index. */
  method RemoveDiskFile(info: AlbumDiskInfo, d: Folder, m: DiskMeta) returns (d': Folder, ok: bool)
    requires WellFormed(info.fold, d) && Agrees(info.fold, info.Value(), d)
    requires HasRecord(d, m.metaFileName) && d.meta[m.metaFileName].value == m.record
    modifies info
    ensures ok && d' == FolderRemoved(d, m)
    ensures WellFormed(info.fold, d') && Agrees(info.fold, info.Value(), d')
    ensures info.Value() == IndexRemoved(info.fold, old(info.Value()), m)
  {
    d' := Folder(d.files, d.meta - {m.metaFileName});
    for i := 0 to |m.record.fileNames|
      invariant d' == Folder(d.files - (set n | n in m.record.fileNames[..i]), d.meta - {m.metaFileName})
    {
      d' := d'.(files := d'.files - {m.record.fileNames[i]});
      assert m.record.fileNames[..i + 1] == m.record.fileNames[..i] + [m.record.fileNames[i]];
    }
    assert m.record.fileNames[..|m.record.fileNames|] == m.record.fileNames;
    RemoveKeepsWellFormed(info.fold, d, m);
    RemoveKeepsAgreement(info.fold, info.Value(), d, m);
    ok := info.RemoveEntry(m);
  }

  function ContentOf(file: RemoteFile): Content {
    Content(file.id, file.row)
  }

  /** A file moved to a name in the folder. */
  function Moved(d: Folder, name: string, file: RemoteFile): Folder {
    d.(files := d.files[name := ContentOf(file)])
  }

  /** All names hold the file, everything else is as before. */
  function MovedAll(d: Folder, names: seq<string>, file: RemoteFile): Folder {
    d.(files := d.files + (map n | n in names :: ContentOf(file)))
  }

  ghost predicate FreshNames(fold: CaseFold, taken: set<string>, names: seq<string>) {
    DistinctNames(fold, names) && LowerAll(fold, names) !! taken
  }

  /** A record's list of files takes a name only once. */
  function AddFileName(names: seq<string>, name: string): seq<string> {
    if name in names then names else names + [name]
  }

  lemma OneName(fold: CaseFold, taken: set<string>, d: Folder, name: string, file: RemoteFile)
    ensures AddFileName([], name) == [name]
    ensures MovedAll(d, [name], file) == Moved(d, name, file)
    ensures Lower(fold, name) !in taken ==> FreshNames(fold, taken, [name])
  {}

  lemma TwoMoves(d: Folder, x: string, y: string, file: RemoteFile)
    ensures MovedAll(d, [x, y], file) == Moved(Moved(d, x, file), y, file)
  {}

  lemma TwoNames(fold: CaseFold, taken: set<string>, x: string, y: string)
    requires Lower(fold, x) !in taken && Lower(fold, y) !in taken
    ensures FreshNames(fold, taken, [x, y]) <==> Lower(fold, x) != Lower(fold, y)
  {
    var names := [x, y];
    assert names[0] == x && names[1] == y;
  }

  /** The names a file's parts get: one under the title's extension, or one for each part under the part's own. */
  ghost predicate NamedFor(fold: CaseFold, taken: set<string>, file: RemoteFile, unpacked: Unpacked,
                           names: seq<string>) {
    if !file.live then |names| == 1 && IsFirstFree(fold, taken, file.base, file.ext, names[0])
    else unpacked.Parts? && NamedParts(fold, taken, file.base, unpacked.image, unpacked.video, names)
  }

  /** Parts with the same extension share a name, and the second one is what it holds. */
  ghost predicate NamedParts(fold: CaseFold, taken: set<string>, base: string, image: Option<string>,
                             video: Option<string>, names: seq<string>) {
    && (image.Some? || video.Some?) && |names| == (if image.Some? && video.Some? && image != video then 2 else 1)
    && (image.Some? ==> IsFirstFree(fold, taken, base, image.value, names[0]))
    && (video.Some? ==> IsFirstFree(fold, taken, base, video.value, names[|names| - 1]))
  }

  /** A live photo's image or video has a folder's name, so the move of it fails. */
  predicate PartFails(fold: CaseFold, taken: set<string>, base: string, part: Option<string>) {
    part.Some? && MoveFails(fold, taken, base, part.value)
  }

  /** One part is moved to the first free name under its extension, unless that is a folder's. */
  method PlacePart(info: AlbumDiskInfo, d: Folder, file: RemoteFile, ext: string)
    returns (ok: bool, d': Folder, name: string, ghost k: nat)
    ensures FirstFree(info.fold, info.fileNames, file.base, ext, k, name)
    ensures ok <==> !MoveFails(info.fold, info.fileNames, file.base, ext)
    ensures d' == if ok then Moved(d, name, file) else d
  {
    name, k := info.GenerateUniqueFileName(file.base, ext);
    FreeFolderName(info.fold, info.fileNames, file.base, ext, k, name);
    ok := !IsFolderName(name);
    d' := if ok then Moved(d, name, file) else d;
  }

  /**
   A live photo's parts are moved to names generated one after the other. The first failing
   move ends this; when all succeed the names clash iff the extensions do.
   */
  method PlaceLiveParts(info: AlbumDiskInfo, d: Folder, file: RemoteFile, image: Option<string>, video: Option<string>)
    returns (ok: bool, d': Folder, names: seq<string>)
    requires PartsOk(Decrypted(Parts(image, video))) && (image.Some? || video.Some?)
    ensures d' == MovedAll(d, names, file)
    ensures var taken := info.fileNames;
            ok <==> !PartFails(info.fold, taken, file.base, image) && !PartFails(info.fold, taken, file.base, video)
    ensures ok ==> NamedParts(info.fold, info.fileNames, file.base, image, video, names)
    ensures ok ==> (FreshNames(info.fold, info.fileNames, names) <==> !CaseClash(info.fold, image, video))
    ensures !ok ==> FreshNames(info.fold, info.fileNames, names)
                    && (names == [] <==> image.None? || PartFails(info.fold, info.fileNames, file.base, image))
  {
    ok, names, d' := true, [], d;
    ghost var i: nat, j: nat, imageName := 0, 0, "";
    if image.Some? {
      var name;
      ok, d', name, i := PlacePart(info, d, file, image.value);
      if !ok {
        return;
      }
      names, imageName := AddFileName(names, name), name;
      OneName(info.fold, info.fileNames, d, name, file);
    }
    if video.Some? {
      var name;
      ok, d', name, j := PlacePart(info, d', file, video.value);
      if !ok {
        return;
      }
      if image.Some? {
        BothParts(info.fold, info.fileNames, d, file, image.value, video.value, imageName, i, name, j);
      } else {
        OneName(info.fold, info.fileNames, d, name, file);
      }
      names := AddFileName(names, name);
    }
  }

  /** The second part's name joins the first one's, if the names differ. */
  lemma BothParts(fold: CaseFold, taken: set<string>, d: Folder, file: RemoteFile, e: string, e': string,
                  x: string, i: nat, y: string, j: nat)
    requires IsExtension(e) && FirstFree(fold, taken, file.base, e, i, x)
    requires IsExtension(e') && FirstFree(fold, taken, file.base, e', j, y)
    ensures
      var both := AddFileName([x], y);
      && MovedAll(d, both, file) == Moved(Moved(d, x, file), y, file)
      && NamedParts(fold, taken, file.base, Some(e), Some(e'), both)
      && (FreshNames(fold, taken, both) <==> !CaseClash(fold, Some(e), Some(e')))
  {
    assert AddFileName([x], y) == if x == y then [x] else [x, y];
    PartNames(fold, taken, file.base, e, e', i, j, x, y);
    TwoMoves(d, x, y, file);
    OneName(fold, taken, d, x, file);
    TwoNames(fold, taken, x, y);
  }

  function UnpackOutcome(file: RemoteFile, unpacked: Unpacked): Outcome {
    if !file.live then Done
    else match unpacked
      case NotAZip => ZipFormatError
      case UnexpectedPart => HardError
      case Parts(image, video) => if image.None? && video.None? then LiveZipError else Done
  }

  /** The names of the parts are refused by the index. */
  predicate PartsClash(fold: CaseFold, file: RemoteFile, unpacked: Unpacked) {
    file.live && unpacked.Parts? && CaseClash(fold, unpacked.image, unpacked.video)
  }

  /** The file, or a part of it, has a folder's name. */
  predicate AnyMoveFails(fold: CaseFold, taken: set<string>, file: RemoteFile, unpacked: Unpacked) {
    if !file.live then MoveFails(fold, taken, file.base, file.ext)
    else
      && unpacked.Parts?
      && (PartFails(fold, taken, file.base, unpacked.image) || PartFails(fold, taken, file.base, unpacked.video))
  }

  /** The first move succeeds. */
  predicate FirstMoves(fold: CaseFold, taken: set<string>, file: RemoteFile, unpacked: Unpacked) {
    && UnpackOutcome(file, unpacked) == Done
    && if !file.live then !MoveFails(fold, taken, file.base, file.ext)
       else !PartFails(fold, taken, file.base, if unpacked.image.Some? then unpacked.image else unpacked.video)
  }

  function PlaceOutcome(fold: CaseFold, taken: set<string>, file: RemoteFile, unpacked: Unpacked): Outcome {
    if UnpackOutcome(file, unpacked) != Done then UnpackOutcome(file, unpacked)
    else if AnyMoveFails(fold, taken, file, unpacked) then HardError
    else Done
  }

  /** The parts of a live photo, or the one file, are moved to generated names. */
  method PlaceParts(info: AlbumDiskInfo, d: Folder, file: RemoteFile, unpacked: Unpacked)
    returns (out: Outcome, d': Folder, names: seq<string>)
    requires PartsOk(Decrypted(unpacked))
    ensures out == PlaceOutcome(info.fold, info.fileNames, file, unpacked)
    ensures d' == MovedAll(d, names, file) && (names == [] <==> !FirstMoves(info.fold, info.fileNames, file, unpacked))
    ensures out == Done ==> (FreshNames(info.fold, info.fileNames, names) <==> !PartsClash(info.fold, file, unpacked))
    ensures out == Done ==> NamedFor(info.fold, info.fileNames, file, unpacked, names)
    ensures out != Done ==> FreshNames(info.fold, info.fileNames, names)
  {
    names, d' := [], d;
    if !file.live {
      var ok, name;
      ghost var k;
      ok, d', name, k := PlacePart(info, d, file, file.ext);
      if !ok {
        return HardError, d, [];
      }
      OneName(info.fold, info.fileNames, d, name, file);
      return Done, d', [name];
    }
    match unpacked {
      case NotAZip => out := ZipFormatError;
      case UnexpectedPart => out := HardError;
      case Parts(image, video) =>
        if image.None? && video.None? {
          return LiveZipError, d, [];
        }
        var ok;
        ok, d', names := PlaceLiveParts(info, d, file, image, video);
        out := if ok then Done else HardError;
    }
  }

  /** How storing a file ends where these names are taken. */
  function OutcomeAmong(fold: CaseFold, taken: set<string>, file: RemoteFile, got: Download): Outcome {
    match got
    case NetworkFailed => HardError
    case DecryptionFailed => DecryptionError
    case Decrypted(u) =>
      if PlaceOutcome(fold, taken, file, u) != Done then PlaceOutcome(fold, taken, file, u)
      else if PartsClash(fold, file, u) then HardError
      else if file.timestampOk then Done else BadTimestampError
  }

  /** The download gives something to store: the decrypted file, and of a live photo an image or a video. */
  predicate Yields(file: RemoteFile, got: Download) {
    && got.Decrypted?
    && (file.live ==> got.unpacked.Parts? && (got.unpacked.image.Some? || got.unpacked.video.Some?))
  }

  /** The download ends the run: the network failed, or a live photo has a part nobody expects. */
  predicate EndsRun(file: RemoteFile, got: Download) {
    got.NetworkFailed? || (got.Decrypted? && file.live && got.unpacked.UnexpectedPart?)
  }

  /** How a file's turn ends, by what its download gave, where the parts can be moved and claimed or not. */
  ghost predicate OutcomeFits(file: RemoteFile, got: Download, storable: bool, out: Outcome) {
    match got
    case NetworkFailed => out == HardError
    case DecryptionFailed => out == DecryptionError
    case Decrypted(u) =>
      if file.live && u.NotAZip? then out == ZipFormatError
      else if file.live && u.UnexpectedPart? then out == HardError
      else if file.live && u.image.None? && u.video.None? then out == LiveZipError
      else out == if !storable then HardError else if file.timestampOk then Done else BadTimestampError
  }

  /** The moves succeed, and the index takes the names. */
  predicate Storable(fold: CaseFold, taken: set<string>, file: RemoteFile, got: Download) {
    got.Decrypted? ==> !AnyMoveFails(fold, taken, file, got.unpacked) && !PartsClash(fold, file, got.unpacked)
  }

  lemma OutcomeByDownload(fold: CaseFold, taken: set<string>, file: RemoteFile, got: Download)
    ensures OutcomeFits(file, got, Storable(fold, taken, file, got), OutcomeAmong(fold, taken, file, got))
  {}

  /** Something is moved into the folder. */
  predicate Moves(fold: CaseFold, taken: set<string>, file: RemoteFile, got: Download) {
    got.Decrypted? && FirstMoves(fold, taken, file, got.unpacked)
  }

  /** The record is written where it is read back: the one case of a moved file that leaves the index right. */
  predicate Recorded(fold: CaseFold, ix: Index, file: RemoteFile, got: Download) {
    OutcomeAmong(fold, ix.fileNames, file, got) == Done && !Clobbers(fold, ix.metaFiles.Keys, file)
  }

  /** No name that comes up is a folder's. */
  predicate NoFolderName(file: RemoteFile, got: Download) {
    && (!file.live ==> !IsFolderName(file.base + file.ext))
    && (file.live && got.Decrypted? && got.unpacked.Parts? ==>
          && (got.unpacked.image.Some? ==> !IsFolderName(file.base + got.unpacked.image.value))
          && (got.unpacked.video.Some? ==> !IsFolderName(file.base + got.unpacked.video.value)))
  }

  /** Then the outcome does not depend on the names taken. */
  lemma OutcomeAnywhere(fold: CaseFold, taken: set<string>, file: RemoteFile, got: Download)
    requires NoFolderName(file, got)
    ensures OutcomeAmong(fold, taken, file, got) == OutcomeAmong(fold, {}, file, got)
  {}

  /**
   The failing family: a photo titled .meta, or with no name at all, is never stored while no file
   is named like that.
   */
  lemma FolderTitleNeverStored(fold: CaseFold, taken: set<string>, file: RemoteFile, got: Download)
    requires !file.live && file.base + file.ext in {"", ".", "..", "/", ".meta"}
    requires Lower(fold, file.base + file.ext) !in taken
    ensures OutcomeAmong(fold, taken, file, got) in {HardError, DecryptionError} && !Moves(fold, taken, file, got)
    ensures got.Decrypted? ==> OutcomeAmong(fold, taken, file, got) == HardError
  {}

  /**
   What storing a file amounts to when no error comes up: a record with the generated names, and the
   files under them.
   */
  ghost predicate StoredAs(fold: CaseFold, ix: Index, d: Folder, d': Folder, m: DiskMeta, file: RemoteFile,
                           unpacked: Unpacked) {
    && m.record.id == file.id && m.record.row == file.row && m.record.title == file.title && m.record.fileNames != []
    && IsFirstFree(fold, ix.metaFiles.Keys, file.base, file.ext + ".json", m.metaFileName)
    && NamedFor(fold, ix.fileNames, file, unpacked, m.record.fileNames)
    && Addable(fold, ix, m) && d' == FolderAdded(d, m)
  }

  ghost predicate NoRecordOf(d: Folder, id: FileId) {
    !exists n :: HasRecord(d, n) && d.meta[n].value.id == id
  }

  /** Index and folder part: the index has the id and the folder no record of it, or a file is not claimed. */
  ghost predicate Parted(fold: CaseFold, ix: Index, d: Folder, id: FileId) {
    (id in ix.byId && NoRecordOf(d, id)) || exists n :: n in d.files && Lower(fold, n) !in ix.fileNames
  }

  /** The part of downloadEntry from the download to the metadata file. */
  method StoreFile(info: AlbumDiskInfo, d: Folder, file: RemoteFile, got: Download)
    returns (out: Outcome, d': Folder, ghost m: DiskMeta)
    requires WellFormed(info.fold, d) && Agrees(info.fold, info.Value(), d) && file.id !in info.byId && PartsOk(got)
    modifies info
    ensures out == OutcomeAmong(info.fold, old(info.fileNames), file, got)
    ensures out == Done ==> StoredAs(info.fold, old(info.Value()), d, d', m, file, got.unpacked)
                            && info.Value() == IndexAdded(info.fold, old(info.Value()), m)
                            && (IsIndexed(m.metaFileName) <==> !Clobbers(info.fold, old(info.metaFiles).Keys, file))
    ensures Moves(info.fold, old(info.fileNames), file, got) && !Recorded(info.fold, old(info.Value()), file, got) ==>
              Parted(info.fold, info.Value(), d', file.id)
    ensures !Moves(info.fold, old(info.fileNames), file, got) ==> d' == d && info.Value() == old(info.Value())
  {
    d', m := d, DiskMeta(Record(file.id, file.row, file.title, []), "");
    if got.NetworkFailed? {
      return HardError, d', m;
    }
    if got.DecryptionFailed? {
      return DecryptionError, d', m;
    }
    var metaName, k := info.GenerateUniqueMetaFileName(file.base, file.ext);
    GeneratedIsIndexed(info.fold, info.metaFiles.Keys, file, k, metaName);
    var names;
    out, d', names := PlaceParts(info, d, file, got.unpacked);
    if out != Done {
      UnclaimedParts(info.fold, info.Value(), d, names, file);
      return;
    }
    var record := Record(file.id, file.row, file.title, names);
    m := DiskMeta(record, metaName);
    var ok, claimed := info.AddEntry(DiskMeta(record, metaName));
    NoNewRecord(info.fold, old(info.Value()), d, d', metaName, file.id);
    if !ok {
      return HardError, d', m;
    }
    // without an encodable time the file is created, but stays empty
    out := if file.timestampOk then Done else BadTimestampError;
    d' := d'.(meta := d'.meta[metaName := if file.timestampOk then Some(record) else None]);
    NoNewRecord(info.fold, old(info.Value()), d, d', metaName, file.id);
  }

  /** A part that was moved before a move failed is not claimed. */
  lemma UnclaimedParts(fold: CaseFold, ix: Index, d: Folder, names: seq<string>, file: RemoteFile)
    requires FreshNames(fold, ix.fileNames, names)
    ensures names == [] ==> MovedAll(d, names, file) == d
    ensures names != [] ==> Parted(fold, ix, MovedAll(d, names, file), file.id)
  {
    if names != [] {
      assert names[0] in names && names[0] in MovedAll(d, names, file).files;
    }
  }

  /** A metadata file that is no record, or is not read, adds none. */
  lemma NoNewRecord(fold: CaseFold, ix: Index, d: Folder, d': Folder, metaName: string, id: FileId)
    requires Agrees(fold, ix, d) && id !in ix.byId
    requires d'.meta == d.meta || (metaName in d'.meta && d'.meta == d.meta[metaName := d'.meta[metaName]])
    ensures d'.meta == d.meta || d'.meta[metaName].None? || !IsIndexed(metaName) ==> NoRecordOf(d', id)
  {
    if d'.meta == d.meta || d'.meta[metaName].None? || !IsIndexed(metaName) {
      forall n | HasRecord(d', n) ensures d'.meta[n].value.id != id {
        assert HasRecord(d, n);
      }
    }
  }

  /** The folder, and its index, without a file's record and the files it lists. */
  function FolderWithout(d: Folder, ix: Index, id: FileId): Folder {
    if id in ix.byId then FolderRemoved(d, ix.byId[id]) else d
  }

  function IndexWithout(fold: CaseFold, ix: Index, id: FileId): Index {
    if id in ix.byId then IndexRemoved(fold, ix, ix.byId[id]) else ix
  }

  lemma IndexedRecord(fold: CaseFold, ix: Index, d: Folder, id: FileId)
    requires Agrees(fold, ix, d) && id in ix.byId
    ensures var m := ix.byId[id];
            HasRecord(d, m.metaFileName) && d.meta[m.metaFileName].value == m.record && m.record.id == id
  {
    var n :| HasRecord(d, n) && d.meta[n].value.id == id;
  }

  /** A present record goes first, whatever follows. */
  method RemoveIfPresent(info: AlbumDiskInfo, d: Folder, id: FileId) returns (d': Folder)
    requires WellFormed(info.fold, d) && Agrees(info.fold, info.Value(), d)
    modifies info
    ensures d' == FolderWithout(d, old(info.Value()), id)
    ensures info.Value() == IndexWithout(info.fold, old(info.Value()), id)
    ensures WellFormed(info.fold, d') && Agrees(info.fold, info.Value(), d') && id !in info.byId
    ensures Records(d') == Records(d) - {id} && OthersKept(d, d', id)
    ensures ContentRight(d) ==> ContentRight(d')
  {
    d' := d;
    IndexedIds(info.fold, info.Value(), d);
    if id in info.byId {
      var m := info.byId[id];
      IndexedRecord(info.fold, info.Value(), d, id);
      RemoveKeepsOthers(d, m);
      if ContentRight(d) {
        RemoveKeepsContent(d, m);
      }
      var ok;
      d', ok := RemoveDiskFile(info, d, m);
    }
  }

  lemma Disagrees(fold: CaseFold, ix: Index, d: Folder, id: FileId)
    requires Parted(fold, ix, d, id)
    ensures !Agrees(fold, ix, d)
  {}

  /**
   What a turn keeps of a folder that was in order: it still is, and other files' records and
   contents are as before.
   */
  ghost predicate InOrder(fold: CaseFold, d: Folder, d': Folder, id: FileId) {
    WellFormed(fold, d') && OthersKept(d, d', id) && (ContentRight(d) ==> ContentRight(d'))
  }

  /** A record is added to a folder that was in order. */
  lemma AddedInOrder(fold: CaseFold, ix: Index, d0: Folder, d: Folder, m: DiskMeta)
    requires InOrder(fold, d0, d, m.record.id) && Agrees(fold, ix, d)
    requires Addable(fold, ix, m) && IsIndexed(m.metaFileName) && m.record.fileNames != []
    ensures InOrder(fold, d0, FolderAdded(d, m), m.record.id)
    ensures Agrees(fold, IndexAdded(fold, ix, m), FolderAdded(d, m))
  {
    AddKeepsWellFormed(fold, ix, d, m);
    AddKeepsAgreement(fold, ix, d, m);
    AddKeepsOthers(fold, ix, d, m);
    OthersKeptTransitive(d0, d, FolderAdded(d, m), m.record.id);
    if ContentRight(d0) {
      AddKeepsContent(fold, ix, d, m);
    }
  }

  lemma AddedRecord(fold: CaseFold, ix: Index, d0: Folder, d: Folder, m: DiskMeta)
    requires WellFormed(fold, d) && Agrees(fold, ix, d) && Addable(fold, ix, m) && IsIndexed(m.metaFileName)
    requires Records(d) == Records(d0) - {m.record.id}
    ensures Records(FolderAdded(d, m)) == Records(d0)[m.record.id := m.record.row]
  {
    AddedIdsDistinct(fold, ix, d, m);
    RemoveThenPut(Records(d0), m.record.id, m.record.row);
  }

  lemma RemoveThenPut(rows: map<int, FileRow>, id: int, row: FileRow)
    ensures (rows - {id})[id := row] == rows[id := row]
  {}

  /** The outcome leaves folder and index right: nothing was moved, or the record was written where it is read. */
  predicate LeavesRight(fold: CaseFold, ix: Index, removed: bool, file: RemoteFile, got: Download) {
    removed || !Moves(fold, ix.fileNames, file, got) || Recorded(fold, ix, file, got)
  }

  /** The records after a turn that leaves the index right. */
  ghost function RecordsAfter(d: Folder, removed: bool, file: RemoteFile, out: Outcome): map<int, FileRow> {
    if out == Done && !removed then Records(d)[file.id := file.row] else Records(d) - {file.id}
  }

  lemma NothingStored(fold: CaseFold, d0: Folder, d: Folder, file: RemoteFile, out: Outcome)
    requires Records(d) == Records(d0) - {file.id} && out != Done
    ensures Records(d) == RecordsAfter(d0, false, file, out)
  {}

  /** A file that has no record yet is stored, the folder having been `d0` before its old record went. */
  method StoreAnew(info: AlbumDiskInfo, ghost d0: Folder, d: Folder, file: RemoteFile, got: Download)
    returns (out: Outcome, d': Folder, ghost m: DiskMeta)
    requires WellFormed(info.fold, d) && Agrees(info.fold, info.Value(), d) && file.id !in info.byId && PartsOk(got)
    requires InOrder(info.fold, d0, d, file.id) && Records(d) == Records(d0) - {file.id}
    modifies info
    ensures out == OutcomeAmong(info.fold, old(info.fileNames), file, got)
    ensures !Moves(info.fold, old(info.fileNames), file, got) ==> d' == d
    ensures out == Done ==> StoredAs(info.fold, old(info.Value()), d, d', m, file, got.unpacked)
    ensures Agrees(info.fold, info.Value(), d') <==> LeavesRight(info.fold, old(info.Value()), false, file, got)
    ensures LeavesRight(info.fold, old(info.Value()), false, file, got) ==>
              InOrder(info.fold, d0, d', file.id) && Records(d') == RecordsAfter(d0, false, file, out)
  {
    ghost var ix := info.Value();
    out, d', m := StoreFile(info, d, file, got);
    if Recorded(info.fold, ix, file, got) {
      AddedInOrder(info.fold, ix, d0, d, m);
      AddedRecord(info.fold, ix, d0, d, m);
    } else if Moves(info.fold, ix.fileNames, file, got) {
      Disagrees(info.fold, info.Value(), d', file.id);
    } else {
      NothingStored(info.fold, d0, d, file, out);
    }
  }

  /**
   What downloadEntry does to folder and index: the old record and files go, and for a live
   entry new ones come. The index agrees with the folder exactly when nothing was moved
   or the record was written where it is read.
   */
  method UpdateFolder(info: AlbumDiskInfo, d: Folder, removed: bool, file: RemoteFile, got: Download)
    returns (out: Outcome, d': Folder, ghost m: DiskMeta)
    requires WellFormed(info.fold, d) && Agrees(info.fold, info.Value(), d) && PartsOk(got)
    modifies info
    ensures var ix := IndexWithout(info.fold, old(info.Value()), file.id);
            var right := LeavesRight(info.fold, ix, removed, file, got);
            && out == (if removed then Done else OutcomeAmong(info.fold, ix.fileNames, file, got))
            && (if removed then out == Done
                else OutcomeFits(file, got, Storable(info.fold, ix.fileNames, file, got), out))
            && (removed || !Moves(info.fold, ix.fileNames, file, got) ==>
                d' == FolderWithout(d, old(info.Value()), file.id))
            && (out == Done && !removed ==>
                  StoredAs(info.fold, ix, FolderWithout(d, old(info.Value()), file.id), d', m, file, got.unpacked))
            && (Agrees(info.fold, info.Value(), d') <==> right)
            && (right ==> InOrder(info.fold, d, d', file.id) && Records(d') == RecordsAfter(d, removed, file, out))
  {
    d' := RemoveIfPresent(info, d, file.id);
    m := DiskMeta(Record(0, file.row, "", []), "");
    if removed {
      return Done, d', m;
    }
    OutcomeByDownload(info.fold, info.fileNames, file, got);
    out, d', m := StoreAnew(info, d, d', file, got);
  }
}
