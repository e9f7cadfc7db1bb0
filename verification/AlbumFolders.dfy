/**
 The album folders of an export directory: which folder belongs to which album, and
 how folders are made, renamed and removed to follow the albums.
 */
module AlbumFolders {
  import opened Decimal
  import opened Disk
  import opened Folder
  import CollectionList

  type AlbumId = CollectionList.AlbumId

  datatype Album = Album(id: AlbumId, name: string, isDeleted: bool)

  /** What the metadata file of a folder holds, the folder's name excepted. */
  datatype AlbumMeta = AlbumMeta(id: AlbumId, name: string)

  /** A directory: its album metadata if there is any to read, and its content. */
  datatype Dir = Dir(meta: Option<AlbumMeta>, content: Folder)

  type Root = map<string, Dir>

  /** Album metadata with the folder it was read from or written to. */
  datatype Placed = Placed(albumName: string, folderName: string)

  /** The library functions on paths and strings. */
  datatype Library = Library(clean: string -> string, trim: string -> string, equalFold: (string, string) -> bool)

  ghost predicate LibraryOk(lib: Library) {
    && (forall s :: lib.equalFold(s, s))
    && (forall s, c :: c in lib.trim(s) ==> c in s)
  }

  function ReplaceAll(s: string, c: char, d: char): (r: string)
    ensures |r| == |s|
    ensures forall i :: 0 <= i < |s| ==> r[i] == if s[i] == c then d else s[i]
  {
    seq(|s|, i requires 0 <= i < |s| => if s[i] == c then d else s[i])
  }

  /** The folder name of an album: cleaned, colons and slashes replaced, trimmed. */
  function Sanitize(lib: Library, name: string): string {
    lib.trim(ReplaceAll(ReplaceAll(lib.clean(name), ':', '_'), '/', '_'))
  }

  /** One character of a cleaned name as it comes to the folder name. */
  predicate Replaces(c: char, d: char) {
    if c == ':' || c == '/' then d == '_' else d == c
  }

  /** The folder name is the trimmed form of the cleaned name with exactly its colons and slashes replaced. */
  lemma SanitizeExactly(lib: Library, name: string, r: string)
    requires |r| == |lib.clean(name)| && forall i :: 0 <= i < |r| ==> Replaces(lib.clean(name)[i], r[i])
    ensures Sanitize(lib, name) == lib.trim(r)
  {
    var c := lib.clean(name);
    var r' := ReplaceAll(ReplaceAll(c, ':', '_'), '/', '_');
    forall i | 0 <= i < |r| ensures r'[i] == r[i] {
      assert Replaces(c[i], r[i]);
    }
    assert r' == r;
  }

  /** A name the library leaves as it is, without separators, that is a plain folder name. */
  predicate Ordinary(lib: Library, n: string) {
    && IsPlain(n) && n != ".meta"
    && lib.clean(n) == n && lib.trim(n) == n && ':' !in n && '/' !in n
  }

  /** An ordinary name is its own folder name. */
  lemma OrdinaryIsKept(lib: Library, n: string)
    requires lib.clean(n) == n && lib.trim(n) == n && ':' !in n && '/' !in n
    ensures Sanitize(lib, n) == n
  {
    forall i | 0 <= i < |n| ensures Replaces(n[i], n[i]) {
      assert n[i] in n;
    }
    SanitizeExactly(lib, n, n);
  }

  /** A sanitised name has no separator in it. */
  lemma SanitizeHasNoSeparator(lib: Library, name: string)
    requires LibraryOk(lib)
    ensures ':' !in Sanitize(lib, name) && '/' !in Sanitize(lib, name)
  {
    var r := ReplaceAll(ReplaceAll(lib.clean(name), ':', '_'), '/', '_');
    forall c | c in lib.trim(r) ensures c != ':' && c != '/' {
      assert c in r;
    }
  }

  /** No name chosen for an album leads out of the directory. */
  lemma ChosenHasNoSeparator(lib: Library, name: string, k: nat)
    requires LibraryOk(lib)
    ensures ':' !in Candidate(Sanitize(lib, name), "", k) && '/' !in Candidate(Sanitize(lib, name), "", k)
  {
    SanitizeHasNoSeparator(lib, name);
    var n := Candidate(Sanitize(lib, name), "", k);
    assert n == Sanitize(lib, name) + Suffix(k);
    forall c | c in n ensures c != ':' && c != '/' {
      assert c in Sanitize(lib, name) || c in Suffix(k);
    }
  }

  /** A name that stands for a folder of its own rather than for the root or its parent. */
  predicate IsPlain(name: string) {
    name != "" && name != "." && name != ".."
  }

  /** A live album whose name makes no plain folder name. */
  predicate Unplain(lib: Library, album: Album) {
    !album.isDeleted && !IsPlain(Sanitize(lib, album.name))
  }

  lemma NumberedIsPlain(name: string, k: nat)
    requires k > 0
    ensures IsPlain(Candidate(name, "", k))
  {
    assert Candidate(name, "", k)[|name|] == '_';
  }

  // ---- the directory and its two maps ----

  ghost predicate Holds(root: Root, n: string, id: AlbumId) {
    n in root && root[n].meta.Some? && root[n].meta.value.id == id
  }

  ghost predicate IdsUnique(root: Root) {
    forall n, n', id :: Holds(root, n, id) && Holds(root, n', id) ==> n == n'
  }

  ghost predicate HasFolder(root: Root, id: AlbumId) {
    exists n :: Holds(root, n, id)
  }

  /** The maps tell the truth: every folder is claimed, and the album map is exactly the folders' metadata. */
  ghost predicate Tracks(root: Root, claimed: set<string>, byId: map<AlbumId, Placed>) {
    && root.Keys <= claimed
    && (forall id :: id in byId ==> Holds(root, byId[id].folderName, id)
                                    && root[byId[id].folderName].meta.value.name == byId[id].albumName)
    && (forall n, id :: Holds(root, n, id) ==> id in byId && byId[id].folderName == n)
  }

  /** Tracked albums never share a folder, and every recorded folder is a claimed name. */
  lemma FoldersNeverCollide(root: Root, claimed: set<string>, byId: map<AlbumId, Placed>, a: AlbumId, b: AlbumId)
    requires Tracks(root, claimed, byId) && a in byId && b in byId
    ensures byId[a].folderName == byId[b].folderName <==> a == b
    ensures byId[a].folderName in claimed
    ensures IdsUnique(root)
  {
    assert Holds(root, byId[a].folderName, a) && Holds(root, byId[b].folderName, b);
  }

  // ---- what a run leaves alone ----

  /** Folders without readable album metadata stay as they are. */
  ghost predicate StrangersKept(root: Root, root': Root) {
    forall n :: n in root && root[n].meta.None? ==> n in root' && root'[n] == root[n]
  }

  /** A folder that moves takes its content along. */
  ghost predicate ContentKept(root: Root, root': Root) {
    forall n, n', id :: Holds(root, n, id) && Holds(root', n', id) ==> root'[n'].content == root[n].content
  }

  /** The album is as the run wants it: gone when deleted, else in a folder under an equal name. */
  ghost predicate InPlace(lib: Library, root: Root, album: Album) {
    if album.isDeleted then !HasFolder(root, album.id)
    else exists n :: Holds(root, n, album.id) && lib.equalFold(root[n].meta.value.name, album.name)
  }

  /** Without a plain name an album can be left with no folder. */
  ghost predicate PlacedOrUnplain(lib: Library, root: Root, album: Album) {
    InPlace(lib, root, album) || (Unplain(lib, album) && !HasFolder(root, album.id))
  }

  /** One album's turn: only its own folder may come, go or move. */
  ghost predicate OnlyAlbum(root: Root, root': Root, id: AlbumId) {
    && (forall n, b :: b != id ==> (Holds(root, n, b) <==> Holds(root', n, b)))
    && (forall n, b :: b != id && Holds(root, n, b) ==> root'[n] == root[n])
    && StrangersKept(root, root')
    && (forall n, n' :: Holds(root, n, id) && Holds(root', n', id) ==> root'[n'].content == root[n].content)
    && (forall n' :: Holds(root', n', id) && !HasFolder(root, id) ==> root'[n'].content == EmptyFolder())
  }

  /** A folder that is new is made empty. */
  ghost predicate FreshEmpty(root: Root, root': Root) {
    forall n, id :: Holds(root', n, id) && !HasFolder(root, id) ==> root'[n].content == EmptyFolder()
  }

  /** A folder that is made has a name of its own inside the directory. */
  ghost predicate NewNamesSafe(root: Root, root': Root) {
    forall n :: n in root' && n !in root ==> n != "" && n != "." && n != ".." && '/' !in n && ':' !in n
  }

  /** The album is under candidate k of its sanitised name, and its metadata has the album's name. */
  ghost predicate NamedAt(lib: Library, root: Root, album: Album, k: nat) {
    var n := Candidate(Sanitize(lib, album.name), "", k);
    Holds(root, n, album.id) && root[n].meta.value.name == album.name
  }

  /** A live album that was in place is not touched, any other is named after itself. */
  ghost predicate NameFollows(lib: Library, root: Root, root': Root, album: Album) {
    album.isDeleted ||
    if InPlace(lib, root, album) then forall n :: Holds(root, n, album.id) ==>
        Holds(root', n, album.id) && root'[n] == root[n]
    else (exists k :: NamedAt(lib, root', album, k)) || (Unplain(lib, album) && !HasFolder(root', album.id))
  }

  /**
   An album that was not in place and has an ordinary name gets that very name, unless a folder had it
   at the start or an album before it has it now.
   */
  ghost predicate GetsOwnName(lib: Library, root0: Root, root: Root, albums: seq<Album>, j: nat)
    requires j < |albums|
  {
    var n := albums[j].name;
    !albums[j].isDeleted && !InPlace(lib, root0, albums[j]) && Ordinary(lib, n) ==>
      Holds(root, n, albums[j].id) || n in root0 || exists i :: 0 <= i < j && Holds(root, n, albums[i].id)
  }

  /**
   A claimed name was a folder's at the start, or is that of one of the first i albums, or none of
   theirs can be it.
   */
  ghost predicate ClaimedBy(root0: Root, root: Root, claimed: set<string>, albums: seq<Album>, i: nat)
    requires i <= |albums|
  {
    forall n :: n in claimed ==>
      n in root0 || !IsPlain(n) || n == ".meta" || exists j :: 0 <= j < i && Holds(root, n, albums[j].id)
  }

  // ---- names ----

  function Identity(c: char): char {
    c
  }

  lemma LowerIdentity(s: string)
    ensures Folds(Identity) && Lower(Identity, s) == s
  {}

  /** The first unclaimed name among name, name_1, name_2, ... The search always ends. */
  method FreshFolderName(name: string, claimed: set<string>) returns (chosen: string, ghost k: nat)
    ensures chosen == Candidate(name, "", k) && chosen !in claimed
    ensures chosen == if k == 0 then name else name + "_" + Print(k)
    ensures forall j :: 0 <= j < k ==> Candidate(name, "", j) in claimed
  {
    chosen, k := name, 0;
    assert name + "" == name;
    if name in claimed {
      var i := 1;
      k := 1;
      while true
        invariant i == k >= 1
        invariant forall j :: 0 <= j < k ==> Candidate(name, "", j) in claimed
        decreases |claimed| + 1 - k
      {
        CandidatesTaken(name, claimed, k);
        var newName := name + "_" + Print(i);
        assert newName + "" == newName;
        if newName !in claimed {
          chosen := newName;
          break;
        }
        i, k := i + 1, k + 1;
      }
    }
  }

  lemma CandidatesTaken(name: string, claimed: set<string>, k: nat)
    requires forall j :: 0 <= j < k ==> Candidate(name, "", j) in claimed
    ensures k <= |claimed|
  {
    LowerIdentity("");
    forall j | 0 <= j < k ensures Lower(Identity, Candidate(name, "", j)) in claimed {
      LowerIdentity(Candidate(name, "", j));
    }
    TakenCandidates(Identity, claimed, name, "", k);
  }

  // ---- reading and driving the directory ----

  /** readFolderMetadata: every directory is claimed, and those with album metadata are entered by album id. */
  method ReadFolderMetadata(root: Root, listing: seq<string>) returns (claimed: set<string>, byId: map<AlbumId, Placed>)
    requires IdsUnique(root) && ListingOf(listing, root)
    ensures Tracks(root, claimed, byId) && claimed == root.Keys
  {
    claimed, byId := {}, map[];
    for i := 0 to |listing|
      invariant claimed <= root.Keys && forall j :: 0 <= j < i ==> listing[j] in claimed
      invariant forall id :: id in byId ==> Holds(root, byId[id].folderName, id)
                                            && root[byId[id].folderName].meta.value.name == byId[id].albumName
      invariant forall j, id :: 0 <= j < i && Holds(root, listing[j], id) ==>
          id in byId && byId[id].folderName == listing[j]
    {
      var n := listing[i];
      assert n in listing;
      claimed := claimed + {n};
      if root[n].meta.Some? {
        var m := root[n].meta.value;
        assert Holds(root, n, m.id);
        byId := byId[m.id := Placed(m.name, n)];
      }
    }
    forall n | n in root ensures n in claimed {
      assert n in listing;
    }
    forall n, id | Holds(root, n, id) ensures id in byId && byId[id].folderName == n {
      assert n in listing;
    }
  }

  /** The directory after an album's folder is removed. */
  lemma FolderRemovedTracks(root: Root, claimed: set<string>, byId: map<AlbumId, Placed>, id: AlbumId)
    requires Tracks(root, claimed, byId) && id in byId
    ensures
      var root', n := root - {byId[id].folderName}, byId[id].folderName;
      && Tracks(root', claimed - {n}, byId - {id})
      && OnlyAlbum(root, root', id) && !HasFolder(root', id) && NewNamesSafe(root, root')
  {
    var n := byId[id].folderName;
    var root' := root - {n};
    assert Holds(root, n, id);
    assert forall x, b :: Holds(root', x, b) <==> Holds(root, x, b) && x != n;
    assert forall x, b :: Holds(root, x, b) && b != id ==> x != n;
  }

  /** The directory after an album is written to a free name, its old folder moved there if it had one. */
  ghost function PlacedAt(root: Root, byId: map<AlbumId, Placed>, album: Album, name: string): Root
    requires album.id in byId ==> byId[album.id].folderName in root
  {
    var meta := Some(AlbumMeta(album.id, album.name));
    if album.id in byId then
      (root - {byId[album.id].folderName})[name := Dir(meta, root[byId[album.id].folderName].content)]
    else root[name := Dir(meta, EmptyFolder())]
  }

  lemma PlacedTracks(root: Root, claimed: set<string>, byId: map<AlbumId, Placed>, album: Album, name: string)
    requires Tracks(root, claimed, byId) && name !in claimed
    ensures
      var root' := PlacedAt(root, byId, album, name);
      && Tracks(root', claimed + {name}, byId[album.id := Placed(album.name, name)])
      && OnlyAlbum(root, root', album.id)
      && Holds(root', name, album.id) && root'[name].meta.value.name == album.name
  {
    var root', id := PlacedAt(root, byId, album, name), album.id;
    assert name !in root;
    if id in byId {
      var n0 := byId[id].folderName;
      assert Holds(root, n0, id);
      forall x, b ensures Holds(root', x, b) <==> (Holds(root, x, b) && x != n0) || (x == name && b == id) {}
      assert forall x, b :: Holds(root, x, b) && b != id ==> x != n0;
    } else {
      assert !HasFolder(root, id);
      forall x, b ensures Holds(root', x, b) <==> Holds(root, x, b) || (x == name && b == id) {}
    }
  }

  /** An album that is taken for the export directory itself gives that a metadata folder. */
  function WithRootMeta(root: Root, name: string): Root {
    if name != ".." && ".meta" !in root then root[".meta" := Dir(None, EmptyFolder())] else root
  }

  lemma RootMetaTracks(root: Root, claimed: set<string>, byId: map<AlbumId, Placed>, id: AlbumId, name: string)
    requires Tracks(root, claimed, byId) && id !in byId
    ensures
      var root' := WithRootMeta(root, name);
      && Tracks(root', claimed + {name, ".meta"}, byId)
      && OnlyAlbum(root, root', id) && !HasFolder(root', id) && NewNamesSafe(root, root')
  {
    var root' := WithRootMeta(root, name);
    assert forall x, b :: Holds(root', x, b) <==> Holds(root, x, b);
  }

  class ExportDir {
    var root: Root

    constructor (root: Root)
      ensures this.root == root
    {
      this.root := root;
    }

    /**
     One album's turn of createLocalFolderForRemoteAlbums, under the first unclaimed name of its
     own. Where that is not plain the rename of a folder fails, and no folder is made.
     */
    method PlaceAlbum(lib: Library, album: Album, claimed: set<string>, byId: map<AlbumId, Placed>)
      returns (ok: bool, claimed': set<string>, byId': map<AlbumId, Placed>, ghost k: nat)
      requires LibraryOk(lib) && Tracks(root, claimed, byId)
      modifies this
      ensures Tracks(root, claimed', byId') && OnlyAlbum(old(root), root, album.id)
      ensures album.isDeleted || InPlace(lib, old(root), album) ==> ok && InPlace(lib, root, album)
      ensures InPlace(lib, old(root), album) ==> root == old(root)
      ensures NewNamesSafe(old(root), root)
      ensures forall n :: n in claimed' ==> n in claimed || Holds(root, n, album.id) || !IsPlain(n) || n == ".meta"
      ensures !album.isDeleted && !InPlace(lib, old(root), album) ==>
                var name := Candidate(Sanitize(lib, album.name), "", k);
                && name !in claimed
                    && (forall j :: 0 <= j < k ==> Candidate(Sanitize(lib, album.name), "", j) in claimed)
                && ':' !in name && '/' !in name
                && (Ordinary(lib, album.name) && album.name !in claimed ==> name == album.name)
                && ok == (IsPlain(name) || !HasFolder(old(root), album.id))
                && (IsPlain(name) ==> NamedAt(lib, root, album, k) && InPlace(lib, root, album))
                && (!IsPlain(name) ==>
                      && Unplain(lib, album) && HasFolder(root, album.id) == !ok
                      && root == if ok then WithRootMeta(old(root), name) else old(root))
    {
      ok, claimed', byId', k := true, claimed, byId, 0;
      if album.isDeleted {
        if album.id in byId {
          FolderRemovedTracks(root, claimed, byId, album.id);
          assert Holds(root, byId[album.id].folderName, album.id);
          root := root - {byId[album.id].folderName};
          claimed', byId' := claimed - {byId[album.id].folderName}, byId - {album.id};
        }
        return;
      }
      if album.id in byId && lib.equalFold(byId[album.id].albumName, album.name) {
        assert Holds(root, byId[album.id].folderName, album.id);
        return;
      }
      var name;
      name, k := FreshFolderName(Sanitize(lib, album.name), claimed);
      ChosenHasNoSeparator(lib, album.name, k);
      if Ordinary(lib, album.name) && album.name !in claimed {
        OrdinaryIsKept(lib, album.name);
        assert Candidate(album.name, "", 0) == album.name;
      }
      if IsPlain(name) {
        claimed', byId' := MoveTo(album, name, claimed, byId);
      } else if album.id in byId {
        PlainOrFirst(lib, album, k);
        assert Holds(root, byId[album.id].folderName, album.id);
        ok := false;
      } else {
        PlainOrFirst(lib, album, k);
        RootMetaTracks(root, claimed, byId, album.id, name);
        // the album's entry in the map, which nothing reads again, is left out
        root, claimed' := WithRootMeta(root, name), claimed + {name, ".meta"};
      }
    }

    /** The album's folder is moved to a free name, or made under it. */
    method MoveTo(album: Album, name: string, claimed: set<string>, byId: map<AlbumId, Placed>)
      returns (claimed': set<string>, byId': map<AlbumId, Placed>)
      requires Tracks(root, claimed, byId) && name !in claimed
      requires IsPlain(name) && ':' !in name && '/' !in name
      modifies this
      ensures Tracks(root, claimed', byId') && OnlyAlbum(old(root), root, album.id)
      ensures Holds(root, name, album.id) && root[name].meta.value.name == album.name
      ensures claimed' == claimed + {name} && NewNamesSafe(old(root), root)
    {
      PlacedTracks(root, claimed, byId, album, name);
      ghost var placed := PlacedAt(root, byId, album, name);
      assert name !in root;
      if album.id in byId {
        // rename to the free name
        var oldName := byId[album.id].folderName;
        root := (root - {oldName})[name := root[oldName]];
      } else {
        root := root[name := Dir(None, EmptyFolder())];
      }
      root := root[name := root[name].(meta := Some(AlbumMeta(album.id, album.name)))];
      assert root == placed;
      claimed', byId' := claimed + {name}, byId[album.id := Placed(album.name, name)];
    }

    /** One turn of the loop over the albums, seen from the start of the run. */
    method Turn(lib: Library, albums: seq<Album>, skip: set<AlbumId>, i: nat, claimed: set<string>,
                byId: map<AlbumId, Placed>, ghost start: Root)
      returns (ok: bool, claimed': set<string>, byId': map<AlbumId, Placed>)
      requires LibraryOk(lib) && i < |albums| && forall i, j :: 0 <= i < j < |albums| ==> albums[i].id != albums[j].id
      requires Tracks(root, claimed, byId) && Made(lib, start, root, albums, i, skip)
      requires ClaimedBy(start, root, claimed, albums, i)
      modifies this
      ensures Tracks(root, claimed', byId')
      ensures if ok then Made(lib, start, root, albums, i + 1, skip)
                         && ClaimedBy(start, root, claimed', albums, i + 1)
              else root == old(root) && RenameFails(lib, root, albums[i])
    {
      ok, claimed', byId' := true, claimed, byId;
      if albums[i].id in skip {
        SkippedMade(lib, start, root, albums, i, skip);
        ClaimsGrow(start, root, root, claimed, claimed, albums, i);
        return;
      }
      ghost var k;
      TracksUnique(root, claimed, byId);
      ok, claimed', byId', k := PlaceAlbum(lib, albums[i], claimed, byId);
      if ok {
        ClaimsGrow(start, old(root), root, claimed, claimed', albums, i);
        OwnNameGiven(lib, start, old(root), root, claimed, albums, i, skip);
        TurnMade(lib, start, old(root), root, albums, i, skip, k);
      }
    }

    /**
     createLocalFolderForRemoteAlbums; it ends early, after n albums, only on a rename to a name
     that is not plain.
     */
    method CreateLocalFolders(lib: Library, albums: seq<Album>, skip: set<AlbumId>, listing: seq<string>)
      returns (ok: bool, ghost n: nat)
      requires LibraryOk(lib) && IdsUnique(root) && ListingOf(listing, root)
      requires forall i, j :: 0 <= i < j < |albums| ==> albums[i].id != albums[j].id
      modifies this
      ensures IdsUnique(root) && n <= |albums| && Made(lib, old(root), root, albums, n, skip)
      ensures if ok then n == |albums| else n < |albums| && RenameFails(lib, root, albums[n])
    {
      var claimed, byId := ReadFolderMetadata(root, listing);
      NothingMade(lib, root, albums, skip);
      n := 0;
      for i := 0 to |albums|
        invariant n == i && Tracks(root, claimed, byId) && Made(lib, old(root), root, albums, i, skip)
        invariant ClaimedBy(old(root), root, claimed, albums, i)
      {
        ok, claimed, byId := Turn(lib, albums, skip, i, claimed, byId, old(root));
        if !ok {
          TracksUnique(root, claimed, byId);
          return;
        }
        n := i + 1;
      }
      TracksUnique(root, claimed, byId);
      ok := true;
    }
  }

  lemma PlainOrFirst(lib: Library, album: Album, k: nat)
    requires !album.isDeleted && !IsPlain(Candidate(Sanitize(lib, album.name), "", k))
    ensures Unplain(lib, album)
  {
    if k > 0 {
      NumberedIsPlain(Sanitize(lib, album.name), k);
    }
    assert Sanitize(lib, album.name) + "" == Sanitize(lib, album.name);
  }

  /** The album has a folder under another name, and its own name is not plain. */
  ghost predicate RenameFails(lib: Library, root: Root, album: Album) {
    Unplain(lib, album) && HasFolder(root, album.id) && !InPlace(lib, root, album)
  }

  lemma TracksUnique(root: Root, claimed: set<string>, byId: map<AlbumId, Placed>)
    requires Tracks(root, claimed, byId)
    ensures IdsUnique(root)
  {}

  ghost predicate AllInPlace(lib: Library, root: Root, albums: seq<Album>, i: nat, skip: set<AlbumId>)
    requires i <= |albums|
  {
    forall j :: 0 <= j < i ==> albums[j].id in skip || InPlace(lib, root, albums[j])
  }

  ghost predicate AllSettled(lib: Library, root: Root, albums: seq<Album>, i: nat, skip: set<AlbumId>)
    requires i <= |albums|
  {
    forall j :: 0 <= j < i ==> albums[j].id in skip || PlacedOrUnplain(lib, root, albums[j])
  }

  /**
   What the run has made of the first i albums: each is in place under its own name, or has
   no folder and no plain name, and
   nobody else's folder is touched; folders that move keep their content, new ones are
   empty. When all of them were in place already, nothing has changed.
   */
  ghost predicate Made(lib: Library, root0: Root, root: Root, albums: seq<Album>, i: nat, skip: set<AlbumId>)
    requires i <= |albums|
  {
    && AllSettled(lib, root, albums, i, skip)
    && AllNamed(lib, root0, root, albums, i, skip)
    && StrangersKept(root0, root) && OthersUnmoved(root0, root, albums, i, skip)
    && ContentKept(root0, root) && FreshEmpty(root0, root)
    && (AllInPlace(lib, root0, albums, i, skip) ==> root == root0)
    && AllGetOwnNames(lib, root0, root, albums, i, skip) && NewNamesSafe(root0, root)
  }

  ghost predicate AllGetOwnNames(lib: Library, root0: Root, root: Root, albums: seq<Album>, i: nat, skip: set<AlbumId>)
    requires i <= |albums|
  {
    forall j :: 0 <= j < i ==> albums[j].id in skip || GetsOwnName(lib, root0, root, albums, j)
  }

  /** The names of albums that have had their turn stay claimed by them. */
  lemma ClaimsGrow(root0: Root, root: Root, root': Root, claimed: set<string>, claimed': set<string>,
                   albums: seq<Album>, i: nat)
    requires i < |albums| && forall i, j :: 0 <= i < j < |albums| ==> albums[i].id != albums[j].id
    requires ClaimedBy(root0, root, claimed, albums, i) && OnlyAlbum(root, root', albums[i].id)
    requires forall n :: n in claimed' ==>
               n in claimed || Holds(root', n, albums[i].id) || !IsPlain(n) || n == ".meta"
    ensures ClaimedBy(root0, root', claimed', albums, i + 1)
  {
    forall n | n in claimed' && n !in root0 && IsPlain(n) && n != ".meta"
      ensures exists j :: 0 <= j < i + 1 && Holds(root', n, albums[j].id)
    {
      if n in claimed {
        var j :| 0 <= j < i && Holds(root, n, albums[j].id);
        assert Holds(root', n, albums[j].id);
      }
    }
  }

  /** In its turn an album with an ordinary name gets it, unless it is claimed. */
  lemma OwnNameGiven(lib: Library, root0: Root, root: Root, root': Root, claimed: set<string>, albums: seq<Album>,
                     i: nat, skip: set<AlbumId>)
    requires i < |albums| && forall i, j :: 0 <= i < j < |albums| ==> albums[i].id != albums[j].id
    requires ClaimedBy(root0, root, claimed, albums, i) && OnlyAlbum(root, root', albums[i].id)
    requires OthersUnmoved(root0, root, albums, i, skip)
    requires
      var album := albums[i];
      !album.isDeleted && !InPlace(lib, root, album) && Ordinary(lib, album.name) && album.name !in claimed ==>
        Holds(root', album.name, album.id)
    ensures GetsOwnName(lib, root0, root', albums, i)
  {
    var album := albums[i];
    forall n ensures Holds(root0, n, album.id) <==> Holds(root, n, album.id) {}
    if album.name in claimed && album.name !in root0 && Ordinary(lib, album.name) {
      var j :| 0 <= j < i && Holds(root, album.name, albums[j].id);
      assert Holds(root', album.name, albums[j].id);
    }
  }

  lemma OwnNamesStay(lib: Library, root0: Root, root: Root, root': Root, albums: seq<Album>, i: nat, skip: set<AlbumId>)
    requires i < |albums| && forall i, j :: 0 <= i < j < |albums| ==> albums[i].id != albums[j].id
    requires OnlyAlbum(root, root', albums[i].id) && AllGetOwnNames(lib, root0, root, albums, i, skip)
    requires GetsOwnName(lib, root0, root', albums, i)
    ensures AllGetOwnNames(lib, root0, root', albums, i + 1, skip)
  {
    forall j | 0 <= j < i && albums[j].id !in skip ensures GetsOwnName(lib, root0, root', albums, j) {
      var n := albums[j].name;
      assert GetsOwnName(lib, root0, root, albums, j);
      if exists h :: 0 <= h < j && Holds(root, n, albums[h].id) {
        var h :| 0 <= h < j && Holds(root, n, albums[h].id);
        assert Holds(root', n, albums[h].id);
      }
    }
  }

  lemma NothingMade(lib: Library, root: Root, albums: seq<Album>, skip: set<AlbumId>)
    requires IdsUnique(root)
    ensures Made(lib, root, root, albums, 0, skip)
  {}

  lemma SkippedMade(lib: Library, root0: Root, root: Root, albums: seq<Album>, i: nat, skip: set<AlbumId>)
    requires i < |albums| && albums[i].id in skip && Made(lib, root0, root, albums, i, skip)
    ensures Made(lib, root0, root, albums, i + 1, skip)
  {}

  lemma TurnMade(lib: Library, root0: Root, root: Root, root': Root, albums: seq<Album>, i: nat, skip: set<AlbumId>,
                 k: nat)
    requires i < |albums| && forall i, j :: 0 <= i < j < |albums| ==> albums[i].id != albums[j].id
    requires IdsUnique(root) && Made(lib, root0, root, albums, i, skip) && albums[i].id !in skip
    requires OnlyAlbum(root, root', albums[i].id) && PlacedOrUnplain(lib, root', albums[i])
    requires InPlace(lib, root, albums[i]) ==> root' == root
    requires !albums[i].isDeleted && !InPlace(lib, root, albums[i]) ==>
               NamedAt(lib, root', albums[i], k) || (Unplain(lib, albums[i]) && !HasFolder(root', albums[i].id))
    requires GetsOwnName(lib, root0, root', albums, i) && NewNamesSafe(root, root')
    ensures Made(lib, root0, root', albums, i + 1, skip)
  {
    OwnNamesStay(lib, root0, root, root', albums, i, skip);
    TurnFrame(lib, root0, root, root', albums, i, skip);
    TurnNames(lib, root0, root, root', albums, i, skip);
    if AllInPlace(lib, root0, albums, i + 1, skip) {
      assert AllInPlace(lib, root0, albums, i, skip) && InPlace(lib, root0, albums[i]);
    }
  }

  ghost predicate AllNamed(lib: Library, root0: Root, root: Root, albums: seq<Album>, i: nat, skip: set<AlbumId>)
    requires i <= |albums|
  {
    forall j :: 0 <= j < i ==> albums[j].id in skip || NameFollows(lib, root0, root, albums[j])
  }

  /** Albums that had no turn, or are skipped, have the folders they had; nobody else's folder appeared. */
  ghost predicate OthersUnmoved(root: Root, root': Root, albums: seq<Album>, i: nat, skip: set<AlbumId>)
    requires i <= |albums|
  {
    forall n, b :: b in skip || (forall j :: 0 <= j < i ==> albums[j].id != b) ==>
      (Holds(root, n, b) <==> Holds(root', n, b)) && (Holds(root, n, b) ==> root'[n] == root[n])
  }

  lemma TurnFrame(lib: Library, root0: Root, root: Root, root': Root, albums: seq<Album>, i: nat, skip: set<AlbumId>)
    requires i < |albums| && forall i, j :: 0 <= i < j < |albums| ==> albums[i].id != albums[j].id
    requires IdsUnique(root) && albums[i].id !in skip
    requires StrangersKept(root0, root) && ContentKept(root0, root) && OthersUnmoved(root0, root, albums, i, skip)
    requires AllSettled(lib, root, albums, i, skip)
    requires OnlyAlbum(root, root', albums[i].id) && PlacedOrUnplain(lib, root', albums[i])
    ensures StrangersKept(root0, root') && ContentKept(root0, root') && OthersUnmoved(root0, root', albums, i + 1, skip)
    ensures AllSettled(lib, root', albums, i + 1, skip)
  {}

  lemma FreshStep(root0: Root, root: Root, root': Root, id: AlbumId)
    requires FreshEmpty(root0, root) && OnlyAlbum(root, root', id)
    requires forall n :: Holds(root0, n, id) <==> Holds(root, n, id)
    ensures FreshEmpty(root0, root')
  {}

  /** The names given so far stay, and this turn's album has its own. */
  lemma TurnNames(lib: Library, root0: Root, root: Root, root': Root, albums: seq<Album>, i: nat, skip: set<AlbumId>)
    requires i < |albums| && forall i, j :: 0 <= i < j < |albums| ==> albums[i].id != albums[j].id
    requires OthersUnmoved(root0, root, albums, i, skip) && FreshEmpty(root0, root)
    requires OnlyAlbum(root, root', albums[i].id) && NameFollows(lib, root, root', albums[i])
    requires AllNamed(lib, root0, root, albums, i, skip)
    ensures AllNamed(lib, root0, root', albums, i + 1, skip) && FreshEmpty(root0, root')
  {
    var album := albums[i];
    forall n ensures Holds(root0, n, album.id) <==> Holds(root, n, album.id) {}
    forall n | Holds(root0, n, album.id) ensures root[n] == root0[n] {}
    FreshStep(root0, root, root', album.id);
    assert InPlace(lib, root0, album) <==> InPlace(lib, root, album);
    assert NameFollows(lib, root0, root', album);
    forall j | 0 <= j < i && albums[j].id !in skip ensures NameFollows(lib, root0, root', albums[j]) {
      assert NameFollows(lib, root0, root, albums[j]);
      NameStays(lib, root0, root, root', album.id, albums[j]);
    }
  }

  lemma NameStays(lib: Library, root0: Root, root: Root, root': Root, id: AlbumId, album: Album)
    requires OnlyAlbum(root, root', id) && album.id != id && NameFollows(lib, root0, root, album)
    ensures NameFollows(lib, root0, root', album)
  {
    if !album.isDeleted && !InPlace(lib, root0, album) {
      if exists k :: NamedAt(lib, root, album, k) {
        var k :| NamedAt(lib, root, album, k);
        assert NamedAt(lib, root', album, k);
      }
    }
  }
}
