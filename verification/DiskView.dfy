/**
 An export directory seen by album id: what making folders amounts to for the exporter,
 and how its work on the folders' contents goes back into the directory.
 */
module DiskView {
  import opened Sets
  import opened Decimal
  import opened Disk
  import opened Folder
  import opened Exporter
  import opened CollectionList
  import opened SyncClient
  import opened Reconciler
  import AlbumFolders

  type Root = AlbumFolders.Root

  predicate Wanted(albums: Albums, a: AlbumId) {
    a in albums && !albums[a].isDeleted
  }

  /** The folders of deleted albums go, and live albums without one get an empty folder. */
  function FoldersFor(disk: DiskState, albums: Albums): DiskState {
    map a | a in disk.Keys + albums.Keys && (if a in albums then !albums[a].isDeleted else true) ::
      if a in disk then disk[a] else AlbumDir(false, EmptyFolder())
  }

  lemma FoldersForAt(disk: DiskState, albums: Albums, a: AlbumId)
    ensures a in FoldersFor(disk, albums) <==> if a in albums then !albums[a].isDeleted else a in disk
    ensures a in FoldersFor(disk, albums) ==>
              FoldersFor(disk, albums)[a] == if a in disk then disk[a] else AlbumDir(false, EmptyFolder())
  {
    assert a in FoldersFor(disk, albums)
        <==> a in disk.Keys + albums.Keys && (if a in albums then !albums[a].isDeleted else true);
  }

  /** The albums that have a folder. */
  ghost function AlbumIds(root: Root): (ids: set<AlbumId>)
    ensures forall a :: a in ids <==> AlbumFolders.HasFolder(root, a)
  {
    var ids := set n | n in root && root[n].meta.Some? :: root[n].meta.value.id;
    assert forall n, a :: AlbumFolders.Holds(root, n, a) ==> a in ids;
    assert forall a :: a in ids ==> exists n :: AlbumFolders.Holds(root, n, a) by {
      forall a | a in ids ensures exists n :: AlbumFolders.Holds(root, n, a) {
        var n :| n in root && root[n].meta.Some? && root[n].meta.value.id == a;
        assert AlbumFolders.Holds(root, n, a);
      }
    }
    ids
  }

  ghost function FolderName(root: Root, a: AlbumId): (n: string)
    requires AlbumFolders.HasFolder(root, a)
    ensures AlbumFolders.Holds(root, n, a)
  {
    var n :| AlbumFolders.Holds(root, n, a);
    n
  }

  /** An export directory seen by album id. */
  ghost function ByAlbum(root: Root): DiskState {
    map a | a in AlbumIds(root) :: AlbumDir(false, root[FolderName(root, a)].content)
  }

  /** No album has two folders, and the folders by album id are the disk. */
  ghost predicate DiskIn(root: Root, disk: DiskState) {
    AlbumFolders.IdsUnique(root) && ByAlbum(root) == disk
  }

  /** The list and the map say the same about the albums. */
  ghost predicate SameAlbumList(list: seq<AlbumFolders.Album>, albums: Albums) {
    && (forall i :: 0 <= i < |list| ==>
          list[i].id in albums && albums[list[i].id].isDeleted == list[i].isDeleted
              && albums[list[i].id].name == list[i].name)
    && (forall i, j :: 0 <= i < j < |list| ==> list[i].id != list[j].id)
    && (forall a :: a in albums ==> exists i :: 0 <= i < |list| && list[i].id == a)
  }

  ghost predicate AllPlain(lib: AlbumFolders.Library, list: seq<AlbumFolders.Album>) {
    forall i :: 0 <= i < |list| ==> !AlbumFolders.Unplain(lib, list[i])
  }

  lemma FoldersAfter(lib: AlbumFolders.Library, root: Root, root': Root, list: seq<AlbumFolders.Album>,
                     albums: Albums, a: AlbumId)
    requires AlbumFolders.Made(lib, root, root', list, |list|, {}) && SameAlbumList(list, albums) && AllPlain(lib, list)
    ensures AlbumFolders.HasFolder(root', a)
       <==> if a in albums then !albums[a].isDeleted else AlbumFolders.HasFolder(root, a)
  {}

  lemma ContentAfter(root: Root, root': Root, a: AlbumId)
    requires AlbumFolders.ContentKept(root, root') && AlbumFolders.FreshEmpty(root, root')
    requires AlbumFolders.HasFolder(root', a)
    ensures ByAlbum(root')[a] == if a in ByAlbum(root) then ByAlbum(root)[a] else AlbumDir(false, EmptyFolder())
  {}

  lemma SameDisk(made: DiskState, disk: DiskState, albums: Albums)
    requires forall a :: a in made <==> if a in albums then !albums[a].isDeleted else a in disk
    requires forall a :: a in made ==> made[a] == if a in disk then disk[a] else AlbumDir(false, EmptyFolder())
    ensures made == FoldersFor(disk, albums)
  {
    forall a
      ensures a in made <==> a in FoldersFor(disk, albums)
      ensures a in made ==> made[a] == FoldersFor(disk, albums)[a]
    {
      FoldersForAt(disk, albums, a);
    }
    assert made.Keys == FoldersFor(disk, albums).Keys;
  }

  /** What createLocalFolderForRemoteAlbums does with names and renames is, seen by album id, FoldersFor. */
  lemma FoldersRefine(lib: AlbumFolders.Library, root: Root, root': Root, list: seq<AlbumFolders.Album>, albums: Albums)
    requires AlbumFolders.Made(lib, root, root', list, |list|, {}) && SameAlbumList(list, albums) && AllPlain(lib, list)
    ensures ByAlbum(root') == FoldersFor(ByAlbum(root), albums)
  {
    var made, disk := ByAlbum(root'), ByAlbum(root);
    forall a
      ensures a in made <==> if a in albums then !albums[a].isDeleted else a in disk
      ensures a in made ==> made[a] == if a in disk then disk[a] else AlbumDir(false, EmptyFolder())
    {
      FoldersAfter(lib, root, root', list, albums, a);
      if a in made {
        ContentAfter(root, root', a);
      }
    }
    SameDisk(made, disk, albums);
  }

  /** getRemoteAlbums: every stored album once. */
  method ListAlbums(albums: Albums) returns (list: seq<AlbumFolders.Album>)
    ensures SameAlbumList(list, albums)
  {
    list := [];
    var todo: set<AlbumId> := albums.Keys;
    while todo != {}
      invariant todo <= albums.Keys
      invariant forall i :: 0 <= i < |list| ==> list[i].id in albums.Keys - todo
      invariant SameAlbumList(list, map a | a in albums && a !in todo :: albums[a])
    {
      EmptyOrNot(todo);
      var a :| a in todo;
      var album := AlbumFolders.Album(a, albums[a].name, albums[a].isDeleted);
      ListOneMore(list, albums, todo, album);
      list, todo := list + [album], todo - {a};
    }
    assert (map a | a in albums && a !in todo :: albums[a]) == albums;
  }

  lemma ListOneMore(list: seq<AlbumFolders.Album>, albums: Albums, todo: set<AlbumId>, album: AlbumFolders.Album)
    requires album.id in todo && album.id in albums
    requires album.name == albums[album.id].name && album.isDeleted == albums[album.id].isDeleted
    requires SameAlbumList(list, map a | a in albums && a !in todo :: albums[a])
    ensures SameAlbumList(list + [album], map a | a in albums && a !in todo - {album.id} :: albums[a])
  {
    var before, after :=
        map a | a in albums && a !in todo :: albums[a], map a | a in albums && a !in todo - {album.id} :: albums[a];
    var more := list + [album];
    forall i | 0 <= i < |more|
      ensures more[i].id in after && after[more[i].id].isDeleted == more[i].isDeleted
      ensures after[more[i].id].name == more[i].name
    {
      if i < |list| {
        assert more[i] == list[i] && list[i].id in before;
      }
    }
    forall a | a in after ensures exists i :: 0 <= i < |more| && more[i].id == a {
      if a == album.id {
        assert more[|list|].id == a;
      } else {
        assert a in before;
        var i :| 0 <= i < |list| && list[i].id == a;
        assert more[i].id == a;
      }
    }
    forall i, j | 0 <= i < j < |more| ensures more[i].id != more[j].id {
      assert more[i] == list[i] && list[i].id in before;
    }
  }

  // ---- contents ----

  /** What syncFiles finds: the folders by album id, with their contents. */
  method LoadDisk(root: Root, listing: seq<string>) returns (disk: DiskState)
    requires AlbumFolders.IdsUnique(root) && ListingOf(listing, root)
    ensures disk == ByAlbum(root)
  {
    var claimed, byId := AlbumFolders.ReadFolderMetadata(root, listing);
    assert forall a :: a in byId ==> AlbumFolders.Holds(root, byId[a].folderName, a);
    disk := map a | a in byId :: AlbumDir(false, root[byId[a].folderName].content);
    forall a ensures a in disk <==> a in ByAlbum(root) {
      if a in ByAlbum(root) {
        assert AlbumFolders.Holds(root, FolderName(root, a), a);
      }
    }
    assert disk.Keys == ByAlbum(root).Keys;
    forall a | a in disk ensures disk[a] == ByAlbum(root)[a] {
      assert AlbumFolders.Holds(root, FolderName(root, a), a);
    }
  }

  /** The directory when the albums' folders have come to hold what the disk says. */
  function WithContents(root: Root, disk: DiskState): Root {
    map n | n in root ::
      if root[n].meta.Some? && root[n].meta.value.id in disk
          then root[n].(content := disk[root[n].meta.value.id].folder) else root[n]
  }

  /** Names and album metadata stay, and the folders hold what the disk says. */
  lemma ContentsStored(root: Root, disk: DiskState)
    requires AlbumFolders.IdsUnique(root) && disk.Keys == AlbumIds(root) && forall a :: a in disk ==> !disk[a].isDeleted
    ensures DiskIn(WithContents(root, disk), disk)
  {
    var root' := WithContents(root, disk);
    assert forall n, a :: AlbumFolders.Holds(root', n, a) <==> AlbumFolders.Holds(root, n, a);
    forall a ensures a in ByAlbum(root') <==> a in disk {
      assert AlbumFolders.HasFolder(root', a) <==> AlbumFolders.HasFolder(root, a);
    }
    assert ByAlbum(root').Keys == disk.Keys;
    forall a | a in disk ensures ByAlbum(root')[a] == disk[a] {
      assert AlbumFolders.Holds(root', FolderName(root', a), a);
    }
  }
}
