/** The string keys of the client's store. */
module StoreKeys {
  import opened Decimal

  /** boltAEKey. */
  function EntryKey(album: int, file: int): string {
    Print(album) + ":" + Print(file)
  }

  function FileSyncKey(album: int): string {
    "collectionFilesSync-" + Print(album)
  }

  /** The album comes first. */
  lemma KeyExamples()
    ensures EntryKey(12, -3) == "12:-3" && FileSyncKey(12) == "collectionFilesSync-12"
  {
    assert Digits(12) == Digits(1) + [DigitChar(2)] == "12" && Digits(3) == "3";
    assert "12" + ":" + "-3" == "12:-3" && "collectionFilesSync-" + "12" == "collectionFilesSync-12";
  }

  const COLLECTIONS_SYNC_KEY := "lastCollectionSync"
  const AUTHENTICATOR_SYNC_KEY := "lastAuthenticatorSync"

  /** Entry keys separate albums and files, so the bucket is a map over pairs. */
  lemma EntryKeyInjective(album: int, file: int, album': int, file': int)
    ensures EntryKey(album, file) == EntryKey(album', file') <==> album == album' && file == file'
  {
    if EntryKey(album, file) == EntryKey(album', file') {
      assert ":" == [':'];
      SplitUnique(Print(album), Print(file), Print(album'), Print(file'), ':');
      PrintInjective(album, album');
      PrintInjective(file, file');
    }
  }

  /** Cursor keys of different albums differ, and none is one of the fixed keys. */
  lemma CursorKeysSeparate(album: int, album': int)
    ensures FileSyncKey(album) == FileSyncKey(album') <==> album == album'
    ensures FileSyncKey(album) != COLLECTIONS_SYNC_KEY && FileSyncKey(album) != AUTHENTICATOR_SYNC_KEY
  {
    if FileSyncKey(album) == FileSyncKey(album') {
      DropPrefix("collectionFilesSync-", Print(album), Print(album'));
      PrintInjective(album, album');
    }
    assert FileSyncKey(album)[0] == 'c';
  }
}
