/**
 The list of collections as the client keeps it: an answer of the server put entry by
 entry, the cursor stored behind it, and when that cursor can be relied on.
 */
module CollectionList {
  type AlbumId = int

  datatype RemoteAlbum = RemoteAlbum(lastUpdatedAt: int, isDeleted: bool, name: string)

  type Albums = map<AlbumId, RemoteAlbum>
  type Answer = seq<(AlbumId, RemoteAlbum)>

  /** The answer has collections as they are on the server, and every one later than the cursor. */
  ghost predicate AnswerTo(answer: Answer, colls: Albums, cursor: int) {
    && (forall i :: 0 <= i < |answer| ==> answer[i].0 in colls && colls[answer[i].0] == answer[i].1)
    && (forall a :: a in colls && colls[a].lastUpdatedAt > cursor ==> exists i :: 0 <= i < |answer| && answer[i].0 == a)
  }

  /** The stored albums after an answer; a first list leaves deleted collections out. */
  function PutAlbums(albums: Albums, first: bool, answer: Answer): Albums {
    if answer == [] then albums
    else
      var put, (a, c) := PutAlbums(albums, first, answer[..|answer| - 1]), answer[|answer| - 1];
      if first && c.isDeleted then put else put[a := c]
  }

  /** The latest time among the cursor and the collections that are kept. */
  function LatestKept(cursor: int, first: bool, answer: Answer): (m: int)
    ensures m >= cursor
  {
    if answer == [] then cursor
    else
      var m, last := LatestKept(cursor, first, answer[..|answer| - 1]), answer[|answer| - 1].1;
      if (first && last.isDeleted) || last.lastUpdatedAt <= m then m else last.lastUpdatedAt
  }

  /** The entries of an answer that are put. */
  function KeptCount(first: bool, answer: Answer): nat {
    if answer == [] then 0
    else KeptCount(first, answer[..|answer| - 1]) + if first && answer[|answer| - 1].1.isDeleted then 0 else 1
  }

  /** The puts an answer takes: those of its entries, and one for the cursor when that moves. */
  function ListPuts(cursor: int, answer: Answer): nat {
    KeptCount(cursor == 0, answer) + if LatestKept(cursor, cursor == 0, answer) > cursor then 1 else 0
  }

  lemma {:induction false} KeptCountGrows(first: bool, answer: Answer, n: nat)
    requires n <= |answer|
    ensures KeptCount(first, answer[..n]) <= KeptCount(first, answer)
  {
    if n == |answer| {
      assert answer[..n] == answer;
    } else {
      KeptCountGrows(first, answer[..|answer| - 1], n);
      assert answer[..|answer| - 1][..n] == answer[..n];
    }
  }

  /** One more entry of an answer. */
  lemma PutStep(albums: Albums, cursor: int, first: bool, answer: Answer, n: nat)
    requires n < |answer|
    ensures KeptCount(first, answer[..n + 1])
         == KeptCount(first, answer[..n]) + if first && answer[n].1.isDeleted then 0 else 1
    ensures
      var (a, c) := answer[n];
      var put, m := PutAlbums(albums, first, answer[..n]), LatestKept(cursor, first, answer[..n]);
      && PutAlbums(albums, first, answer[..n + 1]) == (if first && c.isDeleted then put else put[a := c])
      && LatestKept(cursor, first, answer[..n + 1]) == if (first && c.isDeleted) || c.lastUpdatedAt <= m
          then m else c.lastUpdatedAt
  {
    assert answer[..n + 1][..n] == answer[..n];
  }

  /** The stored time is the least one that no kept collection is later than. */
  lemma {:induction false} LatestKeptIsLeast(cursor: int, first: bool, answer: Answer, m: int)
    requires cursor <= m
    ensures LatestKept(cursor, first, answer) <= m
       <==> forall i :: 0 <= i < |answer| && !(first && answer[i].1.isDeleted) ==> answer[i].1.lastUpdatedAt <= m
  {
    if answer != [] {
      LatestKeptIsLeast(cursor, first, answer[..|answer| - 1], m);
      assert forall i :: 0 <= i < |answer| - 1 ==> answer[..|answer| - 1][i] == answer[i];
    }
  }

  ghost predicate Kept(a: AlbumId, first: bool, answer: Answer) {
    exists i :: 0 <= i < |answer| && answer[i].0 == a && !(first && answer[i].1.isDeleted)
  }

  /** What an answer leaves of one collection: the server's version when it is kept, else what was there. */
  lemma {:induction false} PutEffect(albums: Albums, colls: Albums, first: bool, answer: Answer, a: AlbumId)
    requires forall i :: 0 <= i < |answer| ==> answer[i].0 in colls && colls[answer[i].0] == answer[i].1
    ensures
      var albums' := PutAlbums(albums, first, answer);
      if Kept(a, first, answer) then a in colls && a in albums' && albums'[a] == colls[a]
      else (a in albums' <==> a in albums) && (a in albums ==> albums'[a] == albums[a])
  {
    if answer != [] {
      var front, last := answer[..|answer| - 1], answer[|answer| - 1];
      assert forall i :: 0 <= i < |front| ==> front[i] == answer[i];
      PutEffect(albums, colls, first, front, a);
      assert Kept(a, first, front) ==> Kept(a, first, answer) by {
        if Kept(a, first, front) {
          var i :| 0 <= i < |front| && front[i].0 == a && !(first && front[i].1.isDeleted);
          assert answer[i] == front[i];
        }
      }
    }
  }

  // ---- what the collection cursor promises ----

  /** The store shows the collection as it is on the server; of a deleted one it need not know. */
  ghost predicate AlbumShown(albums: Albums, colls: Albums, a: AlbumId)
    requires a in colls
  {
    if colls[a].isDeleted then a in albums ==> albums[a].isDeleted else a in albums && albums[a] == colls[a]
  }

  ghost predicate ShownUpTo(albums: Albums, colls: Albums, t: int) {
    forall a :: a in colls && colls[a].lastUpdatedAt <= t ==> AlbumShown(albums, colls, a)
  }

  /** No collection deleted on the server, up to a time, is live in the store. */
  ghost predicate NoDeletedIsLive(albums: Albums, colls: Albums, t: int) {
    forall a :: a in colls && a in albums && colls[a].isDeleted && colls[a].lastUpdatedAt <= t ==> albums[a].isDeleted
  }

  /**
   After an answer the new cursor can be relied on iff a first list met no deleted collection that
   is live in the store.
   */
  lemma ListSoundExactly(albums: Albums, colls: Albums, cursor: int, answer: Answer)
    requires AnswerTo(answer, colls, cursor) && ShownUpTo(albums, colls, cursor)
    requires cursor >= 0 && forall a :: a in colls ==> colls[a].lastUpdatedAt > 0
    ensures
      var m, albums' := LatestKept(cursor, cursor == 0, answer), PutAlbums(albums, cursor == 0, answer);
      ShownUpTo(albums', colls, m) <==> (cursor == 0 ==> NoDeletedIsLive(albums, colls, m))
  {
    var first := cursor == 0;
    var m, albums' := LatestKept(cursor, first, answer), PutAlbums(albums, first, answer);
    forall a | a in colls && colls[a].lastUpdatedAt <= m
      ensures AlbumShown(albums', colls, a)
         <==> (first && colls[a].isDeleted && a in albums ==> albums[a].isDeleted)
    {
      PutEffect(albums, colls, first, answer, a);
      if colls[a].lastUpdatedAt <= cursor {
        assert AlbumShown(albums, colls, a);
      } else {
        var i :| 0 <= i < |answer| && answer[i].0 == a;
        assert !(first && colls[a].isDeleted) ==> Kept(a, first, answer);
      }
    }
  }

  /** What holds of the list between any two puts. */
  ghost predicate ListOk(albums: Albums, colls: Albums, cursor: int) {
    && cursor >= 0
    && albums.Keys <= colls.Keys
    && (forall a :: a in colls ==> colls[a].lastUpdatedAt > 0)
    && ShownUpTo(albums, colls, cursor)
    && (cursor == 0 ==> forall a :: a in albums && colls[a].isDeleted ==> albums[a].isDeleted)
  }

  /** Stopped after any number of puts the list is still in order under the old cursor. */
  lemma PartKeeps(albums: Albums, colls: Albums, cursor: int, part: Answer)
    requires ListOk(albums, colls, cursor)
    requires forall i :: 0 <= i < |part| ==> part[i].0 in colls && colls[part[i].0] == part[i].1
    ensures ListOk(PutAlbums(albums, cursor == 0, part), colls, cursor)
  {
    var albums' := PutAlbums(albums, cursor == 0, part);
    forall a | a in albums' ensures a in colls && (cursor == 0 && colls[a].isDeleted ==> albums'[a].isDeleted) {
      PutEffect(albums, colls, cursor == 0, part, a);
    }
    forall a | a in colls && colls[a].lastUpdatedAt <= cursor ensures AlbumShown(albums', colls, a) {
      PutEffect(albums, colls, cursor == 0, part, a);
    }
  }

  /** A whole answer makes the store show every collection, under the new cursor too. */
  lemma AnswerShowsAll(albums: Albums, colls: Albums, cursor: int, answer: Answer)
    requires ListOk(albums, colls, cursor) && AnswerTo(answer, colls, cursor)
    ensures
      var albums' := PutAlbums(albums, cursor == 0, answer);
      && ListOk(albums', colls, LatestKept(cursor, cursor == 0, answer))
      && forall a :: a in colls ==> AlbumShown(albums', colls, a)
  {
    var albums' := PutAlbums(albums, cursor == 0, answer);
    PartKeeps(albums, colls, cursor, answer);
    forall a | a in colls ensures AlbumShown(albums', colls, a) {
      PutEffect(albums, colls, cursor == 0, answer, a);
      if colls[a].lastUpdatedAt > cursor {
        var i :| 0 <= i < |answer| && answer[i].0 == a;
        assert !(cursor == 0 && colls[a].isDeleted) ==> Kept(a, cursor == 0, answer);
      }
    }
  }

  /** Every album is as it was or as it is on the server. */
  ghost predicate ListMoved(albums: Albums, albums': Albums, colls: Albums) {
    && albums.Keys <= albums'.Keys
    && forall a :: a in albums' ==> (a in albums && albums'[a] == albums[a]) || (a in colls && albums'[a] == colls[a])
  }

  lemma PartMoves(albums: Albums, colls: Albums, first: bool, part: Answer)
    requires forall i :: 0 <= i < |part| ==> part[i].0 in colls && colls[part[i].0] == part[i].1
    ensures ListMoved(albums, PutAlbums(albums, first, part), colls)
  {
    forall a
      ensures a in albums ==> a in PutAlbums(albums, first, part)
      ensures var albums' := PutAlbums(albums, first, part);
              a in albums' ==> (a in albums && albums'[a] == albums[a]) || (a in colls && albums'[a] == colls[a])
    {
      PutEffect(albums, colls, first, part, a);
    }
  }

  // ---- a first list that is stopped half-way and repeated ----

  const OLD_ONE := RemoteAlbum(4, false, "")
  const GONE_ONE := RemoteAlbum(5, true, "")
  const NEW_TWO := RemoteAlbum(6, false, "")

  lemma FirstPut()
    ensures AnswerTo([(1, OLD_ONE)], map[1 := OLD_ONE], 0)
    ensures PutAlbums(map[], true, [(1, OLD_ONE)]) == map[1 := OLD_ONE]
  {
    var answer: Answer := [(1, OLD_ONE)];
    assert answer[0].0 == 1 && answer[..0] == [];
  }

  lemma SecondPut(answer: Answer)
    requires answer == [(1, GONE_ONE), (2, NEW_TWO)]
    ensures AnswerTo(answer, map[1 := GONE_ONE, 2 := NEW_TWO], 0)
    ensures PutAlbums(map[1 := OLD_ONE], true, answer) == map[1 := OLD_ONE, 2 := NEW_TWO]
    ensures LatestKept(0, true, answer) == 6
  {
    assert answer[0].0 == 1 && answer[1].0 == 2;
    var front := answer[..1];
    assert front == [(1, GONE_ONE)] && front[..0] == [];
    assert PutAlbums(map[1 := OLD_ONE], true, front) == map[1 := OLD_ONE];
    assert LatestKept(0, true, front) == 0;
  }

  /**
   The failing input: album 1 is stored and the run stops before the cursor; then album 1 is
   deleted and album 2 appears. The repeated first list leaves album 1 live behind its
   cursor, and the server has nothing later to say about it.
   */
  lemma RepeatedFirstListMissesDeletion()
    ensures
      var before, colls: Albums := map[1 := OLD_ONE], map[1 := GONE_ONE, 2 := NEW_TWO];
      var one, both: Answer := [(1, OLD_ONE)], [(1, GONE_ONE), (2, NEW_TWO)];
      var albums := PutAlbums(PutAlbums(map[], true, one), true, both);
      && AnswerTo(one, before, 0) && AnswerTo(both, colls, 0) && AnswerTo([], colls, LatestKept(0, true, both))
      && albums == map[1 := OLD_ONE, 2 := NEW_TWO] && !ShownUpTo(albums, colls, LatestKept(0, true, both))
  {
    FirstPut();
    SecondPut([(1, GONE_ONE), (2, NEW_TWO)]);
    assert !AlbumShown(map[1 := OLD_ONE, 2 := NEW_TWO], map[1 := GONE_ONE, 2 := NEW_TWO], 1);
  }
}
