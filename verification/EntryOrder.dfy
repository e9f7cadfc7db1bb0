/**
 The order in which the reconciler takes entries, and how often its one-slot cache
 of folder indexes has to be filled for it.
 */
module EntryOrder {
  import SyncMachine
  import opened CollectionList
  import opened SyncClient

  /** An entry as the loop read it at its start. */
  datatype Item = Item(album: AlbumId, file: SyncMachine.FileId, entry: SyncMachine.Entry)

  // ---- sorting ----

  /** Delete-marked entries first, then by album. */
  predicate Less(x: Item, y: Item) {
    if x.entry.removed != y.entry.removed then x.entry.removed else x.album < y.album
  }

  ghost predicate Sorted(items: seq<Item>) {
    forall i, j :: 0 <= i < j < |items| ==> !Less(items[j], items[i])
  }

  function Insert(x: Item, items: seq<Item>): (r: seq<Item>)
    ensures multiset(r) == multiset(items) + multiset{x}
  {
    if items == [] || Less(x, items[0]) then [x] + items
    else
      assert items == [items[0]] + items[1..];
      [items[0]] + Insert(x, items[1..])
  }

  lemma {:induction false} InsertSorted(x: Item, items: seq<Item>)
    requires Sorted(items)
    ensures Sorted(Insert(x, items))
  {
    if items != [] && !Less(x, items[0]) {
      assert forall i :: 0 <= i < |items[1..]| ==> items[1..][i] == items[i + 1];
      InsertSorted(x, items[1..]);
      var rest := Insert(x, items[1..]);
      forall j | 0 <= j < |rest| ensures !Less(rest[j], items[0]) {
        assert rest[j] in multiset(rest);
        assert rest[j] == x || rest[j] in items[1..];
      }
    }
  }

  /** SortAlbumFileEntry: a sorted permutation. */
  function SortedEntries(items: seq<Item>): (r: seq<Item>)
    ensures multiset(r) == multiset(items)
  {
    if items == [] then []
    else
      assert items == [items[0]] + items[1..];
      Insert(items[0], SortedEntries(items[1..]))
  }

  lemma {:induction false} SortedEntriesSorted(items: seq<Item>)
    ensures Sorted(SortedEntries(items))
    ensures
      var r := SortedEntries(items);
      forall i, j :: 0 <= i < j < |r| ==>
        && (r[j].entry.removed ==> r[i].entry.removed)
        && (r[j].entry.removed == r[i].entry.removed ==> r[i].album <= r[j].album)
  {
    if items != [] {
      SortedEntriesSorted(items[1..]);
      InsertSorted(items[0], SortedEntries(items[1..]));
    }
  }

  // ---- how often a one-slot cache reads ----

  /** The reads of a one-slot cache over a list of requests: one wherever the album changes. */
  function Reads(touched: seq<Item>): (r: seq<AlbumId>)
    ensures touched != [] ==> r != [] && r[|r| - 1] == touched[|touched| - 1].album
  {
    if touched == [] then []
    else
      var last := touched[|touched| - 1];
      var front := Reads(touched[..|touched| - 1]);
      if |touched| > 1 && touched[|touched| - 2].album == last.album then front else front + [last.album]
  }

  function Count(a: AlbumId, s: seq<AlbumId>): (n: nat)
    ensures n == multiset(s)[a]
  {
    if s == [] then 0
    else
      assert s == s[..|s| - 1] + [s[|s| - 1]];
      Count(a, s[..|s| - 1]) + (if s[|s| - 1] == a then 1 else 0)
  }

  /** Sorted requests read an album at most once in each of the two blocks. */
  lemma {:induction false} ReadsBounded(touched: seq<Item>, a: AlbumId)
    requires Sorted(touched)
    ensures Count(a, Reads(touched)) <= 2
    ensures touched != [] && touched[|touched| - 1].entry.removed ==> Count(a, Reads(touched)) <= 1
    ensures touched != [] && touched[|touched| - 1].entry.removed && touched[|touched| - 1].album < a ==>
        Count(a, Reads(touched)) == 0
    ensures touched != [] && !touched[|touched| - 1].entry.removed && touched[|touched| - 1].album < a ==>
        Count(a, Reads(touched)) <= 1
  {
    if touched != [] {
      var front, last := touched[..|touched| - 1], touched[|touched| - 1];
      ReadsBounded(front, a);
      if front != [] {
        var before := front[|front| - 1];
        assert before == touched[|touched| - 2];
        assert !Less(last, before);
      }
      var r := Reads(touched);
      if r != Reads(front) {
        assert r[..|r| - 1] == Reads(front);
      }
    }
  }
}
