/**
 The Rust client's cursor store. A sync type is a string; three fixed names address
 columns of one row per user, and "collection_{id}_files" a row of a second table. Both
 tables hang on others by foreign keys, which are switched on: a cursor row needs its
 account or its collection, and goes when that row goes or is replaced.
 */
module CursorStore {
  import opened Decimal

  datatype Slot = Files | Collections | Albums | PerCollection(id: int)

  const PREFIX := "collection_"
  const SUFFIX := "_files"

  function StripPrefix(s: string, p: string): Option<string> {
    if p <= s then Some(s[|p|..]) else None
  }

  function StripSuffix(s: string, t: string): Option<string> {
    if |t| <= |s| && s[|s| - |t|..] == t then Some(s[..|s| - |t|]) else None
  }

  /** Where a sync type points, if anywhere. */
  function Route(syncType: string): Option<Slot> {
    if PREFIX <= syncType then
      match StripSuffix(syncType[|PREFIX|..], SUFFIX)
      case None => None
      case Some(body) =>
        (match Parse(body)
         case Some(id) => Some(PerCollection(id))
         case None => None)
    else if syncType == "files" then Some(Files)
    else if syncType == "collections" then Some(Collections)
    else if syncType == "albums" then Some(Albums)
    else None
  }

  function KeyOf(slot: Slot): string {
    match slot
    case Files => "files"
    case Collections => "collections"
    case Albums => "albums"
    case PerCollection(id) => PREFIX + Print(id) + SUFFIX
  }

  predicate InRange(slot: Slot) {
    slot.PerCollection? ==> IsInt64(slot.id)
  }

  /** The printed key of a slot routes to that slot. */
  lemma RouteOfKey(slot: Slot)
    requires InRange(slot)
    ensures Route(KeyOf(slot)) == Some(slot)
  {
    match slot
    case PerCollection(id) =>
      var s := KeyOf(slot);
      assert s[|PREFIX|..] == Print(id) + SUFFIX;
      assert (Print(id) + SUFFIX)[|Print(id)|..] == SUFFIX;
      PrintRoundTrip(id);
    case _ =>
      assert "collections"[10] != PREFIX[10];
  }

  /** A type routes to a slot exactly when it is the slot's fixed name, or spells the collection's id. */
  lemma RouteExactly(syncType: string, slot: Slot)
    ensures Route(syncType) == Some(slot)
       <==> match slot
            case Files => syncType == "files"
            case Collections => syncType == "collections"
            case Albums => syncType == "albums"
            case PerCollection(id) =>
              exists body :: syncType == "collection_" + body + "_files" && Parse(body) == Some(id)
  {
    assert "collections"[10] != PREFIX[10];
    forall body ensures "collection_" + body + "_files" == PREFIX + (body + SUFFIX) {}
    forall body ensures (PREFIX + (body + SUFFIX))[|PREFIX|..] == body + SUFFIX {}
    forall body ensures StripSuffix(body + SUFFIX, SUFFIX) == Some(body) {}
    if PREFIX <= syncType && StripSuffix(syncType[|PREFIX|..], SUFFIX).Some? {
      var body := StripSuffix(syncType[|PREFIX|..], SUFFIX).value;
      assert syncType == "collection_" + body + "_files";
    }
  }

  /** Keys of different slots differ, and the fixed names never route to the per-collection table. */
  lemma KeysSeparate(a: Slot, b: Slot)
    requires InRange(a) && InRange(b)
    ensures KeyOf(a) == KeyOf(b) <==> a == b
  {
    RouteOfKey(a);
    RouteOfKey(b);
  }

  /** A row of sync_state. */
  datatype Row = Row(files: Option<int>, collections: Option<int>, albums: Option<int>)

  // ---- what a history of statements leaves in a slot ----

  /** The second key of an account, beside the app. */
  datatype Login = Login(email: string, endpoint: string)

  datatype Event =
    | Wrote(user: int, slot: Slot, timestamp: int)
    | CollectionUpserted(id: int)
    | AccountAdded(user: int, login: Login)
    | AccountDeleted(user: int)
    | Cleared(user: int)

  predicate Writes(e: Event, user: int, slot: Slot) {
    e.Wrote? && e.user == user && e.slot == slot
  }

  /**
   The statement takes the value of a slot away: replacing a collection's row drops its
   cursors for all users, deleting an account those of its fixed names only, clearing both.
   */
  predicate Erases(e: Event, user: int, slot: Slot) {
    match e
    case Wrote(_, _, _) => false
    case CollectionUpserted(id) => slot == PerCollection(id)
    case AccountAdded(_, _) => false
    case AccountDeleted(u) => u == user && !slot.PerCollection?
    case Cleared(u) => u == user
  }

  /** The value a history leaves in a slot. */
  function Held(h: seq<Event>, user: int, slot: Slot): Option<int> {
    if h == [] then None
    else
      var e := h[|h| - 1];
      if Writes(e, user, slot) then Some(e.timestamp)
      else if Erases(e, user, slot) then None
      else Held(h[..|h| - 1], user, slot)
  }

  function WithEvent(accounts: map<int, Login>, e: Event): map<int, Login> {
    match e
    case AccountAdded(user, login) => accounts[user := login]
    case AccountDeleted(user) => accounts - {user}
    case _ => accounts
  }

  /** The accounts and collections a history leaves. */
  function AccountsAfter(h: seq<Event>): map<int, Login> {
    if h == [] then map[] else WithEvent(AccountsAfter(h[..|h| - 1]), h[|h| - 1])
  }

  function CollectionsAfter(h: seq<Event>): set<int> {
    if h == [] then {}
    else CollectionsAfter(h[..|h| - 1]) + if h[|h| - 1].CollectionUpserted? then {h[|h| - 1].id} else {}
  }

  predicate LoginTaken(accounts: map<int, Login>, login: Login) {
    exists user | user in accounts :: accounts[user] == login
  }

  /** A row exists for the slot to hang on. */
  predicate ParentIn(h: seq<Event>, user: int, slot: Slot) {
    if slot.PerCollection? then slot.id in CollectionsAfter(h) else user in AccountsAfter(h)
  }

  /** A slot still holds the last value written to it iff nothing that erases it has come since. */
  lemma {:induction false} LastWriteSurvives(before: seq<Event>, user: int, slot: Slot, timestamp: int,
                                             after: seq<Event>)
    requires forall i :: 0 <= i < |after| ==> !Writes(after[i], user, slot)
    ensures Held(before + [Wrote(user, slot, timestamp)] + after, user, slot) == Some(timestamp)
       <==> forall i :: 0 <= i < |after| ==> !Erases(after[i], user, slot)
    ensures Held(before + [Wrote(user, slot, timestamp)] + after, user, slot) in {None, Some(timestamp)}
  {
    var h := before + [Wrote(user, slot, timestamp)] + after;
    if after == [] {
      assert h == before + [Wrote(user, slot, timestamp)];
    } else {
      var front := after[..|after| - 1];
      LastWriteSurvives(before, user, slot, timestamp, front);
      assert h[..|h| - 1] == before + [Wrote(user, slot, timestamp)] + front;
      assert forall i :: 0 <= i < |front| ==> front[i] == after[i];
    }
  }

  /** The next list of collections takes every listed collection's cursor away: it is upserted by replacing its row. */
  lemma UpsertLosesCursor(before: seq<Event>, user: int, id: int, timestamp: int)
    ensures
      var h := before + [CollectionUpserted(id), Wrote(user, PerCollection(id), timestamp)];
      && Held(h, user, PerCollection(id)) == Some(timestamp)
      && Held(h + [CollectionUpserted(id)], user, PerCollection(id)) == None
  {
    var h := before + [CollectionUpserted(id), Wrote(user, PerCollection(id), timestamp)];
    assert (h + [CollectionUpserted(id)])[..|h|] == h;
  }

  /** Per-collection cursors outlive their account. */
  lemma AccountKeepsCollectionCursor(h: seq<Event>, user: int, id: int)
    ensures Held(h + [AccountDeleted(user)], user, PerCollection(id)) == Held(h, user, PerCollection(id))
  {
    assert (h + [AccountDeleted(user)])[..|h|] == h;
  }

  /** A write under one user and key leaves what every other reads. */
  lemma NoCrossKeyEffect(h: seq<Event>, user: int, a: Slot, user': int, b: Slot, timestamp: int)
    requires InRange(a) && InRange(b) && (user, KeyOf(a)) != (user', KeyOf(b))
    ensures Held(h + [Wrote(user, a, timestamp)], user', b) == Held(h, user', b)
  {
    KeysSeparate(a, b);
    assert (h + [Wrote(user, a, timestamp)])[..|h|] == h;
  }

  class SyncStore {
    var accounts: map<int, Login>
    var collections: set<int>
    var syncState: map<int, Row>
    var collectionSyncState: map<(int, int), int>
    ghost var history: seq<Event>

    /**
     Every slot of every user holds what the history leaves in it, the parent rows are those of the
     history, and no row is an orphan.
     */
    ghost predicate Valid()
      reads this
    {
      && (forall user, slot :: Stored(user, slot) == Held(history, user, slot))
      && accounts == AccountsAfter(history) && collections == CollectionsAfter(history)
      && syncState.Keys <= accounts.Keys && (forall k :: k in collectionSyncState ==> k.1 in collections)
    }

    constructor ()
      ensures Valid() && history == []
    {
      accounts, collections, syncState, collectionSyncState, history := map[], {}, map[], map[], [];
    }

    /** The abstract store: a value for every user and slot. */
    function Stored(user: int, slot: Slot): Option<int>
      reads this
    {
      match slot
      case PerCollection(id) => if (user, id) in collectionSyncState
          then Some(collectionSyncState[(user, id)]) else None
      case Files => if user in syncState then syncState[user].files else None
      case Collections => if user in syncState then syncState[user].collections else None
      case Albums => if user in syncState then syncState[user].albums else None
    }

    /** AccountStore.add, of the photos app: refused when the user, or the email at the endpoint, has an account. */
    method AddAccount(user: int, login: Login) returns (ok: bool)
      requires Valid()
      modifies this
      ensures Valid() && ok == (!ParentIn(old(history), user, Files) && !LoginTaken(AccountsAfter(old(history)), login))
      ensures history == if ok then old(history) + [AccountAdded(user, login)] else old(history)
      ensures ok <==> user !in old(accounts) && !LoginTaken(old(accounts), login)
      ensures accounts == if ok then old(accounts)[user := login] else old(accounts)
      ensures forall u, slot :: Stored(u, slot) == old(Stored(u, slot))
    {
      ok := user !in accounts && !LoginTaken(accounts, login);
      if ok {
        accounts := accounts[user := login];
        Record(AccountAdded(user, login));
      }
    }

    /** AccountStore.delete: the user's sync_state row goes with the account. */
    method DeleteAccount(user: int) returns (ok: bool)
      requires Valid()
      modifies this
      ensures Valid() && ok == ParentIn(old(history), user, Files)
      ensures history == if ok then old(history) + [AccountDeleted(user)] else old(history)
      ensures (ok <==> user in old(accounts)) && accounts == old(accounts) - {user}
      ensures forall u, slot :: Stored(u, slot) ==
                if ok && u == user && !slot.PerCollection? then None else old(Stored(u, slot))
    {
      ok := user in accounts;
      if ok {
        accounts := accounts - {user};
        syncState := syncState - {user};
        Record(AccountDeleted(user));
      }
    }

    /** upsert_collection: the row is replaced, so what hangs on an old one goes. */
    method UpsertCollection(id: int)
      requires Valid()
      modifies this
      ensures Valid() && history == old(history) + [CollectionUpserted(id)]
      ensures collections == old(collections) + {id}
      ensures forall u, slot :: Stored(u, slot) == if slot == PerCollection(id) then None else old(Stored(u, slot))
    {
      collectionSyncState := map k | k in collectionSyncState && k.1 != id :: collectionSyncState[k];
      collections := collections + {id};
      Record(CollectionUpserted(id));
    }

    /** The statement just made, for the proof. */
    ghost method Record(e: Event)
      modifies this`history
      ensures history == old(history) + [e]
      ensures AccountsAfter(history) == WithEvent(AccountsAfter(old(history)), e)
      ensures CollectionsAfter(history)
           == CollectionsAfter(old(history)) + if e.CollectionUpserted? then {e.id} else {}
      ensures forall user, slot :: Held(history, user, slot) ==
                if Writes(e, user, slot) then Some(e.timestamp)
                else if Erases(e, user, slot) then None
                else Held(old(history), user, slot)
    {
      history := history + [e];
      assert history[..|history| - 1] == old(history);
    }

    /**
     update_sync_state: refused without effect when the type is invalid or the row it hangs on is
     missing; else the value is written.
     */
    method UpdateSyncState(user: int, syncType: string, timestamp: int) returns (ok: bool)
      requires Valid()
      modifies this
      ensures Valid()
      ensures ok <==> Route(syncType).Some? && ParentIn(old(history), user, Route(syncType).value)
      ensures history == if ok then old(history) + [Wrote(user, Route(syncType).value, timestamp)] else old(history)
      ensures ok ==> match Route(syncType).value
                     case PerCollection(id) => id in old(collections)
                     case _ => user in old(accounts)
      ensures forall u, slot :: Stored(u, slot) ==
                if ok && u == user && Route(syncType) == Some(slot) then Some(timestamp) else old(Stored(u, slot))
    {
      if PREFIX <= syncType {
        var body := StripPrefix(syncType, PREFIX);
        var digits := if body.Some? then StripSuffix(body.value, SUFFIX) else None;
        var id := if digits.Some? then Parse(digits.value) else None;
        if id.None? {
          return false;
        }
        ok := WriteCollection(user, id.value, timestamp);
        return;
      }
      if syncType == "files" {
        ok := WriteColumn(user, Files, timestamp);
      } else if syncType == "collections" {
        ok := WriteColumn(user, Collections, timestamp);
      } else if syncType == "albums" {
        ok := WriteColumn(user, Albums, timestamp);
      } else {
        ok := false;
      }
    }

    /** The insert into collection_sync_state. */
    method WriteCollection(user: int, id: int, timestamp: int) returns (ok: bool)
      requires Valid()
      modifies this
      ensures Valid() && ok == ParentIn(old(history), user, PerCollection(id))
      ensures history == if ok then old(history) + [Wrote(user, PerCollection(id), timestamp)] else old(history)
    {
      ok := id in collections;
      if ok {
        collectionSyncState := collectionSyncState[(user, id) := timestamp];
        Record(Wrote(user, PerCollection(id), timestamp));
      }
    }

    /** The upsert of one column of sync_state. */
    method WriteColumn(user: int, slot: Slot, timestamp: int) returns (ok: bool)
      requires Valid() && !slot.PerCollection?
      modifies this
      ensures Valid() && ok == ParentIn(old(history), user, slot)
      ensures history == if ok then old(history) + [Wrote(user, slot, timestamp)] else old(history)
    {
      ok := user in accounts;
      if ok {
        var row := if user in syncState then syncState[user] else Row(None, None, None);
        row := match slot
               case Files => row.(files := Some(timestamp))
               case Collections => row.(collections := Some(timestamp))
               case _ => row.(albums := Some(timestamp));
        syncState := syncState[user := row];
        Record(Wrote(user, slot, timestamp));
      }
    }

    /** get_last_sync: what the history leaves in the slot the type routes to. */
    method GetLastSync(user: int, syncType: string) returns (ok: bool, timestamp: Option<int>)
      requires Valid()
      ensures ok <==> Route(syncType).Some?
      ensures ok ==> timestamp == Held(history, user, Route(syncType).value) == Stored(user, Route(syncType).value)
    {
      if PREFIX <= syncType {
        var digits := StripSuffix(syncType[|PREFIX|..], SUFFIX);
        var id := if digits.Some? then Parse(digits.value) else None;
        if id.None? {
          return false, None;
        }
        return true, Stored(user, PerCollection(id.value));
      }
      if syncType == "files" {
        return true, Stored(user, Files);
      } else if syncType == "collections" {
        return true, Stored(user, Collections);
      } else if syncType == "albums" {
        return true, Stored(user, Albums);
      }
      return false, None;
    }

    /** clear_sync_state: one user's values go from both tables, nobody else's. */
    method ClearSyncState(user: int)
      requires Valid()
      modifies this
      ensures Valid() && history == old(history) + [Cleared(user)]
      ensures forall u, slot :: Stored(u, slot) == if u == user then None else old(Stored(u, slot))
    {
      syncState := map u | u in syncState && u != user :: syncState[u];
      collectionSyncState := map k | k in collectionSyncState && k.0 != user :: collectionSyncState[k];
      Record(Cleared(user));
    }
  }
}
