# Verified model of the ente CLI's cipher, sync and export

The project models three parts of the ente command-line client, the server code they
lean on, and the string keys that hold them together, and proves properties of them
with Dafny 4.11. `dafny verify dfyconfig.toml` checks everything.

**The stream cipher.** `cli/internal/crypto/stream.go` re-implements libsodium's
secretstream by hand: a key, a 12-byte nonce that is a little-endian counter and 8 bytes
chained with every mac, and `Push` and `Pull`. `Bytes` has the byte loops, `SecretStream`
says what one chunk is as functions on values, `StreamCipher` has the mutable objects and
proves them against those functions, `Streams` reasons about whole streams, `Libsodium`
compares with the rekeying original, `FileCrypt` cuts files into chunks and reads them back.
ChaCha20, HChaCha20 and Poly1305 are arbitrary functions (`SecretStream.Primitives`), so
every theorem holds for any of them.

**Incremental sync.** `SyncMachine` is one album's protocol as a state machine in which
every database put is a step and a stop may fall between any two; `SyncTheorems` has what
its runs guarantee; `ServerDiff` proves that the server's cuts are the pages the client
counts on; `CollectionList` is the list of albums and its cursor; `SyncClient` has the
client's loops, each proved to take only steps of that machine.

**Export.** `Disk` is the in-memory index of an album folder, `Folder` the folder and its
agreement with the index, `Exporter` one entry's turn, `EntryOrder` the sort, `Reconciler`
the loop over all entries, `AlbumFolders` the folders of a whole export directory and
`DiskView` that directory by album id. `Account` is a complete `SyncAccount` run on an
account in any state earlier runs may have left, `History` whole sequences of runs and of
changes on the server, as a trace (`Traces`).

**Keys.** `Decimal` prints and parses integers; `StoreKeys`, `ObjectKeys` and `CursorStore`
prove that the keys built from them separate what they should.

## How to read it

- `puts` in `SyncClient.Client` is the number of store transactions that still succeed; a
  run with any value of it is a run stopped at that put. Every loop says how many puts it
  takes at most, so it ends early only when it is given fewer.
- A file row keeps the time of the version it came from and a stamp, the ordinal of the put
  that stored it. All albums share the file rows, so `applied` remembers the row each album
  put last: what an album shows is that row, or a later put of the same file. Stamps and
  `applied` are bookkeeping of the model; the code has neither.
- A record in a folder carries the row it was exported from, and a listed file the row its
  bytes came from, so a stale copy of a changed file does not count as exported.
- `sizes` in `FileCrypt` gives the size of each read, so short reads are part of the model;
  a read returns at least one byte while there are any.
- `fold` is any idempotent lower-casing that leaves digits, `_` and `.` alone.
- What the network returns (`respond`, `answer`, `Answers`, `Environment`), the random
  header and upload id, and path and string library functions are parameters.

## What the proofs found

- The padding length is `mlen mod 16`, as in the original C, not the pad16 of section 2.8.1 of
  RFC 8439. Padding alone separates no two lengths (`PaddingAloneIsAmbiguous`), the whole
  transcript still determines its parts (`TranscriptInjective`), and the two paddings agree
  exactly on multiples of 8 (`PadIsNotPad16`).
- The port never rekeys. It agrees with libsodium for all primitives exactly on streams of at
  most 2^32 - 1 messages in which no message before the last has the rekey bit
  (`RefinesLibsodium`; `NewStreamRefines` for a stream as the encryptor starts it).
- `DecryptFile` decrypts whatever one read returns. The text comes back for all primitives
  exactly when every read covers its piece (`ReadsMustCover`).
- Without the V2 flag, a one-shot decryption that fails in `Pull` reports an invalid tag,
  because the tag is looked at before the error (`DecryptOnceErrors`).
- A first sync drops delete markers. `isFirstSync` is fixed for a whole run
  (`cli/pkg/remote_sync.go:71`), so holding removals back only while the cursor is zero does
  not make the cursor sound: `FrozenAtZeroIsNotEnough` is such a run, on pages the server
  really sends. The machine holds back the removal of files the client shows or has fetched
  for as long as a first run is open, and `PageSoundExactly` says page by page when the
  shortcut loses nothing.
- The list of albums takes the same shortcut. A first list that stops half-way and is
  repeated leaves an album that was deleted meanwhile live for ever
  (`RepeatedFirstListMissesDeletion`); `ListSoundExactly` is the exact condition.
- An album deleted and later shared again gets an empty folder while its entries are still
  marked synced, and no export brings their files back (`ReturnedAlbumStaysEmpty`).
  `FreshFoldersExactly` is the exact condition under which making folders is safe. A run
  needs no such assumption: it ends with an album done exactly if the album holds what it
  marks synced (`SyncAccount`).
- One turn leaves index and folder in disagreement exactly when a file was moved whose record
  is not written where it is read (`UpdateFolder`): the time stamp cannot be encoded, a live
  photo's extensions differ in case only, or the title is `album_meta` and overwrites the
  album's own metadata. Extensions that are equal are accepted, and the second part replaces
  the first (`PlaceLiveParts`). The same happens when the image of a live photo is moved and
  the move of the video fails.
- A file whose title comes to the name of a folder, such as `.meta`, `.`, `..` or the empty
  title, is never stored: no file name of the folder stands in its way, so the name is free,
  and the move onto a folder fails hard (`FolderTitleNeverStored`). That ends the loop at its
  entry in every run.
- An album whose name comes to `.`, `..` or nothing gets no folder of its own, and the run
  fails when it has one under another name (`PlaceAlbum`).
- In the Rust store `upsert_collection` replaces the collection's row and thereby deletes its
  cursor (`UpsertLosesCursor`), a per-collection cursor can only be written once the
  collection is stored (`UpdateSyncState`), and it outlives its account
  (`AccountKeepsCollectionCursor`). `LastWriteSurvives` says exactly which writes are read back.
- `DeletePrefix` of ML data matches no key, the ML key included (`DeletePrefixMatchesExactly`).

## Model

| member | source | states |
|---|---|---|
| Bytes.XorBuf | cli/internal/crypto/utils.go:9-13 | the slice becomes its position-wise xor with the input; bytes before the slice stay |
| Bytes.XorIsBitwise | cli/internal/crypto/utils.go:9-13 | each bit of the xor of two bytes is set iff it is set in exactly one of them |
| Bytes.BufInc | cli/internal/crypto/utils.go:15-23 | the carry loop leaves the slice spelling the next number, everything outside it unchanged |
| Bytes.IncrementedValue | cli/internal/crypto/utils.go:15-23 | the little-endian value of the incremented buffer is the next number of that width |
| Bytes.NextIsModular | cli/internal/crypto/utils.go:15-23 | the next number is plus one modulo 256^n |
| SecretStream.TagBlockRebuilt | cli/internal/crypto/stream.go:301-315 | from the first byte of a chunk the receiver decodes the sender's tag, and rebuilds exactly the block the sender authenticated, iff that byte is the sender's |
| SecretStream.SealedBytes | cli/internal/crypto/stream.go:109-192 | a chunk byte by byte: tag under key stream byte 64, text under the bytes from 128 on, mac of tag block and ciphertext under the first 32 bytes, so no key stream byte is used twice in a message |
| SecretStream.ChainedWithMac | cli/internal/crypto/stream.go:196-199 | the state after a message has the same key, the next counter, and an inner nonce mixed with the mac the chunk ends in |
| SecretStream.MacsSeparateStates | cli/internal/crypto/stream.go:196-199 | after two messages from one state the states are equal iff the macs agree in their first 8 bytes |
| SecretStream.AcceptsExactlySealed | cli/internal/crypto/stream.go:243-386 | a chunk is accepted as (text, tag) with a successor state iff it is that message sealed in the same state and the state is the sender's next one |
| SecretStream.SealedInjective | cli/internal/crypto/stream.go:109-214 | two messages with one chunk in one state are the same message |
| SecretStream.TranscriptParts | cli/internal/crypto/stream.go:153-186 | the bytes authenticated are exactly tag block, ciphertext, zeros up to the padding length, an empty length and the real one |
| SecretStream.TranscriptInjective | cli/internal/crypto/stream.go:153-186 | the bytes given to Poly1305 determine the tag block and the ciphertext, for the padding really written |
| SecretStream.PadIsNotPad16 | cli/internal/crypto/stream.go:174-175 | the padding length equals pad16 iff the length is a multiple of 8 |
| SecretStream.PaddingAloneIsAmbiguous | cli/internal/crypto/stream.go:171-175 | ciphertexts of 8 and 16 zero bytes have the same padded form |
| Streams.RoundTrip | cli/internal/crypto/stream.go:109-386 | a receiver fed the sealed chunks in order, with rejected chunks anywhere between, returns exactly the messages and ends in the sender's state |
| Streams.OnlySealedIsAccepted | cli/internal/crypto/stream.go:243-386 | whatever is fed in, the accepted chunks are the received messages sealed in order and the state is the sender's after them |
| Streams.InStep | cli/internal/crypto/stream.go:196-199 | after every prefix of a stream both ends hold the same key and nonce |
| Streams.SealAllInjective | cli/internal/crypto/stream.go:109-214 | streams with the same chunks from the same state carry the same messages |
| Streams.ChainAfter | cli/internal/crypto/stream.go:196-199 | after any stream the inner nonce is the first one with the macs of all chunks mixed in, in turn |
| Streams.CounterAfter | cli/internal/crypto/stream.go:196-199 | after k messages the counter has advanced by k modulo 2^32 and the key is the same |
| Streams.NonceFresh | cli/internal/crypto/stream.go:135-199 | two messages of a stream fewer than 2^32 apart use the same key and different nonces |
| Libsodium.SameBytes | cli/internal/crypto/stream.go:196-206 | while no rekey is due before the last message the port writes libsodium's bytes and passes through its states |
| Libsodium.RekeyTags | cli/internal/crypto/stream.go:15-25 | the rekey bit is the second bit, set in the rekey and final tags and in neither of the others |
| Libsodium.RekeyedBytes | cli/internal/crypto/stream.go:201-206 | a rekey byte by byte: key and inner nonce under the first 40 bytes of key stream, counter 1 |
| Libsodium.EarlyRekeyShows | cli/internal/crypto/stream.go:201-206 | once a rekey is due earlier, some primitives make the bytes differ |
| Libsodium.RefinesLibsodium | cli/internal/crypto/stream.go:368-376 | bytes agree for all primitives iff there are at most 2^32 - 1 messages and none before the last has the rekey bit |
| Libsodium.NewStreamRefines | cli/internal/crypto/stream.go:50-107 | the same exact condition for a stream as the encryptor starts it with any key and header, the first counter being 1 |
| StreamCipher.Cipher.NewEncryptor | cli/internal/crypto/stream.go:79-107 | fails iff the key is not 32 bytes; else key and nonce are those derived from the first 16 bytes of the header and made of counter 1 and its last 8 bytes |
| StreamCipher.Cipher.NewDecryptor | cli/internal/crypto/stream.go:216-241 | fails iff the key is not 32 bytes; else key and nonce are the encryptor's for the header, for headers of another length those of the header cut or zero-filled to 24 bytes |
| StreamCipher.Cipher.Authenticate | cli/internal/crypto/stream.go:163-192 | the mac is the authenticator's on tag block, ciphertext, padding and the two lengths, under the one-time key |
| StreamCipher.Cipher.Push | cli/internal/crypto/stream.go:109-214 | the output is the sealed message of the old state and the new state its successor: key kept, counter stepped, inner nonce mixed with the last 16 bytes of the output |
| StreamCipher.Cipher.Pull | cli/internal/crypto/stream.go:243-386 | the three outcomes and the new state are those of opening the chunk; an accepted chunk steps the counter and mixes its last 16 bytes into the inner nonce, a rejected one leaves the state alone |
| FileCrypt.Cut | cli/internal/crypto/crypto_libsodium.go:193-219 | every text has a cut into full non-final pieces and one final piece, and the pieces give the text |
| FileCrypt.CutSizes | cli/internal/crypto/crypto_libsodium.go:193-203 | the number of pieces of a text, and the size of every chunk but the last: 4 MiB and 17 bytes; the last piece alone has tag 3 |
| FileCrypt.RealignsFrom | rust/src/crypto/stream.rs:116-130 | reads that cover their pieces fall on the chunk boundaries, from any piece on, so the loop returns the whole text |
| FileCrypt.FileRoundTrip | rust/src/crypto/stream.rs:108-133 | any text, cut at 4 MiB and sealed, is returned whole by full reads, with and without rekeying |
| FileCrypt.ShortReadFails | cli/internal/crypto/crypto_libsodium.go:193-203 | a read that falls short of its piece makes the loop fail for some primitives, from every state |
| FileCrypt.ReadsMustCover | cli/internal/crypto/crypto_libsodium.go:193-219 | the Go loop returns the text for all primitives iff every read covers its piece |
| FileCrypt.DecryptsExactly | rust/src/crypto/stream.rs:116-130 | full reads give a text iff the data are messages with that text sealed in order, none but the last final |
| FileCrypt.StreamDecryptor.Pull | rust/src/crypto/stream.rs:59-91 | a chunk is taken iff it is some message sealed in the present state, and then it yields that message and moves on as the sender does; a refused chunk leaves the state alone |
| FileCrypt.DecryptFileData | rust/src/crypto/stream.rs:108-133 | wrong key or header lengths fail; else the slicing loop computes the decryption function with full reads, whose exact meaning DecryptsExactly gives |
| FileCrypt.DecryptFile | cli/internal/crypto/crypto_libsodium.go:185-224 | fails on a key of wrong length; else the read loop computes the decryption function for the sizes the reads really had |
| FileCrypt.DecryptChaCha20Poly1305 | cli/internal/crypto/crypto_libsodium.go:72-106 | key error, invalid tag, failed pull or text, in the source's order of checks, for both versions |
| FileCrypt.DecryptOnceExactly | cli/internal/crypto/crypto_libsodium.go:72-106 | a text comes back iff the data are that text sealed with the final tag, or in V2 with the message tag |
| FileCrypt.DecryptOnceErrors | cli/internal/crypto/crypto_libsodium.go:76-106 | the two errors, exactly: data that are no sealed message fail the pull in V2 and have an invalid tag otherwise; sealed with a tag that is not admitted they have an invalid tag |
| FileCrypt.EncryptChaCha20Poly1305 | cli/internal/crypto/crypto_libsodium.go:34-44 | succeeds iff the key has 32 bytes, and yields the text sealed with the final tag in the initial state, which DecryptOnceExactly reads back |
| Decimal.PrintRoundTrip | rust/src/storage/sync.rs:182-188 | parsing a printed signed 64-bit integer gives it back |
| Decimal.LeadingDigit | rust/src/storage/sync.rs:182-188 | a run of digits is read with the most significant digit first |
| Decimal.ParseExactly | rust/src/storage/sync.rs:182-188 | a string parses to a number iff it is an optional fitting sign, any leading zeros and the number's digits, and the number fits 64 bits |
| StoreKeys.EntryKeyInjective | cli/pkg/bolt_store.go:10-12 | entry keys are equal iff album and file are, so the bucket is a map over pairs |
| StoreKeys.CursorKeysSeparate | cli/pkg/model/constants.go:12-16 | cursor keys of different albums differ and none is a fixed key |
| StoreKeys.KeyExamples | cli/pkg/bolt_store.go:10-12 | the album comes first in an entry key, and a cursor key ends in its album |
| ObjectKeys.Key | server/ente/filedata/path.go:27-47 | one name for each object agrees with the two key functions |
| ObjectKeys.KeyParts | server/ente/filedata/path.go:10-47 | a key part by part: owner, folder for derived data, file, type, and for previews the id |
| ObjectKeys.UploadIDsExactly | server/ente/base/id.go:14-31 | an upload id is exactly pv_ or pi_ and 22 letters and digits |
| ObjectKeys.KeysDistinct | server/ente/filedata/path.go:27-64 | all video, playlist, image and ML keys over all owners and files are equal only for the same object |
| ObjectKeys.BasePrefixMatchesExactly | server/ente/filedata/path.go:10-14 | a key starts with a base prefix iff it is one of that owner's file |
| ObjectKeys.DeletePrefixMatchesExactly | server/ente/filedata/path.go:49-51 | a key starts with a delete prefix iff the type is a preview type and the key is that file's of that type |
| CursorStore.RouteOfKey | rust/src/storage/sync.rs:178-205 | for every slot, with any signed 64-bit collection id, the printed key routes to that slot |
| CursorStore.RouteExactly | rust/src/storage/sync.rs:178-205 | a type routes to a slot iff it is the slot's fixed name, or collection_, a spelling of the id and _files |
| CursorStore.LastWriteSurvives | rust/src/storage/schema.rs:104-129 | over any history a slot still holds the last value written to it iff no later statement erases it: an upsert of its collection, a deletion of the account for the fixed names, a clearing of the user; otherwise it holds nothing |
| CursorStore.NoCrossKeyEffect | rust/src/storage/sync.rs:178-260 | a write under one user and key leaves what every other user and key reads |
| CursorStore.UpsertLosesCursor | rust/src/storage/sync.rs:20-39 | replacing a collection row takes its cursor away, so a stored per-collection cursor does not survive the next list of collections |
| CursorStore.AccountKeepsCollectionCursor | rust/src/storage/schema.rs:118-129 | deleting an account leaves its per-collection cursors in place |
| CursorStore.SyncStore.AddAccount | rust/src/storage/account.rs:20-38 | refused iff the user has an account or the email has one at the endpoint |
| CursorStore.SyncStore.DeleteAccount | rust/src/storage/account.rs:91-105 | fails iff there is no such account; else the user's fixed slots read nothing, all other slots what they read before |
| CursorStore.SyncStore.UpsertCollection | rust/src/storage/sync.rs:20-39 | that collection's cursors read nothing for all users, every other slot what it read before |
| CursorStore.SyncStore.UpdateSyncState | rust/src/storage/sync.rs:178-215 | accepted iff the type is routable and the row the slot hangs on is stored; then that slot of that user reads the value written, and nothing else changes |
| CursorStore.SyncStore.GetLastSync | rust/src/storage/sync.rs:218-260 | fails iff the type is not routable; else gives what the history leaves in the slot, whose exact meaning LastWriteSurvives gives |
| CursorStore.SyncStore.ClearSyncState | rust/src/storage/sync.rs:274-287 | every slot of this user reads nothing, every slot of the others what it read before |
| SyncMachine.StepKeeps | cli/pkg/remote_sync.go:66-130 | every step of client, server, reconciler and other albums keeps the invariant, wherever a run stops |
| SyncMachine.CursorAlwaysSound | cli/pkg/remote_sync.go:66-130 | in every reachable state each server row up to the stored cursor is reflected: a removed one by no live entry, a live one by a live entry and by a row the album put in that version or a newer one, which is stored unless put again since |
| SyncMachine.MovesAreSteps | cli/pkg/remote_sync.go:73-90 | what the server does between two calls is a run of the machine at any point of a fetch, removals excepted while a first sync is open |
| SyncMachine.RunFrames | cli/pkg/remote_sync.go:99-116 | a fetch only puts entries, marks each put entry to be synced again, puts the album's rows for those alone, and takes no file row away |
| SyncTheorems.PutRowsEffect | cli/pkg/remote_sync.go:91-117 | what the rows of a page leave of each file: live with its row, gone, or untouched |
| SyncTheorems.PageSoundExactly | cli/pkg/remote_sync.go:91-129 | after a page everything up to the next cursor is reflected, in its version or a newer one, iff a first sync met no marker of a live entry |
| SyncTheorems.PageSteps | cli/pkg/remote_sync.go:91-117 | storing the rows one by one is a run of the machine that ends where the page's net effect says |
| SyncTheorems.FrozenAtZeroIsNotEnough | cli/pkg/remote_sync.go:71-98 | with removals held back only at cursor zero, a run on two pages the server really sends for limit 1 leaves a removed file live behind the cursor |
| SyncTheorems.CaughtUp | cli/pkg/remote_sync.go:71-130 | for a server that holds still, a caught-up album has exactly the server's live entries and file rows of the server's times, whatever the pages, stops and restarts |
| SyncTheorems.PageAndRestartIndependence | cli/pkg/remote_sync.go:71-130 | any two such runs end with the same live entries and file rows |
| ServerDiff.RemoveFilesWithVersion | server/pkg/controller/collections/files_diff.go:100-111 | the loop drops the last rows of that time |
| ServerDiff.EarlierRowsAreLeft | server/pkg/controller/collections/files_diff.go:100-111 | of a list in order of time that ends at that time exactly the rows of earlier times are left |
| ServerDiff.DiffPageIsValid | server/pkg/controller/collections/files_diff.go:50-63 | for every limit the answer is a page the client may count on, and which rows it has: all when they fit, else those earlier than the first row over the limit, or that row's time alone when nothing is earlier; hasMore is set exactly when not everything fits |
| ServerDiff.GetDiff | server/pkg/controller/collections/files_diff.go:64-98 | the method computes that answer |
| CollectionList.LatestKeptIsLeast | cli/pkg/remote_sync.go:24-47 | the stored collection time is the least one that neither the old cursor nor any kept collection is later than |
| CollectionList.ListSoundExactly | cli/pkg/remote_sync.go:24-47 | after an answer the new collection cursor can be relied on iff a first list met no deleted collection that is live in the store |
| CollectionList.AnswerShowsAll | cli/pkg/remote_sync.go:15-49 | a whole answer makes the store show every collection |
| CollectionList.RepeatedFirstListMissesDeletion | cli/pkg/remote_sync.go:28-30 | the failing input: a first list stopped half-way and repeated leaves a collection deleted meanwhile live behind the cursor, and no later answer mentions it |
| SyncClient.Client.StoreRow | cli/pkg/remote_sync.go:91-117 | the puts of one row are steps of the machine; it succeeds iff there are as many puts left as the row takes |
| SyncClient.Client.StorePage | cli/pkg/remote_sync.go:90-117 | the rows of a page are steps of the machine and maxUpdated is the latest time of cursor and rows; it succeeds iff there are as many puts left as the rows take |
| SyncClient.Client.FetchPage | cli/pkg/remote_sync.go:86-129 | one turn of the loop is a run of the machine and stores the page's last time, or the album's own time when there is no more; it succeeds iff there are more puts left than the rows take |
| SyncClient.PageMakesProgress | cli/pkg/remote_sync.go:118-129 | a page with more behind it moves the cursor forward and leaves strictly fewer rows later than it |
| SyncClient.Client.FetchAlbum | cli/pkg/remote_sync.go:66-130 | the loop ends, its steps are the machine's; with more than three puts for each row later than the cursor it ends with the cursor at the album's time, and otherwise only on a failed put; other albums' entries and cursors stay, and an album at its own time is left alone |
| SyncClient.Client.FetchMoving | cli/pkg/remote_sync.go:66-130 | the same loop against a server that changes between the calls: the steps are a run of the machine with one fetch for each call, of the page answered for the cursor of that call; the cursors go from the stored one by the last time of each page to the album's own time at a page without more, which ends the loop; puts are counted exactly, and wherever it ends the cursor is sound |
| SyncClient.Client.FetchRemoteFiles | cli/pkg/remote_sync.go:51-133 | all albums keep the invariant; exactly the live unskipped albums behind their time are fetched, and none is left behind if there are puts for all their rows |
| SyncClient.Client.FetchRemoteCollections | cli/pkg/remote_sync.go:15-49 | any answer: it succeeds iff there is a put for each kept entry and one for the cursor when that moves; the store has the puts of the part before the failed one, and the cursor moves, to the latest kept time, only on success |
| SyncClient.Client.FetchAll | cli/pkg/sync.go:82-91 | whatever earlier stopped runs left, the disk is only reached with a file row for every live entry and every live album caught up, and it is reached with puts for the list and all rows behind; where nothing lags behind, entries and rows stay |
| Disk.AlbumDiskInfo.AddEntry | cli/pkg/disk.go:39-55 | succeeds exactly on new id, new metadata name and new distinct file names; says which maps changed in each failure |
| Disk.AlbumDiskInfo.RemoveEntry | cli/pkg/disk.go:57-70 | fails exactly on an unknown id or metadata name, else all three maps lose the entry |
| Disk.AlbumDiskInfo.GenerateUniqueFileName | cli/pkg/disk.go:94-106 | ends for every index with the first of base+ext, base_1+ext, ... that is free ignoring case |
| Disk.AlbumDiskInfo.GenerateUniqueMetaFileName | cli/pkg/disk.go:78-91 | the same among metadata names |
| Disk.AddThenRemove | cli/pkg/disk.go:39-70 | removing what was just added restores the index exactly |
| Disk.GeneratedIsAddable | cli/pkg/disk.go:39-106 | an entry with generated names is accepted |
| Folder.AgreesUnique | cli/pkg/remote_to_disk_file.go:232-293 | a folder has one agreeing index, so agreement is equality with the rebuilt index |
| Folder.RemoveKeepsWellFormed | cli/pkg/remote_to_disk_file.go:213-227 | removing a record and its files leaves the folder well-formed |
| Folder.RemoveKeepsAgreement | cli/pkg/remote_to_disk_file.go:213-227 | and the index in agreement with it |
| Folder.RemoveKeepsOthers | cli/pkg/remote_to_disk_file.go:213-227 | exactly that record goes, other records and their files stay |
| Folder.RemoveKeepsContent | cli/pkg/remote_to_disk_file.go:213-227 | the files every other record lists still hold that record's remote file |
| Folder.AddKeepsWellFormed | cli/pkg/remote_to_disk_file.go:194-203 | storing an addable entry leaves the folder well-formed |
| Folder.AddKeepsAgreement | cli/pkg/remote_to_disk_file.go:194-203 | and the index in agreement with it |
| Folder.AddKeepsOthers | cli/pkg/remote_to_disk_file.go:194-203 | exactly that record comes, no existing file is overwritten |
| Folder.AddKeepsContent | cli/pkg/remote_to_disk_file.go:184-203 | the files each record lists hold the remote file and the row that record was made from |
| Folder.ReadFilesMetadata | cli/pkg/remote_to_disk_file.go:232-293 | the rebuilt index agrees with the folder |
| Exporter.GeneratedIsIndexed | cli/pkg/remote_to_disk_file.go:263-269 | a generated metadata name is one the reader reads, unless the title is album_meta and that name is free |
| Exporter.RemoveDiskFile | cli/pkg/remote_to_disk_file.go:213-227 | record and listed files go, the index loses the entry, agreement and well-formedness stay |
| Exporter.PlaceLiveParts | cli/pkg/remote_to_disk_file.go:162-181 | each part is moved to the first free name under its own extension until a name is a folder's; equal extensions share one file, and the names clash iff the extensions differ in case only |
| Exporter.FolderTitleNeverStored | cli/pkg/remote_to_disk_file.go:184-190 | the failing family: a photo named like a folder, .meta, ., .., / or nothing, always ends in a hard error once decrypted, with nothing moved |
| Exporter.UpdateFolder | cli/pkg/remote_to_disk_file.go:116-203 | for every title, download and time stamp: the outcome by what the download gave (network, decryption, no zip, unexpected part, no part, stored) and the folder after the turn; index and folder agree iff nothing was moved or the record was written where it is read, and then other records and files stay and exactly this file's record comes or goes |
| EntryOrder.SortedEntries | cli/pkg/model/remote.go:65-72 | the result is a permutation |
| EntryOrder.SortedEntriesSorted | cli/pkg/model/remote.go:65-72 | deleted entries first, and by album among the deleted and among the others |
| EntryOrder.ReadsBounded | cli/pkg/remote_to_disk_file.go:66-71 | a one-slot cache fills at most twice for an album on any sorted list of requests |
| Reconciler.ExportPutIsStep | cli/pkg/remote_to_disk_file.go:127-208 | the put that ends a file's turn is a step of the sync machine, marking the entry synced or dropping it |
| Reconciler.Export.DownloadEntry | cli/pkg/remote_to_disk_file.go:116-211 | after any return folder, entries and index are consistent and other records' files hold what they held; the outcome is the download's, case by case, unless the put fails, and unless it is hard the entry is gone or is synced just when its record is there, in no older version |
| Reconciler.Export.IndexOf | cli/pkg/remote_to_disk_file.go:66-71 | the folder is read exactly when the slot holds no or another album, and either way the index equals a fresh read |
| Reconciler.Export.SyncItem | cli/pkg/remote_to_disk_file.go:46-111 | one entry's turn in every branch: only that file of that album is affected; a skipped album, a synced entry or an album without folder is left alone; an entry of a deleted album goes; it stops on a failed put or a pending file whose download fails in the network or holds an unexpected part, crashes exactly on a pending file without row |
| Reconciler.SortedReads | cli/pkg/remote_to_disk_file.go:43-71 | with any skipping, a sorted list makes the loop read each folder at most twice |
| Reconciler.RunKeepsShown | cli/pkg/remote_to_disk_file.go:20-114 | after a run, stopped or not, every entry marked synced has its record, in no older version, iff that was so before it |
| Reconciler.Converged | cli/pkg/remote_to_disk_file.go:20-114 | when all entries had their turn and downloads work, an album shows exactly its live entries, in no older version and all synced, iff every entry marked synced before had its record |
| Reconciler.ExportedIsQuiet | cli/pkg/remote_to_disk_file.go:46-57 | after that another run finds nothing to do |
| Reconciler.Export.SyncFiles | cli/pkg/remote_to_disk_file.go:20-114 | the loop keeps everything consistent wherever it stops; with a put for each entry it stops only at a pending file whose download failed in the network or, of a live photo, has an unexpected part, and it completes only past none; failed decryptions and bad zips never end it; it settles every entry when it completes, leaves entries and folders of skipped albums alone and unread, reads each folder at most twice, crashes only on a missing file row, and changes and reads nothing when there is nothing to do |
| DiskView.FoldersRefine | cli/pkg/remote_to_disk_album.go:16-106 | names and renames aside, the folder run yields a folder for each live album with its old content or empty, and none for a deleted one |
| DiskView.LoadDisk | cli/pkg/remote_to_disk_album.go:110-141 | reading the export directory again gives its folders by album id |
| Account.ListEntries | cli/pkg/remote_to_disk_file.go:38-41 | every entry of the store, each once |
| Account.SortedSnapshot | cli/pkg/remote_to_disk_file.go:43-43 | sorting loses and doubles no entry |
| Account.FreshFoldersExactly | cli/pkg/remote_to_disk_album.go:28-104 | making folders leaves every live album holding what it marks synced iff no album getting a fresh folder has an entry marked synced |
| Account.ReturnedAlbumStaysEmpty | cli/pkg/remote_to_disk_file.go:46-57 | the failing family: any album with a synced entry that is found deleted and later live has an empty folder, and after any export the entry is still marked synced and has no record |
| Account.CaughtUpIsLive | cli/pkg/remote_sync.go:73-76 | a caught-up album has exactly the server's live files as live entries, each put in the server's version or a newer one |
| Account.ExportKeepsHeld | cli/pkg/remote_to_disk_file.go:46-57 | the export takes from no album what it holds and gives back to none what it has lost |
| Account.MakeFolders | cli/pkg/sync.go:92-96 | the folder loop on the export directory, read again by album id: a folder for each live album and no other, old contents kept |
| Account.ExportAll | cli/pkg/sync.go:97-101 | never fatal; with working downloads and a put for each file of an album it completes and every album that holds what it marks synced is done; run on an exported state it changes nothing |
| Account.ItemsFit | cli/pkg/remote_to_disk_file.go:38-42 | there are never more entries than files of albums on the server |
| Account.SyncAccount | cli/pkg/sync.go:71-103 | whatever stopped runs left, a run keeps the account in order and is never fatal; with working downloads and as many puts as list, rows behind and files come to it completes, and then an album is done iff it holds what it marks synced: exactly the records of the server's live files, each of the server's version or a newer one and listing files that hold it, all entries synced. A run takes that from no album, and an up-to-date account it leaves as it is |
| History.NewAccount | cli/pkg/sync.go:71-80 | an empty store and directory are in order against any server |
| History.FileChangeKeeps | cli/pkg/remote_sync.go:66-98 | a file changed on the server between runs keeps the account in order; only a removal during a half-done first sync waits |
| History.AlbumChangeKeeps | cli/pkg/remote_sync.go:15-49 | an album that appears, is renamed or deleted between runs keeps the account in order; only a deletion during a half-stored first list waits |
| History.Replay | cli/pkg/sync.go:71-103 | export convergence over every history from an empty account and server: there is a trace with a moment between any two events, each in order and following from the one before by what its event does to the server and to the account; a run with working downloads and puts enough leaves every live album done and nothing to do |
| History.SecondRunChangesNothing | cli/pkg/sync.go:71-103 | in any history, a run after such a run changes neither disk nor entries, whatever becomes of it |
| AlbumFolders.FoldersNeverCollide | cli/pkg/remote_to_disk_album.go:28-104 | at every step distinct albums have distinct folders and every recorded folder is claimed |
| AlbumFolders.SanitizeExactly | cli/pkg/remote_to_disk_album.go:52-56 | the folder name is the trimmed form of the cleaned name with exactly its colons and slashes replaced |
| AlbumFolders.OrdinaryIsKept | cli/pkg/remote_to_disk_album.go:52-56 | a name that cleaning and trimming leave alone, without colon or slash, is its own folder name |
| AlbumFolders.FreshFolderName | cli/pkg/remote_to_disk_album.go:60-68 | the search ends with the first unclaimed of name, name_1, name_2, ... |
| AlbumFolders.ReadFolderMetadata | cli/pkg/remote_to_disk_album.go:110-141 | in any listing order, every folder is claimed and the album map is exactly the folders' metadata |
| AlbumFolders.FolderRemovedTracks | cli/pkg/remote_to_disk_album.go:32-42 | removing a deleted album's folder leaves the maps telling the truth and other folders alone |
| AlbumFolders.PlacedTracks | cli/pkg/remote_to_disk_album.go:69-103 | making or renaming to an unclaimed name overwrites no folder, keeps content and leaves the maps telling the truth |
| AlbumFolders.ExportDir.PlaceAlbum | cli/pkg/remote_to_disk_album.go:28-104 | an album is in place afterwards under the first unclaimed name of its own, or untouched if it was; an ordinary unclaimed name is the folder's very name; a name made has no separator and is not ., .. or empty; without a plain name the album gets no folder, and fails to move the one it has; nobody else's folder changes |
| AlbumFolders.ExportDir.CreateLocalFolders | cli/pkg/remote_to_disk_album.go:16-106 | every album ends in place and named after itself, under its own name if that is ordinary and no folder had it before nor an earlier album has it, or without folder and plain name; contents move along, new folders are empty, strangers and skipped albums stay, a second run on the same list changes nothing, and only a move to a name that is not plain ends the loop early |

## Left out

- ChaCha20, HChaCha20, Poly1305, Argon2, BLAKE2b, secretbox, sealed boxes and SRP: foreign code; the first three are arbitrary functions, and ChaCha20's own limit on blocks per nonce (256 GiB) is not modelled.
- Errors of the Go cipher library for a key or nonce of the wrong size: they cannot occur inside Push and Pull, where both are fixed arrays.
- FileCrypt.DecryptFile: pieces written before a failing one stay in the output file; the model only says that the call failed.
- FileCrypt.ReadSize: a read that returns no byte while there are some left, which Go's readers may but files do not do, is taken as one byte.
- FileCrypt.StreamDecryptor.Pull: libsodium's own code is represented by its published construction, the port's checks with rekeying.
- HTTP, retries and backoff (the loop around SyncAccount), prompts, logs, the keyring: plumbing.
- Decryption and mapping errors of collections and files before a put: they stop a run like a failed put and are covered by `puts`.
- The bolt database and SQL tables are maps with atomic puts; album-entry keys are pairs, which StoreKeys justifies. JSON is taken as the value it encodes.
- The file system: single operations are atomic and succeed; a crash between two of them, cross-device moves, permissions and zip parsing are not modelled.
- Folder.WellFormed: readFilesMetadata is proved on folders whose names differ ignoring case and whose record ids differ; on others the source lets the later file win, and subdirectories are skipped.
- Reconciler.Export.SyncFiles: files are assumed to have an encodable time stamp, a name that is not a folder's, a title other than album_meta and no extensions that differ in case only; UpdateFolder states what each of them does to one turn. A failed deletion of an entry without a file row, fatal in the source, counts as a stop.
- SyncMachine: a removal of a file the client shows or has fetched waits while a first sync is open; `PageSoundExactly` says what is lost otherwise.
- Account.SyncAccount: no filter, the names of live albums are plain, and the server holds still during one run; SyncMachine and FetchMoving let it change between the steps of a fetch.
- History.Replay: the changes that may happen between runs are those of `FileMayChange` and `AlbumMayChange`, so no removal of a live file during a half-done first sync, no deletion during a half-stored first list, no album that comes back after its deletion, and no live album without a plain name; what each of these loses is stated above. Every change is later than all the client has seen.
- Exporter.UpdateFolder: a live photo titled with slashes only, whose path would lose the slash, is taken by its name.
- AlbumFolders.ExportDir.CreateLocalFolders: an album without a plain name claims the metadata folder it makes in the export directory at once, the code only from the next run on, which matters to an album called `.meta` alone; the album metadata written there is not modelled. Names on disk are compared exactly, as the source does; a case-insensitive file system is not modelled.
- EntryOrder.SortedEntries: the library's sort is represented by some sorted permutation, and no result depends on which.
- `filepath.Clean`, `Base`, `Ext`, `TrimSpace`, `EqualFold` and `ToLower` are parameters with the few laws used.
- CursorStore.SyncStore.AddAccount: the app column is always photos.
- CursorStore.SyncStore.UpdateSyncState: updated_at is not kept.
- The Rust export command and fetch loop: parallel ports with weaker guarantees; the Go versions are modelled.
- Server handlers, arithmetic helpers such as storage bonus sums, validators, role checks and the user interfaces are out of scope.
