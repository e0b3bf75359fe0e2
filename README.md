# Chunked browsing-history store

This project models `historyStorage` from `src/lib/history.ts`, the
client-side browsing history of the dashboard. The store does not keep one
big list. It spreads items (`{url, t}` with `t` in seconds) over numbered
chunks of at most `CHUNK_SIZE = 1000` items, each under its own storage key
`history_chunk_<id>`. A metadata record `history_meta` holds, for each chunk
id, the number of free slots left in that chunk.

- `add` writes one url into the first chunk that still has room (first
  fit), or opens a new chunk when every chunk is full.
- `addBulk` writes a batch. It keeps one chunk open in memory and writes it
  back when it fills up, then moves forward to the next chunk with room.
- `remove` filters one chunk and gives the freed slots back.
- `clear` deletes the chunk keys and the metadata.
- `getAll` first migrates the pre-chunking key `app_history` once. It then
  collects every chunk in id order, tags each item with its chunk id, and
  sorts the result newest first.

The model has three modules:

- `HistoryModel` (`history_model.dfy`) describes the storage as a value
  `Store(capacities, chunks, legacy)`. Every operation is a function from
  the state before to the state after. It also holds the store invariant
  `Consistent`: capacity plus chunk length is `CHUNK_SIZE` for every chunk,
  and the chunk keys are exactly the ids the metadata lists.
- `HistoryProofs` (`history_proofs.dfy`) proves what the store promises
  about those functions.
- `HistoryStore` (`history_store.dfy`) is the class `HistoryStorage`. Its
  three fields are the three storage keys. Its methods update them step by
  step, as the source does: `addBulk`'s open-chunk loop and `clear`'s and
  `getAll`'s loops are real loops. Each method is proved to end in the
  state its `HistoryModel` function describes, and to keep `Consistent`.

The wall clock (`Math.floor(Date.now() / 1000)`) is the parameter `now`.

The proofs are about these reference definitions in `HistoryModel`:

- `GetChunk(chunks, id)` is getChunk (lines 34-51): the stored chunk, or the
  empty chunk when the key is absent.
- `BulkAdded(s, urls, now)` is addBulk's intended result: one first-fit
  write (`Append`) per url, in order, all stamped `now`.
- `Cleared(s)` is clear: the metadata is gone, and only the chunk keys
  beyond the metadata (none, on a consistent store) and the legacy key stay.
- `Migrated(s, now)` is the migration at the head of getAll: a readable
  legacy list goes through `BulkAdded` and the legacy key is deleted; any
  other legacy value is left as it is.
- `Tagged(s)` is getAll's collection before the sort: chunks 0 up to the
  metadata length, in id order, each item tagged with its chunk id.

## Model

| member | source | states |
|---|---|---|
| HistoryModel.FirstWithCapacity | src/lib/history.ts:148 | the forward `findIndex`: -1 exactly when no chunk at or after `from` has room; otherwise the first such chunk, which has capacity > 0 |
| HistoryModel.Target | src/lib/history.ts:109-114 | add's chunk choice: the first chunk with room. It is `\|capacities\|` (a new chunk) only when every chunk is full |
| HistoryModel.Append | src/lib/history.ts:108-121 | one write: the target chunk gains exactly `{url, now}` at its end and loses one slot. A new chunk starts at CHUNK_SIZE. No other chunk, capacity or the legacy key changes |
| HistoryModel.Added | src/lib/history.ts:90-91 | add changes the store if and only if the url is non-empty |
| HistoryModel.Stamp | src/lib/history.ts:160 | the items a batch stores: url `j` of the batch with the one timestamp `now`, in order |
| HistoryModel.Without | src/lib/history.ts:175 | remove's filter drops every entry equal in url and timestamp, and keeps the count of every other item |
| HistoryModel.WithoutNothing | src/lib/history.ts:175-177 | when the filter drops nothing, the chunk is returned unchanged and holds no matching entry |
| HistoryModel.Removed | src/lib/history.ts:170-182 | an unknown chunk id leaves the store unchanged. Otherwise that chunk becomes the filtered chunk and its capacity rises by the number of dropped entries; nothing else changes |
| HistoryModel.InsertByTime | src/lib/history.ts:87 | inserting into a newest-first list keeps it newest first and adds exactly that item |
| HistoryModel.SortNewestFirst | src/lib/history.ts:87 | the sort `(a, b) => b.t - a.t`: the result is newest first and a permutation of its input |
| HistoryProofs.AppendKeepsConsistent | src/lib/history.ts:108-121 | a write keeps `capacity + length == CHUNK_SIZE` for every chunk, with every capacity in 0..CHUNK_SIZE |
| HistoryProofs.BulkKeepsConsistent | src/lib/history.ts:124-168 | addBulk keeps the store invariant |
| HistoryProofs.RemovedKeepsConsistent | src/lib/history.ts:170-182 | remove keeps the store invariant: the capacity rises by exactly what the chunk lost |
| HistoryProofs.MigratedKeepsConsistent | src/lib/history.ts:63-75 | the migration keeps the store invariant |
| HistoryProofs.ClearEmpties | src/lib/history.ts:184-190 | on a consistent store, clear leaves no metadata and no chunk key, only the legacy key |
| HistoryProofs.PendingWrite | src/lib/history.ts:160-161 | a url that fits goes into the open chunk. The loop state then equals one more first-fit write (`Append`), which unlike add also stores the empty url |
| HistoryProofs.PendingMove | src/lib/history.ts:139-158 | when the open chunk is full, the forward scan from it finds the same chunk as add's first-fit scan from chunk 0, and that chunk has room |
| HistoryProofs.PendingStep | src/lib/history.ts:138-162 | one pass of addBulk's loop takes the state of the first `i` urls to the state of the first `i + 1` urls |
| HistoryProofs.PendingDone | src/lib/history.ts:164-167 | writing back the open chunk and its capacity at the end gives the state of the whole batch |
| HistoryProofs.AppendKeepsTargetOrder | src/lib/history.ts:109 | after a write, the next write never goes to an earlier chunk |
| HistoryProofs.TargetsAscending | src/lib/history.ts:138-158 | the chunk ids a batch writes to never decrease along the batch |
| HistoryProofs.BulkChunks | src/lib/history.ts:138-165 | after addBulk every chunk is its old contents followed by exactly the batch's urls assigned to it, stamped `now`, in input order |
| HistoryProofs.BulkLength | src/lib/history.ts:130-154 | the capacity list only grows, by at most one chunk per url |
| HistoryProofs.TargetsListed | src/lib/history.ts:128-157 | every url lands in a chunk that the metadata lists afterwards |
| HistoryProofs.BulkCapacities | src/lib/history.ts:136-166 | every chunk's capacity falls by exactly the number of urls it received. A chunk opened during the batch starts at CHUNK_SIZE |
| HistoryProofs.BulkOpensWhenFull | src/lib/history.ts:148-154 | a batch opens a new chunk only when no chunk that existed before the batch has room left |
| HistoryProofs.BulkCapacitySum | src/lib/history.ts:124-168 | the total free capacity changes by `CHUNK_SIZE × (chunks opened) − \|urls\|` |
| HistoryProofs.AppendItems | src/lib/history.ts:116-118 | one write adds exactly one item to the stored items and removes none |
| HistoryProofs.BulkItems | src/lib/history.ts:124-168 | addBulk adds every url exactly once, stamped `now`. All previously stored items stay |
| HistoryProofs.BulkEqualsRepeatedAdd | src/lib/history.ts:90-168 | when the batch has no empty url, addBulk ends in the same state as add called once per url in the same second |
| HistoryProofs.BulkStoresEmptyUrl | src/lib/history.ts:91-125 | the empty url breaks that agreement: add ignores it, addBulk stores it |
| HistoryProofs.FillFirstChunk | src/lib/history.ts:124-168 | from an empty store, 1..CHUNK_SIZE urls all go to chunk 0, in order, and leave `CHUNK_SIZE − n` free |
| HistoryProofs.OverflowOpensSecondChunk | src/lib/history.ts:139-157 | from an empty store, CHUNK_SIZE + 1 urls give capacities `[0, 999]`. Chunk 1 holds only the last url |
| HistoryProofs.WithoutSplits | src/lib/history.ts:175 | the filter works piece by piece, so the entries it keeps stay in their original order |
| HistoryProofs.RemovedUnchangedIff | src/lib/history.ts:172-177 | remove leaves the store unchanged if and only if the chunk id is unknown or no entry matches both url and timestamp |
| HistoryProofs.RemoveOnlyItem | src/lib/history.ts:170-182 | removing the only stored item gives its slot back (capacity CHUNK_SIZE), and the collected list becomes empty |
| HistoryProofs.TaggedIsItems | src/lib/history.ts:77-85 | the collected list is the stored items in chunk order. An item is in it if and only if it is stored in the chunk its tag names, and that chunk is one the metadata lists |
| HistoryProofs.MigratesOnce | src/lib/history.ts:63-75 | migrating a second time, at any later time, changes nothing. A store whose legacy key is kept is not changed by the migration |
| HistoryProofs.MigratedItems | src/lib/history.ts:63-71 | a readable legacy list ends up in the store, every entry once, stamped with the migration time |
| HistoryProofs.ClearThenGetAll | src/lib/history.ts:184-190 | after clear, getAll collects nothing if and only if no non-empty legacy list is waiting to be migrated |
| HistoryProofs.AddThenGetAll | src/lib/history.ts:60-122 | after add of a non-empty url, any later getAll lists an item with that url and add's timestamp |
| HistoryProofs.ClearThenAdd | src/lib/history.ts:184-190 | after clear, add starts again with a single chunk 0 holding only the new item |
| HistoryStore.HistoryStorage.constructor | src/lib/history.ts:59 | the store opens over whatever the three keys hold |
| HistoryStore.HistoryStorage.Add | src/lib/history.ts:90-122 | ends in `Added` of the old state and keeps the store invariant |
| HistoryStore.HistoryStorage.AddBulk | src/lib/history.ts:124-168 | the open-chunk loop ends in `BulkAdded` of the old state, which is repeated first-fit writes. It keeps the store invariant |
| HistoryStore.HistoryStorage.Remove | src/lib/history.ts:170-182 | ends in `Removed` of the old state and keeps the store invariant |
| HistoryStore.HistoryStorage.Clear | src/lib/history.ts:184-190 | the deletion loop ends in `Cleared` of the old state |
| HistoryStore.HistoryStorage.Migrate | src/lib/history.ts:62-75 | ends in `Migrated` of the old state: a readable list goes through addBulk and the legacy key is deleted |
| HistoryStore.HistoryStorage.Collect | src/lib/history.ts:77-85 | the nested collection loop returns every chunk's items, tagged with their chunk id, in id order |
| HistoryStore.HistoryStorage.GetAll | src/lib/history.ts:60-88 | migrates, then returns a newest-first permutation of every stored item tagged with its chunk. It keeps the store invariant |

## Left out

- LZ-String compression, JSON serialization and the uncompressed fallback read in getChunk (lines 34-57) are not modelled. A chunk is the list of items it decodes to. An unreadable or empty chunk key reads as an absent key, i.e. the empty chunk, which is what getChunk returns. An unreadable metadata key likewise reads as the empty list, as getMeta does.
- The storage medium (`localStorage`), its quota errors, the `typeof localStorage` guard of getAll and the `console.error` calls are not modelled. The three keys are the fields of `HistoryStorage`.
- The clock is the parameter `now` (whole seconds).
- Crash and partial-write behaviour are not modelled. An operation is atomic in the model, so a failure between the writes of addBulk or clear is not captured.
- The legacy list is read as the sequence of values that addBulk receives (`Legacy.Entries`). The source passes the parsed elements straight to addBulk as urls, whatever their JSON type. The model does not represent non-string elements. One consequence is not captured: a migrated entry that is an object becomes that object as its `url`, and remove's `!==` at line 175 compares it with an object parsed afresh, so remove can never delete such an entry.
- A legacy value that parses but is not a list stays in place, as does one that fails to parse (`Legacy.Unreadable`). This follows the code: lines 67-71 delete the key only inside the `Array.isArray` branch, although a non-list value is sometimes described as removed.
- Chunk keys with a negative id are not represented. No operation writes one, and reading one gives the empty chunk, so `remove` with a negative chunk id changes nothing.
- Capacities are unbounded integers. JavaScript numbers are doubles, but capacities stay within 0..CHUNK_SIZE on a consistent store.
- The other files of the repository (the API client, the stats endpoint, bookmarks, pages) are not part of this model.
- HistoryStore.HistoryStorage.GetAll: states that the result is newest first and a permutation of the stored items. It does not state the order among items with equal timestamps. `SortNewestFirst` is a stable insertion sort, like the engine's `Array.prototype.sort`.
- The methods do not require the store invariant, because the source accepts any metadata. They promise to keep it only on a store that already satisfies it (`old(Consistent) ==> Consistent`).
