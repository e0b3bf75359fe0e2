/** historyStorage of src/lib/history.ts as an object over the storage it
    updates in place. The fields are the three storage keys the store owns;
    each method does what the source does, step by step, and is proved to
    leave the state its HistoryModel function describes. The wall clock is
    the parameter `now` (seconds). */
module HistoryStore {
  import opened HistoryModel
  import HistoryProofs

  class HistoryStorage {
    /** `history_meta`: remaining capacity per chunk id. */
    var capacities: seq<int>
    /** `history_chunk_<id>` for every id that has a key. */
    var chunks: map<nat, seq<Item>>
    /** `app_history`, the pre-chunking format. */
    var legacy: Legacy

    function State(): Store
      reads this
    {
      Store(capacities, chunks, legacy)
    }

    /** Opens the store over whatever the storage holds. */
    constructor (capacities: seq<int>, chunks: map<nat, seq<Item>>, legacy: Legacy)
      ensures State() == Store(capacities, chunks, legacy)
    {
      this.capacities := capacities;
      this.chunks := chunks;
      this.legacy := legacy;
    }

    /** add(url): first-fit append of {url, now}. */
    method Add(url: string, now: int)
      modifies this
      ensures State() == Added(old(State()), url, now)
      ensures old(Consistent(State())) ==> Consistent(State())
    {
      if url == "" {
        return;
      }
      var meta := capacities;
      var chunkId := FirstWithCapacity(meta, 0);
      if chunkId == -1 {
        chunkId := |meta|;
        meta := meta + [CHUNK_SIZE];
      }
      var chunk := GetChunk(State().chunks, chunkId);
      chunk := chunk + [Item(url, now)];
      chunks := chunks[chunkId := chunk];
      meta := meta[chunkId := meta[chunkId] - 1];
      capacities := meta;
      if Consistent(old(State())) {
        HistoryProofs.AppendKeepsConsistent(old(State()), url, now);
      }
    }

    /** addBulk(urls): one chunk is kept open and written back only when it
        fills up or the batch ends; a full chunk hands over to the next chunk
        after it with free capacity, or to a new chunk. */
    method AddBulk(urls: seq<string>, now: int)
      modifies this
      ensures State() == BulkAdded(old(State()), urls, now)
      ensures old(Consistent(State())) ==> Consistent(State())
    {
      ghost var s := State();
      if |urls| == 0 {
        return;
      }
      var meta := capacities;
      var currentChunkId := FirstWithCapacity(meta, 0);
      if currentChunkId == -1 {
        currentChunkId := |meta|;
        meta := meta + [CHUNK_SIZE];
      }
      var currentChunk := GetChunk(chunks, currentChunkId);
      var currentCap := meta[currentChunkId];

      for i := 0 to |urls|
        invariant legacy == s.legacy
        invariant HistoryProofs.BulkPending(BulkAdded(s, urls[..i], now), i == 0, meta, chunks, currentChunkId, currentCap, currentChunk)
      {
        ghost var meta0, chunks0, chunkId0, cap0, chunk0 := meta, chunks, currentChunkId, currentCap, currentChunk;
        ghost var next := -1;
        if currentCap == 0 {
          chunks := chunks[currentChunkId := currentChunk];
          meta := meta[currentChunkId := 0];
          var nextId := FirstWithCapacity(meta, currentChunkId + 1);
          next := nextId;
          if nextId != -1 {
            currentChunkId := nextId;
          } else {
            currentChunkId := |meta|;
            meta := meta + [CHUNK_SIZE];
          }
          currentChunk := GetChunk(chunks, currentChunkId);
          currentCap := meta[currentChunkId];
        }
        currentChunk := currentChunk + [Item(urls[i], now)];
        currentCap := currentCap - 1;
        HistoryProofs.PendingStep(s, urls, i, now, meta0, chunks0, chunkId0, cap0, chunk0, next,
                                  meta, chunks, currentChunkId, currentCap, currentChunk);
      }

      ghost var meta1, chunks1 := meta, chunks;
      chunks := chunks[currentChunkId := currentChunk];
      meta := meta[currentChunkId := currentCap];
      capacities := meta;
      HistoryProofs.PendingDone(s, urls, now, meta1, chunks1, currentChunkId, currentCap, currentChunk, State());
      if Consistent(s) {
        HistoryProofs.BulkKeepsConsistent(s, urls, now);
      }
    }

    /** remove(item): filter the item's chunk and give the freed slots back. */
    method Remove(item: LoadedItem)
      modifies this
      ensures State() == Removed(old(State()), item)
      ensures old(Consistent(State())) ==> Consistent(State())
    {
      var meta := capacities;
      if item.chunkId >= |meta| {
        return;
      }
      var chunk := GetChunk(State().chunks, item.chunkId);
      var newChunk := Without(chunk, item.url, item.t);
      if |chunk| == |newChunk| {
        return;
      }
      chunks := chunks[item.chunkId := newChunk];
      meta := meta[item.chunkId := meta[item.chunkId] + (|chunk| - |newChunk|)];
      capacities := meta;
      if Consistent(old(State())) {
        HistoryProofs.RemovedKeepsConsistent(old(State()), item);
      }
    }

    /** clear(): delete every chunk key the metadata knows of, then the
        metadata key. */
    method Clear()
      modifies this
      ensures State() == Cleared(old(State()))
      ensures old(Consistent(State())) ==> Consistent(State())
    {
      var meta := capacities;
      for i := 0 to |meta|
        invariant capacities == meta && legacy == old(legacy)
        invariant chunks == KeysFrom(old(chunks), i)
      {
        assert KeysFrom(old(chunks), i) - {i} == KeysFrom(old(chunks), i + 1);
        chunks := chunks - {i};
      }
      capacities := [];
      if Consistent(old(State())) {
        HistoryProofs.ClearEmpties(old(State()));
      }
    }

    /** The migration check at the head of getAll. */
    method Migrate(now: int)
      modifies this
      ensures State() == Migrated(old(State()), now)
      ensures old(Consistent(State())) ==> Consistent(State())
    {
      match legacy
      case Entries(urls) =>
        AddBulk(urls, now);
        legacy := Absent;
      case _ =>
    }

    /** The collection loop of getAll: each chunk known to the metadata, in
        id order, each item tagged with its chunk id. */
    method Collect() returns (all: seq<LoadedItem>)
      ensures all == Tagged(State())
    {
      var meta := capacities;
      all := [];
      for i := 0 to |meta|
        invariant all == TaggedUpTo(State(), i)
      {
        var chunk := GetChunk(State().chunks, i);
        for j := 0 to |chunk|
          invariant all == TaggedUpTo(State(), i) + Tag(chunk[..j], i)
        {
          assert Tag(chunk[..j + 1], i) == Tag(chunk[..j], i) + [LoadedItem(chunk[j].url, chunk[j].t, i)];
          all := all + [LoadedItem(chunk[j].url, chunk[j].t, i)];
        }
        assert chunk[..|chunk|] == chunk;
      }
    }

    /** getAll(): migrate, collect, sort newest first. */
    method GetAll(now: int) returns (all: seq<LoadedItem>)
      modifies this
      ensures State() == Migrated(old(State()), now)
      ensures NewestFirst(all)
      ensures multiset(all) == multiset(Tagged(State()))
      ensures old(Consistent(State())) ==> Consistent(State())
    {
      Migrate(now);
      all := Collect();
      all := SortNewestFirst(all);
    }
  }
}
