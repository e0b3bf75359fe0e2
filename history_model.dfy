/** The chunked browsing-history store of src/lib/history.ts, as values.

    The key-value storage the store lives in is abstracted into a `Store`:
    - `capacities` is the metadata record `history_meta` (index = chunk id,
      value = REMAINING free slots in that chunk); an absent or unreadable
      metadata key reads as the empty list, exactly as getMeta does;
    - `chunks` maps a chunk id to the items stored under `history_chunk_<id>`;
      a key that is absent reads as the empty chunk, exactly as getChunk does;
    - `legacy` is the pre-chunking key `app_history`.

    Every operation of the store is given here as a function from the state
    before to the state after; the class in HistoryStore runs the same
    operations step by step and is proved to agree with these functions. */
module HistoryModel {

  /** Maximum number of items in one chunk. */
  const CHUNK_SIZE: nat := 1000

  /** One visited url with its timestamp in seconds. */
  datatype Item = Item(url: string, t: int)

  /** An item as getAll hands it out: tagged with the chunk that holds it. */
  datatype LoadedItem = LoadedItem(url: string, t: int, chunkId: int)

  /** The legacy `app_history` key: absent (or the empty text), a readable
      list of entries, or text that is not a JSON list (or not JSON at all). */
  datatype Legacy = Absent | Entries(urls: seq<string>) | Unreadable

  datatype Store = Store(capacities: seq<int>, chunks: map<nat, seq<Item>>, legacy: Legacy)

  /** The empty store: no metadata, no chunks, no legacy key. */
  const Empty: Store := Store([], map[], Absent)

  /** getChunk: the stored chunk, or the empty chunk when its key is absent.
      No operation ever writes a negative id, so such an id reads as empty. */
  function GetChunk(chunks: map<nat, seq<Item>>, id: int): seq<Item>
  {
    if 0 <= id && id as nat in chunks then chunks[id as nat] else []
  }

  /** The store's invariant: every chunk's remaining capacity plus its
      length is CHUNK_SIZE (so the capacity lies in 0..CHUNK_SIZE), and the
      chunk keys are exactly the ids the metadata knows of. */
  ghost predicate Consistent(s: Store)
  {
    && (forall i :: 0 <= i < |s.capacities| ==>
          0 <= s.capacities[i] && s.capacities[i] + |GetChunk(s.chunks, i)| == CHUNK_SIZE)
    && (forall k: nat :: k in s.chunks <==> k < |s.capacities|)
  }

  /** No chunk with an id in lo..hi-1 has free capacity. */
  ghost predicate NoRoom(caps: seq<int>, lo: nat, hi: nat)
  {
    forall j :: lo <= j < hi && j < |caps| ==> caps[j] <= 0
  }

  /** findIndex over the capacities: the first chunk id at or after `from`
      with free capacity, or -1 when there is none. */
  function FirstWithCapacity(caps: seq<int>, from: nat): (r: int)
    ensures r == -1 || from <= r < |caps|
    ensures r == -1 ==> NoRoom(caps, from, |caps|)
    ensures r != -1 ==> caps[r] > 0 && NoRoom(caps, from, r)
    decreases |caps| - from
  {
    if from >= |caps| then -1
    else if caps[from] > 0 then from
    else FirstWithCapacity(caps, from + 1)
  }

  /** The chunk a single write goes to: the first chunk with free capacity
      (first fit), or the id of a new chunk, |caps|, when every chunk is full. */
  function Target(caps: seq<int>): (k: nat)
    ensures k <= |caps|
    ensures k < |caps| ==> caps[k] > 0
    ensures NoRoom(caps, 0, k)
  {
    var f := FirstWithCapacity(caps, 0);
    if f == -1 then |caps| else f
  }

  /** Every chunk other than `k` reads the same in `r` as in `s`. */
  ghost predicate OtherChunksKept(s: Store, r: Store, k: int)
  {
    forall i :: i != k ==> GetChunk(r.chunks, i) == GetChunk(s.chunks, i)
  }

  /** Every capacity of `s` other than that of chunk `k` is the same in `r`. */
  ghost predicate OtherCapacitiesKept(s: Store, r: Store, k: int)
  {
    forall i :: 0 <= i < |s.capacities| && i != k && i < |r.capacities| ==> r.capacities[i] == s.capacities[i]
  }

  /** The capacities once chunk `k` is open for writing: a new chunk is
      pushed with CHUNK_SIZE free slots when k is past the end. */
  function Opened(caps: seq<int>, k: nat): seq<int>
  {
    if k == |caps| then caps + [CHUNK_SIZE] else caps
  }

  /** One write of `url` at time `now`, without add's empty-url check. */
  function Append(s: Store, url: string, now: int): (r: Store)
    ensures var k := Target(s.capacities);
      |r.capacities| == (if k == |s.capacities| then k + 1 else |s.capacities|)
    ensures var k := Target(s.capacities);
      r.capacities[k] == (if k == |s.capacities| then CHUNK_SIZE else s.capacities[k]) - 1
    ensures var k := Target(s.capacities);
      GetChunk(r.chunks, k) == GetChunk(s.chunks, k) + [Item(url, now)]
    ensures OtherCapacitiesKept(s, r, Target(s.capacities))
    ensures OtherChunksKept(s, r, Target(s.capacities))
    ensures r.chunks.Keys == s.chunks.Keys + {Target(s.capacities)}
    ensures r.legacy == s.legacy
  {
    var k := Target(s.capacities);
    var caps := Opened(s.capacities, k);
    Store(caps[k := caps[k] - 1], s.chunks[k := GetChunk(s.chunks, k) + [Item(url, now)]], s.legacy)
  }

  /** add(url): an empty url is ignored, any other url is written once. */
  function Added(s: Store, url: string, now: int): (r: Store)
    ensures r == s <==> url == ""
  {
    if url == "" then s
    else
      var k := Target(s.capacities);
      assert |GetChunk(Append(s, url, now).chunks, k)| != |GetChunk(s.chunks, k)|;
      Append(s, url, now)
  }

  /** addBulk(urls): every url, the empty one included, written in order
      with one shared timestamp. */
  function BulkAdded(s: Store, urls: seq<string>, now: int): Store
    decreases |urls|
  {
    if urls == [] then s
    else Append(BulkAdded(s, urls[..|urls| - 1], now), urls[|urls| - 1], now)
  }

  /** add called once per url, in order, within the same second. */
  function AddedEach(s: Store, urls: seq<string>, now: int): Store
    decreases |urls|
  {
    if urls == [] then s
    else Added(AddedEach(s, urls[..|urls| - 1], now), urls[|urls| - 1], now)
  }

  /** The chunk each url of a bulk write lands in, in input order. */
  function Targets(s: Store, urls: seq<string>, now: int): (ts: seq<nat>)
    ensures |ts| == |urls|
    decreases |urls|
  {
    if urls == [] then []
    else
      var prefix := urls[..|urls| - 1];
      Targets(s, prefix, now) + [Target(BulkAdded(s, prefix, now).capacities)]
  }

  /** The items a bulk write puts into chunk `id`, in input order. */
  function Assigned(urls: seq<string>, ts: seq<nat>, id: nat, now: int): seq<Item>
    requires |ts| == |urls|
    decreases |urls|
  {
    if urls == [] then []
    else
      var n := |urls| - 1;
      Assigned(urls[..n], ts[..n], id, now) + (if ts[n] == id then [Item(urls[n], now)] else [])
  }

  /** The items a bulk write stores: every url stamped with `now`. */
  function Stamp(urls: seq<string>, now: int): (r: seq<Item>)
    ensures |r| == |urls|
    ensures forall j :: 0 <= j < |urls| ==> r[j] == Item(urls[j], now)
    decreases |urls|
  {
    if urls == [] then []
    else Stamp(urls[..|urls| - 1], now) + [Item(urls[|urls| - 1], now)]
  }

  /** The filter of remove: every entry except those with the given url and
      timestamp. Only the matching entries go; the count of every other item
      is kept. */
  function Without(c: seq<Item>, url: string, t: int): (r: seq<Item>)
    ensures multiset(r) == multiset(c)[Item(url, t) := 0]
  {
    if c == [] then []
    else
      assert c == [c[0]] + c[1..];
      (if c[0].url != url || c[0].t != t then [c[0]] else []) + Without(c[1..], url, t)
  }

  /** remove(item): drop every entry of chunk item.chunkId equal to the item
      and give the slots back; nothing changes for an unknown chunk id or
      when nothing matches. */
  function Removed(s: Store, item: LoadedItem): (r: Store)
    ensures |r.capacities| == |s.capacities| && r.legacy == s.legacy
    ensures item.chunkId < 0 || item.chunkId >= |s.capacities| ==> r == s
    ensures 0 <= item.chunkId < |s.capacities| ==>
      var c := GetChunk(s.chunks, item.chunkId);
      && GetChunk(r.chunks, item.chunkId) == Without(c, item.url, item.t)
      && r.capacities[item.chunkId] == s.capacities[item.chunkId] + multiset(c)[Item(item.url, item.t)]
    ensures OtherChunksKept(s, r, item.chunkId)
    ensures OtherCapacitiesKept(s, r, item.chunkId)
    ensures r.chunks.Keys <= s.chunks.Keys
  {
    if item.chunkId >= |s.capacities| then s
    else
      var c := GetChunk(s.chunks, item.chunkId);
      var nc := Without(c, item.url, item.t);
      if |c| == |nc| then
        WithoutNothing(c, item.url, item.t);
        s
      else
        assert item.chunkId >= 0;
        Store(s.capacities[item.chunkId := s.capacities[item.chunkId] + (|c| - |nc|)],
              s.chunks[item.chunkId := nc], s.legacy)
  }

  /** When the filter removes nothing it returns its input unchanged. */
  lemma {:induction false} WithoutNothing(c: seq<Item>, url: string, t: int)
    requires |Without(c, url, t)| == |c|
    ensures Without(c, url, t) == c
    ensures multiset(c)[Item(url, t)] == 0
  {
    if c != [] {
      assert c == [c[0]] + c[1..];
      var rest := Without(c[1..], url, t);
      assert |multiset(rest)| <= |multiset(c[1..])|;
      WithoutNothing(c[1..], url, t);
    }
  }

  /** The store with every chunk key below `n` deleted. */
  function KeysFrom(m: map<nat, seq<Item>>, n: nat): map<nat, seq<Item>>
  {
    map k | k in m && n <= k :: m[k]
  }

  /** clear(): delete chunks 0..|capacities|-1 and the metadata key; the
      legacy key is left alone. */
  function Cleared(s: Store): Store
  {
    Store([], KeysFrom(s.chunks, |s.capacities|), s.legacy)
  }

  /** The migration at the head of getAll: a readable legacy list is fed
      to addBulk and the legacy key deleted; otherwise nothing changes. */
  function Migrated(s: Store, now: int): Store
  {
    match s.legacy
    case Entries(urls) => BulkAdded(s, urls, now).(legacy := Absent)
    case _ => s
  }

  /** A chunk's items tagged with its id. */
  function Tag(c: seq<Item>, id: int): seq<LoadedItem>
  {
    seq(|c|, j requires 0 <= j < |c| => LoadedItem(c[j].url, c[j].t, id))
  }

  /** Chunks 0..n-1, each tagged with its id, concatenated in id order. */
  function TaggedUpTo(s: Store, n: nat): seq<LoadedItem>
  {
    if n == 0 then [] else TaggedUpTo(s, n - 1) + Tag(GetChunk(s.chunks, n - 1), n - 1)
  }

  /** Every item of every chunk the metadata knows of, tagged, before sorting. */
  function Tagged(s: Store): seq<LoadedItem>
  {
    TaggedUpTo(s, |s.capacities|)
  }

  /** The items of chunks 0..n-1, concatenated in id order. */
  function Flatten(s: Store, n: nat): seq<Item>
  {
    if n == 0 then [] else Flatten(s, n - 1) + GetChunk(s.chunks, n - 1)
  }

  /** Every stored item of the chunks the metadata knows of. */
  function Items(s: Store): seq<Item>
  {
    Flatten(s, |s.capacities|)
  }

  function Sum(xs: seq<int>): int
  {
    if xs == [] then 0 else Sum(xs[..|xs| - 1]) + xs[|xs| - 1]
  }

  /** Newest first: timestamps never increase along the sequence. */
  predicate NewestFirst(xs: seq<LoadedItem>)
  {
    forall i, j :: 0 <= i < j < |xs| ==> xs[i].t >= xs[j].t
  }

  /** An item no older than anything in a newest-first sequence, put in
      front of it, keeps it newest first. */
  lemma PrependNewest(y: LoadedItem, rest: seq<LoadedItem>)
    requires NewestFirst(rest)
    requires forall j :: 0 <= j < |rest| ==> rest[j].t <= y.t
    ensures NewestFirst([y] + rest)
  {
    var r := [y] + rest;
    forall i, j | 0 <= i < j < |r| ensures r[i].t >= r[j].t {
      assert r[j] == rest[j - 1];
      if i > 0 {
        assert r[i] == rest[i - 1];
      }
    }
  }

  /** Whatever holds the items after the head of a newest-first sequence,
      plus one older than the head, holds nothing newer than the head. */
  lemma OlderThanHead(x: LoadedItem, xs: seq<LoadedItem>, rest: seq<LoadedItem>)
    requires NewestFirst(xs) && |xs| > 0 && x.t < xs[0].t
    requires multiset(rest) == multiset(xs[1..]) + multiset{x}
    ensures forall j :: 0 <= j < |rest| ==> rest[j].t <= xs[0].t
  {
    forall j | 0 <= j < |rest| ensures rest[j].t <= xs[0].t {
      assert rest[j] in multiset(rest);
      if rest[j] != x {
        assert rest[j] in multiset(xs[1..]);
        var i :| 0 <= i < |xs[1..]| && xs[1..][i] == rest[j];
        assert xs[i + 1] == rest[j];
      }
    }
  }

  /** Insert `x` into a newest-first sequence ahead of every item that is
      not newer than it. */
  function InsertByTime(x: LoadedItem, xs: seq<LoadedItem>): (r: seq<LoadedItem>)
    requires NewestFirst(xs)
    ensures NewestFirst(r)
    ensures multiset(r) == multiset(xs) + multiset{x}
    ensures |r| == |xs| + 1
  {
    if xs == [] then [x]
    else if xs[0].t <= x.t then
      PrependNewest(x, xs);
      [x] + xs
    else
      assert xs == [xs[0]] + xs[1..];
      var rest := InsertByTime(x, xs[1..]);
      OlderThanHead(x, xs, rest);
      PrependNewest(xs[0], rest);
      [xs[0]] + rest
  }

  /** The sort of getAll, by timestamp descending (comparator b.t - a.t). */
  function SortNewestFirst(xs: seq<LoadedItem>): (r: seq<LoadedItem>)
    ensures NewestFirst(r)
    ensures multiset(r) == multiset(xs)
  {
    if xs == [] then []
    else
      assert xs == [xs[0]] + xs[1..];
      InsertByTime(xs[0], SortNewestFirst(xs[1..]))
  }
}
