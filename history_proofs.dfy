/** What the history store promises, proved about the functions of
    HistoryModel: the capacity invariant, first-fit chunk selection, what
    addBulk stores and where, its agreement with repeated add, remove's
    filter, clear, the one-time migration and getAll's result. */
module HistoryProofs {
  import opened HistoryModel

  // ---------------------------------------------------------------------
  // The capacity invariant

  /** add keeps `capacity + length == CHUNK_SIZE` for every chunk. */
  lemma AppendKeepsConsistent(s: Store, url: string, now: int)
    requires Consistent(s)
    ensures Consistent(Append(s, url, now))
  {
    var r := Append(s, url, now);
    var k := Target(s.capacities);
    forall i | 0 <= i < |r.capacities|
      ensures 0 <= r.capacities[i] && r.capacities[i] + |GetChunk(r.chunks, i)| == CHUNK_SIZE
    {
      if i == k {
        if k == |s.capacities| {
          assert GetChunk(s.chunks, k) == [];
        }
      }
    }
  }

  /** addBulk keeps the capacity invariant. */
  lemma {:induction false} BulkKeepsConsistent(s: Store, urls: seq<string>, now: int)
    requires Consistent(s)
    ensures Consistent(BulkAdded(s, urls, now))
    decreases |urls|
  {
    if urls != [] {
      BulkKeepsConsistent(s, urls[..|urls| - 1], now);
      AppendKeepsConsistent(BulkAdded(s, urls[..|urls| - 1], now), urls[|urls| - 1], now);
    }
  }

  /** remove keeps the capacity invariant. */
  lemma RemovedKeepsConsistent(s: Store, item: LoadedItem)
    requires Consistent(s)
    ensures Consistent(Removed(s, item))
  {
    var r := Removed(s, item);
    if 0 <= item.chunkId < |s.capacities| {
      var c := GetChunk(s.chunks, item.chunkId);
      var nc := Without(c, item.url, item.t);
      var gone := multiset(c)[Item(item.url, item.t)];
      assert |multiset(nc)| == |multiset(c)| - gone;
      assert r.capacities[item.chunkId] + |GetChunk(r.chunks, item.chunkId)| == CHUNK_SIZE;
    }
  }

  /** The migration keeps the capacity invariant. */
  lemma MigratedKeepsConsistent(s: Store, now: int)
    requires Consistent(s)
    ensures Consistent(Migrated(s, now))
  {
    if s.legacy.Entries? {
      BulkKeepsConsistent(s, s.legacy.urls, now);
      var b := BulkAdded(s, s.legacy.urls, now);
      assert forall i :: GetChunk(b.(legacy := Absent).chunks, i) == GetChunk(b.chunks, i);
    }
  }

  /** On a consistent store clear leaves nothing behind but the legacy key. */
  lemma ClearEmpties(s: Store)
    requires Consistent(s)
    ensures Cleared(s) == Store([], map[], s.legacy)
    ensures Consistent(Cleared(s))
  {
    assert KeysFrom(s.chunks, |s.capacities|) == map[];
  }

  // ---------------------------------------------------------------------
  // Where writes go

  /** The state of addBulk's loop, measured against `t`, the state that
      writing the urls handled so far one by one produces: the metadata
      `meta`, the chunk keys `chunks` as last written, and the chunk `cur`
      held open in memory as `chunk` with `cap` free slots. Before the first
      url (`first`) the open chunk is add's first-fit target of `t`; after
      it, writing back the open chunk and its capacity gives `t`. */
  ghost predicate BulkPending(t: Store, first: bool, meta: seq<int>, chunks: map<nat, seq<Item>>,
                              cur: int, cap: int, chunk: seq<Item>)
  {
    && 0 <= cur < |meta| && 0 <= cap && NoRoom(meta, 0, cur)
    && (first ==>
          && chunks == t.chunks && cur == Target(t.capacities)
          && meta == Opened(t.capacities, cur)
          && chunk == GetChunk(t.chunks, cur) && cap == meta[cur] > 0)
    && (!first ==> Store(meta[cur := cap], chunks[cur := chunk], t.legacy) == t)
  }

  /** A url written into the open chunk while it has room. */
  lemma PendingWrite(t: Store, first: bool, url: string, now: int, meta: seq<int>,
                     chunks: map<nat, seq<Item>>, cur: int, cap: int, chunk: seq<Item>)
    requires BulkPending(t, first, meta, chunks, cur, cap, chunk) && cap > 0
    ensures BulkPending(Append(t, url, now), false, meta, chunks, cur, cap - 1, chunk + [Item(url, now)])
  {
    var item := Item(url, now);
    if first {
      assert Append(t, url, now) == Store(meta[cur := cap - 1], chunks[cur := chunk + [item]], t.legacy);
    } else {
      assert Target(t.capacities) == cur by {
        assert t.capacities[cur] > 0;
      }
      assert GetChunk(t.chunks, cur) == chunk;
      assert t.capacities[cur := cap - 1] == meta[cur := cap - 1];
      assert t.chunks[cur := chunk + [item]] == chunks[cur := chunk + [item]];
    }
  }

  /** The open chunk is full: it is written back, the scan moves forward
      from it, and the url goes into the chunk the scan finds, read from the
      chunk keys as they now stand. */
  lemma PendingMove(t: Store, url: string, now: int, meta: seq<int>,
                    chunks: map<nat, seq<Item>>, cur: int, chunk: seq<Item>, next: int,
                    meta': seq<int>, chunks': map<nat, seq<Item>>, cur': int, chunk': seq<Item>)
    requires BulkPending(t, false, meta, chunks, cur, 0, chunk)
    requires next == FirstWithCapacity(meta[cur := 0], cur + 1)
    requires cur' == if next != -1 then next else |meta|
    requires meta' == Opened(meta[cur := 0], cur')
    requires chunks' == chunks[cur := chunk]
    requires chunk' == GetChunk(chunks', cur')
    ensures 0 <= cur' < |meta'| && meta'[cur'] > 0
    ensures BulkPending(Append(t, url, now), false, meta', chunks', cur', meta'[cur'] - 1, chunk' + [Item(url, now)])
  {
    var full := meta[cur := 0];
    assert t == Store(full, chunks', t.legacy);
    assert cur' == Target(full) by {
      var f := Target(full);
      if next == -1 {
        assert NoRoom(full, 0, |full|);
      } else {
        assert f >= next;
      }
    }
  }

  /** One pass of addBulk's loop over `urls[i]`: if the open chunk is full
      it is written back and the scan moves on (`next` is what the scan
      returns), then the url goes into the open chunk. */
  lemma PendingStep(s: Store, urls: seq<string>, i: nat, now: int,
                    meta: seq<int>, chunks: map<nat, seq<Item>>, cur: int, cap: int, chunk: seq<Item>,
                    next: int,
                    meta': seq<int>, chunks': map<nat, seq<Item>>, cur': int, cap': int, chunk': seq<Item>)
    requires i < |urls|
    requires BulkPending(BulkAdded(s, urls[..i], now), i == 0, meta, chunks, cur, cap, chunk)
    requires cap == 0 ==>
               && chunks' == chunks[cur := chunk]
               && next == FirstWithCapacity(meta[cur := 0], cur + 1)
               && cur' == (if next != -1 then next else |meta|)
               && meta' == Opened(meta[cur := 0], cur')
               && 0 <= cur' < |meta'|
               && chunk' == GetChunk(chunks', cur') + [Item(urls[i], now)]
               && cap' == meta'[cur'] - 1
    requires cap != 0 ==>
               && meta' == meta && chunks' == chunks && cur' == cur
               && chunk' == chunk + [Item(urls[i], now)] && cap' == cap - 1
    ensures BulkPending(BulkAdded(s, urls[..i + 1], now), false, meta', chunks', cur', cap', chunk')
  {
    var t := BulkAdded(s, urls[..i], now);
    assert urls[..i + 1][..i] == urls[..i];
    assert BulkAdded(s, urls[..i + 1], now) == Append(t, urls[i], now);
    if cap == 0 {
      PendingMove(t, urls[i], now, meta, chunks, cur, chunk, next, meta', chunks', cur', GetChunk(chunks', cur'));
    } else {
      PendingWrite(t, i == 0, urls[i], now, meta, chunks, cur, cap, chunk);
    }
  }

  /** A bulk write leaves the pre-chunking entry alone. */
  lemma {:induction false} BulkKeepsLegacy(s: Store, urls: seq<string>, now: int)
    ensures BulkAdded(s, urls, now).legacy == s.legacy
    decreases |urls|
  {
    if urls != [] {
      BulkKeepsLegacy(s, urls[..|urls| - 1], now);
    }
  }

  /** Once every url is handled, writing back the open chunk and the
      metadata gives the bulk write's state. */
  lemma PendingDone(s: Store, urls: seq<string>, now: int,
                    meta: seq<int>, chunks: map<nat, seq<Item>>, cur: int, cap: int, chunk: seq<Item>,
                    r: Store)
    requires |urls| > 0
    requires BulkPending(BulkAdded(s, urls[..|urls|], now), |urls| == 0, meta, chunks, cur, cap, chunk)
    requires r.capacities == meta[cur := cap] && r.chunks == chunks[cur := chunk] && r.legacy == s.legacy
    ensures r == BulkAdded(s, urls, now)
  {
    assert urls[..|urls|] == urls;
    BulkKeepsLegacy(s, urls, now);
  }

  /** After a write, the next write never goes to an earlier chunk. */
  lemma AppendKeepsTargetOrder(s: Store, url: string, now: int)
    ensures Target(s.capacities) <= Target(Append(s, url, now).capacities)
  {
    var k := Target(s.capacities);
    var caps := Append(s, url, now).capacities;
    assert forall j :: 0 <= j < k ==> caps[j] <= 0;
  }

  /** addBulk fills chunks in ascending id order: each chunk receives one
      contiguous run of the urls. */
  lemma {:induction false} TargetsAscending(s: Store, urls: seq<string>, now: int)
    ensures forall a, b :: 0 <= a <= b < |urls| ==> Targets(s, urls, now)[a] <= Targets(s, urls, now)[b]
    decreases |urls|
  {
    if |urls| > 1 {
      var n := |urls| - 1;
      var p := urls[..n];
      var ts := Targets(s, urls, now);
      var tp := Targets(s, p, now);
      TargetsAscending(s, p, now);
      assert ts == tp + [Target(BulkAdded(s, p, now).capacities)];
      assert ts[n - 1] <= ts[n] by {
        assert p[..n - 1] == urls[..n - 1];
        AppendKeepsTargetOrder(BulkAdded(s, p[..n - 1], now), p[n - 1], now);
      }
      forall a, b | 0 <= a <= b < |urls| ensures ts[a] <= ts[b] {
        if b < n {
          assert ts[a] == tp[a] && ts[b] == tp[b] && tp[a] <= tp[b];
        } else if a < n {
          assert ts[a] == tp[a] && ts[n - 1] == tp[n - 1] && tp[a] <= tp[n - 1];
        }
      }
    }
  }

  /** Each chunk after addBulk is the chunk before it followed by exactly the
      urls that landed there, stamped with `now`, in input order. */
  lemma {:induction false} BulkChunks(s: Store, urls: seq<string>, now: int)
    ensures forall i: nat :: (GetChunk(BulkAdded(s, urls, now).chunks, i)
      == GetChunk(s.chunks, i) + Assigned(urls, Targets(s, urls, now), i, now))
    decreases |urls|
  {
    if urls != [] {
      var n := |urls| - 1;
      var p := urls[..n];
      var ts := Targets(s, urls, now);
      var tp := Targets(s, p, now);
      var t := BulkAdded(s, p, now);
      var r := BulkAdded(s, urls, now);
      var x := Item(urls[n], now);
      BulkChunks(s, p, now);
      assert ts[..n] == tp;
      assert r == Append(t, urls[n], now);
      forall i: nat ensures GetChunk(r.chunks, i) == GetChunk(s.chunks, i) + Assigned(urls, ts, i, now)
      {
        var last := if ts[n] == i then [x] else [];
        assert Assigned(urls, ts, i, now) == Assigned(p, tp, i, now) + last;
        assert GetChunk(t.chunks, i) == GetChunk(s.chunks, i) + Assigned(p, tp, i, now);
        assert GetChunk(r.chunks, i) == GetChunk(t.chunks, i) + last;
        Regroup(GetChunk(s.chunks, i), Assigned(p, tp, i, now), last);
      }
    }
  }

  /** The run of urls assigned to a chunk no target names is empty. */
  lemma {:induction false} AssignedNone(urls: seq<string>, ts: seq<nat>, id: nat, now: int)
    requires |ts| == |urls|
    requires forall a :: 0 <= a < |ts| ==> ts[a] != id
    ensures Assigned(urls, ts, id, now) == []
    decreases |urls|
  {
    if urls != [] {
      AssignedNone(urls[..|urls| - 1], ts[..|urls| - 1], id, now);
    }
  }

  /** addBulk's capacity list only grows, by at most one entry per url. */
  lemma {:induction false} BulkLength(s: Store, urls: seq<string>, now: int)
    ensures var r := BulkAdded(s, urls, now);
      |s.capacities| <= |r.capacities| <= |s.capacities| + |urls|
    decreases |urls|
  {
    if urls != [] {
      BulkLength(s, urls[..|urls| - 1], now);
    }
  }

  /** Every url of a bulk write lands in a chunk the metadata lists. */
  lemma {:induction false} TargetsListed(s: Store, urls: seq<string>, now: int)
    ensures var ts := Targets(s, urls, now);
      forall a :: 0 <= a < |urls| ==> ts[a] < |BulkAdded(s, urls, now).capacities|
    decreases |urls|
  {
    if urls != [] {
      var n := |urls| - 1;
      var p := urls[..n];
      var ts := Targets(s, urls, now);
      TargetsListed(s, p, now);
      assert ts[..n] == Targets(s, p, now);
      var t := BulkAdded(s, p, now);
      assert |t.capacities| <= |BulkAdded(s, urls, now).capacities|;
    }
  }

  /** Every chunk loses exactly one slot per url it receives; a chunk
      opened on the way starts from CHUNK_SIZE. */
  lemma {:induction false} BulkCapacities(s: Store, urls: seq<string>, now: int)
    ensures var r := BulkAdded(s, urls, now); var ts := Targets(s, urls, now);
      forall j :: 0 <= j < |r.capacities| ==>
        r.capacities[j] == (if j < |s.capacities| then s.capacities[j] else CHUNK_SIZE)
                           - |Assigned(urls, ts, j, now)|
    decreases |urls|
  {
    if urls == [] {
      forall j | 0 <= j < |s.capacities| ensures Assigned(urls, [], j, now) == [] {
        AssignedNone(urls, [], j, now);
      }
    } else {
      var n := |urls| - 1;
      var p := urls[..n];
      var t := BulkAdded(s, p, now);
      var r := BulkAdded(s, urls, now);
      var ts := Targets(s, urls, now);
      BulkCapacities(s, p, now);
      BulkLength(s, p, now);
      TargetsListed(s, p, now);
      assert ts[..n] == Targets(s, p, now);
      forall j | 0 <= j < |r.capacities|
        ensures r.capacities[j] == (if j < |s.capacities| then s.capacities[j] else CHUNK_SIZE)
                                   - |Assigned(urls, ts, j, now)|
      {
        assert Assigned(urls, ts, j, now)
          == Assigned(p, ts[..n], j, now) + (if ts[n] == j then [Item(urls[n], now)] else []);
        if j == |t.capacities| {
          AssignedNone(p, ts[..n], j, now);
        }
      }
    }
  }

  /** addBulk opens a new chunk only once no chunk it started with has room. */
  lemma {:induction false} BulkOpensWhenFull(s: Store, urls: seq<string>, now: int)
    ensures var r := BulkAdded(s, urls, now);
      |r.capacities| > |s.capacities| ==> NoRoom(r.capacities, 0, |s.capacities|)
    decreases |urls|
  {
    if urls != [] {
      var n := |urls| - 1;
      var t := BulkAdded(s, urls[..n], now);
      var r := BulkAdded(s, urls, now);
      BulkOpensWhenFull(s, urls[..n], now);
      BulkLength(s, urls[..n], now);
      var k := Target(t.capacities);
      if |r.capacities| > |s.capacities| {
        forall j | 0 <= j < |s.capacities| ensures r.capacities[j] <= 0 {
          if j != k {
            assert r.capacities[j] == t.capacities[j];
          }
        }
      }
    }
  }

  // ---------------------------------------------------------------------
  // What addBulk stores

  lemma {:induction false} SumUpdate(xs: seq<int>, k: nat, v: int)
    requires k < |xs|
    ensures Sum(xs[k := v]) == Sum(xs) - xs[k] + v
    decreases |xs|
  {
    var n := |xs| - 1;
    assert xs[k := v][..n] == if k == n then xs[..n] else xs[..n][k := v];
    if k < n {
      SumUpdate(xs[..n], k, v);
    }
  }

  /** The total of the capacities falls by exactly one per url, once each
      chunk opened on the way is counted with its initial CHUNK_SIZE. */
  lemma {:induction false} BulkCapacitySum(s: Store, urls: seq<string>, now: int)
    ensures var r := BulkAdded(s, urls, now);
      Sum(r.capacities) == Sum(s.capacities) + CHUNK_SIZE * (|r.capacities| - |s.capacities|) - |urls|
    decreases |urls|
  {
    if urls != [] {
      var n := |urls| - 1;
      var t := BulkAdded(s, urls[..n], now);
      BulkCapacitySum(s, urls[..n], now);
      var r := BulkAdded(s, urls, now);
      var k := Target(t.capacities);
      var caps := Opened(t.capacities, k);
      assert (t.capacities + [CHUNK_SIZE])[..|t.capacities|] == t.capacities;
      assert Sum(caps) == Sum(t.capacities) + CHUNK_SIZE * (|caps| - |t.capacities|);
      SumUpdate(caps, k, caps[k] - 1);
      assert r.capacities == caps[k := caps[k] - 1];
      assert CHUNK_SIZE * (|r.capacities| - |s.capacities|)
        == CHUNK_SIZE * (|t.capacities| - |s.capacities|) + CHUNK_SIZE * (|caps| - |t.capacities|);
    }
  }

  /** Concatenated chunks are unchanged below a chunk that changed. */
  lemma {:induction false} FlattenBelow(s: Store, r: Store, k: nat, n: nat)
    requires n <= k
    requires OtherChunksKept(s, r, k)
    ensures Flatten(r, n) == Flatten(s, n)
    decreases n
  {
    if n > 0 {
      FlattenBelow(s, r, k, n - 1);
      assert GetChunk(r.chunks, n - 1) == GetChunk(s.chunks, n - 1);
    }
  }

  /** Concatenated chunks up to and including the chunk that grew. */
  lemma FlattenAtChunk(s: Store, r: Store, k: nat, x: Item)
    requires OtherChunksKept(s, r, k)
    requires GetChunk(r.chunks, k) == GetChunk(s.chunks, k) + [x]
    ensures Flatten(r, k + 1) == Flatten(s, k + 1) + [x]
  {
    FlattenBelow(s, r, k, k);
  }

  /** Concatenated chunks after one chunk grew by one item. */
  lemma {:induction false} FlattenOneMore(s: Store, r: Store, k: nat, x: Item, n: nat)
    requires k < n
    requires OtherChunksKept(s, r, k)
    requires GetChunk(r.chunks, k) == GetChunk(s.chunks, k) + [x]
    ensures multiset(Flatten(r, n)) == multiset(Flatten(s, n)) + multiset{x}
    decreases n
  {
    if n - 1 == k {
      FlattenAtChunk(s, r, k, x);
    } else {
      var c := GetChunk(s.chunks, n - 1);
      assert GetChunk(r.chunks, n - 1) == c;
      assert Flatten(r, n) == Flatten(r, n - 1) + c;
      assert multiset(Flatten(r, n - 1)) == multiset(Flatten(s, n - 1)) + multiset{x} by {
        FlattenOneMore(s, r, k, x, n - 1);
      }
      OneMoreThrough(multiset(Flatten(s, n - 1)), multiset(Flatten(r, n - 1)),
                     multiset(Flatten(s, n)), multiset(Flatten(r, n)), multiset(c), x);
    }
  }

  /** One extra item survives appending the same chunk to both sides. */
  lemma OneMoreThrough(lo: multiset<Item>, lo': multiset<Item>, hi: multiset<Item>, hi': multiset<Item>,
                       c: multiset<Item>, x: Item)
    requires lo' == lo + multiset{x} && hi == lo + c && hi' == lo' + c
    ensures hi' == hi + multiset{x}
  {
  }

  /** add stores exactly one new item. */
  lemma AppendItems(s: Store, url: string, now: int)
    requires Consistent(s)
    ensures multiset(Items(Append(s, url, now))) == multiset(Items(s)) + multiset{Item(url, now)}
  {
    var r := Append(s, url, now);
    var k := Target(s.capacities);
    FlattenOneMore(s, r, k, Item(url, now), |r.capacities|);
    if k == |s.capacities| {
      assert GetChunk(s.chunks, k) == [];
      assert Flatten(s, k + 1) == Flatten(s, k) + [];
    }
  }

  /** addBulk stores every url exactly once, stamped with `now`, and nothing
      else changes in the stored items. */
  lemma {:induction false} BulkItems(s: Store, urls: seq<string>, now: int)
    requires Consistent(s)
    ensures multiset(Items(BulkAdded(s, urls, now))) == multiset(Items(s)) + multiset(Stamp(urls, now))
    decreases |urls|
  {
    if urls != [] {
      var n := |urls| - 1;
      var p := urls[..n];
      var t := BulkAdded(s, p, now);
      var x := Item(urls[n], now);
      assert multiset(Items(t)) == multiset(Items(s)) + multiset(Stamp(p, now)) by {
        BulkItems(s, p, now);
      }
      assert multiset(Items(BulkAdded(s, urls, now))) == multiset(Items(t)) + multiset{x} by {
        BulkKeepsConsistent(s, p, now);
        AppendItems(t, urls[n], now);
      }
      assert multiset(Stamp(urls, now)) == multiset(Stamp(p, now)) + multiset{x} by {
        assert Stamp(urls, now) == Stamp(p, now) + [x];
      }
      AddOneMore(multiset(Items(s)), multiset(Items(t)), multiset(Items(BulkAdded(s, urls, now))),
                 multiset(Stamp(p, now)), multiset(Stamp(urls, now)), x);
    }
  }

  /** Adding the stored items of one more write to a running total. */
  lemma AddOneMore(base: multiset<Item>, before: multiset<Item>, after: multiset<Item>,
                   stored: multiset<Item>, stored': multiset<Item>, x: Item)
    requires before == base + stored && after == before + multiset{x}
    requires stored' == stored + multiset{x}
    ensures after == base + stored'
  {
  }

  // ---------------------------------------------------------------------
  // addBulk against repeated add

  /** With no empty url in the batch, addBulk ends in the same state as add
      called once per url within the same second. */
  lemma {:induction false} BulkEqualsRepeatedAdd(s: Store, urls: seq<string>, now: int)
    requires forall j :: 0 <= j < |urls| ==> urls[j] != ""
    ensures AddedEach(s, urls, now) == BulkAdded(s, urls, now)
    decreases |urls|
  {
    if urls != [] {
      BulkEqualsRepeatedAdd(s, urls[..|urls| - 1], now);
    }
  }

  /** The empty url breaks that agreement: add ignores it, addBulk stores it. */
  lemma BulkStoresEmptyUrl(s: Store, now: int)
    ensures AddedEach(s, [""], now) == s
    ensures BulkAdded(s, [""], now) != s
  {
    assert [""][..0] == [];
    var k := Target(s.capacities);
    assert |GetChunk(BulkAdded(s, [""], now).chunks, k)| == |GetChunk(s.chunks, k)| + 1;
  }

  /** From an empty store, up to CHUNK_SIZE urls all go into chunk 0. */
  lemma {:induction false} FillFirstChunk(urls: seq<string>, now: int)
    requires 0 < |urls| <= CHUNK_SIZE
    ensures BulkAdded(Empty, urls, now).capacities == [CHUNK_SIZE - |urls|]
    ensures GetChunk(BulkAdded(Empty, urls, now).chunks, 0) == Stamp(urls, now)
    ensures BulkAdded(Empty, urls, now).chunks.Keys == {0}
    decreases |urls|
  {
    var n := |urls| - 1;
    if n > 0 {
      FillFirstChunk(urls[..n], now);
    }
  }

  /** From an empty store, CHUNK_SIZE + 1 urls fill chunk 0 and open chunk 1
      with one item: capacities [0, 999]. Through BulkEqualsRepeatedAdd the
      same holds for CHUNK_SIZE + 1 calls of add with non-empty urls. */
  lemma OverflowOpensSecondChunk(urls: seq<string>, now: int)
    requires |urls| == CHUNK_SIZE + 1
    ensures BulkAdded(Empty, urls, now).capacities == [0, CHUNK_SIZE - 1]
    ensures GetChunk(BulkAdded(Empty, urls, now).chunks, 1) == [Item(urls[CHUNK_SIZE], now)]
  {
    FillFirstChunk(urls[..CHUNK_SIZE], now);
  }

  // ---------------------------------------------------------------------
  // remove

  /** The filter works chunk piece by piece, so the survivors keep their
      relative order. */
  lemma {:induction false} WithoutSplits(a: seq<Item>, b: seq<Item>, url: string, t: int)
    ensures Without(a + b, url, t) == Without(a, url, t) + Without(b, url, t)
    decreases |a|
  {
    if a == [] {
      assert a + b == b;
    } else {
      var x, a' := a[0], a[1..];
      var keep := if x.url != url || x.t != t then [x] else [];
      var rest := Without(a', url, t);
      var tail := Without(b, url, t);
      Uncons(a, b);
      WithoutCons(x, a' + b, url, t);
      WithoutCons(x, a', url, t);
      WithoutSplits(a', b, url, t);
      Regroup(keep, rest, tail);
    }
  }

  /** A non-empty sequence, alone and followed by another, split at its head. */
  lemma Uncons<T>(a: seq<T>, b: seq<T>)
    requires a != []
    ensures a == [a[0]] + a[1..] && a + b == [a[0]] + (a[1..] + b)
  {
  }

  lemma Regroup<T>(p: seq<T>, q: seq<T>, r: seq<T>)
    ensures p + (q + r) == (p + q) + r
  {
  }

  /** The filter on a chunk with one more entry in front. */
  lemma WithoutCons(x: Item, c: seq<Item>, url: string, t: int)
    ensures Without([x] + c, url, t) == (if x.url != url || x.t != t then [x] else []) + Without(c, url, t)
  {
    var xc := [x] + c;
    assert xc[0] == x && xc[1..] == c;
  }

  /** remove leaves the store untouched exactly when the chunk id is unknown
      or the chunk holds no entry with that url and timestamp. */
  lemma RemovedUnchangedIff(s: Store, item: LoadedItem)
    ensures Removed(s, item) == s
      <==> item.chunkId >= |s.capacities| || Item(item.url, item.t) !in GetChunk(s.chunks, item.chunkId)
  {
    var x := Item(item.url, item.t);
    if item.chunkId < |s.capacities| {
      var c := GetChunk(s.chunks, item.chunkId);
      var r := Removed(s, item);
      if x in c {
        assert multiset(c)[x] > 0;
        if 0 <= item.chunkId {
          assert r.capacities[item.chunkId] != s.capacities[item.chunkId];
        }
      } else {
        assert multiset(c)[x] == 0;
        if 0 <= item.chunkId {
          WithoutNothing(c, item.url, item.t);
          assert r.capacities == s.capacities;
          assert GetChunk(r.chunks, item.chunkId) == c;
          assert r.chunks == s.chunks;
        }
      }
    }
  }

  /** A store holding one item in chunk 0: removing it gives the slot back and
      getAll no longer lists it. */
  lemma RemoveOnlyItem(x: Item)
    ensures var s := Store([CHUNK_SIZE - 1], map[0 := [x]], Absent);
      var r := Removed(s, LoadedItem(x.url, x.t, 0));
      r.capacities == [CHUNK_SIZE] && Tagged(r) == []
  {
    var s := Store([CHUNK_SIZE - 1], map[0 := [x]], Absent);
    var r := Removed(s, LoadedItem(x.url, x.t, 0));
    assert multiset([x])[x] == 1;
    assert |Without([x], x.url, x.t)| == 0;
    assert GetChunk(r.chunks, 0) == [];
    assert TaggedUpTo(r, 1) == TaggedUpTo(r, 0) + Tag(GetChunk(r.chunks, 0), 0);
  }

  // ---------------------------------------------------------------------
  // getAll, clear and the migration

  function Untag(xs: seq<LoadedItem>): seq<Item>
  {
    seq(|xs|, j requires 0 <= j < |xs| => Item(xs[j].url, xs[j].t))
  }

  /** The collected list is the stored items in chunk order, each tagged with
      the id of the chunk it came from, and with nothing else in it. */
  lemma {:induction false} TaggedIsItems(s: Store, n: nat)
    ensures Untag(TaggedUpTo(s, n)) == Flatten(s, n)
    ensures forall x :: (x in TaggedUpTo(s, n)
      <==> 0 <= x.chunkId < n && Item(x.url, x.t) in GetChunk(s.chunks, x.chunkId))
    decreases n
  {
    if n > 0 {
      TaggedIsItems(s, n - 1);
      var c := GetChunk(s.chunks, n - 1);
      assert Untag(TaggedUpTo(s, n)) == Untag(TaggedUpTo(s, n - 1)) + c;
      forall x ensures x in TaggedUpTo(s, n)
        <==> 0 <= x.chunkId < n && Item(x.url, x.t) in GetChunk(s.chunks, x.chunkId)
      {
        if x.chunkId == n - 1 && Item(x.url, x.t) in c {
          var j :| 0 <= j < |c| && c[j] == Item(x.url, x.t);
          assert Tag(c, n - 1)[j] == x;
        }
      }
    }
  }

  /** A second migration, at any later time, migrates nothing. */
  lemma MigratesOnce(s: Store, now: int, later: int)
    ensures Migrated(Migrated(s, now), later) == Migrated(s, now)
    ensures Migrated(s, now).legacy != Absent ==> Migrated(s, now) == s
  {
  }

  /** A readable legacy list ends up in the store, every entry once, stamped
      with the migration time. */
  lemma MigratedItems(s: Store, now: int)
    requires Consistent(s) && s.legacy.Entries?
    ensures multiset(Items(Migrated(s, now))) == multiset(Items(s)) + multiset(Stamp(s.legacy.urls, now))
  {
    var b := BulkAdded(s, s.legacy.urls, now);
    BulkItems(s, s.legacy.urls, now);
    assert forall n: nat :: Flatten(b.(legacy := Absent), n) == Flatten(b, n) by {
      forall n: nat ensures Flatten(b.(legacy := Absent), n) == Flatten(b, n) {
        FlattenIgnoresLegacy(b, n);
      }
    }
  }

  lemma {:induction false} FlattenIgnoresLegacy(s: Store, n: nat)
    ensures Flatten(s.(legacy := Absent), n) == Flatten(s, n)
    decreases n
  {
    if n > 0 {
      FlattenIgnoresLegacy(s, n - 1);
    }
  }

  /** After clear, getAll comes back empty unless a non-empty legacy list is
      still waiting to be migrated: clear does not touch that key. */
  lemma ClearThenGetAll(s: Store, now: int)
    requires Consistent(s)
    ensures Tagged(Migrated(Cleared(s), now)) == []
      <==> !(s.legacy.Entries? && |s.legacy.urls| > 0)
  {
    ClearEmpties(s);
    var c := Cleared(s);
    var m := Migrated(c, now);
    if s.legacy.Entries? && |s.legacy.urls| > 0 {
      MigratedItems(c, now);
      TaggedIsItems(m, |m.capacities|);
      assert Stamp(s.legacy.urls, now)[0] in multiset(Items(m));
    }
  }

  /** What add stores, getAll lists: after add(url), at any later getAll,
      the collected items include one with that url and add's timestamp. */
  lemma AddThenGetAll(s: Store, url: string, now: int, later: int)
    requires Consistent(s) && url != ""
    ensures exists x :: x in Tagged(Migrated(Added(s, url, now), later)) && x.url == url && x.t == now
  {
    var a := Added(s, url, now);
    var item := Item(url, now);
    assert Consistent(a) && item in multiset(Items(a)) by {
      AppendKeepsConsistent(s, url, now);
      AppendItems(s, url, now);
    }
    var m := Migrated(a, later);
    assert item in multiset(Items(m)) by {
      if a.legacy.Entries? {
        MigratedItems(a, later);
      }
    }
    var tagged := Tagged(m);
    assert Untag(tagged) == Items(m) by {
      TaggedIsItems(m, |m.capacities|);
    }
    var j :| 0 <= j < |Items(m)| && Items(m)[j] == item;
    assert tagged[j] in tagged && tagged[j].url == url && tagged[j].t == now;
  }

  /** After clear, add starts again at chunk 0. */
  lemma ClearThenAdd(s: Store, url: string, now: int)
    requires Consistent(s) && url != ""
    ensures Added(Cleared(s), url, now).capacities == [CHUNK_SIZE - 1]
    ensures GetChunk(Added(Cleared(s), url, now).chunks, 0) == [Item(url, now)]
  {
    ClearEmpties(s);
  }
}
