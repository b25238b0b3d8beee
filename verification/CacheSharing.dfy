/** How much of one request's KV another request can reuse. */
module CacheSharing {
  import opened Wrappers
  import opened Chunking
  import opened EngineModel
  import opened CacheCoherence

  /** The length of the longest common prefix. */
  function Lcp(a: seq<Token>, b: seq<Token>): (n: nat)
    ensures IsLcp(a, b, n)
  {
    if a == [] || b == [] || a[0] != b[0] then 0
    else
      var n := Lcp(a[1..], b[1..]);
      assert a[..n + 1] == [a[0]] + a[1..][..n] && b[..n + 1] == [b[0]] + b[1..][..n];
      n + 1
  }

  /** What it means to be that length. */
  ghost predicate IsLcp(a: seq<Token>, b: seq<Token>, n: nat) {
    && n <= |a| && n <= |b| && a[..n] == b[..n]
    && (n == |a| || n == |b| || a[n] != b[n])
  }

  lemma LcpAtLeast(a: seq<Token>, b: seq<Token>, i: nat, n: nat)
    requires i <= |a| && i <= |b| && a[..i] == b[..i] && IsLcp(a, b, n)
    ensures i <= n
  {
    forall j | 0 <= j < i
      ensures a[j] == b[j]
    {
      assert a[..i][j] == b[..i][j];
    }
  }

  // ---------- what a lookup answers ----------

  /** A lookup answers a whole number of chunks or everything. */
  lemma LookupAligned(cfg: Config, dict: map<Key, Chunk>, tokens: seq<Token>)
    ensures var r := Hits(cfg, dict, tokens, 0);
            r == |tokens| || (r < |tokens| && r % cfg.chunker.size == 0)
  {
    HitsAligned(cfg, dict, tokens, 0);
    FloorIsDiv(Hits(cfg, dict, tokens, 0), cfg.chunker.size);
  }

  lemma {:induction false} ReachIsHits(cfg: Config, b: Backend, i: nat, tokens: seq<Token>, at: nat)
    requires at <= |tokens|
    ensures Reach(cfg, b, true, Quiet(), i, tokens, at) == Hits(cfg, b.dict, tokens, at)
    decreases |tokens| - at
  {
    if at < |tokens| {
      assert Disturb(b, Change([], {})) == b by {
        assert b.dict - {} == b.dict;
      }
      ReachIsHits(cfg, b, i + 1, tokens, cfg.chunker.ChunkEnd(at, |tokens|));
    }
  }

  lemma ReachUnidentified(cfg: Config, b: Backend, env: nat -> Change, i: nat, tokens: seq<Token>, at: nat)
    requires at <= |tokens|
    ensures Reach(cfg, b, false, env, i, tokens, at) == at
  {}

  /** With a quiet background lookup and retrieve agree exactly when the client is identified
      or nothing is stored: `contains` does not look at the client, `get` does. */
  lemma LookupAgreesWithRetrieve(cfg: Config, step: Step, b: Backend, client: Option<int>, tokens: seq<Token>)
    requires Coherent(cfg, step, b)
    ensures var found := RetrieveFrom(cfg, b, Identified(client), Quiet(), tokens, None);
            |found.kv| == Hits(cfg, b.dict, tokens, 0) <==>
            (client != None && client != Some(-1)) || Hits(cfg, b.dict, tokens, 0) == 0
  {
    RetrieveIsRecomputation(cfg, step, b, Identified(client), Quiet(), tokens, None);
    ReachIsHits(cfg, b, 0, tokens, 0);
    ReachUnidentified(cfg, b, Quiet(), 0, tokens, 0);
  }

  // ---------- exact sharing ----------

  /** Every chunk of `a` from `at` on is stored. */
  predicate AllStored(cfg: Config, dict: map<Key, Chunk>, a: seq<Token>, at: nat)
    requires at <= |a|
  {
    Hits(cfg, dict, a, at) == |a|
  }

  ghost predicate IsChunkKey(cfg: Config, a: seq<Token>, k: Key) {
    exists at: nat :: at < |a| && Aligned(at, cfg.chunker.size) && k == ChunkKey(cfg, a, at)
  }

  /** Nothing but chunks of `a` is stored. */
  ghost predicate OnlyChunksOf(cfg: Config, dict: map<Key, Chunk>, a: seq<Token>) {
    forall k :: k in dict ==> IsChunkKey(cfg, a, k)
  }

  function ChunkKey(cfg: Config, a: seq<Token>, at: nat): Key
    requires at < |a|
  {
    cfg.KeyOf(a[..cfg.chunker.ChunkEnd(at, |a|)])
  }

  /** Two different prefixes ending in the middle of a chunk never share a key. */
  lemma SameChunkKey(cfg: Config, a: seq<Token>, x: nat, b: seq<Token>, y: nat, n: nat)
    requires IsLcp(a, b, n) && CollisionFree(cfg.chunker.hash)
    requires x < |a| && Aligned(x, cfg.chunker.size) && y < |b| && Aligned(y, cfg.chunker.size)
    requires ChunkKey(cfg, a, x) == ChunkKey(cfg, b, y)
    ensures var e := cfg.chunker.ChunkEnd(y, |b|);
            && e <= n
            && (a == b || e == y + cfg.chunker.size)
  {
    var d, e := cfg.chunker.ChunkEnd(x, |a|), cfg.chunker.ChunkEnd(y, |b|);
    KeyOfInjective(cfg, a[..d], b[..e]);
    assert d == |a[..d]| == |b[..e]| == e;
    LcpAtLeast(a, b, e, n);
    if e != y + cfg.chunker.size {
      FloorUnique(e, cfg.chunker.size, y);
      if d != |a| {
        cfg.chunker.ChunkEndAligned(x, |a|);
        FloorUnique(e, cfg.chunker.size, e);
      }
      assert a == a[..d] && b == b[..e];
    }
  }

  lemma SharedChunk(cfg: Config, a: seq<Token>, b: seq<Token>, n: nat, at: nat, next: nat)
    requires IsLcp(a, b, n) && next == at + cfg.chunker.size <= n
    ensures at < |a| && at < |b|
    ensures cfg.chunker.ChunkEnd(at, |a|) == next && cfg.chunker.ChunkEnd(at, |b|) == next
    ensures a[..next] == b[..next] && ChunkKey(cfg, a, at) == ChunkKey(cfg, b, at)
  {
    assert a[..next] == a[..n][..next] && b[..next] == b[..n][..next];
  }

  /** Where the common prefix ends inside a chunk, a different sequence finds nothing. */
  lemma NothingBeyondLcp(cfg: Config, dict: map<Key, Chunk>, a: seq<Token>, b: seq<Token>, n: nat, at: nat)
    requires CollisionFree(cfg.chunker.hash) && OnlyChunksOf(cfg, dict, a) && a != b
    requires IsLcp(a, b, n) && at <= |b| && Aligned(at, cfg.chunker.size) && n < at + cfg.chunker.size
    ensures Hits(cfg, dict, b, at) == at
  {
    if at < |b| && ChunkKey(cfg, b, at) in dict {
      var k := ChunkKey(cfg, b, at);
      assert IsChunkKey(cfg, a, k);
      var x: nat :| x < |a| && Aligned(x, cfg.chunker.size) && k == ChunkKey(cfg, a, x);
      SameChunkKey(cfg, a, x, b, at, n);
    }
  }

  /** A lookup of `b` goes on past a chunk it shares with a stored `a`. */
  lemma SharedStep(cfg: Config, dict: map<Key, Chunk>, a: seq<Token>, b: seq<Token>, n: nat, at: nat, next: nat)
    requires IsLcp(a, b, n) && next == at + cfg.chunker.size <= n && AllStored(cfg, dict, a, at)
    ensures AllStored(cfg, dict, a, next) && Hits(cfg, dict, b, at) == Hits(cfg, dict, b, next)
  {
    SharedChunk(cfg, a, b, n, at, next);
    HitsStep(cfg, dict, a, at, next);
    HitsStep(cfg, dict, b, at, next);
  }

  /** A lookup of `b` when every chunk of `a` is stored gets as far as their common chunks. */
  lemma {:induction false} SharedReach(cfg: Config, dict: map<Key, Chunk>, a: seq<Token>, b: seq<Token>, n: nat,
                                       at: nat)
    requires IsLcp(a, b, n) && at <= n && Aligned(at, cfg.chunker.size) && AllStored(cfg, dict, a, at)
    ensures Hits(cfg, dict, b, at) == Hits(cfg, dict, b, Floor(n, cfg.chunker.size))
    decreases n - at
  {
    var next := at + cfg.chunker.size;
    if next <= n {
      SharedStep(cfg, dict, a, b, n, at, next);
      AlignedNext(at, cfg.chunker.size);
      SharedReach(cfg, dict, a, b, n, next);
    } else {
      FloorUnique(n, cfg.chunker.size, at);
    }
  }

  /** It reaches at least their common chunks, and no further when nothing else is stored. */
  lemma SharedHits(cfg: Config, dict: map<Key, Chunk>, a: seq<Token>, b: seq<Token>, n: nat, at: nat)
    requires CollisionFree(cfg.chunker.hash)
    requires IsLcp(a, b, n) && at <= n && Aligned(at, cfg.chunker.size) && AllStored(cfg, dict, a, at)
    ensures Floor(n, cfg.chunker.size) <= Hits(cfg, dict, b, at)
    ensures a != b && OnlyChunksOf(cfg, dict, a) ==> Hits(cfg, dict, b, at) == Floor(n, cfg.chunker.size)
  {
    SharedReach(cfg, dict, a, b, n, at);
    if a != b && OnlyChunksOf(cfg, dict, a) {
      NothingBeyondLcp(cfg, dict, a, b, n, Floor(n, cfg.chunker.size));
    }
  }

  lemma AlignedNext(at: nat, size: pos)
    requires Aligned(at, size)
    ensures Aligned(at + size, size)
  {}

  lemma HitsStep(cfg: Config, dict: map<Key, Chunk>, tokens: seq<Token>, at: nat, next: nat)
    requires at < |tokens| && next == cfg.chunker.ChunkEnd(at, |tokens|)
    ensures Hits(cfg, dict, tokens, at) ==
            if ChunkKey(cfg, tokens, at) in dict then Hits(cfg, dict, tokens, next) else at
  {}

  // ---------- what a store leaves behind ----------

  /** No eviction, and every put succeeds. */
  function Undisturbed(): nat -> PutOutcome {
    _ => Stored({})
  }

  /** The key is that of one of the entries. */
  ghost predicate KeyIn(entries: seq<(Key, Chunk)>, k: Key) {
    exists i :: 0 <= i < |entries| && entries[i].0 == k
  }

  lemma KeyInLast(entries: seq<(Key, Chunk)>, k: Key)
    requires entries != []
    ensures KeyIn(entries, k) <==> KeyIn(entries[..|entries| - 1], k) || k == entries[|entries| - 1].0
  {
    var n := |entries| - 1;
    assert forall i :: 0 <= i < n ==> entries[..n][i] == entries[i];
  }

  lemma {:induction false} PutAllKeys(dict: map<Key, Chunk>, entries: seq<(Key, Chunk)>, j: nat, k: Key)
    ensures k in PutAll(dict, entries, Undisturbed(), j) <==> k in dict || KeyIn(entries, k)
    decreases |entries|
  {
    if entries != [] {
      var n := |entries| - 1;
      KeyInLast(entries, k);
      PutAllKeys(PutEntry(dict, entries[n], Stored({})), entries[..n], j + 1, k);
    }
  }

  lemma {:induction false} HitsMonotone(cfg: Config, dict: map<Key, Chunk>, dict': map<Key, Chunk>,
                                        tokens: seq<Token>, at: nat)
    requires at <= |tokens| && dict.Keys <= dict'.Keys
    ensures Hits(cfg, dict, tokens, at) <= Hits(cfg, dict', tokens, at)
    ensures Hits(cfg, dict', tokens, Hits(cfg, dict, tokens, at)) == Hits(cfg, dict', tokens, at)
    decreases |tokens| - at
  {
    if at < |tokens| {
      HitsMonotone(cfg, dict, dict', tokens, cfg.chunker.ChunkEnd(at, |tokens|));
    }
  }

  ghost predicate AllChunksOf(cfg: Config, tokens: seq<Token>, entries: seq<(Key, Chunk)>) {
    forall i :: 0 <= i < |entries| ==> IsChunkKey(cfg, tokens, entries[i].0)
  }

  /** The entries of `tokens` from `at` on are chunks of `tokens`. */
  lemma {:induction false} EntriesAreChunks(cfg: Config, tokens: seq<Token>, kv: Chunk, base: nat, at: nat)
    requires base <= at <= |tokens| && |kv| == |tokens| - base
    requires at == |tokens| || Aligned(at, cfg.chunker.size)
    ensures AllChunksOf(cfg, tokens, EntriesFrom(cfg, tokens, kv, base, at))
    decreases |tokens| - at
  {
    if at < |tokens| {
      var e := cfg.chunker.ChunkEnd(at, |tokens|);
      cfg.chunker.ChunkEndAligned(at, |tokens|);
      EntriesAreChunks(cfg, tokens, kv, base, e);
      assert IsChunkKey(cfg, tokens, ChunkKey(cfg, tokens, at));
      ChunksCons(cfg, tokens, (ChunkKey(cfg, tokens, at), kv[at - base..e - base]),
                 EntriesFrom(cfg, tokens, kv, base, e));
    }
  }

  lemma ChunksCons(cfg: Config, tokens: seq<Token>, entry: (Key, Chunk), rest: seq<(Key, Chunk)>)
    requires IsChunkKey(cfg, tokens, entry.0) && AllChunksOf(cfg, tokens, rest)
    ensures AllChunksOf(cfg, tokens, [entry] + rest)
  {}

  predicate AllIn(entries: seq<(Key, Chunk)>, dict: map<Key, Chunk>) {
    forall i :: 0 <= i < |entries| ==> entries[i].0 in dict
  }

  lemma PutAllIn(dict: map<Key, Chunk>, entries: seq<(Key, Chunk)>)
    ensures var after := PutAll(dict, entries, Undisturbed(), 0);
            dict.Keys <= after.Keys && AllIn(entries, after)
  {
    var after := PutAll(dict, entries, Undisturbed(), 0);
    forall k | k in dict
      ensures k in after
    {
      PutAllKeys(dict, entries, 0, k);
    }
    forall i | 0 <= i < |entries|
      ensures entries[i].0 in after
    {
      PutAllKeys(dict, entries, 0, entries[i].0);
    }
  }

  /** Storing the entries of `tokens` from `at` on stores all its chunks from there. */
  lemma {:induction false} EntriesCover(cfg: Config, dict: map<Key, Chunk>, tokens: seq<Token>, kv: Chunk,
                                        base: nat, at: nat)
    requires base <= at <= |tokens| && |kv| == |tokens| - base
    requires AllIn(EntriesFrom(cfg, tokens, kv, base, at), dict)
    ensures Hits(cfg, dict, tokens, at) == |tokens|
    decreases |tokens| - at
  {
    if at < |tokens| {
      var e := cfg.chunker.ChunkEnd(at, |tokens|);
      var entries, rest := EntriesFrom(cfg, tokens, kv, base, at), EntriesFrom(cfg, tokens, kv, base, e);
      assert entries == [entries[0]] + rest && entries[0].0 == ChunkKey(cfg, tokens, at);
      assert AllIn(rest, dict) by {
        forall i | 0 <= i < |rest|
          ensures rest[i].0 in dict
        {
          assert rest[i] == entries[i + 1];
        }
      }
      EntriesCover(cfg, dict, tokens, kv, base, e);
    }
  }

  /** What a lookup of `b` answers when everything of `a` is stored: at least their common
      chunks, all of `b` if it is `a`, and no less than before. */
  ghost predicate SharesStored(cfg: Config, before: map<Key, Chunk>, after: map<Key, Chunk>, a: seq<Token>,
                               b: seq<Token>)
  {
    && AllStored(cfg, after, a, 0)
    && Hits(cfg, after, b, 0) >= Floor(Lcp(a, b), cfg.chunker.size)
    && (b == a ==> Hits(cfg, after, b, 0) == |b|)
    && Hits(cfg, after, b, 0) >= Hits(cfg, before, b, 0)
  }

  /** Once the entries of a request are in the dictionary, all of its tokens are stored. */
  lemma EntriesShare(cfg: Config, before: map<Key, Chunk>, after: map<Key, Chunk>, req: StoreRequest, b: seq<Token>)
    requires CollisionFree(cfg.chunker.hash) && req.Rejected(cfg) == None
    requires Hits(cfg, before, req.tokens, 0) >= req.Skip()
    requires before.Keys <= after.Keys && AllIn(req.Entries(cfg, before), after)
    ensures SharesStored(cfg, before, after, req.tokens, b)
  {
    var a, skip := req.tokens, req.Skip();
    var from := if req.skipExisting then Hits(cfg, before, a, skip) else 0;
    HitsAligned(cfg, before, a, skip);
    EntriesCover(cfg, after, a, req.kv, skip, from);
    HitsMonotone(cfg, before, after, a, 0);
    HitsMonotone(cfg, before, after, a, skip);
    HitsResume(cfg, before, a, 0, skip);
    StoredShare(cfg, before, after, a, b);
  }

  lemma StoredShare(cfg: Config, before: map<Key, Chunk>, after: map<Key, Chunk>, a: seq<Token>, b: seq<Token>)
    requires CollisionFree(cfg.chunker.hash) && before.Keys <= after.Keys
    requires AllStored(cfg, after, a, 0) || AllStored(cfg, before, a, 0)
    ensures SharesStored(cfg, before, after, a, b)
  {
    HitsMonotone(cfg, before, after, a, 0);
    SharedHits(cfg, after, a, b, Lcp(a, b), 0);
    HitsMonotone(cfg, before, after, b, 0);
  }

  /** From any state: after a blocking, undisturbed store of `a`, a lookup of any `b`
      finds at least their common chunks, and all of `b` if it is `a`, provided the
      masked-out prefix of `a` is stored. */
  lemma StoreThenLookup(cfg: Config, st: Backend, client: Option<int>, req: StoreRequest, b: seq<Token>)
    requires CollisionFree(cfg.chunker.hash) && Identified(client)
    requires req.Rejected(cfg) == None && req.blocking
    requires Hits(cfg, st.dict, req.tokens, 0) >= req.Skip()
    ensures SharesStored(cfg, st.dict, AfterStore(cfg, st, client, req, Undisturbed()).dict, req.tokens, b)
  {
    PutAllIn(st.dict, req.Entries(cfg, st.dict));
    EntriesShare(cfg, st.dict, AfterStore(cfg, st, client, req, Undisturbed()).dict, req, b);
  }

  // ---------- queued stores arrive ----------

  /** As many puts of the worker as there are entries in the queue, all of which succeed. */
  function Drained(b: Backend): Backend {
    Disturb(b, Change(seq(|b.queue|, _ => Stored({})), {}))
  }

  lemma DrainedCoherent(cfg: Config, step: Step, b: Backend)
    requires Coherent(cfg, step, b)
    ensures Coherent(cfg, step, Drained(b))
  {
    DisturbCoherent(cfg, step, b, Change(seq(|b.queue|, _ => Stored({})), {}));
  }

  ghost predicate AllSucceed(outcomes: seq<PutOutcome>) {
    forall i :: 0 <= i < |outcomes| ==> outcomes[i] == Stored({})
  }

  /** The worker takes the queue front to back, and what it takes is in the dictionary. */
  lemma {:induction false} WorkerPutsArrive(b: Backend, outcomes: seq<PutOutcome>, k: Key)
    requires |outcomes| >= |b.queue| && AllSucceed(outcomes)
    ensures WorkerPuts(b, outcomes).queue == []
    ensures k in WorkerPuts(b, outcomes).dict <==> k in b.dict || KeyIn(b.queue, k)
    decreases |outcomes|
  {
    if b.queue != [] {
      var next := Backend(PutEntry(b.dict, b.queue[0], outcomes[0]), b.queue[1..]);
      WorkerPutsArrive(next, outcomes[1..], k);
      KeyInFirst(b.queue, k);
    }
  }

  lemma KeyInFirst(entries: seq<(Key, Chunk)>, k: Key)
    requires entries != []
    ensures KeyIn(entries, k) <==> k == entries[0].0 || KeyIn(entries[1..], k)
  {
    assert forall i :: 0 < i < |entries| ==> entries[i] == entries[1..][i - 1];
  }

  lemma DrainedKeys(b: Backend, k: Key)
    ensures Drained(b).queue == []
    ensures k in Drained(b).dict <==> k in b.dict || KeyIn(b.queue, k)
  {
    WorkerPutsArrive(b, seq(|b.queue|, _ => Stored({})), k);
  }

  lemma {:induction false} ReverseAt<T>(s: seq<T>, i: nat)
    requires i < |s|
    ensures |Reverse(s)| == |s| && Reverse(s)[|s| - 1 - i] == s[i]
  {
    var n := |s| - 1;
    if i < n {
      ReverseAt(s[..n], i);
    } else if n > 0 {
      ReverseAt(s[..n], 0);
    }
  }

  /** Whatever was queued is in the dictionary once the worker has been through. */
  lemma QueuedArrive(b: Backend, entries: seq<(Key, Chunk)>)
    ensures var after := Drained(b.(queue := b.queue + Reverse(entries)));
            after.queue == [] && b.dict.Keys <= after.dict.Keys && AllIn(entries, after.dict)
  {
    var queued := b.(queue := b.queue + Reverse(entries));
    var after := Drained(queued);
    DrainedQueue(queued);
    forall k | k in b.dict
      ensures k in after.dict
    {
      DrainedKeys(queued, k);
    }
    forall i | 0 <= i < |entries|
      ensures entries[i].0 in after.dict
    {
      ReverseAt(entries, i);
      var at := |b.queue| + (|entries| - 1 - i);
      assert queued.queue[at] == entries[i];
      assert KeyIn(queued.queue, entries[i].0);
      DrainedKeys(queued, entries[i].0);
    }
  }

  lemma DrainedQueue(b: Backend)
    ensures Drained(b).queue == []
  {
    if b.queue != [] {
      DrainedKeys(b, b.queue[0].0);
    }
  }

  /** From any state: after a store that is only queued, and once the worker has been through
      the queue, a lookup finds what it would after a blocking store. */
  lemma QueuedStoreThenLookup(cfg: Config, st: Backend, client: Option<int>, req: StoreRequest,
                              outcomes: nat -> PutOutcome, b: seq<Token>)
    requires CollisionFree(cfg.chunker.hash) && Identified(client)
    requires req.Rejected(cfg) == None && !req.blocking
    requires Hits(cfg, st.dict, req.tokens, 0) >= req.Skip()
    ensures var after := Drained(AfterStore(cfg, st, client, req, outcomes));
            after.queue == [] && SharesStored(cfg, st.dict, after.dict, req.tokens, b)
  {
    QueuedArrive(st, req.Entries(cfg, st.dict));
    EntriesShare(cfg, st.dict, Drained(AfterStore(cfg, st, client, req, outcomes)).dict, req, b);
  }

  /** Restarting the walk at an aligned position it passed changes nothing. */
  lemma {:induction false} HitsResume(cfg: Config, dict: map<Key, Chunk>, tokens: seq<Token>, at: nat, mid: nat)
    requires at <= |tokens| && Aligned(at, cfg.chunker.size) && Aligned(mid, cfg.chunker.size)
    requires at <= mid <= Hits(cfg, dict, tokens, at)
    ensures Hits(cfg, dict, tokens, mid) == Hits(cfg, dict, tokens, at)
    decreases mid - at
  {
    if at < mid {
      var e := cfg.chunker.ChunkEnd(at, |tokens|);
      FloorUnique(mid, cfg.chunker.size, mid);
      if e > mid {
        FloorUnique(mid, cfg.chunker.size, at);
      } else if e < |tokens| {
        HitsResume(cfg, dict, tokens, e, mid);
      }
    }
  }

  lemma OnlyEntriesOf(cfg: Config, req: StoreRequest, dict: map<Key, Chunk>)
    requires req.Rejected(cfg) == None && req.Skip() == 0
    requires forall k :: k in dict ==> KeyIn(req.Entries(cfg, map[]), k)
    ensures OnlyChunksOf(cfg, dict, req.tokens)
  {
    var entries := req.Entries(cfg, map[]);
    EntriesAreChunks(cfg, req.tokens, req.kv, 0, 0);
    forall k | k in dict
      ensures IsChunkKey(cfg, req.tokens, k)
    {
      var i :| 0 <= i < |entries| && entries[i].0 == k;
    }
  }

  lemma OnlyStoredChunks(cfg: Config, client: Option<int>, req: StoreRequest)
    requires Identified(client) && req.Rejected(cfg) == None && req.blocking && req.Skip() == 0
    ensures OnlyChunksOf(cfg, AfterStore(cfg, Backend(map[], []), client, req, Undisturbed()).dict, req.tokens)
  {
    var entries := req.Entries(cfg, map[]);
    var dict := PutAll(map[], entries, Undisturbed(), 0);
    forall k | k in dict
      ensures KeyIn(entries, k)
    {
      PutAllKeys(map[], entries, 0, k);
    }
    OnlyEntriesOf(cfg, req, dict);
  }

  lemma OnlyQueuedChunks(cfg: Config, client: Option<int>, req: StoreRequest, outcomes: nat -> PutOutcome)
    requires Identified(client) && req.Rejected(cfg) == None && !req.blocking && req.Skip() == 0
    ensures OnlyChunksOf(cfg, Drained(AfterStore(cfg, Backend(map[], []), client, req, outcomes)).dict, req.tokens)
  {
    var entries := req.Entries(cfg, map[]);
    var queued := AfterStore(cfg, Backend(map[], []), client, req, outcomes);
    forall k | k in Drained(queued).dict
      ensures KeyIn(entries, k)
    {
      DrainedKeys(queued, k);
      var j :| 0 <= j < |queued.queue| && queued.queue[j].0 == k;
      FromReverse(entries, j);
    }
    OnlyEntriesOf(cfg, req, Drained(queued).dict);
  }

  lemma FromReverse(entries: seq<(Key, Chunk)>, j: nat)
    requires j < |Reverse(entries)|
    ensures KeyIn(entries, Reverse(entries)[j].0)
  {
    if entries != [] {
      ReverseAt(entries, 0);
      ReverseAt(entries, |entries| - 1 - j);
    }
  }

  /** What a lookup of `b` answers when `a` is all that is stored. */
  lemma OnlyStoredLookup(cfg: Config, dict: map<Key, Chunk>, a: seq<Token>, b: seq<Token>)
    requires CollisionFree(cfg.chunker.hash) && OnlyChunksOf(cfg, dict, a) && AllStored(cfg, dict, a, 0)
    ensures Hits(cfg, dict, b, 0) == if b == a then |b| else Lcp(a, b) / cfg.chunker.size * cfg.chunker.size
  {
    SharedHits(cfg, dict, a, b, Lcp(a, b), 0);
    FloorIsDiv(Lcp(a, b), cfg.chunker.size);
  }

  /** Into an empty cache: the lookup is exact. */
  lemma ExactSharing(cfg: Config, client: Option<int>, req: StoreRequest, b: seq<Token>)
    requires CollisionFree(cfg.chunker.hash) && Identified(client)
    requires req.Rejected(cfg) == None && req.blocking && req.Skip() == 0
    ensures var after := AfterStore(cfg, Backend(map[], []), client, req, Undisturbed()).dict;
            Hits(cfg, after, b, 0) ==
            if b == req.tokens then |b| else Lcp(req.tokens, b) / cfg.chunker.size * cfg.chunker.size
  {
    StoreThenLookup(cfg, Backend(map[], []), client, req, b);
    OnlyStoredChunks(cfg, client, req);
    OnlyStoredLookup(cfg, AfterStore(cfg, Backend(map[], []), client, req, Undisturbed()).dict, req.tokens, b);
  }

  /** The same of a queued store, once the worker has been through the queue. */
  lemma ExactQueuedSharing(cfg: Config, client: Option<int>, req: StoreRequest, outcomes: nat -> PutOutcome,
                           b: seq<Token>)
    requires CollisionFree(cfg.chunker.hash) && Identified(client)
    requires req.Rejected(cfg) == None && !req.blocking && req.Skip() == 0
    ensures var after := Drained(AfterStore(cfg, Backend(map[], []), client, req, outcomes)).dict;
            Hits(cfg, after, b, 0) ==
            if b == req.tokens then |b| else Lcp(req.tokens, b) / cfg.chunker.size * cfg.chunker.size
  {
    QueuedStoreThenLookup(cfg, Backend(map[], []), client, req, outcomes, b);
    OnlyQueuedChunks(cfg, client, req, outcomes);
    OnlyStoredLookup(cfg, Drained(AfterStore(cfg, Backend(map[], []), client, req, outcomes)).dict, req.tokens, b);
  }
}
