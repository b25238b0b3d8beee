/** The cache engine and its storage backend as a state machine on values: what every
    operation does to the stored chunks. `CacheEngine` holds the operations themselves,
    `CacheCoherence` and `CacheSharing` what is true of them. */
module EngineModel {
  import opened Wrappers
  import opened Chunking
  import opened CacheKeys

  type Key = CacheEngineKey
  type Chunk = seq<KV>

  datatype Metadata = Metadata(fmt: string, modelName: string, worldSize: int, workerId: int)

  datatype Config = Config(chunker: Chunker, meta: Metadata) {
    function MakeKey(h: Hash): Key {
      CacheEngineKey(meta.fmt, meta.modelName, meta.worldSize, meta.workerId, h)
    }

    /** The key of the last chunk of a token prefix. */
    function KeyOf(p: seq<Token>): Key {
      MakeKey(chunker.ChainHash(p))
    }

    predicate ValidFormat() {
      meta.fmt == "vllm" || meta.fmt == "huggingface"
    }
  }

  datatype Error =
    | InvalidFormat
    | MaskLengthMismatch
    | MaskNotAligned
    | TokenCountMismatch
    | SkipNeedsExistenceCheck

  // ---------- the storage backend ----------

  /** How one put into the backend ends: the evictor chooses victims, and the chunk is
      then either kept or dropped because it is too large or the pool is exhausted. */
  datatype PutOutcome = Stored(evicted: set<Key>) | Dropped(evicted: set<Key>)

  /** The dictionary of stored chunks and the queue of the put worker. */
  datatype Backend = Backend(dict: map<Key, Chunk>, queue: seq<(Key, Chunk)>)

  /** A put first removes any old entry of the key. */
  function PutEntry(dict: map<Key, Chunk>, entry: (Key, Chunk), outcome: PutOutcome): map<Key, Chunk> {
    match outcome
    case Stored(evicted) => (dict - ({entry.0} + evicted))[entry.0 := entry.1]
    case Dropped(evicted) => dict - ({entry.0} + evicted)
  }

  /** Putting a list back to front; `outcomes(j)` is the outcome of the next put. */
  function PutAll(dict: map<Key, Chunk>, entries: seq<(Key, Chunk)>, outcomes: nat -> PutOutcome, j: nat)
    : map<Key, Chunk>
    decreases |entries|
  {
    if entries == [] then dict
    else
      var n := |entries| - 1;
      PutAll(PutEntry(dict, entries[n], outcomes(j)), entries[..n], outcomes, j + 1)
  }

  function Reverse<T>(s: seq<T>): seq<T> {
    if s == [] then [] else [s[|s| - 1]] + Reverse(s[..|s| - 1])
  }

  /** The backend ignores requests whose client is missing or anonymous (-1). */
  predicate Identified(client: Option<int>) {
    client.Some? && client.value != -1
  }

  // ---------- masks ----------

  function CountFalse(mask: seq<bool>): (n: nat)
    ensures n <= |mask|
  {
    if mask == [] then 0
    else CountFalse(mask[..|mask| - 1]) + (if mask[|mask| - 1] then 0 else 1)
  }

  /** The number of leading tokens a mask skips; no mask skips none. */
  function Skipped(mask: Option<seq<bool>>): nat {
    match mask
    case None => 0
    case Some(m) => CountFalse(m)
  }

  // ---------- looking up ----------

  /** How far consecutive chunks from position `at` are present. */
  function Hits(cfg: Config, dict: map<Key, Chunk>, tokens: seq<Token>, at: nat): (r: nat)
    requires at <= |tokens|
    ensures at <= r <= |tokens|
    decreases |tokens| - at
  {
    if at == |tokens| then at
    else
      var e := cfg.chunker.ChunkEnd(at, |tokens|);
      if cfg.KeyOf(tokens[..e]) in dict then Hits(cfg, dict, tokens, e) else at
  }

  // ---------- storing ----------

  /** `torch.split` of a token axis: an empty axis gives one empty piece. */
  function Split(kv: Chunk, size: pos): (pieces: seq<Chunk>)
    ensures |pieces| > 0
  {
    if |kv| <= size then [kv] else [kv[..size]] + Split(kv[size..], size)
  }

  /** All pieces but the last are full, and the last is not empty unless there is nothing. */
  lemma {:induction false} SplitPieces(kv: Chunk, size: pos, i: nat)
    requires i < |Split(kv, size)|
    ensures if i < |Split(kv, size)| - 1 then |Split(kv, size)[i]| == size
            else |Split(kv, size)[i]| <= size && (kv != [] ==> Split(kv, size)[i] != [])
  {
    if |kv| > size {
      SplitPieces(kv[size..], size, if i > 0 then i - 1 else 0);
    }
  }

  /** A tensor slice `[start:]`, which is empty when it starts beyond the end. */
  function SliceFrom(kv: Chunk, start: nat): Chunk {
    if start <= |kv| then kv[start..] else []
  }

  function SliceKvAt(kv: Chunk, start: nat, size: pos): (pieces: seq<Chunk>)
    ensures |pieces| > 0
  {
    Split(SliceFrom(kv, start), size)
  }

  /** The (key, KV) pairs of the chunks of `tokens` from `at` on, where `kv` covers the
      tokens from `base` on. */
  function EntriesFrom(cfg: Config, tokens: seq<Token>, kv: Chunk, base: nat, at: nat): seq<(Key, Chunk)>
    requires base <= at <= |tokens| && |kv| == |tokens| - base
    decreases |tokens| - at
  {
    if at == |tokens| then []
    else
      var e := cfg.chunker.ChunkEnd(at, |tokens|);
      [(cfg.KeyOf(tokens[..e]), kv[at - base..e - base])] + EntriesFrom(cfg, tokens, kv, base, e)
  }

  /** Pairing hashes with KV pieces, each under its key, up to the shorter of the two. */
  function Zip(cfg: Config, hashes: seq<Hash>, pieces: seq<Chunk>): seq<(Key, Chunk)> {
    if hashes == [] || pieces == [] then []
    else [(cfg.MakeKey(hashes[0]), pieces[0])] + Zip(cfg, hashes[1..], pieces[1..])
  }

  /** Hashes cut from the tokens and pieces cut from the KV pair up chunk by chunk. */
  lemma {:induction false} ZipIsEntries(cfg: Config, tokens: seq<Token>, kv: Chunk, base: nat, at: nat)
    requires base <= at < |tokens| && |kv| == |tokens| - base
    ensures Zip(cfg, cfg.chunker.HashesFrom(tokens, at), Split(kv[at - base..], cfg.chunker.size))
            == EntriesFrom(cfg, tokens, kv, base, at)
    decreases |tokens| - at
  {
    var e := cfg.chunker.ChunkEnd(at, |tokens|);
    var hashes, pieces := cfg.chunker.HashesFrom(tokens, at), Split(kv[at - base..], cfg.chunker.size);
    assert pieces[0] == kv[at - base..e - base];
    if e < |tokens| {
      ZipIsEntries(cfg, tokens, kv, base, e);
      assert kv[at - base..][e - at..] == kv[e - base..];
      assert pieces[1..] == Split(kv[e - base..], cfg.chunker.size);
    }
    assert hashes[1..] == cfg.chunker.HashesFrom(tokens, e);
  }

  /** The same for pieces cut at the KV of a later chunk. */
  lemma ZipSlices(cfg: Config, tokens: seq<Token>, kv: Chunk, base: nat, at: nat, hashes: seq<Hash>, offset: nat)
    requires base <= at < |tokens| && |kv| == |tokens| - base
    requires hashes == cfg.chunker.HashesFrom(tokens, at) && offset == at - base
    ensures Zip(cfg, hashes, SliceKvAt(kv, offset, cfg.chunker.size)) == EntriesFrom(cfg, tokens, kv, base, at)
  {
    ZipIsEntries(cfg, tokens, kv, base, at);
  }

  datatype StoreRequest = StoreRequest(
    tokens: seq<Token>,
    kv: Chunk,
    mask: Option<seq<bool>>,
    skipExisting: bool,
    blocking: bool)
  {
    function Skip(): nat {
      Skipped(mask)
    }

    /** The checks of `store`, in its order. */
    function Rejected(cfg: Config): Option<Error> {
      if !cfg.ValidFormat() then Some(InvalidFormat)
      else if mask.Some? && |mask.value| != |tokens| then Some(MaskLengthMismatch)
      else if !Aligned(Skip(), cfg.chunker.size) then Some(MaskNotAligned)
      else if |tokens| != |kv| + Skip() then Some(TokenCountMismatch)
      else if !skipExisting && Skip() != 0 then Some(SkipNeedsExistenceCheck)
      else None
    }

    /** The entries an accepted request puts: everything from the first missing chunk
        on, or from the start when existing chunks are not skipped. */
    function Entries(cfg: Config, dict: map<Key, Chunk>): seq<(Key, Chunk)>
      requires Rejected(cfg) == None
    {
      var at := if skipExisting then Hits(cfg, dict, tokens, Skip()) else 0;
      EntriesFrom(cfg, tokens, kv, Skip(), at)
    }
  }

  /** The backend after a store request by `client`. */
  function AfterStore(cfg: Config, b: Backend, client: Option<int>, req: StoreRequest,
                      outcomes: nat -> PutOutcome): Backend
  {
    if req.Rejected(cfg).Some? || !Identified(client) then b
    else
      var entries := req.Entries(cfg, b.dict);
      if req.blocking then b.(dict := PutAll(b.dict, entries, outcomes, 0))
      else b.(queue := b.queue + Reverse(entries))
  }

  // ---------- retrieving ----------

  /** What goes on in the background between two gets: the put worker takes some of the
      queued entries, and chunks are evicted. */
  datatype Change = Change(outcomes: seq<PutOutcome>, evicted: set<Key>)

  function WorkerPuts(b: Backend, outcomes: seq<PutOutcome>): Backend
    decreases |outcomes|
  {
    if outcomes == [] || b.queue == [] then b
    else WorkerPuts(Backend(PutEntry(b.dict, b.queue[0], outcomes[0]), b.queue[1..]), outcomes[1..])
  }

  function Disturb(b: Backend, change: Change): Backend {
    var b' := WorkerPuts(b, change.outcomes);
    b'.(dict := b'.dict - change.evicted)
  }

  /** The background stands still. */
  function Quiet(): nat -> Change {
    _ => Change([], {})
  }

  /** What `batched_get` yields from position `at` until the first missing chunk, when
      `env(i)` happens just before the i-th get. A get by an unidentified client finds
      nothing. */
  function Gather(cfg: Config, b: Backend, identified: bool, env: nat -> Change, i: nat,
                  tokens: seq<Token>, at: nat): seq<(Key, Chunk)>
    requires at <= |tokens|
    decreases |tokens| - at
  {
    if at == |tokens| then []
    else
      var now := Disturb(b, env(i));
      var e := cfg.chunker.ChunkEnd(at, |tokens|);
      var k := cfg.KeyOf(tokens[..e]);
      if k in now.dict && identified
      then [(k, now.dict[k])] + Gather(cfg, now, identified, env, i + 1, tokens, e)
      else []
  }

  /** The position the gathered chunks reach. */
  function Reach(cfg: Config, b: Backend, identified: bool, env: nat -> Change, i: nat,
                 tokens: seq<Token>, at: nat): (r: nat)
    requires at <= |tokens|
    ensures at <= r <= |tokens|
    decreases |tokens| - at
  {
    if at == |tokens| then at
    else
      var now := Disturb(b, env(i));
      var e := cfg.chunker.ChunkEnd(at, |tokens|);
      if cfg.KeyOf(tokens[..e]) in now.dict && identified
      then Reach(cfg, now, identified, env, i + 1, tokens, e)
      else at
  }

  /** The backend once the gets have stopped. */
  function Remaining(cfg: Config, b: Backend, identified: bool, env: nat -> Change, i: nat,
                     tokens: seq<Token>, at: nat): Backend
    requires at <= |tokens|
    decreases |tokens| - at
  {
    if at == |tokens| then b
    else
      var now := Disturb(b, env(i));
      var e := cfg.chunker.ChunkEnd(at, |tokens|);
      if cfg.KeyOf(tokens[..e]) in now.dict && identified
      then Remaining(cfg, now, identified, env, i + 1, tokens, e)
      else now
  }

  /** One get: the chunk at `at` is returned and the next one tried, or the gets stop. */
  lemma GatherStep(cfg: Config, b: Backend, identified: bool, env: nat -> Change, i: nat,
                   tokens: seq<Token>, at: nat)
    requires at < |tokens|
    ensures var now := Disturb(b, env(i));
            var e := cfg.chunker.ChunkEnd(at, |tokens|);
            var k := cfg.KeyOf(tokens[..e]);
            if k in now.dict && identified then
              && Gather(cfg, b, identified, env, i, tokens, at)
                 == [(k, now.dict[k])] + Gather(cfg, now, identified, env, i + 1, tokens, e)
              && Remaining(cfg, b, identified, env, i, tokens, at)
                 == Remaining(cfg, now, identified, env, i + 1, tokens, e)
              && Reach(cfg, b, identified, env, i, tokens, at)
                 == Reach(cfg, now, identified, env, i + 1, tokens, e)
            else
              && Gather(cfg, b, identified, env, i, tokens, at) == []
              && Remaining(cfg, b, identified, env, i, tokens, at) == now
              && Reach(cfg, b, identified, env, i, tokens, at) == at
  {}

  function Concat(chunks: seq<(Key, Chunk)>): Chunk {
    if chunks == [] then [] else chunks[0].1 + Concat(chunks[1..])
  }

  function KeysOf(chunks: seq<(Key, Chunk)>): (keys: seq<Key>)
    ensures |keys| == |chunks|
  {
    seq(|chunks|, i requires 0 <= i < |chunks| => chunks[i].0)
  }

  /** The token count charged per retrieved chunk: every chunk counts as full, except for
      what the mask cuts off the first one. */
  function AttributedTokens(size: pos, extra: nat, chunks: nat): (toks: seq<int>)
    ensures |toks| == chunks
  {
    seq(chunks, i => if i == 0 then size - extra else size as int)
  }

  /** True exactly on the positions [lo, hi). */
  function RangeMask(n: nat, lo: nat, hi: nat): (mask: seq<bool>)
    ensures |mask| == n && forall j :: 0 <= j < n ==> (mask[j] <==> lo <= j < hi)
  {
    seq(n, j => lo <= j < hi)
  }

  datatype Retrieved = Retrieved(
    kv: Chunk,
    mask: seq<bool>,
    keys: seq<Key>,
    attributed: seq<int>)

  /** The result of a retrieve, from the chunks gathered past the skipped tokens. */
  function Assemble(size: pos, n: nat, skip: nat, chunks: seq<(Key, Chunk)>): Retrieved {
    if chunks == [] then Retrieved([], RangeMask(n, skip, skip), [], [])
    else
      var extra := skip - Floor(skip, size);
      var kv := SliceKvAt(chunks[0].1, extra, size)[0] + Concat(chunks[1..]);
      Retrieved(kv, RangeMask(n, skip, skip + |kv|), KeysOf(chunks),
                AttributedTokens(size, extra, |chunks|))
  }

  /** The chunks past the first `skip` tokens; none if whole chunks beyond the end are skipped. */
  function Gathered(cfg: Config, b: Backend, identified: bool, env: nat -> Change,
                    tokens: seq<Token>, skip: nat): seq<(Key, Chunk)>
  {
    var start := Floor(skip, cfg.chunker.size);
    if start <= |tokens| then Gather(cfg, b, identified, env, 0, tokens, start) else []
  }

  /** Where they end. */
  function Reached(cfg: Config, b: Backend, identified: bool, env: nat -> Change,
                   tokens: seq<Token>, skip: nat): nat
  {
    var start := Floor(skip, cfg.chunker.size);
    if start <= |tokens| then Reach(cfg, b, identified, env, 0, tokens, start) else |tokens|
  }

  /** The backend after a retrieve. */
  function AfterRetrieve(cfg: Config, b: Backend, identified: bool, env: nat -> Change,
                         tokens: seq<Token>, skip: nat): Backend
  {
    var start := Floor(skip, cfg.chunker.size);
    if start <= |tokens| then Remaining(cfg, b, identified, env, 0, tokens, start) else b
  }

  /** The whole of `retrieve`, as a function of the backend it runs on. */
  function RetrieveFrom(cfg: Config, b: Backend, identified: bool, env: nat -> Change,
                        tokens: seq<Token>, mask: Option<seq<bool>>): Retrieved
  {
    var skip := Skipped(mask);
    Assemble(cfg.chunker.size, |tokens|, skip, Gathered(cfg, b, identified, env, tokens, skip))
  }
}
