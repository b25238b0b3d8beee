/** The cache agrees with the model it speeds up: whatever was stored, queued, evicted or
    retrieved before, a retrieve returns exactly the KV a recomputation would. */
module CacheCoherence {
  import opened Wrappers
  import opened Chunking
  import opened EngineModel

  datatype State = State(backend: Backend, client: Option<int>)

  /** Everything that can happen to an engine. The put worker and the evictor act on
      their own; requests come from clients. */
  datatype Event =
    | Enter(client: Option<int>)
    | StoreCall(req: StoreRequest, outcomes: nat -> PutOutcome)
    | RetrieveCall(tokens: seq<Token>, mask: Option<seq<bool>>, env: nat -> Change)
    | Background(change: Change)

  function Next(cfg: Config, st: State, ev: Event): State {
    match ev
    case Enter(client) => st.(client := client)
    case StoreCall(req, outcomes) => st.(backend := AfterStore(cfg, st.backend, st.client, req, outcomes))
    case RetrieveCall(tokens, mask, env) =>
      st.(backend := AfterRetrieve(cfg, st.backend, Identified(st.client), env, tokens, Skipped(mask)))
    case Background(change) => st.(backend := Disturb(st.backend, change))
  }

  function Run(cfg: Config, st: State, events: seq<Event>): State
    decreases |events|
  {
    if events == [] then st else Run(cfg, Next(cfg, st, events[0]), events[1..])
  }

  /** An accepted store hands over the KV the model computes for its tokens. */
  ghost predicate Causal(cfg: Config, step: Step, ev: Event) {
    ev.StoreCall? && ev.req.Rejected(cfg) == None ==>
      ev.req.kv == FullKV(step, ev.req.tokens)[ev.req.Skip()..]
  }

  /** An entry holds the KV of every prefix it could be the key of. */
  ghost predicate CoherentEntry(cfg: Config, step: Step, k: Key, c: Chunk) {
    forall p: seq<Token> :: p != [] && cfg.KeyOf(p) == k ==> c == LastChunkKV(step, cfg.chunker.size, p)
  }

  ghost predicate CoherentDict(cfg: Config, step: Step, dict: map<Key, Chunk>) {
    forall k :: k in dict ==> CoherentEntry(cfg, step, k, dict[k])
  }

  ghost predicate CoherentEntries(cfg: Config, step: Step, entries: seq<(Key, Chunk)>) {
    forall i :: 0 <= i < |entries| ==> CoherentEntry(cfg, step, entries[i].0, entries[i].1)
  }

  ghost predicate Coherent(cfg: Config, step: Step, b: Backend) {
    CoherentDict(cfg, step, b.dict) && CoherentEntries(cfg, step, b.queue)
  }

  // ---------- every step keeps coherence ----------

  lemma KeyOfInjective(cfg: Config, p: seq<Token>, q: seq<Token>)
    requires CollisionFree(cfg.chunker.hash) && cfg.KeyOf(p) == cfg.KeyOf(q)
    ensures p == q
  {
    cfg.chunker.ChainHashInjective(p, q);
  }

  lemma {:induction false} HitsAligned(cfg: Config, dict: map<Key, Chunk>, tokens: seq<Token>, at: nat)
    requires at <= |tokens| && (at == |tokens| || Aligned(at, cfg.chunker.size))
    ensures var r := Hits(cfg, dict, tokens, at); r == |tokens| || Aligned(r, cfg.chunker.size)
    decreases |tokens| - at
  {
    if at < |tokens| {
      var e := cfg.chunker.ChunkEnd(at, |tokens|);
      cfg.chunker.ChunkEndAligned(at, |tokens|);
      HitsAligned(cfg, dict, tokens, e);
    }
  }

  lemma ChunkCoherent(cfg: Config, step: Step, tokens: seq<Token>, at: nat, c: Chunk)
    requires CollisionFree(cfg.chunker.hash) && at < |tokens| && Aligned(at, cfg.chunker.size)
    requires c == FullKV(step, tokens)[at..cfg.chunker.ChunkEnd(at, |tokens|)]
    ensures CoherentEntry(cfg, step, cfg.KeyOf(tokens[..cfg.chunker.ChunkEnd(at, |tokens|)]), c)
  {
    var e := cfg.chunker.ChunkEnd(at, |tokens|);
    cfg.chunker.LastChunkIsSlice(step, tokens, at);
    forall p: seq<Token> | p != [] && cfg.KeyOf(p) == cfg.KeyOf(tokens[..e])
      ensures c == LastChunkKV(step, cfg.chunker.size, p)
    {
      KeyOfInjective(cfg, p, tokens[..e]);
    }
  }

  lemma SliceOfSuffix<T>(s: seq<T>, t: seq<T>, base: nat, at: nat, e: nat)
    requires base <= at <= e <= |s| && t == s[base..]
    ensures t[at - base..e - base] == s[at..e]
  {
  }

  lemma CoherentCons(cfg: Config, step: Step, entry: (Key, Chunk), rest: seq<(Key, Chunk)>)
    requires CoherentEntry(cfg, step, entry.0, entry.1) && CoherentEntries(cfg, step, rest)
    ensures CoherentEntries(cfg, step, [entry] + rest)
  {
  }

  /** The chunk of `tokens` that starts at `at`, cut from the KV of what follows `base`. */
  ghost predicate CoherentAt(cfg: Config, step: Step, tokens: seq<Token>, kv: Chunk, base: nat, at: nat)
    requires base <= at < |tokens| && |kv| == |tokens| - base
  {
    var e := cfg.chunker.ChunkEnd(at, |tokens|);
    CoherentEntry(cfg, step, cfg.KeyOf(tokens[..e]), kv[at - base..e - base])
  }

  ghost predicate ChunksCoherent(cfg: Config, step: Step, tokens: seq<Token>, kv: Chunk, base: nat) {
    && |kv| == |tokens| - base
    && forall at: nat {:trigger CoherentAt(cfg, step, tokens, kv, base, at)} ::
         base <= at < |tokens| && Aligned(at, cfg.chunker.size) ==> CoherentAt(cfg, step, tokens, kv, base, at)
  }

  lemma CausalChunkCoherent(cfg: Config, step: Step, tokens: seq<Token>, kv: Chunk, base: nat, at: nat)
    requires CollisionFree(cfg.chunker.hash) && base <= at < |tokens| && Aligned(at, cfg.chunker.size)
    requires kv == FullKV(step, tokens)[base..]
    ensures CoherentAt(cfg, step, tokens, kv, base, at)
  {
    var e := cfg.chunker.ChunkEnd(at, |tokens|);
    SliceOfSuffix(FullKV(step, tokens), kv, base, at, e);
    ChunkCoherent(cfg, step, tokens, at, kv[at - base..e - base]);
  }

  lemma CausalChunksCoherent(cfg: Config, step: Step, tokens: seq<Token>, kv: Chunk, base: nat)
    requires CollisionFree(cfg.chunker.hash) && base <= |tokens| && kv == FullKV(step, tokens)[base..]
    ensures ChunksCoherent(cfg, step, tokens, kv, base)
  {
    forall at: nat | base <= at < |tokens| && Aligned(at, cfg.chunker.size)
      ensures CoherentAt(cfg, step, tokens, kv, base, at)
    {
      CausalChunkCoherent(cfg, step, tokens, kv, base, at);
    }
  }

  lemma {:induction false} EntriesFromCoherent(cfg: Config, step: Step, tokens: seq<Token>, kv: Chunk,
                                               base: nat, at: nat)
    requires base <= at <= |tokens| && (at == |tokens| || Aligned(at, cfg.chunker.size))
    requires ChunksCoherent(cfg, step, tokens, kv, base)
    ensures CoherentEntries(cfg, step, EntriesFrom(cfg, tokens, kv, base, at))
    decreases |tokens| - at
  {
    if at < |tokens| {
      var e := cfg.chunker.ChunkEnd(at, |tokens|);
      cfg.chunker.ChunkEndAligned(at, |tokens|);
      assert CoherentAt(cfg, step, tokens, kv, base, at);
      EntriesFromCoherent(cfg, step, tokens, kv, base, e);
      CoherentCons(cfg, step, (cfg.KeyOf(tokens[..e]), kv[at - base..e - base]),
                   EntriesFrom(cfg, tokens, kv, base, e));
    }
  }

  lemma PutEntryCoherent(cfg: Config, step: Step, dict: map<Key, Chunk>, entry: (Key, Chunk), outcome: PutOutcome)
    requires CoherentDict(cfg, step, dict) && CoherentEntry(cfg, step, entry.0, entry.1)
    ensures CoherentDict(cfg, step, PutEntry(dict, entry, outcome))
  {
    var dict' := PutEntry(dict, entry, outcome);
    forall k | k in dict'
      ensures CoherentEntry(cfg, step, k, dict'[k])
    {
      assert k != entry.0 ==> k in dict && dict'[k] == dict[k];
    }
  }

  lemma {:induction false} PutAllCoherent(cfg: Config, step: Step, dict: map<Key, Chunk>,
                                          entries: seq<(Key, Chunk)>, outcomes: nat -> PutOutcome, j: nat)
    requires CoherentDict(cfg, step, dict) && CoherentEntries(cfg, step, entries)
    ensures CoherentDict(cfg, step, PutAll(dict, entries, outcomes, j))
    decreases |entries|
  {
    if entries != [] {
      var n := |entries| - 1;
      PutEntryCoherent(cfg, step, dict, entries[n], outcomes(j));
      PutAllCoherent(cfg, step, PutEntry(dict, entries[n], outcomes(j)), entries[..n], outcomes, j + 1);
    }
  }

  lemma {:induction false} ReverseCoherent(cfg: Config, step: Step, entries: seq<(Key, Chunk)>)
    requires CoherentEntries(cfg, step, entries)
    ensures CoherentEntries(cfg, step, Reverse(entries))
  {
    if entries != [] {
      ReverseCoherent(cfg, step, entries[..|entries| - 1]);
    }
  }

  lemma {:induction false} WorkerPutsCoherent(cfg: Config, step: Step, b: Backend, outcomes: seq<PutOutcome>)
    requires Coherent(cfg, step, b)
    ensures Coherent(cfg, step, WorkerPuts(b, outcomes))
    decreases |outcomes|
  {
    if outcomes != [] && b.queue != [] {
      PutEntryCoherent(cfg, step, b.dict, b.queue[0], outcomes[0]);
      WorkerPutsCoherent(cfg, step, Backend(PutEntry(b.dict, b.queue[0], outcomes[0]), b.queue[1..]), outcomes[1..]);
    }
  }

  lemma DisturbCoherent(cfg: Config, step: Step, b: Backend, change: Change)
    requires Coherent(cfg, step, b)
    ensures Coherent(cfg, step, Disturb(b, change))
  {
    WorkerPutsCoherent(cfg, step, b, change.outcomes);
  }

  lemma {:induction false} RemainingCoherent(cfg: Config, step: Step, b: Backend, identified: bool,
                                             env: nat -> Change, i: nat, tokens: seq<Token>, at: nat)
    requires at <= |tokens| && Coherent(cfg, step, b)
    ensures Coherent(cfg, step, Remaining(cfg, b, identified, env, i, tokens, at))
    decreases |tokens| - at
  {
    if at < |tokens| {
      var now := Disturb(b, env(i));
      DisturbCoherent(cfg, step, b, env(i));
      GatherStep(cfg, b, identified, env, i, tokens, at);
      RemainingCoherent(cfg, step, now, identified, env, i + 1, tokens, cfg.chunker.ChunkEnd(at, |tokens|));
    }
  }

  lemma AfterRetrieveCoherent(cfg: Config, step: Step, b: Backend, identified: bool, env: nat -> Change,
                              tokens: seq<Token>, skip: nat)
    requires Coherent(cfg, step, b)
    ensures Coherent(cfg, step, AfterRetrieve(cfg, b, identified, env, tokens, skip))
  {
    var start := Floor(skip, cfg.chunker.size);
    if start <= |tokens| {
      RemainingCoherent(cfg, step, b, identified, env, 0, tokens, start);
    }
  }

  lemma AfterStoreCoherent(cfg: Config, step: Step, b: Backend, client: Option<int>, req: StoreRequest,
                           outcomes: nat -> PutOutcome)
    requires CollisionFree(cfg.chunker.hash) && Coherent(cfg, step, b)
    requires req.Rejected(cfg) == None ==> req.kv == FullKV(step, req.tokens)[req.Skip()..]
    ensures Coherent(cfg, step, AfterStore(cfg, b, client, req, outcomes))
  {
    if req.Rejected(cfg) == None {
      CausalChunksCoherent(cfg, step, req.tokens, req.kv, req.Skip());
      if req.skipExisting {
        HitsAligned(cfg, b.dict, req.tokens, req.Skip());
        EntriesFromCoherent(cfg, step, req.tokens, req.kv, req.Skip(), Hits(cfg, b.dict, req.tokens, req.Skip()));
      } else {
        EntriesFromCoherent(cfg, step, req.tokens, req.kv, 0, 0);
      }
      var entries := req.Entries(cfg, b.dict);
      PutAllCoherent(cfg, step, b.dict, entries, outcomes, 0);
      ReverseCoherent(cfg, step, entries);
    }
  }

  lemma NextCoherent(cfg: Config, step: Step, st: State, ev: Event)
    requires CollisionFree(cfg.chunker.hash)
    requires Coherent(cfg, step, st.backend) && Causal(cfg, step, ev)
    ensures Coherent(cfg, step, Next(cfg, st, ev).backend)
  {
    match ev {
      case StoreCall(req, outcomes) => AfterStoreCoherent(cfg, step, st.backend, st.client, req, outcomes);
      case RetrieveCall(tokens, mask, env) =>
        AfterRetrieveCoherent(cfg, step, st.backend, Identified(st.client), env, tokens, Skipped(mask));
      case Background(change) => DisturbCoherent(cfg, step, st.backend, change);
      case Enter(client) =>
    }
  }

  /** Coherence holds in every run that starts coherent, in particular from empty. */
  lemma {:induction false} RunCoherent(cfg: Config, step: Step, st: State, events: seq<Event>)
    requires CollisionFree(cfg.chunker.hash)
    requires Coherent(cfg, step, st.backend)
    requires forall i :: 0 <= i < |events| ==> Causal(cfg, step, events[i])
    ensures Coherent(cfg, step, Run(cfg, st, events).backend)
    decreases |events|
  {
    if events != [] {
      NextCoherent(cfg, step, st, events[0]);
      RunCoherent(cfg, step, Next(cfg, st, events[0]), events[1..]);
    }
  }

  // ---------- a coherent cache returns the recomputed KV ----------

  lemma JoinSlices<T>(s: seq<T>, a: nat, b: nat, c: nat)
    requires a <= b <= c <= |s|
    ensures s[a..b] + s[b..c] == s[a..c]
  {
  }

  lemma StoredChunkIsSlice(cfg: Config, step: Step, dict: map<Key, Chunk>, tokens: seq<Token>, at: nat)
    requires CoherentDict(cfg, step, dict) && at < |tokens| && Aligned(at, cfg.chunker.size)
    requires cfg.KeyOf(tokens[..cfg.chunker.ChunkEnd(at, |tokens|)]) in dict
    ensures var e := cfg.chunker.ChunkEnd(at, |tokens|);
            dict[cfg.KeyOf(tokens[..e])] == FullKV(step, tokens)[at..e]
  {
    var e := cfg.chunker.ChunkEnd(at, |tokens|);
    assert CoherentEntry(cfg, step, cfg.KeyOf(tokens[..e]), dict[cfg.KeyOf(tokens[..e])]);
    cfg.chunker.LastChunkIsSlice(step, tokens, at);
  }

  lemma {:induction false} GatherIsFullKV(cfg: Config, step: Step, b: Backend, identified: bool,
                                          env: nat -> Change, i: nat, tokens: seq<Token>, at: nat)
    requires Coherent(cfg, step, b)
    requires at <= |tokens| && (at == |tokens| || Aligned(at, cfg.chunker.size))
    ensures Concat(Gather(cfg, b, identified, env, i, tokens, at))
            == FullKV(step, tokens)[at..Reach(cfg, b, identified, env, i, tokens, at)]
    decreases |tokens| - at
  {
    if at < |tokens| {
      var now := Disturb(b, env(i));
      var e := cfg.chunker.ChunkEnd(at, |tokens|);
      GatherStep(cfg, b, identified, env, i, tokens, at);
      if cfg.KeyOf(tokens[..e]) in now.dict && identified {
        DisturbCoherent(cfg, step, b, env(i));
        StoredChunkIsSlice(cfg, step, now.dict, tokens, at);
        cfg.chunker.ChunkEndAligned(at, |tokens|);
        GatherIsFullKV(cfg, step, now, identified, env, i + 1, tokens, e);
        ConcatCons(now.dict[cfg.KeyOf(tokens[..e])], cfg.KeyOf(tokens[..e]),
                   Gather(cfg, now, identified, env, i + 1, tokens, e));
        JoinSlices(FullKV(step, tokens), at, e, Reach(cfg, now, identified, env, i + 1, tokens, e));
      }
    }
  }

  lemma ConcatCons(c: Chunk, k: Key, rest: seq<(Key, Chunk)>)
    ensures Concat([(k, c)] + rest) == c + Concat(rest)
  {
    assert ([(k, c)] + rest)[1..] == rest;
  }

  /** Chunks that tile `full` from `start` to `r`, the first one whole. */
  ghost predicate Tiles(full: Chunk, size: pos, start: nat, r: nat, chunks: seq<(Key, Chunk)>) {
    && start <= r <= |full|
    && Concat(chunks) == full[start..r]
    && if chunks == [] then r == start
       else start < r && FirstEnd(full, size, start) <= r
            && chunks[0].1 == full[start..FirstEnd(full, size, start)]
  }

  function FirstEnd(full: Chunk, size: pos, start: nat): (e: nat)
    requires start <= |full|
    ensures start <= e <= |full|
  {
    if start + size <= |full| then start + size else |full|
  }

  lemma GatherTiles(cfg: Config, step: Step, b: Backend, identified: bool,
                    env: nat -> Change, i: nat, tokens: seq<Token>, at: nat)
    requires Coherent(cfg, step, b)
    requires at <= |tokens| && (at == |tokens| || Aligned(at, cfg.chunker.size))
    ensures Tiles(FullKV(step, tokens), cfg.chunker.size, at,
                  Reach(cfg, b, identified, env, i, tokens, at),
                  Gather(cfg, b, identified, env, i, tokens, at))
  {
    GatherIsFullKV(cfg, step, b, identified, env, i, tokens, at);
    if at < |tokens| {
      GatherStep(cfg, b, identified, env, i, tokens, at);
      FirstChunk(cfg, step, Disturb(b, env(i)), tokens, at);
      DisturbCoherent(cfg, step, b, env(i));
    }
  }

  /** A stored chunk is the slice of the recomputed KV up to where its chunk ends. */
  lemma FirstChunk(cfg: Config, step: Step, b: Backend, tokens: seq<Token>, at: nat)
    requires at < |tokens| && Aligned(at, cfg.chunker.size)
    ensures var e := cfg.chunker.ChunkEnd(at, |tokens|);
            && e == FirstEnd(FullKV(step, tokens), cfg.chunker.size, at)
            && (Coherent(cfg, step, b) && cfg.KeyOf(tokens[..e]) in b.dict ==>
                  b.dict[cfg.KeyOf(tokens[..e])] == FullKV(step, tokens)[at..e])
  {
    if Coherent(cfg, step, b) && cfg.KeyOf(tokens[..cfg.chunker.ChunkEnd(at, |tokens|)]) in b.dict {
      StoredChunkIsSlice(cfg, step, b.dict, tokens, at);
    }
  }

  /** A result that is the part of `full` from `skip` to `end`. */
  ghost predicate IsRange(full: Chunk, skip: nat, end: nat, found: Retrieved) {
    skip <= end <= |full| && found.kv == full[skip..end] && found.mask == RangeMask(|full|, skip, end)
  }

  /** Cutting the skipped tokens off tiles of `full` leaves the rest of `full`. */
  lemma AssembleTiles(full: Chunk, size: pos, skip: nat, r: nat, chunks: seq<(Key, Chunk)>)
    requires skip <= |full| && Tiles(full, size, Floor(skip, size), r, chunks)
    ensures IsRange(full, skip, if r < skip then skip else r, Assemble(size, |full|, skip, chunks))
  {
    if chunks != [] {
      var start := Floor(skip, size);
      var e := FirstEnd(full, size, start);
      assert chunks[0].1[skip - start..] == full[skip..e];
      assert Concat(chunks) == full[start..e] + Concat(chunks[1..]);
      assert Concat(chunks[1..]) == Concat(chunks)[e - start..] == full[e..r];
      JoinSlices(full, skip, e, r);
    }
  }

  /** A mask that skips beyond the end leaves nothing, even if a last chunk was found. */
  lemma AssembleBeyond(full: Chunk, size: pos, skip: nat, r: nat, chunks: seq<(Key, Chunk)>)
    requires skip > |full|
    requires chunks == [] || (Floor(skip, size) <= |full| && Tiles(full, size, Floor(skip, size), r, chunks))
    ensures IsRange(full, |full|, |full|, Assemble(size, |full|, skip, chunks))
  {
    if chunks != [] {
      var start := Floor(skip, size);
      assert |Concat(chunks)| == |chunks[0].1| + |Concat(chunks[1..])|;
      assert r == |full| == FirstEnd(full, size, start);
      assert Concat(chunks[1..]) == [];
    }
    assert Assemble(size, |full|, skip, chunks).mask == RangeMask(|full|, |full|, |full|);
  }

  /** A result that is the recomputed KV of the tokens following the first `skip`, with a
      mask that is true exactly there. */
  ghost predicate Recomputed(step: Step, tokens: seq<Token>, skip: nat, found: Retrieved) {
    var from := Min(skip, |tokens|);
    IsRange(FullKV(step, tokens), from, from + |found.kv|, found)
  }

  function Min(x: nat, y: nat): nat {
    if x <= y then x else y
  }

  lemma RangeEnds(full: Chunk, skip: nat, end: nat, found: Retrieved)
    requires IsRange(full, skip, end, found)
    ensures end == skip + |found.kv| && IsSlice(full, skip, |found.kv|, found.kv)
  {}

  /** The `n` values of `full` from position `lo` on. */
  ghost predicate IsSlice(full: Chunk, lo: nat, n: nat, kv: Chunk) {
    |kv| == n && lo + n <= |full| && kv == full[lo..lo + n]
  }

  lemma RecomputedSlice(step: Step, tokens: seq<Token>, skip: nat, found: Retrieved)
    requires Recomputed(step, tokens, skip, found) && skip <= |tokens|
    ensures IsSlice(FullKV(step, tokens), skip, |found.kv|, found.kv)
  {
    RangeEnds(FullKV(step, tokens), skip, skip + |found.kv|, found);
  }

  /** The gathered chunks tile the recomputed KV from the last boundary before the skip. */
  lemma GatheredTiles(cfg: Config, step: Step, b: Backend, identified: bool, env: nat -> Change,
                      tokens: seq<Token>, skip: nat)
    requires Coherent(cfg, step, b)
    ensures var size, chunks := cfg.chunker.size, Gathered(cfg, b, identified, env, tokens, skip);
            if Floor(skip, size) <= |tokens|
            then Tiles(FullKV(step, tokens), size, Floor(skip, size), Reached(cfg, b, identified, env, tokens, skip),
                       chunks)
            else chunks == []
  {
    var start := Floor(skip, cfg.chunker.size);
    if start <= |tokens| {
      GatherTiles(cfg, step, b, identified, env, 0, tokens, start);
    }
  }

  /** The main result: a retrieve on a coherent cache returns the recomputed KV of
      [skip, skip + n), with a mask that is true exactly there, whatever is put and evicted
      while it runs and whether or not the skip falls on a chunk boundary; skip + n is where
      the stored chunks end. A mask that skips beyond the end leaves nothing. */
  lemma RetrieveIsRecomputation(cfg: Config, step: Step, b: Backend, identified: bool,
                                env: nat -> Change, tokens: seq<Token>, mask: Option<seq<bool>>)
    requires Coherent(cfg, step, b)
    ensures var skip := Skipped(mask);
            var found := RetrieveFrom(cfg, b, identified, env, tokens, mask);
            var r := Reached(cfg, b, identified, env, tokens, skip);
            && Recomputed(step, tokens, skip, found)
            && Min(skip, |tokens|) + |found.kv| == if r < skip then Min(skip, |tokens|) else r
  {
    var skip, full := Skipped(mask), FullKV(step, tokens);
    var r := Reached(cfg, b, identified, env, tokens, skip);
    var chunks := Gathered(cfg, b, identified, env, tokens, skip);
    GatheredTiles(cfg, step, b, identified, env, tokens, skip);
    AssembledEnds(cfg.chunker.size, full, skip, r, chunks);
  }

  lemma AssembledEnds(size: pos, full: Chunk, skip: nat, r: nat, chunks: seq<(Key, Chunk)>)
    requires if Floor(skip, size) <= |full| then Tiles(full, size, Floor(skip, size), r, chunks) else chunks == []
    requires r <= |full|
    ensures var found := Assemble(size, |full|, skip, chunks);
            var from := Min(skip, |full|);
            && IsRange(full, from, from + |found.kv|, found)
            && from + |found.kv| == if r < skip then from else r
  {
    var found := Assemble(size, |full|, skip, chunks);
    if skip <= |full| {
      AssembleTiles(full, size, skip, r, chunks);
      RangeEnds(full, skip, if r < skip then skip else r, found);
    } else {
      AssembleBeyond(full, size, skip, r, chunks);
      RangeEnds(full, |full|, |full|, found);
    }
  }

  /** What the engine's `retrieve` promises its caller on a coherent cache. */
  lemma RetrievePromise(cfg: Config, step: Step, b: Backend, identified: bool,
                        env: nat -> Change, tokens: seq<Token>, mask: Option<seq<bool>>, skip: nat)
    requires Coherent(cfg, step, b) && skip == Skipped(mask)
    ensures Coherent(cfg, step, AfterRetrieve(cfg, b, identified, env, tokens, skip))
    ensures Recomputed(step, tokens, skip, RetrieveFrom(cfg, b, identified, env, tokens, mask))
  {
    AfterRetrieveCoherent(cfg, step, b, identified, env, tokens, skip);
    RetrieveIsRecomputation(cfg, step, b, identified, env, tokens, mask);
  }

  /** The same over a whole run from an empty cache. */
  lemma RetrieveAfterAnyRun(cfg: Config, step: Step, events: seq<Event>, env: nat -> Change,
                            tokens: seq<Token>, mask: Option<seq<bool>>)
    requires CollisionFree(cfg.chunker.hash)
    requires forall i :: 0 <= i < |events| ==> Causal(cfg, step, events[i])
    ensures var st := Run(cfg, State(Backend(map[], []), None), events);
            Recomputed(step, tokens, Skipped(mask),
                       RetrieveFrom(cfg, st.backend, Identified(st.client), env, tokens, mask))
  {
    var init := State(Backend(map[], []), None);
    RunCoherent(cfg, step, init, events);
    var st := Run(cfg, init, events);
    RetrieveIsRecomputation(cfg, step, st.backend, Identified(st.client), env, tokens, mask);
  }
}
