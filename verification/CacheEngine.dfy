/** The cache engine's operations, each proved against `EngineModel`. */
module CacheEngine {
  import opened Wrappers
  import opened Chunking
  import opened EngineModel

  class LMCacheEngine {
    const cfg: Config

    // the storage backend
    var dict: map<Key, Chunk>
    var queue: seq<(Key, Chunk)>
    // the client on whose behalf the current request runs
    var client: Option<int>
    // statistics
    var hitTokens: int
    var missTokens: int

    constructor (cfg: Config)
      ensures this.cfg == cfg && dict == map[] && queue == [] && client == None
      ensures hitTokens == 0 && missTokens == 0
    {
      this.cfg := cfg;
      dict, queue, client := map[], [], None;
      hitTokens, missTokens := 0, 0;
    }

    function TheBackend(): Backend
      reads this
    {
      Backend(dict, queue)
    }

    method ChunkTokens(tokens: seq<Token>) returns (chunks: seq<seq<Token>>)
      ensures chunks == cfg.chunker.Chunks(tokens, 0)
    {
      chunks := [];
      var i := 0;
      while i < |tokens|
        invariant chunks + cfg.chunker.Chunks(tokens, if i <= |tokens| then i else |tokens|)
                  == cfg.chunker.Chunks(tokens, 0)
      {
        var j := if i + cfg.chunker.size <= |tokens| then i + cfg.chunker.size else |tokens|;
        chunks := chunks + [tokens[i..j]];
        i := i + cfg.chunker.size;
      }
    }

    /** The chained hashes of the chunks, without the first `numSkipChunk`. */
    method PrefixHash(chunks: seq<seq<Token>>, numSkipChunk: nat, ghost tokens: seq<Token>) returns (hashes: seq<Hash>)
      requires chunks == cfg.chunker.Chunks(tokens, 0)
      ensures hashes == cfg.chunker.HashesPast(tokens, numSkipChunk)
    {
      var prefixHash := "";
      var all := [];
      ghost var at: nat := 0;
      for j := 0 to |chunks|
        invariant at <= |tokens| && (at == |tokens| || Aligned(at, cfg.chunker.size))
        invariant chunks[j..] == cfg.chunker.Chunks(tokens, at)
        invariant prefixHash == cfg.chunker.ChainHash(tokens[..at])
        invariant all + cfg.chunker.HashesFrom(tokens, at) == cfg.chunker.HashesFrom(tokens, 0)
      {
        ghost var e := cfg.chunker.ChunkEnd(at, |tokens|);
        cfg.chunker.NextChunk(tokens, at);
        assert chunks[j] == chunks[j..][0] == tokens[at..e];
        assert chunks[j + 1..] == chunks[j..][1..];
        prefixHash := cfg.chunker.hash(chunks[j], prefixHash);
        AppendOne(all, prefixHash, cfg.chunker.HashesFrom(tokens, e));
        all := all + [prefixHash];
        at := e;
      }
      hashes := if numSkipChunk <= |all| then all[numSkipChunk..] else [];
    }

    static lemma AppendOne<T>(s: seq<T>, x: T, t: seq<T>)
      ensures s + ([x] + t) == s + [x] + t
    {}

    /** How many consecutive prefix tokens are stored. */
    method Lookup(tokens: seq<Token>) returns (r: nat)
      ensures r == Hits(cfg, dict, tokens, 0)
    {
      var chunks := ChunkTokens(tokens);
      var hashes := PrefixHash(chunks, 0, tokens);
      cfg.chunker.HashesPastChunks(tokens, 0, 0);
      r := 0;
      for j := 0 to |hashes|
        invariant Scanned(tokens, hashes[j..], 0, r)
      {
        ScanNext(tokens, hashes, j, 0, r);
        if cfg.MakeKey(hashes[j]) !in dict {
          return;
        }
        r := if r + cfg.chunker.size <= |tokens| then r + cfg.chunker.size else |tokens|;
      }
    }

    /** The scan of the loop below: the chunks from `from` on are stored up to `at`. */
    ghost predicate Scanned(tokens: seq<Token>, hashes: seq<Hash>, from: nat, at: nat)
      reads this
      requires from <= |tokens|
    {
      && from <= at <= |tokens| && (at == |tokens| || Aligned(at, cfg.chunker.size))
      && hashes == cfg.chunker.HashesFrom(tokens, at)
      && Hits(cfg, dict, tokens, from) == Hits(cfg, dict, tokens, at)
    }

    lemma ScanNext(tokens: seq<Token>, hashes: seq<Hash>, j: nat, from: nat, at: nat)
      requires from <= |tokens| && j < |hashes| && Scanned(tokens, hashes[j..], from, at)
      ensures at < |tokens|
      ensures if cfg.MakeKey(hashes[j]) in dict
              then Scanned(tokens, hashes[j + 1..], from, cfg.chunker.ChunkEnd(at, |tokens|))
              else Hits(cfg, dict, tokens, at) == at
    {
      assert hashes[j..][0] == hashes[j] && hashes[j..][1..] == hashes[j + 1..];
      cfg.chunker.HashesStep(tokens, at);
      cfg.chunker.ChunkEndAligned(at, |tokens|);
    }

    /** The chunks to put: skip what is stored already, take everything after. */
    method MakeChunksSkipExisting(tokens: seq<Token>, kv: Chunk, numSkipChunk: nat, ghost start: nat)
      returns (entries: seq<(Key, Chunk)>)
      requires start == numSkipChunk * cfg.chunker.size && |tokens| == |kv| + start
      requires Aligned(start, cfg.chunker.size)
      ensures entries == EntriesFrom(cfg, tokens, kv, start, Hits(cfg, dict, tokens, start))
    {
      var chunks := ChunkTokens(tokens);
      var hashes := PrefixHash(chunks, numSkipChunk, tokens);
      cfg.chunker.HashesPastChunks(tokens, numSkipChunk, start);
      var startChunk, startToken := FirstMissing(hashes, |kv|, tokens, start);
      MissingEntries(tokens, kv, start, hashes, startChunk, startToken);
      if startToken == None {
        return [];
      }
      var pieces := SliceKvAt(kv, startToken.value, cfg.chunker.size);
      entries := Zip(cfg, hashes[startChunk..], pieces);
    }

    /** The scan found the first chunk past `start` that is not stored, if there is one. */
    ghost predicate Missing(tokens: seq<Token>, start: nat, hashes: seq<Hash>, startChunk: nat, startToken: Option<nat>)
      reads this
      requires start <= |tokens|
    {
      var at := Hits(cfg, dict, tokens, start);
      if at == |tokens| then startToken == None
      else startToken == Some(at - start) && startChunk <= |hashes|
           && hashes[startChunk..] == cfg.chunker.HashesFrom(tokens, at)
    }

    lemma MissingEntries(tokens: seq<Token>, kv: Chunk, start: nat, hashes: seq<Hash>, startChunk: nat,
                         startToken: Option<nat>)
      requires |tokens| == |kv| + start && Missing(tokens, start, hashes, startChunk, startToken)
      ensures EntriesFrom(cfg, tokens, kv, start, Hits(cfg, dict, tokens, start)) ==
              if startToken == None then []
              else Zip(cfg, hashes[startChunk..], SliceKvAt(kv, startToken.value, cfg.chunker.size))
    {
      var at := Hits(cfg, dict, tokens, start);
      if at < |tokens| {
        ZipSlices(cfg, tokens, kv, start, at, hashes[startChunk..], startToken.value);
      }
    }

    /** The state of the scan: the chunks before position `at` are stored, and the one at `at`
        is not once the scan has stopped. */
    ghost predicate Scanning(tokens: seq<Token>, start: nat, hashes: seq<Hash>, startChunk: nat, idx: nat,
                             startToken: Option<nat>, at: nat)
      reads this
    {
      && start <= at <= |tokens| && startChunk <= |hashes| && Scanned(tokens, hashes[startChunk..], start, at)
      && (if at == |tokens| then idx >= |tokens| - start else idx == at - start)
      && (startToken.Some? ==> startToken.value == at - start && at < |tokens| && Hits(cfg, dict, tokens, at) == at)
    }

    lemma ScanningNext(tokens: seq<Token>, start: nat, hashes: seq<Hash>, startChunk: nat, idx: nat, at: nat)
      requires Scanning(tokens, start, hashes, startChunk, idx, None, at)
      requires startChunk < |hashes| && idx < |tokens| - start
      ensures at < |tokens|
      ensures if cfg.MakeKey(hashes[startChunk]) !in dict
              then Scanning(tokens, start, hashes, startChunk, idx, Some(idx), at)
              else Scanning(tokens, start, hashes, startChunk + 1, idx + cfg.chunker.size, None,
                            cfg.chunker.ChunkEnd(at, |tokens|))
    {
      ScanNext(tokens, hashes, startChunk, start, at);
    }

    lemma ScanningEnd(tokens: seq<Token>, start: nat, hashes: seq<Hash>, startChunk: nat, idx: nat,
                      startToken: Option<nat>, at: nat)
      requires Scanning(tokens, start, hashes, startChunk, idx, startToken, at)
      requires startToken.Some? || startChunk == |hashes| || idx >= |tokens| - start
      ensures Missing(tokens, start, hashes, startChunk, startToken)
    {
      if startToken == None && startChunk == |hashes| && at < |tokens| {
        cfg.chunker.HashesStep(tokens, at);
        assert false;
      }
    }

    /** The loop of the scan: the first chunk that is not stored, and where its KV starts. */
    method FirstMissing(hashes: seq<Hash>, kvLen: nat, ghost tokens: seq<Token>, ghost start: nat)
      returns (startChunk: nat, startToken: Option<nat>)
      requires |tokens| == kvLen + start && Aligned(start, cfg.chunker.size)
      requires hashes == cfg.chunker.HashesFrom(tokens, start)
      ensures Missing(tokens, start, hashes, startChunk, startToken)
    {
      startToken := None;
      startChunk := 0;
      var idx: nat := 0;
      ghost var at: nat := start;
      assert hashes[0..] == hashes;
      while startChunk < |hashes| && idx < kvLen && startToken == None
        invariant Scanning(tokens, start, hashes, startChunk, idx, startToken, at)
        decreases startToken == None, |hashes| - startChunk
      {
        ScanningNext(tokens, start, hashes, startChunk, idx, at);
        if cfg.MakeKey(hashes[startChunk]) !in dict {
          startToken := Some(idx);
        } else {
          startChunk := startChunk + 1;
          idx := idx + cfg.chunker.size;
          at := cfg.chunker.ChunkEnd(at, |tokens|);
        }
      }
      ScanningEnd(tokens, start, hashes, startChunk, idx, startToken, at);
    }

    /** Every chunk, whether stored already or not. */
    method MakeAllChunks(tokens: seq<Token>, kv: Chunk) returns (entries: seq<(Key, Chunk)>)
      requires |kv| == |tokens|
      ensures entries == EntriesFrom(cfg, tokens, kv, 0, 0)
    {
      var chunks := ChunkTokens(tokens);
      var hashes := PrefixHash(chunks, 0, tokens);
      cfg.chunker.HashesPastChunks(tokens, 0, 0);
      if |hashes| == 0 {
        entries := [];
      } else {
        entries := Zip(cfg, hashes, SliceKvAt(kv, 0, cfg.chunker.size));
        ZipSlices(cfg, tokens, kv, 0, 0, hashes, 0);
      }
    }

    method MakeChunks(req: StoreRequest, numSkipChunk: nat) returns (r: Result<seq<(Key, Chunk)>, Error>)
      requires req.Skip() == numSkipChunk * cfg.chunker.size && Aligned(req.Skip(), cfg.chunker.size)
      requires cfg.ValidFormat() && (req.mask.Some? ==> |req.mask.value| == |req.tokens|)
      requires |req.tokens| == |req.kv| + req.Skip()
      ensures r == match req.Rejected(cfg)
                   case Some(error) => Err(error)
                   case None => Ok(req.Entries(cfg, dict))
    {
      if req.skipExisting {
        var entries := MakeChunksSkipExisting(req.tokens, req.kv, numSkipChunk, req.Skip());
        r := Ok(entries);
      } else if numSkipChunk != 0 {
        r := Err(SkipNeedsExistenceCheck);
      } else {
        var entries := MakeAllChunks(req.tokens, req.kv);
        r := Ok(entries);
      }
    }

    /** `batched_put`: the entries go to the backend last one first. */
    method BatchedPut(entries: seq<(Key, Chunk)>, blocking: bool, outcomes: nat -> PutOutcome)
      modifies this`dict, this`queue
      ensures !Identified(client) ==> TheBackend() == old(TheBackend())
      ensures Identified(client) && blocking ==>
                dict == PutAll(old(dict), entries, outcomes, 0) && queue == old(queue)
      ensures Identified(client) && !blocking ==>
                dict == old(dict) && queue == old(queue) + Reverse(entries)
    {
      var i := |entries|;
      assert entries[..i] == entries;
      var j: nat := 0;
      while i > 0
        invariant 0 <= i <= |entries|
        invariant !Identified(client) ==> TheBackend() == old(TheBackend())
        invariant Identified(client) && blocking ==>
                    PutAll(dict, entries[..i], outcomes, j) == PutAll(old(dict), entries, outcomes, 0)
                    && queue == old(queue)
        invariant Identified(client) && !blocking ==>
                    dict == old(dict) && queue + Reverse(entries[..i]) == old(queue) + Reverse(entries)
      {
        i := i - 1;
        assert entries[..i + 1][..i] == entries[..i];
        Put(entries[i], blocking, outcomes(j));
        j := j + 1;
      }
    }

    method Put(entry: (Key, Chunk), blocking: bool, outcome: PutOutcome)
      modifies this`dict, this`queue
      ensures TheBackend() ==
                if !Identified(client) then old(TheBackend())
                else if blocking then Backend(PutEntry(old(dict), entry, outcome), old(queue))
                else Backend(old(dict), old(queue) + [entry])
    {
      if !Identified(client) {
        return;
      }
      if blocking {
        dict := PutEntry(dict, entry, outcome);
      } else {
        queue := queue + [entry];
      }
    }

    /** One turn of the backend's put worker. */
    method PutWorkerStep(outcome: PutOutcome)
      requires queue != []
      modifies this`dict, this`queue
      ensures dict == PutEntry(old(dict), old(queue)[0], outcome)
      ensures queue == old(queue)[1..]
    {
      dict := PutEntry(dict, queue[0], outcome);
      queue := queue[1..];
    }

    method Store(req: StoreRequest, outcomes: nat -> PutOutcome) returns (r: Result<nat, Error>)
      modifies this`dict, this`queue
      ensures TheBackend() == AfterStore(cfg, old(TheBackend()), client, req, outcomes)
      ensures match req.Rejected(cfg)
              case Some(error) => r == Err(error)
              case None => r == Ok(|req.Entries(cfg, old(dict))|)
    {
      if !cfg.ValidFormat() {
        return Err(InvalidFormat);
      }
      if req.mask.Some? && |req.mask.value| != |req.tokens| {
        return Err(MaskLengthMismatch);
      }
      var numSkipTok := req.Skip();
      var numSkipChunk := numSkipTok / cfg.chunker.size;
      FloorIsDiv(numSkipTok, cfg.chunker.size);
      if numSkipTok != numSkipChunk * cfg.chunker.size {
        return Err(MaskNotAligned);
      }
      if |req.tokens| != |req.kv| + numSkipTok {
        return Err(TokenCountMismatch);
      }
      var made := MakeChunks(req, numSkipChunk);
      if made.Err? {
        return Err(made.error);
      }
      BatchedPut(made.value, req.blocking, outcomes);
      r := Ok(|made.value|);
    }

    /** What the put worker and the evictor do in the background. */
    method Background(change: Change)
      modifies this`dict, this`queue
      ensures TheBackend() == Disturb(old(TheBackend()), change)
    {
      var i := 0;
      assert change.outcomes[0..] == change.outcomes;
      while i < |change.outcomes| && queue != []
        invariant 0 <= i <= |change.outcomes|
        invariant WorkerPuts(TheBackend(), change.outcomes[i..]) == WorkerPuts(old(TheBackend()), change.outcomes)
      {
        assert change.outcomes[i..][0] == change.outcomes[i] && change.outcomes[i..][1..] == change.outcomes[i + 1..];
        PutWorkerStep(change.outcomes[i]);
        i := i + 1;
      }
      dict := dict - change.evicted;
    }

    /** `batched_get` until the first missing chunk, with changes in the background. */
    method GatherChunks(keys: seq<Key>, env: nat -> Change, ghost tokens: seq<Token>, ghost start: nat)
      returns (chunks: seq<(Key, Chunk)>)
      requires start <= |tokens| && |keys| == |cfg.chunker.HashesFrom(tokens, start)|
      requires forall i :: 0 <= i < |keys| ==> keys[i] == cfg.MakeKey(cfg.chunker.HashesFrom(tokens, start)[i])
      modifies this`dict, this`queue
      ensures chunks == Gather(cfg, old(TheBackend()), Identified(client), env, 0, tokens, start)
      ensures TheBackend() == Remaining(cfg, old(TheBackend()), Identified(client), env, 0, tokens, start)
    {
      chunks := [];
      ghost var hashes := cfg.chunker.HashesFrom(tokens, start);
      ghost var at: nat := start;
      ghost var before := TheBackend();
      for i: nat := 0 to |keys|
        invariant at <= |tokens| && hashes[i..] == cfg.chunker.HashesFrom(tokens, at)
        invariant chunks + Gather(cfg, TheBackend(), Identified(client), env, i, tokens, at)
                  == Gather(cfg, before, Identified(client), env, 0, tokens, start)
        invariant Remaining(cfg, TheBackend(), Identified(client), env, i, tokens, at)
                  == Remaining(cfg, before, Identified(client), env, 0, tokens, start)
      {
        assert at < |tokens|;
        ghost var e := cfg.chunker.ChunkEnd(at, |tokens|);
        cfg.chunker.HashesStep(tokens, at);
        assert hashes[i..][0] == hashes[i] && hashes[i..][1..] == hashes[i + 1..];
        GatherStep(cfg, TheBackend(), Identified(client), env, i, tokens, at);
        Background(env(i));
        if keys[i] !in dict || !Identified(client) {
          return;
        }
        AppendOne(chunks, (keys[i], dict[keys[i]]),
                  Gather(cfg, TheBackend(), Identified(client), env, i + 1, tokens, e));
        chunks := chunks + [(keys[i], dict[keys[i]])];
        at := e;
      }
    }

    /** The stored chunks past the `numSkipTok` masked-out tokens, and how many tokens of
        the first one are masked out as well. */
    method Fetch(tokens: seq<Token>, numSkipTok: nat, env: nat -> Change)
      returns (chunks: seq<(Key, Chunk)>, extra: nat)
      modifies this`dict, this`queue
      ensures extra == numSkipTok - Floor(numSkipTok, cfg.chunker.size)
      ensures chunks == Gathered(cfg, old(TheBackend()), Identified(client), env, tokens, numSkipTok)
      ensures TheBackend() == AfterRetrieve(cfg, old(TheBackend()), Identified(client), env, tokens, numSkipTok)
    {
      var numSkipChunk := numSkipTok / cfg.chunker.size;
      ghost var start := Floor(numSkipTok, cfg.chunker.size);
      var tokenChunks := ChunkTokens(tokens);
      var hashes := PrefixHash(tokenChunks, numSkipChunk, tokens);
      cfg.chunker.HashesPastSkip(tokens, numSkipTok, numSkipChunk);
      var keys := seq(|hashes|, i requires 0 <= i < |hashes| => cfg.MakeKey(hashes[i]));
      chunks := GatherChunks(keys, env, tokens, if start <= |tokens| then start else |tokens|);
      extra := numSkipTok - numSkipChunk * cfg.chunker.size;
    }

    /** Cuts the masked-out tokens off the first chunk and joins the rest to it. */
    method AssembleResult(n: nat, skip: nat, extra: nat, chunks: seq<(Key, Chunk)>) returns (r: Retrieved)
      requires extra == skip - Floor(skip, cfg.chunker.size)
      ensures r == Assemble(cfg.chunker.size, n, skip, chunks)
    {
      if |chunks| == 0 {
        return Retrieved([], RangeMask(n, skip, skip), [], []);
      }
      var kv := SliceKvAt(chunks[0].1, extra, cfg.chunker.size)[0] + Concat(chunks[1..]);
      var retMask := ResultMask(n, skip, |kv|);
      r := Retrieved(kv, retMask, KeysOf(chunks), AttributedTokens(cfg.chunker.size, extra, |chunks|));
    }

    /** Clears the result mask outside [skip, skip + count). */
    method ResultMask(n: nat, skip: nat, count: nat) returns (mask: seq<bool>)
      ensures mask == RangeMask(n, skip, skip + count)
    {
      var retMask := new bool[n](_ => true);
      forall j | 0 <= j < skip && j < n {
        retMask[j] := false;
      }
      forall j | skip + count <= j < n {
        retMask[j] := false;
      }
      mask := retMask[..];
    }

    /** The KV of the stored tokens that follow the masked-out ones. A retrieve that finds
        nothing counts every token as a miss, including the masked-out ones. */
    method Retrieve(tokens: seq<Token>, mask: Option<seq<bool>>, env: nat -> Change)
      returns (r: Result<Retrieved, Error>)
      modifies this`dict, this`queue, this`hitTokens, this`missTokens
      ensures TheBackend() == AfterRetrieve(cfg, old(TheBackend()), Identified(client), env, tokens, Skipped(mask))
      ensures !cfg.ValidFormat() ==>
                r == Err(InvalidFormat) && hitTokens == old(hitTokens) && missTokens == old(missTokens)
      ensures cfg.ValidFormat() ==>
                && r == Ok(RetrieveFrom(cfg, old(TheBackend()), Identified(client), env, tokens, mask))
                && hitTokens == old(hitTokens) + |r.value.kv|
                && missTokens == old(missTokens) + |tokens| - |r.value.kv|
                                 - (if r.value.keys == [] then 0 else Skipped(mask))
    {
      var numSkipTok := Skipped(mask);
      var chunks, extra := Fetch(tokens, numSkipTok, env);
      if !cfg.ValidFormat() {
        return Err(InvalidFormat);
      }
      var found := AssembleResult(|tokens|, numSkipTok, extra, chunks);
      if |chunks| == 0 {
        missTokens := missTokens + |tokens|;
      } else {
        hitTokens := hitTokens + |found.kv|;
        missTokens := missTokens + (|tokens| - numSkipTok - |found.kv|);
      }
      r := Ok(found);
    }
  }
}
