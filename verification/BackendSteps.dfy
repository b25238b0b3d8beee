/** What the steps of the storage backend do, entry by entry and error by error. */
module BackendSteps {
  import opened Wrappers
  import opened Chunking
  import opened EngineModel

  // ---------- puts ----------

  /** After a put, its key holds the new chunk exactly if the put kept it, and any other key
      what it held, unless it was evicted. */
  lemma PutKeepsOthers(dict: map<Key, Chunk>, entry: (Key, Chunk), outcome: PutOutcome, k: Key)
    ensures var after := PutEntry(dict, entry, outcome);
            if k == entry.0 then (k in after <==> outcome.Stored?) && (k in after ==> after[k] == entry.1)
            else (k in after <==> k in dict && k !in outcome.evicted) && (k in after ==> after[k] == dict[k])
  {
  }

  /** The put worker takes entries off the front of the queue, one for each put. */
  lemma {:induction false} WorkerTakesFront(b: Backend, outcomes: seq<PutOutcome>)
    ensures WorkerPuts(b, outcomes).queue
            == if |outcomes| <= |b.queue| then b.queue[|outcomes|..] else []
    decreases |outcomes|
  {
    if outcomes != [] && b.queue != [] {
      WorkerTakesFront(Backend(PutEntry(b.dict, b.queue[0], outcomes[0]), b.queue[1..]), outcomes[1..]);
    }
  }

  /** A blocking store leaves the dictionary that the worker leaves once it has been through the
      same entries in its queue, put for put, whatever the puts evict or drop. */
  lemma {:induction false} BlockingIsQueued(dict: map<Key, Chunk>, entries: seq<(Key, Chunk)>,
                                            outcomes: nat -> PutOutcome, j: nat)
    ensures WorkerPuts(Backend(dict, Reverse(entries)), seq(|entries|, i requires 0 <= i => outcomes(j + i)))
            == Backend(PutAll(dict, entries, outcomes, j), [])
    decreases |entries|
  {
    if entries != [] {
      var n := |entries| - 1;
      var all := seq(|entries|, i requires 0 <= i => outcomes(j + i));
      BlockingIsQueued(PutEntry(dict, entries[n], outcomes(j)), entries[..n], outcomes, j + 1);
      assert all[1..] == seq(n, i requires 0 <= i => outcomes(j + 1 + i));
      assert Reverse(entries)[1..] == Reverse(entries[..n]);
    }
  }

  /** What happens in the background: puts first, then evictions. */
  lemma ChangeEvicts(b: Backend, change: Change, k: Key)
    ensures var puts, after := WorkerPuts(b, change.outcomes), Disturb(b, change);
            && after.queue == puts.queue
            && (k in after.dict <==> k in puts.dict && k !in change.evicted)
            && (k in after.dict ==> after.dict[k] == puts.dict[k])
  {
  }

  // ---------- stores ----------

  /** When a store is accepted, and which check fails first when it is not. */
  lemma RejectedIff(cfg: Config, req: StoreRequest)
    ensures var fmt, skip := cfg.meta.fmt in {"vllm", "huggingface"}, |req.tokens| - |req.kv|;
            var long := req.mask.Some? && |req.mask.value| != |req.tokens|;
            match req.Rejected(cfg)
            case None =>
              && fmt && !long && req.Skip() % cfg.chunker.size == 0 && req.Skip() == skip
              && (req.skipExisting || skip == 0)
            case Some(InvalidFormat) => !fmt
            case Some(MaskLengthMismatch) => fmt && long
            case Some(MaskNotAligned) => fmt && !long && req.Skip() % cfg.chunker.size != 0
            case Some(TokenCountMismatch) =>
              fmt && !long && req.Skip() % cfg.chunker.size == 0 && req.Skip() != skip
            case Some(SkipNeedsExistenceCheck) =>
              fmt && !long && req.Skip() % cfg.chunker.size == 0 && req.Skip() == skip && !req.skipExisting && skip != 0
  {
    FloorIsDiv(req.Skip(), cfg.chunker.size);
  }

  function FalseIn(mask: seq<bool>): set<nat> {
    set i | 0 <= i < |mask| && !mask[i]
  }

  /** A mask skips as many tokens as it is false on, wherever these are. */
  lemma {:induction false} SkippedCounts(mask: seq<bool>)
    ensures Skipped(Some(mask)) == |FalseIn(mask)| && Skipped(None) == 0
  {
    if mask != [] {
      var n := |mask| - 1;
      SkippedCounts(mask[..n]);
      assert FalseIn(mask) == FalseIn(mask[..n]) + if mask[n] then {} else {n};
    }
  }

  // ---------- retrieves ----------

  /** The backend after n changes in order. */
  function DisturbedBy(b: Backend, env: nat -> Change, i: nat, n: nat): Backend
    decreases n
  {
    if n == 0 then b else DisturbedBy(Disturb(b, env(i)), env, i + 1, n - 1)
  }

  /** A retrieve itself changes nothing: it leaves the backend as the changes before its gets do,
      one for every chunk it got and one more for the get that found nothing. */
  lemma {:induction false} RetrieveOnlyReads(cfg: Config, b: Backend, identified: bool, env: nat -> Change, i: nat,
                                             tokens: seq<Token>, at: nat)
    requires at <= |tokens|
    ensures var chunks := |Gather(cfg, b, identified, env, i, tokens, at)|;
            var gets := if Reach(cfg, b, identified, env, i, tokens, at) < |tokens| then chunks + 1 else chunks;
            Remaining(cfg, b, identified, env, i, tokens, at) == DisturbedBy(b, env, i, gets)
    decreases |tokens| - at
  {
    if at < |tokens| {
      var now, e := Disturb(b, env(i)), cfg.chunker.ChunkEnd(at, |tokens|);
      GatherStep(cfg, b, identified, env, i, tokens, at);
      if cfg.KeyOf(tokens[..e]) in now.dict && identified {
        RetrieveOnlyReads(cfg, now, identified, env, i + 1, tokens, e);
      } else {
        assert DisturbedBy(now, env, i + 1, 0) == now;
      }
    }
  }

  /** The keys of what is gathered are those of the hashes of the tokens, in their order. */
  lemma {:induction false} GatheredKeys(cfg: Config, b: Backend, identified: bool, env: nat -> Change, i: nat,
                                        tokens: seq<Token>, at: nat, j: nat)
    requires at <= |tokens|
    requires j < |Gather(cfg, b, identified, env, i, tokens, at)|
    ensures |Gather(cfg, b, identified, env, i, tokens, at)| <= |cfg.chunker.HashesFrom(tokens, at)|
    ensures KeysOf(Gather(cfg, b, identified, env, i, tokens, at))[j]
            == cfg.MakeKey(cfg.chunker.HashesFrom(tokens, at)[j])
    decreases |tokens| - at
  {
    var now, e := Disturb(b, env(i)), cfg.chunker.ChunkEnd(at, |tokens|);
    GatherStep(cfg, b, identified, env, i, tokens, at);
    if |Gather(cfg, now, identified, env, i + 1, tokens, e)| > 0 {
      GatheredKeys(cfg, now, identified, env, i + 1, tokens, e, if j > 0 then j - 1 else 0);
    }
  }
}
