/** Reuse: what a turn stores, a later turn leaves out. */
module Reuse {
  import opened Wrappers
  import opened Chunking
  import opened EngineModel
  import opened CacheCoherence
  import opened CacheSharing
  import opened PagedPrefill
  import opened Adapter
  import opened Rewriting
  import opened Storing
  import opened Serving

  /** With a quiet background the gets of a retrieve reach at least as far as a lookup says. */
  lemma ReachedAsFar(cfg: Config, b: Backend, tokens: seq<Token>, skip: nat)
    requires skip <= |tokens|
    ensures Reached(cfg, b, true, Quiet(), tokens, skip) >= Hits(cfg, b.dict, tokens, 0)
  {
    var start := Floor(skip, cfg.chunker.size);
    ReachIsHits(cfg, b, 0, tokens, start);
    if start <= Hits(cfg, b.dict, tokens, 0) {
      HitsResume(cfg, b.dict, tokens, 0, start);
    }
  }

  lemma RetrievedAsFar(cfg: Config, step: Step, b: Backend, tokens: seq<Token>, skip: nat)
    requires skip <= |tokens| && Coherent(cfg, step, b)
    ensures var found := RetrieveFrom(cfg, b, true, Quiet(), tokens, Some(RangeMask(|tokens|, skip, |tokens|)));
            skip + |found.kv| >= Hits(cfg, b.dict, tokens, 0)
  {
    CountRange(|tokens|, skip, |tokens|);
    RetrieveIsRecomputation(cfg, step, b, true, Quiet(), tokens, Some(RangeMask(|tokens|, skip, |tokens|)));
    ReachedAsFar(cfg, b, tokens, skip);
  }

  /** So an identified client finds a sequence at least that far. */
  lemma FoundAsFar(call: Call, cfg: Config, step: Step, b: Backend, i: nat)
    requires call.Framed() && i < |call.infos| && Coherent(cfg, step, b)
    requires call.env(i) == Quiet() && Identified(Some(call.infos[i].clientId))
    ensures call.Skip(i) + |call.Found(cfg, b, i).kv| >= Hits(cfg, b.dict, call.Tokens(i), 0)
  {
    RetrievedAsFar(cfg, step, b, call.Tokens(i), call.Skip(i));
  }

  lemma FirstCount(call: Call, cfg: Config, step: Step, b: Backend)
    requires call.Framed() && call.infos != [] && Coherent(cfg, step, b)
    requires call.env(0) == Quiet() && Identified(Some(call.infos[0].clientId))
    ensures Hits(cfg, b.dict, call.Tokens(0), 0) <= call.Skip(0) + call.Counts(cfg, b)[0] <= |call.Tokens(0)|
  {
    FoundAsFar(call, cfg, step, b, 0);
    call.CountsFit(cfg, step, b);
    assert call.BackendAt(cfg, b, 0) == b;
  }

  /** A batch of one whole prompt. */
  ghost predicate OnePrompt(t: Turn) {
    && t.Execute? && |t.infos| == 1 && t.TheCall().Framed() && t.Status() == Some(Prefill)
    && t.input.seqLens[0] == |t.infos[0].tokenIds|
  }

  /** It is stored as a whole. */
  lemma OneStored(setup: Setup, b0: Backend, mem: Memory, t: Turn, selected: seq<nat>, b: Backend)
    requires OnePrompt(t) && StoredBatch(setup, b0, mem, t, selected, b)
    ensures |t.ats| == 1 && Covers(t.ats[0].blocks, setup.blockSize, |t.infos[0].tokenIds|, |mem|)
    ensures b == StoredOne(setup.cfg, b0, mem, setup.blockSize, t.infos[0].tokenIds, t.ats[0])
  {
    var call, size := t.TheCall(), setup.cfg.chunker.size;
    var statuses := Statuses(call, selected, setup.saveDecode, size);
    var tokens := t.infos[0].tokenIds;
    assert PlacedAt(call, t.ats[0], setup.blockSize, |mem|, 0);
    assert statuses[0] == StatusFor(call, selected, setup.saveDecode, size, 0);
    assert StoredLength(call, statuses, size, 0) == Some(|tokens|);
    assert tokens[..|tokens|] == tokens;
    assert StoredUpto(setup.cfg, b0, mem, setup.blockSize, call, statuses, t.ats, 0) == b0;
  }

  lemma PromptFinds(cfg: Config, step: Step, b: Backend, next: Turn)
    requires OnePrompt(next) && Coherent(cfg, step, b)
    requires next.env(0) == Quiet() && Identified(Some(next.infos[0].clientId))
    ensures var call, tokens := next.TheCall(), next.infos[0].tokenIds;
            && Hits(cfg, b.dict, tokens, 0) <= call.Skip(0) + call.Counts(cfg, b)[0]
            && call.Counts(cfg, b)[0] <= call.Required(0) && call.Skip(0) + call.Required(0) == |tokens|
  {
    var call := next.TheCall();
    assert call.Tokens(0) == next.infos[0].tokenIds;
    FirstCount(call, cfg, step, b);
  }

  lemma OneArrives(setup: Setup, b0: Backend, t: Turn, ran: Option<ModelInput>, mem: Memory, b: Backend,
                   other: seq<Token>)
    requires CollisionFree(setup.cfg.chunker.hash) && setup.cfg.ValidFormat() && OnePrompt(t)
    requires Cached(setup, b0, t, ran, mem, b) && |t.ats| > 0 && Identified(Some(t.ats[0].clientId))
    requires KeepsHits(setup.cfg, t.TheCall().BackendAt(setup.cfg, b0, 1), t.infos[0].tokenIds, t.ats[0].gap)
    ensures var tokens, hits := t.infos[0].tokenIds, Hits(setup.cfg, Drained(b).dict, other, 0);
            hits >= Floor(Lcp(tokens, other), setup.cfg.chunker.size) && (other == tokens ==> hits == |other|)
  {
    var tokens := t.infos[0].tokenIds;
    var b1 :| RetrievedBackend(t, b0, setup.cfg, b1) && StoredBatch(setup, b1, mem, t, ran.value.selected, b);
    assert b1 == t.TheCall().BackendAt(setup.cfg, b0, 1);
    OneStored(setup, b1, mem, t, ran.value.selected, b);
    StoredArrives(setup.cfg, b1, mem, setup.blockSize, tokens, t.ats[0], other);
  }

  /** Once a prompt has been executed and the put worker has been through its queue, the next
      prompt is found as far as it shares whole chunks with it, and to its end if it is the same.
      In between, nothing was taken away that the store counted on. */
  lemma PromptReused(setup: Setup, step: Step, b0: Backend, t: Turn, ran: Option<ModelInput>, mem: Memory, b: Backend,
                     next: Turn)
    requires CollisionFree(setup.cfg.chunker.hash) && setup.cfg.ValidFormat() && OnePrompt(t) && OnePrompt(next)
    requires Cached(setup, b0, t, ran, mem, b) && Coherent(setup.cfg, step, b)
    requires |t.ats| > 0 && Identified(Some(t.ats[0].clientId)) && Identified(Some(next.infos[0].clientId))
    requires KeepsHits(setup.cfg, t.TheCall().BackendAt(setup.cfg, b0, 1), t.infos[0].tokenIds, t.ats[0].gap)
    requires next.env(0) == Quiet()
    ensures var tokens, other := t.infos[0].tokenIds, next.infos[0].tokenIds;
            var call, after := next.TheCall(), Drained(b);
            && call.Skip(0) + call.Counts(setup.cfg, after)[0] >= Floor(Lcp(tokens, other), setup.cfg.chunker.size)
            && (other == tokens ==> call.Counts(setup.cfg, after)[0] == call.Required(0))
  {
    var tokens, other := t.infos[0].tokenIds, next.infos[0].tokenIds;
    var call, after := next.TheCall(), Drained(b);
    OneArrives(setup, b0, t, ran, mem, b, other);
    DrainedCoherent(setup.cfg, step, b);
    PromptFinds(setup.cfg, step, after, next);
  }

  /** So the same prompt is run again with its last token alone. */
  lemma SamePromptRunsOneToken(setup: Setup, step: Step, b0: Backend, t: Turn, ran: Option<ModelInput>, mem: Memory,
                               b: Backend, next: Turn, ran': Option<ModelInput>)
    requires CollisionFree(setup.cfg.chunker.hash) && setup.cfg.ValidFormat() && OnePrompt(t) && OnePrompt(next)
    requires Cached(setup, b0, t, ran, mem, b) && Coherent(setup.cfg, step, b)
    requires |t.ats| > 0 && Identified(Some(t.ats[0].clientId)) && Identified(Some(next.infos[0].clientId))
    requires KeepsHits(setup.cfg, t.TheCall().BackendAt(setup.cfg, b0, 1), t.infos[0].tokenIds, t.ats[0].gap)
    requires next.env(0) == Quiet() && next.infos[0].tokenIds == t.infos[0].tokenIds
    requires UsesCache(next, Drained(b), setup.cfg, ran')
    ensures ran'.Some? && |ran'.value.queryStartLoc| == 2
    ensures ran'.value.queryStartLoc[1] == ran'.value.queryStartLoc[0] + 1
  {
    PromptReused(setup, step, b0, t, ran, mem, b, next);
  }
}
