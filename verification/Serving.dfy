/** Serving around the cache: rewritten prefill, model run, and storing what was computed,
    over any number of turns. */
module Serving {
  import opened Wrappers
  import opened Chunking
  import opened EngineModel
  import opened CacheEngine
  import opened CacheCoherence
  import opened PagedPrefill
  import opened Adapter
  import opened Rewriting
  import opened Storing

  /** How the server is set up. */
  datatype Setup = Setup(cfg: Config, blockSize: pos, saveDecode: bool)

  /** A turn of the server: a batch, with what goes on in the background while it is run and
      stored, or the background alone. */
  datatype Turn =
    | Execute(input: ModelInput, infos: seq<SeqInfo>, reqs: seq<Request>, env: nat -> nat -> Change, ats: seq<Storage>)
    | Idle(change: Change)
  {
    function Status(): Option<RetrieveStatus>
      requires Execute?
    {
      StatusOf(infos, input.selected)
    }

    /** The call of the retrieve loop; no status other than chunked prefill changes what it
        says of the batch. */
    function TheCall(): Call
      requires Execute?
    {
      Call(input, infos, if Status() == Some(ChunkPrefill) then ChunkPrefill else Prefill, env)
    }
  }

  // ---------- running a batch ----------

  /** The model run: paged memory takes the values the batch computes. */
  method RunModel(paged: array<KV>, input: ModelInput, m: Model) returns (rows: seq<Hidden>)
    requires Shaped(input, paged.Length)
    modifies paged
    ensures paged[..] == Forward(m, old(paged[..]), input, 0).mem
    ensures rows == Forward(m, old(paged[..]), input, 0).rows
  {
    var r := Forward(m, paged[..], input, 0);
    forall s | 0 <= s < paged.Length {
      paged[s] := r.mem[s];
    }
    assert paged[..] == r.mem;
    rows := r.rows;
  }

  /** Runs the model on an input and picks the selected rows. */
  method RunAndPick(paged: array<KV>, input: ModelInput, m: Model) returns (rows: seq<Hidden>)
    requires Sampleable(input, paged.Length)
    modifies paged
    ensures (paged[..], rows) == Sampled(m, old(paged[..]), input)
  {
    RowCount(m, paged[..], input, 0);
    var all := RunModel(paged, input, m);
    rows := Pick(all, input.selected);
  }

  /** A batch as the engine hands it over: it describes the requests, memory is ready for it,
      and its rows are selected as the sampling metadata says. */
  ghost predicate Posed(m: Model, mem: Memory, t: Turn) {
    && t.Execute? && Matched(t.input, t.infos, t.reqs) && Ready(m, mem, mem, t.reqs, ComputedOf(t.reqs))
    && t.TheCall().Framed() && t.input.selected == SelectedUpto(t.TheCall(), |t.infos|)
  }

  lemma PosedRunnable(cfg: Config, m: Model, mem: Memory, t: Turn, b: Backend)
    requires Posed(m, mem, t) && Coherent(cfg, m.step, b)
    ensures InBounds(t.input.slotMapping, |mem|) && Sampleable(t.input, |mem|)
    ensures t.Status() == Some(Prefill) ==> Runnable(t.TheCall(), t.reqs, t.TheCall().Counts(cfg, b), |mem|)
  {
    t.TheCall().CountsFit(cfg, m.step, b);
    DescribesShaped(t.input, t.reqs, ComputedOf(t.reqs), |mem|);
  }

  /** Running `input` in `mem` is running a full prefill around the cache. */
  ghost predicate PrefillLeft(m: Model, mem0: Memory, mem: Memory, call: Call, reqs: seq<Request>, counts: seq<nat>,
                              input: ModelInput)
  {
    && Runnable(call, reqs, counts, |mem0|) && |mem| == |mem0| && Sampleable(input, |mem|)
    && Sampled(m, mem, input) == CachedRun(m, mem0, call, reqs, counts)
    && input.selected == call.RunInput(counts).selected
  }

  lemma RetrieveLeaves(m: Model, mem0: Memory, mem: Memory, call: Call, reqs: seq<Request>, counts: seq<nat>,
                       r: Outcome)
    requires Runnable(call, reqs, counts, |mem0|) && RetrieveEnded(call, counts, m.step, mem0, mem, r)
    ensures PrefillLeft(m, mem0, mem, call, reqs, counts, r.input)
  {
    RunSampleable(call, reqs, counts, |mem0|);
  }

  method RetrievePrefill(engine: LMCacheEngine, paged: array<KV>, call: Call, ghost m: Model,
                         ghost reqs: seq<Request>, ghost counts: seq<nat>)
    returns (r: Result<ModelInput, Error>)
    requires Coherent(engine.cfg, m.step, engine.TheBackend()) && Runnable(call, reqs, counts, paged.Length)
    requires counts == call.Counts(engine.cfg, engine.TheBackend())
    modifies engine, paged
    ensures Coherent(engine.cfg, m.step, engine.TheBackend())
    ensures r.Err? <==> !engine.cfg.ValidFormat()
    ensures r.Ok? ==>
              && PrefillLeft(m, old(paged[..]), paged[..], call, reqs, counts, r.value)
              && LeavesOut(call, counts, r.value)
              && BackendLeft(call, engine.cfg, old(engine.TheBackend()), engine.TheBackend())
  {
    ghost var mem0 := paged[..];
    MatchedFramed(call, reqs, paged.Length);
    var outcome := RetrieveKv(engine, paged, call, m.step);
    if outcome.Err? {
      return Err(outcome.error);
    }
    RetrieveLeaves(m, mem0, paged[..], call, reqs, counts, outcome.value);
    r := Ok(outcome.value.input);
  }

  /** What a retrieve leaves of a chunk: complete if the run is skipped, and otherwise as good
      to run as before. */
  lemma ChunkLeft(m: Model, mem0: Memory, mem: Memory, t: Turn, counts: seq<nat>, r: Outcome)
    requires Posed(m, mem0, t) && t.Status() == Some(ChunkPrefill)
    requires RetrieveEnded(t.TheCall(), counts, m.step, mem0, mem, r)
    ensures |mem| == |mem0| && r.input == t.input && Sampleable(t.input, |mem0|)
    ensures (if r.skip then (mem, []) else Sampled(m, mem, t.input)) == Sampled(m, mem0, t.input)
  {
    ChunkRun(m, mem0, mem, t.TheCall(), t.reqs, counts, r);
    if r.skip {
      ChunkCompletes(m, mem0, mem, t.input, t.reqs);
    } else {
      ChunkResumes(m, mem0, mem, t.input, t.reqs);
    }
  }

  /** A chunk that is complete already is what running it would leave. */
  lemma ChunkCompletes(m: Model, mem0: Memory, mem: Memory, input: ModelInput, reqs: seq<Request>)
    requires Describes(input, reqs, ComputedOf(reqs)) && Ready(m, mem0, mem0, reqs, ComputedOf(reqs))
    requires input.selected == [] && Complete(m, mem0, mem, reqs)
    ensures Sampleable(input, |mem0|) && (mem, []) == Sampled(m, mem0, input)
  {
    PrefillMeaning(m, mem0, mem0, input, reqs, ComputedOf(reqs));
    CompleteUnique(m, mem0, mem, Forward(m, mem0, input, 0).mem, reqs);
    assert Sampled(m, mem0, input).1 == [];
  }

  /** Running a chunk with some of it injected leaves what running it would. */
  lemma ChunkResumes(m: Model, mem0: Memory, mem: Memory, input: ModelInput, reqs: seq<Request>)
    requires Describes(input, reqs, ComputedOf(reqs)) && Ready(m, mem0, mem0, reqs, ComputedOf(reqs))
    requires input.selected == [] && Ready(m, mem0, mem, reqs, ComputedOf(reqs))
    ensures Sampleable(input, |mem0|) && |mem| == |mem0| && Sampled(m, mem, input) == Sampled(m, mem0, input)
  {
    PrefillMeaning(m, mem0, mem0, input, reqs, ComputedOf(reqs));
    PrefillMeaning(m, mem0, mem, input, reqs, ComputedOf(reqs));
    CompleteUnique(m, mem0, Forward(m, mem, input, 0).mem, Forward(m, mem0, input, 0).mem, reqs);
  }

  /** The input that is run instead of a full prefill selects a row for every sampled sequence. */
  lemma RunSelects(call: Call, counts: seq<nat>)
    requires call.Framed() && call.Fitting(counts) && call.status == Prefill
    requires call.input.selected == SelectedUpto(call, |call.infos|)
    ensures CountSampled(call, |call.infos|) <= |call.RunInput(counts).selected|
  {
    SampledRowsSelected(call, |call.infos|);
    var plans := call.Plans(counts, |call.infos|);
    if Missed(plans) != |plans| {
      call.PlansFit(counts);
      RebuiltInputIs(call.input, plans);
    }
  }

  /** What is left to run of a batch: of a full prefill, whatever was not found; any other batch
      is run as it is, in memory that is as good as it was. */
  ghost predicate LeftToRun(cfg: Config, b0: Backend, m: Model, mem0: Memory, mem: Memory, t: Turn, input: ModelInput)
    requires t.Execute?
  {
    if t.Status() == Some(Prefill) then
      t.TheCall().Framed()
      && PrefillLeft(m, mem0, mem, t.TheCall(), t.reqs, t.TheCall().Counts(cfg, b0), input)
    else
      && input == t.input && |mem| == |mem0| && Sampleable(input, |mem|)
      && Sampled(m, mem, input) == Sampled(m, mem0, input)
  }

  /** A chunk is skipped exactly if all of every sequence was found. */
  ghost predicate UsesChunk(t: Turn, b0: Backend, cfg: Config, skip: bool)
    requires t.Execute? && t.TheCall().Framed()
  {
    var counts := t.TheCall().Counts(cfg, b0);
    skip <==> forall i :: 0 <= i < |t.infos| ==> counts[i] == t.TheCall().Required(i)
  }

  /** What becomes of a batch in front of the cache: a prefill is run without what was found of
      it, and any other batch as it is, but for a chunk all of which was found. */
  ghost predicate UsesCache(t: Turn, b0: Backend, cfg: Config, ran: Option<ModelInput>)
    requires t.Execute? && t.TheCall().Framed()
  {
    match t.Status()
    case None => ran == Some(t.input)
    case Some(Prefill) =>
      var counts := t.TheCall().Counts(cfg, b0);
      ran.Some? && t.TheCall().Fitting(counts) && LeavesOut(t.TheCall(), counts, ran.value)
    case Some(ChunkPrefill) => (ran == None || ran == Some(t.input)) && UsesChunk(t, b0, cfg, ran == None)
  }

  /** The backend once the batch has been retrieved for, if at all. */
  ghost predicate RetrievedBackend(t: Turn, b0: Backend, cfg: Config, b: Backend)
    requires t.Execute?
  {
    if t.Status() == None then b == b0 else BackendLeft(t.TheCall(), cfg, b0, b)
  }

  /** Retrieves for a chunk: it is run as it is unless all of it was found. */
  method RetrieveChunk(engine: LMCacheEngine, paged: array<KV>, t: Turn, ghost m: Model)
    returns (r: Result<Outcome, Error>)
    requires Posed(m, paged[..], t) && t.Status() == Some(ChunkPrefill)
    requires InBounds(t.input.slotMapping, paged.Length) && Sampleable(t.input, paged.Length)
    requires Coherent(engine.cfg, m.step, engine.TheBackend())
    modifies engine, paged
    ensures Coherent(engine.cfg, m.step, engine.TheBackend())
    ensures r.Err? <==> !engine.cfg.ValidFormat()
    ensures r.Ok? ==>
              && r.value.input == t.input && UsesChunk(t, old(engine.TheBackend()), engine.cfg, r.value.skip)
              && BackendLeft(t.TheCall(), engine.cfg, old(engine.TheBackend()), engine.TheBackend())
    ensures r.Ok? ==>
              (if r.value.skip then (paged[..], []) else Sampled(m, paged[..], t.input))
              == Sampled(m, old(paged[..]), t.input)
  {
    ghost var mem0, counts := paged[..], t.TheCall().Counts(engine.cfg, engine.TheBackend());
    r := RetrieveKv(engine, paged, t.TheCall(), m.step);
    if r.Ok? {
      ChunkLeft(m, mem0, paged[..], t, counts, r.value);
      t.TheCall().UsableAll(counts);
    }
  }

  /** Retrieves if the batch is classified as a prefill. */
  method Retrieve(engine: LMCacheEngine, paged: array<KV>, t: Turn, ghost m: Model)
    returns (r: Result<Outcome, Error>)
    requires Posed(m, paged[..], t) && Coherent(engine.cfg, m.step, engine.TheBackend())
    modifies engine, paged
    ensures Coherent(engine.cfg, m.step, engine.TheBackend())
    ensures r.Err? <==> t.Status().Some? && !engine.cfg.ValidFormat()
    ensures Sampleable(t.input, paged.Length)
    ensures r.Ok? && !r.value.skip ==>
              LeftToRun(engine.cfg, old(engine.TheBackend()), m, old(paged[..]), paged[..], t, r.value.input)
    ensures r.Ok? && r.value.skip ==>
              t.Status() == Some(ChunkPrefill) && (paged[..], []) == Sampled(m, old(paged[..]), t.input)
    ensures r.Ok? ==>
              && UsesCache(t, old(engine.TheBackend()), engine.cfg, if r.value.skip then None else Some(r.value.input))
              && RetrievedBackend(t, old(engine.TheBackend()), engine.cfg, engine.TheBackend())
  {
    PosedRunnable(engine.cfg, m, paged[..], t, engine.TheBackend());
    match t.Status()
    case Some(Prefill) =>
      var left := RetrievePrefill(engine, paged, t.TheCall(), m, t.reqs,
                                  t.TheCall().Counts(engine.cfg, engine.TheBackend()));
      r := if left.Err? then Err(left.error) else Ok(Outcome(left.value, false, []));
    case Some(ChunkPrefill) => r := RetrieveChunk(engine, paged, t, m);
    case None => r := Ok(Outcome(t.input, false, []));
  }

  // ---------- a batch and its stores ----------

  /** The tokens of a sequence live in its blocks, and those in the batch in the request's slots. */
  ghost predicate LivesAt(t: Turn, at: Storage, blockSize: pos, size: nat, k: nat)
    requires t.Execute? && k < |t.infos| == |t.reqs|
  {
    && PlacedAt(t.TheCall(), at, blockSize, size, k)
    && |t.reqs[k].slots| == |t.reqs[k].tokens| <= |t.infos[k].tokenIds|
    && forall j: nat :: j < |t.reqs[k].slots| ==> t.reqs[k].slots[j] == SlotOf(at.blocks, blockSize, j)
  }

  /** What the code asks of a batch so that the cache does not show: one that is taken for a
      full prefill has to be one, and no sequence may be stored beyond what is computed of it.
      A chunk has to be alone, which the adapter asserts. */
  ghost predicate Safe(setup: Setup, t: Turn)
    requires t.Execute? && t.TheCall().Framed() && CountSampled(t.TheCall(), |t.infos|) <= |t.input.selected|
  {
    && (t.Status() == Some(Prefill) ==> FullPrefill(t.TheCall()))
    && (t.Status() == Some(ChunkPrefill) ==> |t.infos| == 1)
    && var size := setup.cfg.chunker.size;
       StoresComputed(t.TheCall(), Statuses(t.TheCall(), t.input.selected, setup.saveDecode, size), size)
  }

  /** A turn that can be taken in the given memory, with or without the cache. */
  ghost predicate WellPosed(setup: Setup, m: Model, mem: Memory, t: Turn) {
    t.Execute? ==>
      && Posed(m, mem, t)
      && |t.ats| == |t.infos|
      && (forall k {:trigger t.ats[k]} :: 0 <= k < |t.ats| ==> LivesAt(t, t.ats[k], setup.blockSize, |mem|, k))
      && CountSampled(t.TheCall(), |t.infos|) <= |t.input.selected| && Safe(setup, t)
  }

  /** The same turn without a cache: the memory it leaves, and the rows it samples from. */
  ghost function Uncached(setup: Setup, m: Model, mem: Memory, t: Turn): (r: (Memory, seq<Hidden>))
    requires WellPosed(setup, m, mem, t)
    ensures |r.0| == |mem|
  {
    if t.Idle? then (mem, [])
    else
      PosedSampleable(m, mem, t);
      Sampled(m, mem, t.input)
  }

  lemma PosedSampleable(m: Model, mem: Memory, t: Turn)
    requires Posed(m, mem, t)
    ensures Sampleable(t.input, |mem|)
    ensures Complete(m, mem, Sampled(m, mem, t.input).0, t.reqs)
  {
    PrefillMeaning(m, mem, mem, t.input, t.reqs, ComputedOf(t.reqs));
  }

  /** Memory holds what a completed batch has computed of every sequence. */
  lemma CompleteComputed(setup: Setup, m: Model, mem0: Memory, mem: Memory, t: Turn)
    requires t.Execute? && WellPosed(setup, m, mem0, t) && Complete(m, mem0, mem, t.reqs)
    ensures Placed(t.TheCall(), t.ats, setup.blockSize, |mem|)
    ensures BatchComputed(t.TheCall(), m.step, mem, t.ats, setup.blockSize)
  {
    forall k | 0 <= k < |t.infos|
      ensures PlacedAt(t.TheCall(), t.ats[k], setup.blockSize, |mem|, k)
      ensures ComputedOne(t.TheCall(), m.step, mem, t.ats[k], setup.blockSize, k)
    {
      assert LivesAt(t, t.ats[k], setup.blockSize, |mem0|, k);
      CompleteComputedOne(m, mem, t, t.ats[k], setup.blockSize, k);
    }
  }

  lemma CompleteComputedOne(m: Model, mem: Memory, t: Turn, at: Storage, blockSize: pos, k: nat)
    requires t.Execute? && Matched(t.input, t.infos, t.reqs) && t.TheCall().Framed() && k < |t.infos|
    requires LivesAt(t, at, blockSize, |mem|, k) && Holds(m, mem, t.reqs[k], |t.reqs[k].tokens|)
    ensures ComputedOne(t.TheCall(), m.step, mem, at, blockSize, k)
  {
    assert t.TheCall().FramedAt(k);
    assert Matches(t.infos[k], t.reqs[k], t.input.seqLens[k]);
    var tokens := t.infos[k].tokenIds[..t.input.seqLens[k]];
    assert tokens == t.reqs[k].tokens;
    forall i: nat | i < |tokens|
      ensures mem[SlotOf(at.blocks, blockSize, i)] == FullKV(m.step, tokens)[i]
    {
      assert t.reqs[k].slots[i] == SlotOf(at.blocks, blockSize, i);
    }
  }

  /** The backend a batch leaves that was run and selected these rows. */
  ghost predicate StoredBatch(setup: Setup, b0: Backend, mem: Memory, t: Turn, selected: seq<nat>, b: Backend)
    requires t.Execute? && t.TheCall().Framed()
  {
    var call, size := t.TheCall(), setup.cfg.chunker.size;
    && CountSampled(call, |t.infos|) <= |selected|
    && var statuses := Statuses(call, selected, setup.saveDecode, size);
       && Storable(call, statuses, size) && Placed(call, t.ats, setup.blockSize, |mem|)
       && b == StoredUpto(setup.cfg, b0, mem, setup.blockSize, call, statuses, t.ats, |t.infos|)
  }

  /** The stores of a batch that was run keep the cache coherent. */
  lemma StoresCoherent(setup: Setup, b0: Backend, m: Model, mem0: Memory, mem: Memory, t: Turn, selected: seq<nat>,
                       b: Backend)
    requires t.Execute? && WellPosed(setup, m, mem0, t) && Complete(m, mem0, mem, t.reqs)
    requires CollisionFree(setup.cfg.chunker.hash) && Coherent(setup.cfg, m.step, b0)
    requires CountSampled(t.TheCall(), |t.infos|) <= |selected| && (selected == t.input.selected || AllPrompts(t.infos))
    requires StoredBatch(setup, b0, mem, t, selected, b)
    ensures Coherent(setup.cfg, m.step, b)
  {
    var size := setup.cfg.chunker.size;
    var statuses := Statuses(t.TheCall(), selected, setup.saveDecode, size);
    CompleteComputed(setup, m, mem0, mem, t);
    StoresComputedIff(t.TheCall(), selected, setup.saveDecode, size, statuses);
    StoredUptoCoherent(setup.cfg, m.step, b0, mem, setup.blockSize, t.TheCall(), statuses, t.ats, |t.infos|);
  }

  /** The store half of a batch. */
  method DecideAndStore(engine: LMCacheEngine, paged: array<KV>, setup: Setup, t: Turn, selected: seq<nat>)
    requires t.Execute? && t.TheCall().Framed() && Placed(t.TheCall(), t.ats, setup.blockSize, paged.Length)
    requires engine.cfg == setup.cfg && setup.cfg.ValidFormat()
    requires CountSampled(t.TheCall(), |t.infos|) <= |selected|
    modifies engine
    ensures StoredBatch(setup, old(engine.TheBackend()), paged[..], t, selected, engine.TheBackend())
  {
    var size := engine.cfg.chunker.size;
    var statuses := ShouldStore(t.TheCall(), selected, setup.saveDecode, size);
    assert statuses == Statuses(t.TheCall(), selected, setup.saveDecode, size);
    DecidedStorable(t.TheCall(), selected, setup.saveDecode, size, statuses);
    StoreAll(engine, paged, t.TheCall(), statuses, setup.blockSize, t.ats);
  }

  /** Stores what a batch that was run has computed. */
  method StoreBatch(engine: LMCacheEngine, paged: array<KV>, setup: Setup, t: Turn, selected: seq<nat>,
                    ghost m: Model, ghost mem0: Memory)
    requires t.Execute? && WellPosed(setup, m, mem0, t) && Complete(m, mem0, paged[..], t.reqs)
    requires engine.cfg == setup.cfg && setup.cfg.ValidFormat()
    requires CollisionFree(engine.cfg.chunker.hash) && Coherent(engine.cfg, m.step, engine.TheBackend())
    requires CountSampled(t.TheCall(), |t.infos|) <= |selected| && (selected == t.input.selected || AllPrompts(t.infos))
    modifies engine
    ensures Coherent(engine.cfg, m.step, engine.TheBackend())
    ensures StoredBatch(setup, old(engine.TheBackend()), paged[..], t, selected, engine.TheBackend())
  {
    ghost var b0 := engine.TheBackend();
    CompleteComputed(setup, m, mem0, paged[..], t);
    DecideAndStore(engine, paged, setup, t, selected);
    StoresCoherent(setup, b0, m, mem0, paged[..], t, selected, engine.TheBackend());
  }

  /** For a batch the code can be trusted with, what is left to run is the batch; and every
      sampled sequence has a row among the selected ones. */
  lemma LeftIsBatch(setup: Setup, b0: Backend, m: Model, mem0: Memory, mem: Memory, t: Turn, input: ModelInput)
    requires t.Execute? && WellPosed(setup, m, mem0, t)
    requires LeftToRun(setup.cfg, b0, m, mem0, mem, t, input)
    ensures Sampleable(input, |mem|) && Sampled(m, mem, input) == Uncached(setup, m, mem0, t)
    ensures Complete(m, mem0, Sampled(m, mem, input).0, t.reqs)
    ensures CountSampled(t.TheCall(), |t.infos|) <= |input.selected|
    ensures input.selected == t.input.selected || AllPrompts(t.infos)
  {
    PosedSampleable(m, mem0, t);
    if t.Status() == Some(Prefill) {
      var call := t.TheCall();
      var counts := call.Counts(setup.cfg, b0);
      FullPrefillRun(m, mem0, call, t.reqs, counts);
      RunSelects(call, counts);
    }
  }

  /** Runs what is left of a batch and stores what was computed. */
  method RunAndStore(engine: LMCacheEngine, paged: array<KV>, setup: Setup, t: Turn, input: ModelInput, m: Model,
                     ghost mem0: Memory)
    returns (rows: seq<Hidden>)
    requires t.Execute? && WellPosed(setup, m, mem0, t) && Sampleable(input, paged.Length)
    requires Complete(m, mem0, Sampled(m, paged[..], input).0, t.reqs)
    requires CountSampled(t.TheCall(), |t.infos|) <= |input.selected|
    requires input.selected == t.input.selected || AllPrompts(t.infos)
    requires engine.cfg == setup.cfg && setup.cfg.ValidFormat()
    requires CollisionFree(engine.cfg.chunker.hash) && Coherent(engine.cfg, m.step, engine.TheBackend())
    modifies engine, paged
    ensures Coherent(engine.cfg, m.step, engine.TheBackend())
    ensures (paged[..], rows) == Sampled(m, old(paged[..]), input)
    ensures StoredBatch(setup, old(engine.TheBackend()), paged[..], t, input.selected, engine.TheBackend())
  {
    rows := RunAndPick(paged, input, m);
    StoreBatch(engine, paged, setup, t, input.selected, m, mem0);
  }

  /** What executing a batch does with the cache: it runs what the cache leaves to run, and stores
      what it ran. */
  ghost predicate Cached(setup: Setup, b0: Backend, t: Turn, ran: Option<ModelInput>, mem: Memory, b: Backend)
    requires t.Execute? && t.TheCall().Framed()
  {
    && UsesCache(t, b0, setup.cfg, ran)
    && exists b1 :: RetrievedBackend(t, b0, setup.cfg, b1)
                    && if ran == None then b == b1 else StoredBatch(setup, b1, mem, t, ran.value.selected, b)
  }

  /** Executing a batch around the cache: retrieving, running what is left, and storing what was
      computed, unless the run was skipped. Memory and sampled rows are those of an execution
      without the cache, and the cache stays coherent. */
  method ExecuteModel(engine: LMCacheEngine, paged: array<KV>, setup: Setup, t: Turn, m: Model)
    returns (rows: seq<Hidden>, ghost ran: Option<ModelInput>)
    requires t.Execute? && WellPosed(setup, m, paged[..], t) && engine.cfg == setup.cfg && setup.cfg.ValidFormat()
    requires CollisionFree(engine.cfg.chunker.hash) && Coherent(engine.cfg, m.step, engine.TheBackend())
    modifies engine, paged
    ensures Coherent(engine.cfg, m.step, engine.TheBackend())
    ensures (paged[..], rows) == Uncached(setup, m, old(paged[..]), t)
    ensures Cached(setup, old(engine.TheBackend()), t, ran, paged[..], engine.TheBackend())
  {
    ghost var mem0, b0 := paged[..], engine.TheBackend();
    var r := Retrieve(engine, paged, t, m);
    if r.value.skip {
      return [], None;
    }
    LeftIsBatch(setup, b0, m, mem0, paged[..], t, r.value.input);
    ran := Some(r.value.input);
    rows := RunAndStore(engine, paged, setup, t, r.value.input, m, mem0);
  }

  // ---------- many turns ----------

  /** Every turn is well posed in the memory that the turns before it leave without a cache. */
  ghost predicate AllWellPosed(setup: Setup, m: Model, mem: Memory, turns: seq<Turn>)
    decreases |turns|, 0
  {
    turns == [] ||
    var n := |turns| - 1;
    AllWellPosed(setup, m, mem, turns[..n])
    && WellPosed(setup, m, UncachedAll(setup, m, mem, turns[..n]).0, turns[n])
  }

  ghost function UncachedAll(setup: Setup, m: Model, mem: Memory, turns: seq<Turn>): (r: (Memory, seq<seq<Hidden>>))
    requires AllWellPosed(setup, m, mem, turns)
    ensures |r.0| == |mem|
    decreases |turns|, 1
  {
    if turns == [] then (mem, [])
    else
      var n := |turns| - 1;
      var before := UncachedAll(setup, m, mem, turns[..n]);
      var last := Uncached(setup, m, before.0, turns[n]);
      (last.0, before.1 + [last.1])
  }

  /** What a turn does with the cache, when `mem` is what it leaves in memory. */
  ghost predicate TurnServed(setup: Setup, b0: Backend, t: Turn, mem: Memory, b: Backend) {
    match t
    case Idle(change) => b == Disturb(b0, change)
    case Execute(_, _, _, _, _) => t.TheCall().Framed() && exists ran :: Cached(setup, b0, t, ran, mem, b)
  }

  /** One turn with the cache is the same turn without it. */
  method ServeTurn(engine: LMCacheEngine, paged: array<KV>, setup: Setup, t: Turn, m: Model)
    returns (rows: seq<Hidden>)
    requires WellPosed(setup, m, paged[..], t) && engine.cfg == setup.cfg && setup.cfg.ValidFormat()
    requires CollisionFree(engine.cfg.chunker.hash) && Coherent(engine.cfg, m.step, engine.TheBackend())
    modifies engine, paged
    ensures Coherent(engine.cfg, m.step, engine.TheBackend())
    ensures (paged[..], rows) == Uncached(setup, m, old(paged[..]), t)
    ensures TurnServed(setup, old(engine.TheBackend()), t, paged[..], engine.TheBackend())
  {
    match t
    case Idle(change) =>
      DisturbCoherent(engine.cfg, m.step, engine.TheBackend(), change);
      engine.Background(change);
      rows := [];
    case Execute(_, _, _, _, _) =>
      ghost var ran;
      rows, ran := ExecuteModel(engine, paged, setup, t, m);
  }

  /** The backends between the turns of a run that starts with an empty cache. */
  ghost predicate Served(setup: Setup, m: Model, mem: Memory, turns: seq<Turn>, backends: seq<Backend>)
    requires AllWellPosed(setup, m, mem, turns)
  {
    && |backends| == |turns| + 1
    && if turns == [] then backends == [Backend(map[], [])]
       else
         var n := |turns| - 1;
         && Served(setup, m, mem, turns[..n], backends[..n + 1])
         && TurnServed(setup, backends[n], turns[n], UncachedAll(setup, m, mem, turns).0, backends[n + 1])
  }

  lemma ServedNext(setup: Setup, m: Model, mem: Memory, turns: seq<Turn>, backends: seq<Backend>, k: nat, b: Backend)
    requires k < |turns| && AllWellPosed(setup, m, mem, turns[..k]) && AllWellPosed(setup, m, mem, turns[..k + 1])
    requires Served(setup, m, mem, turns[..k], backends)
    requires TurnServed(setup, backends[k], turns[k], UncachedAll(setup, m, mem, turns[..k + 1]).0, b)
    ensures Served(setup, m, mem, turns[..k + 1], backends + [b])
  {
    assert turns[..k + 1][..k] == turns[..k] && (backends + [b])[..k + 1] == backends;
  }

  /** Transparency: over any sequence of turns, with any puts and evictions in the background,
      a server that starts with an empty cache computes exactly what a server without a cache
      does, in memory and in the rows it samples from. Nothing is assumed of what is stored. Every
      turn leaves out what the cache holds of its batch, and stores what it ran. */
  method Serve(setup: Setup, paged: array<KV>, turns: seq<Turn>, m: Model)
    returns (outputs: seq<seq<Hidden>>, ghost backends: seq<Backend>)
    requires setup.cfg.ValidFormat() && CollisionFree(setup.cfg.chunker.hash)
    requires AllWellPosed(setup, m, paged[..], turns)
    modifies paged
    ensures (paged[..], outputs) == UncachedAll(setup, m, old(paged[..]), turns)
    ensures Served(setup, m, old(paged[..]), turns, backends)
  {
    var engine := new LMCacheEngine(setup.cfg);
    ghost var mem0 := paged[..];
    outputs, backends := [], [engine.TheBackend()];
    assert turns[..|turns|] == turns;
    WellPosedPrefix(setup, m, mem0, turns, 0);
    for k := 0 to |turns|
      invariant engine.cfg == setup.cfg && Coherent(setup.cfg, m.step, engine.TheBackend())
      invariant AllWellPosed(setup, m, mem0, turns[..k])
      invariant (paged[..], outputs) == UncachedAll(setup, m, mem0, turns[..k])
      invariant Served(setup, m, mem0, turns[..k], backends) && backends[k] == engine.TheBackend()
    {
      WellPosedPrefix(setup, m, mem0, turns, k + 1);
      assert turns[..k + 1][..k] == turns[..k];
      var rows := ServeTurn(engine, paged, setup, turns[k], m);
      outputs := outputs + [rows];
      ServedNext(setup, m, mem0, turns, backends, k, engine.TheBackend());
      backends := backends + [engine.TheBackend()];
    }
  }

  lemma {:induction false} WellPosedPrefix(setup: Setup, m: Model, mem: Memory, turns: seq<Turn>, k: nat)
    requires AllWellPosed(setup, m, mem, turns) && k <= |turns|
    ensures AllWellPosed(setup, m, mem, turns[..k])
    decreases |turns|
  {
    if k < |turns| {
      WellPosedPrefix(setup, m, mem, turns[..|turns| - 1], k);
      assert turns[..|turns| - 1][..k] == turns[..k];
    } else {
      assert turns[..k] == turns;
    }
  }
}
