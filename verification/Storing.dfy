/** What the adapter stores of a batch that was run: which sequences, up to which length, and
    when that keeps the cache coherent. */
module Storing {
  import opened Wrappers
  import opened Chunking
  import opened EngineModel
  import opened CacheEngine
  import opened CacheCoherence
  import opened CacheSharing
  import opened PagedPrefill
  import opened Adapter
  import opened Rewriting

  // ---------- paged memory through block tables ----------

  /** The slot of position `i` in a block table. */
  function SlotOf(blocks: seq<nat>, blockSize: pos, i: nat): Slot
    requires i / blockSize < |blocks|
  {
    blocks[i / blockSize] * blockSize + i % blockSize
  }

  /** The block table covers the first `n` positions, within the paged memory. */
  /** The slots of a block follow one another from its start on, whole blocks apart. */
  lemma SlotsOfBlock(blocks: seq<nat>, blockSize: pos, k: nat, offset: nat)
    requires k < |blocks| && offset < blockSize
    ensures (k * blockSize + offset) / blockSize == k
    ensures SlotOf(blocks, blockSize, k * blockSize + offset) == blocks[k] * blockSize + offset
  {
    DivModUnique(k * blockSize + offset, blockSize, k, offset);
  }

  ghost predicate Covers(blocks: seq<nat>, blockSize: pos, n: nat, size: nat) {
    forall i: nat :: i < n ==> i / blockSize < |blocks| && SlotOf(blocks, blockSize, i) < size
  }

  /** The paged memory holds the recomputed KV of `tokens` in the slots of the table. */
  ghost predicate HoldsTokens(step: Step, mem: Memory, blocks: seq<nat>, blockSize: pos, tokens: seq<Token>)
    requires Covers(blocks, blockSize, |tokens|, |mem|)
  {
    forall i: nat :: i < |tokens| ==> mem[SlotOf(blocks, blockSize, i)] == FullKV(step, tokens)[i]
  }

  method ComputeSlotMapping(blocks: seq<nat>, blockSize: pos, contextLen: nat, seqLen: nat, ghost size: nat)
    returns (slots: seq<Slot>)
    requires contextLen <= seqLen && Covers(blocks, blockSize, seqLen, size)
    ensures |slots| == seqLen - contextLen
    ensures forall j: nat :: j < |slots| ==> slots[j] == SlotOf(blocks, blockSize, contextLen + j)
  {
    slots := [];
    for i: nat := contextLen to seqLen
      invariant |slots| == i - contextLen
      invariant forall j: nat :: j < |slots| ==> slots[j] == SlotOf(blocks, blockSize, contextLen + j)
    {
      assert i < seqLen;
      slots := slots + [SlotOf(blocks, blockSize, i)];
    }
  }

  /** What paged memory holds of the positions [skip, seqLen), whatever that is. */
  ghost predicate IsRead(mem: Memory, blocks: seq<nat>, blockSize: pos, skip: nat, seqLen: nat, kv: Chunk)
    requires Covers(blocks, blockSize, seqLen, |mem|)
  {
    skip + |kv| == seqLen
    && forall j: nat :: j < |kv| ==> kv[j] == mem[SlotOf(blocks, blockSize, skip + j)]
  }

  ghost function ReadSlots(mem: Memory, blocks: seq<nat>, blockSize: pos, skip: nat, seqLen: nat): (kv: Chunk)
    requires skip <= seqLen && Covers(blocks, blockSize, seqLen, |mem|)
    ensures IsRead(mem, blocks, blockSize, skip, seqLen, kv)
  {
    seq(seqLen - skip, j requires 0 <= j < seqLen - skip => mem[SlotOf(blocks, blockSize, skip + j)])
  }

  /** Gathers what is in the slots of positions [skip, seqLen). */
  method ReadPaged(paged: array<KV>, blocks: seq<nat>, blockSize: pos, skip: nat, seqLen: nat) returns (kv: Chunk)
    requires skip <= seqLen && Covers(blocks, blockSize, seqLen, paged.Length)
    ensures kv == ReadSlots(paged[..], blocks, blockSize, skip, seqLen)
  {
    var slots := ComputeSlotMapping(blocks, blockSize, skip, seqLen, paged.Length);
    kv := [];
    for j: nat := 0 to |slots|
      invariant kv == ReadSlots(paged[..], blocks, blockSize, skip, seqLen)[..j]
    {
      assert skip + j < seqLen && slots[j] == SlotOf(blocks, blockSize, skip + j);
      kv := kv + [paged[slots[j]]];
    }
  }

  lemma ReadIsSuffix(step: Step, mem: Memory, blocks: seq<nat>, blockSize: pos, skip: nat, tokens: seq<Token>)
    requires skip <= |tokens| && Covers(blocks, blockSize, |tokens|, |mem|)
    requires HoldsTokens(step, mem, blocks, blockSize, tokens)
    ensures ReadSlots(mem, blocks, blockSize, skip, |tokens|) == FullKV(step, tokens)[skip..]
  {
    var kv := ReadSlots(mem, blocks, blockSize, skip, |tokens|);
    forall j: nat | j < |kv|
      ensures kv[j] == FullKV(step, tokens)[skip..][j]
    {
      assert kv[j] == mem[SlotOf(blocks, blockSize, skip + j)];
    }
  }

  // ---------- storing one sequence ----------

  /** What the adapter asks the engine to store past the first `skip` tokens. */
  function SuffixRequest(tokens: seq<Token>, kv: Chunk, skip: nat): StoreRequest
    requires skip <= |tokens|
  {
    StoreRequest(tokens, kv, Some(RangeMask(|tokens|, skip, |tokens|)), true, false)
  }

  /** Where a sequence lives, and what happens while it is stored. */
  datatype Storage = Storage(blocks: seq<nat>, clientId: int, gap: Change, outcomes: nat -> PutOutcome)

  /** The backend once the given tokens have been looked up and the rest of them stored with
      what paged memory holds in their slots. */
  ghost function StoredOne(cfg: Config, b: Backend, mem: Memory, blockSize: pos, tokens: seq<Token>, at: Storage)
    : Backend
    requires Covers(at.blocks, blockSize, |tokens|, |mem|)
  {
    var skip := Hits(cfg, b.dict, tokens, 0);
    var now := Disturb(b, at.gap);
    if skip == |tokens| then now
    else
      var kv := ReadSlots(mem, at.blocks, blockSize, skip, |tokens|);
      AfterStore(cfg, now, Some(at.clientId), SuffixRequest(tokens, kv, skip), at.outcomes)
  }

  /** The engine's checks pass for whatever the lookup answers. */
  lemma SuffixAccepted(cfg: Config, dict: map<Key, Chunk>, tokens: seq<Token>, kv: Chunk)
    requires var skip := Hits(cfg, dict, tokens, 0); skip < |tokens| && |kv| == |tokens| - skip
    ensures var skip := Hits(cfg, dict, tokens, 0);
            var req := SuffixRequest(tokens, kv, skip);
            && req.Skip() == skip && Aligned(skip, cfg.chunker.size) && skip % cfg.chunker.size == 0
            && req.Rejected(cfg) == if cfg.ValidFormat() then None else Some(InvalidFormat)
  {
    var skip := Hits(cfg, dict, tokens, 0);
    LookupAligned(cfg, dict, tokens);
    FloorIsDiv(skip, cfg.chunker.size);
    CountRange(|tokens|, skip, |tokens|);
  }

  /** Looks up how much of the first `seqLen` tokens is cached and stores the rest. The cache
      may change in between; the engine's checks hold all the same. */
  method StoreKv(engine: LMCacheEngine, paged: array<KV>, tokenIds: seq<Token>, seqLen: nat, blockSize: pos,
                 at: Storage)
    returns (r: Result<nat, Error>)
    requires seqLen <= |tokenIds| && Covers(at.blocks, blockSize, seqLen, paged.Length)
    modifies engine
    ensures engine.TheBackend()
            == StoredOne(engine.cfg, old(engine.TheBackend()), paged[..], blockSize, tokenIds[..seqLen], at)
    ensures r.Err? ==> r.error == InvalidFormat && !engine.cfg.ValidFormat()
  {
    engine.client := Some(at.clientId);
    var tokens := tokenIds[..seqLen];
    var skip := engine.Lookup(tokens);
    ghost var dict := engine.dict;
    assert skip <= seqLen;
    engine.Background(at.gap);
    if skip == seqLen {
      return Ok(0);
    }
    var kv := ReadPaged(paged, at.blocks, blockSize, skip, seqLen);
    SuffixAccepted(engine.cfg, dict, tokens, kv);
    assert skip % engine.cfg.chunker.size == 0;
    r := engine.Store(SuffixRequest(tokens, kv, skip), at.outcomes);
  }

  /** If the slots hold the recomputed KV of the tokens, storing them keeps the cache coherent. */
  lemma StoredOneCoherent(cfg: Config, step: Step, b: Backend, mem: Memory, blockSize: pos, tokens: seq<Token>,
                          at: Storage)
    requires CollisionFree(cfg.chunker.hash) && Coherent(cfg, step, b)
    requires Covers(at.blocks, blockSize, |tokens|, |mem|) && HoldsTokens(step, mem, at.blocks, blockSize, tokens)
    ensures Coherent(cfg, step, StoredOne(cfg, b, mem, blockSize, tokens, at))
  {
    var skip := Hits(cfg, b.dict, tokens, 0);
    DisturbCoherent(cfg, step, b, at.gap);
    if skip < |tokens| {
      var kv := ReadSlots(mem, at.blocks, blockSize, skip, |tokens|);
      ReadIsSuffix(step, mem, at.blocks, blockSize, skip, tokens);
      SuffixAccepted(cfg, b.dict, tokens, kv);
      AfterStoreCoherent(cfg, step, Disturb(b, at.gap), Some(at.clientId), SuffixRequest(tokens, kv, skip),
                         at.outcomes);
    }
  }

  // ---------- when a store keeps the cache coherent ----------

  lemma HoldsPrefix(step: Step, mem: Memory, blocks: seq<nat>, blockSize: pos, tokens: seq<Token>, n: nat)
    requires n <= |tokens| && Covers(blocks, blockSize, |tokens|, |mem|)
    requires HoldsTokens(step, mem, blocks, blockSize, tokens)
    ensures HoldsTokens(step, mem, blocks, blockSize, tokens[..n])
  {
    FullKVPrefix(step, tokens, n);
  }

  /** Storing the first `seqLen` tokens of a sequence of which memory holds the first
      `computed` keeps every cache coherent, whatever the model. */
  ghost predicate KeepsCoherence(cfg: Config, size: nat, blockSize: pos, tokenIds: seq<Token>, computed: nat,
                                 seqLen: nat, at: Storage)
    requires computed <= |tokenIds| && seqLen <= |tokenIds| && Covers(at.blocks, blockSize, |tokenIds|, size)
  {
    forall step: Step, mem: Memory, b: Backend ::
      |mem| == size && HoldsTokens(step, mem, at.blocks, blockSize, tokenIds[..computed]) && Coherent(cfg, step, b) ==>
        Coherent(cfg, step, StoredOne(cfg, b, mem, blockSize, tokenIds[..seqLen], at))
  }

  ghost predicate DistinctSlots(blocks: seq<nat>, blockSize: pos, n: nat, size: nat)
    requires Covers(blocks, blockSize, n, size)
  {
    forall i: nat, j: nat :: i < j < n ==> SlotOf(blocks, blockSize, i) != SlotOf(blocks, blockSize, j)
  }

  /** The last entry that is put holds the KV of the last token. */
  lemma {:induction false} LastEntry(cfg: Config, tokens: seq<Token>, kv: Chunk, base: nat, at: nat)
    requires base <= at < |tokens| && |kv| == |tokens| - base
    ensures var entries := EntriesFrom(cfg, tokens, kv, base, at);
            && entries != []
            && var last := entries[|entries| - 1];
               && last.0 == cfg.KeyOf(tokens) && last.1 != []
               && last.1[|last.1| - 1] == kv[|kv| - 1]
    decreases |tokens| - at
  {
    var e := cfg.chunker.ChunkEnd(at, |tokens|);
    if e < |tokens| {
      LastEntry(cfg, tokens, kv, base, e);
    } else {
      assert tokens[..e] == tokens;
    }
  }

  /** A model that always answers the same. */
  ghost function Always(a: KV): Step {
    (_, _, _) => a
  }

  lemma ConstantKV(a: KV, tokens: seq<Token>, i: nat)
    requires i < |tokens|
    ensures FullKV(Always(a), tokens)[i] == a
  {
    FullKVAt(Always(a), tokens, i);
  }

  /** An entry whose last value is not the recomputed one makes a backend incoherent. */
  lemma WrongEntry(cfg: Config, a: KV, tokens: seq<Token>, entries: seq<(Key, Chunk)>, dict: map<Key, Chunk>)
    requires tokens != [] && entries != []
    requires var last := entries[|entries| - 1];
             last.0 == cfg.KeyOf(tokens) && last.1 != [] && last.1[|last.1| - 1] != a
    ensures !Coherent(cfg, Always(a), Backend(dict, Reverse(entries)))
  {
    var step := Always(a);
    var last := entries[|entries| - 1];
    var queue := Reverse(entries);
    assert queue[0] == last;
    ConstantKV(a, tokens, |tokens| - 1);
    var right := LastChunkKV(step, cfg.chunker.size, tokens);
    assert right != [] && right[|right| - 1] == FullKV(step, tokens)[|tokens| - 1];
    assert !CoherentEntry(cfg, step, queue[0].0, queue[0].1);
  }

  /** Into an empty cache every chunk is queued, with what memory holds. */
  lemma StoredIntoEmpty(cfg: Config, mem: Memory, blockSize: pos, tokens: seq<Token>, at: Storage)
    requires tokens != [] && Covers(at.blocks, blockSize, |tokens|, |mem|)
    requires cfg.ValidFormat() && Identified(Some(at.clientId))
    ensures StoredOne(cfg, Backend(map[], []), mem, blockSize, tokens, at)
            == Backend(map[],
                       Reverse(EntriesFrom(cfg, tokens, ReadSlots(mem, at.blocks, blockSize, 0, |tokens|), 0, 0)))
  {
    var empty := Backend(map[], []);
    var now := Disturb(empty, at.gap);
    assert now.dict == empty.dict;
    SuffixAccepted(cfg, map[], tokens, ReadSlots(mem, at.blocks, blockSize, 0, |tokens|));
  }

  /** Memory that holds the KV of the computed tokens and something else everywhere else. */
  lemma UncomputedMemory(size: nat, blockSize: pos, tokenIds: seq<Token>, computed: nat, blocks: seq<nat>, a: KV, b: KV)
    returns (mem: Memory)
    requires computed <= |tokenIds| && Covers(blocks, blockSize, |tokenIds|, size)
    requires DistinctSlots(blocks, blockSize, |tokenIds|, size)
    ensures |mem| == size && HoldsTokens(Always(a), mem, blocks, blockSize, tokenIds[..computed])
    ensures forall i: nat :: computed <= i < |tokenIds| ==> mem[SlotOf(blocks, blockSize, i)] == b
  {
    mem := seq(size, s => if exists i: nat :: i < computed && SlotOf(blocks, blockSize, i) == s then a else b);
    forall i: nat | i < computed
      ensures mem[SlotOf(blocks, blockSize, i)] == FullKV(Always(a), tokenIds[..computed])[i]
    {
      ConstantKV(a, tokenIds[..computed], i);
    }
  }

  /** A store beyond what is computed poisons an empty cache. */
  lemma StoreBeyondBreaks(cfg: Config, size: nat, blockSize: pos, tokenIds: seq<Token>, computed: nat, seqLen: nat,
                          at: Storage, a: KV, b: KV)
    requires computed < seqLen <= |tokenIds| && Covers(at.blocks, blockSize, |tokenIds|, size) && a != b
    requires DistinctSlots(at.blocks, blockSize, |tokenIds|, size)
    requires cfg.ValidFormat() && Identified(Some(at.clientId))
    ensures !KeepsCoherence(cfg, size, blockSize, tokenIds, computed, seqLen, at)
  {
    var mem := UncomputedMemory(size, blockSize, tokenIds, computed, at.blocks, a, b);
    var tokens, kv := tokenIds[..seqLen], ReadSlots(mem, at.blocks, blockSize, 0, seqLen);
    assert kv[seqLen - 1] == mem[SlotOf(at.blocks, blockSize, 0 + (seqLen - 1))] == b;
    StoredIntoEmpty(cfg, mem, blockSize, tokens, at);
    LastEntry(cfg, tokens, kv, 0, 0);
    WrongEntry(cfg, a, tokens, EntriesFrom(cfg, tokens, kv, 0, 0), map[]);
    assert Coherent(cfg, Always(a), Backend(map[], []));
  }

  /** Storing keeps the cache coherent if and only if no more is stored than is computed, or
      nothing is stored at all because the client is anonymous or the format is refused. */
  lemma StoreCausalIff(cfg: Config, size: nat, blockSize: pos, tokenIds: seq<Token>, computed: nat, seqLen: nat,
                       at: Storage, a: KV, b: KV)
    requires CollisionFree(cfg.chunker.hash) && a != b
    requires computed <= |tokenIds| && seqLen <= |tokenIds| && Covers(at.blocks, blockSize, |tokenIds|, size)
    requires DistinctSlots(at.blocks, blockSize, |tokenIds|, size)
    ensures KeepsCoherence(cfg, size, blockSize, tokenIds, computed, seqLen, at) <==>
            seqLen <= computed || !Identified(Some(at.clientId)) || !cfg.ValidFormat()
  {
    if seqLen > computed && Identified(Some(at.clientId)) && cfg.ValidFormat() {
      StoreBeyondBreaks(cfg, size, blockSize, tokenIds, computed, seqLen, at, a, b);
    } else {
      forall step: Step, mem: Memory, b: Backend
        | |mem| == size && HoldsTokens(step, mem, at.blocks, blockSize, tokenIds[..computed]) && Coherent(cfg, step, b)
        ensures Coherent(cfg, step, StoredOne(cfg, b, mem, blockSize, tokenIds[..seqLen], at))
      {
        if seqLen <= computed {
          assert tokenIds[..computed][..seqLen] == tokenIds[..seqLen];
          HoldsPrefix(step, mem, at.blocks, blockSize, tokenIds[..computed], seqLen);
          StoredOneCoherent(cfg, step, b, mem, blockSize, tokenIds[..seqLen], at);
        } else {
          DisturbCoherent(cfg, step, b, at.gap);
        }
      }
    }
  }

  // ---------- what is stored can be found ----------

  /** The change between lookup and store takes nothing away that the lookup counted on. */
  ghost predicate KeepsHits(cfg: Config, b: Backend, tokens: seq<Token>, gap: Change) {
    Hits(cfg, Disturb(b, gap).dict, tokens, 0) >= Hits(cfg, b.dict, tokens, 0)
  }

  /** A store does not wait: it leaves the dictionary alone, and what was queued stays in front
      of what it adds. */
  lemma StoreOnlyQueues(cfg: Config, b: Backend, mem: Memory, blockSize: pos, tokens: seq<Token>, at: Storage)
    requires Covers(at.blocks, blockSize, |tokens|, |mem|)
    ensures var now, after := Disturb(b, at.gap), StoredOne(cfg, b, mem, blockSize, tokens, at);
            && after.dict == now.dict && now.queue <= after.queue
            && (!Identified(Some(at.clientId)) ==> after == now)
  {
  }

  /** Once the worker has been through the queue, a lookup finds everything that was stored, and
      of any other tokens at least the chunks in common. */
  lemma StoredArrives(cfg: Config, b: Backend, mem: Memory, blockSize: pos, tokens: seq<Token>, at: Storage,
                      other: seq<Token>)
    requires CollisionFree(cfg.chunker.hash) && cfg.ValidFormat() && Identified(Some(at.clientId))
    requires Covers(at.blocks, blockSize, |tokens|, |mem|) && KeepsHits(cfg, b, tokens, at.gap)
    ensures var after := Drained(StoredOne(cfg, b, mem, blockSize, tokens, at));
            after.queue == [] && SharesStored(cfg, Disturb(b, at.gap).dict, after.dict, tokens, other)
  {
    var skip, now := Hits(cfg, b.dict, tokens, 0), Disturb(b, at.gap);
    if skip == |tokens| {
      QueuedArrive(now, []);
      assert now.(queue := now.queue + Reverse([])) == now;
      StoredShare(cfg, now.dict, Drained(now).dict, tokens, other);
    } else {
      var kv := ReadSlots(mem, at.blocks, blockSize, skip, |tokens|);
      SuffixAccepted(cfg, b.dict, tokens, kv);
      QueuedStoreThenLookup(cfg, now, Some(at.clientId), SuffixRequest(tokens, kv, skip), at.outcomes, other);
    }
  }

  /** Into an empty cache: exactly the chunks in common. */
  lemma StoredExactly(cfg: Config, mem: Memory, blockSize: pos, tokens: seq<Token>, at: Storage, other: seq<Token>)
    requires CollisionFree(cfg.chunker.hash) && cfg.ValidFormat() && Identified(Some(at.clientId))
    requires tokens != [] && Covers(at.blocks, blockSize, |tokens|, |mem|)
    ensures var after := Drained(StoredOne(cfg, Backend(map[], []), mem, blockSize, tokens, at)).dict;
            Hits(cfg, after, other, 0)
            == if other == tokens then |other| else Lcp(tokens, other) / cfg.chunker.size * cfg.chunker.size
  {
    var kv := ReadSlots(mem, at.blocks, blockSize, 0, |tokens|);
    var empty := Backend(map[], []);
    assert Disturb(empty, at.gap).dict == empty.dict;
    SuffixAccepted(cfg, map[], tokens, kv);
    ExactQueuedSharing(cfg, Some(at.clientId), SuffixRequest(tokens, kv, 0), at.outcomes, other);
  }

  /** And a retrieve by an identified client then returns that many tokens, with the KV a
      recomputation would return. */
  lemma StoredIsRetrieved(cfg: Config, step: Step, b: Backend, mem: Memory, blockSize: pos, tokens: seq<Token>,
                          at: Storage, client: int, other: seq<Token>)
    requires CollisionFree(cfg.chunker.hash) && cfg.ValidFormat() && Coherent(cfg, step, b)
    requires Identified(Some(at.clientId)) && Identified(Some(client))
    requires Covers(at.blocks, blockSize, |tokens|, |mem|) && KeepsHits(cfg, b, tokens, at.gap)
    requires HoldsTokens(step, mem, at.blocks, blockSize, tokens)
    ensures var after := Drained(StoredOne(cfg, b, mem, blockSize, tokens, at));
            var found := RetrieveFrom(cfg, after, true, Quiet(), other, None);
            && Recomputed(step, other, 0, found)
            && |found.kv| >= Floor(Lcp(tokens, other), cfg.chunker.size)
            && (other == tokens ==> |found.kv| == |tokens|)
  {
    var stored := StoredOne(cfg, b, mem, blockSize, tokens, at);
    var after := Drained(stored);
    StoredOneCoherent(cfg, step, b, mem, blockSize, tokens, at);
    DrainedCoherent(cfg, step, stored);
    StoredArrives(cfg, b, mem, blockSize, tokens, at, other);
    LookupAgreesWithRetrieve(cfg, step, after, Some(client), other);
    RetrieveIsRecomputation(cfg, step, after, true, Quiet(), other, None);
  }

  // ---------- which sequences are stored ----------

  datatype StoreStatus = Unstored | PrefillStored | SuffixStored | ChunkStored | DecodeStored

  predicate AllPrompts(infos: seq<SeqInfo>) {
    forall i :: 0 <= i < |infos| ==> infos[i].isPrompt
  }

  /** How many of the first `n` sequences are sampled. */
  function CountSampled(call: Call, n: nat): (count: nat)
    requires call.Framed() && n <= |call.infos|
    ensures count <= n
  {
    if n == 0 then 0 else CountSampled(call, n - 1) + (if DoSample(call, n - 1) then 1 else 0)
  }

  lemma {:induction false} CountSampledGrows(call: Call, i: nat, n: nat)
    requires call.Framed() && i < n <= |call.infos| && DoSample(call, i)
    ensures CountSampled(call, i) < CountSampled(call, n)
    decreases n
  {
    if i + 1 < n {
      CountSampledGrows(call, i, n - 1);
    }
  }

  /** Every sampled sequence has a row among the selected ones. */
  lemma {:induction false} SampledRowsSelected(call: Call, n: nat)
    requires call.Framed() && n <= |call.infos|
    ensures CountSampled(call, n) <= |SelectedUpto(call, n)|
  {
    if n > 0 {
      SampledRowsSelected(call, n - 1);
      SelectedNext(call, n - 1);
    }
  }

  /** How a sequence is to be stored after its batch was run with the given selected rows. */
  function StatusFor(call: Call, selected: seq<nat>, saveDecode: bool, chunkSize: pos, i: nat): StoreStatus
    requires call.Framed() && i < |call.infos| && CountSampled(call, |call.infos|) <= |selected|
  {
    if AllPrompts(call.infos) then
      if !DoSample(call, i) then ChunkStored
      else
        CountSampledGrows(call, i, |call.infos|);
        if |call.infos[i].tokenIds| - 1 != selected[CountSampled(call, i)] then SuffixStored else PrefillStored
    else if saveDecode && call.input.seqLens[i] % chunkSize == 0 then DecodeStored
    else Unstored
  }

  ghost predicate Decided(call: Call, selected: seq<nat>, saveDecode: bool, chunkSize: pos, statuses: seq<StoreStatus>)
    requires call.Framed() && CountSampled(call, |call.infos|) <= |selected|
  {
    && |statuses| == |call.infos|
    && forall i :: 0 <= i < |statuses| ==> statuses[i] == StatusFor(call, selected, saveDecode, chunkSize, i)
  }

  function Statuses(call: Call, selected: seq<nat>, saveDecode: bool, chunkSize: pos): (statuses: seq<StoreStatus>)
    requires call.Framed() && CountSampled(call, |call.infos|) <= |selected|
    ensures Decided(call, selected, saveDecode, chunkSize, statuses)
  {
    seq(|call.infos|, i requires 0 <= i < |call.infos| => StatusFor(call, selected, saveDecode, chunkSize, i))
  }

  method ShouldStore(call: Call, selected: seq<nat>, saveDecode: bool, chunkSize: pos)
    returns (statuses: seq<StoreStatus>)
    requires call.Framed() && CountSampled(call, |call.infos|) <= |selected|
    ensures statuses == Statuses(call, selected, saveDecode, chunkSize)
  {
    statuses := seq(|call.infos|, _ => Unstored);
    if forall i :: 0 <= i < |call.infos| ==> call.infos[i].isPrompt {
      var selectedIdx := 0;
      for i := 0 to |call.infos|
        invariant |statuses| == |call.infos| && selectedIdx == CountSampled(call, i)
        invariant forall k :: 0 <= k < i ==> statuses[k] == StatusFor(call, selected, saveDecode, chunkSize, k)
      {
        if !DoSample(call, i) {
          statuses := statuses[i := ChunkStored];
        } else {
          CountSampledGrows(call, i, |call.infos|);
          var suffix := |call.infos[i].tokenIds| - 1 != selected[selectedIdx];
          statuses := statuses[i := if suffix then SuffixStored else PrefillStored];
          selectedIdx := selectedIdx + 1;
        }
      }
      return;
    }
    if saveDecode {
      for i := 0 to |call.infos|
        invariant |statuses| == |call.infos|
        invariant forall k :: 0 <= k < |call.infos| ==>
                    statuses[k] == if k < i then StatusFor(call, selected, saveDecode, chunkSize, k) else Unstored
      {
        if call.input.seqLens[i] % chunkSize == 0 {
          statuses := statuses[i := DecodeStored];
        }
      }
    }
  }

  /** A batch of prompts stores every sequence, as a prefill of its own if the row it is sampled
      at is its last position; any other batch stores only with caching of decoded tokens on, and
      then those whose length in the batch is a whole number of chunks. */
  lemma StatusIff(call: Call, selected: seq<nat>, saveDecode: bool, chunkSize: pos, i: nat)
    requires call.Framed() && CountSampled(call, |call.infos|) <= |selected| && i < |call.infos|
    ensures var status := Statuses(call, selected, saveDecode, chunkSize)[i];
            && (status == Unstored <==>
                  !AllPrompts(call.infos) && !(saveDecode && call.input.seqLens[i] % chunkSize == 0))
            && (status == ChunkStored <==>
                  AllPrompts(call.infos) && call.input.seqLens[i] < |call.infos[i].tokenIds|)
            && (status == DecodeStored <==>
                  !AllPrompts(call.infos) && saveDecode && call.input.seqLens[i] % chunkSize == 0)
            && (status == PrefillStored <==>
                  && AllPrompts(call.infos) && call.input.seqLens[i] == |call.infos[i].tokenIds|
                  && CountSampled(call, i) < |selected|
                  && selected[CountSampled(call, i)] + 1 == |call.infos[i].tokenIds|)
  {
    assert call.FramedAt(i);
    if DoSample(call, i) {
      CountSampledGrows(call, i, |call.infos|);
    }
  }

  /** Without caching of decoded tokens, a batch that is not all prompts stores nothing. */
  lemma NothingStored(call: Call, selected: seq<nat>, chunkSize: pos, k: nat)
    requires call.Framed() && CountSampled(call, |call.infos|) <= |selected| && k < |call.infos|
    requires !AllPrompts(call.infos)
    ensures StoredLength(call, Statuses(call, selected, false, chunkSize), chunkSize, k) == None
  {
    var idx := IndexAt(call, Statuses(call, selected, false, chunkSize), chunkSize, k);
    StatusIff(call, selected, false, chunkSize, idx);
  }

  /** With it, a batch whose sequences all end in it after whole chunks stores all of them. */
  lemma {:induction false} DecodedStored(call: Call, selected: seq<nat>, chunkSize: pos, k: nat)
    requires call.Framed() && CountSampled(call, |call.infos|) <= |selected| && k < |call.infos|
    requires !AllPrompts(call.infos)
    requires forall i :: 0 <= i < |call.infos| ==> DoSample(call, i) && call.input.seqLens[i] % chunkSize == 0
    ensures var statuses := Statuses(call, selected, true, chunkSize);
            && IndexAt(call, statuses, chunkSize, k) == k
            && StoredLength(call, statuses, chunkSize, k) == Some(|call.infos[k].tokenIds|)
  {
    if k > 0 {
      DecodedStored(call, selected, chunkSize, k - 1);
    }
    assert DoSample(call, k);
    StatusIff(call, selected, true, chunkSize, k);
  }

  /** How many tokens of the k-th sequence are stored under the status at `idx`, if any. */
  function LengthUnder(call: Call, statuses: seq<StoreStatus>, chunkSize: pos, idx: nat, k: nat): Option<nat>
    requires call.Framed() && |statuses| == |call.infos| && idx < |call.infos| && k < |call.infos|
  {
    var n := |call.infos[k].tokenIds|;
    match statuses[idx]
    case Unstored => None
    case SuffixStored => Some(call.input.seqLens[idx])
    case ChunkStored => Some(call.input.seqLens[idx])
    case PrefillStored => Some(n)
    case DecodeStored => if n % chunkSize == 0 then Some(n) else None
  }

  /** Which status the store loop looks at when it comes to the k-th sequence: the index moves
      on only when a sequence is stored. */
  function IndexAt(call: Call, statuses: seq<StoreStatus>, chunkSize: pos, k: nat): (idx: nat)
    requires call.Framed() && |statuses| == |call.infos| && k <= |call.infos|
    ensures idx <= k
  {
    if k == 0 then 0
    else
      var idx := IndexAt(call, statuses, chunkSize, k - 1);
      if LengthUnder(call, statuses, chunkSize, idx, k - 1).Some? then idx + 1 else idx
  }

  /** How many tokens of the k-th sequence are stored, if any. */
  function StoredLength(call: Call, statuses: seq<StoreStatus>, chunkSize: pos, k: nat): Option<nat>
    requires call.Framed() && |statuses| == |call.infos| && k < |call.infos|
  {
    LengthUnder(call, statuses, chunkSize, IndexAt(call, statuses, chunkSize, k), k)
  }

  /** A batch of prompts stores of every sequence what is in the batch. */
  lemma {:induction false} PromptsStoreComputed(call: Call, selected: seq<nat>, saveDecode: bool, chunkSize: pos,
                                                statuses: seq<StoreStatus>, k: nat)
    requires call.Framed() && CountSampled(call, |call.infos|) <= |selected| && k < |call.infos|
    requires Decided(call, selected, saveDecode, chunkSize, statuses) && AllPrompts(call.infos)
    ensures IndexAt(call, statuses, chunkSize, k) == k
    ensures StoredLength(call, statuses, chunkSize, k) == Some(call.input.seqLens[k])
  {
    if k > 0 {
      PromptsStoreComputed(call, selected, saveDecode, chunkSize, statuses, k - 1);
    }
    assert statuses[k] == StatusFor(call, selected, saveDecode, chunkSize, k);
  }

  /** Any other batch stores whole sequences, or nothing. */
  lemma OthersStoreWhole(call: Call, selected: seq<nat>, saveDecode: bool, chunkSize: pos,
                         statuses: seq<StoreStatus>, k: nat)
    requires call.Framed() && CountSampled(call, |call.infos|) <= |selected| && k < |call.infos|
    requires Decided(call, selected, saveDecode, chunkSize, statuses) && !AllPrompts(call.infos)
    ensures StoredLength(call, statuses, chunkSize, k) in {None, Some(|call.infos[k].tokenIds|)}
  {
    var idx := IndexAt(call, statuses, chunkSize, k);
    assert statuses[idx] == StatusFor(call, selected, saveDecode, chunkSize, idx);
  }

  /** No sequence is stored beyond what the batch has computed of it. */
  predicate StoresComputed(call: Call, statuses: seq<StoreStatus>, chunkSize: pos)
    requires call.Framed() && |statuses| == |call.infos|
  {
    forall k :: 0 <= k < |call.infos| && StoredLength(call, statuses, chunkSize, k).Some? ==>
      StoredLength(call, statuses, chunkSize, k).value <= call.input.seqLens[k]
  }

  /** That is so for every batch of prompts; any other batch must not come to store a sequence
      that does not end in it. */
  lemma StoresComputedIff(call: Call, selected: seq<nat>, saveDecode: bool, chunkSize: pos, statuses: seq<StoreStatus>)
    requires call.Framed() && CountSampled(call, |call.infos|) <= |selected|
    requires Decided(call, selected, saveDecode, chunkSize, statuses)
    ensures StoresComputed(call, statuses, chunkSize) <==>
            AllPrompts(call.infos)
            || forall k :: 0 <= k < |call.infos| && StoredLength(call, statuses, chunkSize, k).Some? ==>
                 DoSample(call, k)
  {
    forall k | 0 <= k < |call.infos|
      ensures call.input.seqLens[k] <= |call.infos[k].tokenIds|
      ensures AllPrompts(call.infos) ==> StoredLength(call, statuses, chunkSize, k) == Some(call.input.seqLens[k])
      ensures !AllPrompts(call.infos) ==>
                StoredLength(call, statuses, chunkSize, k) in {None, Some(|call.infos[k].tokenIds|)}
    {
      assert call.FramedAt(k);
      if AllPrompts(call.infos) {
        PromptsStoreComputed(call, selected, saveDecode, chunkSize, statuses, k);
      } else {
        OthersStoreWhole(call, selected, saveDecode, chunkSize, statuses, k);
      }
    }
  }

  /** Once the loop meets a sequence that is not to be stored, it stores none after it. */
  lemma {:induction false} StuckAtUnstored(call: Call, statuses: seq<StoreStatus>, chunkSize: pos, k: nat, j: nat)
    requires call.Framed() && |statuses| == |call.infos| && k <= j < |call.infos|
    requires statuses[IndexAt(call, statuses, chunkSize, k)] == Unstored
    ensures IndexAt(call, statuses, chunkSize, j) == IndexAt(call, statuses, chunkSize, k)
    ensures StoredLength(call, statuses, chunkSize, j) == None
    decreases j
  {
    if k < j {
      StuckAtUnstored(call, statuses, chunkSize, k, j - 1);
    }
  }

  /** The first two of four prompt tokens beside a decoding sequence, with chunks of two: all
      four are stored, two of which are not computed. */
  lemma ChunkBesideDecode(call: Call, selected: seq<nat>, statuses: seq<StoreStatus>)
    requires call.Framed() && |call.infos| == 2 && CountSampled(call, 2) <= |selected|
    requires call.infos[0].isPrompt && |call.infos[0].tokenIds| == 4 && call.input.seqLens[0] == 2
    requires !call.infos[1].isPrompt
    requires Decided(call, selected, true, 2, statuses)
    ensures StoredLength(call, statuses, 2, 0) == Some(4)
    ensures !StoresComputed(call, statuses, 2)
  {
    assert statuses[0] == StatusFor(call, selected, true, 2, 0);
  }

  // ---------- storing a batch ----------

  /** Every sequence has a place to be stored from. */
  ghost predicate Placed(call: Call, ats: seq<Storage>, blockSize: pos, size: nat) {
    |ats| == |call.infos| && forall k :: 0 <= k < |ats| ==> PlacedAt(call, ats[k], blockSize, size, k)
  }

  ghost predicate PlacedAt(call: Call, at: Storage, blockSize: pos, size: nat, k: nat)
    requires k < |call.infos|
  {
    Covers(at.blocks, blockSize, |call.infos[k].tokenIds|, size)
  }

  /** The lengths to store are no longer than the sequences. */
  ghost predicate Storable(call: Call, statuses: seq<StoreStatus>, chunkSize: pos) {
    && call.Framed() && |statuses| == |call.infos|
    && forall k :: 0 <= k < |call.infos| && StoredLength(call, statuses, chunkSize, k).Some? ==>
         StoredLength(call, statuses, chunkSize, k).value <= |call.infos[k].tokenIds|
  }

  lemma DecidedStorable(call: Call, selected: seq<nat>, saveDecode: bool, chunkSize: pos, statuses: seq<StoreStatus>)
    requires call.Framed() && CountSampled(call, |call.infos|) <= |selected|
    requires Decided(call, selected, saveDecode, chunkSize, statuses)
    ensures Storable(call, statuses, chunkSize)
  {
    forall k | 0 <= k < |call.infos| && StoredLength(call, statuses, chunkSize, k).Some?
      ensures StoredLength(call, statuses, chunkSize, k).value <= |call.infos[k].tokenIds|
    {
      assert call.FramedAt(k);
      if AllPrompts(call.infos) {
        PromptsStoreComputed(call, selected, saveDecode, chunkSize, statuses, k);
      } else {
        OthersStoreWhole(call, selected, saveDecode, chunkSize, statuses, k);
      }
    }
  }

  /** The backend once the first `n` sequences have had their turn. */
  ghost function StoredUpto(cfg: Config, b: Backend, mem: Memory, blockSize: pos, call: Call,
                            statuses: seq<StoreStatus>, ats: seq<Storage>, n: nat): Backend
    requires Storable(call, statuses, cfg.chunker.size) && Placed(call, ats, blockSize, |mem|) && n <= |call.infos|
  {
    if n == 0 then b
    else
      var k := n - 1;
      var before := StoredUpto(cfg, b, mem, blockSize, call, statuses, ats, k);
      match StoredLength(call, statuses, cfg.chunker.size, k)
      case None => before
      case Some(len) =>
        assert PlacedAt(call, ats[k], blockSize, |mem|, k);
        StoredOne(cfg, before, mem, blockSize, call.infos[k].tokenIds[..len], ats[k])
  }

  /** The store loop. */
  method StoreAll(engine: LMCacheEngine, paged: array<KV>, call: Call, statuses: seq<StoreStatus>, blockSize: pos,
                  ats: seq<Storage>)
    requires Storable(call, statuses, engine.cfg.chunker.size) && Placed(call, ats, blockSize, paged.Length)
    requires engine.cfg.ValidFormat()
    modifies engine
    ensures engine.TheBackend()
            == StoredUpto(engine.cfg, old(engine.TheBackend()), paged[..], blockSize, call, statuses, ats, |call.infos|)
  {
    var seqDataIdx, chunkSize := 0, engine.cfg.chunker.size;
    ghost var b0 := engine.TheBackend();
    for k := 0 to |call.infos|
      invariant seqDataIdx == IndexAt(call, statuses, chunkSize, k)
      invariant engine.TheBackend() == StoredUpto(engine.cfg, b0, paged[..], blockSize, call, statuses, ats, k)
    {
      assert PlacedAt(call, ats[k], blockSize, paged.Length, k);
      var info, status := call.infos[k], statuses[seqDataIdx];
      if status == Unstored {
        continue;
      }
      var seqLen := if status == SuffixStored || status == ChunkStored then call.input.seqLens[seqDataIdx]
                    else |info.tokenIds|;
      if status == DecodeStored && seqLen % chunkSize != 0 {
        continue;
      }
      assert StoredLength(call, statuses, chunkSize, k) == Some(seqLen);
      var _ := StoreKv(engine, paged, info.tokenIds, seqLen, blockSize, ats[k]);
      seqDataIdx := seqDataIdx + 1;
    }
  }

  /** Memory holds what the batch has computed of every sequence. */
  ghost predicate BatchComputed(call: Call, step: Step, mem: Memory, ats: seq<Storage>, blockSize: pos)
    requires call.Framed() && Placed(call, ats, blockSize, |mem|)
  {
    forall k :: 0 <= k < |call.infos| ==> ComputedOne(call, step, mem, ats[k], blockSize, k)
  }

  ghost predicate ComputedOne(call: Call, step: Step, mem: Memory, at: Storage, blockSize: pos, k: nat)
    requires call.Framed() && k < |call.infos| && PlacedAt(call, at, blockSize, |mem|, k)
  {
    assert call.FramedAt(k);
    HoldsTokens(step, mem, at.blocks, blockSize, call.infos[k].tokenIds[..call.input.seqLens[k]])
  }

  lemma StoreComputedOne(cfg: Config, step: Step, b: Backend, mem: Memory, blockSize: pos, call: Call, at: Storage,
                         k: nat, seqLen: nat)
    requires CollisionFree(cfg.chunker.hash) && Coherent(cfg, step, b)
    requires call.Framed() && k < |call.infos| && PlacedAt(call, at, blockSize, |mem|, k)
    requires ComputedOne(call, step, mem, at, blockSize, k) && seqLen <= call.input.seqLens[k]
    ensures seqLen <= |call.infos[k].tokenIds|
    ensures Coherent(cfg, step, StoredOne(cfg, b, mem, blockSize, call.infos[k].tokenIds[..seqLen], at))
  {
    assert call.FramedAt(k);
    var computed := call.infos[k].tokenIds[..call.input.seqLens[k]];
    assert computed[..seqLen] == call.infos[k].tokenIds[..seqLen];
    HoldsPrefix(step, mem, at.blocks, blockSize, computed, seqLen);
    StoredOneCoherent(cfg, step, b, mem, blockSize, call.infos[k].tokenIds[..seqLen], at);
  }

  lemma StoredNextCoherent(cfg: Config, step: Step, b: Backend, mem: Memory, blockSize: pos, call: Call,
                           statuses: seq<StoreStatus>, ats: seq<Storage>, k: nat)
    requires CollisionFree(cfg.chunker.hash) && k < |call.infos|
    requires Storable(call, statuses, cfg.chunker.size) && Placed(call, ats, blockSize, |mem|)
    requires Coherent(cfg, step, StoredUpto(cfg, b, mem, blockSize, call, statuses, ats, k))
    requires PlacedAt(call, ats[k], blockSize, |mem|, k) && ComputedOne(call, step, mem, ats[k], blockSize, k)
    requires var length := StoredLength(call, statuses, cfg.chunker.size, k);
             length.Some? ==> length.value <= call.input.seqLens[k]
    ensures Coherent(cfg, step, StoredUpto(cfg, b, mem, blockSize, call, statuses, ats, k + 1))
  {
    var before := StoredUpto(cfg, b, mem, blockSize, call, statuses, ats, k);
    match StoredLength(call, statuses, cfg.chunker.size, k)
    case None =>
    case Some(len) => StoreComputedOne(cfg, step, before, mem, blockSize, call, ats[k], k, len);
  }

  /** If no more is stored than was computed, the cache stays coherent. */
  lemma {:induction false} StoredUptoCoherent(cfg: Config, step: Step, b: Backend, mem: Memory, blockSize: pos,
                                              call: Call, statuses: seq<StoreStatus>, ats: seq<Storage>, n: nat)
    requires CollisionFree(cfg.chunker.hash) && Coherent(cfg, step, b)
    requires Storable(call, statuses, cfg.chunker.size) && Placed(call, ats, blockSize, |mem|) && n <= |call.infos|
    requires StoresComputed(call, statuses, cfg.chunker.size) && BatchComputed(call, step, mem, ats, blockSize)
    ensures Coherent(cfg, step, StoredUpto(cfg, b, mem, blockSize, call, statuses, ats, n))
  {
    if n > 0 {
      var k := n - 1;
      StoredUptoCoherent(cfg, step, b, mem, blockSize, call, statuses, ats, k);
      assert PlacedAt(call, ats[k], blockSize, |mem|, k) && ComputedOne(call, step, mem, ats[k], blockSize, k);
      StoredNextCoherent(cfg, step, b, mem, blockSize, call, statuses, ats, k);
    }
  }
}
