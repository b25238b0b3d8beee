# FairCache verification model

FairCache serves language models to several tenants. It has three layers: LMCache, a cache of
KV data for token prefixes; an adapter that rewrites prefill batches around cache hits and
splits the cost of shared prefixes between tenants; and a modified vLLM 0.6.2. This project
models the parts of it whose correctness is not visible in any one function, and proves them.

## What is modelled

**Prefix cache engine** (`Chunking`, `EngineModel`, `CacheEngine`, `CacheCoherence`, `CacheSharing`,
`BackendSteps`, `HashWitness`). Tokens are cut into chunks, chunks are hashed in a chain, and KV
slices are kept under the chained hash in the fair local backend. The engine is a class with the
source's methods and loops; each method is proved against a function of its inputs and the old
state. KV data is one opaque value per token position: the one list in which every value is what an
arbitrary step function computes from the values before it. In the background the put worker takes
queued entries, and anything may be evicted or fail to be stored. The only assumption on the hash is
that it does not collide and never returns the empty initial hash; `HashWitness` shows that such a
hash exists. Main results: after any run of stores, worker puts, evictions, client changes and
retrieves, a retrieve returns exactly the KV a recomputation would return, with a mask that is true
exactly there (`RetrieveAfterAnyRun`); and a lookup after a store is exact (`ExactSharing`), also
when the store is only queued and the worker gets to it later (`ExactQueuedSharing`).

**Prefill rewriting and storing** (`PagedPrefill`, `Adapter`, `Rewriting`, `FullPrefill`, `Storing`,
`Serving`, `Reuse`). The flattened batch input, paged memory and the model's forward pass are
modelled index by index. The adapter classifies a batch by its selected rows, retrieves for each
sequence, injects KV into the paged slots and rebuilds a shorter input; after the run it decides
what to store, looks up how much is cached, and stores the rest from paged memory. Main results: a
batch that is taken for a full prefill leaves the memory and the sampled rows of the unmodified
batch, for every model and whatever the cache holds, if and only if it reaches the end of every
prompt or has a single token of each (`InvisibleIff`); storing a sequence keeps every cache coherent
if and only if no more is stored of it than is computed (`StoreCausalIff`); and a server that starts
with an empty cache and executes any sequence of batches that meet these two conditions computes
exactly what a server without a cache does, with nothing assumed of what is stored (`Serve`). And
the cache is used: all that is found is left out of the run (`RetrieveKv`), and a prompt that was
executed is found by the next one as far as the two share whole chunks (`PromptReused`).

**Cost attribution** (`CostAttribution`, `CostLedger`, `ServedTokens`, `ChargeQueue`,
`BoardTotals`). The accounting dictionaries of the retrieve loop, the ledger of shared blocks, and
the scheduler's score board. A retrieve is charged and credited; or only credited, when its sequence
was preempted before; or dropped, when its chunked prefill is abandoned after the client has been
registered. Main results: in every run a client's net charge is its equal share of every block it
ever used plus exactly the excess of such joins (`SharesInEveryRun`); shares stay equal if and only
if everyone who creates or newly shares a block is charged for it (`EqualSharesIff`); net charges
add up to what creators were charged if and only if no uncharged hit newly shared a block
(`ConservedIff`); what the loop reports of a batch is what its hits do to the ledger
(`RunIsReport`); and attribution moves the total of the score board by an exact amount
(`BatchOnBoard`).

**Sequence state and streaming** (`SequenceState`, `Replication`, `TextStreaming`, `HoldBack`,
`TokenStreaming`, `SequenceOutput`). The driver's and the worker's copies of a sequence under deltas
and the scheduler, and the streaming of text behind a stop-string hold-back and of tokens with their
log probabilities.

**LRU cache with pins, and the async merge** (`LruModel`, `LruCache`, `LruRuns`, `LruRecency`,
`AsyncMerge`, `AsyncMergeTermination`). Order of recency over whole runs and stack inclusion; the
merge as a state machine over futures, with safety, completeness, absence of deadlock and a bound on
its length.

**Codecs** (`Strings`, `Replacing`, `Blend`, `Utf8`, `KeyCodec`, `Protocol`). Joined prompts and
their splitting, cache keys as text, and fixed-size wire messages down to the bytes.

## Where the code does not do what one would expect

The named lemmas give the exact condition for all inputs, or an input that shows the effect.

- The stop checker looks back only to the old length minus the stop string's length, and the
  minimum token count can make it skip the token that completes a stop string. The next token
  then cuts text that was already released (`SkippedCheckCutsReleased`). `TokenKeepsPrefixIff`
  says exactly when, and `AlwaysKeptIff` for which sampling parameters it can happen.
- In the fair backend `contains` ignores the client and `get` does not: for an anonymous client
  a lookup can promise tokens that a retrieve does not return (`LookupAgreesWithRetrieve`).
- Credits are issued for every newly shared chunk, but a preempted sequence is not charged its
  share, so that its credits are paid by nobody (`ConservedIff`, `PreemptedJoinUnpaid`). An
  abandoned chunked prefill registers its clients without charge or credit. After either, shares
  are no longer equal (`EqualSharesIff`).
- A partial last chunk is attributed as a full one, so that adjusted hits can be negative
  (`RetrieveInRangeIff`, `AttributedOvercount`, `PartialChunkOutOfRange`), and a charged join
  leaves shares unequal exactly when it is charged for another number of tokens than the block
  (`JoinFairIff`).
- The score board charges the difference of the two weights for a token that moved from hit to
  miss, not the prefill weight alone (`AttributionCharge`), while credits are issued at the prefill
  weight. So attribution moves the total of all scores (`NeutralIff`); with the default weights a
  single sequence is neutral only without shares or with shares of 0.8 or 1.6 tokens
  (`DefaultWeightsNeutralIff`).
- A batch is taken for a full prefill by the number of its selected rows, and then every sequence of
  it is taken to its end. If a prompt is not finished in the batch and anything at all is found, the
  rebuilt batch runs the prompt's last tokens at the positions and slots of the unfinished chunk, so
  that memory and sampled rows are wrong (`UnfinishedShows`). `InvisibleIff` says exactly which
  batches are affected; `UnfinishedBesideLogprobs` and `UnfinishedTokenBesidePrompt` are two of them.
- With caching of decoded tokens on, a batch that mixes prefill and decode stores a whole prompt if
  its length and the end of its chunk are multiples of the chunk size, also where the chunk ends
  before the prompt (`ChunkBesideDecode`, `StoresComputedIff`); such a store makes the cache
  incoherent (`StoreCausalIff`). The same loop does not move its index past a sequence that is not to
  be stored, so that nothing after it is stored either (`StuckAtUnstored`).
- A retrieve without a hit counts masked-out tokens as misses (`LMCacheEngine.Retrieve`).
- A delta read with no new token repeats the whole token list, prompt included (`DeltaExactIff`).
- A reset for recompute drops pending tokens, and a full copy with tokens pending lets the next
  delta repeat them (`ResetKeepsSyncIff`, `FullCopySyncsIff`). The scheduler makes its full copies
  only when nothing is pending, so that its runs are not affected (`SchedulerReplicates`).
- Some separators do not split back: those with a border, and, depending on the model family, those
  that the padding patched into the prompt holds or completes, or that overlap what the patch
  replaces, or in which a replacement can end (`AlwaysSplitsIff`). The default separator is safe
  (`DefaultSeparatorIsSafe`).
- A key of the engine whose model name holds `@` does not come back from its text, though no other
  key of the engine has that text (`EngineKeys`).
- The injection kernel writes as many slots as it is given keys, not as many as the slot slice
  has. On a full hit it writes one slot beyond the slice, the sequence's own last slot, with the
  right value; the model follows the kernel.

## Model

| member | source | states |
|---|---|---|
| `Chunking.FloorIsDiv` | LMCache/lmcache/cache_engine.py:367-372 | `Floor` and `Aligned`, which the proofs use, are the source's floor division and remainder |
| `Chunking.FullKVPrefix` | LMCache/lmcache/cache_engine.py:66-103 | causality: the KV of a token prefix is the prefix of the KV, which is what makes sharing by prefix sound |
| `Chunking.ComputedUnique` | LMCache/lmcache/cache_engine.py:66-103 | computing token by token determines the KV |
| `Chunking.Chunker.ChainHashInjective` | LMCache/lmcache/cache_engine.py:66-103 | with a collision-free hash, equal chained hashes mean equal whole prefixes, whatever the chunk boundaries |
| `Chunking.Chunker.HashesPastSkip` | LMCache/lmcache/cache_engine.py:93-103 | slicing off the hashes of the skipped whole chunks leaves the hashes from there on, or none beyond the end |
| `HashWitness.CollisionFreeHashExists` | LMCache/lmcache/cache_engine.py:66-74 | the assumption on the hash can be met: spelling out chunk and prefix hash never collides |
| `EngineModel.ZipIsEntries` | LMCache/lmcache/cache_engine.py:188-239 | zipping the remaining hashes with the split KV pairs every chunk's hash with exactly that chunk's KV, for aligned and unaligned ends |
| `EngineModel.SplitPieces` | LMCache/lmcache/cache_engine.py:188-217 | splitting the KV gives full pieces and a last one that is empty only if there is nothing |
| `BackendSteps.PutKeepsOthers` | LMCache/lmcache/storage_backend/local_backend.py:675-739 | after a put its key holds the new chunk exactly if the put kept it, and any other key what it held unless it was evicted |
| `BackendSteps.WorkerTakesFront` | LMCache/lmcache/storage_backend/local_backend.py:675-683 | the put worker takes entries off the front of the queue, one for each put |
| `BackendSteps.BlockingIsQueued` | LMCache/lmcache/storage_backend/abstract_backend.py:84-110 | a blocking store leaves the dictionary that the put worker leaves once it has been through the same entries, put for put, whatever is evicted or dropped |
| `BackendSteps.RejectedIff` | LMCache/lmcache/cache_engine.py:283-310 | when a store is accepted, and which check fails first when it is not |
| `BackendSteps.SkippedCounts` | LMCache/lmcache/cache_engine.py:291-292 | a mask skips as many tokens as it is false on, wherever these are |
| `BackendSteps.RetrieveOnlyReads` | LMCache/lmcache/cache_engine.py:376-394 | a retrieve leaves the backend as the changes before its gets do, one for every chunk and one for the get that found nothing |
| `BackendSteps.GatheredKeys` | LMCache/lmcache/cache_engine.py:376-394 | the keys of what is gathered are those of the chained hashes of the tokens, in their order |
| `CacheEngine.LMCacheEngine.ChunkTokens` | LMCache/lmcache/cache_engine.py:76-91 | the loop cuts tokens into full chunks and one shorter last chunk |
| `CacheEngine.LMCacheEngine.PrefixHash` | LMCache/lmcache/cache_engine.py:93-103 | the running hash computes the chained hashes of the whole prefixes, without the skipped ones, also when more are skipped than there are |
| `CacheEngine.LMCacheEngine.Lookup` | LMCache/lmcache/cache_engine.py:471-492 | the loop over chunks and prefix hash returns how many leading tokens are stored |
| `CacheEngine.LMCacheEngine.MakeChunksSkipExisting` | LMCache/lmcache/cache_engine.py:188-217 | the scan for the first missing chunk yields hash and KV of everything from there on, and nothing if all is stored |
| `CacheEngine.LMCacheEngine.MakeAllChunks` | LMCache/lmcache/cache_engine.py:219-239 | without the existence check, hash and KV of every chunk |
| `CacheEngine.LMCacheEngine.FirstMissing` | LMCache/lmcache/cache_engine.py:195-212 | the loop of the scan stops at the first chunk that is not stored |
| `CacheEngine.LMCacheEngine.MakeChunks` | LMCache/lmcache/cache_engine.py:219-239 | the entries of a request that passed the first four checks, or the failing check on skipped chunks |
| `CacheEngine.LMCacheEngine.BatchedPut` | LMCache/lmcache/storage_backend/abstract_backend.py:84-110 | puts the entries last one first; into the queue unless blocking; not at all for an unidentified client |
| `CacheEngine.LMCacheEngine.Store` | LMCache/lmcache/cache_engine.py:243-327 | the five checks in their order with their errors, and the new dictionary and queue after an accepted store |
| `CacheEngine.LMCacheEngine.GatherChunks` | LMCache/lmcache/cache_engine.py:376-394 | the get loop returns the chunks up to the first one missing, with the put worker and evictions at work before every get |
| `CacheEngine.LMCacheEngine.Fetch` | LMCache/lmcache/cache_engine.py:367-394 | skipping whole chunks by a mask of any length and gathering from there; how many tokens of the first chunk are masked out |
| `CacheEngine.LMCacheEngine.AssembleResult` | LMCache/lmcache/cache_engine.py:413-463 | cutting the first chunk, joining the rest, the result mask and the token count attributed to every chunk |
| `CacheEngine.LMCacheEngine.ResultMask` | LMCache/lmcache/cache_engine.py:368-452 | the in-place writes to the mask leave it true exactly on [skip, skip + count) |
| `CacheEngine.LMCacheEngine.Retrieve` | LMCache/lmcache/cache_engine.py:333-467 | the whole result, the backend left, and the hit and miss counters, for a mask of any length; masked-out tokens are misses exactly when nothing is found |
| `CacheCoherence.NextCoherent` | LMCache/lmcache/cache_engine.py:243-467 | every store, retrieve, client change, worker put and eviction keeps every stored and queued entry equal to the recomputed KV of its prefix |
| `CacheCoherence.RunCoherent` | LMCache/lmcache/cache_engine.py:243-467 | coherence holds over every run |
| `CacheCoherence.GatherIsFullKV` | LMCache/lmcache/cache_engine.py:381-394 | the gathered chunks join up to the recomputed KV of one unbroken range |
| `CacheCoherence.AssembleTiles` | LMCache/lmcache/cache_engine.py:420-452 | cutting masked-out tokens off the first chunk leaves exactly the range after the skip, aligned or not |
| `CacheCoherence.AssembleBeyond` | LMCache/lmcache/cache_engine.py:420-452 | a mask that skips beyond the end leaves nothing, even if a partial last chunk is found |
| `CacheCoherence.RetrieveIsRecomputation` | LMCache/lmcache/cache_engine.py:333-467 | on a coherent cache a retrieve is the recomputed KV of [skip, skip + n), the mask is true exactly there, and skip + n is where the stored chunks end, with worker puts and evictions in between |
| `CacheCoherence.RetrieveAfterAnyRun` | LMCache/lmcache/cache_engine.py:333-467 | the same after any run from an empty cache |
| `CacheSharing.LookupAligned` | LMCache/lmcache/cache_engine.py:482-492 | a lookup answers the full length or a multiple of the chunk size |
| `CacheSharing.LookupAgreesWithRetrieve` | LMCache/lmcache/storage_backend/local_backend.py:625-639 | with a quiet background, lookup equals the retrieved token count if and only if the client is neither missing nor anonymous, or nothing is stored |
| `CacheSharing.SameChunkKey` | LMCache/lmcache/cache_engine.py:93-103 | two sequences share a chunk key only inside their common prefix, and only for a full chunk unless they are equal |
| `CacheSharing.StoreThenLookup` | LMCache/lmcache/cache_engine.py:243-327 | from any state, after storing A a lookup of any B finds at least the common whole chunks, all of B if B = A, and no less than before |
| `CacheSharing.ExactSharing` | LMCache/lmcache/cache_engine.py:470-492 | after storing A into an empty cache, a lookup of B is |A| if B = A and floor(lcp / chunk_size) * chunk_size otherwise |
| `CacheSharing.QueuedStoreThenLookup` | LMCache/lmcache/storage_backend/local_backend.py:675-739 | from any state, after a store that is only queued and as many undisturbed puts of the worker as are queued, a lookup meets the bounds of a blocking store |
| `CacheSharing.ExactQueuedSharing` | LMCache/lmcache/storage_backend/local_backend.py:675-739 | the same into an empty cache, with the exact length of `ExactSharing` |
| `PagedPrefill.ForwardSeqComputes` | lmcache-vllm/lmcache_vllm/vllm_injection.py:48-72 | running a sequence from any position up to which memory holds its KV stores the KV of the rest and outputs their rows |
| `PagedPrefill.ForwardCompletes` | lmcache-vllm/lmcache_vllm/vllm_injection.py:48-72 | the same for a batch, each sequence from its own position, the others undisturbed |
| `PagedPrefill.HoldsPreserved` | lmcache-vllm/lmcache_vllm/vllm_injection.py:48-72 | filling one request's slots takes nothing from another, shared slots included |
| `PagedPrefill.CompleteUnique` | lmcache-vllm/lmcache_vllm/vllm_injection.py:48-72 | two memories that hold all of a batch's KV and differ from the start only in its slots are equal |
| `PagedPrefill.PrefillMeaning` | lmcache-vllm/lmcache_vllm/vllm_injection.py:48-72 | running any input that describes the batch from some positions completes it, and the selected rows are each sequence's last |
| `PagedPrefill.RewritePreservesMeaning` | lmcache-vllm/lmcache_vllm/vllm_adapter.py:719-845 | two inputs describing the same batch from different positions give equal memory and equal sampled rows, also when requests share slots of an equal prefix that is still to be computed |
| `Adapter.ReshapeAndCache` | vllm-0.6.2/csrc/cache_kernels.cu:207-247 | token j is written to slot j of the mapping, nothing else changes |
| `Adapter.InjectReady` | lmcache-vllm/lmcache_vllm/vllm_adapter.py:657-680 | injecting recomputed KV moves one sequence's starting position and takes nothing from any other sequence |
| `Adapter.WindowsPartition` | lmcache-vllm/lmcache_vllm/vllm_adapter.py:657-682 | the injected slots and the recomputed slots of a sequence partition its window without gap or overlap |
| `Adapter.RebuildOne` | lmcache-vllm/lmcache_vllm/vllm_adapter.py:750-786 | one round of the rebuild appends the last tokens of a sequence at the last positions and slots of its window, with a positive query length |
| `Adapter.BuildingBuilt` | lmcache-vllm/lmcache_vllm/vllm_adapter.py:750-786 | after any number of rounds the lists hold one window per plan between prefix-sum starts, the selected rows are last rows, and the counts and the maximum are right |
| `Adapter.BuildPartialPrefillInput` | lmcache-vllm/lmcache_vllm/vllm_adapter.py:719-845 | the rebuilt input is made of those lists, with sequence lengths and tables unchanged, for any plans |
| `Adapter.RebuiltPrefills` | lmcache-vllm/lmcache_vllm/vllm_adapter.py:750-845 | the rebuilt input of a batch of prompts counts every sequence and every token as prefill |
| `Adapter.Call.FoundFits` | lmcache-vllm/lmcache_vllm/vllm_adapter.py:588-607 | on a coherent cache what is found for a sequence is a slice of the recomputed KV past the tokens taken for computed, no longer than its window, and the cache stays coherent |
| `Adapter.ReadSequence` | lmcache-vllm/lmcache_vllm/vllm_adapter.py:563-588 | the tokens taken for a sequence, in chunked prefill those in the batch and otherwise all there are, and how many of them are taken for computed |
| `Adapter.FetchKv` | lmcache-vllm/lmcache_vllm/vllm_adapter.py:588-607 | the adapter's mask and sum recover what the engine returns past the computed tokens, with its length and its keys |
| `Adapter.MakePlan` | lmcache-vllm/lmcache_vllm/vllm_adapter.py:604-626 | what is recorded of a sequence: everything found, less the last token outside chunked prefill |
| `Adapter.Inject` | lmcache-vllm/lmcache_vllm/vllm_adapter.py:657-680 | the paged cache holds what was found from the start of the window on, unless nothing of it is used |
| `Adapter.RetrieveOne` | lmcache-vllm/lmcache_vllm/vllm_adapter.py:556-682 | one sequence of the loop: the plan, paged memory and the backend it leaves, for any sequence of any batch |
| `Adapter.RetrieveNext` | lmcache-vllm/lmcache_vllm/vllm_adapter.py:556-690 | one round keeps the state of the loop, which says what the retrieves so far have found and injected, or gives the batch up |
| `Adapter.RetrieveAll` | lmcache-vllm/lmcache_vllm/vllm_adapter.py:556-690 | the loop over all sequences and its three exits, for any batch |
| `Adapter.RetrieveKv` | lmcache-vllm/lmcache_vllm/vllm_adapter.py:482-717 | the input that is run, whether the run is skipped, the keys, paged memory and the backend, as what the retrieves find one after the other, for any batch; outside chunked prefill the query of a sequence is shorter by all that was found, or one token if everything was, and all that was found is in its slots |
| `Adapter.RunLeavesOut` | lmcache-vllm/lmcache_vllm/vllm_adapter.py:750-786 | whatever was found, the input that is run has for every sequence its window less what was found, or one token if everything was found |
| `Adapter.FoundInSlots` | lmcache-vllm/lmcache_vllm/vllm_adapter.py:657-682 | where slots are distinct, every slot of what was found holds the recomputed KV of its token once the loop is done |
| `Adapter.Call.UsableAll` | lmcache-vllm/lmcache_vllm/vllm_adapter.py:615-694 | in chunked prefill the run is skipped if and only if all of every sequence was found |
| `Rewriting.SelectTokenIndices` | vllm-0.6.2/vllm/model_executor/sampling_metadata.py:243-308 | the selected rows: all of a prompt with log probabilities, otherwise the last one of a sequence that the batch finishes, and none of an unfinished one |
| `Rewriting.WholeSelectsLast` | lmcache-vllm/lmcache_vllm/vllm_adapter.py:249-258 | if the batch finishes every sequence and selects as many rows as there are sequences, they are the last rows |
| `Rewriting.MemReady` | lmcache-vllm/lmcache_vllm/vllm_adapter.py:556-682 | where the sequences are what they are taken for, memory is ready for every request at the position where its plan starts, whatever was found |
| `Rewriting.MemFound` | lmcache-vllm/lmcache_vllm/vllm_adapter.py:657-682 | also where requests share slots, memory holds each request as far as it was computed and found |
| `Rewriting.RebuiltDescribes` | lmcache-vllm/lmcache_vllm/vllm_adapter.py:719-845 | and the rebuilt input describes the same requests from those positions |
| `Rewriting.RunSampleable` | lmcache-vllm/lmcache_vllm/vllm_adapter.py:719-845 | whatever was found, for any batch, the input that is run has windows within its tables and selects rows that exist |
| `Rewriting.FullPrefillRun` | lmcache-vllm/lmcache_vllm/vllm_injection.py:48-133 | a batch that finishes every sequence, or has one token of each, leaves the same memory and the same sampled rows with the cache as without, whatever is found |
| `Rewriting.ChunkRun` | lmcache-vllm/lmcache_vllm/vllm_adapter.py:615-694 | in chunked prefill a skipped run is one with nothing left to do, and any other one can be run as it was |
| `FullPrefill.InvisibleIff` | lmcache-vllm/lmcache_vllm/vllm_adapter.py:249-258 | a layout of prompts that is taken for a full prefill leaves memory, and likewise rows, as without the cache, for every batch of the layout, every model and every coherent cache, if and only if it finishes every prompt or has a single token of each |
| `FullPrefill.StatusIff` | lmcache-vllm/lmcache_vllm/vllm_adapter.py:244-258 | a batch of a layout is taken for a full prefill if and only if it has as many sampled rows as sequences, and for a chunk if and only if it has none |
| `FullPrefill.FinishedTaken` | lmcache-vllm/lmcache_vllm/vllm_adapter.py:251-258 | a batch that ends every prompt, without log probabilities, is taken for a full prefill |
| `FullPrefill.DecodeNotRetrieved` | lmcache-vllm/lmcache_vllm/vllm_adapter.py:241-245 | a batch with a sequence that is no prompt is not retrieved for |
| `FullPrefill.UnfinishedShows` | lmcache-vllm/lmcache_vllm/vllm_adapter.py:563-626 | any layout that leaves a prompt unfinished and has more than one token of some prompt has a batch and a cache for which memory and rows are wrong |
| `FullPrefill.UnfinishedBesideLogprobs` | vllm-0.6.2/vllm/model_executor/sampling_metadata.py:281-308 | an unfinished prompt beside a finished one with two rows of log probabilities is taken for a full prefill and goes wrong |
| `FullPrefill.UnfinishedTokenBesidePrompt` | vllm-0.6.2/vllm/model_executor/sampling_metadata.py:281-308 | so does one unfinished token with log probabilities beside a finished prompt, although the selected rows are last rows |
| `FullPrefill.UnfinishedTokenAlone` | vllm-0.6.2/vllm/model_executor/sampling_metadata.py:281-308 | a single unfinished token is taken for a full prefill without harm |
| `Storing.ComputeSlotMapping` | vllm-0.6.2/vllm/attention/backends/utils.py:80-116 | the slot of every position from the context length on, by its block and offset |
| `Storing.SlotsOfBlock` | vllm-0.6.2/vllm/attention/backends/utils.py:80-116 | the slots of a block follow one another from its start on |
| `Storing.ReadPaged` | lmcache-vllm/lmcache_vllm/vllm_adapter.py:438-465 | what paged memory holds in the slots of the positions after the skip |
| `Storing.StoreKv` | lmcache-vllm/lmcache_vllm/vllm_adapter.py:432-475 | the backend that lookup-then-store of a given length leaves, whatever memory holds; no check of the engine fails other than an invalid format, with background work in between |
| `Storing.StoreOnlyQueues` | lmcache-vllm/lmcache_vllm/vllm_adapter.py:466-475 | a store leaves the dictionary alone and what was queued in front, and for an anonymous client does nothing |
| `Storing.StoredArrives` | lmcache-vllm/lmcache_vllm/vllm_adapter.py:432-475 | once the worker has been through the queue, a lookup finds all of what the adapter stored and of any other tokens at least the whole chunks in common, and no less than before |
| `Storing.StoredExactly` | lmcache-vllm/lmcache_vllm/vllm_adapter.py:432-475 | into an empty cache: exactly the whole chunks in common, or all if the tokens are the same |
| `Storing.StoredIsRetrieved` | lmcache-vllm/lmcache_vllm/vllm_adapter.py:432-475 | a retrieve by an identified client then returns that many tokens, with the recomputed KV |
| `Storing.StoreCausalIff` | lmcache-vllm/lmcache_vllm/vllm_adapter.py:425-475 | storing a given length of a sequence keeps every coherent cache coherent, for every model and memory, if and only if it is no more than is computed, or nothing is stored at all |
| `Storing.ShouldStore` | lmcache-vllm/lmcache_vllm/vllm_adapter.py:315-351 | the status of every sequence, in a batch of prompts by its sampled row, in any other batch by its length in the batch |
| `Storing.StatusIff` | lmcache-vllm/lmcache_vllm/vllm_adapter.py:315-351 | which sequences are stored and as what: all of a batch of prompts; of any other batch only with caching of decoded tokens on, and those whose length in the batch is a whole number of chunks |
| `Storing.NothingStored` | lmcache-vllm/lmcache_vllm/vllm_adapter.py:315-351 | without caching of decoded tokens, a batch that is not all prompts stores nothing |
| `Storing.DecodedStored` | lmcache-vllm/lmcache_vllm/vllm_adapter.py:405-479 | with it, a batch whose sequences all end in it after whole chunks stores all of them |
| `Storing.StoreAll` | lmcache-vllm/lmcache_vllm/vllm_adapter.py:405-479 | the store loop with its index that moves on only when something is stored: which sequences are stored, up to which length, and the backend left |
| `Storing.StoresComputedIff` | lmcache-vllm/lmcache_vllm/vllm_adapter.py:315-431 | no sequence is stored beyond what the batch has computed if and only if the batch is one of prompts, or every sequence it stores ends in it |
| `Storing.ChunkBesideDecode` | lmcache-vllm/lmcache_vllm/vllm_adapter.py:347-350 | half of a prompt beside a decoding sequence: the whole prompt is stored |
| `Storing.StuckAtUnstored` | lmcache-vllm/lmcache_vllm/vllm_adapter.py:423-431 | once the loop meets a sequence that is not to be stored it stores none after it |
| `Storing.StoredUptoCoherent` | lmcache-vllm/lmcache_vllm/vllm_adapter.py:405-479 | a batch of which no more is stored than was computed leaves the cache coherent |
| `Serving.Retrieve` | lmcache-vllm/lmcache_vllm/vllm_injection.py:52-62 | whether and how a batch is retrieved for, what it leaves out and the backend it leaves, and that running what is left is the run around the cache, for any batch |
| `Serving.ExecuteModel` | lmcache-vllm/lmcache_vllm/vllm_injection.py:48-142 | retrieving, running and storing a batch that meets the two conditions leaves memory and sampled rows as without the cache, and the cache coherent; what was found is left out of the run, and the backend is the one the store loop leaves |
| `Serving.ServeTurn` | lmcache-vllm/lmcache_vllm/vllm_injection.py:48-142 | one turn with the cache equals the same turn without it, and uses and fills the cache |
| `Serving.Serve` | lmcache-vllm/lmcache_vllm/vllm_injection.py:48-142 | over any sequence of such turns from an empty cache, with any background work, memory and sampled rows equal those of a server without a cache, with nothing assumed of what is stored; every turn leaves out what the cache then holds and stores what it ran |
| `Reuse.FoundAsFar` | lmcache-vllm/lmcache_vllm/vllm_adapter.py:588-607 | with a quiet background an identified client finds a sequence at least as far as a lookup says, wherever its window starts |
| `Reuse.PromptReused` | lmcache-vllm/lmcache_vllm/vllm_injection.py:48-142 | after a turn with one prompt, from any state, and once the worker has been through the queue, the next prompt is found at least to the end of the whole chunks in common, and to its end if it is the same |
| `Reuse.SamePromptRunsOneToken` | lmcache-vllm/lmcache_vllm/vllm_injection.py:48-142 | and the same prompt is run again with its last token alone |
| `CostAttribution.Accounting.Attribute` | lmcache-vllm/lmcache_vllm/vllm_adapter.py:628-639 | the nested loops issue every old client its credit and sum up the joiner's share of tokens |
| `CostAttribution.Accounting.ChargeBatch` | lmcache-vllm/lmcache_vllm/vllm_adapter.py:628-655 | the accounting of a whole batch: credits for all sequences, charges only for those never preempted |
| `CostAttribution.RoundIff` | lmcache-vllm/lmcache_vllm/vllm_adapter.py:644-650 | hit tokens are rounded to the nearest integer, and of two that are as near to the even one |
| `CostLedger.SettleIsChargeMinusCredit` | lmcache-vllm/lmcache_vllm/vllm_adapter.py:628-655 | one retrieve on the ledger is its extra misses at the prefill weight if it is charged, minus its credits unless it is dropped |
| `CostLedger.SettleBatchIsReport` | lmcache-vllm/lmcache_vllm/vllm_adapter.py:615-655 | a whole batch on the ledger is what the loop's dictionaries hold, preempted sequences included, and nothing when the batch is abandoned |
| `CostLedger.RunIsBatch` | lmcache-vllm/lmcache_vllm/vllm_adapter.py:556-655 | the ledger after the hits of a batch is the batch settled charge by charge, each charge being what the backend reports when its turn comes |
| `CostLedger.RunIsReport` | lmcache-vllm/lmcache_vllm/vllm_adapter.py:556-655 | what the hits of a batch do to the ledger is what the loop's dictionaries hold |
| `CostLedger.SharesInEveryRun` | lmcache-vllm/lmcache_vllm/vllm_adapter.py:548-655 | in every run, charged or not, a client's net charge is its equal share of every block it ever used plus exactly the excess of the joins |
| `CostLedger.NextFairIff` | lmcache-vllm/lmcache_vllm/vllm_adapter.py:628-655 | from equal shares, an event keeps them if and only if whoever creates or newly shares a block is charged for it |
| `CostLedger.EqualSharesIff` | lmcache-vllm/lmcache_vllm/vllm_adapter.py:548-655 | in a run whose charged hits are charged for whole blocks, shares are equal at every point if and only if everyone who creates or newly shares a block is charged |
| `CostLedger.OneBlockShares` | lmcache-vllm/lmcache_vllm/vllm_adapter.py:548-639 | one creation and any joins by distinct clients leave cost / n with each of the n clients, in any order |
| `CostLedger.JoinFairIff` | LMCache/lmcache/cache_engine.py:454-463 | after a charged join the shares are equal if and only if the join was charged for the block's own token count |
| `CostLedger.SettleOneTotal` | lmcache-vllm/lmcache_vllm/vllm_adapter.py:628-655 | a charged share is exactly the credits issued for it; an uncharged one is credited as well |
| `CostLedger.TotalInEveryRun` | lmcache-vllm/lmcache_vllm/vllm_adapter.py:628-655 | in every run net charges grow by what creators were charged minus the shares of uncharged joins |
| `CostLedger.ConservedIff` | lmcache-vllm/lmcache_vllm/vllm_adapter.py:628-655 | net charges add up to what creators were charged if and only if no uncharged hit newly shared a block |
| `CostLedger.PreemptedJoinUnpaid` | lmcache-vllm/lmcache_vllm/vllm_adapter.py:641-655 | a preempted sequence newly shares a chunk: 12.8 is credited and nobody pays it |
| `ServedTokens.ServedConserved` | lmcache-vllm/lmcache_vllm/vllm_adapter.py:641-655 | hits plus misses over all clients grow by the total length of the sequences never preempted |
| `ServedTokens.AdjustmentBound` | lmcache-vllm/lmcache_vllm/vllm_adapter.py:644-650 | rounding moves the adjusted hits by at most half a token from the exact ones |
| `ServedTokens.InRangeIff` | lmcache-vllm/lmcache_vllm/vllm_adapter.py:641-655 | adjusted hits stay in [0, computed] for every pattern of sharing if and only if half of the attributed tokens, rounded, is at most the computed tokens |
| `ServedTokens.AttributedOvercount` | LMCache/lmcache/cache_engine.py:454-463 | the tokens a retrieve attributes exceed the retrieved ones by exactly the padding of a partial last chunk |
| `ServedTokens.RetrieveInRangeIff` | lmcache-vllm/lmcache_vllm/vllm_adapter.py:641-655 | the adjusted hits of a retrieve are in range for every pattern of sharing if and only if half of the retrieved tokens and padding, rounded, is at most the computed tokens |
| `ServedTokens.FullChunksInRange` | lmcache-vllm/lmcache_vllm/vllm_adapter.py:641-655 | when a retrieve ends on a chunk boundary, its adjusted hits are in range for every pattern of sharing, also when a full hit leaves one token to compute |
| `ServedTokens.PartialChunkOutOfRange` | LMCache/lmcache/cache_engine.py:458-463 | a partial chunk newly shared gives -128 hits |
| `ChargeQueue.CPIReqQueue.UpdatePrefillServed` | vllm-0.6.2/vllm/core/cpi_req_queue.py:141-165 | the two loops: credits are added, then spent before the score grows |
| `ChargeQueue.ChargeSpends` | vllm-0.6.2/vllm/core/cpi_req_queue.py:141-156 | a charge spends the credit as far as it goes, and only what is beyond it goes on the score |
| `ChargeQueue.ReportSpends` | vllm-0.6.2/vllm/core/cpi_req_queue.py:141-156 | the same for a whole report, whose credits are added first: a score rises only if the credit ends at zero |
| `ChargeQueue.CreditsNeverNegative` | vllm-0.6.2/vllm/core/cpi_req_queue.py:141-156 | over every run of reports that issue no negative credit, no client's credit is negative |
| `ChargeQueue.BalanceInEveryRun` | vllm-0.6.2/vllm/core/cpi_req_queue.py:141-165 | over every run of reports a client's score minus its credits grows by exactly its costs minus its credits, and scores never fall |
| `ChargeQueue.AttributionCharge` | vllm-0.6.2/vllm/core/cpi_req_queue.py:141-165 | attribution adds the difference of the two weights for every token moved from hit to miss |
| `BoardTotals.BatchCredits` | lmcache-vllm/lmcache_vllm/vllm_adapter.py:628-639 | the credits of a batch add up to its shares at the prefill weight, preempted sequences included |
| `BoardTotals.BatchOnBoard` | vllm-0.6.2/vllm/core/cpi_req_queue.py:141-165 | a batch moves the total balance by its base costs plus what attribution adds minus the credits it issues |
| `BoardTotals.ExtraIsMoved` | vllm-0.6.2/vllm/core/cpi_req_queue.py:141-165 | what attribution adds is the difference of the weights for every token of the rounded shares |
| `BoardTotals.NeutralIff` | vllm-0.6.2/vllm/core/cpi_req_queue.py:141-165 | attribution is neutral in total if and only if the rounded charged shares at the difference of the weights pay for all shares at the prefill weight |
| `BoardTotals.DefaultWeightsNeutralIff` | vllm-0.6.2/vllm/core/cpi_req_queue.py:13-17 | with the default weights a single charged sequence is neutral if and only if its shares are 0, 0.8 or 1.6 tokens |
| `LruModel.PutEvictsAtMostOne` | vllm-0.6.2/vllm/utils.py:213-251 | a put into a cache within its capacity puts the key at the end, never finds all pinned, and evicts at most one entry: the one at a position that is unpinned while every earlier one is pinned, counting the new entry |
| `LruModel.RemoveOldestAt` | vllm-0.6.2/vllm/utils.py:233-247 | which position is removed: the first unpinned one, or the first if pins do not matter; and an error if and only if all are pinned |
| `LruModel.EvictToAt` | vllm-0.6.2/vllm/utils.py:249-251 | evicting goes on with the first unpinned position until the capacity is met |
| `LruModel.UseMovesToEnd` | vllm-0.6.2/vllm/utils.py:199-211 | using a key moves it to the end and leaves the others in their order |
| `LruCache.LRUCache.Put` | vllm-0.6.2/vllm/utils.py:213-216 | the whole new state; never an error within the capacity |
| `LruCache.LRUCache.RemoveOldIfNeeded` | vllm-0.6.2/vllm/utils.py:249-251 | the loop evicts until the capacity is met or all are pinned |
| `LruCache.LRUCache.RemoveOldest` | vllm-0.6.2/vllm/utils.py:233-247 | removes the oldest unpinned entry, or the oldest, or reports that all are pinned |
| `LruCache.LRUCache.Clear` | vllm-0.6.2/vllm/utils.py:265-268 | terminates with no entry and no pin |
| `LruRuns.AfterWithin` | vllm-0.6.2/vllm/utils.py:202-268 | every operation keeps size within capacity and pins present; all-pinned is reported if and only if an explicit removal meets only pinned entries |
| `LruRuns.RunWithin` | vllm-0.6.2/vllm/utils.py:202-268 | the same over every run |
| `LruRuns.EvictBoth` | vllm-0.6.2/vllm/utils.py:233-251 | evicting from both caches keeps the smaller one included |
| `LruRuns.StackInclusion` | vllm-0.6.2/vllm/utils.py:202-268 | after any trace of puts, gets and pops the smaller cache holds a subset of the larger, with equal values and recency order |
| `LruRecency.RecencyOrder` | vllm-0.6.2/vllm/utils.py:199-268 | after any run, with pins, removals and evictions, the keys present are in the order in which they were last used, and hold the values they were last put with |
| `LruRecency.PinnedStays` | vllm-0.6.2/vllm/utils.py:218-247 | a pinned entry stays over any run in which it is not popped, the cache is not cleared, and no oldest entry is removed in spite of its pin |
| `AsyncMerge.NextInv` | vllm-0.6.2/vllm/utils.py:460-501 | every step keeps one outstanding future per live iterator, and the output an interleaving without loss or duplication |
| `AsyncMerge.MergeIsInterleaving` | vllm-0.6.2/vllm/utils.py:460-501 | in every run the output of an iterator is a prefix of it, in order, and a live iterator has exactly one future, for its next item |
| `AsyncMerge.FinishedYieldsEverything` | vllm-0.6.2/vllm/utils.py:460-501 | a run that finishes uncancelled yields every item |
| `AsyncMerge.NeverStuck` | vllm-0.6.2/vllm/utils.py:460-501 | short of a final state something other than cancellation or a timeout can happen |
| `AsyncMergeTermination.StepDecreases` | vllm-0.6.2/vllm/utils.py:460-501 | every step but an expired timeout brings the merge closer to its end |
| `AsyncMergeTermination.TimeoutStays` | vllm-0.6.2/vllm/utils.py:460-501 | an expired timeout changes nothing |
| `AsyncMergeTermination.MergeTerminates` | vllm-0.6.2/vllm/utils.py:460-501 | over iterators that stop or raise at some point every run has at most three steps per item and iterator, not counting expired timeouts |
| `SequenceState.SequenceData.UpdateNumComputedTokens` | vllm-0.6.2/vllm/sequence.py:299-306 | the count is raised before its check, which fails if and only if it is beyond the length; the stage moves on when all is computed |
| `SequenceState.SequenceGroupMetadata.ApplyDelta` | vllm-0.6.2/vllm/sequence.py:1021-1029 | sequence deltas are applied before the request id is checked, the group's fields after |
| `SequenceState.DeltasReachTheirSequences` | vllm-0.6.2/vllm/sequence.py:1021-1029 | deltas can be applied if and only if every one is for a known sequence; then a sequence that has one gets just that, and one that has none stays as it is |
| `Replication.DeltasReplicate` | vllm-0.6.2/vllm/sequence.py:266-348 | in every run of appends, updates and sends the worker's output plus the pending tokens is the driver's output, and both agree on everything after a send |
| `Replication.AppendsAddUp` | vllm-0.6.2/vllm/sequence.py:266-270 | in every run the output grows by exactly the appended tokens in their order, the log probability by their sum and the computed count by the updates |
| `Replication.DecodesIff` | vllm-0.6.2/vllm/sequence.py:299-306 | in every run a sequence decodes if and only if some update has computed all it then had |
| `Replication.ResetKeepsSyncIff` | vllm-0.6.2/vllm/sequence.py:308-315 | a reset keeps the copy synced if and only if no token is pending |
| `Replication.PreemptedStartsOver` | vllm-0.6.2/vllm/sequence.py:308-315 | a preempted sequence has everything to compute again, its output included |
| `Replication.FullCopySyncsIff` | vllm-0.6.2/vllm/core/scheduler.py:1261-1321 | a full copy agrees at once; deltas after it are right if and only if no token was pending |
| `Replication.RoundKeeps` | vllm-0.6.2/vllm/core/scheduler.py:1261-1321 | every scheduling round and preemption keeps the invariant, and the worker runs on the driver's state |
| `Replication.SchedulerReplicates` | vllm-0.6.2/vllm/sequence.py:299-348 | over every run of chunked prefill, decoding and preemption the fast path counts new tokens right and the computed count stays in range |
| `Replication.NewSequenceBetween` | vllm-0.6.2/vllm/sequence.py:139-200 | a new sequence starts such a run |
| `TextStreaming.FirstStopOccurs` | vllm-0.6.2/vllm/engine/output_processor/stop_checker.py:87-117 | what the windowed search finds is the leftmost occurrence in the window, and finding nothing means there is none |
| `TextStreaming.TokenEndsIff` | vllm-0.6.2/vllm/engine/output_processor/stop_checker.py:28-85 | for every token, exactly when the sequence is stopped, capped or goes on: by the minimum length, the end and stop tokens, a stop string in its window, and the two limits |
| `TextStreaming.TokenText` | vllm-0.6.2/vllm/engine/output_processor/stop_checker.py:28-117 | and the text it leaves: with or without the text of a stop token, or up to the start or the end of the leftmost occurrence of the first listed stop string that occurs |
| `TextStreaming.FinishedStays` | vllm-0.6.2/vllm/engine/output_processor/multi_step.py:166-177 | a finished sequence takes no further token |
| `TextStreaming.ReadReleases` | vllm-0.6.2/vllm/sequence.py:493-510 | a read releases all text but the hold-back, and all of it once the sequence is finished |
| `TextStreaming.StopStartsLate` | vllm-0.6.2/vllm/sampling_params.py:268-271 | a stop string is found no further back than where the old text could end with it |
| `TextStreaming.TokenKeepsPrefixIff` | vllm-0.6.2/vllm/engine/output_processor/stop_checker.py:28-117 | released text stays a prefix if and only if the check does not find a longest stop string that already ended the text |
| `TextStreaming.HoldBackSuffices` | vllm-0.6.2/vllm/sequence.py:493-510 | with no check skipped, released text is always a prefix of the text and equals it once a finished sequence is read |
| `TextStreaming.ReleasesGrow` | vllm-0.6.2/vllm/sequence.py:493-510 | releases only grow |
| `TextStreaming.SkippedCheckCutsReleased` | vllm-0.6.2/vllm/engine/output_processor/stop_checker.py:43-45 | a skipped check lets a released character be cut |
| `HoldBack.EndAlone` | vllm-0.6.2/vllm/engine/output_processor/stop_checker.py:87-117 | a search that finds the end of the old text finds it also with one following character alone |
| `HoldBack.EarlierSuffixProtects` | vllm-0.6.2/vllm/engine/output_processor/stop_checker.py:87-117 | a stop string is never found late when a suffix of it is listed before it |
| `HoldBack.AlwaysKeptIff` | vllm-0.6.2/vllm/sampling_params.py:268-271 | released text is a prefix of the text in every run if and only if no check can be skipped, or stop strings are kept, or no longest stop string can be found late: decided by the parameters alone |
| `TokenStreaming.DeltaExactIff` | vllm-0.6.2/vllm/sequence.py:512-531 | a delta is the new tokens if and only if there are any; with none it is the whole list |
| `TokenStreaming.StreamingLossless` | vllm-0.6.2/vllm/outputs.py:161-180 | with a new token before every read, streamed tokens and log probabilities are the output's, position by position, and the prompt is streamed once |
| `TokenStreaming.StreamingComplete` | vllm-0.6.2/vllm/outputs.py:161-180 | after a last read nothing is missing |
| `SequenceOutput.SamplingParams.PostInit` | vllm-0.6.2/vllm/sampling_params.py:242-271 | the normalised stop strings and a hold-back that meets what streaming relies on, or the first failing validation |
| `SequenceOutput.Sequence.AddTextAndMaybeStop` | vllm-0.6.2/vllm/engine/output_processor/stop_checker.py:28-85 | the checks in their order and the text and status they leave |
| `SequenceOutput.Sequence.CheckStopStrings` | vllm-0.6.2/vllm/engine/output_processor/stop_checker.py:87-117 | the loop finds the first listed stop string in its window and cuts there |
| `SequenceOutput.Sequence.GetOutputTextToReturn` | vllm-0.6.2/vllm/sequence.py:493-510 | one delta read of the text and its offset, also when the text was cut below it |
| `SequenceOutput.Sequence.GetOutputTokenIdsToReturn` | vllm-0.6.2/vllm/sequence.py:512-531 | one delta read of the tokens and its offset, also with nothing new |
| `SequenceOutput.FromSeqGroup` | vllm-0.6.2/vllm/outputs.py:161-235 | text and token deltas of all sequences of a group, aligned log probabilities if asked for, and whether the prompt goes along |
| `Strings.SplitUndoesJoinIff` | lmcache-vllm/lmcache_vllm/blend_adapter.py:132-144 | splitting undoes joining if and only if the separator is first met at the end of each part |
| `Strings.JoinUndoesSplit` | lmcache-vllm/lmcache_vllm/vllm_injection.py:260-280 | joining always undoes splitting |
| `Strings.SafeSeparatorIff` | lmcache-vllm/lmcache_vllm/blend_adapter.py:132-144 | a separator splits every list of free parts back if and only if it has no border |
| `Strings.StripExample` | LMCache/lmcache/protocol.py:43-46 | whitespace of any kind is taken off both ends, and only whitespace |
| `Replacing.ReplaceAcross` | lmcache-vllm/lmcache_vllm/vllm_injection.py:226-239 | a separator a pattern cannot straddle cuts a replacement in two |
| `Replacing.ReplaceKeepsFree` | lmcache-vllm/lmcache_vllm/vllm_injection.py:226-239 | a replacement makes up no separator that no replacement can end in |
| `Replacing.OverlapBreaks` | lmcache-vllm/lmcache_vllm/vllm_injection.py:226-239 | where separator and pattern can overlap, some chunks join to a prompt that loses the pattern and does not split back |
| `Replacing.ReplacementBreaks` | lmcache-vllm/lmcache_vllm/vllm_injection.py:226-239 | where a replacement can end in the separator, some chunk without it has it after the replacement |
| `Blend.TokenizeChunks` | lmcache-vllm/lmcache_vllm/vllm_injection.py:358-386 | the loop concatenates the chunks' encodings and texts and records where the encodings meet |
| `Blend.SlicesAreEncodings` | lmcache-vllm/lmcache_vllm/vllm_injection.py:260-280 | slicing the ids at the indices gives each chunk's encoding |
| `Blend.TokenizePrompt` | lmcache-vllm/lmcache_vllm/vllm_injection.py:241-285 | ids and indices of a patched prompt, with blending and without |
| `Blend.SplitUndoesCombine` | lmcache-vllm/lmcache_vllm/blend_adapter.py:132-144 | with a safe separator, splitting the joined and patched prompt gives the chunks as the patch leaves them, for every model family |
| `Blend.AlwaysSplitsIff` | lmcache-vllm/lmcache_vllm/vllm_injection.py:226-280 | for every model family, a separator always splits back if and only if it has no border and the padding neither holds nor completes it, or it overlaps no replaced text and no replacement can end in it |
| `Blend.SpaceSeparatorFails` | lmcache-vllm/lmcache_vllm/vllm_injection.py:226-239 | a separator without a border that fails because it overlaps what is replaced |
| `Blend.BracketSeparatorFails` | lmcache-vllm/lmcache_vllm/vllm_injection.py:226-239 | a separator without a border that fails because a replacement can end in it |
| `Blend.DefaultSeparatorIsSafe` | LMCache/lmcache/config.py:36 | the default separator is safe for every model family |
| `Blend.AppendJoins` | lmcache-vllm/lmcache_vllm/blend_adapter.py:205-217 | appending the separator and a chunk is joining one chunk more |
| `Blend.PrecomputedChunksReappear` | lmcache-vllm/lmcache_vllm/blend_adapter.py:146-202 | every slice of a blended prompt is what was precomputed for its chunk |
| `Utf8.DecodesIff` | LMCache/lmcache/protocol.py:27-46 | bytes decode to a text if and only if they are its encoding |
| `Utf8.PrefixOfEncoding` | LMCache/lmcache/protocol.py:27-46 | a cut encoding can only decode to a prefix of the text |
| `Utf8.EncodedExamples` | LMCache/lmcache/protocol.py:38-40 | texts from section 7 of RFC 3629 have the bytes given there |
| `KeyCodec.ParseIntOfDecimal` | LMCache/lmcache/utils.py:52-62 | a printed integer is read back |
| `KeyCodec.ReadExamples` | LMCache/lmcache/utils.py:56-62 | signs, whitespace around and single underscores are read |
| `KeyCodec.RefusedExamples` | LMCache/lmcache/utils.py:56-62 | and other texts are refused |
| `KeyCodec.KeyText` | LMCache/lmcache/utils.py:52-54 | what a key looks like as text |
| `KeyCodec.DecimalShortest` | LMCache/lmcache/utils.py:56-62 | no text that parses to an integer is shorter than its printed form |
| `KeyCodec.ParsedKey` | LMCache/lmcache/utils.py:56-62 | a parsed key holds no separator and its text is no longer than what was parsed |
| `KeyCodec.KeyRoundTripIff` | LMCache/lmcache/utils.py:52-62 | a key survives its text form if and only if no string field holds the separator |
| `KeyCodec.TextIdentifiesKey` | LMCache/lmcache/utils.py:52-54 | keys with equal texts are equal when formats and digests are separator-free, whatever the model names |
| `KeyCodec.EngineKeys` | LMCache/lmcache/utils.py:36-62 | keys of the engine have texts of their own, and come back from them if and only if the model name is separator-free |
| `KeyCodec.SeparatorsCollide` | LMCache/lmcache/utils.py:52-54 | a hypothetical format that holds the separator can share its text with another key |
| `KeyCodec.ReserializeStable` | LMCache/lmcache/utils.py:52-62 | rewriting a parsed text in canonical form does not change its key |
| `Protocol.UnpackUndoesPack` | LMCache/lmcache/protocol.py:27-46 | a 32-bit integer survives its four bytes |
| `Protocol.PackUndoesUnpack` | LMCache/lmcache/protocol.py:27-46 | and four bytes survive their integer |
| `Protocol.ServerFramesIff` | LMCache/lmcache/protocol.py:58-69 | server messages with 32-bit fields and 8-byte frames stand for one another, one to one |
| `Protocol.FrameBytes` | LMCache/lmcache/protocol.py:27-41 | what a frame looks like byte by byte: command, length and key, low bytes first, blanks behind the key |
| `Protocol.FieldOfOverlong` | LMCache/lmcache/protocol.py:31-41 | a key cut to its field decodes, if at all, to a strictly shorter prefix |
| `Protocol.Received` | LMCache/lmcache/protocol.py:27-46 | what is read from a serialised message, for fitting and for overlong keys |
| `Protocol.ClientRoundTripIff` | LMCache/lmcache/protocol.py:27-46 | a client message survives the wire if and only if its numbers are 32-bit and its key fits the field without whitespace at its ends |
| `Protocol.KeySurvivesIff` | LMCache/lmcache/utils.py:52-62 | a cache key survives text form and wire if and only if numbers are 32-bit, fields are separator-free and the text fits without whitespace at its ends |

## Left out

- Storage pools, eviction policy and per-client quotas of the fair backend: any eviction and any failed put may happen at any step instead.
- SHA-256 itself: collision freedom is assumed, including that no digest is the empty initial hash.
- Tensor layouts, dtypes, layers and tensor parallelism: KV data is one opaque value per token position.
- The model's kernels: the forward pass is one causal step per token over the KV read from paged memory, sequence by sequence; the context of a query token follows from the sequence length, as in flash attention over block tables.
- CacheEngine.LMCacheEngine.Lookup: the background stands still while one lookup, one scan for the first missing chunk or one batched put runs; it moves between them and between any two gets.
- CacheEngine.LMCacheEngine.AssembleResult: hit rate, statistics and the tuple or blob form of the result are not modelled.
- Adapter.RetrieveKv: per-layer injection and the early return under blending are not modelled.
- Adapter.ReshapeAndCache: the kernel's skipping of negative padding slots is not modelled; they do not occur in a prefill batch.
- Adapter.Inject: writes as many tokens as it is given keys, as the kernel does.
- Storing.ComputeSlotMapping: sliding windows, which pad the mapping before their start, are not modelled.
- Serving.Serve: profiling runs, batches processed by CacheBlend and the broadcast between workers are not modelled; turns meet the conditions of `InvisibleIff` and `StoreCausalIff`, and a lone chunk is alone in its batch, as the adapter asserts.
- Storing.StoreKv: the retrieved keys that go along with a store only steer eviction, and are left out.
- CostAttribution.Accounting.ChargeBatch: is the accounting half of the retrieve loop, taken apart from the retrieval half.
- CostLedger.RunIsReport: a hit reads the attribution and registers its client at once; the source takes the lock twice, and the put worker may replace an entry in between.
- CostLedger.EqualSharesIff: shares are exact reals at the attribution weight, before the rounding of served tokens; what the score board's two weights make of them is `AttributionCharge`.
- CostLedger.NextFairIff: a hit that is charged for other token counts than its blocks' can be fair by cancellation between chunks; its exact excess is `SharesInEveryRun`, and `JoinFairIff` decides a single join.
- ChargeQueue.CPIReqQueue.UpdatePrefillServed: the request and token counters, the lifting of new clients and the selection of the next request are not modelled.
- LruCache.LRUCache.Put: the capacity is not negative; with a negative one the eviction loop of the source would not end. Item access and deletion by subscript are thin wrappers and left out.
- AsyncMerge.NextInv: futures and timeouts are steps; the clean-up after cancellation is one step.
- SequenceState.SequenceData.UpdateNumComputedTokens: hashes of token blocks and multi-modal data of a sequence are not modelled.
- SequenceOutput.SamplingParams.PostInit: validations other than those of the stop strings are not modelled.
- SequenceOutput.FromSeqGroup: the choice of the top sequences, finished groups of another output kind, and reuse of cached output objects are not modelled.
- Blend.TokenizePrompt: truncation of a chunk's tokens is part of the encoder.
- KeyCodec.ParseIntOfDecimal: integers are read from ASCII digits; other decimal digits of Unicode are not.
- Protocol.ClientRoundTripIff: integers are little-endian, as on the hosts the source runs on; strings have no lone surrogates.
- CacheBlend execution, connections, logging, metrics, configuration and command lines: I/O and wiring.
