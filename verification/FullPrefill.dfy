/** Which batches may be taken for a full prefill: the adapter goes by the number of selected
    rows alone, and takes every sequence of such a batch to its end. */
module FullPrefill {
  import opened Wrappers
  import opened Chunking
  import opened EngineModel
  import opened CacheCoherence
  import opened CacheSharing
  import opened PagedPrefill
  import opened Adapter
  import opened Rewriting

  /** What a scheduler decides of a prompt: how long it is, how much of it is computed, how
      much of it is in the batch, and whether log probabilities of the prompt are wanted. */
  datatype SeqShape = SeqShape(total: nat, computed: nat, query: nat, logprobs: bool) {
    predicate Valid() {
      query > 0 && computed + query <= total
    }

    /** How many tokens are computed once the batch has run. */
    function Reached(): nat {
      computed + query
    }

    /** How many rows are selected of it. */
    function Rows(): nat {
      if logprobs then query else if Reached() == total then 1 else 0
    }
  }

  type Layout = seq<SeqShape>

  predicate ValidLayout(layout: Layout) {
    layout != [] && forall i :: 0 <= i < |layout| ==> layout[i].Valid()
  }

  function TotalRows(layout: Layout): nat {
    if layout == [] then 0 else TotalRows(layout[..|layout| - 1]) + layout[|layout| - 1].Rows()
  }

  /** The batch selects as many rows as it has sequences. */
  predicate TakenForFull(layout: Layout) {
    TotalRows(layout) == |layout|
  }

  /** The batch reaches the end of every prompt. */
  predicate AllReached(layout: Layout) {
    forall i :: 0 <= i < |layout| ==> layout[i].Reached() == layout[i].total
  }

  predicate AllSingle(layout: Layout) {
    forall i :: 0 <= i < |layout| ==> layout[i].query == 1
  }

  ghost predicate HasShape(shape: SeqShape, info: SeqInfo, req: Request) {
    && |info.tokenIds| == shape.total && |req.tokens| == shape.Reached() && req.computed == shape.computed
    && info.isPrompt && info.promptLogprobs == shape.logprobs
  }

  /** A batch of the layout, with tokens, slots, memory, model and cache of its own. */
  ghost predicate Instance(cfg: Config, layout: Layout, m: Model, mem: Memory, call: Call, reqs: seq<Request>,
                           b: Backend)
  {
    && Matched(call.input, call.infos, reqs) && Ready(m, mem, mem, reqs, ComputedOf(reqs))
    && Coherent(cfg, m.step, b) && call.status == Prefill
    && call.Framed() && call.input.selected == SelectedUpto(call, |call.infos|)
    && |layout| == |reqs| && forall i {:trigger layout[i]} :: 0 <= i < |layout| ==>
                                HasShape(layout[i], call.infos[i], reqs[i])
  }

  /** Running the batch around the cache leaves the memory it would leave without. */
  ghost predicate SameMemory(cfg: Config, m: Model, mem: Memory, call: Call, reqs: seq<Request>, b: Backend)
    requires call.Framed()
  {
    var counts := call.Counts(cfg, b);
    && Runnable(call, reqs, counts, |mem|) && Sampleable(call.input, |mem|)
    && CachedRun(m, mem, call, reqs, counts).0 == Sampled(m, mem, call.input).0
  }

  /** And it hands the sampler the same rows. */
  ghost predicate SameRows(cfg: Config, m: Model, mem: Memory, call: Call, reqs: seq<Request>, b: Backend)
    requires call.Framed()
  {
    var counts := call.Counts(cfg, b);
    && Runnable(call, reqs, counts, |mem|) && Sampleable(call.input, |mem|)
    && CachedRun(m, mem, call, reqs, counts).1 == Sampled(m, mem, call.input).1
  }

  /** For every batch of the layout, every model, and whatever the cache holds. */
  ghost predicate MemoryInvisible(cfg: Config, layout: Layout) {
    forall m: Model, mem: Memory, call: Call, reqs: seq<Request>, b: Backend ::
      Instance(cfg, layout, m, mem, call, reqs, b) ==> SameMemory(cfg, m, mem, call, reqs, b)
  }

  ghost predicate RowsInvisible(cfg: Config, layout: Layout) {
    forall m: Model, mem: Memory, call: Call, reqs: seq<Request>, b: Backend ::
      Instance(cfg, layout, m, mem, call, reqs, b) ==> SameRows(cfg, m, mem, call, reqs, b)
  }

  // ---------- layouts for which the cache does not show ----------

  /** The i-th sequence is in the batch as the layout says. */
  ghost predicate Shown(shape: SeqShape, call: Call, i: nat)
    requires call.Framed() && i < |call.infos|
  {
    && call.infos[i].isPrompt && call.infos[i].promptLogprobs == shape.logprobs
    && call.input.seqLens[i] == shape.Reached() && |call.infos[i].tokenIds| == shape.total
    && call.Required(i) == shape.query
  }

  ghost predicate AllShown(layout: Layout, call: Call)
    requires call.Framed()
  {
    |layout| == |call.infos| && forall i {:trigger layout[i]} :: 0 <= i < |layout| ==> Shown(layout[i], call, i)
  }

  lemma InstanceShown(cfg: Config, layout: Layout, m: Model, mem: Memory, call: Call, reqs: seq<Request>, b: Backend,
                      i: nat)
    requires Instance(cfg, layout, m, mem, call, reqs, b) && i < |layout|
    ensures Shown(layout[i], call, i)
  {
    MatchedFramed(call, reqs, |mem|);
    assert HasShape(layout[i], call.infos[i], reqs[i]);
    assert DescribesOne(call.input, i, reqs[i], ComputedOf(reqs)[i]);
  }

  /** As many rows are selected as the layout says. */
  lemma {:induction false} SelectedCount(layout: Layout, call: Call, n: nat)
    requires call.Framed() && AllShown(layout, call) && n <= |layout|
    ensures |SelectedUpto(call, n)| == TotalRows(layout[..n])
  {
    if n > 0 {
      var i := n - 1;
      SelectedCount(layout, call, i);
      assert layout[..n][..i] == layout[..i];
      assert Shown(layout[i], call, i);
      SelectedNext(call, i);
    }
  }

  /** Every batch of such a layout is one that can be taken for a full prefill. */
  lemma ShownFull(layout: Layout, call: Call)
    requires call.Framed() && AllShown(layout, call) && TakenForFull(layout)
    requires AllReached(layout) || AllSingle(layout)
    ensures FullPrefill(call) && |SelectedUpto(call, |call.infos|)| == |call.infos|
  {
    SelectedCount(layout, call, |layout|);
    assert layout[..|layout|] == layout;
    forall i | 0 <= i < |layout|
      ensures AllReached(layout) ==> call.input.seqLens[i] == |call.infos[i].tokenIds|
      ensures AllSingle(layout) ==> call.Required(i) == 1
    {
      assert Shown(layout[i], call, i);
    }
  }

  /** Every batch of such a layout runs as it would without the cache. */
  lemma InstanceSame(cfg: Config, layout: Layout, m: Model, mem: Memory, call: Call, reqs: seq<Request>, b: Backend)
    requires Instance(cfg, layout, m, mem, call, reqs, b) && TakenForFull(layout)
    requires AllReached(layout) || AllSingle(layout)
    ensures SameMemory(cfg, m, mem, call, reqs, b) && SameRows(cfg, m, mem, call, reqs, b)
  {
    forall i | 0 <= i < |layout|
      ensures Shown(layout[i], call, i)
    {
      InstanceShown(cfg, layout, m, mem, call, reqs, b, i);
    }
    ShownFull(layout, call);
    call.CountsFit(cfg, m.step, b);
    FullPrefillRun(m, mem, call, reqs, call.Counts(cfg, b));
  }

  /** A prompt without log probabilities that is finished has one row, so that a batch of such
      prompts is taken for a full prefill. */
  lemma {:induction false} FinishedTaken(layout: Layout)
    requires forall i :: 0 <= i < |layout| ==> layout[i].Reached() == layout[i].total && !layout[i].logprobs
    ensures TakenForFull(layout)
  {
    if layout != [] {
      FinishedTaken(layout[..|layout| - 1]);
    }
  }

  /** How the adapter classifies a batch of the layout: as a full prefill exactly if there are as
      many rows as sequences, and as a chunk exactly if there are none. */
  lemma StatusIff(cfg: Config, layout: Layout, m: Model, mem: Memory, call: Call, reqs: seq<Request>, b: Backend)
    requires Instance(cfg, layout, m, mem, call, reqs, b)
    ensures StatusOf(call.infos, call.input.selected) == Some(Prefill) <==> TakenForFull(layout)
    ensures StatusOf(call.infos, call.input.selected) == Some(ChunkPrefill) <==> TotalRows(layout) == 0
  {
    forall i | 0 <= i < |layout|
      ensures Shown(layout[i], call, i) && call.infos[i].isPrompt
    {
      InstanceShown(cfg, layout, m, mem, call, reqs, b, i);
    }
    SelectedCount(layout, call, |layout|);
    assert layout[..|layout|] == layout;
  }

  /** A batch with a sequence that is no prompt is never retrieved for. */
  lemma DecodeNotRetrieved(infos: seq<SeqInfo>, selected: seq<nat>)
    ensures StatusOf(infos, selected).Some? ==> forall i :: 0 <= i < |infos| ==> infos[i].isPrompt
  {
  }

  // ---------- a model that goes by token and position ----------

  /** It tells whether a token is its position. */
  ghost function LocalModel(a: KV, b: KV, x: Hidden, y: Hidden): Model {
    Model((_, tok, pos) => if tok == pos then a else b, (_, tok, pos) => if tok == pos then x else y)
  }

  lemma ForwardSeqLocal(a: KV, b: KV, x: Hidden, y: Hidden, mem: Memory, table: seq<Slot>, ctx: nat,
                        tokens: seq<Token>, positions: seq<nat>, slots: seq<Slot>)
    requires |tokens| == |positions| == |slots| && ctx + |tokens| <= |table|
    requires InBounds(table, |mem|) && InBounds(slots, |mem|)
    ensures var r := ForwardSeq(LocalModel(a, b, x, y), mem, table, ctx, tokens, positions, slots);
            && (forall j :: 0 <= j < |tokens| ==> r.rows[j] == if tokens[j] == positions[j] then x else y)
            && Preserved(mem, r.mem, slots)
            && (slots != [] ==>
                  var l := |slots| - 1; r.mem[slots[l]] == if tokens[l] == positions[l] then a else b)
    decreases |tokens|
  {
    if tokens != [] {
      var m := LocalModel(a, b, x, y);
      var mem' := mem[slots[0] := m.step(Read(mem, table, ctx), tokens[0], positions[0])];
      ForwardSeqLocal(a, b, x, y, mem', table, ctx + 1, tokens[1..], positions[1..], slots[1..]);
      assert slots == [slots[0]] + slots[1..];
    }
  }

  /** The row that token `j` of the input yields. */
  ghost function RowLocal(x: Hidden, y: Hidden, input: ModelInput, j: nat): Hidden
    requires j < |input.inputTokens| == |input.inputPositions|
  {
    if input.inputTokens[j] == input.inputPositions[j] then x else y
  }

  /** The rows are those of the tokens [lo, hi). */
  ghost predicate RowsLocal(x: Hidden, y: Hidden, input: ModelInput, lo: nat, hi: nat, rows: seq<Hidden>) {
    && lo <= hi <= |input.inputTokens| == |input.inputPositions| && |rows| == hi - lo
    && forall j :: 0 <= j < |rows| ==> rows[j] == RowLocal(x, y, input, lo + j)
  }

  lemma RowsJoin(x: Hidden, y: Hidden, input: ModelInput, lo: nat, mid: nat, hi: nat, first: seq<Hidden>,
                 rest: seq<Hidden>)
    requires RowsLocal(x, y, input, lo, mid, first) && RowsLocal(x, y, input, mid, hi, rest)
    ensures RowsLocal(x, y, input, lo, hi, first + rest)
  {
    forall j | 0 <= j < |first + rest|
      ensures (first + rest)[j] == RowLocal(x, y, input, lo + j)
    {
      if j >= |first| {
        assert (first + rest)[j] == rest[j - |first|];
        assert lo + j == mid + (j - |first|);
      }
    }
  }

  /** What running one window does. */
  lemma WindowLocal(a: KV, b: KV, x: Hidden, y: Hidden, mem: Memory, input: ModelInput, i: nat)
    requires Shaped(input, |mem|) && i < |input.tables|
    ensures var lo, hi := input.queryStartLoc[i], input.queryStartLoc[i + 1];
            var r := WindowRun(LocalModel(a, b, x, y), mem, input, i);
            && RowsLocal(x, y, input, lo, hi, r.rows)
            && Preserved(mem, r.mem, input.slotMapping[lo..hi])
            && (lo < hi ==>
                  r.mem[input.slotMapping[hi - 1]]
                  == if input.inputTokens[hi - 1] == input.inputPositions[hi - 1] then a else b)
  {
    var lo, hi := input.queryStartLoc[i], input.queryStartLoc[i + 1];
    ForwardSeqLocal(a, b, x, y, mem, input.tables[i], input.seqLens[i] - (hi - lo), input.inputTokens[lo..hi],
                    input.inputPositions[lo..hi], input.slotMapping[lo..hi]);
  }

  lemma {:induction false} ForwardRowsLocal(a: KV, b: KV, x: Hidden, y: Hidden, mem: Memory, input: ModelInput, i: nat)
    requires Shaped(input, |mem|) && i <= |input.tables|
    ensures RowsLocal(x, y, input, input.queryStartLoc[i], |input.inputTokens|,
                      Forward(LocalModel(a, b, x, y), mem, input, i).rows)
    decreases |input.tables| - i
  {
    if i < |input.tables| {
      var m := LocalModel(a, b, x, y);
      var first := WindowRun(m, mem, input, i);
      ForwardNext(m, mem, input, i);
      WindowLocal(a, b, x, y, mem, input, i);
      ForwardRowsLocal(a, b, x, y, first.mem, input, i + 1);
      RowsJoin(x, y, input, input.queryStartLoc[i], input.queryStartLoc[i + 1], |input.inputTokens|, first.rows,
               Forward(m, first.mem, input, i + 1).rows);
    }
  }

  /** A slot that no sequence from the i-th on computes keeps its value. */
  lemma {:induction false} ForwardKeeps(a: KV, b: KV, x: Hidden, y: Hidden, mem: Memory, input: ModelInput, i: nat,
                                        s: Slot)
    requires Shaped(input, |mem|) && i <= |input.tables| && s < |mem|
    requires s !in input.slotMapping[input.queryStartLoc[i]..]
    ensures Forward(LocalModel(a, b, x, y), mem, input, i).mem[s] == mem[s]
    decreases |input.tables| - i
  {
    if i < |input.tables| {
      var m := LocalModel(a, b, x, y);
      var lo, hi := input.queryStartLoc[i], input.queryStartLoc[i + 1];
      ForwardNext(m, mem, input, i);
      WindowLocal(a, b, x, y, mem, input, i);
      assert input.slotMapping[lo..] == input.slotMapping[lo..hi] + input.slotMapping[hi..];
      ForwardKeeps(a, b, x, y, WindowRun(m, mem, input, i).mem, input, i + 1, s);
    }
  }

  /** The last slot of a sequence holds what was computed there, unless a later one computes it. */
  lemma {:induction false} ForwardLast(a: KV, b: KV, x: Hidden, y: Hidden, mem: Memory, input: ModelInput, i: nat,
                                       u: nat)
    requires Shaped(input, |mem|) && i <= u < |input.tables|
    requires input.queryStartLoc[u] < input.queryStartLoc[u + 1]
    requires var l := input.queryStartLoc[u + 1] - 1; input.slotMapping[l] !in input.slotMapping[l + 1..]
    ensures var l := input.queryStartLoc[u + 1] - 1;
            Forward(LocalModel(a, b, x, y), mem, input, i).mem[input.slotMapping[l]]
            == if input.inputTokens[l] == input.inputPositions[l] then a else b
    decreases |input.tables| - i
  {
    var m := LocalModel(a, b, x, y);
    ForwardNext(m, mem, input, i);
    var first := WindowRun(m, mem, input, i);
    if i < u {
      ForwardLast(a, b, x, y, first.mem, input, i + 1, u);
    } else {
      WindowLocal(a, b, x, y, mem, input, i);
      ForwardKeeps(a, b, x, y, first.mem, input, i + 1, input.slotMapping[input.queryStartLoc[u + 1] - 1]);
    }
  }

  // ---------- a batch of a given layout ----------

  /** Where the slots of the i-th sequence start. */
  function Base(layout: Layout, i: nat): nat
    requires i <= |layout|
  {
    if i == 0 then 0 else Base(layout, i - 1) + layout[i - 1].Reached()
  }

  lemma {:induction false} BaseGrows(layout: Layout, i: nat, k: nat)
    requires i < k <= |layout|
    ensures Base(layout, i) + layout[i].Reached() <= Base(layout, k)
    decreases k
  {
    if i + 1 < k {
      BaseGrows(layout, i, k - 1);
    }
  }

  /** Every token is its position, and every sequence has slots of its own. */
  function SampleRequest(layout: Layout, i: nat): Request
    requires i < |layout|
  {
    var shape, base := layout[i], Base(layout, i);
    Request(Range(0, shape.Reached()), Range(base, base + shape.Reached()), shape.computed)
  }

  function SampleRequests(layout: Layout): (reqs: seq<Request>)
    ensures |reqs| == |layout| && forall i :: 0 <= i < |layout| ==> reqs[i] == SampleRequest(layout, i)
  {
    seq(|layout|, i requires 0 <= i < |layout| => SampleRequest(layout, i))
  }

  function SampleInfos(layout: Layout): (infos: seq<SeqInfo>)
    ensures |infos| == |layout|
    ensures forall i :: 0 <= i < |layout| ==>
              infos[i] == SeqInfo(Range(0, layout[i].total), true, layout[i].logprobs, 0)
  {
    seq(|layout|, i requires 0 <= i < |layout| => SeqInfo(Range(0, layout[i].total), true, layout[i].logprobs, 0))
  }

  function SampleWindow(layout: Layout, i: nat): (win: Window)
    requires i < |layout|
    ensures |win.tokens| == |win.positions| == |win.slots| == layout[i].query
  {
    var shape, base := layout[i], Base(layout, i);
    Window(Range(shape.computed, shape.Reached()), Range(shape.computed, shape.Reached()),
           Range(base + shape.computed, base + shape.Reached()), shape.computed)
  }

  function SampleWindows(layout: Layout, n: nat): (wins: seq<Window>)
    requires n <= |layout|
    ensures |wins| == n && forall i :: 0 <= i < n ==> wins[i] == SampleWindow(layout, i)
  {
    seq(n, i requires 0 <= i < n => SampleWindow(layout, i))
  }

  /** The windows one after the other; tokens and positions are the same lists. */
  lemma {:induction false} SampleLists(layout: Layout, n: nat) returns (w: Windows)
    requires n <= |layout|
    ensures Rebuilt(w, SampleWindows(layout, n)) && w.tokens == w.positions
  {
    if n == 0 {
      w := Windows([], [], [], [0], [], []);
    } else {
      var before := SampleLists(layout, n - 1);
      RebuiltNext(before, SampleWindows(layout, n - 1), SampleWindow(layout, n - 1));
      assert SampleWindows(layout, n) == SampleWindows(layout, n - 1) + [SampleWindow(layout, n - 1)];
      w := AddWindow(before, SampleWindow(layout, n - 1));
    }
  }

  lemma SampleSeparate(layout: Layout)
    requires ValidLayout(layout)
    ensures Separate(SampleRequests(layout), Base(layout, |layout|))
  {
    var reqs := SampleRequests(layout);
    forall i | 0 <= i < |reqs|
      ensures |reqs[i].slots| == |reqs[i].tokens| && reqs[i].computed < |reqs[i].tokens|
      ensures InBounds(reqs[i].slots, Base(layout, |layout|)) && Distinct(reqs[i].slots)
    {
      assert layout[i].Valid();
      BaseGrows(layout, i, |layout|);
    }
    forall i, k | 0 <= i < |reqs| && 0 <= k < |reqs| && i != k
      ensures SharesPrefixes(reqs[i], reqs[k])
    {
      if i < k {
        BaseGrows(layout, i, k);
      } else {
        BaseGrows(layout, k, i);
      }
    }
  }

  /** Under the local model every value of such a sequence is the same. */
  lemma RightKV(a: KV, b: KV, x: Hidden, y: Hidden, n: nat, j: nat)
    requires j < n
    ensures FullKV(LocalModel(a, b, x, y).step, Range(0, n))[j] == a
  {
    FullKVAt(LocalModel(a, b, x, y).step, Range(0, n), j);
  }

  /** Which rows are selected does not depend on which are said to be. */
  lemma {:induction false} SelectedSame(call: Call, call': Call, n: nat)
    requires call.Framed() && n <= |call.infos| && call'.infos == call.infos
    requires call'.input == call.input.(selected := call'.input.selected)
    ensures call'.Framed() && SelectedUpto(call', n) == SelectedUpto(call, n)
  {
    FramedSame(call, call');
    if n > 0 {
      SelectedSame(call, call', n - 1);
    }
  }

  lemma FramedSame(call: Call, call': Call)
    requires call.Framed() && call'.infos == call.infos
    requires call'.input == call.input.(selected := call'.input.selected)
    ensures call'.Framed()
  {
    forall i | 0 <= i < |call.infos|
      ensures call'.FramedAt(i)
    {
      assert call.FramedAt(i);
    }
  }

  function QuietEnv(): nat -> nat -> Change {
    _ => Quiet()
  }

  function SampleInput(layout: Layout, w: Windows): ModelInput {
    ModelInput(w.tokens, w.positions, w.slots, w.starts, w.queryLens, w.contextLens,
               seq(|layout|, i requires 0 <= i < |layout| => layout[i].Reached()),
               seq(|layout|, i requires 0 <= i < |layout| => SampleRequest(layout, i).slots), [], 0, 0, 0)
  }

  lemma SampleDescribes(layout: Layout, w: Windows)
    requires ValidLayout(layout) && Rebuilt(w, SampleWindows(layout, |layout|))
    ensures Matched(SampleInput(layout, w), SampleInfos(layout), SampleRequests(layout))
  {
    var input, infos, reqs := SampleInput(layout, w), SampleInfos(layout), SampleRequests(layout);
    forall i | 0 <= i < |layout|
      ensures DescribesOne(input, i, reqs[i], ComputedOf(reqs)[i]) && Matches(infos[i], reqs[i], input.seqLens[i])
    {
      assert layout[i].Valid();
      assert RebuiltOne(w, i, SampleWindows(layout, |layout|)[i]);
    }
  }

  lemma MatchedSelected(input: ModelInput, infos: seq<SeqInfo>, reqs: seq<Request>, selected: seq<nat>)
    requires Matched(input, infos, reqs)
    ensures Matched(input.(selected := selected), infos, reqs)
  {
    var input' := input.(selected := selected);
    forall i | 0 <= i < |reqs|
      ensures DescribesOne(input', i, reqs[i], ComputedOf(reqs)[i])
      ensures Matches(infos[i], reqs[i], input'.seqLens[i])
    {
      assert DescribesOne(input, i, reqs[i], ComputedOf(reqs)[i]) && Matches(infos[i], reqs[i], input.seqLens[i]);
    }
  }

  /** A batch of the layout. */
  lemma SampleBatch(layout: Layout) returns (call: Call)
    requires ValidLayout(layout)
    ensures call.infos == SampleInfos(layout) && call.status == Prefill && call.env == QuietEnv()
    ensures Matched(call.input, call.infos, SampleRequests(layout))
    ensures call.Framed() && call.input.selected == SelectedUpto(call, |call.infos|)
    ensures call.input.inputTokens == call.input.inputPositions
  {
    var w := SampleLists(layout, |layout|);
    var input, infos, reqs := SampleInput(layout, w), SampleInfos(layout), SampleRequests(layout);
    SampleDescribes(layout, w);
    SampleSeparate(layout);
    var call0 := Call(input, infos, Prefill, QuietEnv());
    MatchedFramed(call0, reqs, Base(layout, |layout|));
    call := Call(input.(selected := SelectedUpto(call0, |layout|)), infos, Prefill, QuietEnv());
    SelectedSame(call0, call, |layout|);
    MatchedSelected(input, infos, reqs, call.input.selected);
  }

  /** Memory that holds the same value everywhere is ready for it. */
  lemma SampleReady(layout: Layout, a: KV, b: KV, x: Hidden, y: Hidden) returns (mem: Memory)
    requires ValidLayout(layout)
    ensures |mem| == Base(layout, |layout|)
    ensures Ready(LocalModel(a, b, x, y), mem, mem, SampleRequests(layout), ComputedOf(SampleRequests(layout)))
  {
    var m, reqs := LocalModel(a, b, x, y), SampleRequests(layout);
    mem := seq(Base(layout, |layout|), _ => a);
    SampleSeparate(layout);
    forall i | 0 <= i < |reqs|
      ensures Holds(m, mem, reqs[i], reqs[i].computed)
    {
      forall j | 0 <= j < reqs[i].computed
        ensures mem[reqs[i].slots[j]] == FullKV(m.step, reqs[i].tokens)[j]
      {
        RightKV(a, b, x, y, |reqs[i].tokens|, j);
      }
    }
  }

  // ---------- a cache that holds one of its sequences ----------

  lemma SampleCache(cfg: Config, step: Step, tokens: seq<Token>) returns (b: Backend)
    requires cfg.ValidFormat() && CollisionFree(cfg.chunker.hash)
    ensures Coherent(cfg, step, b) && Hits(cfg, b.dict, tokens, 0) == |tokens|
  {
    var empty := Backend(map[], []);
    var req := StoreRequest(tokens, FullKV(step, tokens), None, false, true);
    b := AfterStore(cfg, empty, Some(0), req, Undisturbed());
    StoreThenLookup(cfg, empty, Some(0), req, tokens);
    AfterStoreCoherent(cfg, step, empty, Some(0), req, Undisturbed());
  }

  lemma {:induction false} RemainingQuiet(cfg: Config, b: Backend, identified: bool, i: nat, tokens: seq<Token>,
                                          at: nat)
    requires at <= |tokens|
    ensures Remaining(cfg, b, identified, Quiet(), i, tokens, at) == b
    decreases |tokens| - at
  {
    if at < |tokens| {
      assert Disturb(b, Quiet()(i)) == b by {
        assert b.dict - {} == b.dict;
      }
      GatherStep(cfg, b, identified, Quiet(), i, tokens, at);
      RemainingQuiet(cfg, b, identified, i + 1, tokens, cfg.chunker.ChunkEnd(at, |tokens|));
    }
  }

  lemma {:induction false} QuietBackend(cfg: Config, b: Backend, call: Call, i: nat)
    requires call.Framed() && i <= |call.infos| && call.env == QuietEnv()
    ensures call.BackendAt(cfg, b, i) == b
  {
    if i > 0 {
      QuietBackend(cfg, b, call, i - 1);
      var tokens, start := call.Tokens(i - 1), Floor(call.Skip(i - 1), cfg.chunker.size);
      RemainingQuiet(cfg, b, Identified(Some(call.infos[i - 1].clientId)), 0, tokens, start);
    }
  }

  lemma ReachesEnd(cfg: Config, b: Backend, tokens: seq<Token>, skip: nat)
    requires skip <= |tokens| && Hits(cfg, b.dict, tokens, 0) == |tokens|
    ensures Reached(cfg, b, true, Quiet(), tokens, skip) == |tokens|
  {
    var start := Floor(skip, cfg.chunker.size);
    ReachIsHits(cfg, b, 0, tokens, start);
    HitsResume(cfg, b.dict, tokens, 0, start);
  }

  /** Of tokens that are all stored, everything past the skipped ones is found. */
  lemma FoundAll(cfg: Config, step: Step, b: Backend, tokens: seq<Token>, skip: nat)
    requires Coherent(cfg, step, b) && skip <= |tokens| && Hits(cfg, b.dict, tokens, 0) == |tokens|
    ensures var found := RetrieveFrom(cfg, b, true, Quiet(), tokens, Some(RangeMask(|tokens|, skip, |tokens|)));
            skip + |found.kv| == |tokens|
  {
    CountRange(|tokens|, skip, |tokens|);
    RetrieveIsRecomputation(cfg, step, b, true, Quiet(), tokens, Some(RangeMask(|tokens|, skip, |tokens|)));
    ReachesEnd(cfg, b, tokens, skip);
  }

  lemma FoundToEnd(cfg: Config, step: Step, b: Backend, call: Call, i: nat)
    requires call.Framed() && i < |call.infos| && call.env == QuietEnv() && Coherent(cfg, step, b)
    requires Identified(Some(call.infos[i].clientId))
    requires Hits(cfg, b.dict, call.Tokens(i), 0) == |call.Tokens(i)|
    ensures call.Counts(cfg, b)[i] == call.Required(i)
  {
    QuietBackend(cfg, b, call, i);
    FoundAll(cfg, step, b, call.Tokens(i), call.Skip(i));
    assert call.Found(cfg, b, i)
        == RetrieveFrom(cfg, b, true, Quiet(), call.Tokens(i),
                        Some(RangeMask(|call.Tokens(i)|, call.Skip(i), |call.Tokens(i)|)));
  }

  // ---------- layouts for which it shows ----------

  /** The window of the i-th sequence in the batch: its positions, and slots of its own. */
  ghost predicate SampleWindowAt(layout: Layout, call: Call, i: nat)
    requires call.Framed() && i < |layout| == |call.infos|
  {
    var shape, base, lo := layout[i], Base(layout, i), call.input.queryStartLoc[i];
    && shape.Valid() && call.Required(i) == shape.query && |call.input.inputPositions| == |call.input.slotMapping|
    && call.input.inputPositions[lo..lo + shape.query] == Range(shape.computed, shape.Reached())
    && call.input.slotMapping[lo..lo + shape.query] == Range(base + shape.computed, base + shape.Reached())
  }

  lemma SampleWindowIs(layout: Layout, call: Call, i: nat)
    requires ValidLayout(layout) && i < |layout| && call.Framed() && |call.infos| == |layout|
    requires Describes(call.input, SampleRequests(layout), ComputedOf(SampleRequests(layout)))
    ensures SampleWindowAt(layout, call, i)
  {
    var reqs, shape, base := SampleRequests(layout), layout[i], Base(layout, i);
    assert shape.Valid();
    assert DescribesOne(call.input, i, reqs[i], ComputedOf(reqs)[i]);
    assert Range(0, shape.Reached())[shape.computed..] == Range(shape.computed, shape.Reached());
    assert Range(base, base + shape.Reached())[shape.computed..]
        == Range(base + shape.computed, base + shape.Reached());
  }

  /** What is left of the i-th sequence ends in its last token, its last position and its last
      slot in the batch, and lies above the slots of the sequences before it. */
  ghost predicate LeftOf(layout: Layout, i: nat, win: Window)
    requires i < |layout|
  {
    && win.tokens != [] && |win.tokens| == |win.positions| == |win.slots|
    && var l := |win.tokens| - 1;
       && win.tokens[l] == layout[i].total - 1 && win.positions[l] == layout[i].Reached() - 1
       && win.slots[l] == Base(layout, i) + layout[i].Reached() - 1
       && forall j :: 0 <= j < |win.slots| ==> Base(layout, i) <= win.slots[j]
  }

  lemma PlanLeft(layout: Layout, call: Call, i: nat, count: nat)
    requires call.Framed() && i < |layout| && call.infos == SampleInfos(layout) && call.status == Prefill
    requires SampleWindowAt(layout, call, i) && count <= call.Required(i)
    ensures Fits(call.input, call.Plan(i, count))
    ensures LeftOf(layout, i, WindowOf(call.input, call.Plan(i, count)))
  {
    call.PlanFits(i, count);
    var plan, shape, base := call.Plan(i, count), layout[i], Base(layout, i);
    var start := call.input.queryStartLoc[i];
    WindowSplit(call.input.inputPositions, start, start + shape.query, plan.lmcComputed);
    WindowSplit(call.input.slotMapping, start, start + shape.query, plan.lmcComputed);
    var win := WindowOf(call.input, plan);
    assert win.positions == Range(shape.computed, shape.Reached())[plan.lmcComputed..];
    assert win.slots == Range(base + shape.computed, base + shape.Reached())[plan.lmcComputed..];
  }

  /** Whatever was found. */
  ghost predicate AllLeft(layout: Layout, wins: seq<Window>) {
    |wins| == |layout| && forall k {:trigger wins[k]} :: 0 <= k < |wins| ==> LeftOf(layout, k, wins[k])
  }

  lemma PlansLeft(layout: Layout, call: Call, counts: seq<nat>)
    requires ValidLayout(layout) && call.Framed() && call.infos == SampleInfos(layout) && call.status == Prefill
    requires Describes(call.input, SampleRequests(layout), ComputedOf(SampleRequests(layout))) && call.Fitting(counts)
    ensures AllFit(call.input, call.Plans(counts, |layout|))
    ensures AllLeft(layout, WindowsOf(call.input, call.Plans(counts, |layout|)))
  {
    var plans := call.Plans(counts, |layout|);
    call.PlansFit(counts);
    forall k | 0 <= k < |layout|
      ensures LeftOf(layout, k, WindowsOf(call.input, plans)[k])
    {
      SampleWindowIs(layout, call, k);
      PlanLeft(layout, call, k, counts[k]);
    }
  }

  /** In lists of windows, what comes from the i-th window on is bounded by those windows. */
  lemma {:induction false} LaterSlots(w: Windows, wins: seq<Window>, i: nat, bound: nat)
    requires Rebuilt(w, wins) && i <= |wins|
    requires forall k :: i <= k < |wins| ==> forall j :: 0 <= j < |wins[k].slots| ==> bound <= wins[k].slots[j]
    ensures forall j :: w.starts[i] <= j < |w.slots| ==> bound <= w.slots[j]
    decreases |wins| - i
  {
    if i < |wins| {
      LaterSlots(w, wins, i + 1, bound);
      assert RebuiltOne(w, i, wins[i]);
      forall j | w.starts[i] <= j < |w.slots|
        ensures bound <= w.slots[j]
      {
        if j < w.starts[i + 1] {
          assert w.slots[j] == w.slots[w.starts[i]..w.starts[i + 1]][j - w.starts[i]];
        }
      }
    }
  }

  /** Where a window ends in the lists. */
  lemma RebuiltLast(w: Windows, wins: seq<Window>, i: nat)
    requires Rebuilt(w, wins) && i < |wins|
    requires wins[i].tokens != [] && |wins[i].tokens| == |wins[i].positions| == |wins[i].slots|
    ensures w.starts[i] < w.starts[i + 1] <= |w.tokens|
    ensures var l, k := w.starts[i + 1] - 1, |wins[i].tokens| - 1;
            && w.tokens[l] == wins[i].tokens[k] && w.positions[l] == wins[i].positions[k]
            && w.slots[l] == wins[i].slots[k]
  {
    assert RebuiltOne(w, i, wins[i]);
    var lo, hi := w.starts[i], w.starts[i + 1];
    var k := hi - lo - 1;
    assert w.tokens[lo..hi][k] == w.tokens[hi - 1] && w.positions[lo..hi][k] == w.positions[hi - 1];
    assert w.slots[lo..hi][k] == w.slots[hi - 1];
  }

  /** The last slot of a sequence comes once in lists of what is left of the sequences. */
  lemma LastSlotOnce(layout: Layout, w: Windows, wins: seq<Window>, i: nat)
    requires Rebuilt(w, wins) && i < |wins| && AllLeft(layout, wins)
    ensures w.starts[i] < w.starts[i + 1] <= |w.slots| && w.slots[w.starts[i + 1] - 1] !in w.slots[w.starts[i + 1]..]
  {
    assert LeftOf(layout, i, wins[i]);
    RebuiltLast(w, wins, i);
    var bound := Base(layout, i) + layout[i].Reached();
    forall k | i < k < |wins|
      ensures forall j :: 0 <= j < |wins[k].slots| ==> bound <= wins[k].slots[j]
    {
      assert LeftOf(layout, k, wins[k]);
      BaseGrows(layout, i, k);
    }
    LaterSlots(w, wins, i + 1, bound);
  }

  // ---------- the main result ----------

  /** In a rebuilt batch every prompt ends in its last token, whether or not the batch reaches
      it: the wrong value goes to the last slot, and the wrong row to the sampler. */
  lemma RebuiltShows(layout: Layout, wins: seq<Window>, input: ModelInput, mem: Memory, a: KV, b: KV, x: Hidden,
                     y: Hidden, u: nat)
    requires AllLeft(layout, wins) && Rebuilt(WindowsIn(input), wins) && SelectsLast(input)
    requires u < |layout| == |input.selected| && Sampleable(input, |mem|)
    requires layout[u].Valid() && layout[u].Reached() < layout[u].total
    ensures var r := Sampled(LocalModel(a, b, x, y), mem, input);
            && Base(layout, u) + layout[u].Reached() - 1 < |mem| && u < |r.1|
            && r.0[Base(layout, u) + layout[u].Reached() - 1] == b && r.1[u] == y
  {
    assert LeftOf(layout, u, wins[u]);
    RebuiltLast(WindowsIn(input), wins, u);
    LastSlotOnce(layout, WindowsIn(input), wins, u);
    var m, last := LocalModel(a, b, x, y), input.selected[u];
    assert last + 1 == input.queryStartLoc[u + 1] && input.inputTokens[last] != input.inputPositions[last];
    ForwardLast(a, b, x, y, mem, input, 0, u);
    ForwardRowsLocal(a, b, x, y, mem, input, 0);
    assert Forward(m, mem, input, 0).rows[last] == RowLocal(x, y, input, 0 + last);
  }

  lemma RunIsRebuilt(call: Call, counts: seq<nat>, h: nat)
    requires call.Framed() && call.Fitting(counts) && call.status == Prefill && h < |call.infos|
    requires call.Plan(h, counts[h]).lmcComputed != 0
    ensures AllFit(call.input, call.Plans(counts, |call.infos|))
    ensures IsRebuilt(call.input, call.Plans(counts, |call.infos|), call.RunInput(counts))
  {
    var plans := call.Plans(counts, |call.infos|);
    assert plans[h].lmcComputed != 0;
    call.PlansFit(counts);
    RebuiltInputIs(call.input, plans);
  }

  /** That is what is run instead of a full prefill in which something was found. */
  lemma CachedShows(layout: Layout, call: Call, counts: seq<nat>, mem: Memory, a: KV, b: KV, x: Hidden, y: Hidden,
                    u: nat, h: nat)
    requires ValidLayout(layout) && u < |layout| && h < |layout| && call.infos == SampleInfos(layout)
    requires Runnable(call, SampleRequests(layout), counts, |mem|)
    requires layout[u].Reached() < layout[u].total && call.Plan(h, counts[h]).lmcComputed != 0
    ensures var r := CachedRun(LocalModel(a, b, x, y), mem, call, SampleRequests(layout), counts);
            && Base(layout, u) + layout[u].Reached() - 1 < |mem| && u < |r.1|
            && r.0[Base(layout, u) + layout[u].Reached() - 1] == b && r.1[u] == y
  {
    var m, plans := LocalModel(a, b, x, y), call.Plans(counts, |layout|);
    PlansLeft(layout, call, counts);
    RunIsRebuilt(call, counts, h);
    RunSampleable(call, SampleRequests(layout), counts, |mem|);
    RebuiltShows(layout, WindowsOf(call.input, plans), call.RunInput(counts),
                 call.MemAt(m.step, mem, counts, |call.infos|), a, b, x, y, u);
  }

  /** Without the cache all rows and values are right. */
  lemma PlainRows(input: ModelInput, mem: Memory, a: KV, b: KV, x: Hidden, y: Hidden, u: nat)
    requires input.inputTokens == input.inputPositions && Sampleable(input, |mem|)
    ensures var rows := Sampled(LocalModel(a, b, x, y), mem, input).1; u < |rows| ==> rows[u] == x
  {
    ForwardRowsLocal(a, b, x, y, mem, input, 0);
  }

  lemma PlainMemory(layout: Layout, input: ModelInput, mem: Memory, a: KV, b: KV, x: Hidden, y: Hidden, u: nat)
    requires ValidLayout(layout) && u < |layout| && Sampleable(input, |mem|)
    requires var reqs := SampleRequests(layout);
             && Describes(input, reqs, ComputedOf(reqs))
             && Ready(LocalModel(a, b, x, y), mem, mem, reqs, ComputedOf(reqs))
    ensures Base(layout, u) + layout[u].Reached() - 1 < |mem|
    ensures Sampled(LocalModel(a, b, x, y), mem, input).0[Base(layout, u) + layout[u].Reached() - 1] == a
  {
    var m, reqs := LocalModel(a, b, x, y), SampleRequests(layout);
    PrefillMeaning(m, mem, mem, input, reqs, ComputedOf(reqs));
    HoldsLast(layout, Forward(m, mem, input, 0).mem, a, b, x, y, u);
  }

  lemma HoldsLast(layout: Layout, mem: Memory, a: KV, b: KV, x: Hidden, y: Hidden, u: nat)
    requires ValidLayout(layout) && u < |layout|
    requires Holds(LocalModel(a, b, x, y), mem, SampleRequest(layout, u), layout[u].Reached())
    ensures Base(layout, u) + layout[u].Reached() - 1 < |mem|
    ensures mem[Base(layout, u) + layout[u].Reached() - 1] == a
  {
    var req, last := SampleRequest(layout, u), layout[u].Reached() - 1;
    assert layout[u].Valid();
    assert req.slots[last] == Base(layout, u) + layout[u].Reached() - 1;
    RightKV(a, b, x, y, |req.tokens|, last);
  }

  /** If the batch leaves a prompt unfinished, and has more than one token of some prompt, a
      cache that holds that prompt makes the unfinished one go wrong. */
  lemma UnfinishedShows(cfg: Config, layout: Layout, u: nat, h: nat, a: KV, b: KV, x: Hidden, y: Hidden)
    requires cfg.ValidFormat() && CollisionFree(cfg.chunker.hash) && ValidLayout(layout)
    requires u < |layout| && layout[u].Reached() < layout[u].total && h < |layout| && layout[h].query > 1
    ensures a != b ==> !MemoryInvisible(cfg, layout)
    ensures x != y ==> !RowsInvisible(cfg, layout)
  {
    var m, reqs := LocalModel(a, b, x, y), SampleRequests(layout);
    var call := SampleBatch(layout);
    var mem := SampleReady(layout, a, b, x, y);
    var cache := SampleCache(cfg, m.step, call.Tokens(h));
    forall i | 0 <= i < |layout|
      ensures HasShape(layout[i], call.infos[i], reqs[i])
    {
    }
    assert Instance(cfg, layout, m, mem, call, reqs, cache);
    var counts := call.Counts(cfg, cache);
    call.CountsFit(cfg, m.step, cache);
    assert Runnable(call, reqs, counts, |mem|);
    FoundToEnd(cfg, m.step, cache, call, h);
    InstanceShown(cfg, layout, m, mem, call, reqs, cache, h);
    RunSampleable(call, reqs, counts, |mem|);
    CachedShows(layout, call, counts, mem, a, b, x, y, u, h);
    PlainRows(call.input, mem, a, b, x, y, u);
    PlainMemory(layout, call.input, mem, a, b, x, y, u);
  }

  /** A batch taken for a full prefill runs as it would without the cache, for every model and
      whatever the cache holds, if and only if it reaches the end of every prompt or has a
      single token of each. */
  lemma InvisibleIff(cfg: Config, layout: Layout, a: KV, b: KV, x: Hidden, y: Hidden)
    requires cfg.ValidFormat() && CollisionFree(cfg.chunker.hash) && a != b && x != y
    requires ValidLayout(layout) && TakenForFull(layout)
    ensures MemoryInvisible(cfg, layout) <==> AllReached(layout) || AllSingle(layout)
    ensures RowsInvisible(cfg, layout) <==> AllReached(layout) || AllSingle(layout)
  {
    if AllReached(layout) || AllSingle(layout) {
      forall m: Model, mem: Memory, call: Call, reqs: seq<Request>, b: Backend
        | Instance(cfg, layout, m, mem, call, reqs, b)
        ensures SameMemory(cfg, m, mem, call, reqs, b) && SameRows(cfg, m, mem, call, reqs, b)
      {
        InstanceSame(cfg, layout, m, mem, call, reqs, b);
      }
    } else {
      var u :| 0 <= u < |layout| && layout[u].Reached() != layout[u].total;
      var h :| 0 <= h < |layout| && layout[h].query != 1;
      assert layout[u].Valid() && layout[h].Valid();
      UnfinishedShows(cfg, layout, u, h, a, b, x, y);
    }
  }

  /** The first two of four tokens of a prompt, beside the last two of another one with log
      probabilities: two rows for two sequences, none of them the first prompt's. */
  lemma UnfinishedBesideLogprobs(cfg: Config, a: KV, b: KV, x: Hidden, y: Hidden)
    requires cfg.ValidFormat() && CollisionFree(cfg.chunker.hash) && a != b && x != y
    ensures var layout := [SeqShape(4, 0, 2, false), SeqShape(2, 0, 2, true)];
            TakenForFull(layout) && !MemoryInvisible(cfg, layout) && !RowsInvisible(cfg, layout)
  {
    var layout := [SeqShape(4, 0, 2, false), SeqShape(2, 0, 2, true)];
    assert layout[..1] == [SeqShape(4, 0, 2, false)] && layout[..1][..0] == [];
    assert layout[0].Reached() != layout[0].total && layout[0].query != 1;
    InvisibleIff(cfg, layout, a, b, x, y);
  }

  /** One unfinished token with log probabilities beside a finished prompt: the selected rows
      are the last rows, and the memory is wrong all the same. */
  lemma UnfinishedTokenBesidePrompt(cfg: Config, a: KV, b: KV, x: Hidden, y: Hidden)
    requires cfg.ValidFormat() && CollisionFree(cfg.chunker.hash) && a != b && x != y
    ensures var layout := [SeqShape(4, 0, 1, true), SeqShape(2, 0, 2, false)];
            TakenForFull(layout) && !MemoryInvisible(cfg, layout) && !RowsInvisible(cfg, layout)
  {
    var layout := [SeqShape(4, 0, 1, true), SeqShape(2, 0, 2, false)];
    assert layout[..1] == [SeqShape(4, 0, 1, true)] && layout[..1][..0] == [];
    assert layout[0].Reached() != layout[0].total && layout[1].query != 1;
    InvisibleIff(cfg, layout, a, b, x, y);
  }

  /** One unfinished token alone is taken for a full prefill as well, but there is nothing to
      leave out of it. */
  lemma UnfinishedTokenAlone(cfg: Config, a: KV, b: KV, x: Hidden, y: Hidden)
    requires cfg.ValidFormat() && CollisionFree(cfg.chunker.hash) && a != b && x != y
    ensures var layout := [SeqShape(4, 0, 1, true)];
            && TakenForFull(layout) && !AllReached(layout)
            && MemoryInvisible(cfg, layout) && RowsInvisible(cfg, layout)
  {
    var layout := [SeqShape(4, 0, 1, true)];
    assert layout[..0] == [] && layout[0].Reached() != layout[0].total;
    InvisibleIff(cfg, layout, a, b, x, y);
  }
}
