/** What running a batch around the cache amounts to, and that it is what running the batch
    amounts to wherever the adapter takes the sequences for what they are. */
module Rewriting {
  import opened Wrappers
  import opened Chunking
  import opened EngineModel
  import opened CacheCoherence
  import opened PagedPrefill
  import opened Adapter

  // ---------- the rows that are sampled ----------

  /** Whether the batch reaches the end of a sequence. */
  predicate DoSample(call: Call, i: nat)
    requires call.Framed() && i < |call.infos|
  {
    call.input.seqLens[i] == |call.infos[i].tokenIds|
  }

  /** The rows selected of one sequence, whose rows are [lo, hi): of a prompt with log
      probabilities all of them, and otherwise the last one if the sequence is sampled. */
  function RowsOfSequence(info: SeqInfo, lo: nat, hi: nat, doSample: bool): (selected: seq<nat>)
    requires lo < hi
    ensures forall j :: 0 <= j < |selected| ==> selected[j] < hi
  {
    if info.isPrompt && info.promptLogprobs then Range(lo, hi) else if doSample then [hi - 1] else []
  }

  /** The rows selected of the first `n` sequences. */
  function SelectedUpto(call: Call, n: nat): (selected: seq<nat>)
    requires call.Framed() && n <= |call.infos|
    ensures forall j :: 0 <= j < |selected| ==> selected[j] < call.input.queryStartLoc[n]
  {
    if n == 0 then []
    else
      var i := n - 1;
      var lo := call.input.queryStartLoc[i];
      SelectedUpto(call, i) + RowsOfSequence(call.infos[i], lo, lo + call.Required(i), DoSample(call, i))
  }

  lemma SelectedNext(call: Call, i: nat)
    requires call.Framed() && i < |call.infos|
    ensures var lo := call.input.queryStartLoc[i];
            && lo + call.Required(i) == call.input.queryStartLoc[i + 1]
            && SelectedUpto(call, i + 1)
               == SelectedUpto(call, i) + RowsOfSequence(call.infos[i], lo, lo + call.Required(i), DoSample(call, i))
            && (call.infos[i].isPrompt || call.Required(i) == 1)
  {
    assert call.FramedAt(i);
  }

  /** Appends the rows of one sequence: those of its prompt log probabilities, and the one it
      is sampled from. */
  method SelectOne(selected: seq<nat>, info: SeqInfo, queryLen: nat, doSample: bool, modelOutputIdx: nat)
    returns (selected': seq<nat>, modelOutputIdx': nat)
    requires queryLen > 0 && (info.isPrompt || (doSample && queryLen == 1))
    ensures selected' == selected + RowsOfSequence(info, modelOutputIdx, modelOutputIdx + queryLen, doSample)
    ensures modelOutputIdx' == modelOutputIdx + queryLen
  {
    var promptLogprobLen := if !info.isPrompt then 0 else if doSample then queryLen - 1 else queryLen;
    var sampleLen := if doSample then 1 else 0;
    selected', modelOutputIdx' := selected, modelOutputIdx;
    if info.promptLogprobs {
      selected' := selected' + Range(modelOutputIdx', modelOutputIdx' + promptLogprobLen);
    }
    modelOutputIdx' := modelOutputIdx' + promptLogprobLen;
    if doSample {
      selected' := selected' + Range(modelOutputIdx', modelOutputIdx' + sampleLen);
    }
    modelOutputIdx' := modelOutputIdx' + sampleLen;
  }

  /** The loop that selects the rows, sequence by sequence. */
  method SelectTokenIndices(call: Call) returns (selected: seq<nat>)
    requires call.Framed()
    requires forall i :: 0 <= i < |call.infos| && !call.infos[i].isPrompt ==> DoSample(call, i)
    ensures selected == SelectedUpto(call, |call.infos|)
  {
    selected := [];
    var modelOutputIdx := 0;
    for i := 0 to |call.infos|
      invariant modelOutputIdx == call.input.queryStartLoc[i] && selected == SelectedUpto(call, i)
    {
      SelectedNext(call, i);
      var next, nextIdx := SelectOne(selected, call.infos[i], call.Required(i), DoSample(call, i), modelOutputIdx);
      assert next == SelectedUpto(call, i + 1);
      selected, modelOutputIdx := next, nextIdx;
    }
  }

  /** How the adapter classifies a batch: by the number of selected rows alone. */
  function StatusOf(infos: seq<SeqInfo>, selected: seq<nat>): Option<RetrieveStatus> {
    if exists i :: 0 <= i < |infos| && !infos[i].isPrompt then None
    else if selected == [] then Some(ChunkPrefill)
    else if |selected| == |infos| then Some(Prefill)
    else None
  }

  /** If the batch reaches the end of every sequence and selects as many rows as there are
      sequences, they are the last rows. */
  lemma WholeSelectsLast(call: Call)
    requires call.Framed() && Whole(call.input, call.infos)
    requires call.input.selected == SelectedUpto(call, |call.infos|) && |call.input.selected| == |call.infos|
    ensures SelectsLast(call.input)
  {
    SelectedAtLeast(call, |call.infos|);
    SelectedTight(call, |call.infos|);
  }

  lemma {:induction false} SelectedAtLeast(call: Call, n: nat)
    requires call.Framed() && Whole(call.input, call.infos) && n <= |call.infos|
    ensures |SelectedUpto(call, n)| >= n
  {
    if n > 0 {
      SelectedAtLeast(call, n - 1);
      SelectedNext(call, n - 1);
      WholeSampled(call, n - 1);
    }
  }

  lemma WholeSampled(call: Call, i: nat)
    requires call.Framed() && Whole(call.input, call.infos) && i < |call.infos|
    ensures DoSample(call, i)
  {
    assert call.infos[i] == call.infos[i];
  }

  /** A sequence of which a single row is selected, and that is sampled, has its last row
      selected. */
  lemma SelectedSingle(call: Call, i: nat)
    requires call.Framed() && i < |call.infos| && DoSample(call, i)
    requires |SelectedUpto(call, i + 1)| == |SelectedUpto(call, i)| + 1
    ensures SelectedUpto(call, i + 1) == SelectedUpto(call, i) + [call.input.queryStartLoc[i + 1] - 1]
  {
    SelectedNext(call, i);
  }

  lemma {:induction false} SelectedTight(call: Call, n: nat)
    requires call.Framed() && Whole(call.input, call.infos) && n <= |call.infos|
    requires |SelectedUpto(call, n)| == n
    ensures forall k :: 0 <= k < n ==> SelectedUpto(call, n)[k] + 1 == call.input.queryStartLoc[k + 1]
  {
    if n > 0 {
      var i := n - 1;
      SelectedAtLeast(call, i);
      SelectedNext(call, i);
      WholeSampled(call, i);
      SelectedSingle(call, i);
      SelectedTight(call, i);
    }
  }

  // ---------- where the sequences are what they are taken for ----------

  /** The tokens the loop takes for a sequence are those in the batch: always in chunked
      prefill, and otherwise if the whole sequence is in the batch. */
  ghost predicate Sound(call: Call) {
    call.status == ChunkPrefill || (|call.input.seqLens| == |call.infos| && Whole(call.input, call.infos))
  }

  lemma SoundOne(call: Call, reqs: seq<Request>, size: nat, i: nat)
    requires Matched(call.input, call.infos, reqs) && Separate(reqs, size) && Sound(call) && i < |reqs|
    ensures call.Framed() && call.Tokens(i) == reqs[i].tokens && call.Skip(i) == reqs[i].computed
    ensures call.Required(i) == |reqs[i].tokens| - reqs[i].computed
  {
    MatchedFramed(call, reqs, size);
    assert Matches(call.infos[i], reqs[i], call.input.seqLens[i]);
    assert DescribesOne(call.input, i, reqs[i], ComputedOf(reqs)[i]);
  }

  lemma InjectWindow(input: ModelInput, reqs: seq<Request>, i: nat, n: nat, size: nat)
    requires i < |reqs| && Describes(input, reqs, ComputedOf(reqs)) && Separate(reqs, size)
    requires reqs[i].computed + n <= |reqs[i].tokens|
    ensures var startPos := input.queryStartLoc[i];
            && InBounds(input.slotMapping, size) && startPos + n <= |input.slotMapping|
            && input.slotMapping[startPos..startPos + n] == reqs[i].slots[reqs[i].computed..reqs[i].computed + n]
  {
    WindowsPartition(input, reqs, i, n);
    DescribesShaped(input, reqs, ComputedOf(reqs), size);
  }

  /** What is injected is the KV that follows the computed tokens of the request, and goes to
      their slots. */
  lemma InjectionOf(call: Call, step: Step, reqs: seq<Request>, i: nat, count: nat, size: nat)
    requires Matched(call.input, call.infos, reqs) && Separate(reqs, size) && Sound(call) && i < |reqs|
    requires call.Framed() && count <= call.Required(i)
    ensures var start, req := call.input.queryStartLoc[i], reqs[i];
            && req.computed + count <= |req.tokens| == |req.slots| && start + count <= |call.input.slotMapping|
            && InBounds(req.slots[req.computed..req.computed + count], size)
            && call.input.slotMapping[start..start + count] == req.slots[req.computed..req.computed + count]
            && FullKV(step, call.Tokens(i))[call.Skip(i)..call.Skip(i) + count]
               == FullKV(step, req.tokens)[req.computed..req.computed + count]
  {
    SoundOne(call, reqs, size, i);
    InjectWindow(call.input, reqs, i, count, size);
  }

  lemma WriteIsInjection(call: Call, m: Model, mem: Memory, reqs: seq<Request>, i: nat, count: nat)
    requires Matched(call.input, call.infos, reqs) && Separate(reqs, |mem|) && Sound(call) && i < |reqs|
    requires call.Framed() && InBounds(call.input.slotMapping, |mem|) && count <= call.Required(i)
    requires !Unusable(call.Plan(i, count), call.status) && call.Plan(i, count).lmcComputed != 0
    ensures var req := reqs[i];
            && req.computed + count <= |req.tokens| == |req.slots|
            && InBounds(req.slots[req.computed..req.computed + count], |mem|)
            && call.Write(m.step, mem, i, count)
               == WriteTo(mem, req.slots[req.computed..req.computed + count],
                          FullKV(m.step, req.tokens)[req.computed..req.computed + count])
  {
    InjectionOf(call, m.step, reqs, i, count, |mem|);
    call.WriteAs(m.step, mem, i, count, reqs[i].slots[reqs[i].computed..reqs[i].computed + count],
                 FullKV(m.step, reqs[i].tokens)[reqs[i].computed..reqs[i].computed + count]);
  }

  lemma InjectedReady(m: Model, mem0: Memory, mem: Memory, mem': Memory, reqs: seq<Request>, from: seq<nat>, i: nat,
                      count: nat, from': nat)
    requires i < |reqs| && Ready(m, mem0, mem, reqs, from) && from[i] == reqs[i].computed
    requires from[i] <= from' <= from[i] + count <= |reqs[i].tokens| == |reqs[i].slots|
    requires var lo, hi := reqs[i].computed, reqs[i].computed + count;
             && InBounds(reqs[i].slots[lo..hi], |mem|)
             && mem' == WriteTo(mem, reqs[i].slots[lo..hi], FullKV(m.step, reqs[i].tokens)[lo..hi])
    ensures Ready(m, mem0, mem', reqs, from[i := from'])
  {
    InjectReady(m, mem0, mem, reqs, from, i, from[i] + count, from');
  }

  /** Injecting what was found moves the starting position of one request, by as many tokens as
      are found or fewer. */
  lemma WriteReady(call: Call, m: Model, mem0: Memory, mem: Memory, reqs: seq<Request>, from: seq<nat>, i: nat,
                   count: nat, from': nat)
    requires Matched(call.input, call.infos, reqs) && Sound(call) && i < |reqs|
    requires Ready(m, mem0, mem, reqs, from) && from[i] == reqs[i].computed
    requires call.Framed() && InBounds(call.input.slotMapping, |mem|) && count <= call.Required(i)
    requires !Unusable(call.Plan(i, count), call.status)
    requires from[i] <= from' <= from[i] + (if call.Plan(i, count).lmcComputed == 0 then 0 else count)
    ensures Ready(m, mem0, call.Write(m.step, mem, i, count), reqs, from[i := from'])
  {
    SoundOne(call, reqs, |mem|, i);
    if call.Plan(i, count).lmcComputed == 0 {
      assert from[i := from'] == from;
    } else {
      WriteIsInjection(call, m, mem, reqs, i, count);
      InjectedReady(m, mem0, mem, call.Write(m.step, mem, i, count), reqs, from, i, count, from');
    }
  }

  /** The position each request starts from once the first of them are planned. */
  ghost function FromUntil(plans: seq<SeqPlan>, reqs: seq<Request>): (s: seq<nat>)
    requires |plans| <= |reqs|
    ensures |s| == |reqs|
    ensures forall k :: 0 <= k < |reqs| ==> s[k] == if k < |plans| then plans[k].numComputed else reqs[k].computed
  {
    seq(|reqs|, k requires 0 <= k < |reqs| => if k < |plans| then plans[k].numComputed else reqs[k].computed)
  }

  /** Whatever was found so far, every request can be carried on from where it is planned. */
  lemma {:induction false} MemReady(call: Call, m: Model, mem: Memory, reqs: seq<Request>, counts: seq<nat>, n: nat)
    requires Matched(call.input, call.infos, reqs) && Sound(call) && n <= |reqs|
    requires Ready(m, mem, mem, reqs, ComputedOf(reqs))
    requires call.Framed() && InBounds(call.input.slotMapping, |mem|) && call.Fitting(counts) && call.Usable(counts, n)
    ensures Ready(m, mem, call.MemAt(m.step, mem, counts, n), reqs, FromUntil(call.Plans(counts, n), reqs))
  {
    if n == 0 {
      assert FromUntil([], reqs) == ComputedOf(reqs);
    } else {
      var i := n - 1;
      MemReady(call, m, mem, reqs, counts, i);
      MemReadyNext(call, m, mem, call.MemAt(m.step, mem, counts, i), reqs, counts, i);
      assert call.MemAt(m.step, mem, counts, n)
             == call.Write(m.step, call.MemAt(m.step, mem, counts, i), i, counts[i]);
    }
  }

  lemma MemReadyNext(call: Call, m: Model, mem0: Memory, mem: Memory, reqs: seq<Request>, counts: seq<nat>, i: nat)
    requires Matched(call.input, call.infos, reqs) && Sound(call) && i < |reqs|
    requires call.Framed() && InBounds(call.input.slotMapping, |mem|) && call.Fitting(counts)
    requires call.Usable(counts, i + 1) && Ready(m, mem0, mem, reqs, FromUntil(call.Plans(counts, i), reqs))
    ensures Ready(m, mem0, call.Write(m.step, mem, i, counts[i]), reqs, FromUntil(call.Plans(counts, i + 1), reqs))
  {
    var from, next := FromUntil(call.Plans(counts, i), reqs), FromUntil(call.Plans(counts, i + 1), reqs);
    SoundOne(call, reqs, |mem|, i);
    WriteReady(call, m, mem0, mem, reqs, from, i, counts[i], next[i]);
    assert next == from[i := next[i]];
  }

  /** How far memory holds each request once the first `n` of them have been retrieved for. A
      window of one token leaves nothing to inject. */
  ghost function FoundUntil(call: Call, reqs: seq<Request>, counts: seq<nat>, n: nat): (s: seq<nat>)
    requires call.Framed() && call.Fitting(counts) && n <= |reqs| == |call.infos|
    ensures |s| == |reqs|
    ensures forall k :: 0 <= k < |reqs| ==>
              s[k] == reqs[k].computed + (if k < n && call.Required(k) > 1 then counts[k] else 0)
  {
    seq(|reqs|, k requires 0 <= k < |reqs| =>
      reqs[k].computed + (if k < n && call.Required(k) > 1 then counts[k] else 0))
  }

  /** Everything that was found is in the request's slots, also where requests share them. */
  lemma {:induction false} MemFound(call: Call, m: Model, mem: Memory, reqs: seq<Request>, counts: seq<nat>, n: nat)
    requires Matched(call.input, call.infos, reqs) && Sound(call) && n <= |reqs| && call.status == Prefill
    requires Ready(m, mem, mem, reqs, ComputedOf(reqs))
    requires call.Framed() && InBounds(call.input.slotMapping, |mem|) && call.Fitting(counts)
    ensures Ready(m, mem, call.MemAt(m.step, mem, counts, n), reqs, FoundUntil(call, reqs, counts, n))
  {
    if n == 0 {
      assert FoundUntil(call, reqs, counts, 0) == ComputedOf(reqs);
    } else {
      var i := n - 1;
      MemFound(call, m, mem, reqs, counts, i);
      MemFoundNext(call, m, mem, call.MemAt(m.step, mem, counts, i), reqs, counts, i);
      assert call.MemAt(m.step, mem, counts, n)
             == call.Write(m.step, call.MemAt(m.step, mem, counts, i), i, counts[i]);
    }
  }

  lemma MemFoundNext(call: Call, m: Model, mem0: Memory, mem: Memory, reqs: seq<Request>, counts: seq<nat>, i: nat)
    requires Matched(call.input, call.infos, reqs) && Sound(call) && i < |reqs| && call.status == Prefill
    requires call.Framed() && InBounds(call.input.slotMapping, |mem|) && call.Fitting(counts)
    requires Ready(m, mem0, mem, reqs, FoundUntil(call, reqs, counts, i))
    ensures Ready(m, mem0, call.Write(m.step, mem, i, counts[i]), reqs, FoundUntil(call, reqs, counts, i + 1))
  {
    var from, next := FoundUntil(call, reqs, counts, i), FoundUntil(call, reqs, counts, i + 1);
    WriteReady(call, m, mem0, mem, reqs, from, i, counts[i], next[i]);
    assert next == from[i := next[i]];
  }

  /** Ready to carry on is, in particular, ready to run the original input. */
  lemma ReadyOriginal(m: Model, mem0: Memory, mem: Memory, reqs: seq<Request>, from: seq<nat>)
    requires Ready(m, mem0, mem, reqs, from)
    ensures Ready(m, mem0, mem, reqs, ComputedOf(reqs))
  {
    forall i | 0 <= i < |reqs|
      ensures Holds(m, mem, reqs[i], reqs[i].computed)
    {
      assert Holds(m, mem, reqs[i], from[i]);
    }
  }

  /** The part of the original window that is left for a planned sequence. */
  lemma PlannedWindow(input: ModelInput, reqs: seq<Request>, plan: SeqPlan, i: nat)
    requires Describes(input, reqs, ComputedOf(reqs)) && i < |reqs| && Planned(plan, reqs[i], input.queryStartLoc[i])
    requires Fits(input, plan)
    ensures |reqs[i].slots| == |reqs[i].tokens|
    ensures WindowOf(input, plan)
            == Window(reqs[i].tokens[plan.numComputed..], Range(plan.numComputed, |reqs[i].tokens|),
                      reqs[i].slots[plan.numComputed..], plan.numComputed)
  {
    WindowsPartition(input, reqs, i, plan.lmcComputed);
    assert DescribesOne(input, i, reqs[i], ComputedOf(reqs)[i]);
  }

  /** A rebuilt input describes the same requests, from where they are planned. */
  lemma RebuiltDescribes(input: ModelInput, rebuilt: ModelInput, plans: seq<SeqPlan>, reqs: seq<Request>)
    requires Describes(input, reqs, ComputedOf(reqs)) && |plans| == |reqs|
    requires AllFit(input, plans) && IsRebuilt(input, plans, rebuilt)
    requires forall i {:trigger plans[i]} :: 0 <= i < |plans| ==> Planned(plans[i], reqs[i], input.queryStartLoc[i])
    ensures Describes(rebuilt, reqs, NumComputed(plans))
  {
    var wins := WindowsOf(input, plans);
    forall i | 0 <= i < |reqs|
      ensures DescribesOne(rebuilt, i, reqs[i], plans[i].numComputed)
    {
      assert DescribesOne(input, i, reqs[i], ComputedOf(reqs)[i]);
      assert RebuiltOne(WindowsIn(rebuilt), i, wins[i]);
      PlannedWindow(input, reqs, plans[i], i);
    }
  }

  lemma RebuiltInputIs(input: ModelInput, plans: seq<SeqPlan>)
    requires AllFit(input, plans)
    ensures IsRebuilt(input, plans, RebuiltInput(input, plans))
  {
    BuildingBuilt(input, plans);
  }

  // ---------- running around the cache ----------

  /** The run of one sequence of the batch. */
  function WindowRun(m: Model, mem: Memory, input: ModelInput, i: nat): (r: RunResult)
    requires Shaped(input, |mem|) && i < |input.tables|
    ensures |r.mem| == |mem| && input.queryStartLoc[i] + |r.rows| == input.queryStartLoc[i + 1]
  {
    var lo, hi := input.queryStartLoc[i], input.queryStartLoc[i + 1];
    ForwardSeq(m, mem, input.tables[i], input.seqLens[i] - (hi - lo), input.inputTokens[lo..hi],
               input.inputPositions[lo..hi], input.slotMapping[lo..hi])
  }

  lemma ForwardNext(m: Model, mem: Memory, input: ModelInput, i: nat)
    requires Shaped(input, |mem|) && i < |input.tables|
    ensures var first := WindowRun(m, mem, input, i);
            var rest := Forward(m, first.mem, input, i + 1);
            Forward(m, mem, input, i) == RunResult(rest.mem, first.rows + rest.rows)
  {
  }

  lemma {:induction false} RowCount(m: Model, mem: Memory, input: ModelInput, i: nat)
    requires Shaped(input, |mem|) && i <= |input.tables|
    ensures |Forward(m, mem, input, i).rows| == |input.inputTokens| - input.queryStartLoc[i]
    decreases |input.tables| - i
  {
    if i < |input.tables| {
      ForwardNext(m, mem, input, i);
      RowCount(m, WindowRun(m, mem, input, i).mem, input, i + 1);
    }
  }

  /** The input can be run, and its selected rows exist. */
  predicate Sampleable(input: ModelInput, size: nat) {
    Shaped(input, size) && InBounds(input.selected, |input.inputTokens|)
  }

  /** Running an input: the memory it leaves and the rows handed to the sampler. */
  function Sampled(m: Model, mem: Memory, input: ModelInput): (r: (Memory, seq<Hidden>))
    requires Sampleable(input, |mem|)
    ensures |r.0| == |mem|
  {
    RowCount(m, mem, input, 0);
    var run := Forward(m, mem, input, 0);
    (run.mem, Pick(run.rows, input.selected))
  }

  /** A batch to run around the cache, for the given requests. */
  ghost predicate Runnable(call: Call, reqs: seq<Request>, counts: seq<nat>, size: nat) {
    && Matched(call.input, call.infos, reqs) && Separate(reqs, size) && call.status == Prefill
    && call.Framed() && call.Fitting(counts) && call.input.selected == SelectedUpto(call, |call.infos|)
  }

  /** Running a batch taken for a full prefill around the cache, when as many tokens are found
      for its sequences as `counts` says. */
  ghost function CachedRun(m: Model, mem: Memory, call: Call, reqs: seq<Request>, counts: seq<nat>)
    : (Memory, seq<Hidden>)
    requires Runnable(call, reqs, counts, |mem|)
  {
    RunSampleable(call, reqs, counts, |mem|);
    Sampled(m, call.MemAt(m.step, mem, counts, |call.infos|), call.RunInput(counts))
  }

  lemma WindowInBounds(input: ModelInput, plan: SeqPlan, size: nat)
    requires Fits(input, plan) && InBounds(input.slotMapping, size)
    ensures InBounds(WindowOf(input, plan).slots, size)
  {
    var win, lo := WindowOf(input, plan), plan.startPos + plan.lmcComputed;
    assert forall j :: 0 <= j < |win.slots| ==> win.slots[j] == input.slotMapping[lo + j];
  }

  lemma {:induction false} WindowsInBounds(w: Windows, wins: seq<Window>, size: nat, n: nat)
    requires Rebuilt(w, wins) && n <= |wins| && forall k :: 0 <= k < |wins| ==> InBounds(wins[k].slots, size)
    ensures InBounds(w.slots[..w.starts[n]], size)
  {
    if n > 0 {
      WindowsInBounds(w, wins, size, n - 1);
      assert RebuiltOne(w, n - 1, wins[n - 1]);
      var lo, hi := w.starts[n - 1], w.starts[n];
      assert w.slots[..hi] == w.slots[..lo] + w.slots[lo..hi];
    }
  }

  /** The window of a rebuilt sequence fits its table. */
  lemma RebuiltWindowFits(call: Call, reqs: seq<Request>, counts: seq<nat>, size: nat, i: nat)
    requires Runnable(call, reqs, counts, size) && i < |reqs|
    ensures InBounds(call.input.tables[i], size)
    ensures call.Required(i) <= call.input.seqLens[i] <= |call.input.tables[i]|
    ensures var plan := call.Plan(i, counts[i]);
            plan.numComputed <= |plan.fullTokens| <= plan.numComputed + call.Required(i)
  {
    assert DescribesOne(call.input, i, reqs[i], ComputedOf(reqs)[i]);
    assert call.FramedAt(i);
  }

  /** Whatever was found, the input that is run has windows within its tables. */
  lemma RebuiltSampleable(call: Call, reqs: seq<Request>, counts: seq<nat>, rebuilt: ModelInput, size: nat)
    requires Runnable(call, reqs, counts, size)
    requires AllFit(call.input, call.Plans(counts, |call.infos|))
    requires IsRebuilt(call.input, call.Plans(counts, |call.infos|), rebuilt)
    ensures Sampleable(rebuilt, size)
  {
    MatchedFramed(call, reqs, size);
    var plans := call.Plans(counts, |call.infos|);
    var wins, w := WindowsOf(call.input, plans), WindowsIn(rebuilt);
    forall k | 0 <= k < |wins|
      ensures InBounds(wins[k].slots, size)
    {
      WindowInBounds(call.input, plans[k], size);
    }
    WindowsInBounds(w, wins, size, |wins|);
    assert w.slots[..w.starts[|wins|]] == w.slots;
    forall i | 0 <= i < |reqs|
      ensures rebuilt.queryStartLoc[i] <= rebuilt.queryStartLoc[i + 1]
      ensures InBounds(rebuilt.tables[i], size)
      ensures rebuilt.queryStartLoc[i + 1] - rebuilt.queryStartLoc[i] <= rebuilt.seqLens[i] <= |rebuilt.tables[i]|
    {
      assert RebuiltOne(w, i, wins[i]);
      RebuiltWindowFits(call, reqs, counts, size, i);
    }
  }

  lemma RunSampleable(call: Call, reqs: seq<Request>, counts: seq<nat>, size: nat)
    requires Runnable(call, reqs, counts, size)
    ensures InBounds(call.input.slotMapping, size)
    ensures Sampleable(call.input, size) && Sampleable(call.RunInput(counts), size)
  {
    DescribesShaped(call.input, reqs, ComputedOf(reqs), size);
    var plans := call.Plans(counts, |call.infos|);
    if Missed(plans) != |plans| {
      call.PlansFit(counts);
      RebuiltInputIs(call.input, plans);
      RebuiltSampleable(call, reqs, counts, RebuiltInput(call.input, plans), size);
    }
  }

  /** If nothing was found, nothing is injected. */
  lemma {:induction false} MissedLeaves(call: Call, step: Step, mem: Memory, counts: seq<nat>, n: nat)
    requires call.Framed() && InBounds(call.input.slotMapping, |mem|) && call.Fitting(counts) && n <= |call.infos|
    requires forall i :: 0 <= i < n ==> call.Plan(i, counts[i]).lmcComputed == 0
    ensures call.MemAt(step, mem, counts, n) == mem
  {
    if n > 0 {
      MissedLeaves(call, step, mem, counts, n - 1);
    }
  }

  lemma NothingFound(m: Model, mem: Memory, call: Call, reqs: seq<Request>, counts: seq<nat>)
    requires Runnable(call, reqs, counts, |mem|)
    requires forall i :: 0 <= i < |call.infos| ==> call.Plan(i, counts[i]).lmcComputed == 0
    ensures Sampleable(call.input, |mem|)
    ensures CachedRun(m, mem, call, reqs, counts) == Sampled(m, mem, call.input)
  {
    RunSampleable(call, reqs, counts, |mem|);
    MissedLeaves(call, m.step, mem, counts, |call.infos|);
    call.MissedRuns(counts);
  }

  /** Every plan stands for its request, if the whole sequences are in the batch. */
  lemma WholePlanned(call: Call, reqs: seq<Request>, counts: seq<nat>, size: nat)
    requires Runnable(call, reqs, counts, size) && Whole(call.input, call.infos)
    ensures var plans := call.Plans(counts, |call.infos|);
            forall i {:trigger plans[i]} :: 0 <= i < |plans| ==>
              Planned(plans[i], reqs[i], call.input.queryStartLoc[i])
  {
    forall i | 0 <= i < |reqs|
      ensures Planned(call.Plan(i, counts[i]), reqs[i], call.input.queryStartLoc[i])
    {
      SoundOne(call, reqs, size, i);
      call.PlanFits(i, counts[i]);
    }
  }

  /** What is run instead describes the same requests, from where memory is ready for them. */
  lemma WholeRebuilt(m: Model, mem: Memory, call: Call, reqs: seq<Request>, counts: seq<nat>)
    requires Runnable(call, reqs, counts, |mem|) && Whole(call.input, call.infos)
    requires Ready(m, mem, mem, reqs, ComputedOf(reqs)) && InBounds(call.input.slotMapping, |mem|)
    ensures var n, plans := |call.infos|, call.Plans(counts, |call.infos|);
            && Ready(m, mem, call.MemAt(m.step, mem, counts, n), reqs, NumComputed(plans))
            && (Missed(plans) != n ==>
                  Describes(call.RunInput(counts), reqs, NumComputed(plans)) && SelectsLast(call.RunInput(counts)))
  {
    var n, plans := |call.infos|, call.Plans(counts, |call.infos|);
    MemReady(call, m, mem, reqs, counts, n);
    assert FromUntil(plans, reqs) == NumComputed(plans);
    if Missed(plans) != n {
      WholePlanned(call, reqs, counts, |mem|);
      call.PlansFit(counts);
      RebuiltInputIs(call.input, plans);
      RebuiltDescribes(call.input, RebuiltInput(call.input, plans), plans, reqs);
    }
  }

  lemma WholeRun(m: Model, mem: Memory, call: Call, reqs: seq<Request>, counts: seq<nat>)
    requires Runnable(call, reqs, counts, |mem|) && Whole(call.input, call.infos)
    requires |call.input.selected| == |call.infos| && Ready(m, mem, mem, reqs, ComputedOf(reqs))
    ensures Sampleable(call.input, |mem|)
    ensures CachedRun(m, mem, call, reqs, counts) == Sampled(m, mem, call.input)
  {
    var n, plans := |call.infos|, call.Plans(counts, |call.infos|);
    RunSampleable(call, reqs, counts, |mem|);
    if Missed(plans) == n {
      assert forall i :: 0 <= i < n ==> plans[i] == call.Plan(i, counts[i]);
      NothingFound(m, mem, call, reqs, counts);
    } else {
      WholeSelectsLast(call);
      WholeRebuilt(m, mem, call, reqs, counts);
      SameSampled(m, mem, reqs, call.input, call.RunInput(counts), NumComputed(plans),
                  call.MemAt(m.step, mem, counts, n));
    }
  }

  lemma SameSampled(m: Model, mem: Memory, reqs: seq<Request>, input: ModelInput, input': ModelInput, from: seq<nat>,
                    mem': Memory)
    requires Describes(input, reqs, ComputedOf(reqs)) && Ready(m, mem, mem, reqs, ComputedOf(reqs))
    requires Describes(input', reqs, from) && Ready(m, mem, mem', reqs, from)
    requires SelectsLast(input) && SelectsLast(input')
    requires Sampleable(input, |mem|) && Sampleable(input', |mem'|)
    ensures Sampled(m, mem, input) == Sampled(m, mem', input')
  {
    RewritePreservesMeaning(m, mem, reqs, input, ComputedOf(reqs), mem, input', from, mem');
  }

  /** A batch that can be taken for a full prefill: it reaches the end of every sequence, or
      has a single token of each, so that nothing can be left out. */
  predicate FullPrefill(call: Call)
    requires call.Framed()
  {
    Whole(call.input, call.infos) || forall i :: 0 <= i < |call.infos| ==> call.Required(i) == 1
  }

  /** Whatever is found for such a batch, running it around the cache is running it. */
  lemma FullPrefillRun(m: Model, mem: Memory, call: Call, reqs: seq<Request>, counts: seq<nat>)
    requires Runnable(call, reqs, counts, |mem|) && FullPrefill(call)
    requires |call.input.selected| == |call.infos| && Ready(m, mem, mem, reqs, ComputedOf(reqs))
    ensures Sampleable(call.input, |mem|)
    ensures CachedRun(m, mem, call, reqs, counts) == Sampled(m, mem, call.input)
  {
    if Whole(call.input, call.infos) {
      WholeRun(m, mem, call, reqs, counts);
    } else {
      NothingFound(m, mem, call, reqs, counts);
    }
  }

  // ---------- chunked prefill ----------

  /** In chunked prefill every request is complete if the run is skipped, and can be run as it
      was otherwise. */
  lemma ChunkRun(m: Model, mem: Memory, mem': Memory, call: Call, reqs: seq<Request>, counts: seq<nat>, r: Outcome)
    requires Matched(call.input, call.infos, reqs) && Ready(m, mem, mem, reqs, ComputedOf(reqs))
    requires call.status == ChunkPrefill && RetrieveEnded(call, counts, m.step, mem, mem', r)
    ensures r.input == call.input && Ready(m, mem, mem', reqs, ComputedOf(reqs))
    ensures r.skip ==> Complete(m, mem, mem', reqs)
  {
    var n: nat :| InjectedUpto(call, counts, m.step, mem, mem', n) && (r.skip ==> n == |call.infos|);
    MemReady(call, m, mem, reqs, counts, n);
    var from := FromUntil(call.Plans(counts, n), reqs);
    ReadyOriginal(m, mem, mem', reqs, from);
    if r.skip {
      forall i | 0 <= i < |reqs|
        ensures Holds(m, mem', reqs[i], |reqs[i].tokens|)
      {
        SoundOne(call, reqs, |mem|, i);
        call.PlanFits(i, counts[i]);
        assert !Unusable(call.Plan(i, counts[i]), call.status);
        assert Holds(m, mem', reqs[i], from[i]);
      }
    }
  }
}
