/** The adapter between the serving engine and the cache: it moves cached KV into paged
    memory, shortens the prefill accordingly, and stores what was computed. */
module Adapter {
  import opened Wrappers
  import opened Chunking
  import opened EngineModel
  import opened CacheEngine
  import opened CacheCoherence
  import opened PagedPrefill

  /** The statuses under which the adapter retrieves. */
  datatype RetrieveStatus = Prefill | ChunkPrefill

  /** What the adapter reads of a sequence: all its tokens, however many of them are in the
      batch, and how it is to be sampled. */
  datatype SeqInfo = SeqInfo(tokenIds: seq<Token>, isPrompt: bool, promptLogprobs: bool, clientId: int)

  datatype Outcome = Outcome(input: ModelInput, skip: bool, keys: seq<seq<Key>>)

  function ComputedOf(reqs: seq<Request>): (s: seq<nat>)
    ensures |s| == |reqs| && forall i :: 0 <= i < |reqs| ==> s[i] == reqs[i].computed
  {
    seq(|reqs|, i requires 0 <= i < |reqs| => reqs[i].computed)
  }

  // ---------- counting masks ----------

  lemma {:induction false} CountRange(n: nat, lo: nat, hi: nat)
    requires lo <= hi <= n
    ensures CountFalse(RangeMask(n, lo, hi)) == n - (hi - lo)
  {
    if n > 0 {
      var mask := RangeMask(n, lo, hi);
      var hi', lo' := if hi == n then n - 1 else hi, if lo == n then n - 1 else lo;
      assert mask[..n - 1] == RangeMask(n - 1, lo', hi');
      CountRange(n - 1, lo', hi');
    }
  }

  // ---------- injecting cached KV ----------

  /** Writing `kv` to `slots`, one slot per token. */
  function WriteTo(mem: Memory, slots: seq<Slot>, kv: seq<KV>): (mem': Memory)
    requires |slots| == |kv| && InBounds(slots, |mem|)
    ensures |mem'| == |mem|
  {
    if kv == [] then mem
    else
      var n := |kv| - 1;
      WriteTo(mem, slots[..n], kv[..n])[slots[n] := kv[n]]
  }

  /** The cache kernel: as many tokens as there is KV, at the slots listed from `start` on. */
  method ReshapeAndCache(paged: array<KV>, kv: seq<KV>, slotMapping: seq<Slot>, start: nat)
    requires start + |kv| <= |slotMapping| && InBounds(slotMapping, paged.Length)
    modifies paged
    ensures paged[..] == WriteTo(old(paged[..]), slotMapping[start..start + |kv|], kv)
  {
    ghost var before := paged[..];
    for j := 0 to |kv|
      invariant paged[..] == WriteTo(before, slotMapping[start..start + j], kv[..j])
    {
      assert slotMapping[start..start + j + 1][..j] == slotMapping[start..start + j];
      assert kv[..j + 1][..j] == kv[..j];
      paged[slotMapping[start + j]] := kv[j];
    }
    assert kv[..|kv|] == kv;
  }

  lemma {:induction false} WriteToPointwise(mem: Memory, slots: seq<Slot>, kv: seq<KV>)
    requires |slots| == |kv| && InBounds(slots, |mem|) && Distinct(slots)
    ensures var mem' := WriteTo(mem, slots, kv);
            && (forall j :: 0 <= j < |kv| ==> mem'[slots[j]] == kv[j])
            && Preserved(mem, mem', slots)
  {
    if kv != [] {
      var n := |kv| - 1;
      WriteToPointwise(mem, slots[..n], kv[..n]);
      var before := WriteTo(mem, slots[..n], kv[..n]);
      forall j | 0 <= j < n
        ensures before[slots[n] := kv[n]][slots[j]] == kv[j]
      {
        assert slots[..n][j] == slots[j] && kv[..n][j] == kv[j];
      }
      assert slots == slots[..n] + [slots[n]];
    }
  }

  lemma WriteHolds(m: Model, mem: Memory, req: Request, from: nat, upto: nat)
    requires from <= upto <= |req.tokens| && Holds(m, mem, req, from) && Distinct(req.slots)
    ensures var mem' := WriteTo(mem, req.slots[from..upto], FullKV(m.step, req.tokens)[from..upto]);
            Holds(m, mem', req, upto) && Preserved(mem, mem', req.slots[from..upto])
  {
    var slots, kv := req.slots[from..upto], FullKV(m.step, req.tokens)[from..upto];
    WriteToPointwise(mem, slots, kv);
    var mem' := WriteTo(mem, slots, kv);
    assert forall j :: from <= j < upto ==>
          req.slots[j] == slots[j - from] && kv[j - from] == FullKV(m.step, req.tokens)[j];
  }

  /** Injecting recomputed KV past the computed tokens of one request moves its starting
      position and leaves every other request as it was. */
  lemma InjectReady(m: Model, mem0: Memory, mem: Memory, reqs: seq<Request>, from: seq<nat>, i: nat, upto: nat,
                    from': nat)
    requires i < |reqs| && Ready(m, mem0, mem, reqs, from) && from[i] == reqs[i].computed
    requires from[i] <= from' <= upto <= |reqs[i].tokens|
    ensures var mem' := WriteTo(mem, reqs[i].slots[from[i]..upto], FullKV(m.step, reqs[i].tokens)[from[i]..upto]);
            Ready(m, mem0, mem', reqs, from[i := from'])
  {
    var mem' := WriteTo(mem, reqs[i].slots[from[i]..upto], FullKV(m.step, reqs[i].tokens)[from[i]..upto]);
    WriteHolds(m, mem, reqs[i], from[i], upto);
    SameElsewhereTrans(mem0, mem, mem', reqs, i, from[i], upto);
    forall k | 0 <= k < |reqs| && k != i
      ensures Holds(m, mem', reqs[k], from[k])
    {
      HoldsPreserved(m, mem, mem', reqs[i], reqs[k], from[i], upto, from[k]);
    }
  }

  // ---------- rebuilding the input ----------

  /** What a rebuild appends for one sequence. */
  datatype Window = Window(tokens: seq<Token>, positions: seq<nat>, slots: seq<Slot>, computed: nat)

  /** The lists a rebuild grows, one window per sequence. */
  datatype Windows = Windows(tokens: seq<Token>, positions: seq<nat>, slots: seq<Slot>, starts: seq<nat>,
                             queryLens: seq<nat>, contextLens: seq<nat>)

  /** The lists hold the windows one after the other. */
  ghost predicate Rebuilt(w: Windows, wins: seq<Window>) {
    && |w.starts| == |wins| + 1 && w.starts[0] == 0
    && |w.queryLens| == |w.contextLens| == |wins|
    && |w.tokens| == |w.positions| == |w.slots| == w.starts[|wins|]
    && (forall k :: 0 <= k <= |wins| ==> w.starts[k] <= |w.tokens|)
    && (forall k {:trigger wins[k]} :: 0 <= k < |wins| ==> RebuiltOne(w, k, wins[k]))
  }

  ghost predicate RebuiltOne(w: Windows, k: nat, win: Window)
    requires k + 1 < |w.starts| && k < |w.queryLens| == |w.contextLens|
    requires w.starts[k + 1] <= |w.tokens| == |w.positions| == |w.slots|
  {
    var lo, hi := w.starts[k], w.starts[k + 1];
    && hi == lo + |win.tokens|
    && w.queryLens[k] == |win.tokens| && w.contextLens[k] == win.computed
    && w.tokens[lo..hi] == win.tokens
    && w.positions[lo..hi] == win.positions
    && w.slots[lo..hi] == win.slots
  }

  function AddWindow(w: Windows, win: Window): Windows
    requires w.starts != []
  {
    Windows(w.tokens + win.tokens, w.positions + win.positions, w.slots + win.slots,
            w.starts + [w.starts[|w.starts| - 1] + |win.tokens|],
            w.queryLens + [|win.tokens|], w.contextLens + [win.computed])
  }

  lemma RebuiltNext(w: Windows, wins: seq<Window>, win: Window)
    requires Rebuilt(w, wins) && |win.tokens| == |win.positions| == |win.slots|
    ensures Rebuilt(AddWindow(w, win), wins + [win])
  {
    var w' := AddWindow(w, win);
    forall k | 0 <= k < |wins|
      ensures RebuiltOne(w', k, wins[k])
    {
      assert RebuiltOne(w, k, wins[k]);
      KeepsWindow(w.tokens, win.tokens, w.starts[k], w.starts[k + 1]);
      KeepsWindow(w.positions, win.positions, w.starts[k], w.starts[k + 1]);
      KeepsWindow(w.slots, win.slots, w.starts[k], w.starts[k + 1]);
    }
    assert RebuiltOne(w', |wins|, win);
  }

  lemma KeepsWindow<T>(s: seq<T>, t: seq<T>, lo: nat, hi: nat)
    requires lo <= hi <= |s|
    ensures (s + t)[lo..hi] == s[lo..hi]
  {
  }

  lemma WindowSplit<T>(s: seq<T>, lo: nat, hi: nat, k: nat)
    requires lo + k <= hi <= |s|
    ensures s[lo + k..hi] == s[lo..hi][k..] && s[lo..lo + k] == s[lo..hi][..k]
  {
  }

  /** The remaining tokens, positions and slots of a sequence are the suffixes of its
      original windows: what is dropped and what is kept tile the window. */
  lemma WindowsPartition(input: ModelInput, reqs: seq<Request>, i: nat, lmc: nat)
    requires Describes(input, reqs, ComputedOf(reqs)) && i < |reqs|
    requires reqs[i].computed + lmc <= |reqs[i].tokens|
    ensures var lo, hi := input.queryStartLoc[i], input.queryStartLoc[i + 1];
            var from := reqs[i].computed + lmc;
            && lo + lmc + (|reqs[i].tokens| - from) == hi <= |input.slotMapping|
            && input.slotMapping[lo..lo + lmc] == reqs[i].slots[reqs[i].computed..from]
            && input.slotMapping[lo + lmc..hi] == reqs[i].slots[from..]
            && input.inputTokens[lo + lmc..hi] == reqs[i].tokens[from..]
            && input.inputPositions[lo + lmc..hi] == Range(from, |reqs[i].tokens|)
  {
    assert DescribesOne(input, i, reqs[i], ComputedOf(reqs)[i]);
    var lo, hi := input.queryStartLoc[i], input.queryStartLoc[i + 1];
    WindowSplit(input.slotMapping, lo, hi, lmc);
    WindowSplit(input.inputTokens, lo, hi, lmc);
    WindowSplit(input.inputPositions, lo, hi, lmc);
    assert reqs[i].slots[reqs[i].computed..][..lmc] == reqs[i].slots[reqs[i].computed..reqs[i].computed + lmc];
  }

  /** What the retrieve loop records of one sequence: its tokens, how many of them are
      computed or cached, where its window starts, and how many are cached. */
  datatype SeqPlan = SeqPlan(fullTokens: seq<Token>, numComputed: nat, startPos: nat, lmcComputed: nat, isPrefill: bool)

  /** The plan stands for the request, from a position short of its end. */
  ghost predicate Planned(plan: SeqPlan, req: Request, start: nat) {
    && plan.fullTokens == req.tokens && plan.startPos == start
    && plan.numComputed == req.computed + plan.lmcComputed < |req.tokens|
  }

  function NumComputed(plans: seq<SeqPlan>): (s: seq<nat>)
    ensures |s| == |plans| && forall i :: 0 <= i < |plans| ==> s[i] == plans[i].numComputed
  {
    seq(|plans|, i requires 0 <= i < |plans| => plans[i].numComputed)
  }

  /** What is left of a planned sequence lies within the input, and is one token outside
      prefill. */
  predicate Fits(input: ModelInput, plan: SeqPlan) {
    && plan.numComputed < |plan.fullTokens|
    && plan.startPos + plan.lmcComputed + (|plan.fullTokens| - plan.numComputed) <= |input.slotMapping|
    && |input.slotMapping| == |input.inputPositions|
    && (plan.isPrefill || |plan.fullTokens| == plan.numComputed + 1)
  }

  /** The last tokens of the sequence, at the last positions and slots of its window. */
  function WindowOf(input: ModelInput, plan: SeqPlan): (win: Window)
    requires Fits(input, plan)
    ensures |win.tokens| == |win.positions| == |win.slots| == |plan.fullTokens| - plan.numComputed
  {
    var lo := plan.startPos + plan.lmcComputed;
    var hi := lo + (|plan.fullTokens| - plan.numComputed);
    Window(plan.fullTokens[plan.numComputed..], input.inputPositions[lo..hi], input.slotMapping[lo..hi],
           plan.numComputed)
  }

  predicate AllFit(input: ModelInput, plans: seq<SeqPlan>) {
    forall i :: 0 <= i < |plans| ==> Fits(input, plans[i])
  }

  function WindowsOf(input: ModelInput, plans: seq<SeqPlan>): (wins: seq<Window>)
    requires AllFit(input, plans)
    ensures |wins| == |plans| && forall i :: 0 <= i < |plans| ==> wins[i] == WindowOf(input, plans[i])
  {
    seq(|plans|, i requires 0 <= i < |plans| => WindowOf(input, plans[i]))
  }

  /** Everything a rebuild has produced so far. */
  datatype Building = Building(w: Windows, selected: seq<nat>, numPrefills: nat, numPrefillTokens: nat,
                               maxQueryLen: nat)

  /** The windows are those of the plans, and so is the metadata. */
  ghost predicate Built(b: Building, input: ModelInput, plans: seq<SeqPlan>) {
    && AllFit(input, plans)
    && Rebuilt(b.w, WindowsOf(input, plans)) && Counted(b, b.w.starts, b.w.queryLens, plans)
  }

  /** The last rows, the maximum and the counts are those of `plans`. */
  ghost predicate Counted(b: Building, starts: seq<nat>, queryLens: seq<nat>, plans: seq<SeqPlan>) {
    && |starts| == |plans| + 1 && |b.selected| == |queryLens| == |plans|
    && (forall k :: 0 <= k < |plans| ==> b.selected[k] + 1 == starts[k + 1])
    && b.maxQueryLen == Maximum(queryLens)
    && b.numPrefills == CountPrefills(plans)
    && b.numPrefillTokens == PrefillTokens(plans, queryLens)
  }

  function AddSequence(b: Building, win: Window, isPrefill: bool): Building
    requires b.w.starts != [] && win.tokens != []
  {
    var qLen := |win.tokens|;
    var last := b.w.starts[|b.w.starts| - 1] + qLen;
    Building(AddWindow(b.w, win), b.selected + [last - 1],
             if isPrefill then b.numPrefills + 1 else b.numPrefills,
             if isPrefill then b.numPrefillTokens + qLen else b.numPrefillTokens,
             if qLen > b.maxQueryLen then qLen else b.maxQueryLen)
  }

  lemma BuiltNext(b: Building, input: ModelInput, plans: seq<SeqPlan>, plan: SeqPlan)
    requires Built(b, input, plans) && Fits(input, plan)
    ensures Built(AddSequence(b, WindowOf(input, plan), plan.isPrefill), input, plans + [plan])
  {
    var win := WindowOf(input, plan);
    RebuiltNext(b.w, WindowsOf(input, plans), win);
    assert WindowsOf(input, plans + [plan]) == WindowsOf(input, plans) + [win];
    CountedNext(b, win, plans, plan);
  }

  lemma CountedNext(b: Building, win: Window, plans: seq<SeqPlan>, plan: SeqPlan)
    requires Counted(b, b.w.starts, b.w.queryLens, plans) && win.tokens != []
    ensures var b' := AddSequence(b, win, plan.isPrefill);
            Counted(b', b'.w.starts, b'.w.queryLens, plans + [plan])
  {
    var b' := AddSequence(b, win, plan.isPrefill);
    assert (plans + [plan])[..|plans|] == plans && b'.w.queryLens[..|plans|] == b.w.queryLens;
  }

  /** The lists and the metadata a rebuild makes of the plans. */
  function BuildingOf(input: ModelInput, plans: seq<SeqPlan>): (b: Building)
    requires AllFit(input, plans)
    ensures |b.w.starts| == |plans| + 1
  {
    if plans == [] then Building(Windows([], [], [], [0], [], []), [], 0, 0, 0)
    else
      var n := |plans| - 1;
      AddSequence(BuildingOf(input, plans[..n]), WindowOf(input, plans[n]), plans[n].isPrefill)
  }

  lemma BuildingNext(input: ModelInput, plans: seq<SeqPlan>, plan: SeqPlan)
    requires AllFit(input, plans) && Fits(input, plan)
    ensures AllFit(input, plans + [plan])
    ensures BuildingOf(input, plans + [plan])
            == AddSequence(BuildingOf(input, plans), WindowOf(input, plan), plan.isPrefill)
  {
    assert (plans + [plan])[..|plans|] == plans;
  }

  lemma {:induction false} BuildingBuilt(input: ModelInput, plans: seq<SeqPlan>)
    requires AllFit(input, plans)
    ensures Built(BuildingOf(input, plans), input, plans)
  {
    if plans != [] {
      var n := |plans| - 1;
      var front, last := plans[..n], plans[n];
      assert plans == front + [last];
      BuildingBuilt(input, front);
      BuiltNext(BuildingOf(input, front), input, front, last);
      BuildingNext(input, front, last);
    }
  }

  /** A shorter input, starting where computed and cached tokens end. */
  function RebuiltInput(input: ModelInput, plans: seq<SeqPlan>): ModelInput
    requires AllFit(input, plans)
  {
    FromBuilding(input, BuildingOf(input, plans))
  }

  function FromBuilding(input: ModelInput, b: Building): ModelInput {
    input.(inputTokens := b.w.tokens, inputPositions := b.w.positions, slotMapping := b.w.slots,
           queryStartLoc := b.w.starts, queryLens := b.w.queryLens, contextLens := b.w.contextLens,
           selected := b.selected, numPrefills := b.numPrefills, numPrefillTokens := b.numPrefillTokens,
           maxQueryLen := b.maxQueryLen)
  }

  function WindowsIn(input: ModelInput): Windows {
    Windows(input.inputTokens, input.inputPositions, input.slotMapping, input.queryStartLoc, input.queryLens,
            input.contextLens)
  }

  /** Appends the window of one more sequence. */
  method RebuildOne(input: ModelInput, b: Building, plan: SeqPlan) returns (b': Building)
    requires b.w.starts != [] && Fits(input, plan)
    ensures b' == AddSequence(b, WindowOf(input, plan), plan.isPrefill)
  {
    var qLen := |plan.fullTokens| - plan.numComputed;
    assert qLen > 0;
    var lo := plan.startPos + plan.lmcComputed;
    var hi := lo + qLen;
    var win := Window(plan.fullTokens[plan.numComputed..], input.inputPositions[lo..hi], input.slotMapping[lo..hi],
                      plan.numComputed);
    if !plan.isPrefill {
      assert qLen == 1;
    }
    b' := AddSequence(b, win, plan.isPrefill);
  }

  /** The rebuilt lists hold one window per plan, every selected index is a last row, and the
      counts and the maximum are right. */
  method BuildPartialPrefillInput(input: ModelInput, plans: seq<SeqPlan>) returns (rebuilt: ModelInput)
    requires AllFit(input, plans)
    ensures rebuilt == RebuiltInput(input, plans) && IsRebuilt(input, plans, rebuilt)
  {
    var b := Building(Windows([], [], [], [0], [], []), [], 0, 0, 0);
    for i := 0 to |plans|
      invariant b == BuildingOf(input, plans[..i])
    {
      assert plans[..i + 1][..i] == plans[..i];
      b := RebuildOne(input, b, plans[i]);
    }
    assert plans[..|plans|] == plans;
    BuildingBuilt(input, plans);
    rebuilt := FromBuilding(input, b);
  }

  /** What a rebuilt input is. */
  ghost predicate IsRebuilt(input: ModelInput, plans: seq<SeqPlan>, rebuilt: ModelInput)
    requires AllFit(input, plans)
  {
    && Rebuilt(WindowsIn(rebuilt), WindowsOf(input, plans))
    && SelectsLast(rebuilt) && |rebuilt.selected| == |plans|
    && rebuilt.maxQueryLen == Maximum(rebuilt.queryLens)
    && rebuilt.numPrefills == CountPrefills(plans)
    && rebuilt.numPrefillTokens == PrefillTokens(plans, rebuilt.queryLens)
    && rebuilt.seqLens == input.seqLens && rebuilt.tables == input.tables
  }

  function Maximum(s: seq<nat>): (r: nat)
    ensures forall k :: 0 <= k < |s| ==> s[k] <= r
    ensures r == 0 || r in s
  {
    if s == [] then 0
    else
      var n := |s| - 1;
      var r := Maximum(s[..n]);
      if s[n] > r then s[n] else r
  }

  function CountPrefills(plans: seq<SeqPlan>): nat {
    if plans == [] then 0
    else CountPrefills(plans[..|plans| - 1]) + (if plans[|plans| - 1].isPrefill then 1 else 0)
  }

  function PrefillTokens(plans: seq<SeqPlan>, queryLens: seq<nat>): nat
    requires |plans| == |queryLens|
  {
    if plans == [] then 0
    else
      var n := |plans| - 1;
      PrefillTokens(plans[..n], queryLens[..n]) + (if plans[n].isPrefill then queryLens[n] else 0)
  }

  lemma {:induction false} AllPrefillsCount(plans: seq<SeqPlan>, queryLens: seq<nat>, starts: seq<nat>, n: nat)
    requires n <= |plans| == |queryLens| && |starts| == |plans| + 1 && starts[0] == 0
    requires forall k :: 0 <= k < |plans| ==> plans[k].isPrefill && starts[k + 1] == starts[k] + queryLens[k]
    ensures CountPrefills(plans[..n]) == n && PrefillTokens(plans[..n], queryLens[..n]) == starts[n]
  {
    if n > 0 {
      AllPrefillsCount(plans, queryLens, starts, n - 1);
      assert plans[..n][..n - 1] == plans[..n - 1] && queryLens[..n][..n - 1] == queryLens[..n - 1];
    }
  }

  lemma StartsFollow(w: Windows, wins: seq<Window>)
    requires Rebuilt(w, wins)
    ensures forall k :: 0 <= k < |wins| ==> w.starts[k + 1] == w.starts[k] + w.queryLens[k]
  {
    forall k | 0 <= k < |wins|
      ensures w.starts[k + 1] == w.starts[k] + w.queryLens[k]
    {
      assert RebuiltOne(w, k, wins[k]);
    }
  }

  /** The rebuilt input of a batch of prompts counts every sequence and every token as prefill. */
  lemma RebuiltPrefills(input: ModelInput, plans: seq<SeqPlan>, rebuilt: ModelInput)
    requires AllFit(input, plans) && IsRebuilt(input, plans, rebuilt)
    requires forall k :: 0 <= k < |plans| ==> plans[k].isPrefill
    ensures rebuilt.numPrefills == |plans| && rebuilt.numPrefillTokens == |rebuilt.inputTokens|
  {
    var n := |plans|;
    StartsFollow(WindowsIn(rebuilt), WindowsOf(input, plans));
    AllPrefillsCount(plans, rebuilt.queryLens, rebuilt.queryStartLoc, n);
    assert plans[..n] == plans && rebuilt.queryLens[..n] == rebuilt.queryLens;
  }

  // ---------- the sequences of a batch ----------

  /** The sequence the adapter sees is the request, of which as much is in the batch as the
      batch says. A sequence that decodes is in the batch to its end, with one token. */
  ghost predicate Matches(info: SeqInfo, req: Request, seqLen: nat) {
    && seqLen <= |info.tokenIds| && req.tokens == info.tokenIds[..seqLen]
    && (info.isPrompt || (|req.tokens| == req.computed + 1 && seqLen == |info.tokenIds|))
  }

  ghost predicate Matched(input: ModelInput, infos: seq<SeqInfo>, reqs: seq<Request>) {
    && Describes(input, reqs, ComputedOf(reqs)) && |infos| == |reqs| > 0
    && forall i {:trigger infos[i]} :: 0 <= i < |reqs| ==> Matches(infos[i], reqs[i], input.seqLens[i])
  }

  /** The whole sequence is in the batch. */
  predicate Whole(input: ModelInput, infos: seq<SeqInfo>)
    requires |input.seqLens| == |infos|
  {
    forall i {:trigger infos[i]} :: 0 <= i < |infos| ==> input.seqLens[i] == |infos[i].tokenIds|
  }

  lemma TakeNext<T>(s: seq<T>, n: nat)
    requires n < |s|
    ensures s[..n + 1] == s[..n] + [s[n]]
  {
  }

  // ---------- one call of the retrieve loop ----------

  /** A batch to retrieve for, and what happens in the background before every get. */
  datatype Call = Call(input: ModelInput, infos: seq<SeqInfo>, status: RetrieveStatus, env: nat -> nat -> Change) {

    /** Every sequence has a window, which is no longer than what it is taken from. */
    predicate Framed() {
      && |input.queryStartLoc| == |infos| + 1 && |input.seqLens| == |infos| && input.queryStartLoc[0] == 0
      && |input.slotMapping| == |input.inputPositions|
      && forall i {:trigger FramedAt(i)} :: 0 <= i < |infos| ==> FramedAt(i)
    }

    predicate FramedAt(i: nat)
      requires i < |infos| && |input.queryStartLoc| == |infos| + 1 && |input.seqLens| == |infos|
    {
      var lo, hi := input.queryStartLoc[i], input.queryStartLoc[i + 1];
      && lo < hi <= |input.slotMapping|
      && hi - lo <= input.seqLens[i] <= |infos[i].tokenIds|
      && (infos[i].isPrompt || hi - lo == 1)
    }

    /** How many tokens of the i-th sequence the batch was to compute. */
    function Required(i: nat): (n: nat)
      requires Framed() && i < |infos|
      ensures n > 0 && input.queryStartLoc[i] + n == input.queryStartLoc[i + 1] <= |input.slotMapping|
    {
      assert FramedAt(i);
      input.queryStartLoc[i + 1] - input.queryStartLoc[i]
    }

    /** The tokens the loop takes for the i-th sequence: in chunked prefill those in the
        batch, and otherwise all there are. */
    function Tokens(i: nat): (tokens: seq<Token>)
      requires Framed() && i < |infos|
      ensures Required(i) <= |tokens|
    {
      assert FramedAt(i);
      infos[i].tokenIds[..if status == ChunkPrefill then input.seqLens[i] else |infos[i].tokenIds|]
    }

    /** How many of them the loop takes for computed already. */
    function Skip(i: nat): (n: nat)
      requires Framed() && i < |infos|
      ensures n + Required(i) == |Tokens(i)|
    {
      |Tokens(i)| - Required(i)
    }

    /** What the retrieve for the i-th sequence finds, and the backend it leaves. */
    function Found(cfg: Config, b: Backend, i: nat): Retrieved
      requires Framed() && i < |infos|
    {
      RetrieveFrom(cfg, b, Identified(Some(infos[i].clientId)), env(i), Tokens(i),
                   Some(RangeMask(|Tokens(i)|, Skip(i), |Tokens(i)|)))
    }

    function After(cfg: Config, b: Backend, i: nat): Backend
      requires Framed() && i < |infos|
    {
      AfterRetrieve(cfg, b, Identified(Some(infos[i].clientId)), env(i), Tokens(i), Skip(i))
    }

    /** The backend before the i-th retrieve. */
    function BackendAt(cfg: Config, b: Backend, i: nat): Backend
      requires Framed() && i <= |infos|
    {
      if i == 0 then b else After(cfg, BackendAt(cfg, b, i - 1), i - 1)
    }

    /** How many tokens the retrieves find, one after the other. */
    function Counts(cfg: Config, b: Backend): (counts: seq<nat>)
      requires Framed()
      ensures |counts| == |infos|
      ensures forall i :: 0 <= i < |counts| ==> counts[i] == |Found(cfg, BackendAt(cfg, b, i), i).kv|
    {
      seq(|infos|, i requires 0 <= i < |infos| => |Found(cfg, BackendAt(cfg, b, i), i).kv|)
    }

    /** The keys of what they find. */
    function Keys(cfg: Config, b: Backend): (keys: seq<seq<Key>>)
      requires Framed()
      ensures |keys| == |infos|
      ensures forall i :: 0 <= i < |keys| ==> keys[i] == Found(cfg, BackendAt(cfg, b, i), i).keys
    {
      seq(|infos|, i requires 0 <= i < |infos| => Found(cfg, BackendAt(cfg, b, i), i).keys)
    }

    lemma KeysNext(cfg: Config, b: Backend, n: nat)
      requires Framed() && n < |infos|
      ensures Keys(cfg, b)[..n + 1] == Keys(cfg, b)[..n] + [Found(cfg, BackendAt(cfg, b, n), n).keys]
    {
      TakeNext(Keys(cfg, b), n);
    }

    /** What the loop records when it finds `count` tokens. Outside chunked prefill the last
        token is always left to compute. */
    function Plan(i: nat, count: nat): (plan: SeqPlan)
      requires Framed() && i < |infos| && count <= Required(i)
    {
      var lmc := if status == Prefill && count == Required(i) then count - 1 else count;
      SeqPlan(Tokens(i), Skip(i) + lmc, input.queryStartLoc[i], lmc, infos[i].isPrompt)
    }

    predicate Fitting(counts: seq<nat>)
      requires Framed()
    {
      |counts| == |infos| && forall i :: 0 <= i < |counts| ==> counts[i] <= Required(i)
    }

    function Plans(counts: seq<nat>, n: nat): (plans: seq<SeqPlan>)
      requires Framed() && Fitting(counts) && n <= |counts|
      ensures |plans| == n && forall i :: 0 <= i < n ==> plans[i] == Plan(i, counts[i])
    {
      seq(n, i requires 0 <= i < n => Plan(i, counts[i]))
    }

    /** Paged memory once `count` tokens have been found for the i-th sequence: all of them
        are injected from the start of its window on. */
    ghost function Write(step: Step, mem: Memory, i: nat, count: nat): (mem': Memory)
      requires Framed() && i < |infos| && count <= Required(i) && InBounds(input.slotMapping, |mem|)
      ensures |mem'| == |mem|
    {
      var plan, start := Plan(i, count), input.queryStartLoc[i];
      if Unusable(plan, status) || plan.lmcComputed == 0 then mem
      else WriteTo(mem, input.slotMapping[start..start + count], FullKV(step, Tokens(i))[Skip(i)..Skip(i) + count])
    }

    lemma WriteAs(step: Step, mem: Memory, i: nat, count: nat, slots: seq<Slot>, kv: seq<KV>)
      requires Framed() && i < |infos| && count <= Required(i) && InBounds(input.slotMapping, |mem|)
      requires !Unusable(Plan(i, count), status) && Plan(i, count).lmcComputed != 0
      requires var start := input.queryStartLoc[i]; slots == input.slotMapping[start..start + count]
      requires kv == FullKV(step, Tokens(i))[Skip(i)..Skip(i) + count]
      ensures InBounds(slots, |mem|) && Write(step, mem, i, count) == WriteTo(mem, slots, kv)
    {
      var start := input.queryStartLoc[i];
      forall j | 0 <= j < |slots|
        ensures slots[j] < |mem|
      {
        assert slots[j] == input.slotMapping[start + j];
      }
    }

    /** Paged memory before the i-th sequence. */
    ghost function MemAt(step: Step, mem: Memory, counts: seq<nat>, i: nat): (mem': Memory)
      requires Framed() && Fitting(counts) && i <= |infos| && InBounds(input.slotMapping, |mem|)
      ensures |mem'| == |mem|
    {
      if i == 0 then mem else Write(step, MemAt(step, mem, counts, i - 1), i - 1, counts[i - 1])
    }

    /** The first `n` plans are not given up. */
    predicate Usable(counts: seq<nat>, n: nat)
      requires Framed() && Fitting(counts) && n <= |counts|
    {
      forall i :: 0 <= i < n ==> !Unusable(Plan(i, counts[i]), status)
    }

    lemma PlanFits(i: nat, count: nat)
      requires Framed() && i < |infos| && count <= Required(i)
      ensures var plan := Plan(i, count);
              && plan.startPos + plan.lmcComputed + (|plan.fullTokens| - plan.numComputed) == input.queryStartLoc[i + 1]
              && (status == Prefill ==> Fits(input, plan))
              && (Unusable(plan, status) <==> status == ChunkPrefill && count != Required(i))
    {
      assert FramedAt(i);
    }

    lemma PlansFit(counts: seq<nat>)
      requires Framed() && Fitting(counts) && status == Prefill
      ensures AllFit(input, Plans(counts, |infos|))
    {
      forall i | 0 <= i < |infos|
        ensures Fits(input, Plans(counts, |infos|)[i])
      {
        PlanFits(i, counts[i]);
      }
    }

    /** A chunk can be used if and only if all of it was found. */
    lemma UsableAll(counts: seq<nat>)
      requires Framed() && Fitting(counts) && status == ChunkPrefill
      ensures Usable(counts, |infos|) <==> forall i :: 0 <= i < |infos| ==> counts[i] == Required(i)
    {
      forall i | 0 <= i < |infos|
        ensures Unusable(Plan(i, counts[i]), status) <==> counts[i] != Required(i)
      {
        assert Skip(i) + Required(i) == |Tokens(i)|;
      }
    }

    /** In chunked prefill no sequence is left without anything found. */
    lemma AllFound(counts: seq<nat>)
      requires Framed() && Fitting(counts) && Usable(counts, |infos|)
      ensures status == ChunkPrefill ==> Missed(Plans(counts, |infos|)) == 0
    {
      forall i | 0 <= i < |infos|
        ensures status == ChunkPrefill ==> Plans(counts, |infos|)[i].lmcComputed != 0
      {
        PlanFits(i, counts[i]);
      }
    }

    /** The input that is run outside chunked prefill: a rebuilt one if there is anything to
        leave out. */
    function RunInput(counts: seq<nat>): ModelInput
      requires Framed() && Fitting(counts) && status == Prefill
    {
      var plans := Plans(counts, |infos|);
      if Missed(plans) == |plans| then input
      else
        PlansFit(counts);
        RebuiltInput(input, plans)
    }

    lemma MissedRuns(counts: seq<nat>)
      requires Framed() && Fitting(counts) && status == Prefill
      requires forall i :: 0 <= i < |infos| ==> Plan(i, counts[i]).lmcComputed == 0
      ensures RunInput(counts) == input
    {
    }

    /** On a coherent cache no more is found than the batch was to compute. */
    lemma FoundFits(cfg: Config, step: Step, b: Backend, i: nat)
      requires Framed() && i < |infos| && Coherent(cfg, step, b)
      ensures Coherent(cfg, step, After(cfg, b, i))
      ensures var kv := Found(cfg, b, i).kv;
              |kv| <= Required(i) && IsSlice(FullKV(step, Tokens(i)), Skip(i), |kv|, kv)
    {
      var tokens, skip := Tokens(i), Skip(i);
      var mask := Some(RangeMask(|tokens|, skip, |tokens|));
      CountRange(|tokens|, skip, |tokens|);
      RetrievePromise(cfg, step, b, Identified(Some(infos[i].clientId)), env(i), tokens, mask, skip);
      RecomputedSlice(step, tokens, skip, Found(cfg, b, i));
    }

    lemma {:induction false} BackendCoherent(cfg: Config, step: Step, b: Backend, i: nat)
      requires Framed() && i <= |infos| && Coherent(cfg, step, b)
      ensures Coherent(cfg, step, BackendAt(cfg, b, i))
    {
      if i > 0 {
        BackendCoherent(cfg, step, b, i - 1);
        FoundFits(cfg, step, BackendAt(cfg, b, i - 1), i - 1);
      }
    }

    lemma CountsFit(cfg: Config, step: Step, b: Backend)
      requires Framed() && Coherent(cfg, step, b)
      ensures Fitting(Counts(cfg, b))
    {
      forall i | 0 <= i < |infos|
        ensures Counts(cfg, b)[i] <= Required(i)
      {
        BackendCoherent(cfg, step, b, i);
        FoundFits(cfg, step, BackendAt(cfg, b, i), i);
      }
    }
  }

  lemma MatchedFramed(call: Call, reqs: seq<Request>, size: nat)
    requires Matched(call.input, call.infos, reqs) && Separate(reqs, size)
    ensures call.Framed() && InBounds(call.input.slotMapping, size)
    ensures forall i :: 0 <= i < |reqs| ==> call.Required(i) == |reqs[i].tokens| - reqs[i].computed
  {
    DescribesShaped(call.input, reqs, ComputedOf(reqs), size);
    forall i | 0 <= i < |reqs|
      ensures call.FramedAt(i)
      ensures call.input.queryStartLoc[i] + (|reqs[i].tokens| - reqs[i].computed) == call.input.queryStartLoc[i + 1]
    {
      assert DescribesOne(call.input, i, reqs[i], ComputedOf(reqs)[i]);
      assert Matches(call.infos[i], reqs[i], call.input.seqLens[i]);
    }
  }

  /** A chunk that is not wholly cached is prefilled as usual. */
  predicate Unusable(plan: SeqPlan, status: RetrieveStatus) {
    status == ChunkPrefill && plan.numComputed != |plan.fullTokens|
  }

  // ---------- the loop ----------

  /** Retrieves on behalf of a client what follows the `computed` tokens: the KV, and its
      length as the sum of the result mask. */
  method FetchKv(engine: LMCacheEngine, tokens: seq<Token>, computed: nat, clientId: int, env: nat -> Change,
                 ghost step: Step)
    returns (r: Result<(seq<KV>, nat, seq<Key>), Error>)
    requires computed <= |tokens| && Coherent(engine.cfg, step, engine.TheBackend())
    modifies engine
    ensures engine.TheBackend()
            == AfterRetrieve(engine.cfg, old(engine.TheBackend()), Identified(Some(clientId)), env, tokens, computed)
    ensures r.Err? <==> !engine.cfg.ValidFormat()
    ensures r.Ok? ==>
              && r.value.0
                 == RetrieveFrom(engine.cfg, old(engine.TheBackend()), Identified(Some(clientId)), env, tokens,
                                 Some(RangeMask(|tokens|, computed, |tokens|))).kv
              && r.value.1 == |r.value.0|
              && r.value.2
                 == RetrieveFrom(engine.cfg, old(engine.TheBackend()), Identified(Some(clientId)), env, tokens,
                                 Some(RangeMask(|tokens|, computed, |tokens|))).keys
  {
    var tokenMask := Some(RangeMask(|tokens|, computed, |tokens|));
    CountRange(|tokens|, computed, |tokens|);
    engine.client := Some(clientId);
    RetrievePromise(engine.cfg, step, engine.TheBackend(), Identified(engine.client), env, tokens, tokenMask, computed);
    var result := engine.Retrieve(tokens, tokenMask, env);
    if result.Err? {
      return Err(result.error);
    }
    MaskCountsKv(step, tokens, computed, result.value);
    r := Ok((result.value.kv, |result.value.mask| - CountFalse(result.value.mask), result.value.keys));
  }

  lemma MaskCountsKv(step: Step, tokens: seq<Token>, skip: nat, found: Retrieved)
    requires Recomputed(step, tokens, skip, found) && skip <= |tokens|
    ensures |found.mask| - CountFalse(found.mask) == |found.kv|
  {
    CountRange(|tokens|, skip, skip + |found.kv|);
  }

  /** The tokens of a sequence and how many of them are taken for computed. */
  method ReadSequence(call: Call, i: nat) returns (fullTokens: seq<Token>, required: nat, vllmComputed: nat)
    requires call.Framed() && i < |call.infos|
    ensures fullTokens == call.Tokens(i) && required == call.Required(i) && vllmComputed == call.Skip(i)
  {
    assert call.FramedAt(i);
    var totalLen := if call.status == ChunkPrefill then call.input.seqLens[i] else |call.infos[i].tokenIds|;
    fullTokens := call.infos[i].tokenIds[..totalLen];
    required := call.input.queryStartLoc[i + 1] - call.input.queryStartLoc[i];
    vllmComputed := totalLen - required;
  }

  /** What is recorded of a sequence. Outside chunked prefill the last token is always left to
      compute. */
  method MakePlan(call: Call, i: nat, fullTokens: seq<Token>, vllmComputed: nat, lmcFound: nat, startPos: nat)
    returns (plan: SeqPlan)
    requires call.Framed() && i < |call.infos| && startPos == call.input.queryStartLoc[i]
    requires fullTokens == call.Tokens(i) && vllmComputed == call.Skip(i) && lmcFound <= call.Required(i)
    ensures plan == call.Plan(i, lmcFound)
  {
    var lmcComputed := lmcFound;
    var numComputed := vllmComputed + lmcComputed;
    if call.status == Prefill && numComputed == |fullTokens| {
      lmcComputed := lmcComputed - 1;
      numComputed := numComputed - 1;
    }
    plan := SeqPlan(fullTokens, numComputed, startPos, lmcComputed, call.infos[i].isPrompt);
  }

  /** Injects what was found, unless nothing of it is used. */
  method Inject(paged: array<KV>, call: Call, i: nat, plan: SeqPlan, kv: seq<KV>, ghost step: Step)
    requires call.Framed() && i < |call.infos| && InBounds(call.input.slotMapping, paged.Length)
    requires IsSlice(FullKV(step, call.Tokens(i)), call.Skip(i), |kv|, kv) && |kv| <= call.Required(i)
    requires plan == call.Plan(i, |kv|)
    modifies paged
    ensures paged[..] == call.Write(step, old(paged[..]), i, |kv|)
  {
    if !Unusable(plan, call.status) && plan.lmcComputed != 0 {
      ReshapeAndCache(paged, kv, call.input.slotMapping, plan.startPos);
    }
  }

  /** One sequence: retrieve what follows the tokens taken for computed and inject it. In
      chunked prefill anything less than the whole chunk is not used. */
  method RetrieveOne(engine: LMCacheEngine, paged: array<KV>, call: Call, i: nat, startPos: nat, ghost step: Step)
    returns (r: Result<(SeqPlan, seq<Key>), Error>, required: nat)
    requires call.Framed() && i < |call.infos| && startPos == call.input.queryStartLoc[i]
    requires InBounds(call.input.slotMapping, paged.Length)
    requires Coherent(engine.cfg, step, engine.TheBackend())
    modifies engine, paged
    ensures engine.TheBackend() == call.After(engine.cfg, old(engine.TheBackend()), i)
    ensures required == call.Required(i)
    ensures r.Err? <==> !engine.cfg.ValidFormat()
    ensures r.Err? ==> paged[..] == old(paged[..])
    ensures r.Ok? ==>
              var count := |call.Found(engine.cfg, old(engine.TheBackend()), i).kv|;
              && count <= call.Required(i)
              && r.value.0 == call.Plan(i, count)
              && r.value.1 == call.Found(engine.cfg, old(engine.TheBackend()), i).keys
              && paged[..] == call.Write(step, old(paged[..]), i, count)
  {
    call.FoundFits(engine.cfg, step, engine.TheBackend(), i);
    var fullTokens, n, vllmComputed := ReadSequence(call, i);
    required := n;
    var fetched := FetchKv(engine, fullTokens, vllmComputed, call.infos[i].clientId, call.env(i), step);
    if fetched.Err? {
      return Err(fetched.error), required;
    }
    var (kv, lmcFound, keys) := fetched.value;
    var plan := MakePlan(call, i, fullTokens, vllmComputed, lmcFound, startPos);
    Inject(paged, call, i, plan, kv, step);
    r := Ok((plan, keys));
  }

  /** How the loop over the sequences leaves. */
  datatype LoopEnd =
    | Failed(error: Error)
    | Abandoned
    | Finished(plans: seq<SeqPlan>, keys: seq<seq<Key>>, notFound: nat)

  /** The state of the loop before the n-th sequence, when it started with `b0` and `mem0`:
      backend, paged memory and plans are what the retrieves so far leave, and `notFound` counts
      those for which nothing was found. */
  ghost predicate Looping(call: Call, cfg: Config, step: Step, b0: Backend, mem0: Memory, b: Backend, mem: Memory,
                          n: nat, startPos: nat, plans: seq<SeqPlan>, keys: seq<seq<Key>>, notFound: nat)
  {
    && call.Framed() && InBounds(call.input.slotMapping, |mem0|) && n <= |call.infos|
    && keys == call.Keys(cfg, b0)[..n]
    && Coherent(cfg, step, b0) && b == call.BackendAt(cfg, b0, n) && startPos == call.input.queryStartLoc[n]
    && (n > 0 ==> cfg.ValidFormat())
    && call.Fitting(call.Counts(cfg, b0))
    && Looped(call, step, call.Counts(cfg, b0), mem0, mem, n, plans, notFound)
  }

  /** Paged memory and the plans are those of the counts so far. */
  ghost predicate Looped(call: Call, step: Step, counts: seq<nat>, mem0: Memory, mem: Memory, n: nat,
                         plans: seq<SeqPlan>, notFound: nat)
    requires call.Framed() && call.Fitting(counts) && InBounds(call.input.slotMapping, |mem0|)
  {
    && n <= |call.infos| && mem == call.MemAt(step, mem0, counts, n) && plans == call.Plans(counts, n)
    && notFound == Missed(plans)
    && call.Usable(counts, n)
  }

  /** For how many sequences nothing was found. */
  function Missed(plans: seq<SeqPlan>): (n: nat)
    ensures n <= |plans|
    ensures n == |plans| <==> forall i :: 0 <= i < |plans| ==> plans[i].lmcComputed == 0
    ensures n == 0 <==> forall i :: 0 <= i < |plans| ==> plans[i].lmcComputed != 0
  {
    if plans == [] then 0
    else
      var n := |plans| - 1;
      Missed(plans[..n]) + (if plans[n].lmcComputed == 0 then 1 else 0)
  }

  lemma LoopedNext(call: Call, step: Step, counts: seq<nat>, mem0: Memory, mem: Memory, mem': Memory, n: nat,
                   plans: seq<SeqPlan>, notFound: nat)
    requires call.Framed() && call.Fitting(counts) && InBounds(call.input.slotMapping, |mem0|)
    requires Looped(call, step, counts, mem0, mem, n, plans, notFound) && n < |call.infos|
    requires mem' == call.Write(step, mem, n, counts[n]) && !Unusable(call.Plan(n, counts[n]), call.status)
    ensures var plan := call.Plan(n, counts[n]);
            Looped(call, step, counts, mem0, mem', n + 1, plans + [plan],
                   if plan.lmcComputed == 0 then notFound + 1 else notFound)
  {
    var plan := call.Plan(n, counts[n]);
    assert call.Plans(counts, n + 1) == plans + [plan];
    assert (plans + [plan])[..n] == plans;
  }

  /** The loop was given up at the i-th sequence. */
  ghost predicate AbandonedAt(call: Call, cfg: Config, step: Step, b0: Backend, mem0: Memory, b: Backend, mem: Memory,
                              i: nat)
  {
    && call.Framed() && InBounds(call.input.slotMapping, |mem0|) && cfg.ValidFormat()
    && call.Fitting(call.Counts(cfg, b0)) && i < |call.infos|
    && Unusable(call.Plan(i, call.Counts(cfg, b0)[i]), call.status) && call.Usable(call.Counts(cfg, b0), i)
    && mem == call.MemAt(step, mem0, call.Counts(cfg, b0), i) && b == call.BackendAt(cfg, b0, i + 1)
  }

  /** What the retrieve for the n-th sequence finds is its count. */
  lemma LoopingCount(call: Call, cfg: Config, step: Step, b0: Backend, mem0: Memory, b: Backend, mem: Memory,
                     n: nat, startPos: nat, plans: seq<SeqPlan>, keys: seq<seq<Key>>, notFound: nat)
    requires Looping(call, cfg, step, b0, mem0, b, mem, n, startPos, plans, keys, notFound) && n < |call.infos|
    ensures Coherent(cfg, step, b) && Coherent(cfg, step, call.After(cfg, b, n))
    ensures |call.Found(cfg, b, n).kv| == call.Counts(cfg, b0)[n] <= call.Required(n)
  {
    call.BackendCoherent(cfg, step, b0, n);
    call.FoundFits(cfg, step, b, n);
  }

  lemma LoopingAbandons(call: Call, cfg: Config, step: Step, b0: Backend, mem0: Memory, b: Backend, mem: Memory,
                        n: nat, startPos: nat, plans: seq<SeqPlan>, keys: seq<seq<Key>>, notFound: nat)
    requires Looping(call, cfg, step, b0, mem0, b, mem, n, startPos, plans, keys, notFound) && n < |call.infos|
    requires cfg.ValidFormat() && Unusable(call.Plan(n, call.Counts(cfg, b0)[n]), call.status)
    ensures AbandonedAt(call, cfg, step, b0, mem0, call.After(cfg, b, n), mem, n)
  {
  }

  lemma LoopingNext(call: Call, cfg: Config, step: Step, b0: Backend, mem0: Memory, b: Backend, mem: Memory,
                    n: nat, startPos: nat, plans: seq<SeqPlan>, keys: seq<seq<Key>>, notFound: nat, mem': Memory)
    requires Looping(call, cfg, step, b0, mem0, b, mem, n, startPos, plans, keys, notFound) && n < |call.infos|
    requires cfg.ValidFormat() && !Unusable(call.Plan(n, call.Counts(cfg, b0)[n]), call.status)
    requires mem' == call.Write(step, mem, n, call.Counts(cfg, b0)[n])
    ensures var plan := call.Plan(n, call.Counts(cfg, b0)[n]);
            Looping(call, cfg, step, b0, mem0, call.After(cfg, b, n), mem', n + 1, startPos + call.Required(n),
                    plans + [plan], keys + [call.Found(cfg, b, n).keys],
                    if plan.lmcComputed == 0 then notFound + 1 else notFound)
  {
    call.KeysNext(cfg, b0, n);
    LoopedNext(call, step, call.Counts(cfg, b0), mem0, mem, mem', n, plans, notFound);
  }

  /** One round: the plan of the next sequence, or nothing if the batch is left as it is. */
  method RetrieveNext(engine: LMCacheEngine, paged: array<KV>, call: Call, i: nat, startPos: nat, plans: seq<SeqPlan>,
                      ghost keysList: seq<seq<Key>>, notFound: nat, ghost step: Step, ghost b0: Backend,
                      ghost mem0: Memory)
    returns (r: Result<Option<(SeqPlan, seq<Key>)>, Error>, required: nat)
    requires Looping(call, engine.cfg, step, b0, mem0, engine.TheBackend(), paged[..], i, startPos, plans, keysList,
                     notFound)
    requires i < |call.infos|
    modifies engine, paged
    ensures Coherent(engine.cfg, step, engine.TheBackend())
    ensures r.Err? ==> !engine.cfg.ValidFormat() && paged[..] == old(paged[..])
    ensures r.Ok? && r.value.None? ==>
              AbandonedAt(call, engine.cfg, step, b0, mem0, engine.TheBackend(), paged[..], i)
    ensures r.Ok? && r.value.Some? ==>
              var plan := r.value.value.0;
              Looping(call, engine.cfg, step, b0, mem0, engine.TheBackend(), paged[..], i + 1, startPos + required,
                      plans + [plan], keysList + [r.value.value.1],
                      if plan.lmcComputed == 0 then notFound + 1 else notFound)
  {
    ghost var b, before := engine.TheBackend(), paged[..];
    LoopingCount(call, engine.cfg, step, b0, mem0, b, before, i, startPos, plans, keysList, notFound);
    var one, n := RetrieveOne(engine, paged, call, i, startPos, step);
    required := n;
    if one.Err? {
      return Err(one.error), required;
    }
    if Unusable(one.value.0, call.status) {
      LoopingAbandons(call, engine.cfg, step, b0, mem0, b, before, i, startPos, plans, keysList, notFound);
      return Ok(None), required;
    }
    LoopingNext(call, engine.cfg, step, b0, mem0, b, before, i, startPos, plans, keysList, notFound, paged[..]);
    r := Ok(Some(one.value));
  }

  /** How the loop ends: with paged memory untouched if the format is refused; given up, with
      what came before injected; or with everything injected. */
  ghost predicate LoopEnded(call: Call, cfg: Config, step: Step, b0: Backend, mem0: Memory, b: Backend, mem: Memory,
                            r: LoopEnd)
  {
    match r
    case Failed(_) => !cfg.ValidFormat() && mem == mem0
    case Abandoned => exists i: nat :: AbandonedAt(call, cfg, step, b0, mem0, b, mem, i)
    case Finished(plans, keys, notFound) =>
      && cfg.ValidFormat() && call.Framed() && keys == call.Keys(cfg, b0) && InBounds(call.input.slotMapping, |mem0|)
      && call.Fitting(call.Counts(cfg, b0)) && b == call.BackendAt(cfg, b0, |call.infos|)
      && Looped(call, step, call.Counts(cfg, b0), mem0, mem, |call.infos|, plans, notFound)
  }

  lemma LoopingEnds(call: Call, cfg: Config, step: Step, b0: Backend, mem0: Memory, b: Backend, mem: Memory,
                    n: nat, startPos: nat, plans: seq<SeqPlan>, keys: seq<seq<Key>>, notFound: nat)
    requires Looping(call, cfg, step, b0, mem0, b, mem, n, startPos, plans, keys, notFound) && n == |call.infos| > 0
    ensures LoopEnded(call, cfg, step, b0, mem0, b, mem, Finished(plans, keys, notFound))
  {
    assert call.Keys(cfg, b0)[..n] == call.Keys(cfg, b0);
  }

  /** The loop: every sequence retrieves from the backend the one before it leaves. In chunked
      prefill it stops at the first one that is not wholly cached. */
  method RetrieveAll(engine: LMCacheEngine, paged: array<KV>, call: Call, ghost step: Step) returns (r: LoopEnd)
    requires call.Framed() && InBounds(call.input.slotMapping, paged.Length) && call.infos != []
    requires Coherent(engine.cfg, step, engine.TheBackend())
    modifies engine, paged
    ensures Coherent(engine.cfg, step, engine.TheBackend())
    ensures LoopEnded(call, engine.cfg, step, old(engine.TheBackend()), old(paged[..]), engine.TheBackend(), paged[..],
                      r)
  {
    ghost var b0, mem0 := engine.TheBackend(), paged[..];
    call.CountsFit(engine.cfg, step, b0);
    var plans: seq<SeqPlan>, keysList: seq<seq<Key>> := [], [];
    var nextStartPos: nat, notFound: nat := 0, 0;
    for idx := 0 to |call.infos|
      invariant Looping(call, engine.cfg, step, b0, mem0, engine.TheBackend(), paged[..], idx, nextStartPos, plans,
                        keysList, notFound)
      invariant idx == 0 ==> paged[..] == mem0
      invariant Coherent(engine.cfg, step, engine.TheBackend())
    {
      var next, required := RetrieveNext(engine, paged, call, idx, nextStartPos, plans, keysList, notFound, step, b0,
                                         mem0);
      if next.Err? {
        return Failed(next.error);
      }
      if next.value.None? {
        return Abandoned;
      }
      var (plan, keys) := next.value.value;
      keysList := keysList + [keys];
      plans := plans + [plan];
      if plan.lmcComputed == 0 {
        notFound := notFound + 1;
      }
      nextStartPos := nextStartPos + required;
    }
    LoopingEnds(call, engine.cfg, step, b0, mem0, engine.TheBackend(), paged[..], |call.infos|, nextStartPos, plans,
                keysList, notFound);
    r := Finished(plans, keysList, notFound);
  }

  /** What a retrieve leaves: outside chunked prefill everything that was found is injected and
      the input is the one to run; in chunked prefill the input stays, the chunks before some
      point are injected, and all of them if the run is skipped. */
  ghost predicate RetrieveEnded(call: Call, counts: seq<nat>, step: Step, mem0: Memory, mem: Memory, r: Outcome) {
    && call.Framed() && InBounds(call.input.slotMapping, |mem0|) && call.Fitting(counts)
    && match call.status
       case Prefill =>
         !r.skip && r.input == call.RunInput(counts) && mem == call.MemAt(step, mem0, counts, |call.infos|)
       case ChunkPrefill =>
         && r.input == call.input && (r.skip <==> call.Usable(counts, |call.infos|))
         && exists i: nat :: InjectedUpto(call, counts, step, mem0, mem, i) && (r.skip ==> i == |call.infos|)
  }

  ghost predicate InjectedUpto(call: Call, counts: seq<nat>, step: Step, mem0: Memory, mem: Memory, i: nat)
    requires call.Framed() && InBounds(call.input.slotMapping, |mem0|) && call.Fitting(counts)
  {
    i <= |call.infos| && call.Usable(counts, i) && mem == call.MemAt(step, mem0, counts, i)
  }

  /** The backend a retrieve leaves: the one after all its sequences, or after the first of which
      something is missing in chunked prefill. */
  ghost predicate BackendLeft(call: Call, cfg: Config, b0: Backend, b: Backend) {
    && call.Framed() && call.Fitting(call.Counts(cfg, b0))
    && exists n: nat :: BackendAfter(call, cfg, b0, b, n)
  }

  ghost predicate BackendAfter(call: Call, cfg: Config, b0: Backend, b: Backend, n: nat)
    requires call.Framed() && call.Fitting(call.Counts(cfg, b0))
  {
    && 0 < n <= |call.infos| && b == call.BackendAt(cfg, b0, n) && call.Usable(call.Counts(cfg, b0), n - 1)
    && (n == |call.infos| || !call.Usable(call.Counts(cfg, b0), n))
  }

  lemma AbandonedBackend(call: Call, cfg: Config, step: Step, b0: Backend, mem0: Memory, b: Backend, mem: Memory,
                         i: nat)
    requires AbandonedAt(call, cfg, step, b0, mem0, b, mem, i)
    ensures BackendLeft(call, cfg, b0, b)
  {
    assert BackendAfter(call, cfg, b0, b, i + 1);
  }

  lemma EndBackend(call: Call, cfg: Config, step: Step, b0: Backend, mem0: Memory, b: Backend, mem: Memory,
                   end: LoopEnd)
    requires LoopEnded(call, cfg, step, b0, mem0, b, mem, end) && !end.Failed? && call.infos != []
    ensures BackendLeft(call, cfg, b0, b)
  {
    match end
    case Abandoned =>
      var i: nat :| AbandonedAt(call, cfg, step, b0, mem0, b, mem, i);
      AbandonedBackend(call, cfg, step, b0, mem0, b, mem, i);
    case Finished(_, _, _) =>
      assert BackendAfter(call, cfg, b0, b, |call.infos|);
  }

  lemma EndAbandoned(call: Call, cfg: Config, step: Step, b0: Backend, mem0: Memory, b: Backend, mem: Memory)
    requires call.Framed() && LoopEnded(call, cfg, step, b0, mem0, b, mem, Abandoned)
    ensures RetrieveEnded(call, call.Counts(cfg, b0), step, mem0, mem, Outcome(call.input, false, []))
  {
    var i: nat :| AbandonedAt(call, cfg, step, b0, mem0, b, mem, i);
    assert InjectedUpto(call, call.Counts(cfg, b0), step, mem0, mem, i);
  }

  lemma EndSkipped(call: Call, cfg: Config, step: Step, b0: Backend, mem0: Memory, b: Backend, mem: Memory,
                   end: LoopEnd)
    requires call.Framed() && LoopEnded(call, cfg, step, b0, mem0, b, mem, end) && end.Finished?
    requires call.status == ChunkPrefill
    ensures end.notFound == 0
    ensures RetrieveEnded(call, call.Counts(cfg, b0), step, mem0, mem, Outcome(call.input, true, end.keys))
  {
    call.AllFound(call.Counts(cfg, b0));
    assert InjectedUpto(call, call.Counts(cfg, b0), step, mem0, mem, |call.infos|);
  }

  lemma EndFinished(call: Call, cfg: Config, step: Step, b0: Backend, mem0: Memory, b: Backend, mem: Memory,
                    end: LoopEnd)
    requires call.Framed() && LoopEnded(call, cfg, step, b0, mem0, b, mem, end) && end.Finished?
    requires call.status == ChunkPrefill ==> end.notFound != 0
    ensures AllFit(call.input, end.plans)
    ensures var input := if end.notFound < |call.infos| then RebuiltInput(call.input, end.plans) else call.input;
            RetrieveEnded(call, call.Counts(cfg, b0), step, mem0, mem, Outcome(input, false, end.keys))
  {
    if call.status == ChunkPrefill {
      EndSkipped(call, cfg, step, b0, mem0, b, mem, end);
    } else {
      call.PlansFit(call.Counts(cfg, b0));
    }
  }

  // ---------- what a retrieve is good for ----------

  /** What was found is left out of the input: of every sequence the rest is computed, or its
      last token if everything was found. */
  ghost predicate LeavesOut(call: Call, counts: seq<nat>, input: ModelInput)
    requires call.Framed() && call.Fitting(counts)
  {
    && |input.queryStartLoc| == |call.infos| + 1
    && forall i :: 0 <= i < |call.infos| ==>
         input.queryStartLoc[i + 1]
         == input.queryStartLoc[i] + (if counts[i] == call.Required(i) then 1 else call.Required(i) - counts[i])
  }

  /** And it is in paged memory, from the start of the sequence's window on. A window of one
      token leaves nothing to inject. */
  ghost predicate InSlots(call: Call, step: Step, counts: seq<nat>, mem: Memory, n: nat)
    requires call.Framed() && call.Fitting(counts) && n <= |call.infos| && InBounds(call.input.slotMapping, |mem|)
  {
    forall i, j {:trigger FoundAt(call, step, mem, i, j)} ::
      0 <= i < n && call.Required(i) > 1 && 0 <= j < counts[i] ==> FoundAt(call, step, mem, i, j)
  }

  ghost predicate FoundAt(call: Call, step: Step, mem: Memory, i: nat, j: nat)
    requires call.Framed() && i < |call.infos| && j < call.Required(i) && InBounds(call.input.slotMapping, |mem|)
  {
    mem[call.input.slotMapping[call.input.queryStartLoc[i] + j]] == FullKV(step, call.Tokens(i))[call.Skip(i) + j]
  }

  /** Everything that was found is used. */
  ghost predicate Useful(call: Call, counts: seq<nat>, step: Step, mem: Memory, input: ModelInput) {
    && call.Framed() && call.Fitting(counts) && InBounds(call.input.slotMapping, |mem|)
    && LeavesOut(call, counts, input)
    && (Distinct(call.input.slotMapping) ==> InSlots(call, step, counts, mem, |call.infos|))
  }

  lemma EndedUseful(call: Call, counts: seq<nat>, step: Step, mem0: Memory, mem: Memory, r: Outcome)
    requires call.status == Prefill && RetrieveEnded(call, counts, step, mem0, mem, r)
    ensures Useful(call, counts, step, mem, r.input)
  {
    RunLeavesOut(call, counts);
    if Distinct(call.input.slotMapping) {
      FoundInSlots(call, step, mem0, counts, |call.infos|);
    }
  }

  lemma RunLeavesOut(call: Call, counts: seq<nat>)
    requires call.Framed() && call.Fitting(counts) && call.status == Prefill
    ensures LeavesOut(call, counts, call.RunInput(counts))
  {
    var plans := call.Plans(counts, |call.infos|);
    if Missed(plans) == |plans| {
      forall i | 0 <= i < |call.infos|
        ensures counts[i] == 0 || counts[i] == call.Required(i) == 1
      {
        assert plans[i].lmcComputed == 0;
      }
    } else {
      call.PlansFit(counts);
      BuildingBuilt(call.input, plans);
      var rebuilt := RebuiltInput(call.input, plans);
      forall i | 0 <= i < |call.infos|
        ensures rebuilt.queryStartLoc[i + 1]
                == rebuilt.queryStartLoc[i]
                   + (if counts[i] == call.Required(i) then 1 else call.Required(i) - counts[i])
      {
        assert RebuiltOne(WindowsIn(rebuilt), i, WindowsOf(call.input, plans)[i]);
      }
    }
  }

  /** Writing what was found for the i-th sequence puts it into its slots and keeps the rest. */
  lemma WriteFound(call: Call, step: Step, mem: Memory, i: nat, count: nat)
    requires call.Framed() && i < |call.infos| && count <= call.Required(i) && call.status == Prefill
    requires InBounds(call.input.slotMapping, |mem|) && Distinct(call.input.slotMapping)
    ensures var mem', lo := call.Write(step, mem, i, count), call.input.queryStartLoc[i];
            && (call.Required(i) > 1 ==> forall j :: 0 <= j < count ==> FoundAt(call, step, mem', i, j))
            && (forall k :: 0 <= k < lo ==> mem'[call.input.slotMapping[k]] == mem[call.input.slotMapping[k]])
  {
    var lo := call.input.queryStartLoc[i];
    if call.Plan(i, count).lmcComputed != 0 {
      var slots := call.input.slotMapping[lo..lo + count];
      var kv := FullKV(step, call.Tokens(i))[call.Skip(i)..call.Skip(i) + count];
      call.WriteAs(step, mem, i, count, slots, kv);
      WriteToPointwise(mem, slots, kv);
      forall j | 0 <= j < count
        ensures FoundAt(call, step, WriteTo(mem, slots, kv), i, j)
      {
        assert slots[j] == call.input.slotMapping[lo + j];
      }
    }
  }

  lemma {:induction false} FoundInSlots(call: Call, step: Step, mem: Memory, counts: seq<nat>, n: nat)
    requires call.Framed() && call.Fitting(counts) && n <= |call.infos| && call.status == Prefill
    requires InBounds(call.input.slotMapping, |mem|) && Distinct(call.input.slotMapping)
    ensures InSlots(call, step, counts, call.MemAt(step, mem, counts, n), n)
  {
    if n > 0 {
      var i := n - 1;
      FoundInSlots(call, step, mem, counts, i);
      var before := call.MemAt(step, mem, counts, i);
      WriteFound(call, step, before, i, counts[i]);
      var after := call.MemAt(step, mem, counts, n);
      forall k, j | 0 <= k < n && call.Required(k) > 1 && 0 <= j < counts[k]
        ensures FoundAt(call, step, after, k, j)
      {
        if k < i {
          assert FoundAt(call, step, before, k, j);
          StartsGrow(call, k, i);
        }
      }
    }
  }

  lemma {:induction false} StartsGrow(call: Call, k: nat, i: nat)
    requires call.Framed() && k < i < |call.infos|
    ensures call.input.queryStartLoc[k] + call.Required(k) <= call.input.queryStartLoc[i]
    decreases i
  {
    if k + 1 < i {
      StartsGrow(call, k, i - 1);
      assert call.FramedAt(i - 1);
    }
  }

  /** Retrieves for every sequence of the batch. Outside chunked prefill the input is rebuilt
      if anything was found; in chunked prefill the run is skipped if everything was. */
  method RetrieveKv(engine: LMCacheEngine, paged: array<KV>, call: Call, ghost step: Step)
    returns (r: Result<Outcome, Error>)
    requires call.Framed() && InBounds(call.input.slotMapping, paged.Length) && call.infos != []
    requires Coherent(engine.cfg, step, engine.TheBackend())
    modifies engine, paged
    ensures Coherent(engine.cfg, step, engine.TheBackend())
    ensures r.Err? <==> !engine.cfg.ValidFormat()
    ensures r.Err? ==> paged[..] == old(paged[..])
    ensures r.Ok? ==>
              RetrieveEnded(call, call.Counts(engine.cfg, old(engine.TheBackend())), step, old(paged[..]), paged[..],
                            r.value)
    ensures r.Ok? ==> BackendLeft(call, engine.cfg, old(engine.TheBackend()), engine.TheBackend())
    ensures r.Ok? && call.status == Prefill ==>
              Useful(call, call.Counts(engine.cfg, old(engine.TheBackend())), step, paged[..], r.value.input)
    ensures r.Ok? ==>
              r.value.keys == if call.status == ChunkPrefill && !r.value.skip then []
                              else call.Keys(engine.cfg, old(engine.TheBackend()))
  {
    ghost var b0, mem0 := engine.TheBackend(), paged[..];
    var end := RetrieveAll(engine, paged, call, step);
    if end.Failed? {
      return Err(end.error);
    }
    EndBackend(call, engine.cfg, step, b0, mem0, engine.TheBackend(), paged[..], end);
    if end.Abandoned? {
      EndAbandoned(call, engine.cfg, step, b0, mem0, engine.TheBackend(), paged[..]);
      return Ok(Outcome(call.input, false, []));
    }
    if call.status == ChunkPrefill && end.notFound == 0 {
      EndSkipped(call, engine.cfg, step, b0, mem0, engine.TheBackend(), paged[..], end);
      return Ok(Outcome(call.input, true, end.keys));
    }
    EndFinished(call, engine.cfg, step, b0, mem0, engine.TheBackend(), paged[..], end);
    if end.notFound < |call.infos| {
      var rebuilt := BuildPartialPrefillInput(call.input, end.plans);
      r := Ok(Outcome(rebuilt, false, end.keys));
    } else {
      r := Ok(Outcome(call.input, false, end.keys));
    }
    EndedUseful(call, call.Counts(engine.cfg, b0), step, mem0, paged[..], r.value);
  }
}
