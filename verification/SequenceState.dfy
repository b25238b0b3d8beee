/** The tokens of one sequence and how far they are computed, on the driver and, by deltas,
    on the workers. */
module SequenceState {
  import opened Wrappers

  type TokenId = int

  datatype Stage = PREFILL | DECODE

  datatype Delta = Delta(newTokens: seq<TokenId>, logprob: real, computed: int, stage: Stage)

  /** The value of a sequence's data; `pending` are the tokens no delta has carried yet. */
  datatype Data = Data(
    prompt: seq<TokenId>,
    output: seq<TokenId>,
    cached: seq<TokenId>,
    pending: seq<TokenId>,
    logprob: real,
    computed: int,
    stage: Stage)
  {
    function Len(): nat {
      |output| + |prompt|
    }

    function Uncomputed(): int {
      Len() - computed
    }

    /** The fast path: a decoding sequence always has one new token. */
    function NumNewTokens(): int {
      if stage == DECODE then 1 else Uncomputed()
    }
  }

  function FromPrompt(prompt: seq<TokenId>): Data {
    Data(prompt, [], prompt, [], 0.0, 0, PREFILL)
  }

  function AppendTo(d: Data, token: TokenId, logprob: real): Data {
    d.(output := d.output + [token], pending := d.pending + [token], cached := d.cached + [token],
       logprob := d.logprob + logprob)
  }

  /** Counts computed tokens; the stage moves on only if the count passes its check. */
  function Update(d: Data, n: int): Data {
    var d' := d.(computed := d.computed + n);
    if d'.computed == d'.Len() then d'.(stage := DECODE) else d'
  }

  predicate UpdateChecks(d: Data, n: int) {
    d.computed + n <= d.Len()
  }

  function Reset(d: Data): Data {
    d.(computed := 0, stage := PREFILL, pending := [])
  }

  function DeltaOf(d: Data): Delta {
    Delta(d.pending, d.logprob, d.computed, d.stage)
  }

  function Applied(d: Data, delta: Delta): Data {
    d.(computed := delta.computed, logprob := delta.logprob, stage := delta.stage,
       output := d.output + delta.newTokens, cached := d.cached + delta.newTokens)
  }

  class SequenceData {
    var prompt: seq<TokenId>
    var output: seq<TokenId>
    var cached: seq<TokenId>
    var pending: seq<TokenId>
    var logprob: real
    var computed: int
    var stage: Stage

    constructor (prompt: seq<TokenId>)
      ensures State() == FromPrompt(prompt)
    {
      this.prompt, output, cached, pending := prompt, [], prompt, [];
      logprob, computed, stage := 0.0, 0, PREFILL;
    }

    function State(): Data
      reads this
    {
      Data(prompt, output, cached, pending, logprob, computed, stage)
    }

    method AppendTokenId(token: TokenId, lp: real)
      modifies this
      ensures State() == AppendTo(old(State()), token, lp)
    {
      output := output + [token];
      pending := pending + [token];
      cached := cached + [token];
      logprob := logprob + lp;
    }

    /** The count is raised before it is checked. */
    method UpdateNumComputedTokens(n: int) returns (ok: bool)
      modifies this
      ensures ok <==> old(computed) + n <= |prompt| + |output|
      ensures State() == if ok then Update(old(State()), n) else old(State()).(computed := old(computed) + n)
    {
      computed := computed + n;
      if computed > |output| + |prompt| {
        return false;
      }
      if State().Uncomputed() == 0 {
        stage := DECODE;
      }
      ok := true;
    }

    method ResetStateForRecompute()
      modifies this
      ensures State() == Reset(old(State()))
    {
      computed := 0;
      stage := PREFILL;
      pending := [];
    }

    method GetDeltaAndReset() returns (delta: Delta)
      modifies this
      ensures delta == DeltaOf(old(State())) && State() == old(State()).(pending := [])
    {
      delta := Delta(pending, logprob, computed, stage);
      pending := [];
    }

    method ApplyDelta(delta: Delta)
      modifies this
      ensures State() == Applied(old(State()), delta)
    {
      computed := delta.computed;
      logprob := delta.logprob;
      stage := delta.stage;
      output := output + delta.newTokens;
      cached := cached + delta.newTokens;
    }
  }

  /** What one round sends for a sequence group. */
  datatype GroupDelta = GroupDelta(
    seqDeltas: seq<(int, Delta)>,
    requestId: string,
    blockTables: map<int, seq<nat>>,
    isPrompt: bool,
    doSample: bool,
    tokenChunkSize: Option<int>)

  /** The deltas of a group applied in order; none if a sequence is unknown. */
  function AppliedAll(seqData: map<int, Data>, deltas: seq<(int, Delta)>): Option<map<int, Data>> {
    if deltas == [] then Some(seqData)
    else
      match AppliedAll(seqData, deltas[..|deltas| - 1])
      case None => None
      case Some(m) =>
        var (id, delta) := deltas[|deltas| - 1];
        if id in m then Some(m[id := Applied(m[id], delta)]) else None
  }

  /** The worker's copy of a sequence group. */
  class SequenceGroupMetadata {
    const requestId: string
    var seqData: map<int, Data>
    var blockTables: map<int, seq<nat>>
    var isPrompt: bool
    var doSample: bool
    var tokenChunkSize: Option<int>

    constructor (requestId: string, seqData: map<int, Data>, blockTables: map<int, seq<nat>>, isPrompt: bool)
      ensures this.requestId == requestId && this.seqData == seqData
    {
      this.requestId, this.seqData, this.blockTables := requestId, seqData, blockTables;
      this.isPrompt, doSample, tokenChunkSize := isPrompt, true, None;
    }

    /** Applies the sequences' deltas, then checks that the delta is for this request, and
        only then takes over the group's own fields. */
    method ApplyDelta(delta: GroupDelta) returns (ok: bool)
      modifies this
      ensures ok <==> AppliedAll(old(seqData), delta.seqDeltas).Some? && requestId == delta.requestId
      ensures AppliedAll(old(seqData), delta.seqDeltas).Some? ==>
                seqData == AppliedAll(old(seqData), delta.seqDeltas).value
      ensures if ok then
                && blockTables == delta.blockTables && tokenChunkSize == delta.tokenChunkSize
                && doSample == delta.doSample && isPrompt == delta.isPrompt
              else
                && blockTables == old(blockTables) && tokenChunkSize == old(tokenChunkSize)
                && doSample == old(doSample) && isPrompt == old(isPrompt)
    {
      for i := 0 to |delta.seqDeltas|
        invariant AppliedAll(old(seqData), delta.seqDeltas[..i]) == Some(seqData)
        invariant unchanged(`blockTables) && unchanged(`tokenChunkSize) && unchanged(`doSample) && unchanged(`isPrompt)
      {
        assert delta.seqDeltas[..i + 1][..i] == delta.seqDeltas[..i];
        var (id, d) := delta.seqDeltas[i];
        if id !in seqData {
          StuckAt(old(seqData), delta.seqDeltas, i + 1);
          return false;
        }
        seqData := seqData[id := Applied(seqData[id], d)];
      }
      assert delta.seqDeltas[..|delta.seqDeltas|] == delta.seqDeltas;
      if requestId != delta.requestId {
        return false;
      }
      blockTables := delta.blockTables;
      tokenChunkSize := delta.tokenChunkSize;
      doSample := delta.doSample;
      isPrompt := delta.isPrompt;
      ok := true;
    }
  }

  /** How many deltas of the list are for a sequence. */
  function CountFor(deltas: seq<(int, Delta)>, id: int): nat {
    if deltas == [] then 0
    else CountFor(deltas[..|deltas| - 1], id) + (if deltas[|deltas| - 1].0 == id then 1 else 0)
  }

  /** Deltas can be applied if and only if every one of them is for a known sequence; and then
      a sequence that has one gets just that, and a sequence that has none stays as it is. */
  lemma {:induction false} DeltasReachTheirSequences(seqData: map<int, Data>, deltas: seq<(int, Delta)>)
    ensures AppliedAll(seqData, deltas).Some? <==> forall k :: 0 <= k < |deltas| ==> deltas[k].0 in seqData
    ensures AppliedAll(seqData, deltas).Some? ==>
              var m := AppliedAll(seqData, deltas).value;
              && m.Keys == seqData.Keys
              && (forall id :: id in m && CountFor(deltas, id) == 0 ==> m[id] == seqData[id])
              && (forall k :: 0 <= k < |deltas| && CountFor(deltas, deltas[k].0) == 1 ==>
                    m[deltas[k].0] == Applied(seqData[deltas[k].0], deltas[k].1))
  {
    if deltas != [] {
      var n := |deltas| - 1;
      DeltasReachTheirSequences(seqData, deltas[..n]);
      forall k | 0 <= k < n && CountFor(deltas, deltas[k].0) == 1
        ensures deltas[k].0 != deltas[n].0 && CountFor(deltas[..n], deltas[k].0) == 1
      {
        CountsOne(deltas[..n], k);
      }
      assert forall k :: 0 <= k < n ==> deltas[..n][k] == deltas[k];
    }
  }

  lemma {:induction false} CountsOne(deltas: seq<(int, Delta)>, k: nat)
    requires k < |deltas|
    ensures CountFor(deltas, deltas[k].0) > 0
  {
    if k < |deltas| - 1 {
      CountsOne(deltas[..|deltas| - 1], k);
    }
  }

  lemma {:induction false} StuckAt(seqData: map<int, Data>, deltas: seq<(int, Delta)>, n: nat)
    requires n <= |deltas| && AppliedAll(seqData, deltas[..n]) == None
    ensures AppliedAll(seqData, deltas) == None
    decreases |deltas| - n
  {
    if n < |deltas| {
      assert deltas[..n + 1][..n] == deltas[..n];
      StuckAt(seqData, deltas, n + 1);
    } else {
      assert deltas[..n] == deltas;
    }
  }
}
