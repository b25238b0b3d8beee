/** Prefill over paged KV memory: what a batch computes, and when two batches compute the
    same thing. */
module PagedPrefill {
  import opened Wrappers
  import opened Chunking

  type Slot = nat

  /** The paged KV memory, one entry per slot. */
  type Memory = seq<KV>

  /** The output row of one token. */
  type Hidden(==, !new)

  /** The model: the KV and the output row of a token, given the KV of its context. */
  datatype Model = Model(step: Step, head: (seq<KV>, Token, nat) -> Hidden)

  /** One sequence of a batch: all its tokens, the slot of each of them, and how many
      leading tokens the paged memory holds already. */
  datatype Request = Request(tokens: seq<Token>, slots: seq<Slot>, computed: nat)

  /** The parts of the model input that select what is computed. `tables` holds the block
      tables, expanded to one slot per position. */
  datatype ModelInput = ModelInput(
    inputTokens: seq<Token>,
    inputPositions: seq<nat>,
    slotMapping: seq<Slot>,
    queryStartLoc: seq<nat>,
    queryLens: seq<nat>,
    contextLens: seq<nat>,
    seqLens: seq<nat>,
    tables: seq<seq<Slot>>,
    selected: seq<nat>,
    numPrefills: nat,
    numPrefillTokens: nat,
    maxQueryLen: nat)

  datatype RunResult = RunResult(mem: Memory, rows: seq<Hidden>)

  predicate InBounds(slots: seq<Slot>, size: nat) {
    forall j :: 0 <= j < |slots| ==> slots[j] < size
  }

  /** The KV that attention reads through a block table. */
  function Read(mem: Memory, table: seq<Slot>, n: nat): (kv: seq<KV>)
    requires n <= |table| && InBounds(table, |mem|)
    ensures |kv| == n && forall j :: 0 <= j < n ==> kv[j] == mem[table[j]]
  {
    seq(n, j requires 0 <= j < n => mem[table[j]])
  }

  /** One sequence: each query token reads its context through the block table, and its KV
      is written to its own slot. */
  function ForwardSeq(m: Model, mem: Memory, table: seq<Slot>, ctx: nat, tokens: seq<Token>,
                      positions: seq<nat>, slots: seq<Slot>): (r: RunResult)
    requires |tokens| == |positions| == |slots| && ctx + |tokens| <= |table|
    requires InBounds(table, |mem|) && InBounds(slots, |mem|)
    ensures |r.mem| == |mem| && |r.rows| == |tokens|
    decreases |tokens|
  {
    if tokens == [] then RunResult(mem, [])
    else
      var context := Read(mem, table, ctx);
      var kv := m.step(context, tokens[0], positions[0]);
      var rest := ForwardSeq(m, mem[slots[0] := kv], table, ctx + 1, tokens[1..], positions[1..], slots[1..]);
      RunResult(rest.mem, [m.head(context, tokens[0], positions[0])] + rest.rows)
  }

  /** The input has a window of tokens, positions and slots for every sequence, which ends
      the part of the sequence that is in the batch. */
  predicate Shaped(input: ModelInput, size: nat) {
    var n := |input.tables|;
    && |input.queryStartLoc| == n + 1 && input.queryStartLoc[0] == 0
    && |input.seqLens| == n
    && input.queryStartLoc[n] == |input.inputTokens| == |input.inputPositions| == |input.slotMapping|
    && InBounds(input.slotMapping, size)
    && (forall i :: 0 <= i <= n ==> input.queryStartLoc[i] <= |input.inputTokens|)
    && (forall i :: 0 <= i < n ==>
          && input.queryStartLoc[i] <= input.queryStartLoc[i + 1]
          && InBounds(input.tables[i], size)
          && input.queryStartLoc[i + 1] - input.queryStartLoc[i] <= input.seqLens[i] <= |input.tables[i]|)
  }

  /** The batch from its i-th sequence on. Attention takes the context of a query token from
      the length of its sequence: the last query token comes last in it. */
  function Forward(m: Model, mem: Memory, input: ModelInput, i: nat): (r: RunResult)
    requires Shaped(input, |mem|) && i <= |input.tables|
    ensures |r.mem| == |mem|
    decreases |input.tables| - i
  {
    if i == |input.tables| then RunResult(mem, [])
    else
      var lo, hi := input.queryStartLoc[i], input.queryStartLoc[i + 1];
      var first := ForwardSeq(m, mem, input.tables[i], input.seqLens[i] - (hi - lo), input.inputTokens[lo..hi],
                              input.inputPositions[lo..hi], input.slotMapping[lo..hi]);
      var rest := Forward(m, first.mem, input, i + 1);
      RunResult(rest.mem, first.rows + rest.rows)
  }

  // ---------- batches that describe the same requests ----------

  function Range(lo: nat, hi: nat): (s: seq<nat>)
    requires lo <= hi
    ensures |s| == hi - lo && forall j :: 0 <= j < |s| ==> s[j] == lo + j
  {
    seq(hi - lo, j => lo + j)
  }

  /** `input` asks for request i from position `from[i]` on, and nothing else. */
  ghost predicate Describes(input: ModelInput, reqs: seq<Request>, from: seq<nat>) {
    var n := |reqs|;
    && |from| == n && |input.tables| == n && |input.queryStartLoc| == n + 1
    && |input.contextLens| == |input.queryLens| == |input.seqLens| == n
    && input.queryStartLoc[0] == 0
    && input.queryStartLoc[n] == |input.inputTokens| == |input.inputPositions| == |input.slotMapping|
    && (forall i :: 0 <= i <= n ==> input.queryStartLoc[i] <= |input.inputTokens|)
    && (forall i :: 0 <= i < n ==> DescribesOne(input, i, reqs[i], from[i]))
  }

  ghost predicate DescribesOne(input: ModelInput, i: nat, req: Request, from: nat)
    requires i < |input.tables| && |input.queryStartLoc| == |input.tables| + 1
    requires |input.contextLens| == |input.queryLens| == |input.seqLens| == |input.tables|
    requires |input.inputTokens| == |input.inputPositions| == |input.slotMapping|
    requires input.queryStartLoc[i + 1] <= |input.inputTokens|
  {
    var n, lo, hi := |req.tokens|, input.queryStartLoc[i], input.queryStartLoc[i + 1];
    && from < n && |req.slots| == n
    && hi == lo + (n - from)
    && input.queryLens[i] == n - from
    && input.contextLens[i] == from
    && input.seqLens[i] == n
    && input.tables[i] == req.slots
    && input.inputTokens[lo..hi] == req.tokens[from..]
    && input.inputPositions[lo..hi] == Range(from, n)
    && input.slotMapping[lo..hi] == req.slots[from..]
  }

  /** The sampled rows are the last rows of the sequences. */
  ghost predicate SelectsLast(input: ModelInput) {
    && |input.queryStartLoc| == |input.selected| + 1
    && forall i :: 0 <= i < |input.selected| ==> input.selected[i] + 1 == input.queryStartLoc[i + 1]
  }

  /** A request's own slots are distinct, and the slots it computes are shared only between
      equal prefixes. */
  ghost predicate Separate(reqs: seq<Request>, size: nat) {
    && (forall i :: 0 <= i < |reqs| ==>
          && |reqs[i].slots| == |reqs[i].tokens| && reqs[i].computed < |reqs[i].tokens|
          && InBounds(reqs[i].slots, size) && Distinct(reqs[i].slots))
    && (forall i, k :: 0 <= i < |reqs| && 0 <= k < |reqs| && i != k ==>
          SharesPrefixes(reqs[i], reqs[k]))
  }

  /** A slot that the first request computes belongs to the second one only at the same
      position and after the same tokens, as in a block that prefix caching lets both fill. */
  ghost predicate SharesPrefixes(a: Request, b: Request)
    requires |a.slots| == |a.tokens| && |b.slots| == |b.tokens|
  {
    forall p, q :: a.computed <= p < |a.slots| && 0 <= q < |b.slots| && a.slots[p] == b.slots[q] ==>
      p == q && a.tokens[..p + 1] == b.tokens[..p + 1]
  }

  /** The first `n` tokens of the request are in memory with their recomputed KV. */
  ghost predicate Holds(m: Model, mem: Memory, req: Request, n: nat) {
    && n <= |req.tokens| == |req.slots| && InBounds(req.slots, |mem|)
    && forall j :: 0 <= j < n ==> mem[req.slots[j]] == FullKV(m.step, req.tokens)[j]
  }

  /** Memory differs only in slots that the requests compute. */
  ghost predicate SameElsewhere(before: Memory, after: Memory, reqs: seq<Request>)
    requires forall i :: 0 <= i < |reqs| ==> reqs[i].computed <= |reqs[i].slots|
  {
    && |before| == |after|
    && forall s: Slot :: s < |before| && Untouched(s, reqs) ==> after[s] == before[s]
  }

  ghost predicate Untouched(s: Slot, reqs: seq<Request>)
    requires forall i :: 0 <= i < |reqs| ==> reqs[i].computed <= |reqs[i].slots|
  {
    forall i :: 0 <= i < |reqs| ==> s !in reqs[i].slots[reqs[i].computed..]
  }

  /** Ready to run request i from position `from[i]`: everything before is in memory. */
  ghost predicate Ready(m: Model, mem0: Memory, mem: Memory, reqs: seq<Request>, from: seq<nat>) {
    && |from| == |reqs| && Separate(reqs, |mem|) && SameElsewhere(mem0, mem, reqs)
    && forall i :: 0 <= i < |reqs| ==> reqs[i].computed <= from[i] && Holds(m, mem, reqs[i], from[i])
  }

  /** Everything the batch was to compute is in memory. */
  ghost predicate Complete(m: Model, mem0: Memory, mem: Memory, reqs: seq<Request>) {
    && Separate(reqs, |mem|) && SameElsewhere(mem0, mem, reqs)
    && forall i :: 0 <= i < |reqs| ==> Holds(m, mem, reqs[i], |reqs[i].tokens|)
  }

  /** The output rows of a request from position `from` on. */
  ghost function RowsOf(m: Model, tokens: seq<Token>, from: nat): (rows: seq<Hidden>)
    requires from <= |tokens|
    ensures |rows| == |tokens| - from
    ensures forall j :: 0 <= j < |rows| ==> rows[j] == RowAt(m, tokens, from + j)
    decreases |tokens| - from
  {
    if from == |tokens| then [] else [RowAt(m, tokens, from)] + RowsOf(m, tokens, from + 1)
  }

  ghost function RowAt(m: Model, tokens: seq<Token>, j: nat): Hidden
    requires j < |tokens|
  {
    m.head(FullKV(m.step, tokens)[..j], tokens[j], j)
  }

  // ---------- one sequence ----------

  lemma ReadIsFullKV(m: Model, mem: Memory, req: Request, n: nat)
    requires Holds(m, mem, req, n)
    ensures Read(mem, req.slots, n) == FullKV(m.step, req.tokens)[..n]
  {
  }

  lemma HoldsOneMore(m: Model, mem: Memory, req: Request, n: nat)
    requires Holds(m, mem, req, n) && n < |req.tokens| && Distinct(req.slots)
    ensures Holds(m, mem[req.slots[n] := FullKV(m.step, req.tokens)[n]], req, n + 1)
  {
  }

  lemma ForwardSeqStep(m: Model, mem: Memory, req: Request, from: nat)
    requires from < |req.tokens| && Distinct(req.slots) && Holds(m, mem, req, from)
    ensures var n := |req.tokens|;
            var mem' := mem[req.slots[from] := FullKV(m.step, req.tokens)[from]];
            var rest := ForwardSeq(m, mem', req.slots, from + 1, req.tokens[from + 1..], Range(from + 1, n),
                                   req.slots[from + 1..]);
            ForwardSeq(m, mem, req.slots, from, req.tokens[from..], Range(from, n), req.slots[from..])
            == RunResult(rest.mem, [RowAt(m, req.tokens, from)] + rest.rows)
  {
    ReadIsFullKV(m, mem, req, from);
    FullKVAt(m.step, req.tokens, from);
    assert req.tokens[from..][1..] == req.tokens[from + 1..];
    assert req.slots[from..][1..] == req.slots[from + 1..];
    assert Range(from, |req.tokens|)[1..] == Range(from + 1, |req.tokens|);
  }

  lemma {:induction false} ForwardSeqComputes(m: Model, mem: Memory, req: Request, from: nat)
    requires from <= |req.tokens| && Distinct(req.slots) && Holds(m, mem, req, from)
    ensures var r := ForwardSeq(m, mem, req.slots, from, req.tokens[from..], Range(from, |req.tokens|),
                                req.slots[from..]);
            && Holds(m, r.mem, req, |req.tokens|)
            && r.rows == RowsOf(m, req.tokens, from)
            && Preserved(mem, r.mem, req.slots[from..])
    decreases |req.tokens| - from
  {
    if from < |req.tokens| {
      var mem' := mem[req.slots[from] := FullKV(m.step, req.tokens)[from]];
      HoldsOneMore(m, mem, req, from);
      ForwardSeqStep(m, mem, req, from);
      ForwardSeqComputes(m, mem', req, from + 1);
      var r := ForwardSeq(m, mem', req.slots, from + 1, req.tokens[from + 1..], Range(from + 1, |req.tokens|),
                          req.slots[from + 1..]);
      PreservedCons(mem, r.mem, req.slots, from, FullKV(m.step, req.tokens)[from]);
    }
  }

  lemma PreservedCons(before: Memory, after: Memory, slots: seq<Slot>, from: nat, v: KV)
    requires from < |slots| && slots[from] < |before|
    requires Preserved(before[slots[from] := v], after, slots[from + 1..])
    ensures Preserved(before, after, slots[from..])
  {
    assert slots[from..] == [slots[from]] + slots[from + 1..];
  }

  /** Nothing outside `slots` changes. */
  ghost predicate Preserved(before: Memory, after: Memory, slots: seq<Slot>) {
    && |before| == |after|
    && forall s: Slot :: s < |before| && s !in slots ==> after[s] == before[s]
  }

  // ---------- the whole batch ----------

  lemma DescribesShaped(input: ModelInput, reqs: seq<Request>, from: seq<nat>, size: nat)
    requires Describes(input, reqs, from) && Separate(reqs, size)
    ensures Shaped(input, size)
  {
    var n := |reqs|;
    SlotsInBounds(input, reqs, from, size, n);
    assert input.slotMapping[..input.queryStartLoc[n]] == input.slotMapping;
    forall i | 0 <= i < n
      ensures input.queryStartLoc[i] <= input.queryStartLoc[i + 1]
      ensures InBounds(input.tables[i], size)
      ensures input.queryStartLoc[i + 1] - input.queryStartLoc[i] <= input.seqLens[i] <= |input.tables[i]|
    {
      assert DescribesOne(input, i, reqs[i], from[i]);
    }
  }

  lemma {:induction false} SlotsInBounds(input: ModelInput, reqs: seq<Request>, from: seq<nat>, size: nat, i: nat)
    requires Describes(input, reqs, from) && Separate(reqs, size) && i <= |reqs|
    ensures InBounds(input.slotMapping[..input.queryStartLoc[i]], size)
  {
    if i > 0 {
      SlotsInBounds(input, reqs, from, size, i - 1);
      var lo, hi := input.queryStartLoc[i - 1], input.queryStartLoc[i];
      assert DescribesOne(input, i - 1, reqs[i - 1], from[i - 1]);
      assert input.slotMapping[..hi] == input.slotMapping[..lo] + input.slotMapping[lo..hi];
    }
  }

  /** Equal prefixes have equal KV. */
  lemma SamePrefixSameKV(step: Step, a: seq<Token>, b: seq<Token>, j: nat)
    requires j < |a| && j < |b| && a[..j + 1] == b[..j + 1]
    ensures FullKV(step, a)[j] == FullKV(step, b)[j]
  {
    FullKVPrefix(step, a, j + 1);
    FullKVPrefix(step, b, j + 1);
    assert FullKV(step, a)[..j + 1][j] == FullKV(step, b)[..j + 1][j];
  }

  /** Filling the slots of one request up to a position takes nothing from another. */
  lemma HoldsPreserved(m: Model, mem: Memory, mem': Memory, a: Request, b: Request, from: nat, upto: nat, n: nat)
    requires |a.slots| == |a.tokens| && |b.slots| == |b.tokens| && SharesPrefixes(a, b)
    requires a.computed <= from <= upto <= |a.slots| && Preserved(mem, mem', a.slots[from..upto])
    requires Holds(m, mem', a, upto) && Holds(m, mem, b, n)
    ensures Holds(m, mem', b, n)
  {
    forall j | 0 <= j < n
      ensures mem'[b.slots[j]] == FullKV(m.step, b.tokens)[j]
    {
      if b.slots[j] in a.slots[from..upto] {
        var p :| from <= p < upto && a.slots[p] == b.slots[j];
        SamePrefixSameKV(m.step, a.tokens, b.tokens, j);
      }
    }
  }

  lemma InTail(s: seq<Slot>, lo: nat, from: nat, upto: nat, x: Slot)
    requires lo <= from <= upto <= |s|
    ensures x in s[from..upto] ==> x in s[lo..]
  {
    if x in s[from..upto] {
      var p :| from <= p < upto && s[p] == x;
      assert s[lo..][p - lo] == x;
    }
  }

  lemma SameElsewhereTrans(mem0: Memory, mem: Memory, mem': Memory, reqs: seq<Request>, i: nat, from: nat, upto: nat)
    requires i < |reqs| && forall k :: 0 <= k < |reqs| ==> reqs[k].computed <= |reqs[k].slots|
    requires SameElsewhere(mem0, mem, reqs)
    requires reqs[i].computed <= from <= upto <= |reqs[i].slots| && Preserved(mem, mem', reqs[i].slots[from..upto])
    ensures SameElsewhere(mem0, mem', reqs)
  {
    forall s: Slot | s < |mem0| && Untouched(s, reqs)
      ensures mem'[s] == mem0[s]
    {
      InTail(reqs[i].slots, reqs[i].computed, from, upto, s);
    }
  }

  /** The first `i` requests are complete, the others ready. */
  ghost predicate Progress(m: Model, mem0: Memory, mem: Memory, reqs: seq<Request>, from: seq<nat>, i: nat) {
    && |from| == |reqs| && Separate(reqs, |mem|) && SameElsewhere(mem0, mem, reqs)
    && forall k :: 0 <= k < |reqs| ==>
         && reqs[k].computed <= from[k]
         && Holds(m, mem, reqs[k], if k < i then |reqs[k].tokens| else from[k])
  }

  lemma ForwardOne(m: Model, mem0: Memory, mem: Memory, reqs: seq<Request>, from: seq<nat>, i: nat)
    requires i < |reqs| && Progress(m, mem0, mem, reqs, from, i)
    ensures var r := ForwardSeq(m, mem, reqs[i].slots, from[i], reqs[i].tokens[from[i]..],
                                Range(from[i], |reqs[i].tokens|), reqs[i].slots[from[i]..]);
            Progress(m, mem0, r.mem, reqs, from, i + 1) && r.rows == RowsOf(m, reqs[i].tokens, from[i])
  {
    var r := ForwardSeq(m, mem, reqs[i].slots, from[i], reqs[i].tokens[from[i]..],
                        Range(from[i], |reqs[i].tokens|), reqs[i].slots[from[i]..]);
    var n := |reqs[i].tokens|;
    ForwardSeqComputes(m, mem, reqs[i], from[i]);
    assert reqs[i].slots[from[i]..n] == reqs[i].slots[from[i]..];
    SameElsewhereTrans(mem0, mem, r.mem, reqs, i, from[i], n);
    forall k | 0 <= k < |reqs| && k != i
      ensures Holds(m, r.mem, reqs[k], if k < i then |reqs[k].tokens| else from[k])
    {
      HoldsPreserved(m, mem, r.mem, reqs[i], reqs[k], from[i], n, if k < i then |reqs[k].tokens| else from[k]);
    }
  }

  /** The i-th window of a batch runs the request it describes. */
  lemma ForwardStep(m: Model, mem: Memory, input: ModelInput, i: nat, req: Request, from: nat)
    requires Shaped(input, |mem|) && i < |input.tables| == |input.queryLens| == |input.contextLens|
    requires DescribesOne(input, i, req, from)
    ensures InBounds(req.slots, |mem|) && InBounds(req.slots[from..], |mem|)
    ensures var first := ForwardSeq(m, mem, req.slots, from, req.tokens[from..], Range(from, |req.tokens|),
                                    req.slots[from..]);
            var rest := Forward(m, first.mem, input, i + 1);
            Forward(m, mem, input, i) == RunResult(rest.mem, first.rows + rest.rows)
  {
    assert req.slots == input.tables[i];
  }

  /** Running the requests from the i-th on completes them, whatever position each starts
      from, and yields their remaining output rows. */
  lemma {:induction false} ForwardCompletes(m: Model, mem0: Memory, mem: Memory, input: ModelInput,
                                            reqs: seq<Request>, from: seq<nat>, i: nat)
    requires i <= |reqs| && Describes(input, reqs, from) && Shaped(input, |mem|)
    requires Progress(m, mem0, mem, reqs, from, i)
    ensures var r := Forward(m, mem, input, i);
            && Complete(m, mem0, r.mem, reqs)
            && r.rows == AllRows(m, reqs, from, i)
    decreases |reqs| - i
  {
    if i < |reqs| {
      assert DescribesOne(input, i, reqs[i], from[i]);
      ForwardStep(m, mem, input, i, reqs[i], from[i]);
      var first := ForwardSeq(m, mem, reqs[i].slots, from[i], reqs[i].tokens[from[i]..],
                              Range(from[i], |reqs[i].tokens|), reqs[i].slots[from[i]..]);
      ForwardOne(m, mem0, mem, reqs, from, i);
      ForwardCompletes(m, mem0, first.mem, input, reqs, from, i + 1);
    }
  }

  /** The output rows the batch yields from the i-th request on. */
  ghost function AllRows(m: Model, reqs: seq<Request>, from: seq<nat>, i: nat): seq<Hidden>
    requires i <= |reqs| == |from|
    requires forall k :: 0 <= k < |reqs| ==> from[k] <= |reqs[k].tokens|
    decreases |reqs| - i
  {
    if i == |reqs| then [] else RowsOf(m, reqs[i].tokens, from[i]) + AllRows(m, reqs, from, i + 1)
  }

  lemma IndexConcat<T>(a: seq<T>, b: seq<T>, j: nat)
    ensures j < |a| ==> (a + b)[j] == a[j]
    ensures |a| <= j < |a| + |b| ==> (a + b)[j] == b[j - |a|]
  {
  }

  lemma WindowLength(input: ModelInput, reqs: seq<Request>, from: seq<nat>, i: nat)
    requires Describes(input, reqs, from) && i < |reqs|
    ensures from[i] < |reqs[i].tokens|
    ensures input.queryStartLoc[i + 1] == input.queryStartLoc[i] + (|reqs[i].tokens| - from[i])
  {
    assert DescribesOne(input, i, reqs[i], from[i]);
  }

  /** The last row of every sequence is the row of its last token. */
  lemma {:induction false} LastRow(m: Model, input: ModelInput, reqs: seq<Request>, from: seq<nat>, i: nat, k: nat,
                                   last: nat)
    requires Describes(input, reqs, from) && i <= k < |reqs|
    requires input.queryStartLoc[i] + last + 1 == input.queryStartLoc[k + 1]
    ensures last < |AllRows(m, reqs, from, i)|
    ensures AllRows(m, reqs, from, i)[last] == RowAt(m, reqs[k].tokens, |reqs[k].tokens| - 1)
    decreases |reqs| - i
  {
    WindowLength(input, reqs, from, i);
    var rows := RowsOf(m, reqs[i].tokens, from[i]);
    IndexConcat(rows, AllRows(m, reqs, from, i + 1), last);
    if i < k {
      WindowLength(input, reqs, from, k);
      StartsIncrease(input, reqs, from, i + 1, k);
      LastRow(m, input, reqs, from, i + 1, k, last - |rows|);
    }
  }

  lemma {:induction false} StartsIncrease(input: ModelInput, reqs: seq<Request>, from: seq<nat>, i: nat, k: nat)
    requires Describes(input, reqs, from) && i <= k <= |reqs|
    ensures input.queryStartLoc[i] <= input.queryStartLoc[k]
    decreases k - i
  {
    if i < k {
      WindowLength(input, reqs, from, i);
      StartsIncrease(input, reqs, from, i + 1, k);
    }
  }

  /** Completing the same requests from the same memory leaves the same memory. */
  lemma CompleteUnique(m: Model, mem0: Memory, mem: Memory, mem': Memory, reqs: seq<Request>)
    requires Complete(m, mem0, mem, reqs) && Complete(m, mem0, mem', reqs)
    ensures mem == mem'
  {
    forall s: Slot | s < |mem|
      ensures mem[s] == mem'[s]
    {
      if !Untouched(s, reqs) {
        var i :| 0 <= i < |reqs| && s in reqs[i].slots[reqs[i].computed..];
        var j :| 0 <= j < |reqs[i].slots| && reqs[i].slots[j] == s;
        assert Holds(m, mem, reqs[i], |reqs[i].tokens|) && Holds(m, mem', reqs[i], |reqs[i].tokens|);
      }
    }
  }

  /** The rows the sampler picks from the rows of a run. */
  function Pick(rows: seq<Hidden>, selected: seq<nat>): seq<Hidden>
    requires InBounds(selected, |rows|)
  {
    seq(|selected|, i requires 0 <= i < |selected| => rows[selected[i]])
  }

  ghost function LastRowsOf(m: Model, reqs: seq<Request>): seq<Hidden>
    requires forall i :: 0 <= i < |reqs| ==> reqs[i].tokens != []
  {
    seq(|reqs|, i requires 0 <= i < |reqs| => RowAt(m, reqs[i].tokens, |reqs[i].tokens| - 1))
  }

  lemma PickLast(m: Model, input: ModelInput, reqs: seq<Request>, from: seq<nat>)
    requires Describes(input, reqs, from) && SelectsLast(input)
    requires forall i :: 0 <= i < |reqs| ==> reqs[i].tokens != []
    ensures InBounds(input.selected, |AllRows(m, reqs, from, 0)|)
    ensures Pick(AllRows(m, reqs, from, 0), input.selected) == LastRowsOf(m, reqs)
  {
    var rows := AllRows(m, reqs, from, 0);
    forall k | 0 <= k < |reqs|
      ensures input.selected[k] < |rows| && rows[input.selected[k]] == RowAt(m, reqs[k].tokens, |reqs[k].tokens| - 1)
    {
      LastRow(m, input, reqs, from, 0, k, input.selected[k]);
    }
  }

  /** What any input computes that describes the requests and finds its memory ready: the
      recomputed KV of every token, and the last row of every sequence. */
  lemma PrefillMeaning(m: Model, mem0: Memory, mem: Memory, input: ModelInput, reqs: seq<Request>, from: seq<nat>)
    requires Describes(input, reqs, from) && Ready(m, mem0, mem, reqs, from)
    ensures Shaped(input, |mem|)
    ensures Complete(m, mem0, Forward(m, mem, input, 0).mem, reqs)
    ensures Forward(m, mem, input, 0).rows == AllRows(m, reqs, from, 0)
    ensures SelectsLast(input) ==>
              && InBounds(input.selected, |Forward(m, mem, input, 0).rows|)
              && Pick(Forward(m, mem, input, 0).rows, input.selected) == LastRowsOf(m, reqs)
  {
    DescribesShaped(input, reqs, from, |mem|);
    ForwardCompletes(m, mem0, mem, input, reqs, from, 0);
    if SelectsLast(input) {
      PickLast(m, input, reqs, from);
    }
  }

  /** Rewriting a prefill preserves its meaning: two inputs for the same requests, starting
      from different positions in memories that are both ready, leave the same paged memory
      and hand the same rows to the sampler. */
  lemma RewritePreservesMeaning(m: Model, mem0: Memory, reqs: seq<Request>,
                                input: ModelInput, from: seq<nat>, mem: Memory,
                                input': ModelInput, from': seq<nat>, mem': Memory)
    requires Describes(input, reqs, from) && Ready(m, mem0, mem, reqs, from)
    requires Describes(input', reqs, from') && Ready(m, mem0, mem', reqs, from')
    ensures Shaped(input, |mem|) && Shaped(input', |mem'|)
    ensures Forward(m, mem, input, 0).mem == Forward(m, mem', input', 0).mem
    ensures SelectsLast(input) && SelectsLast(input') ==>
              && InBounds(input.selected, |Forward(m, mem, input, 0).rows|)
              && InBounds(input'.selected, |Forward(m, mem', input', 0).rows|)
              && Pick(Forward(m, mem, input, 0).rows, input.selected)
                 == Pick(Forward(m, mem', input', 0).rows, input'.selected)
  {
    PrefillMeaning(m, mem0, mem, input, reqs, from);
    PrefillMeaning(m, mem0, mem', input', reqs, from');
    CompleteUnique(m, mem0, Forward(m, mem, input, 0).mem, Forward(m, mem', input', 0).mem, reqs);
  }
}
