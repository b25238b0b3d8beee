/** The worker's copy of a sequence: deltas keep it in step with the driver over every run
    of the scheduler, preemption included. */
module Replication {
  import opened SequenceState

  /** A driver's sequence and the worker's copy of it. */
  datatype Pair = Pair(driver: Data, worker: Data)

  /** The cached list is the prompt followed by the output. */
  predicate Consistent(d: Data) {
    d.cached == d.prompt + d.output
  }

  /** What the worker has, followed by what no delta has carried yet, is what the driver has. */
  predicate Synced(p: Pair) {
    && Consistent(p.driver) && Consistent(p.worker)
    && p.worker.prompt == p.driver.prompt
    && p.worker.output + p.driver.pending == p.driver.output
  }

  /** Both sides agree on everything the model run looks at. */
  predicate Agree(d: Data, w: Data) {
    && w.prompt == d.prompt && w.output == d.output && w.cached == d.cached
    && w.logprob == d.logprob && w.computed == d.computed && w.stage == d.stage
  }

  // ---------- appends, updates and deltas ----------

  datatype Event = Appended(token: TokenId, lp: real) | Updated(n: int) | Sent

  function Next(p: Pair, ev: Event): Pair {
    match ev
    case Appended(token, lp) => p.(driver := AppendTo(p.driver, token, lp))
    case Updated(n) => p.(driver := Update(p.driver, n))
    case Sent => Pair(p.driver.(pending := []), Applied(p.worker, DeltaOf(p.driver)))
  }

  function Run(p: Pair, events: seq<Event>): Pair {
    if events == [] then p else Next(Run(p, events[..|events| - 1]), events[|events| - 1])
  }

  /** In every run of appends, updates and sends from a synced copy: the worker's output
      followed by the pending tokens is the driver's output, and right after a send both
      agree on everything. */
  lemma {:induction false} DeltasReplicate(p: Pair, events: seq<Event>)
    requires Synced(p)
    ensures Synced(Run(p, events))
    ensures events != [] && events[|events| - 1] == Sent ==> Agree(Run(p, events).driver, Run(p, events).worker)
  {
    if events != [] {
      DeltasReplicate(p, events[..|events| - 1]);
      var q := Run(p, events[..|events| - 1]);
      var ev := events[|events| - 1];
      match ev {
        case Appended(token, lp) =>
          assert q.worker.output + (q.driver.pending + [token]) == q.driver.output + [token];
        case Updated(n) =>
        case Sent =>
          assert q.worker.cached + q.driver.pending == q.driver.prompt + (q.worker.output + q.driver.pending);
          assert Next(q, ev).worker.output + [] == q.driver.output;
      }
    }
  }

  /** The tokens and log probabilities that events append, in order. */
  function TokensOf(events: seq<Event>): seq<TokenId> {
    if events == [] then []
    else
      var tokens := TokensOf(events[..|events| - 1]);
      match events[|events| - 1]
      case Appended(token, _) => tokens + [token]
      case _ => tokens
  }

  function LogprobOf(events: seq<Event>): real {
    if events == [] then 0.0
    else
      LogprobOf(events[..|events| - 1]) + (match events[|events| - 1] case Appended(_, lp) => lp case _ => 0.0)
  }

  function ComputedIn(events: seq<Event>): int {
    if events == [] then 0
    else
      ComputedIn(events[..|events| - 1]) + (match events[|events| - 1] case Updated(n) => n case _ => 0)
  }

  /** In every run: the driver's output grows by exactly the appended tokens in their order,
      the log probability by their sum and the computed count by the updates; with no send
      among the events all of these tokens are pending. */
  lemma {:induction false} AppendsAddUp(p: Pair, events: seq<Event>)
    ensures var d := Run(p, events).driver;
            && d.prompt == p.driver.prompt
            && d.output == p.driver.output + TokensOf(events)
            && d.cached == p.driver.cached + TokensOf(events)
            && d.logprob == p.driver.logprob + LogprobOf(events)
            && d.computed == p.driver.computed + ComputedIn(events)
            && (Sent !in events ==> d.pending == p.driver.pending + TokensOf(events))
  {
    if events != [] {
      AppendsAddUp(p, events[..|events| - 1]);
      assert Sent !in events ==> Sent !in events[..|events| - 1];
    }
  }

  /** Event k computes the last of the tokens there are at that point. */
  predicate CompletesAt(p: Pair, events: seq<Event>, k: nat)
    requires k < |events|
  {
    events[k].Updated? && Run(p, events[..k + 1]).driver.Uncomputed() == 0
  }

  /** In every run a sequence decodes exactly once some update has computed all it had. */
  lemma {:induction false} DecodesIff(p: Pair, events: seq<Event>)
    ensures Run(p, events).driver.stage == DECODE
            <==> p.driver.stage == DECODE || exists k :: 0 <= k < |events| && CompletesAt(p, events, k)
  {
    if events != [] {
      var n := |events| - 1;
      var before := events[..n];
      DecodesIff(p, before);
      assert events[..n + 1] == events;
      forall k | 0 <= k < n
        ensures CompletesAt(p, before, k) == CompletesAt(p, events, k)
      {
        assert before[..k + 1] == events[..k + 1];
      }
      assert CompletesAt(p, events, n) <==> events[n].Updated? && Run(p, events).driver.Uncomputed() == 0;
    }
  }

  /** A reset for recompute drops the pending tokens: the copy survives it exactly when
      there are none, and otherwise the worker has to be given a fresh copy. */
  lemma ResetKeepsSyncIff(p: Pair)
    requires Synced(p)
    ensures Synced(p.(driver := Reset(p.driver))) <==> p.driver.pending == []
  {
    assert |p.driver.output| == |p.worker.output| + |p.driver.pending|;
    if p.driver.pending == [] {
      assert p.worker.output + [] == p.driver.output;
    }
  }

  /** A preempted sequence has everything to compute again, its output included. */
  lemma PreemptedStartsOver(d: Data)
    ensures var d' := Reset(d);
            && d'.NumNewTokens() == d'.Uncomputed() == |d.prompt| + |d.output|
            && (d'.prompt, d'.output, d'.cached, d'.logprob) == (d.prompt, d.output, d.cached, d.logprob)
  {
  }

  /** A full copy: the worker rebuilds its cached list, the driver keeps its pending tokens. */
  function FullCopy(p: Pair): Pair {
    p.(worker := p.driver.(cached := p.driver.prompt + p.driver.output))
  }

  /** After a full copy the next delta repeats the tokens that were pending. */
  lemma FullCopySyncsIff(p: Pair)
    requires Consistent(p.driver)
    ensures Agree(FullCopy(p).driver, FullCopy(p).worker)
    ensures Synced(FullCopy(p)) <==> p.driver.pending == []
  {
    assert |p.driver.output + p.driver.pending| == |p.driver.output| + |p.driver.pending|;
    if p.driver.pending == [] {
      assert p.driver.output + [] == p.driver.output;
    }
  }

  // ---------- the scheduler ----------

  /** One scheduling round: `chunk` tokens of the sequence are sent and computed, and if
      that was all of it the sampled token is appended. Or the sequence is preempted. */
  datatype Round = Scheduled(chunk: int, token: TokenId, lp: real) | Preempted

  /** The scheduler sends the whole sequence with the first prefill, deltas otherwise. */
  function Send(p: Pair): Pair {
    if p.driver.stage == PREFILL && p.driver.computed == 0 then FullCopy(p) else Next(p, Sent)
  }

  function Executed(d: Data, chunk: int, token: TokenId, lp: real): Data {
    var d' := Update(d, chunk);
    if d'.Uncomputed() == 0 then AppendTo(d', token, lp) else d'
  }

  predicate Possible(d: Data, round: Round) {
    round.Scheduled? ==> 1 <= round.chunk <= d.NumNewTokens()
  }

  function Step(p: Pair, round: Round): Pair {
    match round
    case Scheduled(chunk, token, lp) =>
      var sent := Send(p);
      sent.(driver := Executed(sent.driver, chunk, token, lp))
    case Preempted => p.(driver := Reset(p.driver))
  }

  /** Between rounds: something is left to compute, the fast path counts it right, and once
      anything is computed the copy is synced. */
  predicate Between(p: Pair) {
    && Consistent(p.driver)
    && 0 <= p.driver.computed < p.driver.Len()
    && p.driver.NumNewTokens() == p.driver.Uncomputed()
    && (p.driver.computed == 0 ==> p.driver.pending == [] && p.driver.stage == PREFILL)
    && (p.driver.computed > 0 ==> Synced(p))
  }

  function Rounds(p: Pair, rounds: seq<Round>): Pair {
    if rounds == [] then p else Step(Rounds(p, rounds[..|rounds| - 1]), rounds[|rounds| - 1])
  }

  ghost predicate AllPossible(p: Pair, rounds: seq<Round>) {
    forall k :: 0 <= k < |rounds| ==> Possible(Rounds(p, rounds[..k]).driver, rounds[k])
  }

  /** What a send leaves, and that the count passes its check. */
  lemma RoundKeeps(p: Pair, round: Round)
    requires Between(p) && Possible(p.driver, round)
    ensures Between(Step(p, round))
    ensures round.Scheduled? ==>
              && Synced(Send(p)) && Agree(Send(p).driver, Send(p).worker)
              && UpdateChecks(Send(p).driver, round.chunk)
  {
    if round.Scheduled? {
      if p.driver.computed == 0 {
        FullCopySyncsIff(p);
      } else {
        DeltasReplicate(p, [Sent]);
        assert [Sent][..0] == [];
      }
      var sent := Send(p);
      var d := Update(sent.driver, round.chunk);
      assert sent.worker.output + (sent.driver.pending + [round.token]) == sent.driver.output + [round.token];
    }
  }

  /** Over every run of the scheduler, chunked prefill and preemption included: whenever a
      sequence is scheduled, `get_num_new_tokens` is the number of uncomputed tokens, the
      worker runs on exactly the driver's state, and the computed count stays in range. */
  lemma {:induction false} SchedulerReplicates(p: Pair, rounds: seq<Round>, k: nat)
    requires Between(p) && AllPossible(p, rounds) && k <= |rounds|
    ensures var q := Rounds(p, rounds[..k]);
            && Between(q)
            && (k < |rounds| && rounds[k].Scheduled? ==>
                  && Agree(Send(q).driver, Send(q).worker)
                  && UpdateChecks(Send(q).driver, rounds[k].chunk))
  {
    if k > 0 {
      SchedulerReplicates(p, rounds, k - 1);
      assert rounds[..k][..k - 1] == rounds[..k - 1];
      RoundKeeps(Rounds(p, rounds[..k - 1]), rounds[k - 1]);
    } else {
      assert rounds[..0] == [];
    }
    if k < |rounds| {
      RoundKeeps(Rounds(p, rounds[..k]), rounds[k]);
    }
  }

  /** A new sequence starts such a run, whatever the worker has. */
  lemma NewSequenceBetween(prompt: seq<TokenId>, worker: Data)
    requires prompt != []
    ensures Between(Pair(FromPrompt(prompt), worker))
  {
    assert prompt + [] == prompt;
  }
}
