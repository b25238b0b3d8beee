/** Merging asynchronous iterators: a coroutine that keeps one outstanding future per live
    iterator and yields items as futures complete, as a state machine over its steps. */
module AsyncMerge {

  type Item(==)

  /** What one `__anext__` of an iterator comes to. */
  datatype Pull = Yields(item: Item) | Stops | Raises

  /** An iterator, as the outcome of its n-th `__anext__`. */
  type Source = nat -> Pull

  /** Which `__anext__` of which iterator a future stands for. */
  datatype Request = Request(iter: nat, n: nat)

  datatype Phase = Waiting | Draining(done: seq<nat>) | Finished | Raised | Cancelled

  /** `awaits` maps outstanding futures to their iterators; `ready` are those of them that
      have completed; `unused` is the next new future. */
  datatype State = State(awaits: map<nat, Request>, ready: set<nat>, unused: nat, out: seq<(nat, Item)>, phase: Phase)

  datatype Step =
    | Complete(f: nat)
    | Wake(done: seq<nat>)
    | Drain
    | Cancel

  /** The items the output took from iterator `i`. */
  function Project(out: seq<(nat, Item)>, i: nat): seq<Item> {
    if out == [] then []
    else
      var last := out[|out| - 1];
      Project(out[..|out| - 1], i) + (if last.0 == i then [last.1] else [])
  }

  function Init(count: nat): State {
    State(map i | 0 <= i < count :: Request(i, 0), {}, count, [], if count == 0 then Finished else Waiting)
  }

  predicate Final(p: Phase) {
    p.Finished? || p.Raised? || p.Cancelled?
  }

  /** Whether a step can be taken. The wait returns some completed futures, in any order,
      or none at all when its timeout expires. */
  predicate Enabled(st: State, step: Step) {
    match step
    case Complete(f) => !Final(st.phase) && f in st.awaits && f !in st.ready
    case Wake(done) =>
      && st.phase == Waiting
      && (forall j :: 0 <= j < |done| ==> done[j] in st.awaits && done[j] in st.ready)
      && (forall j, k :: 0 <= j < k < |done| ==> done[j] != done[k])
    case Drain => st.phase.Draining? && st.phase.done != [] && st.phase.done[0] in st.awaits
    case Cancel => !Final(st.phase)
  }

  /** After the last of the done futures the coroutine waits again, or finishes. */
  function Resume(awaits: map<nat, Request>, done: seq<nat>): Phase {
    if done != [] then Draining(done) else if awaits == map[] then Finished else Waiting
  }

  function Next(src: seq<Source>, st: State, step: Step): State
    requires Enabled(st, step)
    requires forall f :: f in st.awaits ==> st.awaits[f].iter < |src|
  {
    match step
    case Complete(f) => st.(ready := st.ready + {f})
    case Wake(done) => st.(phase := Resume(st.awaits, done))
    case Drain =>
      var d, rest := st.phase.done[0], st.phase.done[1..];
      var r := st.awaits[d];
      var popped := st.awaits - {d};
      (match src[r.iter](r.n)
       case Yields(item) =>
         var awaits := popped[st.unused := Request(r.iter, r.n + 1)];
         State(awaits, st.ready - {d}, st.unused + 1, st.out + [(r.iter, item)], Resume(awaits, rest))
       case Stops => State(popped, st.ready - {d}, st.unused, st.out, Resume(popped, rest))
       case Raises => State(map[], {}, st.unused, st.out, Raised))
    case Cancel => State(map[], {}, st.unused, st.out, Cancelled)
  }

  // ---------- what every step keeps ----------

  /** The first `n` items of an iterator. */
  ghost predicate Took(s: Source, items: seq<Item>) {
    forall j: nat :: j < |items| ==> s(j) == Yields(items[j])
  }

  ghost predicate Live(st: State, i: nat) {
    exists f :: f in st.awaits && st.awaits[f].iter == i
  }

  /** Every outstanding future is the next pull of its iterator, and no iterator has two. */
  ghost predicate OnePending(src: seq<Source>, awaits: map<nat, Request>, out: seq<(nat, Item)>, unused: nat) {
    && (forall f :: f in awaits ==>
          f < unused && awaits[f].iter < |src| && awaits[f].n == |Project(out, awaits[f].iter)|)
    && (forall f, g :: f in awaits && g in awaits && awaits[f].iter == awaits[g].iter ==> f == g)
  }

  /** The output is taken from the iterators, from each in order and without gaps. */
  ghost predicate Interleaving(src: seq<Source>, out: seq<(nat, Item)>) {
    && (forall j :: 0 <= j < |out| ==> out[j].0 < |src|)
    && (forall i: nat :: i < |src| ==> Took(src[i], Project(out, i)))
  }

  /** An iterator without a future has stopped right after what it has delivered. */
  ghost predicate StoppedOrLive(src: seq<Source>, st: State) {
    forall i: nat :: i < |src| ==> Live(st, i) || src[i](|Project(st.out, i)|) == Stops
  }

  ghost predicate PhaseOk(st: State) {
    && st.ready <= st.awaits.Keys
    && (st.phase.Draining? ==> DrainingOk(st))
    && (st.phase == Waiting ==> st.awaits != map[])
    && (Final(st.phase) ==> st.awaits == map[])
  }

  ghost predicate Inv(src: seq<Source>, st: State) {
    && OnePending(src, st.awaits, st.out, st.unused)
    && Interleaving(src, st.out)
    && (!st.phase.Raised? && !st.phase.Cancelled? ==> StoppedOrLive(src, st))
    && PhaseOk(st)
  }

  ghost predicate DrainingOk(st: State)
    requires st.phase.Draining?
  {
    var done := st.phase.done;
    && done != []
    && (forall j :: 0 <= j < |done| ==> done[j] in st.awaits && done[j] in st.ready)
    && (forall j, k :: 0 <= j < k < |done| ==> done[j] != done[k])
  }

  lemma InitInv(src: seq<Source>)
    ensures Inv(src, Init(|src|))
  {
    var st := Init(|src|);
    forall i: nat | i < |src|
      ensures Live(st, i)
    {
      assert i in st.awaits && st.awaits[i].iter == i;
    }
    if |src| > 0 {
      assert 0 in st.awaits;
    }
  }

  lemma ProjectAppend(out: seq<(nat, Item)>, x: (nat, Item), i: nat)
    ensures Project(out + [x], i) == Project(out, i) + (if x.0 == i then [x.1] else [])
  {
    assert (out + [x])[..|out|] == out;
  }

  lemma NextInv(src: seq<Source>, st: State, step: Step)
    requires Inv(src, st) && Enabled(st, step)
    ensures Inv(src, Next(src, st, step))
  {
    if step.Drain? {
      DrainInv(src, st);
    } else {
      var st' := Next(src, st, step);
      assert forall i: nat :: st'.awaits == st.awaits && Live(st, i) ==> Live(st', i);
    }
  }

  lemma DrainPhase(src: seq<Source>, st: State)
    requires Inv(src, st) && Enabled(st, Drain)
    ensures PhaseOk(Next(src, st, Drain))
  {
    var st' := Next(src, st, Drain);
    if st'.phase.Draining? {
      assert forall j :: 0 <= j < |st'.phase.done| ==> st'.phase.done[j] == st.phase.done[j + 1];
    }
  }

  /** An item goes out and the iterator's next pull is issued. */
  lemma YieldKeeps(src: seq<Source>, st: State, d: nat, item: Item)
    requires OnePending(src, st.awaits, st.out, st.unused) && Interleaving(src, st.out) && d in st.awaits
    requires src[st.awaits[d].iter](st.awaits[d].n) == Yields(item)
    ensures var r := st.awaits[d];
            var awaits, out := (st.awaits - {d})[st.unused := Request(r.iter, r.n + 1)], st.out + [(r.iter, item)];
            && OnePending(src, awaits, out, st.unused + 1) && Interleaving(src, out)
            && forall i: nat :: i != r.iter ==> Project(out, i) == Project(st.out, i)
  {
    var r := st.awaits[d];
    forall i: nat
      ensures Project(st.out + [(r.iter, item)], i) == Project(st.out, i) + (if r.iter == i then [item] else [])
    {
      ProjectAppend(st.out, (r.iter, item), i);
    }
  }

  lemma LiveKeeps(st: State, st': State, d: nat, i: nat)
    requires Live(st, i) && d in st.awaits && st.awaits[d].iter != i
    requires forall f :: f in st.awaits && f != d ==> f in st'.awaits && st'.awaits[f] == st.awaits[f]
    ensures Live(st', i)
  {
    var f :| f in st.awaits && st.awaits[f].iter == i;
    assert f in st'.awaits && st'.awaits[f].iter == i;
  }

  lemma DrainStopped(src: seq<Source>, st: State)
    requires Inv(src, st) && Enabled(st, Drain)
    requires var r := st.awaits[st.phase.done[0]]; !src[r.iter](r.n).Raises?
    ensures StoppedOrLive(src, Next(src, st, Drain))
  {
    var d := st.phase.done[0];
    var r := st.awaits[d];
    var st' := Next(src, st, Drain);
    var pull := src[r.iter](r.n);
    if pull.Yields? {
      YieldKeeps(src, st, d, pull.item);
      assert st.unused in st'.awaits && st'.awaits[st.unused].iter == r.iter;
    }
    forall i: nat | i < |src|
      ensures Live(st', i) || src[i](|Project(st'.out, i)|) == Stops
    {
      if i == r.iter {
        assert pull.Stops? ==> |Project(st'.out, i)| == r.n;
      } else if Live(st, i) {
        LiveKeeps(st, st', d, i);
      } else {
        assert Project(st'.out, i) == Project(st.out, i);
      }
    }
  }

  lemma DrainInv(src: seq<Source>, st: State)
    requires Inv(src, st) && Enabled(st, Drain)
    ensures Inv(src, Next(src, st, Drain))
  {
    var d := st.phase.done[0];
    var r := st.awaits[d];
    var st' := Next(src, st, Drain);
    var pull := src[r.iter](r.n);
    DrainPhase(src, st);
    if pull.Yields? {
      YieldKeeps(src, st, d, pull.item);
    }
    if !pull.Raises? {
      DrainStopped(src, st);
    }
  }

  // ---------- whole runs ----------

  ghost predicate IsRun(src: seq<Source>, states: seq<State>, steps: seq<Step>) {
    && |states| == |steps| + 1 && states[0] == Init(|src|)
    && forall k :: 0 <= k < |steps| ==>
         && Enabled(states[k], steps[k])
         && (forall f :: f in states[k].awaits ==> states[k].awaits[f].iter < |src|)
         && states[k + 1] == Next(src, states[k], steps[k])
  }

  lemma {:induction false} RunInv(src: seq<Source>, states: seq<State>, steps: seq<Step>, k: nat)
    requires IsRun(src, states, steps) && k < |states|
    ensures Inv(src, states[k])
  {
    if k == 0 {
      InitInv(src);
    } else {
      RunInv(src, states, steps, k - 1);
      NextInv(src, states[k - 1], steps[k - 1]);
    }
  }

  /** For every completion schedule, whether cancelled or not: every live iterator has
      exactly one outstanding future, standing for its next item, and what the output took
      from an iterator is a prefix of that iterator. */
  lemma MergeIsInterleaving(src: seq<Source>, states: seq<State>, steps: seq<Step>, k: nat, i: nat)
    requires IsRun(src, states, steps) && k < |states| && i < |src|
    ensures var st := states[k];
            && Took(src[i], Project(st.out, i))
            && (Live(st, i) ==> exists f :: f in st.awaits && st.awaits[f] == Request(i, |Project(st.out, i)|)
                                 && forall g :: g in st.awaits && st.awaits[g].iter == i ==> g == f)
  {
    RunInv(src, states, steps, k);
    var st := states[k];
    if Live(st, i) {
      var f :| f in st.awaits && st.awaits[f].iter == i;
      assert st.awaits[f] == Request(i, |Project(st.out, i)|);
    }
  }

  /** The iterator yields `items` and then stops. */
  ghost predicate Enumerates(s: Source, items: seq<Item>) {
    Took(s, items) && s(|items|) == Stops
  }

  /** A run that finishes without being cancelled yields every item of every iterator. */
  lemma FinishedYieldsEverything(src: seq<Source>, states: seq<State>, steps: seq<Step>, k: nat, i: nat,
                                 items: seq<Item>)
    requires IsRun(src, states, steps) && k < |states| && i < |src| && states[k].phase == Finished
    requires Enumerates(src[i], items)
    ensures Project(states[k].out, i) == items
  {
    RunInv(src, states, steps, k);
    var got := Project(states[k].out, i);
    assert Took(src[i], got) && src[i](|got|) == Stops;
    assert |got| == |items|;
    assert forall j :: 0 <= j < |got| ==> src[i](j) == Yields(got[j]) && src[i](j) == Yields(items[j]);
  }

  /** The coroutine is never stuck: short of a final state, something other than a
      cancellation or a timeout can happen. */
  lemma NeverStuck(src: seq<Source>, st: State)
    requires Inv(src, st) && !Final(st.phase)
    ensures exists step :: Enabled(st, step) && step != Cancel && step != Wake([])
  {
    if st.phase.Draining? {
      assert Enabled(st, Drain);
    } else {
      var f :| f in st.awaits;
      if f in st.ready {
        assert Enabled(st, Wake([f]));
        assert Wake([f]) != Wake([]);
      } else {
        assert Enabled(st, Complete(f));
      }
    }
  }
}
