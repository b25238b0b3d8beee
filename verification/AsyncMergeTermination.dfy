/** Over finite iterators, whether they stop or raise, the merge terminates: every step but an
    expired timeout brings it closer to the end. */
module AsyncMergeTermination {
  import opened AsyncMerge

  /** The iterator yields `items` and then stops or raises. */
  ghost predicate Ends(s: Source, items: seq<Item>) {
    Took(s, items) && !s(|items|).Yields?
  }

  ghost predicate AllEnd(src: seq<Source>, items: seq<seq<Item>>) {
    |items| == |src| && forall i: nat :: i < |src| ==> Ends(src[i], items[i])
  }

  ghost function FutureOf(st: State, i: nat): (f: nat)
    requires Live(st, i)
    ensures f in st.awaits && st.awaits[f].iter == i
  {
    var f :| f in st.awaits && st.awaits[f].iter == i;
    f
  }

  /** A future has to complete, to be picked up by the wait, and to be drained. */
  function StepsLeft(st: State, f: nat): nat {
    if f !in st.ready then 3
    else if st.phase.Draining? && f in st.phase.done then 1
    else 2
  }

  /** The steps iterator `i` still needs. */
  ghost function Need(items: seq<seq<Item>>, st: State, i: nat): nat
    requires i < |items|
  {
    var got := |Project(st.out, i)|;
    if Live(st, i) && got <= |items[i]| then 3 * (|items[i]| - got) + StepsLeft(st, FutureOf(st, i)) else 0
  }

  ghost function Needs(items: seq<seq<Item>>, st: State, count: nat): nat
    requires count <= |items|
  {
    if count == 0 then 0 else Needs(items, st, count - 1) + Need(items, st, count - 1)
  }

  lemma TookAtMost(s: Source, got: seq<Item>, items: seq<Item>)
    requires Took(s, got) && Ends(s, items)
    ensures |got| <= |items|
  {}

  lemma {:induction false} NeedsLess(items: seq<seq<Item>>, st: State, st': State, count: nat, j: nat)
    requires count <= |items| && j < |items|
    requires forall i: nat :: i < |items| ==> Need(items, st', i) <= Need(items, st, i)
    requires Need(items, st', j) < Need(items, st, j)
    ensures Needs(items, st', count) + (if j < count then 1 else 0) <= Needs(items, st, count)
  {
    if count > 0 {
      NeedsLess(items, st, st', count - 1, j);
    }
  }

  /** If the futures stay and none gets further away, no iterator needs more. */
  lemma SameAwaits(src: seq<Source>, items: seq<seq<Item>>, st: State, st': State, f: nat)
    requires Inv(src, st) && AllEnd(src, items) && f in st.awaits
    requires st'.awaits == st.awaits && st'.out == st.out
    requires forall g :: g in st.awaits ==> StepsLeft(st', g) <= StepsLeft(st, g)
    requires StepsLeft(st', f) < StepsLeft(st, f)
    ensures Needs(items, st', |items|) < Needs(items, st, |items|)
  {
    var j := st.awaits[f].iter;
    forall i: nat | i < |items|
      ensures Need(items, st', i) <= Need(items, st, i)
    {
      assert Live(st', i) <==> Live(st, i);
    }
    assert Live(st, j) && Live(st', j);
    assert FutureOf(st, j) == f && FutureOf(st', j) == f;
    TookAtMost(src[j], Project(st.out, j), items[j]);
    NeedsLess(items, st, st', |items|, j);
  }

  lemma DrainNeeds(src: seq<Source>, items: seq<seq<Item>>, st: State)
    requires Inv(src, st) && AllEnd(src, items) && Enabled(st, Drain)
    ensures Needs(items, Next(src, st, Drain), |items|) < Needs(items, st, |items|)
  {
    var d := st.phase.done[0];
    var r := st.awaits[d];
    var st' := Next(src, st, Drain);
    var j := r.iter;
    DrainInv(src, st);
    assert Live(st, j) && FutureOf(st, j) == d;
    assert d in st.ready;
    TookAtMost(src[j], Project(st.out, j), items[j]);
    forall i: nat | i < |items| && i != j
      ensures Need(items, st', i) <= Need(items, st, i)
    {
      DrainOther(src, items, st, i);
    }
    DrainSelf(src, items, st);
    NeedsLess(items, st, st', |items|, j);
  }

  /** Draining one iterator's future brings that iterator closer to its end. */
  lemma DrainSelf(src: seq<Source>, items: seq<seq<Item>>, st: State)
    requires Inv(src, st) && AllEnd(src, items) && Enabled(st, Drain)
    ensures var j := st.awaits[st.phase.done[0]].iter;
            Need(items, Next(src, st, Drain), j) < Need(items, st, j)
  {
    var d := st.phase.done[0];
    var r := st.awaits[d];
    var st' := Next(src, st, Drain);
    var j := r.iter;
    assert Live(st, j) && FutureOf(st, j) == d;
    TookAtMost(src[j], Project(st.out, j), items[j]);
    match src[j](r.n) {
      case Yields(item) =>
        DrainInv(src, st);
        ProjectAppend(st.out, (j, item), j);
        assert st'.awaits[st.unused] == Request(j, r.n + 1);
        assert Live(st', j) && FutureOf(st', j) == st.unused;
      case Stops =>
        assert !Live(st', j);
      case Raises =>
        assert !Live(st', j);
    }
  }

  lemma DrainOther(src: seq<Source>, items: seq<seq<Item>>, st: State, i: nat)
    requires Inv(src, st) && AllEnd(src, items) && Enabled(st, Drain) && i < |items|
    requires i != st.awaits[st.phase.done[0]].iter
    ensures Need(items, Next(src, st, Drain), i) <= Need(items, st, i)
  {
    var d := st.phase.done[0];
    var r := st.awaits[d];
    var st' := Next(src, st, Drain);
    if src[r.iter](r.n).Yields? {
      ProjectAppend(st.out, (r.iter, src[r.iter](r.n).item), i);
    }
    if Live(st', i) {
      var f := FutureOf(st', i);
      assert f in st.awaits && f != d;
      assert Live(st, i) && FutureOf(st, i) == f;
      DrainCloser(src, st, f);
    }
  }

  lemma DrainCloser(src: seq<Source>, st: State, f: nat)
    requires Enabled(st, Drain) && forall g :: g in st.awaits ==> st.awaits[g].iter < |src|
    requires f != st.phase.done[0] && f in Next(src, st, Drain).awaits
    ensures StepsLeft(Next(src, st, Drain), f) <= StepsLeft(st, f)
  {
    assert st.phase.done == [st.phase.done[0]] + st.phase.done[1..];
  }

  lemma CompleteNeeds(src: seq<Source>, items: seq<seq<Item>>, st: State, f: nat)
    requires Inv(src, st) && AllEnd(src, items) && Enabled(st, Complete(f))
    ensures Needs(items, Next(src, st, Complete(f)), |items|) < Needs(items, st, |items|)
  {
    var st' := Next(src, st, Complete(f));
    assert !(st.phase.Draining? && f in st.phase.done);
    SameAwaits(src, items, st, st', f);
  }

  lemma WakeNeeds(src: seq<Source>, items: seq<seq<Item>>, st: State, done: seq<nat>)
    requires Inv(src, st) && AllEnd(src, items) && Enabled(st, Wake(done)) && done != []
    ensures Needs(items, Next(src, st, Wake(done)), |items|) < Needs(items, st, |items|)
  {
    var st' := Next(src, st, Wake(done));
    assert done[0] in st'.phase.done && done[0] in st.ready;
    SameAwaits(src, items, st, st', done[0]);
  }

  lemma SomethingAwaited(src: seq<Source>, st: State)
    requires Inv(src, st) && !Final(st.phase)
    ensures st.awaits != map[]
  {
    if st.phase.Draining? {
      assert st.phase.done[0] in st.awaits;
    }
  }

  lemma NeedPositive(src: seq<Source>, items: seq<seq<Item>>, st: State, f: nat)
    requires Inv(src, st) && AllEnd(src, items) && f in st.awaits
    ensures st.awaits[f].iter < |items| && Need(items, st, st.awaits[f].iter) > 0
  {
    var j := st.awaits[f].iter;
    assert Live(st, j);
    TookAtMost(src[j], Project(st.out, j), items[j]);
  }

  lemma CancelNeeds(src: seq<Source>, items: seq<seq<Item>>, st: State)
    requires Inv(src, st) && AllEnd(src, items) && Enabled(st, Cancel)
    ensures Needs(items, Next(src, st, Cancel), |items|) < Needs(items, st, |items|)
  {
    SomethingAwaited(src, st);
    var f :| f in st.awaits;
    NeedPositive(src, items, st, f);
    NeedsLess(items, st, Next(src, st, Cancel), |items|, st.awaits[f].iter);
  }

  /** Every step but an expired timeout brings the merge closer to its end. */
  lemma StepDecreases(src: seq<Source>, items: seq<seq<Item>>, st: State, step: Step)
    requires Inv(src, st) && AllEnd(src, items) && Enabled(st, step) && step != Wake([])
    ensures Needs(items, Next(src, st, step), |items|) < Needs(items, st, |items|)
  {
    match step {
      case Complete(f) => CompleteNeeds(src, items, st, f);
      case Wake(done) => WakeNeeds(src, items, st, done);
      case Drain => DrainNeeds(src, items, st);
      case Cancel => CancelNeeds(src, items, st);
    }
  }

  function TotalSteps(items: seq<seq<Item>>): nat {
    if items == [] then 0 else TotalSteps(items[..|items| - 1]) + 3 * (|items[|items| - 1]| + 1)
  }

  lemma {:induction false} InitNeeds(items: seq<seq<Item>>, count: nat)
    requires count <= |items|
    ensures Needs(items, Init(|items|), count) <= TotalSteps(items[..count])
  {
    if count > 0 {
      InitNeeds(items, count - 1);
      assert items[..count][..count - 1] == items[..count - 1];
    }
  }

  /** The steps of a run other than expired timeouts. */
  function Moves(steps: seq<Step>): nat {
    if steps == [] then 0
    else Moves(steps[..|steps| - 1]) + (if steps[|steps| - 1] == Wake([]) then 0 else 1)
  }

  /** An expired timeout changes nothing. */
  lemma TimeoutStays(src: seq<Source>, st: State)
    requires Inv(src, st) && Enabled(st, Wake([]))
    ensures Next(src, st, Wake([])) == st
  {}

  lemma RunStepDecreases(src: seq<Source>, items: seq<seq<Item>>, states: seq<State>, steps: seq<Step>, k: nat)
    requires IsRun(src, states, steps) && AllEnd(src, items) && k < |steps|
    ensures Needs(items, states[k + 1], |items|) + (if steps[k] == Wake([]) then 0 else 1)
            <= Needs(items, states[k], |items|)
  {
    RunInv(src, states, steps, k);
    var st, step := states[k], steps[k];
    assert Enabled(st, step) && states[k + 1] == Next(src, st, step);
    if step == Wake([]) {
      TimeoutStays(src, st);
    } else {
      StepDecreases(src, items, st, step);
    }
  }

  lemma {:induction false} RunNeeds(src: seq<Source>, items: seq<seq<Item>>, states: seq<State>, steps: seq<Step>,
                                    k: nat)
    requires IsRun(src, states, steps) && AllEnd(src, items) && k < |states|
    ensures Needs(items, states[k], |items|) + Moves(steps[..k]) <= TotalSteps(items)
  {
    if k == 0 {
      InitNeeds(items, |items|);
      assert items[..|items|] == items;
    } else {
      RunNeeds(src, items, states, steps, k - 1);
      RunStepDecreases(src, items, states, steps, k - 1);
      assert steps[..k][..k - 1] == steps[..k - 1];
    }
  }

  /** Over iterators that stop or raise at some point every run ends after at most three steps
      per item and per iterator, not counting expired timeouts, which change nothing; with
      `NeverStuck`, it ends in a final state. */
  lemma MergeTerminates(src: seq<Source>, items: seq<seq<Item>>, states: seq<State>, steps: seq<Step>)
    requires IsRun(src, states, steps) && AllEnd(src, items)
    ensures Moves(steps) <= TotalSteps(items)
  {
    RunNeeds(src, items, states, steps, |steps|);
    assert steps[..|steps|] == steps;
  }
}
