/** Which sampling parameters make it possible that released text is cut. */
module HoldBack {
  import opened Wrappers
  import opened Strings
  import opened TextStreaming

  function Tokens(events: seq<Event>): nat {
    if events == [] then 0
    else Tokens(events[..|events| - 1]) + (if events[|events| - 1].Token? then 1 else 0)
  }

  /** The output length the stop checker sees is the number of tokens so far. */
  ghost predicate Counted(events: seq<Event>) {
    forall i :: 0 <= i < |events| && events[i].Token? ==> events[i].info.outputLen == Tokens(events[..i + 1])
  }

  ghost predicate KeepsReleased(p: Params, events: seq<Event>) {
    Run(p, START, events).released <= Run(p, START, events).text
  }

  /** What was released is a prefix of the text in every run. */
  ghost predicate AlwaysKept(p: Params) {
    forall events :: Counted(events) ==> KeepsReleased(p, events)
  }

  /** Some longest stop string is what the check finds when that string alone is followed by
      one more character: no stop string listed before it occurs there. */
  ghost predicate FoundLate(p: Params, i: nat, c: char) {
    && i < |p.stops| && |p.stops[i]| == MaxLen(p.stops)
    && FirstStop(p.stops[i] + [c], 1, p.stops) == Some((0, p.stops[i]))
  }

  ghost predicate SomeFoundLate(p: Params) {
    exists i: nat, c: char :: FoundLate(p, i, c)
  }

  /** The check can be skipped for a token, stop strings are cut off, and one can be found late. */
  ghost predicate Cuttable(p: Params) {
    p.minTokens >= 2 && !p.includeStop && SomeFoundLate(p)
  }

  // ---------- parameters that are safe ----------

  /** A search in a long text that finds its end finds it in the end alone. */
  lemma {:induction false} EndAlone(text: string, w: string, stops: seq<string>, s: string)
    requires w != "" && s != "" && EndsWith(text, s) && forall i :: 0 <= i < |stops| ==> |stops[i]| <= |s|
    requires FirstStop(text + w, |w|, stops) == Some((|text| - |s|, s))
    ensures FirstStop(s + [w[0]], 1, stops) == Some((0, s))
  {
    var t, rest := stops[0], stops[1..];
    if Find(text + w, t, |text| - |t|).Some? {
      FoundAlone(s, w[0]);
    } else {
      NotInEnd(text, w, s, t, text + w, s + [w[0]]);
      EndAlone(text, w, rest, s);
    }
  }

  lemma FoundAlone(s: string, c: char)
    ensures Find(s + [c], s, 0) == Some(0)
  {
    assert (s + [c])[..|s|] == s;
    assert OccursAt(s + [c], s, 0);
  }

  lemma NotInEnd(text: string, w: string, s: string, t: string, all: string, part: string)
    requires w != "" && EndsWith(text, s) && all == text + w && part == s + [w[0]]
    requires |t| <= |s| && Find(all, t, |text| - |t|) == None
    ensures Find(part, t, |s| - |t|) == None
  {
    EndSlice(text, w, s, part, |text| - |s|);
    NotInPart(all, part, |text| - |s|, t, |text| - |t|, |s| - |t|);
  }

  lemma NotInPart(text: string, part: string, lo: nat, sub: string, from: nat, from': nat)
    requires lo + |part| <= |text| && part == text[lo..lo + |part|]
    requires Find(text, sub, from) == None && from <= lo + from'
    ensures Find(part, sub, from') == None
  {
    match Find(part, sub, from')
    case None =>
    case Some(j) => OccursInSlice(text, lo, lo + |part|, sub, j);
  }

  lemma EndSlice(text: string, w: string, s: string, part: string, lo: nat)
    requires w != "" && EndsWith(text, s) && part == s + [w[0]] && lo == |text| - |s|
    ensures lo + |part| <= |text + w| && (text + w)[lo..lo + |part|] == part
  {
    assert text[lo..] == s;
    assert (text + w)[lo..lo + |part|] == text[lo..] + [w[0]];
  }

  lemma CutIsFoundLate(p: Params, st: Stream, newText: string, info: TokenInfo)
    requires ValidParams(p) && CutsReleased(p, st, newText, info)
    ensures SomeFoundLate(p)
  {
    var found := FirstStop(st.text + newText, |newText|, p.stops).value;
    FirstStopOccurs(st.text + newText, |newText|, p.stops);
    StopStartsLate(p, st.text, newText);
    var i: nat :| i < |p.stops| && p.stops[i] == found.1;
    assert found == (|st.text| - |found.1|, found.1) && found.1 != "";
    EndAlone(st.text, newText, p.stops, found.1);
    assert FoundLate(p, i, newText[0]);
  }

  lemma NextKept(p: Params, st: Stream, ev: Event)
    requires ValidParams(p) && Sound(p, st) && st.released <= Next(p, st, ev).text
    ensures Sound(p, Next(p, st, ev))
  {
    if ev.Read? {
      var length := Readable(p, st);
      if st.offset < length {
        assert st.released + st.text[st.offset..length] == st.text[..length];
      }
    }
  }

  lemma {:induction false} UncuttableKept(p: Params, events: seq<Event>)
    requires ValidParams(p) && Counted(events) && !Cuttable(p)
    ensures Sound(p, Run(p, START, events))
  {
    if p.minTokens <= 1 {
      CountedChecked(p, events);
      HoldBackSuffices(p, events);
    } else if events != [] {
      var n := |events| - 1;
      CountedPrefix(events, n);
      UncuttableKept(p, events[..n]);
      StepKept(p, Run(p, START, events[..n]), events[n]);
    }
  }

  lemma StepKept(p: Params, st: Stream, ev: Event)
    requires ValidParams(p) && !Cuttable(p) && p.minTokens >= 2 && Sound(p, st)
    ensures Sound(p, Next(p, st, ev))
  {
    if ev.Token? && st.finish == Running {
      TokenKeepsPrefixIff(p, st, ev.newText, ev.info);
      if CutsReleased(p, st, ev.newText, ev.info) {
        CutIsFoundLate(p, st, ev.newText, ev.info);
      }
    }
    NextKept(p, st, ev);
  }

  lemma CountedPrefix(events: seq<Event>, n: nat)
    requires Counted(events) && n <= |events|
    ensures Counted(events[..n])
  {
    forall i | 0 <= i < n && events[i].Token?
      ensures events[i].info.outputLen == Tokens(events[..n][..i + 1])
    {
      assert events[..n][..i + 1] == events[..i + 1];
    }
  }

  lemma CountedChecked(p: Params, events: seq<Event>)
    requires Counted(events) && p.minTokens <= 1
    ensures forall i :: 0 <= i < |events| ==> Checked(p, events[i])
  {
    forall i | 0 <= i < |events|
      ensures Checked(p, events[i])
    {
      assert events[..i + 1][..i] == events[..i];
    }
  }

  /** What the check finds is listed no later than a stop string that is there. */
  lemma {:induction false} FoundNoLater(text: string, n: nat, stops: seq<string>, j: nat)
    requires j < |stops|
    requires Find(text, stops[j], if n + |stops[j]| <= |text| then |text| - n - |stops[j]| else 0).Some?
    ensures FirstStop(text, n, stops).Some? && exists k :: 0 <= k <= j && stops[k] == FirstStop(text, n, stops).value.1
  {
    var from := if n + |stops[0]| <= |text| then |text| - n - |stops[0]| else 0;
    if Find(text, stops[0], from).Some? {
      assert stops[0] == FirstStop(text, n, stops).value.1;
    } else {
      FoundNoLater(text, n, stops[1..], j - 1);
      var k :| 0 <= k <= j - 1 && stops[1..][k] == FirstStop(text, n, stops[1..]).value.1;
      assert stops[k + 1] == FirstStop(text, n, stops).value.1;
    }
  }

  /** A stop string is never found late when a suffix of it is listed before it. */
  lemma EarlierSuffixProtects(p: Params, i: nat, j: nat, c: char)
    requires j < i < |p.stops| && EndsWith(p.stops[i], p.stops[j])
    requires forall k :: 0 <= k <= j ==> p.stops[k] != p.stops[i]
    ensures !FoundLate(p, i, c)
  {
    var s, t := p.stops[i], p.stops[j];
    var text := s + [c];
    OccursInConcat(s, [c], t, |s| - |t|);
    assert Find(text, t, |s| - |t|).Some?;
    FoundNoLater(text, 1, p.stops, j);
  }

  // ---------- parameters that are not ----------

  /** The k-th token of a run that neither ends the sequence nor is looked for. */
  function Info(k: nat, token: int): TokenInfo {
    TokenInfo(k, k, token, None, k)
  }

  /** The stop string as one token, and empty tokens up to the k-th. */
  function Unchecked(s: string, token: int, k: nat): seq<Event>
    requires k > 0
  {
    if k == 1 then [Token(s, Info(1, token))] else Unchecked(s, token, k - 1) + [Token("", Info(k, token))]
  }

  lemma {:induction false} UncheckedRun(p: Params, s: string, token: int, k: nat)
    requires 0 < k < p.minTokens
    ensures var events := Unchecked(s, token, k);
            && Counted(events) && Tokens(events) == k
            && Run(p, START, events) == Stream(s, 0, Running, "")
  {
    if k == 1 {
      SnocRun(p, [], Token(s, Info(1, token)));
      assert [] + [Token(s, Info(1, token))] == [Token(s, Info(1, token))];
      assert "" + s == s;
    } else {
      UncheckedRun(p, s, token, k - 1);
      SnocRun(p, Unchecked(s, token, k - 1), Token("", Info(k, token)));
      assert s + "" == s;
    }
  }

  lemma SnocRun(p: Params, events: seq<Event>, ev: Event)
    ensures Run(p, START, events + [ev]) == Next(p, Run(p, START, events), ev)
    ensures Tokens(events + [ev]) == Tokens(events) + (if ev.Token? then 1 else 0)
    ensures Counted(events) && (ev.Token? ==> ev.info.outputLen == Tokens(events) + 1) ==> Counted(events + [ev])
  {
    assert (events + [ev])[..|events|] == events;
    if Counted(events) && (ev.Token? ==> ev.info.outputLen == Tokens(events) + 1) {
      SnocCounted(events, ev);
    }
  }

  lemma SnocCounted(events: seq<Event>, ev: Event)
    requires Counted(events) && (ev.Token? ==> ev.info.outputLen == Tokens(events) + 1)
    ensures Counted(events + [ev])
  {
    var all := events + [ev];
    forall i | 0 <= i < |all| && all[i].Token?
      ensures all[i].info.outputLen == Tokens(all[..i + 1])
    {
      if i < |events| {
        assert all[..i + 1] == events[..i + 1];
      } else {
        assert all[..i + 1] == all && all[..|events|] == events;
      }
    }
  }

  /** One character of the stop string is released, and the next token cuts it. */
  lemma LateToken(p: Params, i: nat, c: char, info: TokenInfo)
    requires ValidParams(p) && !p.includeStop && FoundLate(p, i, c)
    requires info.outputLen >= p.minTokens && info.eosToken == None && info.lastToken !in p.stopTokenIds
    ensures var s := p.stops[i];
            && s != "" && Next(p, Stream(s, 0, Running, ""), Read) == Stream(s, 1, Running, s[..1])
            && Next(p, Stream(s, 1, Running, s[..1]), Token([c], info)) == Stream("", 1, Stopped, s[..1])
  {
    var s := p.stops[i];
    assert "" + s[0..1] == s[..1];
    FirstStopOccurs(s + [c], 1, p.stops);
    assert (s + [c])[..0] == "";
  }

  /** A run of `k` tokens that is about to be cut, and its next token. */
  ghost predicate AboutToCut(p: Params, s: string, events: seq<Event>, k: nat) {
    s != "" && Counted(events) && Tokens(events) == k && Run(p, START, events) == Stream(s, 1, Running, s[..1])
  }

  lemma ReadUnchecked(p: Params, i: nat, c: char, token: int)
    requires ValidParams(p) && Cuttable(p) && FoundLate(p, i, c) && token !in p.stopTokenIds
    ensures var k := p.minTokens - 1; AboutToCut(p, p.stops[i], Unchecked(p.stops[i], token, k) + [Read], k)
  {
    var s, k := p.stops[i], p.minTokens - 1;
    UncheckedRun(p, s, token, k);
    SnocRun(p, Unchecked(s, token, k), Read);
    LateToken(p, i, c, Info(p.minTokens, token));
  }

  lemma CutByToken(p: Params, i: nat, c: char, token: int, events: seq<Event>)
    requires ValidParams(p) && Cuttable(p) && FoundLate(p, i, c) && token !in p.stopTokenIds
    requires AboutToCut(p, p.stops[i], events, p.minTokens - 1)
    ensures var events' := events + [Token([c], Info(p.minTokens, token))];
            Counted(events') && !KeepsReleased(p, events')
  {
    LateToken(p, i, c, Info(p.minTokens, token));
    SnocRun(p, events, Token([c], Info(p.minTokens, token)));
  }

  lemma CuttableCuts(p: Params)
    requires ValidParams(p) && Cuttable(p)
    ensures !AlwaysKept(p)
  {
    var i: nat, c: char :| FoundLate(p, i, c);
    var token := Fresh(p.stopTokenIds);
    ReadUnchecked(p, i, c, token);
    CutByToken(p, i, c, token, Unchecked(p.stops[i], token, p.minTokens - 1) + [Read]);
  }

  /** A token id that is not in the set. */
  lemma {:induction false} Fresh(ids: set<int>) returns (bound: int)
    ensures bound !in ids && forall x :: x in ids ==> x < bound
  {
    if y :| y in ids {
      var b := Fresh(ids - {y});
      bound := if y < b then b else y + 1;
      assert forall x :: x in ids ==> x == y || x in ids - {y};
    } else {
      bound := 0;
    }
  }

  /** Hold-back, decided by the parameters alone: what was released is a prefix of the text in
      every run if and only if no token can skip the check, or stop strings stay in the text, or
      no longest stop string can be found late. */
  lemma AlwaysKeptIff(p: Params)
    requires ValidParams(p)
    ensures AlwaysKept(p) <==> !Cuttable(p)
  {
    if Cuttable(p) {
      CuttableCuts(p);
    } else {
      forall events | Counted(events)
        ensures KeepsReleased(p, events)
      {
        UncuttableKept(p, events);
      }
    }
  }
}
