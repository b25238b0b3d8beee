/** Streaming the text of a sequence while holding back enough of it that a stop string
    can still be cut off. */
module TextStreaming {
  import opened Wrappers
  import opened Strings

  predicate EndsWith(text: string, s: string) {
    |s| <= |text| && OccursAt(text, s, |text| - |s|)
  }

  // ---------- sampling parameters ----------

  /** The parameters that decide when a sequence stops and what is held back. */
  datatype Params = Params(
    stops: seq<string>,
    includeStop: bool,
    bufferLength: nat,
    minTokens: int,
    maxTokens: Option<int>,
    ignoreEos: bool,
    stopTokenIds: set<int>)

  function MaxLen(stops: seq<string>): (n: nat)
    ensures forall i :: 0 <= i < |stops| ==> |stops[i]| <= n
    ensures stops != [] ==> exists i :: 0 <= i < |stops| && |stops[i]| == n
  {
    if stops == [] then 0
    else
      var last := |stops| - 1;
      var n := MaxLen(stops[..last]);
      assert n >= 0 && (stops[..last] != [] ==> exists i :: 0 <= i < last && |stops[..last][i]| == n);
      if |stops[last]| >= n then |stops[last]| else n
  }

  /** What validated parameters look like: no empty stop string, and the buffer is one
      character short of the longest stop string, unless stop strings stay in the output. */
  ghost predicate ValidParams(p: Params) {
    && (forall i :: 0 <= i < |p.stops| ==> p.stops[i] != "")
    && p.bufferLength == if p.stops != [] && !p.includeStop then MaxLen(p.stops) - 1 else 0
  }

  // ---------- one token ----------

  /** What the stop checker looks at besides the text. */
  datatype TokenInfo = TokenInfo(outputLen: int, totalLen: int, lastToken: int, eosToken: Option<int>, maxModelLen: int)

  datatype Finish = Running | Stopped | LengthCapped

  /** The first stop string of the list that occurs in the text, searching no further back
      than the new characters and the length of the stop string. */
  function FirstStop(text: string, newCount: nat, stops: seq<string>): Option<(nat, string)> {
    if stops == [] then None
    else
      var from := if newCount + |stops[0]| <= |text| then |text| - newCount - |stops[0]| else 0;
      match Find(text, stops[0], from)
      case Some(i) => Some((i, stops[0]))
      case None => FirstStop(text, newCount, stops[1..])
  }

  /** Where a found stop string cuts the text. */
  function CutAt(p: Params, text: string, found: (nat, string)): string
    requires OccursAt(text, found.1, found.0)
  {
    if p.includeStop then text[..found.0 + |found.1|] else text[..found.0]
  }

  lemma {:induction false} FirstStopOccurs(text: string, newCount: nat, stops: seq<string>)
    ensures match FirstStop(text, newCount, stops)
            case None =>
              forall i :: 0 <= i < |stops| ==>
                forall j: nat :: j + newCount + |stops[i]| >= |text| ==> !OccursAt(text, stops[i], j)
            case Some(found) =>
              && OccursAt(text, found.1, found.0) && found.1 in stops
              && found.0 + newCount + |found.1| >= |text|
              && (forall j: nat :: j + newCount + |found.1| >= |text| && j < found.0 ==> !OccursAt(text, found.1, j))
  {
    if stops != [] {
      FirstStopOccurs(text, newCount, stops[1..]);
    }
  }

  /** The text after the new characters and the stop checks, and whether that is the end. */
  function AfterToken(p: Params, text: string, newText: string, info: TokenInfo): (string, Finish) {
    var all := text + newText;
    if info.outputLen < p.minTokens then (all, Running)
    else if (!p.ignoreEos && info.eosToken == Some(info.lastToken)) || info.lastToken in p.stopTokenIds then
      (if newText != "" && !p.includeStop then text else all, Stopped)
    else if newText != "" && FirstStop(all, |newText|, p.stops).Some? then
      FirstStopOccurs(all, |newText|, p.stops);
      (CutAt(p, all, FirstStop(all, |newText|, p.stops).value), Stopped)
    else if info.totalLen > info.maxModelLen || p.maxTokens == Some(info.outputLen) then (all, LengthCapped)
    else (all, Running)
  }

  // ---------- streaming ----------

  /** The text so far, how much of it was released, and what was released. */
  datatype Stream = Stream(text: string, offset: nat, finish: Finish, released: string)

  const START: Stream := Stream("", 0, Running, "")

  datatype Event = Token(newText: string, info: TokenInfo) | Read

  /** One delta read: the unreleased text, less the buffer while the sequence runs. */
  function Readable(p: Params, st: Stream): int {
    |st.text| - (if st.finish == Running then p.bufferLength else 0)
  }

  function Next(p: Params, st: Stream, ev: Event): Stream {
    match ev
    case Token(newText, info) =>
      if st.finish != Running then st
      else
        var (text, finish) := AfterToken(p, st.text, newText, info);
        st.(text := text, finish := finish)
    case Read =>
      var length := Readable(p, st);
      if st.offset < length then st.(offset := length, released := st.released + st.text[st.offset..length]) else st
  }

  function Run(p: Params, st: Stream, events: seq<Event>): Stream {
    if events == [] then st else Next(p, Run(p, st, events[..|events| - 1]), events[|events| - 1])
  }

  /** What was released is a prefix of the text, and while the sequence runs the buffer has
      not been touched. */
  ghost predicate Sound(p: Params, st: Stream) {
    && |st.released| == st.offset && st.released <= st.text
    && (st.finish == Running ==> st.offset == 0 || st.offset <= |st.text| - p.bufferLength)
  }

  /** The text does not end with a stop string that escaped the check. */
  ghost predicate Clean(p: Params, text: string) {
    forall i :: 0 <= i < |p.stops| ==> !EndsWith(text, p.stops[i])
  }

  /** The stop check runs on this token. */
  predicate Checked(p: Params, ev: Event) {
    ev.Token? ==> ev.info.outputLen >= p.minTokens
  }

  /** The token's check reaches the stop strings, and the one it finds is a longest one that
      ended the text already, all of which has been released as far as the buffer allows. */
  ghost predicate CutsReleased(p: Params, st: Stream, newText: string, info: TokenInfo) {
    && Checked(p, Token(newText, info)) && !p.includeStop && newText != ""
    && !(!p.ignoreEos && info.eosToken == Some(info.lastToken)) && info.lastToken !in p.stopTokenIds
    && var found := FirstStop(st.text + newText, |newText|, p.stops);
       && found.Some? && |found.value.1| == MaxLen(p.stops) && EndsWith(st.text, found.value.1)
       && st.offset + p.bufferLength == |st.text|
  }

  /** A stop string is found no further back than where the old text could end with it. */
  lemma StopStartsLate(p: Params, text: string, newText: string)
    requires ValidParams(p) && newText != "" && FirstStop(text + newText, |newText|, p.stops).Some?
    ensures var found := FirstStop(text + newText, |newText|, p.stops).value;
            && |found.1| <= MaxLen(p.stops)
            && found.0 + |found.1| >= |text|
            && (EndsWith(text, found.1) <==> found.0 + |found.1| == |text|)
  {
    FirstStopOccurs(text + newText, |newText|, p.stops);
    var found := FirstStop(text + newText, |newText|, p.stops).value;
    if |found.1| <= |text| {
      OccursInConcat(text, newText, found.1, |text| - |found.1|);
    }
    if found.0 + |found.1| == |text| {
      OccursInConcat(text, newText, found.1, found.0);
    }
  }

  // ---------- when a sequence ends, and with which text ----------

  /** Enough tokens have been generated for the checks to run. */
  predicate ChecksRun(p: Params, info: TokenInfo) {
    info.outputLen >= p.minTokens
  }

  /** The token itself ends the sequence. */
  predicate EndsByToken(p: Params, info: TokenInfo) {
    (!p.ignoreEos && info.eosToken == Some(info.lastToken)) || info.lastToken in p.stopTokenIds
  }

  /** The stop string occurs at `j`, no further back than the new characters and its length. */
  predicate SeenAt(all: string, newCount: nat, stop: string, j: nat) {
    OccursAt(all, stop, j) && j + newCount + |stop| >= |all|
  }

  ghost predicate Seen(all: string, newCount: nat, stop: string) {
    exists j: nat :: SeenAt(all, newCount, stop, j)
  }

  ghost predicate SomeSeen(p: Params, text: string, newText: string) {
    newText != "" && exists i :: 0 <= i < |p.stops| && Seen(text + newText, |newText|, p.stops[i])
  }

  predicate AtLimit(p: Params, info: TokenInfo) {
    info.totalLen > info.maxModelLen || p.maxTokens == Some(info.outputLen)
  }

  /** The i-th stop string is the first of the list that is seen, and `j` its leftmost place. */
  ghost predicate FirstSeenAt(p: Params, text: string, newText: string, i: nat, j: nat) {
    && i < |p.stops| && SeenAt(text + newText, |newText|, p.stops[i], j)
    && (forall k :: 0 <= k < i ==> !Seen(text + newText, |newText|, p.stops[k]))
    && (forall k: nat :: k < j ==> !SeenAt(text + newText, |newText|, p.stops[i], k))
  }

  lemma {:induction false} FirstStopFirst(text: string, newCount: nat, stops: seq<string>) returns (i: nat)
    requires FirstStop(text, newCount, stops).Some?
    ensures i < |stops| && FirstStop(text, newCount, stops).value.1 == stops[i]
    ensures forall k :: 0 <= k < i ==> !Seen(text, newCount, stops[k])
  {
    var from := if newCount + |stops[0]| <= |text| then |text| - newCount - |stops[0]| else 0;
    if Find(text, stops[0], from).Some? {
      i := 0;
    } else {
      var rest := FirstStopFirst(text, newCount, stops[1..]);
      i := rest + 1;
      assert !Seen(text, newCount, stops[0]);
      forall k | 0 <= k < i
        ensures !Seen(text, newCount, stops[k])
      {
        assert k > 0 ==> stops[k] == stops[1..][k - 1];
      }
    }
  }

  lemma FirstStopIffSeen(p: Params, text: string, newText: string)
    requires newText != ""
    ensures FirstStop(text + newText, |newText|, p.stops).Some? <==> SomeSeen(p, text, newText)
  {
    FirstStopOccurs(text + newText, |newText|, p.stops);
    if FirstStop(text + newText, |newText|, p.stops).Some? {
      var i := FirstStopFirst(text + newText, |newText|, p.stops);
      assert SeenAt(text + newText, |newText|, p.stops[i], FirstStop(text + newText, |newText|, p.stops).value.0);
      assert Seen(text + newText, |newText|, p.stops[i]);
    }
  }

  /** When a sequence ends: it is stopped exactly if the checks run and its token ends it or a
      stop string is seen; it is capped exactly if the checks run, nothing stops it, and a limit
      is met; otherwise it goes on. */
  lemma TokenEndsIff(p: Params, st: Stream, newText: string, info: TokenInfo)
    requires st.finish == Running
    ensures var finish := Next(p, st, Token(newText, info)).finish;
            var stops := EndsByToken(p, info) || SomeSeen(p, st.text, newText);
            && (finish == Stopped <==> ChecksRun(p, info) && stops)
            && (finish == LengthCapped <==> ChecksRun(p, info) && !stops && AtLimit(p, info))
            && (finish == Running <==> !ChecksRun(p, info) || (!stops && !AtLimit(p, info)))
  {
    if newText != "" {
      FirstStopIffSeen(p, st.text, newText);
    }
  }

  /** With which text it ends: without the characters of a token that ends it, and up to the
      stop string that is seen, unless stop strings are kept; and otherwise with all of it. */
  lemma TokenText(p: Params, st: Stream, newText: string, info: TokenInfo)
    requires st.finish == Running
    ensures var st' := Next(p, st, Token(newText, info));
            var all := st.text + newText;
            && st'.offset == st.offset && st'.released == st.released
            && (st'.finish != Stopped ==> st'.text == all)
            && (st'.finish == Stopped && EndsByToken(p, info) ==> st'.text == if p.includeStop then all else st.text)
            && (st'.finish == Stopped && !EndsByToken(p, info) ==>
                  exists i: nat, j: nat :: FirstSeenAt(p, st.text, newText, i, j)
                                           && st'.text == all[..if p.includeStop then j + |p.stops[i]| else j])
  {
    var all := st.text + newText;
    if newText == "" {
      assert all == st.text;
    } else if Next(p, st, Token(newText, info)).finish == Stopped && !EndsByToken(p, info) {
      FirstStopOccurs(all, |newText|, p.stops);
      var i := FirstStopFirst(all, |newText|, p.stops);
      assert FirstSeenAt(p, st.text, newText, i, FirstStop(all, |newText|, p.stops).value.0);
    }
  }

  /** A finished sequence takes no more text. */
  lemma FinishedStays(p: Params, st: Stream, newText: string, info: TokenInfo)
    requires st.finish != Running
    ensures Next(p, st, Token(newText, info)) == st
  {
  }

  /** A read hands out everything but the buffer, and everything of a finished sequence. */
  lemma ReadReleases(p: Params, st: Stream)
    requires st.offset <= |st.text|
    ensures var st' := Next(p, st, Read);
            var held := if st.finish == Running then p.bufferLength else 0;
            && st'.text == st.text && st'.finish == st.finish
            && st'.offset == (if st.offset + held < |st.text| then |st.text| - held else st.offset)
            && st'.released == st.released + st.text[st.offset..st'.offset]
  {
    assert st.text[st.offset..st.offset] == "";
    assert st.released + "" == st.released;
  }

  /** A token keeps what was released a prefix of the text exactly when its check does not
      find a longest stop string that the text ended with before. */
  lemma TokenKeepsPrefixIff(p: Params, st: Stream, newText: string, info: TokenInfo)
    requires ValidParams(p) && Sound(p, st) && st.finish == Running
    ensures st.released <= Next(p, st, Token(newText, info)).text <==> !CutsReleased(p, st, newText, info)
  {
    var all, text := st.text + newText, AfterToken(p, st.text, newText, info).0;
    assert st.text == all[..|st.text|] && st.released == all[..st.offset];
    if newText != "" && FirstStop(all, |newText|, p.stops).Some? {
      CutTooShortIff(p, st, newText);
      FirstStopOccurs(all, |newText|, p.stops);
    }
    assert text <= all;
    ReleasedPrefixIff(all, text, st.offset);
  }

  lemma ReleasedPrefixIff(all: string, text: string, offset: nat)
    requires text <= all && offset <= |all|
    ensures all[..offset] <= text <==> offset <= |text|
  {}

  /** Cutting at a stop string goes below what was released exactly when it is a longest one
      that ended the text before, with everything released that could be. */
  lemma CutTooShortIff(p: Params, st: Stream, newText: string)
    requires ValidParams(p) && Sound(p, st) && st.finish == Running
    requires newText != "" && FirstStop(st.text + newText, |newText|, p.stops).Some?
    ensures var found := FirstStop(st.text + newText, |newText|, p.stops).value;
            found.0 + (if p.includeStop then |found.1| else 0) < st.offset <==>
            !p.includeStop && |found.1| == MaxLen(p.stops) && EndsWith(st.text, found.1)
            && st.offset + p.bufferLength == |st.text|
  {
    StopStartsLate(p, st.text, newText);
    FirstStopOccurs(st.text + newText, |newText|, p.stops);
  }

  /** A checked token that does not stop the sequence leaves a text that ends with no stop
      string. */
  lemma CheckedStaysClean(p: Params, st: Stream, newText: string, info: TokenInfo)
    requires ValidParams(p) && st.finish == Running && Clean(p, st.text) && Checked(p, Token(newText, info))
    ensures var st' := Next(p, st, Token(newText, info));
            st'.finish == Running ==> Clean(p, st'.text)
  {
    var st' := Next(p, st, Token(newText, info));
    if st'.finish == Running && newText != "" {
      var all := st.text + newText;
      FirstStopOccurs(all, |newText|, p.stops);
      forall i | 0 <= i < |p.stops|
        ensures !EndsWith(all, p.stops[i])
      {
        if |p.stops[i]| <= |all| {
          var j: nat := |all| - |p.stops[i]|;
          assert j + |newText| + |p.stops[i]| >= |all|;
        }
      }
    } else {
      assert st.text + "" == st.text;
    }
  }

  lemma NextSound(p: Params, st: Stream, ev: Event)
    requires ValidParams(p) && Sound(p, st) && Checked(p, ev)
    requires st.finish == Running ==> Clean(p, st.text)
    ensures Sound(p, Next(p, st, ev))
    ensures Next(p, st, ev).finish == Running ==> Clean(p, Next(p, st, ev).text)
  {
    match ev {
      case Token(newText, info) =>
        if st.finish == Running {
          TokenKeepsPrefixIff(p, st, newText, info);
          CheckedStaysClean(p, st, newText, info);
          if newText != "" && FirstStop(st.text + newText, |newText|, p.stops).Some? {
            FirstStopOccurs(st.text + newText, |newText|, p.stops);
            var found := FirstStop(st.text + newText, |newText|, p.stops).value;
            var i :| 0 <= i < |p.stops| && p.stops[i] == found.1;
            assert !EndsWith(st.text, found.1);
          }
        }
      case Read =>
        var length := Readable(p, st);
        if st.offset < length {
          assert st.released + st.text[st.offset..length] == st.text[..length];
        }
    }
  }

  /** Hold-back suffices: in every run in which no stop check is skipped, what was released
      is a prefix of the text at all times, and equal to it once a finished sequence has
      been read, also when the text was cut at a stop string that had just been completed. */
  lemma {:induction false} HoldBackSuffices(p: Params, events: seq<Event>)
    requires ValidParams(p)
    requires forall i :: 0 <= i < |events| ==> Checked(p, events[i])
    ensures var st := Run(p, START, events);
            && Sound(p, st)
            && (st.finish == Running ==> Clean(p, st.text))
            && (events != [] && events[|events| - 1] == Read && st.finish != Running ==> st.released == st.text)
  {
    if events == [] {
      assert forall i :: 0 <= i < |p.stops| ==> p.stops[i] != "";
    } else {
      var n := |events| - 1;
      HoldBackSuffices(p, events[..n]);
      NextSound(p, Run(p, START, events[..n]), events[n]);
    }
  }

  /** Releases only grow, so under the same conditions every release of a run is a prefix of
      the text the run ends with. */
  lemma {:induction false} ReleasesGrow(p: Params, events: seq<Event>, k: nat)
    requires k <= |events|
    ensures Run(p, START, events[..k]).released <= Run(p, START, events).released
  {
    if k < |events| {
      var n := |events| - 1;
      ReleasesGrow(p, events[..n], k);
      assert events[..n][..k] == events[..k];
    } else {
      assert events[..k] == events;
    }
  }

  // ---------- a skipped check ----------

  const TWO_AT_LEAST: Params := Params(["ab"], false, 1, 2, None, false, {})
  const FIRST: TokenInfo := TokenInfo(1, 2, 7, None, 100)
  const SECOND: TokenInfo := TokenInfo(2, 3, 8, None, 100)

  lemma RunNext(p: Params, events: seq<Event>, ev: Event)
    ensures Run(p, START, events + [ev]) == Next(p, Run(p, START, events), ev)
  {
    assert (events + [ev])[..|events|] == events;
  }

  lemma SecondTokenStops()
    ensures Next(TWO_AT_LEAST, Stream("ab", 1, Running, "a"), Token("c", SECOND)) == Stream("", 1, Stopped, "a")
  {
    assert "ab" + "c" == "abc";
    assert OccursAt("abc", "ab", 0);
    assert FirstStop("abc", 1, ["ab"]) == Some((0, "ab"));
  }

  /** When the minimum number of tokens makes the checker skip the token that completes a
      stop string, the next token cuts text that was released: with the stop string "ab",
      "a" is released and then the final text is empty. */
  lemma SkippedCheckCutsReleased()
    ensures ValidParams(TWO_AT_LEAST)
    ensures var st := Run(TWO_AT_LEAST, START, [Token("ab", FIRST)] + [Read] + [Token("c", SECOND)]);
            st.released == "a" && st.text == "" && st.finish == Stopped
  {
    assert MaxLen(["ab"]) == 2;
    assert [] + [Token("ab", FIRST)] == [Token("ab", FIRST)];
    assert "" + "ab" == "ab" && "ab"[0..1] == "a" && "" + "a" == "a";
    RunNext(TWO_AT_LEAST, [], Token("ab", FIRST));
    RunNext(TWO_AT_LEAST, [Token("ab", FIRST)], Read);
    RunNext(TWO_AT_LEAST, [Token("ab", FIRST)] + [Read], Token("c", SECOND));
    SecondTokenStops();
  }
}
