/** Streaming the tokens of a sequence and their log probabilities as deltas. */
module TokenStreaming {
  import opened SequenceState

  /** The log probabilities recorded with one token. */
  type Logprobs(==)

  /** The tokens of a sequence, their log probabilities, and how many were handed out. */
  datatype Tokens = Tokens(prompt: seq<TokenId>, output: seq<TokenId>, logprobs: seq<Logprobs>, offset: nat) {
    function Cached(): seq<TokenId> {
      prompt + output
    }
  }

  /** A slice `s[-n:]`, which is the whole list for n = 0 and for n beyond its length. */
  function LastN<T>(s: seq<T>, n: nat): seq<T> {
    if n == 0 || n > |s| then s else s[|s| - n..]
  }

  /** One delta output; the prompt goes along with the first tokens only. */
  datatype Output = Output(tokens: seq<TokenId>, logprobs: seq<Logprobs>, includePrompt: bool)

  function NumNew(t: Tokens): int {
    |t.output| - t.offset
  }

  /** The token delta of the source: the last cached token, or the last `n` of them. */
  function TokenDelta(t: Tokens): seq<TokenId>
    requires NumNew(t) >= 0
  {
    if NumNew(t) == 1 then [t.Cached()[|t.Cached()| - 1]] else LastN(t.Cached(), NumNew(t))
  }

  function DeltaOutput(t: Tokens): Output
    requires NumNew(t) >= 0
  {
    var tokens := TokenDelta(t);
    Output(tokens, LastN(t.logprobs, |tokens|), !(|t.output| > |tokens|))
  }

  function AfterRead(t: Tokens): Tokens {
    t.(offset := |t.output|)
  }

  ghost predicate Aligned(t: Tokens) {
    |t.logprobs| == |t.output| && t.offset <= |t.output|
  }

  /** A delta is exactly the new tokens and their log probabilities if and only if there are
      new tokens, or none at all; otherwise it repeats the whole sequence, prompt included. */
  lemma DeltaExactIff(t: Tokens)
    requires Aligned(t)
    ensures DeltaOutput(t).tokens == t.output[t.offset..] <==> NumNew(t) > 0 || t.Cached() == []
    ensures NumNew(t) > 0 ==>
              && DeltaOutput(t).logprobs == t.logprobs[t.offset..]
              && (DeltaOutput(t).includePrompt <==> t.offset == 0)
    ensures NumNew(t) == 0 ==> DeltaOutput(t) == Output(t.Cached(), t.logprobs, true)
  {
    var n := NumNew(t);
    if n > 0 {
      assert t.Cached()[|t.Cached()| - n..] == t.output[t.offset..];
    }
  }

  // ---------- whole streams ----------

  datatype Event = Append(token: TokenId, logprobs: Logprobs) | Read

  /** The sequence and everything streamed of it so far. */
  datatype Stream = Stream(t: Tokens, tokens: seq<TokenId>, logprobs: seq<Logprobs>, prompts: nat)

  function Next(s: Stream, ev: Event): Stream
    requires NumNew(s.t) >= 0
  {
    match ev
    case Append(token, lp) => s.(t := s.t.(output := s.t.output + [token], logprobs := s.t.logprobs + [lp]))
    case Read =>
      var out := DeltaOutput(s.t);
      Stream(AfterRead(s.t), s.tokens + out.tokens, s.logprobs + out.logprobs,
             s.prompts + (if out.includePrompt then 1 else 0))
  }

  ghost predicate Faithful(s: Stream) {
    && Aligned(s.t)
    && s.tokens == s.t.output[..s.t.offset]
    && s.logprobs == s.t.logprobs[..s.t.offset]
    && s.prompts == (if s.t.offset == 0 then 0 else 1)
  }

  /** The stream after `events`, as long as every read has something new to read. */
  ghost predicate Streams(s: Stream, events: seq<Event>, s': Stream)
    decreases |events|
  {
    if events == [] then s' == s
    else NumNew(s.t) >= (if events[0] == Read then 1 else 0) && Streams(Next(s, events[0]), events[1..], s')
  }

  lemma NextFaithful(s: Stream, ev: Event)
    requires Faithful(s) && (ev == Read ==> NumNew(s.t) > 0)
    ensures Faithful(Next(s, ev))
  {
    match ev {
      case Append(token, lp) =>
      case Read =>
        DeltaExactIff(s.t);
        assert s.t.output[..s.t.offset] + s.t.output[s.t.offset..] == s.t.output;
        assert s.t.logprobs[..s.t.offset] + s.t.logprobs[s.t.offset..] == s.t.logprobs;
    }
  }

  /** Lossless streaming: if at least one token is appended before every read, the streamed
      tokens are the output tokens read so far, the streamed log probabilities are theirs,
      position by position, and the prompt is streamed once, with the first tokens. */
  lemma {:induction false} StreamingLossless(s: Stream, events: seq<Event>, s': Stream)
    requires Faithful(s) && Streams(s, events, s')
    ensures Faithful(s')
    decreases |events|
  {
    if events != [] {
      NextFaithful(s, events[0]);
      StreamingLossless(Next(s, events[0]), events[1..], s');
    }
  }

  /** After a last read nothing is missing. */
  lemma StreamingComplete(prompt: seq<TokenId>, events: seq<Event>, s': Stream)
    requires events != [] && events[|events| - 1] == Read
    requires Streams(Stream(Tokens(prompt, [], [], 0), [], [], 0), events, s')
    ensures s'.tokens == s'.t.output && s'.logprobs == s'.t.logprobs && s'.prompts == 1
  {
    var s := Stream(Tokens(prompt, [], [], 0), [], [], 0);
    StreamingLossless(s, events, s');
    LastReadAll(s, events, s');
  }

  lemma {:induction false} LastReadAll(s: Stream, events: seq<Event>, s': Stream)
    requires events != [] && events[|events| - 1] == Read && Faithful(s) && Streams(s, events, s')
    ensures s'.t.offset == |s'.t.output| > 0
    decreases |events|
  {
    if |events| > 1 {
      NextFaithful(s, events[0]);
      LastReadAll(Next(s, events[0]), events[1..], s');
    }
  }
}
