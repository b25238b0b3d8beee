/** A sequence being generated, in place: appending tokens, checking for stops, and reading
    what is new. */
module SequenceOutput {
  import opened Wrappers
  import opened SequenceState
  import opened Strings
  import Text = TextStreaming
  import Toks = TokenStreaming

  // ---------- sampling parameters ----------

  /** The `stop` argument as callers give it. */
  datatype StopArg = NoStop | OneStop(stop: string) | ManyStops(stops: seq<string>)

  datatype ParamError = EmptyStop | StopNeedsDetokenize

  class SamplingParams {
    var stop: StopArg
    var stops: seq<string>
    var includeStop: bool
    var detokenize: bool
    var outputTextBufferLength: int

    constructor (stop: StopArg, includeStop: bool, detokenize: bool)
      ensures this.stop == stop && this.includeStop == includeStop && this.detokenize == detokenize
      ensures outputTextBufferLength == 0
    {
      this.stop, this.includeStop, this.detokenize := stop, includeStop, detokenize;
      stops, outputTextBufferLength := [], 0;
    }

    /** Normalises the stop strings, computes the hold-back length, and then validates. */
    method PostInit() returns (r: Result<(), ParamError>)
      requires outputTextBufferLength == 0
      modifies this`stops, this`outputTextBufferLength
      ensures stops == (match stop case NoStop => [] case OneStop(s) => [s] case ManyStops(ss) => ss)
      ensures r == if "" in stops then Err(EmptyStop)
                   else if stops != [] && !detokenize then Err(StopNeedsDetokenize) else Ok(())
      ensures r.Ok? ==> outputTextBufferLength >= 0
      ensures r.Ok? ==> forall minTokens, maxTokens, ignoreEos, stopTokenIds ::
                Text.ValidParams(Text.Params(stops, includeStop, outputTextBufferLength, minTokens, maxTokens,
                                             ignoreEos, stopTokenIds))
    {
      match stop {
        case NoStop => stops := [];
        case OneStop(s) => stops := [s];
        case ManyStops(ss) => stops := ss;
      }
      if |stops| > 0 && !includeStop {
        var longest: int := LongestStop();
        outputTextBufferLength := longest - 1;
      }
      for i := 0 to |stops|
        invariant forall j :: 0 <= j < i ==> stops[j] != ""
      {
        if stops[i] == "" {
          return Err(EmptyStop);
        }
      }
      if |stops| > 0 && !detokenize {
        return Err(StopNeedsDetokenize);
      }
      r := Ok(());
    }

    method LongestStop() returns (longest: nat)
      ensures longest == Text.MaxLen(stops)
    {
      longest := 0;
      for i := 0 to |stops|
        invariant longest == Text.MaxLen(stops[..i])
      {
        assert stops[..i + 1][..i] == stops[..i];
        if |stops[i]| > longest {
          longest := |stops[i]|;
        }
      }
      assert stops[..|stops|] == stops;
    }
  }

  // ---------- the sequence ----------

  /** The new part of one sequence: its text, its tokens, and their log probabilities if they
      were asked for. */
  datatype CompletionDelta = CompletionDelta(text: string, tokens: seq<TokenId>, logprobs: Option<seq<Toks.Logprobs>>)

  class Sequence {
    const prompt: seq<TokenId>
    var output: seq<TokenId>
    var cached: seq<TokenId>
    var outputLogprobs: seq<Toks.Logprobs>
    var outputText: string
    var finish: Text.Finish
    var lastOutputTextOffset: nat
    var lastOutputTokenIdsOffset: nat

    constructor (prompt: seq<TokenId>)
      ensures Valid() && TokensNow() == Toks.Tokens(prompt, [], [], 0)
      ensures outputText == "" && finish == Text.Running && lastOutputTextOffset == 0
    {
      this.prompt := prompt;
      output, cached, outputLogprobs, outputText := [], prompt, [], "";
      finish, lastOutputTextOffset, lastOutputTokenIdsOffset := Text.Running, 0, 0;
    }

    ghost predicate Valid()
      reads this
    {
      cached == prompt + output && |outputLogprobs| == |output| && lastOutputTokenIdsOffset <= |output|
    }

    function TokensNow(): Toks.Tokens
      reads this
    {
      Toks.Tokens(prompt, output, outputLogprobs, lastOutputTokenIdsOffset)
    }

    /** What a delta read of the tokens gives now. */
    function DeltaNow(): Toks.Output
      requires Valid()
      reads this
    {
      Toks.DeltaOutput(TokensNow())
    }

    /** The text side of the sequence, given what has been released of it. */
    ghost function TextNow(released: string): Text.Stream
      reads this
    {
      Text.Stream(outputText, lastOutputTextOffset, finish, released)
    }

    method AppendTokenId(token: TokenId, logprobs: Toks.Logprobs)
      requires Valid()
      modifies this`output, this`cached, this`outputLogprobs
      ensures Valid()
      ensures TokensNow()
              == old(TokensNow()).(output := old(output) + [token], logprobs := old(outputLogprobs) + [logprobs])
    {
      outputLogprobs := outputLogprobs + [logprobs];
      output := output + [token];
      cached := cached + [token];
    }

    /** Adds the text of a token and runs the stop checks on it. */
    method AddTextAndMaybeStop(p: Text.Params, newText: string, info: Text.TokenInfo, ghost released: string)
      requires finish == Text.Running
      modifies this`outputText, this`finish
      ensures TextNow(released) == Text.Next(p, old(TextNow(released)), Text.Token(newText, info))
    {
      var before := outputText;
      outputText := outputText + newText;
      if info.outputLen < p.minTokens {
        return;
      }
      if (!p.ignoreEos && info.eosToken == Some(info.lastToken)) || info.lastToken in p.stopTokenIds {
        if |newText| > 0 && !p.includeStop {
          outputText := before;
        }
        finish := Text.Stopped;
        return;
      }
      if |newText| > 0 {
        var cut := CheckStopStrings(p, |newText|);
        if cut {
          finish := Text.Stopped;
          return;
        }
      }
      if info.totalLen > info.maxModelLen || p.maxTokens == Some(info.outputLen) {
        finish := Text.LengthCapped;
      }
    }

    /** Cuts the text at the first stop string of the list that it contains. */
    method CheckStopStrings(p: Text.Params, newCharCount: nat) returns (found: bool)
      modifies this`outputText
      ensures found == Text.FirstStop(old(outputText), newCharCount, p.stops).Some?
      ensures !found ==> outputText == old(outputText)
      ensures found ==>
                var f := Text.FirstStop(old(outputText), newCharCount, p.stops).value;
                OccursAt(old(outputText), f.1, f.0) && outputText == Text.CutAt(p, old(outputText), f)
    {
      for i := 0 to |p.stops|
        invariant outputText == old(outputText)
        invariant Text.FirstStop(outputText, newCharCount, p.stops[i..])
                  == Text.FirstStop(outputText, newCharCount, p.stops)
      {
        var stop := p.stops[i];
        assert p.stops[i..][0] == stop && p.stops[i..][1..] == p.stops[i + 1..];
        var from := if newCharCount + |stop| <= |outputText| then |outputText| - newCharCount - |stop| else 0;
        var stopIndex := Find(outputText, stop, from);
        if stopIndex.Some? {
          if p.includeStop {
            if stopIndex.value + |stop| >= |outputText| {
              return true;
            }
            outputText := outputText[..stopIndex.value + |stop|];
          } else {
            outputText := outputText[..stopIndex.value];
          }
          return true;
        }
      }
      found := false;
    }

    /** The new text, less the hold-back while the sequence runs. */
    method GetOutputTextToReturn(p: Text.Params, ghost released: string) returns (delta: string)
      modifies this`lastOutputTextOffset
      ensures TextNow(released + delta) == Text.Next(p, old(TextNow(released)), Text.Read)
    {
      var length := |outputText|;
      if p.bufferLength != 0 && finish == Text.Running {
        length := length - p.bufferLength;
      }
      if lastOutputTextOffset < length {
        delta := outputText[lastOutputTextOffset..length];
        lastOutputTextOffset := length;
      } else {
        delta := "";
        assert released + "" == released;
      }
    }

    /** The new token ids, sliced off the end of the cached list. */
    method GetOutputTokenIdsToReturn() returns (tokens: seq<TokenId>)
      requires Valid()
      modifies this`lastOutputTokenIdsOffset
      ensures Valid() && tokens == Toks.TokenDelta(old(TokensNow()))
      ensures TokensNow() == Toks.AfterRead(old(TokensNow()))
    {
      var outputLen := |output|;
      var numNewTokens := outputLen - lastOutputTokenIdsOffset;
      lastOutputTokenIdsOffset := outputLen;
      if numNewTokens == 1 {
        return [cached[|cached| - 1]];
      }
      tokens := Toks.LastN(cached, numNewTokens);
    }

    /** Everything that is new. */
    method ReadDelta(p: Text.Params, includeLogprobs: bool) returns (d: CompletionDelta)
      requires Valid()
      modifies this`lastOutputTextOffset, this`lastOutputTokenIdsOffset
      ensures Valid() && TokensNow() == Toks.AfterRead(old(TokensNow()))
      ensures TextNow(d.text) == Text.Next(p, old(TextNow("")), Text.Read)
      ensures d.tokens == old(DeltaNow()).tokens
      ensures d.logprobs == if includeLogprobs then Some(old(DeltaNow()).logprobs) else None
    {
      var text := GetOutputTextToReturn(p, "");
      assert "" + text == text;
      var tokens := GetOutputTokenIdsToReturn();
      var logprobs := if includeLogprobs then Some(outputLogprobs) else None;
      if logprobs.Some? && |logprobs.value| > 0 {
        logprobs := Some(Toks.LastN(logprobs.value, |tokens|));
      }
      d := CompletionDelta(text, tokens, logprobs);
    }
  }

  /** A group's delta output: what is new of every sequence, and whether the prompt goes
      along. */
  method FromSeqGroup(seqs: seq<Sequence>, p: Text.Params, includeLogprobs: bool)
    returns (outputs: seq<CompletionDelta>, includePrompt: bool)
    requires forall i :: 0 <= i < |seqs| ==> seqs[i].Valid()
    requires forall i, j :: 0 <= i < j < |seqs| ==> seqs[i] != seqs[j]
    modifies seqs
    ensures |outputs| == |seqs|
    ensures forall i :: 0 <= i < |seqs| ==>
              && seqs[i].Valid() && seqs[i].TokensNow() == Toks.AfterRead(old(seqs[i].TokensNow()))
              && seqs[i].TextNow(outputs[i].text) == Text.Next(p, old(seqs[i].TextNow("")), Text.Read)
              && outputs[i].tokens == old(seqs[i].DeltaNow()).tokens
              && outputs[i].logprobs == if includeLogprobs then Some(old(seqs[i].DeltaNow()).logprobs) else None
    ensures includePrompt <==> forall i :: 0 <= i < |seqs| ==> old(seqs[i].DeltaNow()).includePrompt
  {
    outputs := [];
    includePrompt := true;
    for i := 0 to |seqs|
      invariant |outputs| == i
      invariant forall k :: 0 <= k < |seqs| ==> seqs[k].Valid()
      invariant forall k :: i <= k < |seqs| ==>
                  seqs[k].TokensNow() == old(seqs[k].TokensNow()) && seqs[k].TextNow("") == old(seqs[k].TextNow(""))
      invariant forall k :: 0 <= k < i ==>
                  && seqs[k].TokensNow() == Toks.AfterRead(old(seqs[k].TokensNow()))
                  && seqs[k].TextNow(outputs[k].text) == Text.Next(p, old(seqs[k].TextNow("")), Text.Read)
                  && outputs[k].tokens == old(seqs[k].DeltaNow()).tokens
                  && outputs[k].logprobs == if includeLogprobs then Some(old(seqs[k].DeltaNow()).logprobs) else None
      invariant includePrompt <==> forall k :: 0 <= k < i ==> old(seqs[k].DeltaNow()).includePrompt
    {
      var output := seqs[i].ReadDelta(p, includeLogprobs);
      if includePrompt && |seqs[i].output| > |output.tokens| {
        includePrompt := false;
      }
      outputs := outputs + [output];
    }
  }
}
