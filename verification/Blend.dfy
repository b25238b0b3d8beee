/** Prompts made of chunks joined by a separator: splitting them again and encoding the
    chunks, with the indices at which the encodings meet. */
module Blend {
  import opened Wrappers
  import opened Strings
  import opened Replacing

  type TokenId = int

  /** The tokenizer, on a text and whether to add special tokens. */
  type Encoder = (string, bool) -> seq<TokenId>

  datatype Family = Mistral | Llama | Glm | Other

  const DEFAULT_SEPARATOR: string := "[BLEND_SEP]"
  const INST_TWO_SPACES: string := "[/INST]  "
  const INST_ONE_SPACE: string := "[/INST] "
  const LLAMA_HEADER_START: string := "<|start_header_id|>"
  const LLAMA_HEADER_END: string := "<|end_header_id|>\n\n"
  const LLAMA_SUFFIX: string := LLAMA_HEADER_START + "assistant" + LLAMA_HEADER_END
  const GLM_SUFFIX: string := "<|assistant|>\n"

  function CombineInputPromptChunks(chunks: seq<string>, sep: string): string {
    Join(chunks, sep)
  }

  function AppendSeparator(prompt: string, sep: string): string {
    prompt + sep
  }

  /** The padding the adapter patches into a prompt before tokenizing it. */
  function PatchPaddingSpace(family: Family, prompt: string): string {
    match family
    case Mistral => Replace(prompt, INST_TWO_SPACES, INST_ONE_SPACE)
    case Llama => prompt + LLAMA_SUFFIX
    case Glm => prompt + GLM_SUFFIX
    case Other => prompt
  }

  function SuffixOf(family: Family): string
    requires family != Mistral
  {
    match family
    case Llama => LLAMA_SUFFIX
    case Glm => GLM_SUFFIX
    case Other => ""
  }

  // ---------- encoding chunk by chunk ----------

  /** Chunks after the first get special tokens only if precomputed chunks have them. */
  function EncodingOf(encode: Encoder, addSpecial: bool, inPrecomp: bool, chunks: seq<string>, i: nat): seq<TokenId>
    requires i < |chunks|
  {
    encode(chunks[i], addSpecial && (i == 0 || inPrecomp))
  }

  /** The encodings of the first `n` chunks, one after another. */
  function Encoded(encode: Encoder, addSpecial: bool, inPrecomp: bool, chunks: seq<string>, n: nat): seq<TokenId>
    requires n <= |chunks|
  {
    if n == 0 then []
    else
      Encoded(encode, addSpecial, inPrecomp, chunks, n - 1)
      + EncodingOf(encode, addSpecial, inPrecomp, chunks, n - 1)
  }

  lemma {:induction false} EncodedPrefix(encode: Encoder, addSpecial: bool, inPrecomp: bool, chunks: seq<string>,
                                         k: nat, n: nat)
    requires k <= n <= |chunks|
    ensures Encoded(encode, addSpecial, inPrecomp, chunks, k) <= Encoded(encode, addSpecial, inPrecomp, chunks, n)
  {
    if k < n {
      EncodedPrefix(encode, addSpecial, inPrecomp, chunks, k, n - 1);
    }
  }

  /** The indices are where the encodings of consecutive chunks meet. */
  ghost predicate Meets(encode: Encoder, addSpecial: bool, inPrecomp: bool, chunks: seq<string>, indices: seq<nat>) {
    |indices| <= |chunks|
    && forall i :: 0 <= i < |indices| ==> indices[i] == |Encoded(encode, addSpecial, inPrecomp, chunks, i + 1)|
  }

  method TokenizeChunks(chunks: seq<string>, encode: Encoder, addSpecial: bool, inPrecomp: bool)
    returns (inputIds: seq<TokenId>, inputText: string, blendIndices: seq<nat>)
    ensures inputIds == Encoded(encode, addSpecial, inPrecomp, chunks, |chunks|)
    ensures inputText == Join(chunks, "")
    ensures |blendIndices| == (if chunks == [] then 0 else |chunks| - 1)
    ensures Meets(encode, addSpecial, inPrecomp, chunks, blendIndices)
  {
    inputIds, inputText, blendIndices := [], "", [];
    var isFirstChunk := true;
    var currentIdx := 0;
    for i := 0 to |chunks|
      invariant isFirstChunk <==> i == 0
      invariant inputIds == Encoded(encode, addSpecial, inPrecomp, chunks, i) && currentIdx == |inputIds|
      invariant inputText == Join(chunks[..i], "")
      invariant |blendIndices| == i && Meets(encode, addSpecial, inPrecomp, chunks, blendIndices)
    {
      var forceNoSpecialTokens := !isFirstChunk && !inPrecomp;
      var encoded := encode(chunks[i], addSpecial && !forceNoSpecialTokens);
      inputIds := inputIds + encoded;
      JoinAppend(chunks[..i], chunks[i]);
      assert chunks[..i] + [chunks[i]] == chunks[..i + 1];
      inputText := inputText + chunks[i];
      currentIdx := currentIdx + |encoded|;
      blendIndices := blendIndices + [currentIdx];
      isFirstChunk := false;
    }
    assert chunks[..|chunks|] == chunks;
    if |blendIndices| > 0 {
      blendIndices := blendIndices[..|blendIndices| - 1];
    }
  }

  lemma {:induction false} JoinAppend(parts: seq<string>, last: string)
    ensures Join(parts + [last], "") == Join(parts, "") + last
  {
    if |parts| > 0 {
      assert (parts + [last])[1..] == parts[1..] + [last];
      JoinAppend(parts[1..], last);
    }
  }

  /** The i-th slice of `ids` at the given indices. */
  function SliceAt(ids: seq<TokenId>, indices: seq<nat>, i: nat): seq<TokenId>
    requires i <= |indices|
  {
    var lo := if i == 0 then 0 else indices[i - 1];
    var hi := if i == |indices| then |ids| else indices[i];
    if lo <= hi <= |ids| then ids[lo..hi] else []
  }

  /** Slicing the ids at the indices gives every chunk's encoding. */
  lemma SlicesAreEncodings(encode: Encoder, addSpecial: bool, inPrecomp: bool, chunks: seq<string>,
                           indices: seq<nat>, i: nat)
    requires Meets(encode, addSpecial, inPrecomp, chunks, indices) && |indices| + 1 == |chunks| && i < |chunks|
    ensures SliceAt(Encoded(encode, addSpecial, inPrecomp, chunks, |chunks|), indices, i)
            == EncodingOf(encode, addSpecial, inPrecomp, chunks, i)
  {
    var ids := Encoded(encode, addSpecial, inPrecomp, chunks, |chunks|);
    EncodedPrefix(encode, addSpecial, inPrecomp, chunks, i, |chunks|);
    EncodedPrefix(encode, addSpecial, inPrecomp, chunks, i + 1, |chunks|);
    var upto := Encoded(encode, addSpecial, inPrecomp, chunks, i);
    var next := Encoded(encode, addSpecial, inPrecomp, chunks, i + 1);
    assert ids[..|next|] == next && next[|upto|..] == EncodingOf(encode, addSpecial, inPrecomp, chunks, i);
    assert ids[|upto|..|next|] == next[|upto|..];
  }

  // ---------- whole prompts ----------

  method TokenizePrompt(family: Family, prompt: string, sep: string, enableBlending: bool, encode: Encoder,
                        addSpecial: bool, inPrecomp: bool)
    returns (inputIds: seq<TokenId>, blendIndices: seq<nat>)
    requires enableBlending ==> sep != ""
    ensures enableBlending ==>
              var chunks := Split(PatchPaddingSpace(family, prompt), sep);
              && |blendIndices| == |chunks| - 1
              && (forall i: nat :: i < |chunks| ==>
                    SliceAt(inputIds, blendIndices, i) == EncodingOf(encode, addSpecial, inPrecomp, chunks, i))
              && inputIds == Encoded(encode, addSpecial, inPrecomp, chunks, |chunks|)
    ensures !enableBlending ==> inputIds == encode(PatchPaddingSpace(family, prompt), addSpecial) && blendIndices == []
  {
    var patched := PatchPaddingSpace(family, prompt);
    if !enableBlending {
      return encode(patched, addSpecial), [];
    }
    var chunks := Split(patched, sep);
    var text;
    inputIds, text, blendIndices := TokenizeChunks(chunks, encode, addSpecial, inPrecomp);
    forall i: nat | i < |chunks|
      ensures SliceAt(inputIds, blendIndices, i) == EncodingOf(encode, addSpecial, inPrecomp, chunks, i)
    {
      SlicesAreEncodings(encode, addSpecial, inPrecomp, chunks, blendIndices, i);
    }
  }

  // ---------- joined prompts ----------

  /** What the patch makes of a joined prompt's chunks: it touches each of them, or pads
      only the last. */
  function PatchChunks(family: Family, chunks: seq<string>): (r: seq<string>)
    requires chunks != []
    ensures |r| == |chunks|
  {
    if family.Mistral? then seq(|chunks|, i requires 0 <= i < |chunks| => PatchPaddingSpace(Mistral, chunks[i]))
    else PatchLast(chunks, SuffixOf(family))
  }

  function PatchLast(chunks: seq<string>, suffix: string): (r: seq<string>)
    requires chunks != []
    ensures |r| == |chunks|
  {
    chunks[..|chunks| - 1] + [chunks[|chunks| - 1] + suffix]
  }

  lemma {:induction false} PatchLastJoined(chunks: seq<string>, sep: string, suffix: string)
    requires chunks != []
    ensures Join(chunks, sep) + suffix == Join(PatchLast(chunks, suffix), sep)
  {
    if |chunks| > 1 {
      PatchLastJoined(chunks[1..], sep, suffix);
      assert PatchLast(chunks, suffix)[1..] == PatchLast(chunks[1..], suffix);
    }
  }

  lemma {:induction false} PatchEachJoined(chunks: seq<string>, sep: string)
    requires chunks != [] && Apart(sep, INST_TWO_SPACES)
    ensures PatchPaddingSpace(Mistral, Join(chunks, sep)) == Join(PatchChunks(Mistral, chunks), sep)
  {
    if |chunks| > 1 {
      ReplaceAcross(Join(chunks, sep), chunks[0], sep, Join(chunks[1..], sep), INST_TWO_SPACES, INST_ONE_SPACE);
      PatchEachJoined(chunks[1..], sep);
      assert PatchChunks(Mistral, chunks)[1..] == PatchChunks(Mistral, chunks[1..]);
    }
  }

  /** The padding neither holds the separator nor completes one begun before it. */
  ghost predicate NotCompletedBy(sep: string, suffix: string) {
    Free(suffix, sep) && forall k :: 0 < k < |sep| ==> !(sep[k..] <= suffix)
  }

  ghost predicate SafeFor(family: Family, sep: string) {
    && Borderless(sep)
    && (if family.Mistral? then Apart(sep, INST_TWO_SPACES) && NotEndedIn(sep, INST_ONE_SPACE)
        else NotCompletedBy(sep, SuffixOf(family)))
  }

  lemma TailBegins(c: string, sep: string, suffix: string, i: nat)
    requires i < |c| < i + |sep| && OccursAt(c + suffix, sep, i)
    ensures sep[|c| - i..] <= suffix
  {
    var k := |c| - i;
    assert sep[k..] == (c + suffix)[i..i + |sep|][k..] == suffix[..|sep| - k];
  }

  lemma FreeWithSuffix(c: string, sep: string, suffix: string)
    requires sep != "" && Free(c, sep) && NotCompletedBy(sep, suffix)
    ensures Free(c + suffix, sep)
  {
    var text := c + suffix;
    forall i: nat
      ensures !OccursAt(text, sep, i)
    {
      OccursInConcat(c, suffix, sep, i);
      if i < |c| < i + |sep| && OccursAt(text, sep, i) {
        TailBegins(c, sep, suffix, i);
      }
    }
  }

  lemma PatchedSplittable(family: Family, chunks: seq<string>, sep: string)
    requires chunks != [] && sep != "" && AllFree(chunks, sep) && SafeFor(family, sep)
    ensures Splittable(PatchChunks(family, chunks), sep)
  {
    var parts := PatchChunks(family, chunks);
    forall i | 0 <= i < |parts|
      ensures Free(parts[i], sep) && Find(parts[i] + sep, sep, 0) == Some(|parts[i]|)
    {
      if family.Mistral? {
        ReplaceKeepsFree(chunks[i], sep, INST_TWO_SPACES, INST_ONE_SPACE);
      } else if i == |parts| - 1 {
        FreeWithSuffix(chunks[i], sep, SuffixOf(family));
      }
      BorderlessFound(parts[i], sep);
    }
  }

  /** With a safe separator, splitting a joined and patched prompt gives back the chunks as
      the patch leaves them. */
  lemma SplitUndoesCombine(family: Family, chunks: seq<string>, sep: string)
    requires chunks != [] && sep != "" && AllFree(chunks, sep) && SafeFor(family, sep)
    ensures Split(PatchPaddingSpace(family, CombineInputPromptChunks(chunks, sep)), sep) == PatchChunks(family, chunks)
  {
    PatchedSplittable(family, chunks, sep);
    SplitUndoesJoinIff(PatchChunks(family, chunks), sep);
    if family.Mistral? {
      PatchEachJoined(chunks, sep);
    } else {
      PatchLastJoined(chunks, sep, SuffixOf(family));
      assert Join(chunks, sep) + "" == Join(chunks, sep);
    }
  }

  ghost predicate AlwaysSplits(family: Family, sep: string)
    requires sep != ""
  {
    forall chunks: seq<string> :: chunks != [] && AllFree(chunks, sep) ==>
      Split(PatchPaddingSpace(family, CombineInputPromptChunks(chunks, sep)), sep) == PatchChunks(family, chunks)
  }

  /** For every family, the safe separators are exactly those that always split back. Where the
      patch replaces, that is: no border, no overlap with what is replaced, and no replacement
      that can end in the separator. */
  lemma AlwaysSplitsIff(family: Family, sep: string)
    requires sep != ""
    ensures AlwaysSplits(family, sep) <==> SafeFor(family, sep)
  {
    if SafeFor(family, sep) {
      forall chunks: seq<string> | chunks != [] && AllFree(chunks, sep)
        ensures Split(PatchPaddingSpace(family, CombineInputPromptChunks(chunks, sep)), sep)
                == PatchChunks(family, chunks)
      {
        SplitUndoesCombine(family, chunks, sep);
      }
    } else if family.Mistral? {
      UnsafeReplacing(sep);
    } else {
      UnsafePadding(family, sep);
    }
  }

  lemma UnsafePadding(family: Family, sep: string)
    requires sep != "" && family != Mistral && !SafeFor(family, sep)
    ensures !AlwaysSplits(family, sep)
  {
    var suffix := SuffixOf(family);
    var chunks := UnsafeChunks(sep, suffix);
    PatchLastJoined(chunks, sep, suffix);
    SplitUndoesJoinIff(PatchLast(chunks, suffix), sep);
    assert Join(chunks, sep) + "" == Join(chunks, sep);
  }

  lemma UnsafeReplacing(sep: string)
    requires sep != "" && !SafeFor(Mistral, sep)
    ensures !AlwaysSplits(Mistral, sep)
  {
    if !Apart(sep, INST_TWO_SPACES) {
      var chunks := OverlapBreaks(sep, INST_TWO_SPACES, INST_ONE_SPACE);
      UntouchedChunks(chunks);
    } else if !Borderless(sep) {
      BorderBreaks(sep);
    } else {
      var m :| 0 < m < |sep| && EndsAlike(sep[..m], INST_ONE_SPACE);
      InstBorderless();
      var c := ReplacementBreaks(sep, INST_TWO_SPACES, INST_ONE_SPACE, m);
      OneChunkBreaks(c, sep);
    }
  }

  /** Chunks without the pattern are left as they are. */
  lemma UntouchedChunks(chunks: seq<string>)
    requires chunks != [] && AllFree(chunks, INST_TWO_SPACES)
    ensures PatchChunks(Mistral, chunks) == chunks
  {
    forall i | 0 <= i < |chunks|
      ensures PatchChunks(Mistral, chunks)[i] == chunks[i]
    {
      assert Free(chunks[i], INST_TWO_SPACES);
    }
  }

  lemma BorderBreaks(sep: string)
    requires sep != "" && Apart(sep, INST_TWO_SPACES) && !Borderless(sep)
    ensures !AlwaysSplits(Mistral, sep)
  {
    var y := FoundEarly(sep);
    var chunks := [y, ""];
    ApartFree(sep, INST_TWO_SPACES);
    assert y == sep[0..|y|];
    FreePart(sep, INST_TWO_SPACES, 0, |y|);
    UntouchedChunks(chunks);
    PatchEachJoined(chunks, sep);
    SplitUndoesJoinIff(chunks, sep);
    assert chunks[0] == y && AllFree(chunks, sep);
  }

  lemma OneChunkBreaks(c: string, sep: string)
    requires sep != "" && Free(c, sep) && !Free(PatchPaddingSpace(Mistral, c), sep)
    ensures !AlwaysSplits(Mistral, sep)
  {
    var patched := PatchPaddingSpace(Mistral, c);
    assert Join([c], sep) == c && AllFree([c], sep);
    assert |PatchChunks(Mistral, [c])| == 1;
    SplitAt(patched, sep, Find(patched, sep, 0).value);
    assert |Split(patched, sep)| > 1;
  }

  lemma InstBorderless()
    ensures Borderless(INST_TWO_SPACES)
  {
    forall k | 0 < k < |INST_TWO_SPACES|
      ensures INST_TWO_SPACES[..k] != INST_TWO_SPACES[|INST_TWO_SPACES| - k..]
    {
      assert INST_TWO_SPACES[..k][0] == '[';
      assert INST_TWO_SPACES[|INST_TWO_SPACES| - k..][0] == INST_TWO_SPACES[|INST_TWO_SPACES| - k] != '[';
    }
  }

  lemma CompletedEarly(sep: string, suffix: string) returns (y: string)
    requires exists k :: 0 < k < |sep| && sep[k..] <= suffix
    ensures Free(y, sep) && !Free(y + suffix, sep)
  {
    var k :| 0 < k < |sep| && sep[k..] <= suffix;
    y := sep[..k];
    assert suffix[..|sep| - k] == sep[k..];
    assert (y + suffix)[..|sep|] == sep[..k] + sep[k..] == sep;
    assert OccursAt(y + suffix, sep, 0);
  }

  /** Chunks that an unsafe separator does not split back. */
  lemma UnsafeChunks(sep: string, suffix: string) returns (chunks: seq<string>)
    requires sep != "" && !(Borderless(sep) && NotCompletedBy(sep, suffix))
    ensures chunks != [] && AllFree(chunks, sep) && !Splittable(PatchLast(chunks, suffix), sep)
  {
    if !Borderless(sep) {
      var y := FoundEarly(sep);
      chunks := [y, ""];
      assert PatchLast(chunks, suffix)[0] == y;
    } else if !Free(suffix, sep) {
      chunks := [""];
      assert "" + suffix == suffix;
      assert PatchLast(chunks, suffix) == [suffix];
    } else {
      var y := CompletedEarly(sep, suffix);
      chunks := [y];
      assert PatchLast(chunks, suffix) == [y + suffix];
    }
  }

  /** A separator without a border that overlaps what is replaced. */
  lemma SpaceSeparatorFails()
    ensures Borderless(" #") && !AlwaysSplits(Mistral, " #")
  {
    var sep, d := " #", 1 - |INST_TWO_SPACES|;
    assert sep[..1][0] != sep[1..][0];
    forall m: nat | m < |INST_TWO_SPACES| && 0 <= d + m < |sep|
      ensures !Differ(sep, INST_TWO_SPACES, d, m)
    {
      assert m == |INST_TWO_SPACES| - 1;
    }
    assert !Clashes(sep, INST_TWO_SPACES, d);
    AlwaysSplitsIff(Mistral, sep);
  }

  /** A separator without a border in which a replacement can end. */
  lemma BracketSeparatorFails()
    ensures Borderless("] x") && !AlwaysSplits(Mistral, "] x")
  {
    var sep, other := "] x", INST_ONE_SPACE;
    assert sep[..1][0] != sep[2..][0] && sep[..2][0] != sep[1..][0];
    assert sep[..2][0..] == other[|other| - 2..];
    assert EndsAlike(sep[..2], other);
    AlwaysSplitsIff(Mistral, sep);
  }

  /** A separator without spaces never has a replacement end in it. */
  lemma NoSpaceNotEnded(sep: string)
    requires ' ' !in sep
    ensures NotEndedIn(sep, INST_ONE_SPACE)
  {
    forall m | 0 < m < |sep|
      ensures !EndsAlike(sep[..m], INST_ONE_SPACE)
    {
      var front, other := sep[..m], INST_ONE_SPACE;
      var n := if m <= |other| then m else |other|;
      assert front[m - n..][n - 1] == front[m - 1] == sep[m - 1];
      assert other[|other| - n..][n - 1] == other[|other| - 1] == ' ';
    }
  }

  lemma DefaultSeparatorIsSafe(family: Family)
    ensures SafeFor(family, DEFAULT_SEPARATOR)
  {
    var sep := DEFAULT_SEPARATOR;
    forall k | 0 < k < |sep|
      ensures sep[..k] != sep[|sep| - k..]
    {
      assert sep[..k][0] == '[' && sep[|sep| - k..][0] == sep[|sep| - k] != '[';
    }
    if family.Mistral? {
      forall d | -|INST_TWO_SPACES| < d < |sep|
        ensures Clashes(sep, INST_TWO_SPACES, d)
      {
        assert Differ(sep, INST_TWO_SPACES, d, if d > 0 then 0 else if d == 0 then 1 else -d);
      }
      NoSpaceNotEnded(sep);
    } else {
      var suffix := SuffixOf(family);
      NoBrackets(family);
      EndsUnlike(sep, suffix);
    }
  }

  lemma NoBrackets(family: Family)
    requires family != Mistral
    ensures '[' !in SuffixOf(family) && ']' !in SuffixOf(family)
  {
    match family
    case Llama =>
      assert '[' !in LLAMA_HEADER_START && ']' !in LLAMA_HEADER_START;
      assert '[' !in LLAMA_HEADER_END && ']' !in LLAMA_HEADER_END;
    case Glm =>
    case Other =>
  }

  lemma EndsUnlike(sep: string, suffix: string)
    requires sep != "" && sep[0] !in suffix && sep[|sep| - 1] !in suffix
    ensures NotCompletedBy(sep, suffix)
  {
    forall k | 0 < k < |sep|
      ensures !(sep[k..] <= suffix)
    {
      assert sep[k..][|sep| - k - 1] == sep[|sep| - 1];
    }
    forall i: nat
      ensures !OccursAt(suffix, sep, i)
    {
      if i + |sep| <= |suffix| {
        assert suffix[i..i + |sep|][0] == suffix[i] != sep[0];
      }
    }
  }

  /** Appending a separator and a chunk is joining one chunk more. */
  lemma {:induction false} AppendJoins(chunks: seq<string>, sep: string, next: string)
    requires chunks != []
    ensures AppendSeparator(CombineInputPromptChunks(chunks, sep), sep) + next
            == CombineInputPromptChunks(chunks + [next], sep)
  {
    var all := chunks + [next];
    assert all[1..] == chunks[1..] + [next];
    assert Join(all, sep) == chunks[0] + sep + Join(all[1..], sep);
    if |chunks| > 1 {
      AppendJoins(chunks[1..], sep, next);
      assert Join(chunks, sep) + sep + next == chunks[0] + sep + (Join(chunks[1..], sep) + sep + next);
    } else {
      assert all[1..] == [next];
    }
  }

  // ---------- precomputed chunks ----------

  /** The ids a chunk's KV is computed from ahead of time. */
  function PrecomputeInput(encode: Encoder, inPrecomp: bool, chunk: string, forceSpecial: bool): seq<TokenId> {
    encode(chunk, inPrecomp || forceSpecial)
  }

  /** In a prompt joined from chunks, every slice is what was precomputed for that chunk, as
      the patch leaves it, when special tokens are forced for the first chunk only. */
  lemma PrecomputedChunksReappear(family: Family, chunks: seq<string>, sep: string, encode: Encoder, inPrecomp: bool,
                                  indices: seq<nat>, i: nat)
    requires i < |chunks| && sep != "" && AllFree(chunks, sep) && SafeFor(family, sep)
    requires |indices| + 1 == |chunks|
    requires Meets(encode, true, inPrecomp,
                   Split(PatchPaddingSpace(family, CombineInputPromptChunks(chunks, sep)), sep), indices)
    ensures var split := Split(PatchPaddingSpace(family, CombineInputPromptChunks(chunks, sep)), sep);
            SliceAt(Encoded(encode, true, inPrecomp, split, |split|), indices, i)
            == PrecomputeInput(encode, inPrecomp, PatchChunks(family, chunks)[i], i == 0)
  {
    SplitUndoesCombine(family, chunks, sep);
    SlicesAreEncodings(encode, true, inPrecomp, PatchChunks(family, chunks), indices, i);
  }
}
