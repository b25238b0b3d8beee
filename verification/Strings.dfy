/** Searching, splitting, joining and stripping strings, as the standard string methods do. */
module Strings {
  import opened Wrappers

  predicate OccursAt(text: string, sub: string, i: nat) {
    i + |sub| <= |text| && text[i..i + |sub|] == sub
  }

  /** `text.find(sub, from)` for a non-negative start: the leftmost occurrence. */
  function Find(text: string, sub: string, from: nat): (r: Option<nat>)
    ensures r.Some? ==> from <= r.value && OccursAt(text, sub, r.value)
    ensures r.Some? ==> forall i :: from <= i < r.value ==> !OccursAt(text, sub, i)
    ensures r.None? ==> forall i :: from <= i ==> !OccursAt(text, sub, i)
    decreases |text| + 1 - from
  {
    if from + |sub| > |text| then None
    else if OccursAt(text, sub, from) then Some(from)
    else Find(text, sub, from + 1)
  }

  /** `text.split(sep)` for a nonempty separator. */
  function Split(text: string, sep: string): (parts: seq<string>)
    requires sep != ""
    ensures parts != []
    decreases |text|
  {
    match Find(text, sep, 0)
    case None => [text]
    case Some(i) => [text[..i]] + Split(text[i + |sep|..], sep)
  }

  /** `sep.join(parts)` */
  function Join(parts: seq<string>, sep: string): string {
    if parts == [] then ""
    else if |parts| == 1 then parts[0]
    else parts[0] + sep + Join(parts[1..], sep)
  }

  predicate Free(text: string, sep: string) {
    Find(text, sep, 0) == None
  }

  /** Splitting undoes joining exactly when the separator is first met at the end of every
      part but the last, and not at all in the last. */
  ghost predicate Splittable(parts: seq<string>, sep: string)
    requires parts != []
  {
    && Free(parts[|parts| - 1], sep)
    && forall i :: 0 <= i < |parts| - 1 ==> Find(parts[i] + sep, sep, 0) == Some(|parts[i]|)
  }

  lemma FindInPrefix(text: string, more: string, sep: string, i: nat)
    requires i + |sep| <= |text|
    ensures Find(text, sep, 0) == Some(i) <==> Find(text + more, sep, 0) == Some(i)
  {
    forall j: nat | j + |sep| <= |text|
      ensures OccursAt(text, sep, j) <==> OccursAt(text + more, sep, j)
    {
      assert (text + more)[j..j + |sep|] == text[j..j + |sep|];
    }
  }

  lemma SplitJoinStep(parts: seq<string>, sep: string)
    requires |parts| > 1 && sep != ""
    ensures Split(Join(parts, sep), sep) == parts <==>
            Find(parts[0] + sep, sep, 0) == Some(|parts[0]|) && Split(Join(parts[1..], sep), sep) == parts[1..]
  {
    var c, rest := parts[0], Join(parts[1..], sep);
    var text := Join(parts, sep);
    assert text == (c + sep) + rest;
    assert text[|c|..|c| + |sep|] == sep;
    assert OccursAt(text, sep, |c|);
    FindInPrefix(c + sep, rest, sep, |c|);
    assert text[..|c|] == c && text[|c| + |sep|..] == rest;
    var i := Find(text, sep, 0).value;
    SplitAt(text, sep, i);
    if i != |c| {
      assert |Split(text, sep)[0]| == i;
    } else {
      assert parts == [c] + parts[1..];
    }
  }

  lemma SplitAt(text: string, sep: string, i: nat)
    requires sep != "" && Find(text, sep, 0) == Some(i)
    ensures Split(text, sep)[0] == text[..i] && Split(text, sep)[1..] == Split(text[i + |sep|..], sep)
    ensures Split(text, sep) == [text[..i]] + Split(text[i + |sep|..], sep)
  {}

  lemma SplittableStep(parts: seq<string>, sep: string)
    requires |parts| > 1
    ensures Splittable(parts, sep) <==>
            Find(parts[0] + sep, sep, 0) == Some(|parts[0]|) && Splittable(parts[1..], sep)
  {
    var rest := parts[1..];
    assert forall i :: 0 <= i < |rest| ==> rest[i] == parts[i + 1];
    if Splittable(rest, sep) && Find(parts[0] + sep, sep, 0) == Some(|parts[0]|) {
      forall i | 0 <= i < |parts| - 1
        ensures Find(parts[i] + sep, sep, 0) == Some(|parts[i]|)
      {
        if i > 0 {
          assert parts[i] == rest[i - 1];
        }
      }
    }
  }

  lemma {:induction false} SplitUndoesJoinIff(parts: seq<string>, sep: string)
    requires parts != [] && sep != ""
    ensures Split(Join(parts, sep), sep) == parts <==> Splittable(parts, sep)
    decreases |parts|
  {
    if |parts| > 1 {
      SplitJoinStep(parts, sep);
      SplitUndoesJoinIff(parts[1..], sep);
      SplittableStep(parts, sep);
    } else {
      assert parts == [parts[0]];
    }
  }

  /** Joining always undoes splitting. */
  lemma {:induction false} JoinUndoesSplit(text: string, sep: string)
    requires sep != ""
    ensures Join(Split(text, sep), sep) == text
    decreases |text|
  {
    var parts := Split(text, sep);
    match Find(text, sep, 0)
    case None =>
    case Some(i) =>
      JoinUndoesSplit(text[i + |sep|..], sep);
      assert parts[0] == text[..i] && parts[1..] == Split(text[i + |sep|..], sep);
      assert text == text[..i] + sep + text[i + |sep|..];
  }

  lemma {:induction false} PartsAreFree(text: string, sep: string)
    requires sep != ""
    ensures forall i :: 0 <= i < |Split(text, sep)| ==> Free(Split(text, sep)[i], sep)
    decreases |text|
  {
    match Find(text, sep, 0)
    case None =>
    case Some(i) =>
      PartsAreFree(text[i + |sep|..], sep);
      BeforeFirstFree(text, sep, i);
  }

  lemma BeforeFirstFree(text: string, sep: string, i: nat)
    requires sep != "" && Find(text, sep, 0) == Some(i)
    ensures Free(text[..i], sep)
  {
    match Find(text[..i], sep, 0)
    case None =>
    case Some(j) =>
      assert text[..i] == text[0..i];
      OccursInSlice(text, 0, i, sep, j);
  }

  // ---------- which separators are safe ----------

  /** No proper prefix of the separator is also a suffix of it. */
  ghost predicate Borderless(sep: string) {
    forall k :: 0 < k < |sep| ==> sep[..k] != sep[|sep| - k..]
  }

  /** An occurrence that runs into a following separator is a border of it. */
  lemma OverlapIsBorder(c: string, sep: string, i: nat)
    requires i < |c| < i + |sep| && OccursAt(c + sep, sep, i)
    ensures !Borderless(sep)
  {
    var text := c + sep;
    var k := i + |sep| - |c|;
    assert text[i..i + |sep|][|sep| - k..] == text[|c|..|c| + k] == sep[..k];
    assert sep[..k] == sep[|sep| - k..];
  }

  lemma BorderlessFound(c: string, sep: string)
    requires sep != "" && Borderless(sep) && Free(c, sep)
    ensures Find(c + sep, sep, 0) == Some(|c|)
  {
    var text := c + sep;
    assert text[|c|..|c| + |sep|] == sep;
    assert OccursAt(text, sep, |c|);
    var i := Find(text, sep, 0).value;
    if i + |sep| <= |c| {
      FindInPrefix(c, sep, sep, i);
    } else if i < |c| {
      OverlapIsBorder(c, sep, i);
    }
  }

  /** A text after which a separator with a border is found too early. */
  lemma FoundEarly(sep: string) returns (y: string)
    requires !Borderless(sep)
    ensures y < sep && Free(y, sep) && Find(y + sep, sep, 0) != Some(|y|)
  {
    var k :| 0 < k < |sep| && sep[..k] == sep[|sep| - k..];
    y := sep[..|sep| - k];
    assert (y + sep)[0..|sep|] == y + sep[..k] == sep;
    assert OccursAt(y + sep, sep, 0);
  }

  /** A separator splits every list of separator-free parts correctly exactly when it is
      borderless. */
  lemma SafeSeparatorIff(sep: string)
    requires sep != ""
    ensures Borderless(sep) <==>
            forall parts: seq<string> :: parts != [] && (forall i :: 0 <= i < |parts| ==> Free(parts[i], sep)) ==>
              Split(Join(parts, sep), sep) == parts
  {
    if Borderless(sep) {
      forall parts: seq<string> | parts != [] && forall i :: 0 <= i < |parts| ==> Free(parts[i], sep)
        ensures Split(Join(parts, sep), sep) == parts
      {
        forall i | 0 <= i < |parts| - 1
          ensures Find(parts[i] + sep, sep, 0) == Some(|parts[i]|)
        {
          BorderlessFound(parts[i], sep);
        }
        SplitUndoesJoinIff(parts, sep);
      }
    } else {
      var y := FoundEarly(sep);
      var parts := [y, ""];
      SplitUndoesJoinIff(parts, sep);
      assert parts[0] == y && Free(parts[0], sep) && Free(parts[1], sep);
    }
  }

  // ---------- occurrences in parts ----------

  lemma CharAt(text: string, sub: string, i: nat, p: nat)
    requires OccursAt(text, sub, i) && i <= p < i + |sub|
    ensures text[p] == sub[p - i]
  {
    assert text[i..i + |sub|][p - i] == text[p];
  }

  lemma FoundAt(text: string, sub: string, i: nat)
    requires OccursAt(text, sub, i) && forall j: nat :: j < i ==> !OccursAt(text, sub, j)
    ensures Find(text, sub, 0) == Some(i)
  {}

  lemma SliceOfSlice(text: string, lo: nat, hi: nat, i: nat, j: nat)
    requires lo <= hi <= |text| && i <= j <= hi - lo
    ensures text[lo..hi][i..j] == text[lo + i..lo + j]
  {
    var part := text[lo..hi];
    assert forall k :: 0 <= k < j - i ==> part[i..j][k] == part[i + k] == text[lo + i..lo + j][k];
  }

  lemma OccursInSlice(text: string, lo: nat, hi: nat, sub: string, i: nat)
    requires lo <= hi <= |text| && OccursAt(text[lo..hi], sub, i)
    ensures OccursAt(text, sub, lo + i)
  {
    SliceOfSlice(text, lo, hi, i, i + |sub|);
  }

  lemma FreePart(text: string, sep: string, lo: nat, hi: nat)
    requires lo <= hi <= |text| && Free(text, sep)
    ensures Free(text[lo..hi], sep)
  {
    var part := text[lo..hi];
    if OccursSomewhere(part, sep) {
      var i: nat :| OccursAt(part, sep, i);
      OccursInSlice(text, lo, hi, sep, i);
    }
  }

  ghost predicate OccursSomewhere(text: string, sub: string) {
    exists i: nat :: OccursAt(text, sub, i)
  }

  lemma OccursInConcat(a: string, b: string, sub: string, i: nat)
    ensures i + |sub| <= |a| ==> (OccursAt(a + b, sub, i) <==> OccursAt(a, sub, i))
    ensures i >= |a| ==> (OccursAt(a + b, sub, i) <==> OccursAt(b, sub, i - |a|))
  {
    var text, k := a + b, i + |sub|;
    if k <= |a| {
      assert text[i..k] == a[i..k];
    } else if |a| <= i && k <= |text| {
      assert text[i..k] == b[i - |a|..k - |a|];
    }
  }

  // ---------- whitespace ----------

  predicate IsSpace(c: char) {
    '\t' <= c <= '\r' || '\U{1c}' <= c <= ' ' || c == '\U{85}' || c == '\U{a0}' || c == '\U{1680}'
    || '\U{2000}' <= c <= '\U{200a}' || c == '\U{2028}' || c == '\U{2029}' || c == '\U{202f}' || c == '\U{205f}'
    || c == '\U{3000}'
  }

  function TrimLeft(text: string, blank: char -> bool): string {
    if text != "" && blank(text[0]) then TrimLeft(text[1..], blank) else text
  }

  function TrimRight(text: string, blank: char -> bool): string {
    if text != "" && blank(text[|text| - 1]) then TrimRight(text[..|text| - 1], blank) else text
  }

  function Trim(text: string, blank: char -> bool): string {
    TrimRight(TrimLeft(text, blank), blank)
  }

  /** `text.strip()` */
  function Strip(text: string): string {
    Trim(text, IsSpace)
  }

  /** Stripping takes whitespace of any kind off both ends and leaves the inside alone. */
  lemma StripExample()
    ensures Strip("\U{3000}\ta\nb\U{1c}\U{85}") == "a\nb" && Strip("\U{200b}a") == "\U{200b}a"
  {
    var text := "\U{3000}\ta\nb\U{1c}\U{85}";
    assert text[1..][1..] == "a\nb\U{1c}\U{85}";
    assert TrimLeft(text, IsSpace) == TrimLeft(text[1..], IsSpace) == TrimLeft(text[1..][1..], IsSpace);
    var rest := "a\nb\U{1c}\U{85}";
    assert rest[..4][..3] == "a\nb";
    assert TrimRight(rest, IsSpace) == TrimRight(rest[..4], IsSpace) == TrimRight(rest[..4][..3], IsSpace);
  }

  predicate NoEdgeSpace(text: string) {
    text == "" || (!IsSpace(text[0]) && !IsSpace(text[|text| - 1]))
  }

  lemma {:induction false} TrimShrinks(text: string, blank: char -> bool)
    ensures |TrimLeft(text, blank)| <= |text| && |TrimRight(text, blank)| <= |text|
    ensures |TrimLeft(text, blank)| == |text| ==> TrimLeft(text, blank) == text
    ensures |TrimRight(text, blank)| == |text| ==> TrimRight(text, blank) == text
    decreases |text|
  {
    if text != "" {
      TrimShrinks(text[1..], blank);
      TrimShrinks(text[..|text| - 1], blank);
    }
  }

  /** Stripping never lengthens a text, and leaves it alone only without edge whitespace. */
  lemma StripShrinks(text: string)
    ensures |Strip(text)| <= |text|
    ensures |Strip(text)| == |text| <==> NoEdgeSpace(text)
    ensures NoEdgeSpace(text) ==> Strip(text) == text
  {
    var left := TrimLeft(text, IsSpace);
    TrimShrinks(text, IsSpace);
    TrimShrinks(left, IsSpace);
    if text != "" && IsSpace(text[0]) {
      TrimShrinks(text[1..], IsSpace);
    }
    if left != "" && IsSpace(left[|left| - 1]) {
      TrimShrinks(left[..|left| - 1], IsSpace);
    }
  }

  function Spaces(n: nat): string {
    seq(n, _ => ' ')
  }

  lemma TrimRightBlank(text: string)
    ensures TrimRight(text + " ", IsSpace) == TrimRight(text, IsSpace)
  {
    assert (text + " ")[..|text|] == text;
  }

  lemma {:induction false} TrimRightPadding(text: string, n: nat)
    ensures TrimRight(text + Spaces(n), IsSpace) == TrimRight(text, IsSpace)
  {
    if n == 0 {
      assert text + Spaces(0) == text;
    } else {
      TrimRightPadding(text, n - 1);
      assert Spaces(n) == Spaces(n - 1) + " ";
      assert text + Spaces(n) == text + Spaces(n - 1) + " ";
      TrimRightBlank(text + Spaces(n - 1));
    }
  }

  lemma {:induction false} TrimLeftPadding(text: string, n: nat)
    ensures TrimLeft(text + Spaces(n), IsSpace)
            == TrimLeft(text, IsSpace) + Spaces(if TrimLeft(text, IsSpace) == "" then 0 else n)
  {
    if text == "" {
      assert text + Spaces(n) == Spaces(n);
      if n > 0 {
        assert Spaces(n)[1..] == "" + Spaces(n - 1);
        TrimLeftPadding("", n - 1);
      }
    } else if IsSpace(text[0]) {
      assert (text + Spaces(n))[1..] == text[1..] + Spaces(n);
      TrimLeftPadding(text[1..], n);
    }
  }

  /** Padding with spaces is undone by stripping. */
  lemma StripPadding(text: string, n: nat)
    ensures Strip(text + Spaces(n)) == Strip(text)
  {
    TrimLeftPadding(text, n);
    TrimRightPadding(TrimLeft(text, IsSpace), n);
  }
}
