/** Replacing in strings, and what it does to a separator. */
module Replacing {
  import opened Wrappers
  import opened Strings

  /** `text.replace(old, other)` for a nonempty pattern. */
  function Replace(text: string, pat: string, other: string): string
    requires pat != ""
    decreases |text|
  {
    match Find(text, pat, 0)
    case None => text
    case Some(i) => text[..i] + other + Replace(text[i + |pat|..], pat, other)
  }

  /** Wherever the two overlap they differ: neither can occur across the other's edge. */
  ghost predicate Apart(sep: string, pat: string) {
    forall d :: -|pat| < d < |sep| ==> Clashes(sep, pat, d)
  }

  ghost predicate Clashes(sep: string, pat: string, d: int) {
    exists m: nat :: m < |pat| && 0 <= d + m < |sep| && Differ(sep, pat, d, m)
  }

  predicate Differ(sep: string, pat: string, d: int, m: nat)
    requires m < |pat| && 0 <= d + m < |sep|
  {
    pat[m] != sep[d + m]
  }

  // ---------- separators apart from the pattern ----------

  lemma OccursAfter(c: string, sep: string, rest: string, pat: string, j: nat)
    requires pat != "" && Apart(sep, pat) && Free(c, pat)
    ensures OccursAt(c + sep + rest, pat, j) <==> j >= |c| + |sep| && OccursAt(rest, pat, j - |c| - |sep|)
  {
    var text, n, k := c + sep + rest, |c| + |sep|, j + |pat|;
    if k <= |text| {
      var here := text[j..k];
      if j >= n {
        assert here == rest[j - n..k - n];
      } else if k <= |c| {
        assert here == c[j..k];
        assert !OccursAt(c, pat, j);
      } else {
        assert Clashes(sep, pat, j - |c|);
        var m: nat :| m < |pat| && 0 <= j - |c| + m < |sep| && Differ(sep, pat, j - |c|, m);
        assert here[m] == text[j + m] == sep[j - |c| + m];
      }
    }
  }

  lemma FreeShifted(text: string, rest: string, pat: string, n: nat)
    requires forall j: nat {:trigger OccursAt(text, pat, j)} ::
               OccursAt(text, pat, j) <==> j >= n && OccursAt(rest, pat, j - n)
    requires Find(rest, pat, 0) == None
    ensures Free(text, pat)
  {}

  lemma FoundShifted(text: string, rest: string, pat: string, n: nat, i: nat)
    requires forall j: nat {:trigger OccursAt(text, pat, j)} ::
               OccursAt(text, pat, j) <==> j >= n && OccursAt(rest, pat, j - n)
    requires Find(rest, pat, 0) == Some(i)
    ensures Find(text, pat, 0) == Some(n + i)
  {
    assert OccursAt(text, pat, n + i);
    FoundAt(text, pat, n + i);
  }

  lemma FindAfter(text: string, c: string, sep: string, rest: string, pat: string)
    requires text == c + sep + rest && pat != "" && Apart(sep, pat) && Free(c, pat)
    ensures Find(rest, pat, 0) == None ==> Free(text, pat)
    ensures Find(rest, pat, 0).Some? ==> Find(text, pat, 0) == Some(|c| + |sep| + Find(rest, pat, 0).value)
  {
    var n := |c| + |sep|;
    forall j: nat
      ensures OccursAt(text, pat, j) <==> j >= n && OccursAt(rest, pat, j - n)
    {
      OccursAfter(c, sep, rest, pat, j);
    }
    match Find(rest, pat, 0)
    case None => FreeShifted(text, rest, pat, n);
    case Some(i) => FoundShifted(text, rest, pat, n, i);
  }

  lemma ReplaceFirst(text: string, a: string, pat: string, tail: string, other: string)
    requires text == a + pat + tail && pat != "" && Find(text, pat, 0) == Some(|a|)
    ensures Replace(text, pat, other) == a + other + Replace(tail, pat, other)
  {
    assert text[..|a|] == a && text[|a| + |pat|..] == tail;
  }

  lemma ReplaceAfter(text: string, c: string, sep: string, rest: string, pat: string, other: string)
    requires text == c + sep + rest && pat != "" && Apart(sep, pat) && Free(c, pat)
    ensures Replace(text, pat, other) == c + sep + Replace(rest, pat, other)
  {
    FindAfter(text, c, sep, rest, pat);
    match Find(rest, pat, 0)
    case None =>
    case Some(i) =>
      var a, tail := rest[..i], rest[i + |pat|..];
      assert rest == a + pat + tail;
      var front := c + sep + a;
      assert text == front + pat + tail;
      ReplaceFirst(rest, a, pat, tail, other);
      ReplaceFirst(text, front, pat, tail, other);
      AppendThrice(c + sep, a, other, Replace(tail, pat, other));
  }

  /** A separator no pattern can straddle cuts a replacement in two. */
  lemma {:induction false} ReplaceAcross(text: string, c: string, sep: string, rest: string, pat: string, other: string)
    requires text == c + sep + rest && pat != "" && Apart(sep, pat)
    ensures Replace(text, pat, other) == Replace(c, pat, other) + sep + Replace(rest, pat, other)
    decreases |c|
  {
    match Find(c, pat, 0)
    case None =>
      ReplaceAfter(text, c, sep, rest, pat, other);
    case Some(i) =>
      var a, tail := c[..i], c[i + |pat|..];
      assert c == a + pat + tail;
      assert text == c + (sep + rest) == a + pat + (tail + sep + rest);
      FindInPrefix(c, sep + rest, pat, i);
      ReplaceFirst(c, a, pat, tail, other);
      ReplaceFirst(text, a, pat, tail + sep + rest, other);
      ReplaceAcross(tail + sep + rest, tail, sep, rest, pat, other);
      AppendThrice(a + other, Replace(tail, pat, other), sep, Replace(rest, pat, other));
  }

  lemma AppendThrice(a: string, b: string, c: string, d: string)
    ensures a + (b + c + d) == a + b + c + d
  {}

  // ---------- replacements that make up a separator ----------

  /** The two agree as far back from their ends as both go. */
  predicate EndsAlike(a: string, b: string) {
    var n := if |a| <= |b| then |a| else |b|;
    a[|a| - n..] == b[|b| - n..]
  }

  /** No occurrence of the separator can begin in a replacement, or before it, and end after it. */
  ghost predicate NotEndedIn(sep: string, other: string) {
    forall m :: 0 < m < |sep| ==> !EndsAlike(sep[..m], other)
  }

  lemma PrefixUpTo(c: string, pat: string, part: string, i: nat)
    requires OccursAt(c, pat, i) && part <= pat
    ensures c[0..i + |part|] == c[..i] + part
  {
    assert c[i..i + |part|] == c[i..i + |pat|][..|part|];
  }

  lemma EndsInside(x: string, other: string, b: string, sep: string, j: nat)
    requires j < |x + other| < j + |sep| && OccursAt(x + other + b, sep, j)
    ensures EndsAlike(sep[..|x + other| - j], other)
  {
    var a, text := x + other, x + other + b;
    var m := |a| - j;
    forall k | 0 <= k < m
      ensures sep[k] == a[j + k]
    {
      CharAt(text, sep, j, j + k);
    }
    SameEnds(sep[..m], x, other, j);
  }

  lemma SameEnds(front: string, x: string, other: string, j: nat)
    requires j + |front| == |x + other| && forall k :: 0 <= k < |front| ==> front[k] == (x + other)[j + k]
    ensures EndsAlike(front, other)
  {
    if |front| <= |other| {
      var end := other[|other| - |front|..];
      forall k | 0 <= k < |front|
        ensures front[k] == end[k]
      {
        assert j + k - |x| == |other| - |front| + k;
      }
      assert front == end && front[0..] == front;
    } else {
      var end := front[|front| - |other|..];
      forall k | 0 <= k < |other|
        ensures end[k] == other[k]
      {
        assert end[k] == front[|front| - |other| + k];
      }
      assert end == other && other[0..] == other;
    }
  }

  lemma FreeAcross(x: string, other: string, b: string, sep: string)
    requires Free(x + other, sep) && Free(b, sep) && NotEndedIn(sep, other)
    ensures Free(x + other + b, sep)
  {
    var a := x + other;
    forall j: nat
      ensures !OccursAt(a + b, sep, j)
    {
      OccursInConcat(a, b, sep, j);
      if j < |a| < j + |sep| && OccursAt(a + b, sep, j) {
        EndsInside(x, other, b, sep, j);
      }
    }
  }

  /** Shortening a pattern at its end cannot make up a separator that no replacement ends in. */
  lemma {:induction false} ReplaceKeepsFree(c: string, sep: string, pat: string, other: string)
    requires pat != "" && other < pat && NotEndedIn(sep, other) && Free(c, sep)
    ensures Free(Replace(c, pat, other), sep)
    decreases |c|
  {
    match Find(c, pat, 0)
    case None =>
    case Some(i) =>
      var n := i + |pat|;
      FreePart(c, sep, n, |c|);
      FreePart(c, sep, 0, i + |other|);
      assert c[n..|c|] == c[n..];
      ReplaceKeepsFree(c[n..], sep, pat, other);
      PrefixUpTo(c, pat, other, i);
      FreeAcross(c[..i], other, Replace(c[n..], pat, other), sep);
  }

  // ---------- separators that a replacement breaks ----------

  lemma ApartSymmetric(sep: string, pat: string)
    requires Apart(sep, pat)
    ensures Apart(pat, sep)
  {
    forall d | -|sep| < d < |pat|
      ensures Clashes(pat, sep, d)
    {
      assert Clashes(sep, pat, -d);
      var m: nat :| m < |pat| && 0 <= -d + m < |sep| && Differ(sep, pat, -d, m);
      assert Differ(pat, sep, d, m - d);
    }
  }

  lemma ApartFree(sep: string, pat: string)
    requires pat != "" && Apart(sep, pat)
    ensures Free(sep, pat)
  {
    forall d: nat
      ensures !OccursAt(sep, pat, d)
    {
      if d + |pat| <= |sep| {
        assert Clashes(sep, pat, d);
        var m: nat :| m < |pat| && 0 <= d + m < |sep| && Differ(sep, pat, d, m);
        assert sep[d..d + |pat|][m] == sep[d + m];
      }
    }
  }

  /** A text in which the two overlap, no longer than it has to be. */
  lemma Overlay(sep: string, pat: string, d: int) returns (w: string)
    requires sep != "" && pat != "" && -|pat| < d < |sep| && !Clashes(sep, pat, d)
    ensures |w| < |sep| + |pat| && OccursSomewhere(w, sep) && OccursSomewhere(w, pat)
  {
    if d >= 0 {
      w := Laid(sep, pat, d);
      forall p: nat | d <= p < |sep| && p - d < |pat|
        ensures sep[p] == pat[p - d]
      {
        assert !Differ(sep, pat, d, p - d);
      }
      LaidOccur(sep, pat, d);
    } else {
      w := Laid(pat, sep, -d);
      forall p: nat | -d <= p < |pat| && p + d < |sep|
        ensures pat[p] == sep[p + d]
      {
        assert !Differ(sep, pat, d, p);
      }
      LaidOccur(pat, sep, -d);
    }
  }

  /** `under` with `over` laid on it at `at`. */
  function Laid(under: string, over: string, at: nat): string
    requires at < |under|
  {
    under[..at] + over + (if at + |over| <= |under| then under[at + |over|..] else "")
  }

  lemma LaidOccur(under: string, over: string, at: nat)
    requires at < |under| && over != ""
    requires forall p: nat :: at <= p < |under| && p - at < |over| ==> under[p] == over[p - at]
    ensures |Laid(under, over, at)| < |under| + |over|
    ensures OccursSomewhere(Laid(under, over, at), under) && OccursSomewhere(Laid(under, over, at), over)
  {
    var w := Laid(under, over, at);
    assert w[0..|under|] == under;
    assert OccursAt(w, under, 0);
    assert w[at..at + |over|] == over;
    assert OccursAt(w, over, at);
  }

  lemma {:induction false} ReplaceShortens(text: string, pat: string, other: string)
    requires |other| < |pat|
    ensures |Replace(text, pat, other)| <= |text|
    ensures OccursSomewhere(text, pat) ==> |Replace(text, pat, other)| < |text|
    decreases |text|
  {
    match Find(text, pat, 0)
    case None =>
    case Some(i) => ReplaceShortens(text[i + |pat|..], pat, other);
  }

  /** With the separator in it, a text leaves little for each of its parts. */
  lemma {:induction false} PartsAreShort(text: string, sep: string)
    requires sep != ""
    ensures forall i :: 0 <= i < |Split(text, sep)| ==> |Split(text, sep)[i]| <= |text|
    ensures OccursSomewhere(text, sep) ==>
              forall i :: 0 <= i < |Split(text, sep)| ==> |Split(text, sep)[i]| + |sep| <= |text|
    decreases |text|
  {
    match Find(text, sep, 0)
    case None =>
    case Some(i) => PartsAreShort(text[i + |sep|..], sep);
  }

  ghost predicate AllFree(parts: seq<string>, sep: string) {
    forall i :: 0 <= i < |parts| ==> Free(parts[i], sep)
  }

  /** Where separator and pattern can overlap, there are parts without the pattern whose join
      has it, and loses it. */
  lemma OverlapBreaks(sep: string, pat: string, other: string) returns (parts: seq<string>)
    requires sep != "" && |other| < |pat| && !Apart(sep, pat)
    ensures parts != [] && AllFree(parts, sep) && AllFree(parts, pat)
    ensures Split(Replace(Join(parts, sep), pat, other), sep) != parts
  {
    var d :| -|pat| < d < |sep| && !Clashes(sep, pat, d);
    var w := Overlay(sep, pat, d);
    parts := Split(w, sep);
    PartsAreFree(w, sep);
    PartsAreShort(w, sep);
    JoinUndoesSplit(w, sep);
    ReplaceShortens(w, pat, other);
    JoinUndoesSplit(Replace(w, pat, other), sep);
  }

  /** Where a replacement can end in the separator, there is a part without the separator that
      has it after the replacement. */
  lemma ReplacementBreaks(sep: string, pat: string, other: string, m: nat) returns (part: string)
    requires pat != "" && Apart(sep, pat) && Borderless(pat) && 0 < m < |sep| && EndsAlike(sep[..m], other)
    ensures Free(part, sep) && !Free(Replace(part, pat, other), sep)
  {
    var i := if m > |other| then m - |other| else 0;
    part := sep[..i] + pat + sep[m..];
    FreeAround(sep[..i], pat, sep[m..], sep);
    ReplacedOnce(sep, pat, other, i, m);
    MadeUp(sep, other, i, m);
  }

  lemma FreeAround(u: string, pat: string, rest: string, sep: string)
    requires sep != "" && Apart(sep, pat) && |u| < |sep| && |rest| < |sep|
    ensures Free(u + pat + rest, sep)
  {
    ApartSymmetric(sep, pat);
    forall j: nat
      ensures !OccursAt(u + pat + rest, sep, j)
    {
      OccursAfter(u, pat, rest, sep, j);
    }
  }

  lemma ReplacedOnce(sep: string, pat: string, other: string, i: nat, m: nat)
    requires pat != "" && Apart(sep, pat) && Borderless(pat) && i <= |sep| && m <= |sep|
    ensures Replace(sep[..i] + pat + sep[m..], pat, other) == sep[..i] + other + sep[m..]
  {
    var u, rest := sep[..i], sep[m..];
    ApartFree(sep, pat);
    assert u == sep[0..i] && rest == sep[m..|sep|];
    FreePart(sep, pat, 0, i);
    FreePart(sep, pat, m, |sep|);
    BorderlessFound(u, pat);
    FindInPrefix(u + pat, rest, pat, |u|);
    ReplaceFirst(u + pat + rest, u, pat, rest, other);
  }

  lemma MadeUp(sep: string, other: string, i: nat, m: nat)
    requires 0 < m < |sep| && EndsAlike(sep[..m], other) && i == if m > |other| then m - |other| else 0
    ensures !Free(sep[..i] + other + sep[m..], sep)
  {
    var text, front := sep[..i] + other + sep[m..], sep[..m];
    if m > |other| {
      assert front[i..] == other;
      assert front == sep[..i] + other;
      assert text == "" + sep;
      OccursAfterPrefix("", sep);
    } else {
      var k := |other| - m;
      assert other[k..] == front;
      assert text == other[..k] + sep;
      OccursAfterPrefix(other[..k], sep);
    }
  }

  lemma OccursAfterPrefix(a: string, sub: string)
    ensures !Free(a + sub, sub)
  {
    assert (a + sub)[|a|..|a| + |sub|] == sub;
    assert OccursAt(a + sub, sub, |a|);
  }
}
