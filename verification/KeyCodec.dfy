/** Cache keys as strings. */
module KeyCodec {
  import opened Wrappers
  import opened CacheKeys
  import opened Strings

  // ---------- decimal numbers ----------

  function DigitChar(d: nat): char
    requires d < 10
  {
    '0' + d as char
  }

  predicate IsDigit(c: char) {
    '0' <= c <= '9'
  }

  function DigitValue(c: char): nat
    requires IsDigit(c)
  {
    c as int - '0' as int
  }

  function DecimalNat(n: nat): string {
    if n < 10 then [DigitChar(n)] else DecimalNat(n / 10) + [DigitChar(n % 10)]
  }

  /** `str(n)` */
  function Decimal(n: int): string {
    if n < 0 then "-" + DecimalNat(-n) else DecimalNat(n)
  }

  /** Digits, with single underscores allowed between them. */
  function ParseNat(text: string): Option<nat> {
    if text == "" || !IsDigit(text[|text| - 1]) then None
    else
      var d := DigitValue(text[|text| - 1]);
      if |text| == 1 then Some(d)
      else
        match ParseNat(text[..if text[|text| - 2] == '_' then |text| - 2 else |text| - 1])
        case None => None
        case Some(high) => Some(10 * high + d)
  }

  /** The whitespace a number may be surrounded by. */
  predicate IsNumberSpace(c: char) {
    IsSpace(c) && !('\U{1c}' <= c <= '\U{1f}')
  }

  /** `int(text)`, for ASCII digits. */
  function ParseInt(text: string): Option<int> {
    var t := Trim(text, IsNumberSpace);
    if t != "" && t[0] == '-' then
      match ParseNat(t[1..])
      case None => None
      case Some(n) => Some(0 - n as int)
    else
      match ParseNat(if t != "" && t[0] == '+' then t[1..] else t)
      case None => None
      case Some(n) => Some(n)
  }

  lemma {:induction false} ParseNatOfDecimal(n: nat)
    ensures ParseNat(DecimalNat(n)) == Some(n)
    ensures DecimalNat(n) != "" && forall i :: 0 <= i < |DecimalNat(n)| ==> IsDigit(DecimalNat(n)[i])
  {
    if n >= 10 {
      ParseNatOfDecimal(n / 10);
      var high := DecimalNat(n / 10);
      assert DecimalNat(n)[..|high|] == high && DecimalNat(n)[|high|] == DigitChar(n % 10);
    }
  }

  lemma NothingToTrim(text: string, blank: char -> bool)
    requires text != "" && !blank(text[0]) && !blank(text[|text| - 1])
    ensures Trim(text, blank) == text
  {}

  lemma ParseIntOfDecimal(n: int)
    ensures ParseInt(Decimal(n)) == Some(n)
  {
    var magnitude: nat := if n < 0 then -n else n;
    ParseNatOfDecimal(magnitude);
    NothingToTrim(Decimal(n), IsNumberSpace);
    if n < 0 {
      assert Decimal(n)[1..] == DecimalNat(magnitude);
    }
  }

  lemma {:induction false} DecimalNatShortest(text: string)
    requires ParseNat(text).Some?
    ensures |DecimalNat(ParseNat(text).value)| <= |text|
    decreases |text|
  {
    if |text| > 1 {
      var rest := text[..if text[|text| - 2] == '_' then |text| - 2 else |text| - 1];
      DecimalNatShortest(rest);
      var high, n := ParseNat(rest).value, ParseNat(text).value;
      assert n / 10 == high;
    }
  }

  /** No spelling of a number is shorter than its canonical one. */
  lemma DecimalShortest(text: string)
    requires ParseInt(text).Some?
    ensures |Decimal(ParseInt(text).value)| <= |text|
  {
    var t := Trim(text, IsNumberSpace);
    TrimShrinks(text, IsNumberSpace);
    TrimShrinks(TrimLeft(text, IsNumberSpace), IsNumberSpace);
    if t != "" && (t[0] == '-' || t[0] == '+') {
      DecimalNatShortest(t[1..]);
    } else {
      DecimalNatShortest(t);
    }
  }

  // ---------- keys ----------

  datatype KeyError = ValueError

  const AT: string := "@"

  function FieldsOf(k: CacheEngineKey): (parts: seq<string>)
    ensures |parts| == 5
  {
    [k.fmt, k.modelName, Decimal(k.worldSize), Decimal(k.workerId), k.chunkHash]
  }

  function ToString(k: CacheEngineKey): string {
    k.fmt + AT + k.modelName + AT + Decimal(k.worldSize) + AT + Decimal(k.workerId) + AT + k.chunkHash
  }

  function FromString(s: string): Result<CacheEngineKey, KeyError> {
    var parts := Split(s, AT);
    if |parts| != 5 then Err(ValueError)
    else
      match ParseInt(parts[2])
      case None => Err(ValueError)
      case Some(worldSize) =>
        match ParseInt(parts[3])
        case None => Err(ValueError)
        case Some(workerId) => Ok(CacheEngineKey(parts[0], parts[1], worldSize, workerId, parts[4]))
  }

  /** No string field holds the separator. */
  predicate AtFree(k: CacheEngineKey) {
    '@' !in k.fmt && '@' !in k.modelName && '@' !in k.chunkHash
  }

  lemma FreeOfAt(text: string)
    ensures Free(text, AT) <==> '@' !in text
  {
    if '@' in text {
      var i :| 0 <= i < |text| && text[i] == '@';
      assert text[i..i + 1] == AT;
      assert OccursAt(text, AT, i);
    }
    match Find(text, AT, 0)
    case None =>
    case Some(i) => assert text[i] == text[i..i + 1][0] == '@';
  }

  lemma ToStringJoins(k: CacheEngineKey)
    ensures ToString(k) == Join(FieldsOf(k), AT)
  {
    var p := FieldsOf(k);
    assert p[1..][1..] == p[2..] && p[2..][1..] == p[3..] && p[3..][1..] == p[4..] && p[4..] == [k.chunkHash];
    assert p[1..][0] == p[1] && p[2..][0] == p[2] && p[3..][0] == p[3];
    assert Join(p[3..], AT) == p[3] + AT + p[4];
    assert Join(p[2..], AT) == p[2] + AT + Join(p[3..], AT);
    assert Join(p[1..], AT) == p[1] + AT + Join(p[2..], AT);
  }

  lemma DecimalHasNoAt(n: int)
    ensures '@' !in Decimal(n)
  {
    ParseNatOfDecimal(if n < 0 then -n else n);
  }

  lemma SplitToString(k: CacheEngineKey)
    requires AtFree(k)
    ensures Split(ToString(k), AT) == FieldsOf(k)
  {
    var p := FieldsOf(k);
    DecimalHasNoAt(k.worldSize);
    DecimalHasNoAt(k.workerId);
    forall i | 0 <= i < 5
      ensures Free(p[i], AT) && (i < 4 ==> Find(p[i] + AT, AT, 0) == Some(|p[i]|))
    {
      FreeOfAt(p[i]);
      BorderlessFound(p[i], AT);
    }
    ToStringJoins(k);
    SplitUndoesJoinIff(p, AT);
  }

  /** A parsed key holds no separator, and its own text is no longer than what was parsed. */
  lemma ParsedKey(s: string)
    requires FromString(s).Ok?
    ensures AtFree(FromString(s).value)
    ensures |ToString(FromString(s).value)| <= |s|
  {
    var p, k := Split(s, AT), FromString(s).value;
    PartsAreFree(s, AT);
    FreeOfAt(p[0]);
    FreeOfAt(p[1]);
    FreeOfAt(p[4]);
    DecimalShortest(p[2]);
    DecimalShortest(p[3]);
    JoinUndoesSplit(s, AT);
    assert |Join(p, AT)| == |p[0]| + |p[1]| + |p[2]| + |p[3]| + |p[4]| + 4 by {
      JoinOfFive(p);
    }
  }

  lemma JoinOfFive(p: seq<string>)
    requires |p| == 5
    ensures |Join(p, AT)| == |p[0]| + |p[1]| + |p[2]| + |p[3]| + |p[4]| + 4
  {
    assert p[1..][1..] == p[2..] && p[2..][1..] == p[3..] && p[3..][1..] == p[4..];
    assert p[1..][0] == p[1] && p[2..][0] == p[2] && p[3..][0] == p[3] && p[4..] == [p[4]];
    assert |Join(p[3..], AT)| == |p[3]| + |p[4]| + 1;
    assert |Join(p[2..], AT)| == |p[2]| + 1 + |Join(p[3..], AT)|;
  }

  /** A key survives its text form exactly when no string field holds the separator. */
  lemma KeyRoundTripIff(k: CacheEngineKey)
    ensures FromString(ToString(k)) == Ok(k) <==> AtFree(k)
  {
    if AtFree(k) {
      SplitToString(k);
      ParseIntOfDecimal(k.worldSize);
      ParseIntOfDecimal(k.workerId);
    }
    if FromString(ToString(k)) == Ok(k) {
      ParsedKey(ToString(k));
    }
  }

  // ---------- texts that identify their key ----------

  /** A text around one of its separators. */
  lemma Around(text: string, a: string, x: string)
    requires text == a + AT + x
    ensures |a| < |text| && text[|a|] == '@' && a == text[..|a|] && x == text[|a| + 1..]
    ensures '@' !in x ==> forall p :: |a| < p < |text| ==> text[p] != '@'
    ensures '@' !in a ==> forall p :: 0 <= p < |a| ==> text[p] != '@'
  {
    assert forall p :: |a| < p < |text| ==> text[p] == x[p - |a| - 1];
  }

  /** The last separator is where a separator-free end begins. */
  lemma SameEnd(a: string, x: string, b: string, y: string)
    requires '@' !in x && '@' !in y && a + AT + x == b + AT + y
    ensures a == b && x == y
  {
    var text := a + AT + x;
    Around(text, a, x);
    Around(text, b, y);
  }

  /** The first separator is where a separator-free start ends. */
  lemma SameStart(a: string, x: string, b: string, y: string)
    requires '@' !in a && '@' !in b && a + AT + x == b + AT + y
    ensures a == b && x == y
  {
    var text := a + AT + x;
    Around(text, a, x);
    Around(text, b, y);
  }

  lemma DecimalInjective(m: int, n: int)
    requires Decimal(m) == Decimal(n)
    ensures m == n
  {
    ParseIntOfDecimal(m);
    ParseIntOfDecimal(n);
  }

  /** A key's text identifies it when format and digest hold no separator, as those of the
      engine do; the model name may hold it. */
  lemma TextIdentifiesKey(a: CacheEngineKey, b: CacheEngineKey)
    requires '@' !in a.fmt && '@' !in b.fmt && '@' !in a.chunkHash && '@' !in b.chunkHash
    requires ToString(a) == ToString(b)
    ensures a == b
  {
    DecimalHasNoAt(a.worldSize);
    DecimalHasNoAt(b.worldSize);
    DecimalHasNoAt(a.workerId);
    DecimalHasNoAt(b.workerId);
    var names, names' := a.fmt + AT + a.modelName, b.fmt + AT + b.modelName;
    var sizes, sizes' := names + AT + Decimal(a.worldSize), names' + AT + Decimal(b.worldSize);
    SameEnd(sizes + AT + Decimal(a.workerId), a.chunkHash, sizes' + AT + Decimal(b.workerId), b.chunkHash);
    SameEnd(sizes, Decimal(a.workerId), sizes', Decimal(b.workerId));
    SameEnd(names, Decimal(a.worldSize), names', Decimal(b.worldSize));
    SameStart(a.fmt, a.modelName, b.fmt, b.modelName);
    DecimalInjective(a.worldSize, b.worldSize);
    DecimalInjective(a.workerId, b.workerId);
  }

  /** What `int` reads beyond plain digits: a sign, whitespace around, single underscores. */
  lemma ReadExamples()
    ensures ParseInt(" +1_0") == Some(10) && ParseInt("-07\n") == Some(-7)
  {
    assert TrimLeft(" +1_0", IsNumberSpace) == " +1_0"[1..] == "+1_0";
    assert Trim(" +1_0", IsNumberSpace) == "+1_0" && "+1_0"[1..] == "1_0" && "1_0"[..1] == "1";
    assert TrimRight("-07\n", IsNumberSpace) == "-07\n"[..3] == "-07";
    assert Trim("-07\n", IsNumberSpace) == "-07" && "-07"[1..] == "07" && "07"[..1] == "0";
  }

  /** And what it refuses. */
  lemma RefusedExamples()
    ensures ParseInt("1__0") == None && ParseInt("_1") == None && ParseInt("") == None && ParseInt("1-") == None
  {
    assert "1__0"[..2] == "1_" && "_1"[..0] == "";
  }

  /** What a key looks like as text. */
  lemma KeyText()
    ensures ToString(CacheEngineKey("vllm", "m", 12, -3, "af")) == "vllm@m@12@-3@af"
  {
    assert DecimalNat(1) == "1" && DecimalNat(3) == "3";
    assert DecimalNat(12) == DecimalNat(1) + "2";
  }

  /** The engine's keys: a format it accepts, and a hexadecimal digest. */
  predicate OfEngine(k: CacheEngineKey) {
    && (k.fmt == "vllm" || k.fmt == "huggingface")
    && forall i :: 0 <= i < |k.chunkHash| ==> IsDigit(k.chunkHash[i]) || 'a' <= k.chunkHash[i] <= 'f'
  }

  /** The engine's keys all have texts of their own, and come back from them exactly when the
      model name holds no separator. */
  lemma EngineKeys(a: CacheEngineKey, b: CacheEngineKey)
    requires OfEngine(a) && OfEngine(b)
    ensures ToString(a) == ToString(b) ==> a == b
    ensures FromString(ToString(a)) == Ok(a) <==> '@' !in a.modelName
  {
    if ToString(a) == ToString(b) {
      TextIdentifiesKey(a, b);
    }
    KeyRoundTripIff(a);
  }

  /** Beyond them, the format has to be free of the separator: a hypothetical format that holds
      it shares its text with another key. */
  lemma SeparatorsCollide()
    ensures exists a: CacheEngineKey, b: CacheEngineKey :: a != b && '@' in a.fmt && ToString(a) == ToString(b)
  {
    var a, b := CacheEngineKey("v@m", "x", 1, 0, "h"), CacheEngineKey("v", "m@x", 1, 0, "h");
    assert ToString(a) == "v@m@x@" + Decimal(1) + AT + Decimal(0) + AT + "h" == ToString(b);
    assert a.fmt[1] == '@';
  }

  /** Every text that parses can be rewritten in canonical form without changing its key. */
  lemma ReserializeStable(s: string)
    requires FromString(s).Ok?
    ensures FromString(ToString(FromString(s).value)) == FromString(s)
  {
    ParsedKey(s);
    KeyRoundTripIff(FromString(s).value);
  }
}
