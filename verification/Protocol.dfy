/** The fixed-size control messages between a cache connector and its server. */
module Protocol {
  import opened Wrappers
  import opened CacheKeys
  import opened Strings
  import opened Utf8
  import KeyCodec

  const MAX_KEY_LENGTH: nat := 150

  datatype WireError = AssertionError | StructError | UnicodeDecodeError

  // ---------- 32-bit fields, little-endian ----------

  predicate IsInt32(n: int) {
    -0x8000_0000 <= n < 0x8000_0000
  }

  function PackInt(n: int): (bytes: seq<byte>)
    requires IsInt32(n)
    ensures |bytes| == 4
  {
    var u := n % 0x1_0000_0000;
    [u % 0x100, u / 0x100 % 0x100, u / 0x1_0000 % 0x100, u / 0x100_0000]
  }

  function Unsigned(bytes: seq<byte>): int
    requires |bytes| == 4
  {
    bytes[0] as int + 0x100 * (bytes[1] as int) + 0x1_0000 * (bytes[2] as int) + 0x100_0000 * (bytes[3] as int)
  }

  function UnpackInt(bytes: seq<byte>): (n: int)
    requires |bytes| == 4
    ensures IsInt32(n)
  {
    var u := Unsigned(bytes);
    if u < 0x8000_0000 then u else u - 0x1_0000_0000
  }

  lemma UnpackUndoesPack(n: int)
    requires IsInt32(n)
    ensures UnpackInt(PackInt(n)) == n
  {
    var u := n % 0x1_0000_0000;
    assert u / 0x1_0000 == u / 0x100 / 0x100 && u / 0x100_0000 == u / 0x1_0000 / 0x100;
  }

  lemma PackUndoesUnpack(bytes: seq<byte>)
    requires |bytes| == 4
    ensures PackInt(UnpackInt(bytes)) == bytes
  {
    var u := Unsigned(bytes);
    assert UnpackInt(bytes) % 0x1_0000_0000 == u;
    assert u / 0x100_0000 == bytes[3] as int;
    assert u / 0x1_0000 == bytes[2] as int + 0x100 * (bytes[3] as int);
    assert u / 0x100 == bytes[1] as int + 0x100 * (u / 0x1_0000);
  }

  // ---------- server messages ----------

  datatype ServerMetaMessage = ServerMetaMessage(code: int, length: int)

  function SerializeServer(m: ServerMetaMessage): Result<seq<byte>, WireError> {
    if !IsInt32(m.code) || !IsInt32(m.length) then Err(StructError)
    else Ok(PackInt(m.code) + PackInt(m.length))
  }

  function DeserializeServer(s: seq<byte>): Result<ServerMetaMessage, WireError> {
    if |s| != 8 then Err(StructError)
    else Ok(ServerMetaMessage(UnpackInt(s[..4]), UnpackInt(s[4..])))
  }

  /** Messages with 32-bit fields and 8-byte frames stand for one another, one to one. */
  lemma ServerFramesIff(m: ServerMetaMessage, s: seq<byte>)
    ensures SerializeServer(m) == Ok(s) <==> DeserializeServer(s) == Ok(m)
  {
    if SerializeServer(m) == Ok(s) {
      UnpackUndoesPack(m.code);
      UnpackUndoesPack(m.length);
      assert s[..4] == PackInt(m.code) && s[4..] == PackInt(m.length);
    }
    if DeserializeServer(s) == Ok(m) {
      PackUndoesUnpack(s[..4]);
      PackUndoesUnpack(s[4..]);
      assert s == s[..4] + s[4..];
    }
  }

  // ---------- client messages ----------

  datatype ClientMetaMessage = ClientMetaMessage(command: int, key: string, length: int)

  /** `bytes.ljust(size)` */
  function PadRight(bytes: seq<byte>, size: nat): seq<byte> {
    bytes + seq(if |bytes| < size then size - |bytes| else 0, _ => 0x20)
  }

  /** A key in its field: padded with spaces, then cut to the field's size. */
  function KeyField(key: string): (field: seq<byte>)
    ensures |field| == MAX_KEY_LENGTH
  {
    PadRight(Encode(key), MAX_KEY_LENGTH)[..MAX_KEY_LENGTH]
  }

  function Serialize(m: ClientMetaMessage): Result<seq<byte>, WireError> {
    if |m.key| > MAX_KEY_LENGTH then Err(AssertionError)
    else if !IsInt32(m.command) || !IsInt32(m.length) then Err(StructError)
    else Ok(PackInt(m.command) + PackInt(m.length) + KeyField(m.key))
  }

  function Deserialize(s: seq<byte>): Result<ClientMetaMessage, WireError> {
    if |s| != 8 + MAX_KEY_LENGTH then Err(StructError)
    else
      match Decode(s[8..])
      case None => Err(UnicodeDecodeError)
      case Some(text) => Ok(ClientMetaMessage(UnpackInt(s[..4]), Strip(text), UnpackInt(s[4..8])))
  }

  predicate Serializable(m: ClientMetaMessage) {
    |m.key| <= MAX_KEY_LENGTH && IsInt32(m.command) && IsInt32(m.length)
  }

  lemma {:induction false} EncodeSpaces(n: nat)
    ensures Encode(Spaces(n)) == seq(n, _ => 0x20)
  {
    if n > 0 {
      assert Spaces(n)[1..] == Spaces(n - 1);
      EncodeSpaces(n - 1);
    }
  }

  lemma {:induction false} EncodeConcat(a: string, b: string)
    ensures Encode(a + b) == Encode(a) + Encode(b)
  {
    if a == "" {
      assert a + b == b;
    } else {
      assert (a + b)[1..] == a[1..] + b;
      EncodeConcat(a[1..], b);
    }
  }

  /** A key that fits its field decodes to itself, padded. */
  lemma FieldOfFitting(key: string)
    requires |Encode(key)| <= MAX_KEY_LENGTH
    ensures Decode(KeyField(key)) == Some(key + Spaces(MAX_KEY_LENGTH - |Encode(key)|))
  {
    var n := MAX_KEY_LENGTH - |Encode(key)|;
    EncodeConcat(key, Spaces(n));
    EncodeSpaces(n);
    assert KeyField(key) == Encode(key + Spaces(n));
    DecodeUndoesEncode(key + Spaces(n));
  }

  /** A key that does not fit decodes, if at all, to a strictly shorter prefix of itself. */
  lemma FieldOfOverlong(key: string)
    requires |Encode(key)| > MAX_KEY_LENGTH && Decode(KeyField(key)).Some?
    ensures Decode(KeyField(key)).value < key
  {
    var text := Decode(KeyField(key)).value;
    EncodeUndoesDecode(KeyField(key));
    assert KeyField(key) == Encode(key)[..MAX_KEY_LENGTH];
    PrefixOfEncoding(text, key, Encode(key)[MAX_KEY_LENGTH..]);
    assert text == key[..|text|] && key[..|key|] == key;
  }

  /** What the server reads from a client's frame. */
  lemma Received(m: ClientMetaMessage)
    requires Serializable(m)
    ensures var r := Deserialize(Serialize(m).value);
            && (|Encode(m.key)| <= MAX_KEY_LENGTH ==> r == Ok(m.(key := Strip(m.key))))
            && (r.Ok? && |Encode(m.key)| > MAX_KEY_LENGTH ==> |r.value.key| < |m.key|)
            && (r.Ok? ==> r.value.command == m.command && r.value.length == m.length)
  {
    var s := Serialize(m).value;
    UnpackUndoesPack(m.command);
    UnpackUndoesPack(m.length);
    assert s[..4] == PackInt(m.command) && s[4..8] == PackInt(m.length) && s[8..] == KeyField(m.key);
    if |Encode(m.key)| <= MAX_KEY_LENGTH {
      FieldOfFitting(m.key);
      StripPadding(m.key, MAX_KEY_LENGTH - |Encode(m.key)|);
    } else if Decode(s[8..]).Some? {
      FieldOfOverlong(m.key);
      StripShrinks(Decode(s[8..]).value);
    }
  }

  predicate FitsTheField(key: string) {
    |Encode(key)| <= MAX_KEY_LENGTH && NoEdgeSpace(key)
  }

  /** A client message survives the wire exactly when its numbers are 32-bit and its key's
      bytes fit the field, with no whitespace at either end. */
  lemma ClientRoundTripIff(m: ClientMetaMessage)
    ensures Serialize(m).Ok? && Deserialize(Serialize(m).value) == Ok(m) <==>
            IsInt32(m.command) && IsInt32(m.length) && FitsTheField(m.key)
  {
    if Serializable(m) {
      Received(m);
      StripShrinks(m.key);
    }
  }

  /** What a frame looks like: command, length and key in this order, low bytes first, and blanks
      behind the key. */
  lemma FrameBytes(j: nat)
    requires 9 <= j < 8 + MAX_KEY_LENGTH
    ensures var s := Serialize(ClientMetaMessage(1, "k", -2)).value;
            && |s| == 8 + MAX_KEY_LENGTH && s[j] == 0x20
            && s[..9] == [1, 0, 0, 0, 0xFE, 0xFF, 0xFF, 0xFF, 0x6B]
    ensures SerializeServer(ServerMetaMessage(0x1234, 3)).value == [0x34, 0x12, 0, 0, 3, 0, 0, 0]
  {
    assert "k"[1..] == "";
    assert Encode("k") == [0x6B];
    assert PackInt(1) == [1, 0, 0, 0] && PackInt(-2) == [0xFE, 0xFF, 0xFF, 0xFF];
  }

  // ---------- cache keys on the wire ----------

  /** The key the server rebuilds from a frame. */
  function ReceivedKey(s: seq<byte>): Option<CacheEngineKey> {
    match Deserialize(s)
    case Err(_) => None
    case Ok(m) =>
      match KeyCodec.FromString(m.key)
      case Err(_) => None
      case Ok(k) => Some(k)
  }

  /** A cache key survives its text form and the wire exactly when the command and the length
      are 32-bit, no string field holds the separator, and its text fits the field, with no
      whitespace at either end: no parsed text is shorter than its key's own. */
  lemma KeySurvivesIff(k: CacheEngineKey, command: int, length: int)
    ensures var m := ClientMetaMessage(command, KeyCodec.ToString(k), length);
            Serialize(m).Ok? && ReceivedKey(Serialize(m).value) == Some(k) <==>
            IsInt32(command) && IsInt32(length) && KeyCodec.AtFree(k) && FitsTheField(KeyCodec.ToString(k))
  {
    var text := KeyCodec.ToString(k);
    var m := ClientMetaMessage(command, text, length);
    KeyCodec.KeyRoundTripIff(k);
    if Serializable(m) {
      Received(m);
      StripShrinks(text);
      var s := Serialize(m).value;
      if ReceivedKey(s) == Some(k) {
        KeyCodec.ParsedKey(Deserialize(s).value.key);
      }
    }
  }
}
