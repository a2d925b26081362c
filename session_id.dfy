// SessionIDNum and SessionID (pkg/iam/pkg/iam/session__azgen.go). A SessionID is the
// terminal that holds the session together with the session's own id-num.
module SessionIds {
  import opened Wrappers
  import opened AzId
  import opened Strings
  import TerminalIds

  /** An int32 held as its bit pattern. */
  type SessionIDNum = bv32

  const IdentifierBitsMask: bv32 := 0x00FF_FFFF
  const NumZero: SessionIDNum := 0

  /** The session id-num embeds no fields. */
  const EmbeddedFieldsMask: bv32 := 0

  predicate NumIsZero(n: SessionIDNum)
  {
    n == NumZero
  }

  predicate NumIsStaticallyValid(n: SessionIDNum)
  {
    PositiveInt32(n) && n & IdentifierBitsMask != 0
  }

  lemma NumValidityExamples()
    ensures NumIsStaticallyValid(1) && NumIsStaticallyValid(0x00FF_FFFF)
    ensures !NumIsStaticallyValid(0) && !NumIsStaticallyValid(0x0100_0000)
    ensures !NumIsStaticallyValid(0x8000_0001)
  {
  }

  /** SessionIDNum.AZIDBinField: four big-endian bytes, typed Int32. */
  function NumAZIDBinField(n: SessionIDNum): (r: (seq<byte>, BinDataType))
    ensures |r.0| == 4 && r.1 == Int32
  {
    (BE32(n), Int32)
  }

  /** SessionIDNumFromAZIDBinField. */
  function NumFromAZIDBinField(b: seq<byte>, typeHint: BinDataType): (r: Outcome<Read<SessionIDNum>>)
    ensures typeHint != Unspecified && typeHint != Int32 ==>
      r == Returned(Read(NumZero, 0, Some(ArgMsg("typeHint", "unsupported"))))
    ensures typeHint == Unspecified || typeHint == Int32 ==>
      (r.Panic? <==> |b| < 4) && (r.Returned? ==> r.value.err.None? && r.value.readLen == 4)
  {
    if typeHint != Unspecified && typeHint != Int32 then
      Returned(Read(NumZero, 0, Some(ArgMsg("typeHint", "unsupported"))))
    else if |b| < 4 then Panic
    else Returned(Read(Uint32BE(b), 4, None))
  }

  lemma NumBinFieldRoundTrip(n: SessionIDNum, typeHint: BinDataType, rest: seq<byte>)
    requires typeHint == Unspecified || typeHint == Int32
    ensures NumFromAZIDBinField(NumAZIDBinField(n).0 + rest, typeHint) == Returned(Read(n, 4, None))
  {
    BE32RoundTrip(n, rest);
  }

  lemma NumBinFieldDecodeInverse(b: seq<byte>, typeHint: BinDataType)
    requires NumFromAZIDBinField(b, typeHint).Returned?
    requires NumFromAZIDBinField(b, typeHint).value.err.None?
    ensures NumAZIDBinField(NumFromAZIDBinField(b, typeHint).value.value).0 == b[..4]
  {
    Uint32BEInverse(b);
  }

  /** UnmarshalAZIDBinField of SessionIDNum: assigns only when decoding succeeds. */
  method NumUnmarshalAZIDBinField(r: Ref<SessionIDNum>, b: seq<byte>, typeHint: BinDataType)
    returns (readLen: int, err: Option<AzError>)
    requires NumFromAZIDBinField(b, typeHint).Returned?
    modifies r
    ensures var d := NumFromAZIDBinField(b, typeHint).value;
      readLen == d.readLen && err == d.err && r.value == (if err.None? then d.value else old(r.value))
  {
    var d := NumFromAZIDBinField(b, typeHint).value;
    readLen, err := d.readLen, d.err;
    if err.None? {
      r.value := d.value;
    }
  }

  /** The number of fields in the binary array form. */
  const FieldCount := 2

  datatype SessionID = SessionID(terminal: TerminalIds.TerminalID, idNum: SessionIDNum)
  {
    predicate IsZero()
    {
      terminal.IsZero() && NumIsZero(idNum)
    }

    predicate IsStaticallyValid()
    {
      terminal.IsStaticallyValid() && NumIsStaticallyValid(idNum)
    }

    predicate EqualsSessionID(other: SessionID)
    {
      terminal.EqualsTerminalID(other.terminal) && idNum == other.idNum
    }

    function IDNumPtr(): (r: Option<SessionIDNum>)
      ensures r.None? <==> !IsStaticallyValid()
      ensures r.Some? ==> r.value == idNum
    {
      if !IsStaticallyValid() then None else Some(idNum)
    }

    function TerminalPtr(): (r: Option<TerminalIds.TerminalID>)
      ensures r.None? <==> !terminal.IsStaticallyValid()
      ensures r.Some? ==> r.value == terminal
    {
      if terminal.IsStaticallyValid() then Some(terminal) else None
    }

    function WithTerminal(t: TerminalIds.TerminalID): (r: SessionID)
      ensures r.terminal == t && r.idNum == idNum
    {
      SessionID(t, idNum)
    }

    /** AZIDBinField: the count 2, the type bytes Array and Int32, the terminal's 24 bytes and the id-num's 4. */
    function AZIDBinField(): (r: (seq<byte>, BinDataType))
      ensures |r.0| == 31 && r.1 == Array
      ensures r.0[0] == 2 && r.0[1] == Byte(Array) && r.0[2] == Byte(Int32)
      ensures r.0[3..27] == terminal.AZIDBinField().0
      ensures r.0[27..] == NumAZIDBinField(idNum).0
    {
      var t := terminal.AZIDBinField().0;
      var n := NumAZIDBinField(idNum).0;
      ([2, Byte(Array), Byte(Int32)] + t + n, Array)
    }

    function AZIDBin(): (r: seq<byte>)
      ensures |r| == 32 && r[0] == Byte(Array) && r[1..] == AZIDBinField().0
    {
      [Byte(Array)] + AZIDBinField().0
    }

    function AZIDText(codec: TextCodec): (r: string)
      ensures !IsStaticallyValid() <==> r == ""
      ensures IsStaticallyValid() ==> HasPrefix(r, TextPrefix)
    {
      if !IsStaticallyValid() then "" else TextPrefix + codec.encode(AZIDBin())
    }

    function MarshalJSON(codec: TextCodec): (r: string)
      ensures |r| >= 2 && r[0] == '"' && r[|r| - 1] == '"' && r[1..|r| - 1] == AZIDText(codec)
    {
      "\"" + AZIDText(codec) + "\""
    }
  }

  const Zero: SessionID := SessionID(TerminalIds.Zero, NumZero)

  const TextPrefix: string := "KSe0"

  /** A session is valid only when its terminal is, and so only when the terminal has a user. */
  lemma ValidSessionHasUser(id: SessionID)
    requires id.IsStaticallyValid()
    ensures id.terminal.user.IsStaticallyValid() && id.terminal.application.IsStaticallyValid()
  {
  }

  /** The field form as the generated encoder builds it, field by field. */
  method EncodeAZIDBinField(id: SessionID) returns (out: seq<byte>, typ: BinDataType)
    ensures (out, typ) == id.AZIDBinField()
  {
    var typesBytes: seq<byte> := [];
    var dataBytes: seq<byte> := [];
    var fieldBytes, fieldType := id.terminal.AZIDBinField().0, id.terminal.AZIDBinField().1;
    typesBytes := typesBytes + [Byte(fieldType)];
    dataBytes := dataBytes + fieldBytes;
    fieldBytes, fieldType := NumAZIDBinField(id.idNum).0, NumAZIDBinField(id.idNum).1;
    typesBytes := typesBytes + [Byte(fieldType)];
    dataBytes := dataBytes + fieldBytes;
    EncoderSteps(id, typesBytes, dataBytes);
    out := [|typesBytes| as byte] + typesBytes + dataBytes;
    typ := Array;
  }

  /** The bytes the encoder has gathered once both fields are appended are the field form. */
  lemma EncoderSteps(id: SessionID, typesBytes: seq<byte>, dataBytes: seq<byte>)
    requires typesBytes == [] + [Byte(id.terminal.AZIDBinField().1)] + [Byte(NumAZIDBinField(id.idNum).1)]
    requires dataBytes == [] + id.terminal.AZIDBinField().0 + NumAZIDBinField(id.idNum).0
    ensures [|typesBytes| as byte] + typesBytes + dataBytes == id.AZIDBinField().0
  {
    var t, n := id.terminal.AZIDBinField().0, NumAZIDBinField(id.idNum).0;
    assert typesBytes == [Byte(Array), Byte(Int32)];
    assert dataBytes == t + n;
    assert id.AZIDBinField().0 == [2, Byte(Array), Byte(Int32)] + t + n;
  }

  function FieldErr(context: string, e: AzError): Outcome<Read<SessionID>>
  {
    Returned(Read(Zero, 0, Some(ArgWrap("", context, e))))
  }

  /** SessionIDFromAZIDBinField: the terminal field at index 3, then the id-num field. */
  function FromAZIDBinField(b: seq<byte>, typeHint: BinDataType): (r: Outcome<Read<SessionID>>)
    ensures typeHint != Array ==> r == Returned(Read(Zero, 0, Some(Arg("", EntMsg("type", "unsupported")))))
    ensures typeHint == Array && |b| == 0 ==> r.Panic?
    ensures typeHint == Array && |b| > 0 && b[0] != 2 ==>
      r == Returned(Read(Zero, 0, Some(Arg("", EntMsg("field count", "mismatch")))))
    ensures r.Returned? && r.value.err.Some? ==> r.value.value == Zero && r.value.readLen == 0
    ensures r.Returned? && r.value.err.None? ==> r.value.readLen == 31 && |b| >= 31
  {
    if typeHint != Array then Returned(Read(Zero, 0, Some(Arg("", EntMsg("type", "unsupported")))))
    else if |b| == 0 then Panic
    else if b[0] as int != FieldCount then Returned(Read(Zero, 0, Some(Arg("", EntMsg("field count", "mismatch")))))
    else if |b| < 2 then Panic
    else match BinDataTypeFromByte(b[1])
      case Err(e) => FieldErr("terminal ref-key type parsing", e)
      case Ok(t1) =>
        if |b| < 3 then Panic
        else match TerminalIds.FromAZIDBinField(b[3..], t1)
          case Panic => Panic
          case Returned(Read(_, _, Some(e))) => FieldErr("terminal ref-key data parsing", e)
          case Returned(Read(terminal, n1, None)) => DecodeIDNumField(b, terminal, 3 + n1)
  }

  /** The second field, the id-num, read at the data cursor; the type byte is at index 2. */
  function DecodeIDNumField(b: seq<byte>, terminal: TerminalIds.TerminalID, dataCursor: nat): (r: Outcome<Read<SessionID>>)
    requires 3 <= dataCursor <= |b|
    ensures r.Returned? && r.value.err.Some? ==> r.value.value == Zero && r.value.readLen == 0
    ensures r.Returned? && r.value.err.None? ==>
      r.value.readLen == dataCursor + 4 && |b| >= dataCursor + 4 && r.value.value.terminal == terminal
  {
    match BinDataTypeFromByte(b[2])
    case Err(e) => FieldErr("id-num type parsing", e)
    case Ok(t2) =>
      match NumFromAZIDBinField(b[dataCursor..], t2)
      case Panic => Panic
      case Returned(Read(_, _, Some(e))) => FieldErr("id-num data parsing", e)
      case Returned(Read(num, n2, None)) => Returned(Read(SessionID(terminal, num), dataCursor + n2, None))
  }

  /** The decoder as the generated code runs it, advancing a type cursor and a data cursor. */
  method DecodeAZIDBinField(b: seq<byte>, typeHint: BinDataType) returns (r: Outcome<Read<SessionID>>)
    ensures r == FromAZIDBinField(b, typeHint)
  {
    if typeHint != Array {
      return Returned(Read(Zero, 0, Some(Arg("", EntMsg("type", "unsupported")))));
    }
    if |b| == 0 {
      return Panic;
    }
    var arrayLen := b[0] as int;
    if arrayLen != FieldCount {
      return Returned(Read(Zero, 0, Some(Arg("", EntMsg("field count", "mismatch")))));
    }
    var typeCursor := 1;
    var dataCursor := typeCursor + arrayLen;
    if typeCursor >= |b| {
      return Panic;
    }
    var fieldType := BinDataTypeFromByte(b[typeCursor]);
    if fieldType.Err? {
      return FieldErr("terminal ref-key type parsing", fieldType.error);
    }
    typeCursor := typeCursor + 1;
    if dataCursor > |b| {
      return Panic;
    }
    var terminal := TerminalIds.DecodeAZIDBinField(b[dataCursor..], fieldType.value);
    match terminal
    case Panic => return Panic;
    case Returned(Read(_, _, Some(e))) => return FieldErr("terminal ref-key data parsing", e);
    case Returned(Read(terminalID, readLen, None)) =>
      dataCursor := dataCursor + readLen;
      fieldType := BinDataTypeFromByte(b[typeCursor]);
      if fieldType.Err? {
        return FieldErr("id-num type parsing", fieldType.error);
      }
      typeCursor := typeCursor + 1;
      var num := NumFromAZIDBinField(b[dataCursor..], fieldType.value);
      match num
      case Panic => return Panic;
      case Returned(Read(_, _, Some(e))) => return FieldErr("id-num data parsing", e);
      case Returned(Read(idNum, readLen, None)) =>
        dataCursor := dataCursor + readLen;
        return Returned(Read(SessionID(terminalID, idNum), dataCursor, None));
  }

  /** The field decoder reads back what the field encoder wrote, whatever follows it. */
  lemma BinFieldRoundTrip(id: SessionID, rest: seq<byte>)
    ensures FromAZIDBinField(id.AZIDBinField().0 + rest, Array) == Returned(Read(id, 31, None))
  {
    var t, n := id.terminal.AZIDBinField().0, NumAZIDBinField(id.idNum).0;
    var b := id.AZIDBinField().0 + rest;
    assert b[3..] == t + (n + rest);
    assert b[27..] == n + rest;
    BinDataTypeByteRoundTrip(Array);
    BinDataTypeByteRoundTrip(Int32);
    NumBinFieldRoundTrip(id.idNum, Int32, rest);
    assert DecodeIDNumField(b, id.terminal, 27) == Returned(Read(id, 31, None));
    TerminalIds.BinFieldRoundTrip(id.terminal, n + rest);
  }

  /**
   * A successful field decode read the count 2, a type row whose tags the decoders accept
   * (the terminal's tags as TerminalIds.BinFieldDecodeInverse states), and data bytes that
   * re-encode the decoded session exactly.
   */
  lemma BinFieldDecodeInverse(b: seq<byte>)
    requires FromAZIDBinField(b, Array).Returned?
    requires FromAZIDBinField(b, Array).value.err.None?
    ensures var id := FromAZIDBinField(b, Array).value.value;
      |b| >= 31 && b[0] == 2 && b[1] == Byte(Array) &&
      (b[2] == Byte(Int32) || b[2] == Byte(Unspecified)) &&
      b[3] == 3 && b[7..27] == id.AZIDBinField().0[7..27] && b[27..31] == id.AZIDBinField().0[27..] &&
      (b[4] == Byte(Int32) || b[4] == Byte(Unspecified)) &&
      (b[5] == Byte(Int64) || b[5] == Byte(Unspecified)) &&
      (b[6] == Byte(Int64) || b[6] == Byte(Unspecified))
  {
    var id := FromAZIDBinField(b, Array).value.value;
    FieldDecodeSteps(b);
    TerminalIds.BinFieldDecodeInverse(b[3..]);
    NumBinFieldDecodeInverse(b[27..], BinDataTypeFromByte(b[2]).value);
    assert b[3..][4..24] == b[7..27];
    assert id.terminal.AZIDBinField().0[4..] == id.AZIDBinField().0[7..27];
  }

  /** What a successful field decode read: the terminal at index 3 and the id-num at index 27. */
  lemma FieldDecodeSteps(b: seq<byte>)
    requires FromAZIDBinField(b, Array).Returned?
    requires FromAZIDBinField(b, Array).value.err.None?
    ensures |b| >= 31 && BinDataTypeFromByte(b[1]) == Ok(Array) && BinDataTypeFromByte(b[2]).Ok?
    ensures var id := FromAZIDBinField(b, Array).value.value;
      TerminalIds.FromAZIDBinField(b[3..], Array) == Returned(Read(id.terminal, 24, None)) &&
      NumFromAZIDBinField(b[27..], BinDataTypeFromByte(b[2]).value) == Returned(Read(id.idNum, 4, None))
  {
  }

  /** SessionIDFromAZIDBin: like the terminal's, it returns the field decoder's result with readLen + 1. */
  function FromAZIDBin(b: seq<byte>): (r: Outcome<Read<SessionID>>)
    ensures |b| == 0 ==> r.Panic?
    ensures |b| > 0 && BinDataTypeFromByte(b[0]).Err? ==>
      r == Returned(Read(Zero, 0, Some(ArgWrap("", "type parsing", BinDataTypeFromByte(b[0]).error))))
    ensures |b| > 0 && BinDataTypeFromByte(b[0]).Ok? && BinDataTypeFromByte(b[0]).value != Array ==>
      r == Returned(Read(Zero, 0, Some(Arg("", EntMsg("type", "unsupported")))))
    ensures |b| > 0 && b[0] == Byte(Array) ==>
      (r.Panic? <==> FromAZIDBinField(b[1..], Array).Panic?) &&
      (r.Returned? ==> var d := FromAZIDBinField(b[1..], Array).value;
        r.value == Read(d.value, d.readLen + 1, d.err))
  {
    if |b| == 0 then Panic
    else match BinDataTypeFromByte(b[0])
      case Err(e) => Returned(Read(Zero, 0, Some(ArgWrap("", "type parsing", e))))
      case Ok(typ) =>
        if typ != Array then Returned(Read(Zero, 0, Some(Arg("", EntMsg("type", "unsupported")))))
        else match FromAZIDBinField(b[1..], typ)
          case Panic => Panic
          case Returned(Read(id, n, err)) => Returned(Read(id, n + 1, err))
  }

  lemma BinRoundTrip(id: SessionID, rest: seq<byte>)
    ensures FromAZIDBin(id.AZIDBin() + rest) == Returned(Read(id, 32, None))
  {
    var b := id.AZIDBin() + rest;
    BinDataTypeByteRoundTrip(Array);
    assert b[1..] == id.AZIDBinField().0 + rest;
    BinFieldRoundTrip(id, rest);
  }

  /** SessionIDFromAZIDText. */
  function FromAZIDText(codec: TextCodec, s: string): (r: Outcome<Parsed<SessionID>>)
    ensures s == "" ==> r == Returned(Parsed(Zero, None))
    ensures s != "" && !HasPrefix(s, TextPrefix) ==>
      r == Returned(Parsed(Zero, Some(Arg("", EntMsg("prefix", "mismatch")))))
    ensures r.Returned? && r.value.err.Some? ==> r.value.value == Zero
  {
    if s == "" then Returned(Parsed(Zero, None))
    else if !HasPrefix(s, TextPrefix) then Returned(Parsed(Zero, Some(Arg("", EntMsg("prefix", "mismatch")))))
    else match codec.decode(TrimPrefix(s, TextPrefix))
      case None => Returned(Parsed(Zero, Some(ArgWrap("", "data parsing", TextDataInvalid))))
      case Some(b) =>
        match FromAZIDBin(b)
        case Panic => Panic
        case Returned(Read(_, _, Some(e))) => Returned(Parsed(Zero, Some(ArgWrap("", "data decoding", e))))
        case Returned(Read(id, _, None)) => Returned(Parsed(id, None))
  }

  lemma TextRoundTrip(codec: TextCodec, id: SessionID)
    requires Lawful(codec)
    ensures FromAZIDText(codec, id.AZIDText(codec)) ==
      Returned(Parsed(if id.IsStaticallyValid() then id else Zero, None))
  {
    if id.IsStaticallyValid() {
      var s := id.AZIDText(codec);
      assert TrimPrefix(s, TextPrefix) == codec.encode(id.AZIDBin());
      BinRoundTrip(id, []);
      assert id.AZIDBin() + [] == id.AZIDBin();
    }
  }

  function FromJSON(codec: TextCodec, b: string): (r: Outcome<Parsed<SessionID>>)
    ensures Trim(b, '"') == "" ==> r == Returned(Parsed(Zero, None))
  {
    var s := Trim(b, '"');
    if s == "" then Returned(Parsed(Zero, None)) else FromAZIDText(codec, s)
  }

  lemma JSONRoundTrip(codec: TextCodec, id: SessionID)
    requires Lawful(codec)
    ensures FromJSON(codec, id.MarshalJSON(codec)) ==
      Returned(Parsed(if id.IsStaticallyValid() then id else Zero, None))
  {
    var t := id.AZIDText(codec);
    if t != "" {
      var e := codec.encode(id.AZIDBin());
      assert t == TextPrefix + e;
      assert t[|t| - 1] != '"' by {
        if |e| > 0 { assert t[|t| - 1] == e[|e| - 1]; }
      }
    }
    TrimQuoted(t, '"');
    TextRoundTrip(codec, id);
  }

  method UnmarshalAZIDBinField(r: Ref<SessionID>, b: seq<byte>, typeHint: BinDataType)
    returns (readLen: int, err: Option<AzError>)
    requires FromAZIDBinField(b, typeHint).Returned?
    modifies r
    ensures var d := FromAZIDBinField(b, typeHint).value;
      readLen == d.readLen && err == d.err && r.value == (if err.None? then d.value else old(r.value))
  {
    var d := DecodeAZIDBinField(b, typeHint);
    readLen, err := d.value.readLen, d.value.err;
    if err.None? {
      r.value := d.value.value;
    }
  }

  method UnmarshalAZIDText(r: Ref<SessionID>, codec: TextCodec, s: string) returns (err: Option<AzError>)
    requires FromAZIDText(codec, s).Returned?
    modifies r
    ensures var p := FromAZIDText(codec, s).value;
      err == p.err && r.value == (if err.None? then p.value else old(r.value))
  {
    var p := FromAZIDText(codec, s).value;
    err := p.err;
    if err.None? {
      r.value := p.value;
    }
  }

  method UnmarshalJSON(r: Ref<SessionID>, codec: TextCodec, b: string) returns (err: Option<AzError>)
    requires FromJSON(codec, b).Returned?
    modifies r
    ensures var p := FromJSON(codec, b).value;
      err == p.err && r.value == (if err.None? then p.value else old(r.value))
  {
    var s := Trim(b, '"');
    if s == "" {
      r.value := Zero;
      return None;
    }
    err := UnmarshalAZIDText(r, codec, s);
  }
}
