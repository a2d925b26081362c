// ApplicationAccessKeyIDNum and ApplicationAccessKeyID (iam/pkg/iam/application_access_key__azgen.go).
// An access key is identified by the application it belongs to and its own id-num.
module ApplicationAccessKeyIds {
  import opened Wrappers
  import opened AzId
  import opened Strings
  import ApplicationIds

  /** An int64 held as its bit pattern. */
  type ApplicationAccessKeyIDNum = bv64

  const IdentifierBitsMask: bv64 := 0x00FF_FFFF_FFFF_FFFF
  const NumZero: ApplicationAccessKeyIDNum := 0

  /** The access-key id-num embeds no fields. */
  const EmbeddedFieldsMask: bv64 := 0

  predicate NumIsZero(n: ApplicationAccessKeyIDNum)
  {
    n == NumZero
  }

  predicate NumIsStaticallyValid(n: ApplicationAccessKeyIDNum)
  {
    PositiveInt64(n) && n & IdentifierBitsMask != 0
  }

  /** The top byte lies outside the identifier bits: a value that sets only it is invalid. */
  lemma NumValidityExamples()
    ensures NumIsStaticallyValid(1) && NumIsStaticallyValid(0x00FF_FFFF_FFFF_FFFF)
    ensures !NumIsStaticallyValid(0) && !NumIsStaticallyValid(0x0100_0000_0000_0000)
    ensures !NumIsStaticallyValid(0x8000_0000_0000_0001)
  {
  }

  /** ApplicationAccessKeyIDNum.AZIDBinField: eight big-endian bytes, typed Int64. */
  function NumAZIDBinField(n: ApplicationAccessKeyIDNum): (r: (seq<byte>, BinDataType))
    ensures |r.0| == 8 && r.1 == Int64
  {
    (BE64(n), Int64)
  }

  /** ApplicationAccessKeyIDNumFromAZIDBinField. */
  function NumFromAZIDBinField(b: seq<byte>, typeHint: BinDataType): (r: Outcome<Read<ApplicationAccessKeyIDNum>>)
    ensures typeHint != Unspecified && typeHint != Int64 ==>
      r == Returned(Read(NumZero, 0, Some(ArgMsg("typeHint", "unsupported"))))
    ensures typeHint == Unspecified || typeHint == Int64 ==>
      (r.Panic? <==> |b| < 8) && (r.Returned? ==> r.value.err.None? && r.value.readLen == 8)
  {
    if typeHint != Unspecified && typeHint != Int64 then
      Returned(Read(NumZero, 0, Some(ArgMsg("typeHint", "unsupported"))))
    else if |b| < 8 then Panic
    else Returned(Read(Uint64BE(b), 8, None))
  }

  lemma NumBinFieldRoundTrip(n: ApplicationAccessKeyIDNum, typeHint: BinDataType, rest: seq<byte>)
    requires typeHint == Unspecified || typeHint == Int64
    ensures NumFromAZIDBinField(NumAZIDBinField(n).0 + rest, typeHint) == Returned(Read(n, 8, None))
  {
    BE64RoundTrip(n, rest);
  }

  lemma NumBinFieldDecodeInverse(b: seq<byte>, typeHint: BinDataType)
    requires NumFromAZIDBinField(b, typeHint).Returned?
    requires NumFromAZIDBinField(b, typeHint).value.err.None?
    ensures NumAZIDBinField(NumFromAZIDBinField(b, typeHint).value.value).0 == b[..8]
  {
    Uint64BEInverse(b);
  }

  /** UnmarshalAZIDBinField of ApplicationAccessKeyIDNum: assigns only when decoding succeeds. */
  method NumUnmarshalAZIDBinField(r: Ref<ApplicationAccessKeyIDNum>, b: seq<byte>, typeHint: BinDataType)
    returns (readLen: int, err: Option<AzError>)
    requires NumFromAZIDBinField(b, typeHint).Returned?
    modifies r
    ensures var d := NumFromAZIDBinField(b, typeHint).value;
      readLen == d.readLen && err == d.err && r.value == (if err.None? then d.value else old(r.value))
  {
    var d := NumFromAZIDBinField(b, typeHint).value;
    readLen, err := d.readLen, d.err;
    if err.None? {
      r.value := d.value;
    }
  }

  /** The number of fields in the binary array form. */
  const FieldCount := 2

  datatype ApplicationAccessKeyID = ApplicationAccessKeyID(application: ApplicationIds.ApplicationID, idNum: ApplicationAccessKeyIDNum)
  {
    predicate IsZero()
    {
      application.IsZero() && NumIsZero(idNum)
    }

    predicate IsStaticallyValid()
    {
      application.IsStaticallyValid() && NumIsStaticallyValid(idNum)
    }

    predicate EqualsApplicationAccessKeyID(other: ApplicationAccessKeyID)
    {
      application.EqualsApplicationID(other.application) && idNum == other.idNum
    }

    function IDNumPtr(): (r: Option<ApplicationAccessKeyIDNum>)
      ensures r.None? <==> !IsStaticallyValid()
      ensures r.Some? ==> r.value == idNum
    {
      if !IsStaticallyValid() then None else Some(idNum)
    }

    function ApplicationPtr(): (r: Option<ApplicationIds.ApplicationID>)
      ensures r.None? <==> !application.IsStaticallyValid()
      ensures r.Some? ==> r.value == application
    {
      if application.IsStaticallyValid() then Some(application) else None
    }

    function WithApplication(t: ApplicationIds.ApplicationID): (r: ApplicationAccessKeyID)
      ensures r.application == t && r.idNum == idNum
    {
      ApplicationAccessKeyID(t, idNum)
    }

    /** AZIDBinField: the count 2, the type bytes Int32 and Int64, the application's 4 bytes and the id-num's 8. */
    function AZIDBinField(): (r: (seq<byte>, BinDataType))
      ensures |r.0| == 15 && r.1 == Array
      ensures r.0[0] == 2 && r.0[1] == Byte(Int32) && r.0[2] == Byte(Int64)
      ensures r.0[3..7] == application.AZIDBinField().0
      ensures r.0[7..] == NumAZIDBinField(idNum).0
    {
      var t := application.AZIDBinField().0;
      var n := NumAZIDBinField(idNum).0;
      ([2, Byte(Int32), Byte(Int64)] + t + n, Array)
    }

    function AZIDBin(): (r: seq<byte>)
      ensures |r| == 16 && r[0] == Byte(Array) && r[1..] == AZIDBinField().0
    {
      [Byte(Array)] + AZIDBinField().0
    }

    function AZIDText(codec: TextCodec): (r: string)
      ensures !IsStaticallyValid() <==> r == ""
      ensures IsStaticallyValid() ==> HasPrefix(r, TextPrefix)
    {
      if !IsStaticallyValid() then "" else TextPrefix + codec.encode(AZIDBin())
    }

    function MarshalJSON(codec: TextCodec): (r: string)
      ensures |r| >= 2 && r[0] == '"' && r[|r| - 1] == '"' && r[1..|r| - 1] == AZIDText(codec)
    {
      "\"" + AZIDText(codec) + "\""
    }
  }

  const Zero: ApplicationAccessKeyID := ApplicationAccessKeyID(ApplicationIds.Zero, NumZero)

  const TextPrefix: string := "KAK0"

  /** The field form as the generated encoder builds it, field by field. */
  method EncodeAZIDBinField(id: ApplicationAccessKeyID) returns (out: seq<byte>, typ: BinDataType)
    ensures (out, typ) == id.AZIDBinField()
  {
    var typesBytes: seq<byte> := [];
    var dataBytes: seq<byte> := [];
    var fieldBytes, fieldType := id.application.AZIDBinField().0, id.application.AZIDBinField().1;
    typesBytes := typesBytes + [Byte(fieldType)];
    dataBytes := dataBytes + fieldBytes;
    fieldBytes, fieldType := NumAZIDBinField(id.idNum).0, NumAZIDBinField(id.idNum).1;
    typesBytes := typesBytes + [Byte(fieldType)];
    dataBytes := dataBytes + fieldBytes;
    EncoderSteps(id, typesBytes, dataBytes);
    out := [|typesBytes| as byte] + typesBytes + dataBytes;
    typ := Array;
  }

  /** The bytes the encoder has gathered once both fields are appended are the field form. */
  lemma EncoderSteps(id: ApplicationAccessKeyID, typesBytes: seq<byte>, dataBytes: seq<byte>)
    requires typesBytes == [] + [Byte(id.application.AZIDBinField().1)] + [Byte(NumAZIDBinField(id.idNum).1)]
    requires dataBytes == [] + id.application.AZIDBinField().0 + NumAZIDBinField(id.idNum).0
    ensures [|typesBytes| as byte] + typesBytes + dataBytes == id.AZIDBinField().0
  {
    assert typesBytes == [Byte(Int32), Byte(Int64)];
    assert dataBytes == id.AZIDBinField().0[3..];
  }

  function FieldErr(context: string, e: AzError): Outcome<Read<ApplicationAccessKeyID>>
  {
    Returned(Read(Zero, 0, Some(ArgWrap("", context, e))))
  }

  /**
   * A successful field decode read the count 2, type tags the decoders accept (canonical or
   * Unspecified), and data bytes that re-encode the decoded key id exactly.
   */
  lemma BinFieldDecodeInverse(b: seq<byte>)
    requires FromAZIDBinField(b, Array).Returned?
    requires FromAZIDBinField(b, Array).value.err.None?
    ensures var id := FromAZIDBinField(b, Array).value.value;
      |b| >= 15 && b[0] == 2 && b[3..15] == id.AZIDBinField().0[3..] &&
      (b[1] == Byte(Int32) || b[1] == Byte(Unspecified)) &&
      (b[2] == Byte(Int64) || b[2] == Byte(Unspecified))
  {
    var id := FromAZIDBinField(b, Array).value.value;
    var t1, t2 := BinDataTypeFromByte(b[1]).value, BinDataTypeFromByte(b[2]).value;
    ApplicationIds.NumBinFieldDecodeInverse(b[3..], t1);
    NumBinFieldDecodeInverse(b[7..], t2);
    assert b[3..15] == b[3..][..4] + b[7..][..8];
  }

  /** ApplicationAccessKeyIDFromAZIDBinField: the application field at index 3, then the id-num field. */
  function FromAZIDBinField(b: seq<byte>, typeHint: BinDataType): (r: Outcome<Read<ApplicationAccessKeyID>>)
    ensures typeHint != Array ==> r == Returned(Read(Zero, 0, Some(Arg("", EntMsg("type", "unsupported")))))
    ensures typeHint == Array && |b| == 0 ==> r.Panic?
    ensures typeHint == Array && |b| > 0 && b[0] != 2 ==>
      r == Returned(Read(Zero, 0, Some(Arg("", EntMsg("field count", "mismatch")))))
    ensures r.Returned? && r.value.err.Some? ==> r.value.value == Zero && r.value.readLen == 0
    ensures r.Returned? && r.value.err.None? ==> r.value.readLen == 15 && |b| >= 15
  {
    if typeHint != Array then Returned(Read(Zero, 0, Some(Arg("", EntMsg("type", "unsupported")))))
    else if |b| == 0 then Panic
    else if b[0] as int != FieldCount then Returned(Read(Zero, 0, Some(Arg("", EntMsg("field count", "mismatch")))))
    else if |b| < 2 then Panic
    else match BinDataTypeFromByte(b[1])
      case Err(e) => FieldErr("application ref-key type parsing", e)
      case Ok(t1) =>
        if |b| < 3 then Panic
        else match ApplicationIds.FromAZIDBinField(b[3..], t1)
          case Panic => Panic
          case Returned(Read(_, _, Some(e))) => FieldErr("application ref-key data parsing", e)
          case Returned(Read(application, n1, None)) => DecodeIDNumField(b, application, 3 + n1)
  }

  /** The second field, the id-num, read at the data cursor; the type byte is at index 2. */
  function DecodeIDNumField(b: seq<byte>, application: ApplicationIds.ApplicationID, dataCursor: nat): (r: Outcome<Read<ApplicationAccessKeyID>>)
    requires 3 <= dataCursor <= |b|
    ensures r.Returned? && r.value.err.Some? ==> r.value.value == Zero && r.value.readLen == 0
    ensures r.Returned? && r.value.err.None? ==>
      r.value.readLen == dataCursor + 8 && |b| >= dataCursor + 8 && r.value.value.application == application
  {
    match BinDataTypeFromByte(b[2])
    case Err(e) => FieldErr("id-num type parsing", e)
    case Ok(t2) =>
      match NumFromAZIDBinField(b[dataCursor..], t2)
      case Panic => Panic
      case Returned(Read(_, _, Some(e))) => FieldErr("id-num data parsing", e)
      case Returned(Read(num, n2, None)) => Returned(Read(ApplicationAccessKeyID(application, num), dataCursor + n2, None))
  }

  /** The decoder as the generated code runs it, advancing a type cursor and a data cursor. */
  method DecodeAZIDBinField(b: seq<byte>, typeHint: BinDataType) returns (r: Outcome<Read<ApplicationAccessKeyID>>)
    ensures r == FromAZIDBinField(b, typeHint)
  {
    if typeHint != Array {
      return Returned(Read(Zero, 0, Some(Arg("", EntMsg("type", "unsupported")))));
    }
    if |b| == 0 {
      return Panic;
    }
    var arrayLen := b[0] as int;
    if arrayLen != FieldCount {
      return Returned(Read(Zero, 0, Some(Arg("", EntMsg("field count", "mismatch")))));
    }
    var typeCursor := 1;
    var dataCursor := typeCursor + arrayLen;
    if typeCursor >= |b| {
      return Panic;
    }
    var fieldType := BinDataTypeFromByte(b[typeCursor]);
    if fieldType.Err? {
      return FieldErr("application ref-key type parsing", fieldType.error);
    }
    typeCursor := typeCursor + 1;
    if dataCursor > |b| {
      return Panic;
    }
    var application := ApplicationIds.FromAZIDBinField(b[dataCursor..], fieldType.value);
    match application
    case Panic => return Panic;
    case Returned(Read(_, _, Some(e))) => return FieldErr("application ref-key data parsing", e);
    case Returned(Read(applicationID, readLen, None)) =>
      dataCursor := dataCursor + readLen;
      fieldType := BinDataTypeFromByte(b[typeCursor]);
      if fieldType.Err? {
        return FieldErr("id-num type parsing", fieldType.error);
      }
      typeCursor := typeCursor + 1;
      var num := NumFromAZIDBinField(b[dataCursor..], fieldType.value);
      match num
      case Panic => return Panic;
      case Returned(Read(_, _, Some(e))) => return FieldErr("id-num data parsing", e);
      case Returned(Read(idNum, readLen, None)) =>
        dataCursor := dataCursor + readLen;
        return Returned(Read(ApplicationAccessKeyID(applicationID, idNum), dataCursor, None));
  }

  /** The field decoder reads back what the field encoder wrote, whatever follows it. */
  lemma BinFieldRoundTrip(id: ApplicationAccessKeyID, rest: seq<byte>)
    ensures FromAZIDBinField(id.AZIDBinField().0 + rest, Array) == Returned(Read(id, 15, None))
  {
    var t, n := id.application.AZIDBinField().0, NumAZIDBinField(id.idNum).0;
    var b := id.AZIDBinField().0 + rest;
    assert b[3..] == t + (n + rest);
    assert b[7..] == n + rest;
    BinDataTypeByteRoundTrip(Int32);
    BinDataTypeByteRoundTrip(Int64);
    NumBinFieldRoundTrip(id.idNum, Int64, rest);
    assert DecodeIDNumField(b, id.application, 7) == Returned(Read(id, 15, None));
    ApplicationIds.BinFieldRoundTrip(id.application, Int32, n + rest);
  }

  /** ApplicationAccessKeyIDFromAZIDBin: like the terminal's, it returns the field decoder's result with readLen + 1. */
  function FromAZIDBin(b: seq<byte>): (r: Outcome<Read<ApplicationAccessKeyID>>)
    ensures |b| == 0 ==> r.Panic?
    ensures |b| > 0 && BinDataTypeFromByte(b[0]).Err? ==>
      r == Returned(Read(Zero, 0, Some(ArgWrap("", "type parsing", BinDataTypeFromByte(b[0]).error))))
    ensures |b| > 0 && BinDataTypeFromByte(b[0]).Ok? && BinDataTypeFromByte(b[0]).value != Array ==>
      r == Returned(Read(Zero, 0, Some(Arg("", EntMsg("type", "unsupported")))))
    ensures |b| > 0 && b[0] == Byte(Array) ==>
      (r.Panic? <==> FromAZIDBinField(b[1..], Array).Panic?) &&
      (r.Returned? ==> var d := FromAZIDBinField(b[1..], Array).value;
        r.value == Read(d.value, d.readLen + 1, d.err))
  {
    if |b| == 0 then Panic
    else match BinDataTypeFromByte(b[0])
      case Err(e) => Returned(Read(Zero, 0, Some(ArgWrap("", "type parsing", e))))
      case Ok(typ) =>
        if typ != Array then Returned(Read(Zero, 0, Some(Arg("", EntMsg("type", "unsupported")))))
        else match FromAZIDBinField(b[1..], typ)
          case Panic => Panic
          case Returned(Read(id, n, err)) => Returned(Read(id, n + 1, err))
  }

  lemma BinRoundTrip(id: ApplicationAccessKeyID, rest: seq<byte>)
    ensures FromAZIDBin(id.AZIDBin() + rest) == Returned(Read(id, 16, None))
  {
    var b := id.AZIDBin() + rest;
    BinDataTypeByteRoundTrip(Array);
    assert b[1..] == id.AZIDBinField().0 + rest;
    BinFieldRoundTrip(id, rest);
  }

  /** ApplicationAccessKeyIDFromAZIDText. */
  function FromAZIDText(codec: TextCodec, s: string): (r: Outcome<Parsed<ApplicationAccessKeyID>>)
    ensures s == "" ==> r == Returned(Parsed(Zero, None))
    ensures s != "" && !HasPrefix(s, TextPrefix) ==>
      r == Returned(Parsed(Zero, Some(Arg("", EntMsg("prefix", "mismatch")))))
    ensures r.Returned? && r.value.err.Some? ==> r.value.value == Zero
  {
    if s == "" then Returned(Parsed(Zero, None))
    else if !HasPrefix(s, TextPrefix) then Returned(Parsed(Zero, Some(Arg("", EntMsg("prefix", "mismatch")))))
    else match codec.decode(TrimPrefix(s, TextPrefix))
      case None => Returned(Parsed(Zero, Some(ArgWrap("", "data parsing", TextDataInvalid))))
      case Some(b) =>
        match FromAZIDBin(b)
        case Panic => Panic
        case Returned(Read(_, _, Some(e))) => Returned(Parsed(Zero, Some(ArgWrap("", "data decoding", e))))
        case Returned(Read(id, _, None)) => Returned(Parsed(id, None))
  }

  lemma TextRoundTrip(codec: TextCodec, id: ApplicationAccessKeyID)
    requires Lawful(codec)
    ensures FromAZIDText(codec, id.AZIDText(codec)) ==
      Returned(Parsed(if id.IsStaticallyValid() then id else Zero, None))
  {
    if id.IsStaticallyValid() {
      var s := id.AZIDText(codec);
      assert TrimPrefix(s, TextPrefix) == codec.encode(id.AZIDBin());
      BinRoundTrip(id, []);
      assert id.AZIDBin() + [] == id.AZIDBin();
    }
  }

  function FromJSON(codec: TextCodec, b: string): (r: Outcome<Parsed<ApplicationAccessKeyID>>)
    ensures Trim(b, '"') == "" ==> r == Returned(Parsed(Zero, None))
  {
    var s := Trim(b, '"');
    if s == "" then Returned(Parsed(Zero, None)) else FromAZIDText(codec, s)
  }

  lemma JSONRoundTrip(codec: TextCodec, id: ApplicationAccessKeyID)
    requires Lawful(codec)
    ensures FromJSON(codec, id.MarshalJSON(codec)) ==
      Returned(Parsed(if id.IsStaticallyValid() then id else Zero, None))
  {
    var t := id.AZIDText(codec);
    if t != "" {
      var e := codec.encode(id.AZIDBin());
      assert t == TextPrefix + e;
      assert t[|t| - 1] != '"' by {
        if |e| > 0 { assert t[|t| - 1] == e[|e| - 1]; }
      }
    }
    TrimQuoted(t, '"');
    TextRoundTrip(codec, id);
  }

  method UnmarshalAZIDBinField(r: Ref<ApplicationAccessKeyID>, b: seq<byte>, typeHint: BinDataType)
    returns (readLen: int, err: Option<AzError>)
    requires FromAZIDBinField(b, typeHint).Returned?
    modifies r
    ensures var d := FromAZIDBinField(b, typeHint).value;
      readLen == d.readLen && err == d.err && r.value == (if err.None? then d.value else old(r.value))
  {
    var d := DecodeAZIDBinField(b, typeHint);
    readLen, err := d.value.readLen, d.value.err;
    if err.None? {
      r.value := d.value.value;
    }
  }

  method UnmarshalAZIDText(r: Ref<ApplicationAccessKeyID>, codec: TextCodec, s: string) returns (err: Option<AzError>)
    requires FromAZIDText(codec, s).Returned?
    modifies r
    ensures var p := FromAZIDText(codec, s).value;
      err == p.err && r.value == (if err.None? then p.value else old(r.value))
  {
    var p := FromAZIDText(codec, s).value;
    err := p.err;
    if err.None? {
      r.value := p.value;
    }
  }

  method UnmarshalJSON(r: Ref<ApplicationAccessKeyID>, codec: TextCodec, b: string) returns (err: Option<AzError>)
    requires FromJSON(codec, b).Returned?
    modifies r
    ensures var p := FromJSON(codec, b).value;
      err == p.err && r.value == (if err.None? then p.value else old(r.value))
  {
    var s := Trim(b, '"');
    if s == "" {
      r.value := Zero;
      return None;
    }
    err := UnmarshalAZIDText(r, codec, s);
  }
}
