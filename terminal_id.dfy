// TerminalIDNum and TerminalID (iam/pkg/iam/terminal__azgen.go). A TerminalID is a
// composite key: the application, the user and the terminal's own id-num; its binary
// field form is an array of three typed fields.
module TerminalIds {
  import opened Wrappers
  import opened AzId
  import opened Strings
  import ApplicationIds
  import UserIds

  /** An int64 held as its bit pattern. */
  type TerminalIDNum = bv64

  const IdentifierBitsMask: bv64 := 0x00FF_FFFF_FFFF_FFFF
  const NumZero: TerminalIDNum := 0

  /** The terminal id-num embeds no fields. */
  const EmbeddedFieldsMask: bv64 := 0

  predicate NumIsZero(n: TerminalIDNum)
  {
    n == NumZero
  }

  predicate NumIsStaticallyValid(n: TerminalIDNum)
  {
    PositiveInt64(n) && n & IdentifierBitsMask != 0
  }

  /** The top byte lies outside the identifier bits: a value that sets only it is invalid. */
  lemma NumValidityExamples()
    ensures NumIsStaticallyValid(1) && NumIsStaticallyValid(0x00FF_FFFF_FFFF_FFFF)
    ensures !NumIsStaticallyValid(0) && !NumIsStaticallyValid(0x0100_0000_0000_0000)
    ensures !NumIsStaticallyValid(0x8000_0000_0000_0001)
  {
  }

  /** TerminalIDNum.AZIDBinField: eight big-endian bytes, typed Int64. */
  function NumAZIDBinField(n: TerminalIDNum): (r: (seq<byte>, BinDataType))
    ensures |r.0| == 8 && r.1 == Int64
  {
    (BE64(n), Int64)
  }

  /** TerminalIDNumFromAZIDBinField. */
  function NumFromAZIDBinField(b: seq<byte>, typeHint: BinDataType): (r: Outcome<Read<TerminalIDNum>>)
    ensures typeHint != Unspecified && typeHint != Int64 ==>
      r == Returned(Read(NumZero, 0, Some(ArgMsg("typeHint", "unsupported"))))
    ensures typeHint == Unspecified || typeHint == Int64 ==>
      (r.Panic? <==> |b| < 8) && (r.Returned? ==> r.value.err.None? && r.value.readLen == 8)
  {
    if typeHint != Unspecified && typeHint != Int64 then
      Returned(Read(NumZero, 0, Some(ArgMsg("typeHint", "unsupported"))))
    else if |b| < 8 then Panic
    else Returned(Read(Uint64BE(b), 8, None))
  }

  lemma NumBinFieldRoundTrip(n: TerminalIDNum, typeHint: BinDataType, rest: seq<byte>)
    requires typeHint == Unspecified || typeHint == Int64
    ensures NumFromAZIDBinField(NumAZIDBinField(n).0 + rest, typeHint) == Returned(Read(n, 8, None))
  {
    BE64RoundTrip(n, rest);
  }

  lemma NumBinFieldDecodeInverse(b: seq<byte>, typeHint: BinDataType)
    requires NumFromAZIDBinField(b, typeHint).Returned?
    requires NumFromAZIDBinField(b, typeHint).value.err.None?
    ensures NumAZIDBinField(NumFromAZIDBinField(b, typeHint).value.value).0 == b[..8]
  {
    Uint64BEInverse(b);
  }

  /** UnmarshalAZIDBinField of TerminalIDNum: assigns only when decoding succeeds. */
  method NumUnmarshalAZIDBinField(r: Ref<TerminalIDNum>, b: seq<byte>, typeHint: BinDataType)
    returns (readLen: int, err: Option<AzError>)
    requires NumFromAZIDBinField(b, typeHint).Returned?
    modifies r
    ensures var d := NumFromAZIDBinField(b, typeHint).value;
      readLen == d.readLen && err == d.err && r.value == (if err.None? then d.value else old(r.value))
  {
    var d := NumFromAZIDBinField(b, typeHint).value;
    readLen, err := d.readLen, d.err;
    if err.None? {
      r.value := d.value;
    }
  }

  /** The number of fields in the binary array form. */
  const FieldCount := 3

  datatype TerminalID = TerminalID(
    application: ApplicationIds.ApplicationID,
    user: UserIds.UserID,
    idNum: TerminalIDNum)
  {
    predicate IsZero()
    {
      application.IsZero() && user.IsZero() && NumIsZero(idNum)
    }

    /** Valid only when all three parts are: a terminal without a user is never valid. */
    predicate IsStaticallyValid()
    {
      application.IsStaticallyValid() && user.IsStaticallyValid() && NumIsStaticallyValid(idNum)
    }

    predicate EqualsTerminalID(other: TerminalID)
    {
      application.EqualsApplicationID(other.application) &&
      user.EqualsUserID(other.user) &&
      idNum == other.idNum
    }

    function IDNumPtr(): (r: Option<TerminalIDNum>)
      ensures r.None? <==> !IsStaticallyValid()
      ensures r.Some? ==> r.value == idNum
    {
      if !IsStaticallyValid() then None else Some(idNum)
    }

    function ApplicationPtr(): (r: Option<ApplicationIds.ApplicationID>)
      ensures r.None? <==> !application.IsStaticallyValid()
      ensures r.Some? ==> r.value == application
    {
      if application.IsStaticallyValid() then Some(application) else None
    }

    function WithApplication(a: ApplicationIds.ApplicationID): (r: TerminalID)
      ensures r.application == a && r.user == user && r.idNum == idNum
    {
      TerminalID(a, user, idNum)
    }

    function UserPtr(): (r: Option<UserIds.UserID>)
      ensures r.None? <==> !user.IsStaticallyValid()
      ensures r.Some? ==> r.value == user
    {
      if user.IsStaticallyValid() then Some(user) else None
    }

    function WithUser(u: UserIds.UserID): (r: TerminalID)
      ensures r.application == application && r.user == u && r.idNum == idNum
    {
      TerminalID(application, u, idNum)
    }

    /**
     * AZIDBinField: the field count, the three type bytes, then the application's
     * four bytes, the user's eight and the id-num's eight; typed Array.
     */
    function AZIDBinField(): (r: (seq<byte>, BinDataType))
      ensures |r.0| == 24 && r.1 == Array
      ensures r.0[0] == 3 && r.0[1] == Byte(Int32) && r.0[2] == Byte(Int64) && r.0[3] == Byte(Int64)
      ensures r.0[4..8] == application.AZIDBinField().0
      ensures r.0[8..16] == user.AZIDBinField().0
      ensures r.0[16..] == NumAZIDBinField(idNum).0
    {
      var a := application.AZIDBinField().0;
      var u := user.AZIDBinField().0;
      var n := NumAZIDBinField(idNum).0;
      ([3, Byte(Int32), Byte(Int64), Byte(Int64)] + a + u + n, Array)
    }

    /** AZIDBin: the Array type byte, then the field form. */
    function AZIDBin(): (r: seq<byte>)
      ensures |r| == 25 && r[0] == Byte(Array) && r[1..] == AZIDBinField().0
    {
      [Byte(Array)] + AZIDBinField().0
    }

    function AZIDText(codec: TextCodec): (r: string)
      ensures !IsStaticallyValid() <==> r == ""
      ensures IsStaticallyValid() ==> HasPrefix(r, TextPrefix)
    {
      if !IsStaticallyValid() then "" else TextPrefix + codec.encode(AZIDBin())
    }

    function MarshalJSON(codec: TextCodec): (r: string)
      ensures |r| >= 2 && r[0] == '"' && r[|r| - 1] == '"' && r[1..|r| - 1] == AZIDText(codec)
    {
      "\"" + AZIDText(codec) + "\""
    }
  }

  const Zero: TerminalID := TerminalID(ApplicationIds.Zero, UserIds.Zero, NumZero)

  const TextPrefix: string := "KTx0"

  /** NewTerminalID. */
  function NewTerminalID(a: ApplicationIds.ApplicationID, u: UserIds.UserID, n: TerminalIDNum): (r: TerminalID)
    ensures r.application == a && r.user == u && r.idNum == n
  {
    TerminalID(a, u, n)
  }

  /** A terminal registered for a service application carries the zero user and has no text form. */
  lemma ZeroUserHasNoText(id: TerminalID, codec: TextCodec)
    requires id.user.IsZero()
    ensures !id.IsStaticallyValid() && id.AZIDText(codec) == "" && id.IDNumPtr().None?
  {
    UserIds.NumTestVectors();
  }

  /** The field form as the generated encoder builds it: type bytes and data bytes appended field by field. */
  method EncodeAZIDBinField(id: TerminalID) returns (out: seq<byte>, typ: BinDataType)
    ensures (out, typ) == id.AZIDBinField()
  {
    var typesBytes: seq<byte> := [];
    var dataBytes: seq<byte> := [];
    var fieldBytes, fieldType := id.application.AZIDBinField().0, id.application.AZIDBinField().1;
    typesBytes := typesBytes + [Byte(fieldType)];
    dataBytes := dataBytes + fieldBytes;
    fieldBytes, fieldType := id.user.AZIDBinField().0, id.user.AZIDBinField().1;
    typesBytes := typesBytes + [Byte(fieldType)];
    dataBytes := dataBytes + fieldBytes;
    fieldBytes, fieldType := NumAZIDBinField(id.idNum).0, NumAZIDBinField(id.idNum).1;
    typesBytes := typesBytes + [Byte(fieldType)];
    dataBytes := dataBytes + fieldBytes;
    assert typesBytes == [Byte(Int32), Byte(Int64), Byte(Int64)];
    assert dataBytes == id.AZIDBinField().0[4..];
    out := [|typesBytes| as byte] + typesBytes + dataBytes;
    typ := Array;
    assert out == id.AZIDBinField().0;
  }

  function FieldErr(context: string, e: AzError): Outcome<Read<TerminalID>>
  {
    Returned(Read(Zero, 0, Some(ArgWrap("", context, e))))
  }

  /**
   * TerminalIDFromAZIDBinField. The type bytes follow the count byte and the data starts
   * after them; every failure returns the zero id with readLen 0, and reading past the end
   * of the input panics.
   */
  function FromAZIDBinField(b: seq<byte>, typeHint: BinDataType): (r: Outcome<Read<TerminalID>>)
    ensures typeHint != Array ==> r == Returned(Read(Zero, 0, Some(Arg("", EntMsg("type", "unsupported")))))
    ensures typeHint == Array && |b| == 0 ==> r.Panic?
    ensures typeHint == Array && |b| > 0 && b[0] != 3 ==>
      r == Returned(Read(Zero, 0, Some(Arg("", EntMsg("field count", "mismatch")))))
    ensures r.Returned? && r.value.err.Some? ==> r.value.value == Zero && r.value.readLen == 0
    ensures r.Returned? && r.value.err.None? ==> r.value.readLen == 24 && |b| >= 24
  {
    if typeHint != Array then Returned(Read(Zero, 0, Some(Arg("", EntMsg("type", "unsupported")))))
    else if |b| == 0 then Panic
    else if b[0] as int != FieldCount then Returned(Read(Zero, 0, Some(Arg("", EntMsg("field count", "mismatch")))))
    else if |b| < 2 then Panic
    else match BinDataTypeFromByte(b[1])
      case Err(e) => FieldErr("application ref-key type parsing", e)
      case Ok(t1) =>
        if |b| < 4 then Panic
        else match ApplicationIds.FromAZIDBinField(b[4..], t1)
          case Panic => Panic
          case Returned(Read(_, _, Some(e))) => FieldErr("application ref-key data parsing", e)
          case Returned(Read(app, n1, None)) => DecodeUserField(b, app, 4 + n1)
  }

  /** The second field, the user, read at the data cursor; the type byte is at index 2. */
  function DecodeUserField(b: seq<byte>, app: ApplicationIds.ApplicationID, dataCursor: nat): (r: Outcome<Read<TerminalID>>)
    requires 4 <= dataCursor <= |b|
    ensures r.Returned? && r.value.err.Some? ==> r.value.value == Zero && r.value.readLen == 0
    ensures r.Returned? && r.value.err.None? ==> r.value.readLen == dataCursor + 16 && |b| >= dataCursor + 16
  {
    match BinDataTypeFromByte(b[2])
    case Err(e) => FieldErr("user ref-key type parsing", e)
    case Ok(t2) =>
      match UserIds.FromAZIDBinField(b[dataCursor..], t2)
      case Panic => Panic
      case Returned(Read(_, _, Some(e))) => FieldErr("user ref-key data parsing", e)
      case Returned(Read(user, n2, None)) => DecodeIDNumField(b, app, user, dataCursor + n2)
  }

  /** The third field, the id-num, read at the data cursor; the type byte is at index 3. */
  function DecodeIDNumField(b: seq<byte>, app: ApplicationIds.ApplicationID, user: UserIds.UserID, dataCursor: nat)
    : (r: Outcome<Read<TerminalID>>)
    requires 4 <= dataCursor <= |b|
    ensures r.Returned? && r.value.err.Some? ==> r.value.value == Zero && r.value.readLen == 0
    ensures r.Returned? && r.value.err.None? ==>
      r.value.readLen == dataCursor + 8 && |b| >= dataCursor + 8 &&
      r.value.value.application == app && r.value.value.user == user
  {
    match BinDataTypeFromByte(b[3])
    case Err(e) => FieldErr("id-num type parsing", e)
    case Ok(t3) =>
      match NumFromAZIDBinField(b[dataCursor..], t3)
      case Panic => Panic
      case Returned(Read(_, _, Some(e))) => FieldErr("id-num data parsing", e)
      case Returned(Read(num, n3, None)) => Returned(Read(TerminalID(app, user, num), dataCursor + n3, None))
  }

  /** The decoder as the generated code runs it, advancing a type cursor and a data cursor. */
  method DecodeAZIDBinField(b: seq<byte>, typeHint: BinDataType) returns (r: Outcome<Read<TerminalID>>)
    ensures r == FromAZIDBinField(b, typeHint)
  {
    if typeHint != Array {
      return Returned(Read(Zero, 0, Some(Arg("", EntMsg("type", "unsupported")))));
    }
    if |b| == 0 {
      return Panic;
    }
    var arrayLen := b[0] as int;
    if arrayLen != FieldCount {
      return Returned(Read(Zero, 0, Some(Arg("", EntMsg("field count", "mismatch")))));
    }
    var typeCursor := 1;
    var dataCursor := typeCursor + arrayLen;
    if typeCursor >= |b| {
      return Panic;
    }
    var fieldType := BinDataTypeFromByte(b[typeCursor]);
    if fieldType.Err? {
      return FieldErr("application ref-key type parsing", fieldType.error);
    }
    typeCursor := typeCursor + 1;
    if dataCursor > |b| {
      return Panic;
    }
    var app := ApplicationIds.FromAZIDBinField(b[dataCursor..], fieldType.value);
    match app
    case Panic => return Panic;
    case Returned(Read(_, _, Some(e))) => return FieldErr("application ref-key data parsing", e);
    case Returned(Read(appID, readLen, None)) =>
      dataCursor := dataCursor + readLen;
      fieldType := BinDataTypeFromByte(b[typeCursor]);
      if fieldType.Err? {
        return FieldErr("user ref-key type parsing", fieldType.error);
      }
      typeCursor := typeCursor + 1;
      var user := UserIds.FromAZIDBinField(b[dataCursor..], fieldType.value);
      match user
      case Panic => return Panic;
      case Returned(Read(_, _, Some(e))) => return FieldErr("user ref-key data parsing", e);
      case Returned(Read(userID, readLen, None)) =>
        dataCursor := dataCursor + readLen;
        fieldType := BinDataTypeFromByte(b[typeCursor]);
        if fieldType.Err? {
          return FieldErr("id-num type parsing", fieldType.error);
        }
        typeCursor := typeCursor + 1;
        var num := NumFromAZIDBinField(b[dataCursor..], fieldType.value);
        match num
        case Panic => return Panic;
        case Returned(Read(_, _, Some(e))) => return FieldErr("id-num data parsing", e);
        case Returned(Read(idNum, readLen, None)) =>
          dataCursor := dataCursor + readLen;
          return Returned(Read(TerminalID(appID, userID, idNum), dataCursor, None));
  }

  lemma DecodeIDNumStage(b: seq<byte>, id: TerminalID, t3: BinDataType, rest: seq<byte>)
    requires t3 == Int64 || t3 == Unspecified
    requires |b| >= 16 && b[3] == Byte(t3) && b[16..] == NumAZIDBinField(id.idNum).0 + rest
    ensures DecodeIDNumField(b, id.application, id.user, 16) == Returned(Read(id, 24, None))
  {
    BinDataTypeByteRoundTrip(t3);
    NumBinFieldRoundTrip(id.idNum, t3, rest);
  }

  lemma DecodeUserStage(b: seq<byte>, id: TerminalID, t2: BinDataType, t3: BinDataType, rest: seq<byte>)
    requires t2 == Int64 || t2 == Unspecified
    requires t3 == Int64 || t3 == Unspecified
    requires |b| >= 8 && b[2] == Byte(t2) && b[3] == Byte(t3)
    requires b[8..] == id.user.AZIDBinField().0 + NumAZIDBinField(id.idNum).0 + rest
    ensures DecodeUserField(b, id.application, 8) == Returned(Read(id, 24, None))
  {
    var u, n := id.user.AZIDBinField().0, NumAZIDBinField(id.idNum).0;
    assert b[8..] == u + (n + rest);
    assert b[16..] == b[8..][8..];
    DecodeIDNumStage(b, id, t3, rest);
    BinDataTypeByteRoundTrip(t2);
    UserIds.BinFieldRoundTrip(id.user, t2, n + rest);
  }

  lemma DecodeApplicationStage(b: seq<byte>, id: TerminalID, t1: BinDataType, t2: BinDataType, t3: BinDataType, rest: seq<byte>)
    requires t1 == Int32 || t1 == Unspecified
    requires t2 == Int64 || t2 == Unspecified
    requires t3 == Int64 || t3 == Unspecified
    requires |b| >= 4 && b[0] == 3 && b[1] == Byte(t1) && b[2] == Byte(t2) && b[3] == Byte(t3)
    requires b[4..] == id.application.AZIDBinField().0 + id.user.AZIDBinField().0 + NumAZIDBinField(id.idNum).0 + rest
    ensures FromAZIDBinField(b, Array) == Returned(Read(id, 24, None))
  {
    var a, u, n := id.application.AZIDBinField().0, id.user.AZIDBinField().0, NumAZIDBinField(id.idNum).0;
    assert b[4..] == a + (u + n + rest);
    assert b[8..] == b[4..][4..];
    DecodeUserStage(b, id, t2, t3, rest);
    ApplicationIds.BinFieldRoundTrip(id.application, t1, u + n + rest);
    BinDataTypeByteRoundTrip(t1);
  }

  /**
   * The field decoder accepts, for each field, its canonical tag or Unspecified, and then
   * reads the data bytes back into the id, whatever follows them.
   */
  lemma DecodeFields(t1: BinDataType, t2: BinDataType, t3: BinDataType, id: TerminalID, rest: seq<byte>)
    requires t1 == Int32 || t1 == Unspecified
    requires t2 == Int64 || t2 == Unspecified
    requires t3 == Int64 || t3 == Unspecified
    ensures var f := id.AZIDBinField().0;
      FromAZIDBinField([3, Byte(t1), Byte(t2), Byte(t3)] + f[4..] + rest, Array) == Returned(Read(id, 24, None))
  {
    var f := id.AZIDBinField().0;
    var b := [3, Byte(t1), Byte(t2), Byte(t3)] + f[4..] + rest;
    assert f[4..] == id.application.AZIDBinField().0 + id.user.AZIDBinField().0 + NumAZIDBinField(id.idNum).0;
    assert b[4..] == f[4..] + rest;
    DecodeApplicationStage(b, id, t1, t2, t3, rest);
  }

  /** The field decoder reads back what the field encoder wrote, whatever follows it. */
  lemma BinFieldRoundTrip(id: TerminalID, rest: seq<byte>)
    ensures FromAZIDBinField(id.AZIDBinField().0 + rest, Array) == Returned(Read(id, 24, None))
  {
    var f := id.AZIDBinField().0;
    assert f == [3, Byte(Int32), Byte(Int64), Byte(Int64)] + f[4..];
    DecodeFields(Int32, Int64, Int64, id, rest);
  }

  /**
   * What a successful field decode read: the count byte 3, type bytes that are each the
   * canonical tag or Unspecified, and data bytes that re-encode the decoded id exactly.
   * Unspecified tags are accepted, so distinct inputs can decode to the same id.
   */
  lemma BinFieldDecodeInverse(b: seq<byte>)
    requires FromAZIDBinField(b, Array).Returned?
    requires FromAZIDBinField(b, Array).value.err.None?
    ensures var id := FromAZIDBinField(b, Array).value.value;
      |b| >= 24 && b[0] == 3 && b[4..24] == id.AZIDBinField().0[4..] &&
      (b[1] == Byte(Int32) || b[1] == Byte(Unspecified)) &&
      (b[2] == Byte(Int64) || b[2] == Byte(Unspecified)) &&
      (b[3] == Byte(Int64) || b[3] == Byte(Unspecified))
  {
    var id := FromAZIDBinField(b, Array).value.value;
    var t1, t2, t3 := BinDataTypeFromByte(b[1]).value, BinDataTypeFromByte(b[2]).value, BinDataTypeFromByte(b[3]).value;
    ApplicationIds.NumBinFieldDecodeInverse(b[4..], t1);
    UserIds.NumBinFieldDecodeInverse(b[8..], t2);
    NumBinFieldDecodeInverse(b[16..], t3);
    assert b[4..24] == b[4..][..4] + b[8..][..8] + b[16..][..8];
  }

  /** An all-Unspecified type row decodes like the canonical one. */
  lemma UnspecifiedTagsAccepted(id: TerminalID)
    ensures var f := id.AZIDBinField().0;
      FromAZIDBinField([3, 0, 0, 0] + f[4..], Array) == Returned(Read(id, 24, None))
  {
    var f := id.AZIDBinField().0;
    DecodeFields(Unspecified, Unspecified, Unspecified, id, []);
    assert [3, 0, 0, 0] + f[4..] + [] == [3, 0, 0, 0] + f[4..];
  }

  /**
   * TerminalIDFromAZIDBin. After the type byte the field decoder's result is returned
   * unwrapped, with readLen one more than the field decoder's, so a failed field decode
   * still reports one byte read.
   */
  function FromAZIDBin(b: seq<byte>): (r: Outcome<Read<TerminalID>>)
    ensures |b| == 0 ==> r.Panic?
    ensures |b| > 0 && BinDataTypeFromByte(b[0]).Err? ==>
      r == Returned(Read(Zero, 0, Some(ArgWrap("", "type parsing", BinDataTypeFromByte(b[0]).error))))
    ensures |b| > 0 && BinDataTypeFromByte(b[0]).Ok? && BinDataTypeFromByte(b[0]).value != Array ==>
      r == Returned(Read(Zero, 0, Some(Arg("", EntMsg("type", "unsupported")))))
    ensures |b| > 0 && b[0] == Byte(Array) ==>
      (r.Panic? <==> FromAZIDBinField(b[1..], Array).Panic?) &&
      (r.Returned? ==> var d := FromAZIDBinField(b[1..], Array).value;
        r.value == Read(d.value, d.readLen + 1, d.err))
  {
    if |b| == 0 then Panic
    else match BinDataTypeFromByte(b[0])
      case Err(e) => Returned(Read(Zero, 0, Some(ArgWrap("", "type parsing", e))))
      case Ok(typ) =>
        if typ != Array then Returned(Read(Zero, 0, Some(Arg("", EntMsg("type", "unsupported")))))
        else match FromAZIDBinField(b[1..], typ)
          case Panic => Panic
          case Returned(Read(id, n, err)) => Returned(Read(id, n + 1, err))
  }

  /** A failed field decode behind a good type byte reports readLen 1 and the field decoder's own error. */
  lemma FromAZIDBinErrorReadLen(b: seq<byte>)
    requires |b| >= 2 && b[0] == Byte(Array) && b[1] != 3
    ensures FromAZIDBin(b) == Returned(Read(Zero, 1, Some(Arg("", EntMsg("field count", "mismatch")))))
  {
  }

  lemma BinRoundTrip(id: TerminalID, rest: seq<byte>)
    ensures FromAZIDBin(id.AZIDBin() + rest) == Returned(Read(id, 25, None))
  {
    var b := id.AZIDBin() + rest;
    BinDataTypeByteRoundTrip(Array);
    assert b[1..] == id.AZIDBinField().0 + rest;
    BinFieldRoundTrip(id, rest);
  }

  /** TerminalIDFromAZIDText. */
  function FromAZIDText(codec: TextCodec, s: string): (r: Outcome<Parsed<TerminalID>>)
    ensures s == "" ==> r == Returned(Parsed(Zero, None))
    ensures s != "" && !HasPrefix(s, TextPrefix) ==>
      r == Returned(Parsed(Zero, Some(Arg("", EntMsg("prefix", "mismatch")))))
    ensures r.Returned? && r.value.err.Some? ==> r.value.value == Zero
  {
    if s == "" then Returned(Parsed(Zero, None))
    else if !HasPrefix(s, TextPrefix) then Returned(Parsed(Zero, Some(Arg("", EntMsg("prefix", "mismatch")))))
    else match codec.decode(TrimPrefix(s, TextPrefix))
      case None => Returned(Parsed(Zero, Some(ArgWrap("", "data parsing", TextDataInvalid))))
      case Some(b) =>
        match FromAZIDBin(b)
        case Panic => Panic
        case Returned(Read(_, _, Some(e))) => Returned(Parsed(Zero, Some(ArgWrap("", "data decoding", e))))
        case Returned(Read(id, _, None)) => Returned(Parsed(id, None))
  }

  lemma TextRoundTrip(codec: TextCodec, id: TerminalID)
    requires Lawful(codec)
    ensures FromAZIDText(codec, id.AZIDText(codec)) ==
      Returned(Parsed(if id.IsStaticallyValid() then id else Zero, None))
  {
    if id.IsStaticallyValid() {
      var s := id.AZIDText(codec);
      assert TrimPrefix(s, TextPrefix) == codec.encode(id.AZIDBin());
      BinRoundTrip(id, []);
      assert id.AZIDBin() + [] == id.AZIDBin();
    }
  }

  function FromJSON(codec: TextCodec, b: string): (r: Outcome<Parsed<TerminalID>>)
    ensures Trim(b, '"') == "" ==> r == Returned(Parsed(Zero, None))
  {
    var s := Trim(b, '"');
    if s == "" then Returned(Parsed(Zero, None)) else FromAZIDText(codec, s)
  }

  lemma JSONRoundTrip(codec: TextCodec, id: TerminalID)
    requires Lawful(codec)
    ensures FromJSON(codec, id.MarshalJSON(codec)) ==
      Returned(Parsed(if id.IsStaticallyValid() then id else Zero, None))
  {
    var t := id.AZIDText(codec);
    if t != "" {
      var e := codec.encode(id.AZIDBin());
      assert t == TextPrefix + e;
      assert t[|t| - 1] != '"' by {
        if |e| > 0 { assert t[|t| - 1] == e[|e| - 1]; }
      }
    }
    TrimQuoted(t, '"');
    TextRoundTrip(codec, id);
  }

  method UnmarshalAZIDBinField(r: Ref<TerminalID>, b: seq<byte>, typeHint: BinDataType)
    returns (readLen: int, err: Option<AzError>)
    requires FromAZIDBinField(b, typeHint).Returned?
    modifies r
    ensures var d := FromAZIDBinField(b, typeHint).value;
      readLen == d.readLen && err == d.err && r.value == (if err.None? then d.value else old(r.value))
  {
    var d := DecodeAZIDBinField(b, typeHint);
    readLen, err := d.value.readLen, d.value.err;
    if err.None? {
      r.value := d.value.value;
    }
  }

  method UnmarshalAZIDText(r: Ref<TerminalID>, codec: TextCodec, s: string) returns (err: Option<AzError>)
    requires FromAZIDText(codec, s).Returned?
    modifies r
    ensures var p := FromAZIDText(codec, s).value;
      err == p.err && r.value == (if err.None? then p.value else old(r.value))
  {
    var p := FromAZIDText(codec, s).value;
    err := p.err;
    if err.None? {
      r.value := p.value;
    }
  }

  method UnmarshalJSON(r: Ref<TerminalID>, codec: TextCodec, b: string) returns (err: Option<AzError>)
    requires FromJSON(codec, b).Returned?
    modifies r
    ensures var p := FromJSON(codec, b).value;
      err == p.err && r.value == (if err.None? then p.value else old(r.value))
  {
    var s := Trim(b, '"');
    if s == "" {
      r.value := Zero;
      return None;
    }
    err := UnmarshalAZIDText(r, codec, s);
  }
}
