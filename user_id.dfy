// UserIDNum, UserID and UserInstanceInfo (iam/pkg/iam/user__azgen.go).
module UserIds {
  import opened Wrappers
  import opened AzId
  import opened Strings

  /** An int64 held as its bit pattern. */
  type UserIDNum = bv64

  const IdentifierBitsMask: bv64 := 0x0000_FFFF_FFFF_FFFF
  const NumZero: UserIDNum := 0

  const EmbeddedFieldsMask: bv64 := 0x4000_0000_0000_0000
  const BotMask: bv64 := 0x4000_0000_0000_0000
  const BotBits: bv64 := 0x4000_0000_0000_0000

  predicate NumIsZero(n: UserIDNum)
  {
    n == NumZero
  }

  predicate NumIsStaticallyValid(n: UserIDNum)
  {
    PositiveInt64(n) && n & IdentifierBitsMask != 0
  }

  predicate HasBotBits(n: UserIDNum)
  {
    n & BotMask == BotBits
  }

  predicate IsBot(n: UserIDNum)
  {
    NumIsStaticallyValid(n) && HasBotBits(n)
  }

  /** The values the unit tests of the newer tree check. */
  lemma NumTestVectors()
    ensures !NumIsStaticallyValid(0) && !NumIsStaticallyValid(0xFFFF_FFFF_FFFF_FFFF)
    ensures NumIsStaticallyValid(1) && NumIsStaticallyValid(0xFFFF)
    ensures !NumIsStaticallyValid(0x0001_0000_0000_0000)
    ensures NumIsStaticallyValid(0x1_0000_0000) && !IsBot(0x1_0000_0000)
    ensures NumAZIDBinField(0) == ([0, 0, 0, 0, 0, 0, 0, 0], Int64)
    ensures NumAZIDBinField(0xFFFF_FFFF_FFFF_FFFF) == ([0xFF, 0xFF, 0xFF, 0xFF, 0xFF, 0xFF, 0xFF, 0xFF], Int64)
  {
    assert BE32(0) == [0, 0, 0, 0];
    assert BE32(0xFFFF_FFFF) == [0xFF, 0xFF, 0xFF, 0xFF];
    assert BE64(0) == BE32(0) + BE32(0) == [0, 0, 0, 0, 0, 0, 0, 0];
    assert BE64(0xFFFF_FFFF_FFFF_FFFF) == BE32(0xFFFF_FFFF) + BE32(0xFFFF_FFFF)
      == [0xFF, 0xFF, 0xFF, 0xFF, 0xFF, 0xFF, 0xFF, 0xFF];
  }

  /** IsBot holds exactly for valid ids with bit 62 set; that bit is not an identifier bit. */
  lemma BotBit(n: UserIDNum)
    ensures IsBot(n) <==> NumIsStaticallyValid(n) && n & 0x4000_0000_0000_0000 != 0
  {
    assert HasBotBits(n) <==> n & 0x4000_0000_0000_0000 != 0;
  }

  lemma BotBitOutsideIdentifier()
    ensures BotMask & IdentifierBitsMask == 0 && EmbeddedFieldsMask == BotMask
  {
  }

  /** UserIDNum.AZIDBinField: eight big-endian bytes, typed Int64. */
  function NumAZIDBinField(n: UserIDNum): (r: (seq<byte>, BinDataType))
    ensures |r.0| == 8 && r.1 == Int64
  {
    (BE64(n), Int64)
  }

  /** UserIDNumFromAZIDBinField. */
  function NumFromAZIDBinField(b: seq<byte>, typeHint: BinDataType): (r: Outcome<Read<UserIDNum>>)
    ensures typeHint != Unspecified && typeHint != Int64 ==>
      r == Returned(Read(NumZero, 0, Some(ArgMsg("typeHint", "unsupported"))))
    ensures typeHint == Unspecified || typeHint == Int64 ==>
      (r.Panic? <==> |b| < 8) && (r.Returned? ==> r.value.err.None? && r.value.readLen == 8)
  {
    if typeHint != Unspecified && typeHint != Int64 then
      Returned(Read(NumZero, 0, Some(ArgMsg("typeHint", "unsupported"))))
    else if |b| < 8 then Panic
    else Returned(Read(Uint64BE(b), 8, None))
  }

  /** The field decoder reads back exactly what the field encoder wrote, in both directions. */
  lemma NumBinFieldRoundTrip(n: UserIDNum, typeHint: BinDataType, rest: seq<byte>)
    requires typeHint == Unspecified || typeHint == Int64
    ensures NumFromAZIDBinField(NumAZIDBinField(n).0 + rest, typeHint) == Returned(Read(n, 8, None))
  {
    BE64RoundTrip(n, rest);
  }

  lemma NumBinFieldDecodeInverse(b: seq<byte>, typeHint: BinDataType)
    requires NumFromAZIDBinField(b, typeHint).Returned?
    requires NumFromAZIDBinField(b, typeHint).value.err.None?
    ensures NumAZIDBinField(NumFromAZIDBinField(b, typeHint).value.value).0 == b[..8]
  {
    Uint64BEInverse(b);
  }

  /** UnmarshalAZIDBinField of UserIDNum: assigns only when decoding succeeds. */
  method NumUnmarshalAZIDBinField(r: Ref<UserIDNum>, b: seq<byte>, typeHint: BinDataType)
    returns (readLen: int, err: Option<AzError>)
    requires NumFromAZIDBinField(b, typeHint).Returned?
    modifies r
    ensures var d := NumFromAZIDBinField(b, typeHint).value;
      readLen == d.readLen && err == d.err && r.value == (if err.None? then d.value else old(r.value))
  {
    var d := NumFromAZIDBinField(b, typeHint).value;
    readLen, err := d.readLen, d.err;
    if err.None? {
      r.value := d.value;
    }
  }

  /** UserID: the system-wide identifier; it carries nothing but its id-num. */
  datatype UserID = UserID(idNum: UserIDNum)
  {
    predicate IsZero()
    {
      NumIsZero(idNum)
    }

    predicate IsStaticallyValid()
    {
      NumIsStaticallyValid(idNum)
    }

    predicate EqualsUserID(other: UserID)
    {
      other == this
    }

    /** IDNumPtr: the id-num when the id is valid, nil otherwise. */
    function IDNumPtr(): (r: Option<UserIDNum>)
      ensures r.None? <==> !IsStaticallyValid()
      ensures r.Some? ==> r.value == idNum
    {
      if !IsStaticallyValid() then None else Some(idNum)
    }

    /** AZIDBin: the Int64 type byte, then the id-num's eight bytes. */
    function AZIDBin(): (r: seq<byte>)
      ensures |r| == 9 && r[0] == Byte(Int64) && r[1..] == NumAZIDBinField(idNum).0
    {
      [Byte(Int64)] + BE64(idNum)
    }

    function AZIDBinField(): (r: (seq<byte>, BinDataType))
      ensures r == NumAZIDBinField(idNum)
    {
      NumAZIDBinField(idNum)
    }

    /** AZIDText: "" for an invalid id, else the prefix and the encoded binary form. */
    function AZIDText(codec: TextCodec): (r: string)
      ensures !IsStaticallyValid() <==> r == ""
      ensures IsStaticallyValid() ==> HasPrefix(r, TextPrefix)
    {
      if !IsStaticallyValid() then "" else TextPrefix + codec.encode(AZIDBin())
    }

    /** MarshalJSON: the text form in double quotes. */
    function MarshalJSON(codec: TextCodec): (r: string)
      ensures |r| >= 2 && r[0] == '"' && r[|r| - 1] == '"' && r[1..|r| - 1] == AZIDText(codec)
    {
      "\"" + AZIDText(codec) + "\""
    }
  }

  const Zero: UserID := UserID(NumZero)

  const TextPrefix: string := "KUs0"

  /** UserIDFromAZIDBinField: the id-num decoder, with the zero id on error. */
  function FromAZIDBinField(b: seq<byte>, typeHint: BinDataType): (r: Outcome<Read<UserID>>)
    ensures r.Panic? <==> NumFromAZIDBinField(b, typeHint).Panic?
    ensures r.Returned? ==> var d := NumFromAZIDBinField(b, typeHint).value;
      r.value.readLen == d.readLen && r.value.err == d.err &&
      r.value.value == (if d.err.None? then UserID(d.value) else Zero)
  {
    match NumFromAZIDBinField(b, typeHint)
    case Panic => Panic
    case Returned(Read(_, n, Some(e))) => Returned(Read(Zero, n, Some(e)))
    case Returned(Read(v, n, None)) => Returned(Read(UserID(v), n, None))
  }

  /** UserIDFromAZIDBin: a type byte that must be Int64, then the id-num field. */
  function FromAZIDBin(b: seq<byte>): (r: Outcome<Read<UserID>>)
    ensures |b| == 0 ==> r.Panic?
    ensures |b| > 0 && BinDataTypeFromByte(b[0]).Err? ==>
      r == Returned(Read(Zero, 0, Some(ArgWrap("", "type parsing", BinDataTypeFromByte(b[0]).error))))
    ensures |b| > 0 && BinDataTypeFromByte(b[0]).Ok? && BinDataTypeFromByte(b[0]).value != Int64 ==>
      r == Returned(Read(Zero, 0, Some(Arg("", EntMsg("type", "unsupported")))))
    ensures r.Returned? && r.value.err.None? ==> r.value.readLen == 9 && |b| >= 9 && b[..9] == r.value.value.AZIDBin()
  {
    if |b| == 0 then Panic
    else match BinDataTypeFromByte(b[0])
      case Err(e) => Returned(Read(Zero, 0, Some(ArgWrap("", "type parsing", e))))
      case Ok(typ) =>
        if typ != Int64 then Returned(Read(Zero, 0, Some(Arg("", EntMsg("type", "unsupported")))))
        else match FromAZIDBinField(b[1..], typ)
          case Panic => Panic
          case Returned(Read(_, _, Some(e))) => Returned(Read(Zero, 0, Some(ArgWrap("", "id-num data parsing", e))))
          case Returned(Read(id, n, None)) =>
            assert b[..9] == [b[0]] + b[1..][..8];
            NumBinFieldDecodeInverse(b[1..], typ);
            Returned(Read(id, 1 + n, None))
  }

  /** Decoding the binary form gives the id back and reads all nine bytes. */
  lemma BinRoundTrip(id: UserID, rest: seq<byte>)
    ensures FromAZIDBin(id.AZIDBin() + rest) == Returned(Read(id, 9, None))
  {
    var b := id.AZIDBin() + rest;
    BinDataTypeByteRoundTrip(Int64);
    assert b[1..] == NumAZIDBinField(id.idNum).0 + rest;
    NumBinFieldRoundTrip(id.idNum, Int64, rest);
  }

  lemma BinFieldRoundTrip(id: UserID, typeHint: BinDataType, rest: seq<byte>)
    requires typeHint == Unspecified || typeHint == Int64
    ensures FromAZIDBinField(id.AZIDBinField().0 + rest, typeHint) == Returned(Read(id, 8, None))
  {
    NumBinFieldRoundTrip(id.idNum, typeHint, rest);
  }

  /** UserIDFromAZIDText. */
  function FromAZIDText(codec: TextCodec, s: string): (r: Outcome<Parsed<UserID>>)
    ensures s == "" ==> r == Returned(Parsed(Zero, None))
    ensures s != "" && !HasPrefix(s, TextPrefix) ==>
      r == Returned(Parsed(Zero, Some(Arg("", EntMsg("prefix", "mismatch")))))
    ensures r.Returned? && r.value.err.Some? ==> r.value.value == Zero
  {
    if s == "" then Returned(Parsed(Zero, None))
    else if !HasPrefix(s, TextPrefix) then Returned(Parsed(Zero, Some(Arg("", EntMsg("prefix", "mismatch")))))
    else match codec.decode(TrimPrefix(s, TextPrefix))
      case None => Returned(Parsed(Zero, Some(ArgWrap("", "data parsing", TextDataInvalid))))
      case Some(b) =>
        match FromAZIDBin(b)
        case Panic => Panic
        case Returned(Read(_, _, Some(e))) => Returned(Parsed(Zero, Some(ArgWrap("", "data decoding", e))))
        case Returned(Read(id, _, None)) => Returned(Parsed(id, None))
  }

  /** The text form decodes to the id when it is valid, and to the zero id otherwise. */
  lemma TextRoundTrip(codec: TextCodec, id: UserID)
    requires Lawful(codec)
    ensures FromAZIDText(codec, id.AZIDText(codec)) ==
      Returned(Parsed(if id.IsStaticallyValid() then id else Zero, None))
  {
    if id.IsStaticallyValid() {
      var s := id.AZIDText(codec);
      assert TrimPrefix(s, TextPrefix) == codec.encode(id.AZIDBin());
      BinRoundTrip(id, []);
      assert id.AZIDBin() + [] == id.AZIDBin();
    }
  }

  /** The JSON decoding behind UnmarshalJSON: quotes trimmed, "" is the zero id. */
  function FromJSON(codec: TextCodec, b: string): (r: Outcome<Parsed<UserID>>)
    ensures Trim(b, '"') == "" ==> r == Returned(Parsed(Zero, None))
  {
    var s := Trim(b, '"');
    if s == "" then Returned(Parsed(Zero, None)) else FromAZIDText(codec, s)
  }

  lemma JSONRoundTrip(codec: TextCodec, id: UserID)
    requires Lawful(codec)
    ensures FromJSON(codec, id.MarshalJSON(codec)) ==
      Returned(Parsed(if id.IsStaticallyValid() then id else Zero, None))
  {
    var t := id.AZIDText(codec);
    if t != "" {
      var e := codec.encode(id.AZIDBin());
      assert t == TextPrefix + e;
      assert t[|t| - 1] != '"' by {
        if |e| > 0 { assert t[|t| - 1] == e[|e| - 1]; }
      }
    }
    TrimQuoted(t, '"');
    TextRoundTrip(codec, id);
  }

  /** UnmarshalAZIDBinField of UserID: assigns only when decoding succeeds. */
  method UnmarshalAZIDBinField(r: Ref<UserID>, b: seq<byte>, typeHint: BinDataType)
    returns (readLen: int, err: Option<AzError>)
    requires FromAZIDBinField(b, typeHint).Returned?
    modifies r
    ensures var d := FromAZIDBinField(b, typeHint).value;
      readLen == d.readLen && err == d.err && r.value == (if err.None? then d.value else old(r.value))
  {
    var d := FromAZIDBinField(b, typeHint).value;
    readLen, err := d.readLen, d.err;
    if err.None? {
      r.value := d.value;
    }
  }

  /** UnmarshalAZIDBin: assigns only when decoding succeeds. */
  method UnmarshalAZIDBin(r: Ref<UserID>, b: seq<byte>) returns (readLen: int, err: Option<AzError>)
    requires FromAZIDBin(b).Returned?
    modifies r
    ensures var d := FromAZIDBin(b).value;
      readLen == d.readLen && err == d.err && r.value == (if err.None? then d.value else old(r.value))
  {
    var d := FromAZIDBin(b).value;
    readLen, err := d.readLen, d.err;
    if err.None? {
      r.value := d.value;
    }
  }

  /** UnmarshalAZIDText (and UnmarshalText): assigns only when decoding succeeds. */
  method UnmarshalAZIDText(r: Ref<UserID>, codec: TextCodec, s: string) returns (err: Option<AzError>)
    requires FromAZIDText(codec, s).Returned?
    modifies r
    ensures var p := FromAZIDText(codec, s).value;
      err == p.err && r.value == (if err.None? then p.value else old(r.value))
  {
    var p := FromAZIDText(codec, s).value;
    err := p.err;
    if err.None? {
      r.value := p.value;
    }
  }

  /** UnmarshalJSON: the zero id for an empty string, otherwise as UnmarshalAZIDText. */
  method UnmarshalJSON(r: Ref<UserID>, codec: TextCodec, b: string) returns (err: Option<AzError>)
    requires FromJSON(codec, b).Returned?
    modifies r
    ensures var p := FromJSON(codec, b).value;
      err == p.err && r.value == (if err.None? then p.value else old(r.value))
  {
    var s := Trim(b, '"');
    if s == "" {
      r.value := Zero;
      return None;
    }
    err := UnmarshalAZIDText(r, codec, s);
  }

  datatype UserInstanceDeletionInfo = UserInstanceDeletionInfo(deleted: bool, deletionNotes: string)

  datatype UserInstanceInfo = UserInstanceInfo(revisionNumber: int, deletion: Option<UserInstanceDeletionInfo>)
  {
    predicate IsDeleted()
    {
      deletion.Some? && deletion.value.deleted
    }

    /** IsActive: for now, exactly the instances that are not deleted. */
    predicate IsActive()
    {
      !IsDeleted()
    }
  }

  lemma InstanceActiveIffNotDeleted(info: UserInstanceInfo)
    ensures info.IsActive() <==> !(info.deletion.Some? && info.deletion.value.deleted)
    ensures info.deletion.None? ==> info.IsActive()
  {
  }
}
