// ApplicationIDNum, ApplicationID and ApplicationInstanceInfo
// (iam/pkg/iam/application__azgen.go).
module ApplicationIds {
  import opened Wrappers
  import opened AzId
  import opened Strings

  /** An int32 held as its bit pattern. */
  type ApplicationIDNum = bv32

  const IdentifierBitsMask: bv32 := 0x03FF_FFFF
  const NumZero: ApplicationIDNum := 0

  // The embedded fields: type information packed above the identifier bits.
  const EmbeddedFieldsMask: bv32 := 0x7000_0000
  const FirstPartyMask: bv32 := 0x4000_0000
  const FirstPartyBits: bv32 := 0x4000_0000
  const ServiceMask: bv32 := 0x2000_0000
  const ServiceBits: bv32 := 0x0000_0000
  const UserAgentMask: bv32 := 0x2000_0000
  const UserAgentBits: bv32 := 0x2000_0000
  const UserAgentAuthorizationPublicMask: bv32 := 0x3000_0000
  const UserAgentAuthorizationPublicBits: bv32 := 0x2000_0000
  const UserAgentAuthorizationConfidentialMask: bv32 := 0x3000_0000
  const UserAgentAuthorizationConfidentialBits: bv32 := 0x3000_0000

  predicate NumIsZero(n: ApplicationIDNum)
  {
    n == NumZero
  }

  predicate NumIsStaticallyValid(n: ApplicationIDNum)
  {
    PositiveInt32(n) && n & IdentifierBitsMask != 0
  }

  predicate HasFirstPartyBits(n: ApplicationIDNum)
  {
    n & FirstPartyMask == FirstPartyBits
  }

  predicate IsFirstParty(n: ApplicationIDNum)
  {
    NumIsStaticallyValid(n) && HasFirstPartyBits(n)
  }

  predicate HasServiceBits(n: ApplicationIDNum)
  {
    n & ServiceMask == ServiceBits
  }

  predicate IsService(n: ApplicationIDNum)
  {
    NumIsStaticallyValid(n) && HasServiceBits(n)
  }

  predicate HasUserAgentBits(n: ApplicationIDNum)
  {
    n & UserAgentMask == UserAgentBits
  }

  predicate IsUserAgent(n: ApplicationIDNum)
  {
    NumIsStaticallyValid(n) && HasUserAgentBits(n)
  }

  predicate HasUserAgentAuthorizationPublicBits(n: ApplicationIDNum)
  {
    n & UserAgentAuthorizationPublicMask == UserAgentAuthorizationPublicBits
  }

  predicate IsUserAgentAuthorizationPublic(n: ApplicationIDNum)
  {
    NumIsStaticallyValid(n) && HasUserAgentAuthorizationPublicBits(n)
  }

  predicate HasUserAgentAuthorizationConfidentialBits(n: ApplicationIDNum)
  {
    n & UserAgentAuthorizationConfidentialMask == UserAgentAuthorizationConfidentialBits
  }

  predicate IsUserAgentAuthorizationConfidential(n: ApplicationIDNum)
  {
    NumIsStaticallyValid(n) && HasUserAgentAuthorizationConfidentialBits(n)
  }

  /** The values the unit tests of the newer tree check. */
  lemma NumTestVectors()
    ensures !NumIsStaticallyValid(0) && !NumIsStaticallyValid(0xFFFF_FFFF)
    ensures !NumIsStaticallyValid(0x1000_0000)
    ensures NumIsStaticallyValid(1) && NumIsStaticallyValid(0xFFFF) && NumIsStaticallyValid(0xFF_FFFF)
    ensures NumIsStaticallyValid(0x7FFF_FFFF) && NumIsStaticallyValid(0x0100_0000)
    ensures NumIsStaticallyValid(0x0100_0001) && NumIsStaticallyValid(0x01FF_FFFF)
    ensures IsFirstParty(0x4000_0001)
  {
  }

  /** A valid id is either a service or a user agent, never both: both test bit 29. */
  lemma ServiceXorUserAgent(n: ApplicationIDNum)
    requires NumIsStaticallyValid(n)
    ensures IsService(n) <==> !IsUserAgent(n)
  {
  }

  /** Public and confidential user agents exclude each other, and both are user agents. */
  lemma PublicConfidentialExclusive(n: ApplicationIDNum)
    ensures !(HasUserAgentAuthorizationPublicBits(n) && HasUserAgentAuthorizationConfidentialBits(n))
    ensures HasUserAgentAuthorizationPublicBits(n) ==> HasUserAgentBits(n)
    ensures HasUserAgentAuthorizationConfidentialBits(n) ==> HasUserAgentBits(n)
    ensures IsUserAgent(n) <==> IsUserAgentAuthorizationPublic(n) || IsUserAgentAuthorizationConfidential(n)
  {
    UserAgentBitsSplit(n);
  }

  /** Bit 29 set is bits 28-29 being either 10 or 11. */
  lemma UserAgentBitsSplit(n: ApplicationIDNum)
    ensures HasUserAgentBits(n) <==> HasUserAgentAuthorizationPublicBits(n) || HasUserAgentAuthorizationConfidentialBits(n)
  {
    var t := n & 0x3000_0000;
    var u := n & 0x2000_0000;
    assert u == t & 0x2000_0000;
    assert HasUserAgentBits(n) <==> u == 0x2000_0000;
    assert HasUserAgentAuthorizationPublicBits(n) <==> t == 0x2000_0000;
    assert HasUserAgentAuthorizationConfidentialBits(n) <==> t == 0x3000_0000;
    assert t == 0 || t == 0x1000_0000 || t == 0x2000_0000 || t == 0x3000_0000;
  }

  /** The embedded fields and the identifier bits do not overlap. */
  lemma EmbeddedFieldsOutsideIdentifier()
    ensures EmbeddedFieldsMask & IdentifierBitsMask == 0
    ensures FirstPartyMask | UserAgentAuthorizationPublicMask == EmbeddedFieldsMask
  {
  }

  /** ApplicationIDNum.AZIDBinField: four big-endian bytes, typed Int32. */
  function NumAZIDBinField(n: ApplicationIDNum): (r: (seq<byte>, BinDataType))
    ensures |r.0| == 4 && r.1 == Int32
  {
    (BE32(n), Int32)
  }

  /** ApplicationIDNumFromAZIDBinField. */
  function NumFromAZIDBinField(b: seq<byte>, typeHint: BinDataType): (r: Outcome<Read<ApplicationIDNum>>)
    ensures typeHint != Unspecified && typeHint != Int32 ==>
      r == Returned(Read(NumZero, 0, Some(ArgMsg("typeHint", "unsupported"))))
    ensures typeHint == Unspecified || typeHint == Int32 ==>
      (r.Panic? <==> |b| < 4) && (r.Returned? ==> r.value.err.None? && r.value.readLen == 4)
  {
    if typeHint != Unspecified && typeHint != Int32 then
      Returned(Read(NumZero, 0, Some(ArgMsg("typeHint", "unsupported"))))
    else if |b| < 4 then Panic
    else Returned(Read(Uint32BE(b), 4, None))
  }

  /** The field decoder reads back exactly what the field encoder wrote, in both directions. */
  lemma NumBinFieldRoundTrip(n: ApplicationIDNum, typeHint: BinDataType, rest: seq<byte>)
    requires typeHint == Unspecified || typeHint == Int32
    ensures NumFromAZIDBinField(NumAZIDBinField(n).0 + rest, typeHint) == Returned(Read(n, 4, None))
  {
    BE32RoundTrip(n, rest);
  }

  lemma NumBinFieldDecodeInverse(b: seq<byte>, typeHint: BinDataType)
    requires NumFromAZIDBinField(b, typeHint).Returned?
    requires NumFromAZIDBinField(b, typeHint).value.err.None?
    ensures NumAZIDBinField(NumFromAZIDBinField(b, typeHint).value.value).0 == b[..4]
  {
    Uint32BEInverse(b);
  }

  /** UnmarshalAZIDBinField of ApplicationIDNum: assigns only when decoding succeeds. */
  method NumUnmarshalAZIDBinField(r: Ref<ApplicationIDNum>, b: seq<byte>, typeHint: BinDataType)
    returns (readLen: int, err: Option<AzError>)
    requires NumFromAZIDBinField(b, typeHint).Returned?
    modifies r
    ensures var d := NumFromAZIDBinField(b, typeHint).value;
      readLen == d.readLen && err == d.err && r.value == (if err.None? then d.value else old(r.value))
  {
    var d := NumFromAZIDBinField(b, typeHint).value;
    readLen, err := d.readLen, d.err;
    if err.None? {
      r.value := d.value;
    }
  }

  /** ApplicationID: the system-wide identifier; it carries nothing but its id-num. */
  datatype ApplicationID = ApplicationID(idNum: ApplicationIDNum)
  {
    predicate IsZero()
    {
      NumIsZero(idNum)
    }

    predicate IsStaticallyValid()
    {
      NumIsStaticallyValid(idNum)
    }

    predicate EqualsApplicationID(other: ApplicationID)
    {
      other == this
    }

    /** IDNumPtr: the id-num when the id is valid, nil otherwise. */
    function IDNumPtr(): (r: Option<ApplicationIDNum>)
      ensures r.None? <==> !IsStaticallyValid()
      ensures r.Some? ==> r.value == idNum
    {
      if !IsStaticallyValid() then None else Some(idNum)
    }

    /** AZIDBin: the Int32 type byte, then the id-num's four bytes. */
    function AZIDBin(): (r: seq<byte>)
      ensures |r| == 5 && r[0] == Byte(Int32) && r[1..] == NumAZIDBinField(idNum).0
    {
      [Byte(Int32)] + BE32(idNum)
    }

    function AZIDBinField(): (r: (seq<byte>, BinDataType))
      ensures r == NumAZIDBinField(idNum)
    {
      NumAZIDBinField(idNum)
    }

    /** AZIDText: "" for an invalid id, else the prefix and the encoded binary form. */
    function AZIDText(codec: TextCodec): (r: string)
      ensures !IsStaticallyValid() <==> r == ""
      ensures IsStaticallyValid() ==> HasPrefix(r, TextPrefix)
    {
      if !IsStaticallyValid() then "" else TextPrefix + codec.encode(AZIDBin())
    }

    /** MarshalJSON: the text form in double quotes. */
    function MarshalJSON(codec: TextCodec): (r: string)
      ensures |r| >= 2 && r[0] == '"' && r[|r| - 1] == '"' && r[1..|r| - 1] == AZIDText(codec)
    {
      "\"" + AZIDText(codec) + "\""
    }
  }

  const Zero: ApplicationID := ApplicationID(NumZero)

  const TextPrefix: string := "KAp0"

  /** ApplicationIDFromAZIDBinField: the id-num decoder, with the zero id on error. */
  function FromAZIDBinField(b: seq<byte>, typeHint: BinDataType): (r: Outcome<Read<ApplicationID>>)
    ensures r.Panic? <==> NumFromAZIDBinField(b, typeHint).Panic?
    ensures r.Returned? ==> var d := NumFromAZIDBinField(b, typeHint).value;
      r.value.readLen == d.readLen && r.value.err == d.err &&
      r.value.value == (if d.err.None? then ApplicationID(d.value) else Zero)
  {
    match NumFromAZIDBinField(b, typeHint)
    case Panic => Panic
    case Returned(Read(_, n, Some(e))) => Returned(Read(Zero, n, Some(e)))
    case Returned(Read(v, n, None)) => Returned(Read(ApplicationID(v), n, None))
  }

  /** ApplicationIDFromAZIDBin: a type byte that must be Int32, then the id-num field. */
  function FromAZIDBin(b: seq<byte>): (r: Outcome<Read<ApplicationID>>)
    ensures |b| == 0 ==> r.Panic?
    ensures |b| > 0 && BinDataTypeFromByte(b[0]).Err? ==>
      r == Returned(Read(Zero, 0, Some(ArgWrap("", "type parsing", BinDataTypeFromByte(b[0]).error))))
    ensures |b| > 0 && BinDataTypeFromByte(b[0]).Ok? && BinDataTypeFromByte(b[0]).value != Int32 ==>
      r == Returned(Read(Zero, 0, Some(Arg("", EntMsg("type", "unsupported")))))
    ensures r.Returned? && r.value.err.None? ==> r.value.readLen == 5 && |b| >= 5 && b[..5] == r.value.value.AZIDBin()
  {
    if |b| == 0 then Panic
    else match BinDataTypeFromByte(b[0])
      case Err(e) => Returned(Read(Zero, 0, Some(ArgWrap("", "type parsing", e))))
      case Ok(typ) =>
        if typ != Int32 then Returned(Read(Zero, 0, Some(Arg("", EntMsg("type", "unsupported")))))
        else match FromAZIDBinField(b[1..], typ)
          case Panic => Panic
          case Returned(Read(_, _, Some(e))) => Returned(Read(Zero, 0, Some(ArgWrap("", "id-num data parsing", e))))
          case Returned(Read(id, n, None)) =>
            assert b[..5] == [b[0]] + b[1..][..4];
            NumBinFieldDecodeInverse(b[1..], typ);
            Returned(Read(id, 1 + n, None))
  }

  /** Decoding the binary form gives the id back and reads all five bytes. */
  lemma BinRoundTrip(id: ApplicationID, rest: seq<byte>)
    ensures FromAZIDBin(id.AZIDBin() + rest) == Returned(Read(id, 5, None))
  {
    var b := id.AZIDBin() + rest;
    BinDataTypeByteRoundTrip(Int32);
    assert b[1..] == NumAZIDBinField(id.idNum).0 + rest;
    NumBinFieldRoundTrip(id.idNum, Int32, rest);
  }

  lemma BinFieldRoundTrip(id: ApplicationID, typeHint: BinDataType, rest: seq<byte>)
    requires typeHint == Unspecified || typeHint == Int32
    ensures FromAZIDBinField(id.AZIDBinField().0 + rest, typeHint) == Returned(Read(id, 4, None))
  {
    NumBinFieldRoundTrip(id.idNum, typeHint, rest);
  }

  /** ApplicationIDFromAZIDText. */
  function FromAZIDText(codec: TextCodec, s: string): (r: Outcome<Parsed<ApplicationID>>)
    ensures s == "" ==> r == Returned(Parsed(Zero, None))
    ensures s != "" && !HasPrefix(s, TextPrefix) ==>
      r == Returned(Parsed(Zero, Some(Arg("", EntMsg("prefix", "mismatch")))))
    ensures r.Returned? && r.value.err.Some? ==> r.value.value == Zero
  {
    if s == "" then Returned(Parsed(Zero, None))
    else if !HasPrefix(s, TextPrefix) then Returned(Parsed(Zero, Some(Arg("", EntMsg("prefix", "mismatch")))))
    else match codec.decode(TrimPrefix(s, TextPrefix))
      case None => Returned(Parsed(Zero, Some(ArgWrap("", "data parsing", TextDataInvalid))))
      case Some(b) =>
        match FromAZIDBin(b)
        case Panic => Panic
        case Returned(Read(_, _, Some(e))) => Returned(Parsed(Zero, Some(ArgWrap("", "data decoding", e))))
        case Returned(Read(id, _, None)) => Returned(Parsed(id, None))
  }

  /** The text form decodes to the id when it is valid, and to the zero id otherwise. */
  lemma TextRoundTrip(codec: TextCodec, id: ApplicationID)
    requires Lawful(codec)
    ensures FromAZIDText(codec, id.AZIDText(codec)) ==
      Returned(Parsed(if id.IsStaticallyValid() then id else Zero, None))
  {
    if id.IsStaticallyValid() {
      var s := id.AZIDText(codec);
      assert TrimPrefix(s, TextPrefix) == codec.encode(id.AZIDBin());
      BinRoundTrip(id, []);
      assert id.AZIDBin() + [] == id.AZIDBin();
    }
  }

  /** The JSON decoding behind UnmarshalJSON: quotes trimmed, "" is the zero id. */
  function FromJSON(codec: TextCodec, b: string): (r: Outcome<Parsed<ApplicationID>>)
    ensures Trim(b, '"') == "" ==> r == Returned(Parsed(Zero, None))
  {
    var s := Trim(b, '"');
    if s == "" then Returned(Parsed(Zero, None)) else FromAZIDText(codec, s)
  }

  lemma JSONRoundTrip(codec: TextCodec, id: ApplicationID)
    requires Lawful(codec)
    ensures FromJSON(codec, id.MarshalJSON(codec)) ==
      Returned(Parsed(if id.IsStaticallyValid() then id else Zero, None))
  {
    var t := id.AZIDText(codec);
    if t != "" {
      var e := codec.encode(id.AZIDBin());
      assert t == TextPrefix + e;
      assert t[|t| - 1] != '"' by {
        if |e| > 0 { assert t[|t| - 1] == e[|e| - 1]; }
      }
    }
    TrimQuoted(t, '"');
    TextRoundTrip(codec, id);
  }

  /** UnmarshalAZIDBinField of ApplicationID: assigns only when decoding succeeds. */
  method UnmarshalAZIDBinField(r: Ref<ApplicationID>, b: seq<byte>, typeHint: BinDataType)
    returns (readLen: int, err: Option<AzError>)
    requires FromAZIDBinField(b, typeHint).Returned?
    modifies r
    ensures var d := FromAZIDBinField(b, typeHint).value;
      readLen == d.readLen && err == d.err && r.value == (if err.None? then d.value else old(r.value))
  {
    var d := FromAZIDBinField(b, typeHint).value;
    readLen, err := d.readLen, d.err;
    if err.None? {
      r.value := d.value;
    }
  }

  /** UnmarshalAZIDBin: assigns only when decoding succeeds. */
  method UnmarshalAZIDBin(r: Ref<ApplicationID>, b: seq<byte>) returns (readLen: int, err: Option<AzError>)
    requires FromAZIDBin(b).Returned?
    modifies r
    ensures var d := FromAZIDBin(b).value;
      readLen == d.readLen && err == d.err && r.value == (if err.None? then d.value else old(r.value))
  {
    var d := FromAZIDBin(b).value;
    readLen, err := d.readLen, d.err;
    if err.None? {
      r.value := d.value;
    }
  }

  /** UnmarshalAZIDText (and UnmarshalText): assigns only when decoding succeeds. */
  method UnmarshalAZIDText(r: Ref<ApplicationID>, codec: TextCodec, s: string) returns (err: Option<AzError>)
    requires FromAZIDText(codec, s).Returned?
    modifies r
    ensures var p := FromAZIDText(codec, s).value;
      err == p.err && r.value == (if err.None? then p.value else old(r.value))
  {
    var p := FromAZIDText(codec, s).value;
    err := p.err;
    if err.None? {
      r.value := p.value;
    }
  }

  /** UnmarshalJSON: the zero id for an empty string, otherwise as UnmarshalAZIDText. */
  method UnmarshalJSON(r: Ref<ApplicationID>, codec: TextCodec, b: string) returns (err: Option<AzError>)
    requires FromJSON(codec, b).Returned?
    modifies r
    ensures var p := FromJSON(codec, b).value;
      err == p.err && r.value == (if err.None? then p.value else old(r.value))
  {
    var s := Trim(b, '"');
    if s == "" {
      r.value := Zero;
      return None;
    }
    err := UnmarshalAZIDText(r, codec, s);
  }

  datatype ApplicationInstanceDeletionInfo = ApplicationInstanceDeletionInfo(deleted: bool)

  datatype ApplicationInstanceInfo = ApplicationInstanceInfo(
    revisionNumber: int, deletion: Option<ApplicationInstanceDeletionInfo>)
  {
    predicate IsDeleted()
    {
      deletion.Some? && deletion.value.deleted
    }

    /** IsActive: for now, exactly the instances that are not deleted. */
    predicate IsActive()
    {
      !IsDeleted()
    }
  }

  lemma InstanceActiveIffNotDeleted(info: ApplicationInstanceInfo)
    ensures info.IsActive() <==> !(info.deletion.Some? && info.deletion.value.deleted)
    ensures info.deletion.None? ==> info.IsActive()
  {
  }
}
