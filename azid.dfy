// The parts of the go-azfl `azid` package that the generated identifier code relies on:
// the binary data-type tag, big-endian integer fields, the results the decoders return,
// and the text codec (taken as a parameter, since its definition is not part of this model).
module AzId {
  import opened Wrappers

  type byte = bv8

  /** The data-type tags used by the modelled identifiers. */
  datatype BinDataType = Unspecified | Array | Int32 | Int64

  /**
   * The tag's byte. Only the value of Int32 is consistent with the text test vectors
   * of ApplicationID; the other codes are stand-ins: every proof uses only that the
   * codes are distinct.
   */
  function Byte(t: BinDataType): byte
  {
    match t
    case Unspecified => 0x00
    case Array => 0x40
    case Int32 => 0x13
    case Int64 => 0x14
  }

  /**
   * The error values of go-azfl's `errors` package, kept as structure; Named stands for a
   * sentinel error or an error from a component outside this model, by its name.
   */
  datatype AzError =
    | ArgMsg(argName: string, msg: string)
    | ArgMsgWith(argName: string, msg: string, fields: seq<AzError>)
    | Arg(argName: string, cause: AzError)
    | ArgWrap(argName: string, context: string, cause: AzError)
    | EntMsg(entity: string, msg: string)
    | Ent(entity: string, entCause: Option<AzError>)
    | Msg(text: string)
    | Wrap(context: string, cause: AzError)
    | Named(name: string)
    | TypeByteUnknown(b: byte)
    | TextDataInvalid

  /** azid.BinDataTypeFromByte: the tag a byte stands for, or an error for an unknown byte. */
  function BinDataTypeFromByte(b: byte): (r: Result<BinDataType, AzError>)
    ensures r.Ok? ==> Byte(r.value) == b
    ensures r.Err? ==> forall t: BinDataType :: Byte(t) != b
  {
    if b == 0x00 then Ok(Unspecified)
    else if b == 0x40 then Ok(Array)
    else if b == 0x13 then Ok(Int32)
    else if b == 0x14 then Ok(Int64)
    else Err(TypeByteUnknown(b))
  }

  lemma BinDataTypeByteRoundTrip(t: BinDataType)
    ensures BinDataTypeFromByte(Byte(t)) == Ok(t)
  {
  }

  /** What a decoder that may index past the end of its input does. */
  datatype Outcome<T> = Returned(value: T) | Panic

  /** The (value, readLen, err) triple the binary decoders return. */
  datatype Read<T> = Read(value: T, readLen: int, err: Option<AzError>)

  /** The (value, err) pair the text decoders return. */
  datatype Parsed<T> = Parsed(value: T, err: Option<AzError>)

  /** binary.BigEndian.PutUint32 into a fresh 4-byte slice. */
  function BE32(x: bv32): (r: seq<byte>)
    ensures |r| == 4
  {
    [((x >> 24) & 0xFF) as byte, ((x >> 16) & 0xFF) as byte,
     ((x >> 8) & 0xFF) as byte, (x & 0xFF) as byte]
  }

  /** binary.BigEndian.Uint32 of the first four bytes. */
  function Uint32BE(b: seq<byte>): bv32
    requires |b| >= 4
  {
    (b[0] as bv32 << 24) | (b[1] as bv32 << 16) | (b[2] as bv32 << 8) | b[3] as bv32
  }

  /** binary.BigEndian.PutUint64 into a fresh 8-byte slice: the high half, then the low half. */
  function BE64(x: bv64): (r: seq<byte>)
    ensures |r| == 8
  {
    BE32((x >> 32) as bv32) + BE32((x & 0xFFFF_FFFF) as bv32)
  }

  /** binary.BigEndian.Uint64 of the first eight bytes. */
  function Uint64BE(b: seq<byte>): bv64
    requires |b| >= 8
  {
    (Uint32BE(b) as bv64 << 32) | Uint32BE(b[4..]) as bv64
  }

  /** Reading back a written 32-bit field gives the value, whatever follows it. */
  lemma BE32RoundTrip(x: bv32, rest: seq<byte>)
    ensures Uint32BE(BE32(x) + rest) == x
  {
    var b := BE32(x) + rest;
    assert b[0] == ((x >> 24) & 0xFF) as byte && b[1] == ((x >> 16) & 0xFF) as byte;
    assert b[2] == ((x >> 8) & 0xFF) as byte && b[3] == (x & 0xFF) as byte;
  }

  /** Reading back a written 64-bit field gives the value, whatever follows it. */
  lemma BE64RoundTrip(x: bv64, rest: seq<byte>)
    ensures Uint64BE(BE64(x) + rest) == x
  {
    var hi, lo := (x >> 32) as bv32, (x & 0xFFFF_FFFF) as bv32;
    var b := BE64(x) + rest;
    assert b == BE32(hi) + (BE32(lo) + rest);
    assert b[4..] == BE32(lo) + rest;
    BE32RoundTrip(hi, BE32(lo) + rest);
    BE32RoundTrip(lo, rest);
    Halves64(x);
  }

  lemma Halves64(x: bv64)
    ensures ((((x >> 32) as bv32) as bv64) << 32) | (((x & 0xFFFF_FFFF) as bv32) as bv64) == x
  {
  }

  lemma Split64(hi: bv32, lo: bv32)
    ensures (((hi as bv64 << 32) | lo as bv64) >> 32) as bv32 == hi
    ensures (((hi as bv64 << 32) | lo as bv64) & 0xFFFF_FFFF) as bv32 == lo
  {
  }

  /** Writing back a read 32-bit field gives the bytes that were read. */
  lemma Uint32BEInverse(b: seq<byte>)
    requires |b| >= 4
    ensures BE32(Uint32BE(b)) == b[..4]
  {
  }

  /** Writing back a read 64-bit field gives the bytes that were read. */
  lemma Uint64BEInverse(b: seq<byte>)
    requires |b| >= 8
    ensures BE64(Uint64BE(b)) == b[..8]
  {
    var hi, lo := Uint32BE(b), Uint32BE(b[4..]);
    Split64(hi, lo);
    Uint32BEInverse(b);
    Uint32BEInverse(b[4..]);
    assert b[..8] == b[..4] + b[4..][..4];
  }

  /** Go's int32(x) > 0 on the two's-complement bit pattern x: non-zero with the sign bit clear. */
  predicate PositiveInt32(x: bv32)
  {
    x != 0 && x & 0x8000_0000 == 0
  }

  /** Go's int64(x) > 0 on the two's-complement bit pattern x: non-zero with the sign bit clear. */
  predicate PositiveInt64(x: bv64)
  {
    x != 0 && x & 0x8000_0000_0000_0000 == 0
  }

  /** azid.TextEncode and azid.TextDecode, whose definitions are not part of this model. */
  datatype TextCodec = TextCodec(encode: seq<byte> -> string, decode: string -> Option<seq<byte>>)

  /**
   * What the identifiers' text and JSON forms rely on: decoding inverts encoding, and
   * encoded text holds no double quote (the JSON form adds quotes without escaping).
   */
  ghost predicate Lawful(c: TextCodec)
  {
    (forall b :: c.decode(c.encode(b)) == Some(b)) &&
    (forall b, i :: 0 <= i < |c.encode(b)| ==> c.encode(b)[i] != '"')
  }
}
