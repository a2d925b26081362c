// base64.RawStdEncoding: the standard alphabet of section 4 of RFC 4648, without the
// padding of section 3.2. The decoder accepts non-zero trailing bits, as Go's non-strict
// decoder does.
module Base64 {
  import opened Wrappers

  type Octet = x: int | 0 <= x < 256

  /** The character of a 6-bit value in the standard alphabet. */
  function SextetChar(v: int): (c: char)
    requires 0 <= v < 64
  {
    if v < 26 then ('A' as int + v) as char
    else if v < 52 then ('a' as int + (v - 26)) as char
    else if v < 62 then ('0' as int + (v - 52)) as char
    else if v == 62 then '+'
    else '/'
  }

  /** The 6-bit value of an alphabet character; None for any other character, '=' included. */
  function SextetValue(c: char): (r: Option<int>)
    ensures r.Some? ==> 0 <= r.value < 64 && SextetChar(r.value) == c
  {
    if 'A' <= c <= 'Z' then Some(c as int - 'A' as int)
    else if 'a' <= c <= 'z' then Some(c as int - 'a' as int + 26)
    else if '0' <= c <= '9' then Some(c as int - '0' as int + 52)
    else if c == '+' then Some(62)
    else if c == '/' then Some(63)
    else None
  }

  lemma SextetRoundTrip(v: int)
    requires 0 <= v < 64
    ensures SextetValue(SextetChar(v)) == Some(v)
  {
  }

  /** No alphabet character is a '$' or a ','. */
  lemma SextetCharNotSeparator(v: int)
    requires 0 <= v < 64
    ensures SextetChar(v) != '$' && SextetChar(v) != ','
  {
  }

  /** EncodeToString: four characters per three bytes, two or three for a last partial group. */
  function Encode(b: seq<Octet>): (r: string)
    ensures |r| == (4 * |b| + 2) / 3
    ensures forall i :: 0 <= i < |r| ==> SextetValue(r[i]).Some?
  {
    if |b| == 0 then ""
    else if |b| == 1 then
      [SextetChar(b[0] / 4), SextetChar((b[0] % 4) * 16)]
    else if |b| == 2 then
      [SextetChar(b[0] / 4), SextetChar((b[0] % 4) * 16 + b[1] / 16), SextetChar((b[1] % 16) * 4)]
    else
      [SextetChar(b[0] / 4), SextetChar((b[0] % 4) * 16 + b[1] / 16),
       SextetChar((b[1] % 16) * 4 + b[2] / 64), SextetChar(b[2] % 64)] + Encode(b[3..])
  }

  /** The three bytes four sextets carry. */
  function Bytes(c0: int, c1: int, c2: int, c3: int): (r: seq<Octet>)
    requires 0 <= c0 < 64 && 0 <= c1 < 64 && 0 <= c2 < 64 && 0 <= c3 < 64
    ensures |r| == 3
  {
    [c0 * 4 + c1 / 16, (c1 % 16) * 16 + c2 / 4, (c2 % 4) * 64 + c3]
  }

  /** The sextet values of the first n characters of s, or None if one is outside the alphabet. */
  function Sextets(s: string, n: nat): (r: Option<seq<int>>)
    requires n <= |s|
    ensures r.Some? ==> |r.value| == n && forall i :: 0 <= i < n ==> 0 <= r.value[i] < 64 && SextetValue(s[i]) == Some(r.value[i])
    ensures r.None? ==> exists i :: 0 <= i < n && SextetValue(s[i]).None?
  {
    if n == 0 then Some([])
    else
      match Sextets(s, n - 1)
      case None => None
      case Some(prefix) =>
        match SextetValue(s[n - 1])
        case None => None
        case Some(v) => Some(prefix + [v])
  }

  /** DecodeString: None for a character outside the alphabet or a length of 1 modulo 4. */
  function Decode(s: string): (r: Option<seq<Octet>>)
    ensures r.Some? ==> |s| % 4 != 1 && |r.value| == (3 * |s|) / 4
  {
    if |s| == 0 then Some([])
    else if |s| == 1 then None
    else
      var n := if |s| >= 4 then 4 else |s|;
      match Sextets(s, n)
      case None => None
      case Some(c) =>
        var group := Bytes(c[0], c[1], if n >= 3 then c[2] else 0, if n >= 4 then c[3] else 0);
        if n == 2 then Some(group[..1])
        else if n == 3 then Some(group[..2])
        else
          match Decode(s[4..])
          case None => None
          case Some(rest) => Some(group + rest)
  }

  /** Recombining the sextets of a full group gives its three bytes back. */
  lemma GroupBytes(b0: Octet, b1: Octet, b2: Octet)
    ensures Bytes(b0 / 4, (b0 % 4) * 16 + b1 / 16, (b1 % 16) * 4 + b2 / 64, b2 % 64) == [b0, b1, b2]
  {
  }

  /** Recombining the two sextets of a one-byte group gives that byte back. */
  lemma OneByteBytes(b0: Octet)
    ensures Bytes(b0 / 4, (b0 % 4) * 16, 0, 0)[..1] == [b0]
  {
  }

  /** Recombining the three sextets of a two-byte group gives those bytes back. */
  lemma TwoByteBytes(b0: Octet, b1: Octet)
    ensures Bytes(b0 / 4, (b0 % 4) * 16 + b1 / 16, (b1 % 16) * 4, 0)[..2] == [b0, b1]
  {
  }

  /** The sextets read back from characters written by SextetChar. */
  lemma {:induction false} SextetsOf(s: string, v: seq<int>)
    requires |v| <= |s|
    requires forall i :: 0 <= i < |v| ==> 0 <= v[i] < 64 && s[i] == SextetChar(v[i])
    ensures Sextets(s, |v|) == Some(v)
  {
    if |v| > 0 {
      SextetsOf(s, v[..|v| - 1]);
      SextetRoundTrip(v[|v| - 1]);
      assert v == v[..|v| - 1] + [v[|v| - 1]];
    }
  }

  /** The last group of one byte: two characters. */
  lemma DecodeOneByte(b0: Octet)
    ensures Decode(Encode([b0])) == Some([b0])
  {
    SextetsOf(Encode([b0]), [b0 / 4, (b0 % 4) * 16]);
    OneByteBytes(b0);
  }

  /** The last group of two bytes: three characters. */
  lemma DecodeTwoBytes(b0: Octet, b1: Octet)
    ensures Decode(Encode([b0, b1])) == Some([b0, b1])
  {
    SextetsOf(Encode([b0, b1]), [b0 / 4, (b0 % 4) * 16 + b1 / 16, (b1 % 16) * 4]);
    TwoByteBytes(b0, b1);
  }

  /** A full group of three bytes decodes back, ahead of whatever the rest decodes to. */
  lemma DecodeFullGroup(b0: Octet, b1: Octet, b2: Octet, rest: seq<Octet>)
    ensures Decode(Encode([b0, b1, b2] + rest)) == match Decode(Encode(rest))
                                                 case None => None
                                                 case Some(r) => Some([b0, b1, b2] + r)
  {
    var c := [b0 / 4, (b0 % 4) * 16 + b1 / 16, (b1 % 16) * 4 + b2 / 64, b2 % 64];
    EncodeFullGroup(b0, b1, b2, rest, c);
    GroupBytes(b0, b1, b2);
    DecodeGroup(Encode([b0, b1, b2] + rest), c, [b0, b1, b2]);
  }

  /** The encoding of a full group starts with the group's four sextets and goes on with the encoding of the rest. */
  lemma EncodeFullGroup(b0: Octet, b1: Octet, b2: Octet, rest: seq<Octet>, c: seq<int>)
    requires c == [b0 / 4, (b0 % 4) * 16 + b1 / 16, (b1 % 16) * 4 + b2 / 64, b2 % 64]
    ensures var s := Encode([b0, b1, b2] + rest);
      |s| >= 4 && s[4..] == Encode(rest) && Sextets(s, 4) == Some(c)
  {
    var b := [b0, b1, b2] + rest;
    var s := Encode(b);
    assert b[3..] == rest;
    SextetsOf(s, c);
  }

  /** A text whose first four characters read as the sextets of a group decodes to that group, then the rest. */
  lemma DecodeGroup(s: string, c: seq<int>, group: seq<Octet>)
    requires |s| >= 4 && Sextets(s, 4) == Some(c)
    requires Bytes(c[0], c[1], c[2], c[3]) == group
    ensures Decode(s) == match Decode(s[4..])
                         case None => None
                         case Some(r) => Some(group + r)
  {
  }

  /** DecodeString inverts EncodeToString. */
  lemma {:induction false} DecodeEncode(b: seq<Octet>)
    ensures Decode(Encode(b)) == Some(b)
  {
    if |b| == 0 {
    } else if |b| == 1 {
      assert b == [b[0]];
      DecodeOneByte(b[0]);
    } else if |b| == 2 {
      assert b == [b[0], b[1]];
      DecodeTwoBytes(b[0], b[1]);
    } else {
      assert b == [b[0], b[1], b[2]] + b[3..];
      DecodeFullGroup(b[0], b[1], b[2], b[3..]);
      DecodeEncode(b[3..]);
    }
  }

  /** Encoded text never holds the '$' and ',' the hash format separates its fields by. */
  lemma EncodeHasNoSeparator(b: seq<Octet>)
    ensures forall i :: 0 <= i < |Encode(b)| ==> Encode(b)[i] != '$' && Encode(b)[i] != ','
  {
    var s := Encode(b);
    forall i | 0 <= i < |s|
      ensures s[i] != '$' && s[i] != ','
    {
      assert SextetValue(s[i]).Some?;
    }
  }
}
