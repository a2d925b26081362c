// User passwords (pkg/iam/pkg/iamserver/core_user_password.go): the argon2id hash string
// in the PHC-style format "$argon2id$v=19$m=<memory>,t=<iterations>,p=<parallelism>$<salt>$<key>",
// its decoder, the matching rules, and the password table that keeps one live hash per user.
module PasswordHashes {
  import opened Wrappers
  import opened AzId
  import opened Strings
  import opened Decimal
  import opened Base64
  import UserIds
  import TerminalIds
  import Authorizations
  import IdGeneration
  import TerminalStore

  const ErrPasswordHashFormatInvalid: AzError := Msg("hash format invalid")
  const ErrPasswordHashVersionIncompatible: AzError := Msg("hash version incompatible")

  /** What fmt.Sscanf reports when the input does not follow the format, or a number is missing. */
  const ErrScanMismatch: AzError := Named("input does not match format")
  /** What fmt.Sscanf reports when a number does not fit the variable it is scanned into. */
  const ErrScanOverflow: AzError := Named("integer overflow")
  /** What base64 DecodeString reports on a character outside the alphabet or a bad length. */
  const ErrBase64Corrupt: AzError := Named("illegal base64 data")

  /** argon2.Version. */
  const Version: int := 0x13

  const Uint32Limit: nat := 0x1_0000_0000
  const Uint8Limit: nat := 0x100
  const Int64Min: int := -0x8000_0000_0000_0000
  const Int64Max: int := 0x7FFF_FFFF_FFFF_FFFF

  /** argon2PasswordHashingParams: uint32 fields, except the uint8 parallelism. */
  datatype Params = Params(memory: nat, iterations: nat, parallelism: nat, saltLength: nat, keyLength: nat)
  {
    predicate InRange()
    {
      memory < Uint32Limit && iterations < Uint32Limit && parallelism < Uint8Limit &&
      saltLength < Uint32Limit && keyLength < Uint32Limit
    }
  }

  const ParamsDefault: Params := Params(64 * 1024, 3, 2, 16, 32)

  /**
   * argon2.IDKey(password, salt, iterations, memory, parallelism, keyLength), which this
   * model does not compute.
   */
  type KeyDerivation = (string, seq<Octet>, nat, nat, nat, nat) -> seq<Octet>

  /** The key the parameters derive from a password and a salt. */
  function DeriveKey(kdf: KeyDerivation, password: string, salt: seq<Octet>, params: Params): seq<Octet>
  {
    kdf(password, salt, params.iterations, params.memory, params.parallelism, params.keyLength)
  }

  /** What decodePasswordHash gives back: the parameters, the salt and the derived key. */
  datatype DecodedHash = DecodedHash(params: Params, salt: seq<Octet>, hash: seq<Octet>)

  /** The parameter field "m=<memory>,t=<iterations>,p=<parallelism>". */
  function ParamsField(params: Params): string
  {
    "m=" + FormatNat(params.memory) + ",t=" + FormatNat(params.iterations) + ",p=" + FormatNat(params.parallelism)
  }

  lemma DefaultHashHead()
    ensures "$argon2id$v=19$" + ParamsField(ParamsDefault) + "$" == "$argon2id$v=19$m=65536,t=3,p=2$"
  {
    DefaultParamsField();
  }

  lemma DefaultParamsField()
    ensures ParamsField(ParamsDefault) == "m=65536,t=3,p=2"
  {
    DefaultMemoryText();
    assert FormatNat(3) == "3" && FormatNat(2) == "2";
  }

  lemma DefaultMemoryText()
    ensures FormatNat(65536) == "65536"
  {
    assert FormatNat(6) == "6";
    assert FormatNat(65) == "65";
    assert FormatNat(655) == "655";
    assert FormatNat(6553) == "6553";
  }

  lemma VersionText()
    ensures FormatInt(Version) == "19"
  {
    assert FormatNat(1) == "1";
  }

  /** The '$'-separated fields of the hash string, the leading empty one included. */
  function HashFields(params: Params, salt: seq<Octet>, hash: seq<Octet>): seq<string>
  {
    ["", "argon2id", "v=" + FormatInt(Version), ParamsField(params), Encode(salt), Encode(hash)]
  }

  lemma HeadText(paramsField: string)
    ensures "$argon2id$v=" + FormatInt(Version) + "$" + paramsField + "$" == "$argon2id$v=19$" + paramsField + "$"
  {
    VersionText();
  }

  lemma AppendAssoc(a: string, b: string, c: string, d: string)
    ensures a + b + c + d == a + (b + c + d)
  {
  }

  /** The Sprintf of hashPassword; the salt and key lengths are not written. */
  function EncodePasswordHash(params: Params, salt: seq<Octet>, hash: seq<Octet>): (r: string)
    ensures HasPrefix(r, "$argon2id$v=19$" + ParamsField(params) + "$")
  {
    var head := "$argon2id$v=" + FormatInt(Version) + "$" + ParamsField(params) + "$";
    var tail := Encode(salt) + "$" + Encode(hash);
    HeadText(ParamsField(params));
    PrefixOfConcat(head, tail);
    AppendAssoc(head, Encode(salt), "$", Encode(hash));
    head + Encode(salt) + "$" + Encode(hash)
  }

  /** The fields of a hash string joined by '$', written out. */
  lemma JoinHashFields(v: string, f3: string, f4: string, f5: string)
    ensures Join(["", "argon2id", "v=" + v, f3, f4, f5], '$') == "$argon2id$v=" + v + "$" + f3 + "$" + f4 + "$" + f5
  {
    var j4 := f4 + "$" + f5;
    var j3 := f3 + "$" + j4;
    var j2 := "v=" + v + "$" + j3;
    JoinCons(f4, [f5], '$');
    assert [f4] + [f5] == [f4, f5];
    JoinCons(f3, [f4, f5], '$');
    assert [f3] + [f4, f5] == [f3, f4, f5];
    JoinTail(v, f3, f4, f5, j3);
    JoinHead(j2, ["v=" + v, f3, f4, f5]);
    assert "$argon2id$" + j2 == "$argon2id$v=" + v + "$" + f3 + "$" + f4 + "$" + f5;
  }

  lemma JoinTail(v: string, f3: string, f4: string, f5: string, j3: string)
    requires Join([f3, f4, f5], '$') == j3
    ensures Join(["v=" + v, f3, f4, f5], '$') == "v=" + v + "$" + j3
  {
    JoinCons("v=" + v, [f3, f4, f5], '$');
    assert ["v=" + v] + [f3, f4, f5] == ["v=" + v, f3, f4, f5];
  }

  lemma JoinHead(j2: string, tail: seq<string>)
    requires |tail| == 4 && Join(tail, '$') == j2
    ensures Join(["", "argon2id"] + tail, '$') == "$argon2id$" + j2
  {
    JoinCons("argon2id", tail, '$');
    JoinCons("", ["argon2id"] + tail, '$');
    assert [""] + (["argon2id"] + tail) == ["", "argon2id"] + tail;
  }

  /** The hash string is its six fields joined by '$'. */
  lemma EncodeJoinsFields(params: Params, salt: seq<Octet>, hash: seq<Octet>)
    ensures EncodePasswordHash(params, salt, hash) == Join(HashFields(params, salt, hash), '$')
  {
    JoinHashFields(FormatInt(Version), ParamsField(params), Encode(salt), Encode(hash));
    assert HashFields(params, salt, hash) == ["", "argon2id"] + ["v=" + FormatInt(Version), ParamsField(params), Encode(salt), Encode(hash)];
  }

  /** The bytes crypto/rand wrote, as the octets base64 and argon2 work on. */
  function Octets(b: seq<byte>): (r: seq<Octet>)
    ensures |r| == |b| && forall i :: 0 <= i < |b| ==> r[i] == b[i] as int
  {
    seq(|b|, i requires 0 <= i < |b| => b[i] as int)
  }

  /**
   * hashPassword: a fresh 16-byte salt and the default parameters; an error reading the
   * random source is returned as is.
   */
  function HashPassword(password: string, saltRead: IdGeneration.RandomRead, kdf: KeyDerivation): (r: Result<string, AzError>)
    requires saltRead.Filled? ==> |saltRead.bytes| == ParamsDefault.saltLength
    ensures saltRead.ReadFailed? ==> r == Err(saltRead.cause)
    ensures saltRead.Filled? ==> r.Ok? && HasPrefix(r.value, "$argon2id$v=19$m=65536,t=3,p=2$")
  {
    match saltRead
    case ReadFailed(e) => Err(e)
    case Filled(b) =>
      var salt := Octets(b);
      var r := EncodePasswordHash(ParamsDefault, salt, DeriveKey(kdf, password, salt, ParamsDefault));
      DefaultHashHead();
      Ok(r)
  }

  /** Reads the literal `lit` at the start of `s`, as a non-verb part of a Sscanf format. */
  function ScanLiteral(s: string, lit: string): (r: Result<string, AzError>)
    ensures r.Ok? <==> HasPrefix(s, lit)
    ensures r.Ok? ==> s == lit + r.value
    ensures r.Err? ==> r.error == ErrScanMismatch
  {
    if HasPrefix(s, lit) then
      assert s == lit + s[|lit|..];
      Ok(s[|lit|..])
    else Err(ErrScanMismatch)
  }

  /**
   * "%d" into an unsigned variable below `limit`: the longest run of leading digits, which
   * must not be empty; the text after it is left for the rest of the format.
   */
  function ScanUnsigned(s: string, limit: nat): (r: Result<(nat, string), AzError>)
    ensures r.Ok? ==> r.value.0 < limit && exists k :: 1 <= k <= |s| && AllDigits(s[..k]) &&
                                                    r.value.0 == ParseDigits(s[..k]) && r.value.1 == s[k..] &&
                                                    (k < |s| ==> !IsDigit(s[k]))
    ensures (|s| == 0 || !IsDigit(s[0])) ==> r == Err(ErrScanMismatch)
  {
    var k := DigitPrefixLength(s);
    if k == 0 then Err(ErrScanMismatch)
    else
      var v := ParseDigits(s[..k]);
      if v >= limit then Err(ErrScanOverflow) else Ok((v, s[k..]))
  }

  /** "%d" into an int: an optional sign, then the digits, within the range of int64. */
  function ScanInt(s: string): (r: Result<(int, string), AzError>)
    ensures r.Ok? ==> Int64Min <= r.value.0 <= Int64Max
    ensures (|s| == 0 || !(IsDigit(s[0]) || s[0] == '+' || s[0] == '-')) ==> r == Err(ErrScanMismatch)
  {
    var signLen := if |s| > 0 && (s[0] == '+' || s[0] == '-') then 1 else 0;
    var digits := s[signLen..];
    var k := DigitPrefixLength(digits);
    if k == 0 then Err(ErrScanMismatch)
    else
      var v: int := ParseDigits(digits[..k]);
      var value: int := if signLen == 1 && s[0] == '-' then -v else v;
      if value < Int64Min || value > Int64Max then Err(ErrScanOverflow) else Ok((value, digits[k..]))
  }

  /** Sscanf(field, "v=%d", &version). */
  function ScanVersion(field: string): (r: Result<int, AzError>)
  {
    match ScanLiteral(field, "v=")
    case Err(e) => Err(e)
    case Ok(rest) =>
      match ScanInt(rest)
      case Err(e) => Err(e)
      case Ok((version, _)) => Ok(version)
  }

  /** Sscanf(field, "m=%d,t=%d,p=%d", &memory, &iterations, &parallelism); lengths are left 0. */
  function ScanParams(field: string): (r: Result<Params, AzError>)
    ensures r.Ok? ==> r.value.memory < Uint32Limit && r.value.iterations < Uint32Limit &&
                      r.value.parallelism < Uint8Limit && r.value.saltLength == 0 && r.value.keyLength == 0
  {
    match ScanLiteral(field, "m=")
    case Err(e) => Err(e)
    case Ok(s1) =>
      match ScanUnsigned(s1, Uint32Limit)
      case Err(e) => Err(e)
      case Ok((memory, s2)) =>
        match ScanLiteral(s2, ",t=")
        case Err(e) => Err(e)
        case Ok(s3) =>
          match ScanUnsigned(s3, Uint32Limit)
          case Err(e) => Err(e)
          case Ok((iterations, s4)) =>
            match ScanLiteral(s4, ",p=")
            case Err(e) => Err(e)
            case Ok(s5) =>
              match ScanUnsigned(s5, Uint8Limit)
              case Err(e) => Err(e)
              case Ok((parallelism, _)) => Ok(Params(memory, iterations, parallelism, 0, 0))
  }

  /** DecodeString of the unpadded standard encoding. */
  function DecodeBase64(field: string): (r: Result<seq<Octet>, AzError>)
    ensures r.Ok? <==> Decode(field).Some?
    ensures r.Ok? ==> r.value == Decode(field).value
  {
    match Decode(field)
    case None => Err(ErrBase64Corrupt)
    case Some(b) => Ok(b)
  }

  /** The version and parameter fields of a split hash string: the checks after the field count. */
  function DecodeFields(vals: seq<string>): (r: Result<DecodedHash, AzError>)
    requires |vals| == 6
  {
    match ScanVersion(vals[2])
    case Err(e) => Err(e)
    case Ok(version) =>
      if version != Version then Err(ErrPasswordHashVersionIncompatible)
      else
        match ScanParams(vals[3])
        case Err(e) => Err(e)
        case Ok(params) =>
          match DecodeBase64(vals[4])
          case Err(e) => Err(e)
          case Ok(salt) =>
            match DecodeBase64(vals[5])
            case Err(e) => Err(e)
            case Ok(hash) =>
              Ok(DecodedHash(params.(saltLength := |salt| % Uint32Limit, keyLength := |hash| % Uint32Limit), salt, hash))
  }

  /**
   * decodePasswordHash: exactly six '$'-separated fields, the version of argon2, then the
   * parameters, salt and key. The first two fields, "" and "argon2id", are not looked at.
   */
  function DecodePasswordHash(encoded: string): (r: Result<DecodedHash, AzError>)
    ensures |Split(encoded, '$')| != 6 ==> r == Err(ErrPasswordHashFormatInvalid)
    ensures r.Ok? ==> r.value.params.InRange()
    ensures r.Ok? ==> r.value.params.saltLength == |r.value.salt| % Uint32Limit &&
                      r.value.params.keyLength == |r.value.hash| % Uint32Limit
    ensures r.Ok? ==> Decode(Split(encoded, '$')[4]) == Some(r.value.salt) &&
                      Decode(Split(encoded, '$')[5]) == Some(r.value.hash)
  {
    var vals := Split(encoded, '$');
    if |vals| != 6 then Err(ErrPasswordHashFormatInvalid) else DecodeFields(vals)
  }

  /** uint32(n) leaves a value below 2^32 as it is. */
  lemma Uint32Truncation(n: nat)
    requires n < Uint32Limit
    ensures n % Uint32Limit == n
  {
  }

  /** A version other than argon2's is refused, whatever the other fields hold. */
  lemma VersionChecked(encoded: string, version: int)
    requires |Split(encoded, '$')| == 6
    requires ScanVersion(Split(encoded, '$')[2]) == Ok(version) && version != Version
    ensures DecodePasswordHash(encoded) == Err(ErrPasswordHashVersionIncompatible)
  {
  }

  /** The text of a number followed by text that does not start with a digit scans back to it. */
  lemma ScanUnsignedFormat(n: nat, rest: string, limit: nat)
    requires n < limit
    requires rest == [] || !IsDigit(rest[0])
    ensures ScanUnsigned(FormatNat(n) + rest, limit) == Ok((n, rest))
  {
    DigitPrefixOfFormat(n, rest);
    ParseFormatNat(n);
  }

  /** A literal followed by a formatted number scans back to the number. */
  lemma ScanLiteralNumber(lit: string, n: nat, rest: string, limit: nat)
    requires n < limit
    requires rest == [] || !IsDigit(rest[0])
    ensures ScanLiteral(lit + FormatNat(n) + rest, lit) == Ok(FormatNat(n) + rest)
    ensures ScanUnsigned(FormatNat(n) + rest, limit) == Ok((n, rest))
  {
    var t := FormatNat(n) + rest;
    assert lit + FormatNat(n) + rest == lit + t;
    ScanLiteralOf(lit, t);
    ScanUnsignedFormat(n, rest, limit);
  }

  lemma ScanLiteralOf(lit: string, t: string)
    ensures ScanLiteral(lit + t, lit) == Ok(t)
  {
    PrefixOfConcat(lit, t);
    assert (lit + t)[|lit|..] == t;
  }

  lemma ScanParamsFormat(params: Params)
    requires params.InRange()
    ensures ScanParams(ParamsField(params)) == Ok(params.(saltLength := 0, keyLength := 0))
  {
    var m, t, p := FormatNat(params.memory), FormatNat(params.iterations), FormatNat(params.parallelism);
    var rest2 := ",p=" + p;
    var rest1 := ",t=" + t + rest2;
    assert ParamsField(params) == "m=" + m + rest1;
    ScanLiteralNumber("m=", params.memory, rest1, Uint32Limit);
    ScanLiteralNumber(",t=", params.iterations, rest2, Uint32Limit);
    ScanLiteralNumber(",p=", params.parallelism, "", Uint8Limit);
    assert ",p=" + p + "" == rest2 && p + "" == p;
  }

  lemma ScanVersionFormat()
    ensures ScanVersion("v=" + FormatInt(Version)) == Ok(Version)
  {
    VersionText();
    assert ScanLiteral("v=19", "v=") == Ok("19");
    assert DigitPrefixLength("19") == 2 by {
      assert DigitPrefixLength("9") == 1;
    }
    assert "19"[..2] == "19";
    assert ParseDigits("19") == 19 by {
      assert "19"[..1] == "1";
    }
  }

  /** No field of the hash string holds the '$' separator. */
  lemma HashFieldsHaveNoSeparator(params: Params, salt: seq<Octet>, hash: seq<Octet>)
    ensures var fields := HashFields(params, salt, hash);
            forall k, i :: 0 <= k < |fields| && 0 <= i < |fields[k]| ==> fields[k][i] != '$'
  {
    var fields := HashFields(params, salt, hash);
    EncodeHasNoSeparator(salt);
    EncodeHasNoSeparator(hash);
    forall k, i | 0 <= k < |fields| && 0 <= i < |fields[k]|
      ensures fields[k][i] != '$'
    {
      if k == 2 {
        assert AllDigits(FormatInt(Version));
      } else if k == 3 {
        var m, t, p := FormatNat(params.memory), FormatNat(params.iterations), FormatNat(params.parallelism);
        assert AllDigits(m) && AllDigits(t) && AllDigits(p);
      }
    }
  }

  /**
   * decodePasswordHash inverts the hash string: it recovers the parameters, the salt and
   * the key, with the salt and key lengths set from what was decoded.
   */
  lemma DecodeEncodePasswordHash(params: Params, salt: seq<Octet>, hash: seq<Octet>)
    requires params.InRange()
    requires |salt| < Uint32Limit && |hash| < Uint32Limit
    ensures DecodePasswordHash(EncodePasswordHash(params, salt, hash)) ==
            Ok(DecodedHash(params.(saltLength := |salt|, keyLength := |hash|), salt, hash))
  {
    var fields := HashFields(params, salt, hash);
    HashFieldsHaveNoSeparator(params, salt, hash);
    SplitJoin(fields, '$');
    EncodeJoinsFields(params, salt, hash);
    assert Split(EncodePasswordHash(params, salt, hash), '$') == fields;
    ScanVersionFormat();
    ScanParamsFormat(params);
    DecodeEncode(salt);
    DecodeEncode(hash);
    assert ScanVersion(fields[2]) == Ok(Version);
    assert ScanParams(fields[3]) == Ok(params.(saltLength := 0, keyLength := 0));
    assert DecodeBase64(fields[4]) == Ok(salt);
    assert DecodeBase64(fields[5]) == Ok(hash);
    Uint32Truncation(|salt|);
    Uint32Truncation(|hash|);
    assert DecodeFields(fields) == Ok(DecodedHash(params.(saltLength := |salt|, keyLength := |hash|), salt, hash));
  }

  /**
   * matchPasswordAndPasswordHash: an empty stored hash never matches; a hash that does not
   * decode is an error; otherwise the password matches iff it derives the stored key.
   */
  function MatchPasswordAndPasswordHash(password: string, encoded: string, kdf: KeyDerivation): (r: (bool, Option<AzError>))
    ensures encoded == "" ==> r == (false, None)
    ensures encoded != "" && DecodePasswordHash(encoded).Err? ==> r == (false, Some(DecodePasswordHash(encoded).error))
    ensures r.0 <==> encoded != "" && DecodePasswordHash(encoded).Ok? &&
                     DeriveKey(kdf, password, DecodePasswordHash(encoded).value.salt, DecodePasswordHash(encoded).value.params) ==
                     DecodePasswordHash(encoded).value.hash
    ensures r.0 ==> r.1.None?
  {
    if encoded == "" then (false, None)
    else
      match DecodePasswordHash(encoded)
      case Err(e) => (false, Some(e))
      case Ok(d) => (DeriveKey(kdf, password, d.salt, d.params) == d.hash, None)
  }

  /**
   * A hash made from a password matches that password, once argon2 returns as many bytes
   * as it was asked for.
   */
  lemma HashThenMatch(password: string, salt: seq<byte>, kdf: KeyDerivation)
    requires |salt| == ParamsDefault.saltLength
    requires |DeriveKey(kdf, password, Octets(salt), ParamsDefault)| == ParamsDefault.keyLength
    ensures MatchPasswordAndPasswordHash(password, HashPassword(password, IdGeneration.Filled(salt), kdf).value, kdf) == (true, None)
  {
    var s := Octets(salt);
    DecodeEncodePasswordHash(ParamsDefault, s, DeriveKey(kdf, password, s, ParamsDefault));
  }

  /** Another password matches the hash iff it derives the same key with the same salt. */
  lemma OtherPasswordMatch(password: string, other: string, salt: seq<byte>, kdf: KeyDerivation)
    requires |salt| == ParamsDefault.saltLength
    requires |DeriveKey(kdf, password, Octets(salt), ParamsDefault)| == ParamsDefault.keyLength
    ensures var encoded := HashPassword(password, IdGeneration.Filled(salt), kdf).value;
            MatchPasswordAndPasswordHash(other, encoded, kdf).0 <==>
            DeriveKey(kdf, other, Octets(salt), ParamsDefault) == DeriveKey(kdf, password, Octets(salt), ParamsDefault)
  {
    var s := Octets(salt);
    DecodeEncodePasswordHash(ParamsDefault, s, DeriveKey(kdf, password, s, ParamsDefault));
  }

  /** A row of user_password_dt: the owner, the hash, the creation and the soft-deletion columns. */
  datatype PasswordRow = PasswordRow(
    userIDNum: UserIds.UserIDNum,
    passwordHash: string,
    creation: TerminalStore.Deletion,
    deletion: Option<TerminalStore.Deletion>)

  /** A row that is not soft-deleted and belongs to the user. */
  predicate IsLiveRowOf(row: PasswordRow, userIDNum: UserIds.UserIDNum)
  {
    row.userIDNum == userIDNum && row.deletion.None?
  }

  /** The rows after the UPDATE that stamps each live row of the user with the deletion. */
  function DeleteLiveRows(rows: seq<PasswordRow>, userIDNum: UserIds.UserIDNum, deletion: TerminalStore.Deletion): (r: seq<PasswordRow>)
    ensures |r| == |rows|
    ensures forall i :: 0 <= i < |rows| ==> r[i].userIDNum == rows[i].userIDNum && r[i].passwordHash == rows[i].passwordHash
    ensures forall i :: 0 <= i < |rows| ==> !IsLiveRowOf(r[i], userIDNum)
    ensures forall i :: 0 <= i < |rows| && rows[i].userIDNum != userIDNum ==> r[i] == rows[i]
  {
    seq(|rows|, i requires 0 <= i < |rows| =>
      if IsLiveRowOf(rows[i], userIDNum) then rows[i].(deletion := Some(deletion)) else rows[i])
  }

  /** The hash of the user's first live row, or "" for the "no rows" case of getUserPasswordHash. */
  function LiveHash(rows: seq<PasswordRow>, userIDNum: UserIds.UserIDNum): (r: string)
    ensures (forall i :: 0 <= i < |rows| ==> !IsLiveRowOf(rows[i], userIDNum)) ==> r == ""
    ensures r != "" ==> exists i :: 0 <= i < |rows| && IsLiveRowOf(rows[i], userIDNum) && rows[i].passwordHash == r
  {
    if rows == [] then ""
    else if IsLiveRowOf(rows[0], userIDNum) then rows[0].passwordHash
    else
      var r := LiveHash(rows[1..], userIDNum);
      assert forall i :: 1 <= i < |rows| ==> rows[1..][i - 1] == rows[i];
      r
  }

  /** With at most one live row for the user, that row's hash is the one read back. */
  lemma {:induction false} LiveHashOfOnlyRow(rows: seq<PasswordRow>, userIDNum: UserIds.UserIDNum, j: nat)
    requires j < |rows| && IsLiveRowOf(rows[j], userIDNum)
    requires forall i :: 0 <= i < |rows| && i != j ==> !IsLiveRowOf(rows[i], userIDNum)
    ensures LiveHash(rows, userIDNum) == rows[j].passwordHash
  {
    if j > 0 {
      assert !IsLiveRowOf(rows[0], userIDNum);
      LiveHashOfOnlyRow(rows[1..], userIDNum, j - 1);
    }
  }

  /** The hash read back for another user is unchanged when that user's rows are unchanged. */
  lemma {:induction false} LiveHashOfOtherUser(rows: seq<PasswordRow>, rows': seq<PasswordRow>, userIDNum: UserIds.UserIDNum)
    requires |rows| <= |rows'|
    requires forall i :: 0 <= i < |rows| ==> (rows[i].userIDNum == userIDNum || rows'[i].userIDNum == userIDNum ==> rows'[i] == rows[i])
    requires forall i :: |rows| <= i < |rows'| ==> rows'[i].userIDNum != userIDNum
    ensures LiveHash(rows', userIDNum) == LiveHash(rows, userIDNum)
  {
    if rows == [] {
      assert forall i :: 0 <= i < |rows'| ==> !IsLiveRowOf(rows'[i], userIDNum);
    } else {
      LiveHashOfOtherUser(rows[1..], rows'[1..], userIDNum);
    }
  }

  predicate OneLiveRowPerUser(rows: seq<PasswordRow>)
  {
    forall i, j :: 0 <= i < j < |rows| && rows[i].userIDNum == rows[j].userIDNum ==>
      rows[i].deletion.Some? || rows[j].deletion.Some?
  }

  /** Soft-deleting the user's live rows and adding at most one row of theirs keeps one live row per user. */
  lemma ReplaceKeepsOneLiveRow(rows: seq<PasswordRow>, userIDNum: UserIds.UserIDNum, deletion: TerminalStore.Deletion, added: seq<PasswordRow>)
    requires OneLiveRowPerUser(rows)
    requires |added| <= 1 && forall i :: 0 <= i < |added| ==> added[i].userIDNum == userIDNum
    ensures OneLiveRowPerUser(DeleteLiveRows(rows, userIDNum, deletion) + added)
  {
    var deleted := DeleteLiveRows(rows, userIDNum, deletion);
    var r := deleted + added;
    forall i, j | 0 <= i < j < |r| && r[i].userIDNum == r[j].userIDNum
      ensures r[i].deletion.Some? || r[j].deletion.Some?
    {
      if j >= |deleted| {
        assert r[i] == deleted[i] && !IsLiveRowOf(deleted[i], userIDNum);
      } else {
        assert r[i] == deleted[i] && r[j] == deleted[j];
      }
    }
  }

  class UserPasswordTable {
    var rows: seq<PasswordRow>

    /** Each user has at most one live password row. */
    ghost predicate Valid()
      reads this
    {
      OneLiveRowPerUser(rows)
    }

    constructor ()
      ensures rows == [] && Valid()
    {
      rows := [];
    }

    /** getUserPasswordHash: "" when the user has no live row. */
    function GetUserPasswordHash(userIDNum: UserIds.UserIDNum): (r: string)
      reads this
      ensures (forall i :: 0 <= i < |rows| ==> !IsLiveRowOf(rows[i], userIDNum)) ==> r == ""
      ensures r != "" ==> exists i :: 0 <= i < |rows| && IsLiveRowOf(rows[i], userIDNum) && rows[i].passwordHash == r
    {
      LiveHash(rows, userIDNum)
    }

    /**
     * MatchUserPassword: with no stored hash the empty password matches; otherwise the rules
     * of matchPasswordAndPasswordHash apply.
     */
    function MatchUserPassword(userID: UserIds.UserID, password: string, kdf: KeyDerivation): (r: (bool, Option<AzError>))
      reads this
      ensures GetUserPasswordHash(userID.idNum) == "" ==> r == (password == "", None)
      ensures GetUserPasswordHash(userID.idNum) != "" ==>
        r == MatchPasswordAndPasswordHash(password, GetUserPasswordHash(userID.idNum), kdf)
    {
      var passwordHash := GetUserPasswordHash(userID.idNum);
      if passwordHash == "" && password == passwordHash then (true, None)
      else MatchPasswordAndPasswordHash(password, passwordHash, kdf)
    }

    /**
     * SetUserPassword: only the user themself may set their password; the live row is
     * soft-deleted and a row with the new hash added, so the user keeps one live row and
     * the new hash is the one read back.
     */
    method SetUserPassword(ctx: Authorizations.Authorization, userID: UserIds.UserID, password: string,
                           saltRead: IdGeneration.RandomRead, kdf: KeyDerivation, ctxTime: int)
      returns (err: Option<AzError>)
      requires Valid()
      requires saltRead.Filled? ==> |saltRead.bytes| == ParamsDefault.saltLength
      modifies this
      ensures Valid()
      ensures !ctx.IsUser(userID) ==> err == Some(Authorizations.ErrOperationNotAllowed) && rows == old(rows)
      ensures ctx.IsUser(userID) && saltRead.ReadFailed? ==> err == Some(saltRead.cause) && rows == old(rows)
      ensures ctx.IsUser(userID) && saltRead.Filled? ==>
        var meta := TerminalStore.Deletion(ctxTime, ctx.TerminalIDNum(), ctx.UserIDNum());
        err.None? &&
        rows == DeleteLiveRows(old(rows), userID.idNum, meta) +
                [PasswordRow(userID.idNum, HashPassword(password, saltRead, kdf).value, meta, None)]
      ensures err.None? ==> GetUserPasswordHash(userID.idNum) == HashPassword(password, saltRead, kdf).value
      ensures forall u :: u != userID.idNum ==> GetUserPasswordHash(u) == old(GetUserPasswordHash(u))
    {
      if !ctx.IsUser(userID) {
        return Some(Authorizations.ErrOperationNotAllowed);
      }
      var passwordHash := HashPassword(password, saltRead, kdf);
      if passwordHash.Err? {
        return Some(passwordHash.error);
      }
      var meta := TerminalStore.Deletion(ctxTime, ctx.TerminalIDNum(), ctx.UserIDNum());
      var updated := DeleteLiveRows(rows, userID.idNum, meta);
      var newRow := PasswordRow(userID.idNum, passwordHash.value, meta, None);
      var oldRows := rows;
      ReplaceKeepsOneLiveRow(rows, userID.idNum, meta, [newRow]);
      rows := updated + [newRow];
      LiveHashOfOnlyRow(rows, userID.idNum, |rows| - 1);
      forall u | u != userID.idNum
        ensures LiveHash(rows, u) == LiveHash(oldRows, u)
      {
        LiveHashOfOtherUser(oldRows, rows, u);
      }
      err := None;
    }
  }
}
