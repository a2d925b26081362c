// Phone numbers (volib/pkg/telephony/phonenumber.go): a country code and a national number,
// the input they were parsed from, and whether the number library found them valid.
module PhoneNumbers {
  import opened Wrappers
  import opened Strings
  import opened Decimal
  import opened AzId

  type Int32 = x: int | -0x8000_0000 <= x < 0x8000_0000
  type Int64 = x: int | -0x8000_0000_0000_0000 <= x < 0x8000_0000_0000_0000
  type Uint64 = x: int | 0 <= x < 0x1_0000_0000_0000_0000

  datatype PhoneNumber = PhoneNumber(countryCode: Int32, nationalNumber: Int64, rawInput: string, isValid: bool)
  {
    /** IsSound: what the number library said of the number. */
    predicate IsSound()
    {
      isValid
    }

    function CountryCode(): (r: Int32)
    {
      countryCode
    }

    function NationalNumber(): (r: Int64)
    {
      nationalNumber
    }

    function RawInput(): (r: string)
    {
      rawInput
    }

    /** Equals: the same country code and national number; the raw input and validity are not compared. */
    predicate Equals(other: EqualsArg)
    {
      match other
      case Value(o) => o.countryCode == countryCode && o.nationalNumber == nationalNumber
      case Pointer(p) => p.Some? && p.value.countryCode == countryCode && p.value.nationalNumber == nationalNumber
      case OtherType => false
    }

    /** String: "+" for the zero number, else "+", the country code, then the national number, in decimal. */
    function String(): (r: string)
      ensures HasPrefix(r, "+")
      ensures countryCode == 0 && nationalNumber == 0 ==> r == "+"
      ensures !(countryCode == 0 && nationalNumber == 0) ==>
        r == "+" + FormatInt(countryCode) + FormatInt(nationalNumber) && |r| >= 3
    {
      if countryCode == 0 && nationalNumber == 0 then "+"
      else "+" + FormatInt(countryCode) + FormatInt(nationalNumber)
    }

    /** RawOrFormatted: the raw input when there is one, the formatted number otherwise. */
    function RawOrFormatted(): (r: string)
      ensures rawInput != "" ==> r == rawInput
      ensures rawInput == "" ==> r == String()
      ensures r != ""
    {
      if rawInput != "" then rawInput else String()
    }
  }

  /** The dynamic type of Equals' interface{} argument: a PhoneNumber, a *PhoneNumber (nil is None), or anything else. */
  datatype EqualsArg = Value(n: PhoneNumber) | Pointer(p: Option<PhoneNumber>) | OtherType

  /** NewPhoneNumber: no raw input, and not sound. */
  function NewPhoneNumber(countryCode: Int32, nationalNumber: Int64): (r: PhoneNumber)
    ensures r.CountryCode() == countryCode && r.NationalNumber() == nationalNumber
    ensures r.RawInput() == "" && !r.IsSound()
  {
    PhoneNumber(countryCode, nationalNumber, "", false)
  }

  /** What phonenumbers.Parse and IsValidNumber report: the country code, the uint64 national number and validity. */
  datatype LibraryNumber = LibraryNumber(countryCode: Int32, nationalNumber: Uint64, valid: bool)

  /** Go's int64(x) of a uint64: the same 64 bits read as two's complement. */
  function Int64OfUint64(x: Uint64): (r: Int64)
    ensures r % 0x1_0000_0000_0000_0000 == x
    ensures x < 0x8000_0000_0000_0000 ==> r == x
  {
    if x < 0x8000_0000_0000_0000 then x else x - 0x1_0000_0000_0000_0000
  }

  /**
   * The rewrite before parsing: an input that splits on '+' into exactly three parts
   * lost its client-added prefix, and becomes "+" and the third part.
   */
  function DropDoubledCountryCode(s: string): (r: string)
  {
    var parts := Split(s, '+');
    if |parts| == 3 then "+" + parts[2] else s
  }

  /**
   * PhoneNumberFromString. `parse` stands for phonenumbers.Parse (with no default region)
   * followed by IsValidNumber; an error from it is passed on. The rewritten input is the raw input.
   */
  function PhoneNumberFromString(s: string, parse: string -> Result<LibraryNumber, AzError>): (r: Result<PhoneNumber, AzError>)
    ensures parse(DropDoubledCountryCode(s)).Err? ==> r == Err(parse(DropDoubledCountryCode(s)).error)
    ensures parse(DropDoubledCountryCode(s)).Ok? ==>
      var n := parse(DropDoubledCountryCode(s)).value;
      r.Ok? && r.value.countryCode == n.countryCode && r.value.rawInput == DropDoubledCountryCode(s) &&
      r.value.nationalNumber % 0x1_0000_0000_0000_0000 == n.nationalNumber && r.value.IsSound() == n.valid
  {
    var input := DropDoubledCountryCode(s);
    match parse(input)
    case Err(e) => Err(e)
    case Ok(n) => Ok(PhoneNumber(n.countryCode, Int64OfUint64(n.nationalNumber), input, n.valid))
  }

  /** strings.Split makes one more part than there are separators. */
  lemma {:induction false} SplitCount(s: string, sep: char)
    ensures |Split(s, sep)| == Count(s, sep) + 1
    decreases |s|
  {
    var k := IndexOf(s, sep);
    if k < 0 {
      CountNone(s, sep);
    } else {
      SplitCount(s[k + 1..], sep);
      CountSplitsAt(s, sep, k);
    }
  }

  lemma {:induction false} CountNone(s: string, c: char)
    requires forall i :: 0 <= i < |s| ==> s[i] != c
    ensures Count(s, c) == 0
  {
    if s != [] {
      CountNone(s[1..], c);
    }
  }

  /** Counting across the first separator. */
  lemma {:induction false} CountSplitsAt(s: string, c: char, k: nat)
    requires k < |s| && s[k] == c && forall i :: 0 <= i < k ==> s[i] != c
    ensures Count(s, c) == 1 + Count(s[k + 1..], c)
  {
    if k > 0 {
      CountSplitsAt(s[1..], c, k - 1);
      assert s[1..][k..] == s[k + 1..];
    }
  }

  /** The rewrite happens exactly when the input holds two '+'. */
  lemma RewrittenIffTwoPluses(s: string)
    ensures |Split(s, '+')| == 3 <==> Count(s, '+') == 2
  {
    SplitCount(s, '+');
  }

  /** An input with two '+' becomes "+" and the text after the second. */
  lemma RewriteKeepsTailAfterSecondPlus(a: string, b: string, c: string)
    requires forall i :: 0 <= i < |a| ==> a[i] != '+'
    requires forall i :: 0 <= i < |b| ==> b[i] != '+'
    requires forall i :: 0 <= i < |c| ==> c[i] != '+'
    ensures DropDoubledCountryCode(a + "+" + b + "+" + c) == "+" + c
  {
    var parts := [a, b, c];
    assert Join([b, c], '+') == b + "+" + c by {
      assert [b, c][1..] == [c];
    }
    assert parts[1..] == [b, c];
    assert Join(parts, '+') == a + "+" + (b + "+" + c);
    assert a + "+" + (b + "+" + c) == a + "+" + b + "+" + c;
    SplitJoin(parts, '+');
  }

  /** Any other count of '+' leaves the input as it is. */
  lemma NotRewrittenOtherwise(s: string)
    requires Count(s, '+') != 2
    ensures DropDoubledCountryCode(s) == s
  {
    SplitCount(s, '+');
  }

  /** The numbers of NewPhoneNumber print without their raw input. */
  lemma NewPhoneNumberIsFormatted(countryCode: Int32, nationalNumber: Int64)
    ensures NewPhoneNumber(countryCode, nationalNumber).RawOrFormatted() == NewPhoneNumber(countryCode, nationalNumber).String()
  {
  }

  /** Equal numbers print the same, whatever their raw inputs. */
  lemma EqualsSameString(a: PhoneNumber, b: PhoneNumber)
    requires a.Equals(Value(b))
    ensures a.String() == b.String()
  {
  }

  /** Equals is an equivalence on numbers, and a pointer compares as its target does. */
  lemma EqualsEquivalence(a: PhoneNumber, b: PhoneNumber, c: PhoneNumber)
    ensures a.Equals(Value(a))
    ensures a.Equals(Value(b)) <==> b.Equals(Value(a))
    ensures a.Equals(Value(b)) && b.Equals(Value(c)) ==> a.Equals(Value(c))
    ensures a.Equals(Pointer(Some(b))) <==> a.Equals(Value(b))
    ensures !a.Equals(Pointer(None)) && !a.Equals(OtherType)
  {
  }

  /**
   * String puts no boundary between the two numbers: country code 1 with national
   * number 23 prints as country code 12 with national number 3 does.
   */
  lemma StringHasNoBoundary()
    ensures NewPhoneNumber(1, 23).String() == NewPhoneNumber(12, 3).String() == "+123"
    ensures !NewPhoneNumber(1, 23).Equals(Value(NewPhoneNumber(12, 3)))
  {
    assert FormatNat(23) == FormatNat(2) + [DigitChar(3)];
    assert FormatNat(12) == FormatNat(1) + [DigitChar(2)];
  }
}
