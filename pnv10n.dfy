// Phone-number verification methods (pkg/iam/pkg/iamserver/pnv10n/verification.go). The
// method is a Go int: the named values are 0 to 3, and any other int is a method too.
module PhoneVerificationMethods {
  type VerificationMethod = int

  const Unspecified: VerificationMethod := 0
  const Unknown: VerificationMethod := 1
  const MethodNone: VerificationMethod := 2
  const SMS: VerificationMethod := 3

  /** IsValid: neither unspecified nor unknown. */
  predicate IsValid(m: VerificationMethod)
  {
    m != Unspecified && m != Unknown
  }

  /** VerificationMethodFromString: "" is unspecified, "none" and "sms" name their methods, anything else is unknown. */
  function VerificationMethodFromString(str: string): (r: VerificationMethod)
    ensures str == "" ==> r == Unspecified
    ensures str == "none" ==> r == MethodNone
    ensures str == "sms" ==> r == SMS
    ensures str != "" && str != "none" && str != "sms" ==> r == Unknown
    ensures r in {Unspecified, Unknown, MethodNone, SMS}
  {
    match str
    case "" => Unspecified
    case "none" => MethodNone
    case "sms" => SMS
    case _ => Unknown
  }

  /** A string names a valid method exactly when it is "none" or "sms". */
  lemma FromStringValid(str: string)
    ensures IsValid(VerificationMethodFromString(str)) <==> str == "none" || str == "sms"
  {
  }

  /** Which named values are valid, and what four sample strings parse to. */
  lemma TestVectors()
    ensures !IsValid(Unspecified) && !IsValid(Unknown) && IsValid(MethodNone) && IsValid(SMS)
    ensures VerificationMethodFromString("") == Unspecified
    ensures VerificationMethodFromString("none") == MethodNone
    ensures VerificationMethodFromString("sms") == SMS
    ensures VerificationMethodFromString("SMS") == Unknown
  {
  }
}
