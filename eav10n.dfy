// Email-address verification methods (pkg/iam/pkg/iamserver/eav10n/verification.go): as
// for phone numbers, without SMS.
module EmailVerificationMethods {
  type VerificationMethod = int

  const Unspecified: VerificationMethod := 0
  const Unknown: VerificationMethod := 1
  const MethodNone: VerificationMethod := 2

  /** IsValid: neither unspecified nor unknown. */
  predicate IsValid(m: VerificationMethod)
  {
    m != Unspecified && m != Unknown
  }

  /** VerificationMethodFromString: "" is unspecified, "none" is the no-verification method, anything else is unknown. */
  function VerificationMethodFromString(str: string): (r: VerificationMethod)
    ensures str == "" ==> r == Unspecified
    ensures str == "none" ==> r == MethodNone
    ensures str != "" && str != "none" ==> r == Unknown
  {
    match str
    case "" => Unspecified
    case "none" => MethodNone
    case _ => Unknown
  }

  /** Only "none" names a valid method. */
  lemma FromStringValid(str: string)
    ensures IsValid(VerificationMethodFromString(str)) <==> str == "none"
  {
  }

  /** The parser reaches exactly three values. */
  lemma ThreeReachableValues()
    ensures forall s :: VerificationMethodFromString(s) in {Unspecified, Unknown, MethodNone}
    ensures VerificationMethodFromString("") == Unspecified
    ensures VerificationMethodFromString("sms") == Unknown
    ensures VerificationMethodFromString("none") == MethodNone
  {
  }
}
