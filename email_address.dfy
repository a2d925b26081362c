// Email addresses (volib/pkg/email/address.go): parsing at the first '@', a domain checked
// against the label pattern of addressDomainRE and stored lowercased, and equality that
// ignores the letter case of the domain only.
module EmailAddresses {
  import opened Wrappers
  import opened Strings
  import opened AzId

  /** go-azfl's data.ErrMalformed. */
  const ErrMalformed: AzError := Named("malformed")
  const ErrLocalPartEmpty: AzError := EntMsg("local part", "empty")
  const ErrDomainPartInvalid: AzError := Ent("domain part", None)

  datatype Address = Address(localPart: string, domainPart: string, rawInput: string)
  {
    /** IsSound: both parts present. */
    predicate IsSound()
    {
      localPart != "" && domainPart != ""
    }

    /** String: the parts joined by '@'. */
    function String(): (r: string)
      ensures |r| == |localPart| + 1 + |domainPart|
      ensures r[..|localPart|] == localPart && r[|localPart|] == '@' && r[|localPart| + 1..] == domainPart
    {
      localPart + "@" + domainPart
    }

    /** Equals: the same local part, and domains equal up to letter case. */
    predicate Equals(other: EqualsArg)
    {
      match other
      case Value(o) => EqualFold(o.domainPart, domainPart) && o.localPart == localPart
      case Pointer(p) => p.Some? && EqualFold(p.value.domainPart, domainPart) && p.value.localPart == localPart
      case OtherType => false
    }
  }

  /** The dynamic type of Equals' interface{} argument: an Address, an *Address (nil is None), or anything else. */
  datatype EqualsArg = Value(a: Address) | Pointer(p: Option<Address>) | OtherType

  predicate IsASCIIAlnum(c: char)
  {
    'a' <= c <= 'z' || 'A' <= c <= 'Z' || '0' <= c <= '9'
  }

  /** One label of addressDomainRE: an alphanumeric, optionally up to 61 alphanumerics or '-' and a closing alphanumeric. */
  predicate IsDomainLabel(part: string)
  {
    1 <= |part| <= 63 && IsASCIIAlnum(part[0]) && IsASCIIAlnum(part[|part| - 1]) &&
    forall i :: 0 < i < |part| - 1 ==> IsASCIIAlnum(part[i]) || part[i] == '-'
  }

  /** addressDomainRE.MatchString: labels separated by single dots, the whole text and nothing else. */
  predicate MatchesDomainPattern(d: string)
    decreases |d|
  {
    var k := IndexOf(d, '.');
    if k < 0 then IsDomainLabel(d) else IsDomainLabel(d[..k]) && MatchesDomainPattern(d[k + 1..])
  }

  predicate AllLabels(parts: seq<string>)
  {
    forall i :: 0 <= i < |parts| ==> IsDomainLabel(parts[i])
  }

  lemma AllLabelsCons(first: string, rest: seq<string>)
    ensures AllLabels([first] + rest) <==> IsDomainLabel(first) && AllLabels(rest)
  {
    var parts := [first] + rest;
    assert forall i :: 1 <= i < |parts| ==> parts[i] == rest[i - 1];
    if IsDomainLabel(first) && AllLabels(rest) {
      forall i | 0 <= i < |parts|
        ensures IsDomainLabel(parts[i])
      {
        if i > 0 {
          assert IsDomainLabel(rest[i - 1]);
        }
      }
    }
    if AllLabels(parts) {
      assert IsDomainLabel(parts[0]);
      forall i | 0 <= i < |rest|
        ensures IsDomainLabel(rest[i])
      {
        assert IsDomainLabel(parts[i + 1]);
      }
    }
  }

  lemma SplitAtFirst(d: string, sep: char)
    ensures var k := IndexOf(d, sep);
      Split(d, sep) == if k < 0 then [d] else [d[..k]] + Split(d[k + 1..], sep)
  {
  }

  /** The pattern as a statement about the dot-separated parts. */
  lemma {:induction false} MatchesDomainPatternSplit(d: string)
    ensures MatchesDomainPattern(d) <==> AllLabels(Split(d, '.'))
    decreases |d|
  {
    var k := IndexOf(d, '.');
    SplitAtFirst(d, '.');
    if k >= 0 {
      MatchesDomainPatternSplit(d[k + 1..]);
      AllLabelsCons(d[..k], Split(d[k + 1..], '.'));
    }
  }

  /** The local characters addressRE allows: alphanumerics and !#$%&'*+/=?^_`{|}~.- */
  predicate IsLocalPartChar(c: char)
  {
    IsASCIIAlnum(c) || c in ".!#$%&'*+/=?^_`{|}~-"
  }

  /** IsValidAddress (addressRE): one or more local characters, '@', and a domain of the pattern above. */
  predicate IsValidAddress(str: string)
  {
    var k := IndexOf(str, '@');
    k > 0 && (forall i :: 0 <= i < k ==> IsLocalPartChar(str[i])) && MatchesDomainPattern(str[k + 1..])
  }

  /** AddressFromString: split at the first '@'; the local part is kept as given, the domain lowercased. */
  function AddressFromString(str: string): (r: Result<Address, AzError>)
    ensures IndexOf(str, '@') < 0 <==> r == Err(ErrMalformed)
    ensures IndexOf(str, '@') == 0 ==> r == Err(ErrLocalPartEmpty)
    ensures var k := IndexOf(str, '@');
      k > 0 ==> (r == Err(ErrDomainPartInvalid) <==> !MatchesDomainPattern(str[k + 1..]))
    ensures r.Ok? <==> var k := IndexOf(str, '@'); k > 0 && MatchesDomainPattern(str[k + 1..])
    ensures r.Ok? ==> var k := IndexOf(str, '@');
      r.value == Address(str[..k], ToLower(str[k + 1..]), str)
  {
    var k := IndexOf(str, '@');
    if k < 0 then Err(ErrMalformed)
    else
      var localPart := str[..k];
      var domainPart := str[k + 1..];
      if localPart == "" then Err(ErrLocalPartEmpty)
      else if domainPart == "" || !MatchesDomainPattern(domainPart) then Err(ErrDomainPartInvalid)
      else Ok(Address(localPart, ToLower(domainPart), str))
  }

  /** An input without '@' is malformed, whatever else it holds. */
  lemma NoAtIsMalformed(str: string)
    requires forall i :: 0 <= i < |str| ==> str[i] != '@'
    ensures AddressFromString(str) == Err(ErrMalformed)
  {
  }

  /** Only the first '@' splits: later ones belong to the domain, which the pattern then rejects. */
  lemma SecondAtRejected(localPart: string, rest: string)
    requires localPart != "" && forall i :: 0 <= i < |localPart| ==> localPart[i] != '@'
    requires exists i :: 0 <= i < |rest| && rest[i] == '@'
    ensures AddressFromString(localPart + "@" + rest) == Err(ErrDomainPartInvalid)
  {
    var s := localPart + "@" + rest;
    IndexOfAfterPrefix(localPart, rest, '@');
    assert s[|localPart| + 1..] == rest;
    AtNotInPattern(rest);
  }

  /** '@' is no domain character. */
  lemma {:induction false} AtNotInPattern(d: string)
    requires exists i :: 0 <= i < |d| && d[i] == '@'
    ensures !MatchesDomainPattern(d)
    decreases |d|
  {
    var i :| 0 <= i < |d| && d[i] == '@';
    var k := IndexOf(d, '.');
    if k >= 0 {
      if i < k {
        assert d[..k][i] == '@';
      } else {
        assert d[k + 1..][i - k - 1] == '@';
        AtNotInPattern(d[k + 1..]);
      }
    }
  }

  /** The first `c` of `a + [c] + b` is at |a| when `a` has none. */
  lemma {:induction false} IndexOfAfterPrefix(a: string, b: string, c: char)
    requires forall i :: 0 <= i < |a| ==> a[i] != c
    ensures IndexOf(a + [c] + b, c) == |a|
  {
    var s := a + [c] + b;
    if a != [] {
      IndexOfAfterPrefix(a[1..], b, c);
      assert s[1..] == a[1..] + [c] + b;
    }
  }

  /** Every address AddressFromString returns is sound. */
  lemma ParsedIsSound(str: string)
    requires AddressFromString(str).Ok?
    ensures AddressFromString(str).value.IsSound()
  {
  }

  /** Every valid address (addressRE) parses. */
  lemma ValidAddressParses(str: string)
    requires IsValidAddress(str)
    ensures AddressFromString(str).Ok?
  {
  }

  lemma LowerCharClasses(c: char)
    ensures IsASCIIAlnum(LowerChar(c)) <==> IsASCIIAlnum(c)
    ensures LowerChar(c) == '.' <==> c == '.'
    ensures LowerChar(c) == '-' <==> c == '-'
    ensures LowerChar(c) == '@' <==> c == '@'
  {
  }

  lemma LabelToLower(part: string)
    ensures IsDomainLabel(ToLower(part)) <==> IsDomainLabel(part)
  {
    var l := ToLower(part);
    forall i | 0 <= i < |part|
      ensures IsASCIIAlnum(l[i]) <==> IsASCIIAlnum(part[i])
      ensures l[i] == '-' <==> part[i] == '-'
    {
      LowerCharClasses(part[i]);
    }
  }

  /** Lowercasing keeps the dots where they are, so it keeps the first one. */
  lemma {:induction false} IndexOfToLower(s: string, c: char)
    requires c == '.' || c == '@'
    ensures IndexOf(ToLower(s), c) == IndexOf(s, c)
  {
    if s != [] {
      LowerCharClasses(s[0]);
      assert ToLower(s)[1..] == ToLower(s[1..]);
      IndexOfToLower(s[1..], c);
    }
  }

  lemma ToLowerSlices(s: string, k: nat)
    requires k < |s|
    ensures ToLower(s)[..k] == ToLower(s[..k])
    ensures ToLower(s)[k + 1..] == ToLower(s[k + 1..])
  {
  }

  /** A domain matches the pattern exactly when its lowercase form does. */
  lemma {:induction false} PatternToLower(d: string)
    ensures MatchesDomainPattern(ToLower(d)) <==> MatchesDomainPattern(d)
    decreases |d|
  {
    var k := IndexOf(d, '.');
    IndexOfToLower(d, '.');
    if k < 0 {
      LabelToLower(d);
    } else {
      ToLowerSlices(d, k);
      LabelToLower(d[..k]);
      PatternToLower(d[k + 1..]);
    }
  }

  lemma ToLowerIdempotent(s: string)
    ensures ToLower(ToLower(s)) == ToLower(s)
  {
  }

  /** Reparsing String() gives the same parts back, with String() as the raw input. */
  lemma ReparseString(str: string)
    requires AddressFromString(str).Ok?
    ensures var a := AddressFromString(str).value;
      AddressFromString(a.String()) == Ok(Address(a.localPart, a.domainPart, a.String()))
  {
    var a := AddressFromString(str).value;
    var k := IndexOf(str, '@');
    var t := a.String();
    assert t == a.localPart + ['@'] + a.domainPart;
    IndexOfAfterPrefix(a.localPart, a.domainPart, '@');
    PatternToLower(str[k + 1..]);
    ToLowerIdempotent(str[k + 1..]);
  }

  /** Addresses that differ only in the letter case of the domain parse to equal addresses. */
  lemma DomainCaseIgnored(localPart: string, d1: string, d2: string)
    requires ToLower(d1) == ToLower(d2)
    requires AddressFromString(localPart + "@" + d1).Ok?
    ensures AddressFromString(localPart + "@" + d2).Ok?
    ensures AddressFromString(localPart + "@" + d1).value.Equals(Value(AddressFromString(localPart + "@" + d2).value))
  {
    JoinedLocalHasNoAt(localPart, d1);
    ParseJoined(localPart, d1);
    ParseJoined(localPart, d2);
    PatternToLower(d1);
    PatternToLower(d2);
  }

  /** With a local part free of '@', the parse of local + "@" + d depends on the domain alone. */
  lemma ParseJoined(localPart: string, d: string)
    requires localPart != "" && forall i :: 0 <= i < |localPart| ==> localPart[i] != '@'
    ensures AddressFromString(localPart + "@" + d) ==
      if MatchesDomainPattern(d) then Ok(Address(localPart, ToLower(d), localPart + "@" + d)) else Err(ErrDomainPartInvalid)
  {
    var s := localPart + "@" + d;
    IndexOfAfterPrefix(localPart, d, '@');
    assert s[..|localPart|] == localPart;
    assert s[|localPart| + 1..] == d;
  }

  /** A local part that parses holds no '@': one there would move the '@' put after it into the domain. */
  lemma JoinedLocalHasNoAt(localPart: string, d: string)
    requires AddressFromString(localPart + "@" + d).Ok?
    ensures localPart != "" && forall i :: 0 <= i < |localPart| ==> localPart[i] != '@'
  {
    var s := localPart + "@" + d;
    var k := IndexOf(s, '@');
    if k < |localPart| {
      assert s[k + 1..][|localPart| - k - 1] == '@';
      AtNotInPattern(s[k + 1..]);
      assert false;
    }
    assert forall i :: 0 <= i < |localPart| ==> localPart[i] == s[i];
  }

  /** Equals is reflexive, and symmetric, on the values the parser gives out. */
  lemma EqualsReflexiveSymmetric(a: Address, b: Address)
    ensures a.Equals(Value(a))
    ensures a.Equals(Value(b)) <==> b.Equals(Value(a))
    ensures a.Equals(Pointer(Some(b))) <==> a.Equals(Value(b))
    ensures !a.Equals(Pointer(None)) && !a.Equals(OtherType)
  {
  }

  /** The local part is compared exactly, so a case change there makes a different address. */
  lemma LocalPartCaseMatters()
    ensures !Address("A", "x.com", "").Equals(Value(Address("a", "x.com", "")))
  {
    assert Address("a", "x.com", "").localPart != Address("A", "x.com", "").localPart;
  }
}
