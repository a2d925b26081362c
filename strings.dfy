// The parts of Go's `strings` package that the modelled code uses, on `seq<char>`.
module Strings {
  predicate HasPrefix(s: string, prefix: string)
  {
    |prefix| <= |s| && s[..|prefix|] == prefix
  }

  lemma PrefixOfConcat(a: string, b: string)
    ensures HasPrefix(a + b, a)
  {
    assert (a + b)[..|a|] == a;
  }

  predicate HasSuffix(s: string, suffix: string)
  {
    |suffix| <= |s| && s[|s| - |suffix|..] == suffix
  }

  /** strings.TrimPrefix: removes one leading copy of `prefix`, if present. */
  function TrimPrefix(s: string, prefix: string): (r: string)
    ensures HasPrefix(s, prefix) ==> prefix + r == s
    ensures !HasPrefix(s, prefix) ==> r == s
  {
    if HasPrefix(s, prefix) then s[|prefix|..] else s
  }

  /** strings.TrimSuffix: removes one trailing copy of `suffix`, if present. */
  function TrimSuffix(s: string, suffix: string): (r: string)
    ensures HasSuffix(s, suffix) ==> r + suffix == s
    ensures !HasSuffix(s, suffix) ==> r == s
  {
    if HasSuffix(s, suffix) then s[..|s| - |suffix|] else s
  }

  /** strings.TrimRight with a one-character cutset: removes every trailing `c`. */
  function TrimRight(s: string, c: char): (r: string)
    ensures |r| <= |s| && r == s[..|r|]
    ensures r == [] || r[|r| - 1] != c
    ensures forall i :: |r| <= i < |s| ==> s[i] == c
  {
    if |s| > 0 && s[|s| - 1] == c then TrimRight(s[..|s| - 1], c) else s
  }

  /** strings.TrimLeft with a one-character cutset: removes every leading `c`. */
  function TrimLeft(s: string, c: char): (r: string)
    ensures |r| <= |s| && r == s[|s| - |r|..]
    ensures r == [] || r[0] != c
    ensures forall i :: 0 <= i < |s| - |r| ==> s[i] == c
  {
    if |s| > 0 && s[0] == c then TrimLeft(s[1..], c) else s
  }

  /** strings.Trim with a one-character cutset. */
  function Trim(s: string, c: char): string
  {
    TrimRight(TrimLeft(s, c), c)
  }

  /** Quoting with `c` and then trimming `c` gives back text that neither starts nor ends with `c`. */
  lemma TrimQuoted(t: string, c: char)
    requires t == [] || (t[0] != c && t[|t| - 1] != c)
    ensures Trim([c] + t + [c], c) == t
  {
    var q := [c] + t + [c];
    assert q[1..] == t + [c];
    if t == [] {
      assert TrimLeft(q, c) == TrimLeft([c], c) == TrimLeft([], c);
    } else {
      assert TrimLeft(t + [c], c) == t + [c];
      assert (t + [c])[..|t|] == t;
    }
  }

  /**
   * unicode.IsSpace, the white space strings.TrimSpace removes: tab, line feed, vertical
   * tab, form feed, carriage return and space, U+0085 (NEL), U+00A0 (no-break space), and
   * the other characters of Unicode's White_Space property.
   */
  predicate IsSpace(c: char)
  {
    var n := c as int;
    n == 0x20 || 0x09 <= n <= 0x0D || n == 0x85 || n == 0xA0 || n == 0x1680 ||
    0x2000 <= n <= 0x200A || n == 0x2028 || n == 0x2029 || n == 0x202F || n == 0x205F || n == 0x3000
  }

  function TrimSpaceLeft(s: string): (r: string)
    ensures |r| <= |s| && r == s[|s| - |r|..]
    ensures r == [] || !IsSpace(r[0])
  {
    if |s| > 0 && IsSpace(s[0]) then TrimSpaceLeft(s[1..]) else s
  }

  function TrimSpaceRight(s: string): (r: string)
    ensures |r| <= |s| && r == s[..|r|]
    ensures r == [] || !IsSpace(r[|r| - 1])
  {
    if |s| > 0 && IsSpace(s[|s| - 1]) then TrimSpaceRight(s[..|s| - 1]) else s
  }

  /** strings.TrimSpace: leading and trailing white space removed. */
  function TrimSpace(s: string): (r: string)
    ensures r == [] || (!IsSpace(r[0]) && !IsSpace(r[|r| - 1]))
  {
    TrimSpaceRight(TrimSpaceLeft(s))
  }

  function LowerChar(c: char): char
  {
    if 'A' <= c <= 'Z' then (c as int + 32) as char else c
  }

  /** strings.ToLower, restricted to ASCII letters. */
  function ToLower(s: string): (r: string)
    ensures |r| == |s|
    ensures forall i :: 0 <= i < |s| ==> r[i] == LowerChar(s[i])
  {
    seq(|s|, i requires 0 <= i < |s| => LowerChar(s[i]))
  }

  /** Text without upper-case ASCII letters is its own lower case. */
  lemma ToLowerOfLower(s: string)
    requires forall i :: 0 <= i < |s| ==> !('A' <= s[i] <= 'Z')
    ensures ToLower(s) == s
  {
  }

  /** A lower-case ASCII letter is no white space. */
  lemma LetterIsNoSpace(c: char)
    requires 'a' <= c <= 'z'
    ensures !IsSpace(c)
  {
  }

  /** White space in front is dropped by TrimSpace. */
  lemma LeadingSpaceTrimmed(c: char, t: string)
    requires IsSpace(c)
    ensures TrimSpace([c] + t) == TrimSpace(t)
  {
    assert ([c] + t)[1..] == t;
  }

  /** White space after text that does not start with white space is dropped by TrimSpace. */
  lemma TrailingSpaceTrimmed(t: string, c: char)
    requires t != [] && !IsSpace(t[0]) && IsSpace(c)
    ensures TrimSpace(t + [c]) == TrimSpace(t)
  {
    var s := t + [c];
    assert TrimSpaceLeft(s) == s && TrimSpaceLeft(t) == t;
    assert s[..|s| - 1] == t;
  }

  /** Text that neither starts nor ends with white space is its own TrimSpace. */
  lemma TrimSpaceOfTrimmed(s: string)
    requires s == [] || (!IsSpace(s[0]) && !IsSpace(s[|s| - 1]))
    ensures TrimSpace(s) == s
  {
  }

  /** Lower-casing works character by character, so it distributes over concatenation. */
  lemma ToLowerConcat(a: string, b: string)
    ensures ToLower(a + b) == ToLower(a) + ToLower(b)
  {
  }

  /** strings.EqualFold, restricted to ASCII letters. */
  predicate EqualFold(a: string, b: string)
  {
    ToLower(a) == ToLower(b)
  }

  /** The position of the first `c` in `s`, if any. */
  function IndexOf(s: string, c: char): (r: int)
    ensures -1 <= r < |s|
    ensures r == -1 ==> forall i :: 0 <= i < |s| ==> s[i] != c
    ensures r >= 0 ==> s[r] == c && forall i :: 0 <= i < r ==> s[i] != c
  {
    if s == [] then -1
    else if s[0] == c then 0
    else var k := IndexOf(s[1..], c); if k < 0 then -1 else k + 1
  }

  /** Joins `parts` with the one-character separator `sep`. */
  function Join(parts: seq<string>, sep: char): string
  {
    if |parts| == 0 then ""
    else if |parts| == 1 then parts[0]
    else parts[0] + [sep] + Join(parts[1..], sep)
  }

  lemma JoinCons(part: string, rest: seq<string>, sep: char)
    requires |rest| >= 1
    ensures Join([part] + rest, sep) == part + [sep] + Join(rest, sep)
  {
    assert ([part] + rest)[1..] == rest;
  }

  /** Joining one more part adds the separator and the part at the end. */
  lemma {:induction false} JoinSnoc(parts: seq<string>, last: string, sep: char)
    requires |parts| >= 1
    ensures Join(parts + [last], sep) == Join(parts, sep) + [sep] + last
  {
    if |parts| == 1 {
      assert (parts + [last])[1..] == [last];
    } else {
      assert (parts + [last])[1..] == parts[1..] + [last];
      JoinSnoc(parts[1..], last, sep);
    }
  }

  /** strings.Split with a one-character separator: never empty, and `sep` occurs in no part. */
  function Split(s: string, sep: char): (r: seq<string>)
    ensures |r| >= 1
    ensures forall k, i :: 0 <= k < |r| && 0 <= i < |r[k]| ==> r[k][i] != sep
    ensures Join(r, sep) == s
  {
    var k := IndexOf(s, sep);
    if k < 0 then [s]
    else
      var rest := Split(s[k + 1..], sep);
      assert s == s[..k] + [sep] + s[k + 1..];
      [s[..k]] + rest
  }

  /** Splitting text joined from parts free of the separator gives the parts back. */
  lemma {:induction false} SplitJoin(parts: seq<string>, sep: char)
    requires |parts| >= 1
    requires forall k, i :: 0 <= k < |parts| && 0 <= i < |parts[k]| ==> parts[k][i] != sep
    ensures Split(Join(parts, sep), sep) == parts
  {
    if |parts| == 1 {
      assert IndexOf(Join(parts, sep), sep) == -1;
    } else {
      SplitJoin(parts[1..], sep);
      SplitJoinStep(parts, sep);
    }
  }

  /** The step of SplitJoin: the first part, then the split of the rest. */
  lemma SplitJoinStep(parts: seq<string>, sep: char)
    requires |parts| >= 2
    requires forall i :: 0 <= i < |parts[0]| ==> parts[0][i] != sep
    requires Split(Join(parts[1..], sep), sep) == parts[1..]
    ensures Split(Join(parts, sep), sep) == parts
  {
    var s := Join(parts, sep);
    var rest := Join(parts[1..], sep);
    assert s == parts[0] + [sep] + rest;
    SeparatorFoundAfterPart(parts[0], sep, rest);
    assert parts == [parts[0]] + parts[1..];
  }

  /** In a part free of `sep`, followed by `sep`, the first `sep` ends the part. */
  lemma SeparatorFoundAfterPart(part: string, sep: char, rest: string)
    requires forall i :: 0 <= i < |part| ==> part[i] != sep
    ensures var s := part + [sep] + rest;
      IndexOf(s, sep) == |part| && s[..|part|] == part && s[|part| + 1..] == rest
  {
    var s := part + [sep] + rest;
    assert s[|part|] == sep;
    assert forall i :: 0 <= i < |part| ==> s[i] == part[i];
    assert s[..|part|] == part;
    assert s[|part| + 1..] == rest;
  }

  /** The number of occurrences of `c` in `s`. */
  function Count(s: string, c: char): nat
  {
    if s == [] then 0 else (if s[0] == c then 1 else 0) + Count(s[1..], c)
  }

  lemma {:induction false} CountConcat(a: string, b: string, c: char)
    ensures Count(a + b, c) == Count(a, c) + Count(b, c)
  {
    if a != [] {
      assert (a + b)[0] == a[0];
      assert (a + b)[1..] == a[1..] + b;
      CountConcat(a[1..], b, c);
    } else {
      assert a + b == b;
    }
  }
}
