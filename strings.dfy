/**
 * The string operations the Java and TypeScript code relies on, with the semantics of
 * java.lang.String and JavaScript's String where they differ from plain sequence logic.
 * Strings are sequences of Unicode scalar values.
 */
module Strings {

  /** `s.startsWith(prefix)` in Java and JavaScript. */
  predicate StartsWith(s: string, prefix: string) {
    |prefix| <= |s| && s[..|prefix|] == prefix
  }

  /** `s.contains(sub)` (Java) and `s.includes(sub)` (JavaScript). */
  predicate Contains(s: string, sub: string)
    decreases |s|
  {
    StartsWith(s, sub) || (|s| > 0 && Contains(s[1..], sub))
  }

  /** Containment means an occurrence at some position. */
  lemma {:induction false} ContainsIffOccursAt(s: string, sub: string)
    ensures Contains(s, sub) <==> exists i :: 0 <= i <= |s| && StartsWith(s[i..], sub)
    decreases |s|
  {
    assert s[0..] == s;
    if |s| > 0 {
      ContainsIffOccursAt(s[1..], sub);
      if Contains(s, sub) && !StartsWith(s, sub) {
        var j :| 0 <= j <= |s[1..]| && StartsWith(s[1..][j..], sub);
        assert s[1..][j..] == s[j + 1..];
      }
      forall i | 0 < i <= |s| && StartsWith(s[i..], sub)
        ensures Contains(s[1..], sub)
      {
        assert s[1..][i - 1..] == s[i..];
      }
    }
  }

  /** Everything contains the empty string; a longer string is never contained. */
  lemma {:induction false} ContainsLength(s: string, sub: string)
    ensures Contains(s, "")
    ensures Contains(s, sub) ==> |sub| <= |s|
    decreases |s|
  {
    if |s| > 0 {
      ContainsLength(s[1..], sub);
    }
  }

  /** A string contains itself; a string contains what its suffixes contain. */
  lemma {:induction false} ContainsSuffix(s: string, i: nat, sub: string)
    requires i <= |s|
    requires Contains(s[i..], sub)
    ensures Contains(s, sub)
    decreases i
  {
    if i > 0 {
      assert s[1..][i - 1..] == s[i..];
      ContainsSuffix(s[1..], i - 1, sub);
    }
  }

  /** ASCII upper case letters map to lower case; every other character is unchanged. */
  function LowerChar(c: char): char {
    if 'A' <= c <= 'Z' then (c as int + 32) as char else c
  }

  /** `toLowerCase()` / SQL `LOWER`, restricted to the ASCII letters. */
  function ToLower(s: string): (r: string)
    ensures |r| == |s|
  {
    seq(|s|, i requires 0 <= i < |s| => LowerChar(s[i]))
  }

  /** Lowering is idempotent. */
  lemma ToLowerIdempotent(s: string)
    ensures ToLower(ToLower(s)) == ToLower(s)
  {
    forall i | 0 <= i < |s|
      ensures ToLower(ToLower(s))[i] == ToLower(s)[i]
    {
      var c := s[i];
      assert ToLower(s)[i] == LowerChar(c);
    }
  }

  /** Java's `trim()` removes leading and trailing characters whose code point is at most U+0020. */
  predicate IsTrimmable(c: char) {
    c <= ' '
  }

  function TrimStart(s: string): (r: string)
    ensures |r| <= |s| && r == s[|s| - |r|..]
    ensures |r| > 0 ==> !IsTrimmable(r[0])
    ensures forall i :: 0 <= i < |s| - |r| ==> IsTrimmable(s[i])
    decreases |s|
  {
    if |s| > 0 && IsTrimmable(s[0]) then TrimStart(s[1..]) else s
  }

  function TrimEnd(s: string): (r: string)
    ensures |r| <= |s| && r == s[..|r|]
    ensures |r| > 0 ==> !IsTrimmable(r[|r| - 1])
    ensures forall i :: |r| <= i < |s| ==> IsTrimmable(s[i])
    decreases |s|
  {
    if |s| > 0 && IsTrimmable(s[|s| - 1]) then TrimEnd(s[..|s| - 1]) else s
  }

  /** `String.trim()`. */
  function Trim(s: string): string {
    TrimEnd(TrimStart(s))
  }

  /** A trimmed string has no removable character at either end, and is a factor of the input. */
  lemma TrimIsTrimmed(s: string)
    ensures var t := Trim(s);
      && (|t| > 0 ==> !IsTrimmable(t[0]) && !IsTrimmable(t[|t| - 1]))
      && var a := |s| - |TrimStart(s)|; a + |t| <= |s| && t == s[a..a + |t|]
  {
    var u := TrimStart(s);
    var t := TrimEnd(u);
    var a := |s| - |u|;
    assert u == s[a..];
    assert t == u[..|t|];
    if |t| > 0 {
      assert |u| > 0 && t[0] == u[0];
      assert !IsTrimmable(u[0]);
      assert !IsTrimmable(t[|t| - 1]);
    }
    assert s[a..][..|t|] == s[a..a + |t|];
  }

  /** `trim()` adds no character: one absent from the input is absent from the result. */
  lemma TrimKeepsAbsent(s: string, c: char)
    requires c !in s
    ensures c !in Trim(s)
  {
    TrimIsTrimmed(s);
    var t := Trim(s);
    var a := |s| - |TrimStart(s)|;
    forall i | 0 <= i < |t| ensures t[i] != c {
      assert t[i] == s[a + i];
    }
  }

  /** `trim()` leaves a string that already has no removable character at its ends unchanged. */
  lemma TrimNoop(s: string)
    requires |s| > 0 ==> !IsTrimmable(s[0]) && !IsTrimmable(s[|s| - 1])
    ensures Trim(s) == s
  {
  }

  /** Hibernate Validator's `@NotBlank` on a non-null string: `trim()` leaves something. */
  predicate NotBlank(s: string) {
    |Trim(s)| > 0
  }

  /** A string is not blank in that sense exactly when one of its characters lies above U+0020. */
  lemma NotBlankIff(s: string)
    ensures NotBlank(s) <==> exists i :: 0 <= i < |s| && !IsTrimmable(s[i])
  {
    var u := TrimStart(s);
    var t := TrimEnd(u);
    var a := |s| - |u|;
    if NotBlank(s) {
      assert !IsTrimmable(u[0]) && u[0] == s[a];
    }
  }

  /** `CharSequence.length()`, what `@Size` bounds: the number of UTF-16 code units, two for a
      scalar value above U+FFFF. */
  function Utf16Length(s: string): (n: nat)
    ensures |s| <= n <= 2 * |s|
    ensures (forall i :: 0 <= i < |s| ==> s[i] < '\U{10000}') ==> n == |s|
    decreases |s|
  {
    if |s| == 0 then 0 else (if s[0] >= '\U{10000}' then 2 else 1) + Utf16Length(s[1..])
  }

  /** `@NotBlank` accepts an ideographic space and refuses U+0001; two emoji are four UTF-16 units. */
  lemma ValidationExamples()
    ensures NotBlank("\U{3000}") && !NotBlank("\U{0001}")
    ensures Utf16Length("\U{1F600}\U{1F600}") == 4 && Utf16Length("\U{1F600}\U{1F600}\U{1F600}") == 6
  {
    NotBlankIff("\U{3000}");
    NotBlankIff("\U{0001}");
  }

  /** `Character.isWhitespace`: the Unicode space, line and paragraph separators other than the
      no-break spaces U+00A0, U+2007 and U+202F, plus U+0009 to U+000D and U+001C to U+001F. */
  predicate IsJavaWhitespace(c: char) {
    || ('\t' <= c <= '\r')
    || ('\U{001C}' <= c <= '\U{001F}')
    || c == ' '
    || c == '\U{1680}'
    || ('\U{2000}' <= c <= '\U{2006}')
    || ('\U{2008}' <= c <= '\U{200A}')
    || c == '\U{2028}' || c == '\U{2029}'
    || c == '\U{205F}' || c == '\U{3000}'
  }

  /** `String.isBlank()`: empty, or only white space code points. */
  predicate IsBlank(s: string) {
    forall i :: 0 <= i < |s| ==> IsJavaWhitespace(s[i])
  }

  /** `s.split(sep)` for a one-character separator. Java drops trailing empty pieces; every caller
      here discards empty pieces anyway, so the model keeps them. */
  function Split(s: string, sep: char): (parts: seq<string>)
    ensures |parts| >= 1
    ensures forall k :: 0 <= k < |parts| ==> sep !in parts[k]
    decreases |s|
  {
    if |s| == 0 then [""]
    else
      var rest := Split(s[1..], sep);
      if s[0] == sep then [""] + rest
      else [[s[0]] + rest[0]] + rest[1..]
  }

  /** `String.join(sep, parts)`. */
  function Join(parts: seq<string>, sep: char): string
    decreases |parts|
  {
    if |parts| == 0 then ""
    else if |parts| == 1 then parts[0]
    else parts[0] + [sep] + Join(parts[1..], sep)
  }

  lemma {:induction false} SplitNoSep(a: string, sep: char)
    requires sep !in a
    ensures Split(a, sep) == [a]
    decreases |a|
  {
    if |a| > 0 {
      SplitNoSep(a[1..], sep);
      assert [a[0]] + a[1..] == a;
    }
  }

  lemma {:induction false} SplitAtSep(a: string, sep: char, b: string)
    requires sep !in a
    ensures Split(a + [sep] + b, sep) == [a] + Split(b, sep)
    decreases |a|
  {
    var s := a + [sep] + b;
    if |a| == 0 {
      assert s[1..] == b;
    } else {
      assert s[1..] == a[1..] + [sep] + b;
      SplitAtSep(a[1..], sep, b);
      assert [a[0]] + a[1..] == a;
    }
  }

  /** Splitting undoes joining when no piece holds the separator. */
  lemma {:induction false} SplitJoin(parts: seq<string>, sep: char)
    requires |parts| >= 1
    requires forall k :: 0 <= k < |parts| ==> sep !in parts[k]
    ensures Split(Join(parts, sep), sep) == parts
    decreases |parts|
  {
    if |parts| == 1 {
      SplitNoSep(parts[0], sep);
    } else {
      SplitJoin(parts[1..], sep);
      SplitAtSep(parts[0], sep, Join(parts[1..], sep));
      assert [parts[0]] + parts[1..] == parts;
    }
  }

  /** Java's `s.replace(target, replacement)`: every non-overlapping occurrence of target, scanning
      from the left, is replaced. */
  function ReplaceAll(s: string, target: string, replacement: string): string
    requires |target| > 0
    decreases |s|
  {
    if |s| < |target| then s
    else if s[..|target|] == target then replacement + ReplaceAll(s[|target|..], target, replacement)
    else [s[0]] + ReplaceAll(s[1..], target, replacement)
  }

  /** A string starting with the target starts with the replacement afterwards. */
  lemma ReplaceAllPrefix(s: string, target: string, replacement: string)
    requires |target| > 0 && StartsWith(s, target)
    ensures StartsWith(ReplaceAll(s, target, replacement), replacement)
  {
  }

  /** An occurrence at the front is replaced, and the scan goes on after it. */
  lemma ReplaceAllAtTarget(target: string, replacement: string, s: string)
    requires |target| > 0
    ensures ReplaceAll(target + s, target, replacement) == replacement + ReplaceAll(s, target, replacement)
  {
    assert (target + s)[..|target|] == target;
    assert (target + s)[|target|..] == s;
  }

  /** A first character that does not start an occurrence is kept, and the scan goes on after it. */
  lemma ReplaceAllSkip(c: char, s: string, target: string, replacement: string)
    requires |target| > 0 && !StartsWith([c] + s, target)
    ensures ReplaceAll([c] + s, target, replacement) == [c] + ReplaceAll(s, target, replacement)
  {
    assert ([c] + s)[1..] == s;
    if |[c] + s| < |target| {
      assert |s| < |target|;
    }
  }

  /** A string without an occurrence of the target is returned as it is. */
  lemma {:induction false} ReplaceAllAbsent(s: string, target: string, replacement: string)
    requires |target| > 0 && !Contains(s, target)
    ensures ReplaceAll(s, target, replacement) == s
    decreases |s|
  {
    if |s| >= |target| {
      ReplaceAllAbsent(s[1..], target, replacement);
      assert [s[0]] + s[1..] == s;
    }
  }

  /** `s.indexOf(c)`: the first position of c, or -1. */
  function IndexOf(s: string, c: char): (r: int)
    ensures -1 <= r < |s|
    ensures r == -1 <==> c !in s
    ensures r >= 0 ==> s[r] == c && c !in s[..r]
    decreases |s|
  {
    if |s| == 0 then -1
    else if s[0] == c then 0
    else
      var k := IndexOf(s[1..], c);
      assert s[1..][..k + 1] == s[1..k + 2] by {}
      if k == -1 then -1 else k + 1
  }

  /** `s.lastIndexOf(c)`: the last position of c, or -1. */
  function LastIndexOf(s: string, c: char): (r: int)
    ensures -1 <= r < |s|
    ensures r == -1 <==> c !in s
    ensures r >= 0 ==> s[r] == c && c !in s[r + 1..]
    decreases |s|
  {
    if |s| == 0 then -1
    else if s[|s| - 1] == c then |s| - 1
    else
      var k := LastIndexOf(s[..|s| - 1], c);
      assert s == s[..|s| - 1] + [s[|s| - 1]];
      k
  }

  /** A decimal digit. */
  predicate IsDigit(c: char) {
    '0' <= c <= '9'
  }

  predicate AllDigits(s: string) {
    forall i :: 0 <= i < |s| ==> IsDigit(s[i])
  }

  /** The value of a string of decimal digits. */
  function DigitsValue(s: string): nat
    requires AllDigits(s)
    decreases |s|
  {
    if |s| == 0 then 0
    else DigitsValue(s[..|s| - 1]) * 10 + (s[|s| - 1] as int - '0' as int)
  }

  /** The decimal representation of n, as Java's string concatenation renders an int. */
  function NatToString(n: nat): (s: string)
    ensures |s| >= 1 && AllDigits(s)
    decreases n
  {
    if n < 10 then [('0' as int + n) as char]
    else NatToString(n / 10) + [('0' as int + n % 10) as char]
  }

  /** Reading the digits back gives the number. */
  lemma {:induction false} NatToStringValue(n: nat)
    ensures DigitsValue(NatToString(n)) == n
    decreases n
  {
    var s := NatToString(n);
    if n >= 10 {
      NatToStringValue(n / 10);
      assert s[..|s| - 1] == NatToString(n / 10);
    }
  }
}
