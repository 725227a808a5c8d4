/**
 * Character-level helpers the Kotlin sources take from the standard library:
 * `isWhitespace`, `isBlank`, `trim`, `contains` and decimal rendering of
 * integers inside string templates.
 */
module Text {

  /** Kotlin's `Char.isWhitespace`: the Unicode space separators (the
      non-breaking ones included) and the ASCII controls U+0009 to U+000D and
      U+001C to U+001F. The control U+0085 is not white space. */
  predicate IsWhitespace(c: char) {
    || c == ' ' || c == '\t' || c == '\n' || c == '\r'
    || c == '\U{000B}' || c == '\U{000C}'
    || ('\U{001C}' <= c <= '\U{001F}')
    || c == '\U{00A0}' || c == '\U{1680}'
    || ('\U{2000}' <= c <= '\U{200A}')
    || c == '\U{2028}' || c == '\U{2029}' || c == '\U{202F}'
    || c == '\U{205F}' || c == '\U{3000}'
  }

  /** Kotlin's `CharSequence.isBlank`: empty or only white space. */
  predicate IsBlank(s: string) {
    forall i :: 0 <= i < |s| ==> IsWhitespace(s[i])
  }

  /** Number of leading white-space characters. */
  function LeadingSpace(s: string): (n: nat)
    ensures n <= |s|
    ensures forall i :: 0 <= i < n ==> IsWhitespace(s[i])
    ensures n < |s| ==> !IsWhitespace(s[n])
  {
    if |s| == 0 || !IsWhitespace(s[0]) then 0 else 1 + LeadingSpace(s[1..])
  }

  /** Number of trailing white-space characters. */
  function TrailingSpace(s: string): (n: nat)
    ensures n <= |s|
    ensures forall i :: |s| - n <= i < |s| ==> IsWhitespace(s[i])
    ensures n < |s| ==> !IsWhitespace(s[|s| - n - 1])
  {
    if |s| == 0 || !IsWhitespace(s[|s| - 1]) then 0 else 1 + TrailingSpace(s[..|s| - 1])
  }

  /** UTF-16 code units of one character: two (a surrogate pair) beyond the
      Basic Multilingual Plane, one otherwise. */
  function Utf16Units(c: char): nat {
    if c as int >= 0x1_0000 then 2 else 1
  }

  /** Kotlin's `String.length`, which counts UTF-16 code units rather than
      characters. */
  function Utf16Length(s: string): (n: nat)
    ensures |s| <= n <= 2 * |s|
    ensures n == |s| <==> forall i :: 0 <= i < |s| ==> s[i] as int < 0x1_0000
    decreases |s|
  {
    if |s| == 0 then 0 else Utf16Units(s[0]) + Utf16Length(s[1..])
  }

  /** The length of a concatenation is the sum of the lengths. */
  lemma {:induction false} Utf16LengthAppend(a: string, b: string)
    ensures Utf16Length(a + b) == Utf16Length(a) + Utf16Length(b)
    decreases |a|
  {
    if |a| == 0 {
      assert a + b == b;
    } else {
      assert (a + b)[0] == a[0] && (a + b)[1..] == a[1..] + b;
      Utf16LengthAppend(a[1..], b);
    }
  }

  /** Kotlin's `String.trim()`: the longest slice with no white space at either end. */
  function Trim(s: string): (t: string)
    ensures |t| <= |s|
    ensures t == [] || (!IsWhitespace(t[0]) && !IsWhitespace(t[|t| - 1]))
    ensures exists k :: SliceAt(s, k, t) && IsBlank(s[..k]) && IsBlank(s[k + |t|..])
  {
    var lead := LeadingSpace(s);
    if lead == |s| then
      assert SliceAt(s, |s|, []) && s[..|s|] == s;
      []
    else
      var rest := s[lead..];
      var trail := TrailingSpace(rest);
      assert trail < |rest|;
      var t := rest[..|rest| - trail];
      assert t == s[lead..lead + |t|];
      assert SliceAt(s, lead, t) && IsBlank(s[..lead]);
      assert s[lead + |t|..] == rest[|rest| - trail..];
      t
  }

  /** A string trims to nothing exactly when it is blank. */
  lemma TrimEmptyIffBlank(s: string)
    ensures Trim(s) == [] <==> IsBlank(s)
  {
    var lead := LeadingSpace(s);
    if lead < |s| {
      assert !IsWhitespace(s[lead]);
      var rest := s[lead..];
      var trail := TrailingSpace(rest);
      assert rest[0] == s[lead];
      assert Trim(s) == rest[..|rest| - trail];
      assert |Trim(s)| > 0;
    }
  }

  /** A string with no white space at either end trims to itself, so
      `trim()` is idempotent. */
  lemma TrimOfTrimmed(t: string)
    requires t == [] || (!IsWhitespace(t[0]) && !IsWhitespace(t[|t| - 1]))
    ensures Trim(t) == t
  {
    if t != [] {
      assert LeadingSpace(t) == 0;
      assert TrailingSpace(t[0..]) == 0;
    }
  }

  /** `trim()` is the only way to cut `s` into a blank prefix, a slice with no
      white space at either end, and a blank suffix. */
  lemma TrimIsUnique(s: string, k: nat, t: string)
    requires t == [] || (!IsWhitespace(t[0]) && !IsWhitespace(t[|t| - 1]))
    requires SliceAt(s, k, t) && IsBlank(s[..k]) && IsBlank(s[k + |t|..])
    ensures Trim(s) == t
  {
    var a, b, c := s[..k], s[k..], s[k + |t|..];
    assert s == a + b && b == t + c;
    if t == [] {
      BlankJoin(a, b);
      TrimEmptyIffBlank(s);
    } else {
      LeadingSpaceOf(a, b);
      assert LeadingSpace(s) == k;
      TrailingSpaceOf(t, c);
      assert TrailingSpace(b) == |c|;
      assert b[..|b| - |c|] == t;
    }
  }

  lemma BlankJoin(a: string, b: string)
    requires IsBlank(a) && IsBlank(b)
    ensures IsBlank(a + b)
  {
    assert forall i :: 0 <= i < |a + b| ==> (a + b)[i] == if i < |a| then a[i] else b[i - |a|];
  }

  /** A blank prefix followed by a non-white-space character is exactly the leading space. */
  lemma LeadingSpaceOf(a: string, b: string)
    requires IsBlank(a) && |b| > 0 && !IsWhitespace(b[0])
    ensures LeadingSpace(a + b) == |a|
  {
    var n := LeadingSpace(a + b);
    assert (a + b)[|a|] == b[0];
    assert forall i :: 0 <= i < |a| ==> (a + b)[i] == a[i];
  }

  /** A blank suffix after a non-white-space character is exactly the trailing space. */
  lemma TrailingSpaceOf(a: string, b: string)
    requires |a| > 0 && !IsWhitespace(a[|a| - 1]) && IsBlank(b)
    ensures TrailingSpace(a + b) == |b|
  {
    var n := TrailingSpace(a + b);
    assert (a + b)[|a| - 1] == a[|a| - 1];
    assert forall i :: |a| <= i < |a + b| ==> (a + b)[i] == b[i - |a|];
  }

  /** `sub` occurs in `s` starting at index `k`. */
  predicate SliceAt(s: string, k: int, sub: string) {
    0 <= k <= |s| - |sub| && s[k..k + |sub|] == sub
  }

  /** Kotlin's `String.contains(other)`: `sub` occurs as a contiguous slice of `s`. */
  predicate Contains(s: string, sub: string) {
    exists k | 0 <= k <= |s| :: SliceAt(s, k, sub)
  }

  /** Digit character of a value below ten. */
  function DigitChar(d: nat): char
    requires d < 10
  {
    ['0', '1', '2', '3', '4', '5', '6', '7', '8', '9'][d]
  }

  /** Decimal rendering of a natural number, as a string template prints it. */
  function NatToString(n: nat): (s: string)
    ensures |s| >= 1
    ensures forall i :: 0 <= i < |s| ==> '0' <= s[i] <= '9'
    decreases n
  {
    if n < 10 then [DigitChar(n)] else NatToString(n / 10) + [DigitChar(n % 10)]
  }

  /** Decimal rendering of an integer, with a leading minus sign when negative. */
  function IntToString(n: int): (s: string)
    ensures |s| >= 1
    ensures (n < 0) <==> s[0] == '-'
  {
    if n < 0 then "-" + NatToString(-n) else NatToString(n)
  }
}
