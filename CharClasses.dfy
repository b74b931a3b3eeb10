/**
 * The character classes of java.util.regex that the probe's patterns use
 * (without the UNICODE_CHARACTER_CLASS flag), and the scanning helpers built on them.
 */
module CharClasses {

  /** `\d`: an ASCII decimal digit. */
  predicate IsDigit(c: char) { '0' <= c <= '9' }

  /** `\s`: space, tab, newline, vertical tab, form feed or carriage return. */
  predicate IsSpace(c: char) {
    c == ' ' || c == '\t' || c == '\n' || c == '\U{0B}' || c == '\U{0C}' || c == '\r'
  }

  /** `\w`: an ASCII letter, digit or underscore. */
  predicate IsWordChar(c: char) {
    ('a' <= c <= 'z') || ('A' <= c <= 'Z') || IsDigit(c) || c == '_'
  }

  /** A character that can appear between the fields of a data line: whitespace or the bar. */
  predicate IsSep(c: char) { IsSpace(c) || c == '|' }

  predicate AllDigits(s: string) { forall i :: 0 <= i < |s| ==> IsDigit(s[i]) }

  predicate AllSpace(s: string) { forall i :: 0 <= i < |s| ==> IsSpace(s[i]) }

  predicate AllSep(s: string) { forall i :: 0 <= i < |s| ==> IsSep(s[i]) }

  predicate NoSep(s: string) { forall i :: 0 <= i < |s| ==> !IsSep(s[i]) }

  /** The number of occurrences of `c` in `s`. */
  function Count(s: string, c: char): (n: nat)
    ensures n <= |s|
    ensures n == 0 <==> forall i :: 0 <= i < |s| ==> s[i] != c
  {
    if s == [] then 0 else (if s[0] == c then 1 else 0) + Count(s[1..], c)
  }

  lemma {:induction false} CountAppend(a: string, b: string, c: char)
    ensures Count(a + b, c) == Count(a, c) + Count(b, c)
  {
    if a == [] {
      assert a + b == b;
    } else {
      assert (a + b)[1..] == a[1..] + b;
      CountAppend(a[1..], b, c);
    }
  }

  /** The index of the first `c` in `s`, or `|s|` when there is none. */
  function IndexOf(s: string, c: char): (k: nat)
    ensures k <= |s|
    ensures forall i :: 0 <= i < k ==> s[i] != c
    ensures k < |s| ==> s[k] == c
  {
    if s == [] then 0 else if s[0] == c then 0 else 1 + IndexOf(s[1..], c)
  }

  /** The longest prefix of `s` made of separator characters. */
  function Gap(s: string): (g: string)
    ensures |g| <= |s| && g == s[..|g|]
    ensures AllSep(g)
    ensures |g| < |s| ==> !IsSep(s[|g|])
  {
    if s != [] && IsSep(s[0]) then [s[0]] + Gap(s[1..]) else []
  }

  /** The longest prefix of `s` free of separator characters. */
  function Word(s: string): (w: string)
    ensures |w| <= |s| && w == s[..|w|]
    ensures NoSep(w)
    ensures |w| < |s| ==> IsSep(s[|w|])
  {
    if s != [] && !IsSep(s[0]) then [s[0]] + Word(s[1..]) else []
  }

  /** The longest prefix of `s` made of whitespace. */
  function Spaces(s: string): (g: string)
    ensures |g| <= |s| && g == s[..|g|]
    ensures AllSpace(g)
    ensures |g| < |s| ==> !IsSpace(s[|g|])
  {
    if s != [] && IsSpace(s[0]) then [s[0]] + Spaces(s[1..]) else []
  }

  /** The longest prefix of `s` free of whitespace. */
  function NonSpaces(s: string): (w: string)
    ensures |w| <= |s| && w == s[..|w|]
    ensures forall i :: 0 <= i < |w| ==> !IsSpace(w[i])
    ensures |w| < |s| ==> IsSpace(s[|w|])
  {
    if s != [] && !IsSpace(s[0]) then [s[0]] + NonSpaces(s[1..]) else []
  }

  /** A string is the maximal separator prefix of itself followed by anything that starts otherwise. */
  lemma {:induction false} GapOfConcat(g: string, rest: string)
    requires AllSep(g)
    requires rest == [] || !IsSep(rest[0])
    ensures Gap(g + rest) == g
  {
    if g == [] {
      assert g + rest == rest;
    } else {
      assert (g + rest)[1..] == g[1..] + rest;
      GapOfConcat(g[1..], rest);
    }
  }

  lemma {:induction false} WordOfConcat(w: string, rest: string)
    requires NoSep(w)
    requires rest == [] || IsSep(rest[0])
    ensures Word(w + rest) == w
  {
    if w == [] {
      assert w + rest == rest;
    } else {
      assert (w + rest)[1..] == w[1..] + rest;
      WordOfConcat(w[1..], rest);
    }
  }
}
