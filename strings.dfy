/** The JavaScript string built-ins the control relies on, over `seq<char>`. */
module Strings {

  /** `s.startsWith(p)`: `p` is a prefix of `s`. */
  predicate StartsWith(s: string, p: string): (r: bool)
    ensures r <==> |p| <= |s| && forall k :: 0 <= k < |p| ==> s[k] == p[k]
  {
    |p| <= |s| && s[..|p|] == p
  }

  lemma StartsWithEmpty(s: string)
    ensures StartsWith(s, "")
  {
  }

  /** Being a prefix is transitive: a longer search term only narrows the matches. */
  lemma StartsWithTransitive(s: string, longer: string, shorter: string)
    requires StartsWith(s, longer) && StartsWith(longer, shorter)
    ensures StartsWith(s, shorter)
  {
    assert s[..|shorter|] == s[..|longer|][..|shorter|];
  }

  /** The characters `String.prototype.trim` strips: white space and line terminators. */
  predicate IsWhitespace(c: char) {
    c == ' ' || c == '\t' || c == '\n' || c == '\r' || c == '\U{B}' || c == '\U{C}' ||
    c == '\U{A0}' || c == '\U{1680}' || ('\U{2000}' <= c <= '\U{200A}') ||
    c == '\U{2028}' || c == '\U{2029}' || c == '\U{202F}' || c == '\U{205F}' ||
    c == '\U{3000}' || c == '\U{FEFF}'
  }

  /** The first position at or after `b` that does not hold white space (or the end). */
  function FirstKept(s: string, b: nat): (i: nat)
    requires b <= |s|
    ensures b <= i <= |s|
    ensures forall k :: b <= k < i ==> IsWhitespace(s[k])
    ensures i < |s| ==> !IsWhitespace(s[i])
    decreases |s| - b
  {
    if b == |s| || !IsWhitespace(s[b]) then b else FirstKept(s, b + 1)
  }

  /** The end of the stretch before the white space that runs up to `e`, stopping at `b`. */
  function LastKept(s: string, b: nat, e: nat): (j: nat)
    requires b <= e <= |s|
    ensures b <= j <= e
    ensures forall k :: j <= k < e ==> IsWhitespace(s[k])
    ensures b < j ==> !IsWhitespace(s[j - 1])
    decreases e
  {
    if e == b || !IsWhitespace(s[e - 1]) then e else LastKept(s, b, e - 1)
  }

  /** Neither end of `s` is white space. */
  predicate IsTrimmed(s: string) {
    s == [] || (!IsWhitespace(s[0]) && !IsWhitespace(s[|s| - 1]))
  }

  /** `r` is the piece of `s` that starts at `i`, and all of `s` around it is white space. */
  predicate StripsTo(s: string, i: int, r: string) {
    0 <= i <= |s| - |r| && r == s[i..i + |r|] &&
    (forall k :: 0 <= k < i ==> IsWhitespace(s[k])) &&
    (forall k :: i + |r| <= k < |s| ==> IsWhitespace(s[k]))
  }

  /** `s.trim()`: `s` without its leading and trailing white space. */
  function Trim(s: string): (r: string)
    ensures IsTrimmed(r)
    ensures exists i :: StripsTo(s, i, r)
  {
    var i := FirstKept(s, 0);
    var j := LastKept(s, i, |s|);
    assert StripsTo(s, i, s[i..j]);
    s[i..j]
  }

  /** Stripping white space down to a trimmed piece can only give what `trim` gives. */
  lemma TrimIsTheOnlyStrip(s: string, i: int, r: string)
    requires IsTrimmed(r) && StripsTo(s, i, r)
    ensures r == Trim(s)
  {
    var i0 := FirstKept(s, 0);
    var j0 := LastKept(s, i0, |s|);
    if r == [] {
      assert forall k :: 0 <= k < |s| ==> IsWhitespace(s[k]) by {
        forall k | 0 <= k < |s|
          ensures IsWhitespace(s[k])
        {
          if k >= i {
            assert i + |r| <= k;
          }
        }
      }
      assert i0 == |s|;
    } else {
      assert s[i] == r[0] && s[i + |r| - 1] == r[|r| - 1];
      assert i0 == i;
      assert j0 == i + |r|;
    }
  }

  /** Trimming leaves a string with no white space at either end unchanged. */
  lemma TrimKeepsTrimmed(s: string)
    requires IsTrimmed(s)
    ensures Trim(s) == s
  {
  }

  /** The case mapping of one character: `A`..`Z` to `a`..`z`, every other character kept. */
  function LowerChar(c: char): (r: char)
    ensures IsWhitespace(r) <==> IsWhitespace(c)
    ensures !('A' <= r <= 'Z')
  {
    if 'A' <= c <= 'Z' then (c as int - 'A' as int + 'a' as int) as char else c
  }

  /** `s.toLowerCase()`, character by character. */
  function ToLowerCase(s: string): (r: string)
    ensures |r| == |s|
    ensures forall k :: 0 <= k < |s| ==> r[k] == LowerChar(s[k])
  {
    if s == [] then [] else [LowerChar(s[0])] + ToLowerCase(s[1..])
  }

  /** No character of `s` is an upper-case letter. */
  predicate IsLowerCase(s: string) {
    forall k :: 0 <= k < |s| ==> !('A' <= s[k] <= 'Z')
  }

  lemma ToLowerCaseKeepsLowerCase(s: string)
    requires IsLowerCase(s)
    ensures ToLowerCase(s) == s
  {
  }

  /** Lower-casing neither adds nor removes white space at the ends. */
  lemma ToLowerCaseKeepsTrimmed(s: string)
    requires IsTrimmed(s)
    ensures IsTrimmed(ToLowerCase(s)) && IsLowerCase(ToLowerCase(s))
  {
  }

  /** The decimal digit for `d`. */
  function DigitChar(d: nat): (c: char)
    requires d < 10
    ensures '0' <= c <= '9'
  {
    ('0' as int + d) as char
  }

  /** `String(n)` for a non-negative integer: its decimal numeral, as `data-idx={idx}` renders it. */
  function Decimal(n: nat): (r: string)
    ensures |r| > 0
    ensures forall k :: 0 <= k < |r| ==> '0' <= r[k] <= '9'
  {
    if n < 10 then [DigitChar(n)] else Decimal(n / 10) + [DigitChar(n % 10)]
  }

  /** `Number(s)` on a string of decimal digits (the empty string reads as 0). */
  function ParseDecimal(s: string): (n: nat)
    requires forall k :: 0 <= k < |s| ==> '0' <= s[k] <= '9'
  {
    if s == [] then 0
    else ParseDecimal(s[..|s| - 1]) * 10 + (s[|s| - 1] as int - '0' as int)
  }

  /** Reading back a rendered index gives the index. */
  lemma {:induction false} DecimalRoundTrip(n: nat)
    ensures ParseDecimal(Decimal(n)) == n
  {
    if n >= 10 {
      var s := Decimal(n);
      assert s[..|s| - 1] == Decimal(n / 10);
      DecimalRoundTrip(n / 10);
    }
  }
}
