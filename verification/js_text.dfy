/**
 * The few JavaScript string primitives the components rely on: the `\s`
 * class (which is also what `String.prototype.trim` removes), `trim`,
 * `toLowerCase` (as far as it can produce ASCII), `startsWith` and
 * `Array.prototype.join`.
 */
module JsText {

  /** WhiteSpace and LineTerminator code points of ECMAScript: the `\s`
      class of a regular expression and the characters `trim` removes. */
  predicate IsWhitespace(c: char) {
    var n := c as int;
    n == 0x09 || n == 0x0A || n == 0x0B || n == 0x0C || n == 0x0D || n == 0x20
    || n == 0xA0 || n == 0x1680 || (0x2000 <= n <= 0x200A)
    || n == 0x2028 || n == 0x2029 || n == 0x202F || n == 0x205F
    || n == 0x3000 || n == 0xFEFF
  }

  predicate AllWhitespace(s: string) {
    forall k :: 0 <= k < |s| ==> IsWhitespace(s[k])
  }

  /** `trimStart`: drops the leading white space and nothing else. */
  function TrimStart(s: string): (r: string)
    ensures |r| <= |s| && r == s[|s| - |r|..]
    ensures AllWhitespace(s[..|s| - |r|])
    ensures |r| > 0 ==> !IsWhitespace(r[0])
  {
    if |s| > 0 && IsWhitespace(s[0]) then TrimStart(s[1..]) else s
  }

  /** `trimEnd`: drops the trailing white space and nothing else. */
  function TrimEnd(s: string): (r: string)
    ensures |r| <= |s| && r == s[..|r|]
    ensures AllWhitespace(s[|r|..])
    ensures |r| > 0 ==> !IsWhitespace(r[|r| - 1])
  {
    if |s| > 0 && IsWhitespace(s[|s| - 1]) then TrimEnd(s[..|s| - 1]) else s
  }

  /** `String.prototype.trim`. */
  function Trim(s: string): (r: string)
    ensures |r| <= |s|
    ensures |r| > 0 ==> !IsWhitespace(r[0]) && !IsWhitespace(r[|r| - 1])
  {
    TrimEnd(TrimStart(s))
  }

  /** A prefix `r` of the suffix `t` of `s` that starts at `i` is a slice
      of `s`, between what comes before `i` and what follows `r` in `t`. */
  lemma SliceOfSuffix(s: string, t: string, r: string, i: nat)
    requires i <= |s| && t == s[i..] && |r| <= |t| && r == t[..|r|]
    ensures s == s[..i] + r + s[i + |r|..]
    ensures s[i + |r|..] == t[|r|..]
  {
    assert s == s[..i] + s[i..];
    assert t == r + t[|r|..];
  }

  /** What `trim` removes is white space on both sides of a slice of `s`. */
  lemma TrimSplit(s: string) returns (i: nat)
    ensures i + |Trim(s)| <= |s|
    ensures s == s[..i] + Trim(s) + s[i + |Trim(s)|..]
    ensures AllWhitespace(s[..i]) && AllWhitespace(s[i + |Trim(s)|..])
  {
    var t := TrimStart(s);
    var r := TrimEnd(t);
    i := |s| - |t|;
    SliceOfSuffix(s, t, r, i);
  }

  /** `!s.trim()`: the trimmed string is empty exactly when every
      character is white space. */
  lemma TrimEmptyIffBlank(s: string)
    ensures Trim(s) == "" <==> AllWhitespace(s)
  {
    var i := TrimSplit(s);
    if Trim(s) == "" {
      assert s == s[..i] + s[i..];
      assert forall k :: i <= k < |s| ==> s[k] == s[i..][k - i];
    }
  }

  /** A string with no white space at either end is its own trim. */
  lemma {:induction false} TrimIdentity(s: string)
    requires |s| > 0 ==> !IsWhitespace(s[0]) && !IsWhitespace(s[|s| - 1])
    ensures Trim(s) == s
  {
  }

  /** The lower-case form of one code point under `toLowerCase`, kept exact
      for every code point whose lower-case form contains an ASCII character:
      the ASCII capitals, U+0130 (capital I with dot, which becomes "i"
      followed by U+0307) and U+212A (the Kelvin sign, which becomes "k").
      Any other code point is kept as it is. */
  function LowerChar(c: char): (r: string)
    ensures 'A' <= c <= 'Z' ==> r == [(c as int + 32) as char]
    ensures 0 < |r| <= 2
  {
    if 'A' <= c <= 'Z' then [(c as int + 32) as char]
    else if c as int == 0x130 then ['i', 0x307 as char]
    else if c as int == 0x212A then ['k']
    else [c]
  }

  /** `String.prototype.toLowerCase`, code point by code point. */
  function Lower(s: string): (r: string)
  {
    if s == [] then [] else LowerChar(s[0]) + Lower(s[1..])
  }

  lemma {:induction false} LowerAppend(a: string, b: string)
    ensures Lower(a + b) == Lower(a) + Lower(b)
  {
    if a == [] {
      assert a + b == b;
    } else {
      assert (a + b)[1..] == a[1..] + b;
      LowerAppend(a[1..], b);
    }
  }

  /** `s.startsWith(p)`. */
  predicate StartsWith(s: string, p: string) {
    |p| <= |s| && s[..|p|] == p
  }

  /** `parts.join(sep)`. */
  function Join(parts: seq<string>, sep: string): (r: string)
    ensures |parts| == 1 ==> r == parts[0]
  {
    if parts == [] then ""
    else if |parts| == 1 then parts[0]
    else parts[0] + sep + Join(parts[1..], sep)
  }
}
