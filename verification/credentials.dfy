/**
 * The field rules shared by the log-in and sign-up forms: a required,
 * well-formed email address, a password of at least six characters and a
 * name of at least two.
 */
module Credentials {
  import opened Wrappers
  import opened JsText

  datatype CredentialField = NameField | EmailField | PasswordField

  /** `[^\s@]`: neither white space nor '@'. */
  predicate Plain(c: char) {
    !IsWhitespace(c) && c != '@'
  }

  predicate AllPlain(s: string) {
    forall k :: 0 <= k < |s| ==> Plain(s[k])
  }

  /** `/^[^\s@]+@[^\s@]+\.[^\s@]{2,}$/` matches `s` splitting it at the
      '@' in position `i` and the '.' in position `j`. The `i` flag changes
      nothing: the pattern has no letters. */
  predicate EmailSplit(s: string, i: nat, j: nat) {
    && 0 < i && i + 1 < j && j + 2 < |s|
    && s[i] == '@' && s[j] == '.'
    && AllPlain(s[..i]) && AllPlain(s[i + 1..j]) && AllPlain(s[j + 1..])
  }

  /** The pattern matches `s`: the regular expression engine backtracks
      until it finds a split, if there is one. */
  ghost predicate MatchesEmailPattern(s: string) {
    exists i: nat, j: nat :: EmailSplit(s, i, j)
  }

  /** The position of the first `c` in `s`. */
  function IndexOf(s: string, c: char): (r: Option<nat>)
    ensures r.Some? ==> r.value < |s| && s[r.value] == c && c !in s[..r.value]
    ensures r.None? ==> c !in s
  {
    if s == [] then None
    else if s[0] == c then Some(0)
    else match IndexOf(s[1..], c)
      case None => None
      case Some(k) =>
        assert s[..k + 1] == [s[0]] + s[1..][..k];
        Some(k + 1)
  }

  /** Some '.' lies at a position in `[lo, hi)`. */
  function DotBetween(s: string, lo: nat, hi: nat): (r: Option<nat>)
    requires hi <= |s|
    ensures r.Some? ==> lo <= r.value < hi && s[r.value] == '.'
    ensures r.None? ==> forall k :: lo <= k < hi ==> s[k] != '.'
    decreases hi - lo
  {
    if lo >= hi then None
    else if s[lo] == '.' then Some(lo)
    else DotBetween(s, lo + 1, hi)
  }

  /** A direct test of the pattern: no white space, exactly one '@' with
      something before it, and a '.' with at least one character between it
      and the '@' and at least two after it. */
  function IsEmail(s: string): bool {
    match IndexOf(s, '@')
    case None => false
    case Some(i) =>
      && i > 0 && |s| >= 2 && AllPlain(s[..i]) && AllPlain(s[i + 1..])
      && DotBetween(s, i + 2, |s| - 2).Some?
  }

  lemma PlainConcat(a: string, b: string)
    requires AllPlain(a) && AllPlain(b)
    ensures AllPlain(a + b)
  {
    forall k | 0 <= k < |a + b|
      ensures Plain((a + b)[k])
    {
      if k >= |a| {
        assert (a + b)[k] == b[k - |a|];
      }
    }
  }

  /** The direct test agrees with the pattern on every string. */
  lemma IsEmailIffPattern(s: string)
    ensures IsEmail(s) <==> MatchesEmailPattern(s)
  {
    if IsEmail(s) {
      DirectTestFindsSplit(s);
    }
    if MatchesEmailPattern(s) {
      var i: nat, j: nat :| EmailSplit(s, i, j);
      SplitPassesDirectTest(s, i, j);
    }
  }

  lemma DirectTestFindsSplit(s: string)
    requires IsEmail(s)
    ensures MatchesEmailPattern(s)
  {
    var i := IndexOf(s, '@').value;
    var j := DotBetween(s, i + 2, |s| - 2).value;
    var tail := s[i + 1..];
    assert s[i + 1..j] == tail[..j - i - 1];
    assert s[j + 1..] == tail[j - i..];
    assert EmailSplit(s, i, j);
  }

  lemma SplitPassesDirectTest(s: string, i: nat, j: nat)
    requires EmailSplit(s, i, j)
    ensures IsEmail(s)
  {
    assert '@' !in s[..i] by {
      forall k | 0 <= k < i ensures s[..i][k] != '@' {
        assert Plain(s[..i][k]);
      }
    }
    assert s[..i + 1] == s[..i] + [s[i]];
    assert IndexOf(s, '@') == Some(i);
    assert s[i + 1..] == s[i + 1..j] + [s[j]] + s[j + 1..];
    PlainConcat(s[i + 1..j], [s[j]]);
    PlainConcat(s[i + 1..j] + [s[j]], s[j + 1..]);
    assert DotBetween(s, i + 2, |s| - 2).Some?;
  }

  /** The email field: required, then the pattern. */
  function EmailError(email: string): (r: Option<string>)
    ensures r.None? <==> MatchesEmailPattern(email)
    ensures email == "" ==> r == Some("Email is required")
    ensures email != "" && !MatchesEmailPattern(email) ==> r == Some("Enter a valid email address")
  {
    IsEmailIffPattern(email);
    if email == "" then Some("Email is required")
    else if !IsEmail(email) then Some("Enter a valid email address")
    else None
  }

  /** The password field: required, then at least six characters. */
  function PasswordError(password: string): (r: Option<string>)
    ensures r.None? <==> |password| >= 6
    ensures password == "" ==> r == Some("Password is required")
    ensures 0 < |password| < 6 ==> r == Some("Password must be at least 6 characters")
  {
    if password == "" then Some("Password is required")
    else if |password| < 6 then Some("Password must be at least 6 characters")
    else None
  }

  /** The sign-up name field: required, then at least two characters. */
  function NameError(name: string): (r: Option<string>)
    ensures r.None? <==> |name| >= 2
    ensures name == "" ==> r == Some("Full name is required")
    ensures |name| == 1 ==> r == Some("Name must be at least 2 characters")
  {
    if name == "" then Some("Full name is required")
    else if |name| < 2 then Some("Name must be at least 2 characters")
    else None
  }

  /** The errors `handleSubmit` leaves on the log-in form. */
  function LoginErrors(email: string, password: string): (r: map<CredentialField, string>)
    ensures NameField !in r
    ensures EmailField in r <==> !MatchesEmailPattern(email)
    ensures PasswordField in r <==> |password| < 6
    ensures EmailField in r ==> r[EmailField] == EmailError(email).value
    ensures PasswordField in r ==> r[PasswordField] == PasswordError(password).value
  {
    var e: map<CredentialField, string> := if EmailError(email).Some? then map[EmailField := EmailError(email).value] else map[];
    if PasswordError(password).Some? then e[PasswordField := PasswordError(password).value] else e
  }

  /** The errors `handleSubmit` leaves on the sign-up form. */
  function SignupErrors(name: string, email: string, password: string): (r: map<CredentialField, string>)
    ensures NameField in r <==> |name| < 2
    ensures EmailField in r <==> !MatchesEmailPattern(email)
    ensures PasswordField in r <==> |password| < 6
    ensures NameField in r ==> r[NameField] == NameError(name).value
    ensures EmailField in r ==> r[EmailField] == EmailError(email).value
    ensures PasswordField in r ==> r[PasswordField] == PasswordError(password).value
  {
    var e := LoginErrors(email, password);
    if NameError(name).Some? then e[NameField := NameError(name).value] else e
  }
}
