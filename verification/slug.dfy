/**
 * The slug normaliser of the post form (`slugTransform`): trim, lower-case,
 * every run of characters outside [a-z0-9] becomes one hyphen, hyphens at the
 * ends are removed and repeated hyphens are collapsed. The slug is the post's
 * document id in the store.
 */
module Slug {
  import opened Wrappers
  import opened JsText

  predicate IsAlnum(c: char) { 'a' <= c <= 'z' || '0' <= c <= '9' }

  predicate IsSlugChar(c: char) { IsAlnum(c) || c == '-' }

  predicate AllSlugChars(s: string) {
    forall k :: 0 <= k < |s| ==> IsSlugChar(s[k])
  }

  ghost predicate NoDoubleHyphen(s: string) {
    forall i, j :: 0 <= i < j < |s| && j == i + 1 ==> !(s[i] == '-' && s[j] == '-')
  }

  /** A string the normaliser leaves alone: lower-case letters, digits and
      single interior hyphens. */
  ghost predicate IsCanonical(s: string) {
    && AllSlugChars(s)
    && NoDoubleHyphen(s)
    && (|s| > 0 ==> s[0] != '-' && s[|s| - 1] != '-')
  }

  /** `.replace(/[^a-z0-9]+/g, "-")`; `inRun` says the previous character
      already belonged to a replaced run. */
  function HyphenateRuns(s: string, inRun: bool): (r: string)
    ensures AllSlugChars(r) && NoDoubleHyphen(r)
    ensures inRun && |r| > 0 ==> r[0] != '-'
  {
    if s == [] then []
    else if IsAlnum(s[0]) then [s[0]] + HyphenateRuns(s[1..], false)
    else if inRun then HyphenateRuns(s[1..], true)
    else ['-'] + HyphenateRuns(s[1..], true)
  }

  /** The `^-+` half of `.replace(/^-+|-+$/g, "")`. */
  function StripLeadingHyphens(s: string): (r: string)
    ensures |r| <= |s| && r == s[|s| - |r|..]
    ensures |r| > 0 ==> r[0] != '-'
    ensures forall k :: 0 <= k < |s| - |r| ==> s[k] == '-'
  {
    if |s| > 0 && s[0] == '-' then StripLeadingHyphens(s[1..]) else s
  }

  /** The `-+$` half of `.replace(/^-+|-+$/g, "")`. */
  function StripTrailingHyphens(s: string): (r: string)
    ensures |r| <= |s| && r == s[..|r|]
    ensures |r| > 0 ==> r[|r| - 1] != '-'
    ensures forall k :: |r| <= k < |s| ==> s[k] == '-'
  {
    if |s| > 0 && s[|s| - 1] == '-' then StripTrailingHyphens(s[..|s| - 1]) else s
  }

  /** `.replace(/-{2,}/g, "-")`; `afterHyphen` says the previous character
      was a kept hyphen. */
  function CollapseHyphens(s: string, afterHyphen: bool): (r: string)
    ensures NoDoubleHyphen(r)
    ensures afterHyphen && |r| > 0 ==> r[0] != '-'
  {
    if s == [] then []
    else if s[0] == '-' then
      (if afterHyphen then [] else ['-']) + CollapseHyphens(s[1..], true)
    else [s[0]] + CollapseHyphens(s[1..], false)
  }

  /** The method chain of `slugTransform` on a string argument. */
  function Normalize(s: string): string {
    var hyphenated := HyphenateRuns(Lower(Trim(s)), false);
    CollapseHyphens(StripTrailingHyphens(StripLeadingHyphens(hyphenated)), false)
  }

  /** `slugTransform(value)`: `None` stands for a missing or non-string value. */
  function SlugTransform(value: Option<string>): (r: string)
    ensures value.None? ==> r == ""
    ensures IsCanonical(r)
  {
    match value
    case None => ""
    case Some(s) => NormalizeIsCanonical(s); Normalize(s)
  }

  // ---------------------------------------------------------------------------
  // The output is canonical.

  lemma {:induction false} CollapseKeeps(s: string, afterHyphen: bool)
    requires NoDoubleHyphen(s)
    requires afterHyphen && |s| > 0 ==> s[0] != '-'
    ensures CollapseHyphens(s, afterHyphen) == s
  {
    if s != [] {
      CollapseKeeps(s[1..], s[0] == '-');
    }
  }

  /** A slice of a string that has neither foreign characters nor double
      hyphens has neither. */
  lemma SliceKeepsShape(s: string, i: nat, j: nat)
    requires i <= j <= |s|
    requires AllSlugChars(s) && NoDoubleHyphen(s)
    ensures AllSlugChars(s[i..j]) && NoDoubleHyphen(s[i..j])
  {
    var t := s[i..j];
    forall k | 0 <= k < |t| ensures IsSlugChar(t[k]) {
      assert t[k] == s[i + k];
    }
    forall a, b | 0 <= a && b == a + 1 && b < |t| ensures !(t[a] == '-' && t[b] == '-') {
      assert t[a] == s[i + a] && t[b] == s[i + b];
    }
  }

  lemma StripsKeepShape(h: string)
    requires AllSlugChars(h) && NoDoubleHyphen(h)
    ensures var b := StripTrailingHyphens(StripLeadingHyphens(h));
      AllSlugChars(b) && NoDoubleHyphen(b)
  {
    var a := StripLeadingHyphens(h);
    var b := StripTrailingHyphens(a);
    SliceKeepsShape(h, |h| - |a|, |h|);
    SliceKeepsShape(a, 0, |b|);
    assert a[0..|b|] == b;
  }

  /** The final collapse step never has anything to collapse. */
  lemma CollapseIsNoOp(s: string)
    ensures Normalize(s) == StripTrailingHyphens(StripLeadingHyphens(HyphenateRuns(Lower(Trim(s)), false)))
  {
    var h := HyphenateRuns(Lower(Trim(s)), false);
    StripsKeepShape(h);
    CollapseKeeps(StripTrailingHyphens(StripLeadingHyphens(h)), false);
  }

  lemma NormalizeIsCanonical(s: string)
    ensures IsCanonical(Normalize(s))
  {
    var h := HyphenateRuns(Lower(Trim(s)), false);
    CollapseIsNoOp(s);
    StripsKeepShape(h);
    var a := StripLeadingHyphens(h);
    var b := StripTrailingHyphens(a);
    if |b| > 0 {
      assert b[0] == a[0];
    }
  }

  // ---------------------------------------------------------------------------
  // Canonical strings are exactly the fixpoints.

  lemma {:induction false} HyphenateKeeps(s: string, inRun: bool)
    requires AllSlugChars(s) && NoDoubleHyphen(s)
    requires inRun && |s| > 0 ==> s[0] != '-'
    ensures HyphenateRuns(s, inRun) == s
  {
    if s != [] {
      HyphenateKeeps(s[1..], s[0] == '-');
    }
  }

  lemma {:induction false} LowerKeepsSlugChars(s: string)
    requires AllSlugChars(s)
    ensures Lower(s) == s
  {
    if s != [] {
      LowerKeepsSlugChars(s[1..]);
    }
  }

  lemma CanonicalIsFixpoint(s: string)
    requires IsCanonical(s)
    ensures Normalize(s) == s
  {
    TrimIdentity(s);
    assert Trim(s) == s;
    LowerKeepsSlugChars(s);
    HyphenateKeeps(s, false);
    assert HyphenateRuns(Lower(Trim(s)), false) == s;
    assert StripLeadingHyphens(s) == s;
    assert StripTrailingHyphens(s) == s;
    CollapseKeeps(s, false);
  }

  /** The slug field's `validate` rule (`slugTransform(v) === v`) accepts
      exactly the canonical strings. */
  lemma FixpointIffCanonical(v: string)
    ensures SlugTransform(Some(v)) == v <==> IsCanonical(v)
  {
    if IsCanonical(v) {
      CanonicalIsFixpoint(v);
    }
  }

  /** `slugTransform` is idempotent. */
  lemma Idempotent(value: Option<string>)
    ensures SlugTransform(Some(SlugTransform(value))) == SlugTransform(value)
  {
    CanonicalIsFixpoint(SlugTransform(value));
  }

  // ---------------------------------------------------------------------------
  // No letter or digit is lost, added or reordered.

  /** The letters and digits of `s`, in order. */
  function Alnums(s: string): (r: string)
    ensures |r| <= |s|
  {
    if s == [] then [] else (if IsAlnum(s[0]) then [s[0]] else []) + Alnums(s[1..])
  }

  /** `s` with its hyphens deleted. */
  function DropHyphens(s: string): (r: string)
    ensures |r| <= |s|
  {
    if s == [] then [] else (if s[0] == '-' then [] else [s[0]]) + DropHyphens(s[1..])
  }

  lemma {:induction false} AlnumsAppend(a: string, b: string)
    ensures Alnums(a + b) == Alnums(a) + Alnums(b)
  {
    if a == [] {
      assert a + b == b;
    } else {
      assert (a + b)[1..] == a[1..] + b;
      assert (a + b)[0] == a[0];
      AlnumsAppend(a[1..], b);
      calc {
        Alnums(a + b);
        (if IsAlnum(a[0]) then [a[0]] else []) + Alnums(a[1..] + b);
        (if IsAlnum(a[0]) then [a[0]] else []) + (Alnums(a[1..]) + Alnums(b));
      }
    }
  }

  lemma {:induction false} DropHyphensAppend(a: string, b: string)
    ensures DropHyphens(a + b) == DropHyphens(a) + DropHyphens(b)
  {
    if a == [] {
      assert a + b == b;
    } else {
      assert (a + b)[1..] == a[1..] + b;
      DropHyphensAppend(a[1..], b);
    }
  }

  lemma {:induction false} NoAlnumsInLoweredWhitespace(w: string)
    requires AllWhitespace(w)
    ensures Alnums(Lower(w)) == []
  {
    if w != [] {
      NoAlnumsInLoweredWhitespace(w[1..]);
      AlnumsAppend(LowerChar(w[0]), Lower(w[1..]));
    }
  }

  lemma LowerAlnums3(p: string, t: string, q: string)
    ensures Alnums(Lower(p + t + q)) == Alnums(Lower(p)) + Alnums(Lower(t)) + Alnums(Lower(q))
  {
    LowerAppend(p + t, q);
    LowerAppend(p, t);
    AlnumsAppend(Lower(p) + Lower(t), Lower(q));
    AlnumsAppend(Lower(p), Lower(t));
  }

  lemma TrimKeepsAlnums(s: string)
    ensures Alnums(Lower(Trim(s))) == Alnums(Lower(s))
  {
    var i := TrimSplit(s);
    var t := Trim(s);
    var p, q := s[..i], s[i + |t|..];
    assert s == p + t + q;
    LowerAlnums3(p, t, q);
    NoAlnumsInLoweredWhitespace(p);
    NoAlnumsInLoweredWhitespace(q);
  }

  lemma {:induction false} HyphenateKeepsAlnums(s: string, inRun: bool)
    ensures DropHyphens(HyphenateRuns(s, inRun)) == Alnums(s)
  {
    if s != [] {
      HyphenateKeepsAlnums(s[1..], !IsAlnum(s[0]));
      if IsAlnum(s[0]) {
        DropHyphensAppend([s[0]], HyphenateRuns(s[1..], false));
      } else if !inRun {
        DropHyphensAppend(['-'], HyphenateRuns(s[1..], true));
      }
    }
  }

  lemma LeadingHyphensCarryNothing(s: string)
    ensures DropHyphens(StripLeadingHyphens(s)) == DropHyphens(s)
  {
    var a := StripLeadingHyphens(s);
    var p := s[..|s| - |a|];
    assert s == p + a;
    HyphensOnlyDropToNothing(p);
    DropHyphensAppend(p, a);
  }

  lemma TrailingHyphensCarryNothing(s: string)
    ensures DropHyphens(StripTrailingHyphens(s)) == DropHyphens(s)
  {
    var b := StripTrailingHyphens(s);
    var q := s[|b|..];
    assert s == b + q;
    HyphensOnlyDropToNothing(q);
    DropHyphensAppend(b, q);
  }

  lemma {:induction false} HyphensOnlyDropToNothing(s: string)
    requires forall k :: 0 <= k < |s| ==> s[k] == '-'
    ensures DropHyphens(s) == []
  {
    if s != [] {
      HyphensOnlyDropToNothing(s[1..]);
    }
  }

  /** Deleting the hyphens from `slugTransform(s)` leaves the lower-cased
      letters and digits of `s`, in their original order. */
  lemma KeepsLettersAndDigits(s: string)
    ensures DropHyphens(SlugTransform(Some(s))) == Alnums(Lower(s))
  {
    var h := HyphenateRuns(Lower(Trim(s)), false);
    CollapseIsNoOp(s);
    LeadingHyphensCarryNothing(h);
    TrailingHyphensCarryNothing(StripLeadingHyphens(h));
    HyphenateKeepsAlnums(Lower(Trim(s)), false);
    TrimKeepsAlnums(s);
  }

  /** The slug is empty exactly when the text has no letter or digit (after
      lower-casing), so a title such as "!!!" yields an empty slug. */
  lemma EmptyIffNoAlnum(s: string)
    ensures SlugTransform(Some(s)) == "" <==> Alnums(Lower(s)) == ""
  {
    KeepsLettersAndDigits(s);
    var r := SlugTransform(Some(s));
    if r != "" {
      assert r[0] != '-';
      assert DropHyphens(r) == [r[0]] + DropHyphens(r[1..]);
    }
  }
}
