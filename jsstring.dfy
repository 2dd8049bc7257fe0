/**
 * The part of ECMAScript's String.prototype.replace that the validation pass
 * relies on: replacing the first occurrence of a plain (non-regular-expression)
 * search string, with the replacement text expanded by GetSubstitution
 * for an empty list of captures.
 */
module JsString {
  import opened Optional

  /** `pat` occurs in `s` starting at index `i`. */
  predicate OccursAt(s: string, pat: string, i: nat) {
    i + |pat| <= |s| && s[i..i + |pat|] == pat
  }

  /** `pat` occurs in `s` somewhere. */
  predicate Contains(s: string, pat: string) {
    exists i: nat :: i <= |s| && OccursAt(s, pat, i)
  }

  /** `i` is the first index at which `pat` occurs in `s`. */
  predicate FirstOccursAt(s: string, pat: string, i: nat) {
    OccursAt(s, pat, i) && forall j: nat :: j < i ==> !OccursAt(s, pat, j)
  }

  /** An occurrence is the first one when the pattern's first character does not appear before it. */
  lemma FirstOccursAtByFirstChar(s: string, pat: string, i: nat)
    requires |pat| > 0 && OccursAt(s, pat, i) && pat[0] !in s[..i]
    ensures FirstOccursAt(s, pat, i)
  {
    forall j: nat | j < i ensures !OccursAt(s, pat, j) {
      assert s[..i][j] == s[j];
      assert j + |pat| <= |s| ==> s[j..j + |pat|][0] == s[j];
    }
  }

  /** StringIndexOf(s, pat, k): the first index at or after `k` where `pat` occurs. */
  function IndexFrom(s: string, pat: string, k: nat): (r: Option<nat>)
    decreases |s| - k
    ensures r.Some? ==> k <= r.value && OccursAt(s, pat, r.value)
    ensures r.Some? ==> forall j: nat :: k <= j < r.value ==> !OccursAt(s, pat, j)
    ensures r.None? ==> forall j: nat :: k <= j ==> !OccursAt(s, pat, j)
  {
    if k + |pat| > |s| then None
    else if s[k..k + |pat|] == pat then Some(k)
    else IndexFrom(s, pat, k + 1)
  }

  /** s.indexOf(pat), with None standing for -1. */
  function IndexOf(s: string, pat: string): (r: Option<nat>)
    ensures r.Some? <==> Contains(s, pat)
    ensures r.Some? ==> FirstOccursAt(s, pat, r.value)
  {
    IndexFrom(s, pat, 0)
  }

  /**
   * GetSubstitution with no captures: `$$` becomes `$`, `$&` the matched text,
   * `` $` `` the text before the match, `$'` the text after it; every other
   * character, a `$` included, is copied as it is.
   */
  function Substitute(rep: string, matched: string, before: string, after: string): string
    decreases |rep|
  {
    if |rep| == 0 then ""
    else if rep[0] == '$' && |rep| >= 2 && rep[1] == '$' then "$" + Substitute(rep[2..], matched, before, after)
    else if rep[0] == '$' && |rep| >= 2 && rep[1] == '&' then matched + Substitute(rep[2..], matched, before, after)
    else if rep[0] == '$' && |rep| >= 2 && rep[1] == '`' then before + Substitute(rep[2..], matched, before, after)
    else if rep[0] == '$' && |rep| >= 2 && rep[1] == '\'' then after + Substitute(rep[2..], matched, before, after)
    else [rep[0]] + Substitute(rep[1..], matched, before, after)
  }

  /** A replacement text without `$` is inserted verbatim. */
  lemma {:induction false} SubstituteLiteral(rep: string, matched: string, before: string, after: string)
    requires '$' !in rep
    ensures Substitute(rep, matched, before, after) == rep
  {
    if |rep| > 0 {
      assert rep[0] != '$';
      assert '$' !in rep[1..] by {
        forall k | 0 <= k < |rep[1..]| ensures rep[1..][k] != '$' {
          assert rep[1..][k] == rep[k + 1];
        }
      }
      SubstituteLiteral(rep[1..], matched, before, after);
      assert [rep[0]] + rep[1..] == rep;
    }
  }

  /** s.replace(pat, rep) for a string `pat`: only the first occurrence is replaced. */
  function Replace(s: string, pat: string, rep: string): (r: string)
    ensures !Contains(s, pat) ==> r == s
    ensures forall i: nat :: FirstOccursAt(s, pat, i) ==>
              r == s[..i] + Substitute(rep, pat, s[..i], s[i + |pat|..]) + s[i + |pat|..]
  {
    match IndexOf(s, pat)
    case None => s
    case Some(i) => s[..i] + Substitute(rep, pat, s[..i], s[i + |pat|..]) + s[i + |pat|..]
  }

  /** Without `$` in the replacement, the first occurrence is spliced out for `rep`. */
  lemma ReplaceLiteral(s: string, pat: string, rep: string, i: nat)
    requires '$' !in rep && FirstOccursAt(s, pat, i)
    ensures Replace(s, pat, rep) == s[..i] + rep + s[i + |pat|..]
  {
    SubstituteLiteral(rep, pat, s[..i], s[i + |pat|..]);
  }
}
