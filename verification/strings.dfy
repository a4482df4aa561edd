/** Text helpers standing in for the Python string operations the detector
    uses: `s.lower()` (ASCII letters only) and the substring test `sub in s`. */
module Strings {

  predicate IsUpper(c: char) {
    'A' <= c <= 'Z'
  }

  predicate IsLowerLetter(c: char) {
    'a' <= c <= 'z'
  }

  predicate IsDigit(c: char) {
    '0' <= c <= '9'
  }

  predicate IsAlnum(c: char) {
    IsUpper(c) || IsLowerLetter(c) || IsDigit(c)
  }

  /** Lower-case one character: ASCII upper-case letters map to their
      lower-case partner, every other character is kept. */
  function LowerChar(c: char): (r: char)
    ensures !IsUpper(r)
    ensures IsUpper(c) ==> r as int == c as int + 32
    ensures !IsUpper(c) ==> r == c
  {
    if IsUpper(c) then (c as int + 32) as char else c
  }

  /** Upper-case one character (ASCII letters only). */
  function UpperChar(c: char): (r: char)
    ensures !IsLowerLetter(r)
    ensures IsLowerLetter(c) ==> r as int == c as int - 32
    ensures !IsLowerLetter(c) ==> r == c
  {
    if IsLowerLetter(c) then (c as int - 32) as char else c
  }

  /** `s.lower()`: the same length, each character lower-cased. */
  function Lower(s: string): (r: string)
    ensures |r| == |s|
    ensures forall i :: 0 <= i < |s| ==> r[i] == LowerChar(s[i])
  {
    if s == [] then [] else [LowerChar(s[0])] + Lower(s[1..])
  }

  /** Lower-casing commutes with slicing. */
  lemma LowerSlice(s: string, i: nat, j: nat)
    requires i <= j <= |s|
    ensures Lower(s)[i..j] == Lower(s[i..j])
  {
    assert forall k :: 0 <= k < j - i ==> Lower(s)[i..j][k] == Lower(s[i..j])[k];
  }

  /** No character of `s` is an upper-case letter. */
  predicate NoUpper(s: string) {
    forall i :: 0 <= i < |s| ==> !IsUpper(s[i])
  }

  /** Some character of `s` is an upper-case letter. */
  predicate HasUpper(s: string) {
    exists i :: 0 <= i < |s| && IsUpper(s[i])
  }

  lemma LowerHasNoUpper(s: string)
    ensures NoUpper(Lower(s))
  {
  }

  /** Lower-casing twice is lower-casing once. */
  lemma LowerIdempotent(s: string)
    ensures Lower(Lower(s)) == Lower(s)
  {
  }

  /** Text without upper-case letters is its own lower-case form. */
  lemma LowerOfNoUpper(s: string)
    requires NoUpper(s)
    ensures Lower(s) == s
  {
  }

  /** `p` is a prefix of `s`. */
  predicate StartsWith(s: string, p: string) {
    |p| <= |s| && s[..|p|] == p
  }

  /** `sub in s`, scanning `s` from the left. */
  predicate Contains(s: string, sub: string)
    decreases |s|
  {
    StartsWith(s, sub) || (|s| > 0 && Contains(s[1..], sub))
  }

  /** `sub` occurs in `s` at index `i`. */
  predicate OccursAt(s: string, sub: string, i: int) {
    0 <= i && i + |sub| <= |s| && s[i..i + |sub|] == sub
  }

  /** Every `sub in s` hit has a witnessing index. */
  lemma {:induction false} ContainsHasWitness(s: string, sub: string)
    requires Contains(s, sub)
    ensures exists i :: OccursAt(s, sub, i)
    decreases |s|
  {
    if StartsWith(s, sub) {
      assert OccursAt(s, sub, 0);
    } else {
      ContainsHasWitness(s[1..], sub);
      var i :| OccursAt(s[1..], sub, i);
      assert s[1..][i..i + |sub|] == s[i + 1..i + 1 + |sub|];
      assert OccursAt(s, sub, i + 1);
    }
  }

  /** An occurrence at any index is found by the left-to-right scan. */
  lemma {:induction false} WitnessGivesContains(s: string, sub: string, i: int)
    requires OccursAt(s, sub, i)
    ensures Contains(s, sub)
    decreases i
  {
    if i == 0 {
      assert s[..|sub|] == s[i..i + |sub|];
    } else {
      assert s[1..][i - 1..i - 1 + |sub|] == s[i..i + |sub|];
      WitnessGivesContains(s[1..], sub, i - 1);
    }
  }

  /** The scanning definition of `Contains` agrees with the positional one:
      `sub in s` holds exactly when `sub` occurs at some index of `s`. */
  lemma ContainsIffOccurs(s: string, sub: string)
    ensures Contains(s, sub) <==> exists i :: OccursAt(s, sub, i)
  {
    if Contains(s, sub) {
      ContainsHasWitness(s, sub);
    }
    if i :| OccursAt(s, sub, i) {
      WitnessGivesContains(s, sub, i);
    }
  }

  /** How often `sub` occurs in `s` when each occurrence is taken leftmost
      first and the scan resumes right after it, so that occurrences never
      overlap. An empty `sub` counts nothing. */
  function Occurrences(s: string, sub: string): nat
    decreases |s|
  {
    if sub == [] || |s| < |sub| then 0
    else if StartsWith(s, sub) then 1 + Occurrences(s[|sub|..], sub)
    else Occurrences(s[1..], sub)
  }

  /** An occurrence at the head of `s` is counted, and the count goes on
      after it; `u` is the text that follows. */
  lemma OccurrencesHit(s: string, sub: string, u: string)
    requires sub != [] && StartsWith(s, sub) && u == s[|sub|..]
    ensures Occurrences(s, sub) == 1 + Occurrences(u, sub)
  {
  }

  /** Without an occurrence at its head, `s` counts as its tail `u` does. */
  lemma OccurrencesMiss(s: string, sub: string, u: string)
    requires s != [] && !StartsWith(s, sub) && u == s[1..]
    ensures Occurrences(s, sub) == Occurrences(u, sub)
  {
    if sub != [] && |s| < |sub| {
      assert |u| < |sub|;
    }
  }

  /** A non-empty `sub` is counted at least once exactly when `sub in s`. */
  lemma {:induction false} OccurrencesIffContains(s: string, sub: string)
    requires sub != []
    ensures Occurrences(s, sub) > 0 <==> Contains(s, sub)
    decreases |s|
  {
    if |s| < |sub| {
      if Contains(s, sub) {
        ContainsHasWitness(s, sub);
      }
    } else if !StartsWith(s, sub) {
      OccurrencesIffContains(s[1..], sub);
    }
  }

  /** An upper-case letter in `sub` can never be found in a string that has
      none: the reason a pattern such as `Authorization.*Bearer.*sk-` can
      never match `src.lower()`. */
  lemma UpperNeverInLower(s: string, sub: string)
    requires HasUpper(sub)
    ensures !Contains(Lower(s), sub)
  {
    if Contains(Lower(s), sub) {
      ContainsHasWitness(Lower(s), sub);
    }
  }

  /** `any(tok in s for tok in tokens)`. */
  function ContainsAny(s: string, tokens: seq<string>): (b: bool)
    ensures b <==> exists k :: 0 <= k < |tokens| && Contains(s, tokens[k])
  {
    if tokens == [] then false
    else
      assert forall k :: 1 <= k < |tokens| ==> tokens[1..][k - 1] == tokens[k];
      Contains(s, tokens[0]) || ContainsAny(s, tokens[1..])
  }
}
