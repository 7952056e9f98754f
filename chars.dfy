/** ASCII character classes and the two string operations the classifiers use:
    `str.lower()` and the `in` test for substrings. */
module Chars {

  predicate IsUpper(c: char) {
    'A' <= c <= 'Z'
  }

  predicate IsLower(c: char) {
    'a' <= c <= 'z'
  }

  predicate IsDigit(c: char) {
    '0' <= c <= '9'
  }

  /** `\w` of a regular expression, restricted to ASCII. */
  predicate IsWordChar(c: char) {
    IsUpper(c) || IsLower(c) || IsDigit(c) || c == '_'
  }

  /** `\s` of a regular expression, restricted to ASCII: the space, tab through
      carriage return, and the four separator controls 0x1C-0x1F. */
  predicate IsSpace(c: char) {
    c == ' ' || '\t' <= c <= '\r' || '\U{1C}' <= c <= '\U{1F}'
  }

  function ToLower(c: char): char {
    if IsUpper(c) then (c as int + 32) as char else c
  }

  /** `str.lower()` on ASCII letters; other characters are kept. */
  function Lower(s: string): string {
    seq(|s|, k requires 0 <= k < |s| => ToLower(s[k]))
  }

  /** Lower-casing twice is lower-casing once. */
  lemma LowerIdempotent(s: string)
    ensures Lower(Lower(s)) == Lower(s)
  {
    var once := Lower(s);
    forall k | 0 <= k < |s|
      ensures Lower(once)[k] == once[k]
    {
      assert !IsUpper(once[k]);
    }
  }

  /** `sub` occurs in `t` starting at index `k`. */
  predicate OccursAt(t: string, sub: string, k: int) {
    0 <= k && k + |sub| <= |t| && t[k..k + |sub|] == sub
  }

  /** Python's `sub in t`. */
  function Contains(t: string, sub: string): (b: bool)
    ensures b <==> exists k :: OccursAt(t, sub, k)
    decreases |t|
  {
    if |sub| > |t| then
      false
    else if t[..|sub|] == sub then
      assert OccursAt(t, sub, 0);
      true
    else
      OccursShift(t, sub);
      Contains(t[1..], sub)
  }

  /** A substring with a character that `t` lacks does not occur in `t`. */
  lemma MissingCharNotContained(t: string, sub: string, i: nat)
    requires i < |sub| && sub[i] !in t
    ensures !Contains(t, sub)
  {
  }

  /** An occurrence in `t` that is not at the front is an occurrence in `t[1..]`. */
  lemma OccursShift(t: string, sub: string)
    requires |t| > 0 && !OccursAt(t, sub, 0)
    ensures (exists k :: OccursAt(t, sub, k)) <==> (exists k :: OccursAt(t[1..], sub, k))
  {
    forall k | OccursAt(t, sub, k)
      ensures OccursAt(t[1..], sub, k - 1)
    {
      assert t[1..][k - 1..k - 1 + |sub|] == t[k..k + |sub|];
    }
    forall k | OccursAt(t[1..], sub, k)
      ensures OccursAt(t, sub, k + 1)
    {
      assert t[1..][k..k + |sub|] == t[k + 1..k + 1 + |sub|];
    }
  }
}
