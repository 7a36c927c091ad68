/**
 * ASCII case mapping: the part of Python's `str.lower` that the flag parser
 * depends on. Only the letters A-Z are changed; every other character is kept.
 */
module Ascii {

  predicate IsUpper(c: char) {
    'A' <= c <= 'Z'
  }

  predicate IsLower(c: char) {
    'a' <= c <= 'z'
  }

  /** Lower-cases one character. */
  function LowerChar(c: char): (d: char)
    ensures !IsUpper(d)
    ensures IsUpper(c) ==> IsLower(d)
    ensures !IsUpper(c) ==> d == c
  {
    if IsUpper(c) then (c as int + 32) as char else c
  }

  /** Upper-cases one character; used only to describe the spellings `Lower` maps to a word. */
  function UpperChar(c: char): (d: char)
  {
    if IsLower(c) then (c as int - 32) as char else c
  }

  /** A string with no upper-case ASCII letter. */
  predicate IsLowerWord(w: string) {
    forall i :: 0 <= i < |w| ==> !IsUpper(w[i])
  }

  /** `str.lower` restricted to ASCII: same length, each character lower-cased. */
  function Lower(s: string): (r: string)
    ensures |r| == |s|
    ensures forall i :: 0 <= i < |s| ==> r[i] == LowerChar(s[i])
    ensures IsLowerWord(r)
  {
    if s == [] then [] else [LowerChar(s[0])] + Lower(s[1..])
  }

  /**
   * v is a spelling of the lower-case word w in which any letter may be
   * written in upper case instead: "False", "fALSE" and "FALSE" are case
   * variants of "false".
   */
  predicate CaseVariant(v: string, w: string) {
    |v| == |w| && forall i :: 0 <= i < |v| ==> v[i] == w[i] || v[i] == UpperChar(w[i])
  }

  /** Lower-casing v gives the lower-case word w exactly when v is one of w's case variants. */
  lemma LowerIsCaseVariant(v: string, w: string)
    requires IsLowerWord(w)
    ensures Lower(v) == w <==> CaseVariant(v, w)
  {
    if Lower(v) == w {
      forall i | 0 <= i < |v|
        ensures v[i] == w[i] || v[i] == UpperChar(w[i])
      {
        assert LowerChar(v[i]) == w[i];
      }
    }
    if CaseVariant(v, w) {
      forall i | 0 <= i < |v|
        ensures Lower(v)[i] == w[i]
      {
        assert !IsUpper(w[i]);
      }
    }
  }
}
