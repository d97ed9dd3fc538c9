/** The ASCII part of JavaScript's `String.prototype.toLowerCase`, used by the
    price lookup and by the interactive loop's exit test. */
module Ascii {

  predicate IsUpper(c: char) { 'A' <= c <= 'Z' }

  predicate IsLower(c: char) { 'a' <= c <= 'z' }

  function LowerChar(c: char): char {
    if IsUpper(c) then (c as int + 32) as char else c
  }

  function UpperChar(c: char): char {
    if IsLower(c) then (c as int - 32) as char else c
  }

  /** Every character of `w` is a lower-case ASCII letter. */
  predicate IsLowerWord(w: string) {
    forall i :: 0 <= i < |w| ==> IsLower(w[i])
  }

  /** `s` spells `w` letter by letter, each letter in either case. */
  predicate CaseVariant(s: string, w: string) {
    |s| == |w| && forall i :: 0 <= i < |s| ==> s[i] == w[i] || s[i] == UpperChar(w[i])
  }

  /** Lower-cases the ASCII letters of `s`: no upper-case letter survives, and each
      character either is kept or is the lower-case form of the one it replaces. */
  function ToLower(s: string): (r: string)
    ensures |r| == |s|
    ensures forall i :: 0 <= i < |r| ==> !IsUpper(r[i])
    ensures forall i :: 0 <= i < |r| ==> r[i] == s[i] || UpperChar(r[i]) == s[i]
  {
    if |s| == 0 then [] else [LowerChar(s[0])] + ToLower(s[1..])
  }

  /** Lower-casing yields the lower-case word `w` exactly when the input is `w`
      written in any mixture of cases. */
  lemma ToLowerIsWord(s: string, w: string)
    requires IsLowerWord(w)
    ensures ToLower(s) == w <==> CaseVariant(s, w)
  {
    var r := ToLower(s);
    if r == w {
      assert forall i :: 0 <= i < |s| ==> s[i] == w[i] || s[i] == UpperChar(w[i]);
    }
    if CaseVariant(s, w) {
      forall i | 0 <= i < |s|
        ensures r[i] == w[i]
      {
        if s[i] == w[i] {
          assert IsLower(s[i]);
        } else {
          assert IsUpper(s[i]);
        }
      }
      assert r == w;
    }
  }
}
