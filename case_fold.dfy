/** Case folding of usernames. Two usernames denote the same identity when
    their folds are equal; the fold used here is ASCII lower-casing. */
module CaseFold {

  /** An upper-case ASCII letter. */
  predicate IsAsciiUpper(c: char) {
    'A' <= c <= 'Z'
  }

  /** A lower-case ASCII letter. */
  predicate IsAsciiLower(c: char) {
    'a' <= c <= 'z'
  }

  /** ASCII lower-casing of one character: the same letter up to case, and
      never an upper-case letter. */
  function LowerChar(c: char): (r: char)
    ensures SameLetterIgnoringCase(c, r) && !IsAsciiUpper(r)
  {
    if IsAsciiUpper(c) then (c as int + 32) as char else c
  }

  /** The case fold of a string: every character lower-cased, length kept. */
  function Fold(s: string): (r: string)
    ensures |r| == |s|
    ensures forall i :: 0 <= i < |s| ==> r[i] == LowerChar(s[i])
    ensures forall i :: 0 <= i < |s| ==> !IsAsciiUpper(r[i])
  {
    seq(|s|, i requires 0 <= i < |s| => LowerChar(s[i]))
  }

  /** Two characters are the same letter up to case: equal, or an upper-case
      ASCII letter and its lower-case counterpart, in either order. */
  predicate SameLetterIgnoringCase(a: char, b: char) {
    || a == b
    || (IsAsciiUpper(a) && IsAsciiLower(b) && b as int - a as int == 32)
    || (IsAsciiLower(a) && IsAsciiUpper(b) && a as int - b as int == 32)
  }

  /** Case-insensitive equality of strings, position by position. */
  predicate EqualIgnoringCase(s: string, t: string) {
    |s| == |t| && forall i :: 0 <= i < |s| ==> SameLetterIgnoringCase(s[i], t[i])
  }

  /** Folding twice is folding once: a folded string is its own fold. */
  lemma FoldIdempotent(s: string)
    ensures Fold(Fold(s)) == Fold(s)
  {
    var f := Fold(s);
    assert forall i :: 0 <= i < |f| ==> Fold(f)[i] == f[i];
  }

  /** Two characters lower-case alike exactly when they are the same letter
      up to case. */
  lemma LowerCharIgnoringCase(a: char, b: char)
    ensures LowerChar(a) == LowerChar(b) <==> SameLetterIgnoringCase(a, b)
  {
  }

  /** Equal folds are exactly case-insensitive equality. */
  lemma FoldEqualIff(s: string, t: string)
    ensures Fold(s) == Fold(t) <==> EqualIgnoringCase(s, t)
  {
    if Fold(s) == Fold(t) {
      forall i | 0 <= i < |s| ensures SameLetterIgnoringCase(s[i], t[i]) {
        assert Fold(s)[i] == Fold(t)[i];
        LowerCharIgnoringCase(s[i], t[i]);
      }
    }
    if EqualIgnoringCase(s, t) {
      forall i | 0 <= i < |s| ensures Fold(s)[i] == Fold(t)[i] {
        LowerCharIgnoringCase(s[i], t[i]);
      }
    }
  }
}
