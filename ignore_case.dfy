/** `StringComparer.OrdinalIgnoreCase`, for ASCII letters: both strings are
    upper-cased character by character and then compared by code. */
module IgnoreCase {

  function Fold(c: char): char {
    if 'a' <= c <= 'z' then (c as int - 32) as char else c
  }

  predicate EqualsIgnoreCase(a: string, b: string) {
    |a| == |b| && forall i :: 0 <= i < |a| ==> Fold(a[i]) == Fold(b[i])
  }

  /** The upper-cased string, the key a case-insensitive dictionary files
      a name under. */
  function FoldString(s: string): (r: string)
    ensures |r| == |s| && forall i :: 0 <= i < |s| ==> r[i] == Fold(s[i])
  {
    seq(|s|, i requires 0 <= i < |s| => Fold(s[i]))
  }

  /** Two names are the same key exactly when they are equal ignoring
      case. */
  lemma FoldStringIsKey(a: string, b: string)
    ensures FoldString(a) == FoldString(b) <==> EqualsIgnoreCase(a, b)
  {
    if EqualsIgnoreCase(a, b) {
      assert forall i :: 0 <= i < |a| ==> FoldString(a)[i] == FoldString(b)[i];
    }
    if FoldString(a) == FoldString(b) {
      assert forall i :: 0 <= i < |a| ==> Fold(a[i]) == FoldString(a)[i] == FoldString(b)[i] == Fold(b[i]);
    }
  }

  /** `Compare(a, b)`: lexicographic order of the upper-cased strings, a
      proper prefix first; -1, 0 or 1. */
  function Compare(a: string, b: string): (r: int)
    ensures -1 <= r <= 1
  {
    if a == [] && b == [] then 0
    else if a == [] then -1
    else if b == [] then 1
    else if Fold(a[0]) < Fold(b[0]) then -1
    else if Fold(a[0]) > Fold(b[0]) then 1
    else Compare(a[1..], b[1..])
  }

  lemma {:induction false} CompareZeroIffEqual(a: string, b: string)
    ensures Compare(a, b) == 0 <==> EqualsIgnoreCase(a, b)
  {
    if a != [] && b != [] {
      CompareZeroIffEqual(a[1..], b[1..]);
      if EqualsIgnoreCase(a, b) {
        assert forall i :: 0 <= i < |a[1..]| ==> a[1..][i] == a[i + 1] && b[1..][i] == b[i + 1];
      }
      if Fold(a[0]) == Fold(b[0]) && EqualsIgnoreCase(a[1..], b[1..]) {
        forall i | 0 <= i < |a|
          ensures Fold(a[i]) == Fold(b[i])
        {
          if i > 0 {
            assert a[i] == a[1..][i - 1] && b[i] == b[1..][i - 1];
          }
        }
      }
    }
  }

  lemma {:induction false} CompareAntisymmetric(a: string, b: string)
    ensures Compare(a, b) == -Compare(b, a)
  {
    if a != [] && b != [] {
      CompareAntisymmetric(a[1..], b[1..]);
    }
  }

  lemma {:induction false} CompareTransitive(a: string, b: string, c: string)
    requires Compare(a, b) < 0 && Compare(b, c) < 0
    ensures Compare(a, c) < 0
  {
    if a != [] && b != [] && c != [] && Fold(a[0]) == Fold(b[0]) == Fold(c[0]) {
      CompareTransitive(a[1..], b[1..], c[1..]);
    }
  }
}
