/**
 * ASCII letter case, and the case-insensitive string comparison that
 * `String.equalsIgnoreCase` performs, restricted to ASCII case folding.
 *
 * `equalsIgnoreCase` treats two strings as equal when they have the same
 * length and every pair of characters at the same position matches under
 * this rule: the characters are identical, or their upper-case forms are,
 * or the lower-case forms of their upper-case forms are.
 */
module AsciiCase {

  predicate IsUpper(c: char) { 'A' <= c <= 'Z' }

  predicate IsLower(c: char) { 'a' <= c <= 'z' }

  /** Upper-case form of an ASCII letter; every other character is unchanged. */
  function ToUpper(c: char): (r: char)
    ensures !IsLower(r)
    ensures IsLower(c) ==> IsUpper(r) && r as int == c as int - 32
    ensures !IsLower(c) ==> r == c
  {
    if IsLower(c) then (c as int - 32) as char else c
  }

  /** Lower-case form of an ASCII letter; every other character is unchanged. */
  function ToLower(c: char): (r: char)
    ensures !IsUpper(r)
    ensures IsUpper(c) ==> IsLower(r) && r as int == c as int + 32
    ensures !IsUpper(c) ==> r == c
  {
    if IsUpper(c) then (c as int + 32) as char else c
  }

  /**
   * The per-character test of `equalsIgnoreCase`; under ASCII folding it
   * holds exactly when the lower-case forms agree.
   */
  function CharEqualsIgnoreCase(a: char, b: char): (r: bool)
    ensures r <==> ToLower(a) == ToLower(b)
  {
    a == b || ToUpper(a) == ToUpper(b) || ToLower(ToUpper(a)) == ToLower(ToUpper(b))
  }

  /** `a.equalsIgnoreCase(b)` for a non-null `b`, with ASCII folding. */
  function EqualsIgnoreCase(a: string, b: string): (r: bool)
    ensures r ==> |a| == |b|
    ensures r <==> |a| == |b| && forall i :: 0 <= i < |a| ==> ToLower(a[i]) == ToLower(b[i])
  {
    |a| == |b| && forall i :: 0 <= i < |a| ==> CharEqualsIgnoreCase(a[i], b[i])
  }

  /** The ASCII lower-case form of `s`. */
  function LowerString(s: string): (r: string)
    ensures |r| == |s|
    ensures forall i :: 0 <= i < |s| ==> r[i] == ToLower(s[i])
  {
    if s == [] then [] else [ToLower(s[0])] + LowerString(s[1..])
  }

  /** The ASCII upper-case form of `s`. */
  function UpperString(s: string): (r: string)
    ensures |r| == |s|
    ensures forall i :: 0 <= i < |s| ==> r[i] == ToUpper(s[i])
  {
    if s == [] then [] else [ToUpper(s[0])] + UpperString(s[1..])
  }

  /** A string with no upper-case ASCII letter. */
  predicate NoUpper(s: string)
  {
    forall i :: 0 <= i < |s| ==> !IsUpper(s[i])
  }

  /**
   * The comparison of `equalsIgnoreCase` is equality of the lower-cased
   * strings; in particular it is an equivalence relation.
   */
  lemma EqualsIgnoreCaseIffLowerEqual(a: string, b: string)
    ensures EqualsIgnoreCase(a, b) <==> LowerString(a) == LowerString(b)
  {
    if EqualsIgnoreCase(a, b) {
      forall i | 0 <= i < |a| ensures LowerString(a)[i] == LowerString(b)[i] {
        assert CharEqualsIgnoreCase(a[i], b[i]);
      }
    }
    if LowerString(a) == LowerString(b) {
      forall i | 0 <= i < |a| ensures CharEqualsIgnoreCase(a[i], b[i]) {
        assert LowerString(a)[i] == LowerString(b)[i];
      }
    }
  }

  lemma EqualsIgnoreCaseReflexive(a: string)
    ensures EqualsIgnoreCase(a, a)
  {
  }

  lemma EqualsIgnoreCaseSymmetric(a: string, b: string)
    ensures EqualsIgnoreCase(a, b) <==> EqualsIgnoreCase(b, a)
  {
  }

  lemma EqualsIgnoreCaseTransitive(a: string, b: string, c: string)
    requires EqualsIgnoreCase(a, b) && EqualsIgnoreCase(b, c)
    ensures EqualsIgnoreCase(a, c)
  {
  }

  /** Lower-casing or upper-casing a string keeps it equal ignoring case. */
  lemma CaseChangeEqualsIgnoreCase(s: string)
    ensures EqualsIgnoreCase(s, LowerString(s))
    ensures EqualsIgnoreCase(s, UpperString(s))
  {
  }

  /** A string without upper-case letters is its own lower-case form. */
  lemma NoUpperIsLowerFixpoint(s: string)
    ensures NoUpper(s) <==> LowerString(s) == s
  {
  }
}
