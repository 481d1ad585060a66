/**
 * Account addresses and their canonical form.
 *
 * Every store operation lowercases the address it is given before it looks
 * anything up or inserts anything, so two addresses that differ only in the
 * case of their letters name the same account. Lowercasing is modelled on
 * ASCII letters: an Ethereum address is `0x` followed by hexadecimal digits.
 */
module Address {

  /** Lowercase of one character: `A`..`Z` map to `a`..`z`, all else is kept. */
  function Lower(c: char): (r: char)
    ensures 'A' <= c <= 'Z' ==> 'a' <= r <= 'z' && r as int - 'a' as int == c as int - 'A' as int
    ensures !('A' <= c <= 'Z') ==> r == c
    ensures !('A' <= r <= 'Z')
  {
    if 'A' <= c <= 'Z' then (c as int + ('a' as int - 'A' as int)) as char else c
  }

  /** A string already in canonical form: it holds no upper-case letter. */
  predicate IsNormalized(s: string) {
    forall i :: 0 <= i < |s| ==> !('A' <= s[i] <= 'Z')
  }

  /** Canonical form of an address, character by character. */
  function ToLower(s: string): (r: string)
    ensures |r| == |s|
  {
    if s == [] then [] else [Lower(s[0])] + ToLower(s[1..])
  }

  /** Each character of the canonical form is the lowercase of the original one. */
  lemma {:induction false} ToLowerAt(s: string)
    ensures forall i :: 0 <= i < |s| ==> ToLower(s)[i] == Lower(s[i])
  {
    if s != [] {
      ToLowerAt(s[1..]);
      forall i | 0 < i < |s| ensures ToLower(s)[i] == Lower(s[i]) {
        assert ToLower(s)[i] == ToLower(s[1..])[i - 1];
      }
    }
  }

  /** The canonical form holds no upper-case letter. */
  lemma ToLowerNormalized(s: string)
    ensures IsNormalized(ToLower(s))
  {
    ToLowerAt(s);
  }

  /**
   * Case-insensitive equality, stated position by position through `Lower`
   * rather than through `ToLower`.
   */
  predicate EqualFold(a: string, b: string) {
    |a| == |b| && forall i :: 0 <= i < |a| ==> Lower(a[i]) == Lower(b[i])
  }

  /** A normalized string is its own canonical form. */
  lemma NormalizedIsFixed(s: string)
    requires IsNormalized(s)
    ensures ToLower(s) == s
  {
    var r := ToLower(s);
    ToLowerAt(s);
    forall i | 0 <= i < |s| ensures r[i] == s[i] {
      assert !('A' <= s[i] <= 'Z');
    }
  }

  /** Lowercasing twice is lowercasing once. */
  lemma ToLowerIdempotent(s: string)
    ensures ToLower(ToLower(s)) == ToLower(s)
  {
    ToLowerNormalized(s);
    NormalizedIsFixed(ToLower(s));
  }

  /** Two addresses have the same canonical form exactly when they are equal up to case. */
  lemma ToLowerIffEqualFold(a: string, b: string)
    ensures ToLower(a) == ToLower(b) <==> EqualFold(a, b)
  {
    ToLowerAt(a);
    ToLowerAt(b);
    if ToLower(a) == ToLower(b) {
      forall i | 0 <= i < |a| ensures Lower(a[i]) == Lower(b[i]) {
        assert ToLower(a)[i] == ToLower(b)[i];
      }
    }
    if EqualFold(a, b) {
      var ra, rb := ToLower(a), ToLower(b);
      forall i | 0 <= i < |a| ensures ra[i] == rb[i] { }
    }
  }
}
