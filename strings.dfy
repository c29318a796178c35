/** Substring search on strings, as JavaScript's `String.prototype.includes`. */
module Strings {

  /** `sub` occurs in `s` starting at index `i`. */
  predicate OccursAt(s: string, sub: string, i: int) {
    0 <= i && i + |sub| <= |s| && s[i..i + |sub|] == sub
  }

  /** `s.includes(sub)`. */
  predicate Contains(s: string, sub: string) {
    exists i | 0 <= i <= |s| - |sub| :: OccursAt(s, sub, i)
  }

  /** A string that does not hold the first character of `sub` early enough to start
      an occurrence of it does not contain `sub`. */
  lemma NotContainsWithoutHead(s: string, sub: string)
    requires |sub| > 0
    requires forall k | 0 <= k <= |s| - |sub| :: s[k] != sub[0]
    ensures !Contains(s, sub)
  {
    forall i | 0 <= i <= |s| - |sub|
      ensures !OccursAt(s, sub, i)
    {
      assert s[i] != sub[0];
    }
  }

  /** A string none of whose characters is in `cs`, built from two such strings. */
  lemma NoneOfConcat(a: string, b: string, cs: set<char>)
    requires forall k | 0 <= k < |a| :: a[k] !in cs
    requires forall k | 0 <= k < |b| :: b[k] !in cs
    ensures forall k | 0 <= k < |a + b| :: (a + b)[k] !in cs
  {
    forall k | 0 <= k < |a + b| ensures (a + b)[k] !in cs {
      if k >= |a| {
        assert (a + b)[k] == b[k - |a|];
      }
    }
  }
}
