/** Substring search as JavaScript's String.prototype.includes performs it. */
module Strings {

  /** sub occurs in s starting at index i. */
  predicate OccursAt(s: string, sub: string, i: int) {
    0 <= i <= |s| - |sub| && s[i..i + |sub|] == sub
  }

  /** `s.includes(sub)`: sub occurs in s at some index (the empty string occurs everywhere). */
  predicate Includes(s: string, sub: string)
    ensures Includes(s, sub) ==> |sub| <= |s|
    ensures |sub| == 0 ==> Includes(s, sub)
  {
    assert |sub| == 0 ==> OccursAt(s, sub, 0);
    exists i | 0 <= i <= |s| - |sub| :: OccursAt(s, sub, i)
  }

  /** p is a prefix of s. */
  predicate StartsWith(s: string, p: string) {
    |p| <= |s| && s[..|p|] == p
  }

  /** The search as a left-to-right scan: a match at the front, or one further on. */
  predicate ScanFinds(s: string, sub: string)
    decreases |s|
  {
    StartsWith(s, sub) || (|s| > 0 && ScanFinds(s[1..], sub))
  }

  /** The scan finds sub exactly when sub occurs somewhere in s. */
  lemma {:induction false} IncludesIffScanFinds(s: string, sub: string)
    ensures Includes(s, sub) <==> ScanFinds(s, sub)
    decreases |s|
  {
    if Includes(s, sub) {
      var i :| 0 <= i <= |s| - |sub| && OccursAt(s, sub, i);
      assert OccursAt(s, sub, i);
      if i == 0 {
        assert StartsWith(s, sub);
      } else {
        assert OccursAt(s[1..], sub, i - 1);
        IncludesIffScanFinds(s[1..], sub);
      }
    }
    if ScanFinds(s, sub) {
      if StartsWith(s, sub) {
        assert OccursAt(s, sub, 0);
      } else {
        IncludesIffScanFinds(s[1..], sub);
        var j :| 0 <= j <= |s| - 1 - |sub| && OccursAt(s[1..], sub, j);
        assert OccursAt(s[1..], sub, j);
        assert s[j + 1..j + 1 + |sub|] == s[1..][j..j + |sub|];
        assert OccursAt(s, sub, j + 1);
      }
    }
  }

  /** A string that s includes is no longer than s, and all its characters are characters of s. */
  lemma IncludedCharsOccur(s: string, sub: string)
    requires Includes(s, sub)
    ensures |sub| <= |s|
    ensures forall c :: c in sub ==> c in s
  {
    var i :| 0 <= i <= |s| - |sub| && OccursAt(s, sub, i);
    assert OccursAt(s, sub, i);
    forall c | c in sub ensures c in s {
      var k :| 0 <= k < |sub| && sub[k] == c;
      assert s[i + k] == s[i..i + |sub|][k];
    }
  }

  /** A string lacking some character of sub does not include sub. */
  lemma MissingCharExcludes(s: string, sub: string, c: char)
    requires c in sub && c !in s
    ensures !Includes(s, sub)
  {
    if Includes(s, sub) {
      IncludedCharsOccur(s, sub);
    }
  }

  /** Every string includes itself. */
  lemma IncludesItself(s: string)
    ensures Includes(s, s)
  {
    assert OccursAt(s, s, 0);
  }
}
