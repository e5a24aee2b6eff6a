/**
  Substring search on strings, as used by the monitor's keyword check
  (`keyword in text` on Python strings).
 */
module Text {

  /** `k` occurs in `s` as a contiguous run of characters. The empty string
      occurs in every string, as it does for Python's `in`. */
  ghost predicate IsSubstring(k: string, s: string) {
    exists i :: OccursAt(k, s, i)
  }

  /** `k` occurs in `s` starting at position `i`. */
  ghost predicate OccursAt(k: string, s: string, i: int) {
    0 <= i <= |s| - |k| && s[i..i + |k|] == k
  }

  /** `p` is a prefix of `s`. */
  predicate StartsWith(s: string, p: string) {
    |p| <= |s| && s[..|p|] == p
  }

  /** Executable search: try every start position from left to right. */
  predicate Contains(s: string, k: string)
    decreases |s|
  {
    StartsWith(s, k) || (|s| > 0 && Contains(s[1..], k))
  }

  /** The executable search decides exactly the substring relation. */
  lemma {:induction false} ContainsIsSubstring(s: string, k: string)
    ensures Contains(s, k) <==> IsSubstring(k, s)
    decreases |s|
  {
    if |s| == 0 {
      if |k| == 0 {
        assert OccursAt(k, s, 0);
      }
    } else {
      ContainsIsSubstring(s[1..], k);
      if StartsWith(s, k) {
        assert OccursAt(k, s, 0);
      }
      if Contains(s[1..], k) {
        var i :| OccursAt(k, s[1..], i);
        assert 0 <= i <= |s[1..]| - |k| && s[1..][i..i + |k|] == k;
        assert s[i + 1..i + 1 + |k|] == s[1..][i..i + |k|];
        assert OccursAt(k, s, i + 1);
      }
      if IsSubstring(k, s) {
        var i :| OccursAt(k, s, i);
        if i > 0 {
          assert s[1..][i - 1..i - 1 + |k|] == s[i..i + |k|];
          assert OccursAt(k, s[1..], i - 1);
        } else {
          assert StartsWith(s, k);
        }
      }
    }
  }

  /** A non-empty keyword whose first character never appears in `s` is not found in `s`. */
  lemma {:induction false} MissingFirstCharNotContained(s: string, k: string)
    requires |k| > 0
    requires forall i :: 0 <= i < |s| ==> s[i] != k[0]
    ensures !Contains(s, k)
    decreases |s|
  {
    if |s| > 0 {
      if |k| <= |s| {
        assert s[..|k|][0] == s[0];
      }
      MissingFirstCharNotContained(s[1..], k);
    }
  }
}
