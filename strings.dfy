/** Text operations the pipeline relies on: substring search and Python's string ordering. */
module Strings {

  /** `pat` occurs somewhere in `s` as a contiguous run of characters. */
  predicate Contains(s: string, pat: string): (b: bool)
    ensures b ==> |pat| <= |s|
  {
    pat <= s || (s != [] && Contains(s[1..], pat))
  }

  /** `pat` occurs in `s` starting at offset `i`. */
  predicate OccursAt(s: string, pat: string, i: int)
  {
    0 <= i <= |s| - |pat| && s[i..i + |pat|] == pat
  }

  /** `Contains` is the substring test: `pat` equals the slice of `s` at some offset. */
  lemma {:induction false} ContainsAt(s: string, pat: string)
    ensures Contains(s, pat) <==> exists i :: OccursAt(s, pat, i)
  {
    if pat <= s {
      assert s[0..|pat|] == pat;
      assert OccursAt(s, pat, 0);
    }
    if s != [] {
      ContainsAt(s[1..], pat);
      if i :| OccursAt(s, pat, i) {
        if i > 0 {
          assert s[1..][i - 1..i - 1 + |pat|] == s[i..i + |pat|];
          assert OccursAt(s[1..], pat, i - 1);
        } else {
          assert pat <= s;
        }
      }
      if Contains(s[1..], pat) {
        var j :| OccursAt(s[1..], pat, j);
        assert s[1..][j..j + |pat|] == s[j + 1..j + 1 + |pat|];
        assert OccursAt(s, pat, j + 1);
      }
    } else if i :| OccursAt(s, pat, i) {
      assert pat == [] <= s;
    }
  }

  /** `s` has no character a regular expression would give a special meaning to,
      so a regex search for it is the same as a literal substring search. */
  predicate NoRegexMeta(s: string)
  {
    forall i :: 0 <= i < |s| ==> s[i] !in ".^$*+?{}[]\\|()"
  }

  /** Python's `<` on `str`: code-point lexicographic order, a proper prefix first. */
  predicate Less(a: string, b: string)
  {
    if a == [] then b != []
    else if b == [] then false
    else a[0] < b[0] || (a[0] == b[0] && Less(a[1..], b[1..]))
  }

  lemma {:induction false} LessIrreflexive(a: string)
    ensures !Less(a, a)
  {
    if a != [] {
      LessIrreflexive(a[1..]);
    }
  }

  lemma {:induction false} LessTransitive(a: string, b: string, c: string)
    requires Less(a, b) && Less(b, c)
    ensures Less(a, c)
  {
    if a != [] && a[0] == b[0] && b[0] == c[0] {
      LessTransitive(a[1..], b[1..], c[1..]);
    }
  }

  lemma {:induction false} LessTotal(a: string, b: string)
    requires a != b
    ensures Less(a, b) || Less(b, a)
  {
    if a != [] && b != [] && a[0] == b[0] {
      assert a == [a[0]] + a[1..] && b == [b[0]] + b[1..];
      LessTotal(a[1..], b[1..]);
    }
  }
}
