/** Order-preserving selection over sequences: the model of a pandas boolean mask. */
module Sequences {

  /** The elements of `s` that satisfy `p`, in their original order. */
  function Where<T>(s: seq<T>, p: T -> bool): (r: seq<T>)
    ensures |r| <= |s|
    ensures forall i :: 0 <= i < |r| ==> r[i] in s && p(r[i])
    ensures forall i :: 0 <= i < |s| && p(s[i]) ==> s[i] in r
  {
    if s == [] then [] else (if p(s[0]) then [s[0]] else []) + Where(s[1..], p)
  }

  /** A mask keeps every passing element as often as it occurs, and nothing else. */
  lemma {:induction false} WhereCounts<T>(s: seq<T>, p: T -> bool, x: T)
    ensures multiset(Where(s, p))[x] == if p(x) then multiset(s)[x] else 0
  {
    if s != [] {
      WhereCounts(s[1..], p, x);
      assert s == [s[0]] + s[1..];
      assert Where(s, p) == (if p(s[0]) then [s[0]] else []) + Where(s[1..], p);
    }
  }

  /** `r` can be obtained from `s` by deleting elements (the rest keep their order). */
  ghost predicate IsSubseq<T>(r: seq<T>, s: seq<T>)
    decreases |s|
  {
    if r == [] then true
    else if s == [] then false
    else (r[0] == s[0] && IsSubseq(r[1..], s[1..])) || IsSubseq(r, s[1..])
  }

  /** Every related pair taken in sequence order is related by `rel`. */
  ghost predicate Pairwise<T>(s: seq<T>, rel: (T, T) -> bool)
  {
    forall i, j :: 0 <= i < j < |s| ==> rel(s[i], s[j])
  }

  /** A mask keeps the surviving elements in their original order. */
  lemma {:induction false} WhereIsSubseq<T>(s: seq<T>, p: T -> bool)
    ensures IsSubseq(Where(s, p), s)
  {
    if s != [] {
      WhereIsSubseq(s[1..], p);
      var rest := Where(s[1..], p);
      if p(s[0]) {
        assert Where(s, p) == [s[0]] + rest;
        assert ([s[0]] + rest)[1..] == rest;
      } else {
        assert Where(s, p) == rest;
        if rest != [] {
          assert IsSubseq(rest, s[1..]);
        }
      }
    }
  }

  /** Applying one mask after another is the same as applying their conjunction once. */
  lemma {:induction false} WhereWhere<T>(s: seq<T>, p: T -> bool, q: T -> bool, pq: T -> bool)
    requires forall x :: pq(x) == (p(x) && q(x))
    ensures Where(Where(s, p), q) == Where(s, pq)
  {
    if s != [] {
      WhereWhere(s[1..], p, q, pq);
      var rest := Where(s[1..], p);
      if p(s[0]) {
        assert Where(s, p) == [s[0]] + rest;
        assert ([s[0]] + rest)[1..] == rest;
      } else {
        assert Where(s, p) == rest;
      }
    }
  }

  /** A mask keeps any order relation that held between the elements. */
  lemma {:induction false} WherePairwise<T>(s: seq<T>, p: T -> bool, rel: (T, T) -> bool)
    requires Pairwise(s, rel)
    ensures Pairwise(Where(s, p), rel)
  {
    if s != [] {
      assert Pairwise(s[1..], rel) by {
        forall i, j | 0 <= i < j < |s[1..]| ensures rel(s[1..][i], s[1..][j]) {
          assert s[1..][i] == s[i + 1] && s[1..][j] == s[j + 1];
        }
      }
      WherePairwise(s[1..], p, rel);
      var rest := Where(s[1..], p);
      if p(s[0]) {
        var r := [s[0]] + rest;
        assert Where(s, p) == r;
        forall i, j | 0 <= i < j < |r| ensures rel(r[i], r[j]) {
          if i == 0 {
            assert r[j] in rest;
            assert r[j] in s[1..];
            var m :| 0 <= m < |s[1..]| && s[1..][m] == r[j];
            assert s[m + 1] == r[j];
          } else {
            assert r[i] == rest[i - 1] && r[j] == rest[j - 1];
          }
        }
      }
    }
  }
}
