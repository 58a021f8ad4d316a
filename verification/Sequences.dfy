/** Sequences: concatenation, and sequences without repetition. */
module Sequences {
  lemma {:induction false} Associates<T>(p: seq<T>, q: seq<T>, r: seq<T>)
    ensures p + (q + r) == (p + q) + r
  {
  }

  lemma {:induction false} Overwrites<T>(s: seq<T>, i: nat, x: T, y: T)
    requires i < |s|
    ensures s[i := x][i := y] == s[i := y]
  {
  }

  predicate Distinct(s: seq<nat>) {
    forall i, j :: 0 <= i < j < |s| ==> s[i] != s[j]
  }

  /** There are at most n different numbers below n. */
  lemma {:induction false} DistinctBelow(q: seq<nat>, n: nat)
    requires Distinct(q) && forall i :: 0 <= i < |q| ==> q[i] < n
    ensures |q| <= n
    decreases n
  {
    if q == [] { return; }
    assert q[0] < n;
    if n - 1 in q {
      var k :| 0 <= k < |q| && q[k] == n - 1;
      var p := q[..k] + q[k + 1..];
      forall i | 0 <= i < |p| ensures p[i] < n - 1 {
        assert p[i] == q[if i < k then i else i + 1];
      }
      DistinctBelow(p, n - 1);
    } else {
      forall i | 0 <= i < |q| ensures q[i] < n - 1 { assert q[i] in q; }
      DistinctBelow(q, n - 1);
    }
  }

  /** It takes at least n entries to hold every number below n. */
  lemma {:induction false} CoversBelow(q: seq<nat>, n: nat)
    requires forall t: nat :: t < n ==> t in q
    ensures n <= |q|
    decreases n
  {
    if n > 0 {
      var top: nat := n - 1;
      assert top in q;
      var k :| 0 <= k < |q| && q[k] == top;
      var p := q[..k] + q[k + 1..];
      forall t: nat | t < top
        ensures t in p
      {
        assert t in q;
        var i :| 0 <= i < |q| && q[i] == t;
        assert p[if i < k then i else i - 1] == t;
      }
      CoversBelow(p, top);
    }
  }
}
