/** The table construction and the search of papps/pfscan-1.0/bm.c, in place on arrays. */
module BoyerMoore {
  import opened Options
  import opened BmSpec

  /** preBmBc */
  method PreBmBc(x: array<Byte>, bmBc: array<int>)
    requires 1 <= x.Length && bmBc.Length == BM_ASIZE
    modifies bmBc
    ensures forall c: Byte :: BadCharShift(x[..], c, bmBc[c])
  {
    var m := x.Length;
    for i := 0 to BM_ASIZE
      invariant forall c :: 0 <= c < i ==> bmBc[c] == m
    {
      bmBc[i] := m;
    }
    for i := 0 to m - 1
      invariant forall c: Byte ::
        && m - i <= bmBc[c] <= m
        && (bmBc[c] < m ==> x[m - 1 - bmBc[c]] == c)
        && (forall p :: m - 1 - bmBc[c] < p < i && 0 <= p ==> x[p] != c)
    {
      bmBc[x[i]] := m - i - 1;
    }
    assert forall c: Byte :: BadCharShift(x[..], c, bmBc[c]);
  }

  /** suff[p] is right for every p from lo on. */
  ghost predicate SuffixesFrom(x: seq<Byte>, suff: seq<int>, lo: int) {
    |suff| == |x| && forall p :: 0 <= p < |x| && lo <= p ==> LongestCommonSuffix(x, p, suff[p])
  }

  /** x[g+1..f] has been compared with the end of x and found equal. */
  predicate Window(x: seq<Byte>, g: int, f: int) {
    -1 <= g && f < |x| && forall q :: g < q <= f ==> x[q] == x[q + |x| - 1 - f]
  }

  /** Inside the window a shorter entry can be copied. */
  lemma {:induction false} CopyEntry(x: seq<Byte>, i: int, g: int, f: int, k: int)
    requires Window(x, g, f) && g < i < f && 0 <= i
    requires f < |x| - 1
    requires LongestCommonSuffix(x, i + |x| - 1 - f, k) && k < i - g
    ensures LongestCommonSuffix(x, i, k)
  {
    var i' := i + |x| - 1 - f;
    forall q | i - k < q <= i ensures x[q] == x[q + |x| - 1 - i] {
      assert x[q] == x[q + |x| - 1 - f];
      assert x[q + |x| - 1 - f] == x[(q + |x| - 1 - f) + |x| - 1 - i'];
    }
    SuffixMismatch(x, i', k);
    assert x[i - k] == x[(i - k) + |x| - 1 - f];
    SuffixByMismatch(x, i, k);
  }

  /** Inside the window a longer entry gives the start of a new window. */
  lemma {:induction false} ReuseWindow(x: seq<Byte>, i: int, g: int, f: int, k: int)
    requires Window(x, g, f) && g < i < f && 0 <= i
    requires f < |x| - 1
    requires CommonSuffix(x, i + |x| - 1 - f, k) && i - g <= k
    ensures Window(x, g, i)
  {
    var i' := i + |x| - 1 - f;
    forall q | g < q <= i ensures x[q] == x[q + |x| - 1 - i] {
      assert x[q] == x[q + |x| - 1 - f];
      assert x[q + |x| - 1 - f] == x[(q + |x| - 1 - f) + |x| - 1 - i'];
    }
  }

  lemma {:induction false} WindowEntry(x: seq<Byte>, g: int, i: int)
    requires Window(x, g, i) && 0 <= i && g <= i
    requires g >= 0 ==> x[g] != x[g + |x| - 1 - i]
    ensures LongestCommonSuffix(x, i, i - g)
  {
    SuffixByMismatch(x, i, i - g);
  }

  /** The inner loop of suffixes: compare further down. */
  method ExtendWindow(x: array<Byte>, g0: int, f: nat) returns (g: int)
    requires -1 <= g0 <= f < x.Length && Window(x[..], g0, f)
    ensures -1 <= g <= g0 && Window(x[..], g, f) && LongestCommonSuffix(x[..], f, f - g)
  {
    g := g0;
    while g >= 0 && x[g] == x[g + x.Length - 1 - f]
      invariant -1 <= g <= g0
      invariant Window(x[..], g, f)
    {
      g := g - 1;
    }
    WindowEntry(x[..], g, f);
  }

  /** suffixes */
  method Suffixes(x: array<Byte>, suff: array<int>)
    requires 1 <= x.Length == suff.Length
    modifies suff
    ensures SuffixesFrom(x[..], suff[..], 0)
  {
    var m := x.Length;
    ghost var xs := x[..];
    var f := 0;
    suff[m - 1] := m;
    assert CommonSuffix(xs, m - 1, m);
    var g := m - 1;
    var i := m - 2;
    while i >= 0
      invariant -1 <= i <= m - 2
      invariant SuffixesFrom(xs, suff[..], i + 1)
      invariant -1 <= g
      invariant i < m - 2 ==> i < f < m - 1 && g <= f && Window(xs, g, f)
      invariant i == m - 2 ==> g == m - 1
    {
      if i > g && suff[i + m - 1 - f] < i - g {
        CopyEntry(xs, i, g, f, suff[..][i + m - 1 - f]);
        suff[i] := suff[i + m - 1 - f];
      } else {
        if i > g {
          assert LongestCommonSuffix(xs, i + m - 1 - f, suff[..][i + m - 1 - f]);
          ReuseWindow(xs, i, g, f, suff[..][i + m - 1 - f]);
        }
        if i < g {
          g := i;
        }
        f := i;
        g := ExtendWindow(x, g, f);
        suff[i] := f - g;
      }
      i := i - 1;
    }
  }

  /** s is the least period beyond q. */
  ghost predicate LeastPeriodPast(x: seq<Byte>, q: int, s: int) {
    q < s <= |x| && Period(x, s) && forall s' :: q < s' < s ==> !Period(x, s')
  }

  /** First half of preBmGs: shifts from the borders of the pattern. */
  method BorderShifts(x: array<Byte>, suff: array<int>, bmGs: array<int>)
    requires 1 <= x.Length == suff.Length == bmGs.Length && suff != bmGs
    requires SuffixesFrom(x[..], suff[..], 0)
    modifies bmGs
    ensures forall q :: 0 <= q < x.Length ==> LeastPeriodPast(x[..], q, bmGs[q])
  {
    var m := x.Length;
    ghost var xs := x[..];
    for k := 0 to m
      invariant forall p :: 0 <= p < k ==> bmGs[p] == m
    {
      bmGs[k] := m;
    }
    var j := 0;
    var i := m - 1;
    while i >= -1
      invariant -2 <= i <= m - 1
      invariant 0 <= j <= m && (j == 0 || j <= m - 2 - i)
      invariant forall q :: 0 <= q < j ==> LeastPeriodPast(xs, q, bmGs[q])
      invariant forall q :: j <= q < m ==> bmGs[q] == m
      invariant forall s :: j < s < m - 1 - i ==> !Period(xs, s)
      invariant i == -2 ==> j == m
    {
      assert i < m - 1 && i >= 0 ==> LongestCommonSuffix(xs, m - 1 - (m - 1 - i), suff[..][i]);
      if 0 <= i < m - 1 {
        PeriodBySuffix(xs, m - 1 - i, suff[i]);
      }
      if i == -1 || suff[i] == i + 1 {
        while j < m - 1 - i
          invariant 0 <= j <= m
          invariant j <= m - 1 - i || j == 0
          invariant forall q :: 0 <= q < j ==> LeastPeriodPast(xs, q, bmGs[q])
          invariant forall q :: j <= q < m ==> bmGs[q] == m
          invariant forall s :: j < s < m - 1 - i ==> !Period(xs, s)
        {
          if bmGs[j] == m {
            bmGs[j] := m - 1 - i;
          }
          assert Period(xs, m - 1 - i);
          assert LeastPeriodPast(xs, j, bmGs[j]);
          j := j + 1;
        }
      }
      i := i - 1;
    }
  }

  /** What the second half of preBmGs has made of entry q after looking at suff[..i]. */
  ghost predicate ShiftEntry(x: seq<Byte>, suff: seq<int>, i: int, q: int, s: int)
    requires |suff| == |x| && 0 <= i <= |x|
  {
    || (LeastPeriodPast(x, q, s) && forall p :: 0 <= p < i ==> suff[p] != |x| - 1 - q)
    || (0 <= |x| - 1 - s < i && suff[|x| - 1 - s] == |x| - 1 - q
        && forall p :: |x| - 1 - s < p < i ==> suff[p] != |x| - 1 - q)
  }

  lemma {:induction false} ShiftEntryFinal(x: seq<Byte>, suff: seq<int>, q: int, s: int)
    requires 0 <= q < |x| && SuffixesFrom(x, suff, 0) && ShiftEntry(x, suff, |x| - 1, q, s)
    ensures LeastPlausible(x, q, s)
  {
    assert Plausible(x, q, s) by {
      if LeastPeriodPast(x, q, s) {
        PlausiblePast(x, q, s);
      } else {
        assert LongestCommonSuffix(x, |x| - 1 - s, suff[|x| - 1 - s]);
        if s <= q {
          PlausibleBySuffix(x, q, s, suff[|x| - 1 - s]);
        } else {
          PeriodBySuffix(x, s, suff[|x| - 1 - s]);
          PlausiblePast(x, q, s);
        }
      }
    }
    forall s' | Plausible(x, q, s') ensures s <= s' {
      if s' <= q {
        assert LongestCommonSuffix(x, |x| - 1 - s', suff[|x| - 1 - s']);
        PlausibleBySuffix(x, q, s', suff[|x| - 1 - s']);
      } else if s' <= |x| {
        PlausiblePast(x, q, s');
        if 1 <= s < |x| {
          assert LongestCommonSuffix(x, |x| - 1 - s, suff[|x| - 1 - s]);
        }
      }
    }
  }

  /** preBmGs */
  method PreBmGs(x: array<Byte>, bmGs: array<int>)
    requires 1 <= x.Length == bmGs.Length
    modifies bmGs
    ensures forall q :: 0 <= q < x.Length ==> LeastPlausible(x[..], q, bmGs[q])
  {
    var m := x.Length;
    ghost var xs := x[..];
    var suff := new int[m];
    Suffixes(x, suff);
    BorderShifts(x, suff, bmGs);
    ghost var ss := suff[..];
    for i := 0 to m - 1
      invariant suff[..] == ss
      invariant forall q :: 0 <= q < m ==> ShiftEntry(xs, ss, i, q, bmGs[q])
    {
      assert LongestCommonSuffix(xs, i, ss[i]);
      bmGs[m - 1 - suff[i]] := m - 1 - i;
    }
    forall q | 0 <= q < m ensures LeastPlausible(xs, q, bmGs[q]) {
      ShiftEntryFinal(xs, ss, q, bmGs[q]);
    }
  }

  /** What a search that reports positions one by one returns: `reply` is the callback's answer
      to the positions reported so far, the newest last.  A non-zero answer stops the search. */
  function Report(reply: seq<nat> -> int, done: seq<nat>, rest: seq<nat>): (int, seq<nat>)
    decreases |rest|
  {
    if rest == [] then (|done|, done)
    else
      var now := done + [rest[0]];
      var c := reply(now);
      if c != 0 then (if c < 0 then c else |now|, now) else Report(reply, now, rest[1..])
  }

  /** With a callback that always answers 0 every occurrence is reported and counted. */
  lemma {:induction false} ReportAll(reply: seq<nat> -> int, done: seq<nat>, rest: seq<nat>)
    requires forall s :: reply(s) == 0
    ensures Report(reply, done, rest) == (|done + rest|, done + rest)
    decreases |rest|
  {
    if rest == [] {
      assert done + rest == done;
    } else {
      ReportAll(reply, done + [rest[0]], rest[1..]);
      assert done + [rest[0]] + rest[1..] == done + rest;
    }
  }

  /** The search's answer, from the naive list of occurrences. */
  function Answer(x: seq<Byte>, y: seq<Byte>, mfun: Option<seq<nat> -> int>): (int, seq<nat>) {
    var all := Occurrences(x, y, 0);
    if |y| < |x| then (-1, [])
    else match mfun
      case None => (if all == [] then -1 else all[0], [])
      case Some(reply) => Report(reply, [], all)
  }

  /** With a callback that always answers 0 the search reports every occurrence and returns
      their number if and only if the text is at least as long as the pattern; a shorter text
      gives -1, not 0. */
  lemma {:induction false} CountsAllIff(x: seq<Byte>, y: seq<Byte>, reply: seq<nat> -> int)
    requires x != [] && forall s :: reply(s) == 0
    ensures var all := Occurrences(x, y, 0);
            && (Answer(x, y, Some(reply)) == (|all|, all) <==> |x| <= |y|)
            && (forall p: nat :: p in all <==> OccursAt(x, y, p))
            && (forall a, b :: 0 <= a < b < |all| ==> all[a] < all[b])
  {
    OccurrencesExact(x, y, 0);
    ReportAll(reply, [], Occurrences(x, y, 0));
    assert [] + Occurrences(x, y, 0) == Occurrences(x, y, 0);
  }

  /** Without a callback the search returns the first occurrence, or -1 exactly if there is
      none. */
  lemma {:induction false} FindsFirst(x: seq<Byte>, y: seq<Byte>)
    requires x != []
    ensures var r := Answer(x, y, None).0;
            && (r == -1 <==> forall p: nat :: !OccursAt(x, y, p))
            && (r != -1 ==> r >= 0 && OccursAt(x, y, r) && forall p: nat :: p < r ==> !OccursAt(x, y, p))
  {
    OccurrencesExact(x, y, 0);
    var all := Occurrences(x, y, 0);
    if all != [] { assert all[0] in all; }
  }

  /** Report goes through the occurrences up to the first nonzero answer. */
  lemma {:induction false} ReportStops(reply: seq<nat> -> int, done: seq<nat>, rest: seq<nat>) returns (n: nat)
    ensures n <= |rest| && Report(reply, done, rest).1 == done + rest[..n]
    ensures forall k :: 0 < k < n ==> reply(done + rest[..k]) == 0
    ensures var (r, positions) := Report(reply, done, rest);
            if n > 0 && reply(positions) != 0 then r == if reply(positions) < 0 then reply(positions) else |positions|
            else n == |rest| && r == |positions|
    decreases |rest|
  {
    n := 0;
    if rest == [] {
      assert done + rest[..0] == done;
    } else {
      var now := done + [rest[0]];
      assert now == done + rest[..1];
      n := 1;
      if reply(now) == 0 {
        var m := ReportStops(reply, now, rest[1..]);
        n := m + 1;
        forall k | 0 <= k <= m ensures now + rest[1..][..k] == done + rest[..k + 1] {}
        forall k | 0 < k < n ensures reply(done + rest[..k]) == 0 {
          if k > 1 { assert now + rest[1..][..k - 1] == done + rest[..k]; }
        }
      }
    }
  }

  /** What bm_search promises, in terms of the bytes it was given.  Without a callback: the first
      match, or -1.  With one: the matches in order, none left out, up to the first for which the
      callback does not answer 0; then its answer if negative, else the number of matches. */
  ghost predicate Right(
    icase: bool, x: seq<Byte>, y: seq<Byte>, mfun: Option<seq<nat> -> int>, r: int, positions: seq<nat>)
  {
    if |y| < |x| then r == -1 && positions == []
    else match mfun
      case None =>
        && positions == []
        && (if r == -1 then forall p: nat :: !MatchesAt(icase, x, y, p)
            else MatchesAt(icase, x, y, r) && forall p: nat :: p < r ==> !MatchesAt(icase, x, y, p))
      case Some(reply) =>
        && (forall a, b :: 0 <= a < b < |positions| ==> positions[a] < positions[b])
        && (forall p: nat :: p in positions ==> MatchesAt(icase, x, y, p))
        && (forall k :: 0 < k < |positions| ==> reply(positions[..k]) == 0)
        && (if positions != [] && reply(positions) != 0 then
              && r == (if reply(positions) < 0 then reply(positions) else |positions|)
              && forall p: nat :: p <= positions[|positions| - 1] && MatchesAt(icase, x, y, p) ==> p in positions
            else
              r == |positions| && forall p: nat :: MatchesAt(icase, x, y, p) ==> p in positions)
  }

  lemma {:induction false} PrefixOfSorted(all: seq<nat>, n: nat, p: nat)
    requires 0 < n <= |all| && (forall a, b :: 0 <= a < b < |all| ==> all[a] < all[b])
    requires p in all && p <= all[n - 1]
    ensures p in all[..n]
  {
    var i :| 0 <= i < |all| && all[i] == p;
    assert i < n;
    assert all[..n][i] == p;
  }

  /** `all` are the matches in order. */
  ghost predicate AllMatches(icase: bool, x: seq<Byte>, y: seq<Byte>, all: seq<nat>) {
    && (forall a, b :: 0 <= a < b < |all| ==> all[a] < all[b])
    && (forall p: nat :: p in all <==> MatchesAt(icase, x, y, p))
  }

  lemma {:induction false} OccurrencesAll(icase: bool, x: seq<Byte>, y: seq<Byte>)
    requires x != []
    ensures AllMatches(icase, x, y, Occurrences(FoldAll(icase, x), FoldAll(icase, y), 0))
  {
    OccurrencesExact(FoldAll(icase, x), FoldAll(icase, y), 0);
    forall p: nat
      ensures p in Occurrences(FoldAll(icase, x), FoldAll(icase, y), 0) <==> MatchesAt(icase, x, y, p)
    {
      FoldedOccurs(icase, x, y, p);
    }
  }

  lemma {:induction false} FirstMatches(icase: bool, x: seq<Byte>, y: seq<Byte>, all: seq<nat>, n: nat)
    requires AllMatches(icase, x, y, all) && n <= |all|
    ensures var positions := all[..n];
            && (forall a, b :: 0 <= a < b < |positions| ==> positions[a] < positions[b])
            && (forall p: nat :: p in positions ==> MatchesAt(icase, x, y, p))
            && (n > 0 ==> forall p: nat :: p <= positions[n - 1] && MatchesAt(icase, x, y, p) ==> p in positions)
            && (n == |all| ==> forall p: nat :: MatchesAt(icase, x, y, p) ==> p in positions)
  {
    forall p: nat | n > 0 && p <= all[n - 1] && p in all ensures p in all[..n] { PrefixOfSorted(all, n, p); }
    assert n == |all| ==> all[..n] == all;
  }

  lemma {:induction false} ReportsPrefix(reply: seq<nat> -> int, all: seq<nat>) returns (n: nat)
    ensures n <= |all| && Report(reply, [], all).1 == all[..n]
    ensures forall k :: 0 < k < n ==> reply(all[..n][..k]) == 0
    ensures var (r, c) := (Report(reply, [], all).0, reply(all[..n]));
            if n > 0 && c != 0 then r == (if c < 0 then c else n) else n == |all| && r == n
  {
    n := ReportStops(reply, [], all);
    assert [] + all[..n] == all[..n];
    forall k | 0 < k < n ensures reply(all[..n][..k]) == 0 {
      assert [] + all[..k] == all[..n][..k];
    }
  }

  lemma {:induction false} ReportRight(icase: bool, x: seq<Byte>, y: seq<Byte>, reply: seq<nat> -> int, all: seq<nat>)
    requires |x| <= |y| && AllMatches(icase, x, y, all)
    ensures Right(icase, x, y, Some(reply), Report(reply, [], all).0, Report(reply, [], all).1)
  {
    var n := ReportsPrefix(reply, all);
    FirstMatches(icase, x, y, all, n);
  }

  /** The answer of the folded search is the promised one. */
  lemma {:induction false} AnswerRight(icase: bool, x: seq<Byte>, y: seq<Byte>, mfun: Option<seq<nat> -> int>)
    requires x != []
    ensures var (r, positions) := Answer(FoldAll(icase, x), FoldAll(icase, y), mfun);
            Right(icase, x, y, mfun, r, positions)
  {
    var all := Occurrences(FoldAll(icase, x), FoldAll(icase, y), 0);
    OccurrencesAll(icase, x, y);
    if |x| <= |y| {
      match mfun
      case None => if all != [] { assert all[0] in all; }
      case Some(reply) => ReportRight(icase, x, y, reply, all);
    }
  }

  /** Without icase the bytes are compared as they are. */
  lemma {:induction false} CaseSensitive(x: seq<Byte>, y: seq<Byte>, mfun: Option<seq<nat> -> int>)
    ensures Answer(FoldAll(false, x), FoldAll(false, y), mfun) == Answer(x, y, mfun)
  {
    assert FoldAll(false, x) == x && FoldAll(false, y) == y;
  }

  /** Text and pattern agree after pattern place i of the window at j, and differ there. */
  predicate DifferAt(x: seq<Byte>, y: seq<Byte>, j: nat, i: int) {
    && 0 <= i < |x| && j + |x| <= |y| && y[j + i] != x[i]
    && forall k :: i < k < |x| ==> y[j + k] == x[k]
  }

  predicate NoneIn(x: seq<Byte>, y: seq<Byte>, lo: int, hi: int) {
    forall p :: lo <= p < hi ==> !OccursAt(x, y, p)
  }

  /** The search's answer once `positions` are reported and the occurrences from j on remain. */
  ghost function AnswerFrom(x: seq<Byte>, y: seq<Byte>, mfun: Option<seq<nat> -> int>, positions: seq<nat>, j: nat)
    : (int, seq<nat>)
  {
    var rest := Occurrences(x, y, j);
    match mfun
    case None => (if rest == [] then -1 else rest[0], positions)
    case Some(reply) => Report(reply, positions, rest)
  }

  lemma {:induction false} AnswerSkips(x: seq<Byte>, y: seq<Byte>, mfun: Option<seq<nat> -> int>, positions: seq<nat>, j: nat, j': nat)
    requires x != [] && j <= j' && NoneIn(x, y, j, j')
    ensures AnswerFrom(x, y, mfun, positions, j) == AnswerFrom(x, y, mfun, positions, j')
  {
    SkipNone(x, y, j, j');
  }

  /** An occurrence at j is reported, and the callback's answer may end the search. */
  lemma {:induction false} AnswerReported(x: seq<Byte>, y: seq<Byte>, reply: seq<nat> -> int, positions: seq<nat>, j: nat)
    requires x != [] && OccursAt(x, y, j)
    ensures var now := positions + [j];
            var c := reply(now);
            AnswerFrom(x, y, Some(reply), positions, j)
            == if c == 0 then AnswerFrom(x, y, Some(reply), now, j + 1) else (if c < 0 then c else |now|, now)
  {
    assert Occurrences(x, y, j) == [j] + Occurrences(x, y, j + 1);
    assert ([j] + Occurrences(x, y, j + 1))[1..] == Occurrences(x, y, j + 1);
  }

  /** If it does not, the search goes on at the next place where the pattern can occur. */
  lemma {:induction false} AnswerGoesOn(
    x: seq<Byte>, y: seq<Byte>, reply: seq<nat> -> int, positions: seq<nat>, j: nat, next: nat)
    requires x != [] && OccursAt(x, y, j) && reply(positions + [j]) == 0 && j < next && NoneIn(x, y, j + 1, next)
    ensures AnswerFrom(x, y, Some(reply), positions, j) == AnswerFrom(x, y, Some(reply), positions + [j], next)
  {
    AnswerReported(x, y, reply, positions, j);
    AnswerSkips(x, y, Some(reply), positions + [j], j + 1, next);
  }

  /** The searcher that bm_init makes; nothing in it changes afterwards. */
  class BM {
    const icase: bool
    ghost const pattern: seq<Byte>
    const savedX: seq<Byte>
    const bmGs: seq<int>
    const bmBc: seq<int>

    ghost predicate Valid() {
      && 1 <= |savedX| == |bmGs| && |bmBc| == BM_ASIZE && savedX == FoldAll(icase, pattern)
      && (forall q :: 0 <= q < |savedX| ==> LeastPlausible(savedX, q, bmGs[q]))
      && (forall c: Byte :: BadCharShift(savedX, c, bmBc[c]))
    }

    /** bm_init */
    constructor (x: seq<Byte>, icase: bool)
      requires 1 <= |x|
      ensures Valid() && this.icase == icase && pattern == x
    {
      this.icase, this.pattern := icase, x;
      var gs := new int[|x|];
      var sx := new Byte[|x|];
      for i := 0 to |x|
        invariant forall k :: 0 <= k < i ==> sx[k] == Fold(icase, x[k])
      {
        sx[i] := Fold(icase, x[i]);
      }
      PreBmGs(sx, gs);
      var bc := new int[BM_ASIZE];
      PreBmBc(sx, bc);
      this.bmGs, this.savedX, this.bmBc := gs[..], sx[..], bc[..];
      assert sx[..] == FoldAll(icase, x);
    }

    /** The inner loop of bm_search: the last place where pattern and text differ, -1 for a
        match. */
    method Compare(y: seq<Byte>, j: nat) returns (i: int)
      requires Valid() && j + |savedX| <= |y|
      ensures if i < 0 then OccursAt(savedX, FoldAll(icase, y), j) else DifferAt(savedX, FoldAll(icase, y), j, i)
    {
      i := |savedX| - 1;
      while i >= 0 && savedX[i] == Fold(icase, y[i + j])
        invariant -1 <= i <= |savedX| - 1
        invariant forall k :: i < k < |savedX| ==> FoldAll(icase, y)[j + k] == savedX[k]
      {
        i := i - 1;
      }
    }

    /** How far a mismatch at pattern place i moves the window: never past an occurrence. */
    method MismatchShift(y: seq<Byte>, j: nat, i: nat) returns (shift: nat)
      requires Valid() && DifferAt(savedX, FoldAll(icase, y), j, i)
      ensures shift >= 1 && NoneIn(savedX, FoldAll(icase, y), j, j + shift)
    {
      ghost var xs, ys := savedX, FoldAll(icase, y);
      var c := Fold(icase, y[i + j]);
      var bad := bmBc[c] - |savedX| + 1 + i;
      assert LeastPlausible(xs, i, bmGs[i]) && BadCharShift(xs, ys[j + i], bmBc[c]);
      shift := if bmGs[i] < bad then bad else bmGs[i];
      forall p | j <= p < j + shift ensures !OccursAt(xs, ys, p) {
        SkipIsSafe(xs, ys, j, i, bmGs[i], bmBc[c], p);
      }
    }

    /** How far a match moves the window: to the next place where the pattern can occur. */
    method MatchShift(ghost y: seq<Byte>, ghost j: nat) returns (shift: nat)
      requires Valid() && OccursAt(savedX, y, j)
      ensures shift >= 1 && NoneIn(savedX, y, j + 1, j + shift)
    {
      assert LeastPlausible(savedX, 0, bmGs[0]);
      shift := bmGs[0];
      forall p | j + 1 <= p < j + shift ensures !OccursAt(savedX, y, p) {
        MatchSkipIsSafe(savedX, y, j, shift, p);
      }
    }

    /** A match at j, reported to the callback, whose answer may end the search. */
    method Reported(ys: seq<Byte>, reply: seq<nat> -> int, before: seq<nat>, j: nat)
      returns (over: bool, r: int, positions: seq<nat>, next: nat)
      requires Valid() && OccursAt(savedX, ys, j)
      ensures var now := AnswerFrom(savedX, ys, Some(reply), before, j);
              if over then now == (r, positions)
              else next > j && now == AnswerFrom(savedX, ys, Some(reply), positions, next)
    {
      positions := before + [j];
      var c := reply(positions);
      if c != 0 {
        AnswerReported(savedX, ys, reply, before, j);
        return true, if c < 0 then c else |positions|, positions, j;
      }
      var shift := MatchShift(ys, j);
      AnswerGoesOn(savedX, ys, reply, before, j, j + shift);
      over, r, next := false, 0, j + shift;
    }

    /** One window of bm_search: the search is over with the answer r, or goes on at `next`. */
    method TryWindow(y: seq<Byte>, mfun: Option<seq<nat> -> int>, before: seq<nat>, j: nat)
      returns (over: bool, r: int, positions: seq<nat>, next: nat)
      requires Valid() && j + |savedX| <= |y|
      ensures var xs, ys := savedX, FoldAll(icase, y);
              if over then AnswerFrom(xs, ys, mfun, before, j) == (r, positions)
              else next > j && AnswerFrom(xs, ys, mfun, before, j) == AnswerFrom(xs, ys, mfun, positions, next)
    {
      var i := Compare(y, j);
      if i < 0 {
        match mfun
        case None => over, r, positions, next := true, j, before, j;
        case Some(reply) => over, r, positions, next := Reported(FoldAll(icase, y), reply, before, j);
      } else {
        var shift := MismatchShift(y, j, i);
        AnswerSkips(savedX, FoldAll(icase, y), mfun, before, j, j + shift);
        over, r, positions, next := false, 0, before, j + shift;
      }
    }

    /** bm_search, with the length test that the build enables; `positions` are those handed
        to the callback. */
    method Search(y: seq<Byte>, mfun: Option<seq<nat> -> int>) returns (r: int, positions: seq<nat>)
      requires Valid()
      ensures Right(icase, pattern, y, mfun, r, positions)
      ensures !icase ==> (r, positions) == Answer(pattern, y, mfun)
    {
      r, positions := SearchFolded(y, mfun);
      AnswerRight(icase, pattern, y, mfun);
      if !icase { CaseSensitive(pattern, y, mfun); }
    }

    /** Its loop, on the folded bytes. */
    method SearchFolded(y: seq<Byte>, mfun: Option<seq<nat> -> int>) returns (r: int, positions: seq<nat>)
      requires Valid()
      ensures (r, positions) == Answer(savedX, FoldAll(icase, y), mfun)
    {
      ghost var xs, ys := savedX, FoldAll(icase, y);
      positions := [];
      if |y| < |savedX| { return -1, []; }
      var j := 0;
      while j <= |y| - |savedX|
        invariant 0 <= j
        invariant Answer(xs, ys, mfun) == AnswerFrom(xs, ys, mfun, positions, j)
        decreases |y| - j
      {
        var over;
        over, r, positions, j := TryWindow(y, mfun, positions, j);
        if over { return; }
      }
      assert Occurrences(xs, ys, j) == [];
      r := if mfun.None? then -1 else |positions|;
    }
  }
}
