/** What the Boyer-Moore tables of papps/pfscan-1.0/bm.c mean, stated on the pattern alone. */
module BmSpec {
  const BM_ASIZE: nat := 256

  type Byte = b: int | 0 <= b < 256

  /** tolower of the C locale. */
  function ToLower(b: Byte): Byte {
    if 65 <= b <= 90 then b + 32 else b
  }

  function Fold(icase: bool, b: Byte): Byte {
    if icase then ToLower(b) else b
  }

  function FoldAll(icase: bool, s: seq<Byte>): (r: seq<Byte>)
    ensures |r| == |s| && forall i :: 0 <= i < |s| ==> r[i] == Fold(icase, s[i])
  {
    seq(|s|, i requires 0 <= i < |s| => Fold(icase, s[i]))
  }

  /** The two cases of one letter. */
  predicate TwoCases(a: Byte, b: Byte) {
    || (65 <= a <= 90 && b == a + 32)
    || (65 <= b <= 90 && a == b + 32)
  }

  /** What the search takes as the same byte. */
  predicate SameByte(icase: bool, a: Byte, b: Byte) {
    a == b || (icase && TwoCases(a, b))
  }

  /** The bytes of x, as they are, stand in y at position j, up to case if icase is set. */
  predicate MatchesAt(icase: bool, x: seq<Byte>, y: seq<Byte>, j: int) {
    0 <= j && j + |x| <= |y| && forall k :: 0 <= k < |x| ==> SameByte(icase, x[k], y[j + k])
  }

  /** Folding identifies just these bytes. */
  lemma {:induction false} FoldJoins(icase: bool, a: Byte, b: Byte)
    ensures Fold(icase, a) == Fold(icase, b) <==> SameByte(icase, a, b)
  {
  }

  lemma {:induction false} FoldedOccurs(icase: bool, x: seq<Byte>, y: seq<Byte>, j: int)
    ensures OccursAt(FoldAll(icase, x), FoldAll(icase, y), j) <==> MatchesAt(icase, x, y, j)
  {
    if 0 <= j && j + |x| <= |y| {
      forall k | 0 <= k < |x|
        ensures FoldAll(icase, y)[j + k] == FoldAll(icase, x)[k] <==> SameByte(icase, x[k], y[j + k])
      {
        FoldJoins(icase, x[k], y[j + k]);
      }
    }
  }

  /** The pattern x occurs in y at position j. */
  predicate OccursAt(x: seq<Byte>, y: seq<Byte>, j: int) {
    0 <= j && j + |x| <= |y| && forall k :: 0 <= k < |x| ==> y[j + k] == x[k]
  }

  /** All positions from j on at which x occurs in y: the naive search. */
  function Occurrences(x: seq<Byte>, y: seq<Byte>, j: nat): seq<nat>
    decreases |y| - j
  {
    if j + |x| > |y| || j >= |y| then []
    else (if OccursAt(x, y, j) then [j] else []) + Occurrences(x, y, j + 1)
  }

  /** The naive search reports exactly the occurrences, overlaps included, in order. */
  lemma {:induction false} OccurrencesExact(x: seq<Byte>, y: seq<Byte>, j: nat)
    requires x != []
    ensures var o := Occurrences(x, y, j);
            && (forall p: nat :: p in o <==> j <= p && OccursAt(x, y, p))
            && (forall a, b :: 0 <= a < b < |o| ==> o[a] < o[b])
    decreases |y| - j
  {
    if j + |x| <= |y| {
      OccurrencesExact(x, y, j + 1);
      var rest := Occurrences(x, y, j + 1);
      forall a | 0 <= a < |rest| ensures j < rest[a] { assert rest[a] in rest; }
    }
  }

  lemma {:induction false} SkipNone(x: seq<Byte>, y: seq<Byte>, j: nat, j': nat)
    requires x != [] && j <= j'
    requires forall p :: j <= p < j' ==> !OccursAt(x, y, p)
    ensures Occurrences(x, y, j) == Occurrences(x, y, j')
    decreases j' - j
  {
    if j < j' {
      SkipNone(x, y, j + 1, j');
    }
  }

  // ---------------------------------------------------------------- longest common suffixes

  /** The k bytes of x that end at i are the last k bytes of x. */
  predicate CommonSuffix(x: seq<Byte>, i: int, k: int) {
    0 <= i < |x| && 0 <= k <= i + 1 && forall q :: i - k < q <= i ==> x[q] == x[q + |x| - 1 - i]
  }

  ghost predicate LongestCommonSuffix(x: seq<Byte>, i: int, k: int) {
    CommonSuffix(x, i, k) && forall k' :: CommonSuffix(x, i, k') ==> k' <= k
  }

  lemma {:induction false} SuffixByMismatch(x: seq<Byte>, i: int, k: int)
    requires CommonSuffix(x, i, k)
    requires k == i + 1 || x[i - k] != x[|x| - 1 - k]
    ensures LongestCommonSuffix(x, i, k)
  {
  }

  lemma {:induction false} SuffixMismatch(x: seq<Byte>, i: int, k: int)
    requires LongestCommonSuffix(x, i, k) && k <= i
    ensures x[i - k] != x[|x| - 1 - k]
  {
    if x[i - k] == x[|x| - 1 - k] {
      assert CommonSuffix(x, i, k + 1);
    }
  }

  // ---------------------------------------------------------------- good suffix shifts

  /** Moving the pattern by s agrees with a text that matched after position q and did not
      match at q. */
  predicate Plausible(x: seq<Byte>, q: int, s: int) {
    && 0 <= q < |x| && 1 <= s
    && (forall k :: q < k < |x| && s <= k ==> x[k - s] == x[k])
    && (s <= q ==> x[q - s] != x[q])
  }

  ghost predicate LeastPlausible(x: seq<Byte>, q: int, s: int) {
    Plausible(x, q, s) && forall s' :: Plausible(x, q, s') ==> s <= s'
  }

  /** s is a period of x: x agrees with itself moved by s. */
  predicate Period(x: seq<Byte>, s: int) {
    1 <= s && forall k :: s <= k < |x| ==> x[k - s] == x[k]
  }

  /** At position 0 the least plausible shift is the least period of the pattern. */
  lemma {:induction false} ShiftAtZeroIsPeriod(x: seq<Byte>, s: int)
    requires LeastPlausible(x, 0, s)
    ensures Period(x, s) && forall s' :: Period(x, s') ==> s <= s'
  {
    forall s' | Period(x, s') ensures s <= s' { assert Plausible(x, 0, s'); }
  }

  lemma {:induction false} PlausiblePast(x: seq<Byte>, q: int, s: int)
    requires 0 <= q < s <= |x|
    ensures Plausible(x, q, s) <==> Period(x, s)
  {
  }

  lemma {:induction false} PeriodBySuffix(x: seq<Byte>, s: int, k: int)
    requires 1 <= s < |x| && LongestCommonSuffix(x, |x| - 1 - s, k)
    ensures Period(x, s) <==> k == |x| - s
  {
    var i := |x| - 1 - s;
    if k == i + 1 {
      forall p | s <= p < |x| ensures x[p - s] == x[p] {
        assert x[p - s] == x[(p - s) + |x| - 1 - i];
      }
    } else {
      SuffixMismatch(x, i, k);
      assert x[(|x| - 1 - k) - s] != x[|x| - 1 - k];
    }
  }

  lemma {:induction false} PlausibleBySuffix(x: seq<Byte>, q: int, s: int, k: int)
    requires 1 <= s <= q < |x| && LongestCommonSuffix(x, |x| - 1 - s, k)
    ensures Plausible(x, q, s) <==> k == |x| - 1 - q
  {
    var i := |x| - 1 - s;
    if k == |x| - 1 - q {
      SuffixMismatch(x, i, k);
      forall p | q < p < |x| && s <= p ensures x[p - s] == x[p] {
        assert x[p - s] == x[(p - s) + |x| - 1 - i];
      }
    } else if k < |x| - 1 - q {
      SuffixMismatch(x, i, k);
      assert x[(|x| - 1 - k) - s] != x[|x| - 1 - k];
    } else {
      assert x[q - s] == x[(q - s) + |x| - 1 - i];
    }
  }

  // ---------------------------------------------------------------- bad character shifts

  /** v is the distance from the last byte of x to the last c before it, or |x| if none. */
  predicate BadCharShift(x: seq<Byte>, c: Byte, v: int) {
    && 1 <= v <= |x|
    && (v < |x| ==> x[|x| - 1 - v] == c)
    && (forall p :: |x| - 1 - v < p < |x| - 1 && 0 <= p ==> x[p] != c)
  }

  // ---------------------------------------------------------------- why skipping is safe

  /** An occurrence beyond j is at a plausible distance, and puts the text's byte at the
      mismatch under an equal byte of the pattern. */
  lemma {:induction false} OccurrencePlausible(x: seq<Byte>, y: seq<Byte>, j: nat, q: int, p: int)
    requires 0 <= q < |x| && j + |x| <= |y|
    requires forall k :: q < k < |x| ==> y[j + k] == x[k]
    requires y[j + q] != x[q]
    requires OccursAt(x, y, p) && j < p
    ensures Plausible(x, q, p - j)
    ensures p - j <= q ==> x[q - (p - j)] == y[j + q]
  {
    var s := p - j;
    forall k | q < k < |x| && s <= k ensures x[k - s] == x[k] {
      assert y[p + (k - s)] == x[k - s];
    }
    if s <= q { assert y[p + (q - s)] == x[q - s]; }
  }

  /** After a mismatch at q with the tables' shifts, no occurrence is skipped. */
  lemma {:induction false} SkipIsSafe(x: seq<Byte>, y: seq<Byte>, j: nat, q: int, gs: int, bc: int, p: int)
    requires 0 <= q < |x| && j + |x| <= |y|
    requires forall k :: q < k < |x| ==> y[j + k] == x[k]
    requires y[j + q] != x[q]
    requires LeastPlausible(x, q, gs) && BadCharShift(x, y[j + q], bc)
    requires j <= p < j + gs || j <= p < j + bc - |x| + 1 + q
    ensures !OccursAt(x, y, p)
  {
    if j < p && OccursAt(x, y, p) {
      OccurrencePlausible(x, y, j, q, p);
    }
  }

  /** After a full match, no occurrence is closer than the shift for position 0. */
  lemma {:induction false} MatchSkipIsSafe(x: seq<Byte>, y: seq<Byte>, j: nat, gs: int, p: int)
    requires x != [] && OccursAt(x, y, j) && LeastPlausible(x, 0, gs) && j < p < j + gs
    ensures !OccursAt(x, y, p)
  {
    if OccursAt(x, y, p) {
      var s := p - j;
      forall k | 0 < k < |x| && s <= k ensures x[k - s] == x[k] {
        assert y[p + (k - s)] == x[k - s];
        assert y[j + k] == x[k];
      }
      assert Plausible(x, 0, s);
    }
  }
}
