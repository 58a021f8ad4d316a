/** Cost zones: cutting a list of costed items into one contiguous share per processor.  An
    item belongs to the processor in whose range the cost of the items before it falls. */
module Zones {
  import opened Sequences

  datatype Piece<T> = Piece(item: T, cost: nat)

  function Total<T>(s: seq<Piece<T>>): nat {
    if s == [] then 0 else s[0].cost + Total(s[1..])
  }

  /** The items whose preceding work, counted from `work`, is in lo..hi. */
  function Share<T>(s: seq<Piece<T>>, work: nat, lo: int, hi: int): seq<Piece<T>> {
    if s == [] then []
    else (if lo <= work < hi then [s[0]] else []) + Share(s[1..], work + s[0].cost, lo, hi)
  }

  lemma {:induction false} TotalAppend<T>(a: seq<Piece<T>>, b: seq<Piece<T>>)
    ensures Total(a + b) == Total(a) + Total(b)
  {
    if a == [] {
      assert a + b == b;
    } else {
      TotalAppend(a[1..], b);
      assert (a + b)[1..] == a[1..] + b;
    }
  }

  lemma {:induction false} ShareCons<T>(x: Piece<T>, s: seq<Piece<T>>, work: nat, lo: int, hi: int)
    ensures Share([x] + s, work, lo, hi) == (if lo <= work < hi then [x] else []) + Share(s, work + x.cost, lo, hi)
  {
    assert ([x] + s)[1..] == s;
  }

  lemma {:induction false} ShareAppend<T>(a: seq<Piece<T>>, b: seq<Piece<T>>, work: nat, lo: int, hi: int)
    ensures Share(a + b, work, lo, hi) == Share(a, work, lo, hi) + Share(b, work + Total(a), lo, hi)
  {
    if a == [] {
      assert a + b == b;
    } else {
      var x, rest := a[0], a[1..];
      var first := if lo <= work < hi then [x] else [];
      var p, q := Share(rest, work + x.cost, lo, hi), Share(b, work + Total(a), lo, hi);
      calc {
        Share(a + b, work, lo, hi);
        { assert a + b == [x] + (rest + b); }
        Share([x] + (rest + b), work, lo, hi);
        { ShareCons(x, rest + b, work, lo, hi); }
        first + Share(rest + b, work + x.cost, lo, hi);
        { ShareAppend(rest, b, work + x.cost, lo, hi); }
        first + (p + q);
        { Associates(first, p, q); }
        (first + p) + q;
      }
    }
  }

  /** Three stretches one after the other. */
  lemma {:induction false} ShareThree<T>(s: seq<Piece<T>>, a: seq<Piece<T>>, b: seq<Piece<T>>, c: seq<Piece<T>>,
                      work: nat, lo: int, hi: int)
    requires s == a + (b + c)
    ensures Share(s, work, lo, hi)
         == Share(a, work, lo, hi)
            + (Share(b, work + Total(a), lo, hi) + Share(c, work + Total(a) + Total(b), lo, hi))
  {
    ShareAppend(a, b + c, work, lo, hi);
    ShareAppend(b, c, work + Total(a), lo, hi);
  }

  /** Nothing before the range is taken: subtrees ending below lo can be skipped. */
  lemma {:induction false} ShareBelow<T>(s: seq<Piece<T>>, work: nat, lo: int, hi: int)
    requires work + Total(s) < lo
    ensures Share(s, work, lo, hi) == []
  {
    if s != [] { ShareBelow(s[1..], work + s[0].cost, lo, hi); }
  }

  /** Nothing beyond the range is taken: the walk can stop at hi. */
  lemma {:induction false} ShareAbove<T>(s: seq<Piece<T>>, work: nat, lo: int, hi: int)
    requires hi <= work
    ensures Share(s, work, lo, hi) == []
  {
    if s != [] { ShareAbove(s[1..], work + s[0].cost, lo, hi); }
  }

  /** The first item goes to one of two adjacent ranges, or to neither. */
  lemma {:induction false} ShareSplitFirst<T>(x: Piece<T>, a: seq<Piece<T>>, b: seq<Piece<T>>, work: nat, lo: int, mid: int, hi: int)
    requires lo <= mid <= hi && (mid <= work ==> a == [])
    ensures (if lo <= work < hi then [x] else []) + (a + b)
         == ((if lo <= work < mid then [x] else []) + a) + ((if mid <= work < hi then [x] else []) + b)
  {
    if work < mid {
      Associates(if lo <= work < mid then [x] else [], a, b);
    }
  }

  /** Adjacent ranges give adjacent shares. */
  lemma {:induction false} ShareSplit<T>(s: seq<Piece<T>>, work: nat, lo: int, mid: int, hi: int)
    requires lo <= mid <= hi
    ensures Share(s, work, lo, hi) == Share(s, work, lo, mid) + Share(s, work, mid, hi)
  {
    if s != [] {
      var rest, next := s[1..], work + s[0].cost;
      ShareSplit(rest, next, lo, mid, hi);
      if mid <= work { ShareAbove(rest, next, lo, mid); }
      ShareSplitFirst(s[0], Share(rest, next, lo, mid), Share(rest, next, mid, hi), work, lo, mid, hi);
    }
  }

  /** A range from below the first item to beyond the start of the last takes everything. */
  lemma {:induction false} ShareAll<T>(s: seq<Piece<T>>, work: nat, lo: int, hi: int)
    requires lo <= work
    requires work + Total(s) < hi || (work + Total(s) <= hi && forall i :: 0 <= i < |s| ==> s[i].cost > 0)
    ensures Share(s, work, lo, hi) == s
  {
    if s != [] {
      ShareAll(s[1..], work + s[0].cost, lo, hi);
    }
  }

  /** The shares of the first n processors, one after the other; processor p has the range
      from cuts[p] to cuts[p + 1]. */
  function Shares<T>(s: seq<Piece<T>>, cuts: seq<int>, n: nat): seq<Piece<T>>
    requires n < |cuts|
  {
    if n == 0 then [] else Shares(s, cuts, n - 1) + Share(s, 0, cuts[n - 1], cuts[n])
  }

  lemma {:induction false} SharesAre<T>(s: seq<Piece<T>>, cuts: seq<int>, n: nat)
    requires n < |cuts| && forall p :: 0 <= p < n ==> cuts[p] <= cuts[p + 1]
    ensures cuts[0] <= cuts[n] && Shares(s, cuts, n) == Share(s, 0, cuts[0], cuts[n])
  {
    if n == 0 {
      EmptyRange(s, 0, cuts[0]);
    } else {
      SharesAre(s, cuts, n - 1);
      ShareSplit(s, 0, cuts[0], cuts[n - 1], cuts[n]);
    }
  }

  /** Growing cuts from the first item to beyond the last share out everything. */
  lemma {:induction false} SharesCover<T>(s: seq<Piece<T>>, cuts: seq<int>, n: nat)
    requires n < |cuts| && forall p :: 0 <= p < n ==> cuts[p] <= cuts[p + 1]
    requires cuts[0] <= 0
    requires Total(s) < cuts[n] || (Total(s) <= cuts[n] && forall i :: 0 <= i < |s| ==> s[i].cost > 0)
    ensures Shares(s, cuts, n) == s
  {
    SharesAre(s, cuts, n);
    ShareAll(s, 0, cuts[0], cuts[n]);
  }

  lemma {:induction false} EmptyRange<T>(s: seq<Piece<T>>, work: nat, lo: int)
    ensures Share(s, work, lo, lo) == []
  {
    if s != [] { EmptyRange(s[1..], work + s[0].cost, lo); }
  }

  // ---------------------------------------------------------------- how even the shares are

  /** The work done when the first item is reached that has at least x before it. */
  function Reach<T>(s: seq<Piece<T>>, work: nat, x: int): nat {
    if s == [] || x <= work then work else Reach(s[1..], work + s[0].cost, x)
  }

  /** A share weighs what is done between its two ends. */
  lemma {:induction false} ShareWeighs<T>(s: seq<Piece<T>>, work: nat, lo: int, hi: int)
    requires lo <= hi
    ensures Total(Share(s, work, lo, hi)) == Reach(s, work, hi) - Reach(s, work, lo)
  {
    if s != [] {
      var next := work + s[0].cost;
      ShareWeighs(s[1..], next, lo, hi);
      if lo <= work < hi {
        TotalAppend([s[0]], Share(s[1..], next, lo, hi));
        assert Reach(s[1..], next, lo) == next;
      } else if hi <= work {
        ShareAbove(s, work, lo, hi);
      } else {
        assert Share(s, work, lo, hi) == Share(s[1..], next, lo, hi);
      }
    }
  }

  /** An end is missed by less than one item. */
  lemma {:induction false} ReachNear<T>(s: seq<Piece<T>>, work: nat, x: int, most: nat)
    requires work <= x <= work + Total(s) && forall i :: 0 <= i < |s| ==> s[i].cost <= most
    ensures x <= Reach(s, work, x) && (Reach(s, work, x) < x + most || Reach(s, work, x) == x)
  {
    if s != [] && work < x {
      if x <= work + s[0].cost {
        assert Reach(s[1..], work + s[0].cost, x) == work + s[0].cost;
      } else {
        ReachNear(s[1..], work + s[0].cost, x, most);
      }
    }
  }

  lemma {:induction false} ReachEnd<T>(s: seq<Piece<T>>, work: nat, x: int)
    requires work + Total(s) <= x
    ensures Reach(s, work, x) == work + Total(s)
  {
    if s != [] && work < x { ReachEnd(s[1..], work + s[0].cost, x); }
    if s != [] && x <= work { assert Total(s) == 0; }
  }

  /** A share differs from the length of its range by less than one item, or by nothing; a range
      that goes beyond the total counts up to it. */
  lemma {:induction false} ShareNear<T>(s: seq<Piece<T>>, lo: int, hi: int, most: nat)
    requires 0 <= lo <= Total(s) && lo <= hi && forall i :: 0 <= i < |s| ==> s[i].cost <= most
    ensures var length := (if hi <= Total(s) then hi else Total(s)) - lo;
            length - most <= Total(Share(s, 0, lo, hi)) <= length + most
  {
    ShareWeighs(s, 0, lo, hi);
    ReachNear(s, 0, lo, most);
    if hi <= Total(s) { ReachNear(s, 0, hi, most); } else { ReachEnd(s, 0, hi); }
  }

  /** Child order and child directions of a space-filling walk, per direction. */
  datatype Tables = Tables(child: seq<seq<nat>>, dir: seq<seq<nat>>)

  /** 0, 1, ..., n-1 */
  function Upto(n: nat): (s: seq<nat>)
    ensures |s| == n && forall i :: 0 <= i < n ==> s[i] == i
  {
    seq(n, i => i)
  }

  /** Each row orders all nsub children, and leads to directions that have rows. */
  ghost predicate TablesOk(t: Tables, ndir: nat, nsub: nat) {
    && |t.child| == |t.dir| == ndir
    && forall d :: 0 <= d < ndir ==> RowOk(t.child[d], t.dir[d], ndir, nsub)
  }

  ghost predicate RowOk(child: seq<nat>, dir: seq<nat>, ndir: nat, nsub: nat) {
    && |child| == |dir| == nsub
    && (forall i :: 0 <= i < nsub ==> child[i] < nsub && dir[i] < ndir)
    && (forall v :: 0 <= v < nsub ==> v in child)
  }

  lemma {:induction false} MultisetTakeOut<T>(b: seq<T>, k: nat)
    requires k < |b|
    ensures multiset(b[..k] + b[k + 1..]) == multiset(b) - multiset([b[k]])
  {
    assert b == b[..k] + ([b[k]] + b[k + 1..]);
  }

  /** Taking out one entry takes out no other value. */
  lemma {:induction false} OthersStay<T>(b: seq<T>, k: nat, v: T)
    requires k < |b| && v in b && v != b[k]
    ensures v in b[..k] + b[k + 1..]
  {
    var i :| 0 <= i < |b| && b[i] == v;
    var rest := b[..k] + b[k + 1..];
    assert rest[if i < k then i else i - 1] == v;
  }

  lemma {:induction false} UptoNext(rest: seq<nat>, n: nat)
    requires multiset(rest) == multiset(Upto(n))
    ensures multiset(rest) + multiset([n]) == multiset(Upto(n + 1))
  {
    assert Upto(n + 1) == Upto(n) + [n];
  }

  /** A row that names every child names each exactly once. */
  lemma {:induction false} RowPermutes(child: seq<nat>, n: nat)
    requires |child| == n && forall v :: 0 <= v < n ==> v in child
    ensures multiset(child) == multiset(Upto(n))
  {
    if n > 0 {
      var top: nat := n - 1;
      assert top in child;
      var k :| 0 <= k < n && child[k] == top;
      var rest := child[..k] + child[k + 1..];
      forall v: nat | v < top ensures v in rest { OthersStay(child, k, v); }
      RowPermutes(rest, top);
      UptoNext(rest, top);
      MultisetTakeOut(child, k);
    }
  }

  lemma {:induction false} MultisetTail<T>(a: seq<T>)
    requires a != []
    ensures multiset(a[1..]) == multiset(a) - multiset([a[0]])
  {
    assert a == [a[0]] + a[1..];
  }

  /** Two orders of one bag: where the first of `a` is in `b`, and what is left of each. */
  lemma {:induction false} TakeFirst<T>(a: seq<T>, b: seq<T>) returns (k: nat)
    requires multiset(a) == multiset(b) && a != []
    ensures k < |b| && b[k] == a[0] && multiset(b[..k] + b[k + 1..]) == multiset(a[1..])
  {
    assert a[0] in multiset(a);
    assert a[0] in b;
    k :| 0 <= k < |b| && b[k] == a[0];
    MultisetTakeOut(b, k);
    MultisetTail(a);
  }

  lemma {:induction false} TotalTakeOut<T>(b: seq<Piece<T>>, k: nat)
    requires k < |b|
    ensures Total(b) == b[k].cost + Total(b[..k] + b[k + 1..])
  {
    var rest := b[..k] + b[k + 1..];
    if k == 0 {
      assert rest == b[1..];
    } else {
      TotalTakeOut(b[1..], k - 1);
      assert b[1..][..k - 1] + b[1..][k..] == rest[1..];
    }
  }

  lemma {:induction false} TotalPermutes<T>(a: seq<Piece<T>>, b: seq<Piece<T>>)
    requires multiset(a) == multiset(b)
    ensures Total(a) == Total(b)
    decreases |a|
  {
    if a == [] {
      assert |multiset(b)| == 0;
    } else {
      var k := TakeFirst(a, b);
      TotalTakeOut(b, k);
      TotalPermutes(a[1..], b[..k] + b[k + 1..]);
    }
  }

  /** The union of the bags named by `order`. */
  function BagAt<T>(bags: seq<multiset<T>>, order: seq<nat>): multiset<T>
    requires forall i :: 0 <= i < |order| ==> order[i] < |bags|
  {
    if order == [] then multiset{} else bags[order[0]] + BagAt(bags, order[1..])
  }

  lemma {:induction false} BagFrom<T>(bags: seq<multiset<T>>, order: seq<nat>, i: nat)
    requires i < |order| && forall k :: 0 <= k < |order| ==> order[k] < |bags|
    ensures BagAt(bags, order[i..]) == bags[order[i]] + BagAt(bags, order[i + 1..])
  {
    assert order[i..][1..] == order[i + 1..];
  }

  lemma {:induction false} BagTakeOut<T>(bags: seq<multiset<T>>, order: seq<nat>, k: nat)
    requires forall i :: 0 <= i < |order| ==> order[i] < |bags|
    requires k < |order|
    ensures var rest := order[..k] + order[k + 1..];
            && (forall i :: 0 <= i < |rest| ==> rest[i] < |bags|)
            && BagAt(bags, order) == bags[order[k]] + BagAt(bags, rest)
  {
    var rest := order[..k] + order[k + 1..];
    if k == 0 {
      assert rest == order[1..];
    } else {
      BagTakeOut(bags, order[1..], k - 1);
      assert order[1..][..k - 1] + order[1..][k..] == rest[1..];
    }
  }

  /** A union of bags does not depend on the order in which they are named. */
  lemma {:induction false} BagPermutes<T>(bags: seq<multiset<T>>, a: seq<nat>, b: seq<nat>)
    requires forall i :: 0 <= i < |a| ==> a[i] < |bags|
    requires forall i :: 0 <= i < |b| ==> b[i] < |bags|
    requires multiset(a) == multiset(b)
    ensures BagAt(bags, a) == BagAt(bags, b)
    decreases |a|
  {
    if a == [] {
      assert |multiset(b)| == 0;
    } else {
      var k := TakeFirst(a, b);
      BagTakeOut(bags, b, k);
      BagPermutes(bags, a[1..], b[..k] + b[k + 1..]);
    }
  }

  // ---------------------------------------------------------------- lists in any order

  function Bags<T>(lists: seq<seq<T>>): (b: seq<multiset<T>>)
    ensures |b| == |lists| && forall i :: 0 <= i < |b| ==> b[i] == multiset(lists[i])
  {
    seq(|lists|, i requires 0 <= i < |lists| => multiset(lists[i]))
  }

  /** The lists one after the other. */
  function Flat<T>(lists: seq<seq<T>>): seq<T> {
    if lists == [] then [] else lists[0] + Flat(lists[1..])
  }

  lemma {:induction false} BagOfFlat<T>(lists: seq<seq<T>>, k: nat)
    requires k <= |lists|
    ensures BagAt(Bags(lists), Upto(|lists|)[k..]) == multiset(Flat(lists[k..]))
    decreases |lists| - k
  {
    if k < |lists| {
      BagOfFlat(lists, k + 1);
      BagFrom(Bags(lists), Upto(|lists|), k);
      assert lists[k..][1..] == lists[k + 1..];
    }
  }

  /** The order of a row does not matter to what the lists hold. */
  lemma {:induction false} AnyOrder<T>(lists: seq<seq<T>>, row: seq<nat>)
    requires |row| == |lists| && forall v :: 0 <= v < |lists| ==> v in row
    requires forall i :: 0 <= i < |row| ==> row[i] < |lists|
    ensures BagAt(Bags(lists), row[0..]) == multiset(Flat(lists))
  {
    var n := |lists|;
    RowPermutes(row, n);
    BagPermutes(Bags(lists), row, Upto(n));
    BagOfFlat(lists, 0);
    assert Upto(n)[0..] == Upto(n) && lists[0..] == lists && row[0..] == row;
  }

  /** The cut points of n processors. */
  function CutList(cut: nat -> int, n: nat): (c: seq<int>)
    ensures |c| == n + 1 && forall p :: 0 <= p <= n ==> c[p] == cut(p)
  {
    seq(n + 1, p requires 0 <= p => cut(p))
  }
}
