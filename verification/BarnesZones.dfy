/** Barnes-Hut cost zones: find_my_bodies and the ranges of stepsystem in
    papps/splash2/codes/apps/barnes/code.C.  Every processor walks the same tree on its own,
    skipping subtrees and stopping early, and the bodies they take are the whole tree cut
    into consecutive pieces. */
module BarnesZones {
  import opened Numbers
  import opened Sequences
  import opened Vectors
  import opened Zones
  import opened BarnesTables

  type Body = Piece<nat>

  /** A slot of the octree: NULL, a leaf or a cell, with the cost hackcofm left in it. */
  datatype Node =
    | Empty
    | Leaf(cost: nat, bodies: seq<Body>)
    | Cell(cost: nat, subp: seq<Node>)

  function CostOf(n: Node): nat {
    if n.Empty? then 0 else n.cost
  }

  function KidsCost(subp: seq<Node>): nat {
    if subp == [] then 0 else CostOf(subp[0]) + KidsCost(subp[1..])
  }

  /** Each cell has NSUB slots, and each cost is the sum of what is below. */
  predicate Costed(n: Node) {
    match n
    case Empty => true
    case Leaf(cost, bodies) => cost == Total(bodies)
    case Cell(cost, subp) =>
      |subp| == NSUB && cost == KidsCost(subp) && forall i :: 0 <= i < |subp| ==> Costed(subp[i])
  }

  /** The bodies in the order in which the direction-driven walk meets them. */
  function Walk(t: Tables, n: Node, d: nat): seq<Body>
    requires TablesOk(t, NUM_DIRECTIONS, NSUB) && d < NUM_DIRECTIONS && Costed(n)
    decreases n, NSUB + 1
  {
    match n
    case Empty => []
    case Leaf(_, bodies) => bodies
    case Cell(_, subp) => WalkKids(t, n, d, 0)
  }

  function WalkKids(t: Tables, n: Node, d: nat, i: nat): seq<Body>
    requires TablesOk(t, NUM_DIRECTIONS, NSUB) && d < NUM_DIRECTIONS && Costed(n) && n.Cell? && i <= NSUB
    decreases n, NSUB - i
  {
    if i == NSUB then []
    else
      assert RowOk(t.child[d], t.dir[d], NUM_DIRECTIONS, NSUB);
      Walk(t, n.subp[t.child[d][i]], t.dir[d][i]) + WalkKids(t, n, d, i + 1)
  }

  /** The bodies slot by slot: every body below the node, once. */
  function Bodies(n: Node): seq<Body>
    decreases n, 1
  {
    match n
    case Empty => []
    case Leaf(_, bodies) => bodies
    case Cell(_, subp) => BodiesOf(subp)
  }

  function BodiesOf(subp: seq<Node>): seq<Body>
    decreases subp, 0
  {
    if subp == [] then [] else Bodies(subp[0]) + BodiesOf(subp[1..])
  }

  lemma {:induction false} CostIsTotal(n: Node)
    requires Costed(n)
    ensures Total(Bodies(n)) == CostOf(n)
    decreases n, 1
  {
    if n.Cell? { KidsCostIsTotal(n.subp); }
  }

  lemma {:induction false} KidsCostIsTotal(subp: seq<Node>)
    requires forall i :: 0 <= i < |subp| ==> Costed(subp[i])
    ensures Total(BodiesOf(subp)) == KidsCost(subp)
    decreases subp, 0
  {
    if subp != [] {
      CostIsTotal(subp[0]);
      KidsCostIsTotal(subp[1..]);
      TotalAppend(Bodies(subp[0]), BodiesOf(subp[1..]));
    }
  }

  // ---------------------------------------------------------------- the walk misses nobody

  function BodyLists(subp: seq<Node>): (r: seq<seq<Body>>)
    ensures |r| == |subp| && forall i :: 0 <= i < |r| ==> r[i] == Bodies(subp[i])
  {
    seq(|subp|, i requires 0 <= i < |subp| => Bodies(subp[i]))
  }

  lemma {:induction false} BodiesFlat(subp: seq<Node>)
    ensures BodiesOf(subp) == Flat(BodyLists(subp))
  {
    if subp != [] {
      BodiesFlat(subp[1..]);
      assert BodyLists(subp)[1..] == BodyLists(subp[1..]);
    }
  }

  /** Whatever the direction, the walk meets every body of the tree exactly once. */
  lemma {:induction false} WalkMeetsAll(t: Tables, n: Node, d: nat)
    requires TablesOk(t, NUM_DIRECTIONS, NSUB) && d < NUM_DIRECTIONS && Costed(n)
    ensures multiset(Walk(t, n, d)) == multiset(Bodies(n))
    decreases n, NSUB + 1
  {
    if n.Cell? {
      assert RowOk(t.child[d], t.dir[d], NUM_DIRECTIONS, NSUB);
      WalkKidsMeet(t, n, d, 0);
      AnyOrder(BodyLists(n.subp), t.child[d]);
      BodiesFlat(n.subp);
    }
  }

  lemma {:induction false} WalkFrom(t: Tables, n: Node, d: nat, i: nat)
    requires TablesOk(t, NUM_DIRECTIONS, NSUB) && d < NUM_DIRECTIONS && Costed(n) && n.Cell? && i < NSUB
    ensures RowOk(t.child[d], t.dir[d], NUM_DIRECTIONS, NSUB)
    ensures multiset(WalkKids(t, n, d, i))
         == multiset(Walk(t, n.subp[t.child[d][i]], t.dir[d][i])) + multiset(WalkKids(t, n, d, i + 1))
  {
    assert RowOk(t.child[d], t.dir[d], NUM_DIRECTIONS, NSUB);
  }

  lemma {:induction false} WalkKidsMeet(t: Tables, n: Node, d: nat, i: nat)
    requires TablesOk(t, NUM_DIRECTIONS, NSUB) && d < NUM_DIRECTIONS && Costed(n) && n.Cell? && i <= NSUB
    ensures RowOk(t.child[d], t.dir[d], NUM_DIRECTIONS, NSUB)
    ensures multiset(WalkKids(t, n, d, i)) == BagAt(Bags(BodyLists(n.subp)), t.child[d][i..])
    decreases n, NSUB - i
  {
    assert RowOk(t.child[d], t.dir[d], NUM_DIRECTIONS, NSUB);
    if i == NSUB {
      assert WalkKids(t, n, d, i) == [] && t.child[d][i..] == [];
    } else {
      WalkFrom(t, n, d, i);
      WalkMeetsAll(t, n.subp[t.child[d][i]], t.dir[d][i]);
      WalkKidsMeet(t, n, d, i + 1);
      BagFrom(Bags(BodyLists(n.subp)), t.child[d], i);
    }
  }

  /** The walks of the slots, in the order and in the directions that the row gives. */
  function SlotWalks(t: Tables, n: Node, d: nat): (r: seq<seq<Body>>)
    requires TablesOk(t, NUM_DIRECTIONS, NSUB) && d < NUM_DIRECTIONS && Costed(n) && n.Cell?
    ensures RowOk(t.child[d], t.dir[d], NUM_DIRECTIONS, NSUB)
    ensures |r| == NSUB && forall i :: 0 <= i < NSUB ==> r[i] == Walk(t, n.subp[t.child[d][i]], t.dir[d][i])
  {
    assert RowOk(t.child[d], t.dir[d], NUM_DIRECTIONS, NSUB);
    seq(NSUB, i requires 0 <= i < NSUB => Walk(t, n.subp[t.child[d][i]], t.dir[d][i]))
  }

  lemma {:induction false} WalkKidsFlat(t: Tables, n: Node, d: nat, i: nat)
    requires TablesOk(t, NUM_DIRECTIONS, NSUB) && d < NUM_DIRECTIONS && Costed(n) && n.Cell? && i <= NSUB
    ensures WalkKids(t, n, d, i) == Flat(SlotWalks(t, n, d)[i..])
    decreases NSUB - i
  {
    if i < NSUB {
      assert RowOk(t.child[d], t.dir[d], NUM_DIRECTIONS, NSUB);
      WalkKidsFlat(t, n, d, i + 1);
      assert SlotWalks(t, n, d)[i..][1..] == SlotWalks(t, n, d)[i + 1..];
    }
  }

  /** The walk of a cell is the walks of its slots, one after the other. */
  lemma {:induction false} WalkFollowsRow(t: Tables, n: Node, d: nat)
    requires TablesOk(t, NUM_DIRECTIONS, NSUB) && d < NUM_DIRECTIONS && Costed(n) && n.Cell?
    ensures Walk(t, n, d) == Flat(SlotWalks(t, n, d))
  {
    WalkKidsFlat(t, n, d, 0);
    assert SlotWalks(t, n, d)[0..] == SlotWalks(t, n, d);
  }

  lemma {:induction false} WalkTotal(t: Tables, n: Node, d: nat)
    requires TablesOk(t, NUM_DIRECTIONS, NSUB) && d < NUM_DIRECTIONS && Costed(n)
    ensures Total(Walk(t, n, d)) == CostOf(n)
  {
    WalkMeetsAll(t, n, d);
    TotalPermutes(Walk(t, n, d), Bodies(n));
    CostIsTotal(n);
  }

  // ---------------------------------------------------------------- find_my_bodies

  lemma {:induction false} ShareStart(s: seq<Body>, i: nat, work: nat, lo: int, hi: int)
    requires i < |s|
    ensures Share(s[i..], work, lo, hi) ==
            (if lo <= work < hi then [s[i]] else []) + Share(s[i + 1..], work + s[i].cost, lo, hi)
  {
    assert s[i..][1..] == s[i + 1..];
  }

  /** The share of the slots from i on: that of slot i, then that of the slots after it. */
  lemma {:induction false} KidShare(t: Tables, n: Node, d: nat, i: nat, work: nat, lo: int, hi: int)
    requires TablesOk(t, NUM_DIRECTIONS, NSUB) && d < NUM_DIRECTIONS && Costed(n) && n.Cell? && i < NSUB
    ensures RowOk(t.child[d], t.dir[d], NUM_DIRECTIONS, NSUB)
    ensures var q, e := n.subp[t.child[d][i]], t.dir[d][i];
            Share(WalkKids(t, n, d, i), work, lo, hi)
            == Share(Walk(t, q, e), work, lo, hi) + Share(WalkKids(t, n, d, i + 1), work + CostOf(q), lo, hi)
  {
    assert RowOk(t.child[d], t.dir[d], NUM_DIRECTIONS, NSUB);
    var q, e := n.subp[t.child[d][i]], t.dir[d][i];
    WalkTotal(t, q, e);
    ShareAppend(Walk(t, q, e), WalkKids(t, n, d, i + 1), work, lo, hi);
  }

  /** Handing out slot i keeps `goal` as what is handed out plus what is to come. */
  lemma {:induction false} KidStep(goal: seq<Body>, tab: seq<Body>, t: Tables, n: Node, d: nat, i: nat, work: nat, lo: int, hi: int)
    requires TablesOk(t, NUM_DIRECTIONS, NSUB) && d < NUM_DIRECTIONS && Costed(n) && n.Cell? && i < NSUB
    requires goal == tab + Share(WalkKids(t, n, d, i), work, lo, hi)
    ensures RowOk(t.child[d], t.dir[d], NUM_DIRECTIONS, NSUB)
    ensures var q, e := n.subp[t.child[d][i]], t.dir[d][i];
            goal == tab + Share(Walk(t, q, e), work, lo, hi)
                    + Share(WalkKids(t, n, d, i + 1), work + CostOf(q), lo, hi)
  {
    KidShare(t, n, d, i, work, lo, hi);
    var q, e := n.subp[t.child[d][i]], t.dir[d][i];
    Associates(tab, Share(Walk(t, q, e), work, lo, hi), Share(WalkKids(t, n, d, i + 1), work + CostOf(q), lo, hi));
  }

  // ---------------------------------------------------------------- the ranges of stepsystem

  /** workMin of processor p, and workMax of processor p - 1: (long) (Cavg * p), one more for
      the very last. */
  function Cut(total: nat, nproc: nat, p: nat): int
    requires 0 < nproc
  {
    var cavg := total as real / nproc as real;
    (cavg * p as real + if p == nproc then 1.0 else 0.0).Floor
  }

  function Cuts(total: nat, nproc: nat): seq<int>
    requires 0 < nproc
  {
    CutList((p: nat) => Cut(total, nproc, p), nproc)
  }

  /** The ranges are as even as whole numbers can be: each cut is the integer part of p parts of
      the total in nproc. */
  lemma {:induction false} CutIsPart(total: nat, nproc: nat, p: nat)
    requires p < nproc
    ensures Cut(total, nproc, p) * nproc <= total * p < (Cut(total, nproc, p) + 1) * nproc
  {
    var n := nproc as real;
    var x := (total as real / n) * p as real;
    var c := Cut(total, nproc, p);
    assert c as real <= x < (c + 1) as real;
    PartTimes(total as real, n, p as real);
    ProductGrows(c as real, x, n);
    ProductGrows(x, (c + 1) as real, n);
    ProductOfInts(total, p);
    ProductOfInts(c, nproc);
    ProductOfInts(c + 1, nproc);
  }

  lemma {:induction false} LastCut(total: nat, nproc: nat)
    requires 0 < nproc
    ensures Cut(total, nproc, nproc) == total + 1
  {
    var n := nproc as real;
    assert (total as real / n) * n == total as real;
  }

  lemma {:induction false} CutGrows(total: nat, nproc: nat, p: nat)
    requires p < nproc
    ensures 0 <= Cut(total, nproc, p) <= total && Cut(total, nproc, p) <= Cut(total, nproc, p + 1)
  {
    var c := Cut(total, nproc, p);
    CutIsPart(total, nproc, p);
    MulBelow(c, total, p, nproc);
    if p + 1 == nproc {
      LastCut(total, nproc);
    } else {
      var d := Cut(total, nproc, p + 1);
      CutIsPart(total, nproc, p + 1);
      assert total * (p + 1) == total * p + total;
      MulCancel(c, d + 1, nproc);
    }
  }

  lemma {:induction false} MulBelow(c: int, total: nat, p: nat, nproc: nat)
    requires p < nproc && c * nproc <= total * p < (c + 1) * nproc
    ensures 0 <= c <= total
  {
    MulCancel(0, c + 1, nproc);
    assert total * nproc == total * p + total * (nproc - p);
    assert (total + 1) * nproc == total * nproc + nproc;
    MulCancel(c, total + 1, nproc);
  }

  lemma {:induction false} CutsOk(total: nat, nproc: nat)
    requires 0 < nproc
    ensures var c := Cuts(total, nproc);
            c[0] == 0 && c[nproc] == total + 1 && forall p :: 0 <= p < nproc ==> c[p] <= c[p + 1]
  {
    CutIsPart(total, nproc, 0);
    MulBelow(Cut(total, nproc, 0), total, 0, nproc);
    LastCut(total, nproc);
    forall p | 0 <= p < nproc ensures Cuts(total, nproc)[p] <= Cuts(total, nproc)[p + 1] {
      CutGrows(total, nproc, p);
    }
  }

  // ---------------------------------------------------------------- the walk in place

  /** The part of Local[ProcessId] that the partitioning uses. */
  class Local {
    var workMin: int
    var workMax: int
    var mybodytab: seq<Body>

    /** The leaf branch of find_my_bodies. */
    method TakeFromLeaf(bodies: seq<Body>, work0: nat)
      requires work0 < workMax
      modifies `mybodytab
      ensures mybodytab == old(mybodytab) + Share(bodies, work0, workMin, workMax)
    {
      var work: nat := work0;
      var i := 0;
      while i < |bodies|
        invariant 0 <= i <= |bodies|
        invariant work < workMax
        invariant old(mybodytab) + Share(bodies, work0, workMin, workMax)
               == mybodytab + Share(bodies[i..], work, workMin, workMax)
      {
        ShareStart(bodies, i, work, workMin, workMax);
        if work as real >= workMin as real - 0.1 {
          mybodytab := mybodytab + [bodies[i]];
        }
        work := work + bodies[i].cost;
        i := i + 1;
        if work as real >= workMax as real - 0.1 {
          ShareAbove(bodies[i..], work, workMin, workMax);
          break;
        }
      }
    }

    /** find_my_bodies.  A leaf is entered with work left to hand out: the root is a cell and
        the cell loop tests workMax. */
    method FindMyBodies(t: Tables, mycell: Node, work0: nat, direction: nat)
      requires TablesOk(t, NUM_DIRECTIONS, NSUB) && direction < NUM_DIRECTIONS
      requires Costed(mycell) && !mycell.Empty?
      requires mycell.Leaf? ==> work0 < workMax
      modifies `mybodytab
      ensures mybodytab == old(mybodytab) + Share(Walk(t, mycell, direction), work0, workMin, workMax)
      decreases mycell, 0
    {
      if mycell.Leaf? {
        TakeFromLeaf(mycell.bodies, work0);
        return;
      }
      var work: nat := work0;
      ghost var goal := mybodytab + Share(Walk(t, mycell, direction), work0, workMin, workMax);
      assert RowOk(t.child[direction], t.dir[direction], NUM_DIRECTIONS, NSUB);
      var i := 0;
      while i < NSUB && (work as real) < workMax as real - 0.1
        invariant 0 <= i <= NSUB
        invariant goal == mybodytab + Share(WalkKids(t, mycell, direction, i), work, workMin, workMax)
      {
        var qptr := mycell.subp[t.child[direction][i]];
        KidStep(goal, mybodytab, t, mycell, direction, i, work, workMin, workMax);
        WalkSlot(t, qptr, work, t.dir[direction][i]);
        work := work + CostOf(qptr);
        i := i + 1;
      }
      if i < NSUB {
        ShareAbove(WalkKids(t, mycell, direction, i), work, workMin, workMax);
      }
    }

    /** One turn of the cell loop of find_my_bodies: an empty slot and a subtree that ends
        before the range are passed over. */
    method WalkSlot(t: Tables, qptr: Node, work: nat, direction: nat)
      requires TablesOk(t, NUM_DIRECTIONS, NSUB) && direction < NUM_DIRECTIONS
      requires Costed(qptr) && work < workMax
      modifies `mybodytab
      ensures mybodytab == old(mybodytab) + Share(Walk(t, qptr, direction), work, workMin, workMax)
      decreases qptr, 1
    {
      if !qptr.Empty? && (work + qptr.cost) as real >= workMin as real - 0.1 {
        FindMyBodies(t, qptr, work, direction);
      } else {
        WalkTotal(t, qptr, direction);
        if !qptr.Empty? { ShareBelow(Walk(t, qptr, direction), work, workMin, workMax); }
      }
    }

    /** The partitioning part of stepsystem, for processor p of nproc. */
    method FindShare(t: Tables, root: Node, p: nat, nproc: nat)
      requires TablesOk(t, NUM_DIRECTIONS, NSUB) && Costed(root) && root.Cell? && p < nproc
      modifies this
      ensures mybodytab == Share(Walk(t, root, BRC_FUC), 0, Cuts(root.cost, nproc)[p], Cuts(root.cost, nproc)[p + 1])
    {
      workMin, workMax := Cut(root.cost, nproc, p), Cut(root.cost, nproc, p + 1);
      mybodytab := [];
      FindMyBodies(t, root, 0, BRC_FUC);
    }
  }

  /** The cost zones partition the bodies: for any tree with correct costs, any number of
      processors and any non-negative body costs, the shares that the processors find, one
      after the other, are the whole walk, and the walk has every body of the tree once. */
  lemma {:induction false} ZonesPartition(t: Tables, root: Node, nproc: nat)
    requires TablesOk(t, NUM_DIRECTIONS, NSUB) && Costed(root) && 0 < nproc
    ensures var cuts := Cuts(CostOf(root), nproc);
            && Shares(Walk(t, root, BRC_FUC), cuts, nproc) == Walk(t, root, BRC_FUC)
            && multiset(Shares(Walk(t, root, BRC_FUC), cuts, nproc)) == multiset(Bodies(root))
  {
    var total := CostOf(root);
    var walk := Walk(t, root, BRC_FUC);
    WalkTotal(t, root, BRC_FUC);
    WalkMeetsAll(t, root, BRC_FUC);
    CutsOk(total, nproc);
    SharesCover(walk, Cuts(total, nproc), nproc);
  }

  lemma {:induction false} WalkAtMost(t: Tables, root: Node, most: nat)
    requires TablesOk(t, NUM_DIRECTIONS, NSUB) && Costed(root)
    requires forall i :: 0 <= i < |Bodies(root)| ==> Bodies(root)[i].cost <= most
    ensures Total(Walk(t, root, BRC_FUC)) == CostOf(root)
    ensures forall i :: 0 <= i < |Walk(t, root, BRC_FUC)| ==> Walk(t, root, BRC_FUC)[i].cost <= most
  {
    WalkTotal(t, root, BRC_FUC);
    WalkMeetsAll(t, root, BRC_FUC);
    forall i | 0 <= i < |Walk(t, root, BRC_FUC)| ensures Walk(t, root, BRC_FUC)[i].cost <= most {
      assert Walk(t, root, BRC_FUC)[i] in multiset(Bodies(root));
    }
  }

  /** And they balance the load: no processor's share is further from an equal part of the total
      than the cost of one body, and one. */
  lemma {:induction false} ZonesBalance(t: Tables, root: Node, nproc: nat, p: nat, most: nat)
    requires TablesOk(t, NUM_DIRECTIONS, NSUB) && Costed(root) && p < nproc
    requires forall i :: 0 <= i < |Bodies(root)| ==> Bodies(root)[i].cost <= most
    ensures var total, cuts := CostOf(root), Cuts(CostOf(root), nproc);
            var share := Share(Walk(t, root, BRC_FUC), 0, cuts[p], cuts[p + 1]);
            total - nproc * (most + 1) <= nproc * Total(share) <= total + nproc * (most + 1)
  {
    WalkAtMost(t, root, most);
    ShareBalance(Walk(t, root, BRC_FUC), nproc, p, most);
  }

  lemma {:induction false} ShareBalance(walk: seq<Body>, nproc: nat, p: nat, most: nat)
    requires p < nproc && forall i :: 0 <= i < |walk| ==> walk[i].cost <= most
    ensures var total := Total(walk);
            var share := Share(walk, 0, Cut(total, nproc, p), Cut(total, nproc, p + 1));
            total - nproc * (most + 1) <= nproc * Total(share) <= total + nproc * (most + 1)
  {
    var total := Total(walk);
    var lo, hi := Cut(total, nproc, p), Cut(total, nproc, p + 1);
    CutGrows(total, nproc, p);
    ShareNear(walk, lo, hi, most);
    LengthNear(total, nproc, p);
    ScaleNear(nproc, (if hi <= total then hi else total) - lo, Total(Share(walk, 0, lo, hi)), most, total);
  }

  lemma {:induction false} LengthNear(total: nat, nproc: nat, p: nat)
    requires p < nproc
    ensures var lo, hi := Cut(total, nproc, p), Cut(total, nproc, p + 1);
            var length := (if hi <= total then hi else total) - lo;
            total - nproc <= length * nproc <= total + nproc
  {
    var lo, hi := Cut(total, nproc, p), Cut(total, nproc, p + 1);
    CutIsPart(total, nproc, p);
    CutEnd(total, nproc, p);
    var end := if hi <= total then hi else total;
    Distributes(end, lo, nproc);
    Distributes(total, 0, p);
    Distributes(nproc, 0, lo);
  }

  /** Where the range of processor p ends, the end of the total being the end of the last. */
  lemma {:induction false} CutEnd(total: nat, nproc: nat, p: nat)
    requires p < nproc
    ensures var hi := Cut(total, nproc, p + 1);
            var end := if hi <= total then hi else total;
            end * nproc <= total * (p + 1) < end * nproc + nproc
  {
    var hi := Cut(total, nproc, p + 1);
    if p + 1 == nproc {
      LastCut(total, nproc);
    } else {
      CutGrows(total, nproc, p + 1);
      CutIsPart(total, nproc, p + 1);
      Distributes(nproc, 0, hi);
    }
  }

  lemma {:induction false} ScaleNear(nproc: nat, length: int, weight: int, most: nat, total: int)
    requires length - most <= weight <= length + most && total - nproc <= length * nproc <= total + nproc
    ensures total - nproc * (most + 1) <= nproc * weight <= total + nproc * (most + 1)
  {
    assert nproc * (length - most) <= nproc * weight <= nproc * (length + most);
    assert nproc * (length - most) == length * nproc - nproc * most;
    assert nproc * (length + most) == length * nproc + nproc * most;
    assert nproc * (most + 1) == nproc * most + nproc;
  }
}
