/** FMM cost zones: CostZones and CostZonesHelper in papps/splash2/codes/apps/fmm/cost_zones.C,
    with InsertBoxInPartition of partition_grid.C.  Parents are handed out too, after the third
    of their four child slots. */
module FmmZones {
  import opened Numbers
  import opened Zones
  import opened FmmTables

  /** What a partition list holds of a box. */
  datatype BoxRef = BoxRef(id: nat, level: nat, parent: bool)

  datatype Box =
    | NoBox
    | Childless(ref: BoxRef, cost: nat, subtreeCost: nat)
    | Parent(ref: BoxRef, cost: nat, subtreeCost: nat, children: seq<Box>)

  type Item = Piece<BoxRef>

  function SubtreeCost(b: Box): nat {
    if b.NoBox? then 0 else b.subtreeCost
  }

  function KidsCost(kids: seq<Box>): nat {
    if kids == [] then 0 else SubtreeCost(kids[0]) + KidsCost(kids[1..])
  }

  /** Four child slots, every cost at least 1 and every subtree cost the sum of the costs in
      the subtree, as ComputeSubTreeCosts leaves them. */
  predicate Costed(b: Box) {
    match b
    case NoBox => true
    case Childless(ref, cost, sub) => !ref.parent && 1 <= cost == sub
    case Parent(ref, cost, sub, kids) =>
      && ref.parent && 1 <= cost && |kids| == NUM_OFFSPRING
      && sub == cost + KidsCost(kids) && forall i :: 0 <= i < |kids| ==> Costed(kids[i])
  }

  /** The boxes in the order in which the walk hands them out. */
  function Visit(t: Tables, b: Box, d: nat): seq<Item>
    requires TablesOk(t, NUM_DIRECTIONS, NUM_OFFSPRING) && d < NUM_DIRECTIONS && Costed(b)
    decreases b, NUM_OFFSPRING + 1
  {
    match b
    case NoBox => []
    case Childless(ref, cost, _) => [Piece(ref, cost)]
    case Parent(_, _, _, _) => VisitKids(t, b, d, 0)
  }

  /** From child slot i on; the box itself follows slot 2. */
  function VisitKids(t: Tables, b: Box, d: nat, i: nat): seq<Item>
    requires TablesOk(t, NUM_DIRECTIONS, NUM_OFFSPRING) && d < NUM_DIRECTIONS && Costed(b) && b.Parent?
    requires i <= NUM_OFFSPRING
    decreases b, NUM_OFFSPRING - i
  {
    if i == NUM_OFFSPRING then []
    else
      assert RowOk(t.child[d], t.dir[d], NUM_DIRECTIONS, NUM_OFFSPRING);
      Visit(t, b.children[t.child[d][i]], t.dir[d][i])
      + (if i == 2 then [Piece(b.ref, b.cost)] else [])
      + VisitKids(t, b, d, i + 1)
  }

  /** Every box of the subtree once: the box, then its children slot by slot. */
  function Boxes(b: Box): seq<Item>
    decreases b, 1
  {
    match b
    case NoBox => []
    case Childless(ref, cost, _) => [Piece(ref, cost)]
    case Parent(ref, cost, _, kids) => [Piece(ref, cost)] + BoxesOf(kids)
  }

  function BoxesOf(kids: seq<Box>): seq<Item>
    decreases kids, 0
  {
    if kids == [] then [] else Boxes(kids[0]) + BoxesOf(kids[1..])
  }

  lemma {:induction false} CostIsTotal(b: Box)
    requires Costed(b)
    ensures Total(Boxes(b)) == SubtreeCost(b)
    ensures forall i :: 0 <= i < |Boxes(b)| ==> Boxes(b)[i].cost > 0
    decreases b, 1
  {
    if b.Parent? {
      KidsCostIsTotal(b.children);
      TotalAppend([Piece(b.ref, b.cost)], BoxesOf(b.children));
    }
  }

  lemma {:induction false} KidsCostIsTotal(kids: seq<Box>)
    requires forall i :: 0 <= i < |kids| ==> Costed(kids[i])
    ensures Total(BoxesOf(kids)) == KidsCost(kids)
    ensures forall i :: 0 <= i < |BoxesOf(kids)| ==> BoxesOf(kids)[i].cost > 0
    decreases kids, 0
  {
    if kids != [] {
      CostIsTotal(kids[0]);
      KidsCostIsTotal(kids[1..]);
      TotalAppend(Boxes(kids[0]), BoxesOf(kids[1..]));
    }
  }

  // ---------------------------------------------------------------- the walk misses no box

  function BoxLists(kids: seq<Box>): (r: seq<seq<Item>>)
    ensures |r| == |kids| && forall i :: 0 <= i < |r| ==> r[i] == Boxes(kids[i])
  {
    seq(|kids|, i requires 0 <= i < |kids| => Boxes(kids[i]))
  }

  lemma {:induction false} BoxesFlat(kids: seq<Box>)
    ensures BoxesOf(kids) == Flat(BoxLists(kids))
  {
    if kids != [] {
      BoxesFlat(kids[1..]);
      assert BoxLists(kids)[1..] == BoxLists(kids[1..]);
    }
  }

  /** Whatever the direction, the walk meets every box, parents included, exactly once. */
  lemma {:induction false} VisitMeetsAll(t: Tables, b: Box, d: nat)
    requires TablesOk(t, NUM_DIRECTIONS, NUM_OFFSPRING) && d < NUM_DIRECTIONS && Costed(b)
    ensures multiset(Visit(t, b, d)) == multiset(Boxes(b))
    decreases b, NUM_OFFSPRING + 1
  {
    if b.Parent? {
      VisitKidsMeet(t, b, d, 0);
      AnyOrder(BoxLists(b.children), t.child[d]);
      BoxesFlat(b.children);
      assert Visit(t, b, d) == VisitKids(t, b, d, 0);
    }
  }

  /** The box itself, visited after slot 2. */
  function OwnPart(b: Box, i: nat): seq<Item>
    requires b.Parent?
  {
    if i == 2 then [Piece(b.ref, b.cost)] else []
  }

  lemma {:induction false} VisitSlot(t: Tables, b: Box, d: nat, i: nat)
    requires TablesOk(t, NUM_DIRECTIONS, NUM_OFFSPRING) && d < NUM_DIRECTIONS && b.Parent? && i < NUM_OFFSPRING
    requires Costed(b)
    ensures RowOk(t.child[d], t.dir[d], NUM_DIRECTIONS, NUM_OFFSPRING)
    ensures VisitKids(t, b, d, i)
         == Visit(t, b.children[t.child[d][i]], t.dir[d][i]) + (OwnPart(b, i) + VisitKids(t, b, d, i + 1))
  {
    assert RowOk(t.child[d], t.dir[d], NUM_DIRECTIONS, NUM_OFFSPRING);
  }

  /** The box itself, when it comes at slot i or later. */
  function OwnFrom(b: Box, i: nat): multiset<Item>
    requires b.Parent?
  {
    if i <= 2 then multiset{Piece(b.ref, b.cost)} else multiset{}
  }

  lemma {:induction false} OwnStep(b: Box, i: nat)
    requires b.Parent?
    ensures multiset(OwnPart(b, i)) + OwnFrom(b, i + 1) == OwnFrom(b, i)
  {
  }

  /** What the walk meets from slot i on, once it is known for the slots after it. */
  lemma {:induction false} SlotBag(
    b: Box, i: nat, bags: seq<multiset<Item>>, row: seq<nat>, all: seq<Item>, kid: seq<Item>, rest: seq<Item>)
    requires b.Parent? && i < |row| && forall k :: 0 <= k < |row| ==> row[k] < |bags|
    requires all == kid + (OwnPart(b, i) + rest)
    requires multiset(kid) == bags[row[i]] && multiset(rest) == BagAt(bags, row[i + 1..]) + OwnFrom(b, i + 1)
    ensures multiset(all) == BagAt(bags, row[i..]) + OwnFrom(b, i)
  {
    BagFrom(bags, row, i);
    OwnStep(b, i);
  }

  lemma {:induction false} VisitKidsMeet(t: Tables, b: Box, d: nat, i: nat)
    requires TablesOk(t, NUM_DIRECTIONS, NUM_OFFSPRING) && d < NUM_DIRECTIONS && Costed(b) && b.Parent?
    requires i <= NUM_OFFSPRING
    ensures RowOk(t.child[d], t.dir[d], NUM_DIRECTIONS, NUM_OFFSPRING)
    ensures multiset(VisitKids(t, b, d, i)) == BagAt(Bags(BoxLists(b.children)), t.child[d][i..]) + OwnFrom(b, i)
    decreases b, NUM_OFFSPRING - i
  {
    assert RowOk(t.child[d], t.dir[d], NUM_DIRECTIONS, NUM_OFFSPRING);
    if i < NUM_OFFSPRING {
      VisitMeetsAll(t, b.children[t.child[d][i]], t.dir[d][i]);
      VisitKidsMeet(t, b, d, i + 1);
      VisitSlot(t, b, d, i);
      SlotBag(b, i, Bags(BoxLists(b.children)), t.child[d], VisitKids(t, b, d, i),
              Visit(t, b.children[t.child[d][i]], t.dir[d][i]), VisitKids(t, b, d, i + 1));
    }
  }

  lemma {:induction false} VisitChild(t: Tables, b: Box, d: nat, i: nat)
    requires TablesOk(t, NUM_DIRECTIONS, NUM_OFFSPRING) && d < NUM_DIRECTIONS && b.Parent? && i < NUM_OFFSPRING
    requires Costed(b)
    ensures RowOk(t.child[d], t.dir[d], NUM_DIRECTIONS, NUM_OFFSPRING)
    ensures var first := Visit(t, b.children[t.child[d][i]], t.dir[d][i]);
            VisitKids(t, b, d, i)
            == if i == 2 then first + ([Piece(b.ref, b.cost)] + VisitKids(t, b, d, i + 1))
               else first + VisitKids(t, b, d, i + 1)
  {
    VisitSlot(t, b, d, i);
    assert i != 2 ==> OwnPart(b, i) + VisitKids(t, b, d, i + 1) == VisitKids(t, b, d, i + 1);
  }

  /** A parent is visited after three of its children and before the fourth. */
  lemma {:induction false} VisitFollowsRow(t: Tables, b: Box, d: nat)
    requires TablesOk(t, NUM_DIRECTIONS, NUM_OFFSPRING) && d < NUM_DIRECTIONS && Costed(b) && b.Parent?
    ensures RowOk(t.child[d], t.dir[d], NUM_DIRECTIONS, NUM_OFFSPRING)
    ensures var row, to := t.child[d], t.dir[d];
            Visit(t, b, d)
            == Visit(t, b.children[row[0]], to[0]) + (Visit(t, b.children[row[1]], to[1])
               + (Visit(t, b.children[row[2]], to[2]) + ([Piece(b.ref, b.cost)] + Visit(t, b.children[row[3]], to[3]))))
  {
    VisitChild(t, b, d, 0);
    VisitChild(t, b, d, 1);
    VisitChild(t, b, d, 2);
    VisitChild(t, b, d, 3);
    NothingAfter(Visit(t, b.children[t.child[d][3]], t.dir[d][3]), VisitKids(t, b, d, 4));
  }

  lemma {:induction false} NothingAfter(a: seq<Item>, b: seq<Item>)
    requires b == []
    ensures a + b == a
  {
  }

  lemma {:induction false} VisitTotal(t: Tables, b: Box, d: nat)
    requires TablesOk(t, NUM_DIRECTIONS, NUM_OFFSPRING) && d < NUM_DIRECTIONS && Costed(b)
    ensures Total(Visit(t, b, d)) == SubtreeCost(b)
    ensures forall i :: 0 <= i < |Visit(t, b, d)| ==> Visit(t, b, d)[i].cost > 0
  {
    VisitMeetsAll(t, b, d);
    TotalPermutes(Visit(t, b, d), Boxes(b));
    CostIsTotal(b);
    forall i | 0 <= i < |Visit(t, b, d)| ensures Visit(t, b, d)[i].cost > 0 {
      assert Visit(t, b, d)[i] in multiset(Boxes(b));
      assert Visit(t, b, d)[i] in Boxes(b);
    }
  }

  // ---------------------------------------------------------------- the partition lists

  /** Childless_Partition, Parent_Partition[] and Max_Parent_Level of one processor. */
  datatype Lists = Lists(childless: seq<BoxRef>, parents: map<nat, seq<BoxRef>>, maxLevel: int)

  const NO_BOXES := Lists([], map[], -1)

  function LevelList(p: Lists, level: nat): seq<BoxRef> {
    if level in p.parents then p.parents[level] else []
  }

  /** InsertBoxInPartition: new boxes go to the front. */
  function Insert(p: Lists, b: BoxRef): Lists {
    if !b.parent then p.(childless := [b] + p.childless)
    else Lists(p.childless, p.parents[b.level := [b] + LevelList(p, b.level)],
               if b.level > p.maxLevel then b.level else p.maxLevel)
  }

  function InsertAll(p: Lists, s: seq<Item>): Lists
    decreases |s|
  {
    if s == [] then p else InsertAll(Insert(p, s[0].item), s[1..])
  }

  lemma {:induction false} InsertAppend(p: Lists, a: seq<Item>, b: seq<Item>)
    ensures InsertAll(p, a + b) == InsertAll(InsertAll(p, a), b)
    decreases |a|
  {
    if a == [] {
      assert a + b == b;
    } else {
      InsertAppend(Insert(p, a[0].item), a[1..], b);
      assert (a + b)[1..] == a[1..] + b;
    }
  }

  lemma {:induction false} OwnShare(b: Box, i: nat, work: nat, lo: int, hi: int)
    requires b.Parent?
    ensures Total(OwnPart(b, i)) == if i == 2 then b.cost else 0
    ensures Share(OwnPart(b, i), work, lo, hi) == if i == 2 && lo <= work < hi then [Piece(b.ref, b.cost)] else []
  {
  }

  /** The share of the slots from i on. */
  lemma {:induction false} SlotShare(t: Tables, b: Box, d: nat, i: nat, work: nat, lo: int, hi: int)
    requires TablesOk(t, NUM_DIRECTIONS, NUM_OFFSPRING) && d < NUM_DIRECTIONS && Costed(b) && b.Parent?
    requires i < NUM_OFFSPRING
    ensures RowOk(t.child[d], t.dir[d], NUM_DIRECTIONS, NUM_OFFSPRING)
    ensures var q, e := b.children[t.child[d][i]], t.dir[d][i];
            var mid := work + SubtreeCost(q);
            Share(VisitKids(t, b, d, i), work, lo, hi)
            == Share(Visit(t, q, e), work, lo, hi)
               + ((if i == 2 && lo <= mid < hi then [Piece(b.ref, b.cost)] else [])
                  + Share(VisitKids(t, b, d, i + 1), mid + (if i == 2 then b.cost else 0), lo, hi))
  {
    VisitSlot(t, b, d, i);
    var q, e := b.children[t.child[d][i]], t.dir[d][i];
    var mid := work + SubtreeCost(q);
    VisitTotal(t, q, e);
    ShareThree(VisitKids(t, b, d, i), Visit(t, q, e), OwnPart(b, i), VisitKids(t, b, d, i + 1), work, lo, hi);
    OwnShare(b, i, mid, lo, hi);
  }

  /** Inserting the share of the slots from i on: first that of slot i, then the box itself
      after slot 2, then that of the slots after it. */
  lemma {:induction false} SlotInsert(p: Lists, t: Tables, b: Box, d: nat, i: nat, work: nat, lo: int, hi: int)
    requires TablesOk(t, NUM_DIRECTIONS, NUM_OFFSPRING) && d < NUM_DIRECTIONS && Costed(b) && b.Parent?
    requires i < NUM_OFFSPRING
    ensures RowOk(t.child[d], t.dir[d], NUM_DIRECTIONS, NUM_OFFSPRING)
    ensures var q, e := b.children[t.child[d][i]], t.dir[d][i];
            var mid := work + SubtreeCost(q);
            var p1 := InsertAll(p, Share(Visit(t, q, e), work, lo, hi));
            var p2 := if i == 2 && lo <= mid < hi then Insert(p1, b.ref) else p1;
            InsertAll(p, Share(VisitKids(t, b, d, i), work, lo, hi))
            == InsertAll(p2, Share(VisitKids(t, b, d, i + 1), mid + (if i == 2 then b.cost else 0), lo, hi))
  {
    SlotShare(t, b, d, i, work, lo, hi);
    var q, e := b.children[t.child[d][i]], t.dir[d][i];
    var mid := work + SubtreeCost(q);
    var below := Share(Visit(t, q, e), work, lo, hi);
    var own := if i == 2 && lo <= mid < hi then [Piece(b.ref, b.cost)] else [];
    var rest := Share(VisitKids(t, b, d, i + 1), mid + (if i == 2 then b.cost else 0), lo, hi);
    InsertAppend(p, below, own + rest);
    InsertAppend(InsertAll(p, below), own, rest);
  }

  /** Local[my_id]. */
  class Local {
    var minWork: int
    var maxWork: int
    var part: Lists

    /** CostZonesHelper.  A childless box is inserted without a look at Max_Work; below a
        parent the slot loop has made that test. */
    method CostZonesHelper(t: Tables, b: Box, work0: nat, dir: nat)
      requires TablesOk(t, NUM_DIRECTIONS, NUM_OFFSPRING) && dir < NUM_DIRECTIONS
      requires Costed(b) && !b.NoBox?
      modifies `part
      ensures b.Parent? || work0 < maxWork ==>
                part == InsertAll(old(part), Share(Visit(t, b, dir), work0, minWork, maxWork))
      ensures b.Childless? ==> part == if work0 >= minWork then Insert(old(part), b.ref) else old(part)
      decreases b, NUM_OFFSPRING + 2
    {
      if b.Childless? {
        if work0 >= minWork {
          part := Insert(part, b.ref);
        }
        return;
      }
      WalkChildren(t, b, work0, dir);
    }

    /** The slot loop of CostZonesHelper. */
    method WalkChildren(t: Tables, b: Box, work0: nat, dir: nat)
      requires TablesOk(t, NUM_DIRECTIONS, NUM_OFFSPRING) && dir < NUM_DIRECTIONS
      requires Costed(b) && b.Parent?
      modifies `part
      ensures part == InsertAll(old(part), Share(VisitKids(t, b, dir, 0), work0, minWork, maxWork))
      decreases b, NUM_OFFSPRING + 1
    {
      var work: nat := work0;
      ghost var goal := InsertAll(part, Share(VisitKids(t, b, dir, 0), work, minWork, maxWork));
      var i := 0;
      while i < NUM_OFFSPRING && work < maxWork
        invariant 0 <= i <= NUM_OFFSPRING
        invariant goal == InsertAll(part, Share(VisitKids(t, b, dir, i), work, minWork, maxWork))
      {
        work := TakeSlot(t, b, i, work, dir);
        i := i + 1;
      }
      if i < NUM_OFFSPRING {
        ShareAbove(VisitKids(t, b, dir, i), work, minWork, maxWork);
      }
    }

    /** One turn of the slot loop: what is inserted and what is to come stay together. */
    method TakeSlot(t: Tables, b: Box, i: nat, work: nat, dir: nat) returns (next: nat)
      requires TablesOk(t, NUM_DIRECTIONS, NUM_OFFSPRING) && dir < NUM_DIRECTIONS
      requires Costed(b) && b.Parent? && i < NUM_OFFSPRING && work < maxWork
      modifies `part
      ensures InsertAll(old(part), Share(VisitKids(t, b, dir, i), work, minWork, maxWork))
           == InsertAll(part, Share(VisitKids(t, b, dir, i + 1), next, minWork, maxWork))
      decreases b, NUM_OFFSPRING
    {
      SlotInsert(part, t, b, dir, i, work, minWork, maxWork);
      var cb := b.children[t.child[dir][i]];
      WalkSlot(t, cb, work, t.dir[dir][i]);
      next := TakeOwn(b, i, work + SubtreeCost(cb));
    }

    /** The box itself, when slot i was slot 2; gives the work so far. */
    method TakeOwn(b: Box, i: nat, work: nat) returns (next: nat)
      requires b.Parent?
      modifies `part
      ensures next == work + if i == 2 then b.cost else 0
      ensures part == if i == 2 && minWork <= work < maxWork then Insert(old(part), b.ref) else old(part)
    {
      next := work;
      if i == 2 {
        if minWork <= work < maxWork {
          part := Insert(part, b.ref);
        }
        next := work + b.cost;
      }
    }

    /** One child slot: nothing to do for a NULL child or one that ends before the range. */
    method WalkSlot(t: Tables, cb: Box, work: nat, dir: nat)
      requires TablesOk(t, NUM_DIRECTIONS, NUM_OFFSPRING) && dir < NUM_DIRECTIONS
      requires Costed(cb) && work < maxWork
      modifies `part
      ensures part == InsertAll(old(part), Share(Visit(t, cb, dir), work, minWork, maxWork))
      decreases cb, NUM_OFFSPRING + 3
    {
      if !cb.NoBox? {
        if work + cb.subtreeCost >= minWork {
          CostZonesHelper(t, cb, work, dir);
        } else {
          VisitTotal(t, cb, dir);
          ShareBelow(Visit(t, cb, dir), work, minWork, maxWork);
        }
      }
    }

    /** CostZones after the first barrier, for processor p of nproc. */
    method CostZones(t: Tables, grid: Box, p: nat, nproc: nat)
      requires TablesOk(t, NUM_DIRECTIONS, NUM_OFFSPRING) && Costed(grid) && !grid.NoBox? && p < nproc
      modifies this
      ensures part == InsertAll(NO_BOXES, Taken(t, grid, nproc, p))
    {
      var total := grid.subtreeCost;
      minWork := (total / nproc) * p;
      maxWork := if p == nproc - 1 then total else minWork + total / nproc;
      part := NO_BOXES;
      assert (total / nproc) * p + total / nproc == (total / nproc) * (p + 1);
      CostZonesHelper(t, grid, 0, RIGHT);
    }
  }

  // ---------------------------------------------------------------- the partition

  /** Whether processor p inserts a grid that is one childless box of the given cost. */
  predicate TakesLoneBox(cost: nat, nproc: nat, p: nat)
    requires p < nproc
  {
    (cost / nproc) * p <= 0
  }

  /** The boxes that processor p of nproc takes: its share of the walk, or the whole grid when
      that is one childless box. */
  function Taken(t: Tables, grid: Box, nproc: nat, p: nat): seq<Item>
    requires TablesOk(t, NUM_DIRECTIONS, NUM_OFFSPRING) && Costed(grid) && !grid.NoBox? && p < nproc
  {
    if grid.Parent? then
      var cuts := Cuts(grid.subtreeCost, nproc);
      Share(Visit(t, grid, RIGHT), 0, cuts[p], cuts[p + 1])
    else if TakesLoneBox(grid.cost, nproc, p) then [Piece(grid.ref, grid.cost)] else []
  }

  /** A grid that is one childless box goes to exactly one processor if and only if there is
      only one, or its cost is at least their number; otherwise every processor takes it. */
  lemma {:induction false} LoneBoxTakenOnce(cost: nat, nproc: nat)
    requires 0 < nproc
    ensures TakesLoneBox(cost, nproc, 0)
    ensures (forall p :: 0 <= p < nproc && TakesLoneBox(cost, nproc, p) ==> p == 0)
            <==> nproc == 1 || nproc <= cost
    ensures cost < nproc ==> forall p :: 0 <= p < nproc ==> TakesLoneBox(cost, nproc, p)
  {
    var each := cost / nproc;
    assert cost == each * nproc + cost % nproc;
    if nproc <= cost {
      assert each >= 1;
      forall p | 0 <= p < nproc && TakesLoneBox(cost, nproc, p) ensures p == 0 {
        assert each * p >= p;
      }
    } else {
      assert each == 0;
      assert nproc > 1 ==> TakesLoneBox(cost, nproc, 0) && TakesLoneBox(cost, nproc, 1);
    }
  }

  /** Min_Work of processor p, and Max_Work of processor p - 1. */
  function Cut(total: nat, nproc: nat, p: nat): int
    requires 0 < nproc
  {
    if p == nproc then total else (total / nproc) * p
  }

  function Cuts(total: nat, nproc: nat): seq<int>
    requires 0 < nproc
  {
    CutList((p: nat) => Cut(total, nproc, p), nproc)
  }

  lemma {:induction false} CutsGrow(total: nat, nproc: nat, p: nat)
    requires p < nproc
    ensures Cut(total, nproc, p) <= Cut(total, nproc, p + 1)
  {
    var q := total / nproc;
    assert q * (p + 1) == q * p + q;
    assert total == q * nproc + total % nproc;
  }

  /** The cost zones partition the boxes, parents included: the shares of the processors, one
      after the other, are the whole walk, and the walk has every box of the tree once. */
  lemma {:induction false} ZonesPartition(t: Tables, grid: Box, nproc: nat)
    requires TablesOk(t, NUM_DIRECTIONS, NUM_OFFSPRING) && Costed(grid) && 0 < nproc
    ensures var cuts := Cuts(SubtreeCost(grid), nproc);
            && Shares(Visit(t, grid, RIGHT), cuts, nproc) == Visit(t, grid, RIGHT)
            && multiset(Shares(Visit(t, grid, RIGHT), cuts, nproc)) == multiset(Boxes(grid))
  {
    var total := SubtreeCost(grid);
    var cuts := Cuts(total, nproc);
    VisitTotal(t, grid, RIGHT);
    VisitMeetsAll(t, grid, RIGHT);
    forall p | 0 <= p < nproc ensures cuts[p] <= cuts[p + 1] { CutsGrow(total, nproc, p); }
    assert cuts[0] <= 0 by { assert (total / nproc) * 0 == 0; }
    SharesCover(Visit(t, grid, RIGHT), cuts, nproc);
  }

  /** All processors but the last get an equal part of the cost, to within one box; the last gets
      what is left over as well, which is less than the number of processors. */
  lemma {:induction false} ZonesBalance(t: Tables, grid: Box, nproc: nat, p: nat, most: nat)
    requires TablesOk(t, NUM_DIRECTIONS, NUM_OFFSPRING) && Costed(grid) && p < nproc
    requires forall i :: 0 <= i < |Boxes(grid)| ==> Boxes(grid)[i].cost <= most
    ensures var total, cuts := SubtreeCost(grid), Cuts(SubtreeCost(grid), nproc);
            var share := Share(Visit(t, grid, RIGHT), 0, cuts[p], cuts[p + 1]);
            var part := total / nproc + if p == nproc - 1 then total % nproc else 0;
            part - most <= Total(share) <= part + most
  {
    var total, visit := SubtreeCost(grid), Visit(t, grid, RIGHT);
    var lo, hi := Cut(total, nproc, p), Cut(total, nproc, p + 1);
    VisitTotal(t, grid, RIGHT);
    VisitMeetsAll(t, grid, RIGHT);
    forall i | 0 <= i < |visit| ensures visit[i].cost <= most {
      assert visit[i] in multiset(Boxes(grid));
    }
    CutLength(total, nproc, p);
    ShareNear(visit, lo, hi, most);
  }

  lemma {:induction false} Multiples(each: nat, p: nat, nproc: nat)
    requires p < nproc
    ensures each * (p + 1) == each * p + each && 0 <= each * p <= each * (p + 1) <= each * nproc
  {
    MultiplesGrow(p + 1, nproc, each);
    MultiplesGrow(0, p, each);
    Distributes(each, 0, p);
  }

  lemma {:induction false} CutLength(total: nat, nproc: nat, p: nat)
    requires p < nproc
    ensures var lo, hi := Cut(total, nproc, p), Cut(total, nproc, p + 1);
            0 <= lo <= hi <= total && hi - lo == total / nproc + if p == nproc - 1 then total % nproc else 0
  {
    assert total == (total / nproc) * nproc + total % nproc;
    Multiples(total / nproc, p, nproc);
  }

  // ---------------------------------------------------------------- PartitionIterate, BOTTOM

  /** Parent_Partition[level], Parent_Partition[level - 1], ..., Parent_Partition[0]. */
  function LevelsDown(p: Lists, level: int): seq<BoxRef>
    requires -1 <= level
    decreases level + 1
  {
    if level == -1 then [] else LevelList(p, level) + LevelsDown(p, level - 1)
  }

  /** The order in which PartitionIterate visits a processor's boxes from the bottom. */
  function BottomOrder(p: Lists): seq<BoxRef>
    requires -1 <= p.maxLevel
  {
    p.childless + LevelsDown(p, p.maxLevel)
  }

  /** Each box is in the list for its kind and level, and no level is beyond maxLevel. */
  predicate ListsOk(p: Lists) {
    && -1 <= p.maxLevel
    && (forall i :: 0 <= i < |p.childless| ==> !p.childless[i].parent)
    && (forall l: nat :: l in p.parents ==> l <= p.maxLevel)
    && (forall l: nat :: l in p.parents ==> LevelOk(p.parents[l], l))
  }

  predicate LevelOk(s: seq<BoxRef>, level: nat) {
    forall i :: 0 <= i < |s| ==> s[i].parent && s[i].level == level
  }

  lemma {:induction false} LevelsDownOther(p: Lists, p': Lists, level: int)
    requires -1 <= level
    requires forall l: nat :: l <= level ==> LevelList(p, l) == LevelList(p', l)
    ensures LevelsDown(p, level) == LevelsDown(p', level)
    decreases level + 1
  {
    if level >= 0 { LevelsDownOther(p, p', level - 1); }
  }

  lemma {:induction false} LevelsDownEmpty(p: Lists, low: int, high: int)
    requires -1 <= low <= high && forall l: nat :: low < l ==> LevelList(p, l) == []
    ensures LevelsDown(p, high) == LevelsDown(p, low)
    decreases high - low
  {
    if low < high { LevelsDownEmpty(p, low, high - 1); }
  }

  lemma {:induction false} InsertLevels(p: Lists, b: BoxRef, l: nat)
    requires b.parent
    ensures LevelList(Insert(p, b), l) == (if l == b.level then [b] else []) + LevelList(p, l)
  {
  }

  lemma {:induction false} LevelsDownAtTop(p: Lists, b: BoxRef)
    requires b.parent
    ensures LevelsDown(Insert(p, b), b.level) == [b] + LevelsDown(p, b.level)
  {
    var p' := Insert(p, b);
    InsertLevels(p, b, b.level);
    forall l: nat | l <= b.level - 1 ensures LevelList(p, l) == LevelList(p', l) { InsertLevels(p, b, l); }
    LevelsDownOther(p, p', b.level - 1);
  }

  lemma {:induction false} LevelsDownInsert(p: Lists, b: BoxRef, level: int)
    requires b.parent && b.level <= level
    ensures multiset(LevelsDown(Insert(p, b), level)) == multiset([b]) + multiset(LevelsDown(p, level))
    decreases level
  {
    if b.level == level {
      LevelsDownAtTop(p, b);
    } else {
      LevelsDownInsert(p, b, level - 1);
      InsertLevels(p, b, level);
    }
  }

  lemma {:induction false} InsertKeepsOk(p: Lists, b: BoxRef)
    requires ListsOk(p)
    ensures ListsOk(Insert(p, b))
  {
    var p' := Insert(p, b);
    if b.parent {
      assert LevelOk(LevelList(p, b.level), b.level);
      forall l: nat | l in p'.parents ensures LevelOk(p'.parents[l], l) && l <= p'.maxLevel {
        assert l != b.level ==> l in p.parents;
      }
    }
  }

  lemma {:induction false} InsertKeepsBoxes(p: Lists, b: BoxRef)
    requires ListsOk(p)
    ensures ListsOk(Insert(p, b))
    ensures multiset(BottomOrder(Insert(p, b))) == multiset([b]) + multiset(BottomOrder(p))
  {
    InsertKeepsOk(p, b);
    var p' := Insert(p, b);
    if b.parent {
      LevelsDownEmpty(p, p.maxLevel, p'.maxLevel);
      LevelsDownInsert(p, b, p'.maxLevel);
    } else {
      LevelsDownOther(p, p', p.maxLevel);
      assert BottomOrder(p') == [b] + BottomOrder(p);
    }
  }

  function Refs(s: seq<Item>): seq<BoxRef> {
    if s == [] then [] else [s[0].item] + Refs(s[1..])
  }

  /** The bottom-up iteration visits exactly the boxes that were inserted. */
  lemma {:induction false} IterationCovers(p: Lists, s: seq<Item>)
    requires ListsOk(p)
    ensures ListsOk(InsertAll(p, s))
    ensures multiset(BottomOrder(InsertAll(p, s))) == multiset(BottomOrder(p)) + multiset(Refs(s))
    decreases |s|
  {
    if s != [] {
      InsertKeepsBoxes(p, s[0].item);
      IterationCovers(Insert(p, s[0].item), s[1..]);
    }
  }

  /** The items of one kind, the last first: childless boxes, or parents of one level. */
  function NewestFirst(s: seq<Item>, parent: bool, level: nat): seq<BoxRef> {
    if s == [] then []
    else
      var b := s[0].item;
      NewestFirst(s[1..], parent, level)
      + if b.parent == parent && (parent ==> b.level == level) then [b] else []
  }

  lemma {:induction false} InsertedFirst(p: Lists, s: seq<Item>, level: nat)
    ensures InsertAll(p, s).childless == NewestFirst(s, false, level) + p.childless
    ensures LevelList(InsertAll(p, s), level) == NewestFirst(s, true, level) + LevelList(p, level)
    decreases |s|
  {
    if s != [] { InsertedFirst(Insert(p, s[0].item), s[1..], level); }
  }

  /** Each list has its boxes in the reverse order of the visit. */
  lemma {:induction false} ListsNewestFirst(s: seq<Item>, level: nat)
    ensures InsertAll(NO_BOXES, s).childless == NewestFirst(s, false, level)
    ensures LevelList(InsertAll(NO_BOXES, s), level) == NewestFirst(s, true, level)
  {
    InsertedFirst(NO_BOXES, s, level);
  }

  /** a may be visited before b: childless boxes first, then parents from the deepest level. */
  predicate BottomUp(a: BoxRef, b: BoxRef) {
    !a.parent || (b.parent && b.level <= a.level)
  }

  predicate ParentsUpTo(s: seq<BoxRef>, level: int) {
    forall i :: 0 <= i < |s| ==> s[i].parent && s[i].level <= level
  }

  predicate Sorted(s: seq<BoxRef>) {
    forall i, j :: 0 <= i < j < |s| ==> BottomUp(s[i], s[j])
  }

  lemma {:induction false} SortedAppend(a: seq<BoxRef>, b: seq<BoxRef>)
    requires Sorted(a) && Sorted(b)
    requires forall i, j :: 0 <= i < |a| && 0 <= j < |b| ==> BottomUp(a[i], b[j])
    ensures Sorted(a + b)
  {
    var s := a + b;
    forall i, j | 0 <= i < j < |s| ensures BottomUp(s[i], s[j]) {
      if j < |a| {
        assert s[i] == a[i] && s[j] == a[j];
      } else if i < |a| {
        assert s[i] == a[i] && s[j] == b[j - |a|];
      } else {
        assert s[i] == b[i - |a|] && s[j] == b[j - |a|];
      }
    }
  }

  lemma {:induction false} LevelsDownSorted(p: Lists, level: int)
    requires ListsOk(p) && -1 <= level
    ensures ParentsUpTo(LevelsDown(p, level), level) && Sorted(LevelsDown(p, level))
    decreases level + 1
  {
    if level >= 0 {
      LevelsDownSorted(p, level - 1);
      assert LevelOk(LevelList(p, level), level);
      SortedAppend(LevelList(p, level), LevelsDown(p, level - 1));
    }
  }

  /** The iteration goes through childless boxes first and then through the levels upwards. */
  lemma {:induction false} IterationBottomUp(p: Lists)
    requires ListsOk(p)
    ensures Sorted(BottomOrder(p))
  {
    LevelsDownSorted(p, p.maxLevel);
    SortedAppend(p.childless, LevelsDown(p, p.maxLevel));
  }
}
