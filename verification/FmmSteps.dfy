/** From ComputeSubTreeCosts to CostZones: the grid that the cost zones start from is the one a
    finished ComputeSubTreeCosts leaves, and the lists they build hold every box once. */
module FmmSteps {
  import opened Options
  import opened Sequences
  import opened Zones
  import opened FmmTables
  import opened FmmZones
  import opened Forest
  import Costs = FmmCosts

  /** The children fields: four slots for each box, which name its children, each once. */
  ghost predicate SlotsOk(pl: Costs.Plan, slots: seq<seq<Option<nat>>>) {
    && |slots| == |pl.grid|
    && forall b :: 0 <= b < |slots| ==>
         |slots[b]| == NUM_OFFSPRING && SlotsDistinct(slots[b]) && InSlots(slots[b]) == Kids(Costs.Links(pl), b)
  }

  /** ComputeCostOfBox gives every box a cost of at least 1. */
  predicate AllCost(pl: Costs.Plan) {
    forall b :: 0 <= b < |pl.grid| ==> 1 <= pl.grid[b].cost
  }

  predicate RefsDiffer(pl: Costs.Plan) {
    forall a, b :: 0 <= a < b < |pl.grid| ==> pl.grid[a].ref != pl.grid[b].ref
  }

  lemma {:induction false} SlotBelow(pl: Costs.Plan, slots: seq<seq<Option<nat>>>, b: nat, i: nat)
    requires Costs.PlanOk(pl) && SlotsOk(pl, slots) && b < |pl.grid| && i < NUM_OFFSPRING
    ensures |slots[b]| == NUM_OFFSPRING
    ensures slots[b][i].Some? ==>
              var c := slots[b][i].value;
              && c < |pl.grid| && Costs.ChildOf(pl, c, b)
              && pl.grid[b].ref.level < pl.grid[c].ref.level < Costs.Depth(pl.grid)
  {
    if slots[b][i].Some? {
      assert slots[b][i].value in InSlots(slots[b]);
      Costs.DepthBounds(pl.grid, slots[b][i].value);
    }
  }

  /** The box b as CostZonesHelper sees it, and its child slot i. */
  ghost function GridBox(pl: Costs.Plan, slots: seq<seq<Option<nat>>>, subtree: seq<nat>, b: nat): Box
    requires Costs.PlanOk(pl) && SlotsOk(pl, slots) && |subtree| == |pl.grid| && b < |pl.grid|
    decreases Costs.Depth(pl.grid) - pl.grid[b].ref.level, 1
  {
    var g := pl.grid[b];
    if !g.ref.parent then Childless(g.ref, g.cost, subtree[b])
    else Parent(g.ref, g.cost, subtree[b],
                seq(NUM_OFFSPRING, i requires 0 <= i < NUM_OFFSPRING => GridSlot(pl, slots, subtree, b, i)))
  }

  ghost function GridSlot(pl: Costs.Plan, slots: seq<seq<Option<nat>>>, subtree: seq<nat>, b: nat, i: nat): Box
    requires Costs.PlanOk(pl) && SlotsOk(pl, slots) && |subtree| == |pl.grid| && b < |pl.grid| && i < NUM_OFFSPRING
    decreases Costs.Depth(pl.grid) - pl.grid[b].ref.level, 0
  {
    SlotBelow(pl, slots, b, i);
    if slots[b][i].None? then NoBox else GridBox(pl, slots, subtree, slots[b][i].value)
  }

  // ---------------------------------------------------------------- the costs

  ghost predicate SumsRight(pl: Costs.Plan, subtree: seq<nat>)
    requires Costs.PlanOk(pl)
  {
    |subtree| == |pl.grid| && forall b :: 0 <= b < |subtree| ==> subtree[b] == Costs.SubSum(pl, b)
  }

  /** So a finished run of ComputeSubTreeCosts leaves them, whatever its interleaving. */
  lemma {:induction false} FinishedRight(pl: Costs.Plan, run: seq<Costs.State>, mover: seq<nat>)
    requires Costs.PlanOk(pl) && Costs.IsRun(pl, run, mover)
    ensures Costs.Shaped(pl, run[|mover|])
    ensures Costs.Finished(pl, run[|mover|]) ==> SumsRight(pl, run[|mover|].subtree)
  {
    Costs.RunInv(pl, run, mover, |mover|);
    forall b: nat | b < |pl.grid|
      ensures Costs.Finished(pl, run[|mover|]) ==> run[|mover|].subtree[b] == Costs.SubSum(pl, b)
    {
      Costs.RunSumsRight(pl, run, mover, b);
    }
  }

  lemma {:induction false} NoKids(pl: Costs.Plan, b: nat, k: nat)
    requires Costs.PlanOk(pl) && b < |pl.grid| && !pl.grid[b].ref.parent && k <= |pl.grid|
    ensures Costs.KidSum(pl, b, k) == 0
  {
    if k > 0 { NoKids(pl, b, k - 1); }
  }

  lemma {:induction false} KidsCostSlots(kids: seq<Box>, v: seq<real>, slots: seq<Option<nat>>)
    requires |kids| == |slots| && forall i :: 0 <= i < |kids| ==> SubtreeCost(kids[i]) as real == SlotValue(v, slots[i])
    ensures KidsCost(kids) as real == SlotSum(v, slots)
  {
    if kids != [] { KidsCostSlots(kids[1..], v, slots[1..]); }
  }

  lemma {:induction false} SlotCost(pl: Costs.Plan, slots: seq<seq<Option<nat>>>, subtree: seq<nat>, b: nat, i: nat)
    requires Costs.PlanOk(pl) && SlotsOk(pl, slots) && SumsRight(pl, subtree) && b < |pl.grid| && i < NUM_OFFSPRING
    ensures SubtreeCost(GridSlot(pl, slots, subtree, b, i)) as real == SlotValue(Costs.Sums(pl), slots[b][i])
  {
    SlotBelow(pl, slots, b, i);
    if slots[b][i].Some? {
      var c := slots[b][i].value;
      assert SubtreeCost(GridBox(pl, slots, subtree, c)) == subtree[c] == Costs.SubSum(pl, c);
    }
  }

  lemma {:induction false} ParentCost(pl: Costs.Plan, slots: seq<seq<Option<nat>>>, subtree: seq<nat>, b: nat)
    requires Costs.PlanOk(pl) && SlotsOk(pl, slots) && SumsRight(pl, subtree) && b < |pl.grid| && pl.grid[b].ref.parent
    ensures subtree[b] == pl.grid[b].cost + KidsCost(GridBox(pl, slots, subtree, b).children)
  {
    var kids := GridBox(pl, slots, subtree, b).children;
    forall i | 0 <= i < NUM_OFFSPRING ensures SubtreeCost(kids[i]) as real == SlotValue(Costs.Sums(pl), slots[b][i]) {
      SlotCost(pl, slots, subtree, b, i);
    }
    KidsCostSlots(kids, Costs.Sums(pl), slots[b]);
    SlotsAreKids(Costs.Sums(pl), slots[b]);
    Costs.KidsSum(pl, b, |pl.grid|);
  }

  /** What the cost zones ask of the grid: each subtree cost is the sum of the costs below. */
  lemma {:induction false} GridCosted(pl: Costs.Plan, slots: seq<seq<Option<nat>>>, subtree: seq<nat>, b: nat)
    requires Costs.PlanOk(pl) && SlotsOk(pl, slots) && AllCost(pl) && SumsRight(pl, subtree) && b < |pl.grid|
    ensures Costed(GridBox(pl, slots, subtree, b))
    decreases Costs.Depth(pl.grid) - pl.grid[b].ref.level
  {
    if pl.grid[b].ref.parent {
      ParentCost(pl, slots, subtree, b);
      forall i | 0 <= i < NUM_OFFSPRING ensures Costed(GridSlot(pl, slots, subtree, b, i)) {
        SlotBelow(pl, slots, b, i);
        if slots[b][i].Some? { GridCosted(pl, slots, subtree, slots[b][i].value); }
      }
    } else {
      NoKids(pl, b, |pl.grid|);
    }
  }

  // ---------------------------------------------------------------- how often a box is in the grid

  lemma {:induction false} RefsAppend(a: seq<Item>, b: seq<Item>)
    ensures Refs(a + b) == Refs(a) + Refs(b)
  {
    if a == [] {
      assert a + b == b;
    } else {
      RefsAppend(a[1..], b);
      assert (a + b)[1..] == a[1..] + b;
    }
  }

  lemma {:induction false} RefsTakeOut(s: seq<Item>, k: nat)
    requires k < |s|
    ensures multiset(Refs(s)) == multiset([s[k].item]) + multiset(Refs(s[..k] + s[k + 1..]))
  {
    assert s == s[..k] + s[k..];
    RefsAppend(s[..k], s[k..]);
    RefsAppend(s[..k], s[k + 1..]);
  }

  lemma {:induction false} RefsPermute(a: seq<Item>, b: seq<Item>)
    requires multiset(a) == multiset(b)
    ensures multiset(Refs(a)) == multiset(Refs(b))
    decreases |a|
  {
    if a == [] {
      assert |multiset(b)| == 0;
    } else {
      var k := TakeFirst(a, b);
      RefsTakeOut(b, k);
      RefsPermute(a[1..], b[..k] + b[k + 1..]);
    }
  }

  /** How often the box x is below the box b. */
  ghost function Count(pl: Costs.Plan, slots: seq<seq<Option<nat>>>, subtree: seq<nat>, x: BoxRef, b: nat): real
    requires Costs.PlanOk(pl) && SlotsOk(pl, slots) && |subtree| == |pl.grid| && b < |pl.grid|
  {
    multiset(Refs(Boxes(GridBox(pl, slots, subtree, b))))[x] as real
  }

  ghost function Counts(pl: Costs.Plan, slots: seq<seq<Option<nat>>>, subtree: seq<nat>, x: BoxRef): (r: seq<real>)
    requires Costs.PlanOk(pl) && SlotsOk(pl, slots) && |subtree| == |pl.grid|
    ensures |r| == |pl.grid| && forall b :: 0 <= b < |r| ==> r[b] == Count(pl, slots, subtree, x, b)
  {
    seq(|pl.grid|, b requires 0 <= b < |pl.grid| => Count(pl, slots, subtree, x, b))
  }

  function Owns(pl: Costs.Plan, x: BoxRef): (r: seq<real>)
    ensures |r| == |pl.grid| && forall b :: 0 <= b < |r| ==> r[b] == if pl.grid[b].ref == x then 1.0 else 0.0
  {
    seq(|pl.grid|, b requires 0 <= b < |pl.grid| => if pl.grid[b].ref == x then 1.0 else 0.0)
  }

  lemma {:induction false} KidsCountSlots(kids: seq<Box>, x: BoxRef, v: seq<real>, slots: seq<Option<nat>>)
    requires |kids| == |slots|
    requires forall i :: 0 <= i < |kids| ==> multiset(Refs(Boxes(kids[i])))[x] as real == SlotValue(v, slots[i])
    ensures multiset(Refs(BoxesOf(kids)))[x] as real == SlotSum(v, slots)
  {
    if kids != [] {
      KidsCountSlots(kids[1..], x, v, slots[1..]);
      RefsAppend(Boxes(kids[0]), BoxesOf(kids[1..]));
    }
  }

  lemma {:induction false} CountUp(pl: Costs.Plan, slots: seq<seq<Option<nat>>>, subtree: seq<nat>, x: BoxRef, b: nat)
    requires Costs.PlanOk(pl) && SlotsOk(pl, slots) && |subtree| == |pl.grid| && b < |pl.grid|
    ensures Count(pl, slots, subtree, x, b)
         == Owns(pl, x)[b] + SumIn(Counts(pl, slots, subtree, x), Kids(Costs.Links(pl), b), |pl.grid|)
  {
    var box := GridBox(pl, slots, subtree, b);
    var own := [Piece(pl.grid[b].ref, pl.grid[b].cost)];
    assert Refs(own) == [pl.grid[b].ref];
    if pl.grid[b].ref.parent {
      forall i | 0 <= i < NUM_OFFSPRING
        ensures multiset(Refs(Boxes(box.children[i])))[x] as real == SlotValue(Counts(pl, slots, subtree, x), slots[b][i])
      {
        assert box.children[i] == GridSlot(pl, slots, subtree, b, i);
        SlotBelow(pl, slots, b, i);
      }
      KidsCountSlots(box.children, x, Counts(pl, slots, subtree, x), slots[b]);
      SlotsAreKids(Counts(pl, slots, subtree, x), slots[b]);
      RefsAppend(own, BoxesOf(box.children));
    } else {
      assert Kids(Costs.Links(pl), b) == {};
      SumNone(Counts(pl, slots, subtree, x), |pl.grid|);
    }
  }

  lemma {:induction false} CountsUp(pl: Costs.Plan, slots: seq<seq<Option<nat>>>, subtree: seq<nat>, x: BoxRef)
    requires Costs.PlanOk(pl) && SlotsOk(pl, slots) && |subtree| == |pl.grid|
    ensures SumsUp(Costs.Links(pl), Owns(pl, x), Counts(pl, slots, subtree, x))
  {
    forall b | 0 <= b < |pl.grid|
      ensures Counts(pl, slots, subtree, x)[b]
           == Owns(pl, x)[b] + SumIn(Counts(pl, slots, subtree, x), Kids(Costs.Links(pl), b), |pl.grid|)
    {
      CountUp(pl, slots, subtree, x, b);
    }
  }

  /** x stands for one of the boxes. */
  predicate IsBox(pl: Costs.Plan, x: BoxRef) {
    exists b :: 0 <= b < |pl.grid| && pl.grid[b].ref == x
  }

  lemma {:induction false} OwnsOnce(pl: Costs.Plan, x: BoxRef)
    requires RefsDiffer(pl)
    ensures SumAll(Owns(pl, x), |pl.grid|) == if IsBox(pl, x) then 1.0 else 0.0
  {
    var at: nat := |pl.grid|;
    if IsBox(pl, x) { at :| at < |pl.grid| && pl.grid[at].ref == x; }
    SumIndicator(Owns(pl, x), at, |pl.grid|);
  }

  /** Below the root every box is found exactly once, and nothing else. */
  lemma {:induction false} BoxOnce(
    pl: Costs.Plan, slots: seq<seq<Option<nat>>>, subtree: seq<nat>, root: nat, x: BoxRef)
    requires Costs.PlanOk(pl) && SlotsOk(pl, slots) && RefsDiffer(pl) && |subtree| == |pl.grid|
    requires root < |pl.grid| && forall b :: 0 <= b < |pl.grid| ==> (pl.grid[b].parent.None? <==> b == root)
    ensures multiset(Refs(Boxes(GridBox(pl, slots, subtree, root))))[x] == if IsBox(pl, x) then 1 else 0
  {
    OwnsOnce(pl, x);
    CountsUp(pl, slots, subtree, x);
    RootHoldsAll(Costs.Links(pl), Owns(pl, x), Counts(pl, slots, subtree, x), root);
  }

  // ---------------------------------------------------------------- the lists of all processors

  /** The boxes a processor with the given share goes through, in its bottom-up order. */
  function ListOf(part: seq<Item>): (r: seq<BoxRef>)
    ensures multiset(r) == multiset(Refs(part))
  {
    IterationCovers(NO_BOXES, part);
    assert BottomOrder(NO_BOXES) == [];
    BottomOrder(InsertAll(NO_BOXES, part))
  }

  /** The lists that come from the given shares, one after the other. */
  function Iterated(parts: seq<seq<Item>>): seq<BoxRef> {
    if parts == [] then [] else ListOf(parts[0]) + Iterated(parts[1..])
  }

  lemma {:induction false} IteratedFlat(parts: seq<seq<Item>>)
    ensures multiset(Iterated(parts)) == multiset(Refs(Flat(parts)))
  {
    if parts != [] {
      IteratedFlat(parts[1..]);
      RefsAppend(parts[0], Flat(parts[1..]));
    }
  }

  /** What each of the first n processors takes. */
  function Parts(t: Tables, grid: Box, nproc: nat, n: nat): (r: seq<seq<Item>>)
    requires TablesOk(t, NUM_DIRECTIONS, NUM_OFFSPRING) && Costed(grid) && !grid.NoBox? && n <= nproc
    ensures |r| == n && forall p :: 0 <= p < n ==> r[p] == Taken(t, grid, nproc, p)
  {
    seq(n, p requires 0 <= p < n => Taken(t, grid, nproc, p))
  }

  lemma {:induction false} PartsAreShares(t: Tables, grid: Box, nproc: nat, n: nat)
    requires TablesOk(t, NUM_DIRECTIONS, NUM_OFFSPRING) && Costed(grid) && grid.Parent? && n <= nproc && 0 < nproc
    ensures Flat(Parts(t, grid, nproc, n)) == Shares(Visit(t, grid, RIGHT), Cuts(grid.subtreeCost, nproc), n)
  {
    if n > 0 {
      PartsAreShares(t, grid, nproc, n - 1);
      assert Parts(t, grid, nproc, n) == Parts(t, grid, nproc, n - 1) + [Taken(t, grid, nproc, n - 1)];
      FlatLast(Parts(t, grid, nproc, n - 1), Taken(t, grid, nproc, n - 1));
    }
  }

  lemma {:induction false} FlatLast(parts: seq<seq<Item>>, last: seq<Item>)
    ensures Flat(parts + [last]) == Flat(parts) + last
  {
    if parts == [] {
      assert parts + [last] == [last];
    } else {
      FlatLast(parts[1..], last);
      assert (parts + [last])[1..] == parts[1..] + [last];
      Associates(parts[0], Flat(parts[1..]), last);
    }
  }

  lemma {:induction false} CopiesCount(parts: seq<seq<Item>>, x: Item, k: nat, y: BoxRef)
    requires k <= |parts| && forall p :: 0 <= p < |parts| ==> parts[p] == if p < k then [x] else []
    ensures multiset(Refs(Flat(parts)))[y] == if y == x.item then k else 0
  {
    if parts != [] {
      CopiesCount(parts[1..], x, if k > 0 then k - 1 else 0, y);
      RefsAppend(parts[0], Flat(parts[1..]));
    }
  }

  /** A grid of one childless box is on one list, or on all of them. */
  lemma {:induction false} LoneBoxLists(t: Tables, grid: Box, nproc: nat, x: BoxRef)
    requires TablesOk(t, NUM_DIRECTIONS, NUM_OFFSPRING) && Costed(grid) && grid.Childless? && 0 < nproc
    ensures multiset(Iterated(Parts(t, grid, nproc, nproc)))[x]
         == if x != grid.ref then 0 else if nproc <= grid.cost then 1 else nproc
  {
    LoneBoxTakenOnce(grid.cost, nproc);
    CopiesCount(Parts(t, grid, nproc, nproc), Piece(grid.ref, grid.cost), if nproc <= grid.cost then 1 else nproc, x);
    IteratedFlat(Parts(t, grid, nproc, nproc));
  }

  /** Each of the boxes is on one list and only once, and nothing else is on any. */
  ghost predicate OnceEach(pl: Costs.Plan, all: seq<BoxRef>) {
    forall x: BoxRef :: multiset(all)[x] == if IsBox(pl, x) then 1 else 0
  }

  lemma {:induction false} ParentsShareAll(
    pl: Costs.Plan, slots: seq<seq<Option<nat>>>, subtree: seq<nat>, root: nat, t: Tables, nproc: nat)
    requires Costs.PlanOk(pl) && SlotsOk(pl, slots) && RefsDiffer(pl) && |subtree| == |pl.grid|
    requires root < |pl.grid| && forall b :: 0 <= b < |pl.grid| ==> (pl.grid[b].parent.None? <==> b == root)
    requires pl.grid[root].ref.parent && Costed(GridBox(pl, slots, subtree, root))
    requires TablesOk(t, NUM_DIRECTIONS, NUM_OFFSPRING) && 0 < nproc
    ensures OnceEach(pl, Iterated(Parts(t, GridBox(pl, slots, subtree, root), nproc, nproc)))
  {
    var grid := GridBox(pl, slots, subtree, root);
    ZonesPartition(t, grid, nproc);
    PartsAreShares(t, grid, nproc, nproc);
    IteratedFlat(Parts(t, grid, nproc, nproc));
    RefsPermute(Shares(Visit(t, grid, RIGHT), Cuts(grid.subtreeCost, nproc), nproc), Boxes(grid));
    forall x: BoxRef ensures multiset(Iterated(Parts(t, grid, nproc, nproc)))[x] == if IsBox(pl, x) then 1 else 0 {
      BoxOnce(pl, slots, subtree, root, x);
    }
  }

  lemma {:induction false} LoneGrid(pl: Costs.Plan, root: nat, b: nat)
    requires Costs.PlanOk(pl) && b < |pl.grid| && root < |pl.grid|
    requires forall c :: 0 <= c < |pl.grid| ==> (pl.grid[c].parent.None? <==> c == root)
    ensures b == root || pl.grid[root].ref.parent
    decreases pl.grid[b].ref.level
  {
    if b != root { LoneGrid(pl, root, pl.grid[b].parent.value); }
  }

  lemma {:induction false} LoneBoxOnce(pl: Costs.Plan, grid: Box, root: nat, t: Tables, nproc: nat)
    requires Costs.PlanOk(pl) && root < |pl.grid| && !pl.grid[root].ref.parent
    requires forall c :: 0 <= c < |pl.grid| ==> (pl.grid[c].parent.None? <==> c == root)
    requires Costed(grid) && grid.Childless? && grid.ref == pl.grid[root].ref
    requires TablesOk(t, NUM_DIRECTIONS, NUM_OFFSPRING) && 0 < nproc
    ensures OnceEach(pl, Iterated(Parts(t, grid, nproc, nproc))) <==> nproc == 1 || nproc <= grid.cost
  {
    var all := Iterated(Parts(t, grid, nproc, nproc));
    forall b | 0 <= b < |pl.grid| ensures pl.grid[b].ref == grid.ref { LoneGrid(pl, root, b); }
    LoneBoxLists(t, grid, nproc, grid.ref);
    assert IsBox(pl, grid.ref);
    forall x: BoxRef | x != grid.ref ensures multiset(all)[x] == if IsBox(pl, x) then 1 else 0 {
      LoneBoxLists(t, grid, nproc, x);
    }
  }

  /** The load balancing end to end.  However the processors interleave in ComputeSubTreeCosts
      and for any split of the boxes among them, the grid it leaves is what CostZones needs; and
      the lists of all processors together hold every box exactly once if and only if the grid is
      more than one childless box, or there is one processor, or the box costs at least as much
      as there are processors. */
  lemma {:induction false} EveryBoxInOneList(
    pl: Costs.Plan, slots: seq<seq<Option<nat>>>, run: seq<Costs.State>, mover: seq<nat>, root: nat,
    t: Tables, nproc: nat)
    requires Costs.PlanOk(pl) && SlotsOk(pl, slots) && AllCost(pl) && RefsDiffer(pl)
    requires root < |pl.grid| && forall b :: 0 <= b < |pl.grid| ==> (pl.grid[b].parent.None? <==> b == root)
    requires Costs.IsRun(pl, run, mover) && Costs.Shaped(pl, run[|mover|]) && Costs.Finished(pl, run[|mover|])
    requires TablesOk(t, NUM_DIRECTIONS, NUM_OFFSPRING) && 0 < nproc
    ensures var grid := GridBox(pl, slots, run[|mover|].subtree, root);
            && Costed(grid) && SubtreeCost(grid) == Costs.CostTotal(pl, |pl.grid|)
            && (OnceEach(pl, Iterated(Parts(t, grid, nproc, nproc)))
                <==> pl.grid[root].ref.parent || nproc == 1 || nproc <= pl.grid[root].cost)
  {
    var subtree := run[|mover|].subtree;
    var grid := GridBox(pl, slots, subtree, root);
    FinishedRight(pl, run, mover);
    GridCosted(pl, slots, subtree, root);
    Costs.RootHoldsTotal(pl, root);
    if pl.grid[root].ref.parent {
      ParentsShareAll(pl, slots, subtree, root, t, nproc);
    } else {
      LoneBoxOnce(pl, grid, root, t, nproc);
    }
  }
}
