/** ComputeSubTreeCosts run by all processors at once (papps/splash2/codes/apps/fmm/
    cost_zones.C, in the BOTTOM order of partition_grid.C).  A parent waits until all its
    children have reported; a report adds the child's subtree cost to the parent under a lock
    and raises the parent's counter.  The run never deadlocks and ends with every subtree cost
    equal to the sum of the costs below. */
module FmmCosts {
  import opened Options
  import opened FmmZones
  import opened Forest

  /** The static part of a box, with the processor that has it and the place on its list. */
  datatype Info = Info(parent: Option<nat>, ref: BoxRef, cost: nat, proc: nat, place: nat)

  /** grid: the boxes; order: for each processor, its boxes in iteration order. */
  datatype Plan = Plan(grid: seq<Info>, order: seq<seq<nat>>)

  predicate ChildOf(pl: Plan, c: nat, b: nat) {
    c < |pl.grid| && pl.grid[c].parent == Some(b)
  }

  /** Children are one level below their parent, which is of type PARENT. */
  predicate TreeOk(pl: Plan) {
    forall c :: 0 <= c < |pl.grid| && pl.grid[c].parent.Some? ==>
      var b := pl.grid[c].parent.value;
      b < |pl.grid| && pl.grid[b].ref.parent && pl.grid[c].ref.level == pl.grid[b].ref.level + 1
  }

  /** Any split of the boxes among the processors, each list in bottom-up order. */
  predicate SplitOk(pl: Plan) {
    && (forall b :: 0 <= b < |pl.grid| ==>
          && pl.grid[b].proc < |pl.order|
          && pl.grid[b].place < |pl.order[pl.grid[b].proc]|
          && pl.order[pl.grid[b].proc][pl.grid[b].place] == b)
    && (forall p, i :: 0 <= p < |pl.order| && 0 <= i < |pl.order[p]| ==>
          && pl.order[p][i] < |pl.grid|
          && pl.grid[pl.order[p][i]].proc == p
          && pl.grid[pl.order[p][i]].place == i)
    && (forall p, i, j :: 0 <= p < |pl.order| && 0 <= i < j < |pl.order[p]| ==>
          BottomUp(pl.grid[pl.order[p][i]].ref, pl.grid[pl.order[p][j]].ref))
  }

  predicate PlanOk(pl: Plan) {
    TreeOk(pl) && SplitOk(pl)
  }

  /** Deeper than every box. */
  function Depth(grid: seq<Info>): nat {
    if grid == [] then 0
    else
      var d := Depth(grid[1..]);
      if grid[0].ref.level < d then d else grid[0].ref.level + 1
  }

  lemma {:induction false} DepthBounds(grid: seq<Info>, b: nat)
    requires b < |grid|
    ensures grid[b].ref.level < Depth(grid)
  {
    if b > 0 { DepthBounds(grid[1..], b - 1); }
  }

  /** The sum of the costs of b and of everything below it. */
  ghost function SubSum(pl: Plan, b: nat): nat
    requires PlanOk(pl) && b < |pl.grid|
    decreases Depth(pl.grid) - pl.grid[b].ref.level, |pl.grid| + 1
  {
    DepthBounds(pl.grid, b);
    pl.grid[b].cost + KidSum(pl, b, |pl.grid|)
  }

  /** That sum for the children of b among the first k boxes. */
  ghost function KidSum(pl: Plan, b: nat, k: nat): nat
    requires PlanOk(pl) && b < |pl.grid| && k <= |pl.grid|
    decreases Depth(pl.grid) - pl.grid[b].ref.level, k
  {
    if k == 0 then 0
    else
      KidSum(pl, b, k - 1)
      + if ChildOf(pl, k - 1, b) then DepthBounds(pl.grid, k - 1); SubSum(pl, k - 1) else 0
  }

  /** num_children of b, counted among the first k boxes. */
  function KidCount(pl: Plan, b: nat, k: nat): nat
    requires k <= |pl.grid|
  {
    if k == 0 then 0 else KidCount(pl, b, k - 1) + if ChildOf(pl, k - 1, b) then 1 else 0
  }

  // ---------------------------------------------------------------- the run

  /** subtree, synch: the fields subtree_cost and interaction_synch.  pos: the place each
      processor has reached; busy: it has summed that box and has yet to report it. */
  datatype State = State(subtree: seq<nat>, synch: seq<nat>, pos: seq<nat>, busy: seq<bool>)

  function Start(pl: Plan): State {
    State(seq(|pl.grid|, _ => 0), seq(|pl.grid|, _ => 0), seq(|pl.order|, _ => 0), seq(|pl.order|, _ => false))
  }

  predicate Shaped(pl: Plan, s: State) {
    && |s.subtree| == |s.synch| == |pl.grid|
    && |s.pos| == |s.busy| == |pl.order|
    && forall p :: 0 <= p < |pl.order| ==> s.pos[p] <= |pl.order[p]| && (s.busy[p] ==> s.pos[p] < |pl.order[p]|)
  }

  predicate HasBox(pl: Plan, s: State, p: nat)
    requires Shaped(pl, s)
  {
    p < |pl.order| && s.pos[p] < |pl.order[p]|
  }

  /** The box processor p is at. */
  function Current(pl: Plan, s: State, p: nat): (b: nat)
    requires PlanOk(pl) && Shaped(pl, s) && HasBox(pl, s, p)
    ensures b < |pl.grid|
  {
    pl.order[p][s.pos[p]]
  }

  /** Processor p can sum its box: a childless box at once, a parent when interaction_synch
      has reached num_children. */
  predicate CanSum(pl: Plan, s: State, p: nat)
    requires PlanOk(pl) && Shaped(pl, s)
  {
    && HasBox(pl, s, p) && !s.busy[p]
    && var b := Current(pl, s, p);
       pl.grid[b].ref.parent ==> s.synch[b] == KidCount(pl, b, |pl.grid|)
  }

  /** interaction_synch = 0; subtree_cost += cost */
  function Sum(pl: Plan, s: State, p: nat): State
    requires PlanOk(pl) && Shaped(pl, s) && HasBox(pl, s, p)
  {
    var b := Current(pl, s, p);
    s.(synch := s.synch[b := 0], subtree := s.subtree[b := s.subtree[b] + pl.grid[b].cost], busy := s.busy[p := true])
  }

  predicate CanReport(pl: Plan, s: State, p: nat)
    requires PlanOk(pl) && Shaped(pl, s)
  {
    HasBox(pl, s, p) && s.busy[p]
  }

  /** The locked report to the parent, if there is one; then on to the next box. */
  function Report(pl: Plan, s: State, p: nat): State
    requires PlanOk(pl) && Shaped(pl, s) && CanReport(pl, s, p)
  {
    var b := Current(pl, s, p);
    var s' := s.(pos := s.pos[p := s.pos[p] + 1], busy := s.busy[p := false]);
    match pl.grid[b].parent
    case None => s'
    case Some(u) =>
      s'.(subtree := s.subtree[u := s.subtree[u] + s.subtree[b]], synch := s.synch[u := s.synch[u] + 1])
  }

  predicate NextBy(pl: Plan, s: State, s': State, p: nat)
    requires PlanOk(pl) && Shaped(pl, s)
  {
    (CanSum(pl, s, p) && s' == Sum(pl, s, p)) || (CanReport(pl, s, p) && s' == Report(pl, s, p))
  }

  // ---------------------------------------------------------------- invariant

  predicate Summed(pl: Plan, s: State, b: nat)
    requires PlanOk(pl) && Shaped(pl, s) && b < |pl.grid|
  {
    var p, i := pl.grid[b].proc, pl.grid[b].place;
    i < s.pos[p] || (i == s.pos[p] && s.busy[p])
  }

  predicate Reported(pl: Plan, s: State, b: nat)
    requires PlanOk(pl) && Shaped(pl, s) && b < |pl.grid|
  {
    pl.grid[b].place < s.pos[pl.grid[b].proc]
  }

  /** What the children of b among the first k boxes have reported so far. */
  ghost function RepSum(pl: Plan, s: State, b: nat, k: nat): nat
    requires PlanOk(pl) && Shaped(pl, s) && k <= |pl.grid|
  {
    if k == 0 then 0
    else RepSum(pl, s, b, k - 1) + if ChildOf(pl, k - 1, b) && Reported(pl, s, k - 1) then SubSum(pl, k - 1) else 0
  }

  ghost function RepCount(pl: Plan, s: State, b: nat, k: nat): nat
    requires PlanOk(pl) && Shaped(pl, s) && k <= |pl.grid|
  {
    if k == 0 then 0
    else RepCount(pl, s, b, k - 1) + if ChildOf(pl, k - 1, b) && Reported(pl, s, k - 1) then 1 else 0
  }

  ghost predicate KidsReported(pl: Plan, s: State, b: nat)
    requires PlanOk(pl) && Shaped(pl, s)
  {
    forall c :: 0 <= c < |pl.grid| && ChildOf(pl, c, b) ==> Reported(pl, s, c)
  }

  ghost predicate BoxInv(pl: Plan, s: State, b: nat)
    requires PlanOk(pl) && Shaped(pl, s) && b < |pl.grid|
  {
    && s.subtree[b] == RepSum(pl, s, b, |pl.grid|) + (if Summed(pl, s, b) then pl.grid[b].cost else 0)
    && s.synch[b] == (if Summed(pl, s, b) then 0 else RepCount(pl, s, b, |pl.grid|))
    && (Summed(pl, s, b) ==> KidsReported(pl, s, b))
  }

  ghost predicate Inv(pl: Plan, s: State)
    requires PlanOk(pl)
  {
    Shaped(pl, s) && forall b :: 0 <= b < |pl.grid| ==> BoxInv(pl, s, b)
  }

  lemma {:induction false} NothingReported(pl: Plan, b: nat, k: nat)
    requires PlanOk(pl) && k <= |pl.grid|
    ensures RepSum(pl, Start(pl), b, k) == 0 && RepCount(pl, Start(pl), b, k) == 0
  {
    if k > 0 { NothingReported(pl, b, k - 1); }
  }

  lemma {:induction false} StartInv(pl: Plan)
    requires PlanOk(pl)
    ensures Inv(pl, Start(pl))
  {
    forall b | 0 <= b < |pl.grid| ensures BoxInv(pl, Start(pl), b) {
      NothingReported(pl, b, |pl.grid|);
    }
  }

  lemma {:induction false} RepSame(pl: Plan, s: State, s': State, b: nat, k: nat)
    requires PlanOk(pl) && Shaped(pl, s) && Shaped(pl, s') && k <= |pl.grid|
    requires forall c :: 0 <= c < k && ChildOf(pl, c, b) ==> Reported(pl, s, c) == Reported(pl, s', c)
    ensures RepSum(pl, s, b, k) == RepSum(pl, s', b, k) && RepCount(pl, s, b, k) == RepCount(pl, s', b, k)
  {
    if k > 0 { RepSame(pl, s, s', b, k - 1); }
  }

  lemma {:induction false} RepAdd(pl: Plan, s: State, s': State, b: nat, k: nat, kid: nat)
    requires PlanOk(pl) && Shaped(pl, s) && Shaped(pl, s') && kid < k <= |pl.grid| && ChildOf(pl, kid, b)
    requires !Reported(pl, s, kid) && Reported(pl, s', kid)
    requires forall c :: 0 <= c < k && c != kid ==> Reported(pl, s, c) == Reported(pl, s', c)
    ensures RepSum(pl, s', b, k) == RepSum(pl, s, b, k) + SubSum(pl, kid)
    ensures RepCount(pl, s', b, k) == RepCount(pl, s, b, k) + 1
  {
    if kid == k - 1 {
      RepSame(pl, s, s', b, k - 1);
    } else {
      RepAdd(pl, s, s', b, k - 1, kid);
    }
  }

  /** The counter has reached num_children exactly when every child has reported. */
  lemma {:induction false} CountFull(pl: Plan, s: State, b: nat, k: nat)
    requires PlanOk(pl) && Shaped(pl, s) && k <= |pl.grid|
    ensures RepCount(pl, s, b, k) <= KidCount(pl, b, k)
    ensures RepCount(pl, s, b, k) == KidCount(pl, b, k)
            <==> forall c :: 0 <= c < k && ChildOf(pl, c, b) ==> Reported(pl, s, c)
  {
    if k > 0 { CountFull(pl, s, b, k - 1); }
  }

  lemma {:induction false} SumFull(pl: Plan, s: State, b: nat, k: nat)
    requires PlanOk(pl) && Shaped(pl, s) && b < |pl.grid| && k <= |pl.grid|
    requires forall c :: 0 <= c < k && ChildOf(pl, c, b) ==> Reported(pl, s, c)
    ensures RepSum(pl, s, b, k) == KidSum(pl, b, k)
  {
    if k > 0 { SumFull(pl, s, b, k - 1); }
  }

  lemma {:induction false} SummedIsRight(pl: Plan, s: State, b: nat)
    requires PlanOk(pl) && Inv(pl, s) && b < |pl.grid| && Summed(pl, s, b)
    ensures s.subtree[b] == SubSum(pl, b) && s.synch[b] == 0
  {
    assert BoxInv(pl, s, b);
    SumFull(pl, s, b, |pl.grid|);
  }

  lemma {:induction false} SumKeepsInv(pl: Plan, s: State, p: nat)
    requires PlanOk(pl) && Inv(pl, s) && CanSum(pl, s, p)
    ensures Inv(pl, Sum(pl, s, p))
  {
    var s' := Sum(pl, s, p);
    var n := |pl.grid|;
    var b := Current(pl, s, p);
    forall x | 0 <= x < n ensures BoxInv(pl, s', x) {
      assert BoxInv(pl, s, x);
      RepSame(pl, s, s', x, n);
      assert Summed(pl, s', x) == (Summed(pl, s, x) || x == b);
      if x == b {
        CountFull(pl, s, b, n);
        assert KidsReported(pl, s, b);
      }
    }
  }

  lemma {:induction false} ReportKeepsBox(pl: Plan, s: State, p: nat, x: nat)
    requires PlanOk(pl) && Inv(pl, s) && CanReport(pl, s, p) && x < |pl.grid|
    ensures Shaped(pl, Report(pl, s, p)) && BoxInv(pl, Report(pl, s, p), x)
  {
    var s' := Report(pl, s, p);
    var n := |pl.grid|;
    var b := Current(pl, s, p);
    assert Shaped(pl, s');
    assert BoxInv(pl, s, x);
    assert Summed(pl, s', x) == Summed(pl, s, x);
    assert forall c :: 0 <= c < n && c != b ==> Reported(pl, s, c) == Reported(pl, s', c);
    if pl.grid[b].parent == Some(x) {
      SummedIsRight(pl, s, b);
      RepAdd(pl, s, s', x, n, b);
    } else {
      RepSame(pl, s, s', x, n);
    }
  }

  lemma {:induction false} ReportKeepsInv(pl: Plan, s: State, p: nat)
    requires PlanOk(pl) && Inv(pl, s) && CanReport(pl, s, p)
    ensures Inv(pl, Report(pl, s, p))
  {
    var s' := Report(pl, s, p);
    assert Shaped(pl, s');
    forall x | 0 <= x < |pl.grid| ensures BoxInv(pl, s', x) { ReportKeepsBox(pl, s, p, x); }
  }

  // ---------------------------------------------------------------- whole runs

  /** A run: the states passed through, each step made by the processor named in `mover`. */
  ghost predicate IsRun(pl: Plan, run: seq<State>, mover: seq<nat>)
    requires PlanOk(pl)
  {
    && |run| == |mover| + 1 && run[0] == Start(pl)
    && forall i :: 0 <= i < |mover| ==> Shaped(pl, run[i]) && NextBy(pl, run[i], run[i + 1], mover[i])
  }

  lemma {:induction false} RunInv(pl: Plan, run: seq<State>, mover: seq<nat>, k: nat)
    requires PlanOk(pl) && IsRun(pl, run, mover) && k < |run|
    ensures Inv(pl, run[k])
    decreases k
  {
    if k == 0 {
      StartInv(pl);
    } else {
      RunInv(pl, run, mover, k - 1);
      var s, s', p := run[k - 1], run[k - 1 + 1], mover[k - 1];
      assert NextBy(pl, s, s', p);
      if CanSum(pl, s, p) && s' == Sum(pl, s, p) {
        SumKeepsInv(pl, s, p);
      } else {
        ReportKeepsInv(pl, s, p);
      }
    }
  }

  predicate Finished(pl: Plan, s: State)
    requires Shaped(pl, s)
  {
    forall p :: 0 <= p < |pl.order| ==> !HasBox(pl, s, p)
  }

  /** p waits at a parent box at least as deep as the one every other processor waits at. */
  ghost predicate Deepest(pl: Plan, s: State, p: nat, n: nat)
    requires PlanOk(pl) && Shaped(pl, s) && n <= |pl.order|
  {
    && HasBox(pl, s, p)
    && forall q :: 0 <= q < n && HasBox(pl, s, q) ==>
         pl.grid[Current(pl, s, q)].ref.level <= pl.grid[Current(pl, s, p)].ref.level
  }

  lemma {:induction false} FindDeepest(pl: Plan, s: State, n: nat) returns (p: nat)
    requires PlanOk(pl) && Shaped(pl, s) && n <= |pl.order|
    requires exists q :: 0 <= q < n && HasBox(pl, s, q)
    ensures p < n && Deepest(pl, s, p, n)
  {
    if q :| 0 <= q < n - 1 && HasBox(pl, s, q) {
      p := FindDeepest(pl, s, n - 1);
      if HasBox(pl, s, n - 1)
         && pl.grid[Current(pl, s, n - 1)].ref.level > pl.grid[Current(pl, s, p)].ref.level {
        p := n - 1;
      }
    } else {
      p := n - 1;
    }
  }

  /** The children of the deepest parent anyone waits at have all reported. */
  lemma {:induction false} DeepestCanSum(pl: Plan, s: State, p: nat)
    requires PlanOk(pl) && Inv(pl, s) && Deepest(pl, s, p, |pl.order|)
    requires forall q :: 0 <= q < |pl.order| && HasBox(pl, s, q) ==> !s.busy[q] && pl.grid[Current(pl, s, q)].ref.parent
    ensures CanSum(pl, s, p)
  {
    var b := Current(pl, s, p);
    forall c | 0 <= c < |pl.grid| && ChildOf(pl, c, b) ensures Reported(pl, s, c) {
      var q, i := pl.grid[c].proc, pl.grid[c].place;
      assert s.pos[q] <= i ==> HasBox(pl, s, q);
    }
    CountFull(pl, s, b, |pl.grid|);
    assert BoxInv(pl, s, b);
  }

  /** No deadlock: in every state of every run, for any split of the boxes, some processor can
      make a step until all have finished. */
  lemma {:induction false} NeverStuck(pl: Plan, run: seq<State>, mover: seq<nat>) returns (p: nat)
    requires PlanOk(pl) && IsRun(pl, run, mover)
    ensures var s := run[|mover|];
            Inv(pl, s) && (Finished(pl, s) || CanSum(pl, s, p) || CanReport(pl, s, p))
  {
    var s := run[|mover|];
    RunInv(pl, run, mover, |mover|);
    p := 0;
    if !Finished(pl, s) {
      if q :| 0 <= q < |pl.order| && HasBox(pl, s, q) && (s.busy[q] || !pl.grid[Current(pl, s, q)].ref.parent) {
        p := q;
      } else {
        p := FindDeepest(pl, s, |pl.order|);
        DeepestCanSum(pl, s, p);
      }
    }
  }

  /** When all have finished, every box holds the sum of the costs in its subtree and every
      counter is back at 0; before that, the same holds of every box already summed. */
  lemma {:induction false} RunSumsRight(pl: Plan, run: seq<State>, mover: seq<nat>, b: nat)
    requires PlanOk(pl) && IsRun(pl, run, mover) && b < |pl.grid|
    ensures var s := run[|mover|];
            && Inv(pl, s)
            && (Finished(pl, s) || Summed(pl, s, b) ==> s.subtree[b] == SubSum(pl, b) && s.synch[b] == 0)
  {
    var s := run[|mover|];
    RunInv(pl, run, mover, |mover|);
    if Finished(pl, s) {
      assert !HasBox(pl, s, pl.grid[b].proc);
    }
    if Summed(pl, s, b) { SummedIsRight(pl, s, b); }
  }

  // ---------------------------------------------------------------- conservation

  function CostTotal(pl: Plan, k: nat): nat
    requires k <= |pl.grid|
  {
    if k == 0 then 0 else CostTotal(pl, k - 1) + pl.grid[k - 1].cost
  }

  /** The grid as links, own parts and sums. */
  function Links(pl: Plan): (r: seq<Option<nat>>)
    ensures |r| == |pl.grid| && forall b :: 0 <= b < |r| ==> r[b] == pl.grid[b].parent
  {
    seq(|pl.grid|, b requires 0 <= b < |pl.grid| => pl.grid[b].parent)
  }

  function Owns(pl: Plan): (r: seq<real>)
    ensures |r| == |pl.grid| && forall b :: 0 <= b < |r| ==> r[b] == pl.grid[b].cost as real
  {
    seq(|pl.grid|, b requires 0 <= b < |pl.grid| => pl.grid[b].cost as real)
  }

  ghost function Sums(pl: Plan): (r: seq<real>)
    requires PlanOk(pl)
    ensures |r| == |pl.grid| && forall b :: 0 <= b < |r| ==> r[b] == SubSum(pl, b) as real
  {
    seq(|pl.grid|, b requires 0 <= b < |pl.grid| => SubSum(pl, b) as real)
  }

  lemma {:induction false} KidsSum(pl: Plan, b: nat, k: nat)
    requires PlanOk(pl) && b < |pl.grid| && k <= |pl.grid|
    ensures SumIn(Sums(pl), Kids(Links(pl), b), k) == KidSum(pl, b, k) as real
  {
    if k > 0 { KidsSum(pl, b, k - 1); }
  }

  lemma {:induction false} OwnsSum(pl: Plan, k: nat)
    requires k <= |pl.grid|
    ensures SumAll(Owns(pl), k) == CostTotal(pl, k) as real
  {
    if k > 0 { OwnsSum(pl, k - 1); }
  }

  lemma {:induction false} SumsLinked(pl: Plan)
    requires PlanOk(pl)
    ensures SumsUp(Links(pl), Owns(pl), Sums(pl))
  {
    forall b | 0 <= b < |pl.grid|
      ensures Sums(pl)[b] == Owns(pl)[b] + SumIn(Sums(pl), Kids(Links(pl), b), |pl.grid|)
    {
      KidsSum(pl, b, |pl.grid|);
    }
  }

  /** The root's subtree cost is the total of the costs of all boxes, each counted once. */
  lemma {:induction false} RootHoldsTotal(pl: Plan, root: nat)
    requires PlanOk(pl) && root < |pl.grid|
    requires forall b :: 0 <= b < |pl.grid| ==> (pl.grid[b].parent.None? <==> b == root)
    ensures SubSum(pl, root) == CostTotal(pl, |pl.grid|)
  {
    SumsLinked(pl);
    RootHoldsAll(Links(pl), Owns(pl), Sums(pl), root);
    OwnsSum(pl, |pl.grid|);
  }
}
