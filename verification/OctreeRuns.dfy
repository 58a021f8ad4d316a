/** Whole runs of concurrent octree insertion, under every interleaving of the processors. */
module OctreeRuns {
  import opened OctreePaths
  import opened Sequences
  import opened OctreeInsert

  // ---------------------------------------------------------------- one step

  /** What a step does to the tree: slots only go from NULL to leaf to cell, the bodies in
      `added` come in and none goes out, and a new cell is crowded. */
  ghost predicate Grows(xs: seq<Coord>, t: Tree, t': Tree, added: set<nat>) {
    && TreeOk(xs, t')
    && (forall r :: Rank(t, r) <= Rank(t', r))
    && (forall b: nat :: Placed(t', b) <==> Placed(t, b) || b in added)
    && (forall r :: r != [] && IsCell(t', r) && !IsCell(t, r) ==> |Crowd(xs, r)| > MAX_BODIES_PER_LEAF)
  }

  lemma {:induction false} NewLeafPlaced(t: Tree, q: Path, b: nat, x: nat)
    requires q !in t
    ensures Placed(t[q := Leaf([b])], x) <==> Placed(t, x) || x == b
  {
    var t' := t[q := Leaf([b])];
    assert Holds(t', q, b);
    if Placed(t, x) {
      var r :| Holds(t, r, x);
      assert Holds(t', r, x);
    }
    if Placed(t', x) {
      var r :| Holds(t', r, x);
      assert r != q ==> Holds(t, r, x);
    }
  }

  lemma {:induction false} NewLeafTreeOk(xs: seq<Coord>, t: Tree, b: nat, k: nat)
    requires TreeOk(xs, t) && b < |xs| && IsCell(t, Way(xs[b], k)) && Way(xs[b], k + 1) !in t
    ensures TreeOk(xs, t[Way(xs[b], k + 1) := Leaf([b])])
  {
    var q := Way(xs[b], k + 1);
    var t' := t[q := Leaf([b])];
    WayPrefix(xs[b], k, k + 1);
    forall r | r in t' && r != [] ensures IsCell(t', r[..|r| - 1]) {
      assert r != q ==> r in t && IsCell(t, r[..|r| - 1]);
    }
    forall r | IsLeaf(t', r) ensures LeafOk(xs, r, t'[r].bodies) {
      assert r != q ==> IsLeaf(t, r);
    }
  }

  lemma {:induction false} NewLeafGrowsTree(xs: seq<Coord>, t: Tree, b: nat, k: nat)
    requires TreeOk(xs, t) && b < |xs| && IsCell(t, Way(xs[b], k)) && Way(xs[b], k + 1) !in t
    ensures Grows(xs, t, t[Way(xs[b], k + 1) := Leaf([b])], {b})
  {
    var q := Way(xs[b], k + 1);
    NewLeafTreeOk(xs, t, b, k);
    forall x: nat ensures Placed(t[q := Leaf([b])], x) <==> Placed(t, x) || x in {b} { NewLeafPlaced(t, q, b, x); }
  }

  lemma {:induction false} AdditionKeepsTree(xs: seq<Coord>, t: Tree, b: nat, q: Path)
    requires TreeOk(xs, t) && b < |xs| && IsLeaf(t, q) && Below(xs[b], q) && !Placed(t, b)
    requires |t[q].bodies| < MAX_BODIES_PER_LEAF
    ensures TreeOk(xs, AddTo(t, q, b))
  {
    var t' := AddTo(t, q, b);
    AddToEffect(t, q, b);
    forall r | r in t' && r != [] ensures IsCell(t', r[..|r| - 1]) {
      assert r in t && IsCell(t, r[..|r| - 1]);
    }
    forall r | IsLeaf(t', r) ensures LeafOk(xs, r, t'[r].bodies) {
      assert IsLeaf(t, r) && LeafOk(xs, r, t[r].bodies);
      if r == q { AdditionKeepsLeaf(xs, t, b, q); }
    }
  }

  lemma {:induction false} AdditionKeepsLeaf(xs: seq<Coord>, t: Tree, b: nat, q: Path)
    requires IsLeaf(t, q) && LeafOk(xs, q, t[q].bodies) && |t[q].bodies| < MAX_BODIES_PER_LEAF
    requires b < |xs| && Below(xs[b], q) && !Placed(t, b)
    ensures LeafOk(xs, q, t[q].bodies + [b])
  {
    forall i | 0 <= i < |t[q].bodies| ensures t[q].bodies[i] != b {
      assert Holds(t, q, t[q].bodies[i]);
    }
  }

  lemma {:induction false} LeafAdditionGrows(xs: seq<Coord>, t: Tree, b: nat, q: Path)
    requires TreeOk(xs, t) && b < |xs| && IsLeaf(t, q) && Below(xs[b], q) && !Placed(t, b)
    requires |t[q].bodies| < MAX_BODIES_PER_LEAF
    ensures Grows(xs, t, AddTo(t, q, b), {b})
  {
    AdditionKeepsTree(xs, t, b, q);
    AddToEffect(t, q, b);
    forall x: nat ensures Placed(AddTo(t, q, b), x) <==> Placed(t, x) || x in {b} {
      AdditionPlaces(t, q, b, x);
    }
  }

  lemma {:induction false} AdditionPlaces(t: Tree, q: Path, b: nat, x: nat)
    requires IsLeaf(t, q)
    ensures Placed(AddTo(t, q, b), x) <==> Placed(t, x) || x == b
  {
    var t' := AddTo(t, q, b);
    AddToEffect(t, q, b);
    if Placed(t, x) {
      var r :| Holds(t, r, x);
      assert Holds(t', r, x);
    }
    if Placed(t', x) {
      var r :| Holds(t', r, x);
      if r == q {
        assert x != b ==> Holds(t, q, x);
      } else {
        assert Holds(t, r, x);
      }
    }
  }

  ghost function Elements(s: seq<nat>): set<nat> {
    set x | x in s
  }

  lemma {:induction false} DistinctCount(s: seq<nat>)
    requires Distinct(s)
    ensures |Elements(s)| == |s|
  {
    if s != [] {
      var init, last := s[..|s| - 1], s[|s| - 1];
      DistinctCount(init);
      assert last !in init;
      assert s == init + [last];
      assert Elements(s) == Elements(init) + {last};
    }
  }

  lemma {:induction false} SubsetCount<T>(a: set<T>, b: set<T>)
    requires a <= b
    ensures |a| <= |b|
  {
    assert b == a + (b - a);
  }

  /** Different bodies on the way through q are counted in its crowd. */
  lemma {:induction false} CrowdCount(xs: seq<Coord>, q: Path, s: seq<nat>)
    requires Distinct(s) && forall i :: 0 <= i < |s| ==> s[i] < |xs| && Below(xs[s[i]], q)
    ensures |Crowd(xs, q)| >= |s|
  {
    DistinctCount(s);
    SubsetCount(Elements(s), Crowd(xs, q));
  }

  lemma {:induction false} SubdivisionGrows(xs: seq<Coord>, t: Tree, b: nat, q: Path)
    requires TreeOk(xs, t) && b < |xs| && IsLeaf(t, q) && Below(xs[b], q) && !Placed(t, b)
    requires |t[q].bodies| == MAX_BODIES_PER_LEAF
    ensures LeafOk(xs, q, t[q].bodies)
    ensures Grows(xs, t, Subdivide(xs, t, q), {}) && IsCell(Subdivide(xs, t, q), q)
  {
    SubdivideKeeps(xs, t, q);
    forall i | 0 <= i < |t[q].bodies| ensures t[q].bodies[i] != b { assert Holds(t, q, t[q].bodies[i]); }
    CrowdCount(xs, q, t[q].bodies + [b]);
  }

  /** What step p does: the tree grows by the body it inserts, if any; other processors are
      left alone. */
  lemma {:induction false} StepEffect(xs: seq<Coord>, s: State, p: nat)
    requires Inv(xs, s) && Busy(s, p)
    ensures InHand(s, p) < |xs| && IdsOk(xs, s.tree)
    ensures var s' := Step(xs, s, p); var b := InHand(s, p);
            && |s'.procs| == |s.procs|
            && (forall r :: 0 <= r < |s.procs| && r != p ==> s'.procs[r] == s.procs[r])
            && Grows(xs, s.tree, s'.tree, if s'.procs[p].todo == s.procs[p].todo then {} else {b})
            && (s'.procs[p].todo == s.procs[p].todo || s'.procs[p] == Proc(s.procs[p].todo[1..], 0, Top))
            && (s'.procs[p].todo == s.procs[p].todo ==>
                  var pr, c := s'.procs[p], xs[b];
                  && IsCell(s'.tree, Way(c, pr.k))
                  && (pr.stage.Between? || pr.stage.LockLeaf? ==> Way(c, pr.k + 1) in s'.tree)
                  && (pr.stage.Down? ==> IsCell(s'.tree, Way(c, pr.k + 1))))
  {
    assert ProcOk(xs, s, p);
    var t := s.tree;
    var b := InHand(s, p);
    assert b < |xs| && !Placed(t, b);
    forall q | q in t && t[q].Leaf? ensures forall i :: 0 <= i < |t[q].bodies| ==> t[q].bodies[i] < |xs| {
      assert IsLeaf(t, q) && LeafOk(xs, q, t[q].bodies);
    }
    assert IdsOk(xs, t);
    var q := SlotOf(xs, s, p);
    match s.procs[p].stage
    case Top =>
    case LockEmpty =>
      if q !in t { NewLeafGrowsTree(xs, t, b, s.procs[p].k); }
    case Between =>
    case LockLeaf =>
      if IsLeaf(t, q) {
        assert LeafOk(xs, q, t[q].bodies);
        if |t[q].bodies| == MAX_BODIES_PER_LEAF {
          SubdivisionGrows(xs, t, b, q);
          assert Rank(t, Way(xs[b], s.procs[p].k)) == 2;
        } else {
          LeafAdditionGrows(xs, t, b, q);
        }
      }
    case Down =>
  }

  lemma {:induction false} OthersStayOk(xs: seq<Coord>, s: State, p: nat, r: nat)
    requires Inv(xs, s) && Busy(s, p) && r < |s.procs| && r != p
    ensures InHand(s, p) < |xs| && IdsOk(xs, s.tree)
    ensures r < |Step(xs, s, p).procs| && ProcOk(xs, Step(xs, s, p), r)
  {
    StepEffect(xs, s, p);
    assert ProcOk(xs, s, r);
    var s' := Step(xs, s, p);
    var pr := s.procs[r];
    assert Disjoint(pr.todo, s.procs[p].todo);
    forall i | 0 <= i < |pr.todo| ensures !Placed(s'.tree, pr.todo[i]) {
      assert pr.todo[i] !in s.procs[p].todo;
    }
    if pr.todo != [] {
      var c := xs[pr.todo[0]];
      assert Rank(s.tree, Way(c, pr.k)) <= Rank(s'.tree, Way(c, pr.k));
      assert Rank(s.tree, Way(c, pr.k + 1)) <= Rank(s'.tree, Way(c, pr.k + 1));
    }
  }

  lemma {:induction false} SelfStaysOk(xs: seq<Coord>, s: State, p: nat)
    requires Inv(xs, s) && Busy(s, p)
    ensures InHand(s, p) < |xs| && IdsOk(xs, s.tree)
    ensures p < |Step(xs, s, p).procs| && ProcOk(xs, Step(xs, s, p), p)
  {
    StepEffect(xs, s, p);
    assert ProcOk(xs, s, p);
    var s' := Step(xs, s, p);
    var todo, todo' := s.procs[p].todo, s'.procs[p].todo;
    if todo' != todo {
      forall i | 0 <= i < |todo'| ensures todo'[i] < |xs| && !Placed(s'.tree, todo'[i]) {
        assert todo'[i] == todo[i + 1];
      }
      if todo' != [] {
        assert Rank(s.tree, []) <= Rank(s'.tree, []);
        assert Way(xs[todo'[0]], 0) == [];
      }
    }
  }

  /** Every step keeps the invariant. */
  lemma {:induction false} StepKeepsInv(xs: seq<Coord>, s: State, p: nat)
    requires Inv(xs, s) && Busy(s, p)
    ensures InHand(s, p) < |xs| && IdsOk(xs, s.tree)
    ensures Inv(xs, Step(xs, s, p))
  {
    StepEffect(xs, s, p);
    var s' := Step(xs, s, p);
    forall r | 0 <= r < |s'.procs| ensures ProcOk(xs, s', r) {
      if r == p { SelfStaysOk(xs, s, p); } else { OthersStayOk(xs, s, p, r); }
    }
    forall a, r | 0 <= a < |s'.procs| && 0 <= r < |s'.procs| && a != r
      ensures Disjoint(s'.procs[a].todo, s'.procs[r].todo)
    {
      TodoShrinks(s, s', p, a, r);
    }
  }

  lemma {:induction false} TodoShrinks(s: State, s': State, p: nat, a: nat, r: nat)
    requires |s'.procs| == |s.procs| && p < |s.procs| && a < |s.procs| && r < |s.procs|
    requires forall x :: 0 <= x < |s.procs| && x != p ==> s'.procs[x] == s.procs[x]
    requires s'.procs[p].todo == s.procs[p].todo
             || (s.procs[p].todo != [] && s'.procs[p].todo == s.procs[p].todo[1..])
    requires Disjoint(s.procs[a].todo, s.procs[r].todo)
    ensures Disjoint(s'.procs[a].todo, s'.procs[r].todo)
  {
    var x, y := s'.procs[a].todo, s'.procs[r].todo;
    assert forall e :: e in y ==> e in s.procs[r].todo;
    forall i | 0 <= i < |x| ensures x[i] !in y {
      var j := if a == p && x != s.procs[p].todo then i + 1 else i;
      assert x[i] == s.procs[a].todo[j];
    }
  }

  // ---------------------------------------------------------------- runs

  /** The empty tree, and any split of the bodies among the processors. */
  ghost predicate Initial(xs: seq<Coord>, s: State) {
    && s.tree == map[[] := Cell]
    && (forall b :: 0 <= b < |xs| ==> InRange(xs[b]))
    && (forall p :: 0 <= p < |s.procs| ==>
          && s.procs[p].k == 0 && s.procs[p].stage.Top? && Distinct(s.procs[p].todo)
          && forall i :: 0 <= i < |s.procs[p].todo| ==> s.procs[p].todo[i] < |xs|)
    && (forall p, r :: 0 <= p < |s.procs| && 0 <= r < |s.procs| && p != r ==>
          Disjoint(s.procs[p].todo, s.procs[r].todo))
  }

  lemma {:induction false} InitialInv(xs: seq<Coord>, s: State)
    requires Initial(xs, s)
    ensures Inv(xs, s)
  {
    assert forall b: nat :: !Placed(s.tree, b);
    forall p | 0 <= p < |s.procs| ensures ProcOk(xs, s, p) {
      if s.procs[p].todo != [] { assert Way(xs[s.procs[p].todo[0]], 0) == []; }
    }
  }

  /** A run: at each step the named processor, which has bodies left, makes its next step. */
  ghost predicate IsRun(xs: seq<Coord>, run: seq<State>, mover: seq<nat>) {
    && |run| == |mover| + 1 && Initial(xs, run[0])
    && forall i :: 0 <= i < |mover| ==>
         && Busy(run[i], mover[i]) && InHand(run[i], mover[i]) < |xs| && IdsOk(xs, run[i].tree)
         && run[i + 1] == Step(xs, run[i], mover[i])
  }

  lemma {:induction false} StepOfRun(xs: seq<Coord>, run: seq<State>, mover: seq<nat>, j: nat)
    requires IsRun(xs, run, mover) && j < |mover| && Inv(xs, run[j])
    ensures Inv(xs, run[j + 1])
  {
    StepKeepsInv(xs, run[j], mover[j]);
  }

  lemma {:induction false} RunInv(xs: seq<Coord>, run: seq<State>, mover: seq<nat>, k: nat)
    requires IsRun(xs, run, mover) && k < |run|
    ensures Inv(xs, run[k])
    decreases k
  {
    if k == 0 {
      InitialInv(xs, run[0]);
    } else {
      RunInv(xs, run, mover, k - 1);
      StepOfRun(xs, run, mover, k - 1);
    }
  }

  /** The bodies of the leaf at q lie in its cube; below the last bit a cube does not get
      smaller. */
  ghost predicate LeafInCube(xs: seq<Coord>, q: Path, bodies: seq<nat>) {
    && IsPath(q)
    && forall i :: 0 <= i < |bodies| ==>
         bodies[i] < |xs| && InCube(xs[bodies[i]], if |q| <= MAXLEVEL then q else q[..MAXLEVEL])
  }

  lemma {:induction false} LeafOkInCube(xs: seq<Coord>, q: Path, bodies: seq<nat>)
    requires LeafOk(xs, q, bodies) && forall b :: 0 <= b < |xs| ==> InRange(xs[b])
    ensures LeafInCube(xs, q, bodies)
  {
    assert q == Way(xs[bodies[0]], |q|);
    forall i | 0 <= i < |bodies|
      ensures InCube(xs[bodies[i]], if |q| <= MAXLEVEL then q else q[..MAXLEVEL])
    {
      var c := xs[bodies[i]];
      if |q| <= MAXLEVEL {
        CellsAreCubes(c, q);
      } else {
        WayPrefix(c, MAXLEVEL, |q|);
        CellsAreCubes(c, q[..MAXLEVEL]);
      }
    }
  }

  /** Under every interleaving: leaves hold one to MAX_BODIES_PER_LEAF different bodies, each
      of which belongs below every slot on the way and lies in the cube of the leaf, and no body
      is in two leaves. */
  lemma {:induction false} TreeStaysOk(xs: seq<Coord>, run: seq<State>, mover: seq<nat>)
    requires IsRun(xs, run, mover)
    ensures var t := run[|mover|].tree;
            && (forall q :: IsLeaf(t, q) ==> LeafOk(xs, q, t[q].bodies) && LeafInCube(xs, q, t[q].bodies))
            && (forall q :: q in t && q != [] ==> IsCell(t, q[..|q| - 1]))
            && (forall b: nat, q, r :: Holds(t, q, b) && Holds(t, r, b) ==> q == r)
  {
    RunInv(xs, run, mover, |mover|);
    var t := run[|mover|].tree;
    forall q | IsLeaf(t, q) ensures LeafInCube(xs, q, t[q].bodies) { LeafOkInCube(xs, q, t[q].bodies); }
    forall b: nat, q, r | Holds(t, q, b) && Holds(t, r, b) ensures q == r { InOneLeaf(xs, t, b, q, r); }
  }

  lemma {:induction false} StepRank(xs: seq<Coord>, s: State, p: nat, q: Path)
    requires Inv(xs, s) && Busy(s, p) && InHand(s, p) < |xs| && IdsOk(xs, s.tree)
    ensures Rank(s.tree, q) <= Rank(Step(xs, s, p).tree, q)
  {
    StepEffect(xs, s, p);
  }

  lemma {:induction false} RunStepRank(xs: seq<Coord>, run: seq<State>, mover: seq<nat>, j: nat, q: Path)
    requires IsRun(xs, run, mover) && j < |mover|
    ensures Rank(run[j].tree, q) <= Rank(run[j + 1].tree, q)
  {
    RunInv(xs, run, mover, j);
    StepRank(xs, run[j], mover[j], q);
  }

  /** A slot never goes back: NULL to leaf to cell. */
  lemma {:induction false} SlotsOnlyGrow(xs: seq<Coord>, run: seq<State>, mover: seq<nat>, i: nat, j: nat, q: Path)
    requires IsRun(xs, run, mover) && i <= j < |run|
    ensures Rank(run[i].tree, q) <= Rank(run[j].tree, q)
    decreases j
  {
    if i < j {
      SlotsOnlyGrow(xs, run, mover, i, j - 1, q);
      RunStepRank(xs, run, mover, j - 1, q);
    }
  }

  /** Body b waits on processor p's list. */
  predicate Waiting(s: State, p: nat, b: nat) {
    p < |s.procs| && b in s.procs[p].todo
  }

  lemma {:induction false} StepLosesNone(xs: seq<Coord>, s: State, r: nat, p: nat, b: nat)
    requires Inv(xs, s) && Busy(s, r) && InHand(s, r) < |xs| && IdsOk(xs, s.tree)
    requires Placed(s.tree, b) || Waiting(s, p, b)
    ensures var s' := Step(xs, s, r);
            (Placed(s'.tree, b) || Waiting(s', p, b)) && |s'.procs| == |s.procs|
  {
    StepEffect(xs, s, r);
    if !Placed(s.tree, b) && r == p {
      assert s.procs[p].todo == [s.procs[p].todo[0]] + s.procs[p].todo[1..];
    }
  }

  /** No body is lost: each one given to a processor is in a leaf or still waiting there. */
  lemma {:induction false} NoBodyLost(xs: seq<Coord>, run: seq<State>, mover: seq<nat>, k: nat, p: nat, b: nat)
    requires IsRun(xs, run, mover) && k < |run| && Waiting(run[0], p, b)
    ensures Placed(run[k].tree, b) || Waiting(run[k], p, b)
    ensures |run[k].procs| == |run[0].procs|
    decreases k
  {
    if k > 0 {
      NoBodyLost(xs, run, mover, k - 1, p, b);
      RunInv(xs, run, mover, k - 1);
      StepLosesNone(xs, run[k - 1], mover[k - 1], p, b);
    }
  }

  // ---------------------------------------------------------------- termination

  /** The bodies with the same integer coordinates as b. */
  ghost function Twins(xs: seq<Coord>, b: nat): set<nat>
    requires b < |xs|
  {
    set c | 0 <= c < |xs| && xs[c] == xs[b]
  }

  /** No leaf's worth of bodies is exceeded at one point. */
  ghost predicate Spreadable(xs: seq<Coord>) {
    forall b :: 0 <= b < |xs| ==> |Twins(xs, b)| <= MAX_BODIES_PER_LEAF
  }

  lemma {:induction false} CellsAreShallow(xs: seq<Coord>, t: Tree, b: nat, k: nat)
    requires b < |xs| && Spreadable(xs) && forall c :: 0 <= c < |xs| ==> InRange(xs[c])
    requires TreeOk(xs, t) && IsCell(t, Way(xs[b], k))
    requires forall q :: q != [] && IsCell(t, q) ==> |Crowd(xs, q)| > MAX_BODIES_PER_LEAF
    ensures k < MAXLEVEL
  {
    if k >= MAXLEVEL {
      var q := Way(xs[b], MAXLEVEL);
      WayPrefix(xs[b], MAXLEVEL, k);
      if k > MAXLEVEL { AncestorsAreCells(xs, t, Way(xs[b], k), MAXLEVEL); }
      forall c | c in Crowd(xs, q) ensures c in Twins(xs, b) { SameWaySameCoord(xs[c], xs[b]); }
      SubsetCount(Crowd(xs, q), Twins(xs, b));
    }
  }

  function StageNo(st: Stage): nat {
    match st
    case Top => 0
    case LockEmpty => 1
    case Between => 2
    case LockLeaf => 3
    case Down => 4
  }

  const PER_BODY: nat := 5 * MAXLEVEL

  /** An upper bound on the steps a processor can still make. */
  function Effort(pr: Proc): int {
    PER_BODY * |pr.todo| - (if pr.todo == [] then 0 else 5 * pr.k + StageNo(pr.stage))
  }

  function TotalEffort(procs: seq<Proc>): int {
    if procs == [] then 0 else Effort(procs[0]) + TotalEffort(procs[1..])
  }

  lemma {:induction false} TotalEffortUpdate(procs: seq<Proc>, p: nat, pr: Proc)
    requires p < |procs|
    ensures TotalEffort(procs[p := pr]) == TotalEffort(procs) - Effort(procs[p]) + Effort(pr)
  {
    if p == 0 {
      assert procs[p := pr][1..] == procs[1..];
    } else {
      assert procs[p := pr][1..] == procs[1..][p - 1 := pr];
      TotalEffortUpdate(procs[1..], p - 1, pr);
    }
  }

  lemma {:induction false} ProcTakesEffort(xs: seq<Coord>, s: State, p: nat)
    requires Busy(s, p) && InHand(s, p) < |xs| && IdsOk(xs, s.tree) && s.procs[p].k < MAXLEVEL
    requires Step(xs, s, p).procs[p].todo == s.procs[p].todo
             || Step(xs, s, p).procs[p] == Proc(s.procs[p].todo[1..], 0, Top)
    ensures Effort(Step(xs, s, p).procs[p]) < Effort(s.procs[p])
  {
  }

  lemma {:induction false} EffortNotNegative(pr: Proc)
    requires pr.todo == [] || pr.k < MAXLEVEL
    ensures Effort(pr) >= 0
  {
  }

  lemma {:induction false} StepTakesEffort(xs: seq<Coord>, s: State, p: nat)
    requires Inv(xs, s) && Busy(s, p) && Spreadable(xs) && forall c :: 0 <= c < |xs| ==> InRange(xs[c])
    ensures InHand(s, p) < |xs| && IdsOk(xs, s.tree)
    ensures TotalEffort(Step(xs, s, p).procs) < TotalEffort(s.procs)
  {
    StepEffect(xs, s, p);
    assert ProcOk(xs, s, p);
    var s' := Step(xs, s, p);
    CellsAreShallow(xs, s.tree, InHand(s, p), s.procs[p].k);
    ProcTakesEffort(xs, s, p);
    assert s'.procs == s.procs[p := s'.procs[p]];
    TotalEffortUpdate(s.procs, p, s'.procs[p]);
  }

  lemma {:induction false} EffortLeft(xs: seq<Coord>, s: State, n: nat)
    requires Inv(xs, s) && Spreadable(xs) && n <= |s.procs| && forall c :: 0 <= c < |xs| ==> InRange(xs[c])
    ensures TotalEffort(s.procs[n..]) >= 0
    decreases |s.procs| - n
  {
    if n < |s.procs| {
      EffortLeft(xs, s, n + 1);
      assert s.procs[n..][1..] == s.procs[n + 1..];
      assert ProcOk(xs, s, n);
      var pr := s.procs[n];
      if pr.todo != [] { CellsAreShallow(xs, s.tree, pr.todo[0], pr.k); }
      EffortNotNegative(pr);
    }
  }

  lemma {:induction false} RunEffort(xs: seq<Coord>, run: seq<State>, mover: seq<nat>, k: nat)
    requires IsRun(xs, run, mover) && Spreadable(xs) && k < |run|
    ensures TotalEffort(run[k].procs) + k <= TotalEffort(run[0].procs)
    decreases k
  {
    if k > 0 {
      RunEffort(xs, run, mover, k - 1);
      RunInv(xs, run, mover, k - 1);
      assert run[k - 1 + 1] == Step(xs, run[k - 1], mover[k - 1]);
      StepTakesEffort(xs, run[k - 1], mover[k - 1]);
    }
  }

  /** Insertion terminates if at most MAX_BODIES_PER_LEAF bodies share an integer coordinate:
      no run is longer than five steps for each body and level, whatever the interleaving. */
  lemma {:induction false} InsertionEnds(xs: seq<Coord>, run: seq<State>, mover: seq<nat>)
    requires IsRun(xs, run, mover) && Spreadable(xs)
    ensures |mover| <= TotalEffort(run[0].procs)
  {
    RunEffort(xs, run, mover, |mover|);
    RunInv(xs, run, mover, |mover|);
    EffortLeft(xs, run[|mover|], 0);
    assert run[|mover|].procs[0..] == run[|mover|].procs;
  }

  /** And only then: a run that has put all bodies into the tree shows that no more than
      MAX_BODIES_PER_LEAF of them share an integer coordinate. */
  lemma {:induction false} OnlyIfSpreadable(xs: seq<Coord>, run: seq<State>, mover: seq<nat>)
    requires IsRun(xs, run, mover)
    requires forall b :: 0 <= b < |xs| ==> Placed(run[|mover|].tree, b)
    ensures Spreadable(xs)
  {
    RunInv(xs, run, mover, |mover|);
    var t := run[|mover|].tree;
    forall b | 0 <= b < |xs| ensures |Twins(xs, b)| <= MAX_BODIES_PER_LEAF {
      assert Placed(t, b);
      var q :| Holds(t, q, b);
      LeafKeepsTwins(xs, t, b, q);
    }
  }

  lemma {:induction false} LeafKeepsTwins(xs: seq<Coord>, t: Tree, b: nat, q: Path)
    requires TreeOk(xs, t) && b < |xs| && Holds(t, q, b)
    requires forall c :: 0 <= c < |xs| ==> Placed(t, c)
    ensures |Twins(xs, b)| <= MAX_BODIES_PER_LEAF
  {
    assert LeafOk(xs, q, t[q].bodies);
    var bs := t[q].bodies;
    forall c | c in Twins(xs, b) ensures c in bs {
      assert Placed(t, c);
      var r :| Holds(t, r, c);
      assert LeafOk(xs, r, t[r].bodies);
      OneLeafOnTheWay(xs, t, xs[b], q, r);
    }
    DistinctCount(bs);
    SubsetCount(Twins(xs, b), Elements(bs));
  }

  /** When no processor has a body left, every body is in exactly one leaf. */
  lemma {:induction false} AllInserted(xs: seq<Coord>, run: seq<State>, mover: seq<nat>, b: nat, p: nat)
    requires IsRun(xs, run, mover) && Waiting(run[0], p, b)
    requires forall r :: 0 <= r < |run[|mover|].procs| ==> run[|mover|].procs[r].todo == []
    ensures exists q :: Holds(run[|mover|].tree, q, b) && forall r :: Holds(run[|mover|].tree, r, b) ==> r == q
  {
    NoBodyLost(xs, run, mover, |mover|, p, b);
    RunInv(xs, run, mover, |mover|);
    var t := run[|mover|].tree;
    var q :| Holds(t, q, b);
    forall r | Holds(t, r, b) ensures r == q { InOneLeaf(xs, t, b, r, q); }
  }

  /** Then a leaf holds just the bodies that lie in its cube. */
  lemma {:induction false} LeavesFillCubes(xs: seq<Coord>, run: seq<State>, mover: seq<nat>, q: Path, b: nat, p: nat)
    requires IsRun(xs, run, mover) && Waiting(run[0], p, b) && b < |xs|
    requires forall r :: 0 <= r < |run[|mover|].procs| ==> run[|mover|].procs[r].todo == []
    requires IsLeaf(run[|mover|].tree, q) && |q| <= MAXLEVEL
    ensures IsPath(q) && (Holds(run[|mover|].tree, q, b) <==> InCube(xs[b], q))
  {
    var t := run[|mover|].tree;
    TreeStaysOk(xs, run, mover);
    AllInserted(xs, run, mover, b, p);
    RunInv(xs, run, mover, |mover|);
    assert LeafInCube(xs, q, t[q].bodies);
    if InCube(xs[b], q) {
      CellsAreCubes(xs[b], q);
      var r :| Holds(t, r, b);
      assert LeafOk(xs, r, t[r].bodies);
      OneLeafOnTheWay(xs, t, xs[b], q, r);
    }
  }
}
