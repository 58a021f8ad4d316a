/** From the tree that loadtree has built to one processor's share of the bodies: the finished
    octree is a plan for hackcofm, and what hackcofm leaves is a tree whose cost zones hold every
    body of the simulation exactly once. */
module OctreePlan {
  import opened Options
  import opened Sequences
  import opened Zones
  import opened BarnesTables
  import opened Forest
  import opened OctreePaths
  import opened OctreeInsert
  import opened OctreeRuns
  import opened BarnesSteps
  import Cofm = BarnesCofm
  import Part = BarnesZones

  // ---------------------------------------------------------------- cells have children

  ghost predicate HasKid(t: Tree, q: Path) {
    exists r :: r in t && |r| == |q| + 1 && r[..|q|] == q
  }

  ghost predicate KidsThere(t: Tree) {
    forall q :: q != [] && IsCell(t, q) ==> HasKid(t, q)
  }

  /** A tree with more slots taken and no new cell but the one at `at` keeps its children. */
  lemma {:induction false} MoreKids(t: Tree, t': Tree, at: Path)
    requires KidsThere(t) && (forall r :: Rank(t, r) <= Rank(t', r)) && (at != [] ==> HasKid(t', at))
    requires forall r :: IsCell(t', r) && r != at ==> IsCell(t, r)
    ensures KidsThere(t')
  {
    forall q | q != [] && IsCell(t', q) && q != at
      ensures HasKid(t', q)
    {
      assert HasKid(t, q);
      var r :| r in t && |r| == |q| + 1 && r[..|q|] == q;
      assert Rank(t, r) <= Rank(t', r);
      assert r in t';
    }
  }

  lemma {:induction false} SubdivideHasKid(xs: seq<Coord>, t: Tree, q: Path)
    requires TreeOk(xs, t) && IsLeaf(t, q)
    ensures LeafOk(xs, q, t[q].bodies) && HasKid(Subdivide(xs, t, q), q)
  {
    assert LeafOk(xs, q, t[q].bodies);
    var mid, bs := t[q := Cell], t[q].bodies;
    forall r | r in mid && |r| == |q| + 1 ensures r[..|q|] != q { NothingBelowLeaf(xs, t, q, r); }
    SpreadEffect(xs, mid, q, bs);
    var t' := Subdivide(xs, t, q);
    assert InSlot(xs, t', q, bs[0]);
    var r := q + [SlotAt(xs[bs[0]], |q|)];
    assert r in t' && r[..|q|] == q;
  }

  lemma {:induction false} StepKeepsKids(xs: seq<Coord>, s: State, p: nat)
    requires Inv(xs, s) && Busy(s, p) && InHand(s, p) < |xs| && IdsOk(xs, s.tree) && KidsThere(s.tree)
    ensures KidsThere(Step(xs, s, p).tree)
  {
    var t, t', q := s.tree, Step(xs, s, p).tree, SlotOf(xs, s, p);
    forall r ensures Rank(t, r) <= Rank(t', r) { StepRank(xs, s, p, r); }
    if s.procs[p].stage.LockLeaf? && IsLeaf(t, q) && |t[q].bodies| == MAX_BODIES_PER_LEAF {
      SubdivideKeeps(xs, t, q);
      SubdivideHasKid(xs, t, q);
      MoreKids(t, t', q);
    } else {
      if s.procs[p].stage.LockLeaf? && IsLeaf(t, q) { AddToEffect(t, q, InHand(s, p)); }
      MoreKids(t, t', []);
    }
  }

  lemma {:induction false} KidsOfRun(xs: seq<Coord>, run: seq<State>, mover: seq<nat>, j: nat)
    requires IsRun(xs, run, mover) && j < |mover| && Inv(xs, run[j]) && KidsThere(run[j].tree)
    ensures KidsThere(run[j + 1].tree)
  {
    StepKeepsKids(xs, run[j], mover[j]);
  }

  lemma {:induction false} EmptyHasKids(t: Tree)
    requires t == map[[] := Cell]
    ensures KidsThere(t)
  {
  }

  lemma {:induction false} RunKids(xs: seq<Coord>, run: seq<State>, mover: seq<nat>, k: nat)
    requires IsRun(xs, run, mover) && k < |run|
    ensures KidsThere(run[k].tree)
    decreases k
  {
    if k == 0 {
      EmptyHasKids(run[0].tree);
    } else {
      RunKids(xs, run, mover, k - 1);
      RunInv(xs, run, mover, k - 1);
      KidsOfRun(xs, run, mover, k - 1);
    }
  }

  // ---------------------------------------------------------------- the plan of a tree

  /** The bodies of the simulation by number. */
  predicate DataOk(xs: seq<Coord>, data: seq<Cofm.Body>) {
    |data| == |xs| && forall b :: 0 <= b < |data| ==> data[b].id == b && data[b].mass > 0.0
  }

  /** Node b of the plan is the node at paths[b] of the tree. */
  ghost predicate NodeShows(t: Tree, data: seq<Cofm.Body>, paths: seq<Path>, pl: Cofm.Plan, b: nat)
    requires |paths| == |pl.nodes| && b < |paths|
  {
    var q, n := paths[b], pl.nodes[b];
    && q in t && n.leaf == t[q].Leaf?
    && (n.leaf ==> BodiesShow(data, t[q].bodies, n.bodies))
    && (q == [] ==> n.parent.None?)
    && (q != [] ==> n.parent.Some? && n.parent.value < b && paths[n.parent.value] == q[..|q| - 1]
                    && n.slot == q[|q| - 1])
    && (!n.leaf ==> |n.subp| == NSUB && forall k: nat :: k < NSUB ==> SlotShows(t, paths, q, k, n.subp[k]))
  }

  predicate BodiesShow(data: seq<Cofm.Body>, ids: seq<nat>, bodies: seq<Cofm.Body>) {
    |bodies| == |ids| && forall i :: 0 <= i < |ids| ==> ids[i] < |data| && bodies[i] == data[ids[i]]
  }

  ghost predicate SlotShows(t: Tree, paths: seq<Path>, q: Path, k: nat, slot: Option<nat>) {
    if q + [k] in t then slot.Some? && slot.value < |paths| && paths[slot.value] == q + [k] else slot.None?
  }

  /** The plan lists the nodes of the tree, each once, parents before children as they were
      created. */
  ghost predicate Shows(t: Tree, data: seq<Cofm.Body>, paths: seq<Path>, pl: Cofm.Plan) {
    && |paths| == |pl.nodes|
    && (forall i, j :: 0 <= i < j < |paths| ==> paths[i] != paths[j])
    && (forall q :: q in t ==> q in paths)
    && (forall b: nat :: b < |paths| ==> NodeShows(t, data, paths, pl, b))
  }

  /** A tree that insertion has finished. */
  ghost predicate TreeDone(xs: seq<Coord>, t: Tree) {
    && TreeOk(xs, t) && KidsThere(t) && HasKid(t, [])
    && (forall q :: q != [] && IsCell(t, q) ==> |Crowd(xs, q)| > MAX_BODIES_PER_LEAF)
    && (forall b: nat :: b < |xs| ==> Placed(t, b))
  }

  lemma {:induction false} LastSlot(xs: seq<Coord>, t: Tree, q: Path)
    requires TreeDone(xs, t) && q in t && q != []
    ensures q[|q| - 1] < NSUB
  {
    var b: nat;
    if t[q].Leaf? {
      assert LeafOk(xs, q, t[q].bodies);
      b := t[q].bodies[0];
    } else {
      assert |Crowd(xs, q)| > 0;
      b :| b in Crowd(xs, q);
    }
    assert q == Way(xs[b], |q|);
  }

  /** A child hangs in the slot that names it, below a cell listed before it. */
  lemma {:induction false} ShownUp(t: Tree, data: seq<Cofm.Body>, paths: seq<Path>, pl: Cofm.Plan, b: nat)
    requires Shows(t, data, paths, pl) && b < |paths| && paths[b] != []
    requires var q := paths[b]; q[|q| - 1] < NSUB && IsCell(t, q[..|q| - 1])
    ensures var n := pl.nodes[b];
            && n.parent.Some? && n.parent.value < b && !pl.nodes[n.parent.value].leaf
            && n.slot < NSUB && |pl.nodes[n.parent.value].subp| == NSUB
            && pl.nodes[n.parent.value].subp[n.slot] == Some(b)
  {
    var q := paths[b];
    assert NodeShows(t, data, paths, pl, b);
    var up, k := pl.nodes[b].parent.value, pl.nodes[b].slot;
    assert NodeShows(t, data, paths, pl, up);
    assert paths[up] + [k] == q;
    assert SlotShows(t, paths, paths[up], k, pl.nodes[up].subp[k]);
  }

  lemma {:induction false} ShownSlot(t: Tree, data: seq<Cofm.Body>, paths: seq<Path>, pl: Cofm.Plan, b: nat, k: nat)
    requires Shows(t, data, paths, pl) && b < |paths| && !pl.nodes[b].leaf && k < NSUB
    ensures |pl.nodes[b].subp| == NSUB
    ensures pl.nodes[b].subp[k].Some? ==>
              var c := pl.nodes[b].subp[k].value;
              c < |pl.nodes| && pl.nodes[c].parent == Some(b) && pl.nodes[c].slot == k
  {
    assert NodeShows(t, data, paths, pl, b);
    var slot := pl.nodes[b].subp[k];
    assert SlotShows(t, paths, paths[b], k, slot);
    if slot.Some? {
      assert NodeShows(t, data, paths, pl, slot.value);
      assert (paths[b] + [k])[..|paths[b]|] == paths[b];
    }
  }

  lemma {:induction false} ShownKid(t: Tree, data: seq<Cofm.Body>, paths: seq<Path>, pl: Cofm.Plan, b: nat, k: nat)
    requires Shows(t, data, paths, pl) && b < |paths| && !pl.nodes[b].leaf && k < NSUB && paths[b] + [k] in t
    ensures |pl.nodes[b].subp| == NSUB && pl.nodes[b].subp[k].Some?
  {
    assert NodeShows(t, data, paths, pl, b);
    assert SlotShows(t, paths, paths[b], k, pl.nodes[b].subp[k]);
  }

  lemma {:induction false} SomeKid(xs: seq<Coord>, t: Tree, q: Path) returns (k: nat)
    requires TreeDone(xs, t) && IsCell(t, q)
    ensures k < NSUB && q + [k] in t
  {
    assert HasKid(t, q);
    var r :| r in t && |r| == |q| + 1 && r[..|q|] == q;
    LastSlot(xs, t, r);
    k := r[|q|];
    assert r == q + [k];
  }

  lemma {:induction false} ShownNodeOk(xs: seq<Coord>, t: Tree, data: seq<Cofm.Body>, paths: seq<Path>, pl: Cofm.Plan, b: nat)
    requires TreeDone(xs, t) && DataOk(xs, data) && Shows(t, data, paths, pl) && b < |paths|
    ensures Cofm.NodeOk(pl, b)
  {
    assert NodeShows(t, data, paths, pl, b);
    if paths[b] != [] {
      LastSlot(xs, t, paths[b]);
      ShownUp(t, data, paths, pl, b);
    }
    if pl.nodes[b].leaf {
      assert LeafOk(xs, paths[b], t[paths[b]].bodies);
    } else {
      var k := SomeKid(xs, t, paths[b]);
      ShownKid(t, data, paths, pl, b, k);
      forall k: nat | k < NSUB
        ensures pl.nodes[b].subp[k].Some? ==>
                  var c := pl.nodes[b].subp[k].value;
                  c < |pl.nodes| && pl.nodes[c].parent == Some(b) && pl.nodes[c].slot == k
      {
        ShownSlot(t, data, paths, pl, b, k);
      }
    }
  }

  /** The finished octree, split among the processors in hackcofm's order, is a plan for it. */
  lemma {:induction false} ShownPlanOk(xs: seq<Coord>, t: Tree, data: seq<Cofm.Body>, paths: seq<Path>, pl: Cofm.Plan)
    requires TreeDone(xs, t) && DataOk(xs, data) && Shows(t, data, paths, pl) && Cofm.SplitOk(pl)
    ensures Cofm.PlanOk(pl)
  {
    forall b | 0 <= b < |pl.nodes| ensures Cofm.NodeOk(pl, b) { ShownNodeOk(xs, t, data, paths, pl, b); }
  }

  ghost predicate Assigned(s: State, b: nat) { exists p: nat :: Waiting(s, p, b) }

  /** Insertion finishes such a tree, under every interleaving. */
  lemma {:induction false} InsertionDone(xs: seq<Coord>, run: seq<State>, mover: seq<nat>)
    requires IsRun(xs, run, mover) && xs != []
    requires forall b: nat :: b < |xs| ==> Assigned(run[0], b)
    requires forall r :: 0 <= r < |run[|mover|].procs| ==> run[|mover|].procs[r].todo == []
    ensures TreeDone(xs, run[|mover|].tree)
  {
    var t := run[|mover|].tree;
    RunInv(xs, run, mover, |mover|);
    RunKids(xs, run, mover, |mover|);
    forall b: nat | b < |xs| ensures Placed(t, b) {
      assert Assigned(run[0], b);
      var p: nat :| Waiting(run[0], p, b);
      AllInserted(xs, run, mover, b, p);
    }
    assert Placed(t, 0);
    var q :| Holds(t, q, 0);
    assert q != [];
    if |q| > 1 { AncestorsAreCells(xs, t, q, 1); } else { assert q[..1] == q; }
    assert q[..1] in t && q[..1][..0] == [];
  }

  // ---------------------------------------------------------------- every body in one zone

  /** p stands for one of the bodies. */
  predicate IsPiece(data: seq<Cofm.Body>, p: Part.Body) {
    p.item < |data| && p.cost == data[p.item].cost
  }

  lemma {:induction false} LeafCount(data: seq<Cofm.Body>, ids: seq<nat>, bodies: seq<Cofm.Body>, p: Part.Body)
    requires BodiesShow(data, ids, bodies) && Distinct(ids)
    requires forall b :: 0 <= b < |data| ==> data[b].id == b
    ensures multiset(Pieces(bodies))[p] == if p.item in ids && IsPiece(data, p) then 1 else 0
  {
    if ids != [] {
      var init, last := ids[..|ids| - 1], ids[|ids| - 1];
      LeafCount(data, init, bodies[..|bodies| - 1], p);
      assert ids == init + [last] && last !in init;
    }
  }

  /** Among the nodes of the plan just one leaf holds the body, and nothing else is in any. */
  lemma {:induction false} OneLeafCounts(
    xs: seq<Coord>, t: Tree, data: seq<Cofm.Body>, paths: seq<Path>, pl: Cofm.Plan, p: Part.Body) returns (at: nat)
    requires TreeDone(xs, t) && DataOk(xs, data) && Shows(t, data, paths, pl)
    ensures at < |pl.nodes| <==> IsPiece(data, p)
    ensures forall b :: 0 <= b < |pl.nodes| ==> OwnCount(pl, p, b) == if b == at then 1.0 else 0.0
  {
    at := |pl.nodes|;
    if IsPiece(data, p) {
      assert Placed(t, p.item);
      var q :| Holds(t, q, p.item);
      at :| 0 <= at < |paths| && paths[at] == q;
    }
    forall b | 0 <= b < |pl.nodes|
      ensures OwnCount(pl, p, b) == if b == at then 1.0 else 0.0
    {
      assert NodeShows(t, data, paths, pl, b);
      if pl.nodes[b].leaf {
        var r := paths[b];
        assert LeafOk(xs, r, t[r].bodies);
        LeafCount(data, t[r].bodies, pl.nodes[b].bodies, p);
        if p.item in t[r].bodies && IsPiece(data, p) { InOneLeaf(xs, t, p.item, paths[at], r); }
      }
    }
  }

  /** Below the root of the finished tree every body is found exactly once, and nothing else. */
  lemma {:induction false} BodyOnce(
    xs: seq<Coord>, t: Tree, data: seq<Cofm.Body>, paths: seq<Path>, pl: Cofm.Plan, s: Cofm.State, root: nat, p: Part.Body)
    requires TreeDone(xs, t) && DataOk(xs, data) && Shows(t, data, paths, pl)
    requires Cofm.PlanOk(pl) && HasValues(pl, s) && root < |paths| && paths[root] == []
    ensures multiset(Part.Bodies(ZoneNode(pl, s, root)))[p] == if IsPiece(data, p) then 1 else 0
  {
    var at := OneLeafCounts(xs, t, data, paths, pl, p);
    SumIndicator(OwnCounts(pl, p), at, |pl.nodes|);
    CountsUp(pl, s, p);
    forall b | 0 <= b < |pl.nodes| ensures Cofm.Links(pl)[b].None? <==> b == root {
      assert NodeShows(t, data, paths, pl, b);
    }
    RootHoldsAll(Cofm.Links(pl), OwnCounts(pl, p), Counts(pl, s, p), root);
  }

  /** So the bodies of the tree are the bodies of the simulation. */
  lemma {:induction false} TreeHoldsData(
    xs: seq<Coord>, t: Tree, data: seq<Cofm.Body>, paths: seq<Path>, pl: Cofm.Plan, s: Cofm.State, root: nat)
    requires TreeDone(xs, t) && DataOk(xs, data) && Shows(t, data, paths, pl)
    requires Cofm.PlanOk(pl) && HasValues(pl, s) && root < |paths| && paths[root] == []
    ensures multiset(Part.Bodies(ZoneNode(pl, s, root))) == multiset(Pieces(data))
  {
    var ids := Upto(|data|);
    forall p: Part.Body
      ensures multiset(Part.Bodies(ZoneNode(pl, s, root)))[p] == multiset(Pieces(data))[p]
    {
      BodyOnce(xs, t, data, paths, pl, s, root, p);
      LeafCount(data, ids, data, p);
      if IsPiece(data, p) { assert ids[p.item] == p.item; }
    }
  }

  /** The shares of all processors together are the bodies of the simulation, each once. */
  ghost predicate OnceEach(data: seq<Cofm.Body>, pl: Cofm.Plan, s: Cofm.State, root: nat, t: Tables, nproc: nat)
    requires Cofm.PlanOk(pl) && Cofm.Shaped(pl, s) && root < |pl.nodes|
    requires TablesOk(t, NUM_DIRECTIONS, NSUB) && 0 < nproc
  {
    var tree := ZoneNode(pl, s, root);
    && Part.Costed(tree)
    && var shares := Shares(Part.Walk(t, tree, BRC_FUC), Part.Cuts(Part.CostOf(tree), nproc), nproc);
       multiset(shares) == multiset(Pieces(data))
  }

  /** A Barnes-Hut step end to end.  However the processors interleave while they insert the
      bodies, however the finished tree is split for hackcofm and however that runs, the cost
      zones found afterwards hold every body of the simulation exactly once. */
  lemma {:induction false} EveryBodyInOneZone(
    xs: seq<Coord>, run: seq<State>, mover: seq<nat>, data: seq<Cofm.Body>, paths: seq<Path>,
    pl: Cofm.Plan, root: nat, t: Tables, nproc: nat)
    requires IsRun(xs, run, mover) && xs != []
    requires forall b: nat :: b < |xs| ==> Assigned(run[0], b)
    requires forall r :: 0 <= r < |run[|mover|].procs| ==> run[|mover|].procs[r].todo == []
    requires DataOk(xs, data) && Shows(run[|mover|].tree, data, paths, pl) && Cofm.SplitOk(pl)
    requires root < |paths| && paths[root] == []
    requires TablesOk(t, NUM_DIRECTIONS, NSUB) && 0 < nproc
    ensures Cofm.PlanOk(pl)
    ensures forall sums: seq<Cofm.State>, steps: seq<nat> ::
              Cofm.IsRun(pl, sums, steps) && Cofm.Shaped(pl, sums[|steps|]) && Cofm.Finished(pl, sums[|steps|]) ==>
                OnceEach(data, pl, sums[|steps|], root, t, nproc)
  {
    InsertionDone(xs, run, mover);
    ShownPlanOk(xs, run[|mover|].tree, data, paths, pl);
    forall sums: seq<Cofm.State>, steps: seq<nat> |
      Cofm.IsRun(pl, sums, steps) && Cofm.Shaped(pl, sums[|steps|]) && Cofm.Finished(pl, sums[|steps|])
      ensures OnceEach(data, pl, sums[|steps|], root, t, nproc)
    {
      SummedTreePartitions(pl, sums, steps, root, t, nproc);
      TreeHoldsData(xs, run[|mover|].tree, data, paths, pl, sums[|steps|], root);
    }
  }
}
