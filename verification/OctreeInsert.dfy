/** Concurrent octree insertion (loadtree and SubdivideLeaf in
    papps/splash2/codes/apps/barnes/load.C).  A path that is not in the tree is a NULL slot.
    What a processor does while it holds the lock of the parent cell is one step; its unlocked
    reads of the slot are separate steps. */
module OctreeInsert {
  import opened OctreePaths
  import opened Sequences

  const MAX_BODIES_PER_LEAF: nat := 10

  datatype Node = Cell | Leaf(bodies: seq<nat>)

  type Tree = map<Path, Node>

  predicate IsCell(t: Tree, q: Path) { q in t && t[q].Cell? }
  predicate IsLeaf(t: Tree, q: Path) { q in t && t[q].Leaf? }

  /** Where loadtree is in its descent: at the top of the loop, about to lock an empty slot,
      between the two tests, about to lock a leaf, about to move down. */
  datatype Stage = Top | LockEmpty | Between | LockLeaf | Down

  /** A processor: the bodies it has to insert, the first one in hand, at a cell of depth k. */
  datatype Proc = Proc(todo: seq<nat>, k: nat, stage: Stage)

  datatype State = State(tree: Tree, procs: seq<Proc>)

  // ---------------------------------------------------------------- SubdivideLeaf

  /** Put body b into the leaf in slot q, making the leaf if there is none. */
  function AddTo(t: Tree, q: Path, b: nat): Tree {
    if IsLeaf(t, q) then t[q := Leaf(t[q].bodies + [b])] else t[q := Leaf([b])]
  }

  /** The loop of SubdivideLeaf: spread the bodies over the slots of the new cell at q. */
  function Spread(xs: seq<Coord>, t: Tree, q: Path, bodies: seq<nat>): Tree
    requires forall i :: 0 <= i < |bodies| ==> bodies[i] < |xs|
  {
    if bodies == [] then t
    else
      var b := bodies[|bodies| - 1];
      AddTo(Spread(xs, t, q, bodies[..|bodies| - 1]), q + [SlotAt(xs[b], |q|)], b)
  }

  /** The leaf at q becomes a cell and its bodies go one level down. */
  function Subdivide(xs: seq<Coord>, t: Tree, q: Path): Tree
    requires IsLeaf(t, q) && forall i :: 0 <= i < |t[q].bodies| ==> t[q].bodies[i] < |xs|
  {
    Spread(xs, t[q := Cell], q, t[q].bodies)
  }

  // ---------------------------------------------------------------- the steps of loadtree

  predicate Busy(s: State, p: nat) {
    p < |s.procs| && s.procs[p].todo != []
  }

  /** The body in hand, and the slot it is looking at. */
  function InHand(s: State, p: nat): nat
    requires Busy(s, p)
  {
    s.procs[p].todo[0]
  }

  function SlotOf(xs: seq<Coord>, s: State, p: nat): Path
    requires Busy(s, p) && InHand(s, p) < |xs|
  {
    Way(xs[InHand(s, p)], s.procs[p].k + 1)
  }

  function To(s: State, p: nat, stage: Stage): State
    requires Busy(s, p)
  {
    s.(procs := s.procs[p := s.procs[p].(stage := stage)])
  }

  /** The body is in the tree: on to the next one, from the root. */
  function Inserted(s: State, p: nat, t: Tree): State
    requires Busy(s, p)
  {
    State(t, s.procs[p := Proc(s.procs[p].todo[1..], 0, Top)])
  }

  predicate IdsOk(xs: seq<Coord>, t: Tree) {
    forall q :: q in t && t[q].Leaf? ==> forall i :: 0 <= i < |t[q].bodies| ==> t[q].bodies[i] < |xs|
  }

  /** One step of processor p. */
  function Step(xs: seq<Coord>, s: State, p: nat): State
    requires Busy(s, p) && InHand(s, p) < |xs| && IdsOk(xs, s.tree)
  {
    var b := InHand(s, p);
    var q := SlotOf(xs, s, p);
    match s.procs[p].stage
    case Top => To(s, p, if q in s.tree then Between else LockEmpty)
    case LockEmpty =>
      if q in s.tree then To(s, p, Between) else Inserted(s, p, s.tree[q := Leaf([b])])
    case Between => To(s, p, if IsLeaf(s.tree, q) then LockLeaf else Down)
    case LockLeaf =>
      if !IsLeaf(s.tree, q) then To(s, p, Down)
      else if |s.tree[q].bodies| == MAX_BODIES_PER_LEAF then
        To(s, p, Down).(tree := Subdivide(xs, s.tree, q))
      else Inserted(s, p, AddTo(s.tree, q, b))
    case Down => s.(procs := s.procs[p := s.procs[p].(k := s.procs[p].k + 1, stage := Top)])
  }

  // ---------------------------------------------------------------- invariant

  /** A leaf holds one to MAX_BODIES_PER_LEAF different bodies, all of which belong there. */
  ghost predicate LeafOk(xs: seq<Coord>, q: Path, bodies: seq<nat>) {
    && 1 <= |bodies| <= MAX_BODIES_PER_LEAF && Distinct(bodies)
    && forall i :: 0 <= i < |bodies| ==> bodies[i] < |xs| && Below(xs[bodies[i]], q)
  }

  ghost predicate TreeOk(xs: seq<Coord>, t: Tree) {
    && IsCell(t, [])
    && (forall q :: q in t && q != [] ==> IsCell(t, q[..|q| - 1]))
    && (forall q :: IsLeaf(t, q) ==> LeafOk(xs, q, t[q].bodies))
  }

  ghost predicate Holds(t: Tree, q: Path, b: nat) {
    IsLeaf(t, q) && b in t[q].bodies
  }

  /** Body b is in some leaf. */
  ghost predicate Placed(t: Tree, b: nat) {
    exists q :: Holds(t, q, b)
  }

  lemma {:induction false} AncestorsAreCells(xs: seq<Coord>, t: Tree, q: Path, i: nat)
    requires TreeOk(xs, t) && q in t && i < |q|
    ensures IsCell(t, q[..i])
    decreases |q| - i
  {
    if i < |q| - 1 {
      AncestorsAreCells(xs, t, q, i + 1);
      assert q[..i + 1][..i] == q[..i];
    }
  }

  /** Two leaves on the way to one place are the same leaf. */
  lemma {:induction false} OneLeafOnTheWay(xs: seq<Coord>, t: Tree, c: Coord, q: Path, r: Path)
    requires TreeOk(xs, t) && IsLeaf(t, q) && IsLeaf(t, r) && Below(c, q) && Below(c, r)
    ensures q == r
  {
    if |q| < |r| {
      AncestorsAreCells(xs, t, r, |q|);
      WayPrefix(c, |q|, |r|);
    } else if |r| < |q| {
      AncestorsAreCells(xs, t, q, |r|);
      WayPrefix(c, |r|, |q|);
    }
  }

  /** Each body is in at most one leaf, and there once. */
  lemma {:induction false} InOneLeaf(xs: seq<Coord>, t: Tree, b: nat, q: Path, r: Path)
    requires TreeOk(xs, t) && Holds(t, q, b) && Holds(t, r, b)
    ensures q == r
  {
    var i :| 0 <= i < |t[q].bodies| && t[q].bodies[i] == b;
    var j :| 0 <= j < |t[r].bodies| && t[r].bodies[j] == b;
    assert LeafOk(xs, q, t[q].bodies) && LeafOk(xs, r, t[r].bodies);
    OneLeafOnTheWay(xs, t, xs[b], q, r);
  }

  /** The bodies whose way leads through q. */
  ghost function Crowd(xs: seq<Coord>, q: Path): set<nat> {
    set b | 0 <= b < |xs| && Below(xs[b], q)
  }

  ghost predicate ProcOk(xs: seq<Coord>, s: State, p: nat)
    requires p < |s.procs|
  {
    var pr := s.procs[p];
    && Distinct(pr.todo)
    && (forall i :: 0 <= i < |pr.todo| ==> pr.todo[i] < |xs| && !Placed(s.tree, pr.todo[i]))
    && (pr.todo != [] ==>
          var c := xs[pr.todo[0]];
          && IsCell(s.tree, Way(c, pr.k))
          && (pr.stage.Between? || pr.stage.LockLeaf? ==> Way(c, pr.k + 1) in s.tree)
          && (pr.stage.Down? ==> IsCell(s.tree, Way(c, pr.k + 1))))
  }

  ghost predicate Disjoint(a: seq<nat>, b: seq<nat>) {
    forall i :: 0 <= i < |a| ==> a[i] !in b
  }

  ghost predicate Inv(xs: seq<Coord>, s: State) {
    && TreeOk(xs, s.tree)
    && (forall p :: 0 <= p < |s.procs| ==> ProcOk(xs, s, p))
    && (forall p, r :: 0 <= p < |s.procs| && 0 <= r < |s.procs| && p != r ==>
          Disjoint(s.procs[p].todo, s.procs[r].todo))
    // a cell below the root has more bodies on the way through it than fit into a leaf
    && (forall q :: q != [] && IsCell(s.tree, q) ==> |Crowd(xs, q)| > MAX_BODIES_PER_LEAF)
  }

  // ---------------------------------------------------------------- what AddTo and Spread do

  /** How far a slot has come: NULL, leaf, cell. */
  function Rank(t: Tree, q: Path): nat {
    if q !in t then 0 else if t[q].Leaf? then 1 else 2
  }

  lemma {:induction false} AddToEffect(t: Tree, q: Path, b: nat)
    requires !IsCell(t, q)
    ensures var t' := AddTo(t, q, b);
            && IsLeaf(t', q)
            && t'[q].bodies == (if q in t then t[q].bodies else []) + [b]
            && (forall r :: r in t && r != q ==> r in t' && t'[r] == t[r])
            && (forall r :: r in t' && r != q ==> r in t)
            && Holds(t', q, b)
  {
    var t' := AddTo(t, q, b);
    assert t'[q].bodies[|t'[q].bodies| - 1] == b;
  }

  /** A leaf that spreading has made below q. */
  ghost predicate NewLeaf(xs: seq<Coord>, q: Path, r: Path, held: seq<nat>, bodies: seq<nat>) {
    && |r| == |q| + 1 && r[..|q|] == q
    && 1 <= |held| <= |bodies| && Distinct(held)
    && forall i :: 0 <= i < |held| ==>
         held[i] in bodies && held[i] < |xs| && SlotAt(xs[held[i]], |q|) == r[|q|]
  }

  /** Body b has been put into its slot below q. */
  ghost predicate InSlot(xs: seq<Coord>, t: Tree, q: Path, b: nat) {
    b < |xs| && Holds(t, q + [SlotAt(xs[b], |q|)], b)
  }

  /** What spreading the bodies over the empty slots of q has done. */
  ghost predicate SpreadOk(xs: seq<Coord>, t: Tree, t': Tree, q: Path, bodies: seq<nat>) {
    && (forall r :: r in t ==> r in t' && t'[r] == t[r])
    && (forall r :: r in t' && r !in t ==> IsLeaf(t', r) && NewLeaf(xs, q, r, t'[r].bodies, bodies))
    && (forall i :: 0 <= i < |bodies| ==> InSlot(xs, t', q, bodies[i]))
  }

  lemma {:induction false} NewLeafGrows(xs: seq<Coord>, q: Path, r: Path, held: seq<nat>, bodies: seq<nat>, b: nat)
    requires NewLeaf(xs, q, r, held, bodies) && b < |xs| && b !in bodies
    ensures NewLeaf(xs, q, r, held, bodies + [b])
    ensures SlotAt(xs[b], |q|) == r[|q|] ==> NewLeaf(xs, q, r, held + [b], bodies + [b])
  {
    forall i | 0 <= i < |held| ensures held[i] in bodies + [b] && held[i] != b {
      assert held[i] in bodies;
    }
    assert (bodies + [b])[|bodies|] == b;
  }

  /** The leaves that have been made below q after one more body went to its slot. */
  lemma {:induction false} SpreadLeaf(xs: seq<Coord>, t: Tree, t': Tree, q: Path, bodies: seq<nat>, b: nat, r: Path)
    requires SpreadOk(xs, t, t', q, bodies) && b < |xs| && b !in bodies
    requires var slot := q + [SlotAt(xs[b], |q|)];
             slot !in t && !IsCell(t', slot) && r in AddTo(t', slot, b) && r !in t
    ensures var t'' := AddTo(t', q + [SlotAt(xs[b], |q|)], b);
            IsLeaf(t'', r) && NewLeaf(xs, q, r, t''[r].bodies, bodies + [b])
  {
    var slot := q + [SlotAt(xs[b], |q|)];
    AddToEffect(t', slot, b);
    if r in t' {
      NewLeafGrows(xs, q, r, t'[r].bodies, bodies, b);
    } else {
      assert slot[..|q|] == q;
      assert (bodies + [b])[|bodies|] == b;
    }
  }

  lemma {:induction false} SpreadStep(xs: seq<Coord>, t: Tree, t': Tree, q: Path, bodies: seq<nat>, b: nat)
    requires SpreadOk(xs, t, t', q, bodies) && b < |xs| && b !in bodies
    requires forall r :: r in t && |r| == |q| + 1 ==> r[..|q|] != q
    ensures SpreadOk(xs, t, AddTo(t', q + [SlotAt(xs[b], |q|)], b), q, bodies + [b])
  {
    var slot := q + [SlotAt(xs[b], |q|)];
    assert slot[..|q|] == q && slot !in t;
    assert slot in t' ==> IsLeaf(t', slot);
    AddToEffect(t', slot, b);
    var t'' := AddTo(t', slot, b);
    forall r | r in t'' && r !in t ensures IsLeaf(t'', r) && NewLeaf(xs, q, r, t''[r].bodies, bodies + [b]) {
      SpreadLeaf(xs, t, t', q, bodies, b, r);
    }
    forall i | 0 <= i < |bodies + [b]| ensures InSlot(xs, t'', q, (bodies + [b])[i]) {
      if i < |bodies| { StillInSlot(xs, t', slot, b, q, bodies[i]); }
    }
  }

  lemma {:induction false} StillInSlot(xs: seq<Coord>, t: Tree, slot: Path, b: nat, q: Path, c: nat)
    requires InSlot(xs, t, q, c) && !IsCell(t, slot)
    ensures InSlot(xs, AddTo(t, slot, b), q, c)
  {
    AddToEffect(t, slot, b);
  }

  lemma {:induction false} SpreadEffect(xs: seq<Coord>, t: Tree, q: Path, bodies: seq<nat>)
    requires Distinct(bodies) && forall i :: 0 <= i < |bodies| ==> bodies[i] < |xs|
    requires forall r :: r in t && |r| == |q| + 1 ==> r[..|q|] != q
    ensures SpreadOk(xs, t, Spread(xs, t, q, bodies), q, bodies)
  {
    if bodies != [] {
      var init, b := bodies[..|bodies| - 1], bodies[|bodies| - 1];
      SpreadEffect(xs, t, q, init);
      SpreadStep(xs, t, Spread(xs, t, q, init), q, init, b);
      assert init + [b] == bodies;
    }
  }

  /** A leaf has nothing below it. */
  lemma {:induction false} NothingBelowLeaf(xs: seq<Coord>, t: Tree, q: Path, r: Path)
    requires TreeOk(xs, t) && IsLeaf(t, q) && r in t && |r| == |q| + 1
    ensures r[..|q|] != q
  {
    assert IsCell(t, r[..|r| - 1]);
  }

  /** SubdivideLeaf keeps the tree in order and every body in it. */
  lemma {:induction false} SubdivideKeeps(xs: seq<Coord>, t: Tree, q: Path)
    requires TreeOk(xs, t) && IsLeaf(t, q)
    ensures LeafOk(xs, q, t[q].bodies)
    ensures var t' := Subdivide(xs, t, q);
            && TreeOk(xs, t') && IsCell(t', q)
            && (forall r :: Rank(t, r) <= Rank(t', r))
            && (forall r :: IsCell(t', r) && r != q ==> IsCell(t, r))
            && (forall b: nat :: Placed(t', b) <==> Placed(t, b))
  {
    assert LeafOk(xs, q, t[q].bodies);
    var bs := t[q].bodies;
    var mid := t[q := Cell];
    forall r | r in mid && |r| == |q| + 1 ensures r[..|q|] != q { NothingBelowLeaf(xs, t, q, r); }
    SpreadEffect(xs, mid, q, bs);
    var t' := Subdivide(xs, t, q);
    SubdivideTreeOk(xs, t, q, t');
    forall b: nat ensures Placed(t', b) <==> Placed(t, b) { SubdividePlaced(xs, t, q, t', b); }
  }

  lemma {:induction false} SubdividePlaced(xs: seq<Coord>, t: Tree, q: Path, t': Tree, b: nat)
    requires IsLeaf(t, q) && SpreadOk(xs, t[q := Cell], t', q, t[q].bodies)
    ensures Placed(t', b) <==> Placed(t, b)
  {
    var bs, mid := t[q].bodies, t[q := Cell];
    if Placed(t, b) {
      var r :| Holds(t, r, b);
      if r == q {
        var i :| 0 <= i < |bs| && bs[i] == b;
        assert InSlot(xs, t', q, bs[i]);
      } else {
        assert Holds(t', r, b);
      }
    }
    if Placed(t', b) {
      var r :| Holds(t', r, b);
      if r in mid {
        assert Holds(t, r, b);
      } else {
        var i :| 0 <= i < |t'[r].bodies| && t'[r].bodies[i] == b;
        assert Holds(t, q, b);
      }
    }
  }

  lemma {:induction false} SubdivideLeafOk(xs: seq<Coord>, t: Tree, q: Path, t': Tree, r: Path)
    requires TreeOk(xs, t) && IsLeaf(t, q) && SpreadOk(xs, t[q := Cell], t', q, t[q].bodies) && IsLeaf(t', r)
    ensures LeafOk(xs, r, t'[r].bodies)
  {
    var bs, mid := t[q].bodies, t[q := Cell];
    assert LeafOk(xs, q, bs);
    if r in mid {
      assert IsLeaf(t, r);
    } else {
      forall i | 0 <= i < |t'[r].bodies| ensures Below(xs[t'[r].bodies[i]], r) {
        var b := t'[r].bodies[i];
        var j :| 0 <= j < |bs| && bs[j] == b;
        assert Below(xs[bs[j]], q);
        assert r == q + [r[|q|]];
        WayStep(xs[b], q, r[|q|]);
      }
    }
  }

  lemma {:induction false} SubdivideTreeOk(xs: seq<Coord>, t: Tree, q: Path, t': Tree)
    requires TreeOk(xs, t) && IsLeaf(t, q) && SpreadOk(xs, t[q := Cell], t', q, t[q].bodies)
    ensures TreeOk(xs, t') && IsCell(t', q)
    ensures forall r :: Rank(t, r) <= Rank(t', r)
    ensures forall r :: IsCell(t', r) && r != q ==> IsCell(t, r)
  {
    var mid := t[q := Cell];
    assert q in mid && mid[q].Cell? && IsCell(t', q);
    assert [] in mid && IsCell(t', []);
    forall r | r in t' && r != [] ensures IsCell(t', r[..|r| - 1]) {
      if r in mid {
        assert r in t && IsCell(t, r[..|r| - 1]);
        assert r[..|r| - 1] in mid;
      }
    }
    forall r | IsLeaf(t', r) ensures LeafOk(xs, r, t'[r].bodies) { SubdivideLeafOk(xs, t, q, t', r); }
    forall r ensures Rank(t, r) <= Rank(t', r) {
      if r in t { assert r in mid; }
    }
  }

  lemma {:induction false} WayStep(c: Coord, q: Path, j: nat)
    requires Below(c, q) && j == SlotAt(c, |q|)
    ensures Below(c, q + [j])
  {
    assert Way(c, |q| + 1) == q + [j];
  }
}
