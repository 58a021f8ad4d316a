/** hackcofm run by all processors at once (papps/splash2/codes/apps/barnes/load.C).  Each
    processor sums its leaves, then its cells in reverse order of creation; a cell waits for
    the done flag of each child and clears it.  The run never deadlocks, and at the end each
    node holds the mass, the cost and the centre of mass of the bodies below it. */
module BarnesCofm {
  import opened Options
  import opened BarnesTables
  import opened Forest
  import opened Vectors

  datatype Body = Body(id: nat, mass: real, cost: nat, pos: Vec)

  /** Mass, Cost and Pos of a node. */
  datatype Value = Value(mass: real, cost: nat, pos: Vec)

  /** The quantities that are summed: mass, cost and the mass-weighted position. */
  datatype Coord = Mass | Cost | MomentX | MomentY | MomentZ

  function BodyWeight(b: Body, q: Coord): real {
    match q
    case Mass => b.mass
    case Cost => b.cost as real
    case MomentX => b.pos.x * b.mass
    case MomentY => b.pos.y * b.mass
    case MomentZ => b.pos.z * b.mass
  }

  function BodiesSum(s: seq<Body>, q: Coord): real {
    if s == [] then 0.0 else BodiesSum(s[..|s| - 1], q) + BodyWeight(s[|s| - 1], q)
  }

  /** A node: a leaf with its bodies or a cell with its slots; where it hangs; who sums it. */
  datatype Info = Info(
    leaf: bool, bodies: seq<Body>, subp: seq<Option<nat>>,
    parent: Option<nat>, slot: nat, proc: nat, place: nat)

  /** Cells come first in `nodes`, in order of creation. */
  datatype Plan = Plan(nodes: seq<Info>, order: seq<seq<nat>>)

  predicate ChildOf(pl: Plan, c: nat, b: nat) {
    c < |pl.nodes| && pl.nodes[c].parent == Some(b)
  }

  predicate NodeOk(pl: Plan, b: nat)
    requires b < |pl.nodes|
  {
    var n := pl.nodes[b];
    // a child hangs in the slot that names it, below a cell created before it
    && (n.parent.Some? ==>
          && n.parent.value < b && !pl.nodes[n.parent.value].leaf
          && n.slot < NSUB && |pl.nodes[n.parent.value].subp| == NSUB
          && pl.nodes[n.parent.value].subp[n.slot] == Some(b))
    // a leaf has bodies, a cell has children
    && (n.leaf ==> n.bodies != [] && forall i :: 0 <= i < |n.bodies| ==> n.bodies[i].mass > 0.0)
    && (!n.leaf ==>
          && |n.subp| == NSUB
          && (exists k :: 0 <= k < NSUB && n.subp[k].Some?)
          && (forall k :: 0 <= k < NSUB && n.subp[k].Some? ==>
                n.subp[k].value < |pl.nodes|
                && pl.nodes[n.subp[k].value].parent == Some(b) && pl.nodes[n.subp[k].value].slot == k))
  }

  /** a is summed before b: leaves first, then cells created later before cells created earlier. */
  predicate Sooner(pl: Plan, a: nat, b: nat)
    requires a < |pl.nodes| && b < |pl.nodes|
  {
    pl.nodes[a].leaf || (!pl.nodes[b].leaf && b < a)
  }

  /** Any split of the nodes among the processors, each list in hackcofm's order. */
  predicate SplitOk(pl: Plan) {
    && (forall b :: 0 <= b < |pl.nodes| ==>
          && pl.nodes[b].proc < |pl.order|
          && pl.nodes[b].place < |pl.order[pl.nodes[b].proc]|
          && pl.order[pl.nodes[b].proc][pl.nodes[b].place] == b)
    && (forall p, i :: 0 <= p < |pl.order| && 0 <= i < |pl.order[p]| ==>
          && pl.order[p][i] < |pl.nodes|
          && pl.nodes[pl.order[p][i]].proc == p
          && pl.nodes[pl.order[p][i]].place == i)
    && (forall p, i, j :: 0 <= p < |pl.order| && 0 <= i < j < |pl.order[p]| ==>
          Sooner(pl, pl.order[p][i], pl.order[p][j]))
  }

  ghost predicate PlanOk(pl: Plan) {
    SplitOk(pl) && forall b :: 0 <= b < |pl.nodes| ==> NodeOk(pl, b)
  }

  /** The sum over all bodies below node b. */
  ghost function SubSum(pl: Plan, b: nat, q: Coord): real
    requires PlanOk(pl) && b < |pl.nodes|
    decreases |pl.nodes| - b, |pl.nodes| + 1
  {
    if pl.nodes[b].leaf then BodiesSum(pl.nodes[b].bodies, q) else KidSum(pl, b, |pl.nodes|, q)
  }

  /** That sum over the children of b among the first k nodes. */
  ghost function KidSum(pl: Plan, b: nat, k: nat, q: Coord): real
    requires PlanOk(pl) && b < |pl.nodes| && k <= |pl.nodes|
    decreases |pl.nodes| - b, k
  {
    if k == 0 then 0.0
    else
      KidSum(pl, b, k - 1, q)
      + if ChildOf(pl, k - 1, b) then assert NodeOk(pl, k - 1); SubSum(pl, k - 1, q) else 0.0
  }

  lemma {:induction false} BodiesWeigh(s: seq<Body>)
    requires forall i :: 0 <= i < |s| ==> s[i].mass > 0.0
    ensures BodiesSum(s, Mass) >= 0.0 && (s != [] ==> BodiesSum(s, Mass) > 0.0)
  {
    if s != [] { BodiesWeigh(s[..|s| - 1]); }
  }

  lemma {:induction false} NodesWeigh(pl: Plan, b: nat)
    requires PlanOk(pl) && b < |pl.nodes|
    ensures SubSum(pl, b, Mass) > 0.0
    decreases |pl.nodes| - b, |pl.nodes| + 1
  {
    assert NodeOk(pl, b);
    if pl.nodes[b].leaf {
      BodiesWeigh(pl.nodes[b].bodies);
    } else {
      var k :| 0 <= k < NSUB && pl.nodes[b].subp[k].Some?;
      var c := pl.nodes[b].subp[k].value;
      assert ChildOf(pl, c, b) && NodeOk(pl, c);
      NodesWeigh(pl, c);
      KidsWeigh(pl, b, |pl.nodes|, c);
    }
  }

  lemma {:induction false} KidsWeigh(pl: Plan, b: nat, k: nat, c: nat)
    requires PlanOk(pl) && b < |pl.nodes| && k <= |pl.nodes| && ChildOf(pl, c, b)
    ensures KidSum(pl, b, k, Mass) >= 0.0 && (c < k ==> KidSum(pl, b, k, Mass) > 0.0)
    decreases |pl.nodes| - b, k
  {
    if k > 0 {
      KidsWeigh(pl, b, k - 1, c);
      if ChildOf(pl, k - 1, b) {
        assert NodeOk(pl, k - 1);
        NodesWeigh(pl, k - 1);
      }
    }
  }

  // ---------------------------------------------------------------- the run

  /** pos: the place each processor has reached on its list.  stage: 0 before it has begun its
      node, j + 1 after j slots of a cell. */
  datatype State = State(val: seq<Value>, done: seq<bool>, pos: seq<nat>, stage: seq<nat>)

  predicate Shaped(pl: Plan, s: State) {
    && |s.val| == |s.done| == |pl.nodes|
    && |s.pos| == |s.stage| == |pl.order|
    && forall p :: 0 <= p < |pl.order| ==>
         s.pos[p] <= |pl.order[p]| && s.stage[p] <= NSUB + 1 && (s.pos[p] == |pl.order[p]| ==> s.stage[p] == 0)
  }

  predicate HasNode(pl: Plan, s: State, p: nat)
    requires Shaped(pl, s)
  {
    p < |pl.order| && s.pos[p] < |pl.order[p]|
  }

  function Current(pl: Plan, s: State, p: nat): (b: nat)
    requires SplitOk(pl) && Shaped(pl, s) && HasNode(pl, s, p)
    ensures b < |pl.nodes|
  {
    pl.order[p][s.pos[p]]
  }

  function BodyValue(b: Body): Value { Value(b.mass, b.cost, b.pos) }

  /** The accumulating loop body of hackcofm, for a body of a leaf or a child of a cell. */
  function Absorb(v: Value, r: Value): Value {
    Value(v.mass + r.mass, v.cost + r.cost, AddV(v.pos, MulVS(r.pos, r.mass)))
  }

  function LeafRaw(bodies: seq<Body>): Value {
    if bodies == [] then Value(0.0, 0, ORIGIN)
    else Absorb(LeafRaw(bodies[..|bodies| - 1]), BodyValue(bodies[|bodies| - 1]))
  }

  /** The final division of Pos by Mass. */
  function Centred(v: Value): Value {
    if v.mass == 0.0 then v else v.(pos := DivVS(v.pos, v.mass))
  }

  /** The child processor p waits for, if its next slot is not NULL. */
  function Awaited(pl: Plan, s: State, p: nat): Option<nat>
    requires SplitOk(pl) && Shaped(pl, s) && HasNode(pl, s, p)
  {
    var n := pl.nodes[Current(pl, s, p)];
    if n.leaf || s.stage[p] == 0 || s.stage[p] == NSUB + 1 || |n.subp| != NSUB then None
    else n.subp[s.stage[p] - 1]
  }

  /** Processor p can move unless it waits for a child that is not done. */
  predicate CanMove(pl: Plan, s: State, p: nat)
    requires SplitOk(pl) && Shaped(pl, s)
  {
    && HasNode(pl, s, p)
    && var r := Awaited(pl, s, p);
       r.Some? ==> r.value < |pl.nodes| && s.done[r.value]
  }

  function Move(pl: Plan, s: State, p: nat): State
    requires SplitOk(pl) && Shaped(pl, s) && CanMove(pl, s, p)
  {
    var b := Current(pl, s, p);
    var n := pl.nodes[b];
    if n.leaf then
      State(s.val[b := Centred(LeafRaw(n.bodies))], s.done[b := true], s.pos[p := s.pos[p] + 1], s.stage[p := 0])
    else if s.stage[p] == 0 then
      s.(val := s.val[b := Value(0.0, 0, ORIGIN)], stage := s.stage[p := 1])
    else if s.stage[p] == NSUB + 1 then
      State(s.val[b := Centred(s.val[b])], s.done[b := true], s.pos[p := s.pos[p] + 1], s.stage[p := 0])
    else
      match Awaited(pl, s, p)
      case None => s.(stage := s.stage[p := s.stage[p] + 1])
      case Some(r) =>
        s.(val := s.val[b := Absorb(s.val[b], s.val[r])],
           done := s.done[r := false],
           stage := s.stage[p := s.stage[p] + 1])
  }

  /** After maketree: every done flag is FALSE; masses and positions are arbitrary. */
  predicate Initial(pl: Plan, s: State) {
    && Shaped(pl, s)
    && (forall b :: 0 <= b < |pl.nodes| ==> !s.done[b])
    && (forall p :: 0 <= p < |pl.order| ==> s.pos[p] == 0 && s.stage[p] == 0)
  }

  // ---------------------------------------------------------------- invariant

  predicate Summed(pl: Plan, s: State, b: nat)
    requires SplitOk(pl) && Shaped(pl, s) && b < |pl.nodes|
  {
    pl.nodes[b].place < s.pos[pl.nodes[b].proc]
  }

  /** How many slots of cell b have been absorbed (NSUB once it is summed). */
  function SlotsDone(pl: Plan, s: State, b: nat): nat
    requires SplitOk(pl) && Shaped(pl, s) && b < |pl.nodes|
  {
    var p := pl.nodes[b].proc;
    if pl.nodes[b].place < s.pos[p] then NSUB
    else if pl.nodes[b].place == s.pos[p] && s.stage[p] > 0 then s.stage[p] - 1
    else 0
  }

  /** Node r has been absorbed by its parent. */
  predicate Taken(pl: Plan, s: State, r: nat)
    requires SplitOk(pl) && Shaped(pl, s) && r < |pl.nodes|
  {
    var up := pl.nodes[r].parent;
    up.Some? && up.value < |pl.nodes| && pl.nodes[r].slot < SlotsDone(pl, s, up.value)
  }

  /** What b has absorbed from its children among the first k nodes. */
  ghost function TakenSum(pl: Plan, s: State, b: nat, k: nat, q: Coord): real
    requires PlanOk(pl) && Shaped(pl, s) && k <= |pl.nodes|
  {
    if k == 0 then 0.0
    else
      TakenSum(pl, s, b, k - 1, q)
      + if ChildOf(pl, k - 1, b) && Taken(pl, s, k - 1) then SubSum(pl, k - 1, q) else 0.0
  }

  /** What a node under construction has accumulated: Pos is not divided yet. */
  function RawAt(v: Value, q: Coord): real {
    match q
    case Mass => v.mass
    case Cost => v.cost as real
    case MomentX => v.pos.x
    case MomentY => v.pos.y
    case MomentZ => v.pos.z
  }

  /** What a finished node stands for: its Pos counts with its Mass. */
  function HeldAt(v: Value, q: Coord): real {
    match q
    case Mass => v.mass
    case Cost => v.cost as real
    case MomentX => v.pos.x * v.mass
    case MomentY => v.pos.y * v.mass
    case MomentZ => v.pos.z * v.mass
  }

  ghost predicate NodeInv(pl: Plan, s: State, b: nat)
    requires PlanOk(pl) && Shaped(pl, s) && b < |pl.nodes|
  {
    var p := pl.nodes[b].proc;
    && (Summed(pl, s, b) ==> forall q :: HeldAt(s.val[b], q) == SubSum(pl, b, q))
    && (!pl.nodes[b].leaf && pl.nodes[b].place == s.pos[p] && s.stage[p] > 0 ==>
          forall q :: RawAt(s.val[b], q) == TakenSum(pl, s, b, |pl.nodes|, q))
    && (pl.nodes[b].leaf && pl.nodes[b].place == s.pos[p] ==> s.stage[p] == 0)
    && (Taken(pl, s, b) ==> Summed(pl, s, b))
    && s.done[b] == (Summed(pl, s, b) && !Taken(pl, s, b))
  }

  ghost predicate Inv(pl: Plan, s: State)
    requires PlanOk(pl)
  {
    Shaped(pl, s) && forall b :: 0 <= b < |pl.nodes| ==> NodeInv(pl, s, b)
  }

  lemma {:induction false} CentredHolds(v: Value, q: Coord)
    requires v.mass > 0.0
    ensures HeldAt(Centred(v), q) == RawAt(v, q)
  {
    assert (v.pos.x / v.mass) * v.mass == v.pos.x;
    assert (v.pos.y / v.mass) * v.mass == v.pos.y;
    assert (v.pos.z / v.mass) * v.mass == v.pos.z;
  }

  lemma {:induction false} AbsorbAdds(v: Value, r: Value, q: Coord)
    ensures RawAt(Absorb(v, r), q) == RawAt(v, q) + HeldAt(r, q)
  {
  }

  lemma {:induction false} LeafRawIsSum(bodies: seq<Body>, q: Coord)
    ensures RawAt(LeafRaw(bodies), q) == BodiesSum(bodies, q)
  {
    if bodies == [] {
      assert RawAt(LeafRaw(bodies), q) == 0.0;
    } else {
      var init, b := bodies[..|bodies| - 1], bodies[|bodies| - 1];
      LeafRawIsSum(init, q);
      AbsorbAdds(LeafRaw(init), BodyValue(b), q);
    }
  }

  lemma {:induction false} TakenSame(pl: Plan, s: State, s': State, b: nat, k: nat, q: Coord)
    requires PlanOk(pl) && Shaped(pl, s) && Shaped(pl, s') && k <= |pl.nodes|
    requires forall c :: 0 <= c < k && ChildOf(pl, c, b) ==> Taken(pl, s, c) == Taken(pl, s', c)
    ensures TakenSum(pl, s, b, k, q) == TakenSum(pl, s', b, k, q)
  {
    if k > 0 { TakenSame(pl, s, s', b, k - 1, q); }
  }

  lemma {:induction false} TakenAdd(pl: Plan, s: State, s': State, b: nat, k: nat, r: nat, q: Coord)
    requires PlanOk(pl) && Shaped(pl, s) && Shaped(pl, s') && r < k <= |pl.nodes| && ChildOf(pl, r, b)
    requires !Taken(pl, s, r) && Taken(pl, s', r)
    requires forall c :: 0 <= c < k && c != r && ChildOf(pl, c, b) ==> Taken(pl, s, c) == Taken(pl, s', c)
    ensures TakenSum(pl, s', b, k, q) == TakenSum(pl, s, b, k, q) + SubSum(pl, r, q)
  {
    if r == k - 1 {
      TakenSame(pl, s, s', b, k - 1, q);
    } else {
      TakenAdd(pl, s, s', b, k - 1, r, q);
    }
  }

  lemma {:induction false} TakenNone(pl: Plan, s: State, b: nat, k: nat, q: Coord)
    requires PlanOk(pl) && Shaped(pl, s) && k <= |pl.nodes|
    requires forall c :: 0 <= c < k && ChildOf(pl, c, b) ==> !Taken(pl, s, c)
    ensures TakenSum(pl, s, b, k, q) == 0.0
  {
    if k > 0 { TakenNone(pl, s, b, k - 1, q); }
  }

  lemma {:induction false} TakenAll(pl: Plan, s: State, b: nat, k: nat, q: Coord)
    requires PlanOk(pl) && Shaped(pl, s) && b < |pl.nodes| && k <= |pl.nodes|
    requires forall c :: 0 <= c < k && ChildOf(pl, c, b) ==> Taken(pl, s, c)
    ensures TakenSum(pl, s, b, k, q) == KidSum(pl, b, k, q)
  {
    if k > 0 { TakenAll(pl, s, b, k - 1, q); }
  }

  lemma {:induction false} InitialInv(pl: Plan, s: State)
    requires PlanOk(pl) && Initial(pl, s)
    ensures Inv(pl, s)
  {
  }

  lemma {:induction false} MoveElsewhere(pl: Plan, s: State, p: nat, x: nat)
    requires PlanOk(pl) && Inv(pl, s) && CanMove(pl, s, p) && x < |pl.nodes| && x != Current(pl, s, p)
    ensures var s' := Move(pl, s, p);
            && Shaped(pl, s') && Summed(pl, s', x) == Summed(pl, s, x)
            && SlotsDone(pl, s', x) == SlotsDone(pl, s, x) && s'.val[x] == s.val[x]
  {
  }

  /** A move changes nothing for nodes other than the current one and the child it takes. */
  lemma {:induction false} MoveOthers(pl: Plan, s: State, p: nat, x: nat)
    requires PlanOk(pl) && Inv(pl, s) && CanMove(pl, s, p) && x < |pl.nodes| && x != Current(pl, s, p)
    ensures Shaped(pl, Move(pl, s, p)) && NodeInv(pl, Move(pl, s, p), x)
  {
    var s' := Move(pl, s, p);
    var b := Current(pl, s, p);
    assert NodeInv(pl, s, x) && NodeOk(pl, x) && NodeOk(pl, b);
    MoveElsewhere(pl, s, p, x);
    forall c | 0 <= c < |pl.nodes| && ChildOf(pl, c, x) ensures Taken(pl, s, c) == Taken(pl, s', c) {}
    forall q { TakenSame(pl, s, s', x, |pl.nodes|, q); }
  }

  lemma {:induction false} LeafMove(pl: Plan, s: State, p: nat)
    requires PlanOk(pl) && Inv(pl, s) && CanMove(pl, s, p) && pl.nodes[Current(pl, s, p)].leaf
    ensures Shaped(pl, Move(pl, s, p)) && NodeInv(pl, Move(pl, s, p), Current(pl, s, p))
  {
    var b := Current(pl, s, p);
    assert NodeInv(pl, s, b) && NodeOk(pl, b);
    NodesWeigh(pl, b);
    LeafRawIsSum(pl.nodes[b].bodies, Mass);
    forall q ensures HeldAt(Centred(LeafRaw(pl.nodes[b].bodies)), q) == SubSum(pl, b, q) {
      LeafRawIsSum(pl.nodes[b].bodies, q);
      CentredHolds(LeafRaw(pl.nodes[b].bodies), q);
    }
  }

  lemma {:induction false} BeginMove(pl: Plan, s: State, p: nat)
    requires PlanOk(pl) && Inv(pl, s) && CanMove(pl, s, p)
    requires !pl.nodes[Current(pl, s, p)].leaf && s.stage[p] == 0
    ensures Shaped(pl, Move(pl, s, p)) && NodeInv(pl, Move(pl, s, p), Current(pl, s, p))
  {
    var b := Current(pl, s, p);
    assert NodeInv(pl, s, b) && NodeOk(pl, b);
    forall q { TakenNone(pl, Move(pl, s, p), b, |pl.nodes|, q); }
  }

  lemma {:induction false} EndMove(pl: Plan, s: State, p: nat)
    requires PlanOk(pl) && Inv(pl, s) && CanMove(pl, s, p)
    requires !pl.nodes[Current(pl, s, p)].leaf && s.stage[p] == NSUB + 1
    ensures Shaped(pl, Move(pl, s, p)) && NodeInv(pl, Move(pl, s, p), Current(pl, s, p))
  {
    var b := Current(pl, s, p);
    assert NodeInv(pl, s, b) && NodeOk(pl, b);
    forall c | 0 <= c < |pl.nodes| && ChildOf(pl, c, b) ensures Taken(pl, s, c) { assert NodeOk(pl, c); }
    NodesWeigh(pl, b);
    TakenAll(pl, s, b, |pl.nodes|, Mass);
    assert RawAt(s.val[b], Mass) == SubSum(pl, b, Mass);
    forall q ensures HeldAt(Centred(s.val[b]), q) == SubSum(pl, b, q) {
      TakenAll(pl, s, b, |pl.nodes|, q);
      CentredHolds(s.val[b], q);
    }
  }

  /** A slot move takes no child but the awaited one. */
  lemma {:induction false} TakenStays(pl: Plan, s: State, p: nat, c: nat)
    requires PlanOk(pl) && Inv(pl, s) && CanMove(pl, s, p)
    requires !pl.nodes[Current(pl, s, p)].leaf && 0 < s.stage[p] <= NSUB
    requires c < |pl.nodes| && ChildOf(pl, c, Current(pl, s, p)) && Awaited(pl, s, p) != Some(c)
    ensures Shaped(pl, Move(pl, s, p)) && Taken(pl, s, c) == Taken(pl, Move(pl, s, p), c)
  {
    assert NodeOk(pl, c) && NodeOk(pl, Current(pl, s, p));
  }

  lemma {:induction false} EmptySlotMove(pl: Plan, s: State, p: nat)
    requires PlanOk(pl) && Inv(pl, s) && CanMove(pl, s, p)
    requires !pl.nodes[Current(pl, s, p)].leaf && 0 < s.stage[p] <= NSUB && Awaited(pl, s, p).None?
    ensures Shaped(pl, Move(pl, s, p)) && NodeInv(pl, Move(pl, s, p), Current(pl, s, p))
  {
    var b := Current(pl, s, p);
    var s' := Move(pl, s, p);
    var n := |pl.nodes|;
    assert NodeInv(pl, s, b) && NodeOk(pl, b);
    forall c | 0 <= c < n && ChildOf(pl, c, b) ensures Taken(pl, s, c) == Taken(pl, s', c) { TakenStays(pl, s, p, c); }
    forall q { TakenSame(pl, s, s', b, n, q); }
  }

  lemma {:induction false} SlotMove(pl: Plan, s: State, p: nat)
    requires PlanOk(pl) && Inv(pl, s) && CanMove(pl, s, p)
    requires !pl.nodes[Current(pl, s, p)].leaf && 0 < s.stage[p] <= NSUB && Awaited(pl, s, p).Some?
    ensures Shaped(pl, Move(pl, s, p)) && NodeInv(pl, Move(pl, s, p), Current(pl, s, p))
  {
    var b := Current(pl, s, p);
    var s' := Move(pl, s, p);
    var n, r := |pl.nodes|, Awaited(pl, s, p).value;
    assert NodeInv(pl, s, b) && NodeOk(pl, b);
    assert NodeInv(pl, s, r) && NodeOk(pl, r);
    forall c | 0 <= c < n && c != r && ChildOf(pl, c, b) ensures Taken(pl, s, c) == Taken(pl, s', c) {
      TakenStays(pl, s, p, c);
    }
    forall q ensures RawAt(s'.val[b], q) == TakenSum(pl, s', b, n, q) {
      TakenAdd(pl, s, s', b, n, r, q);
      AbsorbAdds(s.val[b], s.val[r], q);
    }
  }

  lemma {:induction false} MoveKeepsInv(pl: Plan, s: State, p: nat)
    requires PlanOk(pl) && Inv(pl, s) && CanMove(pl, s, p)
    ensures Inv(pl, Move(pl, s, p))
  {
    var s' := Move(pl, s, p);
    var b := Current(pl, s, p);
    forall x | 0 <= x < |pl.nodes| ensures Shaped(pl, s') && NodeInv(pl, s', x) {
      if x != b {
        MoveOthers(pl, s, p, x);
      } else if pl.nodes[b].leaf {
        LeafMove(pl, s, p);
      } else if s.stage[p] == 0 {
        BeginMove(pl, s, p);
      } else if s.stage[p] == NSUB + 1 {
        EndMove(pl, s, p);
      } else if Awaited(pl, s, p).None? {
        EmptySlotMove(pl, s, p);
      } else {
        SlotMove(pl, s, p);
      }
    }
    assert Shaped(pl, s');
  }

  // ---------------------------------------------------------------- whole runs

  /** A run: the states passed through, each step made by the processor named in `mover`. */
  ghost predicate IsRun(pl: Plan, run: seq<State>, mover: seq<nat>)
    requires PlanOk(pl)
  {
    && |run| == |mover| + 1 && Initial(pl, run[0])
    && forall i :: 0 <= i < |mover| ==>
         Shaped(pl, run[i]) && CanMove(pl, run[i], mover[i]) && run[i + 1] == Move(pl, run[i], mover[i])
  }

  lemma {:induction false} RunInv(pl: Plan, run: seq<State>, mover: seq<nat>, k: nat)
    requires PlanOk(pl) && IsRun(pl, run, mover) && k < |run|
    ensures Inv(pl, run[k])
    decreases k
  {
    if k == 0 {
      InitialInv(pl, run[0]);
    } else {
      RunInv(pl, run, mover, k - 1);
      MoveKeepsInv(pl, run[k - 1], mover[k - 1]);
      assert run[k - 1 + 1] == Move(pl, run[k - 1], mover[k - 1]);
    }
  }

  predicate Finished(pl: Plan, s: State)
    requires Shaped(pl, s)
  {
    forall p :: 0 <= p < |pl.order| ==> !HasNode(pl, s, p)
  }

  /** The last-created cell that is not summed. */
  lemma {:induction false} LastUnsummed(pl: Plan, s: State, k: nat) returns (b: nat)
    requires PlanOk(pl) && Shaped(pl, s) && k <= |pl.nodes|
    requires exists c :: 0 <= c < k && !Summed(pl, s, c)
    ensures b < k && !Summed(pl, s, b)
    ensures forall c :: b < c < k ==> Summed(pl, s, c)
  {
    if !Summed(pl, s, k - 1) {
      b := k - 1;
    } else {
      b := LastUnsummed(pl, s, k - 1);
    }
  }

  lemma {:induction false} LastCanMove(pl: Plan, s: State, b: nat)
    requires PlanOk(pl) && Inv(pl, s) && b < |pl.nodes| && !Summed(pl, s, b) && !pl.nodes[b].leaf
    requires forall c :: b < c < |pl.nodes| ==> Summed(pl, s, c)
    requires forall p :: 0 <= p < |pl.order| && HasNode(pl, s, p) ==> !pl.nodes[Current(pl, s, p)].leaf
    ensures CanMove(pl, s, pl.nodes[b].proc)
  {
    var p := pl.nodes[b].proc;
    assert HasNode(pl, s, p);
    var cur := Current(pl, s, p);
    assert !Summed(pl, s, cur);
    assert cur == b;
    var r := Awaited(pl, s, p);
    assert NodeOk(pl, b);
    if r.Some? {
      assert NodeOk(pl, r.value) && NodeInv(pl, s, r.value);
      assert Summed(pl, s, r.value);
      assert SlotsDone(pl, s, b) == s.stage[p] - 1;
    }
  }

  /** No deadlock: in every state of every run some processor can move until all are done. */
  lemma {:induction false} NeverStuck(pl: Plan, run: seq<State>, mover: seq<nat>) returns (p: nat)
    requires PlanOk(pl) && IsRun(pl, run, mover)
    ensures var s := run[|mover|]; Inv(pl, s) && (Finished(pl, s) || CanMove(pl, s, p))
  {
    var s := run[|mover|];
    RunInv(pl, run, mover, |mover|);
    p := 0;
    if q :| 0 <= q < |pl.order| && HasNode(pl, s, q) {
      if l :| 0 <= l < |pl.order| && HasNode(pl, s, l) && pl.nodes[Current(pl, s, l)].leaf {
        p := l;
      } else {
        assert !Summed(pl, s, Current(pl, s, q));
        var b := LastUnsummed(pl, s, |pl.nodes|);
        NoLeafLeft(pl, s, b);
        LastCanMove(pl, s, b);
        p := pl.nodes[b].proc;
      }
    }
  }

  lemma {:induction false} NoLeafLeft(pl: Plan, s: State, b: nat)
    requires PlanOk(pl) && Shaped(pl, s) && b < |pl.nodes| && !Summed(pl, s, b)
    requires forall p :: 0 <= p < |pl.order| && HasNode(pl, s, p) ==> !pl.nodes[Current(pl, s, p)].leaf
    ensures !pl.nodes[b].leaf
  {
    var p := pl.nodes[b].proc;
    assert HasNode(pl, s, p);
    assert s.pos[p] < pl.nodes[b].place ==> Sooner(pl, pl.order[p][s.pos[p]], pl.order[p][pl.nodes[b].place]);
  }

  /** At the end every node holds the mass, the cost and the centre of mass of the bodies
      below it; before the end, so does every node already summed. */
  lemma {:induction false} RunSumsRight(pl: Plan, run: seq<State>, mover: seq<nat>, b: nat)
    requires PlanOk(pl) && IsRun(pl, run, mover) && b < |pl.nodes|
    ensures var s := run[|mover|];
            && Inv(pl, s)
            && (Finished(pl, s) || Summed(pl, s, b) ==> forall q :: HeldAt(s.val[b], q) == SubSum(pl, b, q))
  {
    var s := run[|mover|];
    RunInv(pl, run, mover, |mover|);
    assert NodeInv(pl, s, b);
    if Finished(pl, s) {
      assert !HasNode(pl, s, pl.nodes[b].proc);
    }
  }

  // ---------------------------------------------------------------- conservation

  /** The sum over the bodies of all leaves among the first k nodes. */
  function LeafTotal(pl: Plan, k: nat, q: Coord): real
    requires k <= |pl.nodes|
  {
    if k == 0 then 0.0
    else LeafTotal(pl, k - 1, q) + if pl.nodes[k - 1].leaf then BodiesSum(pl.nodes[k - 1].bodies, q) else 0.0
  }

  /** The tree as links, own parts and sums. */
  function Links(pl: Plan): (r: seq<Option<nat>>)
    ensures |r| == |pl.nodes| && forall b :: 0 <= b < |r| ==> r[b] == pl.nodes[b].parent
  {
    seq(|pl.nodes|, b requires 0 <= b < |pl.nodes| => pl.nodes[b].parent)
  }

  function Owns(pl: Plan, q: Coord): (r: seq<real>)
    ensures |r| == |pl.nodes|
    ensures forall b :: 0 <= b < |r| ==> r[b] == if pl.nodes[b].leaf then BodiesSum(pl.nodes[b].bodies, q) else 0.0
  {
    seq(|pl.nodes|, b requires 0 <= b < |pl.nodes| =>
      if pl.nodes[b].leaf then BodiesSum(pl.nodes[b].bodies, q) else 0.0)
  }

  ghost function Sums(pl: Plan, q: Coord): (r: seq<real>)
    requires PlanOk(pl)
    ensures |r| == |pl.nodes| && forall b :: 0 <= b < |r| ==> r[b] == SubSum(pl, b, q)
  {
    seq(|pl.nodes|, b requires 0 <= b < |pl.nodes| => SubSum(pl, b, q))
  }

  lemma {:induction false} KidsSum(pl: Plan, b: nat, k: nat, q: Coord)
    requires PlanOk(pl) && b < |pl.nodes| && k <= |pl.nodes|
    ensures SumIn(Sums(pl, q), Kids(Links(pl), b), k) == KidSum(pl, b, k, q)
  {
    if k > 0 { KidsSum(pl, b, k - 1, q); }
  }

  lemma {:induction false} OwnsSum(pl: Plan, k: nat, q: Coord)
    requires k <= |pl.nodes|
    ensures SumAll(Owns(pl, q), k) == LeafTotal(pl, k, q)
  {
    if k > 0 { OwnsSum(pl, k - 1, q); }
  }

  lemma {:induction false} LeafHasNoKids(pl: Plan, b: nat, k: nat, q: Coord)
    requires PlanOk(pl) && b < |pl.nodes| && pl.nodes[b].leaf && k <= |pl.nodes|
    ensures KidSum(pl, b, k, q) == 0.0
  {
    if k > 0 {
      LeafHasNoKids(pl, b, k - 1, q);
      assert NodeOk(pl, k - 1);
    }
  }

  lemma {:induction false} SumsLinked(pl: Plan, q: Coord)
    requires PlanOk(pl)
    ensures SumsUp(Links(pl), Owns(pl, q), Sums(pl, q))
  {
    var n := |pl.nodes|;
    forall c | 0 <= c < n && Links(pl)[c].Some? ensures Links(pl)[c].value < n { assert NodeOk(pl, c); }
    forall b | 0 <= b < n
      ensures Sums(pl, q)[b] == Owns(pl, q)[b] + SumIn(Sums(pl, q), Kids(Links(pl), b), n)
    {
      KidsSum(pl, b, n, q);
      if pl.nodes[b].leaf { LeafHasNoKids(pl, b, n, q); }
    }
  }

  /** The root's sums are those over the bodies of all leaves, each leaf counted once. */
  lemma {:induction false} RootHoldsAllBodies(pl: Plan, root: nat, q: Coord)
    requires PlanOk(pl) && root < |pl.nodes|
    requires forall b :: 0 <= b < |pl.nodes| ==> (pl.nodes[b].parent.None? <==> b == root)
    ensures SubSum(pl, root, q) == LeafTotal(pl, |pl.nodes|, q)
  {
    SumsLinked(pl, q);
    RootHoldsAll(Links(pl), Owns(pl, q), Sums(pl, q), root);
    OwnsSum(pl, |pl.nodes|, q);
  }
}
