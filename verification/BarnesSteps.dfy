/** From hackcofm to what comes after it: the tree that the cost zones and the force walk start
    from is the one a finished hackcofm leaves, and it meets what they ask of it. */
module BarnesSteps {
  import opened Options
  import opened Vectors
  import opened Zones
  import opened BarnesTables
  import opened Forest
  import Cofm = BarnesCofm
  import Part = BarnesZones
  import Walk = ForceWalk

  // ---------------------------------------------------------------- sums slot by slot

  /** A cell's slots name its children, each once. */
  lemma {:induction false} SlotsNameKids(pl: Cofm.Plan, b: nat)
    requires Cofm.PlanOk(pl) && b < |pl.nodes| && !pl.nodes[b].leaf
    ensures SlotsDistinct(pl.nodes[b].subp) && InSlots(pl.nodes[b].subp) == Kids(Cofm.Links(pl), b)
  {
    var subp := pl.nodes[b].subp;
    assert Cofm.NodeOk(pl, b);
    forall i, j | 0 <= i < j < |subp| && subp[i].Some? ensures subp[i] != subp[j] {
      assert subp[j].Some? ==> pl.nodes[subp[j].value].slot == j;
    }
    forall c: nat | c in Kids(Cofm.Links(pl), b) ensures c in InSlots(subp) {
      assert Cofm.NodeOk(pl, c);
      assert subp[pl.nodes[c].slot] == Some(c);
    }
  }

  lemma {:induction false} CellSum(pl: Cofm.Plan, b: nat, q: Cofm.Coord)
    requires Cofm.PlanOk(pl) && b < |pl.nodes| && !pl.nodes[b].leaf
    ensures Cofm.SubSum(pl, b, q) == SlotSum(Cofm.Sums(pl, q), pl.nodes[b].subp)
  {
    SlotsNameKids(pl, b);
    Cofm.KidsSum(pl, b, |pl.nodes|, q);
    SlotsAreKids(Cofm.Sums(pl, q), pl.nodes[b].subp);
  }

  // ---------------------------------------------------------------- the tree of the cost zones

  predicate HasValues(pl: Cofm.Plan, s: Cofm.State) { |s.val| == |pl.nodes| }

  /** Every node holds the sums over the bodies below it. */
  ghost predicate SumsRight(pl: Cofm.Plan, s: Cofm.State)
    requires Cofm.PlanOk(pl)
  {
    HasValues(pl, s) && forall b: nat, q :: b < |pl.nodes| ==> Cofm.HeldAt(s.val[b], q) == Cofm.SubSum(pl, b, q)
  }

  /** So a finished run of hackcofm leaves them, whatever its interleaving. */
  lemma {:induction false} FinishedRight(pl: Cofm.Plan, run: seq<Cofm.State>, mover: seq<nat>)
    requires Cofm.PlanOk(pl) && Cofm.IsRun(pl, run, mover)
    ensures Cofm.Shaped(pl, run[|mover|])
    ensures Cofm.Finished(pl, run[|mover|]) ==> SumsRight(pl, run[|mover|])
  {
    var s := run[|mover|];
    Cofm.RunInv(pl, run, mover, |mover|);
    forall b: nat | b < |pl.nodes|
      ensures Cofm.Finished(pl, s) ==> forall q :: Cofm.HeldAt(s.val[b], q) == Cofm.SubSum(pl, b, q)
    {
      Cofm.RunSumsRight(pl, run, mover, b);
    }
  }

  function Pieces(bodies: seq<Cofm.Body>): seq<Part.Body> {
    if bodies == [] then []
    else Pieces(bodies[..|bodies| - 1]) + [Piece(bodies[|bodies| - 1].id, bodies[|bodies| - 1].cost)]
  }

  /** The node b as find_my_bodies sees it, and slot i of a cell. */
  ghost function ZoneNode(pl: Cofm.Plan, s: Cofm.State, b: nat): Part.Node
    requires Cofm.PlanOk(pl) && HasValues(pl, s) && b < |pl.nodes|
    decreases |pl.nodes| - b, 1
  {
    if pl.nodes[b].leaf then Part.Leaf(s.val[b].cost, Pieces(pl.nodes[b].bodies))
    else Part.Cell(s.val[b].cost, seq(NSUB, i requires 0 <= i < NSUB => ZoneSlot(pl, s, b, i)))
  }

  ghost function ZoneSlot(pl: Cofm.Plan, s: Cofm.State, b: nat, i: nat): Part.Node
    requires Cofm.PlanOk(pl) && HasValues(pl, s) && b < |pl.nodes| && !pl.nodes[b].leaf && i < NSUB
    decreases |pl.nodes| - b, 0
  {
    assert Cofm.NodeOk(pl, b);
    var c := pl.nodes[b].subp[i];
    if c.None? then Part.Empty else assert Cofm.NodeOk(pl, c.value); ZoneNode(pl, s, c.value)
  }

  lemma {:induction false} PiecesCost(bodies: seq<Cofm.Body>)
    ensures Total(Pieces(bodies)) as real == Cofm.BodiesSum(bodies, Cofm.Cost)
  {
    if bodies != [] {
      var init, last := bodies[..|bodies| - 1], bodies[|bodies| - 1];
      PiecesCost(init);
      TotalAppend(Pieces(init), [Piece(last.id, last.cost)]);
    }
  }

  lemma {:induction false} KidsCostSlots(kids: seq<Part.Node>, v: seq<real>, slots: seq<Option<nat>>)
    requires |kids| == |slots| && forall i :: 0 <= i < |kids| ==> Part.CostOf(kids[i]) as real == SlotValue(v, slots[i])
    ensures Part.KidsCost(kids) as real == SlotSum(v, slots)
  {
    if kids != [] { KidsCostSlots(kids[1..], v, slots[1..]); }
  }

  lemma {:induction false} CellCost(pl: Cofm.Plan, s: Cofm.State, b: nat)
    requires Cofm.PlanOk(pl) && SumsRight(pl, s) && b < |pl.nodes| && !pl.nodes[b].leaf
    ensures s.val[b].cost == Part.KidsCost(ZoneNode(pl, s, b).subp)
  {
    var v := Cofm.Sums(pl, Cofm.Cost);
    var kids := ZoneNode(pl, s, b).subp;
    assert Cofm.NodeOk(pl, b);
    forall i | 0 <= i < NSUB ensures Part.CostOf(kids[i]) as real == SlotValue(v, pl.nodes[b].subp[i]) {
      var c := pl.nodes[b].subp[i];
      assert kids[i] == ZoneSlot(pl, s, b, i);
      if c.Some? { assert Cofm.HeldAt(s.val[c.value], Cofm.Cost) == v[c.value]; }
    }
    KidsCostSlots(kids, v, pl.nodes[b].subp);
    CellSum(pl, b, Cofm.Cost);
    assert Cofm.HeldAt(s.val[b], Cofm.Cost) == Cofm.SubSum(pl, b, Cofm.Cost);
  }

  /** What the cost zones ask of their tree: each cost is the sum of the costs below. */
  lemma {:induction false} ZoneCosted(pl: Cofm.Plan, s: Cofm.State, b: nat)
    requires Cofm.PlanOk(pl) && SumsRight(pl, s) && b < |pl.nodes|
    ensures Part.Costed(ZoneNode(pl, s, b))
    decreases |pl.nodes| - b
  {
    if pl.nodes[b].leaf {
      assert Cofm.HeldAt(s.val[b], Cofm.Cost) == Cofm.SubSum(pl, b, Cofm.Cost);
      PiecesCost(pl.nodes[b].bodies);
    } else {
      CellCost(pl, s, b);
      assert Cofm.NodeOk(pl, b);
      forall i | 0 <= i < NSUB ensures Part.Costed(ZoneSlot(pl, s, b, i)) {
        var c := pl.nodes[b].subp[i];
        if c.Some? {
          assert Cofm.NodeOk(pl, c.value);
          ZoneCosted(pl, s, c.value);
        }
      }
    }
  }

  /** End to end: after any finished run of hackcofm the shares of the processors, one after the
      other, are the walk of the tree and hold every body of it exactly once. */
  lemma {:induction false} SummedTreePartitions(
    pl: Cofm.Plan, run: seq<Cofm.State>, mover: seq<nat>, root: nat, t: Tables, nproc: nat)
    requires Cofm.PlanOk(pl) && Cofm.IsRun(pl, run, mover) && root < |pl.nodes|
    requires Cofm.Shaped(pl, run[|mover|]) && Cofm.Finished(pl, run[|mover|])
    requires TablesOk(t, NUM_DIRECTIONS, NSUB) && 0 < nproc
    ensures var tree := ZoneNode(pl, run[|mover|], root);
            && Part.Costed(tree)
            && var shares := Shares(Part.Walk(t, tree, BRC_FUC), Part.Cuts(Part.CostOf(tree), nproc), nproc);
               shares == Part.Walk(t, tree, BRC_FUC) && multiset(shares) == multiset(Part.Bodies(tree))
  {
    FinishedRight(pl, run, mover);
    ZoneCosted(pl, run[|mover|], root);
    Part.ZonesPartition(t, ZoneNode(pl, run[|mover|], root), nproc);
  }

  // ---------------------------------------------------------------- how often a body is in the tree

  /** How often the piece is in the leaf b, and below the node b. */
  ghost function OwnCount(pl: Cofm.Plan, x: Part.Body, b: nat): real
    requires b < |pl.nodes|
  {
    if pl.nodes[b].leaf then multiset(Pieces(pl.nodes[b].bodies))[x] as real else 0.0
  }

  ghost function Count(pl: Cofm.Plan, s: Cofm.State, x: Part.Body, b: nat): real
    requires Cofm.PlanOk(pl) && HasValues(pl, s) && b < |pl.nodes|
  {
    multiset(Part.Bodies(ZoneNode(pl, s, b)))[x] as real
  }

  ghost function OwnCounts(pl: Cofm.Plan, x: Part.Body): (r: seq<real>)
    ensures |r| == |pl.nodes| && forall b :: 0 <= b < |r| ==> r[b] == OwnCount(pl, x, b)
  {
    seq(|pl.nodes|, b requires 0 <= b < |pl.nodes| => OwnCount(pl, x, b))
  }

  ghost function Counts(pl: Cofm.Plan, s: Cofm.State, x: Part.Body): (r: seq<real>)
    requires Cofm.PlanOk(pl) && HasValues(pl, s)
    ensures |r| == |pl.nodes| && forall b :: 0 <= b < |r| ==> r[b] == Count(pl, s, x, b)
  {
    seq(|pl.nodes|, b requires 0 <= b < |pl.nodes| => Count(pl, s, x, b))
  }

  lemma {:induction false} KidsCountSlots(kids: seq<Part.Node>, x: Part.Body, v: seq<real>, slots: seq<Option<nat>>)
    requires |kids| == |slots|
    requires forall i :: 0 <= i < |kids| ==> multiset(Part.Bodies(kids[i]))[x] as real == SlotValue(v, slots[i])
    ensures multiset(Part.BodiesOf(kids))[x] as real == SlotSum(v, slots)
  {
    if kids != [] { KidsCountSlots(kids[1..], x, v, slots[1..]); }
  }

  lemma {:induction false} CountsUp(pl: Cofm.Plan, s: Cofm.State, x: Part.Body)
    requires Cofm.PlanOk(pl) && HasValues(pl, s)
    ensures SumsUp(Cofm.Links(pl), OwnCounts(pl, x), Counts(pl, s, x))
  {
    var n := |pl.nodes|;
    forall c | 0 <= c < n && Cofm.Links(pl)[c].Some? ensures Cofm.Links(pl)[c].value < n { assert Cofm.NodeOk(pl, c); }
    forall b | 0 <= b < n
      ensures Counts(pl, s, x)[b] == OwnCounts(pl, x)[b] + SumIn(Counts(pl, s, x), Kids(Cofm.Links(pl), b), n)
    {
      CountUp(pl, s, x, b);
    }
  }

  lemma {:induction false} CountUp(pl: Cofm.Plan, s: Cofm.State, x: Part.Body, b: nat)
    requires Cofm.PlanOk(pl) && HasValues(pl, s) && b < |pl.nodes|
    ensures Count(pl, s, x, b)
         == OwnCount(pl, x, b) + SumIn(Counts(pl, s, x), Kids(Cofm.Links(pl), b), |pl.nodes|)
  {
    if pl.nodes[b].leaf {
      forall c: nat | c < |pl.nodes| ensures pl.nodes[c].parent != Some(b) { assert Cofm.NodeOk(pl, c); }
      assert Kids(Cofm.Links(pl), b) == {};
      SumNone(Counts(pl, s, x), |pl.nodes|);
    } else {
      var kids := ZoneNode(pl, s, b).subp;
      assert Cofm.NodeOk(pl, b);
      forall i | 0 <= i < NSUB
        ensures multiset(Part.Bodies(kids[i]))[x] as real == SlotValue(Counts(pl, s, x), pl.nodes[b].subp[i])
      {
        assert kids[i] == ZoneSlot(pl, s, b, i);
      }
      KidsCountSlots(kids, x, Counts(pl, s, x), pl.nodes[b].subp);
      SlotsNameKids(pl, b);
      SlotsAreKids(Counts(pl, s, x), pl.nodes[b].subp);
    }
  }

  // ---------------------------------------------------------------- the tree of the force walk

  function WalkBodies(bodies: seq<Cofm.Body>): seq<Walk.Body> {
    if bodies == [] then []
    else
      var b := bodies[|bodies| - 1];
      WalkBodies(bodies[..|bodies| - 1]) + [Walk.Body(b.id, b.mass, b.pos)]
  }

  /** The node b as walksub sees it, and slot i of a cell; the index stands for the address. */
  ghost function WalkNode(pl: Cofm.Plan, s: Cofm.State, b: nat): Walk.Node
    requires Cofm.PlanOk(pl) && HasValues(pl, s) && b < |pl.nodes|
    decreases |pl.nodes| - b, 1
  {
    if pl.nodes[b].leaf then Walk.Leaf(b, s.val[b].mass, s.val[b].pos, WalkBodies(pl.nodes[b].bodies))
    else Walk.Cell(b, s.val[b].mass, s.val[b].pos, seq(NSUB, i requires 0 <= i < NSUB => WalkSlot(pl, s, b, i)))
  }

  ghost function WalkSlot(pl: Cofm.Plan, s: Cofm.State, b: nat, i: nat): Walk.Node
    requires Cofm.PlanOk(pl) && HasValues(pl, s) && b < |pl.nodes| && !pl.nodes[b].leaf && i < NSUB
    decreases |pl.nodes| - b, 0
  {
    assert Cofm.NodeOk(pl, b);
    var c := pl.nodes[b].subp[i];
    if c.None? then Walk.Empty else assert Cofm.NodeOk(pl, c.value); WalkNode(pl, s, c.value)
  }

  lemma {:induction false} WalkBodiesMass(bodies: seq<Cofm.Body>)
    ensures Walk.MassOf(WalkBodies(bodies)) == Cofm.BodiesSum(bodies, Cofm.Mass)
  {
    if bodies != [] {
      WalkBodiesMass(bodies[..|bodies| - 1]);
      var all := WalkBodies(bodies);
      assert all[..|all| - 1] == WalkBodies(bodies[..|bodies| - 1]);
    }
  }

  lemma {:induction false} KidsMassSlots(kids: seq<Walk.Node>, v: seq<real>, slots: seq<Option<nat>>)
    requires |kids| == |slots|
    requires forall i :: 0 <= i < |kids| ==> Walk.MassOf(Walk.Bodies(kids[i])) == SlotValue(v, slots[i])
    ensures Walk.MassOf(Walk.BodiesOf(kids)) == SlotSum(v, slots)
  {
    if kids != [] {
      var n := |kids| - 1;
      KidsMassSlots(kids[..n], v, slots[..n]);
      SlotSumLast(v, slots);
      Walk.MassAppend(Walk.BodiesOf(kids[..n]), Walk.Bodies(kids[n]));
    }
  }

  /** The bodies below a node weigh what its sum says, and so does the node. */
  lemma {:induction false} NodeWeighed(pl: Cofm.Plan, s: Cofm.State, b: nat)
    requires Cofm.PlanOk(pl) && SumsRight(pl, s) && b < |pl.nodes|
    ensures Walk.MassOf(Walk.Bodies(WalkNode(pl, s, b))) == Cofm.SubSum(pl, b, Cofm.Mass)
    ensures Walk.Weighed(WalkNode(pl, s, b))
    decreases |pl.nodes| - b, 1
  {
    assert Cofm.HeldAt(s.val[b], Cofm.Mass) == Cofm.SubSum(pl, b, Cofm.Mass);
    if pl.nodes[b].leaf {
      WalkBodiesMass(pl.nodes[b].bodies);
    } else {
      var kids := WalkNode(pl, s, b).subp;
      assert Cofm.NodeOk(pl, b);
      forall i | 0 <= i < NSUB
        ensures Walk.MassOf(Walk.Bodies(kids[i])) == SlotValue(Cofm.Sums(pl, Cofm.Mass), pl.nodes[b].subp[i])
        ensures Walk.Weighed(kids[i])
      {
        SlotWeighed(pl, s, b, i);
      }
      KidsMassSlots(kids, Cofm.Sums(pl, Cofm.Mass), pl.nodes[b].subp);
      CellSum(pl, b, Cofm.Mass);
    }
  }

  lemma {:induction false} SlotWeighed(pl: Cofm.Plan, s: Cofm.State, b: nat, i: nat)
    requires Cofm.PlanOk(pl) && SumsRight(pl, s) && b < |pl.nodes| && !pl.nodes[b].leaf && i < NSUB
    ensures |pl.nodes[b].subp| == NSUB
    ensures Walk.MassOf(Walk.Bodies(WalkSlot(pl, s, b, i))) == SlotValue(Cofm.Sums(pl, Cofm.Mass), pl.nodes[b].subp[i])
    ensures Walk.Weighed(WalkSlot(pl, s, b, i))
    decreases |pl.nodes| - b, 0
  {
    assert Cofm.NodeOk(pl, b);
    var c := pl.nodes[b].subp[i];
    if c.Some? {
      assert Cofm.NodeOk(pl, c.value);
      NodeWeighed(pl, s, c.value);
    }
  }

  /** End to end: after any finished run of hackcofm, for every body and tolerance, the masses
      that the force walk passes on and those it skips are the mass of all bodies of the tree. */
  lemma {:induction false} SummedTreeWalks(
    pl: Cofm.Plan, run: seq<Cofm.State>, mover: seq<nat>, root: nat, e: Walk.Env, dsq: real)
    requires Cofm.PlanOk(pl) && Cofm.IsRun(pl, run, mover) && root < |pl.nodes|
    requires forall b :: 0 <= b < |pl.nodes| ==> (pl.nodes[b].parent.None? <==> b == root)
    requires Cofm.Shaped(pl, run[|mover|]) && Cofm.Finished(pl, run[|mover|])
    ensures var tree := WalkNode(pl, run[|mover|], root);
            && Walk.Weighed(tree)
            && Walk.TermMass(Walk.Terms(e, tree, dsq)) + Walk.MassOf(Walk.Skipped(e, tree, dsq))
               == Cofm.LeafTotal(pl, |pl.nodes|, Cofm.Mass)
  {
    FinishedRight(pl, run, mover);
    var tree := WalkNode(pl, run[|mover|], root);
    NodeWeighed(pl, run[|mover|], root);
    Walk.MassIsKept(e, tree, dsq);
    Cofm.RootHoldsAllBodies(pl, root, Cofm.Mass);
  }

  // ---------------------------------------------------------------- centres of mass

  datatype Axis = AxisX | AxisY | AxisZ

  function Along(v: Vec, axis: Axis): real {
    match axis
    case AxisX => v.x
    case AxisY => v.y
    case AxisZ => v.z
  }

  function Moment(axis: Axis): Cofm.Coord {
    match axis
    case AxisX => Cofm.MomentX
    case AxisY => Cofm.MomentY
    case AxisZ => Cofm.MomentZ
  }

  /** How the bodies would tip a balance along the axis that is held at c. */
  function Tilt(s: seq<Walk.Body>, axis: Axis, c: real): real {
    if s == [] then 0.0
    else Tilt(s[..|s| - 1], axis, c) + (Along(s[|s| - 1].pos, axis) - c) * s[|s| - 1].mass
  }

  lemma {:induction false} TiltAppend(a: seq<Walk.Body>, b: seq<Walk.Body>, axis: Axis, c: real)
    ensures Tilt(a + b, axis, c) == Tilt(a, axis, c) + Tilt(b, axis, c)
    decreases |b|
  {
    if b == [] {
      assert a + b == a;
    } else {
      TiltAppend(a, b[..|b| - 1], axis, c);
      assert (a + b)[..|a + b| - 1] == a + b[..|b| - 1];
    }
  }

  /** The tilt of a moment and a weight when held at c. */
  function Off(moment: real, weight: real, c: real): real { moment - c * weight }

  lemma {:induction false} OffAdds(m: real, w: real, m': real, w': real, c: real)
    ensures Off(m + m', w + w', c) == Off(m, w, c) + Off(m', w', c)
  {
    assert c * (w + w') == c * w + c * w';
  }

  lemma {:induction false} OffNothing(c: real)
    ensures Off(0.0, 0.0, c) == 0.0
  {
    assert c * 0.0 == 0.0;
  }

  lemma {:induction false} TiltOne(b: Cofm.Body, axis: Axis, c: real)
    ensures (Along(b.pos, axis) - c) * b.mass == Off(Cofm.BodyWeight(b, Moment(axis)), b.mass, c)
  {
  }

  lemma {:induction false} WalkBodiesTilt(bodies: seq<Cofm.Body>, axis: Axis, c: real)
    ensures Tilt(WalkBodies(bodies), axis, c)
         == Off(Cofm.BodiesSum(bodies, Moment(axis)), Cofm.BodiesSum(bodies, Cofm.Mass), c)
  {
    if bodies == [] {
      OffNothing(c);
    } else {
      var init, b := bodies[..|bodies| - 1], bodies[|bodies| - 1];
      WalkBodiesTilt(init, axis, c);
      var all := WalkBodies(bodies);
      assert all[..|all| - 1] == WalkBodies(init);
      TiltOne(b, axis, c);
      OffAdds(Cofm.BodiesSum(init, Moment(axis)), Cofm.BodiesSum(init, Cofm.Mass),
              Cofm.BodyWeight(b, Moment(axis)), b.mass, c);
    }
  }

  lemma {:induction false} KidsTiltSlots(
    kids: seq<Walk.Node>, axis: Axis, c: real, m: seq<real>, w: seq<real>, slots: seq<Option<nat>>)
    requires |kids| == |slots|
    requires forall i :: 0 <= i < |kids| ==>
               Tilt(Walk.Bodies(kids[i]), axis, c) == Off(SlotValue(m, slots[i]), SlotValue(w, slots[i]), c)
    ensures Tilt(Walk.BodiesOf(kids), axis, c) == Off(SlotSum(m, slots), SlotSum(w, slots), c)
  {
    if kids == [] {
      OffNothing(c);
    } else {
      var n := |kids| - 1;
      KidsTiltSlots(kids[..n], axis, c, m, w, slots[..n]);
      SlotSumLast(m, slots);
      SlotSumLast(w, slots);
      TiltAppend(Walk.BodiesOf(kids[..n]), Walk.Bodies(kids[n]), axis, c);
      OffAdds(SlotSum(m, slots[..n]), SlotSum(w, slots[..n]), SlotValue(m, slots[n]), SlotValue(w, slots[n]), c);
    }
  }

  lemma {:induction false} NodeTilt(pl: Cofm.Plan, s: Cofm.State, b: nat, axis: Axis, c: real)
    requires Cofm.PlanOk(pl) && HasValues(pl, s) && b < |pl.nodes|
    ensures Tilt(Walk.Bodies(WalkNode(pl, s, b)), axis, c)
         == Off(Cofm.SubSum(pl, b, Moment(axis)), Cofm.SubSum(pl, b, Cofm.Mass), c)
    decreases |pl.nodes| - b, 1
  {
    if pl.nodes[b].leaf {
      WalkBodiesTilt(pl.nodes[b].bodies, axis, c);
    } else {
      CellTilt(pl, s, b, axis, c);
      CellSum(pl, b, Moment(axis));
      CellSum(pl, b, Cofm.Mass);
    }
  }

  lemma {:induction false} CellTilt(pl: Cofm.Plan, s: Cofm.State, b: nat, axis: Axis, c: real)
    requires Cofm.PlanOk(pl) && HasValues(pl, s) && b < |pl.nodes| && !pl.nodes[b].leaf
    ensures var slots := pl.nodes[b].subp;
            Tilt(Walk.Bodies(WalkNode(pl, s, b)), axis, c)
            == Off(SlotSum(Cofm.Sums(pl, Moment(axis)), slots), SlotSum(Cofm.Sums(pl, Cofm.Mass), slots), c)
    decreases |pl.nodes| - b, 0
  {
    var m, w := Cofm.Sums(pl, Moment(axis)), Cofm.Sums(pl, Cofm.Mass);
    var kids, slots := WalkNode(pl, s, b).subp, pl.nodes[b].subp;
    assert Cofm.NodeOk(pl, b);
    forall i | 0 <= i < NSUB
      ensures Tilt(Walk.Bodies(kids[i]), axis, c) == Off(SlotValue(m, slots[i]), SlotValue(w, slots[i]), c)
    {
      assert kids[i] == WalkSlot(pl, s, b, i);
      if slots[i].Some? {
        assert Cofm.NodeOk(pl, slots[i].value);
        NodeTilt(pl, s, slots[i].value, axis, c);
      } else {
        OffNothing(c);
      }
    }
    KidsTiltSlots(kids, axis, c, m, w, slots);
  }

  /** After any finished run of hackcofm every node stands at the centre of mass of the bodies
      below it: held there, they are in balance along every axis. */
  lemma {:induction false} CentreOfMass(pl: Cofm.Plan, run: seq<Cofm.State>, mover: seq<nat>, b: nat, axis: Axis)
    requires Cofm.PlanOk(pl) && Cofm.IsRun(pl, run, mover) && b < |pl.nodes|
    requires Cofm.Shaped(pl, run[|mover|]) && Cofm.Finished(pl, run[|mover|])
    ensures var node := WalkNode(pl, run[|mover|], b);
            Tilt(Walk.Bodies(node), axis, Along(node.pos, axis)) == 0.0
  {
    FinishedRight(pl, run, mover);
    var v := run[|mover|].val[b];
    NodeTilt(pl, run[|mover|], b, axis, Along(v.pos, axis));
    assert Cofm.HeldAt(v, Moment(axis)) == Cofm.SubSum(pl, b, Moment(axis));
    assert Cofm.HeldAt(v, Cofm.Mass) == Cofm.SubSum(pl, b, Cofm.Mass);
  }
}
