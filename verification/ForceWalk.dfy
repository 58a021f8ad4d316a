/** The force walk of papps/splash2/codes/apps/barnes/grav.C: hackgrav, walksub, subdivp and
    the cached distance of gravsub.  Every body of the tree counts exactly once, directly or
    through one accepted ancestor, except the body itself when the walk meets it. */
module ForceWalk {
  import opened Options
  import opened BarnesTables
  import opened Sequences
  import opened Vectors

  datatype Body = Body(id: nat, mass: real, pos: Vec)

  /** A slot of the finished tree; ids stand for the addresses of leaves and cells. */
  datatype Node =
    | Empty
    | Leaf(id: nat, mass: real, pos: Vec, bodies: seq<Body>)
    | Cell(id: nat, mass: real, pos: Vec, subp: seq<Node>)

  /** An address: that of a body or that of a leaf or cell. */
  datatype Ref = BodyAt(id: nat) | NodeAt(id: nat)

  function Bodies(n: Node): seq<Body>
    decreases n, 1
  {
    match n
    case Empty => []
    case Leaf(_, _, _, bodies) => bodies
    case Cell(_, _, _, subp) => BodiesOf(subp)
  }

  function BodiesOf(subp: seq<Node>): seq<Body>
    decreases subp, 0
  {
    if subp == [] then [] else BodiesOf(subp[..|subp| - 1]) + Bodies(subp[|subp| - 1])
  }

  function MassOf(s: seq<Body>): real {
    if s == [] then 0.0 else MassOf(s[..|s| - 1]) + s[|s| - 1].mass
  }

  /** Cells have NSUB slots, and each mass is the sum of the masses below, as hackcofm leaves it. */
  predicate Weighed(n: Node) {
    match n
    case Empty => true
    case Leaf(_, mass, _, bodies) => mass == MassOf(bodies)
    case Cell(_, mass, _, subp) =>
      |subp| == NSUB && mass == MassOf(BodiesOf(subp)) && forall i :: 0 <= i < |subp| ==> Weighed(subp[i])
  }

  /** One call of gravsub: the address, mass and softened squared distance it works with, and,
      for the record, the bodies this stands for. */
  datatype Term = Term(ref: Ref, mass: real, dr: Vec, drsq: real, covers: seq<Body>)

  /** The fixed surroundings of one walk: the body, where it is, and the constants. */
  datatype Env = Env(pskip: nat, pos0: Vec, tolsq: real, epssq: real)

  function TermFor(e: Env, ref: Ref, mass: real, pos: Vec, covers: seq<Body>): Term {
    var dr := SubV(pos, e.pos0);
    Term(ref, mass, dr, Dot(dr, dr) + e.epssq, covers)
  }

  /** subdivp's test: the node is too close to be taken whole. */
  predicate Opens(e: Env, n: Node, dsq: real)
    requires !n.Empty?
  {
    var dr := SubV(n.pos, e.pos0);
    e.tolsq * Dot(dr, dr) < dsq
  }

  // ---------------------------------------------------------------- what the walk computes

  function BodyTerms(e: Env, bodies: seq<Body>): seq<Term> {
    if bodies == [] then []
    else
      var b := bodies[|bodies| - 1];
      BodyTerms(e, bodies[..|bodies| - 1])
      + if b.id == e.pskip then [] else [TermFor(e, BodyAt(b.id), b.mass, b.pos, [b])]
  }

  function Terms(e: Env, n: Node, dsq: real): seq<Term>
    decreases n, 1
  {
    if n.Empty? then []
    else if !Opens(e, n, dsq) then [TermFor(e, NodeAt(n.id), n.mass, n.pos, Bodies(n))]
    else if n.Leaf? then BodyTerms(e, n.bodies)
    else TermsOf(e, n.subp, dsq / 4.0)
  }

  function TermsOf(e: Env, subp: seq<Node>, dsq: real): seq<Term>
    decreases subp, 0
  {
    if subp == [] then [] else TermsOf(e, subp[..|subp| - 1], dsq) + Terms(e, subp[|subp| - 1], dsq)
  }

  /** The occurrences of the body itself that the walk meets. */
  function Selves(e: Env, bodies: seq<Body>): seq<Body> {
    if bodies == [] then []
    else
      var b := bodies[|bodies| - 1];
      Selves(e, bodies[..|bodies| - 1]) + if b.id == e.pskip then [b] else []
  }

  function Skipped(e: Env, n: Node, dsq: real): seq<Body>
    decreases n, 1
  {
    if n.Empty? || !Opens(e, n, dsq) then []
    else if n.Leaf? then Selves(e, n.bodies)
    else SkippedOf(e, n.subp, dsq / 4.0)
  }

  function SkippedOf(e: Env, subp: seq<Node>, dsq: real): seq<Body>
    decreases subp, 0
  {
    if subp == [] then [] else SkippedOf(e, subp[..|subp| - 1], dsq) + Skipped(e, subp[|subp| - 1], dsq)
  }

  // ---------------------------------------------------------------- the walk in place

  /** The fields of Local[ProcessId] that the walk uses. */
  class Local {
    var env: Env
    var pmem: Option<Ref>
    var dr: Vec
    var drsq: real
    var skipself: bool
    var myn2bterm: nat
    var mynbcterm: nat
    var terms: seq<Term>

    constructor ()
    {
      env, pmem := Env(0, ORIGIN, 0.0, 0.0), None;
      dr, drsq := ORIGIN, 0.0;
      skipself, myn2bterm, mynbcterm, terms := false, 0, 0, [];
    }

    /** pmem, dr and drsq belong together: what subdivp left for node `ref` at `pos`. */
    ghost predicate Cached(ref: Ref, pos: Vec)
      reads this
    {
      pmem == Some(ref) && dr == SubV(pos, env.pos0) && drsq == Dot(dr, dr)
    }

    /** subdivp */
    method SubdivP(n: Node, dsq: real) returns (open: bool)
      requires !n.Empty?
      modifies `pmem, `dr, `drsq
      ensures Cached(NodeAt(n.id), n.pos)
      ensures open == Opens(env, n, dsq)
    {
      dr := SubV(n.pos, env.pos0);
      drsq := Dot(dr, dr);
      pmem := Some(NodeAt(n.id));
      open := env.tolsq * drsq < dsq;
    }

    /** gravsub.  When the address is the remembered one, the distance left in dr and drsq is
        used; it must be this node's. */
    method GravSub(ref: Ref, mass: real, pos: Vec, covers: seq<Body>)
      requires pmem == Some(ref) ==> Cached(ref, pos)
      modifies `dr, `drsq, `myn2bterm, `mynbcterm, `terms
      ensures terms == old(terms) + [TermFor(env, ref, mass, pos, covers)]
      ensures myn2bterm + mynbcterm == old(myn2bterm) + old(mynbcterm) + 1
      ensures ref.BodyAt? <==> myn2bterm == old(myn2bterm) + 1
    {
      if pmem != Some(ref) {
        dr := SubV(pos, env.pos0);
        drsq := Dot(dr, dr);
      }
      drsq := drsq + env.epssq;
      terms := terms + [Term(ref, mass, dr, drsq, covers)];
      if ref.NodeAt? {
        mynbcterm := mynbcterm + 1;
      } else {
        myn2bterm := myn2bterm + 1;
      }
    }

    /** The bodies of an opened leaf. */
    method WalkLeaf(bodies: seq<Body>)
      requires pmem.Some? && pmem.value.NodeAt?
      modifies `dr, `drsq, `skipself, `myn2bterm, `mynbcterm, `terms
      ensures terms == old(terms) + BodyTerms(env, bodies)
      ensures skipself == (old(skipself) || Selves(env, bodies) != [])
      ensures myn2bterm + mynbcterm == old(myn2bterm) + old(mynbcterm) + |BodyTerms(env, bodies)|
    {
      for i := 0 to |bodies|
        invariant terms == old(terms) + BodyTerms(env, bodies[..i])
        invariant skipself == (old(skipself) || Selves(env, bodies[..i]) != [])
        invariant myn2bterm + mynbcterm == old(myn2bterm) + old(mynbcterm) + |BodyTerms(env, bodies[..i])|
      {
        var p := bodies[i];
        assert bodies[..i + 1][..i] == bodies[..i];
        if p.id != env.pskip {
          GravSub(BodyAt(p.id), p.mass, p.pos, [p]);
        } else {
          skipself := true;
        }
      }
      assert bodies[..|bodies|] == bodies;
    }

    /** The slots of an opened cell. */
    method WalkCell(subp: seq<Node>, dsq: real)
      requires forall i :: 0 <= i < |subp| ==> Weighed(subp[i])
      modifies this
      ensures env == old(env)
      ensures terms == old(terms) + TermsOf(env, subp, dsq)
      ensures skipself == (old(skipself) || SkippedOf(env, subp, dsq) != [])
      ensures myn2bterm + mynbcterm == old(myn2bterm) + old(mynbcterm) + |TermsOf(env, subp, dsq)|
      decreases subp, 0
    {
      for i := 0 to |subp|
        invariant env == old(env)
        invariant terms == old(terms) + TermsOf(env, subp[..i], dsq)
        invariant skipself == (old(skipself) || SkippedOf(env, subp[..i], dsq) != [])
        invariant myn2bterm + mynbcterm == old(myn2bterm) + old(mynbcterm) + |TermsOf(env, subp[..i], dsq)|
      {
        assert subp[..i + 1][..i] == subp[..i];
        if !subp[i].Empty? {
          WalkSub(subp[i], dsq);
        }
      }
      assert subp[..|subp|] == subp;
    }

    /** walksub */
    method WalkSub(n: Node, dsq: real)
      requires !n.Empty? && Weighed(n)
      modifies this
      ensures env == old(env)
      ensures terms == old(terms) + Terms(env, n, dsq)
      ensures skipself == (old(skipself) || Skipped(env, n, dsq) != [])
      ensures myn2bterm + mynbcterm == old(myn2bterm) + old(mynbcterm) + |Terms(env, n, dsq)|
      decreases n, 1
    {
      var open := SubdivP(n, dsq);
      if open {
        if n.Cell? {
          WalkCell(n.subp, dsq / 4.0);
        } else {
          WalkLeaf(n.bodies);
        }
      } else {
        GravSub(NodeAt(n.id), n.mass, n.pos, Bodies(n));
      }
    }

    /** hackgrav and hackwalk: the cost left in the body is the number of interactions. */
    method HackGrav(p: Body, root: Node, rsize: real, tolsq: real, epssq: real) returns (cost: nat)
      requires !root.Empty? && Weighed(root)
      modifies this
      ensures env == Env(p.id, p.pos, tolsq, epssq)
      ensures terms == Terms(env, root, rsize * rsize)
      ensures skipself == (Skipped(env, root, rsize * rsize) != [])
      ensures cost == |terms|
    {
      env := Env(p.id, p.pos, tolsq, epssq);
      terms, myn2bterm, mynbcterm, skipself := [], 0, 0, false;
      WalkSub(root, rsize * rsize);
      cost := myn2bterm + mynbcterm;
    }
  }

  // ---------------------------------------------------------------- coverage

  function Covered(terms: seq<Term>): seq<Body> {
    if terms == [] then [] else Covered(terms[..|terms| - 1]) + terms[|terms| - 1].covers
  }

  lemma {:induction false} CoveredAppend(a: seq<Term>, b: seq<Term>)
    ensures Covered(a + b) == Covered(a) + Covered(b)
    decreases |b|
  {
    if b == [] {
      assert a + b == a;
    } else {
      var init, last := b[..|b| - 1], b[|b| - 1];
      CoveredAppend(a, init);
      assert (a + b)[..|a + b| - 1] == a + init;
      Associates(Covered(a), Covered(init), last.covers);
    }
  }

  lemma {:induction false} OneMoreCovered(e: Env, init: seq<Body>, b: Body)
    ensures var more := if b.id == e.pskip then [] else [b];
            && multiset(Covered(BodyTerms(e, init + [b]))) == multiset(Covered(BodyTerms(e, init))) + multiset(more)
            && multiset(Selves(e, init + [b]))
               == multiset(Selves(e, init)) + multiset(if b.id == e.pskip then [b] else [])
  {
    assert (init + [b])[..|init|] == init;
    if b.id == e.pskip {
      assert BodyTerms(e, init + [b]) == BodyTerms(e, init);
    } else {
      var t := TermFor(e, BodyAt(b.id), b.mass, b.pos, [b]);
      assert BodyTerms(e, init + [b]) == BodyTerms(e, init) + [t];
      CoveredAppend(BodyTerms(e, init), [t]);
      assert Covered([t]) == [b] by { assert [t][..0] == []; }
    }
  }

  lemma {:induction false} BagsAdd<T>(a: multiset<T>, b: multiset<T>, c: multiset<T>, x: multiset<T>, y: multiset<T>, z: multiset<T>)
    requires a + b == c && x + y == z
    ensures (a + x) + (b + y) == c + z
  {
  }

  ghost predicate CoversAll(e: Env, bodies: seq<Body>) {
    multiset(Covered(BodyTerms(e, bodies))) + multiset(Selves(e, bodies)) == multiset(bodies)
  }

  lemma {:induction false} CoversOneMore(e: Env, init: seq<Body>, b: Body)
    requires CoversAll(e, init)
    ensures CoversAll(e, init + [b])
  {
    OneMoreCovered(e, init, b);
    var x := if b.id == e.pskip then [] else [b];
    var y := if b.id == e.pskip then [b] else [];
    assert multiset(x) + multiset(y) == multiset([b]);
    BagsAdd(multiset(Covered(BodyTerms(e, init))), multiset(Selves(e, init)), multiset(init),
            multiset(x), multiset(y), multiset([b]));
  }

  lemma {:induction false} LeafCovers(e: Env, bodies: seq<Body>)
    ensures CoversAll(e, bodies)
  {
    if bodies == [] {
      assert BodyTerms(e, bodies) == [] && Selves(e, bodies) == [];
    } else {
      var init, b := bodies[..|bodies| - 1], bodies[|bodies| - 1];
      assert init + [b] == bodies;
      LeafCovers(e, init);
      CoversOneMore(e, init, b);
    }
  }

  lemma {:induction false} OpenLeafTerms(e: Env, n: Node, dsq: real)
    requires n.Leaf? && Opens(e, n, dsq)
    ensures Terms(e, n, dsq) == BodyTerms(e, n.bodies) && Skipped(e, n, dsq) == Selves(e, n.bodies)
  {
  }

  lemma {:induction false} OpenCellTerms(e: Env, n: Node, dsq: real)
    requires n.Cell? && Opens(e, n, dsq)
    ensures Terms(e, n, dsq) == TermsOf(e, n.subp, dsq / 4.0) && Skipped(e, n, dsq) == SkippedOf(e, n.subp, dsq / 4.0)
  {
  }

  lemma {:induction false} WholeTerms(e: Env, n: Node, dsq: real)
    requires !n.Empty? && !Opens(e, n, dsq)
    ensures Covered(Terms(e, n, dsq)) == Bodies(n) && Skipped(e, n, dsq) == []
  {
    var t := TermFor(e, NodeAt(n.id), n.mass, n.pos, Bodies(n));
    assert Terms(e, n, dsq) == [t];
    assert [t][..0] == [];
  }

  /** For every body and every tolerance, the terms of the walk, together with the body itself
      where it is skipped, stand for every body of the tree exactly once. */
  lemma {:induction false} EveryBodyOnce(e: Env, n: Node, dsq: real)
    ensures multiset(Covered(Terms(e, n, dsq))) + multiset(Skipped(e, n, dsq)) == multiset(Bodies(n))
    decreases n, 1
  {
    if n.Empty? {
      assert Terms(e, n, dsq) == [] && Skipped(e, n, dsq) == [];
    } else if !Opens(e, n, dsq) {
      WholeTerms(e, n, dsq);
    } else if n.Leaf? {
      OpenLeafTerms(e, n, dsq);
      LeafCovers(e, n.bodies);
    } else {
      OpenCellTerms(e, n, dsq);
      EveryBodyOnceOf(e, n.subp, dsq / 4.0);
    }
  }

  lemma {:induction false} EveryBodyOnceOf(e: Env, subp: seq<Node>, dsq: real)
    ensures multiset(Covered(TermsOf(e, subp, dsq))) + multiset(SkippedOf(e, subp, dsq)) == multiset(BodiesOf(subp))
    decreases subp, 0
  {
    if subp != [] {
      var init, last := subp[..|subp| - 1], subp[|subp| - 1];
      EveryBodyOnceOf(e, init, dsq);
      EveryBodyOnce(e, last, dsq);
      CoveredAppend(TermsOf(e, init, dsq), Terms(e, last, dsq));
    }
  }

  // ---------------------------------------------------------------- mass

  function TermMass(terms: seq<Term>): real {
    if terms == [] then 0.0 else TermMass(terms[..|terms| - 1]) + terms[|terms| - 1].mass
  }

  lemma {:induction false} TermMassAppend(a: seq<Term>, b: seq<Term>)
    ensures TermMass(a + b) == TermMass(a) + TermMass(b)
    decreases |b|
  {
    if b == [] {
      assert a + b == a;
    } else {
      TermMassAppend(a, b[..|b| - 1]);
      assert (a + b)[..|a + b| - 1] == a + b[..|b| - 1];
    }
  }

  lemma {:induction false} MassAppend(a: seq<Body>, b: seq<Body>)
    ensures MassOf(a + b) == MassOf(a) + MassOf(b)
    decreases |b|
  {
    if b == [] {
      assert a + b == a;
    } else {
      MassAppend(a, b[..|b| - 1]);
      assert (a + b)[..|a + b| - 1] == a + b[..|b| - 1];
    }
  }

  lemma {:induction false} LeafMass(e: Env, bodies: seq<Body>)
    ensures TermMass(BodyTerms(e, bodies)) + MassOf(Selves(e, bodies)) == MassOf(bodies)
  {
    if bodies != [] {
      var init, b := bodies[..|bodies| - 1], bodies[|bodies| - 1];
      LeafMass(e, init);
      if b.id == e.pskip {
        assert BodyTerms(e, bodies) == BodyTerms(e, init);
        MassAppend(Selves(e, init), [b]);
        assert MassOf([b]) == b.mass by { assert [b][..0] == []; }
      } else {
        var t := TermFor(e, BodyAt(b.id), b.mass, b.pos, [b]);
        assert BodyTerms(e, bodies) == BodyTerms(e, init) + [t] && Selves(e, bodies) == Selves(e, init);
        TermMassAppend(BodyTerms(e, init), [t]);
        assert TermMass([t]) == b.mass by { assert [t][..0] == []; }
      }
    }
  }

  /** The masses passed to gravsub, and those skipped, add up to the mass of the tree. */
  lemma {:induction false} MassIsKept(e: Env, n: Node, dsq: real)
    requires Weighed(n)
    ensures TermMass(Terms(e, n, dsq)) + MassOf(Skipped(e, n, dsq)) == MassOf(Bodies(n))
    decreases n, 1
  {
    if n.Empty? {
    } else if !Opens(e, n, dsq) {
      var t := TermFor(e, NodeAt(n.id), n.mass, n.pos, Bodies(n));
      assert TermMass([t]) == n.mass by { assert [t][..0] == []; }
    } else if n.Leaf? {
      LeafMass(e, n.bodies);
    } else {
      MassIsKeptOf(e, n.subp, dsq / 4.0);
    }
  }

  lemma {:induction false} MassIsKeptOf(e: Env, subp: seq<Node>, dsq: real)
    requires forall i :: 0 <= i < |subp| ==> Weighed(subp[i])
    ensures TermMass(TermsOf(e, subp, dsq)) + MassOf(SkippedOf(e, subp, dsq)) == MassOf(BodiesOf(subp))
    decreases subp, 0
  {
    if subp != [] {
      var init, last := subp[..|subp| - 1], subp[|subp| - 1];
      MassIsKeptOf(e, init, dsq);
      MassIsKept(e, last, dsq);
      TermMassAppend(TermsOf(e, init, dsq), Terms(e, last, dsq));
      MassAppend(SkippedOf(e, init, dsq), Skipped(e, last, dsq));
      MassAppend(BodiesOf(init), Bodies(last));
    }
  }

  /** p is the one body of the tree with its address. */
  predicate OnceIn(p: Body, s: seq<Body>) {
    exists i :: 0 <= i < |s| && s[i] == p && forall j :: 0 <= j < |s| && j != i ==> s[j].id != p.id
  }

  lemma {:induction false} SkippedAre(e: Env, n: Node, dsq: real)
    ensures forall i :: 0 <= i < |Skipped(e, n, dsq)| ==> Skipped(e, n, dsq)[i].id == e.pskip
    decreases n, 1
  {
    if !n.Empty? && Opens(e, n, dsq) {
      if n.Leaf? { SelvesAre(e, n.bodies); } else { SkippedOfAre(e, n.subp, dsq / 4.0); }
    }
  }

  lemma {:induction false} SkippedOfAre(e: Env, subp: seq<Node>, dsq: real)
    ensures forall i :: 0 <= i < |SkippedOf(e, subp, dsq)| ==> SkippedOf(e, subp, dsq)[i].id == e.pskip
    decreases subp, 0
  {
    if subp != [] {
      SkippedOfAre(e, subp[..|subp| - 1], dsq);
      SkippedAre(e, subp[|subp| - 1], dsq);
    }
  }

  lemma {:induction false} SelvesAre(e: Env, bodies: seq<Body>)
    ensures forall i :: 0 <= i < |Selves(e, bodies)| ==> Selves(e, bodies)[i].id == e.pskip
  {
    if bodies != [] { SelvesAre(e, bodies[..|bodies| - 1]); }
  }

  lemma {:induction false} OnceCounts(p: Body, s: seq<Body>)
    requires OnceIn(p, s)
    ensures multiset(s)[p] == 1 && forall b :: b in multiset(s) && b.id == p.id ==> b == p
  {
    var i :| 0 <= i < |s| && s[i] == p && forall j :: 0 <= j < |s| && j != i ==> s[j].id != p.id;
    assert s == s[..i] + [s[i]] + s[i + 1..];
    assert p !in s[..i] && p !in s[i + 1..];
    assert multiset(s) == multiset(s[..i]) + multiset{p} + multiset(s[i + 1..]);
  }

  lemma {:induction false} AllTheSame(p: Body, s: seq<Body>)
    requires forall i :: 0 <= i < |s| ==> s[i] == p
    ensures multiset(s)[p] == |s|
  {
    if s != [] {
      AllTheSame(p, s[..|s| - 1]);
      assert s == s[..|s| - 1] + [p];
    }
  }

  lemma {:induction false} SubBagOnce(p: Body, sk: seq<Body>, all: multiset<Body>)
    requires multiset(sk) <= all && all[p] == 1 && sk != []
    requires forall i :: 0 <= i < |sk| ==> sk[i].id == p.id
    requires forall b :: b in all && b.id == p.id ==> b == p
    ensures sk == [p]
  {
    forall i | 0 <= i < |sk| ensures sk[i] == p { assert sk[i] in multiset(sk); }
    AllTheSame(p, sk);
  }

  /** With the body once in the tree, the masses passed to gravsub sum to the root's mass, less
      the body's own exactly when the walk has met it (skipself). */
  lemma {:induction false} MassLessSelf(e: Env, p: Body, root: Node, dsq: real)
    requires Weighed(root) && !root.Empty? && e.pskip == p.id && OnceIn(p, Bodies(root))
    ensures TermMass(Terms(e, root, dsq)) == root.mass - if Skipped(e, root, dsq) != [] then p.mass else 0.0
  {
    var sk := Skipped(e, root, dsq);
    MassIsKept(e, root, dsq);
    EveryBodyOnce(e, root, dsq);
    SkippedAre(e, root, dsq);
    OnceCounts(p, Bodies(root));
    if sk != [] {
      SubBagOnce(p, sk, multiset(Bodies(root)));
      assert MassOf([p]) == p.mass by { assert [p][..0] == []; }
    }
  }
}
