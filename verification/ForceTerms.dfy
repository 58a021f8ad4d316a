/** Which interactions the force walk makes, said without the walk: a node is taken whole if it
    is far for its size and everything above it is near, and a body on its own if its leaf and
    everything above are near.  A node at depth k has the size of the root's box over 2^k. */
module ForceTerms {
  import opened Vectors
  import opened ForceWalk

  // ---------------------------------------------------------------- near and far

  /** The node at the end of the slots p, counted from n. */
  function NodeAlong(n: Node, p: seq<nat>): Node
    decreases |p|
  {
    if p == [] then n
    else if n.Cell? && p[0] < |n.subp| then NodeAlong(n.subp[p[0]], p[1..])
    else Empty
  }

  function SizeAt(size: real, k: nat): real {
    if k == 0 then size else SizeAt(size, k - 1) / 2.0
  }

  function DistSq(e: Env, pos: Vec): real {
    var x, y, z := pos.x - e.pos0.x, pos.y - e.pos0.y, pos.z - e.pos0.z;
    x * x + y * y + z * z
  }

  function Square(x: real): real { Product(x, x) }

  /** The node is seen under less than the tolerance: size <= tol * distance. */
  predicate Far(e: Env, n: Node, size: real) {
    !n.Empty? && Square(size) <= e.tolsq * DistSq(e, n.pos)
  }

  predicate Near(e: Env, n: Node, size: real) {
    !n.Empty? && e.tolsq * DistSq(e, n.pos) < Square(size)
  }

  /** Every node above the end of p is near. */
  ghost predicate NearAbove(e: Env, n: Node, size: real, p: seq<nat>) {
    forall j :: 0 <= j < |p| ==> Near(e, NodeAlong(n, p[..j]), SizeAt(size, j))
  }

  /** What gravsub works with for something of that mass at that place. */
  predicate Works(e: Env, t: Term, mass: real, pos: Vec) {
    && t.mass == mass
    && t.dr == Vec(pos.x - e.pos0.x, pos.y - e.pos0.y, pos.z - e.pos0.z)
    && t.drsq == DistSq(e, pos) + e.epssq
  }

  predicate IsWhole(e: Env, n: Node, t: Term) {
    !n.Empty? && t.ref == NodeAt(n.id) && Works(e, t, n.mass, n.pos) && t.covers == Bodies(n)
  }

  predicate IsBody(e: Env, b: Body, t: Term) {
    b.id != e.pskip && t.ref == BodyAt(b.id) && Works(e, t, b.mass, b.pos) && t.covers == [b]
  }

  /** t is the node at the end of p, taken whole. */
  ghost predicate Whole(e: Env, n: Node, size: real, p: seq<nat>, t: Term) {
    var m := NodeAlong(n, p);
    NearAbove(e, n, size, p) && Far(e, m, SizeAt(size, |p|)) && IsWhole(e, m, t)
  }

  /** b is in the leaf at the end of p, which is opened. */
  ghost predicate InOpenLeaf(e: Env, n: Node, size: real, p: seq<nat>, b: Body) {
    var m := NodeAlong(n, p);
    NearAbove(e, n, size, p) && Near(e, m, SizeAt(size, |p|)) && m.Leaf? && b in m.bodies
  }

  ghost predicate Single(e: Env, n: Node, size: real, p: seq<nat>, t: Term) {
    exists b :: InOpenLeaf(e, n, size, p, b) && IsBody(e, b, t)
  }

  // ---------------------------------------------------------------- one level

  lemma {:induction false} OpensIsNear(e: Env, n: Node, size: real)
    requires !n.Empty?
    ensures Opens(e, n, size * size) <==> Near(e, n, size)
    ensures Near(e, n, size) <==> !Far(e, n, size)
  {
  }

  lemma {:induction false} SizeDown(size: real, k: nat)
    ensures SizeAt(size, k + 1) == SizeAt(size / 2.0, k)
  {
    if k > 0 { SizeDown(size, k - 1); }
  }

  /** From n to its child in slot i. */
  lemma {:induction false} NearDown(e: Env, n: Node, size: real, i: nat, p: seq<nat>)
    requires n.Cell? && i < |n.subp|
    ensures NodeAlong(n, [i] + p) == NodeAlong(n.subp[i], p)
    ensures NearAbove(e, n, size, [i] + p) <==> Near(e, n, size) && NearAbove(e, n.subp[i], size / 2.0, p)
  {
    var q := [i] + p;
    assert q[1..] == p && q[..0] == [];
    forall j | 0 <= j < |p|
      ensures NodeAlong(n, q[..j + 1]) == NodeAlong(n.subp[i], p[..j])
      ensures SizeAt(size, j + 1) == SizeAt(size / 2.0, j)
    {
      assert q[..j + 1] == [i] + p[..j];
      assert q[..j + 1][1..] == p[..j];
      SizeDown(size, j);
    }
    if NearAbove(e, n, size, q) {
      assert Near(e, NodeAlong(n, q[..0]), SizeAt(size, 0));
      forall j | 0 <= j < |p| ensures Near(e, NodeAlong(n.subp[i], p[..j]), SizeAt(size / 2.0, j)) {
        assert Near(e, NodeAlong(n, q[..j + 1]), SizeAt(size, j + 1));
      }
    }
    if Near(e, n, size) && NearAbove(e, n.subp[i], size / 2.0, p) {
      forall j | 0 <= j < |q| ensures Near(e, NodeAlong(n, q[..j]), SizeAt(size, j)) {
        if j > 0 { assert Near(e, NodeAlong(n.subp[i], p[..j - 1]), SizeAt(size / 2.0, j - 1)); }
      }
    }
  }

  lemma {:induction false} WholeDown(e: Env, n: Node, size: real, i: nat, p: seq<nat>, t: Term)
    requires n.Cell? && i < |n.subp|
    ensures Whole(e, n, size, [i] + p, t) <==> Near(e, n, size) && Whole(e, n.subp[i], size / 2.0, p, t)
  {
    NearDown(e, n, size, i, p);
    SizeDown(size, |p|);
  }

  lemma {:induction false} OpenLeafDown(e: Env, n: Node, size: real, i: nat, p: seq<nat>, b: Body)
    requires n.Cell? && i < |n.subp|
    ensures InOpenLeaf(e, n, size, [i] + p, b) <==> Near(e, n, size) && InOpenLeaf(e, n.subp[i], size / 2.0, p, b)
  {
    NearDown(e, n, size, i, p);
    SizeDown(size, |p|);
  }

  // ---------------------------------------------------------------- lists

  lemma {:induction false} TermIsBody(e: Env, b: Body, t: Term)
    ensures IsBody(e, b, t) <==> b.id != e.pskip && t == TermFor(e, BodyAt(b.id), b.mass, b.pos, [b])
  {
    var dr := SubV(b.pos, e.pos0);
    assert Dot(dr, dr) == DistSq(e, b.pos);
  }

  lemma {:induction false} TermIsWhole(e: Env, n: Node, t: Term)
    requires !n.Empty?
    ensures IsWhole(e, n, t) <==> t == TermFor(e, NodeAt(n.id), n.mass, n.pos, Bodies(n))
  {
    var dr := SubV(n.pos, e.pos0);
    assert Dot(dr, dr) == DistSq(e, n.pos);
  }

  lemma {:induction false} BodyTermsIn(e: Env, bodies: seq<Body>, t: Term)
    ensures t in BodyTerms(e, bodies) <==> exists b :: b in bodies && IsBody(e, b, t)
  {
    if bodies != [] {
      var init, b := bodies[..|bodies| - 1], bodies[|bodies| - 1];
      BodyTermsIn(e, init, t);
      assert bodies == init + [b];
      TermIsBody(e, b, t);
      if IsBody(e, b, t) { assert b in bodies; }
    }
  }

  lemma {:induction false} TermsOfIn(e: Env, subp: seq<Node>, dsq: real, t: Term)
    ensures t in TermsOf(e, subp, dsq) <==> exists i :: 0 <= i < |subp| && t in Terms(e, subp[i], dsq)
  {
    if subp != [] {
      var init, last := subp[..|subp| - 1], subp[|subp| - 1];
      TermsOfIn(e, init, dsq, t);
      if i :| 0 <= i < |init| && t in Terms(e, init[i], dsq) { assert subp[i] == init[i]; }
      if i :| 0 <= i < |subp| && t in Terms(e, subp[i], dsq) && i < |init| { assert subp[i] == init[i]; }
    }
  }

  // ---------------------------------------------------------------- the walk

  /** The walk of n makes the interaction t. */
  predicate Makes(e: Env, n: Node, size: real, t: Term) {
    t in Terms(e, n, size * size)
  }

  ghost predicate Wanted(e: Env, n: Node, size: real, t: Term) {
    (exists p :: Whole(e, n, size, p, t)) || (exists p :: Single(e, n, size, p, t))
  }

  /** At a near cell the terms are those of the slots, at half the size. */
  lemma {:induction false} CellTerms(e: Env, n: Node, size: real, t: Term)
    requires n.Cell? && Near(e, n, size)
    ensures var half := size / 2.0;
            Makes(e, n, size, t) <==> exists i :: 0 <= i < |n.subp| && Makes(e, n.subp[i], half, t)
  {
    OpensIsNear(e, n, size);
    var half := size / 2.0;
    var dsq := half * half;
    assert size * size / 4.0 == dsq;
    TermsOfIn(e, n.subp, dsq, t);
    if i :| 0 <= i < |n.subp| && t in Terms(e, n.subp[i], dsq) { assert Makes(e, n.subp[i], half, t); }
  }

  lemma {:induction false} LeafTerms(e: Env, n: Node, size: real, t: Term)
    requires n.Leaf? && Near(e, n, size)
    ensures Makes(e, n, size, t) <==> exists b :: b in n.bodies && IsBody(e, b, t)
  {
    OpensIsNear(e, n, size);
    BodyTermsIn(e, n.bodies, t);
  }

  lemma {:induction false} FarTerm(e: Env, n: Node, size: real, t: Term)
    requires Far(e, n, size)
    ensures Makes(e, n, size, t) <==> IsWhole(e, n, t)
  {
    OpensIsNear(e, n, size);
    TermIsWhole(e, n, t);
  }

  lemma {:induction false} WantedHere(e: Env, n: Node, size: real, t: Term)
    ensures Far(e, n, size) && IsWhole(e, n, t) ==> Wanted(e, n, size, t)
    ensures n.Leaf? && Near(e, n, size) && (exists b :: b in n.bodies && IsBody(e, b, t)) ==> Wanted(e, n, size, t)
  {
    assert NodeAlong(n, []) == n && NearAbove(e, n, size, []);
    if Far(e, n, size) && IsWhole(e, n, t) { assert Whole(e, n, size, [], t); }
    if n.Leaf? && Near(e, n, size) {
      if b :| b in n.bodies && IsBody(e, b, t) {
        assert InOpenLeaf(e, n, size, [], b);
        assert Single(e, n, size, [], t);
      }
    }
  }

  lemma {:induction false} WantedUp(e: Env, n: Node, size: real, i: nat, t: Term)
    requires n.Cell? && i < |n.subp| && Near(e, n, size) && Wanted(e, n.subp[i], size / 2.0, t)
    ensures Wanted(e, n, size, t)
  {
    var kid, half := n.subp[i], size / 2.0;
    if p :| Whole(e, kid, half, p, t) {
      WholeDown(e, n, size, i, p, t);
    } else {
      var p :| Single(e, kid, half, p, t);
      var b :| InOpenLeaf(e, kid, half, p, b) && IsBody(e, b, t);
      OpenLeafDown(e, n, size, i, p, b);
      assert Single(e, n, size, [i] + p, t);
    }
  }

  lemma {:induction false} MadeIsWanted(e: Env, n: Node, size: real, t: Term)
    requires Makes(e, n, size, t)
    ensures Wanted(e, n, size, t)
    decreases n
  {
    OpensIsNear(e, n, size);
    WantedHere(e, n, size, t);
    if !Near(e, n, size) {
      FarTerm(e, n, size, t);
    } else if n.Leaf? {
      LeafTerms(e, n, size, t);
    } else {
      var half := size / 2.0;
      CellTerms(e, n, size, t);
      var i :| 0 <= i < |n.subp| && Makes(e, n.subp[i], half, t);
      MadeIsWanted(e, n.subp[i], half, t);
      WantedUp(e, n, size, i, t);
    }
  }

  lemma {:induction false} WholeIsMade(e: Env, n: Node, size: real, p: seq<nat>, t: Term)
    requires Whole(e, n, size, p, t)
    ensures Makes(e, n, size, t)
    decreases |p|
  {
    if p == [] {
      FarTerm(e, n, size, t);
    } else {
      assert n.Cell? && p[0] < |n.subp|;
      assert p == [p[0]] + p[1..];
      WholeDown(e, n, size, p[0], p[1..], t);
      WholeIsMade(e, n.subp[p[0]], size / 2.0, p[1..], t);
      CellTerms(e, n, size, t);
    }
  }

  lemma {:induction false} SingleIsMade(e: Env, n: Node, size: real, p: seq<nat>, b: Body, t: Term)
    requires InOpenLeaf(e, n, size, p, b) && IsBody(e, b, t)
    ensures Makes(e, n, size, t)
    decreases |p|
  {
    if p == [] {
      LeafTerms(e, n, size, t);
    } else {
      assert n.Cell? && p[0] < |n.subp|;
      assert p == [p[0]] + p[1..];
      OpenLeafDown(e, n, size, p[0], p[1..], b);
      assert Near(e, n, size);
      SingleIsMade(e, n.subp[p[0]], size / 2.0, p[1..], b, t);
      CellTerms(e, n, size, t);
    }
  }

  /** The interactions of the walk are exactly the nodes that are far below near ones, and the
      bodies of the leaves that are near below near ones. */
  lemma {:induction false} TermsAreWanted(e: Env, root: Node, rsize: real, t: Term)
    ensures Makes(e, root, rsize, t) <==> Wanted(e, root, rsize, t)
  {
    if Makes(e, root, rsize, t) { MadeIsWanted(e, root, rsize, t); }
    if p :| Whole(e, root, rsize, p, t) { WholeIsMade(e, root, rsize, p, t); }
    if p :| Single(e, root, rsize, p, t) {
      var b :| InOpenLeaf(e, root, rsize, p, b) && IsBody(e, b, t);
      SingleIsMade(e, root, rsize, p, b, t);
    }
  }

  // ---------------------------------------------------------------- the body itself

  lemma {:induction false} SelvesIn(e: Env, bodies: seq<Body>, b: Body)
    ensures b in Selves(e, bodies) <==> b in bodies && b.id == e.pskip
  {
    if bodies != [] {
      SelvesIn(e, bodies[..|bodies| - 1], b);
      assert bodies == bodies[..|bodies| - 1] + [bodies[|bodies| - 1]];
    }
  }

  lemma {:induction false} SkippedOfIn(e: Env, subp: seq<Node>, dsq: real, b: Body)
    ensures b in SkippedOf(e, subp, dsq) <==> exists i :: 0 <= i < |subp| && b in Skipped(e, subp[i], dsq)
  {
    if subp != [] {
      var init, last := subp[..|subp| - 1], subp[|subp| - 1];
      SkippedOfIn(e, init, dsq, b);
      if i :| 0 <= i < |init| && b in Skipped(e, init[i], dsq) { assert subp[i] == init[i]; }
      if i :| 0 <= i < |subp| && b in Skipped(e, subp[i], dsq) && i < |init| { assert subp[i] == init[i]; }
    }
  }

  predicate Skips(e: Env, n: Node, size: real, b: Body) {
    b in Skipped(e, n, size * size)
  }

  lemma {:induction false} CellSkips(e: Env, n: Node, size: real, b: Body)
    requires n.Cell? && Near(e, n, size)
    ensures var half := size / 2.0;
            Skips(e, n, size, b) <==> exists i :: 0 <= i < |n.subp| && Skips(e, n.subp[i], half, b)
  {
    OpensIsNear(e, n, size);
    var half := size / 2.0;
    var dsq := half * half;
    assert size * size / 4.0 == dsq;
    SkippedOfIn(e, n.subp, dsq, b);
    if i :| 0 <= i < |n.subp| && b in Skipped(e, n.subp[i], dsq) { assert Skips(e, n.subp[i], half, b); }
  }

  lemma {:induction false} SkipIsMet(e: Env, n: Node, size: real, b: Body)
    requires Skips(e, n, size, b)
    ensures b.id == e.pskip && exists p :: InOpenLeaf(e, n, size, p, b)
    decreases n
  {
    OpensIsNear(e, n, size);
    if n.Leaf? {
      SelvesIn(e, n.bodies, b);
      assert NodeAlong(n, []) == n && NearAbove(e, n, size, []);
      assert InOpenLeaf(e, n, size, [], b);
    } else {
      var half := size / 2.0;
      CellSkips(e, n, size, b);
      var i :| 0 <= i < |n.subp| && Skips(e, n.subp[i], half, b);
      SkipIsMet(e, n.subp[i], half, b);
      var kid := n.subp[i];
      var p :| InOpenLeaf(e, kid, half, p, b);
      OpenLeafDown(e, n, size, i, p, b);
    }
  }

  lemma {:induction false} MetIsSkipped(e: Env, n: Node, size: real, p: seq<nat>, b: Body)
    requires InOpenLeaf(e, n, size, p, b) && b.id == e.pskip
    ensures Skips(e, n, size, b)
    decreases |p|
  {
    if p == [] {
      OpensIsNear(e, n, size);
      SelvesIn(e, n.bodies, b);
    } else {
      assert n.Cell? && p[0] < |n.subp|;
      assert p == [p[0]] + p[1..];
      OpenLeafDown(e, n, size, p[0], p[1..], b);
      assert Near(e, n, size);
      MetIsSkipped(e, n.subp[p[0]], size / 2.0, p[1..], b);
      CellSkips(e, n, size, b);
    }
  }

  /** The walk skips the body it is for, and meets it exactly if its leaf and all above are near. */
  lemma {:induction false} SkippedIfNear(e: Env, root: Node, rsize: real, b: Body)
    ensures Skips(e, root, rsize, b) <==> b.id == e.pskip && exists p :: InOpenLeaf(e, root, rsize, p, b)
  {
    if Skips(e, root, rsize, b) { SkipIsMet(e, root, rsize, b); }
    if p :| InOpenLeaf(e, root, rsize, p, b) && b.id == e.pskip { MetIsSkipped(e, root, rsize, p, b); }
  }

  // ---------------------------------------------------------------- what follows

  lemma {:induction false} SizeNotZero(size: real, k: nat)
    requires size != 0.0
    ensures SizeAt(size, k) != 0.0
  {
    if k > 0 { SizeNotZero(size, k - 1); }
  }

  lemma {:induction false} SquarePositive(x: real)
    requires x != 0.0
    ensures Square(x) > 0.0
  {
    if x > 0.0 {
      ProductPositive(x, x);
    } else {
      ProductOfNegatives(x, x);
      ProductPositive(-x, -x);
    }
  }

  lemma {:induction false} NeitherZero(a: real, b: real, c: real)
    requires 0.0 < c <= a * b
    ensures a != 0.0 && b != 0.0
  {
    assert 0.0 * b == 0.0 && a * 0.0 == 0.0;
  }

  lemma {:induction false} FarIsAway(e: Env, n: Node, size: real)
    requires Far(e, n, size) && size != 0.0
    ensures n.pos != e.pos0 && e.tolsq != 0.0
  {
    SquarePositive(size);
    NeitherZero(e.tolsq, DistSq(e, n.pos), Square(size));
    assert DistSq(e, e.pos0) == 0.0;
  }

  /** Nothing is taken whole that stands where the body is, so no body attracts itself through
      its own leaf; and with tolerance 0 nothing is taken whole: the walk is direct summation. */
  lemma {:induction false} WholeIsAway(e: Env, root: Node, rsize: real, p: seq<nat>, t: Term)
    requires rsize != 0.0 && Whole(e, root, rsize, p, t)
    ensures NodeAlong(root, p).pos != e.pos0 && e.tolsq != 0.0
  {
    SizeNotZero(rsize, |p|);
    FarIsAway(e, NodeAlong(root, p), SizeAt(rsize, |p|));
  }

  lemma {:induction false} ZeroToleranceIsDirect(e: Env, root: Node, rsize: real, t: Term)
    requires rsize != 0.0 && e.tolsq == 0.0 && Makes(e, root, rsize, t)
    ensures t.ref.BodyAt? && |t.covers| == 1
  {
    MadeIsWanted(e, root, rsize, t);
    forall p ensures !Whole(e, root, rsize, p, t) {
      if Whole(e, root, rsize, p, t) { WholeIsAway(e, root, rsize, p, t); }
    }
  }
}
