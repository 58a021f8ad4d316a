/** Where a body belongs in the octree: the slot numbers that subindex
    (papps/splash2/codes/apps/barnes/load.C) gives for its integer coordinates, from the root
    down.  A node of the tree is named by the slots on the way to it. */
module OctreePaths {
  import opened BarnesTables

  const MAXLEVEL: nat := 62

  type Path = seq<nat>

  /** Integer coordinates, each below IMAX = 2^MAXLEVEL. */
  datatype Coord = Coord(x: nat, y: nat, z: nat)

  function Pow2(n: nat): (r: nat)
    ensures r > 0
  {
    if n == 0 then 1 else 2 * Pow2(n - 1)
  }

  predicate InRange(c: Coord) {
    c.x < Pow2(MAXLEVEL) && c.y < Pow2(MAXLEVEL) && c.z < Pow2(MAXLEVEL)
  }

  // ---------------------------------------------------------------- subindex

  /** n & l, for l a power of two or 0. */
  predicate HasBit(n: nat, l: nat) {
    l > 0 && (n / l) % 2 == 1
  }

  /** The slot number for the three coordinate bits. */
  function Slot(a: bool, b: bool, c: bool): (r: nat)
    ensures r < NSUB
  {
    var second := a != b;
    (if a then 4 else 0) + (if second then 2 else 0) + (if second != c then 1 else 0)
  }

  /** Different bits, different slots. */
  lemma {:induction false} SlotInjective(a: bool, b: bool, c: bool, a': bool, b': bool, c': bool)
    ensures Slot(a, b, c) == Slot(a', b', c') ==> a == a' && b == b' && c == c'
  {
  }

  /** subindex, as the loop it is. */
  method SubIndex(x: seq<nat>, l: nat) returns (i: nat)
    requires |x| == 3
    ensures i == Slot(HasBit(x[0], l), HasBit(x[1], l), HasBit(x[2], l))
  {
    i := 0;
    var yes := false;
    if HasBit(x[0], l) {
      i := i + NSUB / 2;
      yes := true;
    }
    for k := 1 to 3
      invariant k == 1 ==> yes == HasBit(x[0], l) && i == (if yes then 4 else 0)
      invariant k == 2 ==> yes == (HasBit(x[0], l) != HasBit(x[1], l))
                           && i == (if HasBit(x[0], l) then 4 else 0) + (if yes then 2 else 0)
      invariant k == 3 ==> i == Slot(HasBit(x[0], l), HasBit(x[1], l), HasBit(x[2], l))
    {
      if (HasBit(x[k], l) && !yes) || (!HasBit(x[k], l) && yes) {
        i := i + NSUB / (if k == 1 then 4 else 8);
        yes := true;
      } else {
        yes := false;
      }
    }
  }

  /** The level mask at depth k: IMAX >> (k + 1), which is 0 from depth MAXLEVEL on. */
  function Mask(k: nat): nat {
    if k < MAXLEVEL then Pow2(MAXLEVEL - 1 - k) else 0
  }

  function SlotAt(c: Coord, k: nat): (r: nat)
    ensures r < NSUB
  {
    Slot(HasBit(c.x, Mask(k)), HasBit(c.y, Mask(k)), HasBit(c.z, Mask(k)))
  }

  /** The first k slots on the way down to c. */
  function Way(c: Coord, k: nat): (p: Path)
    ensures |p| == k && forall i :: 0 <= i < k ==> p[i] == SlotAt(c, i)
  {
    seq(k, i requires 0 <= i => SlotAt(c, i))
  }

  /** c is below the node at path q. */
  predicate Below(c: Coord, q: Path) {
    q == Way(c, |q|)
  }

  lemma {:induction false} WayPrefix(c: Coord, j: nat, k: nat)
    requires j <= k
    ensures Way(c, k)[..j] == Way(c, j)
  {
  }

  // ---------------------------------------------------------------- cells are cubes

  /** The octant of a slot: which half along x, y and z. */
  datatype Octant = Octant(x: nat, y: nat, z: nat)

  const OCTANTS: seq<Octant> := [
    Octant(0, 0, 0), Octant(0, 0, 1), Octant(0, 1, 1), Octant(0, 1, 0),
    Octant(1, 1, 0), Octant(1, 1, 1), Octant(1, 0, 1), Octant(1, 0, 0)
  ]

  function Bit(b: bool): nat { if b then 1 else 0 }

  /** Three bits lead to the slot of their octant, and no other slot has it. */
  lemma {:induction false} SlotIsOctant(a: bool, b: bool, c: bool, s: nat)
    requires s < NSUB
    ensures s == Slot(a, b, c) <==> OCTANTS[s] == Octant(Bit(a), Bit(b), Bit(c))
  {
  }

  /** The side of a cell at depth k, in units of the integer coordinates. */
  function Side(k: nat): (r: nat)
    ensures r > 0
  {
    if k < MAXLEVEL then Pow2(MAXLEVEL - k) else 1
  }

  predicate IsPath(q: Path) {
    forall i :: 0 <= i < |q| ==> q[i] < NSUB
  }

  /** The place of the cell at q among the cells of its depth, along x, y and z. */
  function Corner(q: Path): Coord
    requires IsPath(q)
  {
    if q == [] then Coord(0, 0, 0)
    else
      var p, o := Corner(q[..|q| - 1]), OCTANTS[q[|q| - 1]];
      Coord(2 * p.x + o.x, 2 * p.y + o.y, 2 * p.z + o.z)
  }

  /** n lies in the k-th of the intervals of length l. */
  predicate Within(n: nat, l: nat, k: nat) {
    k * l <= n < (k + 1) * l
  }

  /** c lies in the cube of the cell at q. */
  predicate InCube(c: Coord, q: Path)
    requires IsPath(q)
  {
    && Within(c.x, Side(|q|), Corner(q).x)
    && Within(c.y, Side(|q|), Corner(q).y)
    && Within(c.z, Side(|q|), Corner(q).z)
  }

  lemma {:induction false} MulStep(a: nat, b: nat, l: nat)
    requires a < b
    ensures b * l >= a * l + l
    decreases b
  {
    if a + 1 < b { MulStep(a, b - 1, l); }
    assert b * l == (b - 1) * l + l;
  }

  function Quotient(n: nat, l: nat): nat
    requires l > 0
  {
    n / l
  }

  lemma {:induction false} WithinIsDiv(n: nat, l: nat, k: nat)
    requires l > 0
    ensures Within(n, l, k) <==> Quotient(n, l) == k
  {
    var e := n / l;
    assert n == e * l + n % l;
    assert (e + 1) * l == e * l + l && (k + 1) * l == k * l + l;
    if e < k { MulStep(e, k, l); }
    if k < e { MulStep(k, e, l); }
  }

  /** The next bit says which half of the interval it is. */
  lemma {:induction false} NextHalf(n: nat, l: nat)
    requires l > 0
    ensures Quotient(n, l) == 2 * Quotient(n, 2 * l) + Bit(HasBit(n, l))
  {
    var e := n / l;
    assert n == e * l + n % l;
    var k := e / 2;
    assert e == 2 * k + e % 2;
    assert k * (2 * l) == (2 * k) * l;
    assert (k + 1) * (2 * l) == (2 * k) * l + 2 * l;
    assert e * l == (2 * k) * l + (e % 2) * l;
    WithinIsDiv(n, 2 * l, k);
  }

  lemma {:induction false} NextHalfAt(n: nat, k: nat)
    requires k < MAXLEVEL
    ensures Quotient(n, Side(k + 1)) == 2 * Quotient(n, Side(k)) + Bit(HasBit(n, Mask(k)))
  {
    assert Side(k) == 2 * Side(k + 1) && Mask(k) == Side(k + 1);
    NextHalf(n, Side(k + 1));
  }

  /** Where c is among the cells of depth k. */
  function Quotients(c: Coord, k: nat): Coord {
    Coord(Quotient(c.x, Side(k)), Quotient(c.y, Side(k)), Quotient(c.z, Side(k)))
  }

  /** One level further down, c is in the octant that its next bits name. */
  lemma {:induction false} NextQuotients(c: Coord, k: nat)
    requires k < MAXLEVEL
    ensures var p, o := Quotients(c, k), OCTANTS[SlotAt(c, k)];
            Quotients(c, k + 1) == Coord(2 * p.x + o.x, 2 * p.y + o.y, 2 * p.z + o.z)
  {
    SlotIsOctant(HasBit(c.x, Mask(k)), HasBit(c.y, Mask(k)), HasBit(c.z, Mask(k)), SlotAt(c, k));
    NextHalfAt(c.x, k);
    NextHalfAt(c.y, k);
    NextHalfAt(c.z, k);
  }

  lemma {:induction false} OctantsDiffer(r: nat, s: nat, p: Coord, p': Coord)
    requires r < NSUB && s < NSUB
    requires 2 * p.x + OCTANTS[r].x == 2 * p'.x + OCTANTS[s].x
    requires 2 * p.y + OCTANTS[r].y == 2 * p'.y + OCTANTS[s].y
    requires 2 * p.z + OCTANTS[r].z == 2 * p'.z + OCTANTS[s].z
    ensures r == s && p == p'
  {
  }

  lemma {:induction false} BelowStep(c: Coord, q: Path)
    requires q != []
    ensures var k := |q| - 1; Below(c, q) <==> Below(c, q[..k]) && q[k] == SlotAt(c, k)
  {
    var k := |q| - 1;
    assert q == q[..k] + [q[k]] && Way(c, k + 1) == Way(c, k) + [SlotAt(c, k)];
  }

  /** The way to c leads to the cell whose place it has, and to no other. */
  lemma {:induction false} WayIsPlace(c: Coord, q: Path)
    requires InRange(c) && IsPath(q) && |q| <= MAXLEVEL
    ensures Below(c, q) <==> Corner(q) == Quotients(c, |q|)
  {
    if q == [] {
      RootPlace(c);
    } else {
      var k := |q| - 1;
      WayIsPlace(c, q[..k]);
      NextQuotients(c, k);
      BelowStep(c, q);
      if Corner(q) == Quotients(c, k + 1) {
        OctantsDiffer(q[k], SlotAt(c, k), Corner(q[..k]), Quotients(c, k));
      }
    }
  }

  lemma {:induction false} RootPlace(c: Coord)
    requires InRange(c)
    ensures Quotients(c, 0) == Coord(0, 0, 0)
  {
    WithinIsDiv(c.x, Side(0), 0);
    WithinIsDiv(c.y, Side(0), 0);
    WithinIsDiv(c.z, Side(0), 0);
  }

  /** Cells are cubes: a body is below a node of the tree if and only if it lies in its cube. */
  lemma {:induction false} CellsAreCubes(c: Coord, q: Path)
    requires InRange(c) && IsPath(q) && |q| <= MAXLEVEL
    ensures Below(c, q) <==> InCube(c, q)
  {
    WayIsPlace(c, q);
    WithinIsDiv(c.x, Side(|q|), Corner(q).x);
    WithinIsDiv(c.y, Side(|q|), Corner(q).y);
    WithinIsDiv(c.z, Side(|q|), Corner(q).z);
  }

  /** Two bodies go the same way for k levels if and only if they are in one cube of depth k. */
  lemma {:induction false} SameWayIff(c: Coord, d: Coord, k: nat)
    requires InRange(c) && InRange(d) && k <= MAXLEVEL
    ensures Way(c, k) == Way(d, k) <==> Quotients(c, k) == Quotients(d, k)
  {
    WayIsPlace(c, Way(c, k));
    WayIsPlace(d, Way(c, k));
  }

  /** Bodies that agree on all MAXLEVEL slots have the same integer coordinates. */
  lemma {:induction false} SameWaySameCoord(c: Coord, d: Coord)
    requires InRange(c) && InRange(d) && Way(c, MAXLEVEL) == Way(d, MAXLEVEL)
    ensures c == d
  {
    SameWayIff(c, d, MAXLEVEL);
  }
}
