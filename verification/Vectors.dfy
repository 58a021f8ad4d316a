/** Vectors over the reals, as the macros of papps/splash2/codes/apps/barnes/vectmath.H compute
    them. */
module Vectors {
  datatype Vec = Vec(x: real, y: real, z: real)

  const ORIGIN := Vec(0.0, 0.0, 0.0)

  function AddV(a: Vec, b: Vec): Vec { Vec(a.x + b.x, a.y + b.y, a.z + b.z) }
  function SubV(a: Vec, b: Vec): Vec { Vec(a.x - b.x, a.y - b.y, a.z - b.z) }
  function MulVS(a: Vec, k: real): Vec { Vec(a.x * k, a.y * k, a.z * k) }
  function DivVS(a: Vec, k: real): Vec requires k != 0.0 { Vec(a.x / k, a.y / k, a.z / k) }
  function Dot(a: Vec, b: Vec): real { a.x * b.x + a.y * b.y + a.z * b.z }

  // ---------------------------------------------------------------- products

  function Product(a: real, b: real): real { a * b }

  lemma {:induction false} ProductGrows(a: real, b: real, n: real)
    requires n > 0.0
    ensures a <= b ==> Product(a, n) <= Product(b, n)
    ensures a < b ==> Product(a, n) < Product(b, n)
  {
    assert (b - a) * n == b * n - a * n;
  }

  lemma {:induction false} ProductPositive(a: real, b: real)
    requires a > 0.0 && b > 0.0
    ensures Product(a, b) > 0.0
  {
  }

  lemma {:induction false} ProductOfNegatives(a: real, b: real)
    ensures Product(a, b) == Product(-a, -b)
  {
  }

  lemma {:induction false} ProductOfInts(a: int, b: int)
    ensures (a * b) as real == Product(a as real, b as real)
  {
  }

  lemma {:induction false} PartTimes(t: real, n: real, q: real)
    requires n > 0.0
    ensures Product((t / n) * q, n) == Product(t, q)
  {
    var a := t / n;
    assert a * n == t;
    assert a * q * n == (a * n) * q;
  }
}
