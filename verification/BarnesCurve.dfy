/** The direction tables as a curve through the octants: each row goes from octant to octant
    through a face. */
module BarnesCurve {
  import opened BarnesTables
  import opened OctreePaths
  import opened BarnesDirections

  /** The octants differ along one axis only. */
  predicate Touch(a: Octant, b: Octant) {
    || (a.x != b.x && a.y == b.y && a.z == b.z)
    || (a.x == b.x && a.y != b.y && a.z == b.z)
    || (a.x == b.x && a.y == b.y && a.z != b.z)
  }

  predicate SlotsTouch(r: nat, s: nat) {
    r < NSUB && s < NSUB && Touch(OCTANTS[r], OCTANTS[s])
  }

  predicate RowTouches(row: seq<nat>) {
    |row| == NSUB && forall i :: 0 <= i < NSUB - 1 ==> SlotsTouch(row[i], row[i + 1])
  }

  ghost predicate RowsTouch(rows: seq<seq<nat>>) {
    forall d :: 0 <= d < |rows| ==> RowTouches(rows[d])
  }

  lemma {:induction false} RowIsCurve(row: seq<nat>)
    requires |row| == NSUB
    requires SlotsTouch(row[0], row[1]) && SlotsTouch(row[1], row[2]) && SlotsTouch(row[2], row[3])
    requires SlotsTouch(row[3], row[4]) && SlotsTouch(row[4], row[5]) && SlotsTouch(row[5], row[6])
    requires SlotsTouch(row[6], row[7])
    ensures RowTouches(row)
  {
  }

  lemma {:induction false} Curve0()
    ensures RowsTouch(CHILD_0)
  {
    RowIsCurve(CHILD_0[0]);
    RowIsCurve(CHILD_0[1]);
    RowIsCurve(CHILD_0[2]);
    RowIsCurve(CHILD_0[3]);
  }

  lemma {:induction false} Curve4()
    ensures RowsTouch(CHILD_4)
  {
    RowIsCurve(CHILD_4[0]);
    RowIsCurve(CHILD_4[1]);
    RowIsCurve(CHILD_4[2]);
    RowIsCurve(CHILD_4[3]);
  }

  lemma {:induction false} Curve8()
    ensures RowsTouch(CHILD_8)
  {
    RowIsCurve(CHILD_8[0]);
    RowIsCurve(CHILD_8[1]);
    RowIsCurve(CHILD_8[2]);
    RowIsCurve(CHILD_8[3]);
  }

  lemma {:induction false} Curve12()
    ensures RowsTouch(CHILD_12)
  {
    RowIsCurve(CHILD_12[0]);
    RowIsCurve(CHILD_12[1]);
    RowIsCurve(CHILD_12[2]);
    RowIsCurve(CHILD_12[3]);
  }

  lemma {:induction false} Curve16()
    ensures RowsTouch(CHILD_16)
  {
    RowIsCurve(CHILD_16[0]);
    RowIsCurve(CHILD_16[1]);
    RowIsCurve(CHILD_16[2]);
    RowIsCurve(CHILD_16[3]);
  }

  lemma {:induction false} Curve20()
    ensures RowsTouch(CHILD_20)
  {
    RowIsCurve(CHILD_20[0]);
    RowIsCurve(CHILD_20[1]);
    RowIsCurve(CHILD_20[2]);
    RowIsCurve(CHILD_20[3]);
  }

  lemma {:induction false} Curve24()
    ensures RowsTouch(CHILD_24)
  {
    RowIsCurve(CHILD_24[0]);
    RowIsCurve(CHILD_24[1]);
    RowIsCurve(CHILD_24[2]);
    RowIsCurve(CHILD_24[3]);
  }

  lemma {:induction false} Curve28()
    ensures RowsTouch(CHILD_28)
  {
    RowIsCurve(CHILD_28[0]);
    RowIsCurve(CHILD_28[1]);
    RowIsCurve(CHILD_28[2]);
    RowIsCurve(CHILD_28[3]);
  }

  /** In every direction the walk goes from each child to one that shares a face with it. */
  lemma {:induction false} RowsAreCurves()
    ensures RowsTouch(CHILD_SEQUENCE)
  {
    Curve0();
    Curve4();
    Curve8();
    Curve12();
    Curve16();
    Curve20();
    Curve24();
    Curve28();
  }
}
