/** The sizes of the octree walk, and what its constant direction tables
    (papps/splash2/codes/apps/barnes/code.C) have to be. */
module BarnesTables {
  const NSUB: nat := 8
  const NUM_DIRECTIONS: nat := 32
  const BRC_FUC: nat := 0
}

/** The direction tables themselves. */
module BarnesDirections {
  import opened Zones
  import opened BarnesTables

  // Four rows at a time.

  const CHILD_0: seq<seq<nat>> := [
    [2, 5, 6, 1, 0, 3, 4, 7],
    [2, 5, 6, 1, 0, 7, 4, 3],
    [1, 6, 5, 2, 3, 0, 7, 4],
    [1, 6, 5, 2, 3, 4, 7, 0]
  ]

  const CHILD_4: seq<seq<nat>> := [
    [6, 1, 2, 5, 4, 7, 0, 3],
    [6, 1, 2, 5, 4, 3, 0, 7],
    [5, 2, 1, 6, 7, 4, 3, 0],
    [5, 2, 1, 6, 7, 0, 3, 4]
  ]

  const CHILD_8: seq<seq<nat>> := [
    [1, 2, 5, 6, 7, 4, 3, 0],
    [1, 2, 5, 6, 7, 0, 3, 4],
    [6, 5, 2, 1, 0, 3, 4, 7],
    [6, 5, 2, 1, 0, 7, 4, 3]
  ]

  const CHILD_12: seq<seq<nat>> := [
    [5, 6, 1, 2, 3, 0, 7, 4],
    [5, 6, 1, 2, 3, 4, 7, 0],
    [2, 1, 6, 5, 4, 7, 0, 3],
    [2, 1, 6, 5, 4, 3, 0, 7]
  ]

  const CHILD_16: seq<seq<nat>> := [
    [3, 4, 7, 0, 1, 2, 5, 6],
    [3, 4, 7, 0, 1, 6, 5, 2],
    [0, 7, 4, 3, 2, 1, 6, 5],
    [0, 7, 4, 3, 2, 5, 6, 1]
  ]

  const CHILD_20: seq<seq<nat>> := [
    [7, 0, 3, 4, 5, 6, 1, 2],
    [7, 0, 3, 4, 5, 2, 1, 6],
    [4, 3, 0, 7, 6, 5, 2, 1],
    [4, 3, 0, 7, 6, 1, 2, 5]
  ]

  const CHILD_24: seq<seq<nat>> := [
    [0, 3, 4, 7, 6, 5, 2, 1],
    [0, 3, 4, 7, 6, 1, 2, 5],
    [7, 4, 3, 0, 1, 2, 5, 6],
    [7, 4, 3, 0, 1, 6, 5, 2]
  ]

  const CHILD_28: seq<seq<nat>> := [
    [4, 7, 0, 3, 2, 1, 6, 5],
    [4, 7, 0, 3, 2, 5, 6, 1],
    [3, 0, 7, 4, 5, 6, 1, 2],
    [3, 0, 7, 4, 5, 2, 1, 6]
  ]

  const CHILD_SEQUENCE: seq<seq<nat>> :=
    CHILD_0 + CHILD_4 + CHILD_8 + CHILD_12
    + CHILD_16 + CHILD_20 + CHILD_24 + CHILD_28

  const DIRECTION_0: seq<seq<nat>> := [
    [16, 3, 30, 6, 9, 26, 3, 31],
    [16, 3, 30, 6, 2, 17, 8, 20],
    [18, 1, 24, 4, 15, 28, 1, 25],
    [18, 1, 24, 4, 9, 26, 3, 31]
  ]

  const DIRECTION_4: seq<seq<nat>> := [
    [20, 7, 26, 2, 13, 30, 7, 27],
    [20, 7, 26, 2, 6, 21, 12, 16],
    [22, 5, 28, 0, 11, 24, 5, 29],
    [22, 5, 28, 0, 4, 23, 10, 18]
  ]

  const DIRECTION_8: seq<seq<nat>> := [
    [25, 10, 19, 15, 11, 24, 5, 29],
    [25, 10, 19, 15, 4, 23, 10, 18],
    [27, 8, 21, 13, 9, 26, 3, 31],
    [27, 8, 21, 13, 2, 17, 8, 20]
  ]

  const DIRECTION_12: seq<seq<nat>> := [
    [29, 14, 23, 11, 15, 28, 1, 25],
    [29, 14, 23, 11, 9, 26, 3, 31],
    [31, 12, 17, 9, 13, 30, 7, 27],
    [31, 12, 17, 9, 6, 21, 12, 16]
  ]

  const DIRECTION_16: seq<seq<nat>> := [
    [9, 26, 3, 31, 25, 10, 19, 15],
    [9, 26, 3, 31, 18, 1, 24, 4],
    [2, 17, 8, 20, 31, 12, 17, 9],
    [2, 17, 8, 20, 16, 3, 30, 6]
  ]

  const DIRECTION_20: seq<seq<nat>> := [
    [4, 23, 10, 18, 29, 14, 23, 11],
    [4, 23, 10, 18, 22, 5, 28, 0],
    [6, 21, 12, 16, 27, 8, 21, 13],
    [6, 21, 12, 16, 20, 7, 26, 2]
  ]

  const DIRECTION_24: seq<seq<nat>> := [
    [9, 26, 3, 31, 27, 8, 21, 13],
    [9, 26, 3, 31, 20, 7, 26, 2],
    [11, 24, 5, 29, 25, 10, 19, 15],
    [11, 24, 5, 29, 18, 1, 24, 4]
  ]

  const DIRECTION_28: seq<seq<nat>> := [
    [13, 30, 7, 27, 31, 12, 17, 9],
    [13, 30, 7, 27, 16, 3, 30, 6],
    [15, 28, 1, 25, 29, 14, 23, 11],
    [15, 28, 1, 25, 22, 5, 28, 0]
  ]

  const DIRECTION_SEQUENCE: seq<seq<nat>> :=
    DIRECTION_0 + DIRECTION_4 + DIRECTION_8 + DIRECTION_12
    + DIRECTION_16 + DIRECTION_20 + DIRECTION_24 + DIRECTION_28

  /** A row is right when each child is found in it, here at index i0, ..., i7. */
  lemma {:induction false} RowIs(
    c: seq<nat>, d: seq<nat>, i0: nat, i1: nat, i2: nat, i3: nat, i4: nat, i5: nat, i6: nat, i7: nat)
    requires |c| == |d| == NSUB
    requires i0 < NSUB && i1 < NSUB && i2 < NSUB && i3 < NSUB && i4 < NSUB && i5 < NSUB && i6 < NSUB && i7 < NSUB
    requires c[i0] == 0 && c[i1] == 1 && c[i2] == 2 && c[i3] == 3
    requires c[i4] == 4 && c[i5] == 5 && c[i6] == 6 && c[i7] == 7
    requires forall i :: 0 <= i < NSUB ==> c[i] < NSUB && d[i] < NUM_DIRECTIONS
    ensures RowOk(c, d, NUM_DIRECTIONS, NSUB)
  {
  }

  ghost predicate RowsOk(child: seq<seq<nat>>, dir: seq<seq<nat>>) {
    |child| == |dir| && forall d :: 0 <= d < |child| ==> RowOk(child[d], dir[d], NUM_DIRECTIONS, NSUB)
  }

  lemma {:induction false} RowsJoin(child: seq<seq<nat>>, dir: seq<seq<nat>>, more: seq<seq<nat>>, moreDir: seq<seq<nat>>)
    requires RowsOk(child, dir) && RowsOk(more, moreDir)
    ensures RowsOk(child + more, dir + moreDir)
  {
  }

  lemma {:induction false} Rows0()
    ensures RowsOk(CHILD_0, DIRECTION_0)
  {
    RowIs(CHILD_0[0], DIRECTION_0[0], 4, 3, 0, 5, 6, 1, 2, 7);
    RowIs(CHILD_0[1], DIRECTION_0[1], 4, 3, 0, 7, 6, 1, 2, 5);
    RowIs(CHILD_0[2], DIRECTION_0[2], 5, 0, 3, 4, 7, 2, 1, 6);
    RowIs(CHILD_0[3], DIRECTION_0[3], 7, 0, 3, 4, 5, 2, 1, 6);
  }

  lemma {:induction false} Rows4()
    ensures RowsOk(CHILD_4, DIRECTION_4)
  {
    RowIs(CHILD_4[0], DIRECTION_4[0], 6, 1, 2, 7, 4, 3, 0, 5);
    RowIs(CHILD_4[1], DIRECTION_4[1], 6, 1, 2, 5, 4, 3, 0, 7);
    RowIs(CHILD_4[2], DIRECTION_4[2], 7, 2, 1, 6, 5, 0, 3, 4);
    RowIs(CHILD_4[3], DIRECTION_4[3], 5, 2, 1, 6, 7, 0, 3, 4);
  }

  lemma {:induction false} Rows8()
    ensures RowsOk(CHILD_8, DIRECTION_8)
  {
    RowIs(CHILD_8[0], DIRECTION_8[0], 7, 0, 1, 6, 5, 2, 3, 4);
    RowIs(CHILD_8[1], DIRECTION_8[1], 5, 0, 1, 6, 7, 2, 3, 4);
    RowIs(CHILD_8[2], DIRECTION_8[2], 4, 3, 2, 5, 6, 1, 0, 7);
    RowIs(CHILD_8[3], DIRECTION_8[3], 4, 3, 2, 7, 6, 1, 0, 5);
  }

  lemma {:induction false} Rows12()
    ensures RowsOk(CHILD_12, DIRECTION_12)
  {
    RowIs(CHILD_12[0], DIRECTION_12[0], 5, 2, 3, 4, 7, 0, 1, 6);
    RowIs(CHILD_12[1], DIRECTION_12[1], 7, 2, 3, 4, 5, 0, 1, 6);
    RowIs(CHILD_12[2], DIRECTION_12[2], 6, 1, 0, 7, 4, 3, 2, 5);
    RowIs(CHILD_12[3], DIRECTION_12[3], 6, 1, 0, 5, 4, 3, 2, 7);
  }

  lemma {:induction false} Rows16()
    ensures RowsOk(CHILD_16, DIRECTION_16)
  {
    RowIs(CHILD_16[0], DIRECTION_16[0], 3, 4, 5, 0, 1, 6, 7, 2);
    RowIs(CHILD_16[1], DIRECTION_16[1], 3, 4, 7, 0, 1, 6, 5, 2);
    RowIs(CHILD_16[2], DIRECTION_16[2], 0, 5, 4, 3, 2, 7, 6, 1);
    RowIs(CHILD_16[3], DIRECTION_16[3], 0, 7, 4, 3, 2, 5, 6, 1);
  }

  lemma {:induction false} Rows20()
    ensures RowsOk(CHILD_20, DIRECTION_20)
  {
    RowIs(CHILD_20[0], DIRECTION_20[0], 1, 6, 7, 2, 3, 4, 5, 0);
    RowIs(CHILD_20[1], DIRECTION_20[1], 1, 6, 5, 2, 3, 4, 7, 0);
    RowIs(CHILD_20[2], DIRECTION_20[2], 2, 7, 6, 1, 0, 5, 4, 3);
    RowIs(CHILD_20[3], DIRECTION_20[3], 2, 5, 6, 1, 0, 7, 4, 3);
  }

  lemma {:induction false} Rows24()
    ensures RowsOk(CHILD_24, DIRECTION_24)
  {
    RowIs(CHILD_24[0], DIRECTION_24[0], 0, 7, 6, 1, 2, 5, 4, 3);
    RowIs(CHILD_24[1], DIRECTION_24[1], 0, 5, 6, 1, 2, 7, 4, 3);
    RowIs(CHILD_24[2], DIRECTION_24[2], 3, 4, 5, 2, 1, 6, 7, 0);
    RowIs(CHILD_24[3], DIRECTION_24[3], 3, 4, 7, 2, 1, 6, 5, 0);
  }

  lemma {:induction false} Rows28()
    ensures RowsOk(CHILD_28, DIRECTION_28)
  {
    RowIs(CHILD_28[0], DIRECTION_28[0], 2, 5, 4, 3, 0, 7, 6, 1);
    RowIs(CHILD_28[1], DIRECTION_28[1], 2, 7, 4, 3, 0, 5, 6, 1);
    RowIs(CHILD_28[2], DIRECTION_28[2], 1, 6, 7, 0, 3, 4, 5, 2);
    RowIs(CHILD_28[3], DIRECTION_28[3], 1, 6, 5, 0, 3, 4, 7, 2);
  }

  /** The constant tables are what the walk needs: every row orders all eight children and
      leads to a direction that has a row. */
  lemma {:induction false} DirectionsOk()
    ensures TablesOk(Tables(CHILD_SEQUENCE, DIRECTION_SEQUENCE), NUM_DIRECTIONS, NSUB)
  {
    Rows0();
    var child, dir := CHILD_0, DIRECTION_0;
    Rows4();
    RowsJoin(child, dir, CHILD_4, DIRECTION_4);
    child, dir := child + CHILD_4, dir + DIRECTION_4;
    Rows8();
    RowsJoin(child, dir, CHILD_8, DIRECTION_8);
    child, dir := child + CHILD_8, dir + DIRECTION_8;
    Rows12();
    RowsJoin(child, dir, CHILD_12, DIRECTION_12);
    child, dir := child + CHILD_12, dir + DIRECTION_12;
    Rows16();
    RowsJoin(child, dir, CHILD_16, DIRECTION_16);
    child, dir := child + CHILD_16, dir + DIRECTION_16;
    Rows20();
    RowsJoin(child, dir, CHILD_20, DIRECTION_20);
    child, dir := child + CHILD_20, dir + DIRECTION_20;
    Rows24();
    RowsJoin(child, dir, CHILD_24, DIRECTION_24);
    child, dir := child + CHILD_24, dir + DIRECTION_24;
    Rows28();
    RowsJoin(child, dir, CHILD_28, DIRECTION_28);
    child, dir := child + CHILD_28, dir + DIRECTION_28;
  }
}
