/** The sizes of the quadtree walk of papps/splash2/codes/apps/fmm/cost_zones.C. */
module FmmTables {
  const NUM_OFFSPRING: nat := 4
  const NUM_DIRECTIONS: nat := 4
  const RIGHT: nat := 0
  const LEFT: nat := 1
  const UP: nat := 2
  const DOWN: nat := 3
}

/** Its direction tables. */
module FmmDirections {
  import opened Zones
  import opened FmmTables

  const CHILD_SEQUENCE: seq<seq<nat>> := [[0, 1, 2, 3], [2, 3, 0, 1], [0, 3, 2, 1], [2, 1, 0, 3]]
  const DIRECTION_SEQUENCE: seq<seq<nat>> :=
    [[UP, RIGHT, RIGHT, DOWN], [DOWN, LEFT, LEFT, UP], [RIGHT, UP, UP, LEFT], [LEFT, DOWN, DOWN, RIGHT]]

  /** The tables are what the walk needs. */
  lemma {:induction false} DirectionsOk()
    ensures TablesOk(Tables(CHILD_SEQUENCE, DIRECTION_SEQUENCE), NUM_DIRECTIONS, NUM_OFFSPRING)
  {
    forall d | 0 <= d < NUM_DIRECTIONS
      ensures RowOk(CHILD_SEQUENCE[d], DIRECTION_SEQUENCE[d], NUM_DIRECTIONS, NUM_OFFSPRING)
    {
      var c := CHILD_SEQUENCE[d];
      assert c[if d == 1 || d == 3 then 2 else 0] == 0;
      assert c[if d == 0 || d == 3 then 1 else 3] == 1;
      assert c[if d == 1 || d == 3 then 0 else 2] == 2;
      assert c[if d == 0 || d == 3 then 3 else 1] == 3;
    }
  }
}
