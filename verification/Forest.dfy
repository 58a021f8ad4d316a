/** Sums over a tree given by parent links: each node's total is its own part and the totals of
    its children.  Both bottom-up sums, that of the octree and that of the FMM grid, are such. */
module Forest {
  import opened Options

  /** The sum of the chosen entries among the first k. */
  ghost function SumIn(v: seq<real>, chosen: set<nat>, k: nat): real
    requires k <= |v|
  {
    if k == 0 then 0.0 else SumIn(v, chosen, k - 1) + if k - 1 in chosen then v[k - 1] else 0.0
  }

  ghost function Kids(up: seq<Option<nat>>, b: nat): set<nat> {
    set c | 0 <= c < |up| && up[c] == Some(b)
  }

  /** The nodes that hang below one of the first n. */
  ghost function KidsOf(up: seq<Option<nat>>, n: nat): set<nat> {
    set c | 0 <= c < |up| && up[c].Some? && up[c].value < n
  }

  function SumAll(v: seq<real>, k: nat): real
    requires k <= |v|
  {
    if k == 0 then 0.0 else SumAll(v, k - 1) + v[k - 1]
  }

  lemma {:induction false} AllChosen(v: seq<real>, chosen: set<nat>, k: nat)
    requires k <= |v| && forall c: nat :: c < k ==> c in chosen
    ensures SumIn(v, chosen, k) == SumAll(v, k)
  {
    if k > 0 { AllChosen(v, chosen, k - 1); }
  }

  lemma {:induction false} SumJoins(v: seq<real>, a: set<nat>, b: set<nat>, k: nat)
    requires k <= |v| && a !! b
    ensures SumIn(v, a + b, k) == SumIn(v, a, k) + SumIn(v, b, k)
  {
    if k > 0 { SumJoins(v, a, b, k - 1); }
  }

  lemma {:induction false} SumNone(v: seq<real>, k: nat)
    requires k <= |v|
    ensures SumIn(v, {}, k) == 0.0
  {
    if k > 0 { SumNone(v, k - 1); }
  }

  lemma {:induction false} SumOne(v: seq<real>, c: nat, k: nat)
    requires k <= |v|
    ensures SumIn(v, {c}, k) == if c < k then v[c] else 0.0
  {
    if k > 0 { SumOne(v, c, k - 1); }
  }

  lemma {:induction false} SumIndicator(v: seq<real>, at: nat, k: nat)
    requires k <= |v| && forall b :: 0 <= b < |v| ==> v[b] == if b == at then 1.0 else 0.0
    ensures SumAll(v, k) == if at < k then 1.0 else 0.0
  {
    if k > 0 { SumIndicator(v, at, k - 1); }
  }

  // ---------------------------------------------------------------- slots

  ghost function SlotValue(v: seq<real>, slot: Option<nat>): real {
    if slot.Some? && slot.value < |v| then v[slot.value] else 0.0
  }

  ghost function SlotSum(v: seq<real>, slots: seq<Option<nat>>): real {
    if slots == [] then 0.0 else SlotValue(v, slots[0]) + SlotSum(v, slots[1..])
  }

  lemma {:induction false} SlotSumLast(v: seq<real>, slots: seq<Option<nat>>)
    requires slots != []
    ensures SlotSum(v, slots) == SlotSum(v, slots[..|slots| - 1]) + SlotValue(v, slots[|slots| - 1])
  {
    var n := |slots| - 1;
    if n > 0 {
      SlotSumLast(v, slots[1..]);
      assert slots[1..][..n - 1] == slots[..n][1..];
    }
  }

  ghost function InSlots(slots: seq<Option<nat>>): set<nat> {
    set i | 0 <= i < |slots| && slots[i].Some? :: slots[i].value
  }

  predicate SlotsDistinct(slots: seq<Option<nat>>) {
    forall i, j :: 0 <= i < j < |slots| && slots[i].Some? ==> slots[i] != slots[j]
  }

  /** Slot by slot or node by node, the sum is the same. */
  lemma {:induction false} SlotsAreKids(v: seq<real>, slots: seq<Option<nat>>)
    requires SlotsDistinct(slots)
    ensures SlotSum(v, slots) == SumIn(v, InSlots(slots), |v|)
  {
    if slots == [] {
      assert InSlots(slots) == {};
      SumNone(v, |v|);
    } else {
      var first, rest := slots[0], slots[1..];
      SlotsAreKids(v, rest);
      if first.Some? {
        assert InSlots(slots) == {first.value} + InSlots(rest);
        assert {first.value} !! InSlots(rest);
        SumJoins(v, {first.value}, InSlots(rest), |v|);
        SumOne(v, first.value, |v|);
      } else {
        assert InSlots(slots) == InSlots(rest);
      }
    }
  }

  // ---------------------------------------------------------------- conservation

  /** total is own summed up along the links. */
  ghost predicate SumsUp(up: seq<Option<nat>>, own: seq<real>, total: seq<real>) {
    && |up| == |own| == |total|
    && (forall c :: 0 <= c < |up| && up[c].Some? ==> up[c].value < |up|)
    && (forall b :: 0 <= b < |up| ==> total[b] == own[b] + SumIn(total, Kids(up, b), |up|))
  }

  lemma {:induction false} EachKidOnce(up: seq<Option<nat>>, own: seq<real>, total: seq<real>, n: nat)
    requires SumsUp(up, own, total) && n <= |up|
    ensures SumAll(total, n) == SumAll(own, n) + SumIn(total, KidsOf(up, n), |up|)
  {
    if n == 0 {
      assert KidsOf(up, 0) == {};
      SumNone(total, |up|);
    } else {
      EachKidOnce(up, own, total, n - 1);
      assert KidsOf(up, n) == KidsOf(up, n - 1) + Kids(up, n - 1);
      SumJoins(total, KidsOf(up, n - 1), Kids(up, n - 1), |up|);
    }
  }

  /** With one root, its total is the sum of all own parts, each counted once. */
  lemma {:induction false} RootHoldsAll(up: seq<Option<nat>>, own: seq<real>, total: seq<real>, root: nat)
    requires SumsUp(up, own, total) && root < |up|
    requires forall b :: 0 <= b < |up| ==> (up[b].None? <==> b == root)
    ensures total[root] == SumAll(own, |up|)
  {
    var n := |up|;
    EachKidOnce(up, own, total, n);
    AllChosen(total, KidsOf(up, n) + {root}, n);
    SumJoins(total, KidsOf(up, n), {root}, n);
    SumOne(total, root, n);
  }
}
