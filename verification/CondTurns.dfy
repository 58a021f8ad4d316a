/** When det_cond_wait and det_cond_signal keep their promise.  It holds if and only if every
    grant is guarded; a grant is guarded when the scan behind it was not overtaken by a lowered
    clock; and with two threads no scan ever is. */
module CondTurns {
  import opened Limits
  import opened CondVar

  // ---------------------------------------------------------------- guarded grants are needed

  /** The assertion of det_cond_wait: whoever can get through its semaphore is below the bound. */
  predicate WokenLow(m: Machine) {
    forall u: nat :: u < |m.clock| && Can(m, Wake(u)) ==> m.clock[u] < MAX_LOGICAL_CLOCK
  }

  /** The assertion holds from here on, as long as later grants are guarded. */
  ghost predicate Safe(m: Machine) {
    forall acts :: CanAll(m, acts) && GrantsGuarded(m, acts) ==> WokenLow(DoAll(m, acts))
  }

  lemma {:induction false} InvSafe(m: Machine)
    requires Inv(m)
    ensures Safe(m)
  {
    forall acts | CanAll(m, acts) && GrantsGuarded(m, acts)
      ensures WokenLow(DoAll(m, acts))
    {
      RunInv(m, acts);
      var s := DoAll(m, acts);
      forall u: nat | u < |s.clock| && Can(s, Wake(u)) ensures s.clock[u] < MAX_LOGICAL_CLOCK { assert ClockOk(s, u); }
    }
  }

  /** One more step in front. */
  lemma {:induction false} Ahead(m: Machine, a: Act, acts: seq<Act>)
    requires Can(m, a) && !a.Grant? && CanAll(Do(m, a), acts) && GrantsGuarded(Do(m, a), acts)
    ensures CanAll(m, [a] + acts) && GrantsGuarded(m, [a] + acts)
    ensures DoAll(m, [a] + acts) == DoAll(Do(m, a), acts)
  {
    RunCons(m, a, acts);
    assert ([a] + acts)[1..] == acts;
  }

  /** The signal that takes u from the head of the queue comes before u has parked. */
  lemma {:induction false} EarlySignal(m: Machine, t: nat) returns (acts: seq<Act>)
    requires PlacesOk(m) && t < |m.clock| && m.pc[t].Hold? && m.clock[t] < MAX_LOGICAL_CLOCK
    requires m.queue != [] && m.pc[m.queue[0]].Unlocked?
    ensures CanAll(m, acts) && GrantsGuarded(m, acts) && !WokenLow(DoAll(m, acts))
  {
    var u := m.queue[0];
    var r := Do(m, Signal(t));
    var e := Do(r, Raise(u));
    assert Can(e, Wake(u)) && e.clock[u] >= MAX_LOGICAL_CLOCK;
    assert DoAll(e, []) == e;
    Ahead(r, Raise(u), []);
    Ahead(m, Signal(t), [Raise(u)]);
    acts := [Signal(t)] + [Raise(u)];
  }

  /** A holder that has room to signal its way to a thread that has not parked yet breaks the
      assertion. */
  lemma {:induction false} SignalsReach(m: Machine, t: nat, i: nat) returns (acts: seq<Act>)
    requires PlacesOk(m) && t < |m.clock| && m.pc[t].Hold?
    requires i < |m.queue| && m.pc[m.queue[i]].Unlocked? && m.clock[t] + i < MAX_LOGICAL_CLOCK
    ensures CanAll(m, acts) && GrantsGuarded(m, acts) && !WokenLow(DoAll(m, acts))
    decreases i
  {
    if i == 0 {
      acts := EarlySignal(m, t);
    } else {
      assert PlaceOk(m, t) && PlaceOk(m, m.queue[0]);
      var r := Do(m, Signal(t));
      StepKeepsPlaces(m, Signal(t));
      StepKeepsPlaces(r, Raise(t));
      var rest := SignalsReach(Do(r, Raise(t)), t, i - 1);
      Ahead(r, Raise(t), rest);
      Ahead(m, Signal(t), [Raise(t)] + rest);
      acts := [Signal(t)] + ([Raise(t)] + rest);
    }
  }

  /** A grant that is not guarded can be followed by a run that breaks the assertion. */
  lemma {:induction false} UnguardedBreaks(m: Machine, t: nat) returns (acts: seq<Act>)
    requires PlacesOk(m) && Can(m, Grant(t)) && !Guarded(m, t)
    ensures var r := Do(m, Grant(t));
            CanAll(r, acts) && GrantsGuarded(r, acts) && !WokenLow(DoAll(r, acts))
  {
    var i :| 0 <= i < |m.queue| && m.pc[m.queue[i]].Unlocked? && m.clock[t] + 1 + i < MAX_LOGICAL_CLOCK;
    var r := Do(m, Grant(t));
    StepKeepsPlaces(m, Grant(t));
    StepKeepsPlaces(r, Raise(t));
    var rest := SignalsReach(Do(r, Raise(t)), t, i);
    Ahead(r, Raise(t), rest);
    acts := [Raise(t)] + rest;
  }

  /** For one grant: the assertion holds in every continuation if and only if it is guarded. */
  lemma {:induction false} GrantSafeIff(m: Machine, t: nat)
    requires Inv(m) && Can(m, Grant(t))
    ensures Safe(Do(m, Grant(t))) <==> Guarded(m, t)
  {
    if Guarded(m, t) {
      GrantKeepsInv(m, t);
      InvSafe(Do(m, Grant(t)));
    } else {
      var acts := UnguardedBreaks(m, t);
    }
  }

  /** Every state a run passes through is safe. */
  ghost predicate AllSafe(m: Machine, acts: seq<Act>)
    requires CanAll(m, acts)
    decreases |acts|
  {
    Safe(m) && (acts != [] ==> AllSafe(Do(m, acts[0]), acts[1..]))
  }

  lemma {:induction false} AllSafeIff(m: Machine, acts: seq<Act>)
    requires Inv(m) && CanAll(m, acts)
    ensures AllSafe(m, acts) <==> GrantsGuarded(m, acts)
    decreases |acts|
  {
    InvSafe(m);
    if acts != [] {
      var a := acts[0];
      if a.Grant? { GrantSafeIff(m, a.t); }
      if a.Grant? ==> Guarded(m, a.t) {
        StepKeepsInv(m, a);
        AllSafeIff(Do(m, a), acts[1..]);
      }
    }
  }

  /** For every run: no state of it can lead to a failed assertion if and only if all of its
      grants are guarded. */
  lemma {:induction false} RunSafeIff(m: Machine, acts: seq<Act>)
    requires Start(m) && CanAll(m, acts)
    ensures AllSafe(m, acts) <==> GrantsGuarded(m, acts)
  {
    AllSafeIff(m, acts);
  }

  /** With room for the signals, guarded means that nobody is between release and parking. */
  lemma {:induction false} GuardedMeans(m: Machine, t: nat)
    requires Inv(m) && t < |m.clock| && m.clock[t] + |m.queue| < MAX_LOGICAL_CLOCK
    ensures Guarded(m, t) <==> forall u: nat :: u < |m.clock| ==> !m.pc[u].Unlocked?
  {
    forall u: nat | u < |m.clock| && m.pc[u].Unlocked?
      ensures !Guarded(m, t)
    {
      assert PlaceOk(m, u) && ClockOk(m, u);
      var i :| 0 <= i < |m.queue| && m.queue[i] == u;
    }
  }

  // ---------------------------------------------------------------- exclusive turns

  /** Every grant of the run went to a thread that was least at that moment. */
  predicate TurnsExclusive(m: Machine, acts: seq<Act>)
    requires CanAll(m, acts)
    decreases |acts|
  {
    acts == [] || ((acts[0].Grant? ==> Least(m, acts[0].t)) && TurnsExclusive(Do(m, acts[0]), acts[1..]))
  }

  /** A thread between its release and its parking keeps the mutex from everyone who is really
      least, since the release time is not before its own clock. */
  lemma {:induction false} NobodyBetween(m: Machine, t: nat, u: nat)
    requires Inv(m) && Can(m, Grant(t)) && Least(m, t) && u < |m.clock| && u != t
    ensures !m.pc[u].Unlocked?
  {
    assert ClockOk(m, u) && Before(m, t, u);
  }

  /** Exclusive turns are enough. */
  lemma {:induction false} ExclusiveGuarded(m: Machine, acts: seq<Act>)
    requires Inv(m) && CanAll(m, acts) && TurnsExclusive(m, acts)
    ensures GrantsGuarded(m, acts)
    decreases |acts|
  {
    if acts != [] {
      if acts[0].Grant? {
        forall u: nat | u < |m.clock| && u != acts[0].t ensures !m.pc[u].Unlocked? { NobodyBetween(m, acts[0].t, u); }
      }
      StepKeepsInv(m, acts[0]);
      ExclusiveGuarded(Do(m, acts[0]), acts[1..]);
    }
  }

  // ---------------------------------------------------------------- lowered clocks and scans

  /** The step lowers somebody's clock: whose, and to what. */
  predicate Lowers(m: Machine, a: Act) { a.Lower? || (a.Signal? && m.queue != []) }

  function Lowered(m: Machine, a: Act): nat
    requires Can(m, a) && Lowers(m, a)
  {
    if a.Lower? then a.t else m.queue[0]
  }

  function LoweredTo(m: Machine, a: Act): nat
    requires Can(m, a) && Lowers(m, a)
  {
    if a.Lower? then m.clock[a.u] else m.clock[a.t]
  }

  /** The thread t at clock c is before the thread u at clock d; with `ties`, as wait_for_turn
      decides it, without, up to equal clocks. */
  predicate InOrder(c: nat, t: nat, d: nat, u: nat, ties: bool) {
    c < d || (c == d && (ties ==> t < u))
  }

  /** What a scan has passed is still later. */
  predicate ScansFresh(m: Machine, ties: bool) {
    Sized(m) && forall t: nat, u: nat :: t < |m.clock| && u in m.seen[t] ==> PassFresh(m, t, u, ties)
  }

  predicate PassFresh(m: Machine, t: nat, u: nat, ties: bool)
    requires Sized(m) && t < |m.clock|
  {
    m.pc[t].Out? && u < |m.clock| && u != t && InOrder(m.clock[t], t, m.clock[u], u, ties)
  }

  /** Some scan has passed h and would be overtaken by h at clock c. */
  predicate Overtakes(m: Machine, h: nat, c: nat, ties: bool)
    requires Sized(m)
  {
    exists t: nat :: t < |m.clock| && h in m.seen[t] && !InOrder(m.clock[t], t, c, h, ties)
  }

  /** No clock is lowered past a scan. */
  predicate NeverOvertakes(m: Machine, acts: seq<Act>, ties: bool)
    requires CanAll(m, acts)
    decreases |acts|
  {
    acts == [] || (
      && (Lowers(m, acts[0]) ==> !Overtakes(m, Lowered(m, acts[0]), LoweredTo(m, acts[0]), ties))
      && NeverOvertakes(Do(m, acts[0]), acts[1..], ties))
  }

  /** Lowering a clock keeps all scans fresh if and only if it does not overtake one. */
  lemma {:induction false} LowerFreshIff(m: Machine, a: Act, ties: bool)
    requires PlacesOk(m) && ScansFresh(m, ties) && Can(m, a) && Lowers(m, a)
    ensures ScansFresh(Do(m, a), ties) <==> !Overtakes(m, Lowered(m, a), LoweredTo(m, a), ties)
  {
    var r, h := Do(m, a), Lowered(m, a);
    assert PlaceOk(m, a.t) && PlaceOk(m, h);
    if Overtakes(m, h, LoweredTo(m, a), ties) {
      var t: nat :| t < |m.clock| && h in m.seen[t] && !InOrder(m.clock[t], t, LoweredTo(m, a), h, ties);
      assert PassFresh(m, t, h, ties) && h in r.seen[t] && !PassFresh(r, t, h, ties);
    } else {
      forall t: nat, u: nat | t < |r.clock| && u in r.seen[t]
        ensures PassFresh(r, t, u, ties)
      {
        assert u in m.seen[t] && PassFresh(m, t, u, ties);
      }
    }
  }

  /** No other step makes a scan stale. */
  lemma {:induction false} OtherKeepsFresh(m: Machine, a: Act, ties: bool)
    requires PlacesOk(m) && ScansFresh(m, ties) && Can(m, a) && !Lowers(m, a)
    ensures ScansFresh(Do(m, a), ties)
  {
    var r := Do(m, a);
    assert forall u: nat :: u < |m.clock| ==> m.clock[u] <= r.clock[u];
    forall t: nat, u: nat | t < |r.clock| && u in r.seen[t]
      ensures PassFresh(r, t, u, ties)
    {
      assert a == Pass(t, u) || (u in m.seen[t] && PassFresh(m, t, u, ties));
    }
  }

  lemma {:induction false} StepKeepsFresh(m: Machine, a: Act, ties: bool)
    requires PlacesOk(m) && ScansFresh(m, ties) && Can(m, a)
    requires Lowers(m, a) ==> !Overtakes(m, Lowered(m, a), LoweredTo(m, a), ties)
    ensures PlacesOk(Do(m, a)) && ScansFresh(Do(m, a), ties)
  {
    StepKeepsPlaces(m, a);
    if Lowers(m, a) { LowerFreshIff(m, a, ties); } else { OtherKeepsFresh(m, a, ties); }
  }

  /** A run in which no clock is lowered past a scan has exclusive turns, however many sleepers
      it wakes: one scan of one clock at a time is enough. */
  lemma {:induction false} FreshExclusive(m: Machine, acts: seq<Act>)
    requires PlacesOk(m) && ScansFresh(m, true) && CanAll(m, acts) && NeverOvertakes(m, acts, true)
    ensures TurnsExclusive(m, acts)
    decreases |acts|
  {
    if acts != [] {
      var t := acts[0].t;
      if acts[0].Grant? {
        forall u: nat | u < |m.clock| && u != t ensures Before(m, t, u) { assert PassFresh(m, t, u, true); }
      }
      StepKeepsFresh(m, acts[0], true);
      FreshExclusive(Do(m, acts[0]), acts[1..]);
    }
  }

  /** For the promise of det_cond_wait a tie does no harm: a fresh scan's grant finds nobody
      between release and parking. */
  lemma {:induction false} FreshGrant(m: Machine, t: nat, u: nat)
    requires Inv(m) && ScansFresh(m, false) && Can(m, Grant(t)) && u < |m.clock| && u != t
    ensures !m.pc[u].Unlocked?
  {
    assert ClockOk(m, u) && PassFresh(m, t, u, false);
  }

  lemma {:induction false} FreshGuarded(m: Machine, acts: seq<Act>)
    requires Inv(m) && ScansFresh(m, false) && CanAll(m, acts) && NeverOvertakes(m, acts, false)
    ensures GrantsGuarded(m, acts)
    decreases |acts|
  {
    if acts != [] {
      var a := acts[0];
      if a.Grant? {
        forall u: nat | u < |m.clock| && u != a.t ensures !m.pc[u].Unlocked? { FreshGrant(m, a.t, u); }
      }
      StepKeepsFresh(m, a, false);
      StepKeepsInv(m, a);
      FreshGuarded(Do(m, a), acts[1..]);
    }
  }

  /** The promise of det_cond_wait and det_cond_signal, from a test each of them could make: in
      a run that never lowers a clock past a scan every grant is guarded. */
  lemma {:induction false} FreshRunSafe(m: Machine, acts: seq<Act>)
    requires Start(m) && CanAll(m, acts) && NeverOvertakes(m, acts, false)
    ensures GrantsGuarded(m, acts) && AllSafe(m, acts)
  {
    FreshGuarded(m, acts);
    AllSafeIff(m, acts);
  }

  // ---------------------------------------------------------------- two threads

  /** With two threads whoever lowers a clock is the one whose scan has passed it, if any has. */
  lemma {:induction false} TwoNeverOvertake(m: Machine, a: Act)
    requires PlacesOk(m) && ScansFresh(m, false) && Can(m, a) && Lowers(m, a) && |m.clock| <= 2
    ensures !Overtakes(m, Lowered(m, a), LoweredTo(m, a), false)
  {
    var h := Lowered(m, a);
    assert PlaceOk(m, a.t) && PlaceOk(m, h);
    forall t: nat | t < |m.clock| && h in m.seen[t]
      ensures InOrder(m.clock[t], t, LoweredTo(m, a), h, false)
    {
      assert PassFresh(m, t, h, false);
    }
  }

  lemma {:induction false} TwoThreadsFresh(m: Machine, acts: seq<Act>)
    requires PlacesOk(m) && ScansFresh(m, false) && CanAll(m, acts) && |m.clock| <= 2
    ensures NeverOvertakes(m, acts, false)
    decreases |acts|
  {
    if acts != [] {
      if Lowers(m, acts[0]) { TwoNeverOvertake(m, acts[0]); }
      StepKeepsFresh(m, acts[0], false);
      TwoThreadsFresh(Do(m, acts[0]), acts[1..]);
    }
  }

  /** With at most two threads every run keeps the promise. */
  lemma {:induction false} TwoThreadsSafe(m: Machine, acts: seq<Act>)
    requires Start(m) && CanAll(m, acts) && |m.clock| <= 2
    ensures GrantsGuarded(m, acts) && WokenLow(DoAll(m, acts))
  {
    TwoThreadsFresh(m, acts);
    FreshGuarded(m, acts);
    InvSafe(m);
  }
}
