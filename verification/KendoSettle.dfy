/** Local moves of different threads commute with each other and, for the thread whose turn it
    is, with turn moves.  So a state has one settled form: every thread run ahead to its next
    request for a turn.  Local moves do not change the settled form; a turn move changes it in
    a way that depends on the settled form alone. */
module KendoSettle {
  import opened Options
  import opened KendoModel
  import opened KendoInvariant

  /** Whether t's local move changes the mutex it looks at. */
  predicate Active(w: World, t: nat)
    requires t < |w.threads|
  {
    Focus(w.threads[t]).Some? && (w.threads[t].phase.Releasing? || Owns(FocusMutex(w, t), t))
  }

  lemma {:induction false} ActiveHolds(w: World, t: nat)
    requires Inv(w) && t < |w.threads| && Active(w, t)
    ensures FocusMutex(w, t).phys == Some(t)
  {
    assert ThreadInv(w, t);
    assert MutexInv(w, Focus(w.threads[t]).value);
  }

  /** A thread that does not hold the mutex only asks whether it owns it. */
  lemma {:induction false} PassiveReads(th: Thread, mx: Mutex, mx': Mutex, t: nat)
    requires !th.phase.Releasing? && !Owns(mx, t) && !Owns(mx', t)
    ensures Local(th, mx, t).Some? == Local(th, mx', t).Some?
    ensures Local(th, mx, t).Some? ==>
              Local(th, mx, t).value.0 == Local(th, mx', t).value.0
              && Local(th, mx, t).value.1 == mx && Local(th, mx', t).value.1 == mx'
  {
  }

  /** Seen from t, a local move of u changes nothing. */
  lemma {:induction false} LocalInvisible(w: World, t: nat, u: nat)
    requires Inv(w) && t < |w.threads| && t != u && LocalEnabled(w, u)
    ensures LocalStep(w, u).threads[t] == w.threads[t]
    ensures LocalEnabled(LocalStep(w, u), t) == LocalEnabled(w, t)
    ensures Active(LocalStep(w, u), t) == Active(w, t)
    ensures Active(w, t) ==> FocusMutex(LocalStep(w, u), t) == FocusMutex(w, t)
    ensures LocalEnabled(w, t) ==>
              LocalStep(LocalStep(w, u), t).threads[t] == LocalStep(w, t).threads[t]
  {
    LocalFrame(w, u);
    var w' := LocalStep(w, u);
    var f := Focus(w.threads[t]);
    if f.Some? && f == Focus(w.threads[u]) {
      if Active(w, t) { ActiveHolds(w, t); }
      if Active(w, u) { ActiveHolds(w, u); }
      if !Active(w, u) {
        PassiveReads(w.threads[u], FocusMutex(w, u), FocusMutex(w, u), u);
        assert Get(w', f.value) == Get(w, f.value);
      } else {
        assert !Owns(Get(w', f.value), t);
        PassiveReads(w.threads[t], Get(w, f.value), Get(w', f.value), t);
      }
    }
  }

  /** The value a local move of t leaves in mutex m. */
  lemma {:induction false} LocalGet(w: World, t: nat, m: nat)
    requires LocalEnabled(w, t)
    ensures Get(LocalStep(w, t), m) ==
            if Focus(w.threads[t]) == Some(m) && Active(w, t)
            then Local(w.threads[t], Get(w, m), t).value.1 else Get(w, m)
  {
    if Focus(w.threads[t]) == Some(m) && !Active(w, t) {
      PassiveReads(w.threads[t], Get(w, m), Get(w, m), t);
    }
  }

  ghost predicate SameWorld(a: World, b: World) {
    && |a.threads| == |b.threads|
    && (forall t :: 0 <= t < |a.threads| ==> a.threads[t] == b.threads[t])
    && a.mutexes.Keys == b.mutexes.Keys
    && (forall m: nat :: Get(a, m) == Get(b, m))
  }

  lemma {:induction false} SameWorldEq(a: World, b: World)
    requires SameWorld(a, b)
    ensures a == b
  {
    assert a.threads == b.threads;
    forall m | m in a.mutexes ensures a.mutexes[m] == b.mutexes[m] {
      assert Get(a, m) == Get(b, m);
    }
    assert a.mutexes == b.mutexes;
  }

  function FocusKeys(f: Option<nat>): set<nat> {
    if f.Some? then {f.value} else {}
  }

  lemma {:induction false} LocalKeys(w: World, t: nat)
    requires LocalEnabled(w, t)
    ensures LocalStep(w, t).mutexes.Keys == w.mutexes.Keys + FocusKeys(Focus(w.threads[t]))
  {
  }

  lemma {:induction false} LocalsCommuteAt(w: World, t: nat, u: nat, m: nat)
    requires Inv(w) && t != u && LocalEnabled(w, t) && LocalEnabled(w, u)
    requires LocalEnabled(LocalStep(w, t), u) && LocalEnabled(LocalStep(w, u), t)
    ensures Get(LocalStep(LocalStep(w, t), u), m) == Get(LocalStep(LocalStep(w, u), t), m)
  {
    LocalInvisible(w, t, u);
    LocalInvisible(w, u, t);
    LocalGet(w, t, m);
    LocalGet(w, u, m);
    LocalGet(LocalStep(w, t), u, m);
    LocalGet(LocalStep(w, u), t, m);
    if Focus(w.threads[t]) == Some(m) && Focus(w.threads[u]) == Some(m) && Active(w, t) && Active(w, u) {
      ActiveHolds(w, t);
      ActiveHolds(w, u);
    }
  }

  lemma {:induction false} LocalsCommute(w: World, t: nat, u: nat)
    requires Inv(w) && t != u && LocalEnabled(w, t) && LocalEnabled(w, u)
    ensures LocalEnabled(LocalStep(w, t), u) && LocalEnabled(LocalStep(w, u), t)
    ensures LocalStep(LocalStep(w, t), u) == LocalStep(LocalStep(w, u), t)
  {
    LocalInvisible(w, t, u);
    LocalInvisible(w, u, t);
    var a, b := LocalStep(LocalStep(w, t), u), LocalStep(LocalStep(w, u), t);
    LocalFrame(w, t);
    LocalFrame(w, u);
    LocalFrame(LocalStep(w, t), u);
    LocalFrame(LocalStep(w, u), t);
    forall m: nat ensures Get(a, m) == Get(b, m) { LocalsCommuteAt(w, t, u, m); }
    LocalKeys(w, t);
    LocalKeys(w, u);
    LocalKeys(LocalStep(w, t), u);
    LocalKeys(LocalStep(w, u), t);
    SameWorldEq(a, b);
  }

  // ---------------------------------------------------------------- running one thread ahead

  function Size(prog: seq<Op>): nat {
    if prog == [] then 0
    else (if prog[0].Compute? then prog[0].ticks + 1 else 1) + Size(prog[1..])
  }

  /** How much local work a thread can still do. */
  function Work(th: Thread): nat {
    4 * Size(th.prog)
    + match th.phase
      case Run => 3
      case Releasing(_, _) => 2
      case Lost => 1
      case Released(_) => 1
      case _ => 0
  }

  lemma {:induction false} LocalShrinks(w: World, t: nat)
    requires LocalEnabled(w, t)
    ensures Work(LocalStep(w, t).threads[t]) < Work(w.threads[t])
  {
    var th := w.threads[t];
    if th.phase.Run? && th.prog != [] && th.prog[0].Compute? && th.prog[0].ticks > 0 {
      assert LocalStep(w, t).threads[t].prog[1..] == th.prog[1..];
    }
  }

  /** Thread t run to its next request for a turn, to its end, or to an unlock of a mutex that
      is not its own. */
  ghost function RunAhead(w: World, t: nat): World
    requires t < |w.threads|
    decreases Work(w.threads[t])
  {
    if LocalEnabled(w, t) then
      LocalShrinks(w, t);
      RunAhead(LocalStep(w, t), t)
    else w
  }

  lemma {:induction false} RunAheadInv(w: World, t: nat)
    requires Inv(w) && t < |w.threads|
    ensures var w' := RunAhead(w, t);
            && Inv(w') && !LocalEnabled(w', t)
            && |w'.threads| == |w.threads|
            && (forall u :: 0 <= u < |w.threads| && u != t ==> w'.threads[u] == w.threads[u])
            && w'.threads[t].clock >= w.threads[t].clock
            && (forall m: nat :: Get(w, m).past <= Get(w', m).past)
    decreases Work(w.threads[t])
  {
    if LocalEnabled(w, t) {
      LocalShrinks(w, t);
      LocalKeepsInv(w, t);
      LocalFrame(w, t);
      RunAheadInv(LocalStep(w, t), t);
    }
  }

  lemma {:induction false} RunAheadInvisible(w: World, t: nat, u: nat)
    requires Inv(w) && t < |w.threads| && u < |w.threads| && t != u
    ensures LocalEnabled(RunAhead(w, u), t) == LocalEnabled(w, t)
    decreases Work(w.threads[u])
  {
    if LocalEnabled(w, u) {
      LocalInvisible(w, t, u);
      LocalShrinks(w, u);
      LocalKeepsInv(w, u);
      RunAheadInvisible(LocalStep(w, u), t, u);
    }
  }

  lemma {:induction false} RunAheadCommutes(w: World, t: nat, u: nat)
    requires Inv(w) && LocalEnabled(w, t) && u < |w.threads| && t != u
    ensures LocalEnabled(RunAhead(w, u), t)
    ensures RunAhead(LocalStep(w, t), u) == LocalStep(RunAhead(w, u), t)
    decreases Work(w.threads[u])
  {
    LocalInvisible(w, u, t);
    RunAheadInvisible(w, t, u);
    if LocalEnabled(w, u) {
      LocalsCommute(w, t, u);
      LocalShrinks(w, u);
      LocalKeepsInv(w, u);
      RunAheadCommutes(LocalStep(w, u), t, u);
      LocalShrinks(LocalStep(w, t), u);
    }
  }

  // ---------------------------------------------------------------- the settled form

  ghost function SettleFrom(w: World, k: nat): World
    requires Inv(w) && k <= |w.threads|
    decreases |w.threads| - k
  {
    if k == |w.threads| then w
    else
      RunAheadInv(w, k);
      SettleFrom(RunAhead(w, k), k + 1)
  }

  /** Every thread run ahead. */
  ghost function Settle(w: World): World
    requires Inv(w)
  {
    SettleFrom(w, 0)
  }

  ghost predicate Settled(w: World) {
    forall t :: 0 <= t < |w.threads| ==> !LocalEnabled(w, t)
  }

  lemma {:induction false} SettleFromInv(w: World, k: nat)
    requires Inv(w) && k <= |w.threads|
    requires forall t :: 0 <= t < k ==> !LocalEnabled(w, t)
    ensures var w' := SettleFrom(w, k);
            && Inv(w') && Settled(w')
            && |w'.threads| == |w.threads|
            && (forall u :: 0 <= u < |w.threads| ==> w'.threads[u].clock >= w.threads[u].clock)
            && (forall u :: 0 <= u < |w.threads| && (u < k || !LocalEnabled(w, u)) ==> w'.threads[u] == w.threads[u])
            && (forall m: nat :: Get(w, m).past <= Get(w', m).past)
    decreases |w.threads| - k
  {
    if k < |w.threads| {
      RunAheadInv(w, k);
      var v := RunAhead(w, k);
      forall t | 0 <= t < |w.threads| && t != k ensures LocalEnabled(v, t) == LocalEnabled(w, t) {
        RunAheadInvisible(w, t, k);
      }
      SettleFromInv(v, k + 1);
    }
  }

  lemma {:induction false} SettleInv(w: World)
    requires Inv(w)
    ensures var w' := Settle(w);
            && Inv(w') && Settled(w')
            && |w'.threads| == |w.threads|
            && (forall u :: 0 <= u < |w.threads| ==> w'.threads[u].clock >= w.threads[u].clock)
            && (forall u :: 0 <= u < |w.threads| && !LocalEnabled(w, u) ==> w'.threads[u] == w.threads[u])
            && (forall m: nat :: Get(w, m).past <= Get(w', m).past)
  {
    SettleFromInv(w, 0);
  }

  lemma {:induction false} SettleFromLocal(w: World, t: nat, k: nat)
    requires Inv(w) && LocalEnabled(w, t) && k <= t
    ensures Inv(LocalStep(w, t)) && |LocalStep(w, t).threads| == |w.threads|
    ensures SettleFrom(LocalStep(w, t), k) == SettleFrom(w, k)
    decreases t - k
  {
    LocalKeepsInv(w, t);
    LocalFrame(w, t);
    if k == t {
      LocalShrinks(w, t);
    } else {
      RunAheadInv(w, k);
      RunAheadInv(LocalStep(w, t), k);
      RunAheadCommutes(w, t, k);
      SettleFromLocal(RunAhead(w, k), t, k + 1);
    }
  }

  /** A local move does not change the settled form. */
  lemma {:induction false} LocalSettle(w: World, t: nat)
    requires Inv(w) && LocalEnabled(w, t)
    ensures Inv(LocalStep(w, t)) && Settle(LocalStep(w, t)) == Settle(w)
  {
    SettleFromLocal(w, t, 0);
  }

  lemma {:induction false} RunAheadSettle(w: World, t: nat)
    requires Inv(w) && t < |w.threads|
    ensures Inv(RunAhead(w, t)) && Settle(RunAhead(w, t)) == Settle(w)
    decreases Work(w.threads[t])
  {
    if LocalEnabled(w, t) {
      LocalSettle(w, t);
      LocalShrinks(w, t);
      LocalFrame(w, t);
      RunAheadSettle(LocalStep(w, t), t);
    }
  }

  // ---------------------------------------------------------------- turn moves and settling

  lemma {:induction false} LocalKeepsLeast(w: World, t: nat, u: nat)
    requires Least(w, t) && t != u && LocalEnabled(w, u)
    ensures Least(LocalStep(w, u), t)
  {
    LocalFrame(w, u);
    var w' := LocalStep(w, u);
    forall v | 0 <= v < |w'.threads| && v != t ensures Before(w', t, v) {
      assert Before(w, t, v);
    }
  }

  /** The least thread's attempt has one outcome, whether or not another thread has already
      made a release that is due at a later logical time. */
  lemma {:induction false} OutcomeStable(w: World, t: nat, u: nat)
    requires Inv(w) && Least(w, t) && WantsTurn(w, t) && t != u && LocalEnabled(w, u)
    ensures WantsTurn(LocalStep(w, u), t)
    ensures EventOf(LocalStep(w, u), t) == EventOf(w, t)
  {
    LocalFrame(w, u);
    var th := w.threads[t];
    if th.prog[0].Lock? {
      var m := th.prog[0].m;
      LocalGet(w, u, m);
      assert ThreadInv(w, u) && MutexInv(w, m);
      assert Before(w, t, u);
      if Focus(w.threads[u]) == Some(m) && Active(w, u) {
        ActiveHolds(w, u);
      }
    }
  }

  lemma {:induction false} TurnInvisible(w: World, t: nat, u: nat)
    requires Inv(w) && WantsTurn(w, t) && t != u && u < |w.threads|
    ensures Turn(w, t).threads[u] == w.threads[u]
    ensures LocalEnabled(Turn(w, t), u) == LocalEnabled(w, u)
    ensures Active(Turn(w, t), u) == Active(w, u)
  {
    TurnFrame(w, t);
    var f := Focus(w.threads[u]);
    if f.Some? && w.threads[t].prog[0] == Lock(f.value) {
      var mx, mx' := Get(w, f.value), Get(Turn(w, t), f.value);
      assert MutexInv(w, f.value) && ThreadInv(w, u);
      assert Owns(mx', u) == Owns(mx, u);
      if !Active(w, u) { PassiveReads(w.threads[u], mx, mx', u); }
    }
  }

  /** The value a turn move of t leaves in mutex m. */
  lemma {:induction false} TurnGet(w: World, t: nat, m: nat)
    requires WantsTurn(w, t)
    ensures Get(Turn(w, t), m) ==
            if w.threads[t].prog[0] == Lock(m)
            then Attempted(Get(w, m), t, w.threads[t].clock, w.threads[t].phase.queued) else Get(w, m)
  {
  }

  /** A failed attempt and a release do not see each other's fields. */
  lemma {:induction false} AttemptCommutes(th: Thread, mx: Mutex, t: nat, u: nat, clock: int, queued: bool)
    requires mx.phys == Some(u) && t != u && Local(th, mx, u).Some?
    requires !Admits(Local(th, mx, u).value.1, t, clock, queued)
    ensures Local(th, Attempted(mx, t, clock, queued), u).Some?
    ensures Local(th, Attempted(mx, t, clock, queued), u).value.1
         == Attempted(Local(th, mx, u).value.1, t, clock, queued)
  {
  }

  lemma {:induction false} TurnLocalCommuteAt(w: World, t: nat, u: nat, m: nat)
    requires Inv(w) && Least(w, t) && WantsTurn(w, t) && t != u && LocalEnabled(w, u)
    requires WantsTurn(LocalStep(w, u), t) && LocalEnabled(Turn(w, t), u)
    ensures Get(LocalStep(Turn(w, t), u), m) == Get(Turn(LocalStep(w, u), t), m)
  {
    TurnInvisible(w, t, u);
    LocalGet(w, u, m);
    LocalGet(Turn(w, t), u, m);
    TurnGet(w, t, m);
    TurnGet(LocalStep(w, u), t, m);
    LocalFrame(w, u);
    if w.threads[t].prog[0] == Lock(m) && Focus(w.threads[u]) == Some(m) && Active(w, u) {
      ActiveHolds(w, u);
      OutcomeStable(w, t, u);
      AttemptCommutes(w.threads[u], Get(w, m), t, u, w.threads[t].clock, w.threads[t].phase.queued);
    }
  }

  lemma {:induction false} TurnLocalCommute(w: World, t: nat, u: nat)
    requires Inv(w) && Least(w, t) && WantsTurn(w, t) && t != u && LocalEnabled(w, u)
    ensures WantsTurn(LocalStep(w, u), t) && LocalEnabled(Turn(w, t), u)
    ensures LocalStep(Turn(w, t), u) == Turn(LocalStep(w, u), t)
  {
    TurnInvisible(w, t, u);
    OutcomeStable(w, t, u);
    var a, b := LocalStep(Turn(w, t), u), Turn(LocalStep(w, u), t);
    forall m: nat ensures Get(a, m) == Get(b, m) { TurnLocalCommuteAt(w, t, u, m); }
    LocalFrame(w, u);
    LocalFrame(Turn(w, t), u);
    TurnLocalThreads(w, t, u);
    LocalKeys(w, u);
    LocalKeys(Turn(w, t), u);
    assert a.mutexes.Keys == b.mutexes.Keys;
    SameWorldEq(a, b);
  }

  /** The threads after a turn move of t, given its outcome. */
  function TurnThreads(threads: seq<Thread>, t: nat, e: Event): seq<Thread>
    requires t < |threads| && threads[t].prog != []
  {
    var th := threads[t];
    match th.prog[0]
    case Create(child) => threads[t := Thread(th.clock, th.prog[1..], Run)] + [Thread(th.clock + 1, child, Run)]
    case _ => threads[t := th.(phase := if e.Attempt? && e.granted then Won else Lost)]
  }

  lemma {:induction false} TurnThreadsOk(w: World, t: nat)
    requires WantsTurn(w, t)
    ensures Turn(w, t).threads == TurnThreads(w.threads, t, EventOf(w, t))
  {
  }

  /** A local move of u moves thread u alone, the same before and after a turn move of t. */
  lemma {:induction false} LocalThread(w: World, t: nat, u: nat)
    requires Inv(w) && WantsTurn(w, t) && t != u && LocalEnabled(w, u)
    requires LocalEnabled(Turn(w, t), u) && Turn(w, t).threads[u] == w.threads[u]
    requires Active(Turn(w, t), u) == Active(w, u)
    ensures var x := LocalStep(w, u).threads[u];
            LocalStep(Turn(w, t), u).threads == Turn(w, t).threads[u := x]
  {
    var f := Focus(w.threads[u]);
    if f.Some? && w.threads[t].prog[0] == Lock(f.value) && !Active(w, u) {
      PassiveReads(w.threads[u], Get(w, f.value), Get(Turn(w, t), f.value), u);
    }
  }

  lemma {:induction false} TurnLocalThreads(w: World, t: nat, u: nat)
    requires Inv(w) && Least(w, t) && WantsTurn(w, t) && t != u && LocalEnabled(w, u)
    requires WantsTurn(LocalStep(w, u), t) && LocalEnabled(Turn(w, t), u)
    ensures LocalStep(Turn(w, t), u).threads == Turn(LocalStep(w, u), t).threads
  {
    OutcomeStable(w, t, u);
    TurnInvisible(w, t, u);
    LocalThread(w, t, u);
    TurnThreadsOk(w, t);
    TurnThreadsOk(LocalStep(w, u), t);
    var x, e := LocalStep(w, u).threads[u], EventOf(w, t);
    assert LocalStep(w, u).threads == w.threads[u := x];
    assert TurnThreads(w.threads[u := x], t, e) == TurnThreads(w.threads, t, e)[u := x];
  }

  lemma {:induction false} TurnRunAhead(w: World, t: nat, u: nat)
    requires Inv(w) && Least(w, t) && WantsTurn(w, t) && t != u && u < |w.threads|
    ensures var v := RunAhead(w, u);
            && Inv(v) && Least(v, t) && WantsTurn(v, t)
            && EventOf(v, t) == EventOf(w, t)
            && u < |Turn(w, t).threads|
            && Turn(v, t) == RunAhead(Turn(w, t), u)
    decreases Work(w.threads[u])
  {
    TurnInvisible(w, t, u);
    if LocalEnabled(w, u) {
      LocalKeepsInv(w, u);
      LocalKeepsLeast(w, t, u);
      OutcomeStable(w, t, u);
      TurnLocalCommute(w, t, u);
      LocalShrinks(w, u);
      LocalShrinks(Turn(w, t), u);
      TurnRunAhead(LocalStep(w, u), t, u);
    }
  }

  /** Running another thread ahead changes neither the turn move nor where it leads. */
  lemma {:induction false} TurnAfterRunAhead(w: World, t: nat, k: nat)
    requires Inv(w) && Least(w, t) && WantsTurn(w, t) && t != k && k < |w.threads|
    ensures var v := RunAhead(w, k);
            && Inv(v) && Least(v, t) && WantsTurn(v, t) && EventOf(v, t) == EventOf(w, t)
            && |v.threads| == |w.threads|
            && Inv(Turn(w, t)) && Inv(Turn(v, t)) && Settle(Turn(v, t)) == Settle(Turn(w, t))
  {
    TurnKeepsInv(w, t);
    TurnRunAhead(w, t, k);
    RunAheadSettle(Turn(w, t), k);
    RunAheadInv(w, k);
  }

  lemma {:induction false} TurnSettleFrom(w: World, t: nat, k: nat)
    requires Inv(w) && Least(w, t) && WantsTurn(w, t) && k <= |w.threads|
    ensures var v := SettleFrom(w, k);
            && Inv(v) && Least(v, t) && WantsTurn(v, t) && EventOf(v, t) == EventOf(w, t)
            && Inv(Turn(w, t)) && Inv(Turn(v, t))
            && Settle(Turn(v, t)) == Settle(Turn(w, t))
    decreases |w.threads| - k
  {
    if k == |w.threads| {
      TurnKeepsInv(w, t);
    } else if k == t {
      assert RunAhead(w, k) == w;
      TurnSettleFrom(w, t, k + 1);
    } else {
      TurnAfterRunAhead(w, t, k);
      TurnSettleFrom(RunAhead(w, k), t, k + 1);
    }
  }

  /** A turn move seen from the settled form: same event, and the new settled form is that of
      the move made from the settled form. */
  lemma {:induction false} TurnSettle(w: World, t: nat)
    requires Inv(w) && Least(w, t) && WantsTurn(w, t)
    ensures var v := Settle(w);
            && Inv(v) && Least(v, t) && WantsTurn(v, t) && EventOf(v, t) == EventOf(w, t)
            && Inv(Turn(w, t)) && Inv(Turn(v, t))
            && Settle(Turn(v, t)) == Settle(Turn(w, t))
  {
    TurnSettleFrom(w, t, 0);
  }
}
