/** How three threads break det_cond_wait: one has passed a second thread, parked on another
    condition, in its scan; a third wakes that one at an earlier clock and moves on; the woken
    thread wins the mutex and goes to wait, and has released the mutex but not yet parked when
    the first gets it on its stale scan.  So the promise holds in every run if and only if there
    are no more than two threads. */
module CondStale {
  import opened Limits
  import opened Options
  import opened Sequences
  import opened CondVar
  import opened CondTurns

  ghost predicate Reaches(m: Machine, s: Machine) {
    exists acts :: CanAll(m, acts) && DoAll(m, acts) == s
  }

  lemma {:induction false} FirstOn(m: Machine, acts: seq<Act>, more: seq<Act>)
    requires acts != [] && Can(m, acts[0]) && CanAll(Do(m, acts[0]), acts[1..] + more)
    ensures CanAll(m, acts + more) && DoAll(m, acts + more) == DoAll(Do(m, acts[0]), acts[1..] + more)
  {
    assert acts + more == [acts[0]] + (acts[1..] + more);
    RunCons(m, acts[0], acts[1..] + more);
  }

  lemma {:induction false} RunOn(m: Machine, acts: seq<Act>, more: seq<Act>)
    requires CanAll(m, acts) && CanAll(DoAll(m, acts), more)
    ensures CanAll(m, acts + more) && DoAll(m, acts + more) == DoAll(DoAll(m, acts), more)
    decreases |acts|
  {
    if acts == [] {
      assert acts + more == more;
    } else {
      RunOn(Do(m, acts[0]), acts[1..], more);
      FirstOn(m, acts, more);
    }
  }

  lemma {:induction false} ReachOn(m: Machine, s: Machine, more: seq<Act>)
    requires Reaches(m, s) && CanAll(s, more)
    ensures Reaches(m, DoAll(s, more))
  {
    var acts :| CanAll(m, acts) && DoAll(m, acts) == s;
    RunOn(m, acts, more);
  }

  lemma {:induction false} Step(m: Machine, s: Machine, a: Act, r: Machine)
    requires Reaches(m, s) && Can(s, a) && Do(s, a) == r
    ensures Reaches(m, r)
  {
    RunCons(s, a, []);
    assert [a] + [] == [a];
    ReachOn(m, s, [a]);
  }

  /** Nobody is at the mutex or the condition, or has begun a scan. */
  predicate Quiet(s: Machine) {
    Sized(s) && forall t: nat :: t < |s.clock| ==> s.pc[t].Out? && s.seen[t] == {}
  }

  /** All threads go on to the clocks of `target`. */
  lemma {:induction false} AdvanceAll(m: Machine, s: Machine, target: seq<nat>, k: nat)
    requires Reaches(m, s) && Quiet(s) && |target| == |s.clock| && k <= |target|
    requires forall t: nat :: t < |target| ==> s.clock[t] <= target[t] && (t < k ==> s.clock[t] == target[t])
    ensures Reaches(m, s.(clock := target))
    decreases |target| - k
  {
    if k == |target| {
      assert s.clock == target;
    } else {
      var r := Do(s, Advance(k, target[k]));
      assert r == s.(clock := s.clock[k := target[k]]);
      Step(m, s, Advance(k, target[k]), r);
      AdvanceAll(m, r, target, k + 1);
      assert r.(clock := target) == s.(clock := target);
    }
  }

  /** Thread t passes every thread from k on but `skip`. */
  lemma {:induction false} PassAll(m: Machine, s: Machine, t: nat, skip: nat, k: nat) returns (seen: set<nat>)
    requires Reaches(m, s) && Sized(s) && t < |s.clock| && s.pc[t].Out? && k <= |s.clock|
    requires forall u: nat :: u < |s.clock| && u != t && u != skip ==> Before(s, t, u)
    ensures s.seen[t] <= seen && Reaches(m, s.(seen := s.seen[t := seen]))
    ensures forall u: nat :: k <= u < |s.clock| && u != t && u != skip ==> u in seen
    decreases |s.clock| - k
  {
    if k == |s.clock| {
      seen := s.seen[t];
      assert s.seen[t := seen] == s.seen;
    } else if k == t || k == skip {
      seen := PassAll(m, s, t, skip, k + 1);
    } else {
      assert Before(s, t, k);
      var r := s.(seen := s.seen[t := s.seen[t] + {k}]);
      Step(m, s, Pass(t, k), r);
      forall u: nat | u < |r.clock| && u != t && u != skip ensures Before(r, t, u) { assert Before(s, t, u); }
      seen := PassAll(m, r, t, skip, k + 1);
      assert r.seen[t := seen] == s.seen[t := seen];
    }
  }

  /** Clocks for the threads: 0 will be late with its scan, 1 is parked elsewhere, 2 is least. */
  function Places(n: nat, c: nat): (r: seq<nat>)
    requires n >= 3
    ensures |r| == n && r[0] == c + 3 && r[1] == MAX_LOGICAL_CLOCK && r[2] == c
    ensures forall t :: 3 <= t < n ==> r[t] == c + 6
  {
    [c + 3, MAX_LOGICAL_CLOCK, c] + seq(n - 3, i => c + 6)
  }

  /** Thread 0 passes all but thread 2. */
  lemma {:induction false} HalfScan(m: Machine, c: nat) returns (s: Machine)
    requires Start(m) && |m.clock| >= 3 && c + 4 < MAX_LOGICAL_CLOCK
    requires forall t: nat :: t < |m.clock| ==> m.clock[t] < c
    ensures Reaches(m, s) && Sized(s)
    ensures s == m.(clock := Places(|m.clock|, c), seen := s.seen) && s.seen[1] == {}
    ensures forall u: nat :: u < |m.clock| && u != 0 && u != 2 ==> u in s.seen[0]
  {
    assert DoAll(m, []) == m;
    AdvanceAll(m, m, Places(|m.clock|, c), 0);
    var a := m.(clock := Places(|m.clock|, c));
    forall u: nat | u < |a.clock| && u != 0 && u != 2 ensures Before(a, 0, u) {}
    var seen := PassAll(m, a, 0, 2, 1);
    s := a.(seen := a.seen[0 := seen]);
  }

  /** Thread 2 wakes thread 1 at clock c and moves on; thread 0 passes it and has scanned all. */
  lemma {:induction false} StaleScan(m: Machine, s: Machine, c: nat) returns (r: Machine)
    requires Reaches(m, s) && Sized(s) && |s.clock| >= 3 && c + 4 < MAX_LOGICAL_CLOCK
    requires s.clock == Places(|s.clock|, c) && s.seen[1] == {}
    requires forall t: nat :: t < |s.clock| ==> s.pc[t].Out?
    requires forall u: nat :: u < |s.clock| && u != 0 && u != 2 ==> u in s.seen[0]
    ensures Reaches(m, r) && Sized(r)
    ensures r == s.(clock := s.clock[1 := c][2 := c + 6], seen := r.seen) && r.seen[1] == {} && Scanned(r, 0)
  {
    var a := s.(clock := s.clock[1 := c], seen := s.seen[1 := {}]);
    Step(m, s, Lower(1, 2), a);
    var b := a.(clock := a.clock[2 := c + 6], seen := a.seen[2 := {}]);
    Step(m, a, Advance(2, c + 6), b);
    r := b.(seen := b.seen[0 := b.seen[0] + {2}]);
    Step(m, b, Pass(0, 2), r);
  }

  /** A thread that has scanned all others takes the free mutex. */
  lemma {:induction false} Takes(m: Machine, s: Machine, t: nat) returns (r: Machine)
    requires Reaches(m, s) && Sized(s) && t < |s.clock| && Scanned(s, t) && s.pc[t].Out?
    requires s.holder.None? && s.released < s.clock[t]
    ensures Reaches(m, r) && Sized(r)
    ensures r == s.(pc := s.pc[t := Won], holder := Some(t), seen := s.seen[t := {}])
  {
    r := s.(pc := s.pc[t := Won], holder := Some(t), seen := s.seen[t := {}]);
    Step(m, s, Grant(t), r);
  }

  lemma {:induction false} StepsClock(m: Machine, s: Machine, t: nat) returns (r: Machine)
    requires Reaches(m, s) && Sized(s) && t < |s.clock| && s.pc[t].Won?
    ensures Reaches(m, r) && Sized(r)
    ensures r == s.(clock := s.clock[t := s.clock[t] + 1], pc := s.pc[t := Hold])
  {
    r := s.(clock := s.clock[t := s.clock[t] + 1], pc := s.pc[t := Hold]);
    Step(m, s, Raise(t), r);
  }

  /** A thread that is least scans all others and takes the free mutex. */
  lemma {:induction false} Wins(m: Machine, s: Machine, t: nat) returns (r: Machine)
    requires Reaches(m, s) && Sized(s) && t < |s.clock| && Least(s, t) && s.pc[t].Out?
    requires s.holder.None? && s.released < s.clock[t]
    ensures Reaches(m, r) && Sized(r)
    ensures r == s.(clock := s.clock[t := s.clock[t] + 1], pc := s.pc[t := Hold], holder := Some(t),
                    seen := s.seen[t := {}])
  {
    var seen := PassAll(m, s, t, |s.clock|, 0);
    Overwrites(s.seen, t, seen, {});
    Overwrites(s.pc, t, Won, Hold);
    r := Takes(m, s.(seen := s.seen[t := seen]), t);
    r := StepsClock(m, r, t);
  }

  /** The holder goes to wait and has released the mutex, but not yet parked. */
  lemma {:induction false} Waits(m: Machine, s: Machine, t: nat) returns (r: Machine)
    requires Reaches(m, s) && Sized(s) && t < |s.clock| && s.pc[t].Hold?
    ensures Reaches(m, r) && Sized(r)
    ensures r == s.(pc := s.pc[t := Unlocked], holder := None, released := s.clock[t], queue := s.queue + [t],
                    since := s.since[t := s.clock[t]])
  {
    var a := s.(pc := s.pc[t := Queued], queue := s.queue + [t]);
    Step(m, s, Wait(t), a);
    var b := a.(pc := s.pc[t := Written], released := s.clock[t], since := s.since[t := s.clock[t]]);
    assert a.pc[t := Written] == b.pc;
    Step(m, a, Release(t), b);
    r := b.(pc := s.pc[t := Unlocked], holder := None);
    assert b.pc[t := Unlocked] == r.pc;
    Step(m, b, Unlock(t), r);
  }

  /** A grant on a stale scan, reached from any start with three threads and room for it. */
  lemma {:induction false} StaleGrant(m: Machine, c: nat) returns (s: Machine)
    requires Start(m) && |m.clock| >= 3 && m.released < c && c + 4 < MAX_LOGICAL_CLOCK
    requires forall t: nat :: t < |m.clock| ==> m.clock[t] < c
    ensures Reaches(m, s) && Can(s, Grant(0)) && !Guarded(s, 0)
  {
    s := HalfScan(m, c);
    s := StaleScan(m, s, c);
    forall u: nat | u < |s.clock| && u != 1 ensures Before(s, 1, u) {}
    s := Wins(m, s, 1);
    s := Waits(m, s, 1);
    assert s.queue[0] == 1 && s.pc[s.queue[0]].Unlocked?;
  }

  /** Three threads and a stale scan: a run in which a woken thread is not below the bound. */
  lemma {:induction false} StaleScanBreaksWait(m: Machine, c: nat) returns (acts: seq<Act>)
    requires Start(m) && |m.clock| >= 3 && m.released < c && c + 4 < MAX_LOGICAL_CLOCK
    requires forall t: nat :: t < |m.clock| ==> m.clock[t] < c
    ensures CanAll(m, acts) && !WokenLow(DoAll(m, acts))
  {
    var s := StaleGrant(m, c);
    var before :| CanAll(m, before) && DoAll(m, before) == s;
    RunPlaces(m, before);
    var after := UnguardedBreaks(s, 0);
    RunCons(s, Grant(0), after);
    RunOn(m, before, [Grant(0)] + after);
    acts := before + ([Grant(0)] + after);
  }

  /** The assertion of det_cond_wait holds in every run, whatever the scans have read, if and
      only if there are no more than two threads. */
  lemma {:induction false} SafeIffTwoThreads(m: Machine, c: nat)
    requires Start(m) && m.released < c && c + 4 < MAX_LOGICAL_CLOCK
    requires forall t: nat :: t < |m.clock| ==> m.clock[t] < c
    ensures (forall acts :: CanAll(m, acts) ==> WokenLow(DoAll(m, acts))) <==> |m.clock| <= 2
  {
    if |m.clock| <= 2 {
      forall acts | CanAll(m, acts) ensures WokenLow(DoAll(m, acts)) { TwoThreadsSafe(m, acts); }
    } else {
      var acts := StaleScanBreaksWait(m, c);
    }
  }

  lemma {:induction false} Parks(m: Machine, s: Machine, t: nat) returns (r: Machine)
    requires Reaches(m, s) && Sized(s) && t < |s.clock| && s.pc[t].Unlocked?
    ensures Reaches(m, r) && Sized(r)
    ensures r == s.(clock := s.clock[t := s.clock[t] + MAX_LOGICAL_CLOCK], pc := s.pc[t := Parked])
  {
    r := s.(clock := s.clock[t := s.clock[t] + MAX_LOGICAL_CLOCK], pc := s.pc[t := Parked]);
    Step(m, s, Raise(t), r);
  }

  lemma {:induction false} SleeperThere(m: Machine, c: nat) returns (s: Machine)
    requires Start(m) && |m.clock| == 2 && m.released < c && c + 4 < MAX_LOGICAL_CLOCK
    requires forall t: nat :: t < |m.clock| ==> m.clock[t] < c
    ensures Reaches(m, s) && Can(s, Signal(0)) && s.queue == [1]
  {
    assert DoAll(m, []) == m;
    AdvanceAll(m, m, [c + 3, c], 0);
    s := m.(clock := [c + 3, c]);
    assert Before(s, 1, 0);
    s := Wins(m, s, 1);
    s := Waits(m, s, 1);
    s := Parks(m, s, 1);
    assert Before(s, 0, 1);
    s := Wins(m, s, 0);
  }

  /** And it is not for want of signals: two threads come to a signal that wakes a sleeper. */
  lemma {:induction false} SignalHappens(m: Machine, c: nat) returns (acts: seq<Act>)
    requires Start(m) && |m.clock| == 2 && m.released < c && c + 4 < MAX_LOGICAL_CLOCK
    requires forall t: nat :: t < |m.clock| ==> m.clock[t] < c
    ensures CanAll(m, acts) && GrantsGuarded(m, acts)
    ensures Can(DoAll(m, acts), Signal(0)) && DoAll(m, acts).queue == [1]
  {
    var s := SleeperThere(m, c);
    acts :| CanAll(m, acts) && DoAll(m, acts) == s;
    TwoThreadsSafe(m, acts);
  }
}
