/** What runs guarantee about one mutex: turn moves are logged in increasing logical time,
    grants follow arrival order, critical sections are disjoint in logical time, an attempt is
    decided by logical release times alone, and the queue never overflows its ring. */
module KendoMutex {
  import opened Limits
  import opened Options
  import opened Sequences
  import opened KendoModel
  import opened KendoInvariant
  import opened KendoSettle
  import opened KendoRuns

  // ---------------------------------------------------------------- order of the log

  predicate NotAfter(c: int, t: nat, d: int, u: nat) {
    c < d || (c == d && t <= u)
  }

  /** e is logged before f: no later (clock, id), and strictly earlier unless e is a thread
      creation, which does not raise its thread's clock. */
  predicate InOrder(e: Event, f: Event) {
    && NotAfter(e.clock, e.tid, f.clock, f.tid)
    && (e.clock == f.clock && e.tid == f.tid ==> e.Spawn?)
  }

  ghost predicate LogSorted(log: seq<Event>) {
    forall i, j :: 0 <= i < j < |log| ==> InOrder(log[i], log[j])
  }

  /** Every thread's clock has caught up with the last event. */
  ghost predicate LogBehind(s: State) {
    s.log != [] ==>
      var e := s.log[|s.log| - 1];
      && (forall u :: 0 <= u < |s.w.threads| ==> NotAfter(e.clock, e.tid, s.w.threads[u].clock, u))
      && (e.tid < |s.w.threads| && s.w.threads[e.tid].clock == e.clock && !e.Spawn? ==>
            s.w.threads[e.tid].phase.Won? || s.w.threads[e.tid].phase.Lost?)
  }

  lemma {:induction false} StepKeepsLog(s: State, t: nat)
    requires RunInv(s) && Enabled(s, Step(t)) && LogBehind(s)
    ensures LogBehind(Apply(s, Step(t)))
  {
    LocalFrame(s.w, t);
    assert ThreadInv(s.w, t);
  }

  lemma {:induction false} TakeKeepsLog(s: State, t: nat)
    requires RunInv(s) && Enabled(s, Take(t)) && LogBehind(s) && LogSorted(s.log)
    ensures LogBehind(Apply(s, Take(t))) && LogSorted(Apply(s, Take(t)).log)
  {
    var s' := Apply(s, Take(t));
    var f := EventOf(s.w, t);
    assert ScanInv(s, t);
    TurnFrame(s.w, t);
    forall u | 0 <= u < |s'.w.threads| ensures NotAfter(f.clock, f.tid, s'.w.threads[u].clock, u) {
      if u < |s.w.threads| && u != t { assert Before(s.w, t, u); }
    }
    if s.log != [] {
      var e := s.log[|s.log| - 1];
      assert InOrder(e, f);
      forall i | 0 <= i < |s.log| ensures InOrder(s.log[i], f) {
        if i < |s.log| - 1 { assert InOrder(s.log[i], e); }
      }
    }
  }

  lemma {:induction false} ExecLog(s: State, acts: seq<Action>)
    requires RunInv(s) && Runs(s, acts) && LogBehind(s) && LogSorted(s.log)
    ensures LogSorted(Exec(s, acts).log)
    decreases |acts|
  {
    if acts != [] {
      var a := acts[0];
      ApplyInv(s, a);
      if a.Step? { StepKeepsLog(s, a.t); }
      if a.Take? { TakeKeepsLog(s, a.t); }
      ExecLog(Apply(s, a), acts[1..]);
    }
  }

  /** The log of turn moves increases strictly in (clock, id), except that a thread may make
      its next move at the clock at which it created a thread. */
  lemma {:induction false} TurnLogIncreases(prog: seq<Op>, acts: seq<Action>)
    requires Runs(Start(prog), acts)
    ensures LogSorted(Exec(Start(prog), acts).log)
  {
    StartInv(prog);
    ExecLog(Start(prog), acts);
  }

  // ---------------------------------------------------------------- first come, first served

  /** Threads in the order of their first attempt on m. */
  function Arrivals(log: seq<Event>, m: nat): seq<nat> {
    if log == [] then []
    else
      var e := log[|log| - 1];
      Arrivals(log[..|log| - 1], m) + if e.Attempt? && e.m == m && e.arrived then [e.tid] else []
  }

  /** Threads in the order in which m was granted to them. */
  function Grants(log: seq<Event>, m: nat): seq<nat> {
    if log == [] then []
    else
      var e := log[|log| - 1];
      Grants(log[..|log| - 1], m) + if e.Attempt? && e.m == m && e.granted then [e.tid] else []
  }

  lemma {:induction false} LogAppend(log: seq<Event>, e: Event, m: nat)
    ensures Arrivals(log + [e], m) ==
            Arrivals(log, m) + if e.Attempt? && e.m == m && e.arrived then [e.tid] else []
    ensures Grants(log + [e], m) ==
            Grants(log, m) + if e.Attempt? && e.m == m && e.granted then [e.tid] else []
  {
    assert (log + [e])[..|log|] == log;
  }

  /** A turn move appends its arrival to the queue and takes its grant from the head. */
  lemma {:induction false} TurnQueue(w: World, t: nat, m: nat)
    requires WantsTurn(w, t)
    ensures var e := EventOf(w, t);
            Get(w, m).queue + (if e.Attempt? && e.m == m && e.arrived then [t] else [])
            == (if e.Attempt? && e.m == m && e.granted then [t] else []) + Get(Turn(w, t), m).queue
  {
    TurnFrame(w, t);
    if w.threads[t].prog[0] == Lock(m) {
      var q := Joined(Get(w, m), t, w.threads[t].phase.queued);
      assert Get(w, m).queue + (if w.threads[t].phase.queued then [] else [t]) == q;
      if Admits(Get(w, m), t, w.threads[t].clock, w.threads[t].phase.queued) {
        assert q == [t] + q[1..];
      }
    }
  }

  lemma {:induction false} MoveAcross<T>(a: seq<T>, b: seq<T>, q: seq<T>, q': seq<T>, arrived: seq<T>, granted: seq<T>)
    requires a == b + q && q + arrived == granted + q'
    ensures a + arrived == (b + granted) + q'
  {
    assert a + arrived == b + (q + arrived);
    assert (b + granted) + q' == b + (granted + q');
  }

  lemma {:induction false} TakeKeepsFifo(s: State, t: nat, m: nat)
    requires RunInv(s) && Enabled(s, Take(t))
    requires Arrivals(s.log, m) == Grants(s.log, m) + Get(s.w, m).queue
    ensures var s' := Apply(s, Take(t));
            Arrivals(s'.log, m) == Grants(s'.log, m) + Get(s'.w, m).queue
  {
    var e := EventOf(s.w, t);
    LogAppend(s.log, e, m);
    TurnQueue(s.w, t, m);
    MoveAcross(Arrivals(s.log, m), Grants(s.log, m), Get(s.w, m).queue, Get(Turn(s.w, t), m).queue,
               if e.Attempt? && e.m == m && e.arrived then [t] else [],
               if e.Attempt? && e.m == m && e.granted then [t] else []);
  }

  lemma {:induction false} ExecFifo(s: State, acts: seq<Action>, m: nat)
    requires RunInv(s) && Runs(s, acts)
    requires Arrivals(s.log, m) == Grants(s.log, m) + Get(s.w, m).queue
    ensures var e := Exec(s, acts); Arrivals(e.log, m) == Grants(e.log, m) + Get(e.w, m).queue
    decreases |acts|
  {
    if acts != [] {
      var a := acts[0];
      ApplyInv(s, a);
      if a.Step? { LocalFrame(s.w, a.t); }
      if a.Take? { TakeKeepsFifo(s, a.t, m); }
      ExecFifo(Apply(s, a), acts[1..], m);
    }
  }

  /** Grants on a mutex follow arrival order: those granted so far, followed by those still
      queued, are exactly the arrivals in order. */
  lemma {:induction false} GrantsInArrivalOrder(prog: seq<Op>, acts: seq<Action>, m: nat)
    requires Runs(Start(prog), acts)
    ensures var e := Exec(Start(prog), acts); Arrivals(e.log, m) == Grants(e.log, m) + Get(e.w, m).queue
  {
    StartInv(prog);
    ExecFifo(Start(prog), acts, m);
  }

  // ---------------------------------------------------------------- the queue fits its ring

  /** With fewer than MAX_THR threads the AddQ of a det_lock finds a free slot (the ring holds
      MAX_THR - 1 entries), and each waiting thread is queued exactly once. */
  lemma {:induction false} QueueNeverFull(prog: seq<Op>, acts: seq<Action>, t: nat, m: nat)
    requires Runs(Start(prog), acts)
    requires var w := Exec(Start(prog), acts).w;
             |w.threads| < MAX_THR && WantsTurn(w, t) && w.threads[t].prog[0] == Lock(m)
    ensures var w := Exec(Start(prog), acts).w;
            var q := Joined(Get(w, m), t, w.threads[t].phase.queued);
            && |q| <= MAX_THR - 1
            && t in q
            && Distinct(q)
  {
    StartInv(prog);
    ExecInv(Start(prog), acts);
    var w := Exec(Start(prog), acts).w;
    JoinedOnce(w, t, m);
    DistinctBelow(Joined(Get(w, m), t, w.threads[t].phase.queued), |w.threads|);
  }

  // ---------------------------------------------------------------- critical sections

  /** In every reachable state the finished critical sections of a mutex occupy disjoint,
      increasing intervals of logical time, released_logical_time is the end of the last one,
      and a section in progress began after it. */
  lemma {:induction false} SectionsDisjoint(prog: seq<Op>, acts: seq<Action>, m: nat)
    requires Runs(Start(prog), acts)
    ensures var mx := Get(Exec(Start(prog), acts).w, m);
            && (forall i :: 0 <= i < |mx.past| ==> mx.past[i].from < mx.past[i].to)
            && (forall i, j :: 0 <= i < j < |mx.past| ==> mx.past[i].to < mx.past[j].from)
            && (mx.past != [] ==> mx.released == mx.past[|mx.past| - 1].to)
            && (mx.owner.Some? ==> mx.released < mx.granted)
  {
    StartInv(prog);
    ExecInv(Start(prog), acts);
    assert MutexInv(Exec(Start(prog), acts).w, m);
  }

  /** Who was granted m and when, by the log; by the sections, finished and in progress. */
  function GrantTimes(log: seq<Event>, m: nat): seq<(nat, int)> {
    if log == [] then []
    else
      var e := log[|log| - 1];
      GrantTimes(log[..|log| - 1], m) + if e.Attempt? && e.m == m && e.granted then [(e.tid, e.clock)] else []
  }

  function Begun(past: seq<Section>): seq<(nat, int)> {
    if past == [] then []
    else Begun(past[..|past| - 1]) + [(past[|past| - 1].holder, past[|past| - 1].from)]
  }

  function AllBegun(mx: Mutex): seq<(nat, int)> {
    Begun(mx.past) + if mx.owner.Some? then [(mx.owner.value, mx.granted)] else []
  }

  /** The last unlock turns the section in progress into a finished one. */
  lemma {:induction false} ReleaseBegun(th: Thread, mx: Mutex, t: nat)
    requires Local(th, mx, t).Some?
    ensures AllBegun(Local(th, mx, t).value.1) == AllBegun(mx)
  {
    var mx' := Local(th, mx, t).value.1;
    if mx'.past != mx.past { assert mx'.past[..|mx'.past| - 1] == mx.past; }
  }

  lemma {:induction false} LocalBegun(w: World, t: nat, m: nat)
    requires LocalEnabled(w, t)
    ensures AllBegun(Get(LocalStep(w, t), m)) == AllBegun(Get(w, m))
  {
    if Focus(w.threads[t]) == Some(m) {
      ReleaseBegun(w.threads[t], Get(w, m), t);
      assert Get(LocalStep(w, t), m) == Local(w.threads[t], Get(w, m), t).value.1;
    } else {
      LocalFrame(w, t);
    }
  }

  lemma {:induction false} AttemptBegun(mx: Mutex, t: nat, clock: int, queued: bool)
    requires mx.owner.Some? ==> mx.phys == mx.owner
    ensures AllBegun(Attempted(mx, t, clock, queued))
         == AllBegun(mx) + if Admits(mx, t, clock, queued) then [(t, clock)] else []
  {
  }

  lemma {:induction false} TurnBegun(w: World, t: nat, m: nat)
    requires WantsTurn(w, t) && (Get(w, m).owner.Some? ==> Get(w, m).phys == Get(w, m).owner)
    ensures var e := EventOf(w, t);
            AllBegun(Get(Turn(w, t), m))
            == AllBegun(Get(w, m)) + if e.Attempt? && e.m == m && e.granted then [(t, e.clock)] else []
  {
    var th := w.threads[t];
    if th.prog[0] == Lock(m) {
      AttemptBegun(Get(w, m), t, th.clock, th.phase.queued);
      assert Get(Turn(w, t), m) == Attempted(Get(w, m), t, th.clock, th.phase.queued);
    } else {
      TurnFrame(w, t);
    }
  }

  lemma {:induction false} ExecBegun(s: State, acts: seq<Action>, m: nat)
    requires RunInv(s) && Runs(s, acts) && GrantTimes(s.log, m) == AllBegun(Get(s.w, m))
    ensures var e := Exec(s, acts); GrantTimes(e.log, m) == AllBegun(Get(e.w, m))
    decreases |acts|
  {
    if acts != [] {
      var a := acts[0];
      ApplyInv(s, a);
      if a.Step? { LocalBegun(s.w, a.t, m); }
      if a.Take? {
        assert MutexInv(s.w, m);
        TurnBegun(s.w, a.t, m);
        var e := EventOf(s.w, a.t);
        assert (s.log + [e])[..|s.log|] == s.log;
      }
      ExecBegun(Apply(s, a), acts[1..], m);
    }
  }

  /** The sections of a mutex, finished or in progress, are the granted attempts of the log, in
      order: the same threads, each begun at the clock of its attempt. */
  lemma {:induction false} SectionsAreGrants(prog: seq<Op>, acts: seq<Action>, m: nat)
    requires Runs(Start(prog), acts)
    ensures var e := Exec(Start(prog), acts); GrantTimes(e.log, m) == AllBegun(Get(e.w, m))
  {
    StartInv(prog);
    ExecBegun(Start(prog), acts, m);
  }

  /** Every critical section of m, as it will have ended once all threads have run ahead to
      their next turn, ends before logical time c. */
  ghost predicate AllReleasedBefore(w: World, m: nat, c: int)
    requires Inv(w)
  {
    var mx := Get(Settle(w), m);
    mx.owner.None? && (forall i :: 0 <= i < |mx.past| ==> mx.past[i].to < c)
  }

  lemma {:induction false} SettledFree(w: World, m: nat)
    requires Inv(w) && Settled(w)
    ensures Get(w, m).owner.None? <==> Get(w, m).phys.None?
  {
    assert MutexInv(w, m);
    var mx := Get(w, m);
    if mx.owner.None? && mx.phys.Some? {
      var t := mx.phys.value;
      assert ThreadInv(w, t);
      assert LocalEnabled(w, t);
    }
  }

  /** An in-turn attempt by the head of the queue at clock c (past the initial release time 0)
      succeeds exactly when every earlier critical section has, or will have, its logical
      release before c; whether the holder has got to the physical unlock does not matter. */
  lemma {:induction false} GrantedIffReleasedBefore(prog: seq<Op>, acts: seq<Action>, t: nat, m: nat)
    requires Runs(Start(prog), acts)
    requires var s := Exec(Start(prog), acts);
             && t < |s.scan| && s.scan[t].InTurn?
             && WantsTurn(s.w, t) && s.w.threads[t].prog[0] == Lock(m)
             && [t] <= Joined(Get(s.w, m), t, s.w.threads[t].phase.queued)
    ensures var s := Exec(Start(prog), acts);
            && Inv(s.w)
            && (Admits(Get(s.w, m), t, s.w.threads[t].clock, s.w.threads[t].phase.queued)
                <==> 0 < s.w.threads[t].clock && AllReleasedBefore(s.w, m, s.w.threads[t].clock))
  {
    StartInv(prog);
    ExecInv(Start(prog), acts);
    var s := Exec(Start(prog), acts);
    assert ScanInv(s, t);
    AdmitsSettled(s.w, t, m);
  }

  lemma {:induction false} AdmitsSettled(w: World, t: nat, m: nat)
    requires Inv(w) && Least(w, t) && WantsTurn(w, t) && w.threads[t].prog[0] == Lock(m)
    requires [t] <= Joined(Get(w, m), t, w.threads[t].phase.queued)
    ensures Admits(Get(w, m), t, w.threads[t].clock, w.threads[t].phase.queued)
            <==> 0 < w.threads[t].clock && AllReleasedBefore(w, m, w.threads[t].clock)
  {
    TurnSettle(w, t);
    SettleInv(w);
    var v := Settle(w);
    SettledFree(v, m);
    assert MutexInv(v, m);
    SettleKeepsQueue(w, 0, m);
    var mx := Get(v, m);
    assert w.threads[t] == v.threads[t];
    assert Admits(Get(w, m), t, w.threads[t].clock, w.threads[t].phase.queued)
        == Admits(mx, t, w.threads[t].clock, w.threads[t].phase.queued);
    if mx.past != [] {
      forall i | 0 <= i < |mx.past| ensures mx.past[i].to <= mx.released {
        if i < |mx.past| - 1 { assert mx.past[i].to < mx.past[|mx.past| - 1].from; }
      }
      assert 0 < mx.past[|mx.past| - 1].to;
    }
  }

  lemma {:induction false} RunAheadKeepsQueue(w: World, t: nat, m: nat)
    requires Inv(w) && t < |w.threads|
    ensures Get(RunAhead(w, t), m).queue == Get(w, m).queue
    decreases Work(w.threads[t])
  {
    if LocalEnabled(w, t) {
      LocalFrame(w, t);
      LocalKeepsInv(w, t);
      LocalShrinks(w, t);
      RunAheadKeepsQueue(LocalStep(w, t), t, m);
    }
  }

  lemma {:induction false} SettleKeepsQueue(w: World, k: nat, m: nat)
    requires Inv(w) && k <= |w.threads|
    ensures Get(SettleFrom(w, k), m).queue == Get(w, m).queue
    decreases |w.threads| - k
  {
    if k < |w.threads| {
      RunAheadInv(w, k);
      RunAheadKeepsQueue(w, k, m);
      SettleKeepsQueue(RunAhead(w, k), k + 1, m);
    }
  }
}
