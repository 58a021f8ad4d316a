/** det_barrier_wait (src/dpthread.c) as a state machine over its mutex and condition: which
    thread gets the free mutex is left open, so the results hold for every schedule. */
module Barrier {
  import opened Limits
  import opened Numbers
  import opened Options
  import opened Sequences

  datatype Pc =
    | Idle       // outside the barrier
    | Arriving   // has the mutex, has not counted itself
    | Casting    // was the last to arrive, broadcasts
    | Joining    // was not the last, about to join the queue
    | Parking    // has joined the queue, still has the mutex
    | Parked     // sleeps
    | Returning  // woken, wants the mutex back
    | Leaving    // has it back (or has broadcast), about to unlock and return

  /** generation[t] is the generation of t's last arrival and calls[t] the number of them;
      counts[g] the number of arrivals in generation g. */
  datatype State = State(pc: seq<Pc>, holder: Option<nat>, target: int, waitCount: nat, queue: seq<nat>,
                         woken: set<nat>, counts: seq<nat>, generation: seq<nat>, calls: seq<nat>)

  /** The generation now filling. */
  function Now(s: State): int { |s.counts| - 1 }

  predicate Sized(s: State) {
    && |s.generation| == |s.pc| && |s.calls| == |s.pc| && |s.counts| > 0
    && (forall i :: 0 <= i < |s.queue| ==> s.queue[i] < |s.pc|)
    && (s.holder.Some? ==> s.holder.value < |s.pc|)
  }

  datatype Act = Lock(t: nat) | Arrive(t: nat) | Cast(t: nat) | Join(t: nat) | Park(t: nat)
               | Wake(t: nat) | Leave(t: nat)

  predicate Can(s: State, a: Act) {
    Sized(s) && a.t < |s.pc| &&
    match a
    case Lock(t) => (s.pc[t].Idle? || s.pc[t].Returning?) && s.holder.None?
    case Arrive(t) => s.pc[t].Arriving?
    case Cast(t) => s.pc[t].Casting?
    case Join(t) => s.pc[t].Joining?
    case Park(t) => s.pc[t].Parking?
    case Wake(t) => s.pc[t].Parked? && t in s.woken
    case Leave(t) => s.pc[t].Leaving?
  }

  function To(s: State, t: nat, pc: Pc): State
    requires Sized(s) && t < |s.pc|
  {
    s.(pc := s.pc[t := pc])
  }

  /** Counting an arrival: the one that makes the target resets the count. */
  function Arrived(s: State, t: nat): State
    requires Sized(s) && t < |s.pc|
  {
    var r := s.(counts := s.counts[Now(s) := s.counts[Now(s)] + 1],
                generation := s.generation[t := Now(s)], calls := s.calls[t := s.calls[t] + 1]);
    if s.waitCount + 1 == s.target then To(r, t, Casting).(waitCount := 0, counts := r.counts + [0])
    else To(r, t, Joining).(waitCount := s.waitCount + 1)
  }

  function Do(s: State, a: Act): (r: State)
    requires Can(s, a)
    ensures Sized(r) && |r.pc| == |s.pc|
  {
    match a
    case Lock(t) => To(s, t, if s.pc[t].Idle? then Arriving else Leaving).(holder := Some(t))
    case Arrive(t) => Arrived(s, t)
    case Cast(t) =>
      if s.queue == [] then To(s, t, Leaving)
      else s.(queue := s.queue[1..], woken := s.woken + {s.queue[0]})
    case Join(t) =>
      // AddQ refuses when the ring is full; det_cond_wait does not look
      To(s, t, Parking).(queue := if |s.queue| < MAX_THR - 1 then s.queue + [t] else s.queue)
    case Park(t) => To(s, t, Parked).(holder := None)
    case Wake(t) => To(s, t, Returning).(woken := s.woken - {t})
    case Leave(t) => To(s, t, Idle).(holder := None)
  }

  predicate CanAll(s: State, acts: seq<Act>)
    decreases |acts|
  {
    acts == [] || (Can(s, acts[0]) && CanAll(Do(s, acts[0]), acts[1..]))
  }

  function DoAll(s: State, acts: seq<Act>): State
    requires CanAll(s, acts)
    decreases |acts|
  {
    if acts == [] then s else DoAll(Do(s, acts[0]), acts[1..])
  }

  /** det_barrier_init, with nobody in the barrier yet. */
  predicate Start(s: State) {
    && Sized(s) && s.holder.None? && s.waitCount == 0 && s.queue == [] && s.woken == {} && s.counts == [0]
    && (forall t: nat :: t < |s.pc| ==> s.pc[t].Idle? && s.calls[t] == 0)
  }

  predicate Holding(pc: Pc) { pc.Arriving? || pc.Casting? || pc.Joining? || pc.Parking? || pc.Leaving? }

  predicate CastingNow(s: State)
    requires Sized(s)
  {
    s.holder.Some? && s.pc[s.holder.value].Casting?
  }

  /** Nobody is on the way out before its generation is complete. */
  predicate OutOk(s: State, t: nat)
    requires Sized(s) && t < |s.pc|
  {
    && (Holding(s.pc[t]) <==> s.holder == Some(t))
    && (t in s.queue ==> (s.pc[t].Parking? || s.pc[t].Parked?) && t !in s.woken)
    && (t in s.woken ==> s.pc[t].Parked?)
    && (t in s.woken || s.pc[t].Returning? || s.pc[t].Leaving? || s.pc[t].Casting? ==> s.generation[t] < Now(s))
    && (t in s.queue || s.pc[t].Joining? ==> s.generation[t] == if CastingNow(s) then Now(s) - 1 else Now(s))
  }

  predicate CountsOk(s: State)
    requires Sized(s)
  {
    && s.counts[Now(s)] == s.waitCount
    && (forall g :: 0 <= g < Now(s) ==> s.counts[g] == s.target)
  }

  predicate Safe(s: State) {
    Sized(s) && CountsOk(s) && Distinct(s.queue) && forall t: nat :: t < |s.pc| ==> OutOk(s, t)
  }

  lemma {:induction false} ArriveKeepsSafe(s: State, t: nat)
    requires Safe(s) && Can(s, Arrive(t))
    ensures Safe(Do(s, Arrive(t)))
  {
    var r := Do(s, Arrive(t));
    assert OutOk(s, t);
    forall u: nat | u < |r.pc|
      ensures OutOk(r, u)
    {
      assert OutOk(s, u);
    }
  }

  lemma {:induction false} QueueKeepsSafe(s: State, a: Act)
    requires Safe(s) && Can(s, a) && (a.Cast? || a.Join?)
    ensures Safe(Do(s, a))
  {
    var r := Do(s, a);
    assert OutOk(s, a.t);
    forall u: nat | u < |r.pc|
      ensures OutOk(r, u)
    {
      assert OutOk(s, u);
      assert s.queue != [] ==> (u in s.queue <==> u == s.queue[0] || u in s.queue[1..]);
    }
  }

  lemma {:induction false} StepKeepsSafe(s: State, a: Act)
    requires Safe(s) && Can(s, a)
    ensures Safe(Do(s, a))
  {
    if a.Arrive? {
      ArriveKeepsSafe(s, a.t);
    } else if a.Cast? || a.Join? {
      QueueKeepsSafe(s, a);
    } else {
      var r := Do(s, a);
      assert OutOk(s, a.t);
      forall u: nat | u < |r.pc|
        ensures OutOk(r, u)
      {
        assert OutOk(s, u);
      }
    }
  }

  lemma {:induction false} RunSafe(s: State, acts: seq<Act>)
    requires Safe(s) && CanAll(s, acts)
    ensures Safe(DoAll(s, acts)) && DoAll(s, acts).target == s.target && |DoAll(s, acts).pc| == |s.pc|
    decreases |acts|
  {
    if acts != [] {
      StepKeepsSafe(s, acts[0]);
      RunSafe(Do(s, acts[0]), acts[1..]);
    }
  }

  /** Whatever count the barrier was made with and however many threads use it, no thread
      leaves before exactly that many have arrived in its generation. */
  lemma {:induction false} LeavesAfterAll(s: State, acts: seq<Act>, t: nat)
    requires Start(s) && CanAll(s, acts) && Can(DoAll(s, acts), Leave(t))
    ensures var e := DoAll(s, acts);
            e.generation[t] < Now(e) && e.counts[e.generation[t]] == s.target
  {
    RunSafe(s, acts);
    assert OutOk(DoAll(s, acts), t);
  }

  // ---------------------------------------------------------------- counted by the actions

  /** How many arrivals there have been, and how many of thread t. */
  function Arrivals(acts: seq<Act>): nat {
    if acts == [] then 0 else Arrivals(acts[..|acts| - 1]) + if acts[|acts| - 1].Arrive? then 1 else 0
  }

  function ArrivalsOf(acts: seq<Act>, t: nat): nat {
    if acts == [] then 0 else ArrivalsOf(acts[..|acts| - 1], t) + if acts[|acts| - 1] == Arrive(t) then 1 else 0
  }

  function LeavesOf(acts: seq<Act>, t: nat): nat {
    if acts == [] then 0 else LeavesOf(acts[..|acts| - 1], t) + if acts[|acts| - 1] == Leave(t) then 1 else 0
  }

  /** How many arrivals there were before t's last one. */
  function LastPlace(acts: seq<Act>, t: nat): nat {
    if acts == [] then 0
    else if acts[|acts| - 1] == Arrive(t) then Arrivals(acts[..|acts| - 1])
    else LastPlace(acts[..|acts| - 1], t)
  }

  lemma {:induction false} ActsGrow(acts: seq<Act>, a: Act, t: nat)
    ensures Arrivals(acts + [a]) == Arrivals(acts) + if a.Arrive? then 1 else 0
    ensures ArrivalsOf(acts + [a], t) == ArrivalsOf(acts, t) + if a == Arrive(t) then 1 else 0
    ensures LeavesOf(acts + [a], t) == LeavesOf(acts, t) + if a == Leave(t) then 1 else 0
    ensures LastPlace(acts + [a], t) == if a == Arrive(t) then Arrivals(acts) else LastPlace(acts, t)
  {
    assert (acts + [a])[..|acts|] == acts;
  }

  /** Arrival number n is in generation n / target, and is the n % target-th there. */
  predicate CountedThread(acts: seq<Act>, s: State, t: nat)
    requires Sized(s) && t < |s.pc| && s.target > 0
  {
    && s.calls[t] == ArrivalsOf(acts, t)
    && (s.calls[t] > 0 ==> s.generation[t] == LastPlace(acts, t) / s.target)
  }

  ghost predicate Counted(acts: seq<Act>, s: State) {
    && Sized(s) && s.target > 0
    && Arrivals(acts) == Now(s) * s.target + s.waitCount && s.waitCount < s.target
    && forall t: nat :: t < |s.pc| ==> CountedThread(acts, s, t)
  }

  lemma {:induction false} StepCounted(acts: seq<Act>, s: State, a: Act)
    requires Counted(acts, s) && Can(s, a)
    ensures Counted(acts + [a], Do(s, a))
  {
    var r := Do(s, a);
    ActsGrow(acts, a, a.t);
    if a.Arrive? {
      DivideBy(Arrivals(acts), s.target, Now(s), s.waitCount);
      assert (Now(s) + 1) * s.target == Now(s) * s.target + s.target;
    }
    forall t: nat | t < |r.pc| ensures CountedThread(acts + [a], r, t) {
      assert CountedThread(acts, s, t);
      ActsGrow(acts, a, t);
    }
  }

  lemma {:induction false} RunCounted(done: seq<Act>, s: State, acts: seq<Act>)
    requires Counted(done, s) && CanAll(s, acts)
    ensures Counted(done + acts, DoAll(s, acts))
    decreases |acts|
  {
    if acts == [] {
      assert done + acts == done;
    } else {
      StepCounted(done, s, acts[0]);
      RunCounted(done + [acts[0]], Do(s, acts[0]), acts[1..]);
      assert done + [acts[0]] + acts[1..] == done + acts;
    }
  }

  predicate HasCalled(s: State, t: nat)
    requires Sized(s) && t < |s.pc|
  {
    s.pc[t].Idle? || s.pc[t].Arriving? || s.calls[t] > 0
  }

  /** A thread that is past its arrival has called. */
  lemma {:induction false} RunCalls(s: State, acts: seq<Act>, t: nat)
    requires Sized(s) && t < |s.pc| && HasCalled(s, t) && CanAll(s, acts)
    ensures t < |DoAll(s, acts).pc| && Sized(DoAll(s, acts)) && HasCalled(DoAll(s, acts), t)
    decreases |acts|
  {
    if acts != [] { RunCalls(Do(s, acts[0]), acts[1..], t); }
  }

  lemma {:induction false} LeaverHasCalled(s: State, acts: seq<Act>, t: nat)
    requires Start(s) && CanAll(s, acts) && Can(DoAll(s, acts), Leave(t))
    ensures DoAll(s, acts).calls[t] > 0
  {
    RunSafe(s, acts);
    RunCalls(s, acts, t);
  }

  /** So, counted by the actions of the run: the count is what the complete generations leave
      over, and when a thread leaves after the n-th arrival, its generation of `target` arrivals,
      from the multiple of the count at or below n on, is complete. */
  lemma {:induction false} LeavesByCount(s: State, acts: seq<Act>, t: nat)
    requires Start(s) && s.target > 0 && CanAll(s, acts)
    ensures DoAll(s, acts).waitCount == Arrivals(acts) % s.target
    ensures Can(DoAll(s, acts), Leave(t)) ==>
              ArrivalsOf(acts, t) > 0 && (LastPlace(acts, t) / s.target + 1) * s.target <= Arrivals(acts)
  {
    RunSafe(s, acts);
    RunCounted([], s, acts);
    assert [] + acts == acts;
    var e := DoAll(s, acts);
    DivideBy(Arrivals(acts), s.target, Now(e), e.waitCount);
    if Can(e, Leave(t)) {
      LeaverHasCalled(s, acts, t);
      LeaverIsBehind(acts, e, t);
    }
  }

  lemma {:induction false} LeaverIsBehind(acts: seq<Act>, s: State, t: nat)
    requires Safe(s) && Counted(acts, s) && Can(s, Leave(t)) && s.calls[t] > 0
    ensures ArrivalsOf(acts, t) > 0 && (LastPlace(acts, t) / s.target + 1) * s.target <= Arrivals(acts)
  {
    assert OutOk(s, t) && CountedThread(acts, s, t);
    MultiplesGrow(s.generation[t] + 1, Now(s), s.target);
  }

  /** t has arrived and not left since. */
  predicate Inside(s: State, t: nat)
    requires t < |s.pc|
  {
    !s.pc[t].Idle? && !s.pc[t].Arriving?
  }

  lemma {:induction false} RunPairs(done: seq<Act>, s: State, acts: seq<Act>, t: nat)
    requires Sized(s) && t < |s.pc| && CanAll(s, acts)
    requires ArrivalsOf(done, t) == LeavesOf(done, t) + if Inside(s, t) then 1 else 0
    ensures t < |DoAll(s, acts).pc|
    ensures ArrivalsOf(done + acts, t) == LeavesOf(done + acts, t) + if Inside(DoAll(s, acts), t) then 1 else 0
    decreases |acts|
  {
    if acts == [] {
      assert done + acts == done;
    } else {
      ActsGrow(done, acts[0], t);
      RunPairs(done + [acts[0]], Do(s, acts[0]), acts[1..], t);
      assert done + [acts[0]] + acts[1..] == done + acts;
    }
  }

  /** Each thread is counted once for each time it comes through: its arrivals are its leaves, and
      one more while it is inside. */
  lemma {:induction false} CountedOncePerCall(s: State, acts: seq<Act>, t: nat)
    requires Start(s) && CanAll(s, acts) && t < |s.pc|
    ensures t < |DoAll(s, acts).pc|
    ensures ArrivalsOf(acts, t) == LeavesOf(acts, t) + if Inside(DoAll(s, acts), t) then 1 else 0
  {
    RunPairs([], s, acts, t);
    assert [] + acts == acts;
  }

  // ---------------------------------------------------------------- nobody is left behind

  predicate JoiningNow(s: State)
    requires Sized(s)
  {
    s.holder.Some? && s.pc[s.holder.value].Joining?
  }

  /** The queue holds exactly those who have arrived and sleep, and there is room in it. */
  predicate QueueOk(s: State)
    requires Sized(s)
  {
    && s.waitCount < s.target <= MAX_THR
    && (CastingNow(s) ==> s.waitCount == 0)
    && (!CastingNow(s) ==> s.waitCount == |s.queue| + if JoiningNow(s) then 1 else 0)
  }

  predicate SleeperOk(s: State, t: nat)
    requires t < |s.pc|
  {
    (s.pc[t].Parking? ==> t in s.queue) && (s.pc[t].Parked? ==> t in s.queue || t in s.woken)
  }

  predicate Full(s: State) {
    Safe(s) && QueueOk(s) && forall t: nat :: t < |s.pc| ==> SleeperOk(s, t)
  }

  lemma {:induction false} StepKeepsFull(s: State, a: Act)
    requires Full(s) && Can(s, a)
    ensures Full(Do(s, a))
  {
    StepKeepsSafe(s, a);
    var r := Do(s, a);
    assert OutOk(s, a.t);
    forall u: nat | u < |r.pc|
      ensures SleeperOk(r, u)
    {
      assert OutOk(s, u) && SleeperOk(s, u);
      assert s.queue != [] ==> (u in s.queue <==> u == s.queue[0] || u in s.queue[1..]);
      assert a.Join? ==> r.queue == s.queue + [a.t] && (u in r.queue <==> u in s.queue || u == a.t);
    }
  }

  lemma {:induction false} RunFull(s: State, acts: seq<Act>)
    requires Full(s) && CanAll(s, acts)
    ensures Full(DoAll(s, acts))
    decreases |acts|
  {
    if acts != [] {
      StepKeepsFull(s, acts[0]);
      RunFull(Do(s, acts[0]), acts[1..]);
    }
  }

  /** With a count from 1 to MAX_THR, whenever the mutex is free the count is the length of the
      queue and below the target, so the ring never refuses a waiter; and every thread that
      still sleeps although its generation is complete has its semaphore open. */
  lemma {:induction false} NobodyLeftBehind(s: State, acts: seq<Act>)
    requires Start(s) && 0 < s.target <= MAX_THR && CanAll(s, acts) && DoAll(s, acts).holder.None?
    ensures var e := DoAll(s, acts);
            && Sized(e) && e.waitCount == |e.queue| < e.target
            && (forall t: nat :: t < |e.pc| && e.pc[t].Parked? ==> (e.generation[t] < Now(e) <==> t in e.woken))
  {
    RunFull(s, acts);
    var e := DoAll(s, acts);
    forall t: nat | t < |e.pc| && e.pc[t].Parked?
      ensures e.generation[t] < Now(e) <==> t in e.woken
    {
      assert OutOk(e, t) && SleeperOk(e, t);
    }
  }

  /** With at least as many threads as the count there is always one that can go on. */
  lemma {:induction false} NeverStuck(s: State, acts: seq<Act>)
    requires Start(s) && 0 < s.target <= MAX_THR && CanAll(s, acts) && s.target <= |s.pc|
    ensures exists a :: Can(DoAll(s, acts), a)
  {
    RunSafe(s, acts);
    RunFull(s, acts);
    var e := DoAll(s, acts);
    if e.holder.Some? {
      var h := e.holder.value;
      assert OutOk(e, h);
      assert Can(e, Arrive(h)) || Can(e, Cast(h)) || Can(e, Join(h)) || Can(e, Park(h)) || Can(e, Leave(h));
    } else if t: nat :| t < |e.pc| && t !in e.queue {
      assert OutOk(e, t) && SleeperOk(e, t);
      assert Can(e, Lock(t)) || Can(e, Wake(t));
    } else {
      CoversBelow(e.queue, |e.pc|);
    }
  }

  // ---------------------------------------------------------------- as many threads as the count

  /** t has arrived in the generation now filling. */
  predicate ArrivedNow(s: State, t: nat)
    requires Sized(s) && t < |s.pc|
  {
    s.pc[t].Joining? || s.pc[t].Parking? || (t in s.queue && !CastingNow(s))
  }

  predicate CallsOk(s: State, t: nat)
    requires Sized(s) && t < |s.pc|
  {
    && s.calls[t] == Now(s) + (if ArrivedNow(s, t) then 1 else 0)
    && (s.calls[t] > 0 ==> s.generation[t] == s.calls[t] - 1)
  }

  predicate Aligned(s: State) {
    Full(s) && s.target == |s.pc| && forall t: nat :: t < |s.pc| ==> CallsOk(s, t)
  }

  /** When the last of as many threads as the count arrives, all others are in the queue. */
  lemma {:induction false} LastSeesAll(s: State, t: nat, u: nat)
    requires Aligned(s) && Can(s, Arrive(t)) && s.waitCount + 1 == s.target && u < |s.pc| && u != t
    ensures u in s.queue
  {
    assert OutOk(s, t);
    if u !in s.queue {
      assert Distinct(s.queue + [t, u]);
      DistinctBelow(s.queue + [t, u], |s.pc|);
    }
  }

  lemma {:induction false} ArriveKeepsAligned(s: State, t: nat)
    requires Aligned(s) && Can(s, Arrive(t))
    ensures Aligned(Do(s, Arrive(t)))
  {
    StepKeepsFull(s, Arrive(t));
    var r := Do(s, Arrive(t));
    assert OutOk(s, t) && CallsOk(s, t);
    forall u: nat | u < |r.pc|
      ensures CallsOk(r, u)
    {
      assert OutOk(s, u) && CallsOk(s, u);
      if u != t && s.waitCount + 1 == s.target { LastSeesAll(s, t, u); }
    }
  }

  lemma {:induction false} StepKeepsAligned(s: State, a: Act)
    requires Aligned(s) && Can(s, a)
    ensures Aligned(Do(s, a))
  {
    if a.Arrive? {
      ArriveKeepsAligned(s, a.t);
      return;
    }
    StepKeepsFull(s, a);
    var r := Do(s, a);
    assert OutOk(s, a.t) && CallsOk(s, a.t);
    forall u: nat | u < |r.pc|
      ensures CallsOk(r, u)
    {
      assert OutOk(s, u) && SleeperOk(s, u) && CallsOk(s, u);
      assert s.queue != [] ==> (u in s.queue <==> u == s.queue[0] || u in s.queue[1..]);
      assert a.Join? ==> r.queue == s.queue + [a.t] && (u in r.queue <==> u in s.queue || u == a.t);
    }
  }

  lemma {:induction false} RunAligned(s: State, acts: seq<Act>)
    requires Aligned(s) && CanAll(s, acts)
    ensures Aligned(DoAll(s, acts)) && |DoAll(s, acts).pc| == |s.pc|
    decreases |acts|
  {
    if acts != [] {
      StepKeepsAligned(s, acts[0]);
      RunAligned(Do(s, acts[0]), acts[1..]);
    }
  }

  lemma {:induction false} AlignedLeaves(s: State, t: nat, u: nat)
    requires Aligned(s) && Can(s, Leave(t)) && u < |s.pc|
    ensures s.calls[t] <= s.calls[u] <= s.calls[t] + 1
  {
    assert OutOk(s, t) && CallsOk(s, t) && CallsOk(s, u);
  }

  lemma {:induction false} CallsAreArrivals(acts: seq<Act>, s: State, t: nat)
    requires Counted(acts, s) && t < |s.pc|
    ensures s.calls[t] == ArrivalsOf(acts, t)
  {
    assert CountedThread(acts, s, t);
  }

  /** With as many threads as the count, a thread that leaves its k-th call of the barrier
      finds every thread arrived at its k-th call, and none beyond its (k+1)-st. */
  lemma {:induction false} NobodyPassesEarly(s: State, acts: seq<Act>, t: nat, u: nat)
    requires Start(s) && s.target == |s.pc| <= MAX_THR && CanAll(s, acts)
    requires Can(DoAll(s, acts), Leave(t)) && u < |s.pc|
    ensures ArrivalsOf(acts, t) <= ArrivalsOf(acts, u) <= ArrivalsOf(acts, t) + 1
  {
    RunAligned(s, acts);
    AlignedLeaves(DoAll(s, acts), t, u);
    RunCounted([], s, acts);
    assert [] + acts == acts;
    CallsAreArrivals(acts, DoAll(s, acts), t);
    CallsAreArrivals(acts, DoAll(s, acts), u);
  }
}
