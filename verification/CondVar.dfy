/** det_cond_wait, det_cond_signal and det_unlock_and_incr_clock (src/dpthread.c) around one
    mutex and one condition.  A waiter joins the queue, writes the release time, unlocks, and
    only then raises its clock out of the way; a signaller that won the mutex in between would
    lower a clock which the waiter then raises again.  A grant is guarded if it cannot lead to
    that; in a run with guarded grants a signal always finds its sleeper parked. */
module CondVar {
  import opened Limits
  import opened Options
  import opened Sequences

  /** Where a thread is with respect to the mutex and the condition. */
  datatype Pc =
    | Out        // does not hold the mutex
    | Won        // holds it, has not yet stepped its clock
    | Hold       // in its section
    | Queued     // det_cond_wait: has joined the queue
    | Written    // det_cond_wait: has written the release time
    | Unlocked   // det_cond_wait: has released the mutex, clock not yet raised
    | Parked     // det_cond_wait: clock raised, sleeps on its semaphore
    | Freeing    // det_unlock: has written the release time
    | Freed      // det_unlock: has released the mutex, clock not yet stepped
    | Signalled  // det_cond_signal: has woken the head, clock not yet stepped

  /** since[t] is the clock at which t last wrote a release time in det_cond_wait; seen[t] the
      threads its present scan has passed. */
  datatype Machine = Machine(clock: seq<nat>, pc: seq<Pc>, holder: Option<nat>, released: nat,
                             queue: seq<nat>, woken: set<nat>, since: seq<nat>, seen: seq<set<nat>>)

  predicate Sized(m: Machine) {
    && |m.pc| == |m.clock| && |m.since| == |m.clock| && |m.seen| == |m.clock|
    && (forall i :: 0 <= i < |m.queue| ==> m.queue[i] < |m.clock|)
  }

  /** (clock, id) order. */
  predicate Before(m: Machine, t: nat, u: nat)
    requires t < |m.clock| && u < |m.clock|
  {
    m.clock[t] < m.clock[u] || (m.clock[t] == m.clock[u] && t < u)
  }

  /** t's scan has passed every other thread. */
  predicate Scanned(m: Machine, t: nat)
    requires t < |m.seen|
  {
    forall u: nat :: u < |m.clock| && u != t ==> u in m.seen[t]
  }

  /** t really is the least thread now. */
  predicate Least(m: Machine, t: nat)
    requires t < |m.clock|
  {
    forall u: nat :: u < |m.clock| && u != t ==> Before(m, t, u)
  }

  datatype Act =
    | Advance(t: nat, c: nat)  // counts, spins or uses other mutexes
    | Lower(t: nat, u: nat)    // parked on another condition, woken by u
    | Pass(t: nat, u: nat)     // t's scan reads u's clock and finds itself earlier
    | Grant(t: nat)            // its scan complete, takes the free mutex
    | Raise(t: nat)            // steps its clock after a grant, release or signal
    | Wait(t: nat)             // joins the condition's queue
    | Release(t: nat)          // writes the release time
    | Unlock(t: nat)           // releases the mutex
    | Signal(t: nat)           // wakes the head of the queue, if any
    | Wake(t: nat)             // gets through its semaphore

  predicate Can(m: Machine, a: Act) {
    Sized(m) && a.t < |m.clock| &&
    var t, pc := a.t, m.pc[a.t];
    match a
    case Advance(_, c) => (pc.Out? || pc.Hold?) && m.clock[t] <= c
    case Lower(_, u) => pc.Out? && m.clock[t] >= MAX_LOGICAL_CLOCK && u < |m.clock| && m.clock[u] < MAX_LOGICAL_CLOCK
    case Pass(_, u) => pc.Out? && u < |m.clock| && u != t && Before(m, t, u)
    case Grant(_) => pc.Out? && Scanned(m, t) && m.holder.None? && m.released < m.clock[t]
    case Raise(_) => pc.Won? || pc.Unlocked? || pc.Freed? || pc.Signalled?
    case Wait(_) => pc.Hold?
    case Release(_) => pc.Hold? || pc.Queued?
    case Unlock(_) => pc.Written? || pc.Freeing?
    case Signal(_) => pc.Hold? && m.clock[t] < MAX_LOGICAL_CLOCK
    case Wake(_) => pc.Parked? && t in m.woken
  }

  function To(m: Machine, t: nat, pc: Pc): Machine
    requires Sized(m) && t < |m.clock|
  {
    m.(pc := m.pc[t := pc])
  }

  function SetClock(m: Machine, t: nat, c: nat): Machine
    requires Sized(m) && t < |m.clock|
  {
    m.(clock := m.clock[t := c])
  }

  /** The clock moved, so what a scan has passed no longer counts. */
  function Rescan(m: Machine, t: nat): Machine
    requires Sized(m) && t < |m.clock|
  {
    m.(seen := m.seen[t := {}])
  }

  function Do(m: Machine, a: Act): (r: Machine)
    requires Can(m, a)
    ensures Sized(r) && |r.clock| == |m.clock|
  {
    var t, pc := a.t, m.pc[a.t];
    match a
    case Advance(_, c) => Rescan(SetClock(m, t, c), t)
    case Lower(_, u) => Rescan(SetClock(m, t, m.clock[u]), t)
    case Pass(_, u) => m.(seen := m.seen[t := m.seen[t] + {u}])
    case Grant(_) => Rescan(To(m, t, Won).(holder := Some(t)), t)
    case Raise(_) =>
      if pc.Unlocked? then SetClock(To(m, t, Parked), t, m.clock[t] + MAX_LOGICAL_CLOCK)
      else SetClock(To(m, t, if pc.Freed? then Out else Hold), t, m.clock[t] + 1)
    case Wait(_) => To(m, t, Queued).(queue := m.queue + [t])
    case Release(_) =>
      if pc.Hold? then To(m, t, Freeing).(released := m.clock[t])
      else To(m, t, Written).(released := m.clock[t], since := m.since[t := m.clock[t]])
    case Unlock(_) => To(m, t, if pc.Written? then Unlocked else Freed).(holder := None)
    case Signal(_) =>
      if m.queue == [] then To(m, t, Signalled)
      else SetClock(To(m, t, Signalled), m.queue[0], m.clock[t])
           .(queue := m.queue[1..], woken := m.woken + {m.queue[0]})
    case Wake(_) => To(m, t, Out).(woken := m.woken - {t})
  }

  predicate CanAll(m: Machine, acts: seq<Act>)
    decreases |acts|
  {
    acts == [] || (Can(m, acts[0]) && CanAll(Do(m, acts[0]), acts[1..]))
  }

  function DoAll(m: Machine, acts: seq<Act>): (r: Machine)
    requires CanAll(m, acts)
    decreases |acts|
  {
    if acts == [] then m else DoAll(Do(m, acts[0]), acts[1..])
  }

  lemma {:induction false} RunCons(m: Machine, a: Act, acts: seq<Act>)
    requires Can(m, a) && CanAll(Do(m, a), acts)
    ensures CanAll(m, [a] + acts) && DoAll(m, [a] + acts) == DoAll(Do(m, a), acts)
  {
    assert ([a] + acts)[1..] == acts;
  }

  /** Threads at any clocks, nobody at the mutex or the condition. */
  predicate Start(m: Machine) {
    && Sized(m) && m.holder.None? && m.queue == [] && m.woken == {}
    && (forall t: nat :: t < |m.pc| ==> m.pc[t].Out?)
    && (forall t: nat :: t < |m.seen| ==> m.seen[t] == {})
  }

  predicate Holding(pc: Pc) {
    pc.Won? || pc.Hold? || pc.Queued? || pc.Written? || pc.Freeing? || pc.Signalled?
  }

  // ---------------------------------------------------------------- every run

  /** What the place of thread t says about the mutex and the queue, in every run. */
  predicate PlaceOk(m: Machine, t: nat)
    requires Sized(m) && t < |m.clock|
  {
    && (Holding(m.pc[t]) <==> m.holder == Some(t))
    && (m.pc[t].Queued? || m.pc[t].Written? ==> t in m.queue)
    && (t in m.queue ==> m.pc[t].Queued? || m.pc[t].Written? || m.pc[t].Unlocked? || m.pc[t].Parked?)
    && (m.pc[t].Unlocked? || m.pc[t].Parked? ==> t in m.queue || t in m.woken)
    && (t in m.woken ==> t !in m.queue && (m.pc[t].Unlocked? || m.pc[t].Parked?))
  }

  predicate PlacesOk(m: Machine) {
    && Sized(m) && Distinct(m.queue)
    && (m.holder.Some? ==> m.holder.value < |m.clock|)
    && (forall t: nat :: t < |m.clock| ==> PlaceOk(m, t))
  }

  lemma {:induction false} SignalKeepsPlaces(m: Machine, t: nat)
    requires PlacesOk(m) && Can(m, Signal(t))
    ensures PlacesOk(Do(m, Signal(t)))
  {
    var r := Do(m, Signal(t));
    assert PlaceOk(m, t);
    assert m.queue != [] ==> PlaceOk(m, m.queue[0]);
    forall u: nat | u < |r.clock|
      ensures PlaceOk(r, u)
    {
      assert PlaceOk(m, u);
      assert m.queue != [] ==> (u in m.queue <==> u == m.queue[0] || u in m.queue[1..]);
    }
  }

  lemma {:induction false} StepKeepsPlaces(m: Machine, a: Act)
    requires PlacesOk(m) && Can(m, a)
    ensures PlacesOk(Do(m, a))
  {
    if a.Signal? {
      SignalKeepsPlaces(m, a.t);
    } else {
      var r := Do(m, a);
      assert PlaceOk(m, a.t);
      forall u: nat | u < |r.clock|
        ensures PlaceOk(r, u)
      {
        assert PlaceOk(m, u);
      }
    }
  }

  lemma {:induction false} RunPlaces(m: Machine, acts: seq<Act>)
    requires PlacesOk(m) && CanAll(m, acts)
    ensures PlacesOk(DoAll(m, acts)) && |DoAll(m, acts).clock| == |m.clock|
    decreases |acts|
  {
    if acts != [] {
      StepKeepsPlaces(m, acts[0]);
      RunPlaces(Do(m, acts[0]), acts[1..]);
    }
  }

  // ---------------------------------------------------------------- where the clocks come from

  /** The step hands t a clock: the wake-up on this condition or another. */
  predicate Wakens(m: Machine, a: Act, t: nat) {
    (a.Lower? && a.t == t) || (a.Signal? && m.queue != [] && m.queue[0] == t)
  }

  predicate NeverWakens(m: Machine, acts: seq<Act>, t: nat)
    requires CanAll(m, acts)
    decreases |acts|
  {
    acts == [] || (!Wakens(m, acts[0], t) && NeverWakens(Do(m, acts[0]), acts[1..], t))
  }

  /** What t does elsewhere, one for each grant, release and signal it has finished with, and
      MAX_LOGICAL_CLOCK when it parks. */
  function Earned(m: Machine, acts: seq<Act>, t: nat): int
    requires CanAll(m, acts) && t < |m.clock|
    decreases |acts|
  {
    if acts == [] then 0
    else
      var a := acts[0];
      (if a == Raise(t) then (if m.pc[t].Unlocked? then MAX_LOGICAL_CLOCK else 1)
       else if a.Advance? && a.t == t then a.c - m.clock[t] else 0)
      + Earned(Do(m, a), acts[1..], t)
  }

  /** Unless it is woken a thread's clock is what it was and what it has earned since. */
  lemma {:induction false} ClocksEarned(m: Machine, acts: seq<Act>, t: nat)
    requires CanAll(m, acts) && t < |m.clock| && NeverWakens(m, acts, t)
    ensures t < |DoAll(m, acts).clock| && DoAll(m, acts).clock[t] == m.clock[t] + Earned(m, acts, t)
    decreases |acts|
  {
    if acts != [] { ClocksEarned(Do(m, acts[0]), acts[1..], t); }
  }

  lemma {:induction false} RunSnoc(m: Machine, acts: seq<Act>)
    requires CanAll(m, acts) && acts != []
    ensures var n := |acts| - 1;
            CanAll(m, acts[..n]) && Can(DoAll(m, acts[..n]), acts[n])
            && DoAll(m, acts) == Do(DoAll(m, acts[..n]), acts[n])
    decreases |acts|
  {
    var n := |acts| - 1;
    if n > 0 {
      RunSnoc(Do(m, acts[0]), acts[1..]);
      assert acts[1..][..n - 1] == acts[..n][1..];
    }
  }

  /** The clock at which the mutex was last released, by the run. */
  function LastRelease(m: Machine, acts: seq<Act>): nat
    requires CanAll(m, acts)
    decreases |acts|
  {
    if acts == [] then m.released
    else
      var n := |acts| - 1;
      RunSnoc(m, acts);
      if acts[n].Release? then DoAll(m, acts[..n]).clock[acts[n].t] else LastRelease(m, acts[..n])
  }

  /** A grant comes later in logical time than the release before it, whatever the scans read. */
  lemma {:induction false} GrantAfterRelease(m: Machine, acts: seq<Act>, t: nat)
    requires CanAll(m, acts)
    ensures DoAll(m, acts).released == LastRelease(m, acts)
    ensures Can(DoAll(m, acts), Grant(t)) ==> LastRelease(m, acts) < DoAll(m, acts).clock[t]
    decreases |acts|
  {
    if acts != [] {
      RunSnoc(m, acts);
      GrantAfterRelease(m, acts[..|acts| - 1], t);
    }
  }

  /** With fewer than MAX_THR threads a waiter finds room in the ring, which holds MAX_THR - 1. */
  lemma {:induction false} WaitFits(m: Machine, acts: seq<Act>, t: nat)
    requires Start(m) && CanAll(m, acts)
    requires Can(DoAll(m, acts), Wait(t)) && |m.clock| < MAX_THR
    ensures |DoAll(m, acts).queue| < MAX_THR - 1
  {
    RunPlaces(m, acts);
    var s := DoAll(m, acts);
    assert PlaceOk(s, t);
    DistinctBelow(s.queue + [t], |s.clock|);
  }

  /** The threads that joined the queue during a run, and those that signals took from it. */
  function Joined(acts: seq<Act>): seq<nat> {
    if acts == [] then [] else (if acts[0].Wait? then [acts[0].t] else []) + Joined(acts[1..])
  }

  function Called(m: Machine, acts: seq<Act>): seq<nat>
    requires CanAll(m, acts)
    decreases |acts|
  {
    if acts == [] then []
    else (if acts[0].Signal? && m.queue != [] then [m.queue[0]] else []) + Called(Do(m, acts[0]), acts[1..])
  }

  lemma {:induction false} QueueStep(m: Machine, a: Act)
    requires Can(m, a)
    ensures m.queue + (if a.Wait? then [a.t] else [])
         == (if a.Signal? && m.queue != [] then [m.queue[0]] else []) + Do(m, a).queue
  {
  }

  /** Sleepers are woken in the order in which they went to wait, whatever else happens. */
  lemma {:induction false} WokenInOrder(m: Machine, acts: seq<Act>)
    requires CanAll(m, acts)
    ensures m.queue + Joined(acts) == Called(m, acts) + DoAll(m, acts).queue
    decreases |acts|
  {
    if acts == [] {
      assert m.queue + [] == [] + m.queue;
    } else {
      var r := Do(m, acts[0]);
      var x := if acts[0].Wait? then [acts[0].t] else [];
      var y := if acts[0].Signal? && m.queue != [] then [m.queue[0]] else [];
      QueueStep(m, acts[0]);
      WokenInOrder(r, acts[1..]);
      Associates(m.queue, x, Joined(acts[1..]));
      Associates(y, r.queue, Joined(acts[1..]));
      Associates(y, Called(r, acts[1..]), DoAll(m, acts).queue);
    }
  }

  // ---------------------------------------------------------------- guarded grants

  /** The test a grant would need: a thread that has released the mutex in det_cond_wait but
      not yet parked must be out of reach of the signals that t can make before its clock comes
      to the bound, the thread at place i of the queue being that of signal i. */
  predicate Guarded(m: Machine, t: nat)
    requires Sized(m) && t < |m.clock|
  {
    forall i :: 0 <= i < |m.queue| && m.pc[m.queue[i]].Unlocked? ==> m.clock[t] + 1 + i >= MAX_LOGICAL_CLOCK
  }

  /** Every grant of the run passed that test. */
  predicate GrantsGuarded(m: Machine, acts: seq<Act>)
    requires CanAll(m, acts)
    decreases |acts|
  {
    acts == [] || ((acts[0].Grant? ==> Guarded(m, acts[0].t)) && GrantsGuarded(Do(m, acts[0]), acts[1..]))
  }

  /** The holder cannot signal place i of the queue before its clock comes to the bound. */
  predicate OutOfReach(m: Machine, i: nat)
    requires Sized(m) && (m.holder.Some? ==> m.holder.value < |m.clock|)
  {
    m.holder.Some? ==>
      var h := m.holder.value;
      && (m.pc[h].Hold? ==> m.clock[h] + i >= MAX_LOGICAL_CLOCK)
      && (m.pc[h].Won? || m.pc[h].Signalled? ==> m.clock[h] + 1 + i >= MAX_LOGICAL_CLOCK)
  }

  /** What the place of thread t says about its clock. */
  predicate ClockOk(m: Machine, t: nat)
    requires Sized(m) && t < |m.clock|
  {
    && (m.pc[t].Won? || m.pc[t].Hold? || m.pc[t].Queued? || m.pc[t].Signalled? ==> m.released < m.clock[t])
    && (m.pc[t].Written? || m.pc[t].Unlocked? ==> m.clock[t] == m.since[t] <= m.released)
    && (m.pc[t].Unlocked? ==> t !in m.woken)
    && (m.pc[t].Parked? ==> m.since[t] <= m.released)
    && (m.pc[t].Parked? && t !in m.woken ==> m.clock[t] == m.since[t] + MAX_LOGICAL_CLOCK)
    && (m.pc[t].Parked? && t in m.woken ==> m.since[t] < m.clock[t] < MAX_LOGICAL_CLOCK)
  }

  predicate Inv(m: Machine) {
    && PlacesOk(m)
    && (forall t: nat :: t < |m.clock| ==> ClockOk(m, t))
    && (forall i :: 0 <= i < |m.queue| && m.pc[m.queue[i]].Unlocked? ==> OutOfReach(m, i))
  }

  /** A signaller finds the head of the queue parked. */
  lemma {:induction false} HeadParked(m: Machine, t: nat)
    requires Inv(m) && Can(m, Signal(t)) && m.queue != []
    ensures var u := m.queue[0];
            && u != t && m.pc[u].Parked? && m.clock[u] == m.since[u] + MAX_LOGICAL_CLOCK
            && m.since[u] < m.clock[t]
  {
    var u := m.queue[0];
    assert PlaceOk(m, t) && PlaceOk(m, u) && ClockOk(m, t) && ClockOk(m, u);
  }

  lemma {:induction false} SignalKeepsInv(m: Machine, t: nat)
    requires Inv(m) && Can(m, Signal(t))
    ensures Inv(Do(m, Signal(t)))
  {
    SignalKeepsPlaces(m, t);
    var r := Do(m, Signal(t));
    assert PlaceOk(m, t) && ClockOk(m, t);
    if m.queue != [] { HeadParked(m, t); }
    forall u: nat | u < |r.clock|
      ensures ClockOk(r, u)
    {
      assert ClockOk(m, u) && PlaceOk(m, u);
    }
    forall i | 0 <= i < |r.queue| && r.pc[r.queue[i]].Unlocked?
      ensures OutOfReach(r, i)
    {
      assert m.queue != [] ==> r.queue[i] == m.queue[i + 1];
      assert m.queue != [] ==> OutOfReach(m, i + 1);
    }
  }

  lemma {:induction false} GrantKeepsInv(m: Machine, t: nat)
    requires Inv(m) && Can(m, Grant(t)) && Guarded(m, t)
    ensures Inv(Do(m, Grant(t)))
  {
    StepKeepsPlaces(m, Grant(t));
    var r := Do(m, Grant(t));
    assert PlaceOk(m, t);
    forall u: nat | u < |r.clock|
      ensures ClockOk(r, u)
    {
      assert ClockOk(m, u);
    }
  }

  lemma {:induction false} OtherKeepsClocks(m: Machine, a: Act, u: nat)
    requires Inv(m) && Can(m, a) && !a.Signal? && !a.Grant? && u < |m.clock|
    ensures ClockOk(Do(m, a), u)
  {
    assert PlaceOk(m, a.t) && ClockOk(m, a.t) && PlaceOk(m, u) && ClockOk(m, u);
  }

  lemma {:induction false} OtherKeepsReach(m: Machine, a: Act, i: nat)
    requires Inv(m) && Can(m, a) && !a.Signal? && !a.Grant? && PlacesOk(Do(m, a))
    requires i < |Do(m, a).queue| && Do(m, a).pc[Do(m, a).queue[i]].Unlocked?
    ensures OutOfReach(Do(m, a), i)
  {
    var r := Do(m, a);
    assert PlaceOk(m, a.t) && PlaceOk(r, a.t);
    assert i < |m.queue| ==> r.queue[i] == m.queue[i];
  }

  /** Every step keeps the invariant, a grant if it is guarded. */
  lemma {:induction false} StepKeepsInv(m: Machine, a: Act)
    requires Inv(m) && Can(m, a) && (a.Grant? ==> Guarded(m, a.t))
    ensures Inv(Do(m, a))
  {
    if a.Grant? {
      GrantKeepsInv(m, a.t);
    } else if a.Signal? {
      SignalKeepsInv(m, a.t);
    } else {
      StepKeepsPlaces(m, a);
      var r := Do(m, a);
      forall u: nat | u < |r.clock| ensures ClockOk(r, u) { OtherKeepsClocks(m, a, u); }
      forall i | 0 <= i < |r.queue| && r.pc[r.queue[i]].Unlocked?
        ensures OutOfReach(r, i)
      {
        OtherKeepsReach(m, a, i);
      }
    }
  }

  lemma {:induction false} RunInv(m: Machine, acts: seq<Act>)
    requires Inv(m) && CanAll(m, acts) && GrantsGuarded(m, acts)
    ensures Inv(DoAll(m, acts))
    decreases |acts|
  {
    if acts != [] {
      StepKeepsInv(m, acts[0]);
      RunInv(Do(m, acts[0]), acts[1..]);
    }
  }

  /** In every run with guarded grants, a signaller finds the head of the queue fully parked,
      and hands it a clock above the one it went to wait at and below the parking bound. */
  lemma {:induction false} SignalFindsSleeper(m: Machine, acts: seq<Act>, t: nat)
    requires Start(m) && CanAll(m, acts) && GrantsGuarded(m, acts)
    requires Can(DoAll(m, acts), Signal(t)) && DoAll(m, acts).queue != []
    ensures var s := DoAll(m, acts);
            var u := s.queue[0];
            var r := Do(s, Signal(t));
            && s.pc[u].Parked? && s.clock[u] >= MAX_LOGICAL_CLOCK
            && s.since[u] < r.clock[u] < MAX_LOGICAL_CLOCK
            && r.clock[u] == s.clock[t] && u in r.woken && r.queue == s.queue[1..]
  {
    RunInv(m, acts);
    HeadParked(DoAll(m, acts), t);
  }

  /** So a thread that leaves det_cond_wait meets the assertion there: its clock is below the
      parking bound, and it is later than when the thread released the mutex. */
  lemma {:induction false} WokenBelowBound(m: Machine, acts: seq<Act>, t: nat)
    requires Start(m) && CanAll(m, acts) && GrantsGuarded(m, acts)
    requires Can(DoAll(m, acts), Wake(t))
    ensures var s := DoAll(m, acts);
            s.since[t] < s.clock[t] < MAX_LOGICAL_CLOCK
  {
    RunInv(m, acts);
    assert ClockOk(DoAll(m, acts), t);
  }
}
