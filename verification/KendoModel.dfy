/** The logical state of the deterministic lock runtime of src/dpthread.c and the moves that
    change it.

    A thread carries a logical clock (hardware count plus software part), the rest of its
    program and the place it has reached inside the library.  A move is either local, when it
    needs no turn (ticks, recursive locks, the three steps of an unlock, the clock increment
    that ends an attempt), or a turn move, made by a thread that wait_for_turn let through. */
module KendoModel {
  import opened Options

  /** One step of a thread's program.  `Unlock(m, incr)` is det_unlock_and_incr_clock;
      det_unlock has incr == 1 and a thread exit ends with a huge incr. */
  datatype Op =
    | Compute(ticks: nat)
    | Lock(m: nat)
    | Unlock(m: nat, incr: nat)
    | Create(child: seq<Op>)

  /** Where a thread is inside the library.
      Want: in wait_for_turn, `queued` once AddQ has put it in the mutex queue.
      Won / Lost: attempt made in turn, own clock not raised yet.
      Releasing: release time written, pthread mutex not yet unlocked.
      Released: pthread mutex unlocked (or depth lowered), own clock not raised yet. */
  datatype Phase =
    | Run
    | Want(queued: bool)
    | Won
    | Lost
    | Releasing(m: nat, incr: nat)
    | Released(incr: nat)

  datatype Thread = Thread(clock: int, prog: seq<Op>, phase: Phase)

  /** A finished critical section: logical time of the grant and of the release. */
  datatype Section = Section(holder: nat, from: int, to: int)

  /** det_mutex_t.  `phys` is the holder of the pthread mutex, `owner`/`depth` are the fields
      owner and ref, `released` is released_logical_time.  `granted` and `past` are history:
      the clock of the current grant and the sections finished so far. */
  datatype Mutex = Mutex(
    phys: Option<nat>,
    owner: Option<nat>,
    depth: nat,
    released: int,
    queue: seq<nat>,
    granted: int,
    past: seq<Section>)

  /** Threads in order of creation, and the mutexes touched so far. */
  datatype World = World(threads: seq<Thread>, mutexes: map<nat, Mutex>)

  /** The state det_lock_init gives a mutex. */
  const FRESH := Mutex(None, None, 0, 0, [], 0, [])

  function Get(w: World, m: nat): Mutex {
    if m in w.mutexes then w.mutexes[m] else FRESH
  }

  function Put(w: World, t: nat, th: Thread, m: Option<nat>, mx: Mutex): World
    requires t < |w.threads|
  {
    World(w.threads[t := th], if m.Some? then w.mutexes[m.value := mx] else w.mutexes)
  }

  // ---------------------------------------------------------------- local moves

  /** The mutex a local move of this thread looks at. */
  function Focus(th: Thread): Option<nat> {
    match th.phase
    case Run =>
      if th.prog == [] then None
      else if th.prog[0].Lock? || th.prog[0].Unlock? then Some(th.prog[0].m) else None
    case Releasing(m, _) => Some(m)
    case _ => None
  }

  predicate Owns(mx: Mutex, t: nat) {
    mx.owner == Some(t) && mx.depth > 0
  }

  /** A local move of thread t, given the mutex it looks at; None when it has no local move:
      it is finished, waits for a turn, or unlocks a mutex that is not its own. */
  function Local(th: Thread, mx: Mutex, t: nat): Option<(Thread, Mutex)> {
    match th.phase
    case Run =>
      if th.prog == [] then None
      else (
        match th.prog[0]
        case Compute(k) =>
          if k == 0 then Some((th.(prog := th.prog[1..]), mx))
          else Some((th.(clock := th.clock + 1, prog := [Compute(k - 1)] + th.prog[1..]), mx))
        case Lock(_) =>
          if Owns(mx, t) then
            Some((th.(clock := th.clock + 1, prog := th.prog[1..]), mx.(depth := mx.depth + 1)))
          else Some((th.(phase := Want(false)), mx))
        case Unlock(m, incr) =>
          if !Owns(mx, t) then None
          else if mx.depth > 1 then
            Some((th.(phase := Released(incr)), mx.(depth := mx.depth - 1)))
          else
            Some((th.(phase := Releasing(m, incr)),
                  mx.(owner := None, depth := 0, released := th.clock,
                      past := mx.past + [Section(t, mx.granted, th.clock)])))
        case Create(_) => Some((th.(phase := Want(false)), mx))
      )
    case Want(_) => None
    case Won =>
      if th.prog == [] then None
      else Some((Thread(th.clock + 1, th.prog[1..], Run), mx))
    case Lost => Some((Thread(th.clock + 1, th.prog, Want(true)), mx))
    case Releasing(_, incr) => Some((th.(phase := Released(incr)), mx.(phys := None)))
    case Released(incr) =>
      if th.prog == [] then None
      else Some((Thread(th.clock + incr, th.prog[1..], Run), mx))
  }

  function FocusMutex(w: World, t: nat): Mutex
    requires t < |w.threads|
  {
    var f := Focus(w.threads[t]);
    if f.Some? then Get(w, f.value) else FRESH
  }

  predicate LocalEnabled(w: World, t: nat) {
    t < |w.threads| && Local(w.threads[t], FocusMutex(w, t), t).Some?
  }

  function LocalStep(w: World, t: nat): World
    requires LocalEnabled(w, t)
  {
    var r := Local(w.threads[t], FocusMutex(w, t), t).value;
    Put(w, t, r.0, Focus(w.threads[t]), r.1)
  }

  // ---------------------------------------------------------------- turn moves

  /** (clock, id) of t is before that of u: the order wait_for_turn compares with. */
  predicate Before(w: World, t: nat, u: nat)
    requires t < |w.threads| && u < |w.threads|
  {
    w.threads[t].clock < w.threads[u].clock || (w.threads[t].clock == w.threads[u].clock && t < u)
  }

  /** t holds the strict least (clock, id). */
  predicate Least(w: World, t: nat) {
    t < |w.threads| && forall u :: 0 <= u < |w.threads| && u != t ==> Before(w, t, u)
  }

  predicate WantsTurn(w: World, t: nat) {
    && t < |w.threads|
    && w.threads[t].phase.Want?
    && w.threads[t].prog != []
    && (w.threads[t].prog[0].Lock? || w.threads[t].prog[0].Create?)
  }

  /** The mutex queue after AddQ, which only the first attempt of a det_lock call does. */
  function Joined(mx: Mutex, t: nat, queued: bool): seq<nat> {
    if queued then mx.queue else mx.queue + [t]
  }

  /** The test of one det_lock attempt at `clock`: head of the queue, pthread trylock
      succeeds, and the last release is logically earlier. */
  predicate Admits(mx: Mutex, t: nat, clock: int, queued: bool) {
    var q := Joined(mx, t, queued);
    q != [] && q[0] == t && mx.phys.None? && mx.released < clock
  }

  /** What one attempt leaves in the mutex: the caller is in the queue, and if admitted has
      taken the mutex and left the queue again. */
  function Attempted(mx: Mutex, t: nat, clock: int, queued: bool): Mutex {
    var q := Joined(mx, t, queued);
    if Admits(mx, t, clock, queued) then
      mx.(phys := Some(t), owner := Some(t), depth := 1, queue := q[1..], granted := clock)
    else mx.(queue := q)
  }

  /** What the run log keeps of a turn move. */
  datatype Event =
    | Attempt(clock: int, tid: nat, m: nat, arrived: bool, granted: bool)
    | Spawn(clock: int, tid: nat, child: nat)

  function EventOf(w: World, t: nat): Event
    requires WantsTurn(w, t)
  {
    var th := w.threads[t];
    match th.prog[0]
    case Lock(m) =>
      Attempt(th.clock, t, m, !th.phase.queued, Admits(Get(w, m), t, th.clock, th.phase.queued))
    case _ => Spawn(th.clock, t, |w.threads|)
  }

  /** The turn part of det_lock (AddQ, the attempt, and DelQ on success) or of det_create. */
  function Turn(w: World, t: nat): World
    requires WantsTurn(w, t)
  {
    var th := w.threads[t];
    match th.prog[0]
    case Lock(m) =>
      var mx := Get(w, m);
      var won := Admits(mx, t, th.clock, th.phase.queued);
      Put(w, t, th.(phase := if won then Won else Lost), Some(m), Attempted(mx, t, th.clock, th.phase.queued))
    case Create(child) =>
      World(w.threads[t := Thread(th.clock, th.prog[1..], Run)] + [Thread(th.clock + 1, child, Run)],
            w.mutexes)
  }

  // ---------------------------------------------------------------- invariant

  /** What every state keeps about one thread. */
  ghost predicate ThreadInv(w: World, t: nat)
    requires t < |w.threads|
  {
    var th := w.threads[t];
    match th.phase
    case Run => true
    case Want(queued) => WantsTurn(w, t) && (queued ==> th.prog[0].Lock?)
    case Won =>
      && th.prog != [] && th.prog[0].Lock?
      && Get(w, th.prog[0].m).owner == Some(t)
      && Get(w, th.prog[0].m).granted == th.clock
    case Lost => th.prog != [] && th.prog[0].Lock?
    case Releasing(m, _) =>
      && th.prog != []
      && Get(w, m).phys == Some(t) && Get(w, m).owner.None? && Get(w, m).released == th.clock
    case Released(_) => th.prog != []
  }

  /** Thread t stands in the queue of m. */
  predicate Waits(th: Thread, m: nat) {
    && (th.phase == Lost || th.phase == Want(true))
    && th.prog != [] && th.prog[0] == Lock(m)
  }

  /** Finished sections are non-empty, disjoint, increasing, and end at `released`. */
  predicate SectionsInv(past: seq<Section>, released: int) {
    && (forall i :: 0 <= i < |past| ==> past[i].from < past[i].to)
    && (forall i, j :: 0 <= i < j < |past| ==> past[i].to < past[j].from)
    && (if past == [] then released == 0 else released == past[|past| - 1].to)
    && (past != [] ==> 0 < past[0].from)
  }

  /** What every state keeps about one mutex. */
  ghost predicate MutexInv(w: World, m: nat) {
    var mx := Get(w, m);
    && (mx.depth > 0 <==> mx.owner.Some?)
    && (mx.owner.Some? ==> mx.phys == mx.owner)
    && (mx.phys.Some? ==> mx.phys.value < |w.threads|)
    && (mx.owner.Some? ==>
          var th := w.threads[mx.owner.value];
          && mx.released < mx.granted <= th.clock
          && (mx.granted == th.clock ==> th.phase == Won && th.prog != [] && th.prog[0] == Lock(m)))
    && (mx.phys.Some? && mx.owner.None? ==>
          var th := w.threads[mx.phys.value];
          th.phase.Releasing? && th.phase.m == m)
    && SectionsInv(mx.past, mx.released)
    && (forall i :: 0 <= i < |mx.queue| ==>
          mx.queue[i] < |w.threads| && Waits(w.threads[mx.queue[i]], m))
    && (forall i, j :: 0 <= i < j < |mx.queue| ==> mx.queue[i] != mx.queue[j])
    && (forall t :: 0 <= t < |w.threads| && Waits(w.threads[t], m) ==> t in mx.queue)
  }

  ghost predicate Inv(w: World) {
    && (forall t :: 0 <= t < |w.threads| ==> ThreadInv(w, t))
    && (forall m: nat :: MutexInv(w, m))
  }
}
