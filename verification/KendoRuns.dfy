/** The runtime as it runs: any interleaving of local moves, clock-by-clock scans of
    wait_for_turn and turn moves.  Turns are exclusive and the log of turn moves is that of a
    serial scheduler, whatever the interleaving. */
module KendoRuns {
  import opened KendoModel
  import opened KendoInvariant
  import opened KendoSettle

  /** Progress of a thread through wait_for_turn.  Scanning(n, i): max_thr was read as n and
      the clocks of the first i - 1 other threads have been read and found later. */
  datatype Scan = Idle | Scanning(n: nat, i: nat) | InTurn

  datatype State = State(w: World, scan: seq<Scan>, log: seq<Event>)

  datatype Action =
    | Step(t: nat)    // a local move
    | Begin(t: nat)   // enter wait_for_turn, read max_thr
    | Pass(t: nat)    // read the next clock; it is later than mine
    | Retry(t: nat)   // read a clock that is not later, or see max_thr changed: start again
    | Finish(t: nat)  // all clocks read, max_thr unchanged: return from wait_for_turn
    | Take(t: nat)    // the turn move

  function ScanTarget(t: nat, n: nat, i: nat): nat
    requires n > 0
  {
    (t + i) % n
  }

  predicate Enabled(s: State, a: Action) {
    var t := a.t;
    && t < |s.w.threads| && |s.scan| == |s.w.threads|
    && match a
       case Step(_) => LocalEnabled(s.w, t)
       case Begin(_) => WantsTurn(s.w, t) && s.scan[t].Idle?
       case Pass(_) =>
         && s.scan[t].Scanning? && s.scan[t].i < s.scan[t].n <= |s.w.threads|
         && Before(s.w, t, ScanTarget(t, s.scan[t].n, s.scan[t].i))
       case Retry(_) => s.scan[t].Scanning?
       case Finish(_) => s.scan[t].Scanning? && s.scan[t].n <= s.scan[t].i && |s.w.threads| == s.scan[t].n
       case Take(_) => s.scan[t].InTurn? && WantsTurn(s.w, t)
  }

  function Apply(s: State, a: Action): State
    requires Enabled(s, a)
  {
    var t := a.t;
    match a
    case Step(_) => s.(w := LocalStep(s.w, t), scan := s.scan[t := Idle])
    case Begin(_) => s.(scan := s.scan[t := Scanning(|s.w.threads|, 1)])
    case Pass(_) => s.(scan := s.scan[t := Scanning(s.scan[t].n, s.scan[t].i + 1)])
    case Retry(_) => s.(scan := s.scan[t := Scanning(|s.w.threads|, 1)])
    case Finish(_) => s.(scan := s.scan[t := InTurn])
    case Take(_) =>
      State(Turn(s.w, t),
            if s.w.threads[t].prog[0].Create? then s.scan[t := Idle] + [Idle] else s.scan,
            s.log + [EventOf(s.w, t)])
  }

  /** The actions can be taken one after the other from s. */
  predicate Runs(s: State, acts: seq<Action>)
    decreases |acts|
  {
    acts == [] || (Enabled(s, acts[0]) && Runs(Apply(s, acts[0]), acts[1..]))
  }

  function Exec(s: State, acts: seq<Action>): State
    requires Runs(s, acts)
    decreases |acts|
  {
    if acts == [] then s else Exec(Apply(s, acts[0]), acts[1..])
  }

  lemma {:induction false} ExecCons(s: State, a: Action, rest: seq<Action>)
    requires Enabled(s, a) && Runs(Apply(s, a), rest)
    ensures Runs(s, [a] + rest) && Exec(s, [a] + rest) == Exec(Apply(s, a), rest)
  {
    assert ([a] + rest)[1..] == rest;
  }

  /** det_init: the main thread alone, at clock 0. */
  function StartWorld(prog: seq<Op>): World {
    World([Thread(0, prog, Run)], map[])
  }

  function Start(prog: seq<Op>): State {
    State(StartWorld(prog), [Idle], [])
  }

  /** All threads have come to the end of their programs. */
  predicate Complete(w: World) {
    forall t :: 0 <= t < |w.threads| ==> w.threads[t].phase == Run && w.threads[t].prog == []
  }

  // ---------------------------------------------------------------- turn exclusivity

  ghost predicate ScanInv(s: State, t: nat)
    requires |s.scan| == |s.w.threads| && t < |s.w.threads|
  {
    var th := s.w.threads[t];
    && (th.phase.Won? || th.phase.Lost? ==> s.scan[t].InTurn?)
    && match s.scan[t]
       case Idle => true
       case Scanning(n, i) =>
         && th.phase.Want? && t < n <= |s.w.threads| && 1 <= i && (i <= n)
         && (forall j :: 1 <= j < i ==> Before(s.w, t, ScanTarget(t, n, j)))
       case InTurn => Least(s.w, t) && (th.phase.Want? || th.phase.Won? || th.phase.Lost?)
  }

  ghost predicate RunInv(s: State) {
    && Inv(s.w)
    && |s.scan| == |s.w.threads|
    && (forall t :: 0 <= t < |s.w.threads| ==> ScanInv(s, t))
  }

  lemma {:induction false} StartInv(prog: seq<Op>)
    ensures RunInv(Start(prog))
  {
    var s := Start(prog);
    assert Inv(s.w) by {
      forall m: nat ensures MutexInv(s.w, m) {}
    }
  }

  lemma {:induction false} WrapsAround(u: nat, n: nat)
    requires u < n
    ensures (u + n) % n == u
  {
    assert (u + n) / n == 1;
  }

  /** The scan's index arithmetic reaches every other thread. */
  lemma {:induction false} ScanReaches(t: nat, n: nat, u: nat) returns (j: nat)
    requires t < n && u < n && t != u
    ensures 1 <= j < n && ScanTarget(t, n, j) == u
  {
    if u > t {
      j := u - t;
      assert t + j == u;
    } else {
      j := u + n - t;
      WrapsAround(u, n);
      assert t + j == u + n;
    }
  }

  lemma {:induction false} BeforeGrows(w: World, w': World, t: nat, u: nat)
    requires t < |w.threads| <= |w'.threads| && u < |w.threads|
    requires Before(w, t, u)
    requires w'.threads[t].clock == w.threads[t].clock && w'.threads[u].clock >= w.threads[u].clock
    ensures Before(w', t, u)
  {
  }

  lemma {:induction false} StepKeepsScan(s: State, t: nat, u: nat)
    requires RunInv(s) && Enabled(s, Step(t)) && u < |s.w.threads|
    ensures |Apply(s, Step(t)).w.threads| == |s.w.threads|
    ensures ScanInv(Apply(s, Step(t)), u)
  {
    var s' := Apply(s, Step(t));
    LocalFrame(s.w, t);
    assert ScanInv(s, u);
    if u != t {
      match s.scan[u]
      case Idle =>
      case InTurn => LocalKeepsLeast(s.w, u, t);
      case Scanning(n, i) =>
        forall j | 1 <= j < i ensures Before(s'.w, u, ScanTarget(u, n, j)) {
          BeforeGrows(s.w, s'.w, u, ScanTarget(u, n, j));
        }
    } else {
      assert ThreadInv(s.w, t);
    }
  }

  lemma {:induction false} TurnsExclusive(s: State, t: nat, u: nat)
    requires RunInv(s) && t < |s.scan| && u < |s.scan|
    requires s.scan[t].InTurn? && s.scan[u].InTurn?
    ensures t == u
  {
    assert ScanInv(s, t) && ScanInv(s, u);
    assert t != u ==> Before(s.w, t, u);
    assert t != u ==> Before(s.w, u, t);
  }

  lemma {:induction false} TakeKeepsScan(s: State, t: nat, u: nat)
    requires RunInv(s) && Enabled(s, Take(t)) && u < |Apply(s, Take(t)).w.threads|
    ensures |Apply(s, Take(t)).scan| == |Apply(s, Take(t)).w.threads|
    ensures ScanInv(Apply(s, Take(t)), u)
  {
    var s' := Apply(s, Take(t));
    TurnFrame(s.w, t);
    assert ScanInv(s, t);
    if u < |s.w.threads| {
      assert ScanInv(s, u);
      if u != t && s.scan[u].InTurn? { TurnsExclusive(s, t, u); }
      if u != t && s.scan[u].Scanning? {
        forall j | 1 <= j < s.scan[u].i ensures Before(s'.w, u, ScanTarget(u, s.scan[u].n, j)) {
          BeforeGrows(s.w, s'.w, u, ScanTarget(u, s.scan[u].n, j));
        }
      }
      if u == t && !s.w.threads[t].prog[0].Create? {
        forall v | 0 <= v < |s'.w.threads| && v != t ensures Before(s'.w, t, v) {
          BeforeGrows(s.w, s'.w, t, v);
        }
      }
    }
  }

  lemma {:induction false} ScanKeeps(s: State, a: Action, u: nat)
    requires RunInv(s) && Enabled(s, a) && !a.Step? && !a.Take? && u < |s.w.threads|
    ensures ScanInv(Apply(s, a), u)
  {
    assert ScanInv(s, u) && ScanInv(s, a.t);
    assert ThreadInv(s.w, a.t);
    if u == a.t && a.Finish? {
      forall v | 0 <= v < |s.w.threads| && v != u ensures Before(s.w, u, v) {
        var j := ScanReaches(u, s.scan[u].n, v);
      }
    }
  }

  /** Every action keeps the invariant. */
  lemma {:induction false} ApplyInv(s: State, a: Action)
    requires RunInv(s) && Enabled(s, a)
    ensures RunInv(Apply(s, a))
  {
    var s' := Apply(s, a);
    match a
    case Step(t) =>
      LocalKeepsInv(s.w, t);
      forall u | 0 <= u < |s'.w.threads| ensures ScanInv(s', u) { StepKeepsScan(s, t, u); }
    case Take(t) =>
      TurnKeepsInv(s.w, t);
      TurnFrame(s.w, t);
      forall u | 0 <= u < |s'.w.threads| ensures ScanInv(s', u) { TakeKeepsScan(s, t, u); }
    case _ =>
      forall u | 0 <= u < |s'.w.threads| ensures ScanInv(s', u) { ScanKeeps(s, a, u); }
  }

  lemma {:induction false} ExecInv(s: State, acts: seq<Action>)
    requires RunInv(s) && Runs(s, acts)
    ensures RunInv(Exec(s, acts))
    decreases |acts|
  {
    if acts != [] {
      ApplyInv(s, acts[0]);
      ExecInv(Apply(s, acts[0]), acts[1..]);
    }
  }

  /** In every reachable state, a thread that wait_for_turn let through holds the strict least
      (clock, id) over all created threads, and no other thread is in turn. */
  lemma {:induction false} TurnExclusivity(prog: seq<Op>, acts: seq<Action>, t: nat)
    requires Runs(Start(prog), acts)
    requires t < |Exec(Start(prog), acts).scan| && Exec(Start(prog), acts).scan[t].InTurn?
    ensures var s := Exec(Start(prog), acts);
            && Least(s.w, t)
            && (forall u :: 0 <= u < |s.scan| && s.scan[u].InTurn? ==> u == t)
  {
    StartInv(prog);
    ExecInv(Start(prog), acts);
    var s := Exec(Start(prog), acts);
    assert ScanInv(s, t);
    forall u | 0 <= u < |s.scan| && s.scan[u].InTurn? ensures u == t { TurnsExclusive(s, t, u); }
  }
}
