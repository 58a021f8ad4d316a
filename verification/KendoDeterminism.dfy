/** The order of synchronization is the same in every run: the log of any interleaving is a log
    the serial scheduler passes through, so any two logs agree as far as both go. */
module KendoDeterminism {
  import opened KendoModel
  import opened KendoInvariant
  import opened KendoSettle
  import opened KendoRuns
  import opened KendoAccount

  // ---------------------------------------------------------------- the serial scheduler

  lemma {:induction false} LeastMoves(w: World, t: nat, n: nat)
    requires t < n < |w.threads| && !Before(w, t, n)
    requires forall u :: 0 <= u < n && u != t ==> Before(w, t, u)
    ensures forall u :: 0 <= u < n ==> Before(w, n, u)
  {
    forall u | 0 <= u < n ensures Before(w, n, u) {
      if u != t { assert Before(w, t, u); }
    }
  }

  /** The thread with the least (clock, id) among the first n. */
  function LeastOf(w: World, n: nat): (t: nat)
    requires 0 < n <= |w.threads|
    ensures t < n && forall u :: 0 <= u < n && u != t ==> Before(w, t, u)
  {
    if n == 1 then 0
    else
      var t := LeastOf(w, n - 1);
      if Before(w, t, n - 1) then t
      else
        LeastMoves(w, t, n - 1);
        n - 1
  }

  function LeastThread(w: World): (t: nat)
    requires w.threads != []
    ensures Least(w, t)
  {
    LeastOf(w, |w.threads|)
  }

  /** n steps of the scheduler that only ever moves the thread with the least (clock, id);
      it stands still when that thread is finished. */
  function Serial(w: World, n: nat): (World, seq<Event>)
    requires w.threads != []
    decreases n
  {
    if n == 0 then (w, [])
    else
      var t := LeastThread(w);
      if LocalEnabled(w, t) then Serial(LocalStep(w, t), n - 1)
      else if WantsTurn(w, t) then
        var r := Serial(Turn(w, t), n - 1);
        (r.0, [EventOf(w, t)] + r.1)
      else (w, [])
  }

  // ---------------------------------------------------------------- the settled log

  /** The settled state after the least thread's turn move. */
  ghost function NextSettled(w: World): (v: World)
    requires Inv(w) && w.threads != [] && WantsTurn(w, LeastThread(w))
    ensures Inv(v) && v.threads != [] && Settled(v)
  {
    TurnKeepsInv(w, LeastThread(w));
    SettleInv(Turn(w, LeastThread(w)));
    Settle(Turn(w, LeastThread(w)))
  }

  /** The first k events from a settled state, and the settled state after them. */
  ghost function Canon(w: World, k: nat): (World, seq<Event>)
    requires Inv(w) && w.threads != []
    decreases k
  {
    if k == 0 || !WantsTurn(w, LeastThread(w)) then (w, [])
    else
      var r := Canon(NextSettled(w), k - 1);
      (r.0, [EventOf(w, LeastThread(w))] + r.1)
  }

  lemma {:induction false} LeastUnique(w: World, t: nat, u: nat)
    requires Least(w, t) && Least(w, u)
    ensures t == u
  {
    assert t != u ==> Before(w, t, u);
    assert t != u ==> Before(w, u, t);
  }

  /** A turn move of the least thread is the next event of the settled log. */
  lemma {:induction false} CanonTurn(w: World, t: nat, k: nat)
    requires Inv(w) && Least(w, t) && WantsTurn(w, t)
    ensures Inv(Settle(w)) && Settle(w).threads != []
    ensures Inv(Turn(w, t)) && Inv(Settle(Turn(w, t))) && Settle(Turn(w, t)).threads != []
    ensures Canon(Settle(w), k + 1).1 == [EventOf(w, t)] + Canon(Settle(Turn(w, t)), k).1
    ensures Canon(Settle(w), k + 1).0 == Canon(Settle(Turn(w, t)), k).0
  {
    SettleInv(w);
    TurnSettle(w, t);
    LeastUnique(Settle(w), t, LeastThread(Settle(w)));
    SettleInv(Turn(w, t));
  }

  lemma {:induction false} CanonPrefix(w: World, j: nat, k: nat)
    requires Inv(w) && w.threads != [] && j <= k
    ensures Canon(w, j).1 <= Canon(w, k).1 && |Canon(w, j).1| <= j
    decreases j
  {
    if j > 0 && WantsTurn(w, LeastThread(w)) {
      CanonPrefix(NextSettled(w), j - 1, k - 1);
    }
  }

  /** The log from w to w' is the settled log from w, and ends over the settled form of w'. */
  ghost predicate Follows(w: World, log: seq<Event>, w': World)
    requires Inv(w) && w.threads != [] && Inv(w')
  {
    SettleInv(w);
    log == Canon(Settle(w), |log|).1 && Settle(w') == Canon(Settle(w), |log|).0
  }

  lemma {:induction false} FollowsLocal(w: World, t: nat, log: seq<Event>, w': World)
    requires Inv(w) && LocalEnabled(w, t) && Inv(w')
    requires Inv(LocalStep(w, t)) && LocalStep(w, t).threads != []
    requires Follows(LocalStep(w, t), log, w')
    ensures Follows(w, log, w')
  {
    LocalSettle(w, t);
  }

  lemma {:induction false} LongerLog(v: World, x: World, e: Event, log: seq<Event>, w': World)
    requires Inv(v) && v.threads != [] && Inv(x) && x.threads != [] && Inv(w')
    requires Canon(v, |log| + 1).1 == [e] + Canon(x, |log|).1 && Canon(v, |log| + 1).0 == Canon(x, |log|).0
    requires log == Canon(x, |log|).1 && Settle(w') == Canon(x, |log|).0
    ensures [e] + log == Canon(v, |[e] + log|).1 && Settle(w') == Canon(v, |[e] + log|).0
  {
    assert |[e] + log| == |log| + 1;
  }

  lemma {:induction false} FollowsTurn(w: World, t: nat, log: seq<Event>, w': World)
    requires Inv(w) && Least(w, t) && WantsTurn(w, t) && Inv(w')
    requires Inv(Turn(w, t)) && Turn(w, t).threads != []
    requires Follows(Turn(w, t), log, w')
    ensures Follows(w, [EventOf(w, t)] + log, w')
  {
    CanonTurn(w, t, |log|);
    LongerLog(Settle(w), Settle(Turn(w, t)), EventOf(w, t), log, w');
  }

  /** What one action does to the world and the log. */
  lemma {:induction false} ApplyEffect(s: State, a: Action)
    requires RunInv(s) && s.w.threads != [] && Enabled(s, a)
    ensures var s' := Apply(s, a);
            && RunInv(s') && s'.w.threads != []
            && (a.Step? ==> LocalEnabled(s.w, a.t) && s'.w == LocalStep(s.w, a.t) && s'.log == s.log)
            && (a.Take? ==> WantsTurn(s.w, a.t) && Least(s.w, a.t)
                            && s'.w == Turn(s.w, a.t) && s'.log == s.log + [EventOf(s.w, a.t)])
            && (!a.Step? && !a.Take? ==> s'.w == s.w && s'.log == s.log)
  {
    ApplyInv(s, a);
    assert ScanInv(s, a.t);
  }

  /** An action in front of a stretch that follows the settled log. */
  lemma {:induction false} FollowsApply(s: State, a: Action, rest: seq<Event>, w': World) returns (log: seq<Event>)
    requires RunInv(s) && s.w.threads != [] && Enabled(s, a)
    requires RunInv(Apply(s, a)) && Apply(s, a).w.threads != []
    requires Inv(w') && Follows(Apply(s, a).w, rest, w')
    ensures Follows(s.w, log, w') && Apply(s, a).log + rest == s.log + log
  {
    ApplyEffect(s, a);
    log := rest;
    if a.Step? {
      FollowsLocal(s.w, a.t, rest, w');
    } else if a.Take? {
      FollowsTurn(s.w, a.t, rest, w');
      log := [EventOf(s.w, a.t)] + rest;
    }
  }

  /** Simulation: a run logs the first events of the settled log and stays over its state. */
  lemma {:induction false} RunFollows(s: State, acts: seq<Action>) returns (log: seq<Event>)
    requires RunInv(s) && s.w.threads != [] && Runs(s, acts)
    ensures RunInv(Exec(s, acts))
    ensures Exec(s, acts).log == s.log + log
    ensures Follows(s.w, log, Exec(s, acts).w)
    decreases |acts|
  {
    if acts == [] {
      log := [];
    } else {
      ApplyEffect(s, acts[0]);
      var rest := RunFollows(Apply(s, acts[0]), acts[1..]);
      log := FollowsApply(s, acts[0], rest, Exec(s, acts).w);
    }
  }

  // ---------------------------------------------------------------- the serial scheduler moves on

  function TotalWork(ths: seq<Thread>): nat {
    if ths == [] then 0 else Work(ths[0]) + TotalWork(ths[1..])
  }

  lemma {:induction false} TotalWorkDrops(ths: seq<Thread>, t: nat, th: Thread)
    requires t < |ths| && Work(th) < Work(ths[t])
    ensures TotalWork(ths[t := th]) < TotalWork(ths)
  {
    if t == 0 {
      assert ths[t := th][1..] == ths[1..];
    } else {
      assert ths[t := th][1..] == ths[1..][t - 1 := th];
      TotalWorkDrops(ths[1..], t - 1, th);
    }
  }

  lemma {:induction false} LocalDrops(w: World, t: nat)
    requires LocalEnabled(w, t)
    ensures TotalWork(LocalStep(w, t).threads) < TotalWork(w.threads)
  {
    LocalShrinks(w, t);
    LocalFrame(w, t);
    assert LocalStep(w, t).threads == w.threads[t := LocalStep(w, t).threads[t]];
    TotalWorkDrops(w.threads, t, LocalStep(w, t).threads[t]);
  }

  /** A least thread without a move blocks the settled log too. */
  lemma {:induction false} LeastStuck(w: World, t: nat)
    requires Inv(w) && Least(w, t) && !LocalEnabled(w, t)
    ensures Inv(Settle(w)) && Least(Settle(w), t) && Settle(w).threads[t] == w.threads[t]
    ensures WantsTurn(Settle(w), t) == WantsTurn(w, t)
  {
    SettleInv(w);
    var v := Settle(w);
    forall u | 0 <= u < |v.threads| && u != t ensures Before(v, t, u) {
      BeforeGrows(w, v, t, u);
    }
  }

  lemma {:induction false} SerialLocal(w: World, n: nat)
    requires w.threads != [] && LocalEnabled(w, LeastThread(w))
    ensures LocalStep(w, LeastThread(w)).threads != []
    ensures Serial(w, n + 1) == Serial(LocalStep(w, LeastThread(w)), n)
  {
  }

  lemma {:induction false} SerialTurn(w: World, n: nat)
    requires w.threads != [] && !LocalEnabled(w, LeastThread(w)) && WantsTurn(w, LeastThread(w))
    ensures Turn(w, LeastThread(w)).threads != []
    ensures Serial(w, n + 1).1 == [EventOf(w, LeastThread(w))] + Serial(Turn(w, LeastThread(w)), n).1
  {
  }

  ghost function CanonLog(w: World, k: nat): seq<Event>
    requires Inv(w) && w.threads != []
  {
    SettleInv(w);
    Canon(Settle(w), k).1
  }

  lemma {:induction false} CanonLogStuck(w: World, k: nat)
    requires Inv(w) && w.threads != []
    requires !LocalEnabled(w, LeastThread(w)) && !WantsTurn(w, LeastThread(w))
    ensures CanonLog(w, k) == []
  {
    var t := LeastThread(w);
    LeastStuck(w, t);
    LeastUnique(Settle(w), t, LeastThread(Settle(w)));
  }

  lemma {:induction false} CanonLogLocal(w: World, t: nat, k: nat)
    requires Inv(w) && LocalEnabled(w, t)
    ensures Inv(LocalStep(w, t)) && LocalStep(w, t).threads != []
    ensures CanonLog(LocalStep(w, t), k) == CanonLog(w, k)
  {
    LocalSettle(w, t);
    LocalFrame(w, t);
  }

  lemma {:induction false} CanonLogTurn(w: World, t: nat, k: nat)
    requires Inv(w) && Least(w, t) && WantsTurn(w, t)
    ensures Inv(Turn(w, t)) && Turn(w, t).threads != []
    ensures CanonLog(w, k + 1) == [EventOf(w, t)] + CanonLog(Turn(w, t), k)
  {
    TurnKeepsInv(w, t);
    CanonTurn(w, t, k);
  }

  /** However many events the settled log has, the serial scheduler logs them. */
  lemma {:induction false} SerialReaches(w: World, k: nat) returns (n: nat)
    requires Inv(w) && w.threads != []
    ensures Serial(w, n).1 == CanonLog(w, k)
    decreases k, TotalWork(w.threads) + 1
  {
    var t := LeastThread(w);
    if k == 0 {
      n := 0;
    } else if LocalEnabled(w, t) {
      CanonLogLocal(w, t, k);
      LocalDrops(w, t);
      n := SerialReaches(LocalStep(w, t), k);
      SerialLocal(w, n);
      n := n + 1;
    } else if WantsTurn(w, t) {
      n := ReachesByTurn(w, k);
    } else {
      CanonLogStuck(w, k);
      n := 0;
    }
  }

  lemma {:induction false} ReachesByTurn(w: World, k: nat) returns (n: nat)
    requires Inv(w) && w.threads != [] && k > 0
    requires !LocalEnabled(w, LeastThread(w)) && WantsTurn(w, LeastThread(w))
    ensures Serial(w, n).1 == CanonLog(w, k)
    decreases k, 0
  {
    CanonLogTurn(w, LeastThread(w), k - 1);
    n := SerialReaches(Turn(w, LeastThread(w)), k - 1);
    SerialTurn(w, n);
    n := n + 1;
  }

  // ---------------------------------------------------------------- the theorems

  /** Determinism: the log of any run of a program is the log of the serial scheduler after
      some number of steps, and each event in it is accounted for by the text of the program. */
  lemma {:induction false} Determinism(prog: seq<Op>, acts: seq<Action>) returns (n: nat)
    requires Runs(Start(prog), acts)
    ensures Exec(Start(prog), acts).log == Serial(StartWorld(prog), n).1
    ensures LogAccounted(prog, Exec(Start(prog), acts).log)
  {
    EveryEventAccounted(prog, acts);
    StartInv(prog);
    var s := Start(prog);
    var log := RunFollows(s, acts);
    assert log == Exec(s, acts).log;
    n := SerialReaches(s.w, |log|);
  }

  lemma {:induction false} FollowsAgree(w: World, p: seq<Event>, x: World, q: seq<Event>, y: World)
    requires Inv(w) && w.threads != [] && Inv(x) && Inv(y)
    requires Follows(w, p, x) && Follows(w, q, y) && |p| <= |q|
    ensures p <= q && (p == q ==> Settle(x) == Settle(y))
  {
    SettleInv(w);
    CanonPrefix(Settle(w), |p|, |q|);
  }

  /** Two interleavings of one program agree on every turn move both have made. */
  lemma {:induction false} RunsAgree(prog: seq<Op>, a: seq<Action>, b: seq<Action>)
    requires Runs(Start(prog), a) && Runs(Start(prog), b)
    ensures var x, y := Exec(Start(prog), a).log, Exec(Start(prog), b).log; x <= y || y <= x
  {
    StartInv(prog);
    var s := Start(prog);
    var p := RunFollows(s, a);
    var q := RunFollows(s, b);
    assert p == Exec(s, a).log && q == Exec(s, b).log;
    if |p| <= |q| {
      FollowsAgree(s.w, p, Exec(s, a).w, q, Exec(s, b).w);
    } else {
      FollowsAgree(s.w, q, Exec(s, b).w, p, Exec(s, a).w);
    }
  }

  /** When two interleavings have made the same turn moves, the critical sections they have
      finished on a mutex, with their logical grant and release times, are the same as far as
      both go: release times do not depend on the interleaving. */
  lemma {:induction false} SectionsAgree(prog: seq<Op>, a: seq<Action>, b: seq<Action>, m: nat)
    requires Runs(Start(prog), a) && Runs(Start(prog), b)
    requires Exec(Start(prog), a).log == Exec(Start(prog), b).log
    ensures var x, y := Get(Exec(Start(prog), a).w, m).past, Get(Exec(Start(prog), b).w, m).past;
            x <= y || y <= x
  {
    StartInv(prog);
    var s := Start(prog);
    var p := RunFollows(s, a);
    var q := RunFollows(s, b);
    assert p == Exec(s, a).log && q == Exec(s, b).log;
    var x, y := Exec(s, a).w, Exec(s, b).w;
    FollowsAgree(s.w, p, x, q, y);
    SettleInv(x);
    SettleInv(y);
  }

  lemma {:induction false} CompleteStays(w: World, k: nat)
    requires Inv(w) && Complete(w) && k <= |w.threads|
    ensures SettleFrom(w, k) == w
    decreases |w.threads| - k
  {
    if k < |w.threads| {
      RunAheadInv(w, k);
      assert RunAhead(w, k) == w;
      CompleteStays(w, k + 1);
    }
  }

  /** The settled log does not grow past a state in which nobody wants a turn. */
  lemma {:induction false} CanonStops(w: World, j: nat, k: nat)
    requires Inv(w) && w.threads != []
    requires |Canon(w, j).1| == j && Complete(Canon(w, j).0) && j <= k
    ensures Canon(w, k) == Canon(w, j)
    decreases j
  {
    if j > 0 {
      assert WantsTurn(w, LeastThread(w));
      CanonStops(NextSettled(w), j - 1, k - 1);
    }
  }

  lemma {:induction false} FollowsComplete(w: World, p: seq<Event>, x: World, q: seq<Event>, y: World)
    requires Inv(w) && w.threads != [] && Inv(x) && Inv(y)
    requires Follows(w, p, x) && Follows(w, q, y) && Complete(x)
    ensures q <= p && (Complete(y) ==> q == p && y == x)
  {
    SettleInv(w);
    CompleteStays(x, 0);
    if |q| <= |p| {
      FollowsAgree(w, q, y, p, x);
      if Complete(y) {
        CompleteStays(y, 0);
        CanonStops(Settle(w), |q|, |p|);
      }
    } else {
      CanonStops(Settle(w), |p|, |q|);
    }
  }

  /** If one run of a program comes to its end, no other run goes another way: its log is a
      prefix, and once it too has come to its end every clock, every mutex and every critical
      section is the same. */
  lemma {:induction false} OneOutcome(prog: seq<Op>, a: seq<Action>, b: seq<Action>)
    requires Runs(Start(prog), a) && Runs(Start(prog), b)
    requires Complete(Exec(Start(prog), a).w)
    ensures var x, y := Exec(Start(prog), a), Exec(Start(prog), b);
            y.log <= x.log && (Complete(y.w) ==> y.log == x.log && y.w == x.w)
  {
    StartInv(prog);
    var s := Start(prog);
    var p := RunFollows(s, a);
    var q := RunFollows(s, b);
    assert p == Exec(s, a).log && q == Exec(s, b).log;
    FollowsComplete(s.w, p, Exec(s, a).w, q, Exec(s, b).w);
  }
}
