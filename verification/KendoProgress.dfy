/** The turn protocol adds no deadlock: whatever a run has done so far, it can go on to the
    next turn move of the serial scheduler, whenever there is one. */
module KendoProgress {
  import opened KendoModel
  import opened KendoInvariant
  import opened KendoSettle
  import opened KendoRuns
  import opened KendoDeterminism

  lemma {:induction false} ExecFirst(s: State, a: seq<Action>, b: seq<Action>)
    requires a != [] && Enabled(s, a[0]) && Runs(Apply(s, a[0]), a[1..] + b)
    ensures Runs(s, a + b) && Exec(s, a + b) == Exec(Apply(s, a[0]), a[1..] + b)
  {
    assert a + b == [a[0]] + (a[1..] + b);
    ExecCons(s, a[0], a[1..] + b);
  }

  lemma {:induction false} ExecAppend(s: State, a: seq<Action>, b: seq<Action>)
    requires Runs(s, a) && Runs(Exec(s, a), b)
    ensures Runs(s, a + b) && Exec(s, a + b) == Exec(Exec(s, a), b)
    decreases |a|
  {
    if a == [] {
      assert a + b == b;
    } else {
      ExecAppend(Apply(s, a[0]), a[1..], b);
      ExecFirst(s, a, b);
    }
  }

  lemma {:induction false} SettledStays(w: World, k: nat)
    requires Inv(w) && Settled(w) && k <= |w.threads|
    ensures SettleFrom(w, k) == w
    decreases |w.threads| - k
  {
    if k < |w.threads| {
      RunAheadInv(w, k);
      assert RunAhead(w, k) == w;
      SettledStays(w, k + 1);
    }
  }

  lemma {:induction false} ScanTargetOther(t: nat, n: nat, i: nat)
    requires t < n && 1 <= i < n
    ensures ScanTarget(t, n, i) < n && ScanTarget(t, n, i) != t
  {
    if t + i < n {
      assert (t + i) % n == t + i;
    } else {
      assert (t + i) % n == t + i - n;
    }
  }

  lemma {:induction false} PassOnce(s: State, t: nat)
    requires RunInv(s) && Least(s.w, t) && s.scan[t].Scanning? && s.scan[t].i < s.scan[t].n
    ensures Enabled(s, Pass(t)) && RunInv(Apply(s, Pass(t)))
  {
    assert ScanInv(s, t);
    ScanTargetOther(t, s.scan[t].n, s.scan[t].i);
    ApplyInv(s, Pass(t));
  }

  /** The least thread's scan finds every clock later than its own. */
  lemma {:induction false} ScanThrough(s: State, t: nat) returns (acts: seq<Action>)
    requires RunInv(s) && Least(s.w, t) && s.scan[t].Scanning? && s.scan[t].n == |s.w.threads|
    ensures Runs(s, acts)
    ensures Exec(s, acts) == s.(scan := s.scan[t := InTurn])
    decreases s.scan[t].n - s.scan[t].i
  {
    if s.scan[t].i < s.scan[t].n {
      PassOnce(s, t);
      var s' := Apply(s, Pass(t));
      var rest := ScanThrough(s', t);
      ExecCons(s, Pass(t), rest);
      acts := [Pass(t)] + rest;
      assert s'.scan[t := InTurn] == s.scan[t := InTurn];
    } else {
      ExecCons(s, Finish(t), []);
      acts := [Finish(t)];
    }
  }

  /** From any stage of wait_for_turn the least thread can return from it. */
  lemma {:induction false} ReachTurn(s: State, t: nat) returns (acts: seq<Action>)
    requires RunInv(s) && Least(s.w, t) && WantsTurn(s.w, t)
    ensures Runs(s, acts)
    ensures Exec(s, acts) == s.(scan := s.scan[t := InTurn])
  {
    assert ScanInv(s, t);
    if s.scan[t].InTurn? {
      acts := [];
      assert s.scan[t := InTurn] == s.scan;
    } else {
      var a := if s.scan[t].Idle? then Begin(t) else Retry(t);
      ApplyInv(s, a);
      var rest := ScanThrough(Apply(s, a), t);
      acts := [a] + rest;
      assert Apply(s, a).scan[t := InTurn] == s.scan[t := InTurn];
    }
  }

  lemma {:induction false} TakeTurn(s: State, t: nat) returns (acts: seq<Action>)
    requires RunInv(s) && Least(s.w, t) && WantsTurn(s.w, t)
    ensures Runs(s, acts) && |Exec(s, acts).log| == |s.log| + 1
  {
    var scan := ReachTurn(s, t);
    var s' := Exec(s, scan);
    assert Runs(s', [Take(t)]) by { assert Runs(Apply(s', Take(t)), []); }
    ExecAppend(s, scan, [Take(t)]);
    acts := scan + [Take(t)];
  }

  lemma {:induction false} SettledWants(w: World)
    requires Inv(w) && w.threads != [] && Settled(w) && CanonLog(w, 1) != []
    ensures WantsTurn(w, LeastThread(w))
  {
    SettledStays(w, 0);
  }

  /** A state whose settled log goes on can be run on to its next turn move. */
  lemma {:induction false} Extend(s: State) returns (acts: seq<Action>)
    requires RunInv(s) && s.w.threads != [] && CanonLog(s.w, 1) != []
    ensures Runs(s, acts) && |Exec(s, acts).log| == |s.log| + 1
    decreases TotalWork(s.w.threads)
  {
    if t :| 0 <= t < |s.w.threads| && LocalEnabled(s.w, t) {
      ApplyEffect(s, Step(t));
      CanonLogLocal(s.w, t, 1);
      LocalDrops(s.w, t);
      var rest := Extend(Apply(s, Step(t)));
      acts := [Step(t)] + rest;
    } else {
      SettledWants(s.w);
      acts := TakeTurn(s, LeastThread(s.w));
    }
  }

  // ---------------------------------------------------------------- against the serial scheduler

  lemma {:induction false} SerialIsCanonLocal(w: World, n: nat)
    requires Inv(w) && w.threads != [] && LocalEnabled(w, LeastThread(w)) && n > 0
    ensures Serial(w, n).1 == CanonLog(w, |Serial(w, n).1|)
    decreases n, 0
  {
    var v := LocalStep(w, LeastThread(w));
    SerialLocal(w, n - 1);
    CanonLogLocal(w, LeastThread(w), |Serial(v, n - 1).1|);
    SerialIsCanon(v, n - 1);
  }

  lemma {:induction false} TurnFollowsCanon(w: World, t: nat, log: seq<Event>)
    requires Inv(w) && Least(w, t) && WantsTurn(w, t)
    requires Inv(Turn(w, t)) && Turn(w, t).threads != [] && log == CanonLog(Turn(w, t), |log|)
    ensures [EventOf(w, t)] + log == CanonLog(w, |log| + 1)
  {
    CanonLogTurn(w, t, |log|);
  }

  lemma {:induction false} SerialIsCanonTurn(w: World, n: nat)
    requires Inv(w) && w.threads != [] && n > 0
    requires !LocalEnabled(w, LeastThread(w)) && WantsTurn(w, LeastThread(w))
    ensures Serial(w, n).1 == CanonLog(w, |Serial(w, n).1|)
    decreases n, 0
  {
    SerialTurn(w, n - 1);
    TurnKeepsInv(w, LeastThread(w));
    SerialIsCanon(Turn(w, LeastThread(w)), n - 1);
    TurnFollowsCanon(w, LeastThread(w), Serial(Turn(w, LeastThread(w)), n - 1).1);
  }

  lemma {:induction false} SerialIsCanon(w: World, n: nat)
    requires Inv(w) && w.threads != []
    ensures Serial(w, n).1 == CanonLog(w, |Serial(w, n).1|)
    decreases n, 1
  {
    if n > 0 {
      if LocalEnabled(w, LeastThread(w)) {
        SerialIsCanonLocal(w, n);
      } else if WantsTurn(w, LeastThread(w)) {
        SerialIsCanonTurn(w, n);
      }
    }
  }

  lemma {:induction false} CanonGoesOn(w: World, j: nat)
    requires Inv(w) && w.threads != [] && |Canon(w, j).1| == j
    ensures Inv(Canon(w, j).0) && Canon(w, j).0.threads != []
    ensures |Canon(w, j + 1).1| > j ==> WantsTurn(Canon(w, j).0, LeastThread(Canon(w, j).0))
    ensures Settled(w) ==> Settled(Canon(w, j).0)
    decreases j
  {
    if j > 0 {
      CanonGoesOn(NextSettled(w), j - 1);
    }
  }

  lemma {:induction false} FollowsGoesOn(w: World, log: seq<Event>, w': World)
    requires Inv(w) && w.threads != [] && Inv(w') && w'.threads != [] && Follows(w, log, w')
    requires |CanonLog(w, |log| + 1)| > |log|
    ensures CanonLog(w', 1) != []
  {
    SettleInv(w);
    CanonGoesOn(Settle(w), |log|);
    SettleInv(w');
  }

  /** Progress: if the serial scheduler logs more turn moves than a run has made so far, the
      run can be continued to its next turn move. */
  lemma {:induction false} RunsGoOn(prog: seq<Op>, acts: seq<Action>, n: nat) returns (more: seq<Action>)
    requires Runs(Start(prog), acts)
    requires |Serial(StartWorld(prog), n).1| > |Exec(Start(prog), acts).log|
    ensures Runs(Start(prog), acts + more)
    ensures |Exec(Start(prog), acts + more).log| == |Exec(Start(prog), acts).log| + 1
  {
    StartInv(prog);
    var s := Start(prog);
    var log := RunFollows(s, acts);
    var e := Exec(s, acts);
    assert log == e.log;
    SerialIsCanon(s.w, n);
    SettleInv(s.w);
    var k := |Serial(s.w, n).1|;
    CanonPrefix(Settle(s.w), |log| + 1, k);
    CanonFull(Settle(s.w), |log| + 1, k);
    NonEmpty(s, acts);
    FollowsGoesOn(s.w, log, e.w);
    more := Extend(e);
    ExecAppend(s, acts, more);
  }

  lemma {:induction false} CanonFull(w: World, j: nat, k: nat)
    requires Inv(w) && w.threads != [] && j <= k && |Canon(w, k).1| == k
    ensures |Canon(w, j).1| == j
    decreases j
  {
    if j > 0 {
      CanonFull(NextSettled(w), j - 1, k - 1);
    }
  }

  lemma {:induction false} NonEmpty(s: State, acts: seq<Action>)
    requires RunInv(s) && s.w.threads != [] && Runs(s, acts)
    ensures Exec(s, acts).w.threads != []
    decreases |acts|
  {
    if acts != [] {
      ApplyEffect(s, acts[0]);
      NonEmpty(Apply(s, acts[0]), acts[1..]);
    }
  }
}
