/** Where the clocks and the log come from.  The text of a program fixes, thread by thread, which
    turn moves there are and what each step is worth; the log adds only which attempts failed.
    From these alone every thread's clock and every event of the log are accounted for. */
module KendoAccount {
  import opened Options
  import opened KendoModel
  import opened KendoInvariant
  import opened KendoRuns

  // ---------------------------------------------------------------- from the text and the log

  /** By how much the steps raise the clock, failed attempts aside. */
  function Worth(ops: seq<Op>): nat {
    if ops == [] then 0
    else
      (match ops[0]
       case Compute(k) => k
       case Lock(_) => 1
       case Unlock(_, incr) => incr
       case Create(_) => 0)
      + Worth(ops[1..])
  }

  /** The places at which the program needs a turn, each given by what is left from there on:
      creations, and locks of mutexes not yet held.  `held` has the depths of those that are. */
  function Places(ops: seq<Op>, held: map<nat, nat>): seq<seq<Op>> {
    if ops == [] then []
    else
      match ops[0]
      case Compute(_) => Places(ops[1..], held)
      case Lock(m) =>
        if m in held then Places(ops[1..], held[m := held[m] + 1])
        else [ops] + Places(ops[1..], held[m := 1])
      case Unlock(m, _) =>
        if m !in held then []
        else Places(ops[1..], if held[m] > 1 then held[m := held[m] - 1] else held - {m})
      case Create(_) => [ops] + Places(ops[1..], held)
  }

  /** How many attempts of t the log has that failed, and how many moves that got through. */
  function Failed(log: seq<Event>, t: nat): nat {
    if log == [] then 0
    else
      var e := log[|log| - 1];
      Failed(log[..|log| - 1], t) + if e.tid == t && e.Attempt? && !e.granted then 1 else 0
  }

  function Through(log: seq<Event>, t: nat): nat {
    if log == [] then 0
    else
      var e := log[|log| - 1];
      Through(log[..|log| - 1], t) + if e.tid == t && (e.Spawn? || e.granted) then 1 else 0
  }

  /** The last that the log has of t is a failed attempt. */
  predicate Spinning(log: seq<Event>, t: nat) {
    if log == [] then false
    else
      var e := log[|log| - 1];
      if e.tid == t then e.Attempt? && !e.granted else Spinning(log[..|log| - 1], t)
  }

  /** The clock and the program a thread begins with. */
  datatype Birth = Birth(clock: int, text: seq<Op>)

  /** What is left of b's program at its next turn move after the log. */
  function Next(b: Birth, log: seq<Event>, t: nat): seq<Op> {
    var ps := Places(b.text, map[]);
    if Through(log, t) < |ps| then ps[Through(log, t)] else []
  }

  /** The threads there are after the log: main, and one for each creation. */
  function Births(prog: seq<Op>, log: seq<Event>): seq<Birth> {
    if log == [] then [Birth(0, prog)]
    else
      var before, e := log[..|log| - 1], log[|log| - 1];
      var bs := Births(prog, before);
      if !e.Spawn? then bs else bs + [Birth(e.clock + 1, Child(bs, before, e.tid))]
  }

  /** The program that the next creation of thread t gives away. */
  function Child(bs: seq<Birth>, log: seq<Event>, t: nat): seq<Op> {
    var left := if t < |bs| then Next(bs[t], log, t) else [];
    if left != [] && left[0].Create? then left[0].child else []
  }

  /** The event e after `before` is the next move of its thread by the text, at the clock that
      the steps done and the failed attempts give, and an arrival exactly when it does not
      follow a failed attempt. */
  predicate Accounted(prog: seq<Op>, before: seq<Event>, e: Event) {
    var bs := Births(prog, before);
    && e.tid < |bs|
    && var b := bs[e.tid];
       var left := Next(b, before, e.tid);
       && left != []
       && e.clock + Worth(left) == b.clock + Worth(b.text) + Failed(before, e.tid)
       && match e
          case Attempt(_, t, m, arrived, _) => left[0] == Lock(m) && arrived == !Spinning(before, t)
          case Spawn(_, _, child) => left[0].Create? && child == |bs|
  }

  ghost predicate LogAccounted(prog: seq<Op>, log: seq<Event>) {
    forall i :: 0 <= i < |log| ==> Accounted(prog, log[..i], log[i])
  }

  // ---------------------------------------------------------------- the account of one thread

  /** What a thread still has to add to its clock. */
  function Due(th: Thread): nat {
    Worth(th.prog) + if th.phase.Lost? then 1 else 0
  }

  /** The steps whose turn and whose effect on a mutex are still to come. */
  function Left(th: Thread): seq<Op> {
    if th.prog != [] && (th.phase.Won? || th.phase.Releasing? || th.phase.Released?) then th.prog[1..] else th.prog
  }

  function HeldBy(w: World, t: nat): map<nat, nat> {
    map m | m in w.mutexes && Owns(w.mutexes[m], t) :: w.mutexes[m].depth
  }

  /** The step a thread is in the middle of. */
  predicate InStep(th: Thread) {
    match th.phase
    case Releasing(m, incr) => th.prog != [] && th.prog[0] == Unlock(m, incr)
    case Released(incr) => th.prog != [] && th.prog[0].Unlock? && th.prog[0].incr == incr
    case _ => true
  }

  ghost predicate Balanced(b: Birth, th: Thread, held: map<nat, nat>, log: seq<Event>, t: nat) {
    && th.clock + Due(th) == b.clock + Worth(b.text) + Failed(log, t)
    && Through(log, t) <= |Places(b.text, map[])|
    && Places(b.text, map[])[Through(log, t)..] == Places(Left(th), held)
    && (Spinning(log, t) <==> th.phase == Lost || th.phase == Want(true))
    && InStep(th)
    && (th.prog != [] && th.prog[0].Lock? && (th.phase.Want? || th.phase.Lost?) ==> th.prog[0].m !in held)
  }

  ghost predicate AccountInv(prog: seq<Op>, w: World, log: seq<Event>) {
    && LogAccounted(prog, log)
    && |Births(prog, log)| == |w.threads|
    && forall t :: 0 <= t < |w.threads| ==> Balanced(Births(prog, log)[t], w.threads[t], HeldBy(w, t), log, t)
  }

  // ---------------------------------------------------------------- local moves

  lemma {:induction false} HeldGet(w: World, t: nat, m: nat)
    ensures m in HeldBy(w, t) <==> Owns(Get(w, m), t)
    ensures m in HeldBy(w, t) ==> HeldBy(w, t)[m] == Get(w, m).depth
  {
  }

  /** A local move of t leaves what the others hold. */
  lemma {:induction false} LocalHeldOther(w: World, t: nat, u: nat)
    requires Inv(w) && LocalEnabled(w, t) && u != t
    ensures HeldBy(LocalStep(w, t), u) == HeldBy(w, u)
  {
    var w' := LocalStep(w, t);
    LocalFrame(w, t);
    var f := Focus(w.threads[t]);
    forall m: nat ensures Owns(Get(w', m), u) == Owns(Get(w, m), u)
                  ensures Owns(Get(w, m), u) ==> Get(w', m).depth == Get(w, m).depth
    {
      assert MutexInv(w, m);
      if f == Some(m) && w.threads[t].phase.Releasing? { assert ThreadInv(w, t); }
    }
    forall m: nat ensures m in HeldBy(w', u) <==> m in HeldBy(w, u)
                  ensures m in HeldBy(w, u) ==> HeldBy(w', u)[m] == HeldBy(w, u)[m]
    {
      HeldGet(w, u, m);
      HeldGet(w', u, m);
    }
  }

  /** And of what it holds itself, only the mutex it looks at. */
  lemma {:induction false} LocalHeldOwn(w: World, t: nat)
    requires Inv(w) && LocalEnabled(w, t)
    ensures var th, held := w.threads[t], HeldBy(w, t);
            HeldBy(LocalStep(w, t), t) ==
            if !th.phase.Run? || th.prog == [] then held
            else match th.prog[0]
                 case Lock(m) => if m in held then held[m := held[m] + 1] else held
                 case Unlock(m, _) =>
                   if m !in held then held else if held[m] > 1 then held[m := held[m] - 1] else held - {m}
                 case _ => held
  {
    var w' := LocalStep(w, t);
    LocalFrame(w, t);
    var th := w.threads[t];
    assert ThreadInv(w, t);
    forall m: nat ensures m in HeldBy(w, t) <==> Owns(Get(w, m), t)
                  ensures m in HeldBy(w, t) ==> HeldBy(w, t)[m] == Get(w, m).depth
                  ensures m in HeldBy(w', t) <==> Owns(Get(w', m), t)
                  ensures m in HeldBy(w', t) ==> HeldBy(w', t)[m] == Get(w', m).depth
    {
      HeldGet(w, t, m);
      HeldGet(w', t, m);
    }
  }

  lemma {:induction false} RunBalanced(w: World, t: nat, b: Birth, log: seq<Event>)
    requires Inv(w) && LocalEnabled(w, t) && Balanced(b, w.threads[t], HeldBy(w, t), log, t) && w.threads[t].phase.Run?
    ensures Balanced(b, LocalStep(w, t).threads[t], HeldBy(LocalStep(w, t), t), log, t)
  {
    LocalHeldOwn(w, t);
    var th := w.threads[t];
    HeldGet(w, t, if th.prog[0].Lock? || th.prog[0].Unlock? then th.prog[0].m else 0);
    if th.prog[0].Compute? && th.prog[0].ticks > 0 {
      assert ([Compute(th.prog[0].ticks - 1)] + th.prog[1..])[1..] == th.prog[1..];
    }
  }

  lemma {:induction false} LocalBalanced(w: World, t: nat, b: Birth, log: seq<Event>)
    requires Inv(w) && LocalEnabled(w, t) && Balanced(b, w.threads[t], HeldBy(w, t), log, t)
    ensures Balanced(b, LocalStep(w, t).threads[t], HeldBy(LocalStep(w, t), t), log, t)
  {
    if w.threads[t].phase.Run? {
      RunBalanced(w, t, b, log);
    } else {
      LocalHeldOwn(w, t);
      assert ThreadInv(w, t);
    }
  }

  // ---------------------------------------------------------------- turn moves

  lemma {:induction false} TurnHeldOther(w: World, t: nat, u: nat)
    requires Inv(w) && WantsTurn(w, t) && u != t
    ensures HeldBy(Turn(w, t), u) == HeldBy(w, u)
  {
    var w' := Turn(w, t);
    TurnFrame(w, t);
    forall m: nat ensures Owns(Get(w', m), u) == Owns(Get(w, m), u)
                  ensures Owns(Get(w, m), u) ==> Get(w', m).depth == Get(w, m).depth
    {
      assert MutexInv(w, m);
    }
    forall m: nat ensures m in HeldBy(w', u) <==> m in HeldBy(w, u)
                  ensures m in HeldBy(w, u) ==> HeldBy(w', u)[m] == HeldBy(w, u)[m]
    {
      HeldGet(w, u, m);
      HeldGet(w', u, m);
    }
  }

  lemma {:induction false} TurnHeldOwn(w: World, t: nat)
    requires Inv(w) && WantsTurn(w, t)
    ensures var e, held := EventOf(w, t), HeldBy(w, t);
            HeldBy(Turn(w, t), t) == if e.Attempt? && e.granted then held[e.m := 1] else held
  {
    var w' := Turn(w, t);
    TurnFrame(w, t);
    forall m: nat ensures m in HeldBy(w, t) <==> Owns(Get(w, m), t)
                  ensures m in HeldBy(w, t) ==> HeldBy(w, t)[m] == Get(w, m).depth
                  ensures m in HeldBy(w', t) <==> Owns(Get(w', m), t)
                  ensures m in HeldBy(w', t) ==> HeldBy(w', t)[m] == Get(w', m).depth
    {
      HeldGet(w, t, m);
      HeldGet(w', t, m);
    }
  }

  /** What one more event adds. */
  lemma {:induction false} LogGrows(log: seq<Event>, e: Event, t: nat)
    ensures Failed(log + [e], t) == Failed(log, t) + if e.tid == t && e.Attempt? && !e.granted then 1 else 0
    ensures Through(log + [e], t) == Through(log, t) + if e.tid == t && (e.Spawn? || e.granted) then 1 else 0
    ensures Spinning(log + [e], t) <==> if e.tid == t then e.Attempt? && !e.granted else Spinning(log, t)
  {
    assert (log + [e])[..|log|] == log;
  }

  /** The move that t wants is the next one by the text. */
  lemma {:induction false} WantIsNext(w: World, t: nat, b: Birth, log: seq<Event>)
    requires WantsTurn(w, t) && Balanced(b, w.threads[t], HeldBy(w, t), log, t)
    ensures Next(b, log, t) == w.threads[t].prog
    ensures Places(Left(w.threads[t]), HeldBy(w, t))
         == [w.threads[t].prog]
            + Places(w.threads[t].prog[1..],
                     if w.threads[t].prog[0].Lock? then HeldBy(w, t)[w.threads[t].prog[0].m := 1] else HeldBy(w, t))
  {
    var ps := Places(b.text, map[]);
    assert ps[Through(log, t)..][0] == ps[Through(log, t)];
  }

  lemma {:induction false} TurnBalanced(w: World, t: nat, b: Birth, log: seq<Event>)
    requires Inv(w) && WantsTurn(w, t) && Balanced(b, w.threads[t], HeldBy(w, t), log, t)
    ensures Balanced(b, Turn(w, t).threads[t], HeldBy(Turn(w, t), t), log + [EventOf(w, t)], t)
  {
    TurnHeldOwn(w, t);
    LogGrows(log, EventOf(w, t), t);
    WantIsNext(w, t, b, log);
    var ps := Places(b.text, map[]);
    assert ps[Through(log, t)..][1..] == ps[Through(log, t) + 1..];
  }

  lemma {:induction false} Absent(prog: seq<Op>, log: seq<Event>, t: nat)
    requires LogAccounted(prog, log) && |Births(prog, log)| <= t
    ensures Failed(log, t) == 0 && Through(log, t) == 0 && !Spinning(log, t)
  {
    if log != [] {
      var before := log[..|log| - 1];
      assert Accounted(prog, before, log[|log| - 1]);
      forall i | 0 <= i < |before| ensures Accounted(prog, before[..i], before[i]) {
        assert before[..i] == log[..i];
        assert Accounted(prog, log[..i], log[i]);
      }
      Absent(prog, before, t);
    }
  }

  lemma {:induction false} AccountedAppend(prog: seq<Op>, log: seq<Event>, e: Event)
    requires LogAccounted(prog, log) && Accounted(prog, log, e)
    ensures LogAccounted(prog, log + [e])
  {
    var more := log + [e];
    forall i | 0 <= i < |more| ensures Accounted(prog, more[..i], more[i]) {
      if i < |log| {
        assert more[..i] == log[..i];
        assert Accounted(prog, log[..i], log[i]);
      } else {
        assert more[..i] == log;
      }
    }
  }

  lemma {:induction false} EventAccounted(prog: seq<Op>, w: World, log: seq<Event>, t: nat)
    requires AccountInv(prog, w, log) && WantsTurn(w, t)
    ensures Accounted(prog, log, EventOf(w, t))
  {
    WantIsNext(w, t, Births(prog, log)[t], log);
  }

  lemma {:induction false} BirthsAppend(prog: seq<Op>, log: seq<Event>, e: Event)
    ensures Births(prog, log + [e])
         == Births(prog, log) + if e.Spawn? then [Birth(e.clock + 1, Child(Births(prog, log), log, e.tid))] else []
  {
    assert (log + [e])[..|log|] == log;
  }

  lemma {:induction false} NewbornBalanced(w: World, t: nat, log: seq<Event>)
    requires Inv(w) && WantsTurn(w, t) && w.threads[t].prog[0].Create?
    requires var n := |w.threads|; Failed(log, n) == 0 && Through(log, n) == 0 && !Spinning(log, n)
    ensures var w', n := Turn(w, t), |w.threads|;
            && |w'.threads| == n + 1
            && Balanced(Birth(w.threads[t].clock + 1, w.threads[t].prog[0].child),
                        w'.threads[n], HeldBy(w', n), log + [EventOf(w, t)], n)
  {
    var n := |w.threads|;
    TurnHeldOther(w, t, n);
    LogGrows(log, EventOf(w, t), n);
    forall m: nat ensures m !in HeldBy(w, n) {
      assert MutexInv(w, m);
      HeldGet(w, n, m);
    }
    assert HeldBy(w, n) == map[];
  }

  lemma {:induction false} OthersBalanced(w: World, t: nat, u: nat, b: Birth, log: seq<Event>)
    requires Inv(w) && WantsTurn(w, t) && u != t && u < |w.threads|
    requires Balanced(b, w.threads[u], HeldBy(w, u), log, u)
    ensures Balanced(b, Turn(w, t).threads[u], HeldBy(Turn(w, t), u), log + [EventOf(w, t)], u)
  {
    TurnFrame(w, t);
    TurnHeldOther(w, t, u);
    LogGrows(log, EventOf(w, t), u);
  }

  /** The births after a turn move of t. */
  function AndNewborn(bs: seq<Birth>, w: World, t: nat): seq<Birth>
    requires WantsTurn(w, t)
  {
    bs + if w.threads[t].prog[0].Create? then [Birth(w.threads[t].clock + 1, w.threads[t].prog[0].child)] else []
  }

  lemma {:induction false} BirthsGrow(prog: seq<Op>, w: World, log: seq<Event>, t: nat)
    requires WantsTurn(w, t) && t < |Births(prog, log)| && Next(Births(prog, log)[t], log, t) == w.threads[t].prog
    ensures Births(prog, log + [EventOf(w, t)]) == AndNewborn(Births(prog, log), w, t)
  {
    BirthsAppend(prog, log, EventOf(w, t));
  }

  lemma {:induction false} TurnBalances(w: World, log: seq<Event>, bs: seq<Birth>, t: nat, u: nat)
    requires Inv(w) && WantsTurn(w, t) && |bs| == |w.threads| && u < |Turn(w, t).threads|
    requires u < |bs| ==> Balanced(bs[u], w.threads[u], HeldBy(w, u), log, u)
    requires u >= |bs| ==> Failed(log, u) == 0 && Through(log, u) == 0 && !Spinning(log, u)
    ensures |AndNewborn(bs, w, t)| == |Turn(w, t).threads|
    ensures Balanced(AndNewborn(bs, w, t)[u], Turn(w, t).threads[u], HeldBy(Turn(w, t), u), log + [EventOf(w, t)], u)
  {
    if u == t {
      TurnBalanced(w, t, bs[t], log);
    } else if u < |w.threads| {
      OthersBalanced(w, t, u, bs[u], log);
    } else {
      NewbornBalanced(w, t, log);
    }
  }

  lemma {:induction false} TurnAccount(prog: seq<Op>, w: World, log: seq<Event>, t: nat)
    requires Inv(w) && AccountInv(prog, w, log) && WantsTurn(w, t)
    ensures AccountInv(prog, Turn(w, t), log + [EventOf(w, t)])
  {
    var bs, log' := Births(prog, log), log + [EventOf(w, t)];
    EventAccounted(prog, w, log, t);
    AccountedAppend(prog, log, EventOf(w, t));
    WantIsNext(w, t, bs[t], log);
    BirthsGrow(prog, w, log, t);
    assert |Turn(w, t).threads| == |AndNewborn(bs, w, t)|;
    forall u | 0 <= u < |Turn(w, t).threads|
      ensures Balanced(AndNewborn(bs, w, t)[u], Turn(w, t).threads[u], HeldBy(Turn(w, t), u), log', u)
    {
      if u >= |bs| { Absent(prog, log, u); }
      TurnBalances(w, log, bs, t, u);
    }
  }

  lemma {:induction false} LocalAccount(prog: seq<Op>, w: World, log: seq<Event>, t: nat)
    requires Inv(w) && AccountInv(prog, w, log) && LocalEnabled(w, t)
    ensures AccountInv(prog, LocalStep(w, t), log)
  {
    LocalFrame(w, t);
    var w' := LocalStep(w, t);
    forall u | 0 <= u < |w'.threads|
      ensures Balanced(Births(prog, log)[u], w'.threads[u], HeldBy(w', u), log, u)
    {
      if u == t { LocalBalanced(w, t, Births(prog, log)[t], log); } else { LocalHeldOther(w, t, u); }
    }
  }

  lemma {:induction false} ExecAccount(prog: seq<Op>, s: State, acts: seq<Action>)
    requires RunInv(s) && AccountInv(prog, s.w, s.log) && Runs(s, acts)
    ensures AccountInv(prog, Exec(s, acts).w, Exec(s, acts).log)
    decreases |acts|
  {
    if acts != [] {
      var a := acts[0];
      ApplyInv(s, a);
      if a.Step? { LocalAccount(prog, s.w, s.log, a.t); }
      if a.Take? { TurnAccount(prog, s.w, s.log, a.t); }
      ExecAccount(prog, Apply(s, a), acts[1..]);
    }
  }

  lemma {:induction false} RunAccount(prog: seq<Op>, acts: seq<Action>)
    requires Runs(Start(prog), acts)
    ensures AccountInv(prog, Exec(Start(prog), acts).w, Exec(Start(prog), acts).log)
  {
    StartInv(prog);
    assert HeldBy(StartWorld(prog), 0) == map[];
    ExecAccount(prog, Start(prog), acts);
  }

  // ---------------------------------------------------------------- the theorems

  /** Every event of every run is accounted for by the program and the events before it. */
  lemma {:induction false} EveryEventAccounted(prog: seq<Op>, acts: seq<Action>)
    requires Runs(Start(prog), acts)
    ensures LogAccounted(prog, Exec(Start(prog), acts).log)
  {
    RunAccount(prog, acts);
  }

  /** At the end of a run each thread's clock is the clock it began with, the worth of its whole
      program and one for each of its failed attempts; it has made every turn move its program
      asks for. */
  lemma {:induction false} FinalClocks(prog: seq<Op>, acts: seq<Action>, t: nat)
    requires Runs(Start(prog), acts)
    requires Complete(Exec(Start(prog), acts).w) && t < |Exec(Start(prog), acts).w.threads|
    ensures var s := Exec(Start(prog), acts);
            var bs := Births(prog, s.log);
            && |bs| == |s.w.threads|
            && s.w.threads[t].clock == bs[t].clock + Worth(bs[t].text) + Failed(s.log, t)
            && Through(s.log, t) == |Places(bs[t].text, map[])|
  {
    RunAccount(prog, acts);
    var s := Exec(Start(prog), acts);
    var bs := Births(prog, s.log);
    assert Balanced(bs[t], s.w.threads[t], HeldBy(s.w, t), s.log, t);
  }
}
