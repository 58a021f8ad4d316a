/** The lock protocol with the clocks as they are: each is a hardware counter, its cached value,
    a software part and a flag, and a scan reads another thread's clock in three steps, between
    which everybody goes on (get_logical_clock and wait_for_turn in src/dpthread.c).  Every run
    of this machine is a run of the one that reads a clock at once. */
module KendoReads {
  import opened Options
  import opened Sequences
  import opened KendoModel
  import opened KendoInvariant
  import opened KendoRuns
  import opened KendoDeterminism
  import ClockRead

  /** How far a scan has come with the clock it is at: nothing read; the flag; the flag and the
      software part (softFirst) or the count. */
  datatype Read = Nothing | Flag(live: bool) | Part(live: bool, softFirst: bool, value: nat)

  /** owners[t] is the clock of thread t in its parts; got[t] what its scan has of the clock it
      is at. */
  datatype Fine = Fine(s: State, owners: seq<ClockRead.Owner>, got: seq<Read>)

  datatype Move =
    | Coarse(a: Action, own: seq<ClockRead.Act>)  // an action other than Pass, and what t's clock does in it
    | Own(t: nat, act: ClockRead.Act)             // a step of enabling or disabling
    | ReadFlag(t: nat)
    | ReadOne(t: nat, softFirst: bool)
    | ReadTwo(t: nat)                             // the last part is read and the clock found later

  /** The thread whose clock t's scan is at. */
  function Target(s: State, t: nat): nat
    requires t < |s.scan| && s.scan[t].Scanning? && s.scan[t].n > 0
  {
    ScanTarget(t, s.scan[t].n, s.scan[t].i)
  }

  /** t's scan is at another thread's clock. */
  predicate AtClock(s: State, t: nat) {
    && t < |s.scan| && s.scan[t].Scanning? && s.scan[t].i < s.scan[t].n <= |s.w.threads|
    && Target(s, t) < |s.w.threads|
  }

  predicate Sized(f: Fine) {
    |f.owners| == |f.s.w.threads| && |f.got| == |f.s.w.threads| && |f.s.scan| == |f.s.w.threads|
  }

  function Count(o: ClockRead.Owner, live: bool): nat { if live then o.counter else o.hw }

  /** The value of a completed read. */
  function Value(o: ClockRead.Owner, r: Read): nat
    requires r.Part?
  {
    r.value + if r.softFirst then Count(o, r.live) else o.sw
  }

  /** t's clock afterwards, and that of a thread it creates. */
  predicate ClockFollows(f: Fine, a: Action, own: seq<ClockRead.Act>)
    requires Sized(f) && Enabled(f.s, a)
  {
    && ClockRead.CanAll(f.owners[a.t], own)
    && ClockRead.TrueClock(ClockRead.DoAll(f.owners[a.t], own)) == Apply(f.s, a).w.threads[a.t].clock
  }

  predicate FineEnabled(f: Fine, m: Move) {
    Sized(f) &&
    match m
    case Coarse(a, own) => !a.Pass? && Enabled(f.s, a) && ClockFollows(f, a, own)
    case Own(t, act) => t < |f.owners| && !act.Tick? && !act.Incr? && ClockRead.Can(f.owners[t], act)
    case ReadFlag(t) => AtClock(f.s, t) && f.got[t].Nothing?
    case ReadOne(t, _) => AtClock(f.s, t) && f.got[t].Flag?
    case ReadTwo(t) =>
      && AtClock(f.s, t) && f.got[t].Part?
      && var v, c := Value(f.owners[Target(f.s, t)], f.got[t]), f.s.w.threads[t].clock;
         c < v || (c == v && t < Target(f.s, t))
  }

  /** A new thread's clock is all software part, its counter off. */
  function NewOwners(f: Fine, s': State): seq<ClockRead.Owner> {
    if |s'.w.threads| == |f.s.w.threads| + 1 && s'.w.threads[|f.s.w.threads|].clock >= 0 then
      [ClockRead.Owner(0, 0, s'.w.threads[|f.s.w.threads|].clock, false, ClockRead.Off)]
    else []
  }

  function FineApply(f: Fine, m: Move): Fine
    requires FineEnabled(f, m)
  {
    match m
    case Coarse(a, own) =>
      var s' := Apply(f.s, a);
      var born := NewOwners(f, s');
      Fine(s', f.owners[a.t := ClockRead.DoAll(f.owners[a.t], own)] + born,
           f.got[a.t := Nothing] + seq(|born|, _ => Nothing))
    case Own(t, act) => f.(owners := f.owners[t := ClockRead.Do(f.owners[t], act)])
    case ReadFlag(t) => f.(got := f.got[t := Flag(f.owners[Target(f.s, t)].flag)])
    case ReadOne(t, softFirst) =>
      var o := f.owners[Target(f.s, t)];
      var v := if softFirst then o.sw else Count(o, f.got[t].live);
      f.(got := f.got[t := Part(f.got[t].live, softFirst, v)])
    case ReadTwo(t) =>
      var scan := Scanning(f.s.scan[t].n, f.s.scan[t].i + 1);
      Fine(f.s.(scan := f.s.scan[t := scan]), f.owners, f.got[t := Nothing])
  }

  predicate FineRuns(f: Fine, moves: seq<Move>)
    decreases |moves|
  {
    moves == [] || (FineEnabled(f, moves[0]) && FineRuns(FineApply(f, moves[0]), moves[1..]))
  }

  function FineExec(f: Fine, moves: seq<Move>): Fine
    requires FineRuns(f, moves)
    decreases |moves|
  {
    if moves == [] then f else FineExec(FineApply(f, moves[0]), moves[1..])
  }

  function FineStart(prog: seq<Op>): Fine {
    Fine(Start(prog), [ClockRead.Owner(0, 0, 0, false, ClockRead.Off)], [Nothing])
  }

  // ---------------------------------------------------------------- what every run keeps

  predicate OwnerOk(f: Fine, t: nat)
    requires Sized(f) && t < |f.owners|
  {
    ClockRead.Inv(f.owners[t]) && ClockRead.TrueClock(f.owners[t]) == f.s.w.threads[t].clock
  }

  /** The part already read is not beyond that part of the clock. */
  predicate ReadOk(f: Fine, t: nat)
    requires Sized(f) && t < |f.got|
  {
    f.got[t].Nothing? || (
      && AtClock(f.s, t)
      && var o := f.owners[Target(f.s, t)];
         f.got[t].Part? ==> f.got[t].value <= if f.got[t].softFirst then o.sw else o.counter)
  }

  ghost predicate FineInv(f: Fine) {
    && RunInv(f.s) && Sized(f)
    && (forall t: nat :: t < |f.owners| ==> OwnerOk(f, t))
    && (forall t: nat :: t < |f.got| ==> ReadOk(f, t))
  }

  /** The action a move stands for, if any. */
  function Meant(m: Move): Option<Action> {
    match m
    case Coarse(a, _) => Some(a)
    case ReadTwo(t) => Some(Pass(t))
    case _ => None
  }

  /** A completed read that finds a clock later is right about the clock itself, although parts
      of it were read long ago. */
  lemma {:induction false} ReadIsPass(f: Fine, t: nat)
    requires FineInv(f) && FineEnabled(f, ReadTwo(t))
    ensures Enabled(f.s, Pass(t)) && FineApply(f, ReadTwo(t)).s == Apply(f.s, Pass(t))
  {
    var u := Target(f.s, t);
    assert OwnerOk(f, u) && ReadOk(f, t);
    assert Value(f.owners[u], f.got[t]) <= ClockRead.TrueClock(f.owners[u]);
  }

  /** What an action leaves alone: the other threads' clocks and scans. */
  lemma {:induction false} ApplyFrame(s: State, a: Action)
    requires RunInv(s) && Enabled(s, a)
    ensures var s' := Apply(s, a);
            && RunInv(s') && |s'.w.threads| == |s'.scan|
            && |s.w.threads| <= |s'.w.threads| <= |s.w.threads| + 1
            && (forall u: nat :: u < |s.w.threads| && u != a.t ==>
                  s'.w.threads[u].clock == s.w.threads[u].clock && s'.scan[u] == s.scan[u])
            && (|s'.w.threads| > |s.w.threads| ==>
                  s'.w.threads[|s.w.threads|].clock == s.w.threads[a.t].clock + 1)
  {
    ApplyInv(s, a);
    if a.Step? { LocalFrame(s.w, a.t); }
    if a.Take? { TurnFrame(s.w, a.t); }
  }

  /** A scan that is at a clock stays there while others move. */
  lemma {:induction false} StaysAtClock(s: State, s': State, t: nat)
    requires AtClock(s, t) && t < |s'.scan| && s'.scan[t] == s.scan[t] && |s.w.threads| <= |s'.w.threads|
    ensures AtClock(s', t) && Target(s', t) == Target(s, t)
  {
  }

  lemma {:induction false} CoarseKeepsOwners(f: Fine, a: Action, own: seq<ClockRead.Act>, u: nat)
    requires FineInv(f) && FineEnabled(f, Coarse(a, own)) && Sized(FineApply(f, Coarse(a, own)))
    requires u < |FineApply(f, Coarse(a, own)).owners|
    ensures OwnerOk(FineApply(f, Coarse(a, own)), u)
    ensures u < |f.owners| ==>
              var o, o' := f.owners[u], FineApply(f, Coarse(a, own)).owners[u];
              o.counter <= o'.counter && o.sw <= o'.sw
  {
    ApplyFrame(f.s, a);
    assert OwnerOk(f, a.t);
    ClockRead.OwnerGrows(f.owners[a.t], own);
    if u < |f.owners| { assert OwnerOk(f, u); }
  }

  lemma {:induction false} CoarseSized(f: Fine, a: Action, own: seq<ClockRead.Act>)
    requires FineInv(f) && FineEnabled(f, Coarse(a, own))
    ensures Sized(FineApply(f, Coarse(a, own)))
  {
    ApplyFrame(f.s, a);
    assert OwnerOk(f, a.t);
  }

  lemma {:induction false} CoarseKeepsReads(f: Fine, a: Action, own: seq<ClockRead.Act>, t: nat)
    requires FineInv(f) && FineEnabled(f, Coarse(a, own)) && Sized(FineApply(f, Coarse(a, own)))
    requires t < |FineApply(f, Coarse(a, own)).got|
    ensures ReadOk(FineApply(f, Coarse(a, own)), t)
  {
    var f' := FineApply(f, Coarse(a, own));
    ApplyFrame(f.s, a);
    if t < |f.got| && t != a.t && !f.got[t].Nothing? {
      assert ReadOk(f, t);
      StaysAtClock(f.s, f'.s, t);
      CoarseKeepsOwners(f, a, own, Target(f.s, t));
    }
  }

  lemma {:induction false} CoarseKeepsInv(f: Fine, a: Action, own: seq<ClockRead.Act>)
    requires FineInv(f) && FineEnabled(f, Coarse(a, own))
    ensures FineInv(FineApply(f, Coarse(a, own)))
  {
    var f' := FineApply(f, Coarse(a, own));
    ApplyFrame(f.s, a);
    CoarseSized(f, a, own);
    forall u: nat | u < |f'.owners| ensures OwnerOk(f', u) { CoarseKeepsOwners(f, a, own, u); }
    forall t: nat | t < |f'.got| ensures ReadOk(f', t) { CoarseKeepsReads(f, a, own, t); }
  }

  lemma {:induction false} OwnKeepsInv(f: Fine, t: nat, act: ClockRead.Act)
    requires FineInv(f) && FineEnabled(f, Own(t, act))
    ensures FineInv(FineApply(f, Own(t, act)))
  {
    var f' := FineApply(f, Own(t, act));
    assert OwnerOk(f, t);
    forall u: nat | u < |f'.owners| ensures OwnerOk(f', u) { assert OwnerOk(f, u); }
    forall u: nat | u < |f'.got| ensures ReadOk(f', u) { assert ReadOk(f, u); }
  }

  lemma {:induction false} ReadKeepsInv(f: Fine, m: Move)
    requires FineInv(f) && FineEnabled(f, m) && (m.ReadFlag? || m.ReadOne? || m.ReadTwo?)
    ensures FineInv(FineApply(f, m))
  {
    var f' := FineApply(f, m);
    if m.ReadTwo? {
      ReadIsPass(f, m.t);
      ApplyFrame(f.s, Pass(m.t));
    }
    forall u: nat | u < |f'.owners| ensures OwnerOk(f', u) { assert OwnerOk(f, u); }
    assert OwnerOk(f, Target(f.s, m.t));
    forall u: nat | u < |f'.got| ensures ReadOk(f', u) {
      assert ReadOk(f, u);
      if u != m.t && !f.got[u].Nothing? { StaysAtClock(f.s, f'.s, u); }
    }
  }

  /** Every move keeps the invariant, and is the action it stands for or leaves the state. */
  lemma {:induction false} MoveRefines(f: Fine, m: Move)
    requires FineInv(f) && FineEnabled(f, m)
    ensures FineInv(FineApply(f, m))
    ensures match Meant(m)
            case None => FineApply(f, m).s == f.s
            case Some(a) => Enabled(f.s, a) && FineApply(f, m).s == Apply(f.s, a)
  {
    match m
    case Coarse(a, own) => CoarseKeepsInv(f, a, own);
    case Own(t, act) => OwnKeepsInv(f, t, act);
    case ReadFlag(_) => ReadKeepsInv(f, m);
    case ReadOne(_, _) => ReadKeepsInv(f, m);
    case ReadTwo(t) =>
      ReadIsPass(f, t);
      ReadKeepsInv(f, m);
  }

  /** The actions a run stands for. */
  function MeantBy(moves: seq<Move>): seq<Action> {
    if moves == [] then []
    else (if Meant(moves[0]).Some? then [Meant(moves[0]).value] else []) + MeantBy(moves[1..])
  }

  /** Refinement: a run with clocks read in pieces is a run with clocks read at once. */
  lemma {:induction false} RunRefines(f: Fine, moves: seq<Move>)
    requires FineInv(f) && FineRuns(f, moves)
    ensures Runs(f.s, MeantBy(moves)) && Exec(f.s, MeantBy(moves)) == FineExec(f, moves).s
    ensures FineInv(FineExec(f, moves))
    decreases |moves|
  {
    if moves != [] {
      MoveRefines(f, moves[0]);
      RunRefines(FineApply(f, moves[0]), moves[1..]);
      if Meant(moves[0]).Some? {
        ExecCons(f.s, Meant(moves[0]).value, MeantBy(moves[1..]));
      } else {
        assert [] + MeantBy(moves[1..]) == MeantBy(moves[1..]);
      }
    }
  }

  // ---------------------------------------------------------------- what a read amounts to

  function Mover(m: Move): nat {
    if m.Coarse? then m.a.t else m.t
  }

  predicate OthersMove(moves: seq<Move>, t: nat) {
    forall i :: 0 <= i < |moves| ==> Mover(moves[i]) != t
  }

  lemma {:induction false} MoveKeepsRead(f: Fine, m: Move, t: nat)
    requires FineInv(f) && FineEnabled(f, m) && Mover(m) != t && AtClock(f.s, t)
    ensures var g := FineApply(f, m);
            FineInv(g) && AtClock(g.s, t) && Target(g.s, t) == Target(f.s, t) && g.got[t] == f.got[t]
  {
    MoveRefines(f, m);
    if m.Coarse? { ApplyFrame(f.s, m.a); }
    StaysAtClock(f.s, FineApply(f, m).s, t);
  }

  /** A read that has begun waits while others move. */
  lemma {:induction false} OthersKeepRead(f: Fine, moves: seq<Move>, t: nat)
    requires FineInv(f) && FineRuns(f, moves) && OthersMove(moves, t) && AtClock(f.s, t)
    ensures var g := FineExec(f, moves);
            FineInv(g) && AtClock(g.s, t) && Target(g.s, t) == Target(f.s, t) && g.got[t] == f.got[t]
    decreases |moves|
  {
    if moves != [] {
      assert Mover(moves[0]) != t;
      MoveKeepsRead(f, moves[0], t);
      OthersKeepRead(FineApply(f, moves[0]), moves[1..], t);
    }
  }

  /** However others move between its three steps, a read gives the sum that get_logical_clock
      takes: the flag as it was first, and then, in either order, the software part and the count
      that the flag chose, each as it is when it is read. */
  lemma {:induction false} ReadTakesParts(f: Fine, t: nat, w1: seq<Move>, soft: bool, w2: seq<Move>)
    requires FineInv(f) && FineEnabled(f, ReadFlag(t)) && OthersMove(w1, t) && OthersMove(w2, t)
    requires FineRuns(FineApply(f, ReadFlag(t)), w1)
    requires FineEnabled(FineExec(FineApply(f, ReadFlag(t)), w1), ReadOne(t, soft))
    requires FineRuns(FineApply(FineExec(FineApply(f, ReadFlag(t)), w1), ReadOne(t, soft)), w2)
    ensures var u := Target(f.s, t);
            var g := FineExec(FineApply(f, ReadFlag(t)), w1);
            var h := FineExec(FineApply(g, ReadOne(t, soft)), w2);
            && u < |g.owners| && u < |h.owners| && t < |h.got| && h.got[t].Part?
            && Value(h.owners[u], h.got[t]) == ClockRead.ReadValue(f.owners[u], g.owners[u], h.owners[u], soft)
  {
    var f1 := FineApply(f, ReadFlag(t));
    MoveRefines(f, ReadFlag(t));
    OthersKeepRead(f1, w1, t);
    var g := FineExec(f1, w1);
    MoveRefines(g, ReadOne(t, soft));
    OthersKeepRead(FineApply(g, ReadOne(t, soft)), w2, t);
  }

  // ---------------------------------------------------------------- and every run is there

  predicate NoneReading(f: Fine) {
    forall t: nat :: t < |f.got| ==> f.got[t].Nothing?
  }

  /** Any action but a pass can be made, whatever it does to the clock done to its software part. */
  lemma {:induction false} CoarseHappens(f: Fine, a: Action) returns (m: Move)
    requires FineInv(f) && NoneReading(f) && Enabled(f.s, a) && !a.Pass?
    ensures FineEnabled(f, m) && Meant(m) == Some(a) && NoneReading(FineApply(f, m))
  {
    ApplyFrame(f.s, a);
    ClockGrows(f.s, a);
    assert OwnerOk(f, a.t);
    var acts := [ClockRead.Incr(Apply(f.s, a).w.threads[a.t].clock - f.s.w.threads[a.t].clock)];
    assert ClockRead.CanAll(f.owners[a.t], acts);
    ClockRead.NothingCountedTwice(f.owners[a.t], acts);
    m := Coarse(a, acts);
  }

  lemma {:induction false} ClockGrows(s: State, a: Action)
    requires RunInv(s) && Enabled(s, a)
    ensures Apply(s, a).w.threads[a.t].clock >= s.w.threads[a.t].clock
  {
    if a.Step? { LocalFrame(s.w, a.t); }
    if a.Take? { TurnFrame(s.w, a.t); }
  }

  lemma {:induction false} FineCons(f: Fine, m: Move, rest: seq<Move>)
    requires FineEnabled(f, m) && FineRuns(FineApply(f, m), rest)
    ensures FineRuns(f, [m] + rest) && FineExec(f, [m] + rest) == FineExec(FineApply(f, m), rest)
  {
    assert ([m] + rest)[1..] == rest;
  }

  lemma {:induction false} MeantCons(m: Move, rest: seq<Move>)
    ensures MeantBy([m] + rest) == if Meant(m).Some? then [Meant(m).value] + MeantBy(rest) else MeantBy(rest)
  {
    assert ([m] + rest)[1..] == rest;
    assert [] + MeantBy(rest) == MeantBy(rest);
  }

  /** Two reads that nobody interrupts, so that the third finds the clock as it is. */
  lemma {:induction false} ReadsHappen(f: Fine, t: nat) returns (h: Fine)
    requires FineInv(f) && NoneReading(f) && Enabled(f.s, Pass(t))
    ensures FineEnabled(f, ReadFlag(t))
    ensures FineEnabled(FineApply(f, ReadFlag(t)), ReadOne(t, true))
    ensures h == FineApply(FineApply(f, ReadFlag(t)), ReadOne(t, true))
    ensures FineEnabled(h, ReadTwo(t)) && NoneReading(FineApply(h, ReadTwo(t)))
  {
    var u := Target(f.s, t);
    assert OwnerOk(f, u);
    h := FineApply(FineApply(f, ReadFlag(t)), ReadOne(t, true));
    assert Value(h.owners[u], h.got[t]) == ClockRead.TrueClock(f.owners[u]);
  }

  lemma {:induction false} PassHappens(f: Fine, t: nat) returns (moves: seq<Move>)
    requires FineInv(f) && NoneReading(f) && Enabled(f.s, Pass(t))
    ensures FineRuns(f, moves) && MeantBy(moves) == [Pass(t)] && NoneReading(FineExec(f, moves))
  {
    var h := ReadsHappen(f, t);
    FineCons(h, ReadTwo(t), []);
    MeantCons(ReadTwo(t), []);
    moves := [ReadTwo(t)] + [];
    FineCons(FineApply(f, ReadFlag(t)), ReadOne(t, true), moves);
    MeantCons(ReadOne(t, true), moves);
    moves := [ReadOne(t, true)] + moves;
    FineCons(f, ReadFlag(t), moves);
    MeantCons(ReadFlag(t), moves);
    moves := [ReadFlag(t)] + moves;
  }

  lemma {:induction false} MeantAppend(a: seq<Move>, b: seq<Move>)
    ensures MeantBy(a + b) == MeantBy(a) + MeantBy(b)
  {
    if a == [] {
      assert a + b == b;
    } else {
      MeantAppend(a[1..], b);
      assert a + b == [a[0]] + (a[1..] + b) && a == [a[0]] + a[1..];
      MeantCons(a[0], a[1..] + b);
      MeantCons(a[0], a[1..]);
      if Meant(a[0]).Some? { Associates([Meant(a[0]).value], MeantBy(a[1..]), MeantBy(b)); }
    }
  }

  lemma {:induction false} FineFirst(f: Fine, a: seq<Move>, b: seq<Move>)
    requires a != [] && FineEnabled(f, a[0]) && FineRuns(FineApply(f, a[0]), a[1..] + b)
    ensures FineRuns(f, a + b)
  {
    assert a + b == [a[0]] + (a[1..] + b);
    FineCons(f, a[0], a[1..] + b);
  }

  lemma {:induction false} FineAppend(f: Fine, a: seq<Move>, b: seq<Move>)
    requires FineRuns(f, a) && FineRuns(FineExec(f, a), b)
    ensures FineRuns(f, a + b)
    decreases |a|
  {
    if a == [] {
      assert a + b == b;
    } else {
      FineAppend(FineApply(f, a[0]), a[1..], b);
      FineFirst(f, a, b);
    }
  }

  /** Nothing is lost by reading in pieces: every run with clocks read at once is there. */
  lemma {:induction false} RunHappens(f: Fine, acts: seq<Action>) returns (moves: seq<Move>)
    requires FineInv(f) && NoneReading(f) && Runs(f.s, acts)
    ensures FineRuns(f, moves) && MeantBy(moves) == acts
    decreases |acts|
  {
    moves := [];
    if acts != [] {
      var first := ActionHappens(f, acts[0]);
      RunRefines(f, first);
      assert Runs(f.s, [acts[0]]) && Exec(f.s, [acts[0]]) == Apply(f.s, acts[0]);
      var rest := RunHappens(FineExec(f, first), acts[1..]);
      FineAppend(f, first, rest);
      MeantAppend(first, rest);
      assert acts == [acts[0]] + acts[1..];
      moves := first + rest;
    }
  }

  lemma {:induction false} ActionHappens(f: Fine, a: Action) returns (moves: seq<Move>)
    requires FineInv(f) && NoneReading(f) && Enabled(f.s, a)
    ensures FineRuns(f, moves) && MeantBy(moves) == [a] && NoneReading(FineExec(f, moves))
  {
    if a.Pass? {
      moves := PassHappens(f, a.t);
    } else {
      var m := CoarseHappens(f, a);
      moves := [m];
      assert moves[1..] == [] && FineRuns(FineApply(f, m), []);
    }
  }

  lemma {:induction false} FineStartInv(prog: seq<Op>)
    ensures FineInv(FineStart(prog))
  {
    StartInv(prog);
  }

  /** Turn exclusivity with clocks read in pieces. */
  lemma {:induction false} FineTurnExclusivity(prog: seq<Op>, moves: seq<Move>, t: nat)
    requires FineRuns(FineStart(prog), moves)
    requires t < |FineExec(FineStart(prog), moves).s.scan| && FineExec(FineStart(prog), moves).s.scan[t].InTurn?
    ensures var s := FineExec(FineStart(prog), moves).s;
            && Least(s.w, t)
            && (forall u :: 0 <= u < |s.scan| && s.scan[u].InTurn? ==> u == t)
  {
    FineStartInv(prog);
    RunRefines(FineStart(prog), moves);
    TurnExclusivity(prog, MeantBy(moves), t);
  }

  /** Determinism with clocks read in pieces: the log is one of the serial scheduler. */
  lemma {:induction false} FineDeterminism(prog: seq<Op>, moves: seq<Move>) returns (n: nat)
    requires FineRuns(FineStart(prog), moves)
    ensures FineExec(FineStart(prog), moves).s.log == Serial(StartWorld(prog), n).1
  {
    FineStartInv(prog);
    RunRefines(FineStart(prog), moves);
    n := Determinism(prog, MeantBy(moves));
  }

  /** Every run of a program is one with clocks read in pieces. */
  lemma {:induction false} EveryRunHappens(prog: seq<Op>, acts: seq<Action>) returns (moves: seq<Move>)
    requires Runs(Start(prog), acts)
    ensures FineRuns(FineStart(prog), moves) && FineExec(FineStart(prog), moves).s == Exec(Start(prog), acts)
  {
    FineStartInv(prog);
    moves := RunHappens(FineStart(prog), acts);
    RunRefines(FineStart(prog), moves);
  }
}
