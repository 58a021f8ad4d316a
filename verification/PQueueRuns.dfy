/** The queue's monitor protocol for any number of threads: who sleeps on `more` and `less`, who
    has been woken, and what has been put and got. */
module PQueueRuns {
  import opened PQueue

  /** idleGets and idlePuts sleep on `more` and `less`; readyGets and readyPuts have been woken
      and will test again.  A put in progress is known by its item.  casts are broadcasts still
      to come after a close; leaked says that a put has returned with the mutex still locked.
      put, got: what has been stored and delivered, in order; ended: gets that returned 0. */
  datatype State = State(qsize: nat, items: seq<int>, closed: bool, casts: nat, leaked: bool,
                         idleGets: nat, readyGets: nat, idlePuts: multiset<int>, readyPuts: multiset<int>,
                         put: seq<int>, got: seq<int>, ended: nat)

  /** `wake` is the sleeping put that a get's signal picks, if any sleeps. */
  datatype Act = PutArrive(x: int) | PutResume(x: int) | GetArrive(wake: int) | GetResume(wake: int)
               | Close | Broadcast

  predicate Can(s: State, a: Act) {
    match a
    case PutArrive(_) => !s.leaked
    case PutResume(x) => !s.leaked && x in s.readyPuts
    case GetArrive(w) => !s.leaked && (s.idlePuts == multiset{} || w in s.idlePuts)
    case GetResume(w) => !s.leaked && s.readyGets > 0 && (s.idlePuts == multiset{} || w in s.idlePuts)
    case Close => !s.leaked
    case Broadcast => s.casts > 0
  }

  /** One test of the put's loop, and the rest of the put once there is room. */
  function PutPass(s: State, x: int): State {
    if |s.items| >= s.qsize then s.(idlePuts := s.idlePuts + multiset{x})
    else
      var r := s.(items := s.items + [x], put := s.put + [x]);
      if s.idleGets > 0 then r.(idleGets := s.idleGets - 1, readyGets := s.readyGets + 1) else r
  }

  /** One test of the get's loop, and the rest of the get once there is an item or an end. */
  function GetPass(s: State, w: int): State {
    if s.items == [] && !s.closed then s.(idleGets := s.idleGets + 1)
    else if s.items == [] then s.(ended := s.ended + 1)
    else
      var r := s.(items := s.items[1..], got := s.got + [s.items[0]]);
      if s.idlePuts == multiset{} then r
      else r.(idlePuts := s.idlePuts - multiset{w}, readyPuts := s.readyPuts + multiset{w})
  }

  function Do(s: State, a: Act): State
    requires Can(s, a)
  {
    match a
    case PutArrive(x) => if s.closed then s.(leaked := true) else PutPass(s, x)
    case PutResume(x) => PutPass(s.(readyPuts := s.readyPuts - multiset{x}), x)
    case GetArrive(w) => GetPass(s, w)
    case GetResume(w) => GetPass(s.(readyGets := s.readyGets - 1), w)
    case Close => s.(closed := true, casts := s.casts + 1)
    case Broadcast => s.(casts := s.casts - 1, idleGets := 0, readyGets := s.readyGets + s.idleGets)
  }

  predicate CanAll(s: State, acts: seq<Act>)
    decreases |acts|
  {
    acts == [] || (Can(s, acts[0]) && CanAll(Do(s, acts[0]), acts[1..]))
  }

  function DoAll(s: State, acts: seq<Act>): State
    requires CanAll(s, acts)
    decreases |acts|
  {
    if acts == [] then s else DoAll(Do(s, acts[0]), acts[1..])
  }

  function Start(qsize: nat): State {
    State(qsize, [], false, 0, false, 0, 0, multiset{}, multiset{}, [], [], 0)
  }

  /** Everything put is delivered or waiting in order; and as many sleepers as could use the
      items, or the free slots, have been woken, but for `gets` and `puts` of them that are
      passing through the monitor. */
  predicate InvBut(s: State, gets: nat, puts: nat) {
    && s.put == s.got + s.items && |s.items| <= s.qsize
    && (s.idleGets > 0 ==> |s.items| <= s.readyGets + gets)
    && (s.idlePuts != multiset{} ==> s.qsize - |s.items| <= |s.readyPuts| + puts)
    && (s.closed && s.idleGets > 0 ==> s.casts > 0)
    && (s.ended > 0 ==> s.closed)
  }

  predicate Inv(s: State) { InvBut(s, 0, 0) }

  lemma {:induction false} PutKeepsInv(s: State, x: int)
    requires InvBut(s, 0, 1)
    ensures Inv(PutPass(s, x))
  {
  }

  lemma {:induction false} GetKeepsInv(s: State, w: int)
    requires InvBut(s, 1, 0) && (s.idlePuts == multiset{} || w in s.idlePuts)
    ensures Inv(GetPass(s, w))
  {
    if s.items != [] {
      assert s.items == [s.items[0]] + s.items[1..];
      assert |s.readyPuts + multiset{w}| == |s.readyPuts| + 1;
    }
  }

  lemma {:induction false} StepKeepsInv(s: State, a: Act)
    requires Inv(s) && Can(s, a)
    ensures Inv(Do(s, a)) && Do(s, a).qsize == s.qsize
  {
    match a
    case PutArrive(x) => PutKeepsInv(s, x);
    case PutResume(x) => PutKeepsInv(s.(readyPuts := s.readyPuts - multiset{x}), x);
    case GetArrive(w) => GetKeepsInv(s, w);
    case GetResume(w) => GetKeepsInv(s.(readyGets := s.readyGets - 1), w);
    case Close =>
    case Broadcast =>
  }

  lemma {:induction false} RunInv(s: State, acts: seq<Act>)
    requires Inv(s) && CanAll(s, acts)
    ensures Inv(DoAll(s, acts)) && DoAll(s, acts).qsize == s.qsize
    decreases |acts|
  {
    if acts != [] {
      StepKeepsInv(s, acts[0]);
      RunInv(Do(s, acts[0]), acts[1..]);
    }
  }

  // ---------------------------------------------------------------- one pass through the monitor

  /** A put does with the items what pqueue_put does with the ring, and is then done, asleep, or
      returned with the mutex. */
  lemma {:induction false} PutIsPass(s: State, a: Act)
    requires Can(s, a) && (a.PutArrive? || a.PutResume?)
    ensures var r, e := Do(s, a), PutEnds(s.closed, a.PutResume?, s.qsize, |s.items|);
            var begun := if a.PutArrive? then multiset{a.x} else multiset{};
            && r.items == (if e.Stored? then s.items + [a.x] else s.items)
            && r.put == (if e.Stored? then s.put + [a.x] else s.put)
            && r.leaked == e.Refused?
            && r.idlePuts + r.readyPuts + (if e.FullSoWait? then multiset{} else multiset{a.x})
               == s.idlePuts + s.readyPuts + begun
            && (e.FullSoWait? ==> a.x in r.idlePuts)
            && r.got == s.got && r.ended == s.ended && r.closed == s.closed
            && r.idleGets + r.readyGets == s.idleGets + s.readyGets
  {
  }

  /** So does a get. */
  lemma {:induction false} GetIsPass(s: State, a: Act)
    requires Can(s, a) && (a.GetArrive? || a.GetResume?)
    ensures var r, e := Do(s, a), GetEnds(s.closed, s.items);
            var begun := if a.GetArrive? then 1 else 0;
            && r.items == (if e.Got? then s.items[1..] else s.items)
            && r.got == (if e.Got? then s.got + [s.items[0]] else s.got)
            && r.ended == s.ended + (if e.Ended? then 1 else 0)
            && r.idleGets + r.readyGets + (if e.EmptySoWait? then 0 else 1) == s.idleGets + s.readyGets + begun
            && (e.EmptySoWait? ==> r.idleGets == s.idleGets + 1)
            && r.put == s.put && r.closed == s.closed && r.leaked == s.leaked
            && r.idlePuts + r.readyPuts == s.idlePuts + s.readyPuts
  {
  }

  // ---------------------------------------------------------------- what the actions amount to

  predicate Closes(acts: seq<Act>) {
    exists i :: 0 <= i < |acts| && acts[i].Close?
  }

  /** The items of the puts that came before any close, in order. */
  function Offered(acts: seq<Act>): seq<int> {
    if acts == [] then []
    else
      var before, a := acts[..|acts| - 1], acts[|acts| - 1];
      Offered(before) + if a.PutArrive? && !Closes(before) then [a.x] else []
  }

  /** How many gets have come. */
  function Gets(acts: seq<Act>): nat {
    if acts == [] then 0 else Gets(acts[..|acts| - 1]) + if acts[|acts| - 1].GetArrive? then 1 else 0
  }

  ghost predicate Conserved(acts: seq<Act>, s: State) {
    && (s.closed <==> Closes(acts))
    && multiset(Offered(acts)) == multiset(s.put) + (s.idlePuts + s.readyPuts)
    && Gets(acts) == |s.got| + s.ended + (s.idleGets + s.readyGets)
  }

  lemma {:induction false} ActsGrow(acts: seq<Act>, a: Act)
    ensures Closes(acts + [a]) <==> Closes(acts) || a.Close?
    ensures Offered(acts + [a]) == Offered(acts) + if a.PutArrive? && !Closes(acts) then [a.x] else []
    ensures Gets(acts + [a]) == Gets(acts) + if a.GetArrive? then 1 else 0
  {
    var more := acts + [a];
    assert more[..|acts|] == acts;
    if a.Close? { assert more[|acts|].Close?; }
    if i :| 0 <= i < |acts| && acts[i].Close? { assert more[i].Close?; }
  }

  lemma {:induction false} PutBags(
    put: multiset<int>, waiting: multiset<int>, put': multiset<int>, waiting': multiset<int>, x: multiset<int>,
    begun: multiset<int>, stored: bool)
    requires put' == (if stored then put + x else put)
    requires waiting' + (if stored then x else multiset{}) == waiting + begun
    ensures put' + waiting' == put + waiting + begun
  {
    var s := if stored then x else multiset{};
    assert put' == put + s;
    assert put' + waiting' == put + (waiting' + s);
  }

  /** An offered item is stored or in the hands of a put. */
  lemma {:induction false} PutConserves(s: State, a: Act)
    requires Can(s, a) && (a.PutArrive? || a.PutResume?)
    ensures var r := Do(s, a);
            multiset(r.put) + (r.idlePuts + r.readyPuts)
            == multiset(s.put) + (s.idlePuts + s.readyPuts)
               + (if a.PutArrive? && !s.closed then multiset{a.x} else multiset{})
  {
    PutIsPass(s, a);
    var r := Do(s, a);
    var stored := PutEnds(s.closed, a.PutResume?, s.qsize, |s.items|).Stored?;
    PutBags(multiset(s.put), s.idlePuts + s.readyPuts, multiset(r.put), r.idlePuts + r.readyPuts, multiset{a.x},
            if a.PutArrive? && !s.closed then multiset{a.x} else multiset{}, stored);
  }

  lemma {:induction false} StepConserves(acts: seq<Act>, s: State, a: Act)
    requires Conserved(acts, s) && Can(s, a)
    ensures Conserved(acts + [a], Do(s, a))
  {
    ActsGrow(acts, a);
    match a
    case PutArrive(x) =>
      PutIsPass(s, a);
      PutConserves(s, a);
      assert multiset([x]) == multiset{x};
    case PutResume(_) =>
      PutIsPass(s, a);
      PutConserves(s, a);
    case GetArrive(_) => GetIsPass(s, a);
    case GetResume(_) => GetIsPass(s, a);
    case Close =>
    case Broadcast =>
  }

  lemma {:induction false} RunConserves(done: seq<Act>, s: State, acts: seq<Act>)
    requires Conserved(done, s) && CanAll(s, acts)
    ensures Conserved(done + acts, DoAll(s, acts))
    decreases |acts|
  {
    if acts == [] {
      assert done + acts == done;
    } else {
      StepConserves(done, s, acts[0]);
      RunConserves(done + [acts[0]], Do(s, acts[0]), acts[1..]);
      assert done + [acts[0]] + acts[1..] == done + acts;
    }
  }

  /** In every run, counted by its actions: each item that was offered before the close is got,
      in the queue, or in the hands of a put that is asleep or woken, and nothing else is; items
      are got in the order in which they were stored; each get has got an item, has ended, or is
      asleep or woken; and the queue is never over its size. */
  lemma {:induction false} NothingLost(qsize: nat, acts: seq<Act>)
    requires CanAll(Start(qsize), acts)
    ensures var e := DoAll(Start(qsize), acts);
            && (e.closed <==> Closes(acts))
            && multiset(Offered(acts)) == multiset(e.got + e.items) + (e.idlePuts + e.readyPuts)
            && Gets(acts) == |e.got| + e.ended + (e.idleGets + e.readyGets)
            && e.put == e.got + e.items && |e.items| <= qsize
  {
    RunInv(Start(qsize), acts);
    RunConserves([], Start(qsize), acts);
    assert [] + acts == acts;
  }

  /** No put of the run comes to a full queue. */
  predicate NeverFull(s: State, acts: seq<Act>)
    requires CanAll(s, acts)
    decreases |acts|
  {
    acts == []
    || ((acts[0].PutArrive? ==> |s.items| < s.qsize) && NeverFull(Do(s, acts[0]), acts[1..]))
  }

  lemma {:induction false} UnblockedStep(done: seq<Act>, s: State, a: Act)
    requires Can(s, a) && (s.closed <==> Closes(done)) && s.put == Offered(done) && NoPuts(s)
    requires a.PutArrive? ==> |s.items| < s.qsize
    ensures Do(s, a).put == Offered(done + [a]) && NoPuts(Do(s, a)) && (Do(s, a).closed <==> Closes(done + [a]))
  {
    ActsGrow(done, a);
  }

  /** If no put has to wait, the items are stored in the order in which they were offered. */
  lemma {:induction false} UnblockedInOrder(done: seq<Act>, s: State, acts: seq<Act>)
    requires CanAll(s, acts) && (s.closed <==> Closes(done)) && s.put == Offered(done) && NoPuts(s) && NeverFull(s, acts)
    ensures DoAll(s, acts).put == Offered(done + acts)
    decreases |acts|
  {
    if acts == [] {
      assert done + acts == done;
    } else {
      UnblockedStep(done, s, acts[0]);
      UnblockedInOrder(done + [acts[0]], Do(s, acts[0]), acts[1..]);
      assert done + [acts[0]] + acts[1..] == done + acts;
    }
  }

  /** So they come out in that order. */
  lemma {:induction false} FirstInFirstOut(qsize: nat, acts: seq<Act>)
    requires CanAll(Start(qsize), acts) && NeverFull(Start(qsize), acts)
    ensures var e := DoAll(Start(qsize), acts); e.got + e.items == Offered(acts)
  {
    NothingLost(qsize, acts);
    UnblockedInOrder([], Start(qsize), acts);
    assert [] + acts == acts;
  }

  /** No wake-up is lost: sleepers that could go on have enough woken threads ahead of them, a
      close reaches every sleeping get, and unless a put came after the close somebody can
      always move when gets and puts are both in progress. */
  lemma {:induction false} NoLostWakeup(qsize: nat, acts: seq<Act>)
    requires qsize > 0 && CanAll(Start(qsize), acts)
    ensures var e := DoAll(Start(qsize), acts);
            && (e.items != [] && e.idleGets > 0 ==> e.readyGets >= |e.items|)
            && (|e.items| < qsize && e.idlePuts != multiset{} ==> |e.readyPuts| >= qsize - |e.items|)
            && (e.closed && e.idleGets > 0 ==> Can(e, Broadcast))
            && (e.idleGets > 0 && e.idlePuts != multiset{} ==> e.readyGets > 0 || e.readyPuts != multiset{})
  {
    RunInv(Start(qsize), acts);
  }

  predicate NoPuts(s: State) { s.idlePuts == multiset{} && s.readyPuts == multiset{} }

  /** After a close with no put in progress nothing is ever stored again. */
  lemma {:induction false} ClosedForGood(s: State, acts: seq<Act>)
    requires s.closed && NoPuts(s) && CanAll(s, acts)
    ensures DoAll(s, acts).put == s.put
    decreases |acts|
  {
    if acts != [] { ClosedForGood(Do(s, acts[0]), acts[1..]); }
  }

  ghost predicate Final(s: State) {
    forall acts :: CanAll(s, acts) ==> DoAll(s, acts).put == s.put
  }

  lemma {:induction false} SomeIn(m: multiset<int>)
    ensures m == multiset{} || exists x :: x in m
  {
    if !exists x :: x in m { assert m == multiset{}; }
  }

  /** A put in progress at an empty queue can still store its item. */
  lemma {:induction false} PutGoesOn(s: State)
    requires Inv(s) && s.qsize > 0 && s.items == [] && !s.leaked && !NoPuts(s)
    ensures !Final(s)
  {
    SomeIn(s.readyPuts);
    var x :| x in s.readyPuts;
    var a := PutResume(x);
    assert CanAll(Do(s, a), []) && CanAll(s, [a]);
    assert DoAll(s, [a]).put == s.put + [x];
  }

  /** When a get returns 0 everything stored so far has been delivered; and nothing will be
      stored later, so that the consumers may stop, if and only if no put is still in progress. */
  lemma {:induction false} EndIsFinalIff(qsize: nat, acts: seq<Act>, a: Act)
    requires qsize > 0 && CanAll(Start(qsize), acts) && Can(DoAll(Start(qsize), acts), a)
    requires Do(DoAll(Start(qsize), acts), a).ended > DoAll(Start(qsize), acts).ended
    ensures var e := Do(DoAll(Start(qsize), acts), a);
            e.got == e.put && (Final(e) <==> NoPuts(e))
  {
    RunInv(Start(qsize), acts);
    var s := DoAll(Start(qsize), acts);
    StepKeepsInv(s, a);
    var e := Do(s, a);
    assert e.items == [] && e.closed && !e.leaked;
    if NoPuts(e) {
      forall more | CanAll(e, more)
        ensures DoAll(e, more).put == e.put
      {
        ClosedForGood(e, more);
      }
    } else {
      PutGoesOn(e);
    }
  }
}
