/** Every move keeps the invariant, and clocks never go down. */
module KendoInvariant {
  import opened Options
  import opened KendoModel

  /** What a local move leaves alone: the other threads, the queues, the other mutexes. */
  lemma {:induction false} LocalFrame(w: World, t: nat)
    requires LocalEnabled(w, t)
    ensures var w' := LocalStep(w, t);
            && |w'.threads| == |w.threads|
            && (forall u :: 0 <= u < |w.threads| && u != t ==> w'.threads[u] == w.threads[u])
            && w'.threads[t].clock >= w.threads[t].clock
            && (forall m: nat :: Focus(w.threads[t]) != Some(m) ==> Get(w', m) == Get(w, m))
            && (forall m: nat :: Get(w', m).queue == Get(w, m).queue)
            && (forall m: nat :: Get(w', m).granted == Get(w, m).granted)
            && (forall m: nat :: Get(w, m).past <= Get(w', m).past)
  {
  }

  lemma {:induction false} LocalKeepsSelf(w: World, t: nat)
    requires Inv(w) && LocalEnabled(w, t)
    ensures ThreadInv(LocalStep(w, t), t)
  {
    assert ThreadInv(w, t);
    var f := Focus(w.threads[t]);
    if f.Some? { assert MutexInv(w, f.value); }
  }

  lemma {:induction false} LocalKeepsOther(w: World, t: nat, u: nat)
    requires Inv(w) && LocalEnabled(w, t) && u < |w.threads| && u != t
    ensures ThreadInv(LocalStep(w, t), u)
  {
    LocalFrame(w, t);
    assert ThreadInv(w, t) && ThreadInv(w, u);
    var f := Focus(w.threads[t]);
    if f.Some? { assert MutexInv(w, f.value); }
    if w.threads[u].phase.Won? { assert MutexInv(w, w.threads[u].prog[0].m); }
  }

  lemma {:induction false} LocalKeepsWaits(w: World, t: nat, m: nat)
    requires Inv(w) && LocalEnabled(w, t)
    ensures Waits(LocalStep(w, t).threads[t], m) == Waits(w.threads[t], m)
  {
    assert ThreadInv(w, t);
  }

  lemma {:induction false} LocalKeepsQueue(w: World, t: nat, m: nat)
    requires Inv(w) && LocalEnabled(w, t)
    ensures var w' := LocalStep(w, t); var q := Get(w', m).queue;
            && (forall i :: 0 <= i < |q| ==> q[i] < |w'.threads| && Waits(w'.threads[q[i]], m))
            && (forall i, j :: 0 <= i < j < |q| ==> q[i] != q[j])
            && (forall u :: 0 <= u < |w'.threads| && Waits(w'.threads[u], m) ==> u in q)
  {
    LocalFrame(w, t);
    LocalKeepsWaits(w, t, m);
    assert MutexInv(w, m);
  }

  /** The mutex the move looks at. */
  lemma {:induction false} LocalKeepsFocus(w: World, t: nat, m: nat)
    requires Inv(w) && LocalEnabled(w, t) && Focus(w.threads[t]) == Some(m)
    ensures MutexInv(LocalStep(w, t), m)
  {
    LocalKeepsQueue(w, t, m);
    assert ThreadInv(w, t) && MutexInv(w, m);
    assert Get(LocalStep(w, t), m) == Local(w.threads[t], Get(w, m), t).value.1;
  }

  lemma {:induction false} LocalKeepsMutex(w: World, t: nat, m: nat)
    requires Inv(w) && LocalEnabled(w, t)
    ensures MutexInv(LocalStep(w, t), m)
  {
    if Focus(w.threads[t]) == Some(m) {
      LocalKeepsFocus(w, t, m);
    } else {
      LocalKeepsQueue(w, t, m);
      LocalFrame(w, t);
      assert ThreadInv(w, t) && MutexInv(w, m);
    }
  }

  lemma {:induction false} LocalKeepsInv(w: World, t: nat)
    requires Inv(w) && LocalEnabled(w, t)
    ensures Inv(LocalStep(w, t))
  {
    var w' := LocalStep(w, t);
    forall u | 0 <= u < |w'.threads| ensures ThreadInv(w', u) {
      if u == t { LocalKeepsSelf(w, t); } else { LocalKeepsOther(w, t, u); }
    }
    forall m: nat ensures MutexInv(w', m) { LocalKeepsMutex(w, t, m); }
  }

  // ---------------------------------------------------------------- turn moves

  lemma {:induction false} TurnFrame(w: World, t: nat)
    requires WantsTurn(w, t)
    ensures var w' := Turn(w, t);
            && |w.threads| <= |w'.threads| <= |w.threads| + 1
            && (forall u :: 0 <= u < |w.threads| && u != t ==> w'.threads[u] == w.threads[u])
            && w'.threads[t].clock == w.threads[t].clock
            && (forall m: nat :: w.threads[t].prog[0] != Lock(m) ==> Get(w', m) == Get(w, m))
            && (forall m: nat :: Get(w', m).past == Get(w, m).past)
  {
  }

  /** The part of MutexInv about the queue. */
  ghost predicate QueueInv(w: World, m: nat, q: seq<nat>) {
    && (forall i :: 0 <= i < |q| ==> q[i] < |w.threads| && Waits(w.threads[q[i]], m))
    && (forall i, j :: 0 <= i < j < |q| ==> q[i] != q[j])
    && (forall t :: 0 <= t < |w.threads| && Waits(w.threads[t], m) ==> t in q)
  }

  /** After AddQ each waiting thread is queued exactly once, the caller included. */
  lemma {:induction false} JoinedOnce(w: World, t: nat, m: nat)
    requires Inv(w) && WantsTurn(w, t) && w.threads[t].prog[0] == Lock(m)
    ensures var q := Joined(Get(w, m), t, w.threads[t].phase.queued);
            && t in q
            && (forall i :: 0 <= i < |q| ==> q[i] < |w.threads| && (q[i] == t || Waits(w.threads[q[i]], m)))
            && (forall i, j :: 0 <= i < j < |q| ==> q[i] != q[j])
            && (forall u :: 0 <= u < |w.threads| && Waits(w.threads[u], m) ==> u in q)
  {
    assert MutexInv(w, m);
    assert w.threads[t].phase.queued == Waits(w.threads[t], m);
  }

  lemma {:induction false} TurnKeepsOwnQueue(w: World, t: nat, m: nat)
    requires Inv(w) && WantsTurn(w, t) && w.threads[t].prog[0] == Lock(m)
    ensures QueueInv(Turn(w, t), m, Get(Turn(w, t), m).queue)
  {
    JoinedOnce(w, t, m);
    var w' := Turn(w, t);
    var q := Joined(Get(w, m), t, w.threads[t].phase.queued);
    var q' := Get(w', m).queue;
    var won := Admits(Get(w, m), t, w.threads[t].clock, w.threads[t].phase.queued);
    assert q' == if won then q[1..] else q;
    assert Waits(w'.threads[t], m) == !won;
    forall i | 0 <= i < |q'| ensures q'[i] < |w'.threads| && Waits(w'.threads[q'[i]], m) {
      var k := if won then i + 1 else i;
      assert q'[i] == q[k];
    }
    forall u | 0 <= u < |w'.threads| && Waits(w'.threads[u], m) ensures u in q' {
      if u != t {
        assert Waits(w.threads[u], m) && u in q;
      }
    }
  }

  lemma {:induction false} TurnKeepsOtherQueue(w: World, t: nat, m: nat)
    requires Inv(w) && WantsTurn(w, t) && w.threads[t].prog[0] != Lock(m)
    ensures QueueInv(Turn(w, t), m, Get(Turn(w, t), m).queue)
  {
    TurnFrame(w, t);
    assert MutexInv(w, m);
    var w' := Turn(w, t);
    assert !Waits(w'.threads[t], m) && !Waits(w.threads[t], m);
    forall u | 0 <= u < |w'.threads| && Waits(w'.threads[u], m) ensures u in Get(w', m).queue {
      assert u < |w.threads| && Waits(w.threads[u], m);
    }
  }

  lemma {:induction false} TurnKeepsMutex(w: World, t: nat, m: nat)
    requires Inv(w) && WantsTurn(w, t)
    ensures MutexInv(Turn(w, t), m)
  {
    if w.threads[t].prog[0] == Lock(m) {
      TurnKeepsOwnQueue(w, t, m);
    } else {
      TurnKeepsOtherQueue(w, t, m);
    }
    TurnFrame(w, t);
    assert ThreadInv(w, t) && MutexInv(w, m);
    assert Get(Turn(w, t), m).released == Get(w, m).released;
  }

  lemma {:induction false} TurnKeepsInv(w: World, t: nat)
    requires Inv(w) && WantsTurn(w, t)
    ensures Inv(Turn(w, t))
  {
    TurnFrame(w, t);
    var w' := Turn(w, t);
    forall m: nat ensures MutexInv(w', m) { TurnKeepsMutex(w, t, m); }
    forall u | 0 <= u < |w'.threads| ensures ThreadInv(w', u) {
      assert MutexInv(w, 0);
      if u < |w.threads| {
        assert ThreadInv(w, u);
        if w.threads[u].phase.Won? { assert MutexInv(w, w.threads[u].prog[0].m); }
        if w.threads[u].phase.Releasing? { assert MutexInv(w, w.threads[u].phase.m); }
      }
    }
  }
}
