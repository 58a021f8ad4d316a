/** Reading another thread's logical clock (get_logical_clock, enable_logical_clock and
    disable_logical_clock in src/dpthread.c).  The read takes separate steps, between which
    the owner goes on counting, incrementing, enabling and disabling; the value it gives lies
    between the owner's true clock when the flag was read and at the end of the read. */
module ClockRead {

  /** Where the owner is in enable_logical_clock / disable_logical_clock. */
  datatype Place = Off | FlagSet | On | Stopped | Saved

  /** counter: the hardware count; hw, sw, flag: hw_clock, sw_clock and hw_clock_enabled. */
  datatype Owner = Owner(counter: nat, hw: nat, sw: nat, flag: bool, at: Place)

  function TrueClock(o: Owner): nat { o.counter + o.sw }

  /** What the owner can do: count an instruction while the counter runs, add to its software
      clock, and the two steps of enabling and three of disabling. */
  datatype Act = Tick | Incr(n: nat) | SetFlag | StartCounter | StopCounter | SaveCount | ClearFlag

  predicate Can(o: Owner, a: Act) {
    match a
    case Tick => o.at.On?
    case Incr(_) => true
    case SetFlag => o.at.Off?
    case StartCounter => o.at.FlagSet?
    case StopCounter => o.at.On?
    case SaveCount => o.at.Stopped?
    case ClearFlag => o.at.Saved?
  }

  function Do(o: Owner, a: Act): Owner
    requires Can(o, a)
  {
    match a
    case Tick => o.(counter := o.counter + 1)
    case Incr(n) => o.(sw := o.sw + n)
    case SetFlag => o.(flag := true, at := FlagSet)
    case StartCounter => o.(at := On)
    case StopCounter => o.(at := Stopped)
    case SaveCount => o.(hw := o.counter, at := Saved)
    case ClearFlag => o.(flag := false, at := Off)
  }

  predicate CanAll(o: Owner, acts: seq<Act>)
    decreases |acts|
  {
    acts == [] || (Can(o, acts[0]) && CanAll(Do(o, acts[0]), acts[1..]))
  }

  function DoAll(o: Owner, acts: seq<Act>): Owner
    requires CanAll(o, acts)
    decreases |acts|
  {
    if acts == [] then o else DoAll(Do(o, acts[0]), acts[1..])
  }

  /** The cached count is the counter whenever the flag is off, and never ahead of it. */
  predicate Inv(o: Owner) {
    && o.hw <= o.counter
    && (o.flag <==> !o.at.Off?)
    && (o.at.Off? || o.at.FlagSet? || o.at.Saved? ==> o.hw == o.counter)
  }

  /** Whatever the owner does, the invariant stays and no part of its clock goes down. */
  lemma {:induction false} OwnerGrows(o: Owner, acts: seq<Act>)
    requires Inv(o) && CanAll(o, acts)
    ensures var e := DoAll(o, acts);
            Inv(e) && o.counter <= e.counter && o.hw <= e.hw && o.sw <= e.sw
    decreases |acts|
  {
    if acts != [] { OwnerGrows(Do(o, acts[0]), acts[1..]); }
  }

  /** The value of one remote read: the flag is read from `a`; then, in either order, the
      software part and the cached or live count, from `b` and `c`. */
  function ReadValue(a: Owner, b: Owner, c: Owner, softwareFirst: bool): nat {
    if softwareFirst then b.sw + (if a.flag then c.counter else c.hw)
    else (if a.flag then b.counter else b.hw) + c.sw
  }

  /** A remote read never exceeds the owner's true clock at its end, and never falls short of
      the true clock at the moment the flag was read, whatever the owner does in between. */
  lemma {:induction false} RemoteReadBounds(start: Owner, w1: seq<Act>, w2: seq<Act>, w3: seq<Act>, softwareFirst: bool)
    requires Inv(start) && CanAll(start, w1)
    requires CanAll(DoAll(start, w1), w2)
    requires CanAll(DoAll(DoAll(start, w1), w2), w3)
    ensures var a := DoAll(start, w1);
            var b := DoAll(a, w2);
            var c := DoAll(b, w3);
            TrueClock(start) <= TrueClock(a) <= ReadValue(a, b, c, softwareFirst) <= TrueClock(c)
  {
    OwnerGrows(start, w1);
    var a := DoAll(start, w1);
    OwnerGrows(a, w2);
    var b := DoAll(a, w2);
    OwnerGrows(b, w3);
  }

  /** A thread that reads its own clock while it is disabled reads it exactly, and in every
      reachable state a cleared flag means that the cached count is the counter. */
  lemma {:induction false} OwnReadExact(acts: seq<Act>)
    requires CanAll(Owner(0, 0, 0, false, Off), acts)
    ensures var o := DoAll(Owner(0, 0, 0, false, Off), acts);
            !o.flag ==> o.hw == o.counter && ReadValue(o, o, o, true) == TrueClock(o)
  {
    OwnerGrows(Owner(0, 0, 0, false, Off), acts);
  }

  /** What the actions add up to. */
  function Counted(acts: seq<Act>): nat {
    if acts == [] then 0
    else
      (match acts[0]
       case Tick => 1
       case Incr(n) => n
       case _ => 0)
      + Counted(acts[1..])
  }

  /** The true clock counts each instruction and each increment once; enabling and disabling do
      not show in it. */
  lemma {:induction false} NothingCountedTwice(o: Owner, acts: seq<Act>)
    requires CanAll(o, acts)
    ensures TrueClock(DoAll(o, acts)) == TrueClock(o) + Counted(acts)
    decreases |acts|
  {
    if acts != [] { NothingCountedTwice(Do(o, acts[0]), acts[1..]); }
  }
}
