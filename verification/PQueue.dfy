/** pfscan's bounded queue (papps/pfscan-1.0/pqueue.c): the ring buffer, one pass of a put or a
    get through the monitor at a time. */
module PQueue {
  import opened Ring

  datatype PutResult = Refused | FullSoWait | Stored
  datatype GetResult<T> = Ended | EmptySoWait | Got(item: T)

  /** How one pass of a put ends at a queue with n items; `resumed` is a put that has already
      waited, which does not look at `closed` again. */
  function PutEnds(closed: bool, resumed: bool, qsize: nat, n: nat): PutResult {
    if closed && !resumed then Refused else if n >= qsize then FullSoWait else Stored
  }

  /** How one pass of a get ends. */
  function GetEnds<T>(closed: bool, items: seq<T>): GetResult<T> {
    if items != [] then Got(items[0]) else if closed then Ended else EmptySoWait
  }

  class Buffer<T(0)> {
    var buf: array<T>
    var qsize: nat
    var occupied: nat
    var nextin: nat
    var nextout: nat
    var closed: bool

    ghost predicate Valid()
      reads this
    {
      && qsize > 0 && buf.Length == qsize && nextout < qsize && occupied <= qsize
      && nextin == if nextout + occupied < qsize then nextout + occupied else nextout + occupied - qsize
    }

    /** The items, oldest first. */
    ghost function Contents(): seq<T>
      requires Valid()
      reads this, buf
    {
      if nextout + occupied <= qsize then buf[nextout..nextout + occupied]
      else buf[nextout..] + buf[..nextout + occupied - qsize]
    }

    /** pqueue_init */
    constructor (n: nat)
      requires n > 0
      ensures Valid() && fresh(buf) && qsize == n && !closed && Contents() == []
    {
      buf := new T[n];
      qsize, occupied, nextin, nextout, closed := n, 0, 0, 0, false;
    }

    /** pqueue_close */
    method Close()
      requires Valid()
      modifies this`closed
      ensures Valid() && closed && Contents() == old(Contents())
    {
      closed := true;
    }

    /** pqueue_put */
    method Put(item: T, resumed: bool) returns (r: PutResult)
      requires Valid()
      modifies this`occupied, this`nextin, buf
      ensures Valid()
      ensures r == PutEnds(closed, resumed, qsize, |old(Contents())|)
      ensures Contents() == if r.Stored? then old(Contents()) + [item] else old(Contents())
    {
      if closed && !resumed { return Refused; }
      if occupied >= qsize { return FullSoWait; }
      ghost var before := Contents();
      Next(nextin, qsize);
      buf[nextin] := item;
      nextin := (nextin + 1) % qsize;
      occupied := occupied + 1;
      assert Contents() == before + [item];
      return Stored;
    }

    /** pqueue_get */
    method Get() returns (r: GetResult<T>)
      requires Valid()
      modifies this`occupied, this`nextout
      ensures Valid()
      ensures r == GetEnds(closed, old(Contents()))
      ensures Contents() == if r.Got? then old(Contents())[1..] else old(Contents())
    {
      if occupied <= 0 && !closed { return EmptySoWait; }
      if occupied > 0 {
        ghost var before := Contents();
        Next(nextout, qsize);
        r := Got(buf[nextout]);
        nextout := (nextout + 1) % qsize;
        occupied := occupied - 1;
        assert Contents() == before[1..];
      } else {
        return Ended;
      }
    }
  }
}
