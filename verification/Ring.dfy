/** The bounded ring of src/queue.c: a ring of `size` slots is a queue of at most size - 1
    entries, one slot telling full from empty. */
module Ring {
  import opened Options

  class TQueue<T(0)> {
    var head: nat
    var tail: nat
    var size: nat
    var slots: array<T>

    ghost predicate Valid()
      reads this
    {
      size > 0 && slots.Length == size && head < size && tail < size
    }

    /** The entries, oldest first. */
    ghost function Contents(): seq<T>
      requires Valid()
      reads this, slots
    {
      if head <= tail then slots[head..tail] else slots[head..] + slots[..tail]
    }

    /** InitQ */
    constructor (n: nat)
      requires n > 0
      ensures Valid() && fresh(slots) && size == n && Contents() == []
    {
      head, tail, size := 0, 0, n;
      slots := new T[n];
    }

    /** AddQ: refuses exactly when size - 1 entries are waiting. */
    method AddQ(item: T) returns (ok: bool)
      requires Valid()
      modifies this`tail, slots
      ensures Valid()
      ensures ok <==> |old(Contents())| < size - 1
      ensures Contents() == if ok then old(Contents()) + [item] else old(Contents())
    {
      ghost var before := Contents();
      Next(tail, size);
      if (tail + 1) % size == head {
        return false;
      }
      slots[tail] := item;
      tail := (tail + 1) % size;
      ok := true;
      assert Contents() == before + [item];
    }

    /** DelQ: the oldest entry, or nothing when empty. */
    method DelQ() returns (item: Option<T>)
      requires Valid()
      modifies this`head
      ensures Valid()
      ensures old(Contents()) == [] ==> item == None && Contents() == []
      ensures old(Contents()) != [] ==> item == Some(old(Contents())[0]) && Contents() == old(Contents())[1..]
    {
      if head == tail { return None; }
      ghost var before := Contents();
      item := Some(slots[head]);
      Next(head, size);
      head := (head + 1) % size;
      assert Contents() == before[1..];
    }

    /** GetHeadQ */
    method GetHeadQ() returns (item: Option<T>)
      requires Valid()
      ensures item == if Contents() == [] then None else Some(Contents()[0])
    {
      if head == tail { return None; }
      item := Some(slots[head]);
    }

    /** IsEmptyQ */
    method IsEmptyQ() returns (empty: bool)
      requires Valid()
      ensures empty <==> Contents() == []
    {
      empty := head == tail;
    }
  }

  /** The index after `i` going round a ring. */
  lemma {:induction false} Next(i: nat, size: nat)
    requires i < size
    ensures (i + 1) % size == if i + 1 == size then 0 else i + 1
  {
    if i + 1 < size { assert (i + 1) % size == i + 1; }
  }
}
