/** The eight-slot event ring of the AOO adapter: a queue that forgets its oldest entry when full. */
module EventRing {
  import opened Bytes

  const CAPACITY := 8

  /** The queue the ring stands for. */
  function Enqueue<T>(q: seq<T>, e: T): (r: seq<T>)
    requires |q| <= CAPACITY
    ensures |r| <= CAPACITY
  {
    if |q| == CAPACITY then q[1..] + [e] else q + [e]
  }

  function EnqueueAll<T>(q: seq<T>, es: seq<T>): (r: seq<T>)
    requires |q| <= CAPACITY
    ensures |r| <= CAPACITY
  {
    if es == [] then q else Enqueue(EnqueueAll(q, es[..|es| - 1]), es[|es| - 1])
  }

  /** The last eight of everything that went in. */
  function Latest<T>(es: seq<T>): seq<T> {
    if |es| <= CAPACITY then es else es[|es| - CAPACITY..]
  }

  lemma LatestGrows<T>(es: seq<T>, e: T)
    ensures Latest(es + [e]) == Enqueue(Latest(es), e)
  {
    if |es| < CAPACITY {
    } else if |es| == CAPACITY {
      assert (es + [e])[1..] == es[1..] + [e];
    } else {
      var k := |es| - CAPACITY;
      assert (es + [e])[k + 1..] == es[k..][1..] + [e];
    }
  }

  lemma ShortIsLatest<T>(q: seq<T>)
    requires |q| <= CAPACITY
    ensures Latest(q) == q
  {
  }

  /** Between two polls the queue is exactly the latest eight events, in order. */
  lemma {:induction false} KeepsTheLatest<T>(q: seq<T>, es: seq<T>)
    requires |q| <= CAPACITY
    ensures EnqueueAll(q, es) == Latest(q + es)
  {
    hide Enqueue, Latest;
    if es == [] {
      assert q + es == q;
      ShortIsLatest(q);
    } else {
      var n := |es| - 1;
      KeepsTheLatest(q, es[..n]);
      assert q + es == (q + es[..n]) + [es[n]];
      LatestGrows(q + es[..n], es[n]);
    }
  }

  /** Where entry `i` of the queue sits when the oldest entry sits at `read`. */
  function Index(read: nat, i: nat): (k: nat)
    requires i < CAPACITY && read < CAPACITY
    ensures k < CAPACITY
  {
    if read + i < CAPACITY then read + i else read + i - CAPACITY
  }

  class Ring<T> {
    const slots: array<Option<T>>
    var read: nat
    var write: nat
    var count: nat

    ghost predicate Valid()
      reads this, slots
    {
      && slots.Length == CAPACITY && read < CAPACITY && count <= CAPACITY
      && write == (if read + count < CAPACITY then read + count else read + count - CAPACITY)
      && forall i :: 0 <= i < count ==> slots[Index(read, i)].Some?
    }

    ghost function Contents(): (q: seq<T>)
      requires Valid()
      reads this, slots
      ensures |q| == count
    {
      seq(count, i requires 0 <= i < count && Valid() reads this, slots => slots[Index(read, i)].value)
    }

    constructor ()
      ensures Valid() && Contents() == [] && fresh(slots)
    {
      slots := new Option<T>[CAPACITY](_ => None);
      read, write, count := 0, 0, 0;
    }

    method Push(e: T)
      requires Valid()
      modifies this, slots
      ensures Valid() && Contents() == Enqueue(old(Contents()), e)
    {
      if count == CAPACITY {
        DropOldest();
      }
      Append(e);
    }

    method DropOldest()
      requires Valid() && count == CAPACITY
      modifies this`read, this`count
      ensures Valid() && count == CAPACITY - 1 && Contents() == old(Contents())[1..]
    {
      read := (read + 1) % CAPACITY;
      count := count - 1;
      assert forall i :: 0 <= i < count ==> Index(read, i) == Index(old(read), i + 1);
    }

    method Append(e: T)
      requires Valid() && count < CAPACITY
      modifies this`write, this`count, slots
      ensures Valid() && Contents() == old(Contents()) + [e]
    {
      slots[write] := Some(e);
      write := (write + 1) % CAPACITY;
      count := count + 1;
      assert forall i :: 0 <= i < count - 1 ==> slots[Index(read, i)] == old(slots[Index(read, i)]);
    }

    method Pop() returns (e: Option<T>)
      requires Valid()
      modifies this, slots
      ensures Valid()
      ensures old(Contents()) == [] ==> e == None && Contents() == []
      ensures old(Contents()) != [] ==> e == Some(old(Contents())[0]) && Contents() == old(Contents())[1..]
    {
      if count == 0 {
        return None;
      }
      e := slots[read];
      slots[read] := None;
      read := (read + 1) % CAPACITY;
      count := count - 1;
      assert forall i :: 0 <= i < count ==> Index(read, i) == Index(old(read), i + 1);
    }
  }
}
