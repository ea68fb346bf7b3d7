// The send queue of src/send_queue.rs: the (neighbor, particle index) pairs
// of particles that leave the domains of this process. The vector's
// capacity is part of the state because `reserve` is about it; the growth
// rule of the standard library's Vec is written out in VecReserve.

module SendQueue {
  import opened Wrappers

  /** One queued particle: the neighbor it goes to and its index. */
  datatype SendQueueTuple = SendQueueTuple(neighbor: nat, particleIndex: nat)

  // ---- queries on the contents ----

  /** The number of tuples going to a neighbor. */
  function CountNeighbor(data: seq<SendQueueTuple>, neighbor: nat): (r: nat)
    ensures r <= |data|
  {
    if data == [] then 0
    else CountNeighbor(data[..|data| - 1], neighbor) + (if data[|data| - 1].neighbor == neighbor then 1 else 0)
  }

  /** The positions of the tuples going to a neighbor. */
  function NeighborPositions(data: seq<SendQueueTuple>, neighbor: nat): set<nat>
  {
    set i: nat | i < |data| && data[i].neighbor == neighbor
  }

  /** The count is the number of positions holding the neighbor. */
  lemma {:induction false} CountNeighborIsPositions(data: seq<SendQueueTuple>, neighbor: nat)
    ensures CountNeighbor(data, neighbor) == |NeighborPositions(data, neighbor)|
  {
    if data != [] {
      var front := data[..|data| - 1];
      CountNeighborIsPositions(front, neighbor);
      var last := |data| - 1;
      if data[last].neighbor == neighbor {
        assert NeighborPositions(data, neighbor) == NeighborPositions(front, neighbor) + {last};
      } else {
        assert NeighborPositions(data, neighbor) == NeighborPositions(front, neighbor);
      }
    }
  }

  /** Counting distributes over concatenation. */
  lemma {:induction false} CountNeighborConcat(a: seq<SendQueueTuple>, b: seq<SendQueueTuple>, neighbor: nat)
    ensures CountNeighbor(a + b, neighbor) == CountNeighbor(a, neighbor) + CountNeighbor(b, neighbor)
  {
    if b != [] {
      assert (a + b)[..|a + b| - 1] == a + b[..|b| - 1];
      CountNeighborConcat(a, b[..|b| - 1], neighbor);
    } else {
      assert a + b == a;
    }
  }

  /** Appending a tuple adds one to the count of its neighbor and leaves
      the count of every other neighbor unchanged. */
  lemma PushCounts(data: seq<SendQueueTuple>, t: SendQueueTuple, neighbor: nat)
    ensures CountNeighbor(data + [t], neighbor) == CountNeighbor(data, neighbor) + (if t.neighbor == neighbor then 1 else 0)
  {
    assert (data + [t])[..|data|] == data;
  }

  /** Vec::get: the tuple at an index, None past the end. */
  function TupleAt(data: seq<SendQueueTuple>, index: nat): Option<SendQueueTuple>
  {
    if index < |data| then Some(data[index]) else None
  }

  /** After a push, the new tuple is found at the old size and the earlier
      tuples are where they were. */
  lemma PushThenGet(data: seq<SendQueueTuple>, neighbor: nat, particleIndex: nat, index: nat)
    ensures TupleAt(data + [SendQueueTuple(neighbor, particleIndex)], index) ==
      if index == |data| then Some(SendQueueTuple(neighbor, particleIndex)) else TupleAt(data, index)
  {
  }

  // ---- capacity ----

  /** Vec::reserve(additional): nothing when the free capacity already
      holds `additional` more elements, otherwise the capacity grows to at
      least len + additional (doubling when that is more). */
  function VecReserve(len: nat, capacity: nat, additional: nat): (r: nat)
    ensures r >= capacity && r >= len + additional
    ensures len + additional <= capacity ==> r == capacity
  {
    if len + additional <= capacity then capacity
    else if 2 * capacity > len + additional then 2 * capacity
    else len + additional
  }

  /** The capacity after `reserve(size)` as written: it asks Vec::reserve
      for size - capacity MORE elements than the current length. */
  function ReserveAsWritten(len: nat, capacity: nat, size: nat): (r: nat)
    requires len <= capacity
    ensures r >= capacity
  {
    if capacity < size then VecReserve(len, capacity, size - capacity) else capacity
  }

  /** As written, a queue whose length plus the requested size fits in twice
      its capacity keeps a capacity below the requested size. */
  lemma ReserveAsWrittenFallsShort(len: nat, capacity: nat, size: nat)
    requires len <= capacity < size && len + size <= 2 * capacity
    ensures ReserveAsWritten(len, capacity, size) == capacity < size
  {
  }

  /** The concrete case: an empty queue of capacity 4 asked for 6. */
  lemma ReserveAsWrittenCounterexample()
    ensures ReserveAsWritten(0, 4, 6) == 4
  {
    ReserveAsWrittenFallsShort(0, 4, 6);
  }

  /** The capacity after `reserve(size)` as intended: at least size, by
      asking Vec::reserve for size - len more elements. */
  function ReserveCapacity(len: nat, capacity: nat, size: nat): (r: nat)
    requires len <= capacity
    ensures r >= size && r >= capacity
    ensures size <= capacity ==> r == capacity
  {
    if capacity < size then VecReserve(len, capacity, size - len) else capacity
  }

  /** SendQueue: the queued tuples and the capacity of their vector. */
  class SendQueue {
    var data: seq<SendQueueTuple>
    var capacity: nat

    ghost predicate Valid()
      reads this
    {
      |data| <= capacity
    }

    /** An empty queue with the given capacity (Vec::with_capacity). */
    constructor (initialCapacity: nat)
      ensures Valid() && data == [] && capacity == initialCapacity
    {
      data := [];
      capacity := initialCapacity;
    }

    /** size: the number of queued tuples. get_tuple finds a tuple exactly
        below it, and every neighbor's count is bounded by it. */
    function Size(): (r: nat)
      reads this
      ensures forall i: nat :: GetTuple(i).Some? <==> i < r
      ensures forall n: nat :: NeighborSize(n) <= r
    {
      |data|
    }

    /** neighbor_size: the number of positions whose tuple goes to the neighbor. */
    function NeighborSize(index: nat): (r: nat)
      reads this
      ensures r == |NeighborPositions(data, index)| && r <= |data|
    {
      CountNeighborIsPositions(data, index);
      CountNeighbor(data, index)
    }

    /** get_tuple: the tuple at the index, None past the end. */
    function GetTuple(index: nat): (r: Option<SendQueueTuple>)
      reads this
      ensures r.Some? <==> index < |data|
      ensures r.Some? ==> r.value == data[index]
    {
      TupleAt(data, index)
    }

    /** reserve: the contents are unchanged and the capacity reaches size. */
    method Reserve(size: nat)
      requires Valid()
      modifies this
      ensures Valid() && data == old(data)
      ensures capacity == ReserveCapacity(|data|, old(capacity), size)
      ensures capacity >= size
    {
      if capacity < size {
        capacity := VecReserve(|data|, capacity, size - |data|);
      }
    }

    /** push: appends the tuple; the size grows by one, the count of its
        neighbor by one, and no other neighbor's count changes. */
    method Push(neighbor: nat, vaultIndex: nat)
      requires Valid()
      modifies this
      ensures Valid() && capacity >= old(capacity)
      ensures data == old(data) + [SendQueueTuple(neighbor, vaultIndex)]
      ensures Size() == old(Size()) + 1
      ensures GetTuple(old(Size())) == Some(SendQueueTuple(neighbor, vaultIndex))
      ensures NeighborSize(neighbor) == old(NeighborSize(neighbor)) + 1
      ensures forall n :: n != neighbor ==> NeighborSize(n) == old(NeighborSize(n))
    {
      if |data| == capacity {
        capacity := VecReserve(|data|, capacity, 1);
      }
      PushCounts(data, SendQueueTuple(neighbor, vaultIndex), neighbor);
      forall n | n != neighbor
        ensures CountNeighbor(data + [SendQueueTuple(neighbor, vaultIndex)], n) == CountNeighbor(data, n)
      {
        PushCounts(data, SendQueueTuple(neighbor, vaultIndex), n);
      }
      data := data + [SendQueueTuple(neighbor, vaultIndex)];
    }

    /** clear: no tuple is left; the capacity stays. */
    method Clear()
      requires Valid()
      modifies this
      ensures Valid() && data == [] && capacity == old(capacity)
      ensures Size() == 0 && forall n :: NeighborSize(n) == 0
    {
      data := [];
    }
  }
}
