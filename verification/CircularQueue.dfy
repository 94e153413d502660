/** The bounded circular queue both I/O drivers are built on: an array, a head and a count. */
module CircularQueue {
  import opened Common
  import DivMod

  class Queue<T(0)> {
    const slots: array<T>
    var head: nat
    var count: nat

    ghost predicate Valid()
      reads this
    {
      slots.Length > 0 && head < slots.Length && count <= slots.Length
    }

    /** The queued elements, oldest first. */
    ghost function Contents(): (s: seq<T>)
      requires Valid()
      reads this, slots
      ensures |s| == count
    {
      Queued(slots[..], head, count)
    }

    constructor (capacity: nat)
      requires capacity > 0
      ensures Valid() && Contents() == [] && slots.Length == capacity && fresh(slots)
    {
      slots := new T[capacity];
      head, count := 0, 0;
    }

    /** Appends unless the queue is full. */
    method Push(x: T) returns (ok: bool)
      requires Valid()
      modifies this`count, slots
      ensures Valid() && ok == (old(count) < slots.Length)
      ensures Contents() == if ok then old(Contents()) + [x] else old(Contents())
    {
      ok := count < slots.Length;
      if ok {
        QueuedPush(slots[..], head, count, x);
        hide Slot, Queued;
        slots[Slot(head, count, slots.Length)] := x;
        count := count + 1;
      }
    }

    /** Removes the oldest element, if any. */
    method Pop() returns (x: Option<T>)
      requires Valid()
      modifies this`head, this`count
      ensures Valid()
      ensures old(count) == 0 ==> x.None? && Contents() == old(Contents())
      ensures old(count) > 0 ==> x == Some(old(Contents())[0]) && Contents() == old(Contents())[1..]
    {
      if count == 0 { return None; }
      QueuedPop(slots[..], head, count);
      hide Queued;
      x := Some(slots[head]);
      head, count := Slot(head, 1, slots.Length), count - 1;
    }

    /** The oldest element. */
    function Front(): (x: T)
      requires Valid() && count > 0
      reads this, slots
      ensures x == Contents()[0]
    {
      QueuedPop(slots[..], head, count);
      slots[head]
    }

    /** Overwrites the oldest element in place. */
    method ReplaceFront(x: T)
      requires Valid() && count > 0
      modifies slots
      ensures Valid() && Contents() == [x] + old(Contents())[1..]
    {
      QueuedFront(slots[..], head, count, x);
      hide Queued;
      slots[head] := x;
    }

    method Clear()
      requires Valid()
      modifies this`head, this`count
      ensures Valid() && Contents() == []
    {
      head, count := 0, 0;
    }
  }

  /** `count` elements from `head` on, wrapping at the end of the array. */
  ghost function Queued<T>(cells: seq<T>, head: nat, count: nat): (s: seq<T>)
    requires |cells| > 0
    ensures |s| == count
  {
    seq(count, i requires 0 <= i < count => cells[Slot(head, i, |cells|)])
  }

  lemma QueuedPush<T>(cells: seq<T>, head: nat, count: nat, x: T)
    requires head < |cells| && count < |cells|
    ensures Queued(cells[Slot(head, count, |cells|) := x], head, count + 1) == Queued(cells, head, count) + [x]
  {
    forall i | 0 <= i < count ensures Slot(head, i, |cells|) != Slot(head, count, |cells|) {
      SlotsDiffer(head, i, count, |cells|);
    }
  }

  lemma QueuedPop<T>(cells: seq<T>, head: nat, count: nat)
    requires head < |cells| && 0 < count <= |cells|
    ensures Queued(cells, head, count)[0] == cells[head]
    ensures Queued(cells, Slot(head, 1, |cells|), count - 1) == Queued(cells, head, count)[1..]
  {
    SlotZero(head, |cells|);
    forall i | 0 <= i < count - 1 ensures Slot(Slot(head, 1, |cells|), i, |cells|) == Slot(head, i + 1, |cells|) {
      SlotShift(head, i, |cells|);
    }
    hide Slot;
  }

  lemma QueuedFront<T>(cells: seq<T>, head: nat, count: nat, x: T)
    requires head < |cells| && 0 < count <= |cells|
    ensures Queued(cells[head := x], head, count) == [x] + Queued(cells, head, count)[1..]
  {
    SlotZero(head, |cells|);
    forall i | 0 < i < count ensures Slot(head, i, |cells|) != head {
      SlotsDiffer(head, 0, i, |cells|);
    }
  }

  /** The array slot of the `i`-th element. */
  function Slot(head: nat, i: nat, capacity: nat): (slot: nat)
    requires capacity > 0
    ensures slot < capacity
  {
    (head + i) % capacity
  }

  lemma SlotZero(head: nat, capacity: nat)
    requires head < capacity
    ensures Slot(head, 0, capacity) == head
  {
    DivMod.Unique(head, 0, head, capacity);
  }

  lemma SlotsDiffer(head: nat, i: nat, j: nat, capacity: nat)
    requires i < j < capacity
    ensures Slot(head, i, capacity) != Slot(head, j, capacity)
  {
    DivMod.Distinct(head + i, head + j, capacity);
  }

  lemma SlotShift(head: nat, i: nat, capacity: nat)
    requires capacity > 0
    ensures Slot(Slot(head, 1, capacity), i, capacity) == Slot(head, i + 1, capacity)
  {
    var q, r := (head + 1) / capacity, (head + 1) % capacity;
    assert head + 1 + i == (r + i) + q * capacity;
    DivMod.AddMultiple(r + i, q, capacity);
  }
}
