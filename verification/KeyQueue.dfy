/** The keyboard's ring buffer, src/driver/kerboard.c. */
module KeyQueue {
  import opened Wrappers
  import opened TaskSpec

  /** The slot of the i-th queued key. */
  function Slot(head: nat, i: nat): nat { (head + i) % KEY_BUFFER }

  class Ring {
    const buffer: array<Key>
    var head: nat
    var tail: nat
    var size: nat

    ghost predicate Valid()
      reads this
    {
      buffer.Length == KEY_BUFFER && head < KEY_BUFFER && tail == (head + size) % KEY_BUFFER && size <= KEY_BUFFER
    }

    /** The queued keys, oldest first. */
    ghost function Contents(): (s: seq<Key>)
      requires Valid()
      reads this, buffer
      ensures |s| == size
    {
      seq(size, i requires 0 <= i < size reads this, buffer requires Valid() => buffer[Slot(head, i)])
    }

    constructor ()
      ensures Valid() && fresh(buffer) && Contents() == []
    {
      buffer := new Key[KEY_BUFFER](_ => Key(false, 0));
      head, tail, size := 0, 0, 0;
    }

    /** enqueue: a full buffer refuses the key. */
    method Enqueue(key: Key) returns (r: int)
      requires Valid()
      modifies this, buffer
      ensures Valid() && r == if old(size) == KEY_BUFFER then -1 else 0
      ensures Contents() == if r == 0 then old(Contents()) + [key] else old(Contents())
    {
      if size == KEY_BUFFER {
        return -1;
      }
      ghost var was := Contents();
      Slots(head, size);
      buffer[tail] := key;
      size := size + 1;
      tail := (tail + 1) % KEY_BUFFER;
      r := 0;
      assert forall i :: 0 <= i < size - 1 ==> Contents()[i] == was[i];
    }

    /** dequeue: the oldest key, if any. */
    method Dequeue() returns (key: Option<Key>)
      requires Valid()
      modifies this
      ensures Valid() && (key.None? <==> old(Contents()) == [])
      ensures key.None? ==> Contents() == []
      ensures key.Some? ==> old(Contents()) == [key.value] + Contents()
    {
      if size == 0 {
        return None;
      }
      ghost var was := Contents();
      key := Some(buffer[head]);
      size := size - 1;
      ghost var h := head;
      head := (head + 1) % KEY_BUFFER;
      NextSlot(h, size);
      assert forall i :: 0 <= i < size ==> Slot(head, i) == Slot(h, i + 1) by {
        forall i | 0 <= i < size ensures Slot(head, i) == Slot(h, i + 1) { Shift(h, i); }
      }
      hide Slot;
      assert Contents() == was[1..];
    }
  }

  /** Different places below the size are different slots, and none of them is the free one. */
  lemma Slots(head: nat, size: nat)
    requires head < KEY_BUFFER && size < KEY_BUFFER
    ensures forall i :: 0 <= i < size ==> Slot(head, i) != Slot(head, size)
    ensures ((head + size) % KEY_BUFFER + 1) % KEY_BUFFER == (head + size + 1) % KEY_BUFFER
  {
  }

  /** Where the tail stays when the head advances. */
  lemma NextSlot(head: nat, size: nat)
    requires head < KEY_BUFFER
    ensures ((head + 1) % KEY_BUFFER + size) % KEY_BUFFER == (head + (size + 1)) % KEY_BUFFER
  {
  }

  lemma Shift(head: nat, i: nat)
    requires head < KEY_BUFFER
    ensures Slot((head + 1) % KEY_BUFFER, i) == Slot(head, i + 1)
  {
  }
}
