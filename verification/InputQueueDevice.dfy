/** The input queue as emu_session.c keeps it: an array shifted in place. */
module InputQueueDevice {
  import opened InputQueue

  class Queue {
    var slots: array<Input>
    var queued: nat

    ghost predicate Valid()
      reads this
    {
      slots.Length == QUEUE && queued <= QUEUE
    }

    ghost function Contents(): seq<Input>
      requires Valid()
      reads this, slots
    {
      slots[..queued]
    }

    constructor ()
      ensures Valid() && Contents() == [] && fresh(slots)
    {
      slots := new Input[QUEUE](_ => Input(false, 0, 0, 0));
      queued := 0;
    }

    /** The loop of insert: later inputs move up by one until the place of the new one is found. */
    method OpenPlace(x: Input) returns (i: nat)
      requires Valid() && queued < QUEUE
      modifies this`queued, slots
      ensures Valid() && slots == old(slots) && i < queued == old(queued) + 1
      ensures i == 0 || Before(old(slots[..])[i - 1], x)
      ensures forall k :: i <= k < old(queued) ==> !Before(old(slots[..])[k], x)
      ensures forall k :: 0 <= k < i ==> slots[k] == old(slots[k])
      ensures forall k :: i < k < queued ==> slots[k] == old(slots[..])[k - 1]
    {
      i := queued;
      queued := queued + 1;
      while i > 0 && !Before(slots[i - 1], x)
        invariant i < queued == old(queued) + 1 && Valid()
        invariant forall k :: 0 <= k < i ==> slots[k] == old(slots[k])
        invariant forall k :: i < k < queued ==> slots[k] == old(slots[..])[k - 1]
        invariant forall k :: i <= k < old(queued) ==> !Before(old(slots[..])[k], x)
      {
        slots[i] := slots[i - 1];
        i := i - 1;
      }
    }

    /** insert. */
    method Add(x: Input)
      requires Valid() && queued < QUEUE
      modifies this`queued, slots
      ensures Valid() && slots == old(slots) && Contents() == Insert(old(Contents()), x)
    {
      ghost var q := Contents();
      var i := OpenPlace(x);
      slots[i] := x;
      InsertPlace(q, x, i);
    }

    /** memmove: everything above `at` moves down by one. */
    method Remove(at: nat)
      requires Valid() && at < queued
      modifies this`queued, slots
      ensures Valid() && slots == old(slots) && Contents() == Without(old(Contents()), at)
    {
      ghost var q := Contents();
      for i := at to queued - 1
        invariant Valid() && queued == |q|
        invariant forall k :: 0 <= k < i ==> slots[k] == Without(q, at)[k]
        invariant forall k :: i <= k < queued ==> slots[k] == q[k]
      {
        slots[i] := slots[i + 1];
      }
      queued := queued - 1;
    }

    /** The inner loop of reset_session: the input admitted first. */
    method FindOldest() returns (at: nat)
      requires Valid() && queued > 0
      ensures at == Oldest(Contents(), queued)
    {
      at := 0;
      for i := 1 to queued
        invariant at == Oldest(Contents(), i)
      {
        if slots[i].order < slots[at].order { at := i; }
      }
    }

    /** The cancellation loop of reset_session. */
    method CancelAll() returns (cancelled: seq<Input>)
      requires Valid()
      modifies this`queued, slots
      ensures Valid() && queued == 0 && cancelled == Cancelled(old(Contents()))
    {
      cancelled := [];
      while queued > 0
        invariant Valid() && slots == old(slots)
        invariant cancelled + Cancelled(Contents()) == Cancelled(old(Contents()))
      {
        var at := FindOldest();
        CancelStep(cancelled, Contents());
        cancelled := cancelled + [slots[at]];
        Remove(at);
      }
    }
  }
}
