/** A trace ring as the emulator keeps it: a circular array with a head and a count. The ghost
    value `log` holds the account of module TraceRing; the retained records live in the array. */
module TraceRingDevice {
  import opened Counters
  import opened TraceRing

  /** The place `i` after the head. */
  function Slot(head: nat, i: nat, capacity: nat): (at: nat)
    requires head < capacity && i < capacity
    ensures at < capacity
  {
    if head + i < capacity then head + i else head + i - capacity
  }

  /** The head after giving up `i` records. */
  function TwoSlots(head: nat, i: nat, capacity: nat): (at: nat)
    requires head < capacity && i <= 2 <= capacity
    ensures at < capacity
  {
    if i == 0 then head else if i == 1 then Slot(head, 1, capacity) else Slot(Slot(head, 1, capacity), 1, capacity)
  }

  /** It is what the code computes. */
  lemma SlotIsModulo(head: nat, i: nat, capacity: nat)
    requires head < capacity && i < capacity
    ensures (head + i) % capacity == Slot(head, i, capacity)
  {
    Modulo(head + i, capacity, if head + i < capacity then 0 else 1, Slot(head, i, capacity));
  }

  /** A remainder is determined by any quotient that leaves it in range. */
  lemma Modulo(x: nat, n: nat, q: int, r: nat)
    requires r < n && x == q * n + r
    ensures x % n == r
  {
    var d := x / n - q;
    assert x == (x / n) * n + x % n;
    assert d * n == r - x % n;
    assert d >= 1 ==> d * n >= n;
    assert d <= -1 ==> d * n + n <= 0;
  }

  class RingCell {
    var records: array<Record>
    var head: nat
    var count: nat
    var next: nat
    var overwritten: nat
    var dropped: nat
    var stopOnFull: bool
    ghost var log: Ring

    ghost predicate Valid()
      reads this, records
    {
      && 2 <= records.Length && head < records.Length && count <= records.Length
      && log.capacity == records.Length && log.stopOnFull == stopOnFull && log.next == next <= U64_MAX
      && log.overwritten == overwritten && log.dropped == dropped && |log.retained| == count
      && forall i :: 0 <= i < count ==> records[Slot(head, i, records.Length)] == log.retained[i]
    }

    constructor (capacity: nat, stop: bool)
      requires capacity >= 2
      ensures Valid() && log == Fresh(capacity, stop).ring && Inv(log) && fresh(records)
    {
      records := new Record[capacity](_ => EMPTY_LOSS);
      head, count, next, overwritten, dropped, stopOnFull := 0, 0, 1, 0, 0, stop;
      log := Fresh(capacity, stop).ring;
      new;
      FreshOk(capacity, stop);
    }

    /** ring_insert. */
    method Insert(v: Record)
      requires Valid() && count < records.Length
      modifies this`count, this`next, this`log, records
      ensures Valid() && log == Put(old(log), v)
    {
      SlotIsModulo(head, count, records.Length);
      records[(head + count) % records.Length] := v.(number := next);
      count := count + 1;
      next := Bump(next);
      log := Put(log, v);
    }

    /** The loop of ring_store that gives up two records for one loss record. */
    method GiveUpTwo()
      requires Valid() && count == records.Length
      modifies this`head, this`count, this`next, this`overwritten, this`log, records
      ensures Valid() && log == MakeRoom(old(log))
    {
      var loss := EMPTY_LOSS;
      ghost var rs := log.retained;
      for i := 0 to 2
        modifies this`head, this`count, this`overwritten
        invariant head == TwoSlots(old(head), i, records.Length) && count == old(count) - i
        invariant loss == if i == 0 then EMPTY_LOSS else if i == 1 then Cover(EMPTY_LOSS, rs[0])
            else LossOf(rs[0], rs[1])
        invariant overwritten == if i == 0 then old(overwritten) else if i == 1 then Saturate(old(overwritten), 1)
                                 else Saturate(Saturate(old(overwritten), 1), 1)
      {
        assert records[head] == rs[i];
        loss := Cover(loss, records[head]);
        SlotIsModulo(head, 1, records.Length);
        head := (head + 1) % records.Length;
        count := count - 1;
        overwritten := Saturate(overwritten, 1);
      }
      ghost var sum := Weight(rs[0]) + Weight(rs[1]);
      log := log.(retained := rs[2..], overwritten := overwritten, lost := log.lost + loss.count,
          excess := log.excess + Beyond(sum));
      Insert(loss);
    }

    /** ring_store. */
    method Keep(v: Record) returns (kept: bool)
      requires Valid()
      modifies this`head, this`count, this`next, this`overwritten, this`dropped, this`log, records
      ensures Valid() && (log, kept) == Store(old(log), v)
    {
      var needed := if count == records.Length && !stopOnFull then 2 else 1;
      if next == 0 || U64_MAX < next + (needed - 1) { return false; }
      if count == records.Length {
        if stopOnFull {
          dropped := Saturate(dropped, 1);
          log := log.(dropped := dropped);
          return false;
        }
        GiveUpTwo();
      }
      Insert(v);
      log := log.(stored := log.stored + Weight(v));
      kept := true;
    }

    /** The copy loop of emu_trace_replace: the ring moves to an array of another size, straightened
        out, and nothing is dropped. */
    method Move(capacity: nat, stop: bool)
      requires Valid() && capacity >= 2 && capacity >= count
      modifies this
      ensures Valid() && fresh(records) && log == old(log).(capacity := capacity, stopOnFull := stop)
    {
      var bigger := new Record[capacity](_ => EMPTY_LOSS);
      for j := 0 to count
        modifies bigger
        invariant forall i :: 0 <= i < j ==> bigger[i] == log.retained[i]
      {
        SlotIsModulo(head, j, records.Length);
        bigger[j] := records[(head + j) % records.Length];
      }
      records, head, stopOnFull := bigger, 0, stop;
      log := log.(capacity := capacity, stopOnFull := stop);
    }

    /** emu_trace_replace on one ring: the check, the flush of its pending summaries, the copy. */
    method Reconfigure(pending: seq<Record>, capacity: nat, stop: bool) returns (busy: bool)
      requires Valid()
      modifies this, records
      ensures Valid() && busy == (capacity < 2 || capacity < Expected(old(log), |pending|))
      ensures log == Reconfigured(old(log), pending, capacity, stop)
    {
      var expected := count + |pending|;
      if expected > records.Length { expected := records.Length; }
      if capacity < 2 || capacity < expected { return true; }
      ghost var was := log;
      for i := 0 to |pending|
        invariant Valid() && records == old(records) && log == StoreAll(was, pending[..i])
      {
        assert pending[..i + 1][..i] == pending[..i];
        var _ := Keep(pending[i]);
      }
      assert pending[..|pending|] == pending;
      StoreAllFits(was, pending);
      Move(capacity, stop);
      busy := false;
    }

    /** The copy loop of a page. */
    method Copy(offset: nat, required: nat) returns (page: seq<Record>)
      requires Valid() && offset + required <= count
      ensures page == log.retained[offset..offset + required]
    {
      page := [];
      for i := 0 to required
        invariant page == log.retained[offset..offset + i]
      {
        SlotIsModulo(head, offset + i, records.Length);
        page := page + [records[(head + offset + i) % records.Length]];
      }
    }
  }
}
