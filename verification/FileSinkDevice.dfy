/** The sink as runtime/file_sink.c keeps it: fields changed in place and a circular
    queue of fixed size. Every method is one mutex region and is proved to do to the
    fields exactly what the step functions of module FileSink do to the value they
    stand for, so the results proved there over all runs hold of this code. */
module FileSinkDevice {
  import opened Counters
  import opened FileSink

  datatype Status = Ok | Busy | ExhaustedStatus | BadState

  class SinkCell {
    const ring: array<Queued>
    var head: nat
    var count: nat
    var ioBusy: bool
    var f: Sink   // the plain fields; the queue itself lives in the ring

    ghost predicate Valid()
      reads this
    {
      ring.Length == QUEUE && head < QUEUE && count <= QUEUE && f.queue == []
    }

    /** The queued records, oldest first. */
    ghost function Contents(): (s: seq<Queued>)
      requires Valid()
      reads this, ring
      ensures |s| == count
    {
      seq(count, i requires 0 <= i < count && ring.Length == QUEUE reads this, ring => ring[(head + i) % QUEUE])
    }

    ghost function Abs(): Sink
      requires Valid()
      reads this, ring
    {
      f.(queue := Contents())
    }

    constructor ()
      ensures Valid() && fresh(ring) && Abs() == UNUSED && !ioBusy
    {
      ring := new Queued[QUEUE](_ => Queued(Record(Event, 0, 0, 0, 0, 0, 0), 0));
      head, count, ioBusy, f := 0, 0, false, UNUSED;
    }

    method PutRecord(r: Record)
      requires Valid() && count < QUEUE
      modifies this`count, this`f, ring
      ensures Valid() && Abs() == Put(old(Abs()), r)
    {
      var at := (head + count) % QUEUE;
      ring[at] := Queued(r.(number := f.nextNumber), f.nextTicket);
      count := count + 1;
      f := f.(nextNumber := Bump(f.nextNumber), nextTicket := Bump(f.nextTicket));
      assert Contents() == old(Contents()) + [Queued(r.(number := old(f).nextNumber), old(f).nextTicket)];
    }

    method RememberLoss(r: Record)
      requires Valid()
      modifies this`f
      ensures Valid() && Abs() == Remember(old(Abs()), r)
    {
      var first, last := f.pending.first, f.pending.last;
      if f.pending.count == 0 || (FirstSource(r) > 0 && FirstSource(r) < first) { first := FirstSource(r); }
      if LastSource(r) > last { last := LastSource(r); }
      f := f.(pending := Loss(first, last, Saturate(f.pending.count, 1), f.pending.number, r.generation));
      f := f.(lost := Saturate(f.lost, 1));
      assert Contents() == old(Contents());
    }

    /** The tail of provider_enqueue: room was found, so a pending loss record goes first. */
    method PutWithLoss(r: Record)
      requires Valid() && Admits(Abs())
      modifies this`count, this`f, ring
      ensures Valid() && Abs() == Admit(old(Abs()), r)
    {
      if f.pending.count > 0 {
        f := f.(pending := f.pending.(generation := r.generation));
        assert Contents() == old(Contents());
        PutRecord(LossRecord(f.pending));
        ghost var mid := Contents();
        f := f.(pending := NO_LOSS);
        assert Contents() == mid;
      }
      PutRecord(r);
    }

    method RememberAndFail(r: Record)
      requires Valid()
      modifies this`f
      ensures Valid() && Abs() == Remember(old(Abs()), r).(failure := Some(Exhausted))
    {
      RememberLoss(r);
      f := f.(failure := Some(Exhausted));
      assert Contents() == old(Contents());
    }

    method ProviderEnqueue(r: Record) returns (exhausted: bool)
      requires Valid()
      modifies this`count, this`f, ring
      ensures Valid() && Abs() == Enqueue(old(Abs()), r)
      ensures exhausted <==> f.used && (old(f).nextNumber == 0 || old(f).nextTicket == 0
                                        || (f.failure.Some? && old(f).failure.None?))
    {
      exhausted := false;
      if !f.used { return; }
      f := f.(generation := r.generation);
      assert Contents() == old(Contents());
      exhausted := f.nextNumber == 0 || f.nextTicket == 0;
      if f.state.Failed? || ((f.state.Closed? || f.state.ClosePending?) && f.error.Capacity?) {
        f := f.(lost := Saturate(f.lost, 1));
        assert Contents() == old(Contents());
        return;
      }
      if f.state.Closed? || f.state.ClosePending? { return; }
      var needed := if f.pending.count > 0 then 2 else 1;
      if f.operation.Opening? || f.failure.Some? || QUEUE - count < needed {
        RememberLoss(r);
      } else if f.nextNumber == 0 || U64_MAX < f.nextNumber + needed - 1
             || f.nextTicket == 0 || U64_MAX < f.nextTicket + needed - 1 {
        RememberAndFail(r);
        exhausted := true;
      } else {
        PutWithLoss(r);
      }
    }

    method OperationLocked(close: bool, generation: nat) returns (result: Status)
      requires Valid() && f.used
      modifies this`f
      ensures Valid() && Abs() == Operate(old(Abs()), close, generation)
      ensures result.Ok? && !old(f).state.Closed? && !old(f).state.Failed? <==> f.operation != old(f).operation
      ensures old(f).state.Closed? || old(f).state.Failed? ==> result == if close then Ok else BadState
    {
      if f.state.Closed? || f.state.Failed? { return if close then Ok else BadState; }
      if !f.operation.NoOperation? || f.failure.Some? { return Busy; }
      if f.operationId >= U64_MAX { return ExhaustedStatus; }
      if f.pending.count > 0 && f.nextNumber == 0 {
        f := f.(failure := Some(Exhausted));
        assert Contents() == old(Contents());
        return ExhaustedStatus;
      }
      f := f.(generation := generation, operation := if close then Closing else Flushing,
              barrierTicket := if f.nextTicket > 0 then f.nextTicket - 1 else U64_MAX,
              barrier := f.pending, pending := NO_LOSS);
      if f.barrier.count > 0 {
        f := f.(barrier := f.barrier.(number := f.nextNumber, generation := generation),
                nextNumber := Bump(f.nextNumber));
      }
      f := f.(operationId := f.operationId + 1, state := if close then ClosePending else FlushPending);
      assert Contents() == old(Contents());
      return Ok;
    }

    method PopFront() returns (item: Queued)
      requires Valid() && count > 0
      modifies this`head, this`count
      ensures Valid() && item == old(Contents())[0] && Contents() == old(Contents())[1..]
    {
      item := ring[head];
      head, count := (head + 1) % QUEUE, count - 1;
    }

    /** The part of select_task that looks at one sink. */
    method TakeTask() returns (task: Option<Task>)
      requires Valid()
      modifies this
      ensures Valid()
      ensures task.Some? <==> !old(ioBusy) && Ready(old(Abs()))
      ensures task.Some? ==> ioBusy && Abs() == Select(old(Abs())).0 && task.value == Select(old(Abs())).1
      ensures task.None? ==> Abs() == old(Abs()) && ioBusy == old(ioBusy)
    {
      task := None;
      assert count > 0 ==> ring[head] == Contents()[0];
      if !f.used || ioBusy { return; }
      if f.failure.Some? {
        task := Some(FailureTask(f.failure.value));
      } else if f.operation.Opening? {
        task := Some(OpenTask);
      } else if count > 0 && (f.operation.NoOperation? || ring[head].ticket <= f.barrierTicket) {
        var item := PopFront();
        task := Some(RecordTask(item));
      } else if f.operation.Flushing? || f.operation.Closing? {
        task := Some(BarrierTask(f.operation, f.barrier));
        f := f.(barrier := NO_LOSS);
        assert Contents() == old(Contents());
      }
      ghost var kept := Contents();
      ioBusy := task.Some?;
      assert Contents() == kept;
    }

    method DiscardQueue()
      requires Valid()
      modifies this`f, this`head, this`count
      ensures Valid() && Abs() == Discard(old(Abs()))
    {
      f := f.(lost := Saturate(f.lost, count), pending := NO_LOSS, barrier := NO_LOSS);
      head, count := 0, 0;
    }

    method FailSink(reason: Error, lostRecord: nat)
      requires Valid()
      modifies this
      ensures Valid() && Abs() == Fail(old(Abs()), reason, lostRecord) && !ioBusy
    {
      f := f.(lost := Saturate(f.lost, lostRecord));
      assert Contents() == old(Contents());
      DiscardQueue();
      f := f.(error := reason, state := Failed, completedId := f.operationId,
              operation := NoOperation, failure := None);
      ioBusy := false;
      assert Contents() == [];
    }

    method CapacityBegin()
      requires Valid()
      modifies this`f, this`head, this`count
      ensures Valid() && Abs() == Seal(old(Abs()))
    {
      f := f.(state := ClosePending, error := Capacity, operation := Closing);
      assert Contents() == old(Contents());
      DiscardQueue();
    }

    method CapacityEnd()
      requires Valid()
      modifies this`f, this`ioBusy
      ensures Valid() && Abs() == Sealed(old(Abs())) && !ioBusy
    {
      f := f.(state := Closed, error := Capacity, completedId := f.operationId, operation := NoOperation);
      ioBusy := false;
      assert Contents() == old(Contents());
    }

    /** The writer's publication of a task that worked. */
    method Publish(task: Task)
      requires Valid()
      modifies this`f, this`ioBusy
      ensures Valid() && Abs() == Complete(old(Abs()), task) && !ioBusy
    {
      if task.OpenTask? {
        f := f.(state := Open, completedId := f.operationId, operation := NoOperation);
      } else if task.BarrierTask? {
        f := f.(state := if task.operation.Closing? then Closed else Open,
                completedId := f.operationId, operation := NoOperation);
      }
      ioBusy := false;
      assert Contents() == old(Contents());
    }

    /** The locked part of provider_open. */
    method ProviderOpen(limit: nat, generation: nat) returns (result: Status)
      requires Valid()
      modifies this
      ensures Valid()
      ensures result.Ok? <==> Openable(old(Abs())) && (old(f).used ==> !old(ioBusy))
      ensures result.Ok? ==> Abs() == Reopen(old(Abs()), limit, generation) && !ioBusy
      ensures !result.Ok? ==> Abs() == old(Abs()) && ioBusy == old(ioBusy)
    {
      if f.used && (ioBusy || !(f.state.Closed? || f.state.Failed?)) { return Busy; }
      if f.used && f.operationId >= U64_MAX { return ExhaustedStatus; }
      if f.used && (f.nextNumber == 0 || f.nextTicket == 0) { return ExhaustedStatus; }
      var id := if f.used then f.operationId + 1 else 1;
      f := Sink(true, [], Opening, if f.used then f.nextNumber else 1, if f.used then f.nextTicket else 1, 0,
                generation, NO_LOSS, NO_LOSS, FlushPending, NoError, 0, 0, id, id - 1, None, limit);
      head, count, ioBusy := 0, 0, false;
      assert Contents() == [];
      return Ok;
    }
  }

  // ---- Fair choice among the sinks ------------------------------------------------

  const SINKS: nat := 64

  /** How many sinks the scan passes before it looks at sink i. */
  function Distance(i: nat, from: nat): (d: nat)
    requires i < SINKS && from < SINKS
    ensures d < SINKS && (from + d) % SINKS == i
  {
    if i >= from then i - from else i + SINKS - from
  }

  /** The scan of select_task: the first ready sink from the rotating start. */
  method ScanSinks(ready: seq<bool>, from: nat) returns (found: bool, i: nat)
    requires |ready| == SINKS && from < SINKS
    ensures found <==> exists k :: 0 <= k < SINKS && ready[k]
    ensures found ==> i < SINKS && ready[i] && forall k :: 0 <= k < SINKS && ready[k] ==>
        Distance(i, from) <= Distance(k, from)
  {
    var n := 0;
    while n < SINKS
      invariant n <= SINKS
      invariant forall k :: 0 <= k < SINKS && ready[k] ==> Distance(k, from) >= n
    {
      i := (from + n) % SINKS;
      if ready[i] {
        return true, i;
      }
      forall k | 0 <= k < SINKS && ready[k]
        ensures Distance(k, from) >= n + 1
      {
        assert Distance(k, from) == n ==> k == i;
      }
      n := n + 1;
    }
    return false, 0;
  }

  /** One service of the rotation: `i` was chosen from the start `from`. */
  predicate Chosen(ready: seq<bool>, from: nat, i: nat) {
    && |ready| == SINKS && from < SINKS && i < SINKS && ready[i]
    && forall k :: 0 <= k < SINKS && ready[k] ==> Distance(i, from) <= Distance(k, from)
  }

  /** Bounded waiting: over any sequence of services during which a sink stays ready
      and is not chosen, its distance shrinks each time, so fewer than 64 others are
      served before it. */
  lemma {:induction false} ReadySinkServedSoon(sets: seq<seq<bool>>, starts: seq<nat>, picks: seq<nat>, i: nat)
    requires |sets| == |picks| && |starts| == |picks| + 1 && starts[0] < SINKS && i < SINKS
    requires forall n :: 0 <= n < |picks| ==> Chosen(sets[n], starts[n], picks[n])
    requires forall n :: 0 <= n < |picks| ==> |sets[n]| == SINKS && sets[n][i]
    requires forall n :: 0 <= n < |picks| ==> picks[n] != i && starts[n + 1] == (picks[n] + 1) % SINKS
    ensures |picks| <= Distance(i, starts[0])
    decreases |picks|
  {
    if picks != [] {
      assert Chosen(sets[0], starts[0], picks[0]);
      assert starts[0 + 1] == (picks[0] + 1) % SINKS;
      assert Distance(i, starts[1]) < Distance(i, starts[0]);
      ReadySinkServedSoon(sets[1..], starts[1..], picks[1..], i);
    }
  }
}
