/** The asynchronous file sink (runtime/file_sink.c). One producer, one control
    client and one writer thread share a sink under a mutex. A step of this model
    is one mutex region; everything the writer does between two regions is an
    input/output outcome chosen by the environment. */
module FileSink {
  import opened Counters

  const QUEUE: nat := 256

  datatype Option<T> = None | Some(value: T)
  datatype Kind = Event | Summary | LossMark

  /** A trace record: `number` is the record sequence the sink assigns. */
  datatype Record = Record(kind: Kind, number: nat, eventSequence: nat,
                           first: nat, last: nat, count: nat, generation: nat)
  datatype Loss = Loss(first: nat, last: nat, count: nat, number: nat, generation: nat)
  /** A record and the ticket it was queued under; zero for a barrier's own loss record. */
  datatype Queued = Queued(record: Record, ticket: nat)

  datatype Operation = NoOperation | Opening | Flushing | Closing
  datatype Lifecycle = Open | FlushPending | ClosePending | Closed | Failed
  datatype Error = NoError | Capacity | Io | Exhausted

  /** The mutex-protected part of one sink. */
  datatype Sink = Sink(
    used: bool, queue: seq<Queued>, operation: Operation,
    nextNumber: nat, nextTicket: nat, barrierTicket: nat, generation: nat,
    pending: Loss, barrier: Loss, state: Lifecycle, error: Error, lost: nat, records: nat,
    operationId: nat, completedId: nat, failure: Option<Error>, maxRecords: nat)

  const NO_LOSS := Loss(0, 0, 0, 0, 0)

  const UNUSED := Sink(false, [], NoOperation, 0, 0, 0, 0, NO_LOSS, NO_LOSS,
                       Closed, NoError, 0, 0, 0, 0, None, 0)

  /** What the writer thread is doing for this sink. `Overfull` is the instant
      between counting an unwritable record lost and closing for capacity;
      `Sealing` is the final footer of a capacity close. */
  datatype Task = OpenTask | RecordTask(item: Queued) | BarrierTask(operation: Operation, loss: Loss)
                | FailureTask(error: Error)
  datatype Phase = Idle | Running(task: Task) | Wrote(task: Task) | Overfull | Sealing

  // ---- The producer's side ------------------------------------------------

  function FirstSource(r: Record): nat { if r.kind.Event? then r.eventSequence else r.first }

  function LastSource(r: Record): nat { if r.kind.Event? then r.eventSequence else r.last }

  function LossRecord(l: Loss): Record {
    Record(LossMark, l.number, 0, l.first, l.last, l.count, l.generation)
  }

  function Remember(s: Sink, r: Record): Sink {
    var p := s.pending;
    s.(pending := Loss(if p.count == 0 || (FirstSource(r) > 0 && FirstSource(r) < p.first) then FirstSource(r)
        else p.first,
                       if LastSource(r) > p.last then LastSource(r) else p.last,
                       Saturate(p.count, 1), p.number, r.generation),
       lost := Saturate(s.lost, 1))
  }

  predicate Room(s: Sink, n: nat) {
    s.nextNumber != 0 && s.nextNumber + n <= U64_MAX + 1 && s.nextTicket != 0 && s.nextTicket + n <= U64_MAX + 1
  }

  function Put(s: Sink, r: Record): Sink {
    s.(queue := s.queue + [Queued(r.(number := s.nextNumber), s.nextTicket)],
       nextNumber := Bump(s.nextNumber), nextTicket := Bump(s.nextTicket))
  }

  /** A sink that failed or ran out of capacity still counts what it is offered. */
  predicate CountsLost(s: Sink) {
    s.state.Failed? || ((s.state.Closed? || s.state.ClosePending?) && s.error.Capacity?)
  }

  /** Records offered to a sink that is closed, or closing on request, are outside its account. */
  predicate Accounting(s: Sink) {
    s.used && (CountsLost(s) || !(s.state.Closed? || s.state.ClosePending?))
  }

  function Needed(s: Sink): nat { if s.pending.count > 0 then 2 else 1 }

  predicate Admits(s: Sink) {
    && Accounting(s) && !CountsLost(s) && !s.operation.Opening?
    && s.failure.None? && |s.queue| + Needed(s) <= QUEUE && Room(s, Needed(s))
  }

  function Admit(s: Sink, r: Record): Sink {
    var flushed := if s.pending.count > 0
                   then Put(s, LossRecord(s.pending.(generation := r.generation))).(pending := NO_LOSS)
                   else s;
    Put(flushed, r)
  }

  function Enqueue(s0: Sink, r: Record): Sink {
    if !s0.used then s0 else
    var s := s0.(generation := r.generation);
    if CountsLost(s) then s.(lost := Saturate(s.lost, 1))
    else if !Accounting(s) then s
    else if Admits(s) then Admit(s, r)
    else if s.operation.Opening? || s.failure.Some? || |s.queue| + Needed(s) > QUEUE then Remember(s, r)
    else Remember(s, r).(failure := Some(Exhausted))
  }

  // ---- The control client's side -------------------------------------------

  predicate Acceptable(s: Sink) {
    && s.used && !s.state.Closed? && !s.state.Failed? && s.operation.NoOperation?
    && s.failure.None? && s.operationId < U64_MAX
  }

  function Operate(s: Sink, close: bool, generation: nat): Sink {
    if !Acceptable(s) then s
    else if s.pending.count > 0 && s.nextNumber == 0 then s.(failure := Some(Exhausted))
    else
      var snapshot := if s.pending.count > 0
                      then s.pending.(number := s.nextNumber, generation := generation) else s.pending;
      s.(generation := generation,
         operation := if close then Closing else Flushing,
         barrierTicket := if s.nextTicket > 0 then s.nextTicket - 1 else U64_MAX,
         barrier := snapshot, pending := NO_LOSS,
         nextNumber := if s.pending.count > 0 then Bump(s.nextNumber) else s.nextNumber,
         operationId := s.operationId + 1,
         state := if close then ClosePending else FlushPending)
  }

  /** Opening, or reopening after a close or failure: identities go on from where they were. */
  predicate Openable(s: Sink) {
    s.used ==> (s.state.Closed? || s.state.Failed?) && s.operationId < U64_MAX && s.nextNumber > 0 && s.nextTicket > 0
  }

  function Reopen(s: Sink, maxRecords: nat, generation: nat): Sink {
    var id := if s.used then s.operationId + 1 else 1;
    Sink(true, [], Opening, if s.used then s.nextNumber else 1, if s.used then s.nextTicket else 1, 0,
         generation, NO_LOSS, NO_LOSS, FlushPending, NoError, 0, 0, id, id - 1, None, maxRecords)
  }

  // ---- The writer's side -----------------------------------------------------

  function Select(s: Sink): (Sink, Task)
    requires Ready(s)
  {
    if s.failure.Some? then (s, FailureTask(s.failure.value))
    else if s.operation.Opening? then (s, OpenTask)
    else if RecordReady(s) then (s.(queue := s.queue[1..]), RecordTask(s.queue[0]))
    else (s.(barrier := NO_LOSS), BarrierTask(s.operation, s.barrier))
  }

  predicate RecordReady(s: Sink) {
    s.queue != [] && (s.operation.NoOperation? || s.queue[0].ticket <= s.barrierTicket)
  }

  predicate Ready(s: Sink) {
    s.used && (s.failure.Some? || !s.operation.NoOperation? || s.queue != [])
  }

  function Discard(s: Sink): Sink {
    s.(lost := Saturate(s.lost, |s.queue|), queue := [], pending := NO_LOSS, barrier := NO_LOSS)
  }

  function Fail(s: Sink, error: Error, inFlight: nat): Sink {
    Discard(s.(lost := Saturate(s.lost, inFlight)))
      .(error := error, state := Failed, completedId := s.operationId, operation := NoOperation, failure := None)
  }

  function Seal(s: Sink): Sink {
    Discard(s.(state := ClosePending, error := Capacity, operation := Closing))
  }

  function Sealed(s: Sink): Sink {
    s.(state := Closed, error := Capacity, completedId := s.operationId, operation := NoOperation)
  }

  /** Publication of a finished task; a record task publishes nothing. */
  function Complete(s: Sink, t: Task): Sink {
    match t
    case OpenTask => s.(state := Open, completedId := s.operationId, operation := NoOperation)
    case BarrierTask(op, _) =>
      s.(state := if op.Closing? then Closed else Open, completedId := s.operationId, operation := NoOperation)
    case _ => s
  }

  // ---- Runs: the sink, its writer and their history ---------------------------

  /** `written` holds every record the sink ever wrote, over all its open lifetimes;
      the current lifetime starts at `base`. `stream` holds, in order, every record that
      received a number in this lifetime, and `mark` its length just after the last
      flush or close request, when `ahead` records were queued that have not been taken
      since. `offered`, `generated` and `gone` count this lifetime's user records, loss
      records handed to the queue or the writer, and lost records. */
  datatype World = World(s: Sink, phase: Phase, written: seq<Queued>, base: nat, stream: seq<Queued>,
                         mark: nat, ahead: nat, offered: nat, generated: nat, gone: nat)

  datatype Step =
    | OpenSink(maxRecords: nat, generation: nat)
    | Offer(record: Record)
    | Request(close: bool, generation: nat)
    | Doom                      // close_all or destroy meeting an exhausted operation counter
    | PickTask
    | Succeed                   // the writer's current input/output step works
    | Break                     // it fails
    | NoSegment                 // the record does not fit and no further segment is allowed

  const START := World(UNUSED, Idle, [], 0, [], 0, 0, 0, 0, 0)

  function Mark(l: Loss): seq<Queued> { if l.count > 0 then [Queued(LossRecord(l), 0)] else [] }

  /** The record a task is about to write, if any. */
  function Carried(t: Task): seq<Queued> {
    match t
    case RecordTask(q) => [q]
    case BarrierTask(_, l) => Mark(l)
    case _ => []
  }

  function InFlight(p: Phase): seq<Queued> { if p.Running? then Carried(p.task) else [] }

  function FailWorld(w: World, error: Error, lostInFlight: nat): World {
    w.(s := Fail(w.s, error, lostInFlight), phase := Idle, ahead := 0, gone := w.gone + lostInFlight + |w.s.queue|)
  }

  function SealWorld(w: World): World {
    w.(s := Seal(w.s), phase := Sealing, ahead := 0, gone := w.gone + |w.s.queue|)
  }

  /** What admission adds: the pending loss record, if any, then the offered record. */
  function Additions(s: Sink, r: Record): seq<Queued> {
    if s.pending.count > 0
    then [Queued(LossRecord(s.pending.(generation := r.generation)).(number := s.nextNumber), s.nextTicket),
          Queued(r.(number := s.nextNumber + 1), s.nextTicket + 1)]
    else [Queued(r.(number := s.nextNumber), s.nextTicket)]
  }

  function OfferWorld(w: World, r: Record): World {
    if Admits(w.s) then
      w.(s := Enqueue(w.s, r), stream := w.stream + Additions(w.s, r),
         offered := w.offered + 1, generated := w.generated + Needed(w.s) - 1)
    else if Accounting(w.s) then
      w.(s := Enqueue(w.s, r), offered := w.offered + 1, gone := w.gone + 1)
    else w.(s := Enqueue(w.s, r))
  }

  function RequestWorld(w: World, close: bool, generation: nat): World {
    var s := Operate(w.s, close, generation);
    if s.operation == w.s.operation then w.(s := s)
    else w.(s := s, stream := w.stream + Mark(s.barrier), mark := |w.stream + Mark(s.barrier)|, ahead := |s.queue|)
  }

  function PickWorld(w: World): World {
    if !w.phase.Idle? || !Ready(w.s) then w
    else
      var (s, t) := Select(w.s);
      w.(s := s, phase := Running(t),
         ahead := if t.RecordTask? && w.ahead > 0 then w.ahead - 1 else w.ahead,
         generated := w.generated + (if t.BarrierTask? then |Carried(t)| else 0))
  }

  function WriteWorld(w: World, t: Task): World {
    if Carried(t) == [] then w.(s := Complete(w.s, t), phase := Idle)
    else w.(s := w.s.(records := w.s.records + 1), phase := Wrote(t), written := w.written + Carried(t))
  }

  function SucceedWorld(w: World): World {
    match w.phase
    case Idle => w
    case Running(FailureTask(e)) => FailWorld(w, e, 0)
    case Running(t) => WriteWorld(w, t)
    case Wrote(t) =>
      if w.s.records >= w.s.maxRecords then SealWorld(w) else w.(s := Complete(w.s, t), phase := Idle)
    case Overfull => SealWorld(w)
    case Sealing => w.(s := Sealed(w.s), phase := Idle)
  }

  function BreakWorld(w: World): World {
    match w.phase
    case Running(FailureTask(e)) => FailWorld(w, e, 0)
    case Running(t) => FailWorld(w, Io, |Carried(t)|)
    case Wrote(BarrierTask(_, _)) => if w.s.records >= w.s.maxRecords then w else FailWorld(w, Io, 0)
    case Sealing => FailWorld(w, Io, 0)
    case _ => w
  }

  function NoSegmentWorld(w: World): World {
    if w.phase.Running? && Carried(w.phase.task) != []
    then w.(s := w.s.(lost := Saturate(w.s.lost, 1)), phase := Overfull, gone := w.gone + 1)
    else w
  }

  function OpenWorld(w: World, limit: nat, generation: nat): World {
    if w.phase.Idle? && Openable(w.s) && 1 <= limit <= U64_MAX
    then World(Reopen(w.s, limit, generation), Idle, w.written, |w.written|, [], 0, 0, 0, 0, 0) else w
  }

  function DoomWorld(w: World): World {
    if w.s.used && w.s.operation.NoOperation? && !w.s.state.Closed? && !w.s.state.Failed?
    then w.(s := w.s.(failure := Some(Exhausted))) else w
  }

  /** One mutex region. A step the state does not allow changes nothing. */
  function Next(w: World, step: Step): World {
    match step
    case OpenSink(limit, generation) => OpenWorld(w, limit, generation)
    case Offer(r) => OfferWorld(w, r)
    case Request(close, generation) => RequestWorld(w, close, generation)
    case Doom => DoomWorld(w)
    case PickTask => PickWorld(w)
    case Succeed => SucceedWorld(w)
    case Break => BreakWorld(w)
    case NoSegment => NoSegmentWorld(w)
  }

  function Run(w: World, steps: seq<Step>): World
    decreases |steps|
  {
    if steps == [] then w else Next(Run(w, steps[..|steps| - 1]), steps[|steps| - 1])
  }

  // ---- The invariant -----------------------------------------------------------

  predicate Barriered(s: Sink) { s.operation.Flushing? || s.operation.Closing? }

  predicate Tickets(s: Sink) {
    && |s.queue| <= QUEUE && s.nextNumber <= U64_MAX && s.nextTicket <= U64_MAX
    && (s.nextTicket == 0 || s.barrierTicket < s.nextTicket)
    && (forall i :: 0 <= i < |s.queue| ==> Issued(s.queue[i].ticket, s.nextTicket))
  }

  /** The queue splits at `ahead`: what the pending request waits for, and what came later. */
  predicate Split(w: World) {
    && w.ahead <= |w.s.queue|
    && (forall i :: 0 <= i < w.ahead ==> w.s.queue[i].ticket <= w.s.barrierTicket)
    && (Barriered(w.s) ==> forall i :: w.ahead <= i < |w.s.queue| ==> w.s.queue[i].ticket > w.s.barrierTicket)
    && (!Barriered(w.s) ==> w.ahead == 0)
    && (w.s.state.ClosePending? ==> w.ahead == |w.s.queue|)
  }

  /** How the fields fit together. */
  predicate Coherent(s: Sink) {
    && (!s.used ==> s == UNUSED)
    && (!Barriered(s) ==> s.barrier.count == 0)
    && (s.operation.Opening? ==> s.queue == [] && s.failure.None?)
    && (s.state.FlushPending? <==> s.operation.Flushing? || s.operation.Opening?)
    && (s.state.ClosePending? <==> s.operation.Closing?)
    && (s.state.Closed? || s.state.Failed? ==> s.queue == [])
    && (s.error.Capacity? ==> s.state.ClosePending? || s.state.Closed?)
    && (s.state.Failed? <==> s.error.Io? || s.error.Exhausted?)
    && (s.failure.Some? ==> s.failure.value == Exhausted)
  }

  /** How the writer's phase fits the fields. */
  predicate PhaseFits(w: World) {
    && (!w.s.used ==> w.phase.Idle? && w.written == [])
    && (w.s.state.Closed? || w.s.state.Failed? ==> w.phase.Idle? || (w.phase.Running? && w.phase.task.FailureTask?))
    && (w.phase.Sealing? <==> w.s.error.Capacity? && w.s.state.ClosePending?)
    && (w.phase.Sealing? ==> w.s.queue == [] && w.s.barrier.count == 0)
    && (w.phase.Overfull? || w.phase.Wrote? ==> !w.s.operation.Opening?)
    && (w.phase.Wrote? ==> w.phase.task.RecordTask? || w.phase.task.BarrierTask?)
    && (w.phase.Wrote? && w.phase.task.BarrierTask? ==> PassedBarrier(w, w.phase.task.operation))
    && (w.phase.Running? ==> TaskFits(w, w.phase.task))
  }

  predicate TaskFits(w: World, t: Task) {
    match t
    case OpenTask => w.s.operation.Opening?
    case BarrierTask(op, _) => PassedBarrier(w, op)
    case FailureTask(e) => w.s.failure == Some(e)
    case RecordTask(_) => !w.s.operation.Opening?
  }

  predicate PassedBarrier(w: World, op: Operation) {
    w.s.operation == op && Barriered(w.s) && w.ahead == 0 && w.s.barrier.count == 0
  }

  predicate Shape(w: World) { Tickets(w.s) && Split(w) && Coherent(w.s) && PhaseFits(w) }

  /** Everything numbered and still to be written, in the order it will be written:
      what the pending request waits for, then what was admitted later. */
  function Ahead(w: World): seq<Queued>
    requires w.ahead <= |w.s.queue|
  {
    InFlight(w.phase) + w.s.queue[..w.ahead] + Mark(w.s.barrier)
  }

  function Outstanding(w: World): seq<Queued>
    requires w.ahead <= |w.s.queue|
  {
    Ahead(w) + w.s.queue[w.ahead..]
  }

  predicate Increasing(xs: seq<Queued>) {
    forall i, j :: 0 <= i < j < |xs| ==> xs[i].record.number < xs[j].record.number
  }

  predicate AllIssued(xs: seq<Queued>, next: nat) {
    forall i :: 0 <= i < |xs| ==> Issued(xs[i].record.number, next)
  }

  predicate Ordered(w: World)
    requires w.ahead <= |w.s.queue|
  {
    Increasing(w.written + Outstanding(w)) && AllIssued(w.written + Outstanding(w), w.s.nextNumber)
  }

  /** No failure and no capacity limit has cut this lifetime short. */
  predicate Intact(w: World) { w.s.error.NoError? && !w.phase.Overfull? }

  predicate Faithful(w: World)
    requires w.ahead <= |w.s.queue|
  {
    && w.base <= |w.written|
    && (Intact(w) ==> w.stream == w.written[w.base..] + Outstanding(w))
    && (Intact(w) && Barriered(w.s) ==>
          w.mark <= |w.stream| && w.stream[..w.mark] == w.written[w.base..] + Ahead(w))
  }

  predicate Conserved(w: World) {
    && w.base <= |w.written|
    && w.offered + w.generated == |w.written| - w.base + |w.s.queue| + |InFlight(w.phase)| + w.gone
    && w.s.lost == Saturate(w.gone, 0)
    && w.s.records == |w.written| - w.base <= w.s.maxRecords <= U64_MAX
    && (w.s.used && w.s.error.NoError? && !w.phase.Wrote? ==> w.s.records < w.s.maxRecords)
  }

  predicate Inv(w: World) { Shape(w) && Ordered(w) && Faithful(w) && Conserved(w) }

  // ---- Every step keeps the invariant --------------------------------------------

  /** A step that only moves records along leaves order and history as they were. */
  lemma SameOutstanding(w: World, v: World)
    requires w.ahead <= |w.s.queue| && v.ahead <= |v.s.queue| && Ordered(w) && Faithful(w)
    requires v.written == w.written && v.base == w.base && v.stream == w.stream && v.mark == w.mark
    requires v.s.nextNumber == w.s.nextNumber && Outstanding(v) == Outstanding(w)
    requires Intact(v) ==> Intact(w)
    requires Intact(v) && Barriered(v.s) ==> Barriered(w.s) && Ahead(v) == Ahead(w)
    ensures Ordered(v) && Faithful(v)
  {
  }

  lemma PickKeepsShape(w: World)
    requires Shape(w)
    ensures Shape(PickWorld(w))
  {
  }

  lemma PickMovesFront(w: World)
    requires Split(w) && Coherent(w.s)
    ensures PickWorld(w).ahead <= |PickWorld(w).s.queue|
    ensures Ahead(PickWorld(w)) == Ahead(w) || !Barriered(w.s)
    ensures Outstanding(PickWorld(w)) == Outstanding(w)
  {
    if w.phase.Idle? && Ready(w.s) {
      var v := PickWorld(w);
      if v.phase.task.RecordTask? && Barriered(w.s) {
        assert w.s.queue[..w.ahead] == [w.s.queue[0]] + v.s.queue[..v.ahead];
      }
    }
  }

  lemma PickKeepsHistory(w: World)
    requires Split(w) && Coherent(w.s) && Ordered(w) && Faithful(w)
    ensures PickWorld(w).ahead <= |PickWorld(w).s.queue|
    ensures Ordered(PickWorld(w)) && Faithful(PickWorld(w))
  {
    PickMovesFront(w);
    SameOutstanding(w, PickWorld(w));
  }

  lemma PickKeepsInv(w: World)
    requires Inv(w)
    ensures Inv(PickWorld(w))
  {
    PickKeepsShape(w);
    PickMovesFront(w);
    PickKeepsHistory(w);
  }

  lemma {:induction false} IncreasingAppend(xs: seq<Queued>, more: seq<Queued>, next: nat)
    requires Increasing(xs) && AllIssued(xs, next) && Increasing(more)
    requires more != [] ==> next != 0 && more[0].record.number >= next
    ensures Increasing(xs + more)
  {
    forall i, j | 0 <= i < j < |xs + more|
      ensures (xs + more)[i].record.number < (xs + more)[j].record.number
    {
      if i < |xs| <= j {
        assert Issued(xs[i].record.number, next);
        assert more[0].record.number <= more[j - |xs|].record.number;
      }
    }
  }

  /** A step that numbers `more` keeps the written order. */
  lemma NumberedAppend(w: World, v: World, more: seq<Queued>)
    requires w.ahead <= |w.s.queue| && v.ahead <= |v.s.queue| && Ordered(w)
    requires v.written == w.written && Outstanding(v) == Outstanding(w) + more
    requires more != [] ==> w.s.nextNumber != 0 && more[0].record.number >= w.s.nextNumber
    requires Increasing(more) && AllIssued(more, v.s.nextNumber)
    requires v.s.nextNumber == 0 || (w.s.nextNumber != 0 && v.s.nextNumber >= w.s.nextNumber)
    ensures Ordered(v)
  {
    var all := w.written + Outstanding(w);
    assert v.written + Outstanding(v) == all + more;
    IncreasingAppend(all, more, w.s.nextNumber);
    forall i | 0 <= i < |all + more|
      ensures Issued((all + more)[i].record.number, v.s.nextNumber)
    {
      if i < |all| { assert Issued(all[i].record.number, w.s.nextNumber); }
    }
  }

  lemma RequestKeepsShape(w: World, close: bool, generation: nat)
    requires Shape(w)
    ensures Shape(RequestWorld(w, close, generation))
  {
  }

  /** A request only appends its loss snapshot; everything numbered so far is ahead of it. */
  lemma RequestMarks(w: World, close: bool, generation: nat)
    requires w.ahead <= |w.s.queue| && (w.s.operation.NoOperation? ==> w.ahead == 0 && w.s.barrier.count == 0)
    ensures var v := RequestWorld(w, close, generation);
            if v.s.operation != w.s.operation
            then Outstanding(v) == Outstanding(w) + Mark(v.s.barrier) == Ahead(v)
                 && (v.s.barrier.count > 0 ==> v.s.barrier.number == w.s.nextNumber > 0)
            else v == w.(s := v.s) && Ahead(v) == Ahead(w) && Outstanding(v) == Outstanding(w)
  {
    var q := w.s.queue;
    assert q[|q|..] == [] && q[..0] == [] && q[0..] == q == q[..|q|];
  }

  lemma RequestKeepsInv(w: World, close: bool, generation: nat)
    requires Inv(w)
    ensures Inv(RequestWorld(w, close, generation))
  {
    var v := RequestWorld(w, close, generation);
    RequestKeepsShape(w, close, generation);
    RequestMarks(w, close, generation);
    if v.s.operation != w.s.operation {
      NumberedAppend(w, v, Mark(v.s.barrier));
      assert v.stream[..v.mark] == v.stream;
      assert w.written[w.base..] + (Outstanding(w) + Mark(v.s.barrier))
          == (w.written[w.base..] + Outstanding(w)) + Mark(v.s.barrier);
    } else {
      SameOutstanding(w, v);
    }
  }

  lemma AdmitAppends(s: Sink, r: Record)
    requires Admits(s) && Tickets(s)
    ensures var t := Enqueue(s, r);
            && t.queue == s.queue + Additions(s, r)
            && (t.nextNumber == 0 || t.nextNumber == s.nextNumber + Needed(s))
            && (t.nextTicket == 0 || t.nextTicket == s.nextTicket + Needed(s))
            && t == s.(queue := t.queue, nextNumber := t.nextNumber, nextTicket := t.nextTicket,
                       pending := t.pending, generation := t.generation)
            && AllIssued(Additions(s, r), t.nextNumber) && Increasing(Additions(s, r)) && Tickets(t)
  {
  }

  lemma OfferKeepsFields(s: Sink, r: Record)
    requires Tickets(s) && Coherent(s)
    ensures var t := Enqueue(s, r);
            && Tickets(t) && Coherent(t) && s.queue <= t.queue
            && t == s.(queue := t.queue, nextNumber := t.nextNumber, nextTicket := t.nextTicket, pending := t.pending,
                       generation := t.generation, lost := t.lost, failure := t.failure)
            && (s.failure.Some? ==> t.failure == s.failure)
  {
    if Admits(s) { AdmitAppends(s, r); }
  }

  lemma OfferKeepsShape(w: World, r: Record)
    requires Shape(w)
    ensures Shape(OfferWorld(w, r))
  {
    OfferKeepsFields(w.s, r);
    if Admits(w.s) { AdmitAppends(w.s, r); }
  }

  lemma OfferOutstanding(w: World, r: Record)
    requires Shape(w) && Admits(w.s)
    ensures w.ahead <= |OfferWorld(w, r).s.queue|
    ensures Ahead(OfferWorld(w, r)) == Ahead(w)
    ensures Outstanding(OfferWorld(w, r)) == Outstanding(w) + Additions(w.s, r)
  {
    AdmitAppends(w.s, r);
    var q := w.s.queue;
    var more := Additions(w.s, r);
    assert (q + more)[..w.ahead] == q[..w.ahead];
    assert (q + more)[w.ahead..] == q[w.ahead..] + more;
  }

  lemma OfferKeepsHistory(w: World, r: Record)
    requires Shape(w) && Ordered(w) && Faithful(w) && Admits(w.s)
    ensures w.ahead <= |OfferWorld(w, r).s.queue|
    ensures Ordered(OfferWorld(w, r)) && Faithful(OfferWorld(w, r))
  {
    var v := OfferWorld(w, r);
    AdmitAppends(w.s, r);
    OfferOutstanding(w, r);
    NumberedAppend(w, v, Additions(w.s, r));
    assert w.written[w.base..] + (Outstanding(w) + Additions(w.s, r))
        == (w.written[w.base..] + Outstanding(w)) + Additions(w.s, r);
    if Intact(w) && Barriered(w.s) { assert v.stream[..v.mark] == w.stream[..w.mark]; }
  }

  lemma RefusalKeepsHistory(w: World, r: Record)
    requires Shape(w) && Ordered(w) && Faithful(w) && !Admits(w.s)
    ensures Ordered(OfferWorld(w, r)) && Faithful(OfferWorld(w, r))
  {
    SameOutstanding(w, OfferWorld(w, r));
  }

  lemma OfferKeepsCount(w: World, r: Record)
    requires Tickets(w.s) && Conserved(w)
    ensures Conserved(OfferWorld(w, r))
  {
    if Admits(w.s) { AdmitAppends(w.s, r); }
  }

  lemma OfferKeepsInv(w: World, r: Record)
    requires Inv(w)
    ensures Inv(OfferWorld(w, r))
  {
    OfferKeepsShape(w, r);
    OfferKeepsCount(w, r);
    if Admits(w.s) { OfferKeepsHistory(w, r); } else { RefusalKeepsHistory(w, r); }
  }

  /** Dropping everything outstanding keeps what was written in order. */
  lemma DropKeepsOrder(w: World, v: World)
    requires w.ahead <= |w.s.queue| && v.ahead <= |v.s.queue| && Ordered(w)
    requires v.written == w.written && v.s.nextNumber == w.s.nextNumber && Outstanding(v) == []
    ensures Ordered(v)
  {
    var all := w.written + Outstanding(w);
    forall i | 0 <= i < |w.written|
      ensures all[i] == w.written[i]
    {
    }
    assert v.written + Outstanding(v) == w.written;
  }

  lemma FailKeepsInv(w: World, error: Error, lost: nat)
    requires Inv(w) && w.s.used && lost == |InFlight(w.phase)| && (error.Io? || error.Exhausted?)
    ensures Inv(FailWorld(w, error, lost))
  {
    DropKeepsOrder(w, FailWorld(w, error, lost));
  }

  lemma SealKeepsInv(w: World)
    requires Inv(w) && (w.phase.Overfull? || w.phase.Wrote?)
    ensures Inv(SealWorld(w))
  {
    DropKeepsOrder(w, SealWorld(w));
  }

  lemma CompleteKeepsInv(w: World, t: Task)
    requires Inv(w) && (w.phase == Wrote(t) || (w.phase == Running(t) && Carried(t) == [] && !t.FailureTask?))
    requires w.phase.Wrote? ==> w.s.records < w.s.maxRecords
    ensures Inv(w.(s := Complete(w.s, t), phase := Idle))
  {
    var v := w.(s := Complete(w.s, t), phase := Idle);
    assert Ahead(v) == Ahead(w) && Outstanding(v) == Outstanding(w);
    SameOutstanding(w, v);
  }

  lemma WriteKeepsHistory(w: World, t: Task)
    requires w.ahead <= |w.s.queue| && Ordered(w) && Faithful(w) && w.phase == Running(t) && Carried(t) != []
    ensures Ordered(WriteWorld(w, t)) && Faithful(WriteWorld(w, t))
  {
    var v := WriteWorld(w, t);
    assert Ahead(w) == Carried(t) + Ahead(v);
    assert Outstanding(w) == Carried(t) + Outstanding(v);
    assert v.written + Outstanding(v) == w.written + Outstanding(w);
    assert v.written[v.base..] == w.written[w.base..] + Carried(t);
    assert v.written[v.base..] + Outstanding(v) == w.written[w.base..] + Outstanding(w);
    assert v.written[v.base..] + Ahead(v) == w.written[w.base..] + Ahead(w);
  }

  lemma WriteKeepsInv(w: World, t: Task)
    requires Inv(w) && w.phase == Running(t) && Carried(t) != []
    ensures Inv(WriteWorld(w, t))
  {
    WriteKeepsHistory(w, t);
  }

  lemma SucceedKeepsInv(w: World)
    requires Inv(w)
    ensures Inv(SucceedWorld(w))
  {
    match w.phase
    case Idle =>
    case Overfull => SealKeepsInv(w);
    case Sealing => DropKeepsOrder(w, SucceedWorld(w));
    case Wrote(t) => if w.s.records >= w.s.maxRecords { SealKeepsInv(w); } else { CompleteKeepsInv(w, t); }
    case Running(t) =>
      if t.FailureTask? { FailKeepsInv(w, t.error, 0); }
      else if Carried(t) == [] { CompleteKeepsInv(w, t); }
      else { WriteKeepsInv(w, t); }
  }

  lemma BreakKeepsInv(w: World)
    requires Inv(w)
    ensures Inv(BreakWorld(w))
  {
    match w.phase
    case Running(t) =>
      if t.FailureTask? { FailKeepsInv(w, t.error, 0); } else { FailKeepsInv(w, Io, |Carried(t)|); }
    case Wrote(t) => if t.BarrierTask? && w.s.records < w.s.maxRecords { FailKeepsInv(w, Io, 0); }
    case Sealing => FailKeepsInv(w, Io, 0);
    case _ =>
  }

  lemma NoSegmentKeepsInv(w: World)
    requires Inv(w)
    ensures Inv(NoSegmentWorld(w))
  {
    if w.phase.Running? && Carried(w.phase.task) != [] {
      var v := NoSegmentWorld(w);
      var all := w.written + Outstanding(w);
      var rest := v.written + Outstanding(v);
      assert Outstanding(w) == Carried(w.phase.task) + Outstanding(v);
      forall i | 0 <= i < |rest|
        ensures rest[i] == all[if i < |w.written| then i else i + |Carried(w.phase.task)|]
      {
      }
    }
  }

  lemma OpenKeepsInv(w: World, limit: nat, generation: nat)
    requires Inv(w)
    ensures Inv(OpenWorld(w, limit, generation))
  {
    var v := OpenWorld(w, limit, generation);
    if v != w {
      if w.s.used { DropKeepsOrder(w, v); } else { assert v.written + Outstanding(v) == []; }
    }
  }

  lemma DoomKeepsInv(w: World)
    requires Inv(w)
    ensures Inv(DoomWorld(w))
  {
    var v := DoomWorld(w);
    assert Ahead(v) == Ahead(w) && Outstanding(v) == Outstanding(w);
    SameOutstanding(w, v);
  }

  lemma NextKeepsInv(w: World, step: Step)
    requires Inv(w)
    ensures Inv(Next(w, step))
  {
    match step
    case OpenSink(limit, generation) => OpenKeepsInv(w, limit, generation);
    case Offer(r) => OfferKeepsInv(w, r);
    case Request(close, generation) => RequestKeepsInv(w, close, generation);
    case Doom => DoomKeepsInv(w);
    case PickTask => PickKeepsInv(w);
    case Succeed => SucceedKeepsInv(w);
    case Break => BreakKeepsInv(w);
    case NoSegment => NoSegmentKeepsInv(w);
  }

  lemma {:induction false} RunKeepsInv(w: World, steps: seq<Step>)
    requires Inv(w)
    ensures Inv(Run(w, steps))
    decreases |steps|
  {
    if steps != [] {
      RunKeepsInv(w, steps[..|steps| - 1]);
      NextKeepsInv(Run(w, steps[..|steps| - 1]), steps[|steps| - 1]);
    }
  }

  // ---- Results about every run ------------------------------------------------------

  lemma FrontIncreases(xs: seq<Queued>, ys: seq<Queued>)
    requires Increasing(xs + ys)
    ensures Increasing(xs)
  {
    forall i, j | 0 <= i < j < |xs|
      ensures xs[i].record.number < xs[j].record.number
    {
      assert (xs + ys)[i] == xs[i] && (xs + ys)[j] == xs[j];
    }
  }

  /** Record numbers are strictly increasing over everything a sink ever writes,
      across flushes, failures, capacity closes and reopens. */
  lemma WrittenNumbersIncrease(steps: seq<Step>)
    ensures Increasing(Run(START, steps).written)
  {
    RunKeepsInv(START, steps);
    FrontIncreases(Run(START, steps).written, Outstanding(Run(START, steps)));
  }

  /** Conservation: in every reachable state each user record offered to an accounting
      sink and each loss record made for it is written, queued, in flight or lost, once;
      the published counters are exactly these numbers, the loss saturating. */
  lemma AccountBalances(steps: seq<Step>)
    ensures var w := Run(START, steps);
            && w.base <= |w.written|
            && w.offered + w.generated == (|w.written| - w.base) + |w.s.queue| + |InFlight(w.phase)| + w.gone
            && w.s.records == |w.written| - w.base
            && w.s.lost == Saturate(w.gone, 0)
  {
    RunKeepsInv(START, steps);
  }

  /** While nothing failed, the file is a prefix of the numbered stream: nothing is
      dropped, repeated or reordered, and what is missing is exactly what is outstanding. */
  lemma FileIsPrefix(steps: seq<Step>)
    ensures var w := Run(START, steps);
            w.ahead <= |w.s.queue| && w.base <= |w.written|
            && (Intact(w) ==> w.written[w.base..] + Outstanding(w) == w.stream)
  {
    RunKeepsInv(START, steps);
  }

  lemma OfferKeepsId(s: Sink, r: Record)
    ensures Enqueue(s, r).operationId == s.operationId && Enqueue(s, r).used == s.used
  {
  }

  /** The operation identity changes exactly with a new request or a reopen, and
      otherwise history is only extended. */
  lemma IdsGrow(w: World, step: Step)
    requires Coherent(w.s)
    ensures var v := Next(w, step);
            && v.s.operationId >= w.s.operationId
            && (v.s.operationId == w.s.operationId && w.s.used ==>
                  v.base == w.base && w.stream <= v.stream && w.written <= v.written && v.s.used
                  && (Barriered(w.s) ==> v.mark == w.mark))
  {
    match step
    case Offer(r) => OfferKeepsId(w.s, r);
    case OpenSink(_, _) =>
    case Request(_, _) =>
    case PickTask =>
    case Succeed =>
    case Break =>
    case _ =>
  }

  lemma {:induction false} RunIdsGrow(w: World, steps: seq<Step>)
    requires Inv(w)
    ensures Run(w, steps).s.operationId >= w.s.operationId
    decreases |steps|
  {
    if steps != [] {
      var before := steps[..|steps| - 1];
      RunIdsGrow(w, before);
      RunKeepsInv(w, before);
      IdsGrow(Run(w, before), steps[|steps| - 1]);
    }
  }

  /** An accepted flush or close request. */
  predicate Accepted(w: World, close: bool, generation: nat) {
    Operate(w.s, close, generation).operation != w.s.operation
  }

  /** From acceptance on, the request is pending, served, or its sink is done for. */
  predicate Tracks(v: World, w: World) {
    && w.s.used && w.base == v.base && w.base <= |w.written|
    && (|| (Barriered(w.s) && w.mark == |v.stream| && v.stream <= w.stream)
        || v.stream <= w.written[w.base..]
        || !w.s.error.NoError?)
  }

  /** When a request stops being pending without an error, all it waited for is written. */
  lemma CompletionServes(w: World, step: Step)
    requires Shape(w) && Faithful(w) && Barriered(w.s)
    requires !Barriered(Next(w, step).s) && Next(w, step).s.error.NoError?
    requires Next(w, step).s.operationId == w.s.operationId
    ensures w.mark <= |w.stream| && w.stream[..w.mark] == w.written[w.base..] && Next(w, step).written == w.written
  {
    assert step.Succeed? && (w.phase.Running? || w.phase.Wrote?) && w.phase.task.BarrierTask?;
    assert Ahead(w) == [];
  }

  lemma StepTracks(v: World, w: World, step: Step)
    requires Shape(w) && Faithful(w) && Tracks(v, w) && Next(w, step).s.operationId == w.s.operationId
    ensures Tracks(v, Next(w, step))
  {
    var u := Next(w, step);
    IdsGrow(w, step);
    if u.s.error.NoError? {
      if Barriered(w.s) && !Barriered(u.s) && w.mark == |v.stream| && v.stream <= w.stream {
        CompletionServes(w, step);
      } else if v.stream <= w.written[w.base..] {
        assert w.written[w.base..] <= u.written[u.base..];
      }
    }
  }

  lemma {:induction false} RunTracks(v: World, steps: seq<Step>)
    requires Inv(v) && Tracks(v, v) && Run(v, steps).s.operationId == v.s.operationId
    ensures Tracks(v, Run(v, steps)) && Inv(Run(v, steps))
    decreases |steps|
  {
    RunKeepsInv(v, steps);
    if steps != [] {
      var before := steps[..|steps| - 1];
      RunKeepsInv(v, before);
      RunIdsGrow(v, before);
      IdsGrow(Run(v, before), steps[|steps| - 1]);
      RunTracks(v, before);
      StepTracks(v, Run(v, before), steps[|steps| - 1]);
    }
  }

  /** The flush guarantee as a client sees it. After an accepted flush, whatever producer,
      client and writer do next, a status that shows the sink open with that operation
      still the latest means that every record numbered before the request, and the
      request's own loss snapshot, is in the file; they are its first records, in order. */
  lemma FlushReachesFile(prior: seq<Step>, generation: nat, later: seq<Step>)
    requires var w := Run(START, prior);
             && Accepted(w, false, generation)
             && var v := Next(w, Request(false, generation));
                Run(v, later).s.operationId == v.s.operationId && Run(v, later).s.state.Open?
    ensures var w := Run(START, prior);
            var v := Next(w, Request(false, generation));
            var u := Run(v, later);
            && v.stream == w.stream + Mark(v.s.barrier)
            && (w.s.pending.count > 0 ==> v.s.barrier.count == w.s.pending.count)
            && u.base == v.base <= |u.written| && v.stream <= u.written[u.base..]
  {
    RunKeepsInv(START, prior);
    FlushServed(Run(START, prior), generation, later);
  }

  lemma FlushServed(w: World, generation: nat, later: seq<Step>)
    requires Inv(w) && Accepted(w, false, generation)
    requires var v := Next(w, Request(false, generation));
             Run(v, later).s.operationId == v.s.operationId && Run(v, later).s.state.Open?
    ensures var v := Next(w, Request(false, generation));
            var u := Run(v, later);
            && v.stream == w.stream + Mark(v.s.barrier)
            && (w.s.pending.count > 0 ==> v.s.barrier.count == w.s.pending.count)
            && u.base == v.base <= |u.written| && v.stream <= u.written[u.base..]
  {
    NextKeepsInv(w, Request(false, generation));
    RunTracks(Next(w, Request(false, generation)), later);
  }

  /** Tasks the writer must still start before a pending request completes. */
  function Due(w: World): nat { w.ahead + (if AtBarrier(w.phase) then 0 else 1) }

  predicate AtBarrier(p: Phase) { (p.Running? || p.Wrote?) && p.task.BarrierTask? }

  /** The step makes the writer take a record or the barrier itself. */
  predicate Takes(w: World, step: Step) {
    step.PickTask? && w.phase.Idle? && Ready(w.s) && w.s.failure.None?
  }

  function Taken(w: World, steps: seq<Step>): nat
    decreases |steps|
  {
    if steps == [] then 0
    else
      var before := steps[..|steps| - 1];
      Taken(w, before) + (if Takes(Run(w, before), steps[|steps| - 1]) then 1 else 0)
  }

  lemma StepDue(w: World, step: Step)
    requires Shape(w) && Waiting(w, w.s.operationId) && Waiting(Next(w, step), w.s.operationId)
    ensures Due(Next(w, step)) + (if Takes(w, step) then 1 else 0) == Due(w)
  {
    if step.Offer? && Admits(w.s) { AdmitAppends(w.s, step.record); }
  }

  /** Records admitted after a request never delay it: as long as the request is pending,
      the tasks taken plus the tasks still due are the records queued at the request plus
      one, however many records are offered meanwhile. */
  lemma {:induction false} LaterRecordsNeverDelay(w: World, close: bool, generation: nat, later: seq<Step>)
    requires Inv(w) && Accepted(w, close, generation)
    requires var v := Next(w, Request(close, generation));
             forall k :: 0 <= k <= |later| ==>
               Waiting(Run(v, later[..k]), v.s.operationId)
    ensures var v := Next(w, Request(close, generation));
            Taken(v, later) + Due(Run(v, later)) == |w.s.queue| + 1
    decreases |later|
  {
    var v := Next(w, Request(close, generation));
    NextKeepsInv(w, Request(close, generation));
    assert later[..|later|] == later;
    if later != [] {
      var before := later[..|later| - 1];
      forall k | 0 <= k <= |before|
        ensures Waiting(Run(v, before[..k]), v.s.operationId)
      {
        assert before[..k] == later[..k];
      }
      LaterRecordsNeverDelay(w, close, generation, before);
      RunKeepsInv(v, before);
      assert Waiting(Run(v, later[..|later|]), v.s.operationId);
      assert Waiting(Run(v, before[..|before|]), v.s.operationId) && before[..|before|] == before;
      StepDue(Run(v, before), later[|later| - 1]);
    }
  }

  /** The request with this identity is pending and no capacity limit has overtaken it. */
  predicate Waiting(w: World, id: nat) {
    Barriered(w.s) && w.s.operationId == id && !w.phase.Sealing? && !w.phase.Overfull?
  }

  /** A sink with work for the writer keeps having it until the writer takes a task. */
  lemma ReadyPersists(w: World, step: Step)
    requires Shape(w) && w.phase.Idle? && Ready(w.s) && !step.PickTask?
    ensures Next(w, step).phase.Idle? && Ready(Next(w, step).s)
  {
    if step.Offer? && Admits(w.s) { AdmitAppends(w.s, step.record); }
  }
}
