/** The session's queue of timed inputs (emu_session.c) and the processor's own checks on what it
    is handed (emu_cpu_facade.c). Inputs are admitted for a later machine cycle, by clients and
    by board callbacks running in the middle of anything, and are delivered when the boundary of
    that cycle is drained. */
module InputQueue {
  import opened Counters

  const QUEUE: nat := 1024

  datatype Input = Input(board: bool, cycle: nat, order: nat, body: nat)

  /** Earlier in the queue: by cycle, then by admission. */
  predicate Before(a: Input, b: Input) { a.cycle < b.cycle || (a.cycle == b.cycle && a.order < b.order) }

  ghost predicate Sorted(q: seq<Input>) { forall i, j :: 0 <= i < j < |q| ==> Before(q[i], q[j]) }

  /** Insertion from the back, as the shifting loop of insert does it. */
  function Insert(q: seq<Input>, x: Input): seq<Input>
    decreases |q|
  {
    if q == [] || Before(q[|q| - 1], x) then q + [x]
    else Insert(q[..|q| - 1], x) + [q[|q| - 1]]
  }

  lemma {:induction false} InsertKeeps(q: seq<Input>, x: Input)
    requires Sorted(q) && forall i :: 0 <= i < |q| ==> q[i].order != x.order
    ensures Sorted(Insert(q, x)) && multiset(Insert(q, x)) == multiset(q) + multiset{x} && |Insert(q, x)| == |q| + 1
    ensures forall i :: 0 <= i < |Insert(q, x)| ==> Insert(q, x)[i] in q || Insert(q, x)[i] == x
    decreases |q|
  {
    if q == [] || Before(q[|q| - 1], x) {
    } else {
      var front, last := q[..|q| - 1], q[|q| - 1];
      assert q == front + [last];
      InsertKeeps(front, x);
      var r := Insert(front, x);
      forall i | 0 <= i < |r|
        ensures Before(r[i], last)
      {
        assert r[i] in front || r[i] == x;
      }
    }
  }

  /** The place of the new input: after everything before it, under everything it has to shift. */
  lemma {:induction false} InsertPlace(q: seq<Input>, x: Input, i: nat)
    requires i <= |q| && (i == 0 || Before(q[i - 1], x)) && forall k :: i <= k < |q| ==> !Before(q[k], x)
    ensures Insert(q, x) == q[..i] + [x] + q[i..]
    decreases |q|
  {
    if i == |q| {
      assert q[..i] == q && q + [x] + q[i..] == q + [x];
    } else {
      var front := q[..|q| - 1];
      InsertPlace(front, x, i);
      assert front[..i] == q[..i] && front[i..] + [q[|q| - 1]] == q[i..];
    }
  }

  /** The queued input admitted first. */
  function Oldest(q: seq<Input>, n: nat): (at: nat)
    requires 0 < n <= |q|
    ensures at < n && forall i :: 0 <= i < n ==> q[at].order <= q[i].order
  {
    if n == 1 then 0
    else if q[n - 1].order < q[Oldest(q, n - 1)].order then n - 1 else Oldest(q, n - 1)
  }

  function Without(q: seq<Input>, at: nat): (r: seq<Input>)
    requires at < |q|
    ensures |r| == |q| - 1
  {
    q[..at] + q[at + 1..]
  }

  /** The order in which a reset cancels what is queued. */
  function Cancelled(q: seq<Input>): seq<Input>
    decreases |q|
  {
    if q == [] then [] else [q[Oldest(q, |q|)]] + Cancelled(Without(q, Oldest(q, |q|)))
  }

  lemma Regroup(a: seq<Input>, b: seq<Input>, c: seq<Input>)
    ensures a + b + c == a + (b + c)
  {
  }

  lemma CancelStep(done: seq<Input>, q: seq<Input>)
    requires q != []
    ensures (done + [q[Oldest(q, |q|)]]) + Cancelled(Without(q, Oldest(q, |q|))) == done + Cancelled(q)
  {
    var at := Oldest(q, |q|);
    Regroup(done, [q[at]], Cancelled(Without(q, at)));
  }

  ghost predicate Distinct(q: seq<Input>) { forall i, j :: 0 <= i < j < |q| ==> q[i].order != q[j].order }

  ghost predicate InOrder(q: seq<Input>) { forall i, j :: 0 <= i < j < |q| ==> q[i].order < q[j].order }

  lemma WithoutParts(q: seq<Input>, at: nat)
    requires at < |q|
    ensures multiset(Without(q, at)) + multiset{q[at]} == multiset(q)
    ensures Distinct(q) ==> Distinct(Without(q, at)) && forall i :: 0 <= i < |q| - 1 ==>
        Without(q, at)[i].order != q[at].order
  {
    assert q == q[..at] + [q[at]] + q[at + 1..];
  }

  /** What is left after removing the oldest was admitted later. */
  lemma OthersLater(q: seq<Input>, at: nat, tail: seq<Input>)
    requires at < |q| && Distinct(q) && (forall i :: 0 <= i < |q| ==> q[at].order <= q[i].order)
    requires multiset(tail) == multiset(Without(q, at))
    ensures forall i :: 0 <= i < |tail| ==> q[at].order < tail[i].order
  {
    var rest := Without(q, at);
    forall i | 0 <= i < |tail|
      ensures q[at].order < tail[i].order
    {
      assert tail[i] in multiset(tail);
      assert tail[i] in rest;
      var k :| 0 <= k < |rest| && rest[k] == tail[i];
      assert rest[k] == q[if k < at then k else k + 1];
    }
  }

  lemma InOrderCons(x: Input, tail: seq<Input>)
    requires InOrder(tail) && forall i :: 0 <= i < |tail| ==> x.order < tail[i].order
    ensures InOrder([x] + tail)
  {
  }

  /** A reset cancels everything queued, each input once, in the order of admission. */
  lemma {:induction false} CancelledInOrder(q: seq<Input>)
    requires Distinct(q)
    ensures InOrder(Cancelled(q)) && multiset(Cancelled(q)) == multiset(q)
    decreases |q|
  {
    if q != [] {
      var at := Oldest(q, |q|);
      WithoutParts(q, at);
      CancelledInOrder(Without(q, at));
      OthersLater(q, at, Cancelled(Without(q, at)));
      InOrderCons(q[at], Cancelled(Without(q, at)));
    }
  }

  // ---- The processor's side ---------------------------------------------------------------------

  datatype Cpu = Cpu(cycle: nat, floor: nat, seen: bool, lastCycle: nat, lastOrder: nat, maxOrder: nat)

  datatype Fault = NoFault | Stale | WrongCycle | Exhausted | Other

  /** The order and cycle checks of apply_input. */
  function CpuVerdict(cpu: Cpu, x: Input): Fault {
    if x.order == 0 then Other
    else if x.order <= cpu.floor || (cpu.seen && x.cycle == cpu.lastCycle && x.order <= cpu.lastOrder)
        || x.cycle < cpu.cycle then Stale
    else if x.cycle != cpu.cycle then WrongCycle
    else NoFault
  }

  function CpuApplied(cpu: Cpu, x: Input): Cpu {
    cpu.(seen := true, lastCycle := x.cycle, lastOrder := x.order,
         maxOrder := if x.order > cpu.maxOrder then x.order else cpu.maxOrder)
  }

  // ---- The session -----------------------------------------------------------------------------

  datatype Stamp = Stamp(generation: nat, cycle: nat)

  /** `admitted`, `delivered`, `cancelled` and `failed` are the log; `stamps` says when each
      delivery happened. While `draining`, the boundary of `cycle` is being worked through. */
  datatype World = World(queue: seq<Input>, cycle: nat, nextOrder: nat, generation: nat, draining: bool, fault: Fault,
                         cpu: Cpu, admitted: seq<Input>, delivered: seq<Input>, stamps: seq<Stamp>,
                         cancelled: seq<Input>, failed: seq<Input>)

  datatype Step =
    | Admit(board: bool, cycle: nat, scheduling: nat, body: nat)
    | Cycle(ok: bool)
    | Drain(ok: bool)
    | ObservationError
    | Reset

  /** schedule_input and boardInput. A callback runs with a scheduling cycle that is never behind
      the session's; clients schedule against the session's own cycle. */
  function AdmitWorld(w: World, board: bool, cycle: nat, scheduling: nat, body: nat): World {
    if scheduling < w.cycle || cycle <= scheduling || |w.queue| >= QUEUE then w
    else if w.nextOrder >= U64_MAX then w.(fault := if w.fault.NoFault? then Exhausted else w.fault)
    else
      var x := Input(board, cycle, w.nextOrder + 1, body);
      w.(queue := Insert(w.queue, x), nextOrder := x.order, admitted := w.admitted + [x])
  }

  /** One successful processor cycle starts the drain of the cycle it reached. */
  function CycleWorld(w: World, ok: bool): World {
    if w.draining || !w.fault.NoFault? then w
    else if !ok || w.cycle >= U64_MAX then w.(fault := Other)
    else w.(cycle := w.cycle + 1, cpu := w.cpu.(cycle := w.cpu.cycle + 1), draining := true)
  }

  /** One turn of the loop of boundary; `ok` is what everything but the timing checks said. */
  function DrainWorld(w: World, ok: bool): World {
    if !w.draining || !w.fault.NoFault? then w
    else if w.queue == [] || w.queue[0].cycle > w.cycle then w.(draining := false)
    else
      var x := w.queue[0];
      var rest := w.(queue := w.queue[1..]);
      if x.cycle != w.cycle then rest.(fault := Stale, failed := w.failed + [x])
      else if !x.board && !CpuVerdict(w.cpu, x).NoFault? then
        rest.(fault := CpuVerdict(w.cpu, x), failed := w.failed + [x])
      else if !ok then rest.(fault := Other, failed := w.failed + [x])
      else
        rest.(delivered := w.delivered + [x], stamps := w.stamps + [Stamp(w.generation, w.cycle)],
              cpu := if x.board then w.cpu else CpuApplied(w.cpu, x))
  }

  /** An observation could not be passed on, for instance the one that reports a delivery just made. */
  function ErrorWorld(w: World): World { w.(fault := if w.fault.NoFault? then Other else w.fault) }

  function ResetWorld(w: World): World {
    if w.generation >= U64_MAX then w
    else
      w.(queue := [], cycle := 0, generation := w.generation + 1, draining := true, fault := NoFault,
         cpu := w.cpu.(cycle := 0, floor := w.cpu.maxOrder, seen := false),
             cancelled := w.cancelled + Cancelled(w.queue))
  }

  function Next(w: World, step: Step): World {
    match step
    case Admit(board, cycle, scheduling, body) => AdmitWorld(w, board, cycle, scheduling, body)
    case Cycle(ok) => CycleWorld(w, ok)
    case Drain(ok) => DrainWorld(w, ok)
    case ObservationError => ErrorWorld(w)
    case Reset => ResetWorld(w)
  }

  function Run(w: World, steps: seq<Step>): World
    decreases |steps|
  {
    if steps == [] then w else Next(Run(w, steps[..|steps| - 1]), steps[|steps| - 1])
  }

  const START: World := World([], 0, 0, 0, true, NoFault, Cpu(0, 0, false, 0, 0, 0), [], [], [], [], [])

  // ---- Invariants -------------------------------------------------------------------------------

  ghost predicate QueueOk(q: seq<Input>, cycle: nat, settled: bool, floor: nat, newest: nat) {
    && Sorted(q) && |q| <= QUEUE
    && (forall i :: 0 <= i < |q| ==>
        q[i].cycle >= cycle && (settled ==> q[i].cycle > cycle) && floor < q[i].order <= newest)
  }

  /** Deliveries are ordered by generation, cycle and admission. */
  predicate Follows(delivered: seq<Input>, stamps: seq<Stamp>, j: nat, k: nat)
    requires j < |stamps| && k < |stamps| && |delivered| == |stamps|
  {
    stamps[j].generation < stamps[k].generation ||
    (stamps[j].generation == stamps[k].generation && Before(delivered[j], delivered[k]))
  }

  ghost predicate Chronicle(delivered: seq<Input>, stamps: seq<Stamp>) {
    && |stamps| == |delivered|
    && (forall k :: 0 <= k < |stamps| ==> delivered[k].cycle == stamps[k].cycle)
    && (forall j, k :: 0 <= j < k < |stamps| ==> Follows(delivered, stamps, j, k))
  }

  /** Everything delivered in this generation comes before everything queued. */
  ghost predicate Past(delivered: seq<Input>, stamps: seq<Stamp>, generation: nat, cycle: nat, q: seq<Input>)
    requires |stamps| == |delivered|
  {
    forall k :: 0 <= k < |stamps| ==>
      && stamps[k].generation <= generation
      && (stamps[k].generation == generation ==> stamps[k].cycle <= cycle && forall i :: 0 <= i < |q| ==>
          Before(delivered[k], q[i]))
  }

  ghost predicate CpuOk(cpu: Cpu, q: seq<Input>, cycle: nat, newest: nat) {
    && cpu.cycle == cycle && cpu.floor <= cpu.maxOrder <= newest
    && (cpu.seen ==> cpu.lastCycle <= cycle)
    && (forall i :: 0 <= i < |q| && cpu.seen && q[i].cycle == cpu.lastCycle ==> q[i].order > cpu.lastOrder)
  }

  /** Nothing admitted is lost and nothing is invented. */
  ghost predicate Conserved(w: World) {
    multiset(w.admitted) == multiset(w.queue) + multiset(w.delivered) + multiset(w.cancelled) + multiset(w.failed)
  }

  ghost predicate Numbered(admitted: seq<Input>, newest: nat) {
    |admitted| == newest && forall k :: 0 <= k < |admitted| ==> admitted[k].order == k + 1
  }

  ghost predicate Inv(w: World) {
    && QueueOk(w.queue, w.cycle, !w.draining, w.cpu.floor, w.nextOrder)
    && Chronicle(w.delivered, w.stamps) && Past(w.delivered, w.stamps, w.generation, w.cycle, w.queue)
    && CpuOk(w.cpu, w.queue, w.cycle, w.nextOrder) && Conserved(w) && Numbered(w.admitted, w.nextOrder)
    && !w.fault.Stale? && !w.fault.WrongCycle?
  }

  // ---- Every step keeps them ---------------------------------------------------------------------

  lemma InsertKeepsQueue(q: seq<Input>, x: Input, cycle: nat, settled: bool, floor: nat)
    requires x.order > 0 && QueueOk(q, cycle, settled, floor, x.order - 1) && |q| < QUEUE && cycle < x.cycle
    requires floor < x.order
    ensures QueueOk(Insert(q, x), cycle, settled, floor, x.order) && multiset(Insert(q, x)) == multiset(q) + multiset{x}
    ensures Adds(q, x, Insert(q, x))
  {
    InsertKeeps(q, x);
  }

  ghost predicate Adds(q: seq<Input>, x: Input, r: seq<Input>) { forall i :: 0 <= i < |r| ==> r[i] in q || r[i] == x }

  lemma AddsKeeps(w: World, x: Input, r: seq<Input>)
    requires Inv(w) && Adds(w.queue, x, r) && x.cycle > w.cycle
    ensures Past(w.delivered, w.stamps, w.generation, w.cycle, r) && CpuOk(w.cpu, r, w.cycle, w.nextOrder + 1)
  {
  }

  lemma AdmitKeeps(w: World, board: bool, cycle: nat, scheduling: nat, body: nat)
    requires Inv(w)
    ensures Inv(AdmitWorld(w, board, cycle, scheduling, body))
  {
    if scheduling >= w.cycle && cycle > scheduling && |w.queue| < QUEUE && w.nextOrder < U64_MAX {
      var x := Input(board, cycle, w.nextOrder + 1, body);
      AcceptKeeps(w, x);
    }
  }

  lemma AcceptKeeps(w: World, x: Input)
    requires Inv(w) && x.order == w.nextOrder + 1 && x.cycle > w.cycle && |w.queue| < QUEUE
    ensures Inv(w.(queue := Insert(w.queue, x), nextOrder := x.order, admitted := w.admitted + [x]))
  {
    InsertKeepsQueue(w.queue, x, w.cycle, !w.draining, w.cpu.floor);
    AddsKeeps(w, x, Insert(w.queue, x));
    AdmitConserves(w, x);
  }

  lemma AdmitConserves(w: World, x: Input)
    requires Conserved(w) && multiset(Insert(w.queue, x)) == multiset(w.queue) + multiset{x}
    ensures Conserved(w.(queue := Insert(w.queue, x), nextOrder := x.order, admitted := w.admitted + [x]))
  {
  }

  /** The input at the head of the queue is due now and passes the processor's timing checks. */
  lemma HeadAccepted(w: World)
    requires Inv(w) && w.queue != [] && w.queue[0].cycle <= w.cycle
    ensures w.queue[0].cycle == w.cycle && CpuVerdict(w.cpu, w.queue[0]).NoFault?
  {
  }

  lemma PopKeepsQueue(q: seq<Input>, cycle: nat, settled: bool, floor: nat, newest: nat)
    requires QueueOk(q, cycle, settled, floor, newest) && q != []
    ensures QueueOk(q[1..], cycle, settled, floor, newest) && multiset(q) == multiset{q[0]} + multiset(q[1..])
    ensures forall i :: 0 <= i < |q| - 1 ==> Before(q[0], q[1..][i])
  {
    assert q == [q[0]] + q[1..];
  }

  lemma PopKeepsCpu(cpu: Cpu, q: seq<Input>, cycle: nat, newest: nat)
    requires CpuOk(cpu, q, cycle, newest) && q != [] && Sorted(q) && q[0].cycle == cycle && q[0].order <= newest
    ensures CpuOk(cpu, q[1..], cycle, newest) && CpuOk(CpuApplied(cpu, q[0]), q[1..], cycle, newest)
  {
    assert forall i :: 0 <= i < |q| - 1 ==> Before(q[0], q[1..][i]);
  }

  lemma DeliverKeepsLog(w: World)
    requires Chronicle(w.delivered, w.stamps) && Past(w.delivered, w.stamps, w.generation, w.cycle, w.queue)
    requires w.queue != [] && w.queue[0].cycle == w.cycle && Sorted(w.queue)
    ensures Chronicle(w.delivered + [w.queue[0]], w.stamps + [Stamp(w.generation, w.cycle)])
    ensures Past(w.delivered + [w.queue[0]], w.stamps + [Stamp(w.generation, w.cycle)], w.generation, w.cycle,
        w.queue[1..])
    ensures Past(w.delivered, w.stamps, w.generation, w.cycle, w.queue[1..])
  {
    var delivered, stamps := w.delivered + [w.queue[0]], w.stamps + [Stamp(w.generation, w.cycle)];
    forall j, k | 0 <= j < k < |stamps|
      ensures Follows(delivered, stamps, j, k)
    {
      if k < |w.stamps| { assert Follows(w.delivered, w.stamps, j, k); }
    }
    assert forall i :: 0 <= i < |w.queue| - 1 ==> Before(w.queue[0], w.queue[1..][i]);
  }

  lemma DrainKeeps(w: World, ok: bool)
    requires Inv(w)
    ensures Inv(DrainWorld(w, ok))
  {
    if w.draining && w.fault.NoFault? && w.queue != [] && w.queue[0].cycle <= w.cycle {
      TurnKeeps(w, ok);
    } else if w.draining && w.fault.NoFault? {
      DrainedOk(w);
    }
  }

  lemma TurnKeeps(w: World, ok: bool)
    requires Inv(w) && w.draining && w.fault.NoFault? && w.queue != [] && w.queue[0].cycle <= w.cycle
    ensures Inv(DrainWorld(w, ok))
  {
    HeadAccepted(w);
    PopConserves(w, ok);
    PopKeepsQueue(w.queue, w.cycle, false, w.cpu.floor, w.nextOrder);
    PopKeepsCpu(w.cpu, w.queue, w.cycle, w.nextOrder);
    DeliverKeepsLog(w);
  }

  lemma PopConserves(w: World, ok: bool)
    requires Conserved(w) && w.draining && w.fault.NoFault? && w.queue != [] && w.queue[0].cycle == w.cycle
    requires CpuVerdict(w.cpu, w.queue[0]).NoFault?
    ensures Conserved(DrainWorld(w, ok))
  {
    assert w.queue == [w.queue[0]] + w.queue[1..];
  }

  lemma DrainedOk(w: World)
    requires Inv(w) && (w.queue == [] || w.queue[0].cycle > w.cycle)
    ensures QueueOk(w.queue, w.cycle, true, w.cpu.floor, w.nextOrder)
  {
    forall i | 0 <= i < |w.queue|
      ensures w.queue[i].cycle > w.cycle
    {
      if i > 0 { assert Before(w.queue[0], w.queue[i]); }
    }
  }

  lemma CycleKeeps(w: World, ok: bool)
    requires Inv(w)
    ensures Inv(CycleWorld(w, ok))
  {
  }

  lemma ResetKeeps(w: World)
    requires Inv(w)
    ensures Inv(ResetWorld(w))
  {
    SortedDistinct(w);
    CancelledInOrder(w.queue);
  }

  /** Orders are distinct because every admission has its own. */
  lemma SortedDistinct(w: World)
    requires Conserved(w) && Numbered(w.admitted, w.nextOrder) && Sorted(w.queue)
    ensures Distinct(w.queue)
  {
    forall i, j | 0 <= i < j < |w.queue|
      ensures w.queue[i].order != w.queue[j].order
    {
      Admitted(w, i);
      Admitted(w, j);
      assert Before(w.queue[i], w.queue[j]);
    }
  }

  lemma Admitted(w: World, i: nat)
    requires Conserved(w) && Numbered(w.admitted, w.nextOrder) && i < |w.queue|
    ensures 0 < w.queue[i].order <= |w.admitted| && w.admitted[w.queue[i].order - 1] == w.queue[i]
  {
    assert w.queue[i] in multiset(w.queue);
    assert w.queue[i] in multiset(w.admitted);
    var k :| 0 <= k < |w.admitted| && w.admitted[k] == w.queue[i];
  }

  lemma NextKeepsInv(w: World, step: Step)
    requires Inv(w)
    ensures Inv(Next(w, step))
  {
    if step.Admit? { AdmitKeeps(w, step.board, step.cycle, step.scheduling, step.body); }
    else if step.Cycle? { CycleKeeps(w, step.ok); }
    else if step.Drain? { DrainKeeps(w, step.ok); }
    else { ResetKeeps(w); }
  }

  lemma {:induction false} RunKeepsInv(w: World, steps: seq<Step>)
    requires Inv(w)
    ensures Inv(Run(w, steps))
    decreases |steps|
  {
    if steps != [] {
      RunKeepsInv(w, steps[..|steps| - 1]);
      NextKeepsInv(Run(w, steps[..|steps| - 1]), steps[|steps| - 1]);
    }
  }

  // ---- What it promises -----------------------------------------------------------------------------

  lemma StartOk()
    ensures Inv(START)
  {
  }

  /** In every run the queue is sorted with distinct orders, and neither the session's own staleness
      fault nor the processor's stale or wrong-cycle rejection ever happens. */
  lemma NeverStale(steps: seq<Step>)
    ensures var w := Run(START, steps);
            Sorted(w.queue) && Distinct(w.queue) && !w.fault.Stale? && !w.fault.WrongCycle?
  {
    StartOk();
    RunKeepsInv(START, steps);
    SortedDistinct(Run(START, steps));
  }

  /** Every delivery happens in exactly the cycle asked for, and deliveries of one generation are in
      order of cycle and admission. */
  lemma DeliveredOnTimeInOrder(steps: seq<Step>)
    ensures var w := Run(START, steps);
            && |w.stamps| == |w.delivered|
            && (forall k :: 0 <= k < |w.stamps| ==> w.stamps[k].cycle == w.delivered[k].cycle)
            && (forall j, k :: 0 <= j < k < |w.stamps| ==> Follows(w.delivered, w.stamps, j, k))
  {
    StartOk();
    RunKeepsInv(START, steps);
  }

  /** Each admitted input has exactly one fate; and once a boundary is drained, one that was neither
      cancelled by a reset nor refused has been delivered unless its cycle is still to come. */
  lemma EveryInputHasOneFate(steps: seq<Step>, k: nat)
    requires k < |Run(START, steps).admitted|
    ensures var w := Run(START, steps);
            var x := w.admitted[k];
            && x.order == k + 1
            && multiset(w.queue)[x] + multiset(w.delivered)[x] + multiset(w.cancelled)[x] + multiset(w.failed)[x] == 1
            && (!w.draining && x !in w.cancelled && x !in w.failed && x.cycle <= w.cycle ==> x in w.delivered)
  {
    StartOk();
    RunKeepsInv(START, steps);
    var w := Run(START, steps);
    var x := w.admitted[k];
    OnlyOnce(w.admitted, w.nextOrder, k);
    assert multiset(w.admitted)[x]
        == multiset(w.queue)[x] + multiset(w.delivered)[x] + multiset(w.cancelled)[x] + multiset(w.failed)[x];
    if !w.draining && x.cycle <= w.cycle { assert x !in w.queue; }
  }

  lemma OnlyOnce(admitted: seq<Input>, newest: nat, k: nat)
    requires Numbered(admitted, newest) && k < newest
    ensures multiset(admitted)[admitted[k]] == 1
  {
    var front, back := admitted[..k], admitted[k + 1..];
    assert admitted == front + [admitted[k]] + back;
    assert admitted[k] !in front && admitted[k] !in back;
  }

  // ---- One whole boundary ---------------------------------------------------------------------------

  /** The first `n` inputs are the ones due by `cycle`. */
  ghost predicate DueIs(q: seq<Input>, cycle: nat, n: nat) {
    n <= |q| && (forall i :: 0 <= i < n ==> q[i].cycle <= cycle) && (forall i :: n <= i < |q| ==> q[i].cycle > cycle)
  }

  ghost function Due(q: seq<Input>, cycle: nat): (n: nat)
    requires Sorted(q)
    ensures DueIs(q, cycle, n)
    decreases |q|
  {
    if q == [] then 0
    else if q[|q| - 1].cycle <= cycle then
      assert forall i :: 0 <= i < |q| - 1 ==> Before(q[i], q[|q| - 1]);
      |q|
    else Due(q[..|q| - 1], cycle)
  }

  lemma {:induction false} InsertKeepsDue(q: seq<Input>, x: Input, cycle: nat, n: nat)
    requires DueIs(q, cycle, n) && x.cycle > cycle
    ensures |Insert(q, x)| == |q| + 1 && DueIs(Insert(q, x), cycle, n) && Insert(q, x)[..n] == q[..n]
    decreases |q|
  {
    if q == [] || Before(q[|q| - 1], x) {
    } else {
      var front := q[..|q| - 1];
      assert n <= |front|;
      InsertKeepsDue(front, x, cycle, n);
      assert front[..n] == q[..n];
    }
  }

  ghost predicate OnlyAdmits(steps: seq<Step>) { forall k :: 0 <= k < |steps| ==> steps[k].Admit? }

  /** Whatever the callbacks of a delivery admit, the inputs due in this cycle stay what they were. */
  lemma {:induction false} AdmissionsKeepDue(w: World, steps: seq<Step>, n: nat)
    requires Inv(w) && OnlyAdmits(steps) && DueIs(w.queue, w.cycle, n)
    ensures var v := Run(w, steps);
            && Inv(v) && DueIs(v.queue, w.cycle, n) && v.queue[..n] == w.queue[..n]
            && v.cycle == w.cycle && v.delivered == w.delivered && v.draining == w.draining
    decreases |steps|
  {
    if steps != [] {
      AdmissionsKeepDue(w, steps[..|steps| - 1], n);
      AdmissionKeepsDue(Run(w, steps[..|steps| - 1]), steps[|steps| - 1], n);
    }
  }

  lemma AdmissionKeepsDue(w: World, step: Step, n: nat)
    requires Inv(w) && step.Admit? && DueIs(w.queue, w.cycle, n)
    ensures var v := Next(w, step);
            && Inv(v) && DueIs(v.queue, w.cycle, n) && v.queue[..n] == w.queue[..n]
            && v.cycle == w.cycle && v.delivered == w.delivered && v.draining == w.draining
  {
    NextKeepsInv(w, step);
    if step.cycle > w.cycle {
      InsertKeepsDue(w.queue, Input(step.board, step.cycle, w.nextOrder + 1, step.body), w.cycle, n);
    }
  }

  /** How the world answers one delivery: a status, what the callbacks admit meanwhile, and whether the
      delivery could be reported. */
  datatype Reply = Reply(ok: bool, admissions: seq<Step>, reported: bool)

  function Turn(v: World, reply: Reply): World {
    var u := Run(DrainWorld(v, reply.ok), reply.admissions);
    if reply.reported then u else ErrorWorld(u)
  }

  /** `n` of the `due` inputs of `w` are delivered, and the others head the queue. */
  ghost predicate Midway(w: World, v: World, due: nat, n: nat) {
    && Inv(v) && v.cycle == w.cycle && v.draining && n <= due <= |w.queue| && v.delivered == w.delivered + w.queue[..n]
    && (v.fault.NoFault? ==> DueIs(v.queue, w.cycle, due - n) && v.queue[..due - n] == w.queue[n..due])
  }

  lemma PrefixShift(q: seq<Input>, p: seq<Input>, due: nat, n: nat)
    requires n < due <= |q| && due - n <= |p| && p[..due - n] == q[n..due]
    ensures p[0] == q[n] && p[1..][..due - n - 1] == q[n + 1..due] && q[..n] + [q[n]] == q[..n + 1]
  {
    assert p[0] == p[..due - n][0];
    assert p[1..][..due - n - 1] == p[..due - n][1..];
    assert q[n..due][1..] == q[n + 1..due];
  }

  lemma DeliverNext(w: World, v: World, due: nat, n: nat)
    requires Midway(w, v, due, n) && v.fault.NoFault? && v.queue != [] && v.queue[0].cycle <= v.cycle
    ensures n < due && Midway(w, DrainWorld(v, true), due, n + 1) && DrainWorld(v, true).fault.NoFault?
  {
    HeadAccepted(v);
    DrainKeeps(v, true);
    PrefixShift(w.queue, v.queue, due, n);
    Regroup(w.delivered, w.queue[..n], [w.queue[n]]);
  }

  lemma AdmitMidway(w: World, v: World, due: nat, n: nat, steps: seq<Step>)
    requires Midway(w, v, due, n) && v.fault.NoFault? && OnlyAdmits(steps)
    ensures Midway(w, Run(v, steps), due, n)
  {
    AdmissionsKeepDue(v, steps, due - n);
  }

  lemma {:induction false} FaultStays(w: World, steps: seq<Step>)
    requires OnlyAdmits(steps) && !w.fault.NoFault?
    ensures !Run(w, steps).fault.NoFault?
    decreases |steps|
  {
    if steps != [] { FaultStays(w, steps[..|steps| - 1]); }
  }

  /** A refused input: what was delivered stays so, and the loop is over. */
  lemma RefusedMidway(w: World, v: World, due: nat, n: nat, steps: seq<Step>)
    requires Midway(w, v, due, n) && !v.fault.NoFault? && OnlyAdmits(steps)
    ensures Midway(w, Run(v, steps), due, n) && !Run(v, steps).fault.NoFault?
  {
    AdmissionsKeepDue(v, steps, Due(v.queue, v.cycle));
    FaultStays(v, steps);
  }

  lemma TurnAdvances(w: World, v: World, due: nat, n: nat, reply: Reply)
    requires Midway(w, v, due, n) && v.fault.NoFault? && v.queue != [] && v.queue[0].cycle <= v.cycle
    requires OnlyAdmits(reply.admissions)
    ensures if reply.ok then n < due && Midway(w, Turn(v, reply), due, n + 1) && Delivers(v, Turn(v, reply))
            else Midway(w, Turn(v, reply), due, n) && !Turn(v, reply).fault.NoFault?
    ensures !reply.reported ==> !Turn(v, reply).fault.NoFault?
  {
    if reply.ok {
      DeliverNext(w, v, due, n);
      AdmitMidway(w, DrainWorld(v, true), due, n + 1, reply.admissions);
      AdmissionsKeepDue(DrainWorld(v, true), reply.admissions, due - n - 1);
    } else {
      HeadAccepted(v);
      DrainKeeps(v, false);
      RefusedMidway(w, DrainWorld(v, false), due, n, reply.admissions);
    }
  }

  /** The head of the queue counts as delivered, reported or not. */
  ghost predicate Delivers(v: World, u: World) { v.queue != [] && u.delivered == v.delivered + [v.queue[0]] }

  /** The loop of boundary. It ends whatever the callbacks do, and without a fault it delivers exactly
      the inputs that were due when it started, in order. */
  method Boundary(w: World, replies: seq<Reply>) returns (v: World, n: nat)
    requires Inv(w) && w.draining && w.fault.NoFault?
    requires forall k :: 0 <= k < |replies| ==> OnlyAdmits(replies[k].admissions)
    ensures Inv(v) && v.cycle == w.cycle
    ensures n <= Due(w.queue, w.cycle) && v.delivered == w.delivered + w.queue[..n]
    ensures v.fault.NoFault? ==> !v.draining && n == Due(w.queue, w.cycle)
  {
    v, n := w, 0;
    ghost var due := Due(w.queue, w.cycle);
    while v.fault.NoFault? && v.queue != [] && v.queue[0].cycle <= v.cycle
      invariant Midway(w, v, due, n)
      decreases due - n, v.fault.NoFault?
    {
      var reply := if n < |replies| then replies[n] else Reply(true, [], true);
      TurnAdvances(w, v, due, n, reply);
      v := Turn(v, reply);
      if reply.ok { n := n + 1; }
    }
    if v.fault.NoFault? {
      DrainKeeps(v, true);
      v := DrainWorld(v, true);
    }
  }
}
