/** The SAB80535 interrupt controller and the machine cycle around it (core.c). What an opcode, a
    peripheral or a callback does to the registers is an input of each cycle; the controller,
    the delay and the instruction count are the model's. */
module Interrupts {
  const SOURCES: nat := 12
  const PAIRS: nat := 6
  const TIMER2: nat := 5
  const LEVELS: nat := 4
  const LONGEST: nat := 3

  /** The special function registers arbitration looks at; the sets hold source numbers, and for
      the two priority registers pair numbers. */
  datatype Registers = Registers(ea: bool, pending: set<nat>, enabled: set<nat>, timer2: bool,
                                 ip0: set<nat>, ip1: set<nat>, idle: bool, powerDown: bool, pc: nat)

  datatype Frame = Frame(source: nat, priority: nat)

  datatype Cpu = Cpu(r: Registers, stack: seq<Frame>, inService: set<nat>, inhibit: nat, delay: nat,
                     instructions: nat, cycles: nat, exception: bool, aborted: bool)

  /** What one opcode does: whether it gave up because the run was aborted under it, whether it is a
      RETI that got as far as the controller, whether it wrote one of IEN0, IEN1, IP0, IP1. */
  datatype Opcode = Opcode(code: nat, gaveUp: bool, reti: bool, armed: bool, r: Registers, exception: bool,
      aborted: bool)

  /** The answers of everything around the controller during one machine cycle. */
  datatype Effects = Effects(preflight: bool, firstPush: bool, secondPush: bool, op: Opcode,
                             after: Registers, aborted: bool)

  const RETI: nat := 0x32

  /** Opcodes are bytes, only an aborted one gives up, and only RETI returns from a handler. */
  predicate Legal(e: Effects) {
    e.op.code < 256 && (e.op.gaveUp ==> e.op.aborted) && (e.op.reti ==> e.op.code == RETI)
  }

  // ---- Extra cycles -------------------------------------------------------------------------------

  /** The opcodes of two machine cycles, by row and column of the opcode table. */
  predicate SecondCycle(row: nat, column: nat) {
    match column
    case 0 => row != 0 && row != 10 && row != 11
    case 1 => true
    case 2 => row <= 3 || row == 7 || row == 9 || row >= 14
    case 3 => 4 <= row <= 7 || row == 9 || row == 10 || row >= 14
    case 4 => row == 11
    case 5 => row == 7 || row == 8 || row == 11 || row == 13
    case 6 => row == 8 || row == 10 || row == 11
    case 7 => row == 8 || row == 10 || row == 11
    case _ => row == 8 || row == 10 || row == 11 || row == 13
  }

  /** DIV and MUL take four machine cycles. */
  function Extra(code: nat): nat {
    if code == 0x84 || code == 0xA4 then 3 else if SecondCycle(code / 16, code % 16) then 1 else 0
  }

  function Delay(op: Opcode): nat { if op.gaveUp then 0 else Extra(op.code) }

  /** Calls and returns are among the two-cycle opcodes, and nothing takes more than four. */
  lemma ExtraCycles(op: Opcode)
    ensures Delay(op) in {0, 1, 3} && Delay(op) <= LONGEST
    ensures !op.gaveUp && op.code < 256 && (op.code % 32 == 0x11 || op.code in {0x12, 0x22, RETI}) ==> Delay(op) == 1
  {
    if op.code % 32 == 0x11 { assert op.code % 16 == 1; }
  }

  // ---- Arbitration ------------------------------------------------------------------------------

  function Priority(r: Registers, source: nat): (p: nat)
    ensures p < LEVELS
  {
    var pair := if source >= PAIRS then source - PAIRS else source;
    (if pair in r.ip0 then 1 else 0) + (if pair in r.ip1 then 2 else 0)
  }

  predicate Eligible(c: Cpu, source: nat) {
    && source < SOURCES && source in c.r.pending && source in c.r.enabled && source !in c.inService
    && (source == TIMER2 ==> c.r.timer2)
    && (c.stack != [] ==> Priority(c.r, source) > c.stack[|c.stack| - 1].priority)
  }

  /** One turn of the scan: -1 stands for nothing selected yet. */
  function Better(c: Cpu, best: int, source: nat): (r: int)
    requires -1 <= best < SOURCES && source < SOURCES
    ensures -1 <= r < SOURCES
  {
    if Eligible(c, source) && (best < 0 || Priority(c.r, source) > Priority(c.r, best)) then source else best
  }

  function Scan(c: Cpu, n: nat): (best: int)
    requires n <= SOURCES
    ensures -1 <= best < SOURCES
  {
    if n == 0 then -1 else Better(c, Scan(c, n - 1), n - 1)
  }

  function Selected(c: Cpu): (best: int)
    ensures -1 <= best < SOURCES
  {
    Scan(c, SOURCES)
  }

  /** The choice among the sources below `n`. */
  ghost predicate Best(c: Cpu, best: int, n: nat) {
    if best < 0 then forall s: nat :: s < n ==> !Eligible(c, s)
    else
      && best < n && Eligible(c, best)
      && forall s: nat :: s < n && Eligible(c, s) ==>
           Priority(c.r, s) <= Priority(c.r, best) && (Priority(c.r, s) == Priority(c.r, best) ==> best <= s)
  }

  lemma {:induction false} ScanBest(c: Cpu, n: nat)
    requires n <= SOURCES
    ensures Best(c, Scan(c, n), n)
  {
    if n > 0 { ScanBest(c, n - 1); }
  }

  /** The source chosen is the lowest-numbered one of the highest priority among those eligible, and
      none is chosen exactly when none is eligible. */
  lemma ChosenIsBest(c: Cpu)
    ensures Best(c, Selected(c), SOURCES)
  {
    ScanBest(c, SOURCES);
  }

  // ---- Entry and return ----------------------------------------------------------------------------

  predicate Arbitrates(c: Cpu) { c.inhibit == 0 && c.r.ea }

  /** Whether handle_sab_interrupts wants to enter a handler. */
  predicate Wants(c: Cpu) { Arbitrates(c) && Selected(c) >= 0 && |c.stack| < LEVELS }

  predicate EntryFails(c: Cpu, e: Effects) { Wants(c) && !(e.preflight && e.firstPush && e.secondPush) }

  /** A failed preflight has failed the processor; a failed push has raised the stack exception. */
  function FailEntry(c: Cpu, e: Effects): Cpu {
    if !e.preflight then c.(aborted := true) else c.(exception := true)
  }

  function Enter(c: Cpu): Cpu {
    var s := Selected(c);
    if s < 0 then c
    else c.(stack := c.stack + [Frame(s, Priority(c.r, s))], inService := c.inService + {s}, delay := 1,
            r := c.r.(idle := false))
  }

  /** em8051_sab_irq_reti, reached without an abort. */
  function Return(c: Cpu): Cpu {
    if c.stack == [] then c
    else c.(stack := c.stack[..|c.stack| - 1], inService := c.inService - {c.stack[|c.stack| - 1].source})
  }

  function Execute(c: Cpu, op: Opcode): Cpu {
    var returned := if op.reti && !op.aborted then Return(c) else c;
    var inhibit := if op.reti || op.armed then 2 else c.inhibit;
    var done := returned.(r := op.r, delay := Delay(op), exception := c.exception || op.exception);
    if op.aborted then done.(aborted := true, inhibit := inhibit)
    else done.(instructions := c.instructions + 1, inhibit := if inhibit > 0 then inhibit - 1 else 0)
  }

  /** advance_machine_cycle: peripherals may change requests and registers, or abort half way. */
  function Advance(c: Cpu, e: Effects): Cpu {
    if c.aborted then c
    else if e.aborted then c.(r := e.after, aborted := true)
    else c.(r := e.after, cycles := c.cycles + 1)
  }

  function Tick(c: Cpu, e: Effects): Cpu {
    if c.aborted then c
    else if c.delay > 0 then Advance(c.(delay := c.delay - 1), e)
    else if c.r.powerDown then c
    else if EntryFails(c, e) then Advance(FailEntry(c, e), e)
    else if Wants(c) then Advance(Enter(c), e)
    else if c.r.idle then Advance(c, e)
    else Advance(Execute(c, e.op), e)
  }

  /** A register write by the host between instructions. */
  function HostWrite(c: Cpu, r: Registers): Cpu { c.(r := r, inhibit := 1) }

  function Reset(c: Cpu, r: Registers): Cpu {
    Cpu(r, [], {}, 0, 0, 0, 0, false, false)
  }

  datatype Step = Cycle(e: Effects) | Host(r: Registers) | Restart(r: Registers)

  function Next(c: Cpu, step: Step): Cpu {
    match step
    case Cycle(e) => if Legal(e) then Tick(c, e) else c
    case Host(r) => HostWrite(c, r)
    case Restart(r) => Reset(c, r)
  }

  function Run(c: Cpu, steps: seq<Step>): Cpu
    decreases |steps|
  {
    if steps == [] then c else Next(Run(c, steps[..|steps| - 1]), steps[|steps| - 1])
  }

  // ---- Invariants --------------------------------------------------------------------------------------

  /** Priorities strictly increase up the stack. */
  ghost predicate Rising(stack: seq<Frame>) {
    && (forall i, j :: 0 <= i < j < |stack| ==> stack[i].priority < stack[j].priority)
    && (forall i :: 0 <= i < |stack| ==> stack[i].priority < LEVELS)
  }

  ghost predicate Distinct(stack: seq<Frame>) {
    forall i, j :: 0 <= i < j < |stack| ==> stack[i].source != stack[j].source
  }

  /** The in-service mask is exactly the set of sources on the stack. */
  ghost predicate MaskExact(stack: seq<Frame>, inService: set<nat>) {
    && (forall i :: 0 <= i < |stack| ==> stack[i].source in inService)
    && (forall s :: s in inService ==> exists i :: 0 <= i < |stack| && stack[i].source == s)
  }

  ghost predicate Inv(c: Cpu) {
    Rising(c.stack) && Distinct(c.stack) && MaskExact(c.stack, c.inService) && c.delay <= LONGEST && c.inhibit <= 2
  }

  lemma {:induction false} RisingFrom(stack: seq<Frame>, i: nat)
    requires Rising(stack) && i < |stack|
    ensures stack[i].priority >= i
  {
    if i > 0 {
      RisingFrom(stack, i - 1);
      assert stack[i - 1].priority < stack[i].priority;
    }
  }

  /** Four levels of priority leave room for at most four handlers. */
  lemma DepthBounded(stack: seq<Frame>)
    requires Rising(stack)
    ensures |stack| <= LEVELS
  {
    if |stack| > 0 { RisingFrom(stack, |stack| - 1); }
  }

  /** The guard on the depth never turns a selected source away: at full depth the top priority is the
      highest there is, so nothing is eligible. */
  lemma GuardNeverRejects(c: Cpu)
    requires Rising(c.stack) && Selected(c) >= 0
    ensures |c.stack| < LEVELS
  {
    DepthBounded(c.stack);
    ChosenIsBest(c);
    if |c.stack| > 0 { RisingFrom(c.stack, |c.stack| - 1); }
  }

  lemma EnterKeeps(c: Cpu)
    requires Inv(c)
    ensures Inv(Enter(c))
  {
    var s := Selected(c);
    if s >= 0 {
      ChosenIsBest(c);
      var f := Frame(s, Priority(c.r, s));
      PushKeeps(c.stack, c.inService, f);
    }
  }

  lemma PushRises(stack: seq<Frame>, f: Frame)
    requires Rising(stack) && f.priority < LEVELS && (stack != [] ==> f.priority > stack[|stack| - 1].priority)
    ensures Rising(stack + [f])
  {
    forall i | 0 <= i < |stack|
      ensures stack[i].priority < f.priority
    {
      assert i < |stack| - 1 ==> stack[i].priority < stack[|stack| - 1].priority;
    }
  }

  lemma PushMasked(stack: seq<Frame>, inService: set<nat>, f: Frame)
    requires Distinct(stack) && MaskExact(stack, inService) && f.source !in inService
    ensures Distinct(stack + [f]) && MaskExact(stack + [f], inService + {f.source})
  {
    var out := stack + [f];
    forall s | s in inService + {f.source}
      ensures exists i :: 0 <= i < |out| && out[i].source == s
    {
      if s == f.source { assert out[|stack|].source == s; }
      else {
        var i :| 0 <= i < |stack| && stack[i].source == s;
        assert out[i].source == s;
      }
    }
  }

  lemma PushKeeps(stack: seq<Frame>, inService: set<nat>, f: Frame)
    requires Rising(stack) && Distinct(stack) && MaskExact(stack, inService) && f.source !in inService
    requires f.priority < LEVELS && (stack != [] ==> f.priority > stack[|stack| - 1].priority)
    ensures Rising(stack + [f]) && Distinct(stack + [f]) && MaskExact(stack + [f], inService + {f.source})
  {
    PushRises(stack, f);
    PushMasked(stack, inService, f);
  }

  lemma ReturnKeeps(c: Cpu)
    requires Inv(c)
    ensures Inv(Return(c))
  {
    if c.stack != [] {
      var n := |c.stack| - 1;
      var top := c.stack[n];
      var rest := c.stack[..n];
      forall s | s in c.inService - {top.source}
        ensures exists i :: 0 <= i < |rest| && rest[i].source == s
      {
        var i :| 0 <= i < |c.stack| && c.stack[i].source == s;
        assert rest[i].source == s;
      }
    }
  }

  /** Returning undoes entering. */
  lemma ReturnUndoesEnter(c: Cpu)
    requires Inv(c) && Selected(c) >= 0
    ensures Return(Enter(c)).stack == c.stack && Return(Enter(c)).inService == c.inService
  {
    ChosenIsBest(c);
  }

  lemma ExecuteKeeps(c: Cpu, op: Opcode)
    requires Inv(c)
    ensures Inv(Execute(c, op))
  {
    ReturnKeeps(c);
  }

  lemma AdvanceKeeps(c: Cpu, e: Effects)
    requires Inv(c)
    ensures Inv(Advance(c, e))
  {
  }

  lemma TickKeeps(c: Cpu, e: Effects)
    requires Inv(c) && Legal(e)
    ensures Inv(Tick(c, e))
  {
    if c.aborted {
    } else if c.delay > 0 { AdvanceKeeps(c.(delay := c.delay - 1), e); }
    else if c.r.powerDown {
    } else if EntryFails(c, e) { AdvanceKeeps(FailEntry(c, e), e); }
    else if Wants(c) {
      EnterKeeps(c);
      AdvanceKeeps(Enter(c), e);
    } else if c.r.idle { AdvanceKeeps(c, e); }
    else {
      ExecuteKeeps(c, e.op);
      AdvanceKeeps(Execute(c, e.op), e);
    }
  }

  lemma NextKeepsInv(c: Cpu, step: Step)
    requires Inv(c)
    ensures Inv(Next(c, step))
  {
    if step.Cycle? && Legal(step.e) { TickKeeps(c, step.e); }
  }

  lemma {:induction false} RunKeepsInv(c: Cpu, steps: seq<Step>)
    requires Inv(c)
    ensures Inv(Run(c, steps))
    decreases |steps|
  {
    if steps != [] {
      RunKeepsInv(c, steps[..|steps| - 1]);
      NextKeepsInv(Run(c, steps[..|steps| - 1]), steps[|steps| - 1]);
    }
  }

  /** In every state reachable from a reset: priorities strictly increase up the stack, sources are
      distinct, the mask is exactly their set, there are at most four, and a selected source is
      never turned away by the depth guard. */
  lemma ControllerSound(c: Cpu, r: Registers, steps: seq<Step>)
    ensures var d := Run(Reset(c, r), steps);
            && Rising(d.stack) && Distinct(d.stack) && MaskExact(d.stack, d.inService)
            && |d.stack| <= LEVELS && d.delay <= LONGEST && (Selected(d) >= 0 ==> |d.stack| < LEVELS)
  {
    RunKeepsInv(Reset(c, r), steps);
    var d := Run(Reset(c, r), steps);
    DepthBounded(d.stack);
    if Selected(d) >= 0 { GuardNeverRejects(d); }
  }

  // ---- Inhibition ------------------------------------------------------------------------------------

  ghost predicate AllCycles(steps: seq<Step>) { forall k :: 0 <= k < |steps| ==> steps[k].Cycle? && Legal(steps[k].e) }

  lemma CycleInhibits(c: Cpu, e: Effects)
    ensures var d := Tick(c, e);
            && c.instructions <= d.instructions <= c.instructions + 1 && (c.aborted ==> d == c)
            && (d.instructions == c.instructions && c.inhibit > 0 ==> d.stack == c.stack)
            && (d.instructions == c.instructions && !d.aborted ==> d.inhibit == c.inhibit)
            && (!d.aborted && c.delay > 0 ==> d.delay == c.delay - 1)
            && (d.instructions > c.instructions && c.inhibit == 1 ==>
                  d.inhibit == if e.op.reti || e.op.armed then 1 else 0)
  {
  }

  /** Inhibition lasts until an instruction has executed, whatever cycles go by: delay cycles, idle ones and
      cycles in which requests change enter no handler and use none of it up. */
  lemma {:induction false} WaitsForInstruction(c: Cpu, steps: seq<Step>)
    requires AllCycles(steps)
    ensures var d := Run(c, steps);
            && c.instructions <= d.instructions && (d.aborted || !c.aborted)
            && (d.instructions == c.instructions && c.inhibit > 0 && !d.aborted ==> d.stack == c.stack && !Wants(d))
            && (d.instructions == c.instructions && !d.aborted ==> d.inhibit == c.inhibit)
            && (!d.aborted && |steps| <= c.delay ==> d.delay == c.delay - |steps|)
    decreases |steps|
  {
    if steps != [] {
      var front, last := steps[..|steps| - 1], steps[|steps| - 1];
      WaitsForInstruction(c, front);
      CycleInhibits(Run(c, front), last.e);
    }
  }

  /** When a handler is entered at a boundary, also an idle one: nothing inhibits it and a source is selected. */
  lemma ArbitrationExact(c: Cpu)
    requires Inv(c)
    ensures Wants(c) <==> c.inhibit == 0 && c.r.ea && Selected(c) >= 0
  {
    if Selected(c) >= 0 { GuardNeverRejects(c); }
  }

  /** A RETI or a write to an interrupt register keeps arbitration off for exactly one more instruction. After
      it no handler is entered until another instruction has executed; the delay cycles in between are
      as many as the opcode has; and the instruction that executes ends the wait, unless it asks for
      it again: from then on a handler is entered as soon as one is selected. */
  lemma InhibitsOneInstruction(c: Cpu, e: Effects, steps: seq<Step>, f: Effects, later: seq<Step>)
    requires Inv(c) && !c.aborted && c.delay == 0 && !c.r.powerDown && !c.r.idle && !Wants(c)
    requires Legal(e) && (e.op.reti || e.op.armed) && AllCycles(steps) && Legal(f) && AllCycles(later)
    ensures var x := Tick(c, e);
            var y := Run(x, steps);
            !y.aborted && y.instructions == x.instructions ==>
              && y.stack == x.stack && y.inhibit == 1 && !Wants(y)
              && (|steps| <= Extra(e.op.code) ==> y.delay == Extra(e.op.code) - |steps|)
    ensures var y := Run(Tick(c, e), steps);
            var x, z := Tick(y, f), Run(Tick(y, f), later);
            && !z.aborted && y.instructions == Tick(c, e).instructions
            && z.instructions == x.instructions > y.instructions ==>
              if f.op.reti || f.op.armed then z.inhibit == 1 && !Wants(z)
              else z.inhibit == 0 && (Wants(z) <==> z.r.ea && Selected(z) >= 0)
  {
    var x := Tick(c, e);
    var y := Run(x, steps);
    TickKeeps(c, e);
    RunKeepsInv(x, steps);
    WaitsForInstruction(x, steps);
    CycleInhibits(y, f);
    TickKeeps(y, f);
    RunKeepsInv(Tick(y, f), later);
    WaitsForInstruction(Tick(y, f), later);
    ArbitrationExact(Run(Tick(y, f), later));
  }

  /** A write by the host does the same from the boundary it is made at. */
  lemma HostInhibitsOne(c: Cpu, r: Registers, steps: seq<Step>)
    requires AllCycles(steps)
    ensures var x := HostWrite(c, r);
            var y := Run(x, steps);
            !y.aborted && y.instructions == x.instructions ==> y.stack == x.stack && y.inhibit == 1 && !Wants(y)
  {
    WaitsForInstruction(HostWrite(c, r), steps);
  }

  /** So an idle processor written to by the host stays idle: no instruction runs to end the wait, and no
      interrupt is let through to end the idle mode. */
  lemma {:induction false} IdleStaysInhibited(c: Cpu, r: Registers, steps: seq<Step>)
    requires AllCycles(steps) && r.idle && c.delay == 0 && forall k :: 0 <= k < |steps| ==> steps[k].e.after.idle
    ensures var y := Run(HostWrite(c, r), steps);
            y.r.idle && y.delay == 0 && y.inhibit == 1 && y.stack == c.stack && y.instructions == c.instructions
    decreases |steps|
  {
    if steps != [] { IdleStaysInhibited(c, r, steps[..|steps| - 1]); }
  }

  /** Every cycle that is not cut short advances virtual time by exactly one, unless power-down has
      stopped the clock, and counts an instruction exactly when it runs one. */
  lemma CycleAdvancesOne(c: Cpu, e: Effects)
    requires !Tick(c, e).aborted && !(c.delay == 0 && c.r.powerDown)
    ensures Tick(c, e).cycles == c.cycles + 1
    ensures Tick(c, e).instructions == c.instructions +
              if c.delay == 0 && !Wants(c) && !c.r.idle then 1 else 0
  {
  }
}
