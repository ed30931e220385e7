/** Trace captures and candidate staging (emu_trace_internal.c). A capture is armed,
    bound to a call context or a span of time, then terminal. Between the CALL fact and
    the retirement of its instruction an armed capture is only a candidate: records of
    its destination are staged, and if it fails its routes are stripped from them. */
module Captures {
  import opened Counters

  const STAGE: nat := 256
  const CAPTURES: nat := 64

  datatype Mode = Persistent | NextCall | ActiveContext
  datatype State = Armed | Bound | Complete | Incomplete | Stopped
  datatype Reason = Returned | Unknown | Mismatched | Overflowed | Faulted | WasReset | WasLoaded

  datatype Capture = Capture(
    trace: nat, mode: Mode, state: State, rearm: bool, entryPc: nat,
    records: nat, maxRecords: nat, cycles: nat, maxCycles: nat,
    lastCycle: nat, lastGeneration: nat, generation: nat, context: nat, invocation: nat,
    candidate: nat, candidateContext: nat, failed: bool, limit: bool,
    pending: seq<Reason>, closing: nat, ended: nat)

  /** What an observation means to captures. `lost` holds the reason if the context stack was
      just forgotten; `closes` says that a return matched the top frame. */
  datatype Kind = Call | Return | Retire | Abort | Fault | Reset | Load | Other
  datatype Observation = Observation(kind: Kind, sequence: nat, instruction: nat, generation: nat, cycle: nat,
                                     target: seq<nat>, known: bool, exhausted: bool, context: nat,
                                     lost: seq<Reason>, closes: bool)

  predicate Terminal(o: Observation) { o.kind.Retire? || o.kind.Abort? }

  /** The observations after which nothing may stay staged. */
  predicate Boundary(o: Observation) { Terminal(o) || o.kind.Fault? || o.kind.Reset? || o.kind.Load? }

  predicate Live(c: Capture) { c.state.Armed? || c.state.Bound? }

  /** Armed, waiting for its call. */
  predicate Idle(c: Capture) { c.state.Armed? && c.candidate == 0 }

  /** A candidate that has not failed. */
  predicate Open(c: Capture) { c.candidate > 0 && !c.failed }

  predicate Rejected(c: Capture) { c.candidate > 0 && c.failed }

  // ---- One capture, one event --------------------------------------------------------

  /** capture_complete: a record or cycle limit was reached. */
  function Limited(c: Capture, sequence: nat): Capture {
    c.(state := if c.mode.Persistent? then Complete else Incomplete, ended := sequence)
  }

  function EndScope(c: Capture, reason: Reason, sequence: nat): Capture {
    if !Live(c) then c
    else
      var done := c.(state := if reason.Returned? then Complete else Incomplete, ended := sequence);
      if c.candidate > 0 && c.invocation == 0 then done.(failed := true, records := 0) else done
  }

  function Elapsed(c: Capture, generation: nat, cycle: nat): nat {
    if generation != c.lastGeneration || cycle < c.lastCycle || c.cycles > c.maxCycles then 0
    else if cycle - c.lastCycle > c.maxCycles - c.cycles then c.maxCycles - c.cycles
    else cycle - c.lastCycle
  }

  function Tick(c: Capture, generation: nat, cycle: nat, sequence: nat): Capture {
    if !c.state.Bound? || (!c.mode.Persistent? && generation != c.generation) then c
    else
      var later := c.(generation := generation, cycles := c.cycles + Elapsed(c, generation, cycle),
                      lastCycle := if generation != c.lastGeneration || cycle > c.lastCycle then cycle else c.lastCycle,
                      lastGeneration := generation);
      if later.cycles >= later.maxCycles then Limited(later, sequence) else later
  }

  function Lose(c: Capture, reason: Reason): Capture {
    if !c.mode.Persistent? && Live(c) && (c.state.Bound? || c.candidate > 0) then c.(pending := [reason]) else c
  }

  function Nominate(c: Capture, o: Observation): Capture {
    if !c.mode.NextCall? || !Idle(c) || o.target != [c.entryPc] then c
    else if !o.known then c.(pending := [if o.exhausted then Overflowed else Unknown])
    else c.(candidate := o.instruction, candidateContext := o.context)
  }

  function Close(c: Capture, o: Observation): Capture {
    if !c.mode.Persistent? && c.state.Bound? && c.context == o.context then c.(closing := o.instruction) else c
  }

  /** emu_trace_observe for one capture: the clock first, then the context effect. */
  function Before(c: Capture, o: Observation): Capture {
    var ticked := Tick(c, o.generation, o.cycle, o.sequence);
    var lost := if o.lost == [] then ticked else Lose(ticked, o.lost[0]);
    if o.kind.Call? then Nominate(lost, o)
    else if o.kind.Return? && o.closes then Close(lost, o)
    else lost
  }

  /** A routed event is counted by the capture it was routed for. */
  function Count(c: Capture, sequence: nat): Capture {
    if !(c.state.Bound? || (c.state.Armed? && c.candidate > 0)) then c
    else
      var counted := c.(records := c.records + 1);
      if counted.records < counted.maxRecords then counted
      else if c.state.Armed? then counted.(limit := true)
      else Limited(counted, sequence)
  }

  function Overflow(c: Capture, sequence: nat): Capture {
    if c.candidate > 0 then EndScope(c, Overflowed, sequence).(failed := true) else c
  }

  /** after_observation for one capture, up to a possible successor; `next` is the next
      invocation identity, zero when exhausted. */
  function Bind(c: Capture, o: Observation, next: nat): Capture {
    if next == 0 then EndScope(c, Overflowed, o.sequence)
    else
      var bound := c.(state := Bound, context := c.candidateContext, invocation := next, generation := o.generation,
                      lastCycle := o.cycle, lastGeneration := o.generation);
      if c.limit then Limited(bound, o.sequence) else bound
  }

  predicate Binds(c: Capture, o: Observation) {
    c.candidate == o.instruction && Terminal(o) && c.state.Armed?
  }

  /** Consumes a pending loss of context, then a fault or abort. */
  function Settle(c: Capture, o: Observation): Capture {
    var judged := if c.pending == [] then c else EndScope(c, c.pending[0], o.sequence).(pending := []);
    if o.kind.Fault? || o.kind.Abort? then EndScope(judged, Faulted, o.sequence) else judged
  }

  function After(c: Capture, o: Observation, next: nat): Capture {
    if c.mode.Persistent? then c
    else
      var settled := Settle(c, o);
      var bound := if Binds(settled, o) then Bind(settled, o, next) else settled;
      var closed := if bound.closing == o.instruction && o.kind.Retire? then EndScope(bound, Returned, o.sequence)
          else bound;
      if o.kind.Reset? then EndScope(closed, WasReset, o.sequence)
      else if o.kind.Load? then EndScope(closed, WasLoaded, o.sequence) else closed
  }

  /** The invocation identity is consumed when a candidate really binds. */
  predicate Consumes(c: Capture, o: Observation, next: nat) {
    !c.mode.Persistent? && Binds(Settle(c, o), o) && next > 0
  }

  /** A capture ended by reset leaves an armed successor behind. */
  predicate Rearms(c: Capture, o: Observation) {
    !c.mode.Persistent? && o.kind.Reset? && Live(Settle(c, o)) && c.rearm
  }

  function Successor(c: Capture, o: Observation): Capture {
    Capture(c.trace, NextCall, Armed, true, c.entryPc, 0, c.maxRecords, 0, c.maxCycles, o.cycle, o.generation,
            o.generation, 0, 0, 0, 0, false, false, [], 0, 0)
  }

  /** Candidate bookkeeping is dropped at a boundary. */
  function Clear(c: Capture): Capture {
    if c.candidate == 0 then c
    else c.(records := if c.failed then 0 else c.records, candidate := 0, candidateContext := 0,
            failed := false, limit := false)
  }

  function Stop(c: Capture, sequence: nat): Capture {
    if Live(c) then c.(state := Stopped, ended := sequence) else c
  }

  /** storage_exhausted: a bound capture, or one completed by this very event, is incomplete. */
  function Starve(c: Capture, sequence: nat): Capture {
    if c.state.Bound? || (c.state.Complete? && c.ended == sequence) then c.(state := Incomplete, ended := sequence)
        else c
  }

  // ---- What every event keeps true of one capture ---------------------------------------

  function Rank(c: Capture): nat { if c.state.Armed? then 0 else if c.state.Bound? then 1 else 2 }

  predicate WithinLimits(c: Capture) {
    && 1 <= c.maxRecords && 1 <= c.maxCycles
    && c.records <= c.maxRecords && c.cycles <= c.maxCycles
    && (c.state.Bound? ==> c.records < c.maxRecords && c.cycles < c.maxCycles)
    && (c.state.Armed? ==> c.cycles == 0 && (c.limit || c.records < c.maxRecords))
    && (c.limit || c.failed ==> c.candidate > 0)
    && (c.mode.Persistent? ==> c.candidate == 0 && !c.state.Armed?)
  }

  /** The same capture later: identity and limits stay, life only moves forward, a candidate
      stays one and its failure is final until the next boundary clears it. */
  predicate Evolves(c: Capture, d: Capture) {
    && d.trace == c.trace && d.mode == c.mode && d.maxRecords == c.maxRecords && d.maxCycles == c.maxCycles
    && Rank(d) >= Rank(c) && d.candidate == c.candidate && (c.failed ==> d.failed)
    && (d.failed && !c.failed ==> c.candidate > 0)
    && (Idle(d) ==> Idle(c))
    && (WithinLimits(c) ==> WithinLimits(d))
  }

  lemma TickEvolves(c: Capture, generation: nat, cycle: nat, sequence: nat)
    ensures Evolves(c, Tick(c, generation, cycle, sequence))
    ensures Tick(c, generation, cycle, sequence).failed == c.failed
  {
  }

  lemma EndScopeEvolves(c: Capture, reason: Reason, sequence: nat)
    ensures Evolves(c, EndScope(c, reason, sequence)) && !Live(EndScope(c, reason, sequence))
  {
  }

  lemma OverflowEvolves(c: Capture, sequence: nat)
    ensures Evolves(c, Overflow(c, sequence)) && !Open(Overflow(c, sequence))
  {
  }

  /** Counting is within limits because a candidate at its limit is never routed to. */
  lemma CountEvolves(c: Capture, sequence: nat)
    requires !(c.state.Armed? && c.limit)
    ensures Evolves(c, Count(c, sequence)) && Count(c, sequence).failed == c.failed
  {
  }

  lemma StarveEvolves(c: Capture, sequence: nat)
    ensures Evolves(c, Starve(c, sequence)) && Starve(c, sequence).failed == c.failed
  {
  }

  lemma StopEvolves(c: Capture, sequence: nat)
    ensures Evolves(c, Stop(c, sequence)) && Stop(c, sequence).failed == c.failed
  {
  }

  lemma BeforeEvolves(c: Capture, o: Observation)
    requires WithinLimits(c)
    ensures var d := Before(c, o);
            && d.trace == c.trace && Rank(d) >= Rank(c) && d.failed == c.failed && WithinLimits(d)
            && d.maxRecords == c.maxRecords && d.maxCycles == c.maxCycles && d.mode == c.mode
            && (d.candidate == c.candidate || (Idle(c) && d.candidate == o.instruction && o.kind.Call?))
            && (Idle(d) ==> Idle(c))
  {
    TickEvolves(c, o.generation, o.cycle, o.sequence);
  }

  lemma SettleEvolves(c: Capture, o: Observation)
    ensures Evolves(c, Settle(c, o))
  {
    if c.pending != [] { EndScopeEvolves(c, c.pending[0], o.sequence); }
    var judged := if c.pending == [] then c else EndScope(c, c.pending[0], o.sequence).(pending := []);
    EndScopeEvolves(judged, Faulted, o.sequence);
  }

  lemma BindEvolves(c: Capture, o: Observation, next: nat)
    requires c.state.Armed? && c.candidate > 0
    ensures Evolves(c, Bind(c, o, next))
  {
    EndScopeEvolves(c, Overflowed, o.sequence);
  }

  lemma AfterEvolves(c: Capture, o: Observation, next: nat)
    requires Terminal(o) ==> o.instruction > 0
    ensures Evolves(c, After(c, o, next))
    ensures !c.mode.Persistent? && o.kind.Reset? ==> !Live(After(c, o, next))
  {
    if !c.mode.Persistent? {
      var settled := Settle(c, o);
      SettleEvolves(c, o);
      if Binds(settled, o) { BindEvolves(settled, o, next); }
      var bound := if Binds(settled, o) then Bind(settled, o, next) else settled;
      EndScopeEvolves(bound, Returned, o.sequence);
      var closed := if bound.closing == o.instruction && o.kind.Retire? then EndScope(bound, Returned, o.sequence)
          else bound;
      EndScopeEvolves(closed, WasReset, o.sequence);
      EndScopeEvolves(closed, WasLoaded, o.sequence);
    }
  }

  /** Clearing at a boundary forgets only candidate bookkeeping, once no candidate is armed. */
  lemma ClearKeeps(c: Capture)
    requires WithinLimits(c) && (c.state.Armed? ==> c.candidate == 0)
    ensures var d := Clear(c);
            WithinLimits(d) && d.state == c.state && d.trace == c.trace && d.candidate == 0 && !d.failed
                && (Idle(d) ==> Idle(c))
  {
  }

  /** The deadline excludes: the event whose cycle exhausts a bound capture's cycles finds the
      capture terminal, so it is not eligible for it. */
  lemma DeadlineExcludes(c: Capture, o: Observation)
    requires WithinLimits(c) && c.state.Bound? && o.generation == c.lastGeneration
    requires c.mode.Persistent? || o.generation == c.generation
    requires o.cycle >= c.lastCycle + (c.maxCycles - c.cycles)
    ensures !Live(Before(c, o)) && Before(c, o).cycles == c.maxCycles
  {
  }

  /** The clock at a series of moments. */
  function Ticks(c: Capture, generation: nat, times: seq<nat>, sequence: nat): Capture
    decreases |times|
  {
    if times == [] then c
        else Tick(Ticks(c, generation, times[..|times| - 1], sequence), generation, times[|times| - 1], sequence)
  }

  predicate Forwards(start: nat, times: seq<nat>) {
    && (forall i :: 0 <= i < |times| ==> start <= times[i])
    && (forall i, j :: 0 <= i < j < |times| ==> times[i] <= times[j])
  }

  /** However often the clock is looked at, a bound capture's cycles are the cycles that went by, and it
      is over as soon as they reach its limit, with exactly the limit on record. */
  lemma {:induction false} CyclesAreElapsed(c: Capture, generation: nat, times: seq<nat>, sequence: nat)
    requires WithinLimits(c) && c.state.Bound? && generation == c.lastGeneration
    requires (c.mode.Persistent? || generation == c.generation)
    requires Forwards(c.lastCycle, times)
    ensures var d := Ticks(c, generation, times, sequence);
            var now := if times == [] then c.lastCycle else times[|times| - 1];
            if c.cycles + (now - c.lastCycle) < c.maxCycles
            then d == c.(generation := d.generation, cycles := c.cycles + (now - c.lastCycle), lastCycle := now)
                && (d.mode.Persistent? || d.generation == c.generation)
            else !Live(d) && d.cycles == c.maxCycles
    decreases |times|
  {
    if times != [] { CyclesAreElapsed(c, generation, times[..|times| - 1], sequence); }
  }
}
