/** The shadow call/interrupt stack of the CPU facade (emu_cpu_facade.c) and the
    second stack the trace layer (emu_trace_internal.c) rebuilds from the facade's
    numbered facts alone. A step of this model is one raw fact of the CPU core, one
    end of a machine cycle, one reset, or the report of a fault of the session; the core
    may fault at any point. */
module CallContext {
  import opened Counters

  const DEPTH: nat := 64

  function Byte(n: int): (b: nat)
    ensures b < 256
  {
    n % 256
  }

  datatype FrameKind = CallFrame | IrqFrame

  /** A frame as the facade keeps it: `sp` is the stack pointer after the push. */
  datatype Frame = Frame(id: nat, parent: nat, returnPc: nat, sp: nat, kind: FrameKind)

  datatype Reason = NoReason | Overflow | Mismatch | Failure
  datatype FactKind = Begin | Retire | Abort | FaultFact | Enter(frame: FrameKind) | Leave(frame: FrameKind)
                    | ResetFact | OtherFact

  /** One emitted observation; `known` says that the context fields can be trusted. */
  datatype Fact = Fact(kind: FactKind, sequence: nat, instruction: nat, retired: nat, known: bool, context: nat,
                       parent: nat, returnPc: nat, spBefore: nat, spAfter: nat, reason: Reason)

  /** The observation state of the facade, with the core's pending delay and fault. */
  datatype Facade = Facade(
    sequence: nat, nextInstruction: nat, nextContext: nat, retired: nat,
    instruction: nat, pending: bool, opcodeDone: bool, closing: bool,
    faultEmitted: bool, fault: bool, delay: nat, frames: seq<Frame>)

  // ---- The trace layer's stack --------------------------------------------------------

  datatype Scope = Scope(id: nat, parent: nat, instruction: nat, returnPc: nat, spBefore: nat, spAfter: nat,
                         kind: FrameKind, committed: bool)
  datatype Tracker = Tracker(scopes: seq<Scope>, closingInstruction: nat, closingContext: nat)

  const LOST := Tracker([], 0, 0)

  predicate Known(o: Fact) { o.known && o.context > 0 && o.reason.NoReason? }

  /** The stack part of scope_before. */
  function ScopeBefore(t: Tracker, o: Fact): Tracker {
    match o.kind
    case Enter(kind) =>
      if !Known(o) || |t.scopes| == DEPTH then LOST
      else
        var base := if t.scopes != [] && t.scopes[|t.scopes| - 1].id != o.parent then LOST else t;
        base.(scopes := base.scopes + [Scope(o.context, o.parent, o.instruction, o.returnPc, o.spBefore, o.spAfter,
                                             kind, kind.IrqFrame?)])
    case Leave(kind) =>
      if Known(o) && t.scopes != [] && Matches(t.scopes[|t.scopes| - 1], o, kind)
      then t.(closingInstruction := o.instruction, closingContext := o.context) else LOST
    case _ => t
  }

  predicate Matches(top: Scope, o: Fact, kind: FrameKind) {
    && top.committed && top.id == o.context && top.kind == kind && top.returnPc == o.returnPc
    && top.spAfter == o.spBefore && top.spBefore == o.spAfter
  }

  function Commit(scopes: seq<Scope>, instruction: nat): (r: seq<Scope>)
    ensures |r| == |scopes|
  {
    seq(|scopes|, i requires 0 <= i < |scopes| =>
      if scopes[i].instruction == instruction then scopes[i].(committed := true) else scopes[i])
  }

  /** The stack part of after_observation. */
  function ScopeAfter(t: Tracker, o: Fact): Tracker {
    match o.kind
    case Retire =>
      var scopes := Commit(t.scopes, o.instruction);
      if t.closingInstruction != o.instruction then t.(scopes := scopes)
      else if scopes != [] && scopes[|scopes| - 1].id == t.closingContext
      then Tracker(scopes[..|scopes| - 1], 0, 0) else Tracker(scopes, 0, 0)
    case Abort => LOST
    case FaultFact => LOST
    case ResetFact => LOST
    case _ => t
  }

  function Track(t: Tracker, o: Fact): Tracker { ScopeAfter(ScopeBefore(t, o), o) }

  function TrackAll(t: Tracker, facts: seq<Fact>): Tracker
    decreases |facts|
  {
    if facts == [] then t else TrackAll(Track(t, facts[0]), facts[1..])
  }

  // ---- The facade -------------------------------------------------------------------

  /** The outcome of one action: the new state, the facts emitted and those that could
      not be numbered. */
  datatype Outcome = Outcome(f: Facade, facts: seq<Fact>, dropped: seq<Fact>)

  function Fail(f: Facade): Facade { f.(fault := true) }

  function Blank(f: Facade, kind: FactKind): Fact {
    Fact(kind, 0, if f.pending then f.instruction else 0, f.retired, false, 0, 0, 0, 0, 0, NoReason)
  }

  /** Facts are numbered; when the numbers run out the fact is dropped and the CPU faults. */
  function Emit(f: Facade, fact: Fact): Outcome {
    if f.sequence >= U64_MAX then Outcome(Fail(f), [], [fact])
    else Outcome(f.(sequence := f.sequence + 1), [fact.(sequence := f.sequence + 1)], [])
  }

  function Silent(f: Facade): Outcome { Outcome(f, [], []) }

  // ---- Raw facts of the core -------------------------------------------------------

  function RawBegin(f: Facade): Outcome {
    if f.nextInstruction >= U64_MAX then Silent(Fail(f))
    else
      var g := f.(nextInstruction := f.nextInstruction + 1, instruction := f.nextInstruction + 1,
                  pending := true, opcodeDone := false, closing := false);
      Emit(g, Blank(g, Begin))
  }

  function Top(f: Facade): nat { if f.frames == [] then 0 else f.frames[|f.frames| - 1].id }

  /** obs_context_push: a full stack forgets every frame instead of losing count. */
  function Push(f: Facade, kind: FrameKind, returnPc: nat, spAfter: nat): Facade {
    var id := f.nextContext + 1;
    f.(nextContext := id,
       frames := if |f.frames| == DEPTH then [] else f.frames + [Frame(id, Top(f), returnPc, spAfter, kind)])
  }

  function EnterFact(f: Facade, kind: FrameKind, returnPc: nat, spBefore: nat, spAfter: nat): Fact {
    var fact := Blank(f, Enter(kind)).(context := f.nextContext + 1, returnPc := returnPc);
    if |f.frames| == DEPTH then fact.(reason := Overflow)
    else fact.(known := true, parent := Top(f), spBefore := spBefore, spAfter := spAfter)
  }

  function RawEnter(f: Facade, kind: FrameKind, returnPc: nat, spBefore: nat, spAfter: nat): Outcome {
    if f.nextContext >= U64_MAX then Silent(Fail(f))
    else Emit(Push(f, kind, returnPc, spAfter), EnterFact(f, kind, returnPc, spBefore, spAfter))
  }

  /** The top frame is the one this return belongs to. */
  predicate Returns(frames: seq<Frame>, kind: FrameKind, pc: nat, spBefore: nat, spAfter: nat) {
    && frames != [] && frames[|frames| - 1].kind == kind && frames[|frames| - 1].returnPc == pc
    && frames[|frames| - 1].sp == spBefore && Byte(frames[|frames| - 1].sp - 2) == spAfter
  }

  function RawLeave(f: Facade, kind: FrameKind, pc: nat, spBefore: nat, spAfter: nat): Outcome {
    var fact := Blank(f, Leave(kind)).(returnPc := pc);
    if Returns(f.frames, kind, pc, spBefore, spAfter) then
      Emit(f.(closing := true),
           fact.(known := true, context := Top(f), parent := f.frames[|f.frames| - 1].parent,
                 spBefore := spBefore, spAfter := spAfter))
    else if f.nextContext >= U64_MAX then Silent(Fail(f).(frames := []))
    else Emit(f.(nextContext := f.nextContext + 1, frames := []),
        fact.(context := f.nextContext + 1, reason := Mismatch))
  }

  function EndOpcode(f: Facade, delay: nat): Facade {
    if f.fault then f else f.(opcodeDone := f.pending, delay := delay)
  }

  predicate Due(f: Facade) { f.pending && (f.fault || (f.opcodeDone && f.delay == 0)) }

  /** The first half of obs_finish: an instruction whose last cycle is over retires, one hit
      by a fault aborts. The frame it returned from goes only after the retire fact is out. */
  function Terminate(f: Facade): Outcome {
    if !Due(f) then Silent(f)
    else if f.fault || f.retired >= U64_MAX then
      var out := Emit(Fail(f), Blank(f, Abort).(reason := Failure));
      out.(f := out.f.(pending := false, closing := false))
    else
      var g := f.(retired := f.retired + 1);
      var out := Emit(g, Blank(g, Retire));
      var popped := if !out.f.fault && f.closing && f.frames != [] then f.frames[..|f.frames| - 1] else f.frames;
      out.(f := out.f.(frames := popped, pending := false, closing := false))
  }

  /** The second half: a fault is reported once. */
  function ReportFault(f: Facade): Outcome {
    if f.fault && !f.faultEmitted
    then Emit(f.(faultEmitted := true), Blank(f, FaultFact).(reason := Failure)) else Silent(f)
  }

  function Then(a: Outcome, b: Outcome): Outcome { Outcome(b.f, a.facts + b.facts, a.dropped + b.dropped) }

  function Finish(f: Facade): Outcome {
    var out := Terminate(f);
    Then(out, ReportFault(out.f))
  }

  /** reset_session: the pending instruction aborts, all context is forgotten, the fault is
      cleared and a reset fact opens the new generation. */
  function Reset(f: Facade): Outcome {
    var out := if f.pending then Emit(f, Blank(f, Abort).(reason := Failure)) else Silent(f);
    var g := out.f.(pending := false, closing := false, opcodeDone := false, frames := [], fault := false,
                    faultEmitted := false, delay := 0);
    Then(out, Emit(g, Blank(g, ResetFact)))
  }

  /** emu_cpu_observation_lifecycle for a fault of the session: it is reported once, and neither the
      CPU nor its frames change. */
  function Publish(f: Facade): Outcome {
    if f.faultEmitted then Silent(f)
    else Emit(f.(faultEmitted := true), Blank(f, FaultFact).(reason := Failure))
  }

  // ---- Runs -----------------------------------------------------------------------------

  /** Where the current machine cycle stands: an opcode reports at most one context effect. After a fault of
      the session no cycle runs until a reset. */
  datatype Phase = Between | Opcode(effect: bool) | Advancing | Halted

  datatype Step =
    | StartInstruction
    | Interrupt(returnPc: nat, sp: nat)
    | WaitCycle                                        // a delay cycle, or an idle one
    | Call(returnPc: nat, sp: nat)                     // sp: the pointer before the two pushes
    | Return(frame: FrameKind, pc: nat, sp: nat)       // sp: the pointer after the two pops
    | OpcodeEnd(delay: nat)
    | Other                                            // any fact without context or lifecycle meaning
    | CoreFault
    | CycleEnd
    | SessionFault
    | ResetAll

  /** The facade, all facts so far, and the trace layer that consumed them. */
  datatype World = World(f: Facade, phase: Phase, log: seq<Fact>, dropped: seq<Fact>, t: Tracker)

  const START := World(Facade(0, 0, 0, 0, 0, false, false, false, false, false, 0, []), Between, [], [], LOST)

  /** Whether the machine cycle allows the step now. */
  predicate Enabled(f: Facade, phase: Phase, step: Step) {
    match step
    case StartInstruction => phase.Between? && !f.fault && f.delay == 0
    case Interrupt(_, _) => phase.Between? && !f.fault && f.delay == 0
    case WaitCycle => phase.Between? && !f.fault
    case Call(_, _) => phase == Opcode(false) && !f.fault
    case Return(_, _, _) => phase == Opcode(false) && !f.fault
    case OpcodeEnd(_) => phase.Opcode?
    case Other => true
    case CoreFault => phase.Opcode? || phase.Advancing?
    case CycleEnd => phase.Advancing? || (phase.Opcode? && f.fault)
    case SessionFault => phase.Between?
    case ResetAll => phase.Between? || phase.Halted?
  }

  function Act(f: Facade, step: Step): Outcome {
    match step
    case StartInstruction => RawBegin(f)
    case Interrupt(pc, sp) => RawEnter(f.(delay := 1), IrqFrame, pc, Byte(sp), Byte(sp + 2))
    case WaitCycle => Silent(f.(delay := if f.delay > 0 then f.delay - 1 else 0))
    case Call(pc, sp) => RawEnter(f, CallFrame, pc, Byte(sp), Byte(sp + 2))
    case Return(kind, pc, sp) => RawLeave(f, kind, pc, Byte(sp + 2), Byte(sp))
    case OpcodeEnd(delay) => Silent(EndOpcode(f, delay))
    case Other => Emit(f, Blank(f, OtherFact))
    case CoreFault => Silent(Fail(f))
    case CycleEnd => Finish(f)
    case SessionFault => Publish(f)
    case ResetAll => Reset(f)
  }

  function Move(phase: Phase, step: Step): Phase {
    match step
    case StartInstruction => Opcode(false)
    case Interrupt(_, _) => Advancing
    case WaitCycle => Advancing
    case Call(_, _) => Opcode(true)
    case Return(_, _, _) => Opcode(true)
    case OpcodeEnd(_) => Advancing
    case CycleEnd => Between
    case SessionFault => Halted
    case ResetAll => Between
    case _ => phase
  }

  function Next(w: World, step: Step): World {
    if !Enabled(w.f, w.phase, step) then w
    else
      var out := Act(w.f, step);
      World(out.f, Move(w.phase, step), w.log + out.facts, w.dropped + out.dropped, TrackAll(w.t, out.facts))
  }

  function Run(w: World, steps: seq<Step>): World
    decreases |steps|
  {
    if steps == [] then w else Next(Run(w, steps[..|steps| - 1]), steps[|steps| - 1])
  }

  // ---- The two stacks agree ---------------------------------------------------------------

  predicate Mirrors(f: Frame, s: Scope) {
    && s.id == f.id >= 1 && s.parent == f.parent && s.returnPc == f.returnPc && s.kind == f.kind
    && s.spAfter == f.sp && s.spBefore == Byte(f.sp - 2)
  }

  predicate SameStack(frames: seq<Frame>, t: Tracker) {
    |t.scopes| == |frames| && forall i :: 0 <= i < |frames| ==> Mirrors(frames[i], t.scopes[i])
  }

  /** Only the frame pushed by the instruction in progress may still be uncommitted. */
  predicate Committed(active: nat, t: Tracker) {
    forall i :: 0 <= i < |t.scopes| && !t.scopes[i].committed ==>
      i == |t.scopes| - 1 && active > 0 && t.scopes[i].instruction == active
  }

  predicate SameClosing(frames: seq<Frame>, active: nat, closing: bool, t: Tracker) {
    if closing
    then active > 0 && frames != [] && t.closingInstruction == active && t.closingContext == frames[|frames| - 1].id
    else t.closingInstruction == 0
  }

  /** `active` is the instruction in progress, or zero between instructions. */
  predicate Agrees(frames: seq<Frame>, active: nat, closing: bool, t: Tracker) {
    SameStack(frames, t) && Committed(active, t) && SameClosing(frames, active, closing, t)
  }

  function Active(f: Facade): nat { if f.pending then f.instruction else 0 }

  predicate AllCommitted(t: Tracker) { forall i :: 0 <= i < |t.scopes| ==> t.scopes[i].committed }

  predicate Linked(frames: seq<Frame>, i: nat)
    requires i < |frames|
  {
    frames[i].parent == if i == 0 then 0 else frames[i - 1].id
  }

  /** Every frame's parent is the frame below it, and identities grow up the stack. */
  predicate Chained(frames: seq<Frame>, issued: nat) {
    && |frames| <= DEPTH
    && (forall i :: 0 <= i < |frames| ==> 1 <= frames[i].id <= issued)
    && (forall i, j :: 0 <= i < j < |frames| ==> frames[i].id < frames[j].id)
    && (forall i :: 0 <= i < |frames| ==> Linked(frames, i))
  }

  lemma PushChained(frames: seq<Frame>, issued: nat, f: Frame)
    requires Chained(frames, issued) && |frames| < DEPTH && f.id == issued + 1
    requires f.parent == if frames == [] then 0 else frames[|frames| - 1].id
    ensures Chained(frames + [f], issued + 1)
  {
    var g := frames + [f];
    forall i | 0 <= i < |g|
      ensures Linked(g, i)
    {
      if i < |frames| { assert Linked(frames, i); }
    }
  }

  lemma PopChained(frames: seq<Frame>, issued: nat)
    requires Chained(frames, issued) && frames != []
    ensures Chained(frames[..|frames| - 1], issued)
  {
    var g := frames[..|frames| - 1];
    forall i | 0 <= i < |g|
      ensures Linked(g, i)
    {
      assert Linked(frames, i);
    }
  }

  /** How the facade's flags follow the machine cycle while nothing has failed. */
  predicate InCycle(f: Facade, phase: Phase) {
    && (f.pending ==> f.instruction > 0) && !f.faultEmitted
    && (phase.Between? && f.pending ==> f.opcodeDone && f.delay > 0)
    && (phase.Opcode? ==> f.pending && !f.opcodeDone)
    && (phase == Opcode(false) ==> !f.closing)
    && (phase.Advancing? && f.pending ==> f.opcodeDone)
  }

  /** What the trace layer knows while neither the CPU nor the session has faulted. */
  predicate Follows(f: Facade, phase: Phase, t: Tracker) {
    && (!f.fault && !phase.Halted? ==>
          && InCycle(f, phase)
          && Agrees(f.frames, Active(f), f.closing, t)
          && (!f.pending || phase == Opcode(false) ==> AllCommitted(t)))
    && (!f.fault && phase.Halted? ==> t == LOST)
  }

  predicate Inv(w: World) { Chained(w.f.frames, w.f.nextContext) && Follows(w.f, w.phase, w.t) }

  // ---- Every step keeps the stacks together -------------------------------------------------

  /** The trace layer's reaction to a push, as the facade reports it. */
  lemma EnterTracked(frames: seq<Frame>, active: nat, t: Tracker, o: Fact)
    requires Agrees(frames, active, false, t) && AllCommitted(t) && |frames| < DEPTH
    requires o.kind.Enter? && Known(o) && o.instruction == active && o.spBefore == Byte(o.spAfter - 2)
    requires o.parent == if frames == [] then 0 else frames[|frames| - 1].id
    requires o.kind.frame.CallFrame? <==> active > 0
    ensures Agrees(frames + [Frame(o.context, o.parent, o.returnPc, o.spAfter, o.kind.frame)], active, false,
        Track(t, o))
    ensures active == 0 ==> AllCommitted(Track(t, o))
  {
    if frames != [] { assert Mirrors(frames[|frames| - 1], t.scopes[|frames| - 1]); }
  }

  lemma LeaveTracked(frames: seq<Frame>, active: nat, t: Tracker, o: Fact)
    requires Agrees(frames, active, false, t) && AllCommitted(t) && active > 0 && frames != []
    requires o.kind.Leave? && o.known && o.reason.NoReason? && o.instruction == active
    requires o.context == frames[|frames| - 1].id && Returns(frames, o.kind.frame, o.returnPc, o.spBefore, o.spAfter)
    ensures Agrees(frames, active, true, Track(t, o))
  {
    assert Mirrors(frames[|frames| - 1], t.scopes[|frames| - 1]);
  }

  /** Both sides drop the closing frame at the retire fact, and it commits all others. */
  lemma RetireTracked(frames: seq<Frame>, active: nat, closing: bool, t: Tracker, o: Fact)
    requires Agrees(frames, active, closing, t) && active > 0 && o.kind.Retire? && o.instruction == active
    ensures var popped := if closing && frames != [] then frames[..|frames| - 1] else frames;
            Agrees(popped, 0, false, Track(t, o)) && AllCommitted(Track(t, o))
  {
    if closing { assert Mirrors(frames[|frames| - 1], t.scopes[|frames| - 1]); }
  }

  lemma TrackOne(t: Tracker, o: Fact)
    ensures TrackAll(t, [o]) == Track(t, o)
  {
    assert [o][1..] == [];
  }

  lemma PushTracked(f: Facade, t: Tracker, kind: FrameKind, pc: nat, sp: nat, n: nat)
    requires Agrees(f.frames, Active(f), false, t) && AllCommitted(t) && |f.frames| < DEPTH
    requires kind.CallFrame? <==> Active(f) > 0
    ensures var after := Track(t, EnterFact(f, kind, pc, Byte(sp), Byte(sp + 2)).(sequence := n));
            && Agrees(Push(f, kind, pc, Byte(sp + 2)).frames, Active(f), false, after)
            && (Active(f) == 0 ==> AllCommitted(after))
  {
    assert Byte(Byte(sp + 2) - 2) == Byte(sp);
    EnterTracked(f.frames, Active(f), t, EnterFact(f, kind, pc, Byte(sp), Byte(sp + 2)).(sequence := n));
  }

  lemma OverflowTracked(f: Facade, t: Tracker, kind: FrameKind, pc: nat, sp: nat, n: nat)
    requires |f.frames| == DEPTH
    ensures Track(t, EnterFact(f, kind, pc, Byte(sp), Byte(sp + 2)).(sequence := n)) == LOST
    ensures Push(f, kind, pc, Byte(sp + 2)).frames == []
  {
  }

  lemma EnterEmits(f: Facade, kind: FrameKind, pc: nat, before: nat, after: nat)
    requires !RawEnter(f, kind, pc, before, after).f.fault
    ensures var out := RawEnter(f, kind, pc, before, after);
            && out.facts == [EnterFact(f, kind, pc, before, after).(sequence := f.sequence + 1)]
            && out.f.frames == Push(f, kind, pc, after).frames
  {
  }

  lemma EnterFollowed(f: Facade, t: Tracker, kind: FrameKind, pc: nat, sp: nat)
    requires Agrees(f.frames, Active(f), false, t) && AllCommitted(t) && |f.frames| <= DEPTH
    requires kind.CallFrame? <==> Active(f) > 0
    ensures var out := RawEnter(f, kind, pc, Byte(sp), Byte(sp + 2));
            !out.f.fault ==> Agrees(out.f.frames, Active(f), false, TrackAll(t, out.facts))
                             && (Active(f) == 0 ==> AllCommitted(TrackAll(t, out.facts)))
  {
    var out := RawEnter(f, kind, pc, Byte(sp), Byte(sp + 2));
    if !out.f.fault {
      EnterEmits(f, kind, pc, Byte(sp), Byte(sp + 2));
      TrackOne(t, out.facts[0]);
      if |f.frames| == DEPTH { OverflowTracked(f, t, kind, pc, sp, f.sequence + 1); }
      else { PushTracked(f, t, kind, pc, sp, f.sequence + 1); }
    }
  }

  lemma LeaveFollowed(f: Facade, t: Tracker, kind: FrameKind, pc: nat, sp: nat)
    requires Follows(f, Opcode(false), t) && !f.fault
    ensures var out := RawLeave(f, kind, pc, Byte(sp + 2), Byte(sp));
            Follows(out.f, Opcode(true), TrackAll(t, out.facts))
  {
    var out := RawLeave(f, kind, pc, Byte(sp + 2), Byte(sp));
    if !out.f.fault {
      TrackOne(t, out.facts[0]);
      if Returns(f.frames, kind, pc, Byte(sp + 2), Byte(sp)) { LeaveTracked(f.frames, f.instruction, t, out.facts[0]); }
    }
  }

  lemma FinishFollowed(f: Facade, phase: Phase, t: Tracker)
    requires Follows(f, phase, t) && (f.fault || phase.Advancing?)
    ensures Follows(Finish(f).f, Between, TrackAll(t, Finish(f).facts))
  {
    var out := Finish(f);
    if !out.f.fault && Due(f) {
      TrackOne(t, out.facts[0]);
      RetireTracked(f.frames, f.instruction, f.closing, t, out.facts[0]);
    }
  }

  lemma ResetFollowed(f: Facade, t: Tracker)
    ensures Follows(Reset(f).f, Between, TrackAll(t, Reset(f).facts))
  {
    var out := Reset(f);
    if !out.f.fault {
      TrackOne(Track(t, out.facts[0]), out.facts[|out.facts| - 1]);
      TrackOne(t, out.facts[0]);
      if |out.facts| == 2 { assert out.facts[1..] == [out.facts[1]]; }
    }
  }

  /** Facts without context meaning, and plain bookkeeping of the core, change no stack. */
  lemma QuietFollowed(w: World, step: Step)
    requires Follows(w.f, w.phase, w.t) && Enabled(w.f, w.phase, step)
    requires !step.Interrupt? && !step.Call? && !step.Return? && !step.CycleEnd? && !step.ResetAll?
    ensures Follows(Next(w, step).f, Next(w, step).phase, Next(w, step).t)
  {
    var out := Act(w.f, step);
    if out.facts != [] { TrackOne(w.t, out.facts[0]); }
  }

  lemma EnterStep(w: World, step: Step)
    requires Follows(w.f, w.phase, w.t) && |w.f.frames| <= DEPTH && Enabled(w.f, w.phase, step)
    requires step.Interrupt? || step.Call?
    ensures Follows(Next(w, step).f, Next(w, step).phase, Next(w, step).t)
  {
    if step.Call? { EnterFollowed(w.f, w.t, CallFrame, step.returnPc, step.sp); }
    else { EnterFollowed(w.f.(delay := 1), w.t, IrqFrame, step.returnPc, step.sp); }
  }

  lemma NextFollows(w: World, step: Step)
    requires Follows(w.f, w.phase, w.t) && |w.f.frames| <= DEPTH
    ensures Follows(Next(w, step).f, Next(w, step).phase, Next(w, step).t)
  {
    if Enabled(w.f, w.phase, step) {
      if step.Interrupt? || step.Call? { EnterStep(w, step); }
      else if step.Return? { LeaveFollowed(w.f, w.t, step.frame, step.pc, step.sp); }
      else if step.CycleEnd? { FinishFollowed(w.f, w.phase, w.t); }
      else if step.ResetAll? { ResetFollowed(w.f, w.t); }
      else { QuietFollowed(w, step); }
    }
  }

  lemma EnterKeepsChain(f: Facade, kind: FrameKind, pc: nat, before: nat, after: nat)
    requires Chained(f.frames, f.nextContext)
    ensures var g := RawEnter(f, kind, pc, before, after).f; Chained(g.frames, g.nextContext)
  {
    var g := RawEnter(f, kind, pc, before, after).f;
    if |f.frames| < DEPTH && f.nextContext < U64_MAX {
      PushChained(f.frames, f.nextContext, Frame(f.nextContext + 1, Top(f), pc, after, kind));
      assert g.frames == f.frames + [Frame(f.nextContext + 1, Top(f), pc, after, kind)];
    }
  }

  lemma FinishOnStack(f: Facade)
    ensures var g := Finish(f).f;
            && g.nextContext == f.nextContext
            && (g.frames == f.frames || (f.frames != [] && g.frames == f.frames[..|f.frames| - 1]))
  {
  }

  lemma FinishKeepsChain(f: Facade)
    requires Chained(f.frames, f.nextContext)
    ensures var g := Finish(f).f; Chained(g.frames, g.nextContext)
  {
    FinishOnStack(f);
    if f.frames != [] { PopChained(f.frames, f.nextContext); }
  }

  lemma LeaveOnStack(f: Facade, kind: FrameKind, pc: nat, before: nat, after: nat)
    ensures var g := RawLeave(f, kind, pc, before, after).f;
            if Returns(f.frames, kind, pc, before, after) then g.frames == f.frames && g.nextContext == f.nextContext
            else |g.frames| == 0 && g.nextContext >= f.nextContext
  {
  }

  lemma ResetOnStack(f: Facade)
    ensures |Reset(f).f.frames| == 0 && Reset(f).f.nextContext == f.nextContext
  {
  }

  lemma BeginOnStack(f: Facade)
    ensures RawBegin(f).f.frames == f.frames && RawBegin(f).f.nextContext == f.nextContext
  {
  }

  /** All other actions leave the stack alone or forget it. */
  lemma OthersOnStack(f: Facade, step: Step)
    requires !step.Call? && !step.Interrupt? && !step.CycleEnd?
    ensures var g := Act(f, step).f;
            && g.nextContext >= f.nextContext
            && (|g.frames| == 0 || (g.frames == f.frames && g.nextContext == f.nextContext))
  {
    if step.Return? { LeaveOnStack(f, step.frame, step.pc, Byte(step.sp + 2), Byte(step.sp)); }
    else if step.ResetAll? { ResetOnStack(f); }
    else if step.StartInstruction? { BeginOnStack(f); }
  }

  lemma ActKeepsChain(f: Facade, step: Step)
    requires Chained(f.frames, f.nextContext)
    ensures var g := Act(f, step).f; Chained(g.frames, g.nextContext)
  {
    if step.Call? { EnterKeepsChain(f, CallFrame, step.returnPc, Byte(step.sp), Byte(step.sp + 2)); }
    else if step.Interrupt? {
      EnterKeepsChain(f.(delay := 1), IrqFrame, step.returnPc, Byte(step.sp), Byte(step.sp + 2));
    } else if step.CycleEnd? { FinishKeepsChain(f); }
    else { OthersOnStack(f, step); }
  }

  lemma NextKeepsInv(w: World, step: Step)
    requires Inv(w)
    ensures Inv(Next(w, step))
  {
    NextFollows(w, step);
    ActKeepsChain(w.f, step);
  }

  lemma {:induction false} RunKeepsInv(w: World, steps: seq<Step>)
    requires Inv(w)
    ensures Inv(Run(w, steps))
    decreases |steps|
  {
    if steps != [] {
      RunKeepsInv(w, steps[..|steps| - 1]);
      NextKeepsInv(Run(w, steps[..|steps| - 1]), steps[|steps| - 1]);
    }
  }

  lemma {:induction false} TrackSplit(t: Tracker, a: seq<Fact>, b: seq<Fact>)
    ensures TrackAll(t, a + b) == TrackAll(TrackAll(t, a), b)
    decreases |a|
  {
    if a == [] { assert a + b == b; }
    else {
      assert (a + b)[1..] == a[1..] + b;
      TrackSplit(Track(t, a[0]), a[1..], b);
    }
  }

  /** The trace layer's stack is a function of the emitted facts and of nothing else. */
  lemma {:induction false} TrackerReadsLog(steps: seq<Step>)
    ensures Run(START, steps).t == TrackAll(LOST, Run(START, steps).log)
    decreases |steps|
  {
    if steps != [] {
      var w, step := Run(START, steps[..|steps| - 1]), steps[|steps| - 1];
      TrackerReadsLog(steps[..|steps| - 1]);
      TrackSplit(LOST, w.log, Act(w.f, step).facts);
    }
  }

  /** In every run, at every point where neither the CPU nor the session is faulted, the stack the
      trace layer rebuilt from the facts is the facade's stack, frame by frame, and each frame's
      parent is the frame below it; between instructions every frame is committed. A fault of the
      session alone empties the rebuilt stack and leaves the facade's. */
  lemma StacksAgree(steps: seq<Step>)
    ensures var f, sessionFault := Run(START, steps).f, Run(START, steps).phase.Halted?;
            var t := TrackAll(LOST, Run(START, steps).log);
            && Chained(f.frames, f.nextContext)
            && (!f.fault && !sessionFault ==> SameStack(f.frames, t))
            && (!f.fault && !sessionFault && !f.pending ==> AllCommitted(t) && t.closingInstruction == 0)
            && (!f.fault && sessionFault ==> t == LOST)
  {
    RunKeepsInv(START, steps);
    TrackerReadsLog(steps);
  }

  // ---- Discarded frames stay discarded -------------------------------------------------------

  predicate Discards(o: Fact) { o.reason.Overflow? || o.reason.Mismatch? }

  /** `o`, reported after the discarding fact `d`, names only contexts issued after it. */
  predicate Newer(d: Fact, o: Fact) {
    o.known ==> o.context > d.context && (o.parent == 0 || o.parent > d.context)
  }

  predicate PastIsPast(log: seq<Fact>) {
    forall i, j :: 0 <= i < j < |log| && Discards(log[i]) ==> Newer(log[i], log[j])
  }

  /** Nothing on the stack predates a discard. */
  predicate StackIsNew(log: seq<Fact>, f: Facade) {
    forall i :: 0 <= i < |log| && Discards(log[i]) ==> NewSince(log[i].context, f)
  }

  predicate NewSince(floor: nat, f: Facade) {
    floor <= f.nextContext && forall k :: 0 <= k < |f.frames| ==> f.frames[k].id > floor
  }

  lemma ActNewSince(f: Facade, step: Step, floor: nat)
    requires NewSince(floor, f)
    ensures NewSince(floor, Act(f, step).f)
  {
    if step.CycleEnd? { FinishOnStack(f); }
    else if step.Call? { EnterNewSince(f, CallFrame, step.returnPc, Byte(step.sp), Byte(step.sp + 2), floor); }
    else if step.Interrupt? {
      EnterNewSince(f.(delay := 1), IrqFrame, step.returnPc, Byte(step.sp), Byte(step.sp + 2), floor);
    } else { OthersOnStack(f, step); }
  }

  lemma EnterNewSince(f: Facade, kind: FrameKind, pc: nat, before: nat, after: nat, floor: nat)
    requires NewSince(floor, f)
    ensures NewSince(floor, RawEnter(f, kind, pc, before, after).f)
  {
    PushNewSince(f, kind, pc, after, floor);
  }

  lemma PushNewSince(f: Facade, kind: FrameKind, pc: nat, after: nat, floor: nat)
    requires NewSince(floor, f)
    ensures NewSince(floor, Push(f, kind, pc, after))
  {
    var g := Push(f, kind, pc, after);
    assert forall k :: 0 <= k < |g.frames| ==> g.frames[k].id > floor;
  }

  /** The facts that name contexts come from pushes and returns only. */
  lemma PlainFacts(f: Facade, step: Step)
    requires !step.Call? && !step.Interrupt? && !step.Return?
    ensures forall o :: o in Act(f, step).facts ==> !o.known && !Discards(o)
  {
    if step.CycleEnd? { FinishFacts(f); } else if step.ResetAll? { ResetFacts(f); }
  }

  lemma FinishFacts(f: Facade)
    ensures forall o :: o in Finish(f).facts ==> !o.known && !Discards(o)
  {
  }

  lemma ResetFacts(f: Facade)
    ensures forall o :: o in Reset(f).facts ==> !o.known && !Discards(o)
  {
  }

  predicate NamesSince(floor: nat, facts: seq<Fact>) {
    forall o :: o in facts && o.known ==> o.context > floor && (o.parent == 0 || o.parent > floor)
  }

  lemma EnterReports(f: Facade, kind: FrameKind, pc: nat, before: nat, after: nat, floor: nat)
    requires NewSince(floor, f)
    ensures NamesSince(floor, RawEnter(f, kind, pc, before, after).facts)
  {
  }

  lemma LeaveReports(f: Facade, kind: FrameKind, pc: nat, before: nat, after: nat, floor: nat)
    requires NewSince(floor, f) && Chained(f.frames, f.nextContext)
    ensures NamesSince(floor, RawLeave(f, kind, pc, before, after).facts)
  {
    if f.frames != [] { assert Linked(f.frames, |f.frames| - 1); }
  }

  /** A known fact names the new frame, or the top frame, and the frame below it. */
  lemma ActReports(f: Facade, step: Step, floor: nat)
    requires NewSince(floor, f) && Chained(f.frames, f.nextContext)
    ensures NamesSince(floor, Act(f, step).facts)
  {
    if step.Call? { EnterReports(f, CallFrame, step.returnPc, Byte(step.sp), Byte(step.sp + 2), floor); }
    else if step.Interrupt? {
      EnterReports(f.(delay := 1), IrqFrame, step.returnPc, Byte(step.sp), Byte(step.sp + 2), floor);
    } else if step.Return? { LeaveReports(f, step.frame, step.pc, Byte(step.sp + 2), Byte(step.sp), floor); }
    else { PlainFacts(f, step); }
  }

  predicate CleanDiscard(out: Outcome) {
    forall o :: o in out.facts && Discards(o) ==> |out.facts| == 1 && NewSince(o.context, out.f)
  }

  lemma EnterDiscards(f: Facade, kind: FrameKind, pc: nat, before: nat, after: nat)
    ensures CleanDiscard(RawEnter(f, kind, pc, before, after))
  {
  }

  lemma LeaveDiscards(f: Facade, kind: FrameKind, pc: nat, before: nat, after: nat)
    ensures CleanDiscard(RawLeave(f, kind, pc, before, after))
  {
  }

  lemma ActDiscards(f: Facade, step: Step)
    ensures CleanDiscard(Act(f, step))
  {
    if step.Call? { EnterDiscards(f, CallFrame, step.returnPc, Byte(step.sp), Byte(step.sp + 2)); }
    else if step.Interrupt? {
      EnterDiscards(f.(delay := 1), IrqFrame, step.returnPc, Byte(step.sp), Byte(step.sp + 2));
    } else if step.Return? { LeaveDiscards(f, step.frame, step.pc, Byte(step.sp + 2), Byte(step.sp)); }
    else { PlainFacts(f, step); }
  }

  lemma NextKeepsPast(w: World, step: Step)
    requires Inv(w) && PastIsPast(w.log) && StackIsNew(w.log, w.f) && Enabled(w.f, w.phase, step)
    ensures PastIsPast(Next(w, step).log) && StackIsNew(Next(w, step).log, Next(w, step).f)
  {
    var out := Act(w.f, step);
    var log := w.log + out.facts;
    ActDiscards(w.f, step);
    forall i | 0 <= i < |log| && Discards(log[i])
      ensures NewSince(log[i].context, out.f)
    {
      if i < |w.log| { ActNewSince(w.f, step, w.log[i].context); }
      else { assert out.facts[i - |w.log|] in out.facts; }
    }
    forall k | 0 <= k < |out.facts| - 1
      ensures !Discards(out.facts[k])
    {
      assert out.facts[k] in out.facts;
    }
    forall i, j | 0 <= i < j < |log| && Discards(log[i])
      ensures Newer(log[i], log[j])
    {
      if j >= |w.log| {
        ActReports(w.f, step, w.log[i].context);
        assert out.facts[j - |w.log|] in out.facts;
      }
    }
  }

  lemma {:induction false} RunKeepsPast(steps: seq<Step>)
    ensures PastIsPast(Run(START, steps).log) && StackIsNew(Run(START, steps).log, Run(START, steps).f)
    decreases |steps|
  {
    if steps != [] {
      var w, step := Run(START, steps[..|steps| - 1]), steps[|steps| - 1];
      RunKeepsPast(steps[..|steps| - 1]);
      RunKeepsInv(START, steps[..|steps| - 1]);
      if Enabled(w.f, w.phase, step) { NextKeepsPast(w, step); }
    }
  }

  /** A frame discarded by overflow or mismatch is never reported as known context again:
      in every run, a fact after a discarding fact that claims known context names only a
      context, and a parent, whose identity was issued after the discard. */
  lemma DiscardedNeverReturns(steps: seq<Step>, i: nat, j: nat)
    requires i < j < |Run(START, steps).log| && Discards(Run(START, steps).log[i])
    ensures Newer(Run(START, steps).log[i], Run(START, steps).log[j])
  {
    RunKeepsPast(steps);
  }

  // ---- Instructions begin and end in pairs ------------------------------------------------------

  /** A reader of the facts alone: the open instruction (zero for none), the last one seen,
      the number of retire facts, and whether all of it was in order. */
  datatype Reader = Reader(ok: bool, open: nat, last: nat, retires: nat)

  const FRESH := Reader(true, 0, 0, 0)

  function Read(r: Reader, o: Fact): Reader {
    match o.kind
    case Begin => Reader(r.ok && r.open == 0 && o.instruction > r.last, o.instruction, o.instruction, r.retires)
    case Retire => Reader(r.ok && r.open > 0 && o.instruction == r.open, 0, r.last, r.retires + 1)
    case Abort => Reader(r.ok && r.open > 0 && o.instruction == r.open, 0, r.last, r.retires)
    case _ => r
  }

  function ReadAll(r: Reader, facts: seq<Fact>): Reader
    decreases |facts|
  {
    if facts == [] then r else ReadAll(Read(r, facts[0]), facts[1..])
  }

  function Retires(facts: seq<Fact>): nat
    decreases |facts|
  {
    if facts == [] then 0 else (if facts[0].kind.Retire? then 1 else 0) + Retires(facts[1..])
  }

  /** The reader knows exactly which instruction is in progress and how many retired. */
  predicate InStep(f: Facade, r: Reader) {
    && r.ok && r.open == Active(f) && r.last == f.nextInstruction && r.retires == f.retired
    && (f.pending ==> f.instruction > 0)
  }

  lemma {:induction false} ReadSplit(r: Reader, a: seq<Fact>, b: seq<Fact>)
    ensures ReadAll(r, a + b) == ReadAll(ReadAll(r, a), b)
    decreases |a|
  {
    if a == [] { assert a + b == b; }
    else {
      assert (a + b)[1..] == a[1..] + b;
      ReadSplit(Read(r, a[0]), a[1..], b);
    }
  }

  lemma ReadOne(r: Reader, o: Fact)
    ensures ReadAll(r, [o]) == Read(r, o)
  {
    assert [o][1..] == [];
  }

  /** What a reader can tell after an action that started in step: it still is in step, or
      the fact numbers just ran out and at most the one retire fact then due is missing. */
  predicate Told(out: Outcome, r: Reader) {
    if out.dropped == [] then InStep(out.f, ReadAll(r, out.facts))
    else RanOut(out.f, ReadAll(r, out.facts), out.dropped)
  }

  predicate RanOut(f: Facade, r: Reader, dropped: seq<Fact>) {
    r.ok && f.fault && f.sequence >= U64_MAX && Retires(dropped) <= 1 && r.retires + Retires(dropped) == f.retired
  }

  lemma {:induction false} RetiresSplit(a: seq<Fact>, b: seq<Fact>)
    ensures Retires(a + b) == Retires(a) + Retires(b)
    decreases |a|
  {
    if a == [] { assert a + b == b; }
    else {
      assert (a + b)[1..] == a[1..] + b;
      RetiresSplit(a[1..], b);
    }
  }

  lemma RetiresOne(o: Fact)
    ensures Retires([o]) == if o.kind.Retire? then 1 else 0
  {
    assert [o][1..] == [];
  }

  lemma EmitRead(f: Facade, fact: Fact, r: Reader)
    requires InStep(f, Read(r, fact)) && r.ok && (!fact.kind.Retire? ==> r.retires == f.retired)
    requires fact.kind.Retire? ==> r.retires + 1 == f.retired
    ensures Told(Emit(f, fact), r)
  {
    RetiresOne(fact);
    if f.sequence < U64_MAX { ReadOne(r, fact.(sequence := f.sequence + 1)); }
  }

  /** Two actions in a row: once the numbers ran out, the second one emits and retires nothing. */
  lemma ThenRead(a: Outcome, b: Outcome, r: Reader)
    requires Told(a, r)
    requires a.dropped == [] ==> Told(b, ReadAll(r, a.facts))
    requires a.dropped != [] ==> b.facts == [] && Retires(b.dropped) == 0
    requires a.dropped != [] ==> b.f.fault && b.f.sequence >= U64_MAX && b.f.retired == a.f.retired
    ensures Told(Then(a, b), r)
  {
    ReadSplit(r, a.facts, b.facts);
    RetiresSplit(a.dropped, b.dropped);
    if a.dropped == [] { assert a.dropped + b.dropped == b.dropped; }
    else { assert a.facts + b.facts == a.facts; }
  }

  lemma BeginRead(f: Facade, r: Reader)
    requires InStep(f, r) && !f.pending
    ensures Told(RawBegin(f), r)
  {
    if f.nextInstruction < U64_MAX {
      var g := f.(nextInstruction := f.nextInstruction + 1, instruction := f.nextInstruction + 1,
                  pending := true, opcodeDone := false, closing := false);
      EmitRead(g, Blank(g, Begin), r);
    }
  }

  lemma AbortRead(f: Facade, r: Reader)
    requires InStep(f, r) && f.pending
    ensures var out := Emit(Fail(f), Blank(f, Abort).(reason := Failure));
            Told(out.(f := out.f.(pending := false, closing := false)), r)
  {
    var fact := Blank(f, Abort).(reason := Failure);
    RetiresOne(fact);
    ReadOne(r, fact.(sequence := f.sequence + 1));
  }

  lemma RetireRead(f: Facade, r: Reader)
    requires InStep(f, r) && f.pending && !f.fault && f.opcodeDone && f.delay == 0 && f.retired < U64_MAX
    ensures Told(Terminate(f), r)
  {
    var g := f.(retired := f.retired + 1);
    RetiresOne(Blank(g, Retire));
    ReadOne(r, Blank(g, Retire).(sequence := f.sequence + 1));
  }

  lemma TerminateRead(f: Facade, r: Reader)
    requires InStep(f, r)
    ensures Told(Terminate(f), r)
  {
    if Due(f) {
      if f.fault || f.retired >= U64_MAX { AbortRead(f, r); } else { RetireRead(f, r); }
    }
  }

  lemma ReportRead(f: Facade, r: Reader)
    requires InStep(f, r)
    ensures Told(ReportFault(f), r)
  {
    if f.fault && !f.faultEmitted { EmitRead(f.(faultEmitted := true), Blank(f, FaultFact).(reason := Failure), r); }
  }

  lemma PublishRead(f: Facade, r: Reader)
    requires InStep(f, r)
    ensures Told(Publish(f), r)
  {
    if !f.faultEmitted { EmitRead(f.(faultEmitted := true), Blank(f, FaultFact).(reason := Failure), r); }
  }

  lemma FinishRead(f: Facade, r: Reader)
    requires InStep(f, r)
    ensures Told(Finish(f), r)
  {
    var a := Terminate(f);
    TerminateRead(f, r);
    if a.dropped == [] { ReportRead(a.f, ReadAll(r, a.facts)); }
    else if a.f.fault && !a.f.faultEmitted { RetiresOne(Blank(a.f, FaultFact).(reason := Failure)); }
    ThenRead(a, ReportFault(a.f), r);
  }

  function Cleared(f: Facade): Facade {
    f.(pending := false, closing := false, opcodeDone := false, frames := [], fault := false,
       faultEmitted := false, delay := 0)
  }

  lemma ResetRead(f: Facade, r: Reader)
    requires InStep(f, r)
    ensures Told(Reset(f), r)
  {
    var fact := Blank(f, Abort).(reason := Failure);
    if f.pending {
      RetiresOne(fact);
      ReadOne(r, fact.(sequence := f.sequence + 1));
    }
    var a := if f.pending then Emit(f, fact) else Silent(f);
    var mid := a.(f := Cleared(a.f));
    RetiresOne(Blank(Cleared(a.f), ResetFact));
    if a.dropped == [] {
      EmitRead(Cleared(a.f), Blank(Cleared(a.f), ResetFact), ReadAll(r, a.facts));
      ThenRead(mid, Emit(Cleared(a.f), Blank(Cleared(a.f), ResetFact)), r);
    } else {
      ThenRead(a, Emit(Cleared(a.f), Blank(Cleared(a.f), ResetFact)), r);
    }
  }

  lemma EnterRead(f: Facade, kind: FrameKind, pc: nat, before: nat, after: nat, r: Reader)
    requires InStep(f, r)
    ensures Told(RawEnter(f, kind, pc, before, after), r)
  {
    if f.nextContext < U64_MAX { EmitRead(Push(f, kind, pc, after), EnterFact(f, kind, pc, before, after), r); }
  }

  lemma LeaveRead(f: Facade, kind: FrameKind, pc: nat, before: nat, after: nat, r: Reader)
    requires InStep(f, r)
    ensures Told(RawLeave(f, kind, pc, before, after), r)
  {
    var fact := Blank(f, Leave(kind)).(returnPc := pc);
    if Returns(f.frames, kind, pc, before, after) {
      EmitRead(f.(closing := true),
        fact.(known := true, context := Top(f), parent := f.frames[|f.frames| - 1].parent,
              spBefore := before, spAfter := after), r);
    } else if f.nextContext < U64_MAX {
      EmitRead(f.(nextContext := f.nextContext + 1, frames := []),
        fact.(context := f.nextContext + 1, reason := Mismatch), r);
    }
  }

  lemma ActRead(f: Facade, step: Step, r: Reader)
    requires InStep(f, r) && (step.StartInstruction? ==> !f.pending)
    ensures Told(Act(f, step), r)
  {
    if step.StartInstruction? { BeginRead(f, r); }
    else if step.CycleEnd? { FinishRead(f, r); }
    else if step.ResetAll? { ResetRead(f, r); }
    else if step.Call? { EnterRead(f, CallFrame, step.returnPc, Byte(step.sp), Byte(step.sp + 2), r); }
    else if step.Interrupt? {
      EnterRead(f.(delay := 1), IrqFrame, step.returnPc, Byte(step.sp), Byte(step.sp + 2), r);
    } else if step.Return? { LeaveRead(f, step.frame, step.pc, Byte(step.sp + 2), Byte(step.sp), r); }
    else if step.Other? { EmitRead(f, Blank(f, OtherFact), r); }
    else if step.SessionFault? { PublishRead(f, r); }
  }

  /** A CPU whose fact numbers ran out stays faulted and silent, even across resets. */
  lemma SilentForever(f: Facade, phase: Phase, step: Step)
    requires f.fault && f.sequence >= U64_MAX && Enabled(f, phase, step)
    ensures var out := Act(f, step);
            out.facts == [] && out.f.fault && out.f.sequence >= U64_MAX && out.f.retired == f.retired
            && Retires(out.dropped) == 0
  {
    if step.CycleEnd? {
      var a := Terminate(f);
      RetiresOne(Blank(f, Abort).(reason := Failure));
      RetiresOne(Blank(a.f, FaultFact).(reason := Failure));
      RetiresSplit(a.dropped, ReportFault(a.f).dropped);
    } else if step.ResetAll? {
      var a := if f.pending then Emit(f, Blank(f, Abort).(reason := Failure)) else Silent(f);
      RetiresOne(Blank(f, Abort).(reason := Failure));
      RetiresOne(Blank(Cleared(a.f), ResetFact));
      RetiresSplit(a.dropped, Emit(Cleared(a.f), Blank(Cleared(a.f), ResetFact)).dropped);
    } else if step.Other? {
      RetiresOne(Blank(f, OtherFact));
    } else if step.SessionFault? {
      RetiresOne(Blank(f, FaultFact).(reason := Failure));
    }
  }

  predicate WorldTold(w: World) {
    var r := ReadAll(FRESH, w.log);
    if w.dropped == [] then InStep(w.f, r) else RanOut(w.f, r, w.dropped)
  }

  lemma NextTold(w: World, step: Step)
    requires WorldTold(w) && (!w.f.fault && !w.phase.Halted? ==> InCycle(w.f, w.phase)) && Enabled(w.f, w.phase, step)
    ensures WorldTold(Next(w, step))
  {
    var out := Act(w.f, step);
    ReadSplit(FRESH, w.log, out.facts);
    RetiresSplit(w.dropped, out.dropped);
    if w.dropped == [] {
      ActRead(w.f, step, ReadAll(FRESH, w.log));
      assert w.dropped + out.dropped == out.dropped;
    } else {
      SilentForever(w.f, w.phase, step);
      assert w.log + out.facts == w.log;
    }
  }

  lemma {:induction false} RunTold(steps: seq<Step>)
    ensures WorldTold(Run(START, steps))
    decreases |steps|
  {
    if steps != [] {
      var w, step := Run(START, steps[..|steps| - 1]), steps[|steps| - 1];
      RunTold(steps[..|steps| - 1]);
      RunKeepsInv(START, steps[..|steps| - 1]);
      if Enabled(w.f, w.phase, step) { NextTold(w, step); }
    }
  }

  /** In the emitted facts of every run each begin is followed, before the next begin, by
      exactly one retire or abort of the same instruction, and instruction identities
      strictly increase; this includes faults in delay cycles and resets in mid-instruction.
      While facts can be numbered, the last begin is unanswered exactly while an
      instruction is in progress. */
  lemma BeginsAndEndsPair(steps: seq<Step>)
    ensures ReadAll(FRESH, Run(START, steps).log).ok
    ensures Run(START, steps).dropped == [] ==>
        ReadAll(FRESH, Run(START, steps).log).open == Active(Run(START, steps).f)
  {
    RunTold(steps);
  }

  /** The one branch that counts an instruction without reporting it: its last cycle ends without a
      fault when every fact number is used up. */
  predicate LosesRetire(f: Facade, step: Step) {
    step.CycleEnd? && Due(f) && !f.fault && f.retired < U64_MAX && f.sequence >= U64_MAX
  }

  lemma FinishLoses(f: Facade)
    ensures Retires(Finish(f).dropped) == if LosesRetire(f, CycleEnd) then 1 else 0
  {
    var a := Terminate(f);
    RetiresSplit(a.dropped, ReportFault(a.f).dropped);
    RetiresOne(Blank(f, Abort).(reason := Failure));
    RetiresOne(Blank(f.(retired := f.retired + 1), Retire));
    RetiresOne(Blank(a.f, FaultFact).(reason := Failure));
  }

  lemma ResetLoses(f: Facade)
    ensures Retires(Reset(f).dropped) == 0
  {
    var a := if f.pending then Emit(f, Blank(f, Abort).(reason := Failure)) else Silent(f);
    RetiresOne(Blank(f, Abort).(reason := Failure));
    RetiresOne(Blank(Cleared(a.f), ResetFact));
    RetiresSplit(a.dropped, Emit(Cleared(a.f), Blank(Cleared(a.f), ResetFact)).dropped);
  }

  /** Step by step: a retire fact is lost exactly in that branch. */
  lemma StepLoses(f: Facade, step: Step)
    ensures Retires(Act(f, step).dropped) == if LosesRetire(f, step) then 1 else 0
  {
    if step.CycleEnd? { FinishLoses(f); }
    else if step.ResetAll? { ResetLoses(f); }
    else {
      var out := Act(f, step);
      if out.dropped != [] {
        assert out.dropped == [out.dropped[0]] && !out.dropped[0].kind.Retire?;
        RetiresOne(out.dropped[0]);
      }
    }
  }

  /** Whether step `k` of the run is taken in that branch. */
  predicate LosesAt(steps: seq<Step>, k: nat)
    requires k < |steps|
  {
    var w := Run(START, steps[..k]);
    Enabled(w.f, w.phase, steps[k]) && LosesRetire(w.f, steps[k])
  }

  lemma LosesBefore(steps: seq<Step>, k: nat)
    requires k < |steps| - 1
    ensures LosesAt(steps, k) == LosesAt(steps[..|steps| - 1], k)
  {
    assert steps[..|steps| - 1][..k] == steps[..k];
  }

  lemma {:induction false} DropsAreLosses(steps: seq<Step>)
    ensures Retires(Run(START, steps).dropped) == 0 <==> forall k :: 0 <= k < |steps| ==> !LosesAt(steps, k)
    decreases |steps|
  {
    if steps != [] {
      var n := |steps| - 1;
      var w := Run(START, steps[..n]);
      DropsAreLosses(steps[..n]);
      forall k | 0 <= k < n ensures LosesAt(steps, k) == LosesAt(steps[..n], k) { LosesBefore(steps, k); }
      if Enabled(w.f, w.phase, steps[n]) {
        StepLoses(w.f, steps[n]);
        RetiresSplit(w.dropped, Act(w.f, steps[n]).dropped);
      }
      assert LosesAt(steps, n) == (Enabled(w.f, w.phase, steps[n]) && LosesRetire(w.f, steps[n]));
      assert (forall k :: 0 <= k < |steps| ==> !LosesAt(steps, k))
          <==> (forall k :: 0 <= k < n ==> !LosesAt(steps, k)) && !LosesAt(steps, n);
    }
  }

  /** The retired total is the number of retire facts if and only if no cycle of the run ended an
      instruction, without a fault, when the fact numbers were used up; otherwise it is one larger. */
  lemma RetiredTotalIsRetireFacts(steps: seq<Step>)
    ensures var w := Run(START, steps);
            var counted := ReadAll(FRESH, w.log).retires;
            && (w.f.retired == counted <==> forall k :: 0 <= k < |steps| ==> !LosesAt(steps, k))
            && counted <= w.f.retired <= counted + 1
  {
    RunTold(steps);
    DropsAreLosses(steps);
  }

  /** `n` facts without meaning use up `n` numbers and nothing else. */
  lemma {:induction false} OthersCount(n: nat)
    requires n <= U64_MAX
    ensures var w := Run(START, seq(n, _ => Other));
            w.f == START.f.(sequence := n) && w.phase.Between? && w.dropped == []
    decreases n
  {
    var steps := seq(n, _ => Other);
    if n > 0 {
      OthersCount(n - 1);
      assert steps[..n - 1] == seq(n - 1, _ => Other);
    }
  }

  /** The facts without meaning that leave one number, and an instruction that takes it. */
  function Exhausting(n: nat): seq<Step> { seq(n, _ => Other) + [StartInstruction] + [OpcodeEnd(0)] }

  lemma ExhaustingReaches(n: nat)
    requires n + 1 == U64_MAX
    ensures var w := Run(START, Exhausting(n));
            w.phase.Advancing? && LosesRetire(w.f, CycleEnd) && w.f.retired == 0 && w.dropped == []
  {
    var others := seq(n, _ => Other);
    OthersCount(n);
    assert (others + [StartInstruction])[..n] == others;
    var w := Run(START, others);
    var x := Next(w, StartInstruction);
    assert Run(START, others + [StartInstruction]) == x;
    assert x.f.sequence == U64_MAX && x.f.pending && !x.f.fault && x.f.retired == 0 && x.phase.Opcode?
        && x.dropped == [];
    assert Exhausting(n)[..n + 1] == others + [StartInstruction];
    assert Run(START, Exhausting(n)) == Next(x, OpcodeEnd(0));
  }

  /** The exception is reached: a run exists after which one instruction counts as retired and none was
      reported. */
  lemma LastRetireIsLost(n: nat)
    requires n + 1 == U64_MAX
    ensures var w := Run(START, Exhausting(n) + [CycleEnd]);
            w.f.retired == 1 && ReadAll(FRESH, w.log).retires == 0
  {
    var steps := Exhausting(n) + [CycleEnd];
    ExhaustingReaches(n);
    assert steps[..|steps| - 1] == Exhausting(n);
    var w := Run(START, Exhausting(n));
    var z := Next(w, CycleEnd);
    assert Run(START, steps) == z;
    assert z.f.retired == 1;
    assert LosesAt(steps, |steps| - 1);
    RetiredTotalIsRetireFacts(steps);
  }
}
