/** What the facade's facts promise whoever consumes them one by one: the trace layer reads no more of the
    CPU than these. A desk is what a consumer keeps: the instruction in progress, whether it has called,
    and the rebuilt stack. */
module FactFlow {
  import opened Counters
  import opened CallContext

  datatype Desk = Desk(open: nat, called: bool, t: Tracker)

  const CLEAN := Desk(0, false, LOST)

  predicate Ends(o: Fact) { o.kind.Retire? || o.kind.Abort? }

  predicate IsCall(o: Fact) { o.kind.Enter? && o.kind.frame.CallFrame? }

  /** After such a fact nothing of the instruction is left. */
  predicate Bounds(o: Fact) { Ends(o) || o.kind.FaultFact? || o.kind.ResetFact? }

  /** Facts name the instruction in progress; an instruction calls or returns at most once, and is known to
      be in progress when it does; there is room on the stack for a context reported as known, and no
      return is under way then. */
  predicate Fits(d: Desk, o: Fact) {
    && (d.open == 0 || o.instruction == 0 || o.instruction == d.open)
    && (Ends(o) ==> o.instruction == d.open > 0)
    && (IsCall(o) ==> o.instruction > 0)
    && (o.kind.Leave? ==> !d.called && o.instruction > 0)
    && (o.kind.Enter? ==> d.t.closingInstruction == 0 && (Known(o) ==> |d.t.scopes| < DEPTH))
  }

  function Take(d: Desk, o: Fact): Desk {
    Desk(if Ends(o) then 0 else if o.instruction > 0 then o.instruction else d.open,
         !Bounds(o) && (d.called || IsCall(o)), Track(d.t, o))
  }

  function TakeAll(d: Desk, facts: seq<Fact>): Desk
    decreases |facts|
  {
    if facts == [] then d else Take(TakeAll(d, facts[..|facts| - 1]), facts[|facts| - 1])
  }

  /** Each fact fits the desk as the facts before it left it. */
  predicate FitsAt(d: Desk, facts: seq<Fact>, i: nat)
    requires i < |facts|
  {
    Fits(TakeAll(d, facts[..i]), facts[i])
  }

  predicate AllFit(d: Desk, facts: seq<Fact>) { forall i :: 0 <= i < |facts| ==> FitsAt(d, facts, i) }

  lemma {:induction false} TakeSplit(d: Desk, a: seq<Fact>, b: seq<Fact>)
    ensures TakeAll(d, a + b) == TakeAll(TakeAll(d, a), b)
    decreases |b|
  {
    if b == [] { assert a + b == a; }
    else {
      assert (a + b)[..|a + b| - 1] == a + b[..|b| - 1];
      TakeSplit(d, a, b[..|b| - 1]);
    }
  }

  lemma FitSplit(d: Desk, a: seq<Fact>, b: seq<Fact>)
    requires AllFit(d, a) && AllFit(TakeAll(d, a), b)
    ensures AllFit(d, a + b)
  {
    forall i | 0 <= i < |a + b|
      ensures FitsAt(d, a + b, i)
    {
      if i < |a| {
        assert (a + b)[..i] == a[..i];
        assert FitsAt(d, a, i);
      } else {
        assert (a + b)[..i] == a + b[..i - |a|];
        TakeSplit(d, a, b[..i - |a|]);
        assert FitsAt(TakeAll(d, a), b, i - |a|);
      }
    }
  }

  lemma FitOne(d: Desk, o: Fact)
    requires Fits(d, o)
    ensures AllFit(d, [o]) && TakeAll(d, [o]) == Take(d, o)
  {
    assert [o][..0] == [];
    assert forall i :: 0 <= i < |[o]| ==> FitsAt(d, [o], i);
  }

  // ---- The facade keeps its promises -----------------------------------------------------------------------

  /** The desk agrees with the facade. */
  predicate Tells(f: Facade, phase: Phase, d: Desk) {
    && d.open == Active(f) && (f.pending ==> f.instruction > 0)
    && (d.called ==> f.pending && phase != Opcode(false))
  }

  /** What an action says fits, and unless numbers ran out the desk agrees again. */
  predicate Says(out: Outcome, phase: Phase, d: Desk) {
    AllFit(d, out.facts) && (out.dropped == [] ==> Tells(out.f, phase, TakeAll(d, out.facts)))
  }

  lemma SaysNothing(f: Facade, phase: Phase, d: Desk)
    requires Tells(f, phase, d)
    ensures Says(Silent(f), phase, d)
  {
  }

  lemma EmitSays(f: Facade, fact: Fact, phase: Phase, d: Desk)
    requires f.sequence < U64_MAX ==> Fits(d, fact) && Tells(f, phase, Take(d, fact))
    ensures Says(Emit(f, fact), phase, d)
  {
    if f.sequence < U64_MAX {
      NumberPlaysNoPart(d, fact, f.sequence + 1);
      FitOne(d, fact.(sequence := f.sequence + 1));
    }
  }

  /** The number of a fact plays no part. */
  lemma NumberPlaysNoPart(d: Desk, o: Fact, n: nat)
    ensures Take(d, o.(sequence := n)) == Take(d, o) && Fits(d, o.(sequence := n)) == Fits(d, o)
  {
  }

  lemma ThenSays(a: Outcome, b: Outcome, phase: Phase, d: Desk)
    requires AllFit(d, a.facts) && AllFit(TakeAll(d, a.facts), b.facts)
    requires a.dropped == [] && b.dropped == [] ==> Tells(b.f, phase, TakeAll(TakeAll(d, a.facts), b.facts))
    ensures Says(Then(a, b), phase, d)
  {
    FitSplit(d, a.facts, b.facts);
    TakeSplit(d, a.facts, b.facts);
  }

  lemma BeginSays(f: Facade, d: Desk)
    requires Tells(f, Between, d) && !f.pending
    ensures Says(RawBegin(f), Opcode(false), d)
  {
    if f.nextInstruction < U64_MAX {
      var g := f.(nextInstruction := f.nextInstruction + 1, instruction := f.nextInstruction + 1,
                  pending := true, opcodeDone := false, closing := false);
      EmitSays(g, Blank(g, Begin), Opcode(false), d);
    }
  }

  lemma EnterSays(f: Facade, kind: FrameKind, pc: nat, before: nat, after: nat, phase: Phase, d: Desk)
    requires Tells(f, phase, d) && SameStack(f.frames, d.t) && d.t.closingInstruction == 0
    requires (kind.CallFrame? <==> f.pending) && |f.frames| <= DEPTH
    ensures Says(RawEnter(f, kind, pc, before, after), if kind.CallFrame? then Opcode(true) else phase, d)
  {
    if f.nextContext < U64_MAX {
      var later := if kind.CallFrame? then Opcode(true) else phase;
      EmitSays(Push(f, kind, pc, after), EnterFact(f, kind, pc, before, after), later, d);
    }
  }

  lemma LeaveSays(f: Facade, kind: FrameKind, pc: nat, before: nat, after: nat, d: Desk)
    requires Tells(f, Opcode(false), d) && f.pending
    ensures Says(RawLeave(f, kind, pc, before, after), Opcode(true), d)
  {
    var fact := Blank(f, Leave(kind)).(returnPc := pc);
    if Returns(f.frames, kind, pc, before, after) {
      EmitSays(f.(closing := true),
        fact.(known := true, context := Top(f), parent := f.frames[|f.frames| - 1].parent,
              spBefore := before, spAfter := after), Opcode(true), d);
    } else if f.nextContext < U64_MAX {
      EmitSays(f.(nextContext := f.nextContext + 1, frames := []),
        fact.(context := f.nextContext + 1, reason := Mismatch), Opcode(true), d);
    }
  }

  lemma TerminateSays(f: Facade, phase: Phase, d: Desk)
    requires Tells(f, phase, d)
    ensures Says(Terminate(f), Between, d)
  {
    if !Due(f) { }
    else if f.fault || f.retired >= U64_MAX {
      var fact := Blank(f, Abort).(reason := Failure);
      var out := Terminate(f);
      if f.sequence < U64_MAX {
        FitOne(d, fact.(sequence := f.sequence + 1));
      }
    } else {
      var g := f.(retired := f.retired + 1);
      if f.sequence < U64_MAX { FitOne(d, Blank(g, Retire).(sequence := f.sequence + 1)); }
    }
  }

  lemma ReportSays(f: Facade, d: Desk)
    requires Tells(f, Between, d) && (f.fault ==> !f.pending)
    ensures Says(ReportFault(f), Between, d)
  {
    if f.fault && !f.faultEmitted {
      EmitSays(f.(faultEmitted := true), Blank(f, FaultFact).(reason := Failure), Between, d);
    }
  }

  /** Without numbers nothing is said. */
  lemma ReportSilent(f: Facade)
    requires f.sequence >= U64_MAX
    ensures ReportFault(f).facts == []
  {
  }

  lemma FinishSays(f: Facade, phase: Phase, d: Desk)
    requires Tells(f, phase, d)
    ensures Says(Finish(f), Between, d)
  {
    var a := Terminate(f);
    TerminateSays(f, phase, d);
    if a.dropped == [] { ReportSays(a.f, TakeAll(d, a.facts)); }
    else { ReportSilent(a.f); }
    ThenSays(a, ReportFault(a.f), Between, d);
  }

  lemma PublishSays(f: Facade, d: Desk)
    requires Tells(f, Between, d)
    ensures Says(Publish(f), Halted, d)
  {
    if !f.faultEmitted { EmitSays(f.(faultEmitted := true), Blank(f, FaultFact).(reason := Failure), Halted, d); }
  }

  lemma ResetSays(f: Facade, phase: Phase, d: Desk)
    requires Tells(f, phase, d)
    ensures Says(Reset(f), Between, d)
  {
    var fact := Blank(f, Abort).(reason := Failure);
    var a := if f.pending then Emit(f, fact) else Silent(f);
    var g := Cleared(a.f);
    if f.pending && f.sequence < U64_MAX { FitOne(d, fact.(sequence := f.sequence + 1)); }
    var e := TakeAll(d, a.facts);
    if a.dropped == [] {
      assert e.open == 0;
      EmitSays(g, Blank(g, ResetFact), Between, e);
    }
    ThenSays(a, Emit(g, Blank(g, ResetFact)), Between, d);
  }

  lemma ActSays(w: World, step: Step, d: Desk)
    requires Follows(w.f, w.phase, d.t) && Tells(w.f, w.phase, d) && Enabled(w.f, w.phase, step)
    requires |w.f.frames| <= DEPTH
    ensures Says(Act(w.f, step), Move(w.phase, step), d)
  {
    if step.StartInstruction? { BeginSays(w.f, d); }
    else if step.CycleEnd? { FinishSays(w.f, w.phase, d); }
    else if step.ResetAll? { ResetSays(w.f, w.phase, d); }
    else if step.Call? { EnterSays(w.f, CallFrame, step.returnPc, Byte(step.sp), Byte(step.sp + 2), w.phase, d); }
    else if step.Interrupt? {
      EnterSays(w.f.(delay := 1), IrqFrame, step.returnPc, Byte(step.sp), Byte(step.sp + 2), Advancing, d);
    } else if step.Return? { LeaveSays(w.f, step.frame, step.pc, Byte(step.sp + 2), Byte(step.sp), d); }
    else if step.Other? { EmitSays(w.f, Blank(w.f, OtherFact), w.phase, d); }
    else if step.SessionFault? { PublishSays(w.f, d); }
    else { SaysNothing(Act(w.f, step).f, Move(w.phase, step), d); }
  }

  // ---- Whole runs ------------------------------------------------------------------------------------------------

  predicate Consistent(w: World) {
    var d := TakeAll(CLEAN, w.log);
    && AllFit(CLEAN, w.log) && d.t == w.t
    && (if w.dropped == [] then Tells(w.f, w.phase, d) else w.f.fault && w.f.sequence >= U64_MAX)
  }

  /** Both folds rebuild the same stack. */
  lemma {:induction false} TakeTracks(d: Desk, facts: seq<Fact>)
    ensures TakeAll(d, facts).t == TrackAll(d.t, facts)
    decreases |facts|
  {
    if facts != [] {
      var front, last := facts[..|facts| - 1], facts[|facts| - 1];
      TakeTracks(d, front);
      assert facts == front + [last];
      TrackSplit(d.t, front, [last]);
      assert [last][1..] == [];
    }
  }

  lemma FinishFails(f: Facade)
    requires Finish(f).dropped != []
    ensures Finish(f).f.fault && Finish(f).f.sequence >= U64_MAX
  {
    var a := Terminate(f);
    assert a.dropped != [] ==> a.f.fault && a.f.sequence >= U64_MAX;
  }

  lemma ResetFails(f: Facade)
    requires Reset(f).dropped != []
    ensures Reset(f).f.fault && Reset(f).f.sequence >= U64_MAX
  {
  }

  lemma DropFails(f: Facade, step: Step)
    requires Act(f, step).dropped != []
    ensures Act(f, step).f.fault && Act(f, step).f.sequence >= U64_MAX
  {
    if step.CycleEnd? { FinishFails(f); }
    else if step.ResetAll? { ResetFails(f); }
  }

  lemma NextConsistent(w: World, step: Step)
    requires Consistent(w) && Follows(w.f, w.phase, w.t) && Enabled(w.f, w.phase, step) && |w.f.frames| <= DEPTH
    ensures Consistent(Next(w, step))
  {
    var out := Act(w.f, step);
    var d := TakeAll(CLEAN, w.log);
    TakeSplit(CLEAN, w.log, out.facts);
    TakeTracks(d, out.facts);
    if w.dropped == [] {
      ActSays(w, step, d);
      FitSplit(CLEAN, w.log, out.facts);
      if out.dropped != [] { DropFails(w.f, step); }
    } else {
      SilentForever(w.f, w.phase, step);
      assert w.log + out.facts == w.log;
    }
  }

  lemma {:induction false} RunConsistent(steps: seq<Step>)
    ensures Consistent(Run(START, steps))
    decreases |steps|
  {
    if steps != [] {
      var w, step := Run(START, steps[..|steps| - 1]), steps[|steps| - 1];
      RunConsistent(steps[..|steps| - 1]);
      RunKeepsInv(START, steps[..|steps| - 1]);
      if Enabled(w.f, w.phase, step) { NextConsistent(w, step); }
    }
  }

  /** In every run every fact fits what the facts before it told. */
  lemma FactsFit(steps: seq<Step>, i: nat)
    requires i < |Run(START, steps).log|
    ensures Fits(TakeAll(CLEAN, Run(START, steps).log[..i]), Run(START, steps).log[i])
  {
    RunConsistent(steps);
    assert FitsAt(CLEAN, Run(START, steps).log, i);
  }
}
