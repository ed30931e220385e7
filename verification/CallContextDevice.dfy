/** The observation state of emu_cpu_facade.c and the scope stack of
    emu_trace_internal.c as they are kept: fixed arrays of 64 frames with a depth,
    changed in place. Each method is proved to do what the functions of module
    CallContext do to the stack it stands for. */
module CallContextDevice {
  import opened Counters
  import opened CallContext

  class Observation {
    const slots: array<Frame>
    var depth: nat
    var o: Facade            // the scalar fields; the frames themselves live in the slots
    var emitted: seq<Fact>   // what the bound observer received
    var dropped: seq<Fact>

    ghost predicate Valid()
      reads this
    {
      slots.Length == DEPTH && depth <= DEPTH && o.frames == []
    }

    ghost function Abs(): Facade
      requires Valid()
      reads this, slots
    {
      o.(frames := slots[..depth])
    }

    /** The method turned `before` into what `out` says and emitted what it says. */
    twostate predicate Did(out: Outcome)
      requires Valid()
      reads this, slots
    {
      Abs() == out.f && emitted == old(emitted) + out.facts && dropped == old(dropped) + out.dropped
    }

    constructor ()
      ensures Valid() && fresh(slots) && Abs() == START.f && emitted == [] && dropped == []
    {
      slots := new Frame[DEPTH](_ => Frame(0, 0, 0, 0, CallFrame));
      depth, o, emitted, dropped := 0, START.f, [], [];
    }

    method EmitFact(fact: Fact)
      requires Valid()
      modifies this`o, this`emitted, this`dropped
      ensures Valid() && Did(Emit(old(Abs()), fact))
    {
      if o.sequence >= U64_MAX {
        o := Fail(o);
        dropped := dropped + [fact];
      } else {
        o := o.(sequence := o.sequence + 1);
        emitted := emitted + [fact.(sequence := o.sequence)];
      }
    }

    method BeginInstruction()
      requires Valid()
      modifies this`o, this`emitted, this`dropped
      ensures Valid() && Did(RawBegin(old(Abs())))
    {
      if o.nextInstruction >= U64_MAX {
        o := Fail(o);
      } else {
        o := o.(nextInstruction := o.nextInstruction + 1, instruction := o.nextInstruction + 1,
                pending := true, opcodeDone := false, closing := false);
        EmitFact(Blank(o, Begin));
      }
    }

    method PushFrame(frame: Frame)
      requires Valid()
      modifies this`depth, slots
      ensures Valid() && slots[..depth] == if old(depth) == DEPTH then [] else old(slots[..depth]) + [frame]
    {
      if depth == DEPTH {
        depth := 0;
      } else {
        slots[depth] := frame;
        depth := depth + 1;
      }
    }

    method PushSlot(kind: FrameKind, returnPc: nat, spAfter: nat)
      requires Valid()
      modifies this`o, this`depth, slots
      ensures Valid() && Abs() == Push(old(Abs()), kind, returnPc, spAfter)
    {
      var parent := if depth > 0 then slots[depth - 1].id else 0;
      assert parent == Top(Abs());
      o := o.(nextContext := o.nextContext + 1);
      PushFrame(Frame(o.nextContext, parent, returnPc, spAfter, kind));
    }

    method ContextPush(kind: FrameKind, returnPc: nat, spBefore: nat, spAfter: nat)
      requires Valid()
      modifies this`o, this`depth, this`emitted, this`dropped, slots
      ensures Valid() && Did(RawEnter(old(Abs()), kind, returnPc, spBefore, spAfter))
    {
      if o.nextContext >= U64_MAX {
        o := Fail(o);
        return;
      }
      var fact := Blank(o, Enter(kind)).(context := o.nextContext + 1, returnPc := returnPc);
      if depth == DEPTH {
        fact := fact.(reason := Overflow);
      } else {
        fact := fact.(known := true, parent := if depth > 0 then slots[depth - 1].id else 0,
                      spBefore := spBefore, spAfter := spAfter);
      }
      assert fact == EnterFact(Abs(), kind, returnPc, spBefore, spAfter);
      PushSlot(kind, returnPc, spAfter);
      EmitFact(fact);
    }

    method TopReturns(kind: FrameKind, pc: nat, spBefore: nat, spAfter: nat) returns (yes: bool)
      requires Valid()
      ensures yes == Returns(Abs().frames, kind, pc, spBefore, spAfter)
    {
      if depth == 0 { return false; }
      var top := slots[depth - 1];
      assert top == slots[..depth][depth - 1];
      return top.kind == kind && top.returnPc == pc && top.sp == spBefore && Byte(top.sp - 2) == spAfter;
    }

    /** A return that no known frame explains: the context is lost. */
    method LoseFrames(fact: Fact)
      requires Valid()
      modifies this`o, this`depth, this`emitted, this`dropped
      ensures Valid()
      ensures if old(o).nextContext >= U64_MAX then Did(Silent(Fail(old(Abs())).(frames := [])))
              else Did(Emit(old(Abs()).(nextContext := old(o).nextContext + 1, frames := []),
                            fact.(context := old(o).nextContext + 1, reason := Mismatch)))
    {
      depth := 0;
      assert slots[..depth] == [];
      if o.nextContext >= U64_MAX {
        o := Fail(o);
      } else {
        o := o.(nextContext := o.nextContext + 1);
        EmitFact(fact.(context := o.nextContext, reason := Mismatch));
      }
    }

    method ContextReturn(kind: FrameKind, pc: nat, spBefore: nat, spAfter: nat)
      requires Valid()
      modifies this`o, this`depth, this`emitted, this`dropped
      ensures Valid() && Did(RawLeave(old(Abs()), kind, pc, spBefore, spAfter))
    {
      var fact := Blank(o, Leave(kind)).(returnPc := pc);
      var yes := TopReturns(kind, pc, spBefore, spAfter);
      if yes {
        var top := slots[depth - 1];
        assert top == slots[..depth][depth - 1];
        o := o.(closing := true);
        EmitFact(fact.(known := true, context := top.id, parent := top.parent, spBefore := spBefore,
            spAfter := spAfter));
      } else {
        LoseFrames(fact);
      }
    }

    /** obs_finish up to the fault report. */
    method TerminateInstruction()
      requires Valid()
      modifies this`o, this`depth, this`emitted, this`dropped
      ensures Valid() && Did(Terminate(old(Abs())))
    {
      if !(o.pending && (o.fault || (o.opcodeDone && o.delay == 0))) { return; }
      if o.retired >= U64_MAX { o := Fail(o); }
      if o.fault {
        EmitFact(Blank(o, Abort).(reason := Failure));
      } else {
        o := o.(retired := o.retired + 1);
        EmitFact(Blank(o, Retire));
        if !o.fault && o.closing && depth > 0 { PopFrame(); }
      }
      o := o.(pending := false, closing := false);
    }

    method PopFrame()
      requires Valid() && depth > 0
      modifies this`depth
      ensures Valid() && slots[..depth] == old(slots[..depth])[..old(depth) - 1]
    {
      depth := depth - 1;
    }

    method FinishCycle()
      requires Valid()
      modifies this`o, this`depth, this`emitted, this`dropped
      ensures Valid() && Did(Finish(old(Abs())))
    {
      TerminateInstruction();
      if o.fault && !o.faultEmitted {
        var fact := Blank(o, FaultFact).(reason := Failure);
        o := o.(faultEmitted := true);
        EmitFact(fact);
      }
    }

    /** emu_cpu_observation_lifecycle for a fault of the session. */
    method PublishFault()
      requires Valid()
      modifies this`o, this`emitted, this`dropped
      ensures Valid() && Did(Publish(old(Abs())))
    {
      if o.faultEmitted { return; }
      var fact := Blank(o, FaultFact).(reason := Failure);
      o := o.(faultEmitted := true);
      EmitFact(fact);
    }

    method ResetObservation()
      requires Valid()
      modifies this`o, this`depth, this`emitted, this`dropped
      ensures Valid() && Did(Reset(old(Abs())))
    {
      if o.pending { EmitFact(Blank(o, Abort).(reason := Failure)); }
      o := o.(pending := false, closing := false, opcodeDone := false, fault := false, faultEmitted := false,
          delay := 0);
      depth := 0;
      assert slots[..depth] == [];
      EmitFact(Blank(o, ResetFact));
    }
  }

  class ScopeStack {
    const slots: array<Scope>
    var depth: nat
    var closingInstruction: nat
    var closingContext: nat

    ghost predicate Valid()
      reads this
    {
      slots.Length == DEPTH && depth <= DEPTH
    }

    ghost function Abs(): Tracker
      requires Valid()
      reads this, slots
    {
      Tracker(slots[..depth], closingInstruction, closingContext)
    }

    constructor ()
      ensures Valid() && fresh(slots) && Abs() == LOST
    {
      slots := new Scope[DEPTH](_ => Scope(0, 0, 0, 0, 0, 0, CallFrame, false));
      depth, closingInstruction, closingContext := 0, 0, 0;
    }

    method LoseContext()
      requires Valid()
      modifies this`depth, this`closingInstruction, this`closingContext
      ensures Valid() && Abs() == LOST
    {
      depth, closingInstruction, closingContext := 0, 0, 0;
    }

    method Before(fact: Fact)
      requires Valid()
      modifies this, slots
      ensures Valid() && Abs() == ScopeBefore(old(Abs()), fact)
    {
      if fact.kind.Enter? {
        if !Known(fact) || depth == DEPTH {
          LoseContext();
        } else {
          if depth > 0 && slots[depth - 1].id != fact.parent { LoseContext(); }
          ghost var base := slots[..depth];
          var scope := Scope(fact.context, fact.parent, fact.instruction, fact.returnPc, fact.spBefore, fact.spAfter,
                             fact.kind.frame, fact.kind.frame.IrqFrame?);
          slots[depth] := scope;
          depth := depth + 1;
          assert slots[..depth] == base + [scope];
        }
      } else if fact.kind.Leave? {
        if Known(fact) && depth > 0 && Matches(slots[depth - 1], fact, fact.kind.frame) {
          closingInstruction, closingContext := fact.instruction, fact.context;
        } else {
          LoseContext();
        }
      }
    }

    /** The loop of after_observation that commits the frames an instruction pushed. */
    method CommitScopes(instruction: nat)
      requires Valid()
      modifies slots
      ensures Valid() && slots[..depth] == Commit(old(slots[..depth]), instruction)
    {
      var i := 0;
      while i < depth
        invariant 0 <= i <= depth
        invariant forall k :: 0 <= k < i ==> slots[k] == Commit(old(slots[..depth]), instruction)[k]
        invariant forall k :: i <= k < depth ==> slots[k] == old(slots[k])
      {
        if slots[i].instruction == instruction { slots[i] := slots[i].(committed := true); }
        i := i + 1;
      }
    }

    method After(fact: Fact)
      requires Valid()
      modifies this, slots
      ensures Valid() && Abs() == ScopeAfter(old(Abs()), fact)
    {
      if fact.kind.Retire? {
        CommitScopes(fact.instruction);
        if closingInstruction == fact.instruction {
          if depth > 0 && slots[depth - 1].id == closingContext {
            ghost var scopes := slots[..depth];
            depth := depth - 1;
            assert slots[..depth] == scopes[..depth];
          }
          closingInstruction, closingContext := 0, 0;
        }
      } else if fact.kind.Abort? || fact.kind.FaultFact? || fact.kind.ResetFact? {
        LoseContext();
      }
    }

    method Observe(fact: Fact)
      requires Valid()
      modifies this, slots
      ensures Valid() && Abs() == Track(old(Abs()), fact)
    {
      Before(fact);
      After(fact);
    }
  }
}
