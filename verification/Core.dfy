/** The loops that drive the machine: run_control (core.c) and the session's execute loop
    (emu_session.c). Whatever else happens in a cycle comes from a world that answers each cycle. */
module Core {
  import opened Interrupts

  type World = nat -> Effects

  ghost predicate Fair(world: World) { forall k: nat :: Legal(world(k)) }

  datatype StopReason = Aborted | Exception | TargetPc | Breakpoint | Halt | Limit

  /** How the session's cycle loop ends. */
  datatype Exit = PowerDown | Wanted | Spent | DrainFault | NoProgress | CycleFault | BoundaryFault

  datatype Goals = Goals(hasTarget: bool, target: nat, hasBreakpoint: bool, breakpoint: nat)

  /** One machine cycle keeps the invariants and spends part of the measure. */
  lemma DelaySpent(c: Cpu, e: Effects)
    requires Inv(c) && Legal(e) && !c.aborted && c.delay > 0
    ensures Inv(Tick(c, e)) && Tick(c, e).delay == c.delay - 1
    ensures Tick(c, e).instructions == c.instructions && Tick(c, e).stack == c.stack
    ensures Tick(c, e).exception == c.exception
  {
    TickKeeps(c, e);
  }

  /** A cycle at an instruction boundary that does not stop the run either executes an instruction or
      enters a handler one level up. */
  lemma BoundarySpent(c: Cpu, e: Effects)
    requires Inv(c) && Legal(e) && !c.aborted && !c.exception && c.delay == 0 && !c.r.idle && !c.r.powerDown
    ensures var d := Tick(c, e);
            && Inv(d) && d.instructions <= c.instructions + 1
            && (d.aborted || d.exception || d.instructions == c.instructions + 1
                || (d.instructions == c.instructions && |d.stack| == |c.stack| + 1 <= LEVELS))
            && (d.instructions == c.instructions ==> |d.stack| >= |c.stack| || d.aborted)
  {
    TickKeeps(c, e);
    if Wants(c) && !EntryFails(c, e) { GuardNeverRejects(c); }
  }

  class Machine {
    var c: Cpu
    var now: nat   // cycles taken from the world so far

    /** The scan of handle_sab_interrupts. */
    method Arbitrate() returns (selected: int)
      ensures Best(c, selected, SOURCES) && selected == Selected(c)
    {
      selected := -1;
      var priority := 0;
      for source := 0 to SOURCES
        invariant -1 <= selected < SOURCES && selected == Scan(c, source)
        invariant selected >= 0 ==> priority == Priority(c.r, selected)
      {
        if source in c.r.pending && source in c.r.enabled && source !in c.inService
            && !(source == TIMER2 && !c.r.timer2) {
          var p := Priority(c.r, source);
          if c.stack == [] || p > c.stack[|c.stack| - 1].priority {
            if selected < 0 || p > priority { selected, priority := source, p; }
          }
        }
      }
      ChosenIsBest(c);
    }

    method TickOnce(world: World)
      requires Inv(c) && Fair(world)
      modifies this
      ensures c == Tick(old(c), world(old(now))) && now == old(now) + 1 && Inv(c)
    {
      TickKeeps(c, world(now));
      c := Tick(c, world(now));
      now := now + 1;
    }

    /** run_control. It ends for every world: instructions left, then levels of nesting left, then
        pending delay go down. At most `limit` instructions are executed, and unless the run was
        aborted it returns with no delay pending. */
    method RunControl(goals: Goals, limit: nat, world: World) returns (reason: StopReason)
      requires Inv(c) && Fair(world)
      modifies this
      ensures Inv(c) && old(c).instructions <= c.instructions <= old(c).instructions + limit
      ensures reason.Aborted? == c.aborted && (!c.aborted ==> c.delay == 0)
      ensures reason.Limit? ==> c.instructions == old(c).instructions + limit
      ensures reason.Halt? ==> c.r.idle || c.r.powerDown
      ensures reason.Exception? ==> c.exception
      ensures reason.TargetPc? ==> goals.hasTarget && c.r.pc == goals.target
      ensures reason.Breakpoint? ==> goals.hasBreakpoint && c.r.pc == goals.breakpoint
    {
      var start := c.instructions;
      c := c.(exception := false);
      while true
        invariant Inv(c) && start <= c.instructions <= start + limit
        decreases start + limit - c.instructions, !(c.aborted || c.exception), LEVELS - |c.stack|
      {
        ghost var before := c;
        while c.delay != 0 && !c.aborted
          invariant Inv(c) && c.instructions == before.instructions && c.stack == before.stack
              && c.exception == before.exception
          invariant before.aborted ==> c.aborted
          decreases c.delay
        {
          DelaySpent(c, world(now));
          TickOnce(world);
        }
        if c.aborted { return Aborted; }
        if c.exception { return Exception; }
        if goals.hasTarget && c.r.pc == goals.target { return TargetPc; }
        if goals.hasBreakpoint && c.r.pc == goals.breakpoint { return Breakpoint; }
        if c.r.idle || c.r.powerDown { return Halt; }
        if c.instructions - start >= limit { return Limit; }
        BoundarySpent(c, world(now));
        DepthBounded(c.stack);
        TickOnce(world);
        DepthBounded(c.stack);
      }
    }

    /** The cycle loop of execute. After each cycle the boundary is served, which may fail. Left alone the
        loop stops at safe boundaries only, so once the budget is used up it drains the pending
        delay. The fault after sixteen draining cycles is unreachable, at most three are ever needed; so
        is the one for a cycle without progress. `wants` is any other reason to stop at a safe
        boundary, `fails` says after which cycle the boundary fails. */
    method Pump(budget: nat, world: World, wants: nat -> bool, fails: nat -> bool) returns (turns: nat, exit: Exit)
      requires Inv(c) && Fair(world)
      modifies this
      ensures Inv(c) && turns <= budget + LONGEST && !exit.DrainFault? && !exit.NoProgress?
      ensures exit.PowerDown? ==> c.delay == 0 && c.r.powerDown
      ensures exit.Wanted? ==> c.delay == 0 && !c.r.powerDown && wants(turns)
      ensures exit.Spent? ==> c.delay == 0 && !c.r.powerDown && !wants(turns) && turns >= budget
      ensures exit.CycleFault? ==> c.aborted && c.cycles == old(c).cycles + turns
      ensures exit.BoundaryFault? <==> turns > 0 && fails(turns) && !exit.CycleFault?
      ensures (forall k :: 0 < k < turns ==> !fails(k)) && (!exit.CycleFault? ==> c.cycles == old(c).cycles + turns)
    {
      turns := 0;
      while true
        invariant Inv(c) && (turns <= budget || turns + c.delay <= budget + LONGEST) && turns <= budget + LONGEST
        invariant (forall k :: 0 < k <= turns ==> !fails(k)) && c.cycles == old(c).cycles + turns
        decreases budget + LONGEST + 1 - turns
      {
        if c.delay == 0 {
          if c.r.powerDown { return turns, PowerDown; }
          if wants(turns) { return turns, Wanted; }
          if turns >= budget { return turns, Spent; }
        }
        if turns >= budget + 16 { return turns, DrainFault; }
        var before := c;
        if c.delay != 0 && !c.aborted { DelaySpent(c, world(now)); }
        TickOnce(world);
        if c.aborted { return turns, CycleFault; }
        CycleAdvancesOne(before, world(now - 1));
        if c.cycles != before.cycles + 1 { return turns, NoProgress; }
        turns := turns + 1;
        if fails(turns) { return turns, BoundaryFault; }
      }
    }
  }
}
