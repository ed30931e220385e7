/** The capture table and the stages of emu_trace_internal.c as they are updated in place; each
    method is proved to do exactly what the functions of module Staging say. */
module StagingDevice {
  import opened Counters
  import opened Captures
  import opened Staging

  /** struct emu_trace_state's captures: a fixed array and the number in use. */
  class CaptureTable {
    var slots: array<Capture>
    var count: nat

    ghost predicate Valid()
      reads this, slots
    {
      slots.Length == CAPTURES && count <= CAPTURES
    }

    ghost function Contents(): seq<Capture>
      requires Valid()
      reads this, slots
    {
      slots[..count]
    }

    constructor (empty: Capture)
      ensures Valid() && Contents() == [] && fresh(slots)
    {
      slots := new Capture[CAPTURES](_ => empty);
      count := 0;
    }

    /** The inner loop of strip_failed_candidates. */
    method HasFailed(trace: nat) returns (failed: bool)
      requires Valid()
      ensures failed == Failed(Contents(), trace)
    {
      failed := false;
      for j := 0 to count
        invariant failed == Failed(slots[..j], trace)
      {
        assert slots[..j + 1] == slots[..j] + [slots[j]];
        var c := slots[j];
        if c.trace == trace && c.candidate > 0 && c.failed {
          assert Rejected(slots[..j + 1][j]);
          failed := true;
        }
        FailedExtends(slots[..j], c, trace);
      }
    }

    /** strip_failed_candidates: compacts the route list. */
    method Strip(r: Record) returns (kept: Record)
      requires Valid()
      ensures kept == r.(routes := Keep(Contents(), r.routes))
    {
      var routes := [];
      for i := 0 to |r.routes|
        invariant routes == Keep(Contents(), r.routes[..i])
      {
        var failed := HasFailed(r.routes[i]);
        KeepExtends(Contents(), r.routes[..i], r.routes[i]);
        assert r.routes[..i + 1] == r.routes[..i] + [r.routes[i]];
        if !failed { routes := routes + [r.routes[i]]; }
      }
      assert r.routes[..|r.routes|] == r.routes;
      kept := r.(routes := routes);
    }

    /** The loop of stage_overflow: every candidate of the destination fails. */
    method FailCandidates(dest: map<nat, nat>, lane: nat, sequence: nat)
      requires Valid()
      modifies slots
      ensures Valid() && Contents() == Overflowing(old(Contents()), dest, lane, sequence)
    {
      ghost var was := Contents();
      for i := 0 to count
        invariant Valid() && count == old(count)
        invariant forall k :: 0 <= k < i ==> slots[k] == Overflowing(was, dest, lane, sequence)[k]
        invariant forall k :: i <= k < count ==> slots[k] == was[k]
      {
        var c := slots[i];
        if c.trace in dest && dest[c.trace] == lane { slots[i] := Overflow(c, sequence); }
      }
    }

    /** The first loop of after_observation. Successors are appended while it runs, and only the
        captures present at its start are visited. */
    method EndScopes(o: Observation, next: nat) returns (later: nat)
      requires Valid()
      modifies this`count, slots
      ensures Valid() && (Contents(), later) == EndLoop(old(Contents()), next, 0, old(count), o)
    {
      later := next;
      var n := count;
      var i := 0;
      while i < n
        invariant Valid() && i <= n <= count
        invariant EndLoop(Contents(), later, i, n, o) == EndLoop(old(Contents()), next, 0, n, o)
      {
        ghost var cs := Contents();
        var c := slots[i];
        slots[i] := After(c, o, later);
        if Rearms(c, o) && count < CAPTURES {
          slots[count] := Successor(c, o);
          count := count + 1;
        }
        assert Contents() == EndTurn(cs, later, i, o);
        if Consumes(c, o, later) { later := Bump(later); }
        i := i + 1;
      }
    }

    /** The last loop of after_observation's boundary branch. */
    method ClearCandidates()
      requires Valid()
      modifies slots
      ensures Valid() && Contents() == All(old(Contents()), c => Clear(c))
    {
      ghost var was := Contents();
      for i := 0 to count
        invariant Valid() && count == old(count)
        invariant forall k :: 0 <= k < i ==> slots[k] == Clear(was[k])
        invariant forall k :: i <= k < count ==> slots[k] == was[k]
      {
        slots[i] := Clear(slots[i]);
      }
    }

    /** The loop of emu_trace_tick. */
    method TickAll(generation: nat, cycle: nat, sequence: nat)
      requires Valid()
      modifies slots
      ensures Valid() && Contents() == All(old(Contents()), c => Tick(c, generation, cycle, sequence))
    {
      ghost var was := Contents();
      for i := 0 to count
        invariant Valid() && count == old(count)
        invariant forall k :: 0 <= k < i ==> slots[k] == Tick(was[k], generation, cycle, sequence)
        invariant forall k :: i <= k < count ==> slots[k] == was[k]
      {
        slots[i] := Tick(slots[i], generation, cycle, sequence);
      }
    }
  }

  /** struct scope_stage of one destination, with what was handed to the destination's storage. */
  class Stage {
    var records: array<Record>
    var count: nat
    var active: bool
    var out: seq<Record>

    ghost predicate Valid()
      reads this
    {
      records.Length == STAGE && count <= STAGE
    }

    ghost function Contents(): seq<Record>
      requires Valid()
      reads this, records
    {
      records[..count]
    }

    constructor ()
      ensures Valid() && !active && Contents() == [] && out == [] && fresh(records)
    {
      records := new Record[STAGE](_ => Record(false, [], 0));
      count, active, out := 0, false, [];
    }

    /** strip_failed_candidates and store_record for one record. */
    method Store(table: CaptureTable, r: Record)
      requires Valid() && table.Valid()
      modifies this`out
      ensures out == old(out) + Stripped(table.Contents(), r)
    {
      var kept := table.Strip(r);
      if |kept.routes| > 0 { out := out + [kept]; }
    }

    /** stage_commit. */
    method CommitAll(table: CaptureTable)
      requires Valid() && table.Valid()
      modifies this`count, this`active, this`out
      ensures Valid() && !active && count == 0
      ensures out == old(out) + Commit(table.Contents(), old(Contents()))
    {
      active := false;
      for i := 0 to count
        invariant Valid() && !active && count == old(count) && records == old(records)
        invariant out == old(out) + Commit(table.Contents(), records[..i])
      {
        Store(table, records[i]);
        assert records[..i + 1][..i] == records[..i];
        assert records[..i + 1] == records[..i] + [records[i]];
      }
      count := 0;
    }

    /** routed, after the captures were counted: stage the record, or overflow, or store it. */
    method Route(table: CaptureTable, dest: map<nat, nat>, lane: nat, sequence: nat, r: Record)
      requires Valid() && table.Valid()
      modifies this, records, table.slots
      ensures Valid() && table.Valid() && records == old(records)
      ensures if old(active) && old(count) < STAGE then
                active && Contents() == old(Contents()) + [r] && out == old(out)
                    && table.Contents() == old(table.Contents())
              else if old(active) then
                && !active && count == 0
                && table.Contents() == Overflowing(old(table.Contents()), dest, lane, sequence)
                && out == old(out) + Commit(table.Contents(), old(Contents())) + Stripped(table.Contents(), r)
              else
                && !active && Contents() == old(Contents()) && table.Contents() == old(table.Contents())
                && out == old(out) + Stripped(table.Contents(), r)
    {
      if active {
        if count < STAGE {
          records[count] := r;
          count := count + 1;
          return;
        }
        table.FailCandidates(dest, lane, sequence);
        CommitAll(table);
      }
      Store(table, r);
    }
  }

  lemma FailedExtends(cs: seq<Capture>, c: Capture, trace: nat)
    ensures Failed(cs + [c], trace) == (Failed(cs, trace) || (c.trace == trace && Rejected(c)))
  {
    var ds := cs + [c];
    if Failed(cs, trace) {
      var i :| 0 <= i < |cs| && cs[i].trace == trace && Rejected(cs[i]);
      assert ds[i] == cs[i];
    } else if c.trace == trace && Rejected(c) {
      assert ds[|cs|] == c;
    }
  }

  lemma {:induction false} KeepExtends(cs: seq<Capture>, routes: seq<nat>, trace: nat)
    ensures Keep(cs, routes + [trace]) == Keep(cs, routes) + if Failed(cs, trace) then [] else [trace]
    decreases |routes|
  {
    if routes == [] {
      assert routes + [trace] == [trace];
      assert Keep(cs, [trace]) == (if Failed(cs, trace) then [] else [trace]) + Keep(cs, []);
    } else {
      assert (routes + [trace])[1..] == routes[1..] + [trace];
      KeepExtends(cs, routes[1..], trace);
    }
  }
}
