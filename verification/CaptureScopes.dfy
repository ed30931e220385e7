/** Captures bound to a call context, seen together with the stack the trace layer rebuilds
    (emu_trace_internal.c): what a fact means to a capture follows from that stack. The whole trace
    layer runs here on the facts of the facade. */
module CaptureScopes {
  import opened Counters
  import opened CallContext
  import opened FactFlow
  import C = Captures
  import S = Staging

  /** Why scope_before forgets the stack on this fact, if it does. */
  function Lost(t: Tracker, o: Fact): seq<C.Reason> {
    if o.kind.Enter? then
      if !Known(o) || |t.scopes| == DEPTH
          then [if o.reason.Overflow? || |t.scopes| == DEPTH then C.Overflowed else C.Unknown]
      else if t.scopes != [] && t.scopes[|t.scopes| - 1].id != o.parent then [C.Unknown]
      else []
    else if o.kind.Leave? && !Closes(t, o) then [if t.scopes != [] then C.Mismatched else C.Unknown]
    else []
  }

  predicate Closes(t: Tracker, o: Fact) {
    o.kind.Leave? && Known(o) && t.scopes != [] && Matches(t.scopes[|t.scopes| - 1], o, o.kind.frame)
  }

  function KindOf(k: FactKind): C.Kind {
    match k
    case Enter(kind) => if kind.CallFrame? then C.Call else C.Other
    case Leave(_) => C.Return
    case Retire => C.Retire
    case Abort => C.Abort
    case FaultFact => C.Fault
    case ResetFact => C.Reset
    case _ => C.Other
  }

  /** The fact as the captures see it; target, generation and cycle are the fact's own and play no
      part in the stack. */
  function Seen(t: Tracker, o: Fact, target: seq<nat>, generation: nat, cycle: nat): C.Observation {
    C.Observation(KindOf(o.kind), o.sequence, o.instruction, generation, cycle, target, Known(o), o.reason.Overflow?,
                  o.context, Lost(t, o), Closes(t, o))
  }

  ghost predicate OnStack(t: Tracker, context: nat) { exists i :: 0 <= i < |t.scopes| && t.scopes[i].id == context }

  /** A bound capture's context is on the stack, and so is the context an armed candidate waits for. */
  ghost predicate Anchored(c: C.Capture, t: Tracker) {
    c.mode.Persistent? ||
    (&& (c.state.Bound? ==> OnStack(t, c.context))
     && (c.state.Armed? && c.candidate > 0 ==> OnStack(t, c.candidateContext)))
  }

  /** A frame about to be popped closes the captures bound to it. */
  predicate Closing(c: C.Capture, t: Tracker) {
    c.mode.Persistent? || !c.state.Bound? || t.closingInstruction == 0 || c.context != t.closingContext
        || c.closing == t.closingInstruction
  }

  /** No candidate waits for the frame about to be popped. */
  predicate Apart(c: C.Capture, t: Tracker) {
    c.mode.Persistent? || !(c.state.Armed? && c.candidate > 0) || t.closingInstruction == 0
        || c.candidateContext != t.closingContext
  }

  /** An armed candidate, waiting for its instruction to retire. */
  predicate Awaits(c: C.Capture) { c.state.Armed? && c.candidate > 0 }

  /** What a fact that fits the facts before it means for one capture: there is room on the stack for a
      known context while no return is under way, and none returns while a candidate waits. */
  ghost predicate Proper(c: C.Capture, t: Tracker, o: Fact) {
    && (o.kind.Leave? ==> !Awaits(c))
    && (o.kind.Enter? && Known(o) ==> |t.scopes| < DEPTH && t.closingInstruction == 0)
    && (o.kind.Leave? || o.kind.Retire? ==> o.instruction > 0)
  }

  /** Between an observation's two halves records are counted, stages overflow, storage fills up: the
      capture may end, but its bindings stay. */
  predicate Meanwhile(c: C.Capture, d: C.Capture) {
    && d.mode == c.mode && (d.state == c.state || !C.Live(d)) && d.context == c.context && d.candidate == c.candidate
    && d.candidateContext == c.candidateContext && d.closing == c.closing && d.pending == c.pending
  }

  // ---- The first half -------------------------------------------------------------------------------

  lemma PushKeepsOnStack(t: Tracker, o: Fact, context: nat)
    requires o.kind.Enter? && Lost(t, o) == [] && OnStack(t, context)
    ensures OnStack(ScopeBefore(t, o), context)
  {
    var i :| 0 <= i < |t.scopes| && t.scopes[i].id == context;
    assert ScopeBefore(t, o).scopes[i].id == context;
  }

  lemma PushedOnStack(t: Tracker, o: Fact)
    requires o.kind.Enter? && Known(o) && |t.scopes| < DEPTH
    ensures OnStack(ScopeBefore(t, o), o.context)
  {
    var s := ScopeBefore(t, o).scopes;
    assert s[|s| - 1].id == o.context;
  }

  /** Unless the stack was forgotten, what was on it still is. */
  lemma BeforeKeepsOnStack(t: Tracker, o: Fact, context: nat)
    requires Lost(t, o) == [] && OnStack(t, context)
    ensures OnStack(ScopeBefore(t, o), context)
  {
    if o.kind.Enter? { PushKeepsOnStack(t, o, context); }
  }

  /** After the first half a capture is anchored, or waits to be told that its context is lost. */
  ghost predicate Informed(c: C.Capture, t: Tracker) {
    c.pending != [] || (Anchored(c, t) && Closing(c, t) && Apart(c, t))
  }

  lemma ObserveInforms(c: C.Capture, t: Tracker, o: Fact, target: seq<nat>, generation: nat, cycle: nat)
    requires c.pending == [] && Anchored(c, t) && Closing(c, t) && Apart(c, t) && Proper(c, t, o)
    ensures Informed(C.Before(c, Seen(t, o, target, generation, cycle)), ScopeBefore(t, o))
  {
    var s := Seen(t, o, target, generation, cycle);
    var ticked := C.Tick(c, generation, cycle, o.sequence);
    if Lost(t, o) != [] { ForgetInforms(c, t, o, s, ticked); }
    else { KeepInforms(c, t, o, s, ticked); }
  }

  lemma ForgetInforms(c: C.Capture, t: Tracker, o: Fact, s: C.Observation, ticked: C.Capture)
    requires c.pending == [] && Lost(t, o) != [] && Proper(c, t, o)
    requires s == Seen(t, o, s.target, s.generation, s.cycle) && ticked == C.Tick(c, s.generation, s.cycle, o.sequence)
    ensures Informed(C.Before(c, s), ScopeBefore(t, o))
  {
    if o.kind.Enter? && Known(o) { PushedOnStack(t, o); }
  }

  lemma KeepInforms(c: C.Capture, t: Tracker, o: Fact, s: C.Observation, ticked: C.Capture)
    requires c.pending == [] && Anchored(c, t) && Closing(c, t) && Apart(c, t) && Proper(c, t, o) && Lost(t, o) == []
    requires s == Seen(t, o, s.target, s.generation, s.cycle) && ticked == C.Tick(c, s.generation, s.cycle, o.sequence)
    ensures Informed(C.Before(c, s), ScopeBefore(t, o))
  {
    if !c.mode.Persistent? && c.state.Bound? { BeforeKeepsOnStack(t, o, c.context); }
    if !c.mode.Persistent? && c.state.Armed? && c.candidate > 0 { BeforeKeepsOnStack(t, o, c.candidateContext); }
    if o.kind.Enter? { PushedOnStack(t, o); }
  }

  // ---- The second half ------------------------------------------------------------------------------

  lemma PopKeepsOnStack(t: Tracker, o: Fact, context: nat)
    requires o.kind.Retire? && OnStack(t, context)
    requires (t.closingInstruction == o.instruction ==> context != t.closingContext)
    ensures OnStack(ScopeAfter(t, o), context)
  {
    var i :| 0 <= i < |t.scopes| && t.scopes[i].id == context;
    var scopes := Commit(t.scopes, o.instruction);
    assert scopes[i].id == context;
    assert ScopeAfter(t, o).scopes == scopes
        || (|scopes| > 0 && ScopeAfter(t, o).scopes == scopes[..|scopes| - 1] && i < |scopes| - 1);
    assert ScopeAfter(t, o).scopes[i].id == context;
  }

  /** Anchored, closing and apart: everything a capture and the stack promise between observations. */
  ghost predicate Settled(c: C.Capture, t: Tracker) {
    c.pending == [] && Anchored(c, t) && Closing(c, t) && Apart(c, t)
  }

  /** After the instruction's frame is popped: what is bound or waits elsewhere is still on the stack. */
  lemma PopSettles(d: C.Capture, t: Tracker, o: Fact)
    requires d.pending == [] && o.kind.Retire? && o.instruction > 0 && !d.mode.Persistent?
    requires d.state.Bound? ==>
        OnStack(t, d.context) && Closing(d, t)
            && (t.closingInstruction == o.instruction ==> d.context != t.closingContext)
    requires d.state.Armed? && d.candidate > 0 ==> OnStack(t, d.candidateContext) && Apart(d, t)
    ensures Settled(d, ScopeAfter(t, o))
  {
    if d.state.Bound? { PopKeepsOnStack(t, o, d.context); }
    if d.state.Armed? && d.candidate > 0 { PopKeepsOnStack(t, o, d.candidateContext); }
  }

  /** What a retirement makes of a scoped capture: a bound one stays bound only if it is not closing with
      this instruction, and a new binding is to the context its candidate waited for. */
  lemma RetireOutcome(c: C.Capture, s: C.Observation, next: nat)
    requires c.pending == [] && s.kind.Retire? && !c.mode.Persistent?
    ensures var d := C.After(c, s, next);
            && d.pending == [] && !d.mode.Persistent? && d.candidate == c.candidate
                && d.candidateContext == c.candidateContext
            && (d.state.Bound? && c.state.Bound? ==> d.context == c.context && d.closing == c.closing != s.instruction)
            && (d.state.Bound? && !c.state.Bound? ==>
                c.state.Armed? && c.candidate == s.instruction && d.context == c.candidateContext
                    && d.closing != s.instruction)
            && (d.state.Armed? ==> c.state.Armed?)
  {
  }

  /** When an instruction retires, what it bound and what stays bound is on the stack, and what was
      bound to the frame it popped has ended. */
  lemma RetireAnchors(c: C.Capture, t: Tracker, o: Fact, s: C.Observation, next: nat)
    requires Settled(c, t) && o.kind.Retire? && s.kind.Retire? && s.instruction == o.instruction > 0
    requires !c.mode.Persistent?
    ensures Settled(C.After(c, s, next), ScopeAfter(t, o))
  {
    RetireOutcome(c, s, next);
    PopSettles(C.After(c, s, next), t, o);
  }

  lemma EndedSettles(c: C.Capture, t: Tracker)
    requires c.pending == [] && !C.Live(c)
    ensures Settled(c, t)
  {
  }

  lemma PendingEnds(c: C.Capture, s: C.Observation, next: nat)
    requires c.pending != [] && !c.mode.Persistent?
    ensures C.After(c, s, next).pending == [] && !C.Live(C.After(c, s, next))
  {
    var judged := C.EndScope(c, c.pending[0], s.sequence).(pending := []);
    assert C.Settle(c, s) == judged;
  }

  lemma FaultEnds(c: C.Capture, s: C.Observation, next: nat)
    requires !c.mode.Persistent? && (s.kind.Abort? || s.kind.Fault? || s.kind.Reset?) && c.pending == []
    ensures C.After(c, s, next).pending == [] && !C.Live(C.After(c, s, next))
  {
  }

  lemma QuietAfter(c: C.Capture, s: C.Observation, next: nat)
    requires c.pending == [] && (s.kind.Call? || s.kind.Return? || s.kind.Other?)
    ensures C.After(c, s, next) == c
  {
  }

  /** A capture that survives the second half is anchored in the stack that survives it. */
  lemma AfterSettles(c: C.Capture, t: Tracker, o: Fact, s: C.Observation, next: nat)
    requires Informed(c, t) && s.kind == KindOf(o.kind) && s.instruction == o.instruction
    requires (o.kind.Retire? ==> o.instruction > 0)
    requires c.mode.Persistent? ==> c.pending == []
    ensures Settled(C.After(c, s, next), ScopeAfter(t, o))
  {
    if c.mode.Persistent? {
    } else if c.pending != [] {
      PendingEnds(c, s, next);
      EndedSettles(C.After(c, s, next), ScopeAfter(t, o));
    } else if o.kind.Retire? {
      RetireAnchors(c, t, o, s, next);
    } else if o.kind.Abort? || o.kind.FaultFact? || o.kind.ResetFact? {
      FaultEnds(c, s, next);
      EndedSettles(C.After(c, s, next), ScopeAfter(t, o));
    } else {
      QuietAfter(c, s, next);
    }
  }

  // ---- Starting a capture ---------------------------------------------------------------------------------

  /** An armed capture that waits for its call is settled, whatever is on the stack. */
  lemma ArmedStartSettled(c: C.Capture, t: Tracker)
    requires c.state.Armed? && c.candidate == 0 && c.pending == []
    ensures Settled(c, t)
  {
  }

  /** The stack check of emu_trace_capture: the context asked for is a call that has retired, on top. */
  predicate OnTop(t: Tracker, context: nat) {
    && t.scopes != [] && t.scopes[|t.scopes| - 1].id == context
    && t.scopes[|t.scopes| - 1].kind.CallFrame? && t.scopes[|t.scopes| - 1].committed
  }

  /** A capture started on the active context is settled exactly if that context is not being returned
      from. */
  lemma ActiveStartSettled(w: S.World, q: S.Request, t: Tracker)
    requires q.mode.ActiveContext? && OnTop(t, q.context)
    ensures Settled(S.Started(w, q), t) <==> t.closingInstruction == 0 || q.context != t.closingContext
  {
    assert t.scopes[|t.scopes| - 1].id == q.context;
  }

  /** Started while its context is being returned from, it would stay bound when the frame is popped. */
  lemma ReturningStartOutlives(w: S.World, q: S.Request, t: Tracker, o: Fact, s: C.Observation, next: nat)
    requires q.mode.ActiveContext? && OnTop(t, q.context) && t.closingContext == q.context
    requires t.closingInstruction == o.instruction == s.instruction > 0 && o.kind.Retire? && s.kind.Retire?
    requires forall i :: 0 <= i < |t.scopes| - 1 ==> t.scopes[i].id != q.context
    ensures var c := C.After(S.Started(w, q), s, next); c.state.Bound? && !OnStack(ScopeAfter(t, o), c.context)
  {
    var scopes := Commit(t.scopes, o.instruction);
    assert forall i :: 0 <= i < |scopes| ==> scopes[i].id == t.scopes[i].id;
  }

  // ---- The trace layer on the facade's facts ---------------------------------------------------------------

  /** `at` is how many facts of the log have been seen. */
  datatype Joint = Joint(w: S.World, t: Tracker, at: nat)

  /** The next fact arrives, with the target, generation and cycle it carries, or the trace layer takes a
      step of its own. */
  datatype Deed = See(target: seq<nat>, generation: nat, cycle: nat) | Do(step: S.Step)

  /** The session starts captures between instructions only. */
  predicate MayStart(j: Joint, q: S.Request) {
    j.w.open == 0 && (q.mode.ActiveContext? ==> OnTop(j.t, q.context))
  }

  function SeeNext(log: seq<Fact>, j: Joint, target: seq<nat>, generation: nat, cycle: nat): Joint
    requires j.at < |log|
  {
    var o := log[j.at];
    Joint(S.Next(j.w, S.Observe(Seen(j.t, o, target, generation, cycle))), ScopeBefore(j.t, o), j.at + 1)
  }

  /** The stack is popped when the scopes have ended. */
  function DoNext(log: seq<Fact>, j: Joint, step: S.Step): Joint {
    if step.Observe? || (step.Start? && !MayStart(j, step.request)) then j
    else
      var popped := if step.EndScopes? && j.w.phase.Routing? && 0 < j.at <= |log| then ScopeAfter(j.t, log[j.at - 1])
          else j.t;
      Joint(S.Next(j.w, step), popped, j.at)
  }

  function Perform(log: seq<Fact>, j: Joint, deed: Deed): Joint {
    match deed
    case See(target, generation, cycle) =>
      if j.at < |log| && j.w.phase.Quiet? then SeeNext(log, j, target, generation, cycle) else j
    case Do(step) => DoNext(log, j, step)
  }

  function PerformAll(log: seq<Fact>, j: Joint, deeds: seq<Deed>): Joint
    decreases |deeds|
  {
    if deeds == [] then j else Perform(log, PerformAll(log, j, deeds[..|deeds| - 1]), deeds[|deeds| - 1])
  }

  // ---- What holds all the while --------------------------------------------------------------------------------

  function DeskAt(log: seq<Fact>, n: nat): Desk
    requires n <= |log|
  {
    TakeAll(CLEAN, log[..n])
  }

  ghost predicate AllSettled(cs: seq<C.Capture>, t: Tracker) { forall i :: 0 <= i < |cs| ==> Settled(cs[i], t) }

  ghost predicate Told(c: C.Capture, t: Tracker) { Informed(c, t) && (c.mode.Persistent? ==> c.pending == []) }

  ghost predicate AllTold(cs: seq<C.Capture>, t: Tracker) { forall i :: 0 <= i < |cs| ==> Told(cs[i], t) }

  /** A candidate waits only while its instruction is known to have called. */
  predicate AllCalled(cs: seq<C.Capture>, called: bool) { forall i :: 0 <= i < |cs| && Awaits(cs[i]) ==> called }

  predicate SameFact(s: C.Observation, o: Fact) { s.kind == KindOf(o.kind) && s.instruction == o.instruction }

  function OpenAfter(d: Desk, o: Fact): nat { if o.instruction > 0 then o.instruction else d.open }

  ghost predicate QuietOk(j: Joint, d: Desk) {
    j.t == d.t && j.w.open == d.open && AllSettled(j.w.captures, j.t) && AllCalled(j.w.captures, d.called)
  }

  /** While a fact `o` is being dealt with that found the desk `d`. */
  ghost predicate BusyOk(j: Joint, s: C.Observation, d: Desk, o: Fact) {
    && SameFact(s, o) && j.w.open == OpenAfter(d, o) && AllCalled(j.w.captures, d.called || IsCall(o))
    && (if j.w.phase.Routing? then j.t == ScopeBefore(d.t, o) && AllTold(j.w.captures, j.t)
        else j.t == Track(d.t, o) && AllSettled(j.w.captures, j.t))
  }

  ghost predicate JointOk(log: seq<Fact>, j: Joint) {
    && j.at <= |log| && S.Steady(j.w)
    && (if j.w.phase.Quiet? then QuietOk(j, DeskAt(log, j.at))
        else j.at > 0 && BusyOk(j, j.w.phase.o, DeskAt(log, j.at - 1), log[j.at - 1]))
  }

  lemma DeskNext(log: seq<Fact>, n: nat)
    requires n < |log|
    ensures DeskAt(log, n + 1) == Take(DeskAt(log, n), log[n])
  {
    assert log[..n + 1][..n] == log[..n];
  }

  // ---- A fact arrives --------------------------------------------------------------------------------------------

  lemma BeforeAwaits(c: C.Capture, s: C.Observation)
    requires C.WithinLimits(c) && Awaits(C.Before(c, s))
    ensures Awaits(c) || s.kind.Call?
  {
    C.BeforeEvolves(c, s);
  }

  lemma SeenTells(c: C.Capture, d: Desk, o: Fact, s: C.Observation)
    requires Settled(c, d.t) && (Awaits(c) ==> d.called) && Fits(d, o) && C.WithinLimits(c)
    requires s == Seen(d.t, o, s.target, s.generation, s.cycle)
    ensures Told(C.Before(c, s), ScopeBefore(d.t, o)) && (Awaits(C.Before(c, s)) ==> d.called || IsCall(o))
  {
    ObserveInforms(c, d.t, o, s.target, s.generation, s.cycle);
    if c.mode.Persistent? { BeforePending(c, s); }
    if Awaits(C.Before(c, s)) { BeforeAwaits(c, s); }
    BeforeMode(c, s);
  }

  lemma BeforeMode(c: C.Capture, s: C.Observation)
    ensures C.Before(c, s).mode == c.mode
  {
  }

  lemma BeforePending(c: C.Capture, s: C.Observation)
    requires c.mode.Persistent? && c.pending == []
    ensures C.Before(c, s).mode.Persistent? && C.Before(c, s).pending == []
  {
  }

  /** Every fact of the facade is one the staging layer expects. */
  lemma SeeAllowed(j: Joint, d: Desk, o: Fact, target: seq<nat>, generation: nat, cycle: nat)
    requires j.w.phase.Quiet? && j.w.open == d.open && Fits(d, o)
    ensures S.Allowed(j.w, S.Observe(Seen(j.t, o, target, generation, cycle)))
  {
  }

  lemma SeeKeeps(log: seq<Fact>, j: Joint, target: seq<nat>, generation: nat, cycle: nat)
    requires JointOk(log, j) && j.w.phase.Quiet? && j.at < |log| && Fits(DeskAt(log, j.at), log[j.at])
    ensures JointOk(log, SeeNext(log, j, target, generation, cycle))
  {
    var d, o := DeskAt(log, j.at), log[j.at];
    var s := Seen(j.t, o, target, generation, cycle);
    SeeAllowed(j, d, o, target, generation, cycle);
    S.NextKeepsInv(j.w, S.Observe(s));
    S.NextKeepsAsked(j.w, S.Observe(s));
    var k := SeeNext(log, j, target, generation, cycle);
    forall i | 0 <= i < |k.w.captures|
      ensures Told(k.w.captures[i], k.t) && (Awaits(k.w.captures[i]) ==> d.called || IsCall(o))
    {
      assert k.w.captures[i] == C.Before(j.w.captures[i], s);
      SeenTells(j.w.captures[i], d, o, s);
    }
  }

  // ---- Routing and the like ----------------------------------------------------------------------------------------

  ghost predicate AllMeanwhile(cs: seq<C.Capture>, ds: seq<C.Capture>) {
    |cs| == |ds| && forall i :: 0 <= i < |cs| ==> Meanwhile(cs[i], ds[i])
  }

  lemma MeanwhileAll(cs: seq<C.Capture>, ds: seq<C.Capture>, t: Tracker, called: bool)
    requires AllMeanwhile(cs, ds) && AllCalled(cs, called)
    ensures AllCalled(ds, called) && (AllTold(cs, t) ==> AllTold(ds, t)) && (AllSettled(cs, t) ==> AllSettled(ds, t))
  {
    forall i | 0 <= i < |ds|
      ensures (Awaits(ds[i]) ==> called) && (Told(cs[i], t) ==> Told(ds[i], t))
      ensures (Settled(cs[i], t) ==> Settled(ds[i], t))
    {
      assert Meanwhile(cs[i], ds[i]);
    }
  }

  /** Deeds between the two halves of an observation, or between observations, leave bindings alone. */
  lemma RouteMeanwhile(w: S.World, d: nat, r: S.Record)
    requires d < |w.lanes|
    ensures AllMeanwhile(w.captures, S.RouteWorld(w, d, r).captures)
  {
    var cs := S.Counted(w.captures, r, w.sequence);
    assert AllMeanwhile(w.captures, cs);
    assert AllMeanwhile(w.captures, S.Overflowing(cs, w.dest, d, w.sequence));
  }

  predicate Minor(step: S.Step) {
    step.Ask? || step.Route? || step.Clock? || step.StorageFull? || step.StopTrace?
  }

  lemma MinorMeanwhile(w: S.World, step: S.Step)
    requires Minor(step)
    ensures var v := S.Next(w, step);
            && AllMeanwhile(w.captures, v.captures) && v.open == w.open
            && (v.phase == w.phase || (v.phase.Routing? && w.phase.Routing? && v.phase.o == w.phase.o))
  {
    if step.Route? && S.Allowed(w, step) { RouteMeanwhile(w, step.lane, step.record); }
  }

  lemma MinorKeeps(log: seq<Fact>, j: Joint, step: S.Step)
    requires JointOk(log, j) && Minor(step)
    ensures JointOk(log, DoNext(log, j, step))
  {
    S.NextKeepsInv(j.w, step);
    S.NextKeepsAsked(j.w, step);
    MinorMeanwhile(j.w, step);
    var v := S.Next(j.w, step);
    if j.w.phase.Quiet? { MeanwhileAll(j.w.captures, v.captures, j.t, DeskAt(log, j.at).called); }
    else {
      var d, o := DeskAt(log, j.at - 1), log[j.at - 1];
      MeanwhileAll(j.w.captures, v.captures, j.t, d.called || IsCall(o));
    }
  }

  // ---- The start of a capture ------------------------------------------------------------------------------------

  /** No return is under way between instructions. */
  lemma {:induction false} ClosingOpen(log: seq<Fact>, n: nat)
    requires n <= |log| && AllFit(CLEAN, log)
    ensures var d := DeskAt(log, n); d.t.closingInstruction == 0 || d.t.closingInstruction == d.open
    decreases n
  {
    if n > 0 {
      ClosingOpen(log, n - 1);
      DeskNext(log, n - 1);
      assert FitsAt(CLEAN, log, n - 1);
    }
  }

  lemma StartedSettled(j: Joint, q: S.Request)
    requires MayStart(j, q) && j.t.closingInstruction == 0
    ensures Settled(S.Started(j.w, q), j.t) && !Awaits(S.Started(j.w, q))
  {
    if q.mode.ActiveContext? { ActiveStartSettled(j.w, q, j.t); }
  }

  lemma StartKeepsJoint(log: seq<Fact>, j: Joint, q: S.Request)
    requires JointOk(log, j) && AllFit(CLEAN, log)
    ensures JointOk(log, DoNext(log, j, S.Start(q)))
  {
    S.NextKeepsInv(j.w, S.Start(q));
    S.NextKeepsAsked(j.w, S.Start(q));
    if S.CanStart(j.w, q) && MayStart(j, q) {
      ClosingOpen(log, j.at);
      StartedSettled(j, q);
    }
  }

  // ---- The end of scopes -----------------------------------------------------------------------------------------

  ghost predicate IsAfter(c: C.Capture, d: C.Capture, s: C.Observation) { exists next: nat :: d == C.After(c, s, next) }

  ghost predicate AfterFrom(cs: seq<C.Capture>, ds: seq<C.Capture>, i: nat, n: nat, s: C.Observation)
    requires i <= n <= |cs|
  {
    && |cs| <= |ds|
    && (forall j :: 0 <= j < |cs| && !(i <= j < n) ==> ds[j] == cs[j])
    && (forall j :: i <= j < n ==> IsAfter(cs[j], ds[j], s))
    && (forall j :: |cs| <= j < |ds| ==> S.Fresh(ds[j]) && ds[j].pending == [])
  }

  lemma TurnAfter(cs: seq<C.Capture>, next: nat, i: nat, s: C.Observation)
    requires i < |cs| && C.WithinLimits(cs[i])
    ensures AfterFrom(cs, S.EndTurn(cs, next, i, s), i, i + 1, s)
  {
    assert IsAfter(cs[i], C.After(cs[i], s, next), s);
  }

  lemma AfterCompose(cs: seq<C.Capture>, ms: seq<C.Capture>, ds: seq<C.Capture>, i: nat, n: nat, s: C.Observation)
    requires i < n <= |cs| && AfterFrom(cs, ms, i, i + 1, s) && AfterFrom(ms, ds, i + 1, n, s)
    ensures AfterFrom(cs, ds, i, n, s)
  {
    forall j | i <= j < n ensures IsAfter(cs[j], ds[j], s) {
      if j == i { assert ds[j] == ms[j]; } else { assert ms[j] == cs[j]; }
    }
  }

  predicate Limits(cs: seq<C.Capture>, i: nat, n: nat) {
    i <= n <= |cs| && forall j :: i <= j < n ==> C.WithinLimits(cs[j])
  }

  lemma LimitsStay(cs: seq<C.Capture>, ms: seq<C.Capture>, i: nat, n: nat, s: C.Observation)
    requires Limits(cs, i, n) && i < n && AfterFrom(cs, ms, i, i + 1, s)
    ensures Limits(ms, i + 1, n)
  {
  }

  /** One turn of the loop. */
  lemma OneTurn(cs: seq<C.Capture>, next: nat, i: nat, n: nat, s: C.Observation) returns (ms: seq<C.Capture>,
                later: nat)
    requires Limits(cs, i, n) && i < n
    ensures AfterFrom(cs, ms, i, i + 1, s) && n <= |ms|
    ensures S.EndLoop(cs, next, i, n, s) == S.EndLoop(ms, later, i + 1, n, s)
  {
    ms := S.EndTurn(cs, next, i, s);
    later := if S.TurnConsumes(cs, next, i, s) then Bump(next) else next;
    TurnAfter(cs, next, i, s);
  }

  lemma {:induction false} EndLoopAfter(cs: seq<C.Capture>, next: nat, i: nat, n: nat, s: C.Observation,
                                        ds: seq<C.Capture>)
    requires Limits(cs, i, n) && ds == S.EndLoop(cs, next, i, n, s).0
    ensures AfterFrom(cs, ds, i, n, s)
    decreases n - i
  {
    if i < n {
      var ms, later := OneTurn(cs, next, i, n, s);
      LimitsStay(cs, ms, i, n, s);
      EndLoopAfter(ms, later, i + 1, n, s, ds);
      AfterCompose(cs, ms, ds, i, n, s);
    }
  }

  lemma EndedSettled(c: C.Capture, d: C.Capture, t: Tracker, o: Fact, s: C.Observation)
    requires Told(c, t) && IsAfter(c, d, s) && SameFact(s, o) && (Ends(o) ==> o.instruction > 0)
    ensures Settled(d, ScopeAfter(t, o)) && (Awaits(d) ==> Awaits(c))
  {
    var next: nat :| d == C.After(c, s, next);
    AfterSettles(c, t, o, s, next);
    C.AfterEvolves(c, s, next);
  }

  lemma AllEndedSettled(cs: seq<C.Capture>, ds: seq<C.Capture>, t: Tracker, o: Fact, s: C.Observation, called: bool)
    requires AllTold(cs, t) && AllCalled(cs, called) && AfterFrom(cs, ds, 0, |cs|, s)
    requires SameFact(s, o) && (Ends(o) ==> o.instruction > 0)
    ensures AllSettled(ds, ScopeAfter(t, o)) && AllCalled(ds, called)
  {
    forall i | 0 <= i < |ds|
      ensures Settled(ds[i], ScopeAfter(t, o)) && (Awaits(ds[i]) ==> called)
    {
      if i < |cs| {
        assert IsAfter(cs[i], ds[i], s);
        EndedSettled(cs[i], ds[i], t, o, s);
      } else {
        assert S.Fresh(ds[i]);
        ArmedStartSettled(ds[i], ScopeAfter(t, o));
      }
    }
  }

  /** What ending scopes does to the world. */
  lemma EndShape(w: S.World)
    requires S.Inv(w) && w.phase.Routing?
    ensures var v := S.Next(w, S.EndScopes);
            v.phase == S.Ending(w.phase.o) && v.open == w.open
                && AfterFrom(w.captures, v.captures, 0, |w.captures|, w.phase.o)
  {
    EndLoopAfter(w.captures, w.nextInvocation, 0, |w.captures|, w.phase.o, S.Next(w, S.EndScopes).captures);
  }

  lemma EndKeepsJoint(log: seq<Fact>, j: Joint)
    requires JointOk(log, j) && j.w.phase.Routing? && Fits(DeskAt(log, j.at - 1), log[j.at - 1])
    ensures JointOk(log, DoNext(log, j, S.EndScopes))
  {
    var d, o, s := DeskAt(log, j.at - 1), log[j.at - 1], j.w.phase.o;
    var v := S.Next(j.w, S.EndScopes);
    S.NextKeepsInv(j.w, S.EndScopes);
    S.NextKeepsAsked(j.w, S.EndScopes);
    EndShape(j.w);
    AllEndedSettled(j.w.captures, v.captures, j.t, o, s, d.called || IsCall(o));
    assert DoNext(log, j, S.EndScopes) == Joint(v, ScopeAfter(j.t, o), j.at);
  }

  lemma ClearSettles(c: C.Capture, t: Tracker)
    requires Settled(c, t)
    ensures Settled(C.Clear(c), t)
  {
  }

  /** What the boundary does to the world. */
  lemma FinishShape(w: S.World)
    requires w.phase.Ending?
    ensures var v := S.Next(w, S.Finish);
            && v.phase.Quiet? && v.open == (if C.Terminal(w.phase.o) then 0 else w.open) && |v.captures| == |w.captures|
            && forall i :: 0 <= i < |v.captures| ==>
                 v.captures[i] == if C.Boundary(w.phase.o) then C.Clear(w.captures[i]) else w.captures[i]
  {
  }

  lemma AllCleared(cs: seq<C.Capture>, ds: seq<C.Capture>, boundary: bool, t: Tracker, called: bool)
    requires AllSettled(cs, t) && AllCalled(cs, called) && |ds| == |cs|
    requires forall i :: 0 <= i < |ds| ==> ds[i] == if boundary then C.Clear(cs[i]) else cs[i]
    ensures AllSettled(ds, t) && AllCalled(ds, called && !boundary)
  {
    forall i | 0 <= i < |ds|
      ensures Settled(ds[i], t) && (Awaits(ds[i]) ==> called && !boundary)
    {
      ClearSettles(cs[i], t);
    }
  }

  lemma FinishKeepsJoint(log: seq<Fact>, j: Joint)
    requires JointOk(log, j) && j.w.phase.Ending?
    ensures JointOk(log, DoNext(log, j, S.Finish))
  {
    var d, o := DeskAt(log, j.at - 1), log[j.at - 1];
    var v := S.Next(j.w, S.Finish);
    S.NextKeepsInv(j.w, S.Finish);
    S.NextKeepsAsked(j.w, S.Finish);
    DeskNext(log, j.at - 1);
    FinishShape(j.w);
    AllCleared(j.w.captures, v.captures, C.Boundary(j.w.phase.o), j.t, d.called || IsCall(o));
    assert DoNext(log, j, S.Finish) == Joint(v, j.t, j.at);
  }

  // ---- Every deed ---------------------------------------------------------------------------------------------------

  lemma PerformKeeps(log: seq<Fact>, j: Joint, deed: Deed)
    requires JointOk(log, j) && AllFit(CLEAN, log)
    ensures JointOk(log, Perform(log, j, deed))
  {
    if deed.See? {
      if j.at < |log| && j.w.phase.Quiet? {
        assert FitsAt(CLEAN, log, j.at);
        SeeKeeps(log, j, deed.target, deed.generation, deed.cycle);
      }
    } else if Minor(deed.step) { MinorKeeps(log, j, deed.step); }
    else if deed.step.Start? { StartKeepsJoint(log, j, deed.step.request); }
    else if deed.step.EndScopes? {
      if j.w.phase.Routing? {
        assert FitsAt(CLEAN, log, j.at - 1);
        EndKeepsJoint(log, j);
      }
    } else if deed.step.Finish? {
      if j.w.phase.Ending? { FinishKeepsJoint(log, j); }
    }
  }

  lemma {:induction false} PerformAllKeeps(log: seq<Fact>, j: Joint, deeds: seq<Deed>)
    requires JointOk(log, j) && AllFit(CLEAN, log)
    ensures JointOk(log, PerformAll(log, j, deeds))
    decreases |deeds|
  {
    if deeds != [] {
      PerformAllKeeps(log, j, deeds[..|deeds| - 1]);
      PerformKeeps(log, PerformAll(log, j, deeds[..|deeds| - 1]), deeds[|deeds| - 1]);
    }
  }

  /** Every capture bound to a context has it on the stack. */
  ghost predicate AllOnStack(cs: seq<C.Capture>, t: Tracker) {
    forall i :: 0 <= i < |cs| && !cs[i].mode.Persistent? && cs[i].state.Bound? ==> OnStack(t, cs[i].context)
  }

  /** The trace layer before the first fact. */
  function Opening(w: S.World): Joint { Joint(w, LOST, 0) }

  /** Over every run of the facade and everything the trace layer does with its facts: between observations
      its stack is the one the facts seen so far describe, every further fact is one it expects, and a
      capture bound to an invocation has that invocation's frame on the stack, so it ends no later than
      its frame. */
  lemma BoundCaptureOnStack(steps: seq<CallContext.Step>, w: S.World, deeds: seq<Deed>)
    requires S.Untouched(w)
    ensures var log := Run(START, steps).log;
            var j := PerformAll(log, Opening(w), deeds);
            j.w.phase.Quiet? ==>
              && j.at <= |log| && j.t == TrackAll(LOST, log[..j.at])
              && AllOnStack(j.w.captures, j.t)
              && (j.at < |log| ==> forall target, generation, cycle ::
                    S.Allowed(j.w, S.Observe(Seen(j.t, log[j.at], target, generation, cycle))))
  {
    var log := Run(START, steps).log;
    RunConsistent(steps);
    S.StartOk(w);
    assert log[..0] == [];
    assert JointOk(log, Opening(w));
    PerformAllKeeps(log, Opening(w), deeds);
    var j := PerformAll(log, Opening(w), deeds);
    if j.w.phase.Quiet? {
      TakeTracks(CLEAN, log[..j.at]);
      if j.at < |log| {
        assert FitsAt(CLEAN, log, j.at);
        forall target, generation, cycle
          ensures S.Allowed(j.w, S.Observe(Seen(j.t, log[j.at], target, generation, cycle)))
        {
          SeeAllowed(j, DeskAt(log, j.at), log[j.at], target, generation, cycle);
        }
      }
    }
  }
}
