/** Staging and committing of routed records while captures are candidates
    (emu_trace_internal.c), for any number of captures and destinations. */
module Staging {
  import opened Counters
  import opened Captures

  /** A routed record: the traces it names, ascending, and the rest of it. */
  datatype Record = Record(event: bool, routes: seq<nat>, body: nat)

  /** One destination. `out` is everything handed to its storage. `hist` is everything routed to
      it since the last settlement: the first `direct` of those are in `out` already, the others
      wait in the stage, in order. `base` is what was settled before. Neither is read by a step. */
  datatype Lane = Lane(active: bool, stage: seq<Record>, out: seq<Record>,
                       base: seq<Record>, hist: seq<Record>, direct: nat)

  /** The phases of one observation: routing comes after the captures saw it, the end of
      scopes after routing, and the boundary commit last. While routing, `asked` holds the traces
      that route_eligible has let through for an event not delivered yet. */
  datatype Phase = Quiet | Routing(o: Observation, asked: set<nat>) | Ending(o: Observation)

  datatype World = World(captures: seq<Capture>, lanes: seq<Lane>, dest: map<nat, nat>, phase: Phase,
                         nextInvocation: nat, sequence: nat, generation: nat, cycle: nat, open: nat)

  /** A request for a capture; `context` names the context it is to be bound to at once. */
  datatype Request = Request(trace: nat, mode: Mode, context: nat, entryPc: nat, rearm: bool, maxRecords: nat,
      maxCycles: nat)

  datatype Step =
    | Observe(o: Observation)
    | Ask(trace: nat)
    | Route(lane: nat, record: Record)
    | EndScopes
    | Finish
    | Start(request: Request)
    | Clock(generation: nat, cycle: nat)
    | StorageFull(lane: nat)
    | StopTrace(trace: nat)

  // ---- Committing ---------------------------------------------------------------------

  predicate Failed(cs: seq<Capture>, trace: nat) {
    exists i :: 0 <= i < |cs| && cs[i].trace == trace && Rejected(cs[i])
  }

  function Keep(cs: seq<Capture>, routes: seq<nat>): seq<nat>
    decreases |routes|
  {
    if routes == [] then []
    else (if Failed(cs, routes[0]) then [] else [routes[0]]) + Keep(cs, routes[1..])
  }

  /** strip_failed_candidates followed by store_record: routes of failed captures go, and a
      record left without routes is not stored. */
  function Stripped(cs: seq<Capture>, r: Record): seq<Record> {
    if Keep(cs, r.routes) == [] then [] else [r.(routes := Keep(cs, r.routes))]
  }

  function Commit(cs: seq<Capture>, rs: seq<Record>): seq<Record>
    decreases |rs|
  {
    if rs == [] then [] else Commit(cs, rs[..|rs| - 1]) + Stripped(cs, rs[|rs| - 1])
  }

  // ---- The steps ------------------------------------------------------------------------

  function All(cs: seq<Capture>, f: Capture -> Capture): (r: seq<Capture>)
    ensures |r| == |cs| && forall i :: 0 <= i < |cs| ==> r[i] == f(cs[i])
  {
    seq(|cs|, i requires 0 <= i < |cs| => f(cs[i]))
  }

  predicate Newest(cs: seq<Capture>, i: nat)
    requires i < |cs|
  {
    forall j :: i < j < |cs| ==> cs[j].trace != cs[i].trace
  }

  /** Some capture of a trace with this destination just became a candidate. */
  predicate Activates(was: seq<Capture>, cs: seq<Capture>, dest: map<nat, nat>, lane: nat)
    requires |cs| == |was|
  {
    exists i :: 0 <= i < |cs| && cs[i].candidate > 0 && was[i].candidate == 0
                && cs[i].trace in dest && dest[cs[i].trace] == lane
  }

  function ObserveWorld(w: World, o: Observation): World {
    var cs := All(w.captures, c => Before(c, o));
    w.(captures := cs,
       lanes := seq(|w.lanes|, d requires 0 <= d < |w.lanes| =>
                  w.lanes[d].(active := w.lanes[d].active || Activates(w.captures, cs, w.dest, d))),
       phase := Routing(o, {}), sequence := o.sequence, generation := o.generation,
       cycle := if o.generation != w.generation || o.cycle > w.cycle then o.cycle else w.cycle,
       open := if o.instruction > 0 then o.instruction else w.open)
  }

  function Counted(cs: seq<Capture>, r: Record, sequence: nat): (out: seq<Capture>)
    ensures |out| == |cs|
    ensures forall i :: 0 <= i < |cs| ==>
              out[i] == if r.event && cs[i].trace in r.routes && Newest(cs, i) then Count(cs[i], sequence) else cs[i]
  {
    seq(|cs|, i requires 0 <= i < |cs| =>
      if r.event && cs[i].trace in r.routes && Newest(cs, i) then Count(cs[i], sequence) else cs[i])
  }

  function Overflowing(cs: seq<Capture>, dest: map<nat, nat>, lane: nat, sequence: nat): (out: seq<Capture>)
    ensures |out| == |cs|
    ensures forall i :: 0 <= i < |cs| ==>
              out[i] == if cs[i].trace in dest && dest[cs[i].trace] == lane then Overflow(cs[i], sequence) else cs[i]
  {
    seq(|cs|, i requires 0 <= i < |cs| =>
      if cs[i].trace in dest && dest[cs[i].trace] == lane then Overflow(cs[i], sequence) else cs[i])
  }

  /** stage_commit, with the history catching up. */
  function Flushed(cs: seq<Capture>, l: Lane): Lane {
    l.(active := false, stage := [], out := l.out + Commit(cs, l.stage), direct := |l.hist|)
  }

  function Stored(cs: seq<Capture>, l: Lane, r: Record): Lane {
    l.(out := l.out + Stripped(cs, r), hist := l.hist + [r], direct := l.direct + 1)
  }

  function RouteWorld(w: World, d: nat, r: Record): World
    requires d < |w.lanes|
  {
    var cs := Counted(w.captures, r, w.sequence);
    var l := w.lanes[d];
    if l.active && |l.stage| < STAGE then
      w.(captures := cs, lanes := w.lanes[d := l.(stage := l.stage + [r], hist := l.hist + [r])])
    else if l.active then
      var over := Overflowing(cs, w.dest, d, w.sequence);
      w.(captures := over, lanes := w.lanes[d := Stored(over, Flushed(over, l), r)])
    else w.(captures := cs, lanes := w.lanes[d := Stored(cs, l, r)])
  }

  /** An event uses up the permission of the traces it names. */
  function Used(p: Phase, r: Record): Phase {
    if p.Routing? && r.event then p.(asked := p.asked - set t | t in r.routes) else p
  }

  /** The router asks whether a trace may have the event; it asks again for every event. */
  function AskWorld(w: World, t: nat): World {
    if !w.phase.Routing? then w
    else w.(phase := w.phase.(asked := if Eligible(w.captures, t) then w.phase.asked + {t} else w.phase.asked - {t}))
  }

  /** One turn of the first loop of after_observation. */
  function EndTurn(cs: seq<Capture>, next: nat, i: nat, o: Observation): seq<Capture>
    requires i < |cs|
  {
    cs[i := After(cs[i], o, next)] + if Rearms(cs[i], o) && |cs| < CAPTURES then [Successor(cs[i], o)] else []
  }

  predicate TurnConsumes(cs: seq<Capture>, next: nat, i: nat, o: Observation)
    requires i < |cs|
  {
    Consumes(cs[i], o, next)
  }

  /** The captures present at the start of the loop are visited in order. */
  function EndLoop(cs: seq<Capture>, next: nat, i: nat, n: nat, o: Observation): (seq<Capture>, nat)
    requires i <= n <= |cs|
    decreases n - i
  {
    if i == n then (cs, next)
    else EndLoop(EndTurn(cs, next, i, o), if TurnConsumes(cs, next, i, o) then Bump(next) else next, i + 1, n, o)
  }

  function EndWorld(w: World): World {
    if !w.phase.Routing? then w
    else
      var (cs, next) := EndLoop(w.captures, w.nextInvocation, 0, |w.captures|, w.phase.o);
      w.(captures := cs, nextInvocation := next, phase := Ending(w.phase.o))
  }

  /** The reference decides everything it kept back by the captures as they are now. */
  function Rebased(cs: seq<Capture>, l: Lane): Lane {
    l.(base := l.base + Commit(cs, l.hist), hist := [], direct := 0)
  }

  function FinishWorld(w: World): World {
    if !w.phase.Ending? then w
    else if !Boundary(w.phase.o) then w.(phase := Quiet)
    else
      w.(phase := Quiet, captures := All(w.captures, c => Clear(c)),
         lanes := seq(|w.lanes|, d requires 0 <= d < |w.lanes| => Rebased(w.captures, Flushed(w.captures, w.lanes[d]))),
         open := if Terminal(w.phase.o) then 0 else w.open)
  }

  predicate Staging(w: World) { exists d :: 0 <= d < |w.lanes| && w.lanes[d].active }

  predicate RequestValid(q: Request) {
    && q.maxRecords > 0 && q.maxCycles > 0
    && (q.mode.Persistent? ==> q.context == 0 && q.entryPc == 0 && !q.rearm)
    && (q.mode.NextCall? ==> q.context == 0)
    && (q.mode.ActiveContext? ==> q.context > 0 && q.entryPc == 0 && !q.rearm)
  }

  /** emu_trace_capture's acceptance, as far as it does not depend on the context stack. */
  predicate CanStart(w: World, q: Request) {
    && RequestValid(q) && w.phase.Quiet? && !Staging(w) && |w.captures| < CAPTURES && q.trace in w.dest
    && (q.mode.ActiveContext? ==> w.nextInvocation > 0)
    && (forall i :: 0 <= i < |w.captures| && w.captures[i].trace == q.trace ==>
          !Newest(w.captures, i) || !Live(w.captures[i]))
  }

  /** The capture a request makes: armed for the next call, or bound at once. */
  function Started(w: World, q: Request): Capture {
    var active := q.mode.ActiveContext?;
    Capture(q.trace, q.mode, if q.mode.NextCall? then Armed else Bound, q.rearm, q.entryPc, 0, q.maxRecords, 0,
            q.maxCycles, w.cycle, w.generation, w.generation, if active then q.context else 0,
            if active then w.nextInvocation else 0, 0, 0, false, false, [], 0, 0)
  }

  function StartWorld(w: World, q: Request): World {
    if !CanStart(w, q) then w
    else w.(captures := w.captures + [Started(w, q)],
            nextInvocation := if q.mode.ActiveContext? then Bump(w.nextInvocation) else w.nextInvocation,
            lanes := seq(|w.lanes|, d requires 0 <= d < |w.lanes| => Rebased(w.captures, w.lanes[d])))
  }

  function ClockWorld(w: World, generation: nat, cycle: nat): World {
    w.(captures := All(w.captures, c => Tick(c, generation, cycle, w.sequence)), generation := generation,
       cycle := if generation != w.generation || cycle > w.cycle then cycle else w.cycle)
  }

  function Starving(cs: seq<Capture>, dest: map<nat, nat>, lane: nat, sequence: nat): (out: seq<Capture>)
    ensures |out| == |cs|
    ensures forall i :: 0 <= i < |cs| ==>
              out[i] == if cs[i].trace in dest && dest[cs[i].trace] == lane && Newest(cs, i)
                  then Starve(cs[i], sequence) else cs[i]
  {
    seq(|cs|, i requires 0 <= i < |cs| =>
      if cs[i].trace in dest && dest[cs[i].trace] == lane && Newest(cs, i) then Starve(cs[i], sequence) else cs[i])
  }

  function Stopping(cs: seq<Capture>, trace: nat, sequence: nat): (out: seq<Capture>)
    ensures |out| == |cs|
    ensures forall i :: 0 <= i < |cs| ==>
              out[i] == if cs[i].trace == trace && Newest(cs, i) then Stop(cs[i], sequence) else cs[i]
  {
    seq(|cs|, i requires 0 <= i < |cs| =>
      if cs[i].trace == trace && Newest(cs, i) then Stop(cs[i], sequence) else cs[i])
  }

  /** route_eligible, by the newest capture of the trace. */
  predicate Eligible(cs: seq<Capture>, trace: nat) {
    forall i :: 0 <= i < |cs| && cs[i].trace == trace && Newest(cs, i) ==>
      cs[i].state.Bound? || (cs[i].state.Armed? && cs[i].candidate > 0 && !cs[i].limit)
  }

  /** What the layers around promise about each step: facts arrive as the facade pairs them, and
      the router names a trace only for its own destination and, for an event, only after it asked
      for it. Summaries may go out in between, and may end a capture that was let through. A summary
      flushed at a boundary may name a trace whose capture was just rearmed. */
  predicate Allowed(w: World, step: Step) {
    match step
    case Observe(o) =>
      && w.phase.Quiet? && (w.open == 0 || o.instruction == 0 || o.instruction == w.open)
      && (o.kind.Call? ==> o.instruction > 0) && (Terminal(o) ==> o.instruction == w.open > 0)
    case Route(d, r) =>
      && d < |w.lanes| && (forall t :: t in r.routes ==> t in w.dest && w.dest[t] == d)
      && (if r.event then w.phase.Routing? && forall t :: t in r.routes ==> t in w.phase.asked
          else AtBoundary(w.phase) || forall t :: t in r.routes ==> !IdleTrace(w.captures, t))
    case StorageFull(d) => true
    case StopTrace(t) => w.phase.Quiet? && !Staging(w)
    case _ => true
  }

  predicate AtBoundary(p: Phase) { p.Ending? && Boundary(p.o) }

  function Next(w: World, step: Step): World {
    if !Allowed(w, step) then w
    else
      match step
      case Observe(o) => ObserveWorld(w, o)
      case Ask(t) => AskWorld(w, t)
      case Route(d, r) => RouteWorld(w, d, r).(phase := Used(w.phase, r))
      case EndScopes => EndWorld(w)
      case Finish => FinishWorld(w)
      case Start(q) => StartWorld(w, q)
      case Clock(generation, cycle) => ClockWorld(w, generation, cycle)
      case StorageFull(d) => w.(captures := Starving(w.captures, w.dest, d, w.sequence))
      case StopTrace(t) => w.(captures := Stopping(w.captures, t, w.sequence))
  }

  function Run(w: World, steps: seq<Step>): World
    decreases |steps|
  {
    if steps == [] then w else Next(Run(w, steps[..|steps| - 1]), steps[|steps| - 1])
  }

  // ---- Invariants ------------------------------------------------------------------------

  predicate IdleTrace(cs: seq<Capture>, trace: nat) {
    exists i :: 0 <= i < |cs| && cs[i].trace == trace && Idle(cs[i])
  }

  predicate OpenTrace(cs: seq<Capture>, trace: nat) {
    exists i :: 0 <= i < |cs| && cs[i].trace == trace && Open(cs[i])
  }

  /** The account of one destination: what is out is the base plus the commit of what was
      routed directly, and that names no trace whose fate is still open. */
  predicate LaneOk(cs: seq<Capture>, l: Lane) {
    && l.direct <= |l.hist| && l.stage == l.hist[l.direct..] && |l.stage| <= STAGE
    && (!l.active ==> l.direct == |l.hist|)
    && l.out == l.base + Commit(cs, l.hist[..l.direct])
    && (forall k, t :: 0 <= k < l.direct && t in l.hist[k].routes ==> !OpenTrace(cs, t))
  }

  predicate HistoryNames(dest: map<nat, nat>, l: Lane, d: nat) {
    forall k, t :: 0 <= k < |l.hist| && t in l.hist[k].routes ==> t in dest && dest[t] == d
  }

  predicate HistoryNotIdle(cs: seq<Capture>, l: Lane) {
    forall k, t :: 0 <= k < |l.hist| && t in l.hist[k].routes ==> !IdleTrace(cs, t)
  }

  /** At most one capture of a trace is live, and it is the newest. */
  predicate OneLive(cs: seq<Capture>) {
    forall i, j :: 0 <= i < j < |cs| && cs[i].trace == cs[j].trace ==> !Live(cs[i])
  }

  predicate CapturesOk(cs: seq<Capture>, open: nat) {
    && OneLive(cs)
    && (forall i :: 0 <= i < |cs| ==> WithinLimits(cs[i]))
    && (forall i :: 0 <= i < |cs| && cs[i].candidate > 0 ==> cs[i].candidate == open)
  }

  /** Every undecided candidate has its destination staged. */
  predicate Staged(w: World) {
    forall i :: 0 <= i < |w.captures| && Open(w.captures[i]) && w.captures[i].trace in w.dest ==>
      w.dest[w.captures[i].trace] < |w.lanes| && w.lanes[w.dest[w.captures[i].trace]].active
  }

  predicate LanesOk(w: World) {
    forall d :: 0 <= d < |w.lanes| ==>
      && LaneOk(w.captures, w.lanes[d]) && HistoryNames(w.dest, w.lanes[d], d)
      && (AtBoundary(w.phase) || HistoryNotIdle(w.captures, w.lanes[d]))
      && (w.lanes[d].active ==> w.open > 0)
  }

  predicate Inv(w: World) {
    && (forall t :: t in w.dest ==> w.dest[t] < |w.lanes|)
    && CapturesOk(w.captures, w.open) && Staged(w) && LanesOk(w)
    && (AtBoundary(w.phase) ==> forall i :: 0 <= i < |w.captures| ==>
        w.captures[i].candidate == 0 || !w.captures[i].state.Armed?)
    && ((w.phase.Routing? || w.phase.Ending?) && Terminal(w.phase.o) ==> w.phase.o.instruction == w.open > 0)
  }

  /** A trace that was let through is no idle one, and no candidate at its record limit. */
  predicate MayCount(cs: seq<Capture>, t: nat) {
    forall i :: 0 <= i < |cs| && cs[i].trace == t && Newest(cs, i) ==>
        !Idle(cs[i]) && !(cs[i].state.Armed? && cs[i].limit)
  }

  predicate AskedOk(w: World) { w.phase.Routing? ==> forall t :: t in w.phase.asked ==> MayCount(w.captures, t) }

  predicate Steady(w: World) { Inv(w) && AskedOk(w) }

  // ---- Commit depends only on which traces failed ----------------------------------------------

  lemma {:induction false} KeepSame(cs: seq<Capture>, ds: seq<Capture>, routes: seq<nat>)
    requires forall t :: t in routes ==> Failed(cs, t) == Failed(ds, t)
    ensures Keep(cs, routes) == Keep(ds, routes)
    decreases |routes|
  {
    if routes != [] {
      assert routes[0] in routes;
      KeepSame(cs, ds, routes[1..]);
    }
  }

  lemma {:induction false} CommitSame(cs: seq<Capture>, ds: seq<Capture>, rs: seq<Record>)
    requires forall k, t :: 0 <= k < |rs| && t in rs[k].routes ==> Failed(cs, t) == Failed(ds, t)
    ensures Commit(cs, rs) == Commit(ds, rs)
    decreases |rs|
  {
    if rs != [] {
      CommitSame(cs, ds, rs[..|rs| - 1]);
      KeepSame(cs, ds, rs[|rs| - 1].routes);
    }
  }

  lemma {:induction false} CommitSplit(cs: seq<Capture>, a: seq<Record>, b: seq<Record>)
    ensures Commit(cs, a + b) == Commit(cs, a) + Commit(cs, b)
    decreases |b|
  {
    if b == [] { assert a + b == a; }
    else {
      var front := b[..|b| - 1];
      assert (a + b)[..|a + b| - 1] == a + front;
      CommitSplit(cs, a, front);
    }
  }

  /** Captures that only evolve, with new ones that are no candidates. */
  predicate AllEvolve(cs: seq<Capture>, ds: seq<Capture>) {
    && |cs| <= |ds|
    && (forall i :: 0 <= i < |cs| ==> Evolves(cs[i], ds[i]))
    && (forall i :: |cs| <= i < |ds| ==> ds[i].candidate == 0 && !ds[i].failed)
  }

  lemma EvolveDecided(cs: seq<Capture>, ds: seq<Capture>, t: nat)
    requires AllEvolve(cs, ds) && !OpenTrace(cs, t)
    ensures Failed(cs, t) == Failed(ds, t) && !OpenTrace(ds, t)
  {
    if Failed(cs, t) {
      var i :| 0 <= i < |cs| && cs[i].trace == t && Rejected(cs[i]);
      assert Evolves(cs[i], ds[i]) && ds[i].trace == t && Rejected(ds[i]);
    }
    if Failed(ds, t) {
      var i :| 0 <= i < |ds| && ds[i].trace == t && Rejected(ds[i]);
      assert Evolves(cs[i], ds[i]) && cs[i].trace == t;
      assert !Open(cs[i]);
      assert Rejected(cs[i]);
    }
    forall i | 0 <= i < |ds| && ds[i].trace == t
      ensures !Open(ds[i])
    {
      assert i < |cs| ==> Evolves(cs[i], ds[i]) && !Open(cs[i]);
    }
  }

  lemma LaneEvolves(cs: seq<Capture>, ds: seq<Capture>, l: Lane)
    requires AllEvolve(cs, ds) && LaneOk(cs, l)
    ensures LaneOk(ds, l)
  {
    forall k, t | 0 <= k < l.direct && t in l.hist[k].routes
      ensures Failed(cs, t) == Failed(ds, t) && !OpenTrace(ds, t)
    {
      EvolveDecided(cs, ds, t);
    }
    CommitSame(cs, ds, l.hist[..l.direct]);
  }

  lemma IdleBefore(cs: seq<Capture>, ds: seq<Capture>, t: nat)
    requires |cs| == |ds| && (forall i :: 0 <= i < |cs| ==> ds[i].trace == cs[i].trace && (Idle(ds[i]) ==> Idle(cs[i])))
    requires !IdleTrace(cs, t)
    ensures !IdleTrace(ds, t)
  {
    forall i | 0 <= i < |ds| && ds[i].trace == t
      ensures !Idle(ds[i])
    {
      assert cs[i].trace == t && !Idle(cs[i]);
    }
  }

  // ---- Steps that only move captures along --------------------------------------------------

  lemma EvolveKeepsCaptures(cs: seq<Capture>, ds: seq<Capture>, open: nat)
    requires CapturesOk(cs, open) && AllEvolve(cs, ds) && |cs| == |ds|
    ensures CapturesOk(ds, open)
  {
    forall i, j | 0 <= i < j < |ds| && ds[i].trace == ds[j].trace
      ensures !Live(ds[i])
    {
      assert Evolves(cs[i], ds[i]) && Evolves(cs[j], ds[j]);
    }
    forall i | 0 <= i < |ds|
      ensures WithinLimits(ds[i]) && (ds[i].candidate > 0 ==> ds[i].candidate == open)
    {
      assert Evolves(cs[i], ds[i]);
    }
  }

  lemma EvolveKeepsLanes(w: World, ds: seq<Capture>)
    requires LanesOk(w) && AllEvolve(w.captures, ds) && |w.captures| == |ds|
    ensures LanesOk(w.(captures := ds))
  {
    forall i | 0 <= i < |ds|
      ensures ds[i].trace == w.captures[i].trace && (Idle(ds[i]) ==> Idle(w.captures[i]))
    {
      assert Evolves(w.captures[i], ds[i]);
    }
    forall d | 0 <= d < |w.lanes|
      ensures LaneOk(ds, w.lanes[d]) && (AtBoundary(w.phase) || HistoryNotIdle(ds, w.lanes[d]))
    {
      LaneEvolves(w.captures, ds, w.lanes[d]);
      if !AtBoundary(w.phase) {
        forall k, t | 0 <= k < |w.lanes[d].hist| && t in w.lanes[d].hist[k].routes
          ensures !IdleTrace(ds, t)
        {
          IdleBefore(w.captures, ds, t);
        }
      }
    }
  }

  lemma EvolveKeeps(w: World, ds: seq<Capture>)
    requires Inv(w) && AllEvolve(w.captures, ds) && |w.captures| == |ds|
    ensures Inv(w.(captures := ds))
  {
    EvolveKeepsCaptures(w.captures, ds, w.open);
    EvolveKeepsLanes(w, ds);
    forall i | 0 <= i < |ds|
      ensures ds[i].trace == w.captures[i].trace && (Open(ds[i]) ==> Open(w.captures[i]))
      ensures AtBoundary(w.phase) ==> ds[i].candidate == 0 || !ds[i].state.Armed?
    {
      assert Evolves(w.captures[i], ds[i]);
    }
  }

  lemma CountedEvolves(cs: seq<Capture>, r: Record, sequence: nat)
    requires r.event ==> forall t :: t in r.routes ==> MayCount(cs, t)
    ensures AllEvolve(cs, Counted(cs, r, sequence))
  {
    var ds := Counted(cs, r, sequence);
    forall i | 0 <= i < |cs|
      ensures Evolves(cs[i], ds[i])
    {
      if r.event && cs[i].trace in r.routes && Newest(cs, i) {
        assert MayCount(cs, cs[i].trace);
        CountEvolves(cs[i], sequence);
      }
    }
  }

  /** After an overflow no candidate of the destination is undecided. */
  lemma OverflowingDecides(cs: seq<Capture>, dest: map<nat, nat>, lane: nat, sequence: nat)
    ensures AllEvolve(cs, Overflowing(cs, dest, lane, sequence))
    ensures forall t :: t in dest && dest[t] == lane ==> !OpenTrace(Overflowing(cs, dest, lane, sequence), t)
  {
    var ds := Overflowing(cs, dest, lane, sequence);
    forall i | 0 <= i < |cs|
      ensures Evolves(cs[i], ds[i])
      ensures ds[i].trace in dest && dest[ds[i].trace] == lane ==> !Open(ds[i])
    {
      OverflowEvolves(cs[i], sequence);
    }
  }

  // ---- Storing and committing keep the account ------------------------------------------------

  lemma StoredKeeps(cs: seq<Capture>, l: Lane, r: Record)
    requires LaneOk(cs, l) && !l.active && forall t :: t in r.routes ==> !OpenTrace(cs, t)
    ensures LaneOk(cs, Stored(cs, l, r))
  {
    assert l.hist[..l.direct] == l.hist;
    assert (l.hist + [r])[..l.direct + 1] == l.hist + [r];
    assert (l.hist + [r])[..|l.hist|] == l.hist;
    assert (l.hist + [r])[l.direct + 1..] == [];
    assert l.stage == [];
  }

  lemma FlushedKeeps(cs: seq<Capture>, l: Lane)
    requires LaneOk(cs, l) && forall k, t :: 0 <= k < |l.hist| && t in l.hist[k].routes ==> !OpenTrace(cs, t)
    ensures LaneOk(cs, Flushed(cs, l))
  {
    FlushedOut(cs, l);
    assert l.hist[..|l.hist|] == l.hist;
  }

  /** A committed stage has caught up with the reference. */
  lemma FlushedOut(cs: seq<Capture>, l: Lane)
    requires LaneOk(cs, l)
    ensures Flushed(cs, l).out == l.base + Commit(cs, l.hist)
  {
    CommitHalves(cs, l.base, l.hist, l.direct);
  }

  lemma CommitHalves(cs: seq<Capture>, base: seq<Record>, hist: seq<Record>, n: nat)
    requires n <= |hist|
    ensures (base + Commit(cs, hist[..n])) + Commit(cs, hist[n..]) == base + Commit(cs, hist)
  {
    CommitSplit(cs, hist[..n], hist[n..]);
    assert hist == hist[..n] + hist[n..];
    Regroup(base, Commit(cs, hist[..n]), Commit(cs, hist[n..]));
  }

  lemma Regroup(a: seq<Record>, b: seq<Record>, c: seq<Record>)
    ensures (a + b) + c == a + (b + c)
  {
  }

  lemma StagedKeeps(cs: seq<Capture>, l: Lane, r: Record)
    requires LaneOk(cs, l) && l.active && |l.stage| < STAGE
    ensures LaneOk(cs, l.(stage := l.stage + [r], hist := l.hist + [r]))
  {
    assert (l.hist + [r])[..l.direct] == l.hist[..l.direct];
    assert (l.hist + [r])[l.direct..] == l.hist[l.direct..] + [r];
  }

  // ---- Routing ------------------------------------------------------------------------------------

  predicate NamesKnown(w: World, d: nat, r: Record) {
    && (forall t :: t in r.routes ==> t in w.dest && w.dest[t] == d)
    && (AtBoundary(w.phase) || forall t :: t in r.routes ==> !IdleTrace(w.captures, t))
  }

  /** The destination may take a new lane state when the record is accounted for in it. */
  lemma LaneReplaced(w: World, d: nat, r: Record, l: Lane)
    requires Inv(w) && d < |w.lanes| && NamesKnown(w, d, r)
    requires LaneOk(w.captures, l) && l.hist == w.lanes[d].hist + [r]
    requires l.active == w.lanes[d].active ||
             (!l.active && forall t :: t in w.dest && w.dest[t] == d ==> !OpenTrace(w.captures, t))
    ensures Inv(w.(lanes := w.lanes[d := l]))
  {
    var v := w.(lanes := w.lanes[d := l]);
    assert HistoryNames(v.dest, l, d);
    assert AtBoundary(v.phase) || HistoryNotIdle(v.captures, l);
    forall i | 0 <= i < |v.captures| && Open(v.captures[i]) && v.captures[i].trace in v.dest
      ensures v.lanes[v.dest[v.captures[i].trace]].active
    {
      assert OpenTrace(v.captures, v.captures[i].trace);
    }
  }

  lemma InactiveDecided(w: World, d: nat, t: nat)
    requires Inv(w) && d < |w.lanes| && !w.lanes[d].active && t in w.dest && w.dest[t] == d
    ensures !OpenTrace(w.captures, t)
  {
  }

  lemma NamesStayKnown(w: World, ds: seq<Capture>, d: nat, r: Record)
    requires NamesKnown(w, d, r) && AllEvolve(w.captures, ds) && |ds| == |w.captures|
    ensures NamesKnown(w.(captures := ds), d, r)
  {
    forall i | 0 <= i < |ds|
      ensures ds[i].trace == w.captures[i].trace && (Idle(ds[i]) ==> Idle(w.captures[i]))
    {
      assert Evolves(w.captures[i], ds[i]);
    }
    if !AtBoundary(w.phase) {
      forall t | t in r.routes
        ensures !IdleTrace(ds, t)
      {
        IdleBefore(w.captures, ds, t);
      }
    }
  }

  /** Routing once the counting is done: stage it, or store it at once. */
  lemma RouteCounted(w: World, d: nat, r: Record)
    requires Inv(w) && d < |w.lanes| && NamesKnown(w, d, r)
    ensures var l := w.lanes[d];
            if l.active && |l.stage| < STAGE
                then Inv(w.(lanes := w.lanes[d := l.(stage := l.stage + [r], hist := l.hist + [r])]))
            else !l.active ==> Inv(w.(lanes := w.lanes[d := Stored(w.captures, l, r)]))
  {
    var l := w.lanes[d];
    if l.active && |l.stage| < STAGE {
      StagedKeeps(w.captures, l, r);
      LaneReplaced(w, d, r, l.(stage := l.stage + [r], hist := l.hist + [r]));
    } else if !l.active {
      forall t | t in r.routes
        ensures !OpenTrace(w.captures, t)
      {
        InactiveDecided(w, d, t);
      }
      StoredKeeps(w.captures, l, r);
      LaneReplaced(w, d, r, Stored(w.captures, l, r));
    }
  }

  lemma RouteOverflow(w: World, d: nat, r: Record)
    requires Inv(w) && d < |w.lanes| && NamesKnown(w, d, r)
    requires forall t :: t in w.dest && w.dest[t] == d ==> !OpenTrace(w.captures, t)
    ensures Inv(w.(lanes := w.lanes[d := Stored(w.captures, Flushed(w.captures, w.lanes[d]), r)]))
  {
    FlushedKeeps(w.captures, w.lanes[d]);
    StoredKeeps(w.captures, Flushed(w.captures, w.lanes[d]), r);
    LaneReplaced(w, d, r, Stored(w.captures, Flushed(w.captures, w.lanes[d]), r));
  }

  /** A trace let through has no idle capture: such a one would be live, so the newest. */
  lemma AskedNotIdle(cs: seq<Capture>, t: nat)
    requires OneLive(cs) && MayCount(cs, t)
    ensures !IdleTrace(cs, t)
  {
    forall i | 0 <= i < |cs| && cs[i].trace == t
      ensures !Idle(cs[i])
    {
      assert Live(cs[i]) ==> Newest(cs, i);
    }
  }

  lemma RouteNames(w: World, d: nat, r: Record)
    requires Steady(w) && Allowed(w, Route(d, r))
    ensures NamesKnown(w, d, r) && (r.event ==> forall t :: t in r.routes ==> MayCount(w.captures, t))
  {
    if r.event {
      forall t | t in r.routes
        ensures MayCount(w.captures, t) && !IdleTrace(w.captures, t)
      {
        assert t in w.phase.asked;
        AskedNotIdle(w.captures, t);
      }
    }
  }

  lemma UsedKeeps(w: World, r: Record)
    requires Inv(w)
    ensures Inv(w.(phase := Used(w.phase, r)))
  {
  }

  lemma RouteKeeps(w: World, d: nat, r: Record)
    requires Steady(w) && Allowed(w, Route(d, r))
    ensures Inv(RouteWorld(w, d, r))
  {
    RouteNames(w, d, r);
    var cs := Counted(w.captures, r, w.sequence);
    CountedEvolves(w.captures, r, w.sequence);
    EvolveKeeps(w, cs);
    NamesStayKnown(w, cs, d, r);
    var v := w.(captures := cs);
    RouteCounted(v, d, r);
    if v.lanes[d].active && |v.lanes[d].stage| >= STAGE {
      var over := Overflowing(cs, w.dest, d, w.sequence);
      OverflowingDecides(cs, w.dest, d, w.sequence);
      EvolveKeeps(v, over);
      NamesStayKnown(v, over, d, r);
      RouteOverflow(v.(captures := over), d, r);
    }
  }

  // ---- Observing -------------------------------------------------------------------------------------

  /** The same capture later in its life. */
  predicate Ahead(c: Capture, d: Capture) {
    d.trace == c.trace && Rank(d) >= Rank(c) && d.mode == c.mode && d.maxRecords == c.maxRecords
        && d.maxCycles == c.maxCycles
  }

  /** One observation of all captures: some idle ones become candidates, nothing else is decided. */
  predicate Observed(cs: seq<Capture>, ds: seq<Capture>, o: Observation) {
    && |cs| == |ds|
    && forall i :: 0 <= i < |cs| ==> ObservedOne(cs[i], ds[i], o)
  }

  predicate ObservedOne(c: Capture, d: Capture, o: Observation) {
    && Ahead(c, d) && d.failed == c.failed && WithinLimits(d)
    && (d.candidate == c.candidate || (Idle(c) && d.candidate == o.instruction && o.kind.Call?))
    && (Idle(d) ==> Idle(c))
  }

  lemma ObservedCaptures(w: World, o: Observation)
    requires CapturesOk(w.captures, w.open)
    ensures Observed(w.captures, ObserveWorld(w, o).captures, o)
  {
    var ds := ObserveWorld(w, o).captures;
    forall i | 0 <= i < |ds|
      ensures ObservedOne(w.captures[i], ds[i], o)
    {
      BeforeEvolves(w.captures[i], o);
    }
  }

  lemma ObservedKeepsCaptures(cs: seq<Capture>, ds: seq<Capture>, o: Observation, was: nat, open: nat)
    requires CapturesOk(cs, was) && Observed(cs, ds, o)
    requires was == 0 || open == was
    requires o.kind.Call? ==> open == o.instruction
    ensures CapturesOk(ds, open)
  {
    forall i, j | 0 <= i < j < |ds| && ds[i].trace == ds[j].trace
      ensures !Live(ds[i])
    {
      assert ObservedOne(cs[i], ds[i], o) && ObservedOne(cs[j], ds[j], o);
    }
    forall i | 0 <= i < |ds|
      ensures WithinLimits(ds[i]) && (ds[i].candidate > 0 ==> ds[i].candidate == open)
    {
      assert ObservedOne(cs[i], ds[i], o);
    }
  }

  /** A trace that is neither idle nor undecided keeps its verdict. */
  lemma ObservedDecided(cs: seq<Capture>, ds: seq<Capture>, o: Observation, t: nat)
    requires Observed(cs, ds, o) && !OpenTrace(cs, t) && !IdleTrace(cs, t)
    requires forall i :: 0 <= i < |cs| ==> WithinLimits(cs[i])
    ensures Failed(cs, t) == Failed(ds, t) && !OpenTrace(ds, t) && !IdleTrace(ds, t)
  {
    forall i | 0 <= i < |ds| && ds[i].trace == t
      ensures cs[i].trace == t && Rejected(cs[i]) == Rejected(ds[i]) && !Open(ds[i]) && !Idle(ds[i])
    {
      assert ObservedOne(cs[i], ds[i], o);
      assert !Idle(cs[i]) && !Open(cs[i]) && WithinLimits(cs[i]);
    }
    if Failed(cs, t) {
      var i :| 0 <= i < |cs| && cs[i].trace == t && Rejected(cs[i]);
      assert ObservedOne(cs[i], ds[i], o) && Rejected(ds[i]);
    }
  }

  lemma ObservedKeepsLane(cs: seq<Capture>, ds: seq<Capture>, o: Observation, l: Lane, active: bool)
    requires Observed(cs, ds, o) && LaneOk(cs, l) && HistoryNotIdle(cs, l) && (l.active ==> active)
    requires forall i :: 0 <= i < |cs| ==> WithinLimits(cs[i])
    ensures LaneOk(ds, l.(active := active)) && HistoryNotIdle(ds, l)
  {
    forall k, t | 0 <= k < l.direct && t in l.hist[k].routes
      ensures Failed(cs, t) == Failed(ds, t) && !OpenTrace(ds, t)
    {
      ObservedDecided(cs, ds, o, t);
    }
    CommitSame(cs, ds, l.hist[..l.direct]);
    forall k, t | 0 <= k < |l.hist| && t in l.hist[k].routes
      ensures !IdleTrace(ds, t)
    {
      forall i | 0 <= i < |ds|
        ensures ds[i].trace == cs[i].trace && (Idle(ds[i]) ==> Idle(cs[i]))
      {
        assert ObservedOne(cs[i], ds[i], o);
      }
      IdleBefore(cs, ds, t);
    }
  }

  lemma ObserveKeepsStaged(w: World, o: Observation)
    requires Inv(w)
    ensures Staged(ObserveWorld(w, o))
  {
    ObservedCaptures(w, o);
    var v := ObserveWorld(w, o);
    forall i | 0 <= i < |v.captures| && Open(v.captures[i]) && v.captures[i].trace in v.dest
      ensures v.dest[v.captures[i].trace] < |v.lanes| && v.lanes[v.dest[v.captures[i].trace]].active
    {
      assert ObservedOne(w.captures[i], v.captures[i], o);
      if w.captures[i].candidate == 0 {
        assert Activates(w.captures, v.captures, w.dest, v.dest[v.captures[i].trace]);
      } else {
        assert Open(w.captures[i]);
      }
    }
  }

  lemma ObserveKeepsOpen(w: World, o: Observation, d: nat)
    requires Inv(w) && Allowed(w, Observe(o)) && d < |w.lanes| && ObserveWorld(w, o).lanes[d].active
    ensures ObserveWorld(w, o).open > 0
  {
    ObservedCaptures(w, o);
    var v := ObserveWorld(w, o);
    if !w.lanes[d].active {
      var i :| 0 <= i < |v.captures| && v.captures[i].candidate > 0 && w.captures[i].candidate == 0;
      assert ObservedOne(w.captures[i], v.captures[i], o);
    }
  }

  lemma ObserveKeepsLanes(w: World, o: Observation)
    requires Inv(w) && Allowed(w, Observe(o))
    ensures LanesOk(ObserveWorld(w, o))
  {
    ObservedCaptures(w, o);
    var v := ObserveWorld(w, o);
    forall d | 0 <= d < |v.lanes|
      ensures LaneOk(v.captures, v.lanes[d]) && HistoryNames(v.dest, v.lanes[d], d)
      ensures HistoryNotIdle(v.captures, v.lanes[d]) && (v.lanes[d].active ==> v.open > 0)
    {
      ObservedKeepsLane(w.captures, v.captures, o, w.lanes[d], v.lanes[d].active);
      assert HistoryNames(w.dest, w.lanes[d], d);
      if v.lanes[d].active { ObserveKeepsOpen(w, o, d); }
    }
  }

  lemma ObserveKeeps(w: World, o: Observation)
    requires Inv(w) && Allowed(w, Observe(o))
    ensures Inv(ObserveWorld(w, o))
  {
    ObservedCaptures(w, o);
    ObservedKeepsCaptures(w.captures, ObserveWorld(w, o).captures, o, w.open, ObserveWorld(w, o).open);
    ObserveKeepsStaged(w, o);
    ObserveKeepsLanes(w, o);
  }

  // ---- The end of scopes -----------------------------------------------------------------------------

  /** What after_observation does to one capture. */
  predicate EndedOne(c: Capture, d: Capture, o: Observation) {
    && Evolves(c, d)
    && (Boundary(o) && (Terminal(o) ==> c.candidate == 0 || c.candidate == o.instruction) ==>
        d.candidate == 0 || !d.state.Armed?)
  }

  lemma AfterDecides(c: Capture, o: Observation, next: nat)
    requires Boundary(o) && c.candidate > 0 && (Terminal(o) ==> c.candidate == o.instruction) && WithinLimits(c)
    ensures !After(c, o, next).state.Armed?
  {
    SettleEvolves(c, o);
    var settled := Settle(c, o);
    var bound := if Binds(settled, o) then Bind(settled, o, next) else settled;
    BindDecides(settled, o, next);
    EndScopeEvolves(bound, Returned, o.sequence);
    EndScopeEvolves(bound, WasReset, o.sequence);
    EndScopeEvolves(bound, WasLoaded, o.sequence);
  }

  lemma BindDecides(c: Capture, o: Observation, next: nat)
    requires c.candidate > 0 && (Terminal(o) ==> c.candidate == o.instruction)
    ensures var bound := if Binds(c, o) then Bind(c, o, next) else c;
            Terminal(o) ==> !bound.state.Armed?
  {
  }

  lemma AfterEnds(c: Capture, o: Observation, next: nat)
    requires (Terminal(o) ==> o.instruction > 0) && WithinLimits(c)
    ensures EndedOne(c, After(c, o, next), o)
  {
    AfterEvolves(c, o, next);
    if Boundary(o) && c.candidate > 0 && (Terminal(o) ==> c.candidate == o.instruction) { AfterDecides(c, o, next); }
  }

  lemma RearmEnds(c: Capture, o: Observation, next: nat)
    requires Rearms(c, o)
    ensures Live(c) && !Live(After(c, o, next))
  {
    AfterEvolves(c, o, next);
    SettleEvolves(c, o);
  }

  predicate EndedFrom(cs: seq<Capture>, ds: seq<Capture>, i: nat, n: nat, o: Observation)
    requires i <= n <= |cs|
  {
    && |cs| <= |ds|
    && (forall j :: 0 <= j < |cs| && !(i <= j < n) ==> ds[j] == cs[j])
    && (forall j :: i <= j < n ==> EndedOne(cs[j], ds[j], o))
    && (forall j :: |cs| <= j < |ds| ==> Fresh(ds[j]))
    && (!o.kind.Reset? ==> |ds| == |cs|)
  }

  /** An armed capture nothing has happened to. */
  predicate Fresh(c: Capture) {
    Idle(c) && !c.failed && !c.limit && c.records == 0 && c.cycles == 0 && 1 <= c.maxRecords && 1 <= c.maxCycles
        && !c.mode.Persistent?
  }

  /** A successor is armed only for a trace whose live capture has just ended. */
  lemma SuccessorKeepsOneLive(cs: seq<Capture>, i: nat, d: Capture, successor: Capture)
    requires i < |cs| && OneLive(cs) && Live(cs[i]) && d.trace == cs[i].trace == successor.trace && !Live(d)
    ensures OneLive(cs[i := d] + [successor])
  {
    var ds := cs[i := d] + [successor];
    forall a, b | 0 <= a < b < |ds| && ds[a].trace == ds[b].trace
      ensures !Live(ds[a])
    {
      if b < |cs| { assert cs[a].trace == cs[b].trace; }
      else if a < i { assert cs[a].trace == cs[i].trace; }
    }
  }

  lemma TurnKeepsOneLive(cs: seq<Capture>, next: nat, i: nat, o: Observation)
    requires i < |cs| && OneLive(cs) && WithinLimits(cs[i]) && (Terminal(o) ==> o.instruction > 0)
    ensures OneLive(EndTurn(cs, next, i, o))
  {
    AfterEnds(cs[i], o, next);
    if Rearms(cs[i], o) && |cs| < CAPTURES {
      RearmEnds(cs[i], o, next);
      SuccessorKeepsOneLive(cs, i, After(cs[i], o, next), Successor(cs[i], o));
    } else {
      assert EndTurn(cs, next, i, o) == cs[i := After(cs[i], o, next)];
    }
  }

  lemma TurnEnds(cs: seq<Capture>, next: nat, i: nat, o: Observation)
    requires i < |cs| && WithinLimits(cs[i]) && (Terminal(o) ==> o.instruction > 0)
    ensures EndedFrom(cs, EndTurn(cs, next, i, o), i, i + 1, o)
  {
    AfterEnds(cs[i], o, next);
  }

  lemma EndedCompose(cs: seq<Capture>, ms: seq<Capture>, ds: seq<Capture>, i: nat, n: nat, o: Observation)
    requires i < n <= |cs| && EndedFrom(cs, ms, i, i + 1, o) && EndedFrom(ms, ds, i + 1, n, o)
    ensures EndedFrom(cs, ds, i, n, o)
  {
  }

  lemma {:induction false} EndLoopEnds(cs: seq<Capture>, next: nat, i: nat, n: nat, o: Observation)
    requires i <= n <= |cs| && OneLive(cs) && (forall j :: i <= j < n ==> WithinLimits(cs[j]))
    requires Terminal(o) ==> o.instruction > 0
    ensures EndedFrom(cs, EndLoop(cs, next, i, n, o).0, i, n, o) && OneLive(EndLoop(cs, next, i, n, o).0)
    decreases n - i
  {
    if i < n {
      var ms := EndTurn(cs, next, i, o);
      var later := if TurnConsumes(cs, next, i, o) then Bump(next) else next;
      TurnEnds(cs, next, i, o);
      TurnKeepsOneLive(cs, next, i, o);
      EndLoopEnds(ms, later, i + 1, n, o);
      EndedCompose(cs, ms, EndLoop(ms, later, i + 1, n, o).0, i, n, o);
    }
  }

  lemma EndedKeepsCaptures(cs: seq<Capture>, ds: seq<Capture>, o: Observation, open: nat)
    requires CapturesOk(cs, open) && EndedFrom(cs, ds, 0, |cs|, o) && OneLive(ds)
    ensures CapturesOk(ds, open)
  {
    forall i | 0 <= i < |ds|
      ensures WithinLimits(ds[i]) && (ds[i].candidate > 0 ==> ds[i].candidate == open)
    {
      if i < |cs| { assert EndedOne(cs[i], ds[i], o); }
    }
  }

  lemma EndedEvolves(cs: seq<Capture>, ds: seq<Capture>, o: Observation)
    requires EndedFrom(cs, ds, 0, |cs|, o)
    ensures AllEvolve(cs, ds)
  {
    forall i | 0 <= i < |cs|
      ensures Evolves(cs[i], ds[i])
    {
      assert EndedOne(cs[i], ds[i], o);
    }
  }

  lemma EndKeepsLanes(w: World, ds: seq<Capture>, o: Observation)
    requires Inv(w) && w.phase.Routing? && w.phase.o == o && EndedFrom(w.captures, ds, 0, |w.captures|, o)
    ensures LanesOk(w.(captures := ds, phase := Ending(o)))
  {
    EndedEvolves(w.captures, ds, o);
    if Boundary(o) {
      forall d | 0 <= d < |w.lanes|
        ensures LaneOk(ds, w.lanes[d])
      {
        LaneEvolves(w.captures, ds, w.lanes[d]);
      }
    } else {
      EvolveKeepsLanes(w, ds);
    }
  }

  /** At a boundary no candidate is left armed. */
  lemma EndDecides(cs: seq<Capture>, ds: seq<Capture>, o: Observation, open: nat)
    requires CapturesOk(cs, open) && EndedFrom(cs, ds, 0, |cs|, o) && Boundary(o)
    requires (Terminal(o) ==> o.instruction == open)
    ensures forall i :: 0 <= i < |ds| ==> ds[i].candidate == 0 || !ds[i].state.Armed?
  {
    forall i | 0 <= i < |ds|
      ensures ds[i].candidate == 0 || !ds[i].state.Armed?
    {
      if i < |cs| { assert EndedOne(cs[i], ds[i], o); }
    }
  }

  lemma EndKeepsStaged(w: World, ds: seq<Capture>, o: Observation)
    requires Inv(w) && EndedFrom(w.captures, ds, 0, |w.captures|, o)
    ensures Staged(w.(captures := ds))
  {
    forall i | 0 <= i < |ds| && Open(ds[i]) && ds[i].trace in w.dest
      ensures w.lanes[w.dest[ds[i].trace]].active
    {
      assert EndedOne(w.captures[i], ds[i], o);
      assert Open(w.captures[i]);
    }
  }

  lemma EndKeeps(w: World)
    requires Inv(w)
    ensures Inv(EndWorld(w))
  {
    if w.phase.Routing? {
      var o := w.phase.o;
      var ds := EndWorld(w).captures;
      EndLoopEnds(w.captures, w.nextInvocation, 0, |w.captures|, o);
      EndedKeepsCaptures(w.captures, ds, o, w.open);
      EndKeepsStaged(w, ds, o);
      EndKeepsLanes(w, ds, o);
      if Boundary(o) { EndDecides(w.captures, ds, o, w.open); }
    }
  }

  // ---- The boundary ---------------------------------------------------------------------------------------

  lemma RebasedOk(cs: seq<Capture>, ds: seq<Capture>, l: Lane)
    requires LaneOk(cs, l)
    ensures LaneOk(ds, Rebased(cs, Flushed(cs, l)))
  {
    FlushedOut(cs, l);
  }

  lemma FinishKeepsCaptures(w: World)
    requires Inv(w) && AtBoundary(w.phase)
    ensures CapturesOk(FinishWorld(w).captures, FinishWorld(w).open)
    ensures forall i :: 0 <= i < |FinishWorld(w).captures| ==> FinishWorld(w).captures[i].candidate == 0
  {
    var v := FinishWorld(w);
    forall i | 0 <= i < |v.captures|
      ensures WithinLimits(v.captures[i]) && v.captures[i].candidate == 0
      ensures v.captures[i].state == w.captures[i].state && v.captures[i].trace == w.captures[i].trace
    {
      ClearKeeps(w.captures[i]);
    }
  }

  lemma FinishKeeps(w: World)
    requires Inv(w)
    ensures Inv(FinishWorld(w))
  {
    if w.phase.Ending? && Boundary(w.phase.o) {
      FinishKeepsCaptures(w);
      var v := FinishWorld(w);
      forall d | 0 <= d < |v.lanes|
        ensures LaneOk(v.captures, v.lanes[d])
      {
        RebasedOk(w.captures, v.captures, w.lanes[d]);
      }
    }
  }

  lemma StartKeepsCaptures(w: World, q: Request)
    requires Inv(w) && CanStart(w, q)
    ensures CapturesOk(w.captures + [Started(w, q)], w.open)
  {
    var ds := w.captures + [Started(w, q)];
    forall i, j | 0 <= i < j < |ds| && ds[i].trace == ds[j].trace
      ensures !Live(ds[i])
    {
      if j == |w.captures| && Newest(w.captures, i) { assert !Live(w.captures[i]); }
    }
  }

  lemma StartKeeps(w: World, q: Request)
    requires Inv(w)
    ensures Inv(StartWorld(w, q))
  {
    if CanStart(w, q) {
      StartKeepsCaptures(w, q);
      var v := StartWorld(w, q);
      forall d | 0 <= d < |v.lanes|
        ensures LaneOk(v.captures, v.lanes[d])
      {
        assert !w.lanes[d].active;
        assert Flushed(w.captures, w.lanes[d]).hist == w.lanes[d].hist;
        RebasedOk(w.captures, v.captures, w.lanes[d]);
        assert Commit(w.captures, w.lanes[d].stage) == [];
        assert Rebased(w.captures, Flushed(w.captures, w.lanes[d])) == v.lanes[d];
      }
      assert Staged(v);
    }
  }

  lemma ClockKeeps(w: World, generation: nat, cycle: nat)
    requires Inv(w)
    ensures Inv(ClockWorld(w, generation, cycle))
  {
    var ds := ClockWorld(w, generation, cycle).captures;
    forall i | 0 <= i < |ds|
      ensures Evolves(w.captures[i], ds[i])
    {
      TickEvolves(w.captures[i], generation, cycle, w.sequence);
    }
    EvolveKeeps(w, ds);
  }

  lemma StarvingKeeps(w: World, lane: nat)
    requires Inv(w)
    ensures Inv(w.(captures := Starving(w.captures, w.dest, lane, w.sequence)))
  {
    var ds := Starving(w.captures, w.dest, lane, w.sequence);
    forall i | 0 <= i < |ds|
      ensures Evolves(w.captures[i], ds[i])
    {
      StarveEvolves(w.captures[i], w.sequence);
    }
    EvolveKeeps(w, ds);
  }

  lemma StoppingKeeps(w: World, trace: nat)
    requires Inv(w)
    ensures Inv(w.(captures := Stopping(w.captures, trace, w.sequence)))
  {
    var ds := Stopping(w.captures, trace, w.sequence);
    forall i | 0 <= i < |ds|
      ensures Evolves(w.captures[i], ds[i])
    {
      StopEvolves(w.captures[i], w.sequence);
    }
    EvolveKeeps(w, ds);
  }

  // ---- What was let through stays countable -----------------------------------------------------------------

  /** A capture that was not counted for a record: it ends, or is as countable as before. */
  predicate Uncounted(c: Capture, d: Capture) {
    d.trace == c.trace && (Idle(d) ==> Idle(c)) && (d.state.Armed? && d.limit ==> c.state.Armed? && c.limit)
  }

  lemma CountableStays(cs: seq<Capture>, ds: seq<Capture>, t: nat)
    requires |cs| == |ds| && (forall i :: 0 <= i < |cs| ==> ds[i].trace == cs[i].trace)
    requires forall i :: 0 <= i < |cs| && cs[i].trace == t ==> Uncounted(cs[i], ds[i])
    requires MayCount(cs, t)
    ensures MayCount(ds, t)
  {
    forall i | 0 <= i < |ds| && ds[i].trace == t && Newest(ds, i)
      ensures !Idle(ds[i]) && !(ds[i].state.Armed? && ds[i].limit)
    {
      assert Newest(cs, i) by {
        forall j | i < j < |cs| ensures cs[j].trace != cs[i].trace { assert ds[j].trace != ds[i].trace; }
      }
      assert Uncounted(cs[i], ds[i]);
    }
  }

  lemma CountedCountable(cs: seq<Capture>, r: Record, sequence: nat, t: nat)
    requires MayCount(cs, t) && !(r.event && t in r.routes)
    ensures MayCount(Counted(cs, r, sequence), t)
  {
    CountableStays(cs, Counted(cs, r, sequence), t);
  }

  lemma OverflowingCountable(cs: seq<Capture>, dest: map<nat, nat>, lane: nat, sequence: nat, t: nat)
    requires MayCount(cs, t)
    ensures MayCount(Overflowing(cs, dest, lane, sequence), t)
  {
    CountableStays(cs, Overflowing(cs, dest, lane, sequence), t);
  }

  lemma RouteKeepsAsked(w: World, d: nat, r: Record)
    requires AskedOk(w) && d < |w.lanes|
    ensures AskedOk(RouteWorld(w, d, r).(phase := Used(w.phase, r)))
  {
    var v := RouteWorld(w, d, r);
    if w.phase.Routing? {
      forall t | t in Used(w.phase, r).asked
        ensures MayCount(v.captures, t)
      {
        var cs := Counted(w.captures, r, w.sequence);
        CountedCountable(w.captures, r, w.sequence, t);
        OverflowingCountable(cs, w.dest, d, w.sequence, t);
      }
    }
  }

  lemma AskKeepsAsked(w: World, t: nat)
    requires AskedOk(w)
    ensures AskedOk(AskWorld(w, t))
  {
    assert Eligible(w.captures, t) ==> MayCount(w.captures, t);
  }

  lemma ClockKeepsAsked(w: World, generation: nat, cycle: nat)
    requires AskedOk(w)
    ensures AskedOk(ClockWorld(w, generation, cycle))
  {
    if w.phase.Routing? {
      forall t | t in w.phase.asked ensures MayCount(ClockWorld(w, generation, cycle).captures, t) {
        CountableStays(w.captures, ClockWorld(w, generation, cycle).captures, t);
      }
    }
  }

  lemma StarvingKeepsAsked(w: World, lane: nat)
    requires AskedOk(w)
    ensures AskedOk(w.(captures := Starving(w.captures, w.dest, lane, w.sequence)))
  {
    if w.phase.Routing? {
      var ds := Starving(w.captures, w.dest, lane, w.sequence);
      forall t | t in w.phase.asked ensures MayCount(ds, t) { CountableStays(w.captures, ds, t); }
    }
  }

  lemma NextKeepsAsked(w: World, step: Step)
    requires AskedOk(w)
    ensures AskedOk(Next(w, step))
  {
    if Allowed(w, step) {
      if step.Route? { RouteKeepsAsked(w, step.lane, step.record); }
      else if step.Ask? { AskKeepsAsked(w, step.trace); }
      else if step.Clock? { ClockKeepsAsked(w, step.generation, step.cycle); }
      else if step.StorageFull? { StarvingKeepsAsked(w, step.lane); }
    }
  }

  lemma NextKeepsInv(w: World, step: Step)
    requires Steady(w)
    ensures Inv(Next(w, step))
  {
    if Allowed(w, step) {
      if step.Observe? { ObserveKeeps(w, step.o); }
      else if step.Ask? { AskKeeps(w, step.trace); }
      else if step.Route? {
        RouteKeeps(w, step.lane, step.record);
        UsedKeeps(RouteWorld(w, step.lane, step.record), step.record);
      }
      else if step.EndScopes? { EndKeeps(w); }
      else if step.Finish? { FinishKeeps(w); }
      else if step.Start? { StartKeeps(w, step.request); }
      else if step.Clock? { ClockKeeps(w, step.generation, step.cycle); }
      else if step.StorageFull? { StarvingKeeps(w, step.lane); }
      else { StoppingKeeps(w, step.trace); }
    }
  }

  lemma AskKeeps(w: World, t: nat)
    requires Inv(w)
    ensures Inv(AskWorld(w, t))
  {
  }

  lemma {:induction false} RunKeepsInv(w: World, steps: seq<Step>)
    requires Steady(w)
    ensures Steady(Run(w, steps))
    decreases |steps|
  {
    if steps != [] {
      RunKeepsInv(w, steps[..|steps| - 1]);
      NextKeepsInv(Run(w, steps[..|steps| - 1]), steps[|steps| - 1]);
      NextKeepsAsked(Run(w, steps[..|steps| - 1]), steps[|steps| - 1]);
    }
  }

  // ---- What it all promises ---------------------------------------------------------------------------------

  /** A state with nothing captured and nothing routed yet. */
  predicate Untouched(w: World) {
    && w.captures == [] && w.phase.Quiet? && w.open == 0
    && (forall t :: t in w.dest ==> w.dest[t] < |w.lanes|)
    && (forall d :: 0 <= d < |w.lanes| ==> w.lanes[d] == Lane(false, [], [], [], [], 0))
  }

  lemma StartOk(w: World)
    requires Untouched(w)
    ensures Steady(w)
  {
    forall d | 0 <= d < |w.lanes|
      ensures LaneOk(w.captures, w.lanes[d])
    {
      assert w.lanes[d] == Lane(false, [], [], [], [], 0);
    }
  }

  /** The reference: an unlimited buffer keeps every record routed to a destination back, in order, until
      a boundary or the start of a capture; only there it decides, by the captures as they are then. It
      knows nothing of stages. */
  predicate Settles(w: World, step: Step) {
    (step.Finish? && AtBoundary(w.phase)) || (step.Start? && CanStart(w, step.request))
  }

  function RoutedTo(w: World, step: Step, d: nat): seq<Record> {
    if step.Route? && step.lane == d && Allowed(w, step) then [step.record] else []
  }

  /** What the reference keeps back. */
  function KeptBack(w: World, steps: seq<Step>, d: nat): seq<Record>
    decreases |steps|
  {
    if steps == [] then []
    else
      var front, last := steps[..|steps| - 1], steps[|steps| - 1];
      if Settles(Run(w, front), last) then [] else KeptBack(w, front, d) + RoutedTo(Run(w, front), last, d)
  }

  /** What the reference has stored. */
  function Decided(w: World, steps: seq<Step>, d: nat): seq<Record>
    decreases |steps|
  {
    if steps == [] then []
    else
      var front, last := steps[..|steps| - 1], steps[|steps| - 1];
      Decided(w, front, d) + if Settles(Run(w, front), last) then Commit(Run(w, front).captures, KeptBack(w, front, d))
          else []
  }

  /** One step on the record the lanes keep of the same. */
  lemma LaneFollows(w: World, step: Step, d: nat)
    requires d < |w.lanes|
    ensures |Next(w, step).lanes| == |w.lanes|
    ensures var l, m := w.lanes[d], Next(w, step).lanes[d];
            if Settles(w, step) then m.base == l.base + Commit(w.captures, l.hist) && m.hist == []
            else m.base == l.base && m.hist == l.hist + RoutedTo(w, step, d)
  {
    if step.Route? && Allowed(w, step) { RouteLanes(w, step.lane, step.record, d); }
    else if !Settles(w, step) { assert w.lanes[d].hist + [] == w.lanes[d].hist; }
  }

  lemma RouteLanes(w: World, lane: nat, r: Record, d: nat)
    requires lane < |w.lanes| && d < |w.lanes|
    ensures var l, m := w.lanes[d], RouteWorld(w, lane, r).lanes[d];
            m.base == l.base && m.hist == l.hist + if lane == d then [r] else []
  {
    assert w.lanes[d].hist + [] == w.lanes[d].hist;
  }

  lemma {:induction false} LanesFollow(w: World, steps: seq<Step>, d: nat)
    requires Untouched(w) && d < |w.lanes|
    ensures |Run(w, steps).lanes| == |w.lanes|
    ensures Run(w, steps).lanes[d].base == Decided(w, steps, d) && Run(w, steps).lanes[d].hist == KeptBack(w, steps, d)
    decreases |steps|
  {
    if steps == [] { assert w.lanes[d] == Lane(false, [], [], [], [], 0); }
    else {
      var front, last := steps[..|steps| - 1], steps[|steps| - 1];
      LanesFollow(w, front, d);
      LaneFollows(Run(w, front), last, d);
      assert Decided(w, front, d) + [] == Decided(w, front, d);
    }
  }

  /** Staging is transparent: whenever a destination is not staging, its storage holds exactly what
      the reference holds: every routed record once, in routing order, with the routes of failed
      captures removed and records left without routes dropped. */
  lemma StagingTransparent(w: World, steps: seq<Step>, d: nat)
    requires Untouched(w) && d < |w.lanes|
    ensures var v := Run(w, steps);
            && |v.lanes| == |w.lanes|
            && (!v.lanes[d].active ==>
                  && v.lanes[d].out == Decided(w, steps, d) + Commit(v.captures, KeptBack(w, steps, d))
                  && v.lanes[d].stage == [])
  {
    StartOk(w);
    RunKeepsInv(w, steps);
    LanesFollow(w, steps, d);
    var v := Run(w, steps);
    if !v.lanes[d].active {
      assert LaneOk(v.captures, v.lanes[d]);
      assert v.lanes[d].hist[..v.lanes[d].direct] == v.lanes[d].hist;
    }
  }

  /** Between instructions nothing is staged and no capture is a candidate. */
  lemma NothingStagedBetweenInstructions(w: World, steps: seq<Step>)
    requires Untouched(w) && Run(w, steps).open == 0
    ensures !Staging(Run(w, steps))
    ensures forall i :: 0 <= i < |Run(w, steps).captures| ==> Run(w, steps).captures[i].candidate == 0
  {
    StartOk(w);
    RunKeepsInv(w, steps);
    var v := Run(w, steps);
    assert forall d :: 0 <= d < |v.lanes| && v.lanes[d].active ==> v.open > 0;
  }

  // ---- Capture lifecycle ------------------------------------------------------------------------------------

  predicate Forward(cs: seq<Capture>, ds: seq<Capture>) {
    |cs| <= |ds| && forall i :: 0 <= i < |cs| ==> Ahead(cs[i], ds[i])
  }

  lemma EvolveForward(cs: seq<Capture>, ds: seq<Capture>)
    requires AllEvolve(cs, ds)
    ensures Forward(cs, ds)
  {
    forall i | 0 <= i < |cs|
      ensures Ahead(cs[i], ds[i])
    {
      assert Evolves(cs[i], ds[i]);
    }
  }

  lemma RouteForward(w: World, d: nat, r: Record)
    requires Steady(w) && Allowed(w, Route(d, r))
    ensures Forward(w.captures, RouteWorld(w, d, r).captures) && |RouteWorld(w, d, r).captures| == |w.captures|
  {
    var cs := Counted(w.captures, r, w.sequence);
    RouteNames(w, d, r);
    CountedEvolves(w.captures, r, w.sequence);
    EvolveForward(w.captures, cs);
    OverflowingDecides(cs, w.dest, d, w.sequence);
    EvolveForward(cs, Overflowing(cs, w.dest, d, w.sequence));
  }

  lemma EndForward(w: World)
    requires Inv(w) && w.phase.Routing?
    ensures Forward(w.captures, EndWorld(w).captures)
  {
    EndLoopEnds(w.captures, w.nextInvocation, 0, |w.captures|, w.phase.o);
    EndedEvolves(w.captures, EndWorld(w).captures, w.phase.o);
    EvolveForward(w.captures, EndWorld(w).captures);
  }

  lemma ObserveForward(w: World, o: Observation)
    requires Inv(w)
    ensures Forward(w.captures, ObserveWorld(w, o).captures)
  {
    ObservedCaptures(w, o);
    var ds := ObserveWorld(w, o).captures;
    forall i | 0 <= i < |w.captures|
      ensures Ahead(w.captures[i], ds[i])
    {
      assert ObservedOne(w.captures[i], ds[i], o);
    }
  }

  lemma NextForward(w: World, step: Step)
    requires Steady(w)
    ensures Forward(w.captures, Next(w, step).captures)
  {
    if Allowed(w, step) {
      if step.Observe? { ObserveForward(w, step.o); }
      else if step.Route? { RouteForward(w, step.lane, step.record); }
      else if step.EndScopes? && w.phase.Routing? { EndForward(w); }
    }
  }

  lemma {:induction false} RunForward(w: World, steps: seq<Step>)
    requires Steady(w)
    ensures Forward(w.captures, Run(w, steps).captures)
    decreases |steps|
  {
    if steps != [] {
      var u := Run(w, steps[..|steps| - 1]);
      RunForward(w, steps[..|steps| - 1]);
      RunKeepsInv(w, steps[..|steps| - 1]);
      NextForward(u, steps[|steps| - 1]);
      var cs := Next(u, steps[|steps| - 1]).captures;
      assert forall i :: 0 <= i < |w.captures| ==> Ahead(w.captures[i], u.captures[i]) && Ahead(u.captures[i], cs[i]);
    }
  }

  /** The life of captures, over every run: a live capture is the newest of its trace, so there is
      at most one; life only moves forward, so a terminal capture is never live again; and counts
      stay within the limits fixed when the capture was made. */
  lemma CaptureLifecycle(w: World, early: seq<Step>, late: seq<Step>, i: nat)
    requires Untouched(w) && i < |Run(w, early).captures|
    ensures var c := Run(w, early).captures[i];
            var cs := Run(Run(w, early), late).captures;
            && i < |cs| && Ahead(c, cs[i]) && (!Live(c) ==> !Live(cs[i]))
            && (Live(cs[i]) ==> Newest(cs, i))
            && cs[i].records <= c.maxRecords && cs[i].cycles <= c.maxCycles
  {
    StartOk(w);
    RunKeepsInv(w, early);
    RunForward(Run(w, early), late);
    RunKeepsInv(Run(w, early), late);
  }

  // ---- The deadline -------------------------------------------------------------------------------------------

  /** Capture `i`, the newest of its trace, is over and was not let through. */
  predicate ShutOut(w: World, i: nat, trace: nat) {
    && w.phase.Routing? && trace !in w.phase.asked
    && i < |w.captures| && w.captures[i].trace == trace && Newest(w.captures, i) && !Live(w.captures[i])
  }

  lemma NewestForward(cs: seq<Capture>, ds: seq<Capture>, i: nat)
    requires Forward(cs, ds) && |cs| == |ds| && i < |cs| && Newest(cs, i) && !Live(cs[i])
    ensures Newest(ds, i) && ds[i].trace == cs[i].trace && !Live(ds[i])
  {
    forall j | 0 <= j < |cs|
      ensures ds[j].trace == cs[j].trace && (j == i ==> !Live(ds[j]))
    {
      assert Ahead(cs[j], ds[j]);
    }
  }

  /** While routing, only the end of scopes can change how many captures there are. */
  lemma RoutingKeepsCount(w: World, step: Step)
    requires Steady(w) && w.phase.Routing? && !step.EndScopes?
    ensures |Next(w, step).captures| == |w.captures| && Next(w, step).phase.Routing?
  {
    if step.Route? && Allowed(w, step) { RouteForward(w, step.lane, step.record); }
  }

  lemma StaysShutOut(w: World, step: Step, i: nat, trace: nat)
    requires Steady(w) && ShutOut(w, i, trace) && !step.EndScopes?
    ensures ShutOut(Next(w, step), i, trace)
  {
    var v := Next(w, step);
    RoutingKeepsCount(w, step);
    NextForward(w, step);
    NewestForward(w.captures, v.captures, i);
    if step.Ask? && step.trace == trace { assert !Eligible(w.captures, trace); }
  }

  predicate NoEnd(steps: seq<Step>) { forall k :: 0 <= k < |steps| ==> !steps[k].EndScopes? }

  lemma {:induction false} RunShutOut(w: World, steps: seq<Step>, i: nat, trace: nat)
    requires Steady(w) && ShutOut(w, i, trace) && NoEnd(steps)
    ensures ShutOut(Run(w, steps), i, trace)
    decreases |steps|
  {
    if steps != [] {
      RunShutOut(w, steps[..|steps| - 1], i, trace);
      RunKeepsInv(w, steps[..|steps| - 1]);
      StaysShutOut(Run(w, steps[..|steps| - 1]), steps[|steps| - 1], i, trace);
    }
  }

  lemma DeadlineShutsOut(w: World, o: Observation, i: nat)
    requires Inv(w) && i < |w.captures| && Newest(w.captures, i)
    requires var c := w.captures[i];
             && c.state.Bound? && o.generation == c.lastGeneration
                 && (c.mode.Persistent? || o.generation == c.generation)
             && o.cycle >= c.lastCycle + (c.maxCycles - c.cycles)
    ensures ShutOut(ObserveWorld(w, o), i, w.captures[i].trace)
  {
    var v := ObserveWorld(w, o);
    DeadlineExcludes(w.captures[i], o);
    ObserveForward(w, o);
    forall j | 0 <= j < |v.captures| ensures v.captures[j].trace == w.captures[j].trace {
      assert Ahead(w.captures[j], v.captures[j]);
    }
  }

  /** The exact deadline excludes: whatever the router asks and delivers while the observation that uses up
      a capture's last cycle is routed, the capture's trace is never let through for it, so none of its
      events is routed to it. */
  lemma DeadlineNeverRouted(w: World, o: Observation, i: nat, during: seq<Step>, d: nat, r: Record)
    requires Steady(w) && Allowed(w, Observe(o)) && i < |w.captures| && Newest(w.captures, i)
    requires var c := w.captures[i];
             && c.state.Bound? && o.generation == c.lastGeneration
                 && (c.mode.Persistent? || o.generation == c.generation)
             && o.cycle >= c.lastCycle + (c.maxCycles - c.cycles)
    requires NoEnd(during)
    ensures var u := Run(ObserveWorld(w, o), during);
            && u.phase.Routing? && w.captures[i].trace !in u.phase.asked
            && (r.event && Allowed(u, Route(d, r)) ==> w.captures[i].trace !in r.routes)
  {
    ObserveKeeps(w, o);
    DeadlineShutsOut(w, o, i);
    RunShutOut(ObserveWorld(w, o), during, i, w.captures[i].trace);
  }
}
