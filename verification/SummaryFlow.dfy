/** The router and the staging layer together (emu_debug_trace.c, emu_trace_internal.c): whether a trace may
    have an event is asked of the captures as they are, and a summary counted by the router is handed to the
    staging layer. What the staging layer expects of summaries follows. */
module SummaryFlow {
  import opened Counters
  import R = Router
  import S = Staging
  import C = Captures

  /** `trail` is what the staging layer has been asked to do; `present` is how many captures there were when
      scopes were last ended. */
  datatype Joint = Joint(r: R.Router, w: S.World, trail: seq<S.Step>, present: nat)

  function Go(j: Joint, step: S.Step): Joint { j.(w := S.Next(j.w, step), trail := j.trail + [step]) }

  function SummaryOf(w: S.World, id: nat, body: nat): S.Step
    requires id in w.dest
  {
    S.Route(w.dest[id], S.Record(false, [id], body))
  }

  /** suppression_emit: the summary goes to the staging layer, where its storage may turn out full. */
  function Send(j: Joint, id: nat, body: nat, full: bool): Joint {
    if id !in j.r.active || id !in j.r.traces || id !in j.w.dest then j
    else
      var k := Go(j, SummaryOf(j.w, id, body)).(r := R.Emit(j.r, id));
      if full then Go(k, S.StorageFull(j.w.dest[id])) else k
  }

  function Drop(j: Joint, id: nat): Joint { j.(r := R.Next(j.r, R.Discard(id))) }

  /** What a delivery carries, and whether it finds its storage full. */
  datatype Reply = Reply(body: nat, full: bool)

  /** `Track` is the router's count of open interrupts; `Do` is the staging layer's own doing. */
  datatype Deed =
    | Offer(e: R.Event, id: nat, enabled: bool, reply: Reply)
    | Flush(id: nat, reply: Reply)
    | Start(q: S.Request, reply: Reply)
    | End
    | Finish(replies: seq<Reply>)
    | Track(depth: nat)
    | Do(step: S.Step)

  /** One turn of the loop of route_ids: the trace is asked for, and takes the event or has it counted. */
  function OfferOne(j: Joint, e: R.Event, id: nat, enabled: bool, reply: Reply): Joint {
    if id !in j.r.traces || !enabled then j
    else
      var k := Go(j, S.Ask(id));
      if !k.w.phase.Routing? || id !in k.w.phase.asked then k
      else
        var offered := k.(r := k.r.(offers := k.r.offers + multiset{id}));
        if R.PolicyAccepts(j.r.traces[id].policy, e.kind, j.r.depth) then Send(offered, id, reply.body, reply.full)
        else offered.(r := R.Add(offered.r, id, e.sequence))
  }

  /** A scoped capture that failed, or ended with this observation. */
  predicate Over(c: C.Capture, sequence: nat) {
    !c.mode.Persistent? && !C.Live(c) && (c.failed || c.ended == sequence)
  }

  /** One turn of the second loop of after_observation. */
  function SecondTurn(j: Joint, i: nat, sequence: nat, reply: Reply): Joint {
    if i >= |j.w.captures| || j.w.captures[i].mode.Persistent? then j
    else if j.w.captures[i].failed then Drop(j, j.w.captures[i].trace)
    else if !C.Live(j.w.captures[i]) && j.w.captures[i].ended == sequence then
      Send(j, j.w.captures[i].trace, reply.body, reply.full)
    else j
  }

  function ReplyTo(replies: seq<Reply>, i: nat): Reply { if i < |replies| then replies[i] else Reply(0, false) }

  /** The loop over the first `n` captures. */
  function SecondLoop(j: Joint, n: nat, sequence: nat, replies: seq<Reply>): Joint
    decreases n
  {
    if n == 0 then j
    else SecondTurn(SecondLoop(j, n - 1, sequence, replies), n - 1, sequence, ReplyTo(replies, n - 1))
  }

  /** A step the staging layer takes on its own account. */
  predicate Own(step: S.Step) {
    !step.Start? && !step.EndScopes? && !step.Finish? && !(step.Route? && !step.record.event)
  }

  function Perform(j: Joint, deed: Deed): Joint {
    match deed
    case Offer(e, id, enabled, reply) => OfferOne(j, e, id, enabled, reply)
    case Flush(id, reply) => Send(j, id, reply.body, reply.full)
    case Start(q, reply) =>
      if !S.CanStart(j.w, q) then j else Go(Send(j, q.trace, reply.body, reply.full), S.Start(q))
    case Finish(replies) =>
      if !j.w.phase.Ending? then j
      else Go(SecondLoop(j, j.present, j.w.phase.o.sequence, replies), S.Finish)
    case Track(depth) => j.(r := j.r.(depth := depth))
    case End => if !j.w.phase.Routing? then j else Go(j, S.EndScopes).(present := |j.w.captures|)
    case Do(step) => if Own(step) then Go(j, step) else j
  }

  function PerformAll(j: Joint, deeds: seq<Deed>): Joint
    decreases |deeds|
  {
    if deeds == [] then j else Perform(PerformAll(j, deeds[..|deeds| - 1]), deeds[|deeds| - 1])
  }

  // ---- The router's loop ---------------------------------------------------------------------------------

  /** The loop of route_ids. */
  function OfferAll(j: Joint, e: R.Event, ids: seq<nat>, enabled: set<nat>, replies: seq<Reply>): Joint
    decreases |ids|
  {
    if ids == [] then j
    else
      var k := OfferAll(j, e, ids[..|ids| - 1], enabled, replies);
      OfferOne(k, e, ids[|ids| - 1], ids[|ids| - 1] in enabled, ReplyTo(replies, |ids| - 1))
  }

  predicate Open(w: S.World, id: nat, enabled: set<nat>) { id in enabled && S.Eligible(w.captures, id) }

  /** The traces found enabled and eligible, each as the captures stand when its turn comes. */
  function FoundOpen(j: Joint, e: R.Event, ids: seq<nat>, enabled: set<nat>, replies: seq<Reply>): set<nat>
    decreases |ids|
  {
    if ids == [] then {}
    else
      var front, id := ids[..|ids| - 1], ids[|ids| - 1];
      FoundOpen(j, e, front, enabled, replies)
      + if Open(OfferAll(j, e, front, enabled, replies).w, id, enabled) then {id} else {}
  }

  /** Where offers are made: facts are being routed, and every trace has a destination. */
  predicate Offering(j: Joint) { j.w.phase.Routing? && forall id :: id in j.r.traces ==> id in j.w.dest }

  lemma SendOffering(j: Joint, id: nat, body: nat, full: bool)
    requires Offering(j) && id in j.r.traces
    ensures var k := Send(j, id, body, full); Offering(k) && k.r == R.Emit(j.r, id)
  {
  }

  lemma OfferIsTurn(j: Joint, e: R.Event, id: nat, enabled: set<nat>, reply: Reply)
    requires Offering(j) && id in j.r.traces
    ensures var k := OfferOne(j, e, id, id in enabled, reply);
            && Offering(k) && k.r.traces == j.r.traces
            && k.r == R.Turn(j.r, e, id, if Open(j.w, id, enabled) then {id} else {})
  {
    if Open(j.w, id, enabled) && R.PolicyAccepts(j.r.traces[id].policy, e.kind, j.r.depth) {
      var offered := Go(j, S.Ask(id)).(r := j.r.(offers := j.r.offers + multiset{id}));
      SendOffering(offered, id, reply.body, reply.full);
    }
  }

  lemma {:induction false} LoopAsks(r: R.Router, e: R.Event, ids: seq<nat>, on: set<nat>, also: set<nat>)
    requires R.Known(r, ids) && forall i :: 0 <= i < |ids| ==> ids[i] !in also
    ensures R.Loop(r, e, ids, on + also) == R.Loop(r, e, ids, on)
    decreases |ids|
  {
    if ids != [] { LoopAsks(r, e, ids[..|ids| - 1], on, also); }
  }

  lemma {:induction false} FoundBefore(j: Joint, e: R.Event, ids: seq<nat>, enabled: set<nat>, replies: seq<Reply>)
    ensures forall id :: id in FoundOpen(j, e, ids, enabled, replies) ==> id in ids
    decreases |ids|
  {
    if ids != [] { FoundBefore(j, e, ids[..|ids| - 1], enabled, replies); }
  }

  /** To the router the joint loop is its own, with `on` what it found while the loop ran: summaries sent for
      one trace may end captures of the traces after it. */
  lemma {:induction false} OffersAreLoop(j: Joint, e: R.Event, ids: seq<nat>, enabled: set<nat>, replies: seq<Reply>)
    requires Offering(j) && R.Known(j.r, ids) && R.Ascending(ids)
    ensures var k := OfferAll(j, e, ids, enabled, replies);
            && Offering(k) && k.r.traces == j.r.traces
            && k.r == R.Loop(j.r, e, ids, FoundOpen(j, e, ids, enabled, replies))
    decreases |ids|
  {
    if ids != [] {
      var front, id := ids[..|ids| - 1], ids[|ids| - 1];
      var k := OfferAll(j, e, front, enabled, replies);
      OffersAreLoop(j, e, front, enabled, replies);
      OfferIsTurn(k, e, id, enabled, ReplyTo(replies, |ids| - 1));
      FoundBefore(j, e, front, enabled, replies);
      var also := if Open(k.w, id, enabled) then {id} else {};
      LoopAsks(j.r, e, front, FoundOpen(j, e, front, enabled, replies), also);
    }
  }

  // ---- What holds all the while --------------------------------------------------------------------------

  ghost predicate Fading(w: S.World, id: nat, n: nat, sequence: nat) {
    exists i :: 0 <= i < n && i < |w.captures| && w.captures[i].trace == id && Over(w.captures[i], sequence)
  }

  /** A trace with a summary has no idle capture, except at a boundary, where the capture before it, among the
      first `n`, has just ended. */
  ghost predicate Fit(w: S.World, id: nat, n: nat) {
    id in w.dest && (S.IdleTrace(w.captures, id) ==> S.AtBoundary(w.phase) && Fading(w, id, n, w.phase.o.sequence))
  }

  ghost predicate Dated(w: S.World) { w.phase.Routing? || w.phase.Ending? ==> w.sequence == w.phase.o.sequence }

  ghost predicate Inv(j: Joint) {
    && S.Steady(j.w) && Dated(j.w) && (forall id :: id in j.r.traces ==> id in j.w.dest)
    && forall id :: id in j.r.active ==> id in j.r.traces && Fit(j.w, id, j.present)
  }

  /** A capture after something that is no start: never idle anew, and over for good. */
  predicate Fades(c: C.Capture, d: C.Capture, sequence: nat) {
    d.trace == c.trace && (C.Idle(d) ==> C.Idle(c)) && (Over(c, sequence) ==> Over(d, sequence))
  }

  ghost predicate AllFade(cs: seq<C.Capture>, ds: seq<C.Capture>, sequence: nat) {
    |ds| == |cs| && forall i :: 0 <= i < |cs| ==> Fades(cs[i], ds[i], sequence)
  }

  lemma FadeFits(w: S.World, v: S.World, id: nat, n: nat)
    requires Fit(w, id, n) && v.dest == w.dest && AllFade(w.captures, v.captures, w.sequence) && Dated(w)
    requires S.AtBoundary(w.phase) ==> S.AtBoundary(v.phase) && v.phase.o == w.phase.o
    ensures Fit(v, id, n)
  {
    if S.IdleTrace(v.captures, id) {
      var i :| 0 <= i < |v.captures| && v.captures[i].trace == id && C.Idle(v.captures[i]);
      assert Fades(w.captures[i], v.captures[i], w.sequence);
      assert S.IdleTrace(w.captures, id);
      var k :| 0 <= k < n && k < |w.captures| && w.captures[k].trace == id && Over(w.captures[k], w.phase.o.sequence);
      assert Fades(w.captures[k], v.captures[k], w.sequence);
      assert v.captures[k].trace == id && Over(v.captures[k], v.phase.o.sequence);
    }
  }

  /** The staging layer takes the summary. */
  lemma FitAllowed(w: S.World, id: nat, body: nat, n: nat)
    requires S.Inv(w) && Fit(w, id, n)
    ensures S.Allowed(w, SummaryOf(w, id, body))
  {
  }

  // ---- Single steps ----------------------------------------------------------------------------------------

  lemma RouteFades(w: S.World, d: nat, r: S.Record)
    requires d < |w.lanes|
    ensures AllFade(w.captures, S.RouteWorld(w, d, r).captures, w.sequence)
  {
    var cs := S.Counted(w.captures, r, w.sequence);
    assert AllFade(w.captures, cs, w.sequence);
    assert AllFade(w.captures, S.Overflowing(cs, w.dest, d, w.sequence), w.sequence);
  }

  lemma ClockFades(w: S.World, generation: nat, cycle: nat)
    ensures AllFade(w.captures, S.ClockWorld(w, generation, cycle).captures, w.sequence)
  {
  }

  lemma FullFades(w: S.World, lane: nat)
    ensures AllFade(w.captures, S.Starving(w.captures, w.dest, lane, w.sequence), w.sequence)
  {
  }

  /** Steps that neither see a fact nor end scopes. */
  predicate Minor(step: S.Step) { step.Ask? || step.Route? || step.Clock? || step.StorageFull? || step.StopTrace? }

  lemma MinorFades(w: S.World, step: S.Step)
    requires Minor(step)
    ensures var v := S.Next(w, step);
            && AllFade(w.captures, v.captures, w.sequence) && v.dest == w.dest && v.sequence == w.sequence
            && (v.phase == w.phase || (w.phase.Routing? && v.phase.Routing? && v.phase.o == w.phase.o))
  {
    if S.Allowed(w, step) {
      if step.Route? { RouteFades(w, step.lane, step.record); }
      else if step.Clock? { ClockFades(w, step.generation, step.cycle); }
      else if step.StorageFull? { FullFades(w, step.lane); }
    }
  }

  predicate IsSummary(step: S.Step) { step.Route? && !step.record.event }

  /** The staging layer has run the trail, and expected every summary in it. */
  ghost predicate Expected(w: S.World, j: Joint) {
    && j.w == S.Run(w, j.trail)
    && forall k :: 0 <= k < |j.trail| && IsSummary(j.trail[k]) ==> S.Allowed(S.Run(w, j.trail[..k]), j.trail[k])
  }

  ghost predicate Sound(w: S.World, j: Joint) { Inv(j) && Expected(w, j) }

  lemma GoExpected(w: S.World, j: Joint, step: S.Step)
    requires Expected(w, j) && (IsSummary(step) ==> S.Allowed(j.w, step))
    ensures Expected(w, Go(j, step))
  {
    var trail := j.trail + [step];
    assert trail[..|j.trail|] == j.trail;
    forall k | 0 <= k < |trail| && IsSummary(trail[k])
      ensures S.Allowed(S.Run(w, trail[..k]), trail[k])
    {
      if k < |j.trail| { assert trail[..k] == j.trail[..k]; }
    }
  }

  lemma MinorKeeps(w: S.World, j: Joint, step: S.Step)
    requires Sound(w, j) && Minor(step) && (IsSummary(step) ==> S.Allowed(j.w, step))
    ensures Sound(w, Go(j, step))
  {
    var v := S.Next(j.w, step);
    GoExpected(w, j, step);
    S.NextKeepsInv(j.w, step);
    S.NextKeepsAsked(j.w, step);
    MinorFades(j.w, step);
    forall id | id in j.r.active ensures Fit(v, id, j.present) { FadeFits(j.w, v, id, j.present); }
  }

  lemma EmitKeeps(w: S.World, j: Joint, id: nat)
    requires Sound(w, j)
    ensures Sound(w, j.(r := R.Emit(j.r, id)))
  {
  }

  lemma SendKeeps(w: S.World, j: Joint, id: nat, body: nat, full: bool)
    requires Sound(w, j)
    ensures Sound(w, Send(j, id, body, full))
  {
    if id in j.r.active {
      var step := SummaryOf(j.w, id, body);
      FitAllowed(j.w, id, body, j.present);
      MinorKeeps(w, j, step);
      EmitKeeps(w, Go(j, step), id);
      var k := Go(j, step).(r := R.Emit(j.r, id));
      if full { MinorKeeps(w, k, S.StorageFull(j.w.dest[id])); }
    }
  }

  /** What sending leaves behind. */
  lemma SendClears(j: Joint, id: nat, body: nat, full: bool)
    requires Inv(j)
    ensures var k := Send(j, id, body, full);
            && id !in k.r.active && (forall t :: t in k.r.active ==> t in j.r.active)
            && AllFade(j.w.captures, k.w.captures, j.w.sequence) && k.w.sequence == j.w.sequence && k.w.dest == j.w.dest
            && (j.w.phase.Routing? || k.w.phase == j.w.phase)
  {
    if id in j.r.active {
      var step := SummaryOf(j.w, id, body);
      MinorFades(j.w, step);
      if full {
        MinorFades(S.Next(j.w, step), S.StorageFull(j.w.dest[id]));
        FadeTwice(j.w.captures, S.Next(j.w, step).captures, Send(j, id, body, full).w.captures, j.w.sequence);
      }
    }
  }

  lemma FadeTwice(cs: seq<C.Capture>, ms: seq<C.Capture>, ds: seq<C.Capture>, sequence: nat)
    requires AllFade(cs, ms, sequence) && AllFade(ms, ds, sequence)
    ensures AllFade(cs, ds, sequence)
  {
    forall i | 0 <= i < |cs| ensures Fades(cs[i], ds[i], sequence) {
      assert Fades(cs[i], ms[i], sequence) && Fades(ms[i], ds[i], sequence);
    }
  }

  lemma OfferKeeps(w: S.World, j: Joint, e: R.Event, id: nat, enabled: bool, reply: Reply)
    requires Sound(w, j)
    ensures Sound(w, OfferOne(j, e, id, enabled, reply))
  {
    if id in j.r.traces && enabled {
      MinorKeeps(w, j, S.Ask(id));
      var k := Go(j, S.Ask(id));
      if k.w.phase.Routing? && id in k.w.phase.asked {
        var offered := k.(r := k.r.(offers := k.r.offers + multiset{id}));
        if R.PolicyAccepts(j.r.traces[id].policy, e.kind, j.r.depth) {
          SendKeeps(w, offered, id, reply.body, reply.full);
        } else {
          S.AskedNotIdle(k.w.captures, id);
        }
      }
    }
  }

  // ---- A fact is seen ------------------------------------------------------------------------------------------

  lemma ObserveFits(w: S.World, o: C.Observation, id: nat, n: nat)
    requires S.Inv(w) && S.Allowed(w, S.Observe(o)) && Fit(w, id, n)
    ensures Fit(S.Next(w, S.Observe(o)), id, n)
  {
    var v := S.Next(w, S.Observe(o));
    S.ObservedCaptures(w, o);
    forall i | 0 <= i < |w.captures|
      ensures v.captures[i].trace == w.captures[i].trace && (C.Idle(v.captures[i]) ==> C.Idle(w.captures[i]))
    {
      assert S.ObservedOne(w.captures[i], v.captures[i], o);
    }
    S.IdleBefore(w.captures, v.captures, id);
  }

  lemma ObserveKeeps(w: S.World, j: Joint, o: C.Observation)
    requires Sound(w, j)
    ensures Sound(w, Go(j, S.Observe(o)))
  {
    GoExpected(w, j, S.Observe(o));
    S.NextKeepsInv(j.w, S.Observe(o));
    S.NextKeepsAsked(j.w, S.Observe(o));
    if S.Allowed(j.w, S.Observe(o)) {
      forall id | id in j.r.active
        ensures Fit(S.Next(j.w, S.Observe(o)), id, j.present)
      {
        ObserveFits(j.w, o, id, j.present);
      }
    }
  }

  // ---- Scopes end ------------------------------------------------------------------------------------------------

  /** A capture armed by the loop comes after one of its trace that is over. */
  ghost predicate Preceded(ds: seq<C.Capture>, k: nat, n: nat, sequence: nat)
    requires k < |ds|
  {
    exists i :: 0 <= i < n && i < |ds| && ds[i].trace == ds[k].trace && Over(ds[i], sequence)
  }

  ghost predicate LoopFades(cs: seq<C.Capture>, ds: seq<C.Capture>, i: nat, n: nat, sequence: nat) {
    && i <= n <= |cs| <= |ds|
    && (forall k :: 0 <= k < |cs| ==> ds[k].trace == cs[k].trace && (C.Idle(ds[k]) ==> C.Idle(cs[k])))
    && (forall k :: 0 <= k < |cs| && !(i <= k < n) ==> ds[k] == cs[k])
    && (forall k :: |cs| <= k < |ds| ==> Preceded(ds, k, n, sequence))
  }

  /** What is armed again has ended with this observation. */
  lemma RearmedOver(c: C.Capture, o: C.Observation, next: nat)
    requires C.Rearms(c, o)
    ensures Over(C.After(c, o, next), o.sequence) && C.After(c, o, next).trace == c.trace
  {
    C.AfterEvolves(c, o, next);
    var settled := C.Settle(c, o);
    assert C.After(c, o, next) == C.EndScope(settled, C.WasReset, o.sequence);
  }

  lemma TurnFades(cs: seq<C.Capture>, next: nat, i: nat, o: C.Observation)
    requires i < |cs| && (C.Terminal(o) ==> o.instruction > 0)
    ensures LoopFades(cs, S.EndTurn(cs, next, i, o), i, i + 1, o.sequence)
  {
    C.AfterEvolves(cs[i], o, next);
    var ds := S.EndTurn(cs, next, i, o);
    if C.Rearms(cs[i], o) && |cs| < C.CAPTURES {
      RearmedOver(cs[i], o, next);
      assert ds[i].trace == ds[|cs|].trace && Over(ds[i], o.sequence);
    }
  }

  lemma FadesCompose(cs: seq<C.Capture>, ms: seq<C.Capture>, ds: seq<C.Capture>, i: nat, n: nat, sequence: nat)
    requires i < n <= |cs| && LoopFades(cs, ms, i, i + 1, sequence) && LoopFades(ms, ds, i + 1, n, sequence)
    ensures LoopFades(cs, ds, i, n, sequence)
  {
    forall k | |cs| <= k < |ds| ensures Preceded(ds, k, n, sequence) {
      if k < |ms| {
        assert Preceded(ms, k, i + 1, sequence);
        var p :| 0 <= p < i + 1 && p < |ms| && ms[p].trace == ms[k].trace && Over(ms[p], sequence);
        assert ds[p] == ms[p];
      } else {
        assert Preceded(ds, k, n, sequence);
      }
    }
  }

  lemma {:induction false} EndLoopFades(cs: seq<C.Capture>, next: nat, i: nat, n: nat, o: C.Observation,
                                        ds: seq<C.Capture>)
    requires i <= n <= |cs| && ds == S.EndLoop(cs, next, i, n, o).0 && (C.Terminal(o) ==> o.instruction > 0)
    ensures LoopFades(cs, ds, i, n, o.sequence)
    decreases n - i
  {
    if i < n {
      var ms := S.EndTurn(cs, next, i, o);
      var later := if S.TurnConsumes(cs, next, i, o) then Bump(next) else next;
      TurnFades(cs, next, i, o);
      EndLoopFades(ms, later, i + 1, n, o, ds);
      FadesCompose(cs, ms, ds, i, n, o.sequence);
    }
  }

  lemma EndFits(w: S.World, id: nat, n: nat)
    requires S.Inv(w) && w.phase.Routing? && Fit(w, id, n)
    ensures Fit(S.Next(w, S.EndScopes), id, |w.captures|)
  {
    var v, o := S.Next(w, S.EndScopes), w.phase.o;
    EndLoopFades(w.captures, w.nextInvocation, 0, |w.captures|, o, v.captures);
    S.EndLoopEnds(w.captures, w.nextInvocation, 0, |w.captures|, o);
    if S.IdleTrace(v.captures, id) {
      var i :| 0 <= i < |v.captures| && v.captures[i].trace == id && C.Idle(v.captures[i]);
      assert i < |w.captures| ==> S.IdleTrace(w.captures, id);
      assert Preceded(v.captures, i, |w.captures|, o.sequence);
      assert Fading(v, id, |w.captures|, o.sequence);
    }
  }

  lemma EndKeeps(w: S.World, j: Joint)
    requires Sound(w, j) && j.w.phase.Routing?
    ensures Sound(w, Go(j, S.EndScopes).(present := |j.w.captures|))
  {
    GoExpected(w, j, S.EndScopes);
    S.NextKeepsInv(j.w, S.EndScopes);
    S.NextKeepsAsked(j.w, S.EndScopes);
    forall id | id in j.r.active
      ensures Fit(S.Next(j.w, S.EndScopes), id, |j.w.captures|)
    {
      EndFits(j.w, id, j.present);
    }
  }

  // ---- The second loop and the boundary ----------------------------------------------------------------------

  lemma DropKeeps(w: S.World, j: Joint, id: nat)
    requires Sound(w, j)
    ensures Sound(w, Drop(j, id)) && id !in Drop(j, id).r.active
    ensures (forall t :: t in Drop(j, id).r.active ==> t in j.r.active) && Drop(j, id).w == j.w
  {
  }

  /** What the loop leaves as it was. */
  ghost predicate LoopKeeps(j: Joint, k: Joint) {
    && AllFade(j.w.captures, k.w.captures, j.w.sequence) && k.w.sequence == j.w.sequence && k.w.phase == j.w.phase
    && k.w.dest == j.w.dest && forall t :: t in k.r.active ==> t in j.r.active
  }

  lemma KeepsTwice(j: Joint, k: Joint, l: Joint)
    requires LoopKeeps(j, k) && LoopKeeps(k, l)
    ensures LoopKeeps(j, l)
  {
    FadeTwice(j.w.captures, k.w.captures, l.w.captures, j.w.sequence);
  }

  lemma TurnSends(w: S.World, j: Joint, id: nat, reply: Reply)
    requires Sound(w, j) && j.w.phase.Ending?
    ensures var k := Send(j, id, reply.body, reply.full); Sound(w, k) && LoopKeeps(j, k) && id !in k.r.active
  {
    SendKeeps(w, j, id, reply.body, reply.full);
    SendClears(j, id, reply.body, reply.full);
  }

  lemma KeepsSame(j: Joint)
    ensures LoopKeeps(j, j)
  {
  }

  /** What turn `i` does. */
  ghost predicate Turned(j: Joint, k: Joint, i: nat) {
    && LoopKeeps(j, k)
    && (i < |j.w.captures| && Over(j.w.captures[i], j.w.sequence) ==> j.w.captures[i].trace !in k.r.active)
  }

  lemma TurnKeeps(w: S.World, j: Joint, i: nat, reply: Reply, k: Joint)
    requires Sound(w, j) && j.w.phase.Ending? && k == SecondTurn(j, i, j.w.sequence, reply)
    ensures Sound(w, k) && Turned(j, k, i)
  {
    KeepsSame(j);
    if i < |j.w.captures| {
      var c := j.w.captures[i];
      if !c.mode.Persistent? {
        if c.failed { DropKeeps(w, j, c.trace); }
        else if !C.Live(c) && c.ended == j.w.sequence { TurnSends(w, j, c.trace, reply); }
      }
    }
  }

  ghost predicate TurnAt(ks: seq<Joint>, i: nat)
    requires i + 1 < |ks|
  {
    Turned(ks[i], ks[i + 1], i)
  }

  ghost predicate AllTurned(ks: seq<Joint>) { forall i :: 0 <= i < |ks| - 1 ==> TurnAt(ks, i) }

  predicate StepAt(ks: seq<Joint>, i: nat, sequence: nat, replies: seq<Reply>)
    requires i + 1 < |ks|
  {
    ks[i + 1] == SecondTurn(ks[i], i, sequence, ReplyTo(replies, i))
  }

  predicate Stepped(ks: seq<Joint>, sequence: nat, replies: seq<Reply>) {
    forall i :: 0 <= i < |ks| - 1 ==> StepAt(ks, i, sequence, replies)
  }

  lemma StepAppended(ms: seq<Joint>, k: Joint, sequence: nat, replies: seq<Reply>)
    requires |ms| > 0 && Stepped(ms, sequence, replies)
    requires k == SecondTurn(ms[|ms| - 1], |ms| - 1, sequence, ReplyTo(replies, |ms| - 1))
    ensures Stepped(ms + [k], sequence, replies)
  {
    var ks := ms + [k];
    forall i | 0 <= i < |ks| - 1
      ensures StepAt(ks, i, sequence, replies)
    {
      assert i < |ms| - 1 ==> StepAt(ms, i, sequence, replies);
    }
  }

  /** The states the loop goes through. */
  lemma {:induction false} LoopStates(j: Joint, n: nat, sequence: nat, replies: seq<Reply>) returns (ks: seq<Joint>)
    ensures |ks| == n + 1 && ks[0] == j && ks[n] == SecondLoop(j, n, sequence, replies)
    ensures Stepped(ks, sequence, replies)
    decreases n
  {
    if n == 0 { ks := [j]; }
    else {
      var ms := LoopStates(j, n - 1, sequence, replies);
      var k := SecondTurn(ms[n - 1], n - 1, sequence, ReplyTo(replies, n - 1));
      StepAppended(ms, k, sequence, replies);
      ks := ms + [k];
    }
  }

  /** Where the loop stands after `n` turns. */
  ghost predicate After(w: S.World, ks: seq<Joint>, n: nat)
    requires n < |ks|
  {
    Sound(w, ks[n]) && LoopKeeps(ks[0], ks[n]) && forall i :: 0 <= i < n ==> TurnAt(ks, i)
  }

  lemma StepSound(w: S.World, ks: seq<Joint>, i: nat, n: nat, replies: seq<Reply>)
    requires n == i + 1 < |ks| && Stepped(ks, ks[i].w.sequence, replies) && Sound(w, ks[i]) && ks[i].w.phase.Ending?
    ensures Sound(w, ks[n]) && LoopKeeps(ks[i], ks[n]) && TurnAt(ks, i)
  {
    assert StepAt(ks, i, ks[i].w.sequence, replies);
    TurnKeeps(w, ks[i], i, ReplyTo(replies, i), ks[n]);
  }

  lemma StepAfter(w: S.World, ks: seq<Joint>, i: nat, n: nat, replies: seq<Reply>)
    requires n == i + 1 < |ks| && Stepped(ks, ks[0].w.sequence, replies) && ks[0].w.phase.Ending? && After(w, ks, i)
    ensures After(w, ks, n)
  {
    StepSound(w, ks, i, n, replies);
    KeepsTwice(ks[0], ks[i], ks[n]);
  }

  lemma {:induction false} StatesSound(w: S.World, ks: seq<Joint>, n: nat, replies: seq<Reply>)
    requires n < |ks| && Stepped(ks, ks[0].w.sequence, replies) && Sound(w, ks[0]) && ks[0].w.phase.Ending?
    ensures After(w, ks, n)
    decreases n
  {
    if n == 0 { KeepsSame(ks[0]); }
    else {
      StatesSound(w, ks, n - 1, replies);
      StepAfter(w, ks, n - 1, n, replies);
    }
  }

  lemma SecondLoopTurns(w: S.World, j: Joint, n: nat, replies: seq<Reply>) returns (ks: seq<Joint>)
    requires Sound(w, j) && j.w.phase.Ending?
    ensures |ks| == n + 1 && ks[0] == j && ks[n] == SecondLoop(j, n, j.w.sequence, replies)
    ensures AllTurned(ks) && LoopKeeps(j, ks[n]) && Sound(w, ks[n])
  {
    ks := LoopStates(j, n, j.w.sequence, replies);
    StatesSound(w, ks, n, replies);
  }

  lemma OverStays(j: Joint, k: Joint, i: nat)
    requires LoopKeeps(j, k) && i < |j.w.captures| && Over(j.w.captures[i], j.w.sequence)
    ensures Over(k.w.captures[i], j.w.sequence) && k.w.captures[i].trace == j.w.captures[i].trace
  {
    assert Fades(j.w.captures[i], k.w.captures[i], j.w.sequence);
  }

  lemma {:induction false} TurnsKeep(ks: seq<Joint>, n: nat)
    requires n < |ks| && AllTurned(ks)
    ensures LoopKeeps(ks[0], ks[n])
  {
    if n == 0 { KeepsSame(ks[0]); }
    else {
      TurnsKeep(ks, n - 1);
      assert TurnAt(ks, n - 1);
      KeepsTwice(ks[0], ks[n - 1], ks[n]);
    }
  }

  lemma {:induction false} TurnsClear(ks: seq<Joint>, i: nat, n: nat)
    requires i < n < |ks| && AllTurned(ks) && i < |ks[0].w.captures| && Over(ks[0].w.captures[i], ks[0].w.sequence)
    ensures ks[0].w.captures[i].trace !in ks[n].r.active
    decreases n
  {
    assert TurnAt(ks, n - 1);
    if i == n - 1 {
      TurnsKeep(ks, i);
      OverStays(ks[0], ks[i], i);
    } else {
      TurnsClear(ks, i, n - 1);
    }
  }

  /** No summary is left of a trace whose capture was over before the loop. */
  lemma SecondLoopClears(w: S.World, j: Joint, n: nat, replies: seq<Reply>, i: nat, k: Joint)
    requires Sound(w, j) && j.w.phase.Ending? && i < n && i < |j.w.captures|
    requires Over(j.w.captures[i], j.w.sequence) && k == SecondLoop(j, n, j.w.sequence, replies)
    ensures j.w.captures[i].trace !in k.r.active
  {
    var ks := SecondLoopTurns(w, j, n, replies);
    TurnsClear(ks, i, n);
  }

  /** After the loop no trace with a summary has an idle capture. */
  lemma LoopedNotIdle(w: S.World, j: Joint, replies: seq<Reply>, id: nat, k: Joint)
    requires Sound(w, j) && j.w.phase.Ending? && k == SecondLoop(j, j.present, j.w.sequence, replies)
    requires LoopKeeps(j, k) && id in k.r.active
    ensures !S.IdleTrace(k.w.captures, id)
  {
    forall i | 0 <= i < j.present && i < |j.w.captures| && Over(j.w.captures[i], j.w.sequence)
      ensures j.w.captures[i].trace != id
    {
      SecondLoopClears(w, j, j.present, replies, i, k);
    }
    assert !Fading(j.w, id, j.present, j.w.sequence);
    assert !S.IdleTrace(j.w.captures, id);
    forall i | 0 <= i < |j.w.captures|
      ensures k.w.captures[i].trace == j.w.captures[i].trace && (C.Idle(k.w.captures[i]) ==> C.Idle(j.w.captures[i]))
    {
      assert Fades(j.w.captures[i], k.w.captures[i], j.w.sequence);
    }
    S.IdleBefore(j.w.captures, k.w.captures, id);
  }

  lemma ClearedFits(w: S.World, id: nat, n: nat)
    requires S.Inv(w) && w.phase.Ending? && id in w.dest && !S.IdleTrace(w.captures, id)
    ensures Fit(S.Next(w, S.Finish), id, n)
  {
    var v := S.Next(w, S.Finish);
    forall i | 0 <= i < |w.captures|
      ensures v.captures[i].trace == w.captures[i].trace && (C.Idle(v.captures[i]) ==> C.Idle(w.captures[i]))
    {
      if S.AtBoundary(w.phase) { C.ClearKeeps(w.captures[i]); }
    }
    S.IdleBefore(w.captures, v.captures, id);
  }

  lemma SettledKeeps(w: S.World, k: Joint)
    requires Sound(w, k) && k.w.phase.Ending? && forall id :: id in k.r.active ==> !S.IdleTrace(k.w.captures, id)
    ensures Sound(w, Go(k, S.Finish))
  {
    GoExpected(w, k, S.Finish);
    S.NextKeepsInv(k.w, S.Finish);
    S.NextKeepsAsked(k.w, S.Finish);
    forall id | id in k.r.active
      ensures Fit(S.Next(k.w, S.Finish), id, k.present)
    {
      ClearedFits(k.w, id, k.present);
    }
  }

  lemma FinishKeeps(w: S.World, j: Joint, replies: seq<Reply>)
    requires Sound(w, j) && j.w.phase.Ending?
    ensures Sound(w, Perform(j, Finish(replies)))
  {
    var k := SecondLoop(j, j.present, j.w.sequence, replies);
    var ks := SecondLoopTurns(w, j, j.present, replies);
    forall id | id in k.r.active ensures !S.IdleTrace(k.w.captures, id) { LoopedNotIdle(w, j, replies, id, k); }
    SettledKeeps(w, k);
  }

  // ---- A capture starts -----------------------------------------------------------------------------------------

  lemma StartFits(w: S.World, q: S.Request, id: nat, n: nat)
    requires S.Inv(w) && w.phase.Quiet? && Fit(w, id, n) && id != q.trace
    ensures Fit(S.Next(w, S.Start(q)), id, n)
  {
    var v := S.Next(w, S.Start(q));
    forall i | 0 <= i < |v.captures| && v.captures[i].trace == id
      ensures !C.Idle(v.captures[i])
    {
      assert i < |w.captures| ==> v.captures[i] == w.captures[i];
    }
  }

  lemma StartedKeeps(w: S.World, k: Joint, q: S.Request)
    requires Sound(w, k) && k.w.phase.Quiet? && q.trace !in k.r.active
    ensures Sound(w, Go(k, S.Start(q)))
  {
    GoExpected(w, k, S.Start(q));
    S.NextKeepsInv(k.w, S.Start(q));
    S.NextKeepsAsked(k.w, S.Start(q));
    forall id | id in k.r.active
      ensures Fit(S.Next(k.w, S.Start(q)), id, k.present)
    {
      StartFits(k.w, q, id, k.present);
    }
  }

  lemma StartKeeps(w: S.World, j: Joint, q: S.Request, reply: Reply)
    requires Sound(w, j) && S.CanStart(j.w, q)
    ensures Sound(w, Perform(j, Start(q, reply)))
  {
    var k := Send(j, q.trace, reply.body, reply.full);
    SendKeeps(w, j, q.trace, reply.body, reply.full);
    SendClears(j, q.trace, reply.body, reply.full);
    StartedKeeps(w, k, q);
  }

  // ---- Every deed ----------------------------------------------------------------------------------------------

  lemma PerformKeeps(w: S.World, j: Joint, deed: Deed)
    requires Sound(w, j)
    ensures Sound(w, Perform(j, deed))
  {
    if deed.Offer? { OfferKeeps(w, j, deed.e, deed.id, deed.enabled, deed.reply); }
    else if deed.Flush? { SendKeeps(w, j, deed.id, deed.reply.body, deed.reply.full); }
    else if deed.Start? { if S.CanStart(j.w, deed.q) { StartKeeps(w, j, deed.q, deed.reply); } }
    else if deed.End? { if j.w.phase.Routing? { EndKeeps(w, j); } }
    else if deed.Finish? { if j.w.phase.Ending? { FinishKeeps(w, j, deed.replies); } }
    else if deed.Do? && Own(deed.step) {
      if deed.step.Observe? { ObserveKeeps(w, j, deed.step.o); }
      else { MinorKeeps(w, j, deed.step); }
    }
  }

  lemma {:induction false} PerformAllKeeps(w: S.World, j: Joint, deeds: seq<Deed>)
    requires Sound(w, j)
    ensures Sound(w, PerformAll(j, deeds))
    decreases |deeds|
  {
    if deeds != [] {
      PerformAllKeeps(w, j, deeds[..|deeds| - 1]);
      PerformKeeps(w, PerformAll(j, deeds[..|deeds| - 1]), deeds[|deeds| - 1]);
    }
  }

  /** A router without summaries, whose traces all have a destination, before an untouched staging layer. */
  predicate Opening(r: R.Router, w: S.World) {
    S.Untouched(w) && r.active == map[] && forall id :: id in r.traces ==> id in w.dest
  }

  /** Over every joint run: the staging layer's part is a run of its own, so all that is proved of those
      holds of it; every summary the router handed over was one it expects; and so is every summary the
      router still counts. */
  lemma SummariesExpected(r: R.Router, w: S.World, deeds: seq<Deed>)
    requires Opening(r, w)
    ensures var j := PerformAll(Joint(r, w, [], 0), deeds);
            && Expected(w, j)
            && forall id, body :: id in j.r.active ==> id in j.w.dest && S.Allowed(j.w, SummaryOf(j.w, id, body))
  {
    S.StartOk(w);
    PerformAllKeeps(w, Joint(r, w, [], 0), deeds);
    var j := PerformAll(Joint(r, w, [], 0), deeds);
    forall id, body | id in j.r.active
      ensures id in j.w.dest && S.Allowed(j.w, SummaryOf(j.w, id, body))
    {
      FitAllowed(j.w, id, body, j.present);
    }
  }
}
