/** The multi-trace router and its interrupt-suppression summaries (emu_debug_trace.c). An event offered
    to a trace that is enabled and eligible is either delivered or counted in the trace's
    active summary; which traces are enabled and eligible for an event is an input. */
module Router {
  import opened Counters

  datatype Policy = Include | SuppressDuringInterrupt | InterruptOnly
  datatype Kind = Enter | Exit | ResetEvent | LoadEvent | WatchMatch | Other

  datatype Trace = Trace(destination: nat, policy: Policy)

  datatype Summary = Summary(first: nat, last: nat, count: nat, entryDepth: nat, maximumDepth: nat)

  datatype Record =
    | Delivered(destination: nat, ids: seq<nat>, sequence: nat)
    | Suppressed(destination: nat, id: nat, summary: Summary)

  datatype Event = Event(kind: Kind, sequence: nat)

  /** A configuration: its traces by identity and in ascending order, and its destinations in order. */
  datatype Config = Config(order: seq<nat>, traces: map<nat, Trace>, destinations: seq<nat>)

  /** `active` holds the summaries being counted, `seen` every identity a trace ever had. `out` is
      everything delivered; `offers` counts the events offered per trace and `discards` what an
      explicit discard threw away. */
  datatype Router = Router(traces: map<nat, Trace>, order: seq<nat>, destinations: seq<nat>, seen: seq<nat>,
                           active: map<nat, Summary>, depth: nat, lastSequence: nat, open: bool,
                           out: seq<Record>, offers: multiset<nat>, discards: multiset<nat>)

  const MAX_TRACES: nat := 16
  const MAX_DESTINATIONS: nat := 8
  const MAX_SEEN: nat := 64
  const U32_MAX: nat := 0xFFFF_FFFF

  predicate PolicyAccepts(p: Policy, kind: Kind, depth: nat) {
    var outerEnter := kind.Enter? && depth == 0;
    var outerExit := kind.Exit? && depth == 1;
    if kind.ResetEvent? || kind.LoadEvent? || p.Include? then true
    else if p.SuppressDuringInterrupt? then depth == 0 || outerEnter || outerExit
    else depth != 0 || outerEnter
  }

  /** One more suppressed event. */
  function Counted(s: Summary, sequence: nat, depth: nat): Summary {
    s.(last := sequence, count := Saturate(s.count, 1),
       maximumDepth := if depth > s.maximumDepth then depth else s.maximumDepth)
  }

  /** suppression_add. */
  function Add(r: Router, id: nat, sequence: nat): Router {
    var s := if id in r.active then r.active[id] else Summary(sequence, sequence, 0, r.depth, 0);
    r.(active := r.active[id := Counted(s, sequence, r.depth)])
  }

  /** suppression_emit. */
  function Emit(r: Router, id: nat): Router {
    if id !in r.active || id !in r.traces then r
    else r.(active := r.active - {id}, out := r.out + [Suppressed(r.traces[id].destination, id, r.active[id])])
  }

  // ---- Routing one event ------------------------------------------------------------------------------

  predicate Known(r: Router, ids: seq<nat>) { forall i :: 0 <= i < |ids| ==> ids[i] in r.traces }

  predicate Ascending(ids: seq<nat>) { forall i, j :: 0 <= i < j < |ids| ==> ids[i] < ids[j] }

  /** One turn of the loop of route_ids; `picked` lists the traces that take the event. */
  function Turn(r: Router, e: Event, id: nat, on: set<nat>): Router
    requires id in r.traces
  {
    if id !in on then r
    else
      var offered := r.(offers := r.offers + multiset{id});
      if PolicyAccepts(r.traces[id].policy, e.kind, r.depth) then Emit(offered, id) else Add(offered, id, e.sequence)
  }

  predicate Takes(r: Router, e: Event, id: nat, on: set<nat>)
    requires id in r.traces
  {
    id in on && PolicyAccepts(r.traces[id].policy, e.kind, r.depth)
  }

  function Loop(r: Router, e: Event, ids: seq<nat>, on: set<nat>): (t: Router)
    requires Known(r, ids)
    ensures t == r.(active := t.active, out := t.out, offers := t.offers)
    decreases |ids|
  {
    if ids == [] then r else Turn(Loop(r, e, ids[..|ids| - 1], on), e, ids[|ids| - 1], on)
  }

  function Picked(r: Router, e: Event, ids: seq<nat>, on: set<nat>): seq<nat>
    requires Known(r, ids)
    decreases |ids|
  {
    if ids == [] then []
    else Picked(r, e, ids[..|ids| - 1], on) + if Takes(r, e, ids[|ids| - 1], on) then [ids[|ids| - 1]] else []
  }

  /** The picked traces of one destination, in order. */
  function For(traces: map<nat, Trace>, picked: seq<nat>, d: nat): seq<nat>
    decreases |picked|
  {
    if picked == [] then []
    else
      var last := picked[|picked| - 1];
      For(traces, picked[..|picked| - 1], d) + if last in traces && traces[last].destination == d then [last] else []
  }

  function Deliver(out: seq<Record>, d: nat, ids: seq<nat>, sequence: nat): seq<Record> {
    if ids == [] then out else out + [Delivered(d, ids, sequence)]
  }

  /** One record per destination that any picked trace has. */
  function Records(traces: map<nat, Trace>, picked: seq<nat>, ds: seq<nat>, sequence: nat): seq<Record>
    decreases |ds|
  {
    if ds == [] then []
    else
      var d := ds[|ds| - 1];
      Deliver(Records(traces, picked, ds[..|ds| - 1], sequence), d, For(traces, picked, d), sequence)
  }

  function RouteIds(r: Router, e: Event, ids: seq<nat>, on: set<nat>): Router
    requires Known(r, ids)
  {
    var t := Loop(r, e, ids, on);
    t.(out := t.out + Records(r.traces, Picked(r, e, ids, on), r.destinations, e.sequence))
  }

  /** `Ingest` is an event handed to the runtime, `Observe` one it translates from an observation. */
  datatype Step =
    | Ingest(e: Event, ids: seq<nat>, on: set<nat>)
    | Observe(e: Event, ids: seq<nat>, on: set<nat>)
    | EndSource
    | Watch(e: Event, ids: seq<nat>, on: set<nat>)
    | Flush(destination: nat, id: nat)
    | Discard(id: nat)
    | Replace(config: Config)
    | Configure(config: Config)

  predicate SourceValid(r: Router, e: Event) {
    && !r.open && r.lastSequence < e.sequence <= U64_MAX && !e.kind.WatchMatch?
    && !(e.kind.Exit? && r.depth == 0) && !(e.kind.Enter? && r.depth == U32_MAX)
  }

  function DepthAfter(depth: nat, kind: Kind): nat {
    if kind.Enter? then depth + 1 else if kind.Exit? && depth > 0 then depth - 1 else depth
  }

  /** A reset or load forgets the nesting before it is routed. */
  function Outermost(r: Router, e: Event): Router {
    if e.kind.ResetEvent? || e.kind.LoadEvent? then r.(depth := 0) else r
  }

  /** A RETI that ends no observed handler is an ordinary return. */
  function Canonical(r: Router, e: Event): Event {
    if e.kind.Exit? && r.depth == 0 then e.(kind := Other) else e
  }

  function Source(r: Router, e: Event, ids: seq<nat>, on: set<nat>): Router {
    var o := Outermost(r, e);
    if !SourceValid(o, e) || !Known(o, ids) || !Ascending(ids) then r
    else RouteIds(o, e, ids, on).(lastSequence := e.sequence, open := true, depth := DepthAfter(o.depth, e.kind))
  }

  /** Whether a flush of this destination and trace, zero for all, concerns trace `id`. */
  predicate Concerns(r: Router, destination: nat, wanted: nat, id: nat) {
    id in r.traces && (destination == 0 || r.traces[id].destination == destination) && (wanted == 0 || id == wanted)
  }

  /** Emits, in the order given, the summaries of the traces that the flush concerns. */
  function FlushLoop(r: Router, ids: seq<nat>, destination: nat, wanted: nat): Router
    decreases |ids|
  {
    if ids == [] then r
    else
      var t := FlushLoop(r, ids[..|ids| - 1], destination, wanted);
      if Concerns(t, destination, wanted, ids[|ids| - 1]) then Emit(t, ids[|ids| - 1]) else t
  }

  // ---- A new configuration ---------------------------------------------------------------------------

  datatype Status = Ok | InvalidArgument | Busy | DuplicateId | NoRoom

  /** A new configuration may not drop or alter the trace of an active summary. */
  predicate MayReplace(r: Router, traces: map<nat, Trace>) {
    forall id :: id in r.active ==> id in traces && id in r.traces && traces[id] == r.traces[id]
  }

  predicate ConfigValid(c: Config) {
    && |c.order| <= MAX_TRACES && |c.destinations| <= MAX_DESTINATIONS
    && Ascending(c.order) && Ascending(c.destinations) && 0 !in c.order && 0 !in c.destinations
    && (forall id :: id in c.order ==> id in c.traces)
    && (forall id :: id in c.traces ==> id in c.order && c.traces[id].destination in c.destinations)
  }

  /** The identities of `order` that no trace has now. */
  function Newcomers(traces: map<nat, Trace>, order: seq<nat>): seq<nat>
    decreases |order|
  {
    if order == [] then []
    else
      var last := order[|order| - 1];
      Newcomers(traces, order[..|order| - 1]) + if last in traces then [] else [last]
  }

  predicate Unseen(ids: seq<nat>, seen: seq<nat>) { forall i :: 0 <= i < |ids| ==> ids[i] !in seen }

  function ReplaceStatus(r: Router, c: Config): Status {
    if !ConfigValid(c) then InvalidArgument
    else if r.open || !MayReplace(r, c.traces) then Busy
    else if !Unseen(Newcomers(r.traces, c.order), r.seen) then DuplicateId
    else if |Newcomers(r.traces, c.order)| + |r.seen| > MAX_SEEN then NoRoom
    else Ok
  }

  function Replaced(r: Router, c: Config): Router {
    r.(traces := c.traces, order := c.order, destinations := c.destinations,
       seen := r.seen + Newcomers(r.traces, c.order))
  }

  function TryReplace(r: Router, c: Config): Router {
    if ReplaceStatus(r, c).Ok? then Replaced(r, c) else r
  }

  /** emu_debug_runtime_configure: a trial on a copy without summaries, a flush, and then the change. */
  function Configured(r: Router, c: Config): Router {
    if !ReplaceStatus(r.(active := map[]), c).Ok? then r
    else TryReplace(FlushLoop(r, r.order, 0, 0), c)
  }

  function Next(r: Router, step: Step): Router {
    match step
    case Ingest(e, ids, on) => Source(r, e, ids, on)
    case Observe(e, ids, on) => Source(r, Canonical(r, e), ids, on)
    case EndSource => r.(open := false)
    case Watch(e, ids, on) =>
      if !e.kind.WatchMatch? || e.sequence <= r.lastSequence || e.sequence > U64_MAX || !Known(r, ids)
          || !Ascending(ids)
      then r
      else RouteIds(r, e, ids, on).(lastSequence := e.sequence)
    case Flush(destination, id) => if r.open then r else FlushLoop(r, r.order, destination, id)
    case Discard(id) =>
      if id !in r.active then r
      else r.(active := r.active - {id}, discards := r.discards[id := r.discards[id] + r.active[id].count])
    case Replace(c) => TryReplace(r, c)
    case Configure(c) => Configured(r, c)
  }

  // ---- Conservation --------------------------------------------------------------------------------------

  /** How many offered events a record answers for, as far as trace `id` is concerned. */
  function Share(rec: Record, id: nat): nat {
    if rec.Delivered? then (if id in rec.ids then 1 else 0)
    else if rec.id == id then rec.summary.count else 0
  }

  function Tally(out: seq<Record>, id: nat): nat
    decreases |out|
  {
    if out == [] then 0 else Tally(out[..|out| - 1], id) + Share(out[|out| - 1], id)
  }

  function Waiting(active: map<nat, Summary>, id: nat): nat { if id in active then active[id].count else 0 }

  predicate Balanced(r: Router, id: nat, due: nat) {
    r.offers[id] == Tally(r.out, id) + Waiting(r.active, id) + r.discards[id] + due
  }

  /** A summary never counts more events than sequence numbers it spans, so its count never saturates. */
  predicate SummaryOk(s: Summary, horizon: nat) {
    1 <= s.first <= s.last <= horizon && 1 <= s.count <= s.last - s.first + 1
  }

  ghost predicate ActiveOk(r: Router, horizon: nat) {
    && horizon <= U64_MAX
    && (forall id :: id in r.active ==> id in r.traces && SummaryOk(r.active[id], horizon))
    && Routed(r.traces, r.destinations)
  }

  /** Every trace has a destination there is. */
  ghost predicate Routed(traces: map<nat, Trace>, ds: seq<nat>) {
    Ascending(ds) && forall id :: id in traces ==> traces[id].destination in ds
  }

  lemma {:induction false} TallySplit(a: seq<Record>, b: seq<Record>, id: nat)
    ensures Tally(a + b, id) == Tally(a, id) + Tally(b, id)
    decreases |b|
  {
    if b == [] { assert a + b == a; }
    else {
      assert (a + b)[..|a + b| - 1] == a + b[..|b| - 1];
      TallySplit(a, b[..|b| - 1], id);
    }
  }

  lemma TallyLast(out: seq<Record>, rec: Record, t: nat)
    ensures Tally(out + [rec], t) == Tally(out, t) + Share(rec, t)
  {
    assert (out + [rec])[..|out|] == out;
  }

  lemma WaitingWithout(active: map<nat, Summary>, id: nat, t: nat)
    ensures Waiting(active - {id}, t) == if t == id then 0 else Waiting(active, t)
  {
  }

  /** A summary that goes out takes its count from the waiting to the delivered side. */
  lemma EmitMoves(r: Router, id: nat, t: nat, rec: Record)
    requires id in r.active && rec.Suppressed? && rec.id == id && rec.summary == r.active[id]
    ensures Tally(r.out + [rec], t) + Waiting(r.active - {id}, t) == Tally(r.out, t) + Waiting(r.active, t)
  {
    TallyLast(r.out, rec, t);
    WaitingWithout(r.active, id, t);
  }

  lemma EmitBalances(r: Router, id: nat, t: nat, due: nat)
    requires Balanced(r, t, due)
    ensures Balanced(Emit(r, id), t, due)
  {
    if id in r.active && id in r.traces {
      EmitMoves(r, id, t, Suppressed(r.traces[id].destination, id, r.active[id]));
    }
  }

  /** One turn: the offered event is picked, or counted. */
  lemma TurnBalances(r: Router, e: Event, id: nat, on: set<nat>, t: nat, due: nat)
    requires id in r.traces && Balanced(r, t, due) && (id in r.active ==> r.active[id].count < U64_MAX)
    ensures Balanced(Turn(r, e, id, on), t, due + if t == id && Takes(r, e, id, on) then 1 else 0)
  {
    if Takes(r, e, id, on) {
      EmitBalances(r.(offers := r.offers + multiset{id}), id, t, due + if t == id then 1 else 0);
    }
  }

  /** Summaries of traces not yet visited end before this event. */
  lemma TurnKeepsActive(r: Router, e: Event, id: nat, on: set<nat>, horizon: nat)
    requires id in r.traces && ActiveOk(r, e.sequence) && e.sequence > horizon
    requires (id in r.active ==> SummaryOk(r.active[id], horizon))
    ensures ActiveOk(Turn(r, e, id, on), e.sequence)
    ensures forall t :: t != id ==>
        (t in Turn(r, e, id, on).active <==> t in r.active)
            && (t in r.active ==> Turn(r, e, id, on).active[t] == r.active[t])
  {
  }

  /** The traces that take the event are among those listed. */
  lemma {:induction false} PickedAmong(r: Router, e: Event, ids: seq<nat>, on: set<nat>, t: nat)
    requires Known(r, ids) && t in Picked(r, e, ids, on)
    ensures t in ids
    decreases |ids|
  {
    if t != ids[|ids| - 1] { PickedAmong(r, e, ids[..|ids| - 1], on, t); }
  }

  function Due(r: Router, e: Event, ids: seq<nat>, on: set<nat>, t: nat): nat
    requires Known(r, ids)
  {
    if t in Picked(r, e, ids, on) then 1 else 0
  }

  /** The loop leaves the summaries of traces not listed alone and keeps the others sound. */
  lemma {:induction false} LoopKeepsActive(r: Router, e: Event, ids: seq<nat>, on: set<nat>)
    requires Known(r, ids) && Ascending(ids) && ActiveOk(r, r.lastSequence) && r.lastSequence < e.sequence <= U64_MAX
    ensures var l := Loop(r, e, ids, on);
            && ActiveOk(l, e.sequence)
            && forall t :: t !in ids ==>
                (t in l.active <==> t in r.active) && (t in r.active ==> l.active[t] == r.active[t])
    decreases |ids|
  {
    if ids != [] {
      var front, last := ids[..|ids| - 1], ids[|ids| - 1];
      LoopKeepsActive(r, e, front, on);
      assert last !in front;
      TurnKeepsActive(Loop(r, e, front, on), e, last, on, r.lastSequence);
    }
  }

  lemma {:induction false} LoopBalances(r: Router, e: Event, ids: seq<nat>, on: set<nat>, t: nat)
    requires Known(r, ids) && Ascending(ids) && ActiveOk(r, r.lastSequence) && r.lastSequence < e.sequence <= U64_MAX
    requires Balanced(r, t, 0)
    ensures Balanced(Loop(r, e, ids, on), t, Due(r, e, ids, on, t))
    decreases |ids|
  {
    if ids != [] {
      var front, last := ids[..|ids| - 1], ids[|ids| - 1];
      LoopBalances(r, e, front, on, t);
      LoopKeepsActive(r, e, front, on);
      assert last !in front;
      if last in Picked(r, e, front, on) { PickedAmong(r, e, front, on, last); }
      TurnBalances(Loop(r, e, front, on), e, last, on, t, Due(r, e, front, on, t));
    }
  }

  lemma {:induction false} ForHas(traces: map<nat, Trace>, picked: seq<nat>, d: nat, t: nat)
    ensures t in For(traces, picked, d) <==> t in picked && t in traces && traces[t].destination == d
    decreases |picked|
  {
    if picked != [] { ForHas(traces, picked[..|picked| - 1], d, t); }
  }

  lemma DeliverTally(out: seq<Record>, d: nat, ids: seq<nat>, sequence: nat, t: nat)
    ensures Tally(Deliver(out, d, ids, sequence), t) == Tally(out, t) + if t in ids then 1 else 0
  {
    if ids != [] { TallyLast(out, Delivered(d, ids, sequence), t); }
  }

  /** Each picked trace is named by exactly one of the records. */
  lemma {:induction false} RecordsTally(traces: map<nat, Trace>, picked: seq<nat>, ds: seq<nat>, sequence: nat, t: nat)
    requires Ascending(ds)
    ensures Tally(Records(traces, picked, ds, sequence), t)
         == if t in picked && t in traces && traces[t].destination in ds then 1 else 0
    decreases |ds|
  {
    if ds != [] {
      var front, d := ds[..|ds| - 1], ds[|ds| - 1];
      assert d !in front;
      RecordsTally(traces, picked, front, sequence, t);
      DeliverTally(Records(traces, picked, front, sequence), d, For(traces, picked, d), sequence, t);
      ForHas(traces, picked, d, t);
    }
  }

  lemma RouteBalances(r: Router, e: Event, ids: seq<nat>, on: set<nat>, t: nat)
    requires Known(r, ids) && Ascending(ids) && ActiveOk(r, r.lastSequence) && r.lastSequence < e.sequence <= U64_MAX
    requires Balanced(r, t, 0)
    ensures Balanced(RouteIds(r, e, ids, on), t, 0)
  {
    LoopBalances(r, e, ids, on, t);
    var l := Loop(r, e, ids, on);
    var picked := Picked(r, e, ids, on);
    RecordsTally(r.traces, picked, r.destinations, e.sequence, t);
    TallySplit(l.out, Records(r.traces, picked, r.destinations, e.sequence), t);
    if t in picked { PickedAmong(r, e, ids, on, t); }
  }

  // ---- Order ---------------------------------------------------------------------------------------------------

  predicate Names(rec: Record, t: nat) { if rec.Delivered? then t in rec.ids else rec.id == t }

  function From(rec: Record): nat { if rec.Delivered? then rec.sequence else rec.summary.first }

  function To(rec: Record): nat { if rec.Delivered? then rec.sequence else rec.summary.last }

  /** The records naming a trace cover disjoint ranges of source events, in order; in particular a
      summary comes before the next event its trace accepts. */
  ghost predicate OrderedFor(out: seq<Record>, t: nat) {
    forall i, j :: 0 <= i < j < |out| && Names(out[i], t) && Names(out[j], t) ==> To(out[i]) < From(out[j])
  }

  ghost predicate BoundFor(out: seq<Record>, t: nat, bound: int) {
    forall i :: 0 <= i < |out| && Names(out[i], t) ==> To(out[i]) <= bound
  }

  function Limit(r: Router, t: nat, horizon: nat): int { if t in r.active then r.active[t].first - 1 else horizon }

  ghost predicate InOrder(r: Router, t: nat, horizon: nat) {
    OrderedFor(r.out, t) && BoundFor(r.out, t, Limit(r, t, horizon))
  }

  lemma AppendOrders(out: seq<Record>, rec: Record, t: nat, bound: int, later: int)
    requires OrderedFor(out, t) && BoundFor(out, t, bound) && bound <= later
    requires Names(rec, t) ==> bound < From(rec) && To(rec) <= later
    ensures OrderedFor(out + [rec], t) && BoundFor(out + [rec], t, later)
  {
  }

  lemma EmitOrders(r: Router, id: nat, t: nat, horizon: nat)
    requires InOrder(r, t, horizon) && (id in r.active ==> SummaryOk(r.active[id], horizon))
    ensures InOrder(Emit(r, id), t, horizon)
  {
    if id in r.active && id in r.traces {
      AppendOrders(r.out, Suppressed(r.traces[id].destination, id, r.active[id]), t, Limit(r, t, horizon),
          Limit(Emit(r, id), t, horizon));
    }
  }

  lemma TurnOrders(r: Router, e: Event, id: nat, on: set<nat>, t: nat)
    requires id in r.traces && e.sequence > 0 && InOrder(r, t, e.sequence - 1)
    requires id in r.active ==> SummaryOk(r.active[id], e.sequence - 1)
    ensures InOrder(Turn(r, e, id, on), t, e.sequence - 1)
  {
    if Takes(r, e, id, on) { EmitOrders(r.(offers := r.offers + multiset{id}), id, t, e.sequence - 1); }
  }

  lemma {:induction false} LoopOrders(r: Router, e: Event, ids: seq<nat>, on: set<nat>, t: nat)
    requires Known(r, ids) && Ascending(ids) && ActiveOk(r, r.lastSequence) && r.lastSequence < e.sequence <= U64_MAX
    requires InOrder(r, t, r.lastSequence)
    ensures InOrder(Loop(r, e, ids, on), t, e.sequence - 1)
    decreases |ids|
  {
    if ids != [] {
      var front, last := ids[..|ids| - 1], ids[|ids| - 1];
      LoopOrders(r, e, front, on, t);
      LoopKeepsActive(r, e, front, on);
      assert last !in front;
      TurnOrders(Loop(r, e, front, on), e, last, on, t);
    }
  }

  /** A trace that takes the event has no summary left. */
  lemma {:induction false} PickedIdle(r: Router, e: Event, ids: seq<nat>, on: set<nat>, t: nat)
    requires Known(r, ids) && Ascending(ids) && t in Picked(r, e, ids, on)
    ensures t !in Loop(r, e, ids, on).active
    decreases |ids|
  {
    var front, last := ids[..|ids| - 1], ids[|ids| - 1];
    assert last !in front;
    if t in Picked(r, e, front, on) {
      PickedAmong(r, e, front, on, t);
      PickedIdle(r, e, front, on, t);
    }
  }

  function After(traces: map<nat, Trace>, picked: seq<nat>, ds: seq<nat>, sequence: nat, t: nat, bound: int): int {
    if t in picked && t in traces && traces[t].destination in ds then sequence else bound
  }

  /** Appending to both sides of a concatenation. */
  lemma DeliverTail(a: seq<Record>, b: seq<Record>, d: nat, ids: seq<nat>, sequence: nat)
    ensures a + Deliver(b, d, ids, sequence) == Deliver(a + b, d, ids, sequence)
  {
  }

  lemma DeliverOrders(out: seq<Record>, d: nat, ids: seq<nat>, sequence: nat, t: nat, bound: int, later: int)
    requires OrderedFor(out, t) && BoundFor(out, t, bound) && bound <= later && (t in ids ==> bound < sequence <= later)
    ensures OrderedFor(Deliver(out, d, ids, sequence), t) && BoundFor(Deliver(out, d, ids, sequence), t, later)
  {
    if ids != [] { AppendOrders(out, Delivered(d, ids, sequence), t, bound, later); }
  }

  lemma {:induction false} RecordsOrders(out: seq<Record>, traces: map<nat, Trace>, picked: seq<nat>, ds: seq<nat>,
                                         sequence: nat, t: nat, bound: int)
    requires OrderedFor(out, t) && BoundFor(out, t, bound) && Ascending(ds)
    requires t in picked ==> bound == sequence - 1
    ensures OrderedFor(out + Records(traces, picked, ds, sequence), t)
    ensures BoundFor(out + Records(traces, picked, ds, sequence), t, After(traces, picked, ds, sequence, t, bound))
    decreases |ds|
  {
    if ds == [] { assert out + [] == out; }
    else {
      var front, d := ds[..|ds| - 1], ds[|ds| - 1];
      assert d !in front;
      var before, mine := Records(traces, picked, front, sequence), For(traces, picked, d);
      var now, later := After(traces, picked, front, sequence, t, bound), After(traces, picked, ds, sequence, t, bound);
      RecordsOrders(out, traces, picked, front, sequence, t, bound);
      assert now <= later && (t in mine ==> now < sequence <= later) by { ForHas(traces, picked, d, t); }
      assert Records(traces, picked, ds, sequence) == Deliver(before, d, mine, sequence);
      RecordsStep(out, before, d, mine, sequence, t, now, later);
    }
  }

  lemma RecordsStep(out: seq<Record>, before: seq<Record>, d: nat, ids: seq<nat>, sequence: nat, t: nat, bound: int,
                    later: int)
    requires OrderedFor(out + before, t) && BoundFor(out + before, t, bound) && bound <= later
    requires (t in ids ==> bound < sequence <= later)
    ensures OrderedFor(out + Deliver(before, d, ids, sequence), t)
    ensures BoundFor(out + Deliver(before, d, ids, sequence), t, later)
  {
    DeliverTail(out, before, d, ids, sequence);
    DeliverOrders(out + before, d, ids, sequence, t, bound, later);
  }

  lemma BoundWeaker(out: seq<Record>, t: nat, a: int, b: int)
    requires BoundFor(out, t, a) && a <= b
    ensures BoundFor(out, t, b)
  {
  }

  lemma RouteOrders(r: Router, e: Event, ids: seq<nat>, on: set<nat>, t: nat)
    requires Known(r, ids) && Ascending(ids) && ActiveOk(r, r.lastSequence) && r.lastSequence < e.sequence <= U64_MAX
    requires InOrder(r, t, r.lastSequence)
    ensures InOrder(RouteIds(r, e, ids, on), t, e.sequence)
  {
    LoopOrders(r, e, ids, on, t);
    LoopKeepsActive(r, e, ids, on);
    var l := Loop(r, e, ids, on);
    var picked := Picked(r, e, ids, on);
    var bound := Limit(l, t, e.sequence - 1);
    if t in picked { PickedIdle(r, e, ids, on, t); }
    RecordsOrders(l.out, r.traces, picked, r.destinations, e.sequence, t, bound);
    BoundWeaker(RouteIds(r, e, ids, on).out, t, After(r.traces, picked, r.destinations, e.sequence, t, bound),
                Limit(RouteIds(r, e, ids, on), t, e.sequence));
  }

  // ---- Every step ------------------------------------------------------------------------------------------------

  ghost predicate Inv(r: Router, t: nat) {
    ActiveOk(r, r.lastSequence) && Balanced(r, t, 0) && InOrder(r, t, r.lastSequence)
  }

  lemma RouteKeeps(r: Router, e: Event, ids: seq<nat>, on: set<nat>, t: nat)
    requires Inv(r, t) && Known(r, ids) && Ascending(ids) && r.lastSequence < e.sequence <= U64_MAX
    ensures ActiveOk(RouteIds(r, e, ids, on), e.sequence) && Balanced(RouteIds(r, e, ids, on), t, 0)
    ensures InOrder(RouteIds(r, e, ids, on), t, e.sequence)
  {
    LoopKeepsActive(r, e, ids, on);
    RouteBalances(r, e, ids, on, t);
    RouteOrders(r, e, ids, on, t);
  }

  lemma EmitKeeps(r: Router, id: nat, t: nat)
    requires Inv(r, t)
    ensures Inv(Emit(r, id), t)
  {
    EmitBalances(r, id, t, 0);
    EmitOrders(r, id, t, r.lastSequence);
  }

  lemma {:induction false} FlushKeeps(r: Router, order: seq<nat>, destination: nat, wanted: nat, t: nat)
    requires Inv(r, t)
    ensures Inv(FlushLoop(r, order, destination, wanted), t)
    decreases |order|
  {
    if order != [] {
      FlushKeeps(r, order[..|order| - 1], destination, wanted, t);
      EmitKeeps(FlushLoop(r, order[..|order| - 1], destination, wanted), order[|order| - 1], t);
    }
  }

  lemma DiscardKeeps(r: Router, id: nat, t: nat)
    requires Inv(r, t)
    ensures Inv(Next(r, Discard(id)), t)
  {
    if id in r.active {
      BoundWeaker(r.out, t, Limit(r, t, r.lastSequence), Limit(Next(r, Discard(id)), t, r.lastSequence));
    }
  }

  lemma ReplaceKeeps(r: Router, c: Config, t: nat)
    requires Inv(r, t)
    ensures Inv(TryReplace(r, c), t)
  {
  }

  lemma SourceKeeps(r: Router, e: Event, ids: seq<nat>, on: set<nat>, t: nat)
    requires Inv(r, t)
    ensures Inv(Source(r, e, ids, on), t)
  {
    var o := Outermost(r, e);
    if SourceValid(o, e) && Known(o, ids) && Ascending(ids) { RouteKeeps(o, e, ids, on, t); }
  }

  lemma NextKeepsInv(r: Router, step: Step, t: nat)
    requires Inv(r, t)
    ensures Inv(Next(r, step), t)
  {
    if step.Ingest? { SourceKeeps(r, step.e, step.ids, step.on, t); }
    else if step.Observe? { SourceKeeps(r, Canonical(r, step.e), step.ids, step.on, t); }
    else if step.Watch? {
      if r.lastSequence < step.e.sequence <= U64_MAX && Known(r, step.ids) && Ascending(step.ids) {
        RouteKeeps(r, step.e, step.ids, step.on, t);
      }
    } else if step.Flush? { FlushKeeps(r, r.order, step.destination, step.id, t); }
    else if step.Discard? { DiscardKeeps(r, step.id, t); }
    else if step.Replace? { ReplaceKeeps(r, step.config, t); }
    else if step.Configure? {
      FlushKeeps(r, r.order, 0, 0, t);
      ReplaceKeeps(FlushLoop(r, r.order, 0, 0), step.config, t);
    }
  }

  function Run(r: Router, steps: seq<Step>): Router
    decreases |steps|
  {
    if steps == [] then r else Next(Run(r, steps[..|steps| - 1]), steps[|steps| - 1])
  }

  const START: Router := Router(map[], [], [], [], map[], 0, 0, false, [], multiset{}, multiset{})

  lemma {:induction false} RunKeepsInv(steps: seq<Step>, t: nat)
    ensures Inv(Run(START, steps), t)
    decreases |steps|
  {
    if steps != [] {
      RunKeepsInv(steps[..|steps| - 1], t);
      NextKeepsInv(Run(START, steps[..|steps| - 1]), steps[|steps| - 1], t);
    }
  }

  // ---- What it promises ---------------------------------------------------------------------------------------------

  /** Every event offered to a trace is answered for exactly once: by a delivered record naming the
      trace, by the count of a delivered summary, by the active summary, or by an explicit discard. */
  lemma EveryOfferAnswered(steps: seq<Step>, t: nat)
    ensures var r := Run(START, steps);
            r.offers[t] == Tally(r.out, t) + (if t in r.active then r.active[t].count else 0) + r.discards[t]
  {
    RunKeepsInv(steps, t);
  }

  /** An offer is counted exactly once for each listed trace that is enabled and eligible. */
  lemma {:induction false} OffersExact(r: Router, e: Event, ids: seq<nat>, on: set<nat>, t: nat)
    requires Known(r, ids) && Ascending(ids)
    ensures RouteIds(r, e, ids, on).offers[t] == r.offers[t] + if t in ids && t in on then 1 else 0
    decreases |ids|
  {
    if ids != [] {
      var front, last := ids[..|ids| - 1], ids[|ids| - 1];
      assert last !in front && ids == front + [last];
      OffersExact(r, e, front, on, t);
    }
  }

  /** What a trace is delivered covers disjoint source ranges in order, so a summary comes before the
      next accepted event, and an active summary lies after all of it. */
  lemma SummariesComeFirst(steps: seq<Step>, t: nat)
    ensures var r := Run(START, steps);
            && OrderedFor(r.out, t)
            && (t in r.active ==> BoundFor(r.out, t, r.active[t].first - 1))
  {
    RunKeepsInv(steps, t);
  }

  /** No summary count ever saturates: it is at most the number of sequences it spans. */
  lemma CountsNeverSaturate(steps: seq<Step>, t: nat)
    requires t in Run(START, steps).active
    ensures var s := Run(START, steps).active[t];
            1 <= s.count <= s.last - s.first + 1 && s.last <= Run(START, steps).lastSequence <= U64_MAX
  {
    RunKeepsInv(steps, t);
  }

  // ---- Reconfiguration ---------------------------------------------------------------------------------

  /** The traces are those of `order`, and every identity in use has been noted as seen. */
  ghost predicate Table(r: Router) {
    && Ascending(r.order) && |r.order| <= MAX_TRACES
    && (forall id :: id in r.order <==> id in r.traces)
    && (forall id :: id in r.traces ==> id in r.seen)
  }

  lemma {:induction false} NewcomersHas(traces: map<nat, Trace>, order: seq<nat>, t: nat)
    ensures t in Newcomers(traces, order) <==> t in order && t !in traces
    decreases |order|
  {
    if order != [] { NewcomersHas(traces, order[..|order| - 1], t); }
  }

  lemma ReplaceKeepsTable(r: Router, c: Config)
    requires Table(r)
    ensures Table(TryReplace(r, c))
  {
    if ReplaceStatus(r, c).Ok? {
      forall t | t in c.traces ensures t in Replaced(r, c).seen { NewcomersHas(r.traces, c.order, t); }
    }
  }

  /** What a flush changes. */
  lemma {:induction false} FlushOnlyEmits(r: Router, ids: seq<nat>, destination: nat, wanted: nat)
    ensures var f := FlushLoop(r, ids, destination, wanted); f == r.(active := f.active, out := f.out)
    decreases |ids|
  {
    if ids != [] { FlushOnlyEmits(r, ids[..|ids| - 1], destination, wanted); }
  }

  lemma NextKeepsTable(r: Router, step: Step)
    requires Table(r)
    ensures Table(Next(r, step))
  {
    if step.Flush? { FlushOnlyEmits(r, r.order, step.destination, step.id); }
    else if step.Replace? { ReplaceKeepsTable(r, step.config); }
    else if step.Configure? {
      FlushOnlyEmits(r, r.order, 0, 0);
      ReplaceKeepsTable(FlushLoop(r, r.order, 0, 0), step.config);
    }
  }

  lemma {:induction false} RunKeepsTable(steps: seq<Step>)
    ensures Table(Run(START, steps))
    decreases |steps|
  {
    if steps != [] {
      RunKeepsTable(steps[..|steps| - 1]);
      NextKeepsTable(Run(START, steps[..|steps| - 1]), steps[|steps| - 1]);
    }
  }

  /** A flush over all traces leaves none of the summaries it concerns. */
  lemma {:induction false} FlushClears(r: Router, order: seq<nat>, destination: nat, wanted: nat, t: nat)
    requires t in order && Concerns(r, destination, wanted, t)
    ensures t !in FlushLoop(r, order, destination, wanted).active
    decreases |order|
  {
    var front := order[..|order| - 1];
    FlushOnlyEmits(r, front, destination, wanted);
    if t in front { FlushClears(r, front, destination, wanted, t); }
  }

  /** The active summaries of the traces `ids`, as records. */
  function Summaries(r: Router, ids: seq<nat>): seq<Record>
    decreases |ids|
  {
    if ids == [] then []
    else
      var last := ids[|ids| - 1];
      Summaries(r, ids[..|ids| - 1])
      + if last in r.active && last in r.traces then [Suppressed(r.traces[last].destination, last, r.active[last])]
          else []
  }

  /** A full flush sends each summary as it stood, in trace order. */
  lemma {:induction false} FlushSends(r: Router, ids: seq<nat>)
    requires Ascending(ids)
    ensures var f := FlushLoop(r, ids, 0, 0);
            && f.out == r.out + Summaries(r, ids)
            && forall t :: (t in f.active <==> t in r.active && (t in ids ==> t !in r.traces))
                        && (t in f.active ==> f.active[t] == r.active[t])
    decreases |ids|
  {
    if ids == [] { assert r.out + [] == r.out; }
    else {
      var front, last := ids[..|ids| - 1], ids[|ids| - 1];
      assert last !in front;
      FlushSends(r, front);
      FlushOnlyEmits(r, front, 0, 0);
      var g := FlushLoop(r, front, 0, 0);
      if last in r.active && last in r.traces {
        var rec := Suppressed(r.traces[last].destination, last, r.active[last]);
        assert FlushLoop(r, ids, 0, 0).out == (r.out + Summaries(r, front)) + [rec];
        assert (r.out + Summaries(r, front)) + [rec] == r.out + Summaries(r, ids);
      }
    }
  }

  lemma {:induction false} SummariesHas(r: Router, ids: seq<nat>, t: nat)
    requires t in ids && t in r.active && t in r.traces
    ensures Suppressed(r.traces[t].destination, t, r.active[t]) in Summaries(r, ids)
    decreases |ids|
  {
    if t != ids[|ids| - 1] { SummariesHas(r, ids[..|ids| - 1], t); }
  }

  /** A full flush leaves nothing active. */
  lemma FlushEmpties(r: Router)
    requires Ascending(r.order) && (forall id :: id in r.order <==> id in r.traces)
    requires forall id :: id in r.active ==> id in r.traces
    ensures FlushLoop(r, r.order, 0, 0) == r.(active := map[], out := r.out + Summaries(r, r.order))
  {
    FlushSends(r, r.order);
    FlushOnlyEmits(r, r.order, 0, 0);
    assert FlushLoop(r, r.order, 0, 0).active == map[];
  }

  /** What configuring promises: all or nothing. It is refused without a trace, or every active summary
      goes out to the destination its trace had before the new configuration takes over. */
  ghost predicate AllOrNothing(r: Router, c: Config, s: Router) {
    if !ReplaceStatus(r.(active := map[]), c).Ok? then s == r
    else
      && s == Replaced(r, c).(active := map[], out := s.out) && r.out <= s.out
      && forall t :: t in r.active ==>
           t in r.traces && Suppressed(r.traces[t].destination, t, r.active[t]) in s.out[|r.out|..]
  }

  /** The trial decides: once it has passed, the change after the flush cannot fail. */
  lemma TrialDecides(r: Router, c: Config)
    requires ReplaceStatus(r.(active := map[]), c).Ok?
    ensures ReplaceStatus(r.(active := map[], out := r.out + Summaries(r, r.order)), c).Ok?
  {
  }

  lemma ConfigureDelivers(steps: seq<Step>, c: Config)
    ensures AllOrNothing(Run(START, steps), c, Run(START, steps + [Configure(c)]))
  {
    var r := Run(START, steps);
    assert (steps + [Configure(c)])[..|steps|] == steps;
    RunKeepsTable(steps);
    RunKeepsInv(steps, 0);
    FlushEmpties(r);
    if ReplaceStatus(r.(active := map[]), c).Ok? {
      TrialDecides(r, c);
      var s := Configured(r, c);
      assert s.out == r.out + Summaries(r, r.order);
      assert s.out[|r.out|..] == Summaries(r, r.order);
      forall t | t in r.active ensures Suppressed(r.traces[t].destination, t, r.active[t]) in s.out[|r.out|..] {
        SummariesHas(r, r.order, t);
      }
    }
  }

  lemma {:induction false} RunJoin(r: Router, a: seq<Step>, b: seq<Step>)
    ensures Run(r, a + b) == Run(Run(r, a), b)
    decreases |b|
  {
    if b == [] { assert a + b == a; }
    else {
      assert (a + b)[..|a + b| - 1] == a + b[..|b| - 1];
      RunJoin(r, a, b[..|b| - 1]);
    }
  }

  /** An identity that was seen stays seen, and is in use only as long as it never left. */
  lemma NextRetires(r: Router, step: Step, t: nat)
    requires t in r.seen
    ensures t in Next(r, step).seen && (t !in r.traces ==> t !in Next(r, step).traces)
  {
    if step.Flush? { FlushOnlyEmits(r, r.order, step.destination, step.id); }
    else if step.Replace? { NewcomersHas(r.traces, step.config.order, t); }
    else if step.Configure? {
      FlushOnlyEmits(r, r.order, 0, 0);
      NewcomersHas(r.traces, step.config.order, t);
    }
  }

  lemma {:induction false} RunRetires(r: Router, steps: seq<Step>, t: nat)
    requires t in r.seen
    ensures t in Run(r, steps).seen && (t !in r.traces ==> t !in Run(r, steps).traces)
    decreases |steps|
  {
    if steps != [] {
      RunRetires(r, steps[..|steps| - 1], t);
      NextRetires(Run(r, steps[..|steps| - 1]), steps[|steps| - 1], t);
    }
  }

  /** A trace identity once given up is never used again. */
  lemma RetiredIdentityStaysRetired(a: seq<Step>, b: seq<Step>, c: seq<Step>, t: nat)
    requires t in Run(START, a).traces && t !in Run(START, a + b).traces
    ensures t !in Run(START, a + b + c).traces
  {
    RunKeepsTable(a);
    RunJoin(START, a, b);
    RunJoin(START, a + b, c);
    RunRetires(Run(START, a), b, t);
    RunRetires(Run(START, a + b), c, t);
  }
}
