/** The router as it runs: the traces in a table, one suppression slot for each position of it
    (emu_debug_trace.c), and the reconfiguration around it (emu_debug_runtime.c). */
module RouterDevice {
  import opened Counters
  import opened Router

  datatype Session = Session(id: nat, trace: Trace)

  datatype Slot = Slot(active: bool, value: Summary)

  const IDLE: Slot := Slot(false, Summary(0, 0, 0, 0, 0))

  function Ids(ss: seq<Session>): (r: seq<nat>)
    ensures |r| == |ss| && forall i :: 0 <= i < |ss| ==> r[i] == ss[i].id
  {
    seq(|ss|, i requires 0 <= i < |ss| => ss[i].id)
  }

  /** Positions hold ascending identities. */
  predicate Sorted(ss: seq<Session>) { forall i, j :: 0 <= i < j < |ss| ==> ss[i].id < ss[j].id }

  /** The position of trace `id`, or a negative number. */
  function IndexOf(ss: seq<Session>, id: nat): (i: int)
    ensures -1 <= i < |ss| && (0 <= i ==> ss[i].id == id) && (i < 0 ==> forall j :: 0 <= j < |ss| ==> ss[j].id != id)
    decreases |ss|
  {
    if ss == [] then -1
    else if ss[|ss| - 1].id == id then |ss| - 1
    else IndexOf(ss[..|ss| - 1], id)
  }

  // ---- Moving the slots to a new table -----------------------------------------------------------------

  datatype Option<T> = None | Some(value: T)

  /** The summary being counted for trace `id`, by identity. */
  function View(ss: seq<Session>, slots: seq<Slot>, id: nat): Option<Summary>
    requires |ss| <= |slots|
  {
    var i := IndexOf(ss, id);
    if 0 <= i && slots[i].active then Some(slots[i].value) else None
  }

  /** The slot a new table's entry starts with: the old one of the same trace if it goes to the same
      destination under the same policy. */
  function Carried(ss: seq<Session>, slots: seq<Slot>, entry: Session): Slot
    requires |ss| <= |slots|
  {
    var i := IndexOf(ss, entry.id);
    if 0 <= i && ss[i].trace == entry.trace then slots[i] else IDLE
  }

  /** The summary at position `i`, if active, keeps its trace as it is. */
  predicate Kept(ss: seq<Session>, slots: seq<Slot>, c: seq<Session>, i: nat)
    requires |ss| <= |slots| && i < |ss|
  {
    slots[i].active ==> IndexOf(c, ss[i].id) >= 0 && c[IndexOf(c, ss[i].id)].trace == ss[i].trace
  }

  /** The check made first: no active summary loses its trace or has it altered. */
  predicate Free(ss: seq<Session>, slots: seq<Slot>, c: seq<Session>)
    requires |ss| <= |slots|
  {
    forall i :: 0 <= i < |ss| ==> Kept(ss, slots, c, i)
  }

  ghost predicate Rebuilt(ss: seq<Session>, slots: seq<Slot>, c: seq<Session>, made: seq<Slot>)
    requires |ss| <= |slots|
  {
    && |c| <= |made|
    && (forall i :: 0 <= i < |c| ==> made[i] == Carried(ss, slots, c[i]))
    && (forall i :: |c| <= i < |made| ==> made[i] == IDLE)
  }

  ghost predicate SameViews(ss: seq<Session>, slots: seq<Slot>, c: seq<Session>, made: seq<Slot>)
    requires |ss| <= |slots| && |c| <= |made|
  {
    forall id :: View(c, made, id) == View(ss, slots, id)
  }

  lemma ViewAt(ss: seq<Session>, slots: seq<Slot>, i: nat)
    requires |ss| <= |slots| && Sorted(ss) && i < |ss|
    ensures IndexOf(ss, ss[i].id) == i
    ensures View(ss, slots, ss[i].id) == if slots[i].active then Some(slots[i].value) else None
  {
  }

  lemma CarriedView(ss: seq<Session>, slots: seq<Slot>, c: seq<Session>, made: seq<Slot>, id: nat)
    requires |ss| <= |slots| && Rebuilt(ss, slots, c, made) && Free(ss, slots, c)
    ensures View(c, made, id) == View(ss, slots, id)
  {
    var i, k := IndexOf(ss, id), IndexOf(c, id);
    if k >= 0 { assert made[k] == Carried(ss, slots, c[k]); }
    if i >= 0 { assert Kept(ss, slots, c, i); }
  }

  lemma LostView(ss: seq<Session>, slots: seq<Slot>, c: seq<Session>, made: seq<Slot>, i: nat)
    requires |ss| <= |slots| && Sorted(ss) && Rebuilt(ss, slots, c, made) && i < |ss| && !Kept(ss, slots, c, i)
    ensures View(c, made, ss[i].id).None? && View(ss, slots, ss[i].id).Some?
  {
    ViewAt(ss, slots, i);
    var k := IndexOf(c, ss[i].id);
    if k >= 0 { assert made[k] == Carried(ss, slots, c[k]); }
  }

  /** Rebuilding by position keeps the summaries by identity exactly when the check passes. */
  lemma RebuildKeepsViews(ss: seq<Session>, slots: seq<Slot>, c: seq<Session>, made: seq<Slot>)
    requires |ss| <= |slots| && Sorted(ss) && Rebuilt(ss, slots, c, made)
    ensures SameViews(ss, slots, c, made) <==> Free(ss, slots, c)
  {
    if Free(ss, slots, c) {
      forall id ensures View(c, made, id) == View(ss, slots, id) { CarriedView(ss, slots, c, made, id); }
    } else {
      var i :| 0 <= i < |ss| && !Kept(ss, slots, c, i);
      LostView(ss, slots, c, made, i);
      assert View(c, made, ss[i].id) != View(ss, slots, ss[i].id);
    }
  }

  // ---- The tables and the value they stand for -----------------------------------------------------------

  /** A table as a map. */
  function TableOf(ss: seq<Session>): map<nat, Trace>
    decreases |ss|
  {
    if ss == [] then map[] else TableOf(ss[..|ss| - 1])[ss[|ss| - 1].id := ss[|ss| - 1].trace]
  }

  lemma {:induction false} TableHas(ss: seq<Session>, id: nat)
    ensures var i := IndexOf(ss, id); (id in TableOf(ss) <==> i >= 0) && (i >= 0 ==> TableOf(ss)[id] == ss[i].trace)
    decreases |ss|
  {
    if ss != [] { TableHas(ss[..|ss| - 1], id); }
  }

  function ConfigOf(ss: seq<Session>, destinations: seq<nat>): Config {
    Config(Ids(ss), TableOf(ss), destinations)
  }

  /** config_valid. */
  predicate SessionsValid(ss: seq<Session>, destinations: seq<nat>) {
    && |ss| <= MAX_TRACES && |destinations| <= MAX_DESTINATIONS && Sorted(ss) && Ascending(destinations)
    && 0 !in destinations
    && forall i :: 0 <= i < |ss| ==> ss[i].id != 0 && ss[i].trace.destination in destinations
  }

  lemma SessionsAreConfig(ss: seq<Session>, destinations: seq<nat>)
    ensures SessionsValid(ss, destinations) <==> ConfigValid(ConfigOf(ss, destinations))
  {
    var c := ConfigOf(ss, destinations);
    forall id ensures (id in c.order <==> id in c.traces) { TableHas(ss, id); InIds(ss, id); }
    if SessionsValid(ss, destinations) {
      forall id | id in c.traces ensures c.traces[id].destination in c.destinations { TableHas(ss, id); }
    } else if ConfigValid(c) {
      assert Sorted(ss);
      forall i | 0 <= i < |ss| ensures ss[i].id != 0 && ss[i].trace.destination in destinations {
        assert c.order[i] == ss[i].id && ss[i].id in c.traces;
        TableHas(ss, ss[i].id);
      }
    }
  }

  lemma InIds(ss: seq<Session>, id: nat)
    ensures id in Ids(ss) <==> IndexOf(ss, id) >= 0
  {
    if IndexOf(ss, id) >= 0 { assert Ids(ss)[IndexOf(ss, id)] == id; }
  }

  /** The slots hold the active summaries of the value, and those alone. */
  ghost predicate Held(ss: seq<Session>, slots: seq<Slot>, active: map<nat, Summary>) {
    && |ss| <= |slots|
    && (forall i :: 0 <= i < |ss| ==> (slots[i].active <==> ss[i].id in active))
    && (forall i :: 0 <= i < |ss| && slots[i].active ==> slots[i].value == active[ss[i].id])
    && (forall id :: id in active ==> id in Ids(ss))
  }

  lemma HeldWith(ss: seq<Session>, slots: seq<Slot>, active: map<nat, Summary>, ti: nat, s: Summary)
    requires Held(ss, slots, active) && Sorted(ss) && ti < |ss|
    ensures Held(ss, slots[ti := Slot(true, s)], active[ss[ti].id := s])
  {
    assert Ids(ss)[ti] == ss[ti].id;
  }

  lemma HeldWithout(ss: seq<Session>, slots: seq<Slot>, active: map<nat, Summary>, ti: nat)
    requires Held(ss, slots, active) && Sorted(ss) && ti < |ss|
    ensures Held(ss, slots[ti := IDLE], active - {ss[ti].id})
  {
  }

  /** Held, said by identity. */
  lemma HeldView(ss: seq<Session>, slots: seq<Slot>, active: map<nat, Summary>, id: nat)
    requires Held(ss, slots, active)
    ensures View(ss, slots, id) == if id in active then Some(active[id]) else None
  {
    InIds(ss, id);
  }

  lemma ViewHeld(ss: seq<Session>, slots: seq<Slot>, active: map<nat, Summary>)
    requires |ss| <= |slots| && Sorted(ss)
    requires forall id :: View(ss, slots, id) == if id in active then Some(active[id]) else None
    ensures Held(ss, slots, active)
  {
    forall i | 0 <= i < |ss|
      ensures (slots[i].active <==> ss[i].id in active) && (slots[i].active ==> slots[i].value == active[ss[i].id])
    {
      ViewAt(ss, slots, i);
      assert View(ss, slots, ss[i].id) == if ss[i].id in active then Some(active[ss[i].id]) else None;
    }
    forall id | id in active ensures id in Ids(ss) {
      assert View(ss, slots, id) == Some(active[id]);
      InIds(ss, id);
    }
  }

  /** Slots that show the same summaries by identity hold the same summaries. */
  lemma ViewsHeld(ss: seq<Session>, slots: seq<Slot>, c: seq<Session>, made: seq<Slot>, active: map<nat, Summary>)
    requires Held(ss, slots, active) && Sorted(c) && |c| <= |made| && SameViews(ss, slots, c, made)
    ensures Held(c, made, active)
  {
    forall id ensures View(c, made, id) == if id in active then Some(active[id]) else None {
      assert View(c, made, id) == View(ss, slots, id);
      HeldView(ss, slots, active, id);
    }
    ViewHeld(c, made, active);
  }

  lemma FreeAllows(ss: seq<Session>, slots: seq<Slot>, c: seq<Session>, r: Router, id: nat)
    requires Held(ss, slots, r.active) && r.traces == TableOf(ss) && Free(ss, slots, c) && id in r.active
    ensures id in TableOf(c) && id in r.traces && TableOf(c)[id] == r.traces[id]
  {
    InIds(ss, id);
    TableHas(ss, id);
    TableHas(c, id);
    assert Kept(ss, slots, c, IndexOf(ss, id));
  }

  lemma AllowedFree(ss: seq<Session>, slots: seq<Slot>, c: seq<Session>, r: Router, i: nat)
    requires Sorted(ss) && Held(ss, slots, r.active) && r.traces == TableOf(ss) && MayReplace(r, TableOf(c))
    requires i < |ss|
    ensures Kept(ss, slots, c, i)
  {
    ViewAt(ss, slots, i);
    TableHas(ss, ss[i].id);
    TableHas(c, ss[i].id);
    assert slots[i].active ==> ss[i].id in r.active;
  }

  /** The check on positions is the check on the value. */
  lemma FreeIsMayReplace(ss: seq<Session>, slots: seq<Slot>, c: seq<Session>, r: Router)
    requires Sorted(ss) && Held(ss, slots, r.active) && r.traces == TableOf(ss)
    ensures Free(ss, slots, c) <==> MayReplace(r, TableOf(c))
  {
    if Free(ss, slots, c) {
      forall id | id in r.active
        ensures id in TableOf(c) && id in r.traces && TableOf(c)[id] == r.traces[id]
      {
        FreeAllows(ss, slots, c, r, id);
      }
    } else if MayReplace(r, TableOf(c)) {
      forall i | 0 <= i < |ss| ensures Kept(ss, slots, c, i) { AllowedFree(ss, slots, c, r, i); }
    }
  }

  /** The picked traces, sorted into one list per destination. */
  ghost predicate Listed(lists: seq<seq<nat>>, traces: map<nat, Trace>, picked: seq<nat>, ds: seq<nat>) {
    |lists| == |ds| && forall d :: 0 <= d < |lists| ==> lists[d] == For(traces, picked, ds[d])
  }

  lemma ListedExtends(lists: seq<seq<nat>>, traces: map<nat, Trace>, picked: seq<nat>, ds: seq<nat>, id: nat, d: nat)
    requires Listed(lists, traces, picked, ds) && Ascending(ds)
    requires d < |ds| && id in traces && traces[id].destination == ds[d]
    ensures Listed(lists[d := lists[d] + [id]], traces, picked + [id], ds)
  {
    assert (picked + [id])[..|picked|] == picked;
  }

  /** One more turn of the routing loop. */
  lemma LoopNext(r: Router, e: Event, ids: seq<nat>, i: nat, on: set<nat>)
    requires Known(r, ids) && i < |ids|
    ensures var l, picked := Loop(r, e, ids[..i], on), Picked(r, e, ids[..i], on);
            && Loop(r, e, ids[..i + 1], on) == Turn(l, e, ids[i], on)
            && Picked(r, e, ids[..i + 1], on) == if Takes(l, e, ids[i], on) then picked + [ids[i]] else picked
  {
    assert ids[..i + 1][..i] == ids[..i];
  }

  lemma RecordsNext(out: seq<Record>, traces: map<nat, Trace>, picked: seq<nat>, ds: seq<nat>, d: nat, sequence: nat)
    requires d < |ds|
    ensures out + Records(traces, picked, ds[..d + 1], sequence)
         == Deliver(out + Records(traces, picked, ds[..d], sequence), ds[d], For(traces, picked, ds[d]), sequence)
  {
    assert ds[..d + 1][..d] == ds[..d];
    DeliverTail(out, Records(traces, picked, ds[..d], sequence), ds[d], For(traces, picked, ds[d]), sequence);
  }

  /** One more turn of the flush loop. */
  lemma FlushNext(r: Router, ss: seq<Session>, ti: nat, destination: nat, wanted: nat)
    requires Sorted(ss) && r.order == Ids(ss) && r.traces == TableOf(ss) && ti < |ss|
    ensures var before, s := FlushLoop(r, r.order[..ti], destination, wanted), ss[ti];
            FlushLoop(r, r.order[..ti + 1], destination, wanted)
            == if (destination == 0 || s.trace.destination == destination) && (wanted == 0 || s.id == wanted)
               then Emit(before, s.id) else before
  {
    assert r.order[..ti + 1][..ti] == r.order[..ti];
    assert r.order[..ti + 1][ti] == ss[ti].id && IndexOf(ss, ss[ti].id) == ti;
    TableHas(ss, ss[ti].id);
    FlushOnlyEmits(r, r.order[..ti], destination, wanted);
  }

  // ---- In place ----------------------------------------------------------------------------------------

  /** The scalars of the router and what it has handed to the delivery callback. */
  datatype Gauge = Gauge(depth: nat, lastSequence: nat, open: bool, seen: seq<nat>, out: seq<Record>)

  function GaugeOf(r: Router): Gauge { Gauge(r.depth, r.lastSequence, r.open, r.seen, r.out) }

  ghost predicate Mirrors(ss: seq<Session>, ds: seq<nat>, r: Router) {
    SessionsValid(ss, ds) && r.order == Ids(ss) && r.traces == TableOf(ss) && r.destinations == ds
  }

  /** `r` is the router of the specification that the fields stand for. */
  class RouterCell {
    var sessions: seq<Session>
    var destinations: seq<nat>
    const suppression: array<Slot>
    var gauge: Gauge
    ghost var r: Router

    ghost predicate Valid()
      reads this, suppression
    {
      && suppression.Length == MAX_TRACES
      && Mirrors(sessions, destinations, r)
      && Held(sessions, suppression[..], r.active)
      && gauge == GaugeOf(r)
    }

    constructor ()
      ensures Valid() && fresh(suppression) && r == START
    {
      sessions, destinations := [], [];
      suppression := new Slot[MAX_TRACES](_ => IDLE);
      gauge := Gauge(0, 0, false, [], []);
      r := START;
    }

    /** The copy a configuration is tried on: everything but the summaries. */
    constructor Trial(ss: seq<Session>, ds: seq<nat>, g: Gauge, ghost was: Router)
      requires Mirrors(ss, ds, was) && g == GaugeOf(was)
      ensures Valid() && fresh(suppression) && r == was.(active := map[])
    {
      sessions, destinations, gauge := ss, ds, g;
      suppression := new Slot[MAX_TRACES](_ => IDLE);
      r := was.(active := map[]);
    }

    /** trace_index. */
    method TraceIndex(ss: seq<Session>, id: nat) returns (at: int)
      requires Sorted(ss)
      ensures at == IndexOf(ss, id)
    {
      for i := 0 to |ss|
        invariant forall j :: 0 <= j < i ==> ss[j].id != id
      {
        if ss[i].id == id { return i; }
      }
      return -1;
    }

    /** suppression_add. */
    method SuppressionAdd(ti: nat, sequence: nat)
      requires Valid() && ti < |sessions|
      modifies `r, suppression
      ensures Valid() && r == Add(old(r), sessions[ti].id, sequence)
    {
      ghost var slots := suppression[..];
      if !suppression[ti].active {
        suppression[ti] := Slot(true, Summary(sequence, sequence, 0, gauge.depth, 0));
      }
      suppression[ti] := Slot(true, Counted(suppression[ti].value, sequence, gauge.depth));
      r := Add(r, sessions[ti].id, sequence);
      HeldWith(sessions, slots, old(r.active), ti, suppression[ti].value);
      assert suppression[..] == slots[ti := suppression[ti]];
    }

    /** suppression_emit. */
    method SuppressionEmit(ti: nat)
      requires Valid() && ti < |sessions|
      modifies `r, `gauge, suppression
      ensures Valid() && r == Emit(old(r), sessions[ti].id)
    {
      var s := sessions[ti];
      ghost var slots := suppression[..];
      assert IndexOf(sessions, s.id) == ti;
      TableHas(sessions, s.id);
      if suppression[ti].active {
        gauge := gauge.(out := gauge.out + [Suppressed(s.trace.destination, s.id, suppression[ti].value)]);
        suppression[ti] := IDLE;
        HeldWithout(sessions, slots, r.active, ti);
        assert suppression[..] == slots[ti := IDLE];
      }
      r := Emit(r, s.id);
    }

    /** The listed traces exist and ascend. */
    method IdsValid(ids: seq<nat>) returns (ok: bool)
      requires Valid()
      ensures ok == (Known(r, ids) && Ascending(ids))
    {
      for i := 0 to |ids|
        invariant forall j :: 0 <= j < i ==> ids[j] in r.traces
        invariant forall j, k :: 0 <= j < k < i ==> ids[j] < ids[k]
      {
        var ti := TraceIndex(sessions, ids[i]);
        TableHas(sessions, ids[i]);
        if ti < 0 || (i > 0 && ids[i - 1] >= ids[i]) { return false; }
      }
      return true;
    }

    /** destination_index. */
    method DestinationIndex(id: nat) returns (at: nat)
      requires id in destinations
      ensures at < |destinations| && destinations[at] == id
    {
      at := 0;
      while destinations[at] != id
        invariant at < |destinations| && id in destinations[at..]
        decreases |destinations| - at
      {
        at := at + 1;
      }
    }

    /** One turn of the loop of route_ids; tells whether the trace takes the event. */
    method Offer(e: Event, id: nat, on: set<nat>) returns (taken: bool)
      requires Valid() && id in r.traces
      modifies `r, `gauge, suppression
      ensures Valid() && taken == Takes(old(r), e, id, on) && r == Turn(old(r), e, id, on)
    {
      var ti := TraceIndex(sessions, id);
      TableHas(sessions, id);
      if id !in on { return false; }
      r := r.(offers := r.offers + multiset{id});
      taken := PolicyAccepts(sessions[ti].trace.policy, e.kind, gauge.depth);
      if taken { SuppressionEmit(ti); } else { SuppressionAdd(ti, e.sequence); }
    }

    /** Puts a trace on the list of its destination. */
    method List(lists: array<seq<nat>>, id: nat, ghost picked: seq<nat>)
      requires Mirrors(sessions, destinations, r) && id in r.traces && Listed(lists[..], r.traces, picked, destinations)
      modifies lists
      ensures Listed(lists[..], r.traces, picked + [id], destinations)
    {
      var ti := TraceIndex(sessions, id);
      TableHas(sessions, id);
      var d := DestinationIndex(sessions[ti].trace.destination);
      ListedExtends(lists[..], r.traces, picked, destinations, id, d);
      lists[d] := lists[d] + [id];
    }

    /** Offers the event to a trace and lists it if it takes it. */
    method Visit(e: Event, id: nat, on: set<nat>, lists: array<seq<nat>>, ghost picked: seq<nat>)
      requires Valid() && id in r.traces && Listed(lists[..], r.traces, picked, destinations)
      modifies `r, `gauge, suppression, lists
      ensures Valid() && r == Turn(old(r), e, id, on)
      ensures Listed(lists[..], r.traces, if Takes(old(r), e, id, on) then picked + [id] else picked, destinations)
    {
      var taken := Offer(e, id, on);
      if taken { List(lists, id, picked); }
    }

    /** route_ids: summaries go out while the traces are visited, the event's own records after. */
    method Route(e: Event, ids: seq<nat>, on: set<nat>) returns (ok: bool)
      requires Valid()
      modifies `r, `gauge, suppression
      ensures Valid() && ok == (Known(old(r), ids) && Ascending(ids))
      ensures r == if ok then RouteIds(old(r), e, ids, on) else old(r)
    {
      ok := IdsValid(ids);
      if !ok { return; }
      ghost var was := r;
      ghost var picked := [];
      var lists := new seq<nat>[|destinations|](_ => []);
      for i := 0 to |ids|
        modifies `r, `gauge, suppression, lists
        invariant Valid() && r == Loop(was, e, ids[..i], on) && picked == Picked(was, e, ids[..i], on)
        invariant Listed(lists[..], was.traces, picked, destinations)
      {
        LoopNext(was, e, ids, i, on);
        Visit(e, ids[i], on, lists, picked);
        picked := Picked(was, e, ids[..i + 1], on);
      }
      assert ids[..|ids|] == ids;
      DeliverAll(lists, e.sequence, picked);
    }

    /** One record for every destination with a list. */
    method DeliverAll(lists: array<seq<nat>>, sequence: nat, ghost picked: seq<nat>)
      requires Valid() && Listed(lists[..], r.traces, picked, destinations)
      modifies `r, `gauge
      ensures Valid() && r == old(r).(out := old(r).out + Records(old(r).traces, picked, old(r).destinations, sequence))
    {
      var out := gauge.out;
      for d := 0 to lists.Length
        modifies {}
        invariant out == gauge.out + Records(r.traces, picked, destinations[..d], sequence)
      {
        RecordsNext(gauge.out, r.traces, picked, destinations, d, sequence);
        if |lists[d]| > 0 { out := out + [Delivered(destinations[d], lists[d], sequence)]; }
      }
      assert destinations[..|destinations|] == destinations;
      gauge := gauge.(out := out);
      r := r.(out := out);
    }

    /** emu_debug_trace_flush_selected, zero standing for all; the plain flush is both zero. */
    method FlushSelected(destination: nat, wanted: nat)
      requires Valid()
      modifies `r, `gauge, suppression
      ensures Valid() && r == FlushLoop(old(r), old(r).order, destination, wanted)
    {
      ghost var was := r;
      for ti := 0 to |sessions|
        invariant Valid() && r == FlushLoop(was, was.order[..ti], destination, wanted)
      {
        FlushNext(was, sessions, ti, destination, wanted);
        var s := sessions[ti];
        if (destination == 0 || s.trace.destination == destination) && (wanted == 0 || s.id == wanted) {
          SuppressionEmit(ti);
        }
      }
      assert was.order[..|was.order|] == was.order;
    }

    // ---- Reconfiguration ---------------------------------------------------------------------------------

    /** The first loop of the replacement: an active summary keeps its trace as it is. */
    method Blocked(c: seq<Session>) returns (busy: bool)
      requires Valid() && Sorted(c)
      ensures busy == !MayReplace(r, TableOf(c))
    {
      ghost var slots := suppression[..];
      FreeIsMayReplace(sessions, slots, c, r);
      for i := 0 to |sessions|
        invariant forall j :: 0 <= j < i ==> Kept(sessions, slots, c, j)
      {
        if suppression[i].active {
          var k := TraceIndex(c, sessions[i].id);
          if k < 0 || c[k].trace != sessions[i].trace {
            assert !Kept(sessions, slots, c, i);
            return true;
          }
        }
      }
      return false;
    }

    /** The second loop: identities that are new, unless one was used before. */
    method Admit(c: seq<Session>) returns (duplicate: bool, ids: seq<nat>)
      requires Valid() && Sorted(c)
      ensures duplicate == !Unseen(Newcomers(r.traces, Ids(c)), gauge.seen)
      ensures !duplicate ==> ids == Newcomers(r.traces, Ids(c))
    {
      ids := [];
      for i := 0 to |c|
        invariant ids == Newcomers(r.traces, Ids(c)[..i]) && Unseen(ids, gauge.seen)
      {
        assert Ids(c)[..i + 1][..i] == Ids(c)[..i];
        var k := TraceIndex(sessions, c[i].id);
        TableHas(sessions, c[i].id);
        if k < 0 {
          if c[i].id in gauge.seen {
            NewcomersHas(r.traces, Ids(c), c[i].id);
            assert Ids(c)[i] == c[i].id;
            return true, ids;
          }
          ids := ids + [c[i].id];
        }
      }
      assert Ids(c)[..|c|] == Ids(c);
      return false, ids;
    }

    /** The rebuild: each new position takes over the slot its trace had. */
    method CarrySlots(c: seq<Session>) returns (made: array<Slot>)
      requires |sessions| <= suppression.Length && Sorted(sessions) && |c| <= MAX_TRACES
      ensures fresh(made) && made.Length == MAX_TRACES && Rebuilt(sessions, suppression[..], c, made[..])
    {
      made := new Slot[MAX_TRACES](_ => IDLE);
      for i := 0 to |c|
        modifies made
        invariant forall j :: 0 <= j < i ==> made[j] == Carried(sessions, suppression[..], c[j])
        invariant forall j :: i <= j < MAX_TRACES ==> made[j] == IDLE
      {
        var k := TraceIndex(sessions, c[i].id);
        if k >= 0 && sessions[k].trace == c[i].trace { made[i] := suppression[k]; }
      }
    }

    /** By identity the summaries are the same after the rebuild exactly when the check passes. */
    method Rebuild(c: seq<Session>) returns (made: array<Slot>)
      requires Valid() && |c| <= MAX_TRACES
      ensures fresh(made) && made.Length == MAX_TRACES
      ensures SameViews(sessions, suppression[..], c, made[..]) <==> MayReplace(r, TableOf(c))
    {
      made := CarrySlots(c);
      RebuildKeepsViews(sessions, suppression[..], c, made[..]);
      FreeIsMayReplace(sessions, suppression[..], c, r);
    }

    method CopySlots(made: array<Slot>)
      requires made != suppression && made.Length == suppression.Length
      modifies suppression
      ensures suppression[..] == made[..]
    {
      for i := 0 to suppression.Length
        invariant forall j :: 0 <= j < i ==> suppression[j] == made[j]
      {
        suppression[i] := made[i];
      }
    }

    /** The new tables take over. */
    method Adopt(c: seq<Session>, ds: seq<nat>, made: array<Slot>, ids: seq<nat>)
      requires Valid() && SessionsValid(c, ds) && made != suppression && made.Length == MAX_TRACES
      requires SameViews(sessions, suppression[..], c, made[..]) && ids == Newcomers(r.traces, Ids(c))
      modifies this, suppression
      ensures Valid() && r == Replaced(old(r), ConfigOf(c, ds))
    {
      ViewsHeld(sessions, suppression[..], c, made[..], r.active);
      CopySlots(made);
      sessions, destinations := c, ds;
      gauge := gauge.(seen := gauge.seen + ids);
      r := Replaced(r, ConfigOf(c, ds));
    }

    /** em8051_debug_trace_router_replace. */
    method Replace(c: seq<Session>, ds: seq<nat>) returns (status: Status)
      requires Valid()
      modifies this, suppression
      ensures Valid() && status == ReplaceStatus(old(r), ConfigOf(c, ds))
      ensures r == TryReplace(old(r), ConfigOf(c, ds))
    {
      SessionsAreConfig(c, ds);
      if !SessionsValid(c, ds) { return InvalidArgument; }
      if gauge.open { return Busy; }
      var busy := Blocked(c);
      if busy { return Busy; }
      var duplicate, ids := Admit(c);
      if duplicate { return DuplicateId; }
      if |ids| > MAX_SEEN - |gauge.seen| { return NoRoom; }
      var made := Rebuild(c);
      Adopt(c, ds, made, ids);
      return Ok;
    }

    /** emu_debug_runtime_configure: a trial on a copy, the flush, the change. */
    method Reconfigure(c: seq<Session>, ds: seq<nat>) returns (status: Status)
      requires Valid()
      modifies this, suppression
      ensures Valid() && r == Configured(old(r), ConfigOf(c, ds))
      ensures status == ReplaceStatus(old(r).(active := map[]), ConfigOf(c, ds))
    {
      var trial := new RouterCell.Trial(sessions, destinations, gauge, r);
      status := trial.Replace(c, ds);
      if status != Ok { return; }
      ghost var was := r;
      FlushSelected(0, 0);
      FlushedAll(was, sessions);
      TrialDecides(was, ConfigOf(c, ds));
      status := Replace(c, ds);
    }
  }

  /** Nothing is active after a full flush, so the change meets what the trial met. */
  lemma FlushedAll(r: Router, ss: seq<Session>)
    requires Sorted(ss) && r.order == Ids(ss) && r.traces == TableOf(ss)
    requires forall id :: id in r.active ==> id in Ids(ss)
    ensures FlushLoop(r, r.order, 0, 0) == r.(active := map[], out := r.out + Summaries(r, r.order))
  {
    forall id ensures id in Ids(ss) <==> id in TableOf(ss) { InIds(ss, id); TableHas(ss, id); }
    FlushEmpties(r);
  }
}
