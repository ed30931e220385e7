/** The loss-recording rings of emu_trace_internal.c and emu_outcome_internal.c and the cursor pages
    readers take from them. A full ring gives up its two oldest records for one loss record, so
    that a new record fits; every record carries the next number of its epoch. The outcome ring
    is the case capacity 1024 that never stops on full. */
module TraceRing {
  import opened Counters

  datatype Kind = Event | Suppression | Loss

  /** `count` is how many source events the record stands for; a loss record carries the count of
      the real records it replaced. */
  datatype Record = Record(kind: Kind, number: nat, first: nat, last: nat, count: nat)

  /** `retained` holds the records oldest first; `stored`, `lost` and `excess` are the account of
      source events: ever stored, counted in loss records ever created, and beyond what a
      saturated loss count can say. `history` holds every record of the epoch ever inserted. */
  datatype Ring = Ring(retained: seq<Record>, next: nat, epoch: nat, overwritten: nat, dropped: nat,
                       capacity: nat, stopOnFull: bool,
                       history: seq<Record>, stored: nat, lost: nat, excess: nat)

  function Weight(r: Record): nat { if r.kind.Loss? then 0 else r.count }

  function Total(rs: seq<Record>): nat
    decreases |rs|
  {
    if rs == [] then 0 else Total(rs[..|rs| - 1]) + Weight(rs[|rs| - 1])
  }

  /** Folds one overwritten record into the loss record being made. */
  function Cover(loss: Record, r: Record): Record {
    var first := if r.kind.Loss? then 0 else r.first;
    var last := if r.kind.Loss? then 0 else r.last;
    loss.(first := if first > 0 && (loss.first == 0 || first < loss.first) then first else loss.first,
          last := if last > loss.last then last else loss.last,
          count := Saturate(loss.count, Weight(r)))
  }

  const EMPTY_LOSS: Record := Record(Loss, 0, 0, 0, 0)

  function LossOf(a: Record, b: Record): Record { Cover(Cover(EMPTY_LOSS, a), b) }

  /** ring_insert. */
  function Put(r: Ring, v: Record): Ring {
    var numbered := v.(number := r.next);
    r.(retained := r.retained + [numbered], next := Bump(r.next), history := r.history + [numbered])
  }

  predicate Full(r: Ring) { |r.retained| == r.capacity }

  predicate Spent(r: Ring) { r.next == 0 || (Full(r) && !r.stopOnFull && r.next >= U64_MAX) }

  /** What a saturated count does not say. */
  function Beyond(sum: nat): nat { if sum > U64_MAX then sum - U64_MAX else 0 }

  /** Makes room by replacing the two oldest records with a loss record. */
  function MakeRoom(r: Ring): Ring
    requires |r.retained| >= 2
  {
    var loss := LossOf(r.retained[0], r.retained[1]);
    var sum := Weight(r.retained[0]) + Weight(r.retained[1]);
    Put(r.(retained := r.retained[2..], overwritten := Saturate(Saturate(r.overwritten, 1), 1),
           lost := r.lost + loss.count, excess := r.excess + Beyond(sum)), loss)
  }

  /** ring_store; the boolean says whether the record was kept. */
  function Store(r: Ring, v: Record): (Ring, bool)
    requires r.capacity >= 2
  {
    if Spent(r) then (r, false)
    else if Full(r) && r.stopOnFull then (r.(dropped := Saturate(r.dropped, 1)), false)
    else
      var room := if Full(r) then MakeRoom(r) else r;
      (Put(room, v).(stored := room.stored + Weight(v)), true)
  }

  /** Stores records one by one. */
  function StoreAll(r: Ring, vs: seq<Record>): (t: Ring)
    requires r.capacity >= 2
    ensures t.capacity == r.capacity && t.stopOnFull == r.stopOnFull && t.epoch == r.epoch
    decreases |vs|
  {
    if vs == [] then r else Store(StoreAll(r, vs[..|vs| - 1]), vs[|vs| - 1]).0
  }

  /** How many records a ring is expected to hold once its pending summaries are in it. */
  function Expected(r: Ring, pending: nat): nat {
    if |r.retained| + pending > r.capacity then r.capacity else |r.retained| + pending
  }

  /** emu_trace_replace on one retained ring. Whether the new capacity suffices is decided first, on the
      expected count; then the flush stores the pending summaries, and the ring is copied. */
  function Reconfigured(r: Ring, pending: seq<Record>, capacity: nat, stopOnFull: bool): Ring
    requires r.capacity >= 2
  {
    if capacity < 2 || capacity < Expected(r, |pending|) then r
    else StoreAll(r, pending).(capacity := capacity, stopOnFull := stopOnFull)
  }

  /** clearTrace starts a new epoch. */
  function Clear(r: Ring): Ring {
    if r.epoch >= U64_MAX then r
    else r.(retained := [], next := 1, epoch := r.epoch + 1, overwritten := 0, dropped := 0,
            history := [], stored := 0, lost := 0, excess := 0)
  }

  // ---- Invariants -----------------------------------------------------------------------------------

  /** The number most recently given out. */
  function Newest(next: nat): nat { if next == 0 then U64_MAX else next - 1 }

  ghost predicate Numbered(history: seq<Record>) { forall k :: 0 <= k < |history| ==> history[k].number == k + 1 }

  /** What is retained is the end of the numbered history. */
  ghost predicate Suffix(rs: seq<Record>, history: seq<Record>) {
    |rs| <= |history| && rs == history[|history| - |rs|..]
  }

  ghost predicate NumbersOk(r: Ring) {
    && 2 <= r.capacity && |r.retained| <= r.capacity && r.next <= U64_MAX
    && |r.history| == Newest(r.next) && Numbered(r.history) && Suffix(r.retained, r.history)
    && (r.retained == [] ==> r.next == 1) && r.overwritten == Saturate(0, |r.history| - |r.retained|)
  }

  /** No two loss records are adjacent. */
  ghost predicate Apart(rs: seq<Record>) {
    && (forall i {:trigger rs[i].kind} :: 0 <= i < |rs| - 1 ==> !(rs[i].kind.Loss? && rs[i + 1].kind.Loss?))
    && (rs != [] ==> !rs[|rs| - 1].kind.Loss?)
  }

  predicate Real(r: Record) {
    r.kind.Loss? || (1 <= r.count <= U64_MAX && 1 <= r.first <= r.last && (r.kind.Event? ==> r.count == 1))
  }

  ghost predicate KindsOk(rs: seq<Record>) { Apart(rs) && forall i :: 0 <= i < |rs| ==> Real(rs[i]) }

  ghost predicate Balanced(r: Ring) { r.stored == Total(r.retained) + r.lost + r.excess }

  ghost predicate Inv(r: Ring) { NumbersOk(r) && KindsOk(r.retained) && Balanced(r) }

  lemma {:induction false} TotalSplit(a: seq<Record>, b: seq<Record>)
    ensures Total(a + b) == Total(a) + Total(b)
    decreases |b|
  {
    if b == [] { assert a + b == a; }
    else {
      assert (a + b)[..|a + b| - 1] == a + b[..|b| - 1];
      TotalSplit(a, b[..|b| - 1]);
    }
  }

  lemma TotalPair(rs: seq<Record>)
    requires |rs| >= 2
    ensures Total(rs) == Weight(rs[0]) + Weight(rs[1]) + Total(rs[2..])
  {
    assert rs == [rs[0], rs[1]] + rs[2..];
    TotalSplit([rs[0], rs[1]], rs[2..]);
    assert [rs[0], rs[1]][..1] == [rs[0]] && [rs[0]][..0] == [];
    assert Total([rs[0]]) == Weight(rs[0]);
  }

  /** A loss record made from two adjacent records stands for at least one real one and spans the
      source range of both; its count is exact unless it saturates. */
  lemma LossCovers(a: Record, b: Record)
    requires Real(a) && Real(b) && !(a.kind.Loss? && b.kind.Loss?)
    ensures var loss := LossOf(a, b);
            && loss.kind.Loss? && 1 <= loss.count && 1 <= loss.first <= loss.last
            && (!a.kind.Loss? ==> loss.first <= a.first && a.last <= loss.last)
            && (!b.kind.Loss? ==> loss.first <= b.first && b.last <= loss.last)
            && loss.count == Saturate(Weight(a), Weight(b))
  {
  }

  lemma PutNumbers(r: Ring, v: Record)
    requires 0 < r.next <= U64_MAX && |r.history| == Newest(r.next) && Numbered(r.history)
    requires Suffix(r.retained, r.history)
    ensures var t := Put(r, v);
            && |t.history| == Newest(t.next) && Numbered(t.history) && Suffix(t.retained, t.history)
            && |t.history| - |t.retained| == |r.history| - |r.retained|
  {
  }

  lemma RoomNumbers(r: Ring)
    requires NumbersOk(r) && Full(r) && 0 < r.next < U64_MAX
    ensures var m := MakeRoom(r);
            && |m.history| == Newest(m.next) && Numbered(m.history) && Suffix(m.retained, m.history)
            && m.overwritten == Saturate(0, |m.history| - |m.retained|)
  {
    var rest := r.(retained := r.retained[2..]);
    assert Suffix(rest.retained, r.history);
    PutNumbers(rest, LossOf(r.retained[0], r.retained[1]));
  }

  lemma StoreNumbers(r: Ring, v: Record)
    requires NumbersOk(r)
    ensures NumbersOk(Store(r, v).0)
  {
    if !Spent(r) && !(Full(r) && r.stopOnFull) {
      if Full(r) {
        RoomNumbers(r);
        PutNumbers(MakeRoom(r), v);
      } else {
        PutNumbers(r, v);
      }
    }
  }

  lemma ApartAfterRoom(rs: seq<Record>, m: seq<Record>, v: Record)
    requires Apart(rs) && |rs| >= 2 && |m| == |rs| - 1 && m[..|m| - 1] == rs[2..] && !v.kind.Loss?
    ensures Apart(m + [v])
  {
    var out := m + [v];
    forall i | 0 <= i < |out| - 1
      ensures !(out[i].kind.Loss? && out[i + 1].kind.Loss?)
    {
      if i + 1 < |m| - 1 {
        assert out[i] == rs[2..][i] == rs[i + 2] && out[i + 1] == rs[2..][i + 1] == rs[i + 3];
      } else if i + 1 == |m| - 1 {
        assert out[i] == rs[2..][i] == rs[i + 2];
        assert i + 2 == |rs| - 1;
      }
    }
  }

  lemma RealAfterRoom(rs: seq<Record>, m: seq<Record>)
    requires (forall i :: 0 <= i < |rs| ==> Real(rs[i])) && |rs| >= 2 && |m| == |rs| - 1 && m[..|m| - 1] == rs[2..]
    requires m[|m| - 1].kind.Loss?
    ensures forall i :: 0 <= i < |m| ==> Real(m[i])
  {
    forall i | 0 <= i < |m|
      ensures Real(m[i])
    {
      if i < |m| - 1 { assert m[i] == rs[2..][i] == rs[i + 2]; }
    }
  }

  lemma RoomShape(r: Ring)
    requires |r.retained| >= 2
    ensures var m := MakeRoom(r).retained;
            |m| == |r.retained| - 1 && m[..|m| - 1] == r.retained[2..] && m[|m| - 1].kind.Loss?
  {
  }

  lemma StoreKinds(r: Ring, v: Record)
    requires r.capacity >= 2 && KindsOk(r.retained) && Real(v) && !v.kind.Loss?
    ensures KindsOk(Store(r, v).0.retained)
  {
    if !Spent(r) && Full(r) && !r.stopOnFull {
      RoomShape(r);
      var m := MakeRoom(r);
      RealAfterRoom(r.retained, m.retained);
      ApartAfterRoom(r.retained, m.retained, v.(number := m.next));
    }
  }

  /** Making room moves the weight of the two oldest records into the loss account. */
  lemma RoomBalanced(r: Ring)
    requires Balanced(r) && |r.retained| >= 2
    ensures Balanced(MakeRoom(r))
  {
    var rs := r.retained;
    TotalPair(rs);
    TotalSplit(rs[2..], [LossOf(rs[0], rs[1]).(number := r.next)]);
  }

  lemma StoreBalanced(r: Ring, v: Record)
    requires r.capacity >= 2 && Balanced(r)
    ensures Balanced(Store(r, v).0)
  {
    if !Spent(r) && !(Full(r) && r.stopOnFull) {
      if Full(r) { RoomBalanced(r); }
      var room := if Full(r) then MakeRoom(r) else r;
      TotalSplit(room.retained, [v.(number := room.next)]);
    }
  }

  lemma StoreKeeps(r: Ring, v: Record)
    requires Inv(r) && Real(v) && !v.kind.Loss?
    ensures Inv(Store(r, v).0)
  {
    StoreNumbers(r, v);
    StoreKinds(r, v);
    StoreBalanced(r, v);
  }

  /** A record that is kept is the newest one retained, under the newest number. */
  lemma KeptIsNewest(r: Ring, v: Record)
    requires NumbersOk(r) && Store(r, v).1
    ensures var t := Store(r, v).0;
            t.retained != [] && t.retained[|t.retained| - 1] == v.(number := Newest(t.next))
                && t.stored == r.stored + Weight(v)
  {
    var room := if Full(r) then MakeRoom(r) else r;
    assert 0 < room.next <= U64_MAX && room.stored == r.stored;
    var t := Store(r, v).0;
    assert t.retained == room.retained + [v.(number := room.next)];
  }

  /** One that is not kept leaves the ring's records alone, which happens exactly when numbers or a
      stopping ring run out. */
  lemma StoreExact(r: Ring, v: Record)
    requires NumbersOk(r)
    ensures var t := Store(r, v);
            && t.1 == !(Spent(r) || (Full(r) && r.stopOnFull))
            && (t.1 ==> t.0.retained != [] && t.0.stored == r.stored + Weight(v))
            && (t.1 ==> t.0.retained[|t.0.retained| - 1] == v.(number := Newest(t.0.next)))
            && (!t.1 ==> t.0.retained == r.retained && t.0.next == r.next && t.0.stored == r.stored)
  {
    if Store(r, v).1 { KeptIsNewest(r, v); }
  }

  // ---- Reconfiguration ---------------------------------------------------------------------------------

  predicate Summaries(vs: seq<Record>) { forall i :: 0 <= i < |vs| ==> Real(vs[i]) && vs[i].kind.Suppression? }

  lemma {:induction false} StoreAllKeeps(r: Ring, vs: seq<Record>)
    requires Inv(r) && Summaries(vs)
    ensures Inv(StoreAll(r, vs))
    decreases |vs|
  {
    if vs != [] {
      StoreAllKeeps(r, vs[..|vs| - 1]);
      StoreKeeps(StoreAll(r, vs[..|vs| - 1]), vs[|vs| - 1]);
    }
  }

  /** A record stored makes the ring at most one longer, and never longer than its capacity. */
  lemma StoreLength(r: Ring, v: Record)
    requires 2 <= r.capacity && |r.retained| <= r.capacity
    ensures |Store(r, v).0.retained| == if Store(r, v).1 && !Full(r) then |r.retained| + 1 else |r.retained|
  {
    if Full(r) { RoomShape(r); }
  }

  lemma {:induction false} StoreAllFits(r: Ring, vs: seq<Record>)
    requires 2 <= r.capacity && |r.retained| <= r.capacity
    ensures |StoreAll(r, vs).retained| <= Expected(r, |vs|)
    decreases |vs|
  {
    if vs != [] {
      StoreAllFits(r, vs[..|vs| - 1]);
      StoreLength(StoreAll(r, vs[..|vs| - 1]), vs[|vs| - 1]);
    }
  }

  /** Numbers a ring can still give out. */
  function Left(next: nat): nat { if next == 0 || next > U64_MAX then 0 else U64_MAX - next + 1 }

  lemma StoreUses(r: Ring, v: Record)
    requires 2 <= r.capacity && |r.retained| <= r.capacity && r.next <= U64_MAX
    ensures Store(r, v).0.next <= U64_MAX && Left(Store(r, v).0.next) >= Left(r.next) - 2
    ensures Left(r.next) >= 2 ==> |Store(r, v).0.retained| == if Full(r) then r.capacity else |r.retained| + 1
  {
    StoreLength(r, v);
  }

  lemma {:induction false} StoreAllFills(r: Ring, vs: seq<Record>)
    requires 2 <= r.capacity && |r.retained| <= r.capacity && r.next <= U64_MAX && 2 * |vs| <= Left(r.next)
    ensures var t := StoreAll(r, vs);
            |t.retained| == Expected(r, |vs|) && t.next <= U64_MAX && Left(t.next) >= Left(r.next) - 2 * |vs|
    decreases |vs|
  {
    if vs != [] {
      StoreAllFills(r, vs[..|vs| - 1]);
      StoreUses(StoreAll(r, vs[..|vs| - 1]), vs[|vs| - 1]);
    }
  }

  /** The check made before the flush is about the ring after it: a capacity that passes holds every
      record the flush leaves, so the copy drops nothing; and while numbers last one that fails
      would not have held them. */
  lemma CheckForesees(r: Ring, pending: seq<Record>, capacity: nat)
    requires Inv(r)
    ensures capacity >= Expected(r, |pending|) ==> |StoreAll(r, pending).retained| <= capacity
    ensures 2 * |pending| <= Left(r.next)
        ==> (capacity >= Expected(r, |pending|) <==> |StoreAll(r, pending).retained| <= capacity)
  {
    StoreAllFits(r, pending);
    if 2 * |pending| <= Left(r.next) { StoreAllFills(r, pending); }
  }

  function Min(a: nat, b: nat): nat { if a < b then a else b }

  function Numbering(vs: seq<Record>, next: nat): (n: seq<Record>)
    ensures |n| == |vs| && forall i :: 0 <= i < |vs| ==> n[i] == vs[i].(number := next + i)
  {
    seq(|vs|, i requires 0 <= i < |vs| => vs[i].(number := next + i))
  }

  /** How many of `k` records fit behind what is retained. */
  function Fitting(r: Ring, k: nat): nat
    requires |r.retained| <= r.capacity
  {
    Min(k, Min(r.capacity - |r.retained|, Left(r.next)))
  }

  /** While there is room the records are appended under the next numbers. */
  ghost predicate Appended(r: Ring, vs: seq<Record>, kept: nat, t: Ring) {
    && kept <= |vs| && t.retained == r.retained + Numbering(vs[..kept], r.next)
    && t.next == if Left(r.next) == kept then 0 else r.next + kept
  }

  lemma AppendOne(r: Ring, vs: seq<Record>, kept: nat, t: Ring, v: Record)
    requires Appended(r, vs, kept, t) && kept == |vs| < Left(r.next) && r.next <= U64_MAX
    ensures Appended(r, vs + [v], kept + 1, Put(t, v))
  {
    assert vs[..kept] == vs && (vs + [v])[..kept + 1] == vs + [v];
    assert Numbering(vs + [v], r.next) == Numbering(vs, r.next) + [v.(number := r.next + kept)];
  }

  /** A stopping ring keeps the summaries it has room for, behind what it held; it drops the others and
      counts them, unless its numbers have run out. */
  ghost predicate StopsFull(r: Ring, vs: seq<Record>, t: Ring)
    requires |r.retained| <= r.capacity
  {
    var kept := Fitting(r, |vs|);
    && Appended(r, vs, kept, t)
    && t.dropped == if kept == |vs| || kept == Left(r.next) then r.dropped else Saturate(r.dropped, |vs| - kept)
  }

  lemma StopsFullStep(r: Ring, vs: seq<Record>, t: Ring, v: Record)
    requires r.stopOnFull && t.stopOnFull && t.capacity == r.capacity >= 2 && |r.retained| <= r.capacity
    requires r.next <= U64_MAX && StopsFull(r, vs, t)
    ensures StopsFull(r, vs + [v], Store(t, v).0)
  {
    var kept := Fitting(r, |vs|);
    if kept == |vs| && kept < r.capacity - |r.retained| && kept < Left(r.next) { AppendOne(r, vs, kept, t, v); }
    else { assert (vs + [v])[..kept] == vs[..kept]; }
  }

  lemma {:induction false} StoppingRingFlush(r: Ring, vs: seq<Record>)
    requires NumbersOk(r) && r.stopOnFull
    ensures StopsFull(r, vs, StoreAll(r, vs))
    decreases |vs|
  {
    if vs == [] { assert r.retained + Numbering([], r.next) == r.retained; }
    else {
      StoppingRingFlush(r, vs[..|vs| - 1]);
      StopsFullStep(r, vs[..|vs| - 1], StoreAll(r, vs[..|vs| - 1]), vs[|vs| - 1]);
      assert vs == vs[..|vs| - 1] + [vs[|vs| - 1]];
    }
  }

  /** Reconfiguring keeps the ring sound and drops no record: it changes nothing, or the new ring holds
      what the flush left in the old one. */
  lemma ReconfigureKeeps(r: Ring, pending: seq<Record>, capacity: nat, stopOnFull: bool)
    requires Inv(r) && Summaries(pending)
    ensures var t := Reconfigured(r, pending, capacity, stopOnFull);
            && Inv(t)
            && (t == r || (t.retained == StoreAll(r, pending).retained && |t.retained| <= capacity))
  {
    StoreAllKeeps(r, pending);
    StoreAllFits(r, pending);
  }

  // ---- Pages -------------------------------------------------------------------------------------------

  datatype Cursor = Current | Expired | Ahead | WrongEpoch | Refused

  datatype Page = Page(cursor: Cursor, records: seq<Record>, lostBefore: nat, nextAfter: nat, remaining: nat)

  function Oldest(r: Ring): nat { if r.retained == [] then 0 else r.retained[0].number }

  function Latest(r: Ring): nat { if r.retained == [] then 0 else r.retained[|r.retained| - 1].number }

  predicate IsExpired(r: Ring, after: nat) { Oldest(r) > 0 && after + 1 < Oldest(r) }

  function LostBefore(r: Ring, after: nat): nat { if IsExpired(r, after) then Oldest(r) - after - 1 else 0 }

  /** Where in the ring the page starts. */
  function Offset(r: Ring, after: nat): (offset: nat)
    ensures offset <= |r.retained|
  {
    if !IsExpired(r, after) && r.retained != [] && Oldest(r) <= after < Oldest(r) + |r.retained|
        then after - Oldest(r) + 1 else 0
  }

  function Required(r: Ring, after: nat, max: nat): (n: nat)
    ensures Offset(r, after) + n <= |r.retained| && n <= max
  {
    if |r.retained| - Offset(r, after) < max then |r.retained| - Offset(r, after) else max
  }

  /** emu_trace_page and emu_outcome_page for a well-formed request; `room` is how many records the
      caller's buffer holds. */
  function TakePage(r: Ring, epoch: nat, after: nat, max: nat, room: nat): Page {
    if epoch != r.epoch then Page(WrongEpoch, [], 0, after, 0)
    else if after > Latest(r) then Page(Ahead, [], 0, after, 0)
    else
      var offset, required := Offset(r, after), Required(r, after, max);
      var left := |r.retained| - offset;
      if room < required then Page(Refused, [], LostBefore(r, after), after, left)
      else
        var records := r.retained[offset..offset + required];
        Page(if IsExpired(r, after) then Expired else Current, records, LostBefore(r, after),
             if required > 0 then records[required - 1].number else after, left - required)
  }

  /** The page starts right after the cursor and what was lost before it. */
  lemma StartIs(r: Ring, after: nat)
    requires NumbersOk(r) && after <= |r.history|
    ensures after <= Latest(r)
    ensures |r.history| - |r.retained| + Offset(r, after) == after + LostBefore(r, after)
    ensures LostBefore(r, after) > 0 ==> Offset(r, after) == 0
  {
    var n := |r.retained|;
    if n > 0 {
      assert r.retained[0] == r.history[|r.history| - n] && r.retained[n - 1] == r.history[|r.history| - 1];
    }
  }

  lemma SliceIs(r: Ring, offset: nat, n: nat)
    requires NumbersOk(r) && offset + n <= |r.retained|
    ensures var base := |r.history| - |r.retained|;
            && r.retained[offset..offset + n] == r.history[base + offset..base + offset + n]
            && (n > 0 ==> r.retained[offset..offset + n][n - 1].number == base + offset + n)
  {
    var base := |r.history| - |r.retained|;
    if n > 0 { assert r.retained[offset + n - 1] == r.history[base + offset + n - 1]; }
  }

  /** A page either is refused for want of room or moves the cursor over exactly what it reports: the
      new cursor is the old one plus the records written plus the records lost before them, and
      the records are those of the numbers in between. An empty page means nothing is newer,
      unless none was asked for. */
  lemma PageAdvances(r: Ring, after: nat, max: nat, room: nat)
    requires NumbersOk(r) && after <= |r.history|
    ensures var p := TakePage(r, r.epoch, after, max, room);
            && !p.cursor.Ahead? && !p.cursor.WrongEpoch?
            && (p.records != [] ==> p.nextAfter == after + p.lostBefore + |p.records| <= |r.history|
                                    && p.records == r.history[after + p.lostBefore..p.nextAfter])
            && (p.lostBefore > 0 ==> after + p.lostBefore == |r.history| - |r.retained|)
            && (p.records == [] && max > 0 && !p.cursor.Refused? ==> after == |r.history| && p.lostBefore == 0)
            && (!p.cursor.Refused? ==>
                |p.records| <= max && p.remaining == |r.history| - (after + p.lostBefore) - |p.records|)
  {
    PageIs(r, after, max, room);
    RequiredIs(r, after, max);
  }

  /** How much of the history a page can show. */
  lemma RequiredIs(r: Ring, after: nat, max: nat)
    requires NumbersOk(r) && after <= |r.history|
    ensures var first := after + LostBefore(r, after);
            && first <= |r.history| && (LostBefore(r, after) > 0 ==> first == |r.history| - |r.retained| < |r.history|)
            && Required(r, after, max) == if |r.history| - first < max then |r.history| - first else max
  {
    StartIs(r, after);
  }

  /** A page in terms of the history. */
  lemma PageIs(r: Ring, after: nat, max: nat, room: nat)
    requires NumbersOk(r) && after <= |r.history|
    ensures var p := TakePage(r, r.epoch, after, max, room);
            var n := Required(r, after, max);
            var first := after + LostBefore(r, after);
            && p.lostBefore == LostBefore(r, after) && first + n <= |r.history|
            && (if room < n then p.cursor.Refused? && p.records == []
                else
                  && (p.cursor.Current? || p.cursor.Expired?) && p.records == r.history[first..first + n]
                  && p.nextAfter == (if n > 0 then first + n else after) && p.remaining == |r.history| - first - n)
  {
    StartIs(r, after);
    SliceIs(r, Offset(r, after), Required(r, after, max));
  }

  /** Asked for no records, an expired cursor hears of the loss and stays where it was, so the
      equation of PageAdvances needs a page that returns records or loses nothing. */
  lemma EquationExactly(r: Ring, after: nat, max: nat, room: nat)
    requires NumbersOk(r) && after <= |r.history| && !TakePage(r, r.epoch, after, max, room).cursor.Refused?
    ensures var p := TakePage(r, r.epoch, after, max, room);
            p.nextAfter == after + p.lostBefore + |p.records| <==> max > 0 || after + |r.retained| >= |r.history|
  {
    PageIs(r, after, max, room);
    RequiredIs(r, after, max);
  }

  // ---- A reader among writers -----------------------------------------------------------------------------

  datatype Fate = Seen(record: Record) | Missed

  /** `fates` is the reader's account: one entry for every number up to its cursor. */
  datatype Reader = Reader(epoch: nat, cursor: nat, fates: seq<Fate>)

  datatype World = World(ring: Ring, reader: Reader)

  datatype Step =
    | Append(record: Record)
    | Reconfigure(pending: seq<Record>, capacity: nat, stopOnFull: bool)
    | Wipe
    | Read(max: nat, room: nat)
    | Rejoin

  function SeenAll(rs: seq<Record>): (f: seq<Fate>)
    ensures |f| == |rs| && forall i :: 0 <= i < |rs| ==> f[i] == Seen(rs[i])
  {
    seq(|rs|, i requires 0 <= i < |rs| => Seen(rs[i]))
  }

  function MissedAll(n: nat): (f: seq<Fate>)
    ensures |f| == n && forall i :: 0 <= i < n ==> f[i] == Missed
  {
    seq(n, _ => Missed)
  }

  function Note(reader: Reader, p: Page): Reader {
    if p.records == [] then reader
    else reader.(cursor := p.nextAfter, fates := reader.fates + MissedAll(p.lostBefore) + SeenAll(p.records))
  }

  function Next(w: World, step: Step): World {
    match step
    case Append(v) => if v.kind.Loss? || !Real(v) || w.ring.capacity < 2 then w else w.(ring := Store(w.ring, v).0)
    case Reconfigure(pending, capacity, stopOnFull) =>
      if !Summaries(pending) || w.ring.capacity < 2 then w
      else w.(ring := Reconfigured(w.ring, pending, capacity, stopOnFull))
    case Wipe => w.(ring := Clear(w.ring))
    case Read(max, room) => w.(reader := Note(w.reader, TakePage(w.ring, w.reader.epoch, w.reader.cursor, max, room)))
    case Rejoin => if w.reader.epoch == w.ring.epoch then w else w.(reader := Reader(w.ring.epoch, 0, []))
  }

  ghost predicate ReaderOk(w: World) {
    && w.reader.epoch <= w.ring.epoch
    && (w.reader.epoch == w.ring.epoch ==> Faithful(w.ring, w.reader))
  }

  /** Every number up to the cursor was seen as the record it belongs to, or was missed because
      that record was overwritten. */
  ghost predicate Faithful(r: Ring, reader: Reader) {
    && |reader.fates| == reader.cursor <= |r.history|
    && forall k :: 0 <= k < reader.cursor ==>
         (if reader.fates[k].Seen? then reader.fates[k].record == r.history[k] else k < |r.history| - |r.retained|)
  }

  lemma StoreGrows(r: Ring, v: Record)
    requires r.capacity >= 2
    ensures var t := Store(r, v).0;
            && r.history <= t.history && t.epoch == r.epoch && t.capacity == r.capacity
            && |t.history| - |t.retained| >= |r.history| - |r.retained|
  {
  }

  lemma {:induction false} StoreAllGrows(r: Ring, vs: seq<Record>)
    requires r.capacity >= 2
    ensures var t := StoreAll(r, vs);
            && r.history <= t.history && |t.history| - |t.retained| >= |r.history| - |r.retained|
    decreases |vs|
  {
    if vs != [] {
      StoreAllGrows(r, vs[..|vs| - 1]);
      StoreGrows(StoreAll(r, vs[..|vs| - 1]), vs[|vs| - 1]);
    }
  }

  lemma NoteKeeps(r: Ring, reader: Reader, p: Page)
    requires Faithful(r, reader) && p.records != []
    requires p.nextAfter == reader.cursor + p.lostBefore + |p.records| <= |r.history|
    requires p.records == r.history[reader.cursor + p.lostBefore..p.nextAfter]
    requires p.lostBefore > 0 ==> reader.cursor + p.lostBefore <= |r.history| - |r.retained|
    ensures Faithful(r, Note(reader, p))
  {
    var t := Note(reader, p);
    forall k | 0 <= k < t.cursor
      ensures if t.fates[k].Seen? then t.fates[k].record == r.history[k] else k < |r.history| - |r.retained|
    {
      if k >= reader.cursor + p.lostBefore {
        assert t.fates[k] == Seen(p.records[k - reader.cursor - p.lostBefore]);
      }
    }
  }

  lemma ReadKeeps(w: World, max: nat, room: nat)
    requires NumbersOk(w.ring) && ReaderOk(w)
    ensures ReaderOk(Next(w, Read(max, room)))
  {
    if w.reader.epoch == w.ring.epoch {
      PageAdvances(w.ring, w.reader.cursor, max, room);
      var p := TakePage(w.ring, w.reader.epoch, w.reader.cursor, max, room);
      if p.records != [] { NoteKeeps(w.ring, w.reader, p); }
    }
  }

  lemma AppendKeepsReader(w: World, v: Record)
    requires w.ring.capacity >= 2 && ReaderOk(w)
    ensures ReaderOk(w.(ring := Store(w.ring, v).0))
  {
    StoreGrows(w.ring, v);
  }

  lemma NextKeepsInv(w: World, step: Step)
    requires Inv(w.ring) && ReaderOk(w)
    ensures Inv(Next(w, step).ring) && ReaderOk(Next(w, step))
  {
    if step.Append? && !step.record.kind.Loss? && Real(step.record) {
      StoreKeeps(w.ring, step.record);
      AppendKeepsReader(w, step.record);
    } else if step.Reconfigure? && Summaries(step.pending) {
      ReconfigureKeeps(w.ring, step.pending, step.capacity, step.stopOnFull);
      StoreAllGrows(w.ring, step.pending);
    } else if step.Read? {
      ReadKeeps(w, step.max, step.room);
    }
  }

  ghost predicate Steady(w: World) { Inv(w.ring) && ReaderOk(w) }

  function Run(w: World, steps: seq<Step>): World
    decreases |steps|
  {
    if steps == [] then w else Next(Run(w, steps[..|steps| - 1]), steps[|steps| - 1])
  }

  lemma {:induction false} RunKeepsInv(w: World, steps: seq<Step>)
    requires Steady(w)
    ensures Steady(Run(w, steps))
    decreases |steps|
  {
    if steps != [] {
      RunKeepsInv(w, steps[..|steps| - 1]);
      NextKeepsInv(Run(w, steps[..|steps| - 1]), steps[|steps| - 1]);
    }
  }

  function Fresh(capacity: nat, stopOnFull: bool): World {
    World(Ring([], 1, 1, 0, 0, capacity, stopOnFull, [], 0, 0, 0), Reader(1, 0, []))
  }

  lemma FreshOk(capacity: nat, stopOnFull: bool)
    requires capacity >= 2
    ensures Steady(Fresh(capacity, stopOnFull))
  {
  }

  /** Retained records carry consecutive numbers ending at the newest, no two loss records are
      adjacent, and the weight ever stored is what is retained plus what loss records counted
      plus what saturated counts could not say. */
  ghost predicate Accounted(r: Ring) {
    && (forall i :: 0 <= i < |r.retained| ==> r.retained[i].number == Newest(r.next) - |r.retained| + 1 + i)
    && Apart(r.retained)
    && r.stored == Total(r.retained) + r.lost + r.excess
    && |r.retained| <= |r.history| && r.overwritten == Saturate(0, |r.history| - |r.retained|)
  }

  lemma InvAccounts(r: Ring)
    requires Inv(r)
    ensures Accounted(r)
  {
  }

  lemma RingAccounts(w: World, steps: seq<Step>)
    requires Steady(w)
    ensures Accounted(Run(w, steps).ring)
  {
    RunKeepsInv(w, steps);
    InvAccounts(Run(w, steps).ring);
  }

  /** The reader was given every number of the epoch up to its cursor exactly once, as the record
      stored under it, or was told once that it was lost, and then it is retained no more. */
  ghost predicate Complete(w: World) {
    && |w.reader.fates| == w.reader.cursor <= |w.ring.history| == Newest(w.ring.next)
    && (forall k :: 0 <= k < w.reader.cursor && w.reader.fates[k].Seen? ==>
          w.reader.fates[k].record == w.ring.history[k] && w.ring.history[k].number == k + 1)
    && (forall k, i :: 0 <= k < w.reader.cursor && w.reader.fates[k].Missed? && 0 <= i < |w.ring.retained| ==>
          w.ring.retained[i].number != k + 1)
  }

  lemma FaithfulComplete(w: World)
    requires NumbersOk(w.ring) && Faithful(w.ring, w.reader)
    ensures Complete(w)
  {
    var base := |w.ring.history| - |w.ring.retained|;
    assert forall i :: 0 <= i < |w.ring.retained| ==> w.ring.retained[i] == w.ring.history[base + i];
  }

  /** Whatever is appended meanwhile, a paging reader misses nothing silently. */
  lemma ReaderMissesNothing(w: World, steps: seq<Step>)
    requires Steady(w) && Run(w, steps).reader.epoch == Run(w, steps).ring.epoch
    ensures Complete(Run(w, steps))
  {
    RunKeepsInv(w, steps);
    FaithfulComplete(Run(w, steps));
  }

  // ---- The outcome ring: events only ---------------------------------------------------------------------

  ghost predicate EventsOnly(steps: seq<Step>) {
    forall k :: 0 <= k < |steps| ==> (steps[k].Append? ==> steps[k].record.kind.Event?) && !steps[k].Reconfigure?
  }

  ghost predicate Light(r: Ring) { r.excess == 0 && forall i :: 0 <= i < |r.retained| ==> Weight(r.retained[i]) <= 1 }

  lemma RoomStaysLight(r: Ring)
    requires Light(r) && |r.retained| >= 2
    ensures Light(MakeRoom(r))
  {
    RoomShape(r);
    var m := MakeRoom(r).retained;
    forall i | 0 <= i < |m|
      ensures Weight(m[i]) <= 1
    {
      if i < |m| - 1 { assert m[i] == r.retained[2..][i] == r.retained[i + 2]; }
    }
  }

  lemma StoreStaysLight(r: Ring, v: Record)
    requires Light(r) && r.capacity >= 2 && Weight(v) <= 1
    ensures Light(Store(r, v).0)
  {
    if Full(r) { RoomStaysLight(r); }
  }

  lemma NextStaysLight(w: World, step: Step)
    requires Light(w.ring) && (step.Append? ==> step.record.kind.Event?) && !step.Reconfigure?
    ensures Light(Next(w, step).ring)
  {
    if step.Append? && Real(step.record) && w.ring.capacity >= 2 { StoreStaysLight(w.ring, step.record); }
  }

  /** A ring of events counts exactly. */
  lemma {:induction false} OutcomesCountExactly(w: World, steps: seq<Step>)
    requires Steady(w) && Light(w.ring) && EventsOnly(steps)
    ensures Light(Run(w, steps).ring)
    ensures Run(w, steps).ring.stored == Total(Run(w, steps).ring.retained) + Run(w, steps).ring.lost
    decreases |steps|
  {
    RunKeepsInv(w, steps);
    if steps != [] {
      OutcomesCountExactly(w, steps[..|steps| - 1]);
      RunKeepsInv(w, steps[..|steps| - 1]);
      NextStaysLight(Run(w, steps[..|steps| - 1]), steps[|steps| - 1]);
    }
  }
}
