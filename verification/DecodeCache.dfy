/** The predecessor cache and the decode window of emu_decode_internal.c. CODE is held: `size` gives
    the length of the instruction at an address, zero where none can be decoded. */
module DecodeCache {
  const CODE: nat := 65536
  const WINDOW: nat := 256

  type Sizes = nat -> nat

  datatype Cache = Cache(known: seq<bool>, predecessor: seq<nat>)

  datatype Decoded = Decoded(address: nat, size: nat, valid: bool)

  datatype Status = Ok | InvalidArgument | Range

  /** decode_record succeeds. */
  predicate Decodes(size: Sizes, a: nat) { a < CODE && size(a) > 0 && a + size(a) <= CODE }

  /** Every known predecessor is an instruction that ends where it is a predecessor of. */
  ghost predicate CacheOk(size: Sizes, c: Cache) {
    && |c.known| == |c.predecessor| == CODE
    && forall a :: 0 <= a < CODE && c.known[a] ==>
        c.predecessor[a] < a && c.predecessor[a] + size(c.predecessor[a]) == a
  }

  // ---- Walking ------------------------------------------------------------------------------------

  datatype Place = Nowhere | At(cursor: nat, known: bool)

  /** One step back: to the known predecessor, or by one byte once one was unknown. */
  function StepBack(c: Cache, p: Place): Place
    requires |c.known| == |c.predecessor| == CODE
  {
    if p.Nowhere? || p.cursor >= CODE then Nowhere
    else if p.known && c.known[p.cursor] then At(c.predecessor[p.cursor], true)
    else if p.cursor == 0 then Nowhere
    else At(p.cursor - 1, false)
  }

  function Back(c: Cache, base: nat, k: nat): Place
    requires |c.known| == |c.predecessor| == CODE
    decreases k
  {
    if k == 0 then At(base, true) else StepBack(c, Back(c, base, k - 1))
  }

  /** The record met after `k` steps back. */
  function Behind(size: Sizes, c: Cache, base: nat, k: nat): Decoded
    requires |c.known| == |c.predecessor| == CODE && Back(c, base, k).At?
  {
    var p := Back(c, base, k);
    if p.known then Decoded(p.cursor, size(p.cursor), true) else Decoded(p.cursor, 1, false)
  }

  /** One instruction on. */
  function StepOn(size: Sizes, p: Place): Place {
    if p.Nowhere? || !Decodes(size, p.cursor) then Nowhere else At(p.cursor + size(p.cursor), true)
  }

  function Ahead(size: Sizes, a: nat, n: nat): Place
    decreases n
  {
    if n == 0 then At(a, true) else StepOn(size, Ahead(size, a, n - 1))
  }

  lemma {:induction false} AheadPrefix(size: Sizes, a: nat, n: nat, m: nat)
    requires n <= m && Ahead(size, a, m).At?
    ensures Ahead(size, a, n).At? && (n < m ==> Decodes(size, Ahead(size, a, n).cursor))
    decreases m
  {
    if n < m { AheadPrefix(size, a, n, m - 1); }
  }

  lemma {:induction false} AheadSplit(size: Sizes, a: nat, n: nat, m: nat)
    requires Ahead(size, a, n).At?
    ensures Ahead(size, a, n + m) == Ahead(size, Ahead(size, a, n).cursor, m)
    decreases m
  {
    if m > 0 { AheadSplit(size, a, n, m - 1); }
    else {
      AheadKnown(size, a, n);
    }
  }

  lemma {:induction false} AheadKnown(size: Sizes, a: nat, n: nat)
    requires Ahead(size, a, n).At?
    ensures Ahead(size, a, n).known
  {
    if n > 0 { assert Ahead(size, a, n) == StepOn(size, Ahead(size, a, n - 1)); }
  }

  lemma {:induction false} BackPrefix(c: Cache, base: nat, k: nat, n: nat)
    requires |c.known| == |c.predecessor| == CODE && k <= n && Back(c, base, n).At?
    ensures Back(c, base, k).At?
    decreases n
  {
    if k < n { BackPrefix(c, base, k, n - 1); }
  }

  /** Walking back tiles: each record met ends where the one met before begins, and once a
      predecessor was unknown every further one is. */
  lemma BehindTiles(size: Sizes, c: Cache, base: nat, k: nat)
    requires CacheOk(size, c) && base < CODE && Back(c, base, k + 1).At?
    ensures Back(c, base, k).At? && Back(c, base, k).cursor < CODE
    ensures var r := Behind(size, c, base, k + 1);
            && r.address + r.size == Back(c, base, k).cursor && r.size > 0
            && (!Back(c, base, k).known ==> !r.valid)
  {
    BackPrefix(c, base, k, k + 1);
  }

  // ---- What a window is ----------------------------------------------------------------------------

  /** When a request has an answer: the base lies in CODE, the walk back does not run below zero, and
      every instruction walked over or shown decodes. */
  ghost predicate Answerable(size: Sizes, c: Cache, base: int, offset: int, count: nat)
    requires |c.known| == |c.predecessor| == CODE
  {
    && 0 <= base < CODE
    && (offset >= 0 ==> Ahead(size, base, offset + count).At?)
    && (offset < 0 ==> Back(c, base, -offset).At?)
    && (offset < 0 ==> Ahead(size, base, if count > -offset then count + offset else 0).At?)
  }

  /** The record a window shows at index `i`. */
  ghost function Shown(size: Sizes, c: Cache, base: nat, offset: int, i: nat): Decoded
    requires |c.known| == |c.predecessor| == CODE
  {
    if offset < 0 && i < -offset then
      (if Back(c, base, -offset - i).At? then Behind(size, c, base, -offset - i) else Decoded(0, 0, false))
    else
      var p := Ahead(size, base, offset + i);
      if p.At? then Decoded(p.cursor, size(p.cursor), true) else Decoded(0, 0, false)
  }

  ghost predicate Window(size: Sizes, c: Cache, base: nat, offset: int, records: seq<Decoded>)
    requires |c.known| == |c.predecessor| == CODE
  {
    forall i :: 0 <= i < |records| ==> records[i] == Shown(size, c, base, offset, i)
  }

  ghost predicate Joined(records: seq<Decoded>, i: nat)
    requires i + 1 < |records|
  {
    && records[i].address + records[i].size == records[i + 1].address && records[i].size > 0
    && (!records[i + 1].valid ==> !records[i].valid)
  }

  /** Neighbouring records of a window meet without gap or overlap, and only a first part of it, walked
      back over byte by byte, is not decoded. */
  lemma WindowJoined(size: Sizes, c: Cache, base: nat, offset: int, records: seq<Decoded>, i: nat)
    requires CacheOk(size, c) && Answerable(size, c, base, offset, |records|) && Window(size, c, base, offset, records)
    requires i + 1 < |records|
    ensures Joined(records, i)
  {
    if offset < 0 && i < -offset {
      BackPrefix(c, base, -offset - i, -offset);
      BehindJoined(size, c, base, -offset - i - 1, offset, i, records);
    } else {
      AheadPrefix(size, base, offset + i, |records| + offset);
      AheadPrefix(size, base, offset + i + 1, |records| + offset);
      AheadJoined(size, c, base, offset, i, records);
    }
  }

  lemma BehindJoined(size: Sizes, c: Cache, base: nat, k: nat, offset: int, i: nat, records: seq<Decoded>)
    requires CacheOk(size, c) && base < CODE && Back(c, base, k + 1).At? && k + 1 + i == -offset && i + 1 < |records|
    requires records[i] == Shown(size, c, base, offset, i) && records[i + 1] == Shown(size, c, base, offset, i + 1)
    ensures Joined(records, i)
  {
    BehindTiles(size, c, base, k);
    if k == 0 { assert Back(c, base, 0) == At(base, true) && Ahead(size, base, 0) == At(base, true); }
  }

  lemma AheadJoined(size: Sizes, c: Cache, base: nat, offset: int, i: nat, records: seq<Decoded>)
    requires |c.known| == |c.predecessor| == CODE && offset + i >= 0 && i + 1 < |records|
    requires Ahead(size, base, offset + i).At? && Decodes(size, Ahead(size, base, offset + i).cursor)
    requires Ahead(size, base, offset + i + 1).At?
    requires records[i] == Shown(size, c, base, offset, i) && records[i + 1] == Shown(size, c, base, offset, i + 1)
    ensures Joined(records, i)
  {
  }

  /** A window is a gap-free tiling anchored at the base: the record `offset` instructions away from
      it is first, and the one at the base is where the offset says. */
  lemma WindowTiles(size: Sizes, c: Cache, base: nat, offset: int, records: seq<Decoded>)
    requires CacheOk(size, c) && Answerable(size, c, base, offset, |records|) && Window(size, c, base, offset, records)
    ensures forall i: nat :: i + 1 < |records| ==> Joined(records, i)
    ensures offset <= 0 && -offset < |records| ==> records[-offset].address == base
    ensures offset > 0 && records != [] ==> Ahead(size, base, offset) == At(records[0].address, true)
  {
    forall i: nat | i + 1 < |records|
      ensures Joined(records, i)
    {
      WindowJoined(size, c, base, offset, records, i);
    }
    if offset > 0 && records != [] {
      AheadPrefix(size, base, offset, offset + |records|);
      AheadKnown(size, base, offset);
    }
  }

  /** The record of the instruction `i` instructions on. */
  ghost predicate Stands(size: Sizes, from: nat, i: nat, r: Decoded) {
    Ahead(size, from, i) == At(r.address, true) && r == Decoded(r.address, size(r.address), true)
        && Decodes(size, r.address)
  }

  /** The record met `i` steps before the last of `steps` steps back. */
  ghost predicate Met(size: Sizes, c: Cache, base: nat, steps: nat, i: nat, r: Decoded)
    requires |c.known| == |c.predecessor| == CODE
  {
    i <= steps && Back(c, base, steps - i).At? && r == Behind(size, c, base, steps - i)
  }

  /** Decoded records, each of which tells the predecessor of its end. */
  ghost predicate Teaches(size: Sizes, records: seq<Decoded>) {
    forall i :: 0 <= i < |records| ==> Decodes(size, records[i].address) && records[i].size == size(records[i].address)
  }

  // ---- In place -------------------------------------------------------------------------------------------

  class History {
    const known: array<bool>
    const predecessor: array<nat>

    ghost predicate Valid()
      reads this
    {
      known.Length == predecessor.Length == CODE
    }

    ghost function View(): Cache
      reads this, known, predecessor
    {
      Cache(known[..], predecessor[..])
    }

    constructor ()
      ensures Valid() && fresh(known) && fresh(predecessor) && forall a :: 0 <= a < CODE ==> !known[a]
    {
      known := new bool[CODE](_ => false);
      predecessor := new nat[CODE](_ => 0);
    }

    /** Enters one instruction and where it ends. */
    method Learn(size: Sizes, pc: nat, end: nat)
      requires Valid() && CacheOk(size, View()) && pc < end < CODE && pc + size(pc) == end
      modifies known, predecessor
      ensures CacheOk(size, View())
      ensures forall a :: 0 <= a < CODE ==> known[a] == (old(known[a]) || a == end)
      ensures forall a :: 0 <= a < CODE ==> predecessor[a] == if a == end then pc else old(predecessor[a])
    {
      predecessor[end] := pc;
      known[end] := true;
    }

    /** emu_decode_completed: an instruction that ran on to the next address is remembered. */
    method Completed(size: Sizes, pc: nat, n: nat, resulting: nat)
      requires Valid() && CacheOk(size, View()) && pc < CODE && n == size(pc)
      modifies known, predecessor
      ensures CacheOk(size, View())
      ensures forall a :: 0 <= a < CODE && !(n > 0 && a == resulting == pc + n) ==>
                known[a] == old(known[a]) && predecessor[a] == old(predecessor[a])
      ensures n > 0 && pc + n == resulting < CODE ==> known[resulting] && predecessor[resulting] == pc
    {
      if n != 0 && pc + n < CODE && resulting == pc + n { Learn(size, pc, resulting); }
    }

    /** The backward loop: all steps are taken, the last `keep` records met are kept, in address order. */
    method WalkBack(size: Sizes, base: nat, steps: nat, keep: nat) returns (ok: bool, records: seq<Decoded>)
      requires Valid() && CacheOk(size, View()) && base < CODE && keep <= steps
      ensures ok == Back(View(), base, steps).At?
      ensures ok ==> |records| == keep && forall i :: 0 <= i < keep ==>
          records[i] == Shown(size, View(), base, 0 - steps, i)
    {
      var cursor: nat, sure := base, true;
      records := [];
      for step := 0 to steps
        invariant Back(View(), base, step) == At(cursor, sure) && cursor < CODE
        invariant |records| == if step > steps - keep then step - (steps - keep) else 0
        invariant forall i :: 0 <= i < |records| ==> Met(size, View(), base, step, i, records[i])
      {
        var record: Decoded;
        if sure && known[cursor] {
          cursor := predecessor[cursor];
          record := Decoded(cursor, size(cursor), true);
        } else {
          sure := false;
          if cursor == 0 {
            Gone(View(), base, step + 1, steps);
            return false, [];
          }
          cursor := cursor - 1;
          record := Decoded(cursor, 1, false);
        }
        if step >= steps - keep {
          ghost var before := records;
          records := [record] + records;
          forall i | 0 <= i < |records|
            ensures Met(size, View(), base, step + 1, i, records[i])
          {
            if i > 0 { assert Met(size, View(), base, step, i - 1, before[i - 1]); }
          }
        }
      }
      ok := true;
      assert forall i :: 0 <= i < keep ==> Met(size, View(), base, steps, i, records[i]);
    }

    /** The skipping loop of a forward window. */
    method SkipAhead(size: Sizes, base: nat, n: nat) returns (ok: bool, cursor: nat)
      requires base < CODE
      ensures ok == (Ahead(size, base, n).At? && Ahead(size, base, n).cursor < CODE)
      ensures ok ==> Ahead(size, base, n) == At(cursor, true)
    {
      cursor := base;
      for step := 0 to n
        invariant Ahead(size, base, step) == At(cursor, true) && cursor < CODE
      {
        if !Decodes(size, cursor) || cursor + size(cursor) >= CODE {
          if !Decodes(size, cursor) || step + 1 < n { Stuck(size, base, step + 1, n); }
          return false, cursor;
        }
        cursor := cursor + size(cursor);
      }
      ok := true;
    }

    /** The output loop: `m` instructions from the cursor on. */
    method ShowAhead(size: Sizes, from: nat, m: nat) returns (ok: bool, records: seq<Decoded>)
      requires from < CODE
      ensures ok == Ahead(size, from, m).At?
      ensures ok ==> |records| == m
      ensures ok ==> forall i :: 0 <= i < m ==> Stands(size, from, i, records[i])
    {
      var cursor: nat := from;
      records := [];
      for output := 0 to m
        invariant Ahead(size, from, output) == At(cursor, true) && |records| == output
        invariant forall i :: 0 <= i < output ==> Stands(size, from, i, records[i])
      {
        if !Decodes(size, cursor) {
          Stuck(size, from, output + 1, m);
          return false, [];
        }
        records := records + [Decoded(cursor, size(cursor), true)];
        cursor := cursor + size(cursor);
      }
      ok := true;
    }

    /** The commit loop: only a whole window teaches the cache. */
    method CommitAll(size: Sizes, records: seq<Decoded>)
      requires Valid() && CacheOk(size, View())
      requires Teaches(size, records)
      modifies known, predecessor
      ensures CacheOk(size, View())
      ensures forall a :: 0 <= a < CODE && old(known[a]) ==> known[a]
      ensures forall i :: 0 <= i < |records| && records[i].address + records[i].size < CODE ==>
          known[records[i].address + records[i].size]
    {
      for i := 0 to |records|
        invariant CacheOk(size, View())
        invariant forall a :: 0 <= a < CODE && old(known[a]) ==> known[a]
        invariant forall j :: 0 <= j < i && records[j].address + records[j].size < CODE ==>
            known[records[j].address + records[j].size]
      {
        var next := records[i].address + records[i].size;
        if next < CODE { Learn(size, records[i].address, next); }
      }
    }

    /** A window that reaches back; `shown` is its forward part. */
    method GatherBack(size: Sizes, base: nat, back: nat, count: nat) returns (ok: bool, records: seq<Decoded>,
                      shown: seq<Decoded>)
      requires Valid() && CacheOk(size, View()) && base < CODE && back > 0
      ensures ok == Answerable(size, View(), base, 0 - back, count)
      ensures ok ==> |records| == count && Window(size, View(), base, 0 - back, records) && Teaches(size, shown)
    {
      var keep := if back < count then back else count;
      var behind: seq<Decoded>;
      shown, records := [], [];
      ok, behind := WalkBack(size, base, back, keep);
      if !ok { return; }
      ok, shown := ShowAhead(size, base, count - keep);
      if ok { records := behind + shown; }
    }

    /** A window from the base on. */
    method GatherAhead(size: Sizes, base: nat, skip: nat, count: nat) returns (ok: bool, records: seq<Decoded>)
      requires Valid() && base < CODE && count > 0
      ensures ok == Answerable(size, View(), base, skip, count)
      ensures ok ==> |records| == count && Window(size, View(), base, skip, records) && Teaches(size, records)
    {
      var cursor: nat;
      records := [];
      ok, cursor := SkipAhead(size, base, skip);
      if !ok {
        SkipFails(size, base, skip, count);
        return;
      }
      AheadSplit(size, base, skip, count);
      ok, records := ShowAhead(size, cursor, count);
      if ok {
        forall i | 0 <= i < count
          ensures records[i] == Shown(size, View(), base, skip, i)
        {
          AheadSplit(size, base, skip, i);
          assert Stands(size, cursor, i, records[i]);
        }
      }
    }

    /** emu_decode_window. It answers exactly the answerable requests; a refused one changes neither
        cache nor output. */
    method Decode(size: Sizes, reference: nat, byteOffset: int, offset: int, count: nat) returns (status: Status,
                  records: seq<Decoded>)
      requires Valid() && CacheOk(size, View())
      modifies known, predecessor
      ensures CacheOk(size, View())
      ensures status.InvalidArgument?
          <==> count == 0 || count > WINDOW || !(-65536 <= byteOffset <= 65536) || !(-65536 <= offset <= 65536)
      ensures !status.InvalidArgument? ==>
          (status.Ok? <==> Answerable(size, old(View()), reference + byteOffset, offset, count))
      ensures status.Ok? ==> |records| == count && Window(size, old(View()), reference + byteOffset, offset, records)
      ensures !status.Ok? ==> records == [] && View() == old(View())
      ensures forall a :: 0 <= a < CODE && old(known[a]) ==> known[a]
    {
      records := [];
      if count == 0 || count > WINDOW || byteOffset < -65536 || byteOffset > 65536 || offset < -65536
          || offset > 65536 {
        return InvalidArgument, [];
      }
      if reference + byteOffset < 0 || reference + byteOffset >= CODE { return Range, []; }
      var base: nat := reference + byteOffset;
      var ok: bool, shown: seq<Decoded>;
      if offset < 0 {
        ok, records, shown := GatherBack(size, base, 0 - offset, count);
      } else {
        ok, records := GatherAhead(size, base, offset, count);
        shown := records;
      }
      if !ok { return Range, []; }
      CommitAll(size, shown);
      status := Ok;
    }
  }

  lemma {:induction false} Gone(c: Cache, base: nat, k: nat, n: nat)
    requires |c.known| == |c.predecessor| == CODE && k <= n && Back(c, base, k).Nowhere?
    ensures Back(c, base, n).Nowhere?
    decreases n
  {
    if k < n { Gone(c, base, k, n - 1); }
  }

  lemma {:induction false} Stuck(size: Sizes, a: nat, k: nat, n: nat)
    requires k <= n && (Ahead(size, a, k).Nowhere? || (Ahead(size, a, k).cursor >= CODE && k < n))
    ensures Ahead(size, a, n).Nowhere?
    decreases n
  {
    if k < n && (Ahead(size, a, k).Nowhere? || k < n - 1) { Stuck(size, a, k, n - 1); }
  }

  lemma SkipFails(size: Sizes, base: nat, offset: nat, count: nat)
    requires count > 0 && !(Ahead(size, base, offset).At? && Ahead(size, base, offset).cursor < CODE)
    ensures Ahead(size, base, offset + count).Nowhere?
  {
    Stuck(size, base, offset, offset + count);
  }
}
