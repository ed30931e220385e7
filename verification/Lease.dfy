/** Clients of a session and the single-controller lease that fences their mutations
    (emu_session.c). A slot whose identity is zero is free; identities are never reused. */
module Lease {
  import opened Counters

  const SLOTS: nat := 8
  const LIFETIME: nat := 8192

  datatype Status = Ok | Invalid | WrongState | Busy | Stale | Denied | Capacity | Exhausted | NotFound

  datatype Client = Client(id: nat, maximumRole: bool, attached: bool, controller: bool, leaseId: nat)

  const FREE: Client := Client(0, false, false, false, 0)

  /** `lease` is the identity of the controlling client, zero for none. */
  datatype Session = Session(clients: seq<Client>, used: seq<nat>, lease: nat, nextLease: nat, generation: nat)

  datatype Step =
    | Open(id: nat, maximumRole: bool)
    | Close(id: nat)
    | Attach(id: nat, controller: bool)
    | Detach(id: nat)
    | Acquire(id: nat, generation: nat)
    | Release(id: nat, generation: nat, leaseId: nat)
    | Reset(id: nat, generation: nat, leaseId: nat)

  /** The slot of a client, or the number of slots. */
  function Find(cs: seq<Client>, id: nat): (k: nat)
    ensures k <= |cs| && (k < |cs| ==> cs[k].id == id) && (forall i :: 0 <= i < k ==> cs[i].id != id)
    decreases |cs|
  {
    if cs == [] || cs[0].id == id then 0 else 1 + Find(cs[1..], id)
  }

  function Replace(s: Session, k: nat, c: Client): Session
    requires k < |s.clients|
  {
    s.(clients := s.clients[k := c])
  }

  function OpenClient(s: Session, id: nat, maximumRole: bool): (Session, Status) {
    if id == 0 then (s, Invalid)
    else if id in s.used then (s, Stale)
    else
      var k := Find(s.clients, 0);
      if k == |s.clients| || |s.used| >= LIFETIME then (s, Capacity)
      else (Replace(s, k, Client(id, maximumRole, false, false, 0)).(used := s.used + [id]), Ok)
  }

  function CloseClient(s: Session, k: nat): Session
    requires k < |s.clients|
  {
    Replace(s, k, FREE).(lease := if s.lease == s.clients[k].id then 0 else s.lease)
  }

  /** acquire_lease. */
  function AcquireLease(s: Session, k: nat): (Session, Status)
    requires k < |s.clients|
  {
    var c := s.clients[k];
    if !c.maximumRole then (s, Denied)
    else if s.lease != 0 then (s, Busy)
    else if s.nextLease >= U64_MAX then (s, Exhausted)
    else (Replace(s, k, c.(leaseId := s.nextLease + 1, controller := true)).(nextLease := s.nextLease + 1,
        lease := c.id), Ok)
  }

  function AttachClient(s: Session, k: nat, controller: bool): (Session, Status)
    requires k < |s.clients|
  {
    if s.clients[k].attached then (s, WrongState)
    else if controller && !s.clients[k].maximumRole then (s, Denied)
    else if !controller then (Replace(s, k, s.clients[k].(attached := true, controller := false)), Ok)
    else
      var (t, status) := AcquireLease(s, k);
      if !status.Ok? then (s, status)
      else (Replace(t, k, t.clients[k].(attached := true, controller := true)).(lease := t.clients[k].id), Ok)
  }

  function DetachClient(s: Session, k: nat): (Session, Status)
    requires k < |s.clients|
  {
    if !s.clients[k].attached then (s, WrongState)
    else
      (Replace(s, k, s.clients[k].(attached := false, controller := false, leaseId := 0))
         .(lease := if s.lease == s.clients[k].id then 0 else s.lease), Ok)
  }

  /** The gate in front of every control3 mutation: attached, then generation, then lease. */
  function Gate(s: Session, k: nat, generation: nat, leaseId: nat): Status
    requires k < |s.clients|
  {
    if !s.clients[k].attached then WrongState
    else if generation != s.generation then Stale
    else if !s.clients[k].controller || s.lease != s.clients[k].id || leaseId != s.clients[k].leaseId then Denied
    else Ok
  }

  function ReleaseLease(s: Session, k: nat): Session
    requires k < |s.clients|
  {
    Replace(s, k, s.clients[k].(controller := false, leaseId := 0)).(lease := 0)
  }

  function Apply(s: Session, k: nat, step: Step): (Session, Status)
    requires k < |s.clients|
  {
    match step
    case Open(_, _) => (s, Invalid)
    case Close(_) => (CloseClient(s, k), Ok)
    case Attach(_, controller) => AttachClient(s, k, controller)
    case Detach(_) => DetachClient(s, k)
    case Acquire(_, generation) =>
      if !s.clients[k].attached then (s, WrongState)
      else if generation != s.generation then (s, Stale)
      else AcquireLease(s, k)
    case Release(_, generation, leaseId) =>
      if Gate(s, k, generation, leaseId).Ok? then (ReleaseLease(s, k), Ok) else (s, Gate(s, k, generation, leaseId))
    case Reset(_, generation, leaseId) =>
      if !Gate(s, k, generation, leaseId).Ok? then (s, Gate(s, k, generation, leaseId))
      else if s.generation >= U64_MAX then (s, Exhausted)
      else (s.(generation := s.generation + 1), Ok)
  }

  function Answer(s: Session, step: Step): (Session, Status) {
    if step.Open? then OpenClient(s, step.id, step.maximumRole)
    else if step.id == 0 then (s, Invalid)
    else
      var k := Find(s.clients, step.id);
      if k == |s.clients| then (s, NotFound) else Apply(s, k, step)
  }

  function Run(s: Session, steps: seq<Step>): Session
    decreases |steps|
  {
    if steps == [] then s else Answer(Run(s, steps[..|steps| - 1]), steps[|steps| - 1]).0
  }

  const START: Session := Session(seq(SLOTS, _ => FREE), [], 0, 0, 1)

  // ---- Invariants --------------------------------------------------------------------------------

  ghost predicate IdsOk(s: Session) {
    && (forall i, j :: 0 <= i < j < |s.clients| && s.clients[i].id != 0 ==> s.clients[i].id != s.clients[j].id)
    && (forall i :: 0 <= i < |s.clients| && s.clients[i].id != 0 ==> s.clients[i].id in s.used)
  }

  /** Only the client the lease names is a controller or holds a lease number, and that client
      is open and attached. */
  predicate ClientOk(c: Client, lease: nat, nextLease: nat) {
    && (c.controller || c.leaseId != 0 ==> c.id != 0 && c.id == lease)
    && (c.id != 0 && c.id == lease ==> c.controller && c.attached && 0 < c.leaseId <= nextLease)
  }

  ghost predicate Held(s: Session) { s.lease == 0 || exists k :: 0 <= k < |s.clients| && s.clients[k].id == s.lease }

  ghost predicate Inv(s: Session) {
    && IdsOk(s) && Held(s) && 0 !in s.used
    && (forall i :: 0 <= i < |s.clients| ==> ClientOk(s.clients[i], s.lease, s.nextLease))
  }

  /** The lease number in force, zero for none. */
  function Current(s: Session): nat {
    var k := Find(s.clients, s.lease);
    if s.lease == 0 || k == |s.clients| then 0 else s.clients[k].leaseId
  }

  lemma CurrentIs(s: Session, k: nat)
    requires Inv(s) && k < |s.clients| && s.clients[k].id == s.lease != 0
    ensures Current(s) == s.clients[k].leaseId && Find(s.clients, s.lease) == k
  {
  }

  // ---- Every request keeps them ----------------------------------------------------------------------

  /** One slot changes while the holder stays who it was. */
  lemma ReplaceKeeps(s: Session, k: nat, c: Client, lease: nat, nextLease: nat)
    requires IdsOk(s) && 0 !in s.used && k < |s.clients| && (c.id == s.clients[k].id || c.id == 0)
    requires nextLease >= s.nextLease
    requires ClientOk(c, lease, nextLease)
    requires forall i :: 0 <= i < |s.clients| && i != k ==> ClientOk(s.clients[i], lease, nextLease)
    requires lease == 0 || (lease == c.id) || (exists i :: 0 <= i < |s.clients| && i != k && s.clients[i].id == lease)
    ensures Inv(Replace(s, k, c).(lease := lease, nextLease := nextLease))
  {
    var t := Replace(s, k, c).(lease := lease, nextLease := nextLease);
    if lease == c.id { assert t.clients[k].id == lease; }
    else if lease != 0 {
      var i :| 0 <= i < |s.clients| && i != k && s.clients[i].id == lease;
      assert t.clients[i].id == lease;
    }
  }

  lemma OthersOk(s: Session, k: nat, lease: nat, nextLease: nat)
    requires Inv(s) && k < |s.clients| && nextLease >= s.nextLease
    requires lease == s.lease || (lease == 0 && s.lease == s.clients[k].id)
        || (s.lease == 0 && lease == s.clients[k].id)
    ensures forall i :: 0 <= i < |s.clients| && i != k ==> ClientOk(s.clients[i], lease, nextLease)
  {
    forall i | 0 <= i < |s.clients| && i != k
      ensures ClientOk(s.clients[i], lease, nextLease)
    {
      assert ClientOk(s.clients[i], s.lease, s.nextLease);
      assert s.clients[i].id == 0 || s.clients[i].id != s.clients[k].id;
    }
  }

  lemma OpenKeeps(s: Session, id: nat, maximumRole: bool)
    requires Inv(s)
    ensures Inv(OpenClient(s, id, maximumRole).0)
  {
    var k := Find(s.clients, 0);
    if id != 0 && id !in s.used && k < |s.clients| && |s.used| < LIFETIME {
      var t := OpenClient(s, id, maximumRole).0;
      if s.lease != 0 {
        var i :| 0 <= i < |s.clients| && s.clients[i].id == s.lease;
        assert t.clients[i].id == s.lease;
        assert s.lease != id;
      }
      assert forall i :: 0 <= i < |t.clients| && i != k ==> t.clients[i] == s.clients[i];
    }
  }

  lemma ApplyKeeps(s: Session, k: nat, step: Step)
    requires Inv(s) && k < |s.clients| && s.clients[k].id != 0
    ensures Inv(Apply(s, k, step).0)
  {
    var c := s.clients[k];
    assert ClientOk(c, s.lease, s.nextLease);
    OthersOk(s, k, s.lease, s.nextLease);
    if c.id == s.lease { OthersOk(s, k, 0, s.nextLease); }
    if s.lease == 0 { OthersOk(s, k, c.id, s.nextLease + 1); }
    var lease := if s.lease == c.id then 0 else s.lease;
    if step.Close? { ReplaceKeeps(s, k, FREE, lease, s.nextLease); }
    else if step.Attach? { AttachKeeps(s, k, step.controller); }
    else if step.Detach? && c.attached {
      ReplaceKeeps(s, k, c.(attached := false, controller := false, leaseId := 0), lease, s.nextLease);
    } else if step.Acquire? && c.attached && c.maximumRole && s.lease == 0 {
      ReplaceKeeps(s, k, c.(leaseId := s.nextLease + 1, controller := true), c.id, s.nextLease + 1);
    } else if step.Release? && Gate(s, k, step.generation, step.leaseId).Ok? {
      ReplaceKeeps(s, k, c.(controller := false, leaseId := 0), 0, s.nextLease);
    }
  }

  lemma AttachKeeps(s: Session, k: nat, controller: bool)
    requires Inv(s) && k < |s.clients| && s.clients[k].id != 0
    ensures Inv(AttachClient(s, k, controller).0)
  {
    var c := s.clients[k];
    assert ClientOk(c, s.lease, s.nextLease);
    if !c.attached && !controller {
      OthersOk(s, k, s.lease, s.nextLease);
      ReplaceKeeps(s, k, c.(attached := true, controller := false), s.lease, s.nextLease);
    } else if !c.attached && AcquireLease(s, k).1.Ok? {
      var d := c.(leaseId := s.nextLease + 1, controller := true, attached := true);
      OthersOk(s, k, c.id, s.nextLease + 1);
      ReplaceKeeps(s, k, d, c.id, s.nextLease + 1);
      assert AttachClient(s, k, true).0.clients == s.clients[k := d];
    }
  }

  lemma AnswerKeepsInv(s: Session, step: Step)
    requires Inv(s)
    ensures Inv(Answer(s, step).0)
  {
    if step.Open? { OpenKeeps(s, step.id, step.maximumRole); }
    else if step.id != 0 && Find(s.clients, step.id) < |s.clients| { ApplyKeeps(s, Find(s.clients, step.id), step); }
  }

  lemma {:induction false} RunKeepsInv(s: Session, steps: seq<Step>)
    requires Inv(s)
    ensures Inv(Run(s, steps))
    decreases |steps|
  {
    if steps != [] {
      RunKeepsInv(s, steps[..|steps| - 1]);
      AnswerKeepsInv(Run(s, steps[..|steps| - 1]), steps[|steps| - 1]);
    }
  }

  // ---- Lease numbers only move forward -------------------------------------------------------------

  /** A lease number is either kept or replaced by none or by a new one. */
  predicate Moves(s: Session, t: Session) {
    && t.nextLease >= s.nextLease && t.generation >= s.generation
    && (Current(t) == Current(s) || Current(t) == 0 || Current(t) > s.nextLease)
  }

  lemma CurrentBounded(s: Session)
    requires Inv(s)
    ensures Current(s) <= s.nextLease
  {
  }

  /** The holder's slot is untouched, so the lease in force is the same. */
  lemma CurrentStays(s: Session, t: Session, k: nat)
    requires Inv(s) && Inv(t) && s.lease == t.lease != 0 && |s.clients| == |t.clients| && k < |s.clients|
    requires s.clients[k].id == s.lease == t.clients[k].id && t.clients[k].leaseId == s.clients[k].leaseId
    ensures Current(t) == Current(s)
  {
    CurrentIs(s, k);
    CurrentIs(t, k);
  }

  lemma OpenMoves(s: Session, id: nat, maximumRole: bool)
    requires Inv(s)
    ensures Moves(s, OpenClient(s, id, maximumRole).0)
  {
    var t := OpenClient(s, id, maximumRole).0;
    OpenKeeps(s, id, maximumRole);
    if s.lease != 0 {
      var i :| 0 <= i < |s.clients| && s.clients[i].id == s.lease;
      CurrentStays(s, t, i);
    }
  }

  lemma ApplyMoves(s: Session, k: nat, step: Step)
    requires Inv(s) && k < |s.clients| && s.clients[k].id != 0
    ensures Moves(s, Apply(s, k, step).0)
  {
    var t := Apply(s, k, step).0;
    ApplyKeeps(s, k, step);
    assert ClientOk(s.clients[k], s.lease, s.nextLease);
    if t.lease != 0 {
      if s.lease == 0 { CurrentIs(t, k); }
      else {
        var i :| 0 <= i < |s.clients| && s.clients[i].id == s.lease;
        if i == k { CurrentStays(s, t, k); } else { CurrentStays(s, t, i); }
      }
    }
  }

  lemma AnswerMoves(s: Session, step: Step)
    requires Inv(s)
    ensures Moves(s, Answer(s, step).0)
  {
    if step.Open? { OpenMoves(s, step.id, step.maximumRole); }
    else if step.id != 0 && Find(s.clients, step.id) < |s.clients| { ApplyMoves(s, Find(s.clients, step.id), step); }
  }

  lemma {:induction false} RunMoves(s: Session, steps: seq<Step>)
    requires Inv(s)
    ensures Moves(s, Run(s, steps))
    decreases |steps|
  {
    if steps != [] {
      var t := Run(s, steps[..|steps| - 1]);
      RunMoves(s, steps[..|steps| - 1]);
      RunKeepsInv(s, steps[..|steps| - 1]);
      AnswerMoves(t, steps[|steps| - 1]);
    }
  }

  // ---- What it promises ---------------------------------------------------------------------------------

  /** At most one client controls, and it is open and attached while the lease is set. */
  lemma OneController(steps: seq<Step>, i: nat, j: nat)
    requires i < |Run(START, steps).clients| && j < |Run(START, steps).clients|
    ensures var s := Run(START, steps);
            && (s.clients[i].controller && s.clients[j].controller ==> i == j)
            && (s.clients[i].controller <==> s.clients[i].id == s.lease != 0)
            && (s.lease != 0 && s.clients[i].id == s.lease ==> s.clients[i].attached)
            && (s.lease != 0 ==> exists k :: 0 <= k < |s.clients| && s.clients[k].id == s.lease)
  {
    RunKeepsInv(START, steps);
    var s := Run(START, steps);
    assert ClientOk(s.clients[i], s.lease, s.nextLease) && ClientOk(s.clients[j], s.lease, s.nextLease);
  }

  /** Fencing: a lease number that is no longer in force opens the gate to nobody ever again, not
      even to the client that once held it and has acquired control anew; and a grant always
      carries a number larger than every earlier one. */
  lemma StaleLeaseRefused(early: seq<Step>, late: seq<Step>, leaseId: nat, k: nat, generation: nat)
    requires 0 < leaseId <= Run(START, early).nextLease && Current(Run(START, early)) != leaseId
    requires k < |Run(Run(START, early), late).clients|
    ensures var t := Run(Run(START, early), late);
            Current(t) != leaseId && !Gate(t, k, generation, leaseId).Ok?
  {
    RunKeepsInv(START, early);
    var s := Run(START, early);
    RunMoves(s, late);
    RunKeepsInv(s, late);
    var t := Run(s, late);
    assert ClientOk(t.clients[k], t.lease, t.nextLease);
    if t.lease != 0 && t.clients[k].id == t.lease { CurrentIs(t, k); }
  }

  /** An earlier generation is refused for good. */
  lemma StaleGenerationRefused(early: seq<Step>, late: seq<Step>, generation: nat, k: nat, leaseId: nat)
    requires generation < Run(START, early).generation && k < |Run(Run(START, early), late).clients|
    ensures !Gate(Run(Run(START, early), late), k, generation, leaseId).Ok?
  {
    RunKeepsInv(START, early);
    RunMoves(Run(START, early), late);
  }

  /** The gate opens exactly for the holder naming the generation and the lease in force. */
  lemma GateExact(steps: seq<Step>, k: nat, generation: nat, leaseId: nat)
    requires k < |Run(START, steps).clients|
    ensures var s := Run(START, steps);
            Gate(s, k, generation, leaseId).Ok? <==>
            s.lease != 0 && s.clients[k].id == s.lease && generation == s.generation && leaseId == Current(s)
  {
    RunKeepsInv(START, steps);
    var s := Run(START, steps);
    assert ClientOk(s.clients[k], s.lease, s.nextLease);
    if s.lease != 0 && s.clients[k].id == s.lease { CurrentIs(s, k); }
  }

  /** Reacquiring gives a number above every number ever in force. */
  lemma GrantIsNew(steps: seq<Step>, k: nat)
    requires k < |Run(START, steps).clients| && Run(START, steps).clients[k].id != 0
    requires AcquireLease(Run(START, steps), k).1.Ok? && Run(START, steps).clients[k].attached
    ensures var s := Run(START, steps);
            Current(AcquireLease(s, k).0) == s.nextLease + 1 && Current(s) <= s.nextLease
  {
    RunKeepsInv(START, steps);
    var s := Run(START, steps);
    CurrentBounded(s);
    ApplyKeeps(s, k, Acquire(s.clients[k].id, s.generation));
    CurrentIs(AcquireLease(s, k).0, k);
  }
}
