/** The client slots and lease fields of a session as emu_session.c updates them. */
module LeaseDevice {
  import opened Counters
  import opened Lease

  class ClientTable {
    var clients: array<Client>
    var used: seq<nat>
    var lease: nat
    var nextLease: nat
    var generation: nat

    ghost predicate Valid()
      reads this
    {
      clients.Length == SLOTS
    }

    ghost function State(): Session
      reads this, clients
    {
      Session(clients[..], used, lease, nextLease, generation)
    }

    constructor ()
      ensures Valid() && State() == START && fresh(clients)
    {
      clients := new Client[SLOTS](_ => FREE);
      used, lease, nextLease, generation := [], 0, 0, 1;
    }

    /** The loop of client(). */
    method Lookup(id: nat) returns (k: nat)
      requires Valid()
      ensures k == Find(clients[..], id) && k <= clients.Length
    {
      k := 0;
      while k < clients.Length && clients[k].id != id
        invariant k <= clients.Length && forall i :: 0 <= i < k ==> clients[i].id != id
      {
        k := k + 1;
      }
    }

    /** emusa80535_debug_open_v1: refuses an identity used before, then takes the first free slot. */
    method OpenSlot(id: nat, maximumRole: bool) returns (status: Status)
      requires Valid()
      modifies this, clients
      ensures Valid() && clients == old(clients) && (State(), status) == OpenClient(old(State()), id, maximumRole)
    {
      if id == 0 { return Invalid; }
      for i := 0 to |used|
        invariant forall j :: 0 <= j < i ==> used[j] != id
      {
        if used[i] == id { return Stale; }
      }
      var slot := Lookup(0);
      if slot == SLOTS || |used| >= LIFETIME { return Capacity; }
      used := used + [id];
      clients[slot] := Client(id, maximumRole, false, false, 0);
      status := Ok;
    }

    /** close_client. */
    method CloseSlot(k: nat)
      requires Valid() && k < clients.Length
      modifies this`lease, clients
      ensures Valid() && State() == CloseClient(old(State()), k)
    {
      if lease == clients[k].id { lease := 0; }
      clients[k] := FREE;
    }

    /** acquire_lease. */
    method TakeLease(k: nat) returns (status: Status)
      requires Valid() && k < clients.Length
      modifies this`lease, this`nextLease, clients
      ensures Valid() && (State(), status) == AcquireLease(old(State()), k)
    {
      if !clients[k].maximumRole { return Denied; }
      if lease != 0 { return Busy; }
      if nextLease >= U64_MAX { return Exhausted; }
      nextLease := nextLease + 1;
      clients[k] := clients[k].(leaseId := nextLease, controller := true);
      lease := clients[k].id;
      status := Ok;
    }

    /** The attach command. */
    method AttachSlot(k: nat, controller: bool) returns (status: Status)
      requires Valid() && k < clients.Length
      modifies this`lease, this`nextLease, clients
      ensures Valid() && (State(), status) == AttachClient(old(State()), k, controller)
    {
      if clients[k].attached { return WrongState; }
      if controller && !clients[k].maximumRole { return Denied; }
      if controller {
        status := TakeLease(k);
        if !status.Ok? { return; }
      }
      clients[k] := clients[k].(attached := true, controller := controller);
      if controller { lease := clients[k].id; }
      status := Ok;
    }

    /** The detach command. */
    method DetachSlot(k: nat) returns (status: Status)
      requires Valid() && k < clients.Length
      modifies this`lease, clients
      ensures Valid() && (State(), status) == DetachClient(old(State()), k)
    {
      if !clients[k].attached { return WrongState; }
      if lease == clients[k].id { lease := 0; }
      clients[k] := clients[k].(attached := false, controller := false, leaseId := 0);
      status := Ok;
    }

    /** releaseControl behind its gate. */
    method GiveUpLease(k: nat, named: nat, leaseId: nat) returns (status: Status)
      requires Valid() && k < clients.Length
      modifies this`lease, clients
      ensures Valid() && status == Gate(old(State()), k, named, leaseId)
      ensures State() == if status.Ok? then ReleaseLease(old(State()), k) else old(State())
    {
      if !clients[k].attached { return WrongState; }
      if named != generation { return Stale; }
      if !clients[k].controller || lease != clients[k].id || leaseId != clients[k].leaseId { return Denied; }
      lease := 0;
      clients[k] := clients[k].(leaseId := 0, controller := false);
      status := Ok;
    }
  }
}
