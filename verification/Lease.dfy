/** The control lease of the DDS service and its one-slot command mailbox (dds/src/lease.cpp,
    dds/src/protocol.cpp). Times are milliseconds. */
module Lease {
  import opened Results

  const LEASE_PERIOD: nat := 250
  const STREAM_LIFESPAN: nat := 20
  const MAX_CLIENT_ID: nat := 63

  datatype Channel = Control | Stream

  datatype Snapshot = Snapshot(client: string, id: nat, expiresAt: nat)

  datatype LeaseError = InvalidClient | Busy | NoLease | StaleSequence

  datatype State = State(active: Option<Snapshot>, lastControl: Option<nat>, lastStream: Option<nat>, nextId: nat) {
    predicate HeldBy(client: string, id: nat) {
      active.Some? && active.value.client == client && active.value.id == id
    }

    predicate Expired(now: nat) {
      active.Some? && active.value.expiresAt <= now
    }

    function Last(channel: Channel): Option<nat> {
      if channel == Control then lastControl else lastStream
    }

    function Remember(channel: Channel, sequence: nat): State {
      if channel == Control then this.(lastControl := Some(sequence)) else this.(lastStream := Some(sequence))
    }

    function Extended(now: nat): State
      requires active.Some?
    {
      this.(active := Some(active.value.(expiresAt := now + LEASE_PERIOD)))
    }

    function Ended(): State {
      State(None, None, None, nextId)
    }
  }

  /** The holder renews its lease; anybody else gets a new one once the old one has run out. */
  function Acquired(s: State, client: string, now: nat): (State, Result<Snapshot, LeaseError>) {
    if |client| == 0 || MAX_CLIENT_ID < |client| then (s, Failure(InvalidClient))
    else if s.active.Some? && !s.Expired(now) && s.active.value.client != client then (s, Failure(Busy))
    else if s.active.None? || s.active.value.client != client || s.Expired(now) then
      var lease := Snapshot(client, s.nextId, now + LEASE_PERIOD);
      (State(Some(lease), None, None, s.nextId + 1), Success(lease))
    else (s.Extended(now), Success(s.Extended(now).active.value))
  }

  function Authorized(s: State, client: string, id: nat, sequence: nat, channel: Channel, refresh: bool, now: nat)
    : (State, Option<LeaseError>)
  {
    if !s.HeldBy(client, id) || s.Expired(now) then (s, Some(NoLease))
    else if s.Last(channel).Some? && sequence <= s.Last(channel).value then (s, Some(StaleSequence))
    else
      var remembered := s.Remember(channel, sequence);
      (if refresh then remembered.Extended(now) else remembered, None)
  }

  /** After a control operation the owner gets a full period, however long the operation took. */
  function Refreshed(s: State, client: string, id: nat, now: nat): (State, Option<LeaseError>) {
    if s.HeldBy(client, id) then (s.Extended(now), None) else (s, Some(NoLease))
  }

  class LeaseManager {
    var active: Option<Snapshot>
    var lastControl: Option<nat>
    var lastStream: Option<nat>
    var nextId: nat
    /** The leases whose loss was announced, in order. */
    ghost var lost: seq<nat>

    constructor ()
      ensures Value() == State(None, None, None, 1) && lost == []
    {
      active, lastControl, lastStream, nextId := None, None, None, 1;
      lost := [];
    }

    function Value(): State
      reads this
    {
      State(active, lastControl, lastStream, nextId)
    }

    method Acquire(client: string, now: nat) returns (r: Result<Snapshot, LeaseError>)
      modifies this
      ensures (Value(), r) == Acquired(old(Value()), client, now) && lost == old(lost)
    {
      if |client| == 0 || |client| > MAX_CLIENT_ID {
        return Failure(InvalidClient);
      }
      if active.Some? && now < active.value.expiresAt && active.value.client != client {
        return Failure(Busy);
      }
      if active.None? || active.value.client != client || now >= active.value.expiresAt {
        active := Some(Snapshot(client, nextId, now + LEASE_PERIOD));
        nextId := nextId + 1;
        lastControl, lastStream := None, None;
      } else {
        active := Some(active.value.(expiresAt := now + LEASE_PERIOD));
      }
      return Success(active.value);
    }

    method Authorize(client: string, id: nat, sequence: nat, channel: Channel, refresh: bool, now: nat)
      returns (error: Option<LeaseError>)
      modifies this
      ensures (Value(), error) == Authorized(old(Value()), client, id, sequence, channel, refresh, now)
      ensures lost == old(lost)
    {
      if active.None? || now >= active.value.expiresAt || active.value.client != client || active.value.id != id {
        return Some(NoLease);
      }
      var last := if channel == Control then lastControl else lastStream;
      if last.Some? && sequence <= last.value {
        return Some(StaleSequence);
      }
      if channel == Control {
        lastControl := Some(sequence);
      } else {
        lastStream := Some(sequence);
      }
      if refresh {
        active := Some(active.value.(expiresAt := now + LEASE_PERIOD));
      }
      return None;
    }

    method RefreshAfterControl(client: string, id: nat, now: nat) returns (error: Option<LeaseError>)
      modifies `active
      ensures (Value(), error) == Refreshed(old(Value()), client, id, now)
    {
      if active.None? || active.value.client != client || active.value.id != id {
        return Some(NoLease);
      }
      active := Some(active.value.(expiresAt := now + LEASE_PERIOD));
      return None;
    }

    /** The end of a lease is announced after the fields are reset, and only if there was one. */
    method End()
      modifies this
      ensures Value() == old(Value()).Ended()
      ensures lost == old(lost) + (if old(active).Some? then [old(active).value.id] else [])
    {
      var had := active;
      active, lastControl, lastStream := None, None, None;
      if had.Some? {
        lost := lost + [had.value.id];
      }
    }

    method Release(client: string, id: nat) returns (error: Option<LeaseError>)
      modifies this
      ensures if old(Value()).HeldBy(client, id)
              then error.None? && Value() == old(Value()).Ended() && lost == old(lost) + [id]
              else error == Some(NoLease) && Value() == old(Value()) && lost == old(lost)
    {
      if active.None? || active.value.client != client || active.value.id != id {
        return Some(NoLease);
      }
      End();
      return None;
    }

    method ExpireIfNeeded(now: nat) returns (expired: bool)
      modifies this
      ensures expired == old(Value()).Expired(now)
      ensures if expired
              then Value() == old(Value()).Ended() && lost == old(lost) + [old(active).value.id]
              else Value() == old(Value()) && lost == old(lost)
    {
      expired := active.Some? && now >= active.value.expiresAt;
      if expired {
        End();
      }
    }

    method Revoke()
      modifies this
      ensures Value() == old(Value()).Ended()
      ensures lost == old(lost) + (if old(active).Some? then [old(active).value.id] else [])
    {
      End();
    }
  }

  /** A stream command waiting to be sent; the ticket says which acceptance it came from. */
  datatype Waiting = Waiting(sequence: nat, receivedAt: nat, ticket: nat)

  function Stored(slot: Option<Waiting>, command: Waiting): Option<Waiting> {
    if slot.None? || slot.value.sequence < command.sequence then Some(command) else slot
  }

  function Taken(slot: Option<Waiting>, now: nat): Option<Waiting> {
    if slot.None? || STREAM_LIFESPAN < now - slot.value.receivedAt then None else slot
  }

  class LatestCommandMailbox {
    var latest: Option<Waiting>

    constructor ()
      ensures latest == None
    {
      latest := None;
    }

    method Store(command: Waiting)
      modifies this
      ensures latest == Stored(old(latest), command)
    {
      if latest.None? || command.sequence > latest.value.sequence {
        latest := Some(command);
      }
    }

    method Take(now: nat) returns (output: Option<Waiting>)
      modifies this
      ensures output == Taken(old(latest), now) && latest == None
    {
      if latest.None? {
        return None;
      }
      if now - latest.value.receivedAt > STREAM_LIFESPAN {
        latest := None;
        return None;
      }
      output := latest;
      latest := None;
    }

    method Clear()
      modifies this
      ensures latest == None
    {
      latest := None;
    }
  }
}
