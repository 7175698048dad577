/** Whole histories of the control lease and the stream mailbox under a clock that never runs
    backwards (dds/src/lease.cpp, dds/src/protocol.cpp, dds/src/cyclone_service.cpp). */
module LeaseHistory {
  import opened Results
  import opened Lease

  /** A request that was accepted, and how many leases had been issued by then. */
  datatype Acceptance = Acceptance(client: string, lease: nat, sequence: nat, channel: Channel, at: nat, issued: nat)

  /** A stream command handed to the runtime, and the lease in force at that moment. */
  datatype Delivery = Delivery(ticket: nat, at: nat, lease: Option<Snapshot>)

  /** The service with everything that ever happened: the client of every lease issued, the requests
      accepted, the leases whose loss was announced, those silently replaced, and the deliveries. */
  datatype Service = Service(lease: State, slot: Option<Waiting>, now: nat, issued: seq<string>,
                             accepted: seq<Acceptance>, lost: seq<nat>, replaced: seq<nat>, delivered: seq<Delivery>)

  datatype Step =
    | Tick(elapsed: nat)
    | Acquire(client: string)
    | Request(client: string, id: nat, sequence: nat, refresh: bool)
    | Command(client: string, id: nat, sequence: nat)
    | Complete(client: string, id: nat)
    | Release(client: string, id: nat)
    | Expire
    | Revoke
    | Pump(busy: bool, hasRuntime: bool)

  function Acquiring(s: Service, client: string): Service {
    var (lease, result) := Acquired(s.lease, client, s.now);
    if lease.nextId == s.lease.nextId then s.(lease := lease)
    else
      s.(lease := lease, issued := s.issued + [client],
         replaced := s.replaced + (if s.lease.active.Some? then [s.lease.active.value.id] else []))
  }

  function Accepting(s: Service, client: string, id: nat, sequence: nat, channel: Channel, refresh: bool): Service {
    var (lease, error) := Authorized(s.lease, client, id, sequence, channel, refresh, s.now);
    if error.Some? then s
    else
      s.(lease := lease,
         accepted := s.accepted + [Acceptance(client, id, sequence, channel, s.now, |s.issued|)],
         slot := if channel == Stream then Stored(s.slot, Waiting(sequence, s.now, |s.accepted|)) else s.slot)
  }

  /** The announcement of a loss clears the mailbox. */
  function Losing(s: Service): Service {
    if s.lease.active.None? then s.(lease := s.lease.Ended())
    else s.(lease := s.lease.Ended(), lost := s.lost + [s.lease.active.value.id], slot := None)
  }

  function Pumping(s: Service, hasRuntime: bool): Service {
    var command := Taken(s.slot, s.now);
    if command.None? || !hasRuntime then s.(slot := None)
    else s.(slot := None, delivered := s.delivered + [Delivery(command.value.ticket, s.now, s.lease.active)])
  }

  function Next(s: Service, step: Step): Service {
    match step
    case Tick(elapsed) => s.(now := s.now + elapsed)
    case Acquire(client) => Acquiring(s, client)
    case Request(client, id, sequence, refresh) => Accepting(s, client, id, sequence, Control, refresh)
    case Command(client, id, sequence) => Accepting(s, client, id, sequence, Stream, true)
    case Complete(client, id) => s.(lease := Refreshed(s.lease, client, id, s.now).0)
    case Release(client, id) => if s.lease.HeldBy(client, id) then Losing(s) else s
    case Expire => if s.lease.Expired(s.now) then Losing(s) else s
    case Revoke => Losing(s).(slot := None)
    case Pump(busy, hasRuntime) => if busy then s else Pumping(s, hasRuntime)
  }

  function Initial(now: nat): Service {
    Service(State(None, None, None, 1), None, now, [], [], [], [], [])
  }

  function Run(now: nat, steps: seq<Step>): Service {
    if |steps| == 0 then Initial(now) else Next(Run(now, steps[..|steps| - 1]), steps[|steps| - 1])
  }

  // ---------- What every history satisfies ----------

  /** Ids count the leases issued, and the active lease is the last one issued. */
  ghost predicate Numbered(s: Service) {
    && s.lease.nextId == |s.issued| + 1
    && (s.lease.active.Some? ==>
          && |s.issued| > 0 && s.lease.active.value.id == |s.issued|
          && s.lease.active.value.client == s.issued[|s.issued| - 1])
  }

  /** Every accepted request came from the client of its lease, while that lease was the newest. */
  ghost predicate Owned(s: Service) {
    forall i :: 0 <= i < |s.accepted| ==>
      var a := s.accepted[i];
      0 < a.lease == a.issued <= |s.issued| && a.client == s.issued[a.lease - 1] && a.at <= s.now
  }

  /** Requests accepted later are not of older leases, and repeat no sequence of their lease. */
  ghost predicate Advancing(s: Service) {
    forall i, k :: 0 <= i < k < |s.accepted| ==> Precedes(s.accepted[i], s.accepted[k])
  }

  predicate Precedes(a: Acceptance, b: Acceptance) {
    a.lease <= b.lease && a.at <= b.at && (a.lease == b.lease && a.channel == b.channel ==> a.sequence < b.sequence)
  }

  /** What the manager remembers bounds every sequence accepted under the active lease. */
  ghost predicate Remembered(s: Service) {
    s.lease.active.Some? ==>
      forall i :: 0 <= i < |s.accepted| && s.accepted[i].lease == s.lease.active.value.id ==>
        var last := s.lease.Last(s.accepted[i].channel);
        last.Some? && s.accepted[i].sequence <= last.value
  }

  function UpTo(n: nat): multiset<nat> {
    if n == 0 then multiset{} else UpTo(n - 1) + multiset{n}
  }

  /** Every lease issued is active, or lost with one announcement, or silently replaced. */
  ghost predicate Accounted(s: Service) {
    multiset(s.lost) + multiset(s.replaced)
    + (if s.lease.active.Some? then multiset{s.lease.active.value.id} else multiset{}) == UpTo(|s.issued|)
  }

  /** The waiting command is the newest accepted one of its lease, not yet delivered, and its lease
      is still in force unless the command is long out of date. */
  ghost predicate SlotCurrent(s: Service) {
    s.slot.Some? ==>
      var w := s.slot.value;
      && w.ticket < |s.accepted| && s.accepted[w.ticket].channel == Stream
      && s.accepted[w.ticket].sequence == w.sequence && s.accepted[w.ticket].at == w.receivedAt
      && (forall d :: 0 <= d < |s.delivered| ==> s.delivered[d].ticket < w.ticket)
      && (if s.lease.active.Some? && s.lease.active.value.id == s.accepted[w.ticket].lease
          then w.receivedAt + LEASE_PERIOD <= s.lease.active.value.expiresAt
          else w.receivedAt + LEASE_PERIOD <= s.now)
  }

  /** A delivery within the lifespan of its command, under the very lease that accepted it. */
  ghost predicate Legitimate(s: Service, d: Delivery) {
    && d.ticket < |s.accepted| && s.accepted[d.ticket].channel == Stream
    && s.accepted[d.ticket].at <= d.at <= s.accepted[d.ticket].at + STREAM_LIFESPAN
    && d.lease.Some? && d.lease.value.id == s.accepted[d.ticket].lease
    && d.lease.value.client == s.accepted[d.ticket].client && d.at < d.lease.value.expiresAt
  }

  ghost predicate Deliveries(s: Service) {
    && (forall i :: 0 <= i < |s.delivered| ==> Legitimate(s, s.delivered[i]))
    && (forall i, k :: 0 <= i < k < |s.delivered| ==> s.delivered[i].ticket < s.delivered[k].ticket)
  }

  ghost predicate Invariant(s: Service) {
    Numbered(s) && Owned(s) && Advancing(s) && Remembered(s) && Accounted(s) && SlotCurrent(s) && Deliveries(s)
  }

  // ---------- Every step keeps it ----------

  /** Acquiring refuses, extends the lease in force, or issues the next one once it has run out. */
  lemma AcquiringCases(s: Service, client: string)
    requires Numbered(s)
    ensures var s' := Acquiring(s, client);
            || s' == s
            || (s.lease.active.Some? && s' == s.(lease := s.lease.Extended(s.now)))
            || (&& (s.lease.active.Some? ==> s.lease.Expired(s.now))
                && s' == s.(lease := State(Some(Snapshot(client, s.lease.nextId, s.now + LEASE_PERIOD)), None, None,
                                           s.lease.nextId + 1),
                            issued := s.issued + [client],
                            replaced := s.replaced
                                        + (if s.lease.active.Some? then [s.lease.active.value.id] else [])))
  {
  }

  lemma AcquiringAccounts(s: Service, client: string)
    requires Numbered(s) && Accounted(s)
    ensures Accounted(Acquiring(s, client))
  {
    AcquiringCases(s, client);
    hide Acquiring, UpTo;
    hide State.Expired;
    var s' := Acquiring(s, client);
    if s'.issued != s.issued {
      UpToNext(|s.issued|);
      if s.lease.active.Some? {
        assert multiset(s'.replaced) == multiset(s.replaced) + multiset{s.lease.active.value.id};
      } else {
        assert s'.replaced == s.replaced;
      }
    } else {
      assert s'.lost == s.lost && s'.replaced == s.replaced;
    }
  }

  lemma UpToNext(n: nat)
    ensures UpTo(n + 1) == UpTo(n) + multiset{n + 1}
  {
  }

  lemma AcquiringOwned(s: Service, client: string)
    requires Numbered(s) && Owned(s) && Remembered(s)
    ensures Numbered(Acquiring(s, client)) && Owned(Acquiring(s, client)) && Remembered(Acquiring(s, client))
  {
    AcquiringCases(s, client);
    hide Acquiring;
    var s' := Acquiring(s, client);
    forall i | 0 <= i < |s.accepted|
      ensures var a := s.accepted[i];
              0 < a.lease == a.issued <= |s'.issued| && a.client == s'.issued[a.lease - 1] && a.at <= s'.now
    {
      assert 0 < s.accepted[i].lease <= |s.issued|;
    }
  }

  lemma AcquiringSlot(s: Service, client: string)
    requires Numbered(s) && Owned(s) && SlotCurrent(s)
    ensures SlotCurrent(Acquiring(s, client))
  {
    AcquiringCases(s, client);
    hide Acquiring;
    if s.slot.Some? {
      assert s.accepted[s.slot.value.ticket].lease <= |s.issued|;
    }
  }

  /** Steps that change neither what was accepted nor delivered keep both in order. */
  lemma SameDeliveries(s: Service, s': Service)
    requires Advancing(s) && Deliveries(s) && s.accepted <= s'.accepted && s'.delivered == s.delivered
    ensures s'.accepted == s.accepted ==> Advancing(s')
    ensures Deliveries(s')
  {
    hide Precedes;
    forall i | 0 <= i < |s.delivered| ensures Legitimate(s', s.delivered[i]) {
      assert Legitimate(s, s.delivered[i]);
    }
  }

  lemma AcquiringKeeps(s: Service, client: string)
    requires Invariant(s)
    ensures Invariant(Acquiring(s, client))
  {
    AcquiringAccounts(s, client);
    AcquiringOwned(s, client);
    AcquiringSlot(s, client);
    AcquiringCases(s, client);
    hide Numbered, Owned, Remembered, Advancing, Accounted, SlotCurrent, Deliveries, Acquiring;
    SameDeliveries(s, Acquiring(s, client));
  }

  lemma AcceptingKeeps(s: Service, client: string, id: nat, sequence: nat, channel: Channel, refresh: bool)
    requires Invariant(s) && (channel == Stream ==> refresh)
    ensures Invariant(Accepting(s, client, id, sequence, channel, refresh))
  {
    if Authorized(s.lease, client, id, sequence, channel, refresh, s.now).1.None? {
      AcceptedAdvances(s, client, id, sequence, channel, refresh);
      AcceptedRemembered(s, client, id, sequence, channel, refresh);
      AcceptedOwned(s, client, id, sequence, channel, refresh);
      AcceptedSlot(s, client, id, sequence, channel, refresh);
      SameDeliveries(s, Accepting(s, client, id, sequence, channel, refresh));
    }
  }

  lemma AcceptedOwned(s: Service, client: string, id: nat, sequence: nat, channel: Channel, refresh: bool)
    requires Numbered(s) && Owned(s) && Accounted(s)
    requires Authorized(s.lease, client, id, sequence, channel, refresh, s.now).1.None?
    ensures var s' := Accepting(s, client, id, sequence, channel, refresh);
            && Numbered(s') && Owned(s') && Accounted(s')
            && s.accepted <= s'.accepted && s'.delivered == s.delivered
  {
    hide UpTo;
  }

  lemma AcceptedSlot(s: Service, client: string, id: nat, sequence: nat, channel: Channel, refresh: bool)
    requires Numbered(s) && Owned(s) && SlotCurrent(s) && Deliveries(s)
    requires Authorized(s.lease, client, id, sequence, channel, refresh, s.now).1.None?
    requires channel == Stream ==> refresh
    ensures SlotCurrent(Accepting(s, client, id, sequence, channel, refresh))
  {
    hide UpTo;
    var s' := Accepting(s, client, id, sequence, channel, refresh);
    forall d | 0 <= d < |s.delivered| ensures s.delivered[d].ticket < |s.accepted| {
      assert Legitimate(s, s.delivered[d]);
    }
  }

  lemma AcceptedAdvances(s: Service, client: string, id: nat, sequence: nat, channel: Channel, refresh: bool)
    requires Numbered(s) && Owned(s) && Advancing(s) && Remembered(s)
    requires Authorized(s.lease, client, id, sequence, channel, refresh, s.now).1.None?
    ensures Advancing(Accepting(s, client, id, sequence, channel, refresh))
  {
    var a := Acceptance(client, id, sequence, channel, s.now, |s.issued|);
    forall i | 0 <= i < |s.accepted| ensures Precedes(s.accepted[i], a) {
      assert s.accepted[i].lease <= |s.issued|;
    }
  }

  lemma AcceptedRemembered(s: Service, client: string, id: nat, sequence: nat, channel: Channel, refresh: bool)
    requires Remembered(s) && Authorized(s.lease, client, id, sequence, channel, refresh, s.now).1.None?
    ensures Remembered(Accepting(s, client, id, sequence, channel, refresh))
  {
    var s' := Accepting(s, client, id, sequence, channel, refresh);
    forall i | 0 <= i < |s'.accepted| && s'.accepted[i].lease == id
      ensures var last := s'.lease.Last(s'.accepted[i].channel);
              last.Some? && s'.accepted[i].sequence <= last.value
    {
      if i < |s.accepted| {
        assert s.accepted[i].lease == s.lease.active.value.id;
      }
    }
  }

  lemma LosingKeeps(s: Service)
    requires Invariant(s)
    ensures Invariant(Losing(s))
  {
    hide UpTo;
    forall i | 0 <= i < |s.delivered| ensures Legitimate(Losing(s), s.delivered[i]) {
      assert Legitimate(s, s.delivered[i]);
    }
  }

  lemma PumpingKeeps(s: Service, hasRuntime: bool)
    requires Invariant(s)
    ensures Invariant(Pumping(s, hasRuntime))
  {
    hide UpTo;
    var s' := Pumping(s, hasRuntime);
    forall i | 0 <= i < |s'.delivered| ensures Legitimate(s', s'.delivered[i]) {
      if i < |s.delivered| {
        assert Legitimate(s, s.delivered[i]);
      } else {
        assert s.accepted[s.slot.value.ticket].lease <= |s.issued|;
      }
    }
  }

  lemma TickKeeps(s: Service, elapsed: nat)
    requires Invariant(s)
    ensures Invariant(s.(now := s.now + elapsed))
  {
    hide UpTo, Precedes;
    SameDeliveries(s, s.(now := s.now + elapsed));
  }

  lemma RefreshKeeps(s: Service, client: string, id: nat)
    requires Invariant(s)
    ensures Invariant(s.(lease := Refreshed(s.lease, client, id, s.now).0))
  {
    hide UpTo, Precedes;
    SameDeliveries(s, s.(lease := Refreshed(s.lease, client, id, s.now).0));
  }

  lemma ClearKeeps(s: Service)
    requires Invariant(s)
    ensures Invariant(s.(slot := None))
  {
    hide UpTo, Precedes;
    SameDeliveries(s, s.(slot := None));
  }

  lemma NextKeeps(s: Service, step: Step)
    requires Invariant(s)
    ensures Invariant(Next(s, step))
  {
    hide Invariant, Acquiring, Accepting, Losing, Pumping, Refreshed;
    match step
    case Tick(elapsed) => TickKeeps(s, elapsed);
    case Complete(client, id) => RefreshKeeps(s, client, id);
    case Acquire(client) => AcquiringKeeps(s, client);
    case Request(client, id, sequence, refresh) => AcceptingKeeps(s, client, id, sequence, Control, refresh);
    case Command(client, id, sequence) => AcceptingKeeps(s, client, id, sequence, Stream, true);
    case Release(client, id) => LosingKeeps(s);
    case Expire => LosingKeeps(s);
    case Revoke =>
      LosingKeeps(s);
      ClearKeeps(Losing(s));
    case Pump(busy, hasRuntime) => PumpingKeeps(s, hasRuntime);
  }

  lemma {:induction false} HistoryKeeps(now: nat, steps: seq<Step>)
    ensures Invariant(Run(now, steps))
  {
    if |steps| == 0 {
      assert multiset([]) + multiset([]) + multiset{} == UpTo(0);
    } else {
      HistoryKeeps(now, steps[..|steps| - 1]);
      NextKeeps(Run(now, steps[..|steps| - 1]), steps[|steps| - 1]);
    }
  }

  /** Stream commands reach the runtime at most once, in the order they were accepted, each within
      its lifespan and under the very lease that accepted it; within a lease their sequences rise. */
  lemma DeliveriesAreOrdered(now: nat, steps: seq<Step>, i: nat, k: nat)
    requires i < k < |Run(now, steps).delivered|
    ensures var s := Run(now, steps);
            var first, second := s.delivered[i].ticket, s.delivered[k].ticket;
            && first < second < |s.accepted|
            && s.accepted[first].lease <= s.accepted[second].lease
            && (s.accepted[first].lease == s.accepted[second].lease ==>
                  s.accepted[first].sequence < s.accepted[second].sequence)
            && Legitimate(s, s.delivered[i]) && Legitimate(s, s.delivered[k])
  {
    hide Next;
    HistoryKeeps(now, steps);
    var s := Run(now, steps);
    assert Legitimate(s, s.delivered[i]) && Legitimate(s, s.delivered[k]);
    assert Precedes(s.accepted[s.delivered[i].ticket], s.accepted[s.delivered[k].ticket]);
  }

  // ---------- When an accepted command is not kept ----------

  /** An accepted stream command fails to become the waiting one exactly when a command of an
      older, silently replaced lease is still waiting with a sequence at least as high. */
  lemma KeptUnlessStaleHigher(now: nat, steps: seq<Step>, client: string, id: nat, sequence: nat)
    requires var s := Run(now, steps);
             Authorized(s.lease, client, id, sequence, Stream, true, s.now).1.None?
    ensures var s := Run(now, steps);
            var s' := Accepting(s, client, id, sequence, Stream, true);
            s'.slot != Some(Waiting(sequence, s.now, |s.accepted|)) <==>
              && s.slot.Some? && sequence <= s.slot.value.sequence
              && s.slot.value.ticket < |s.accepted| && s.accepted[s.slot.value.ticket].lease < id
  {
    hide Next;
    HistoryKeeps(now, steps);
    var s := Run(now, steps);
    if s.slot.Some? {
      assert s.slot.value.ticket < |s.accepted|;
      assert s.accepted[s.slot.value.ticket].lease <= |s.issued| == id;
    }
  }

  lemma RunAppend(now: nat, steps: seq<Step>, step: Step)
    ensures Run(now, steps + [step]) == Next(Run(now, steps), step)
  {
    hide Next;
    assert (steps + [step])[..|steps|] == steps;
  }

  /** Such a history: the command accepted under lease 2 is blocked by one of lease 1 that is too
      old to be sent itself, so the next pump delivers neither. */
  lemma StaleCommandBlocks()
    ensures exists steps :: BlockedIn(Run(0, steps))
  {
    var steps := [Acquire("a")] + [Command("a", 1, 9)] + [Tick(250)] + [Acquire("b")] + [Command("b", 2, 1)];
    FirstLease();
    SecondLease();
    RunAppend(0, steps, Pump(false, true));
    assert BlockedIn(Run(0, steps + [Pump(false, true)]));
  }

  /** After a command under lease 1 that nobody has sent. */
  function AfterFirst(): Service {
    Service(State(Some(Snapshot("a", 1, 250)), None, Some(9), 2), Some(Waiting(9, 0, 0)), 0, ["a"],
            [Acceptance("a", 1, 9, Stream, 0, 1)], [], [], [])
  }

  lemma FirstLease()
    ensures Run(0, [Acquire("a")] + [Command("a", 1, 9)]) == AfterFirst()
  {
    RunAppend(0, [], Acquire("a"));
    assert [] + [Acquire("a")] == [Acquire("a")];
    RunAppend(0, [Acquire("a")], Command("a", 1, 9));
  }

  lemma SecondLease()
    ensures var steps := [Acquire("a")] + [Command("a", 1, 9)] + [Tick(250)] + [Acquire("b")] + [Command("b", 2, 1)];
            var s := Run(0, steps);
            && |s.accepted| == 2 && s.accepted[1].lease == 2 && s.delivered == [] && s.now == 250
            && s.slot == Some(Waiting(9, 0, 0))
  {
    var two := [Acquire("a")] + [Command("a", 1, 9)];
    FirstLease();
    RunAppend(0, two, Tick(250));
    RunAppend(0, two + [Tick(250)], Acquire("b"));
    RunAppend(0, two + [Tick(250)] + [Acquire("b")], Command("b", 2, 1));
  }

  /** A command of the second lease was accepted, nothing was delivered, and nothing is waiting. */
  predicate BlockedIn(s: Service) {
    |s.accepted| == 2 && s.accepted[1].lease == 2 && s.delivered == [] && s.slot == None
  }
}
