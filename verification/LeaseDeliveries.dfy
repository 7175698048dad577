/** Which accepted stream commands reach the runtime, which requests are accepted, and who holds the lease: exact
    conditions over whole histories (dds/src/lease.cpp, dds/src/protocol.cpp, dds/src/cyclone_service.cpp). */
module LeaseDeliveries {
  import opened Results
  import opened Lease
  import opened LeaseHistory

  // ---------- One look at the mailbox ----------

  /** The pump hands a command over: it is not busy, has a runtime, and one waits that is not too old. */
  predicate HandsOver(s: Service, step: Step) {
    step.Pump? && !step.busy && step.hasRuntime && s.slot.Some? && s.now <= s.slot.value.receivedAt + STREAM_LIFESPAN
  }

  /** After every history: a pump delivers exactly if it is not busy, has a runtime, and a command waits that was
      accepted at most 20 ms ago; it delivers that command, now and under the active lease. No other step delivers,
      and a pump that is not busy leaves nothing waiting. */
  lemma PumpDeliversExactly(now: nat, steps: seq<Step>, step: Step)
    ensures var s := Run(now, steps);
            var s' := Next(s, step);
            && (s.slot.Some? ==>
                  && s.slot.value.ticket < |s.accepted|
                  && s.slot.value.receivedAt == s.accepted[s.slot.value.ticket].at)
            && s'.delivered == s.delivered + (if HandsOver(s, step)
                                              then [Delivery(s.slot.value.ticket, s.now, s.lease.active)] else [])
            && (step.Pump? ==> s'.slot == if step.busy then s.slot else None)
  {
    HistoryKeeps(now, steps);
    hide Run, Acquired, Authorized, Refreshed, Numbered, Owned, Advancing, Remembered, Accounted, Deliveries;
  }

  // ---------- The way of a waiting command ----------

  /** The step takes the waiting command away: a pump, the end of the lease, or a newer command. */
  predicate Removes(s: Service, step: Step) {
    match step
    case Pump(busy, _) => !busy
    case Release(client, id) => s.lease.HeldBy(client, id)
    case Expire => s.lease.active.Some? && s.lease.active.value.expiresAt <= s.now
    case Revoke => true
    case Command(_, _, sequence) =>
      |Next(s, step).accepted| > |s.accepted| && s.slot.Some? && s.slot.value.sequence < sequence
    case _ => false
  }

  lemma WaitsUnlessRemoved(s: Service, step: Step)
    requires s.slot.Some? && !Removes(s, step)
    ensures Next(s, step).slot == s.slot
  {
    hide Acquired;
  }

  /** Ticket t was accepted, and is neither waiting nor delivered: it never will be. */
  predicate Gone(s: Service, t: nat) {
    && t < |s.accepted| && (s.slot.Some? ==> t < s.slot.value.ticket)
    && forall d :: 0 <= d < |s.delivered| ==> s.delivered[d].ticket != t
  }

  lemma GoneStays(s: Service, step: Step, t: nat)
    requires Gone(s, t)
    ensures Gone(Next(s, step), t)
  {
    hide Acquired, Authorized;
  }

  lemma RemovedIsGone(s: Service, step: Step)
    requires s.slot.Some? && Removes(s, step) && !HandsOver(s, step) && Gone(s.(slot := None), s.slot.value.ticket)
    ensures Gone(Next(s, step), s.slot.value.ticket)
  {
    hide Acquired;
  }

  lemma {:induction false} GoneForGood(now: nat, steps: seq<Step>, n: nat, t: nat)
    requires n <= |steps| && Gone(Run(now, steps[..n]), t)
    ensures Gone(Run(now, steps), t)
    decreases |steps|
  {
    hide Next, Gone;
    if n < |steps| {
      var shorter := steps[..|steps| - 1];
      assert shorter[..n] == steps[..n];
      GoneForGood(now, shorter, n, t);
      GoneStays(Run(now, shorter), steps[|steps| - 1], t);
    } else {
      assert steps[..n] == steps;
    }
  }

  /** Nothing takes the command away from step n up to step m. */
  ghost predicate Undisturbed(now: nat, steps: seq<Step>, n: nat, m: nat)
    requires m <= |steps|
  {
    forall k :: n <= k < m ==> !Removes(Run(now, steps[..k]), steps[k])
  }

  lemma {:induction false} StillWaiting(now: nat, steps: seq<Step>, n: nat, m: nat)
    requires n <= m <= |steps| && Run(now, steps[..n]).slot.Some? && Undisturbed(now, steps, n, m)
    ensures Run(now, steps[..m]).slot == Run(now, steps[..n]).slot
    decreases m
  {
    hide Next, Removes;
    if n < m {
      StillWaiting(now, steps, n, m - 1);
      assert steps[..m][..m - 1] == steps[..m - 1];
      WaitsUnlessRemoved(Run(now, steps[..m - 1]), steps[m - 1]);
    }
  }

  /** A pump in time finds the command that waits after n steps, undisturbed until then. */
  ghost predicate PumpedInTime(now: nat, steps: seq<Step>, n: nat, m: nat, receivedAt: nat) {
    && n <= m < |steps| && steps[m] == Pump(false, true)
    && Run(now, steps[..m]).now <= receivedAt + STREAM_LIFESPAN && Undisturbed(now, steps, n, m)
  }

  /** The ticket is among the deliveries. */
  predicate Delivered(s: Service, t: nat) {
    exists d :: 0 <= d < |s.delivered| && s.delivered[d].ticket == t
  }

  lemma {:induction false} DeliveriesStay(now: nat, steps: seq<Step>, n: nat)
    requires n <= |steps|
    ensures Run(now, steps[..n]).delivered <= Run(now, steps).delivered
    decreases |steps|
  {
    hide Next;
    if n < |steps| {
      var shorter := steps[..|steps| - 1];
      assert shorter[..n] == steps[..n];
      DeliveriesStay(now, shorter, n);
      PumpDeliversExactly(now, shorter, steps[|steps| - 1]);
    } else {
      assert steps[..n] == steps;
    }
  }

  /** The first step from n on that takes the command away, or the end. */
  lemma FirstRemoval(now: nat, steps: seq<Step>, n: nat) returns (m: nat)
    requires n <= |steps|
    ensures n <= m <= |steps| && Undisturbed(now, steps, n, m)
    ensures m < |steps| ==> Removes(Run(now, steps[..m]), steps[m])
  {
    hide Removes;
    m := n;
    while m < |steps| && !Removes(Run(now, steps[..m]), steps[m])
      invariant n <= m <= |steps| && Undisturbed(now, steps, n, m)
    {
      m := m + 1;
    }
  }

  /** Over every run: a command that waits is delivered exactly if a pump that is not busy and has a runtime comes
      within 20 ms of its acceptance, before any other such look, the end of the lease or a newer command. */
  lemma DeliveredExactly(now: nat, steps: seq<Step>, n: nat, w: Waiting)
    requires n <= |steps| && Run(now, steps[..n]).slot == Some(w)
    ensures Delivered(Run(now, steps), w.ticket) <==> exists m: nat :: PumpedInTime(now, steps, n, m, w.receivedAt)
  {
    hide Next, Removes, Undisturbed;
    var m := FirstRemoval(now, steps, n);
    StillWaiting(now, steps, n, m);
    var s := Run(now, steps[..m]);
    NotYetDelivered(now, steps[..m]);
    if m == |steps| {
      assert steps[..m] == steps;
      NoPump(now, steps, n, m, w.receivedAt);
    } else {
      PumpDeliversExactly(now, steps[..m], steps[m]);
      assert steps[..m + 1][..m] == steps[..m];
      NoPump(now, steps, n, m, w.receivedAt);
      DeliveriesStay(now, steps, m + 1);
      if HandsOver(s, steps[m]) {
        assert PumpedInTime(now, steps, n, m, w.receivedAt);
        assert Run(now, steps).delivered[|s.delivered|].ticket == w.ticket;
      } else {
        RemovedIsGone(s, steps[m]);
        GoneForGood(now, steps, m + 1, w.ticket);
      }
    }
  }

  lemma NotYetDelivered(now: nat, steps: seq<Step>)
    ensures var s := Run(now, steps);
            s.slot.Some? ==> Gone(s.(slot := None), s.slot.value.ticket)
  {
    HistoryKeeps(now, steps);
    hide Run, Numbered, Owned, Advancing, Remembered, Accounted, Deliveries;
  }

  /** What takes the command away first is the only pump that can deliver it. */
  lemma NoPump(now: nat, steps: seq<Step>, n: nat, m: nat, receivedAt: nat)
    requires n <= m <= |steps| && Undisturbed(now, steps, n, m)
    requires m < |steps| ==> Removes(Run(now, steps[..m]), steps[m])
    ensures forall k: nat :: PumpedInTime(now, steps, n, k, receivedAt) ==> k == m
  {
    hide Run, Next;
    assert forall k: nat :: PumpedInTime(now, steps, n, k, receivedAt) ==> Removes(Run(now, steps[..k]), steps[k]);
  }

  // ---------- Which requests are accepted ----------

  /** What the manager remembers was accepted under the lease in force. */
  ghost predicate RememberedWas(s: Service, channel: Channel) {
    s.lease.active.Some? && s.lease.Last(channel).Some? ==>
      exists i :: 0 <= i < |s.accepted| && s.accepted[i].lease == s.lease.active.value.id
                  && s.accepted[i].channel == channel && s.accepted[i].sequence == s.lease.Last(channel).value
  }

  lemma RememberedWasNext(s: Service, step: Step, channel: Channel)
    requires RememberedWas(s, channel)
    ensures RememberedWas(Next(s, step), channel)
  {
    var s' := Next(s, step);
    if s.lease.active.Some? && s.lease.Last(channel).Some? {
      var i :| 0 <= i < |s.accepted| && s.accepted[i].lease == s.lease.active.value.id
               && s.accepted[i].channel == channel && s.accepted[i].sequence == s.lease.Last(channel).value;
      assert s.accepted <= s'.accepted && s'.accepted[i] == s.accepted[i];
    }
    if |s'.accepted| > |s.accepted| {
      assert s'.accepted[|s.accepted|].lease == s.lease.active.value.id;
    }
  }

  lemma {:induction false} RememberedWasAlways(now: nat, steps: seq<Step>, channel: Channel)
    ensures RememberedWas(Run(now, steps), channel)
  {
    hide Next;
    if |steps| > 0 {
      RememberedWasAlways(now, steps[..|steps| - 1], channel);
      RememberedWasNext(Run(now, steps[..|steps| - 1]), steps[|steps| - 1], channel);
    }
  }

  /** Over every run: a request is accepted exactly if the client holds that lease, which has not run out, and no
      request was accepted under it on that channel with a sequence at least as high. */
  lemma AcceptedExactly(now: nat, steps: seq<Step>, client: string, id: nat, sequence: nat, channel: Channel,
                        refresh: bool)
    ensures var s := Run(now, steps);
            Authorized(s.lease, client, id, sequence, channel, refresh, s.now).1.None? <==>
              && s.lease.active.Some? && s.lease.active.value.client == client && s.lease.active.value.id == id
              && s.now < s.lease.active.value.expiresAt
              && forall i :: 0 <= i < |s.accepted| && s.accepted[i].lease == id && s.accepted[i].channel == channel ==>
                   s.accepted[i].sequence < sequence
  {
    HistoryKeeps(now, steps);
    RememberedWasAlways(now, steps, channel);
    hide Run, Numbered, Owned, Advancing, Accounted, SlotCurrent, Deliveries;
  }

  // ---------- Who holds the lease ----------

  /** The client of the lease in force, and its number. */
  predicate Holds(s: Service, client: string, id: nat) {
    s.lease.active.Some? && s.lease.active.value.client == client && s.lease.active.value.id == id
    && s.now < s.lease.active.value.expiresAt
  }

  /** The client gets a lease: its name is acceptable and nobody else holds one. */
  predicate Grants(s: Service, client: string) {
    && 0 < |client| <= MAX_CLIENT_ID
    && (s.lease.active.Some? && s.now < s.lease.active.value.expiresAt ==> s.lease.active.value.client == client)
  }

  /** The step is one of the holder's that gives its lease a full period from now. */
  predicate Renews(s: Service, step: Step) {
    && s.lease.active.Some?
    && var lease := s.lease.active.value;
       match step
       case Acquire(client) => client == lease.client && Grants(s, client) && s.now < lease.expiresAt
       case Request(_, _, _, refresh) => refresh && |Next(s, step).accepted| > |s.accepted|
       case Command(_, _, _) => |Next(s, step).accepted| > |s.accepted|
       case Complete(client, id) => client == lease.client && id == lease.id
       case _ => false
  }

  /** The step ends the lease: its holder gives it up, it has run out and is looked at, or it is revoked. */
  predicate Ends(s: Service, step: Step) {
    && s.lease.active.Some?
    && var lease := s.lease.active.value;
       match step
       case Release(client, id) => client == lease.client && id == lease.id
       case Expire => lease.expiresAt <= s.now
       case Revoke => true
       case _ => false
  }

  /** The step issues a new lease. */
  predicate Issues(s: Service, step: Step) {
    && step.Acquire? && Grants(s, step.client)
    && (s.lease.active.Some? ==> s.lease.active.value.expiresAt <= s.now)
  }

  /** Over every run a step issues the next lease to the client that asks for it, renews the one in force, ends it
      with an announcement, or leaves it alone; it does so exactly where the predicates say. */
  lemma LeaseFollows(now: nat, steps: seq<Step>, step: Step)
    ensures var s := Run(now, steps);
            var s' := Next(s, step);
            && (Issues(s, step) ==>
                  && s'.lease.active == Some(Snapshot(step.client, |s.issued| + 1, s.now + LEASE_PERIOD))
                  && s'.issued == s.issued + [step.client]
                  && s'.lost == s.lost
                  && s'.replaced == s.replaced + (if s.lease.active.Some? then [s.lease.active.value.id] else []))
            && (!Issues(s, step) ==> s'.issued == s.issued && s'.replaced == s.replaced)
            && (Renews(s, step) ==>
                  && s'.lease.active == Some(s.lease.active.value.(expiresAt := s.now + LEASE_PERIOD))
                  && s'.lost == s.lost)
            && (Ends(s, step) ==> s'.lease.active == None && s'.lost == s.lost + [s.lease.active.value.id])
            && (!Issues(s, step) && !Renews(s, step) && !Ends(s, step) ==>
                  s'.lease.active == s.lease.active && s'.lost == s.lost)
  {
    HistoryKeeps(now, steps);
    hide Run, Owned, Advancing, Remembered, Accounted, SlotCurrent, Deliveries;
  }
}
