/** Motion events of the DDS service, as an interleaving of its I/O thread and its control worker
    over one pending-motion slot (dds/src/cyclone_service.cpp). Every step is what one thread does
    inside one critical section, or one write. */
module MotionEvents {
  import opened Results

  datatype Kind = Accepted | Completed | Cancelled

  /** A motion is named by its position among the accepted ones. */
  datatype Event = Event(kind: Kind, motion: nat)

  /** An accepted motion: the lease it was accepted under, and its request number, which the slot
      stores; zero is what the slot uses for nothing pending. */
  datatype Motion = Motion(lease: nat, request: nat)

  /** What the I/O thread is in the middle of, since the step that read the state or lost the lease. */
  datatype Io = IoIdle | IoClaiming(kind: Kind, since: nat) | IoPublishing(kind: Kind, motion: nat)

  /** What the control worker is in the middle of. An executed request started its motion at the step given. */
  datatype Worker =
    | WorkerIdle
    | Executing(lease: nat, request: nat)
    | Refreshed(lease: nat, request: nat, started: nat)
    | Announced(motion: nat)
    | Checking(motion: nat)
    | WorkerClaiming
    | WorkerPublishing(motion: nat)

  /** A completion: the step that read the state it rests on, and the step that claimed the slot. */
  datatype Claim = Claim(since: nat, at: nat)

  /** The steps at which each motion was started in the runtime, announced, put into the slot, and claimed as
      completed. */
  datatype Times = Times(started: seq<nat>, announced: seq<nat>, pending: map<nat, nat>, completed: map<nat, Claim>)

  /** The leases are numbered as issued; ended holds those whose loss was announced. Superseded
      holds the motions whose slot was overwritten by the next one. */
  datatype Service = Service(lease: Option<nat>, nextLease: nat, ended: set<nat>, slot: Option<nat>,
                             motions: seq<Motion>, events: seq<Event>, superseded: set<nat>,
                             io: Io, worker: Worker, times: Times)

  datatype Step =
    | IssueLease
    | LoseLease
    | ReadState(arrived: bool)
    | IoClaim
    | IoPublish
    | TakeRequest(request: nat)
    | FinishExecution(succeeded: bool)
    | Announce
    | SetPending
    | CheckLease(expired: bool)
    | StopMotion
    | WorkerClaim
    | WorkerPublish

  predicate Enabled(s: Service, step: Step) {
    match step
    case IssueLease => s.io == IoIdle
    case LoseLease => s.io == IoIdle && s.lease.Some?
    case ReadState(_) => s.io == IoIdle
    case IoClaim => s.io.IoClaiming?
    case IoPublish => s.io.IoPublishing?
    case TakeRequest(_) => s.worker == WorkerIdle && s.lease.Some?
    case FinishExecution(_) => s.worker.Executing?
    case Announce => s.worker.Refreshed?
    case SetPending => s.worker.Announced? && s.worker.motion < |s.motions|
    case CheckLease(_) => s.worker.Checking? && s.worker.motion < |s.motions|
    case StopMotion => s.worker == WorkerIdle
    case WorkerClaim => s.worker == WorkerClaiming
    case WorkerPublish => s.worker.WorkerPublishing?
  }

  /** The slot names a motion that can be claimed. */
  predicate Pending(s: Service, m: nat) {
    s.slot == Some(m) && m < |s.motions| && s.motions[m].request != 0
  }

  /** The step with number at in a run. */
  function Next(s: Service, step: Step, at: nat): Service
    requires Enabled(s, step)
  {
    match step
    case IssueLease => s.(lease := Some(s.nextLease), nextLease := s.nextLease + 1)
    case LoseLease => s.(lease := None, ended := s.ended + {s.lease.value}, io := IoClaiming(Cancelled, at))
    case ReadState(arrived) => if arrived then s.(io := IoClaiming(Completed, at)) else s
    case IoClaim =>
      if s.slot.Some? && Pending(s, s.slot.value)
      then s.(slot := None, io := IoPublishing(s.io.kind, s.slot.value), times := Claimed(s, at))
      else s.(io := IoIdle)
    case IoPublish => s.(events := s.events + [Event(s.io.kind, s.io.motion)], io := IoIdle)
    case TakeRequest(request) => s.(worker := Executing(s.lease.value, request))
    case FinishExecution(succeeded) =>
      if succeeded && s.lease == Some(s.worker.lease)
      then s.(worker := Refreshed(s.worker.lease, s.worker.request, at)) else s.(worker := WorkerIdle)
    case Announce =>
      s.(motions := s.motions + [Motion(s.worker.lease, s.worker.request)],
         events := s.events + [Event(Accepted, |s.motions|)], worker := Announced(|s.motions|),
         times := s.times.(started := s.times.started + [s.worker.started], announced := s.times.announced + [at]))
    case SetPending =>
      s.(superseded := s.superseded + (if s.slot.Some? then {s.slot.value} else {}),
         slot := Some(s.worker.motion), worker := Checking(s.worker.motion),
         times := s.times.(pending := s.times.pending[s.worker.motion := at]))
    case CheckLease(expired) =>
      if expired || s.lease != Some(s.motions[s.worker.motion].lease)
      then s.(worker := WorkerClaiming) else s.(worker := WorkerIdle)
    case StopMotion => s.(worker := WorkerClaiming)
    case WorkerClaim =>
      if s.slot.Some? && Pending(s, s.slot.value)
      then s.(slot := None, worker := WorkerPublishing(s.slot.value)) else s.(worker := WorkerIdle)
    case WorkerPublish => s.(events := s.events + [Event(Cancelled, s.worker.motion)], worker := WorkerIdle)
  }

  function Claimed(s: Service, at: nat): Times
    requires s.io.IoClaiming? && s.slot.Some?
  {
    if s.io.kind == Completed
    then s.times.(completed := s.times.completed[s.slot.value := Claim(s.io.since, at)]) else s.times
  }

  function Initial(): Service {
    Service(None, 1, {}, None, [], [], {}, IoIdle, WorkerIdle, Times([], [], map[], map[]))
  }

  function Run(steps: seq<Step>): Service {
    if |steps| == 0 then Initial()
    else
      var last := |steps| - 1;
      var before := Run(steps[..last]);
      if Enabled(before, steps[last]) then Next(before, steps[last], last) else before
  }

  // ---------- Where a motion is ----------

  /** How many COMPLETED and CANCELLED events a motion has. */
  function Ends(events: seq<Event>, m: nat): nat {
    if |events| == 0 then 0
    else
      var last := events[|events| - 1];
      Ends(events[..|events| - 1], m) + (if last.kind != Accepted && last.motion == m then 1 else 0)
  }

  /** Claims of a motion that are not published yet. */
  function InFlight(s: Service, m: nat): nat {
    (if s.io.IoPublishing? && s.io.motion == m then 1 else 0) + (if s.worker == WorkerPublishing(m) then 1 else 0)
  }

  /** Every accepted motion is in exactly one place: announced but not pending yet, pending,
      superseded, or claimed by exactly one event, published or about to be. */
  ghost predicate Placed(s: Service, m: nat) {
    Ends(s.events, m) + InFlight(s, m) + (if s.slot == Some(m) then 1 else 0)
    + (if m in s.superseded then 1 else 0) + (if s.worker == Announced(m) then 1 else 0)
    == (if m < |s.motions| then 1 else 0)
  }

  /** The k-th event ends a motion that was announced before. */
  ghost predicate AfterAccepted(events: seq<Event>, k: nat) {
    k < |events| && events[k].kind != Accepted ==> exists j :: 0 <= j < k && events[j] == Event(Accepted, events[k].motion)
  }

  ghost predicate Announcements(s: Service) {
    && (forall m: nat :: m < |s.motions| ==> Event(Accepted, m) in s.events)
    && (forall k: nat :: AfterAccepted(s.events, k))
  }

  /** No lease ever returns: the active one and those to come have not ended. */
  ghost predicate LeasesFresh(s: Service) {
    && (s.lease.Some? ==> s.lease.value < s.nextLease && s.lease.value !in s.ended)
    && (forall l :: l in s.ended ==> l < s.nextLease)
  }

  /** A motion pending under a lease whose loss was announced has somebody about to claim it. */
  ghost predicate LossHandled(s: Service) {
    forall m: nat :: Pending(s, m) && s.motions[m].lease in s.ended ==>
      s.io.IoClaiming? || s.worker == Checking(m) || s.worker == WorkerClaiming
  }

  ghost predicate Invariant(s: Service) {
    && (forall m: nat :: Placed(s, m)) && Announcements(s) && LeasesFresh(s) && LossHandled(s)
  }

  lemma EndsAppend(events: seq<Event>, e: Event, m: nat)
    ensures Ends(events + [e], m) == Ends(events, m) + (if e.kind != Accepted && e.motion == m then 1 else 0)
  {
    assert (events + [e])[..|events|] == events;
  }

  lemma PlacedNext(s: Service, step: Step, at: nat, m: nat)
    requires Enabled(s, step) && (forall k: nat :: Placed(s, k))
    requires s.io.IoPublishing? || s.io.IoClaiming? ==> s.io.kind != Accepted
    ensures Placed(Next(s, step, at), m)
  {
    hide Ends;
    assert Placed(s, m);
    match step
    case IoPublish => EndsAppend(s.events, Event(s.io.kind, s.io.motion), m);
    case WorkerPublish => EndsAppend(s.events, Event(Cancelled, s.worker.motion), m);
    case Announce =>
      EndsAppend(s.events, Event(Accepted, |s.motions|), m);
      assert Placed(s, |s.motions|);
    case SetPending =>
      assert Placed(s, s.worker.motion);
    case _ =>
  }

  ghost predicate IoEnds(s: Service) {
    s.io.IoPublishing? || s.io.IoClaiming? ==> s.io.kind != Accepted
  }

  lemma AnnouncementsNext(s: Service, step: Step, at: nat)
    requires Enabled(s, step) && Invariant(s) && IoEnds(s)
    ensures Announcements(Next(s, step, at))
  {
    var s' := Next(s, step, at);
    hide Ends;
    forall m: nat | m < |s'.motions| ensures Event(Accepted, m) in s'.events {
      if m < |s.motions| {
        assert Event(Accepted, m) in s.events;
      } else {
        assert s'.events[|s.events|] == Event(Accepted, m);
      }
    }
    forall k: nat ensures AfterAccepted(s'.events, k) {
      assert AfterAccepted(s.events, k);
      if k < |s.events| {
        assert forall j :: 0 <= j <= k ==> s'.events[j] == s.events[j];
      } else if k < |s'.events| && s'.events[k].kind != Accepted {
        var m := s'.events[k].motion;
        assert Placed(s, m);
        assert Event(Accepted, m) in s.events;
        var j :| 0 <= j < |s.events| && s.events[j] == Event(Accepted, m);
        assert s'.events[j] == Event(Accepted, m);
      }
    }
  }

  lemma LossHandledNext(s: Service, step: Step, at: nat)
    requires Enabled(s, step) && Invariant(s)
    ensures LossHandled(Next(s, step, at)) && LeasesFresh(Next(s, step, at))
  {
    hide Ends;
    var s' := Next(s, step, at);
    forall m: nat | Pending(s', m) && s'.motions[m].lease in s'.ended
      ensures s'.io.IoClaiming? || s'.worker == Checking(m) || s'.worker == WorkerClaiming
    {
      assert Placed(s, m);
      if Pending(s, m) {
        assert s'.motions[m] == s.motions[m];
      }
    }
  }

  lemma NextKeeps(s: Service, step: Step, at: nat)
    requires Enabled(s, step) && Invariant(s) && IoEnds(s)
    ensures Invariant(Next(s, step, at)) && IoEnds(Next(s, step, at))
  {
    forall m: nat ensures Placed(Next(s, step, at), m) {
      PlacedNext(s, step, at, m);
    }
    AnnouncementsNext(s, step, at);
    LossHandledNext(s, step, at);
  }

  lemma {:induction false} RunKeeps(steps: seq<Step>)
    ensures Invariant(Run(steps)) && IoEnds(Run(steps))
  {
    hide Next;
    if |steps| > 0 {
      var before := Run(steps[..|steps| - 1]);
      RunKeeps(steps[..|steps| - 1]);
      if Enabled(before, steps[|steps| - 1]) {
        NextKeeps(before, steps[|steps| - 1], |steps| - 1);
      }
    }
  }

  /** Over every interleaving a motion gets at most one COMPLETED or CANCELLED event, and only after
      its ACCEPTED. */
  lemma AtMostOneEnd(steps: seq<Step>)
    ensures forall m: nat :: Ends(Run(steps).events, m) <= 1
    ensures forall k: nat :: AfterAccepted(Run(steps).events, k)
  {
    RunKeeps(steps);
    hide Run, Ends;
    forall m: nat ensures Ends(Run(steps).events, m) <= 1 {
      assert Placed(Run(steps), m);
    }
  }

  /** When both threads are at rest, an accepted motion has not ended exactly if it is still in the slot or was
      superseded by the next one; and nothing claimable is pending under a lease whose loss was announced. */
  lemma AtRest(steps: seq<Step>)
    ensures var s := Run(steps);
            s.io == IoIdle && s.worker == WorkerIdle ==>
              && (forall m: nat :: m < |s.motions| ==>
                    (Ends(s.events, m) == 0 <==> m in s.superseded || s.slot == Some(m)))
              && (forall m: nat :: Pending(s, m) ==> s.motions[m].lease !in s.ended)
  {
    RunKeeps(steps);
    hide Run, Ends;
    var s := Run(steps);
    if s.io == IoIdle && s.worker == WorkerIdle {
      forall m: nat | m < |s.motions| ensures Ends(s.events, m) == 0 <==> m in s.superseded || s.slot == Some(m) {
        assert Placed(s, m);
      }
    }
  }

  // ---------- What the protocol does not give ----------

  /** A motion whose request number is zero is announced but never ends: nothing can claim it. */
  lemma {:induction false} ZeroRequestNeverEnds(steps: seq<Step>, m: nat)
    requires m < |Run(steps).motions| && Run(steps).motions[m].request == 0
    ensures Ends(Run(steps).events, m) == 0 && InFlight(Run(steps), m) == 0
  {
    hide Next, Ends, InFlight;
    if |steps| > 0 {
      var before, step := Run(steps[..|steps| - 1]), steps[|steps| - 1];
      if m < |before.motions| {
        MotionsStay(before, step, |steps| - 1, m);
        ZeroRequestNeverEnds(steps[..|steps| - 1], m);
        if Enabled(before, step) {
          ZeroStaysUnclaimed(before, step, |steps| - 1, m);
        }
      } else if Enabled(before, step) {
        RunKeeps(steps[..|steps| - 1]);
        assert Placed(before, m);
        NewMotionUnclaimed(before, step, |steps| - 1, m);
      }
    }
  }

  lemma MotionsStay(s: Service, step: Step, at: nat, m: nat)
    requires m < |s.motions|
    ensures Enabled(s, step) ==> m < |Next(s, step, at).motions| && Next(s, step, at).motions[m] == s.motions[m]
  {
  }

  lemma ZeroStaysUnclaimed(s: Service, step: Step, at: nat, m: nat)
    requires Enabled(s, step) && m < |s.motions| && s.motions[m].request == 0
    requires Ends(s.events, m) == 0 && InFlight(s, m) == 0
    ensures Ends(Next(s, step, at).events, m) == 0 && InFlight(Next(s, step, at), m) == 0
  {
    hide Ends;
    var s' := Next(s, step, at);
    if |s'.events| > |s.events| {
      EndsAppend(s.events, s'.events[|s.events|], m);
    }
  }

  lemma NewMotionUnclaimed(s: Service, step: Step, at: nat, m: nat)
    requires Enabled(s, step) && |s.motions| <= m < |Next(s, step, at).motions|
    requires Ends(s.events, m) == 0 && InFlight(s, m) == 0
    ensures Ends(Next(s, step, at).events, m) == 0 && InFlight(Next(s, step, at), m) == 0
  {
    hide Ends;
    EndsAppend(s.events, Event(Accepted, |s.motions|), m);
  }

  lemma RunAppend(steps: seq<Step>, step: Step)
    ensures Run(steps + [step]) == if Enabled(Run(steps), step) then Next(Run(steps), step, |steps|) else Run(steps)
  {
    hide Next;
    assert (steps + [step])[..|steps|] == steps;
  }
}
