/** Which step of a run leads into which mode of the runtime: for every mode the exact causes, read off what the
    hardware answers and the clock says (runtime/src/runtime_enable.cpp and the files beside it). */
module SafetyTransitions {
  import opened Results
  import opened SafetyState
  import opened SafetyProperties

  // ---------- ENABLED ----------

  /** The round reads every one of the motors as recent and enabled. */
  predicate ReadsEnabled(round: EnableRound, motors: nat) {
    && round.complete && |round.snapshot| == motors
    && forall k :: 0 <= k < motors ==> round.snapshot[k].recent && round.snapshot[k].status == Some(1)
  }

  /** A motor of the round freshly reports a fault. */
  predicate ReadsFault(round: EnableRound) {
    exists k: nat :: k < |round.snapshot| && round.snapshot[k].recent && round.snapshot[k].status.Some?
                     && 1 < round.snapshot[k].status.value
  }

  /** Round k reads every motor as enabled; until then none has faulted, and no retry has failed. */
  ghost predicate EnabledAtRound(rounds: seq<EnableRound>, motors: nat, k: nat) {
    && k < |rounds| && ReadsEnabled(rounds[k], motors)
    && (forall m :: 0 <= m <= k ==> !ReadsFault(rounds[m]))
    && (forall m :: 0 <= m < k ==> !rounds[m].retryFails)
  }

  lemma FaultRead(round: EnableRound)
    ensures FreshFault(round.snapshot) <==> ReadsFault(round)
  {
    if FreshFault(round.snapshot) {
      var k: nat :| k < |round.snapshot| && round.snapshot[k].recent && FaultAt(round.snapshot, k);
    }
    if ReadsFault(round) {
      var k: nat :| k < |round.snapshot| && round.snapshot[k].recent && round.snapshot[k].status.Some?
                    && 1 < round.snapshot[k].status.value;
      assert FaultAt(round.snapshot, k);
    }
  }

  lemma EnabledRead(round: EnableRound)
    ensures round.complete && AllEnabled(round.snapshot) <==> ReadsEnabled(round, |round.snapshot|)
  {
    if ReadsEnabled(round, |round.snapshot|) {
      assert forall k: nat :: k < |round.snapshot| ==> HasStatus(round.snapshot, k, 1);
    }
  }

  lemma {:induction false} ConfirmedFrom(rounds: seq<EnableRound>, i: nat, motors: nat)
    requires i <= |rounds| && forall m :: 0 <= m < |rounds| ==> |rounds[m].snapshot| == motors
    requires forall m :: 0 <= m < i ==> !ReadsFault(rounds[m]) && !rounds[m].retryFails
    ensures EnableConfirmed(rounds, i) <==> exists k: nat :: i <= k && EnabledAtRound(rounds, motors, k)
    decreases |rounds| - i
  {
    hide FreshFault, AllEnabled, ReadsFault, ReadsEnabled;
    if i < |rounds| {
      FaultRead(rounds[i]);
      EnabledRead(rounds[i]);
      if ReadsFault(rounds[i]) {
      } else if ReadsEnabled(rounds[i], motors) {
        assert EnabledAtRound(rounds, motors, i);
      } else if !rounds[i].retryFails {
        ConfirmedFrom(rounds, i + 1, motors);
        assert forall k: nat :: i <= k && EnabledAtRound(rounds, motors, k) ==> i + 1 <= k;
      }
    }
  }

  /** The native enable is confirmed exactly if some round reads every motor as enabled, with no fresh fault up to
      then and no failed retry before. */
  lemma EnableConfirmedExactly(rounds: seq<EnableRound>, motors: nat)
    requires forall m :: 0 <= m < |rounds| ==> |rounds[m].snapshot| == motors
    ensures EnableConfirmed(rounds, 0) <==> exists k: nat :: EnabledAtRound(rounds, motors, k)
  {
    ConfirmedFrom(rounds, 0, motors);
  }

  /** What the hardware has to answer for the motors to count as enabled. */
  ghost predicate TurnsOn(e: Enabling, motors: nat, recovering: bool) {
    match e
    case WithoutCallback(mailbox, seeded) => mailbox && (recovering ==> seeded)
    case WithCallback(prepared, held, rounds, _, _) =>
      prepared && held && exists k: nat :: EnabledAtRound(rounds, motors, k)
  }

  ghost predicate EnabledCause(s: State, step: Step, config: Config) {
    && (s.mode == Ready || s.mode == PartiallyEnabled) && !s.faultLatched
    && match step
       case Enable(e) => TurnsOn(e, config.motors, false)
       case EnableRecovery(e, _, _) => TurnsOn(e, config.motors, true)
       case _ => false
  }

  lemma EnableCalls(s: State, step: Step, config: Config)
    requires SafetyProperties.Enabled(s, step, config) && (step.Enable? || step.EnableRecovery?)
    ensures s.mode != Mode.Enabled ==> (Next(s, step, config).mode == Mode.Enabled <==> EnabledCause(s, step, config))
    ensures step.Enable? && MayEnable(s) && step.e.WithCallback? && !EnabledCause(s, step, config) ==>
              Next(s, step, config).mode == Fault && Next(s, step, config).faultLatched
    ensures step.EnableRecovery? && !EnabledCause(s, step, config) ==> Next(s, step, config).mode == Fault
  {
    hide EnableConfirmed, DisableSucceeds, EnabledAtRound;
    if step.e.WithCallback? {
      EnableConfirmedExactly(step.e.rounds, config.motors);
    }
  }

  /** A call to enable returns without an error exactly if the motors may be enabled and turn on. */
  lemma EnableSucceedsExactly(s: State, e: Enabling, motors: nat)
    requires EnablingFull(e, motors)
    ensures EnableSucceeds(s, e)
       <==> (s.mode == Ready || s.mode == PartiallyEnabled) && !s.faultLatched && TurnsOn(e, motors, true)
  {
    hide EnableConfirmed, EnabledAtRound;
    if e.WithCallback? {
      EnableConfirmedExactly(e.rounds, motors);
    }
  }

  // ---------- Reading every motor as off ----------

  /** Every motor answers that it is off. */
  predicate ReadsOff(snapshot: Snapshot) {
    forall k :: 0 <= k < |snapshot| ==> snapshot[k].status == Some(0)
  }

  /** Some motor answers that it has a fault. */
  predicate ReportsFault(snapshot: Snapshot) {
    exists k :: 0 <= k < |snapshot| && snapshot[k].status.Some? && 1 < snapshot[k].status.value
  }

  /** The round has a recent reading of every motor as off, and the motors that did not answer are known not to be
      among them. */
  predicate RoundReadsOff(round: Round) {
    && (round.complete || round.missing != {})
    && forall k :: 0 <= k < |round.snapshot| ==>
         round.snapshot[k].recent && round.snapshot[k].status == Some(0) && k !in round.missing
  }

  /** The queue was drained and a round, before or after the retry, read every motor as off. */
  ghost predicate TurnsOff(d: Disabling) {
    d.barrier && exists round :: (round in d.first || round in d.second) && RoundReadsOff(round)
  }

  lemma ConfirmsExactly(round: Round)
    requires |round.snapshot| > 0
    ensures Confirms(round) <==> RoundReadsOff(round)
  {
    if Confirms(round) {
      forall k | 0 <= k < |round.snapshot|
        ensures round.snapshot[k].recent && round.snapshot[k].status == Some(0) && k !in round.missing
      {
        assert !UnconfirmedAt(round, k);
      }
      assert !UnconfirmedAt(round, 0);
    }
  }

  lemma SomeConfirmsExactly(rounds: seq<Round>, motors: nat)
    requires 0 < motors && RoundsFull(rounds, motors)
    ensures SomeConfirms(rounds) <==> exists round :: round in rounds && RoundReadsOff(round)
  {
    hide Confirms, RoundReadsOff;
    forall i | 0 <= i < |rounds| ensures Confirms(rounds[i]) <==> RoundReadsOff(rounds[i]) {
      ConfirmsExactly(rounds[i]);
    }
    if SomeConfirms(rounds) {
      var i :| 0 <= i < |rounds| && Confirms(rounds[i]);
      assert rounds[i] in rounds && RoundReadsOff(rounds[i]);
    }
  }

  lemma DisableSucceedsExactly(d: Disabling, motors: nat)
    requires 0 < motors && DisablingFull(d, motors)
    ensures DisableSucceeds(d) <==> TurnsOff(d)
  {
    hide SomeConfirms, RoundReadsOff;
    SomeConfirmsExactly(d.first, motors);
    SomeConfirmsExactly(d.second, motors);
  }

  lemma ReadExactly(snapshot: Snapshot)
    ensures AllDisabled(snapshot) <==> ReadsOff(snapshot)
    ensures AnyFault(snapshot) <==> ReportsFault(snapshot)
    ensures |snapshot| > 0 ==> (PowerOf(snapshot) == AllOff <==> ReadsOff(snapshot))
  {
    if ReportsFault(snapshot) {
      var k :| 0 <= k < |snapshot| && snapshot[k].status.Some? && 1 < snapshot[k].status.value;
      assert FaultAt(snapshot, k);
    }
    if |snapshot| > 0 {
      PowerOffExactly(snapshot);
    }
  }

  lemma PowerOffExactly(snapshot: Snapshot)
    requires |snapshot| > 0
    ensures PowerOf(snapshot) == AllOff <==> ReadsOff(snapshot)
  {
    if ReadsOff(snapshot) {
      assert HasStatus(snapshot, 0, 0);
      assert forall i: nat :: i < |snapshot| ==> !HasStatus(snapshot, i, 1) && !FaultAt(snapshot, i);
    } else {
      var k: nat :| k < |snapshot| && snapshot[k].status != Some(0);
      assert snapshot[k].status.None? || FaultAt(snapshot, k) || HasStatus(snapshot, k, 1);
    }
  }

  // ---------- What maintenance asks ----------

  /** Motor k of the snapshot is not fit for the operation, in a way that latches a fault. */
  predicate Unfit(op: Operation, snapshot: Snapshot, k: nat)
    requires k < |snapshot|
  {
    || snapshot[k].status.None? || !snapshot[k].finite
    || (op != ClearFaults && snapshot[k].status != Some(0))
  }

  /** The motors are fit for the operation: known, finite, off unless it is their faults that are cleared, and at
      rest where their zero is set. */
  predicate FitTo(op: Operation, m: Maintenance, n: nat)
    requires n <= |m.before.snapshot|
  {
    forall k :: 0 <= k < n ==> !Unfit(op, m.before.snapshot, k) && !(op == SetZero && k in m.moving)
  }

  /** The first motor that is not fit is so in a way that latches a fault. */
  ghost predicate FirstUnfit(op: Operation, m: Maintenance) {
    exists k: nat :: k < |m.before.snapshot| && Unfit(op, m.before.snapshot, k) && FitTo(op, m, k)
  }

  predicate Fit(op: Operation, m: Maintenance) {
    m.transportOk && m.before.complete && FitTo(op, m, |m.before.snapshot|) && m.supported
  }

  /** The operation was carried out and read back from every motor, off and settled. */
  predicate Completed(m: Maintenance) {
    m.commandsOk && m.after.complete && ReadsOff(m.after.snapshot) && m.settled
  }

  predicate Permitted(s: State, op: Operation) {
    s.mode == Ready || (op == ClearFaults && s.mode == Fault && !s.estop)
  }

  /** A failure that latches a fault. */
  ghost predicate FailsBadly(op: Operation, m: Maintenance) {
    || !m.transportOk || !m.before.complete || FirstUnfit(op, m)
    || (Fit(op, m) && !Completed(m))
  }

  lemma {:induction false} MotorCodes(op: Operation, m: Maintenance, i: nat)
    requires i <= |m.before.snapshot| && FitTo(op, m, i)
    ensures MotorCodeFrom(op, m.before.snapshot, m.moving, i) == Ok <==> FitTo(op, m, |m.before.snapshot|)
    ensures MotorCodeFrom(op, m.before.snapshot, m.moving, i) in {Feedback, NotDisabled} <==> FirstUnfit(op, m)
    ensures MotorCodeFrom(op, m.before.snapshot, m.moving, i) in {Ok, Feedback, NotDisabled, NotStationary}
    decreases |m.before.snapshot| - i
  {
    var snapshot := m.before.snapshot;
    if i < |snapshot| {
      if Unfit(op, snapshot, i) {
      } else if op == SetZero && i in m.moving {
        assert forall k: nat :: i < k <= |snapshot| ==> !FitTo(op, m, k);
      } else {
        MotorCodes(op, m, i + 1);
      }
    }
  }

  lemma MaintenanceExactly(s: State, op: Operation, m: Maintenance)
    ensures MaintenanceCode(s, op, m) == Ok <==> Permitted(s, op) && Fit(op, m) && Completed(m)
    ensures Latches(s, op, m) <==> Permitted(s, op) && FailsBadly(op, m)
  {
    ReadExactly(m.after.snapshot);
    MotorCodes(op, m, 0);
    hide MotorCodeFrom, ReadsOff, AllDisabled, FitTo, FirstUnfit;
  }

  // ---------- What an iteration of the worker finds ----------

  /** No command in time after enabling, or none sent in time while commands stream. */
  predicate TimesOut(s: State, it: Iteration) {
    var a := s.activity;
    || (s.mode == Mode.Enabled && it.graceElapsed && !a.successful && !a.accepted && !a.planning)
    || (s.mode in {Running, Degraded, PartiallyEnabled} && a.successful && it.timedOut)
  }

  /** The arm is controlled in this iteration. */
  predicate Controls(s: State, it: Iteration) {
    s.mode in {Mode.Enabled, Running, Degraded, PartiallyEnabled} && it.controlDue
  }

  predicate ControlsGrippers(s: State, it: Iteration) {
    s.mode in {Mode.Enabled, Running, Degraded, PartiallyEnabled} && it.gripperDue
  }

  /** Frames that could not be sent have failed too often. */
  predicate SendsExhausted(s: State, it: Iteration, c: Config)
    requires it.control.NotSent?
  {
    var misses := s.failures.sends + if it.control.counted then 1 else 0;
    misses == 0 || c.feedbackThreshold <= misses
  }

  /** The stages before the feedback check let the iteration go on. */
  predicate ControlPasses(s: State, it: Iteration) {
    !s.stopping && !TimesOut(s, it) && (Controls(s, it) ==> it.control.Sent?)
  }

  /** Feedback is looked at in this iteration. */
  predicate Checks(s: State, it: Iteration) {
    && it.feedbackDue
    && (s.mode in {Running, Degraded, PartiallyEnabled, SafeHold, SafeStop}
        || (s.mode == Fault && s.estop && s.activity.holding))
  }

  /** Motor k must not report what it does: a fault, being off though not on purpose, or numbers that are none. */
  predicate Alarming(s: State, snapshot: Snapshot, k: nat)
    requires k < |snapshot|
  {
    match snapshot[k].status
    case None => false
    case Some(status) => 1 < status || (status == 0 && k !in s.activity.parked) || !snapshot[k].finite
  }

  predicate AnswersWell(s: State, snapshot: Snapshot, k: nat)
    requires k < |snapshot|
  {
    snapshot[k].recent && snapshot[k].status.Some? && !Alarming(s, snapshot, k)
  }

  /** The first channel out of order is disconnected. */
  ghost predicate ChannelLost(channels: seq<Channel>) {
    exists i :: 0 <= i < |channels| && !channels[i].connected
                && forall k :: 0 <= k < i ==> channels[k].queried && channels[k].connected && channels[k].healthy
  }

  ghost predicate Alarm(s: State, it: Iteration) {
    ChannelLost(it.channels) || exists k: nat :: k < |it.snapshot| && Alarming(s, it.snapshot, k)
  }

  /** All channels are in order, and every motor answers recently and without alarm. */
  predicate FeedbackGood(s: State, it: Iteration) {
    && (forall i :: 0 <= i < |it.channels| ==>
          it.channels[i].queried && it.channels[i].connected && it.channels[i].healthy)
    && (forall k: nat :: k < |it.snapshot| ==> AnswersWell(s, it.snapshot, k))
  }

  predicate FeedbackPasses(s: State, it: Iteration) {
    ControlPasses(s, it) && (Checks(s, it) ==> FeedbackGood(s, it))
  }

  lemma AlarmingExactly(s: State, snapshot: Snapshot, k: nat)
    requires k < |snapshot|
    ensures SevereAt(s, snapshot, k) <==> Alarming(s, snapshot, k)
  {
  }

  lemma ChannelLostExactly(channels: seq<Channel>)
    ensures NamedDisconnected(channels) <==> ChannelLost(channels)
  {
    if ChannelLost(channels) {
      var i :| 0 <= i < |channels| && !channels[i].connected
               && forall k :: 0 <= k < i ==> channels[k].queried && channels[k].connected && channels[k].healthy;
      assert NamedChannel(channels, i);
    }
    if NamedDisconnected(channels) {
      var i: nat :| i < |channels| && NamedChannel(channels, i) && !channels[i].connected;
      forall k | 0 <= k < i ensures channels[k].queried && channels[k].connected && channels[k].healthy {
        assert channels[..i][k] == channels[k];
      }
    }
  }

  lemma FeedbackExactly(s: State, it: Iteration)
    ensures FeedbackHealthy(s, it) <==> FeedbackGood(s, it)
    ensures FeedbackSevere(s, it) <==> Alarm(s, it)
    ensures Alarm(s, it) ==> !FeedbackGood(s, it)
  {
    ChannelLostExactly(it.channels);
    forall k: nat | k < |it.snapshot|
      ensures SevereAt(s, it.snapshot, k) <==> Alarming(s, it.snapshot, k)
      ensures HealthyAt(s, it.snapshot, k) <==> AnswersWell(s, it.snapshot, k)
    {
      AlarmingExactly(s, it.snapshot, k);
    }
    hide SevereAt, Alarming, NamedDisconnected, HealthyAt, ChannelLost;
    if Alarm(s, it) && !ChannelLost(it.channels) {
      var k: nat :| k < |it.snapshot| && Alarming(s, it.snapshot, k);
      assert !AnswersWell(s, it.snapshot, k);
    }
    if ChannelLost(it.channels) {
      LostIsNotGood(s, it);
    }
  }

  lemma LostIsNotGood(s: State, it: Iteration)
    requires ChannelLost(it.channels)
    ensures !FeedbackGood(s, it)
  {
  }

  /** Why the worker stops the arm protectively. */
  ghost predicate StopReason(s: State, it: Iteration, c: Config) {
    && !s.stopping
    && (|| TimesOut(s, it)
        || (Controls(s, it) && it.control.NotSent? && SendsExhausted(s, it, c))
        || (ControlPasses(s, it) && Checks(s, it) && s.mode == Degraded && !FeedbackGood(s, it) && !Alarm(s, it)
            && 3 * c.feedbackThreshold <= s.failures.feedback + 1)
        || (FeedbackPasses(s, it) && ControlsGrippers(s, it) && it.gripper.GripperNotSent?))
  }

  /** Why the worker faults at once. */
  ghost predicate FaultReason(s: State, it: Iteration, c: Config) {
    || (ControlPasses(s, it) && Checks(s, it) && Alarm(s, it))
    || (FeedbackPasses(s, it) && ControlsGrippers(s, it) && it.gripper.GripperFault?)
    || (FeedbackPasses(s, it) && s.mode in {SafeHold, SafeStop} && it.holdDue && !it.holdSent
        && c.holdThreshold <= s.failures.holds + 1)
  }

  /** A command was sent in this iteration: one of a user, or a new one of a gripper. */
  predicate SendsCommand(s: State, it: Iteration) {
    || (ControlPasses(s, it) && Controls(s, it) && (it.control.user || it.control.newGripper))
    || (FeedbackPasses(s, it) && ControlsGrippers(s, it) && it.gripper.GripperSent? && it.gripper.newCommand)
  }

  /** The first command after enabling was sent, and the grippers did not fail behind it. */
  predicate BecomesRunning(s: State, it: Iteration) {
    && s.mode == Mode.Enabled && SendsCommand(s, it)
    && (ControlsGrippers(s, it) ==> it.gripper.GripperSent?)
  }

  ghost predicate BecomesDegraded(s: State, it: Iteration, c: Config) {
    && s.mode == Running && ControlPasses(s, it) && Checks(s, it) && !FeedbackGood(s, it) && !Alarm(s, it)
    && c.feedbackThreshold <= s.failures.feedback + 1
  }

  /** The mode an iteration leads to: the arm stops where the hold can be sent, and the runtime faults where not. */
  ghost function ModeAfter(s: State, it: Iteration, c: Config): Mode {
    if StopReason(s, it, c) then (if it.hold.arm then SafeStop else Fault)
    else if FaultReason(s, it, c) then Fault
    else if BecomesDegraded(s, it, c) then Degraded
    else if BecomesRunning(s, it) then Running
    else s.mode
  }

  lemma FaultLeads(s: State, hold: Hold)
    ensures Faulted(s, hold, true).mode == if s.mode == Disconnected then Disconnected else Fault
    ensures Faulted(s, hold, true).activity.successful == s.activity.successful
  {
  }

  lemma StopLeads(s: State, hold: Hold)
    requires Controlled(s.mode)
    ensures StoppedOrFaulted(s, hold).mode == (if hold.arm then SafeStop else Fault)
    ensures StoppedOrFaulted(s, hold).activity.successful == s.activity.successful
  {
    hide Faulted;
    FaultLeads(Holding(s, hold.Any()), hold);
  }

  lemma ControlLeads(s: State, it: Iteration, c: Config)
    requires !s.stopping && !TimesOut(s, it)
    ensures var (s', done) := ControlStage(s, it, c);
            && (done <==> !ControlPasses(s, it))
            && (done ==> s'.mode == ModeAfter(s, it, c))
            && (!done ==>
                  && s' == s.(mode := s'.mode, activity := s'.activity, failures := s'.failures)
                  && s'.failures.feedback == s.failures.feedback && s'.failures.holds == s.failures.holds
                  && s'.activity.holding == s.activity.holding && s'.activity.parked == s.activity.parked)
            && (!done ==> s'.mode == (if s.mode == Mode.Enabled && Controls(s, it)
                                         && (it.control.user || it.control.newGripper) then Running else s.mode))
            && s'.activity.successful == (s.activity.successful || (ControlPasses(s, it) && Controls(s, it)
                                           && (it.control.user || it.control.newGripper)))
  {
    hide StoppedOrFaulted, FeedbackGood, Alarm;
    if Controls(s, it) && it.control.NotSent? {
      var missed := if it.control.counted then s.(failures := s.failures.(sends := s.failures.sends + 1)) else s;
      StopLeads(missed, it.hold);
    }
  }

  lemma MissLeads(s: State, it: Iteration, c: Config)
    requires Watched(s) && !FeedbackGood(s, it)
    ensures var s' := FeedbackMissed(s, it, c);
            && s'.activity.successful == s.activity.successful
            && s'.mode == (if Alarm(s, it) then (if s.mode == Disconnected then Disconnected else Fault)
                           else if s.mode == Degraded && 3 * c.feedbackThreshold <= s.failures.feedback + 1
                           then (if it.hold.arm then SafeStop else Fault)
                           else if s.mode == Running && c.feedbackThreshold <= s.failures.feedback + 1 then Degraded
                           else s.mode)
  {
    hide StoppedOrFaulted, FeedbackSevere, FeedbackHealthy, FeedbackGood, Alarm, AnyFault;
    FeedbackExactly(s, it);
    var failed := Missing(s, AnyFault(it.snapshot));
    if s.mode == Degraded {
      StopLeads(failed, it.hold);
    }
  }

  lemma GripperLeads(s: State, it: Iteration)
    requires Controlled(s.mode)
    ensures var (s', done) := GripperStage(true, s, it);
            && (done <==> !it.gripper.GripperSent?)
            && (it.gripper.GripperFault? ==> s'.mode == Fault)
            && (it.gripper.GripperNotSent? ==> s'.mode == if it.hold.arm then SafeStop else Fault)
            && (it.gripper.GripperSent? ==>
                  && s'.mode == (if s.mode == Mode.Enabled && it.gripper.newCommand then Running else s.mode)
                  && s'.failures == s.failures)
            && s'.activity.successful
               == (s.activity.successful || (it.gripper.GripperSent? && it.gripper.newCommand))
  {
    hide StoppedOrFaulted;
    if it.gripper.GripperNotSent? {
      StopLeads(s.(failures := s.failures.(sends := s.failures.sends + 1)), it.hold);
    }
  }

  lemma HoldLeads(due: bool, s: State, it: Iteration, c: Config)
    requires due ==> s.mode in {SafeHold, SafeStop, Fault}
    ensures var s' := HoldStage(due, s, it, c);
            && s'.activity.successful == s.activity.successful
            && s'.mode == if due && s.mode != Fault && !it.holdSent && c.holdThreshold <= s.failures.holds + 1 then Fault
                          else s.mode
  {
    hide Faulted;
    if due && s.mode != Fault && !it.holdSent {
      FaultLeads(HoldMissed(s), it.hold);
    }
  }

  /** Feedback is judged by what is parked alone. */
  lemma SameJudgement(s: State, t: State, it: Iteration)
    requires s.activity.parked == t.activity.parked
    ensures FeedbackGood(s, it) <==> FeedbackGood(t, it)
    ensures Alarm(s, it) <==> Alarm(t, it)
  {
    assert forall k: nat :: k < |it.snapshot| ==> Alarming(s, it.snapshot, k) == Alarming(t, it.snapshot, k);
    assert forall k: nat :: k < |it.snapshot| ==> AnswersWell(s, it.snapshot, k) == AnswersWell(t, it.snapshot, k);
  }

  /** The state behind a control stage that let the iteration go on. */
  predicate BehindControl(s: State, t: State, it: Iteration) {
    && ControlPasses(s, it) && t == s.(mode := t.mode, activity := t.activity, failures := t.failures)
    && t.failures.feedback == s.failures.feedback && t.failures.holds == s.failures.holds
    && t.activity.holding == s.activity.holding && t.activity.parked == s.activity.parked
    && t.mode == (if s.mode == Mode.Enabled && Controls(s, it) && (it.control.user || it.control.newGripper)
                  then Running else s.mode)
    && t.activity.successful
       == (s.activity.successful || (Controls(s, it) && (it.control.user || it.control.newGripper)))
  }

  /** The stages behind the control stage. */
  function Rest(s: State, t: State, it: Iteration, c: Config): State {
    var (checked, over) := FeedbackStage(Watched(s) && it.feedbackDue, t, it, c);
    if over then checked
    else
      var (gripped, ended) := GripperStage(Controlled(s.mode) && it.gripperDue, checked, it);
      if ended then gripped else HoldStage(HoldDue(s, it), gripped, it, c)
  }

  lemma BadFeedbackLeads(s: State, t: State, it: Iteration, c: Config)
    requires BehindControl(s, t, it) && Checks(s, it) && !FeedbackGood(s, it)
    ensures Rest(s, t, it, c).mode == ModeAfter(s, it, c)
    ensures Rest(s, t, it, c).activity.successful == (s.activity.successful || SendsCommand(s, it))
  {
    hide FeedbackMissed, FeedbackGood, Alarm, FeedbackHealthy;
    SameJudgement(s, t, it);
    FeedbackExactly(t, it);
    MissLeads(t, it, c);
  }

  lemma GoodFeedbackLeads(s: State, t: State, it: Iteration, c: Config)
    requires BehindControl(s, t, it) && (Checks(s, it) ==> FeedbackGood(s, it))
    ensures Rest(s, t, it, c).mode == ModeAfter(s, it, c)
    ensures Rest(s, t, it, c).activity.successful == (s.activity.successful || SendsCommand(s, it))
  {
    hide FeedbackGood, Alarm, FeedbackHealthy, FeedbackMissed, GripperStage, HoldStage;
    SameJudgement(s, t, it);
    FeedbackExactly(t, it);
    var checked := FeedbackStage(Watched(s) && it.feedbackDue, t, it, c).0;
    assert checked == t.(failures := checked.failures) && checked.failures.holds == s.failures.holds;
    GrippersAndHoldLead(s, t, checked, it, c);
  }

  lemma GrippersAndHoldLead(s: State, t: State, checked: State, it: Iteration, c: Config)
    requires BehindControl(s, t, it) && FeedbackPasses(s, it)
    requires Alarm(s, it) ==> !FeedbackGood(s, it)
    requires checked == t.(failures := checked.failures) && checked.failures.holds == s.failures.holds
    ensures var (gripped, ended) := GripperStage(Controlled(s.mode) && it.gripperDue, checked, it);
            var s' := if ended then gripped else HoldStage(HoldDue(s, it), gripped, it, c);
            && s'.mode == ModeAfter(s, it, c)
            && s'.activity.successful == (s.activity.successful || SendsCommand(s, it))
  {
    hide FeedbackGood, Alarm, HoldStage, GripperStage;
    if ControlsGrippers(s, it) {
      GripperLeads(checked, it);
      HoldLeads(false, GripperStage(true, checked, it).0, it, c);
    } else {
      GripperNotDue(checked, it);
      HoldLeads(HoldDue(s, it), checked, it, c);
    }
  }

  lemma GripperNotDue(s: State, it: Iteration)
    ensures GripperStage(false, s, it) == (s, false)
  {
  }

  /** An iteration leads exactly into the mode its findings call for, and a command counts as sent exactly if one
      was sent before or in it. */
  lemma WorkLeads(s: State, it: Iteration, c: Config)
    ensures Iterated(s, it, c).mode == ModeAfter(s, it, c)
    ensures Iterated(s, it, c).activity.successful == (s.activity.successful || SendsCommand(s, it))
  {
    hide ControlStage, FeedbackStage, GripperStage, HoldStage, StoppedOrFaulted, FeedbackGood, Alarm;
    if s.stopping {
    } else if TimesOut(s, it) {
      StopLeads(s, it.hold);
    } else if s.mode == Ready && it.readyDue {
    } else {
      ControlLeads(s, it, c);
      var (t, done) := ControlStage(s, it, c);
      if !done {
        if Checks(s, it) && !FeedbackGood(s, it) {
          BadFeedbackLeads(s, t, it, c);
        } else {
          GoodFeedbackLeads(s, t, it, c);
        }
      }
    }
  }

  // ---------- The causes of every mode ----------

  /** A power batch is taken on. */
  predicate TakesBatch(s: State, b: Batch) {
    && s.mode != Disconnected && !s.stopping
    && (b.enable ==> s.mode in {Ready, PartiallyEnabled} && !s.faultLatched && b.canEnable)
  }

  /** A batch to enable could not be undone. */
  predicate BatchStuck(b: Batch) {
    b.enable && b.rolledBack && !b.rollbackConfirmed
  }

  /** After the batch the power of the motors decides the mode. */
  predicate BatchDecides(s: State, b: Batch) {
    TakesBatch(s, b) && !BatchStuck(b) && !s.faultLatched && (b.enable || !Abnormal(s.mode))
  }

  /** A recovery disabled every motor, cleared faults and found everything in order. */
  ghost predicate RecoveryPasses(s: State, r: Recovering) {
    && (s.mode == Disconnected ==> r.connecting.complete)
    && TurnsOff(r.disabling) && r.cleared && r.healthy && ReadsOff(r.health) && r.configured
  }

  ghost predicate ReadyCause(s: State, step: Step) {
    match step
    case Connect(c) =>
      && !s.stopping && c.complete && !s.estop && !s.motorFault && !ReportsFault(c.snapshot)
      && (s.mode == Disconnected || (s.mode == Fault && s.faultLatched && !c.cachedFault && ReadsOff(c.snapshot)))
    case Disable(d, _) => s.mode != Disconnected && !(s.mode == Fault && s.faultLatched) && TurnsOff(d)
    case SetPower(b) => BatchDecides(s, b) && ReadsOff(b.after) && !(b.enable && b.succeeded)
    case QueryPower(complete, snapshot) => s.mode == PartiallyEnabled && complete && ReadsOff(snapshot)
    case Maintain(op, m) => Permitted(s, op) && Fit(op, m) && Completed(m)
    case BeginRecovery(r) => !s.stopping && RecoveryPasses(s, r)
    case FinishRecovery(d, _, _) => s.mode != Disconnected && TurnsOff(d)
    case _ => false
  }

  ghost predicate PartiallyEnabledCause(s: State, step: Step) {
    match step
    case SetPower(b) => BatchDecides(s, b) && (!ReadsOff(b.after) || (b.enable && b.succeeded))
    case QueryPower(complete, snapshot) => s.mode == Ready && complete && !ReadsOff(snapshot)
    case _ => false
  }

  ghost predicate RunningCause(s: State, step: Step) {
    match step
    case TakeOver => true
    case Work(it) => BecomesRunning(s, it)
    case _ => false
  }

  ghost predicate DegradedCause(s: State, step: Step, config: Config) {
    step.Work? && BecomesDegraded(s, step.it, config)
  }

  ghost predicate SafeHoldCause(s: State, step: Step) {
    step.GripperFailed? && s.mode == Running && s.activity.successful && step.captured
  }

  ghost predicate SafeStopCause(s: State, step: Step, config: Config) {
    step.Work? && StopReason(s, step.it, config) && step.it.hold.arm
  }

  ghost predicate DisconnectedCause(s: State, step: Step) {
    step.Close? && !s.stopping
  }

  ghost predicate FaultCause(s: State, step: Step, config: Config) {
    match step
    case Connect(c) =>
      s.mode == Disconnected && !s.stopping && c.complete && (s.estop || s.motorFault || ReportsFault(c.snapshot))
    case Enable(e) =>
      s.mode in {Ready, PartiallyEnabled} && !s.faultLatched && e.WithCallback? && !TurnsOn(e, config.motors, false)
    case EnableRecovery(e, _, _) => !EnabledCause(s, step, config)
    case Disable(d, _) => s.mode != Disconnected && !TurnsOff(d)
    case SetPower(b) => TakesBatch(s, b) && BatchStuck(b)
    case Maintain(op, m) => Permitted(s, op) && FailsBadly(op, m)
    case TimeOutClearing(_) => true
    case Estop(_) => s.mode != Disconnected && !s.estop
    case GripperFailed(_, _) => !SafeHoldCause(s, step)
    case Work(it) => FaultReason(s, it, config) || (StopReason(s, it, config) && !it.hold.arm)
    case BeginRecovery(r) => !s.stopping && !RecoveryPasses(s, r)
    case PollRecovery(feedback, _, _, _) => !feedback || s.mode == SafeStop || s.mode == Degraded
    case GiveUpRecovery(_, _) => true
    case FinishRecovery(d, _, _) => s.mode == Disconnected || !TurnsOff(d)
    case _ => false
  }

  ghost predicate Cause(s: State, step: Step, config: Config, mode: Mode) {
    match mode
    case Disconnected => DisconnectedCause(s, step)
    case Ready => ReadyCause(s, step)
    case Enabled => EnabledCause(s, step, config)
    case Running => RunningCause(s, step)
    case SafeHold => SafeHoldCause(s, step)
    case Fault => FaultCause(s, step, config)
    case Degraded => DegradedCause(s, step, config)
    case SafeStop => SafeStopCause(s, step, config)
    case PartiallyEnabled => PartiallyEnabledCause(s, step)
  }

  /** The mode changes exactly as the causes say. */
  ghost predicate ModeFollows(s: State, step: Step, config: Config, to: Mode) {
    forall mode :: mode != s.mode ==> (to == mode <==> Cause(s, step, config, mode))
  }

  lemma ConnectFollows(s: State, c: Connecting, config: Config)
    ensures ModeFollows(s, Connect(c), config, Connected(s, c).mode)
  {
    ReadExactly(c.snapshot);
    hide ReadsOff, ReportsFault, AllDisabled, AnyFault;
  }

  lemma EnableFollows(s: State, step: Step, config: Config)
    requires SafetyProperties.Enabled(s, step, config) && (step.Enable? || step.EnableRecovery?)
    ensures ModeFollows(s, step, config, Next(s, step, config).mode)
  {
    EnableCalls(s, step, config);
    EnableUnchanged(s, step, config);
    hide Next, EnabledCause, TurnsOn;
  }

  lemma EnableUnchanged(s: State, step: Step, config: Config)
    requires SafetyProperties.Enabled(s, step, config) && (step.Enable? || step.EnableRecovery?)
    ensures var to := Next(s, step, config).mode;
            && (to == s.mode || to == Mode.Enabled || to == Fault)
            && (to != s.mode ==> (to == Fault <==> FaultCause(s, step, config)))
            && (s.mode != Fault ==> (to == Fault <==> FaultCause(s, step, config)))
  {
    hide EnableConfirmed, DisableSucceeds, EnabledAtRound;
    if step.e.WithCallback? {
      EnableConfirmedExactly(step.e.rounds, config.motors);
    }
  }

  lemma DisableFollows(s: State, d: Disabling, faultReported: bool, config: Config)
    requires DisablingFull(d, config.motors)
    ensures ModeFollows(s, Disable(d, faultReported), config, DisabledBy(s, d, faultReported).mode)
  {
    DisableSucceedsExactly(d, config.motors);
    hide DisableSucceeds, TurnsOff;
  }

  lemma PowerFollows(s: State, b: Batch, config: Config)
    requires |b.after| == config.motors
    ensures ModeFollows(s, SetPower(b), config, PoweredBy(s, b).mode)
  {
    ReadExactly(b.after);
    hide PowerOf, ReadsOff, AllIndices;
  }

  lemma QueryFollows(s: State, complete: bool, snapshot: Snapshot, config: Config)
    requires |snapshot| == config.motors
    ensures ModeFollows(s, QueryPower(complete, snapshot), config, QueriedBy(s, complete, snapshot).mode)
  {
    ReadExactly(snapshot);
    hide PowerOf, ReadsOff;
  }

  lemma MaintainFollows(s: State, op: Operation, m: Maintenance, config: Config)
    ensures ModeFollows(s, Maintain(op, m), config, Maintained(s, op, m).mode)
  {
    MaintenanceExactly(s, op, m);
    CodeLatches(s, op, m);
    hide MaintenanceCode, Latches, FailsBadly, Fit, Completed, Permitted;
  }

  lemma CodeLatches(s: State, op: Operation, m: Maintenance)
    ensures Latches(s, op, m) ==> MaintenanceCode(s, op, m) != Ok
    ensures !Permitted(s, op) ==> MaintenanceCode(s, op, m) == InvalidState
  {
    hide MotorCodeFrom, AllDisabled;
  }

  lemma EstopFollows(s: State, hold: Hold, config: Config)
    ensures ModeFollows(s, Estop(hold), config, EmergencyStopped(s, hold).mode)
  {
  }

  lemma GripperFailedFollows(s: State, captured: bool, hold: Hold, config: Config)
    requires Controlled(s.mode)
    ensures ModeFollows(s, GripperFailed(captured, hold), config, GripperSendFailed(s, captured, hold).mode)
  {
    hide Faulted;
    FaultLeads(s.(failures := s.failures.(sends := s.failures.sends + 1)), hold);
  }

  lemma TimeOutFollows(s: State, faultReported: bool, config: Config)
    ensures ModeFollows(s, TimeOutClearing(faultReported), config, ClearingTimedOut(s, faultReported).mode)
  {
  }

  lemma CommandsFollow(s: State, step: Step, config: Config)
    requires SafetyProperties.Enabled(s, step, config)
    requires step.TakeOver? || step.AcceptCommand? || step.PlanCommand?
    ensures ModeFollows(s, step, config, Next(s, step, config).mode)
  {
  }

  lemma CloseFollows(s: State, d: Disabling, faultReported: bool, config: Config)
    ensures ModeFollows(s, Close(d, faultReported), config, Closed(s, d, faultReported).mode)
  {
    hide DisabledBy;
  }

  lemma WorkFollows(s: State, it: Iteration, config: Config)
    ensures ModeFollows(s, Work(it), config, Iterated(s, it, config).mode)
  {
    WorkLeads(s, it, config);
    FeedbackExactly(s, it);
    hide Iterated, FeedbackGood, Alarm;
  }

  lemma BeginFollows(s: State, r: Recovering, config: Config)
    requires DisablingFull(r.disabling, config.motors)
    ensures ModeFollows(s, BeginRecovery(r), config, RecoveryBegun(s, r).mode)
  {
    DisableSucceedsExactly(r.disabling, config.motors);
    ReadExactly(r.health);
    hide DisableSucceeds, TurnsOff, ReadsOff, AllDisabled, Connected;
  }

  lemma RecoveryFollows(s: State, step: Step, config: Config)
    requires SafetyProperties.Enabled(s, step, config)
    requires step.PollRecovery? || step.GiveUpRecovery? || step.FinishRecovery?
    ensures ModeFollows(s, step, config, Next(s, step, config).mode)
  {
    hide DisableSucceeds, TurnsOff, DisabledBy;
    if step.FinishRecovery? {
      DisableSucceedsExactly(step.d, config.motors);
    }
  }

  /** Every step changes the mode exactly as its causes say. */
  lemma ModeNext(s: State, step: Step, config: Config)
    requires SafetyProperties.Enabled(s, step, config)
    ensures ModeFollows(s, step, config, Next(s, step, config).mode)
  {
    hide ModeFollows, Connected, EnabledBy, DisabledBy, PoweredBy, QueriedBy, Maintained, Closed, Iterated, RecoveryBegun,
      RecoveryEnabled, RecoveryPolled, RecoveryFinished, RecoveryFailed, EmergencyStopped, GripperSendFailed,
      ClearingTimedOut;
    match step
    case Connect(c) => ConnectFollows(s, c, config);
    case Enable(_) => EnableFollows(s, step, config);
    case EnableRecovery(_, _, _) => EnableFollows(s, step, config);
    case Disable(d, faultReported) => DisableFollows(s, d, faultReported, config);
    case SetPower(b) => PowerFollows(s, b, config);
    case QueryPower(complete, snapshot) => QueryFollows(s, complete, snapshot, config);
    case Maintain(op, m) => MaintainFollows(s, op, m, config);
    case Close(d, faultReported) => CloseFollows(s, d, faultReported, config);
    case Work(it) => WorkFollows(s, it, config);
    case BeginRecovery(r) => BeginFollows(s, r, config);
    case PollRecovery(_, _, _, _) => RecoveryFollows(s, step, config);
    case GiveUpRecovery(_, _) => RecoveryFollows(s, step, config);
    case FinishRecovery(_, _, _) => RecoveryFollows(s, step, config);
    case Estop(hold) => EstopFollows(s, hold, config);
    case GripperFailed(captured, hold) => GripperFailedFollows(s, captured, hold, config);
    case TimeOutClearing(faultReported) => TimeOutFollows(s, faultReported, config);
    case _ => CommandsFollow(s, step, config);
  }

  /** Step k of the run led into the mode it is in at the end, and the run stayed in it. */
  ghost predicate LedTo(steps: seq<Step>, config: Config, k: nat, mode: Mode) {
    && k < |steps|
    && var before := Run(steps[..k], config);
    && before.mode != mode && SafetyProperties.Enabled(before, steps[k], config) && Cause(before, steps[k], config, mode)
    && forall n :: k < n <= |steps| ==> Run(steps[..n], config).mode == mode
  }

  lemma LedFurther(steps: seq<Step>, config: Config, k: nat, mode: Mode)
    requires |steps| > 0 && LedTo(steps[..|steps| - 1], config, k, mode) && Run(steps, config).mode == mode
    ensures LedTo(steps, config, k, mode)
  {
    hide Next, SafetyProperties.Enabled, Cause;
    var shorter := steps[..|steps| - 1];
    assert steps[..|steps|] == steps;
    assert forall n :: 0 <= n <= |shorter| ==> shorter[..n] == steps[..n];
    assert steps[k] == shorter[k];
    forall n | k < n <= |steps| ensures Run(steps[..n], config).mode == mode {
      if n < |steps| {
        assert Run(shorter[..n], config).mode == mode;
      }
    }
  }

  lemma LedByLast(steps: seq<Step>, config: Config, mode: Mode)
    requires |steps| > 0 && Run(steps, config).mode == mode && Run(steps[..|steps| - 1], config).mode != mode
    ensures LedTo(steps, config, |steps| - 1, mode)
  {
    hide Next, SafetyProperties.Enabled, Cause;
    var last := |steps| - 1;
    var before := Run(steps[..last], config);
    assert steps[..|steps|] == steps;
    ModeNext(before, steps[last], config);
    assert Cause(before, steps[last], config, mode);
  }

  /** Over every run: the mode it ends in was entered by a step that is one of the causes of that mode, or the runtime
      was never connected. */
  lemma {:induction false} EveryModeHasACause(steps: seq<Step>, config: Config)
    ensures var mode := Run(steps, config).mode;
            || (exists k: nat :: LedTo(steps, config, k, mode))
            || (forall n :: 0 <= n <= |steps| ==> Run(steps[..n], config).mode == Disconnected)
  {
    hide Next, SafetyProperties.Enabled, Cause;
    if |steps| == 0 {
      assert Run(steps, config).mode == Disconnected;
    } else {
      var last := |steps| - 1;
      var shorter := steps[..last];
      var before, mode := Run(shorter, config), Run(steps, config).mode;
      assert steps[..|steps|] == steps;
      assert forall n :: 0 <= n <= last ==> shorter[..n] == steps[..n];
      if before.mode == mode {
        EveryModeHasACause(shorter, config);
        if exists k: nat :: LedTo(shorter, config, k, mode) {
          var k: nat :| LedTo(shorter, config, k, mode);
          LedFurther(steps, config, k, mode);
        } else {
          forall n | 0 <= n <= |steps| ensures Run(steps[..n], config).mode == Disconnected {
            if n <= last {
              assert steps[..n] == shorter[..n];
            } else {
              assert shorter[..last] == shorter;
            }
          }
        }
      } else {
        LedByLast(steps, config, mode);
      }
    }
  }

  /** So ENABLED is entered over every run only where the motors have just turned on: with a native callback, where
      a round read every motor of the product as enabled. */
  lemma EnabledIsConfirmed(steps: seq<Step>, config: Config) returns (k: nat)
    requires Run(steps, config).mode == Mode.Enabled
    ensures LedTo(steps, config, k, Mode.Enabled) && EnabledCause(Run(steps[..k], config), steps[k], config)
  {
    hide Next, SafetyProperties.Enabled, EnabledCause;
    EveryModeHasACause(steps, config);
    assert steps[..|steps|] == steps;
    k :| LedTo(steps, config, k, Mode.Enabled);
  }

  // ---------- Latches ----------

  ghost predicate LatchesAsSaid(s: State, step: Step, s': State) {
    && (s'.estop <==> step.Estop? || (s.estop && !(step.FinishRecovery? && s.mode != Disconnected && TurnsOff(step.d))))
    && (s'.stopping <==> s.stopping || step.Close?)
  }

  lemma LifecycleLatches(s: State, step: Step, config: Config)
    requires step.Connect? || step.Enable? || step.Disable? || step.Close?
    ensures LatchesAsSaid(s, step, Next(s, step, config))
  {
    hide AnyFault, AllDisabled, EnableConfirmed, DisableSucceeds, TurnsOff;
  }

  lemma PowerLatches(s: State, step: Step, config: Config)
    requires step.SetPower? || step.QueryPower? || step.Maintain? || step.TimeOutClearing?
    ensures LatchesAsSaid(s, step, Next(s, step, config))
  {
    hide PowerOf, AllIndices, MaintenanceCode, TurnsOff;
  }

  lemma CommandLatches(s: State, step: Step, config: Config)
    requires step.Estop? || step.GripperFailed? || step.TakeOver? || step.AcceptCommand? || step.PlanCommand?
    ensures LatchesAsSaid(s, step, Next(s, step, config))
  {
    hide TurnsOff;
  }

  lemma WorkLatches(s: State, it: Iteration, config: Config)
    ensures LatchesAsSaid(s, Work(it), Next(s, Work(it), config))
  {
    hide Iterated, TurnsOff;
    IteratedStep(s, it, config);
    NextIsIterated(s, it, config);
  }

  lemma RecoveryLatches(s: State, step: Step, config: Config)
    requires step.BeginRecovery? || step.EnableRecovery? || step.PollRecovery? || step.GiveUpRecovery?
    ensures LatchesAsSaid(s, step, Next(s, step, config))
  {
    hide DisableSucceeds, TurnsOff, AnyFault, AllDisabled, EnableConfirmed, RecoveryPrepares, RecoveryFailed, EnabledBy,
      Connected, EnableSucceeds;
    match step
    case BeginRecovery(r) =>
      KeptStopping(s, r.connecting, WithoutCallback(false, false));
      FailureKeepsStopping(s, r.faultReported, r.fallback);
      CheckedKeepsStopping(s, r);
      CheckedKeepsStopping(Connected(s, r.connecting), r);
    case EnableRecovery(e, faultReported, fallback) =>
      KeptStopping(s, Connecting(false, false, []), e);
      FailureKeepsStopping(EnabledBy(s, e), faultReported, fallback);
    case PollRecovery(_, _, faultReported, fallback) => FailureKeepsStopping(s, faultReported, fallback);
    case GiveUpRecovery(faultReported, fallback) => FailureKeepsStopping(s, faultReported, fallback);
  }

  lemma KeptStopping(s: State, c: Connecting, e: Enabling)
    ensures Connected(s, c).stopping == s.stopping && EnabledBy(s, e).stopping == s.stopping
  {
    hide AnyFault, AllDisabled, EnableConfirmed, DisableSucceeds;
  }

  lemma FailureKeepsStopping(s: State, faultReported: bool, fallback: Disabling)
    ensures RecoveryFailed(s, faultReported, fallback).stopping == s.stopping
  {
    hide DisableSucceeds;
  }

  lemma CheckedKeepsStopping(s: State, r: Recovering)
    ensures RecoveryChecked(s, r).stopping == s.stopping
  {
    hide DisableSucceeds, RecoveryPrepares;
  }

  lemma FinishLatches(s: State, step: Step, config: Config)
    requires SafetyProperties.Enabled(s, step, config) && step.FinishRecovery?
    ensures LatchesAsSaid(s, step, Next(s, step, config))
  {
    hide DisableSucceeds, TurnsOff, RecoveryFailed, DisabledBy;
    DisableSucceedsExactly(step.d, config.motors);
    DisableKeepsStopping(s, step.d, step.faultReported);
    FailureKeepsStopping(DisabledBy(s, step.d, step.faultReported), step.faultReported, step.fallback);
  }

  lemma DisableKeepsStopping(s: State, d: Disabling, faultReported: bool)
    ensures DisabledBy(s, d, faultReported).stopping == s.stopping
  {
    hide DisableSucceeds;
  }

  /** The emergency stop is set by its call and released by the confirmed end of a recovery alone; a shutdown is for
      good. */
  lemma LatchesFollow(s: State, step: Step, config: Config)
    requires SafetyProperties.Enabled(s, step, config)
    ensures LatchesAsSaid(s, step, Next(s, step, config))
  {
    hide Next, LatchesAsSaid, SafetyProperties.Enabled;
    match step
    case Connect(_) => LifecycleLatches(s, step, config);
    case Enable(_) => LifecycleLatches(s, step, config);
    case Disable(_, _) => LifecycleLatches(s, step, config);
    case Close(_, _) => LifecycleLatches(s, step, config);
    case SetPower(_) => PowerLatches(s, step, config);
    case QueryPower(_, _) => PowerLatches(s, step, config);
    case Maintain(_, _) => PowerLatches(s, step, config);
    case TimeOutClearing(_) => PowerLatches(s, step, config);
    case Work(it) => WorkLatches(s, it, config);
    case Estop(_) => CommandLatches(s, step, config);
    case GripperFailed(_, _) => CommandLatches(s, step, config);
    case TakeOver => CommandLatches(s, step, config);
    case AcceptCommand => CommandLatches(s, step, config);
    case PlanCommand(_) => CommandLatches(s, step, config);
    case FinishRecovery(_, _, _) => FinishLatches(s, step, config);
    case _ => RecoveryLatches(s, step, config);
  }
}
